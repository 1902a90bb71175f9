/** Reference-counted frames, page tables and copy-on-write (src/kalloc.c, src/vm.c) as an
    interleaved machine.  Processes run on several CPUs: only kalloc, kfree and the count
    updates are atomic (kmem.lock), so a fault reads the count in one event, takes a frame in
    the next, copies and maps it in the one after and lowers the old count in the last, and
    copyuvm maps a page in one event and counts it in the next.  What a process does to its own
    tables and to frames that nobody else can reach joins the locked section next to it. */
module CopyOnWrite {
  import opened Params

  function Filled(n: nat, x: byte): (r: Page)
    ensures |r| == n && forall i :: 0 <= i < n ==> r[i] == x
  {
    if n == 0 then [] else Filled(n - 1, x) + [x]
  }

  /** What a process owns a frame for: a user page, a page table, or the page directory. */
  datatype Slot = User(page: nat) | Table(pdx: nat) | Dir

  /** A slot of a process. */
  datatype Key = Key(p: nat, slot: Slot)

  /** A present entry. */
  datatype Pte = Pte(frame: nat, writable: bool, user: bool)

  /** A process between two atomic steps of the kernel: inside PageFault with the count it
      read, with a new frame to copy to, or with the old frame's count still to lower; or inside
      copyuvm having mapped a page for its child and not yet counted it. */
  datatype Activity =
    | Faulting(page: nat, count: nat)
    | Copying(page: nat, frame: nat)
    | Dropping(frame: nat)
    | Sharing(child: nat, page: nat)

  /** ptes holds the present entries of every process; embryo maps a child under
      construction to the parent that is forking it. */
  datatype State = State(frames: seq<Page>, refcnt: seq<nat>, free: seq<nat>,
                         procs: set<nat>, ptes: map<Key, Pte>,
                         busy: map<nat, Activity>, embryo: map<nat, nat>)

  datatype Event =
    | NewSpace(parent: nat, child: nat)
    | AddTable(p: nat, pdx: nat)
    | MapZero(p: nat, page: nat)
    | Protect(p: nat, page: nat)
    | ShareMap(parent: nat, child: nat, page: nat)
    | ShareCount(parent: nat)
    | Release(child: nat)
    | Unmap(p: nat, slot: Slot)
    | Reap(p: nat)
    | FaultRead(p: nat, page: nat)
    | FaultFinish(p: nat)
    | FaultCopy(p: nat)
    | FaultDrop(p: nat)
    | Store(p: nat, page: nat, off: nat, val: byte)

  function UserKey(p: nat, page: nat): Key {
    Key(p, User(page))
  }

  /** p exists and is between kernel activities. */
  predicate Idle(s: State, p: nat) {
    p in s.procs && p !in s.busy && p !in s.embryo
  }

  /** Someone may change p's page table now: p itself, or the parent building it. */
  predicate Editable(s: State, p: nat) {
    p in s.procs && if p in s.embryo then Idle(s, s.embryo[p]) else p !in s.busy
  }

  predicate Empty(s: State, p: nat) {
    forall k :: k in s.ptes ==> k.p != p
  }

  predicate Childless(s: State, p: nat) {
    forall c :: c in s.embryo ==> s.embryo[c] != p
  }

  /** The head of the free list, if there is one, is a frame. */
  predicate FreeHeadOk(s: State) {
    s.free != [] ==> s.free[0] < |s.refcnt| && s.free[0] < |s.frames|
  }

  predicate FrameOk(s: State, k: Key)
    requires k in s.ptes
  {
    s.ptes[k].frame < |s.refcnt| && s.ptes[k].frame < |s.frames|
  }

  predicate Enabled(s: State, e: Event) {
    && FreeHeadOk(s)
    && match e
       case NewSpace(parent, child) => Idle(s, parent) && child !in s.procs && Empty(s, child) && s.free != []
       case AddTable(p, pdx) => Editable(s, p) && Key(p, Table(pdx)) !in s.ptes && s.free != []
       case MapZero(p, page) =>
         && Editable(s, p) && s.free != []
         && UserKey(p, page) !in s.ptes && Key(p, Table(page / NPTENTRIES)) in s.ptes
       case Protect(p, page) => Idle(s, p) && UserKey(p, page) in s.ptes
       case ShareMap(parent, child, page) =>
         && Idle(s, parent) && child in s.embryo && s.embryo[child] == parent
         && UserKey(parent, page) in s.ptes
         && UserKey(child, page) !in s.ptes && Key(child, Table(page / NPTENTRIES)) in s.ptes
       case ShareCount(parent) =>
         && parent in s.busy && s.busy[parent].Sharing?
         && UserKey(s.busy[parent].child, s.busy[parent].page) in s.ptes
         && FrameOk(s, UserKey(s.busy[parent].child, s.busy[parent].page))
       case Release(child) => child in s.embryo && Idle(s, s.embryo[child])
       case Unmap(p, x) => Editable(s, p) && Key(p, x) in s.ptes && FrameOk(s, Key(p, x))
       case Reap(p) => Editable(s, p) && Empty(s, p) && Childless(s, p)
       case FaultRead(p, page) =>
         && Idle(s, p) && UserKey(p, page) in s.ptes && FrameOk(s, UserKey(p, page))
         && !s.ptes[UserKey(p, page)].writable && s.ptes[UserKey(p, page)].user
       case FaultFinish(p) =>
         && p in s.busy && s.busy[p].Faulting?
         && UserKey(p, s.busy[p].page) in s.ptes && FrameOk(s, UserKey(p, s.busy[p].page))
       case FaultCopy(p) =>
         && p in s.busy && s.busy[p].Copying? && s.busy[p].frame < |s.frames|
         && UserKey(p, s.busy[p].page) in s.ptes && FrameOk(s, UserKey(p, s.busy[p].page))
       case FaultDrop(p) => p in s.busy && s.busy[p].Dropping? && s.busy[p].frame < |s.refcnt|
       case Store(p, page, off, val) =>
         && Idle(s, p) && UserKey(p, page) in s.ptes && FrameOk(s, UserKey(p, page))
         && s.ptes[UserKey(p, page)].writable && s.ptes[UserKey(p, page)].user
         && off < |s.frames[s.ptes[UserKey(p, page)].frame]|
  }

  // ------------------------------------------------------------------- kalloc.c

  /** kalloc: pop the free list and set the count to one. */
  function Kalloc(s: State): State
    requires s.free != [] && s.free[0] < |s.refcnt|
  {
    s.(free := s.free[1..], refcnt := s.refcnt[s.free[0] := 1])
  }

  /** kfree: a counted frame loses one count; only an uncounted one goes on the free list. */
  function Kfree(s: State, f: nat): State
    requires f < |s.refcnt| && f < |s.frames|
  {
    if s.refcnt[f] > 0 then s.(refcnt := s.refcnt[f := s.refcnt[f] - 1])
    else s.(free := [f] + s.free, frames := s.frames[f := Filled(PGSIZE, 1)])
  }

  /** Adding (uint) -1 to a 32-bit count. */
  function Decremented(c: nat): nat {
    if c > 0 then c - 1 else 0xFFFF_FFFF
  }

  /** A slot takes the head of the free list, filled with data. */
  function TakeFrame(s: State, k: Key, data: Page, user: bool): State
    requires s.free != [] && FreeHeadOk(s)
  {
    Kalloc(s).(frames := s.frames[s.free[0] := data], ptes := s.ptes[k := Pte(s.free[0], true, user)])
  }

  /** PageFault's copy-on-write branch, acting on the count read before: the page becomes
      writable, or kalloc gives a frame for a copy.  With no frame left the process is killed
      and its memory does not change. */
  function CowFinish(s: State, p: nat, page: nat, count: nat): State
    requires UserKey(p, page) in s.ptes && FreeHeadOk(s)
  {
    var k := UserKey(p, page);
    if count == 1 then s.(ptes := s.ptes[k := s.ptes[k].(writable := true)], busy := s.busy - {p})
    else if s.free == [] then s.(busy := s.busy - {p})
    else Kalloc(s).(busy := s.busy[p := Copying(page, s.free[0])])
  }

  function Apply(s: State, e: Event): State
    requires Enabled(s, e)
  {
    match e
    case NewSpace(parent, child) =>
      TakeFrame(s, Key(child, Dir), Filled(PGSIZE, 0), false)
        .(procs := s.procs + {child}, embryo := s.embryo[child := parent])
    case AddTable(p, pdx) => TakeFrame(s, Key(p, Table(pdx)), Filled(PGSIZE, 0), false)
    case MapZero(p, page) => TakeFrame(s, UserKey(p, page), Filled(PGSIZE, 0), true)
    case Protect(p, page) =>
      s.(ptes := s.ptes[UserKey(p, page) := s.ptes[UserKey(p, page)].(writable := false)])
    case ShareMap(parent, child, page) =>
      var pte := s.ptes[UserKey(parent, page)].(writable := false);
      s.(ptes := s.ptes[UserKey(parent, page) := pte][UserKey(child, page) := pte],
         busy := s.busy[parent := Sharing(child, page)])
    case ShareCount(parent) =>
      var f := s.ptes[UserKey(s.busy[parent].child, s.busy[parent].page)].frame;
      s.(refcnt := s.refcnt[f := s.refcnt[f] + 1], busy := s.busy - {parent})
    case Release(child) => s.(embryo := s.embryo - {child})
    case Unmap(p, x) =>
      var t := Kfree(s, s.ptes[Key(p, x)].frame);
      t.(ptes := t.ptes - {Key(p, x)})
    case Reap(p) => s.(procs := s.procs - {p}, embryo := s.embryo - {p})
    case FaultRead(p, page) =>
      s.(busy := s.busy[p := Faulting(page, s.refcnt[s.ptes[UserKey(p, page)].frame])])
    case FaultFinish(p) => CowFinish(s, p, s.busy[p].page, s.busy[p].count)
    case FaultCopy(p) =>
      var k := UserKey(p, s.busy[p].page);
      s.(frames := s.frames[s.busy[p].frame := s.frames[s.ptes[k].frame]],
         ptes := s.ptes[k := Pte(s.busy[p].frame, true, true)],
         busy := s.busy[p := Dropping(s.ptes[k].frame)])
    case FaultDrop(p) =>
      var f := s.busy[p].frame;
      s.(refcnt := s.refcnt[f := Decremented(s.refcnt[f])], busy := s.busy - {p})
    case Store(p, page, off, val) =>
      var f := s.ptes[UserKey(p, page)].frame;
      s.(frames := s.frames[f := s.frames[f][off := val]])
  }
}
