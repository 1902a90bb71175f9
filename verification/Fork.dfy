/** copyuvm and freevm as the loops src/vm.c runs, on top of the atomic steps. */
module Fork {
  import opened Params
  import opened CopyOnWrite
  import opened CopyOnWriteProof

  const USERTOP := 0x8000_0000
  const USER_PAGES := 0x80000
  /** Page tables setupkvm creates: 56 for 0..PHYSTOP above KERNBASE, 8 for the devices. */
  const KERNEL_TABLES := 64

  function KernelPdx(i: nat): nat {
    if i < 56 then 512 + i else 1016 + (i - 56)
  }

  datatype Outcome = Done | NoMemory | Panic

  /** copyuvm walks the pages [1, HeapEnd) and [StackStart, USER_PAGES). */
  function HeapEnd(sz: nat): nat {
    if sz <= PGSIZE then 1 else (sz + PGSIZE - 1) / PGSIZE
  }

  function StackStart(stackSize: nat): nat
    requires stackSize <= USERTOP
  {
    (USERTOP - stackSize) / PGSIZE
  }

  // ------------------------------------------------------------ memories, on values

  ghost predicate OthersKept(m0: Memory, m: Memory, child: nat) {
    && (forall x: Place :: x.p != child ==> (x in m <==> x in m0))
    && (forall x: Place :: x in m && x.p != child ==> m[x] == m0[x])
  }

  /** The child has exactly the pages [1, a) and [b, c), each with the parent's bytes, and
      nobody else's memory differs from m0. */
  ghost predicate Copy(m0: Memory, m: Memory, parent: nat, child: nat, a: nat, b: nat, c: nat) {
    && OthersKept(m0, m, child)
    && (forall v: nat :: Place(child, v) in m <==> 1 <= v < a || b <= v < c)
    && (forall v: nat :: Place(child, v) in m ==>
          Place(parent, v) in m0 && m[Place(child, v)] == m0[Place(parent, v)])
  }

  lemma CopyStarts(m0: Memory, parent: nat, child: nat)
    requires forall x :: x in m0 ==> x.p != child
    ensures Copy(m0, m0, parent, child, 0, 1, 1)
  {
  }

  lemma CopyGrows(m0: Memory, m: Memory, m': Memory, parent: nat, child: nat, a: nat, b: nat, c: nat)
    requires Copy(m0, m, parent, child, a, b, c) && b <= c && parent != child && Place(parent, c) in m
    requires m' == m[Place(child, c) := m[Place(parent, c)]]
    ensures Copy(m0, m', parent, child, a, b, c + 1)
  {
  }

  lemma CopyKeeps(m0: Memory, m: Memory, parent: nat, child: nat, a: nat, b: nat, c: nat)
    requires Copy(m0, m, parent, child, a, b, c)
    ensures OthersKept(m0, m, child)
  {
  }

  lemma CopyMissing(m0: Memory, m: Memory, parent: nat, child: nat, a: nat, b: nat, c: nat)
    requires Copy(m0, m, parent, child, a, b, c) && parent != child
    requires Place(parent, c) !in m || Place(child, c) in m
    ensures Place(parent, c) !in m0 || 1 <= c < a
  {
  }

  /** The heap loop's [1, h) seen from the stack loop, which starts at b. */
  lemma CopyTurns(m0: Memory, m: Memory, parent: nat, child: nat, h: nat, b: nat)
    requires Copy(m0, m, parent, child, 0, 1, h)
    ensures Copy(m0, m, parent, child, h, b, b)
  {
  }

  /** No page is in both [1, a) and [b, c). */
  predicate Apart(a: nat, b: nat, c: nat) {
    a <= 1 || a <= b || c <= 1 || c <= b
  }

  lemma ApartNone(a: nat, b: nat)
    ensures Apart(a, b, b)
  {
  }

  lemma CopyFree(m0: Memory, m: Memory, parent: nat, child: nat, a: nat, b: nat, c: nat)
    requires Copy(m0, m, parent, child, a, b, c) && Place(child, c) !in m && Apart(a, b, c) && b <= c
    ensures Apart(a, b, c + 1)
  {
  }

  /** copyuvm cannot finish: a page it is to copy is not present, or it comes to one twice. */
  ghost predicate Stuck(m0: Memory, parent: nat, sz: nat, stackSize: nat)
    requires stackSize <= USERTOP
  {
    Missing(m0, parent, sz, stackSize) || !Apart(HeapEnd(sz), StackStart(stackSize), USER_PAGES)
  }

  ghost predicate Missing(m0: Memory, parent: nat, sz: nat, stackSize: nat)
    requires stackSize <= USERTOP
  {
    exists v :: (1 <= v < HeapEnd(sz) || StackStart(stackSize) <= v < USER_PAGES) && Place(parent, v) !in m0
  }

  lemma CopyNotMissing(m0: Memory, m: Memory, parent: nat, child: nat, sz: nat, stackSize: nat)
    requires stackSize <= USERTOP && Copy(m0, m, parent, child, HeapEnd(sz), StackStart(stackSize), USER_PAGES)
    ensures !Missing(m0, parent, sz, stackSize)
  {
    forall v: nat | 1 <= v < HeapEnd(sz) || StackStart(stackSize) <= v < USER_PAGES ensures Place(parent, v) in m0 {
      assert Place(child, v) in m;
    }
  }

  /** Once the child has no page left, the memories are the old ones. */
  lemma NothingLeft(m0: Memory, m: Memory, child: nat)
    requires OthersKept(m0, m, child)
    requires forall x :: x in m ==> x.p != child
    requires forall x :: x in m0 ==> x.p != child
    ensures m == m0
  {
  }

  // ------------------------------------------------- single steps, on machine states

  /** Child keys lie in the ranges freevm scans. */
  ghost predicate Bounded(s: State, child: nat) {
    && (forall v: nat :: UserKey(child, v) in s.ptes ==> v < USER_PAGES)
    && (forall i: nat :: Key(child, Table(i)) in s.ptes ==> i < NPTENTRIES)
  }

  /** child is being built by parent, which does nothing else. */
  ghost predicate Building(s: State, parent: nat, child: nat) {
    && Inv(s) && Idle(s, parent) && child in s.procs && child != parent
    && child in s.embryo && s.embryo[child] == parent && Bounded(s, child)
  }

  /** What an event of copyuvm or freevm does to the keys, the processes and what they do. */
  lemma KeysAfter(s: State, e: Event)
    requires Enabled(s, e)
    ensures var t := Apply(s, e);
      match e
      case NewSpace(parent, child) =>
        && t.ptes.Keys == s.ptes.Keys + {Key(child, Dir)} && t.procs == s.procs + {child}
        && t.embryo == s.embryo[child := parent] && t.busy == s.busy
      case AddTable(p, pdx) =>
        t.ptes.Keys == s.ptes.Keys + {Key(p, Table(pdx))} && t.procs == s.procs && t.embryo == s.embryo && t.busy == s.busy
      case Protect(p, page) =>
        t.ptes.Keys == s.ptes.Keys && t.procs == s.procs && t.embryo == s.embryo && t.busy == s.busy
      case ShareMap(parent, child, page) =>
        && t.ptes.Keys == s.ptes.Keys + {UserKey(child, page)} && t.procs == s.procs && t.embryo == s.embryo
        && t.busy == s.busy[parent := Sharing(child, page)]
      case ShareCount(parent) =>
        t.ptes.Keys == s.ptes.Keys && t.procs == s.procs && t.embryo == s.embryo && t.busy == s.busy - {parent}
      case Unmap(p, x) =>
        t.ptes.Keys == s.ptes.Keys - {Key(p, x)} && t.procs == s.procs && t.embryo == s.embryo && t.busy == s.busy
      case Reap(p) =>
        t.ptes == s.ptes && t.procs == s.procs - {p} && t.embryo == s.embryo - {p} && t.busy == s.busy
      case _ => true
  {
  }

  lemma FreeHead(s: State)
    requires Inv(s)
    ensures FreeHeadOk(s)
    ensures forall k :: k in s.ptes ==> FrameOk(s, k) && k.p in s.procs
  {
  }

  lemma OnlyDirectory(s: State, t: State, child: nat)
    requires Empty(s, child) && t.ptes.Keys == s.ptes.Keys + {Key(child, Dir)}
    ensures Bounded(t, child)
  {
  }

  lemma NewSpaceBuilds(s: State, parent: nat, child: nat)
    requires Inv(s) && Idle(s, parent) && child !in s.procs && s.free != []
    ensures Enabled(s, NewSpace(parent, child))
    ensures var t := Apply(s, NewSpace(parent, child)); Building(t, parent, child) && Abs(t) == Abs(s)
  {
    hide Inv, Abs;
    FreeHead(s);
    assert Empty(s, child);
    Simulates(s, NewSpace(parent, child));
    KeysAfter(s, NewSpace(parent, child));
    hide Apply;
    OnlyDirectory(s, Apply(s, NewSpace(parent, child)), child);
  }

  lemma TableBuilds(s: State, parent: nat, child: nat, pdx: nat)
    requires Building(s, parent, child) && Key(child, Table(pdx)) !in s.ptes && s.free != [] && pdx < NPTENTRIES
    ensures Enabled(s, AddTable(child, pdx))
    ensures var t := Apply(s, AddTable(child, pdx));
      Building(t, parent, child) && Abs(t) == Abs(s) && t.ptes.Keys == s.ptes.Keys + {Key(child, Table(pdx))}
  {
    hide Inv;
    FreeHead(s);
    KeysAfter(s, AddTable(child, pdx));
    Simulates(s, AddTable(child, pdx));
  }

  lemma ProtectBuilds(s: State, parent: nat, child: nat, v: nat)
    requires Building(s, parent, child) && UserKey(parent, v) in s.ptes
    ensures Enabled(s, Protect(parent, v))
    ensures var t := Apply(s, Protect(parent, v));
      Building(t, parent, child) && Abs(t) == Abs(s) && t.ptes.Keys == s.ptes.Keys
  {
    hide Inv;
    FreeHead(s);
    KeysAfter(s, Protect(parent, v));
    Simulates(s, Protect(parent, v));
  }

  lemma ShareBuilds(s: State, parent: nat, child: nat, v: nat)
    requires Building(s, parent, child) && UserKey(parent, v) in s.ptes && UserKey(child, v) !in s.ptes
    requires Key(child, Table(v / NPTENTRIES)) in s.ptes && v < USER_PAGES
    ensures Enabled(s, ShareMap(parent, child, v))
    ensures Enabled(Apply(s, ShareMap(parent, child, v)), ShareCount(parent))
    ensures var t := Apply(Apply(s, ShareMap(parent, child, v)), ShareCount(parent));
      Building(t, parent, child) && Abs(t) == Abs(s)[Place(child, v) := Abs(s)[Place(parent, v)]]
  {
    hide Inv;
    FreeHead(s);
    KeysAfter(s, ShareMap(parent, child, v));
    Simulates(s, ShareMap(parent, child, v));
    var u := Apply(s, ShareMap(parent, child, v));
    FreeHead(u);
    KeysAfter(u, ShareCount(parent));
    Simulates(u, ShareCount(parent));
  }

  lemma UnmapBuilds(s: State, parent: nat, child: nat, x: Slot)
    requires Building(s, parent, child) && Key(child, x) in s.ptes
    ensures Enabled(s, Unmap(child, x))
    ensures var t := Apply(s, Unmap(child, x));
      Building(t, parent, child) && OthersKept(Abs(s), Abs(t), child) && t.ptes.Keys == s.ptes.Keys - {Key(child, x)}
    ensures Apply(s, Unmap(child, x)).free == s.free
  {
    hide Inv;
    FreeHead(s);
    UnmapOnlyLowers(s, child, x);
    KeysAfter(s, Unmap(child, x));
    Simulates(s, Unmap(child, x));
  }

  lemma KeysBounded(s: State, parent: nat, child: nat)
    requires Building(s, parent, child)
    ensures Bounded(s, child)
  {
  }

  lemma NoChildOfChild(s: State, parent: nat, child: nat)
    requires Building(s, parent, child)
    ensures Childless(s, child)
  {
  }

  lemma NoPages(s: State, child: nat)
    requires Inv(s) && child !in s.procs
    ensures forall x :: x in Abs(s) ==> x.p != child
  {
  }

  /** An empty child goes away without trace. */
  lemma ReapBuilds(s: State, parent: nat, child: nat)
    requires Building(s, parent, child) && Empty(s, child)
    ensures Enabled(s, Reap(child))
    ensures var t := Apply(s, Reap(child));
      Inv(t) && Idle(t, parent) && child !in t.procs && Abs(t) == Abs(s) && t.free == s.free
  {
    hide Inv;
    FreeHead(s);
    NoChildOfChild(s, parent, child);
    KeysAfter(s, Reap(child));
    Simulates(s, Reap(child));
  }

  // ------------------------------------------------------------------------- loops

  class Kernel {
    var s: State

    constructor (s0: State)
      ensures s == s0
    {
      s := s0;
    }

    /** walkpgdir with alloc on the child's directory.  false when kalloc fails. */
    method EnsureTable(parent: nat, child: nat, pdx: nat) returns (ok: bool)
      requires Building(s, parent, child) && pdx < NPTENTRIES
      modifies this
      ensures Building(s, parent, child) && Abs(s) == old(Abs(s))
      ensures ok <==> Key(child, Table(pdx)) in s.ptes
      ensures !ok ==> s.free == []
      ensures s.ptes.Keys == if ok then old(s.ptes.Keys) + {Key(child, Table(pdx))} else old(s.ptes.Keys)
    {
      hide Building;
      if Key(child, Table(pdx)) !in s.ptes {
        if s.free == [] { return false; }
        TableBuilds(s, parent, child, pdx);
        s := Apply(s, AddTable(child, pdx));
      }
      ok := true;
    }

    /** The loop body of copyuvm for page v: clear the parent's write bit, find or make the
        child's page table, map, count.  false when kalloc fails. */
    method CopyPage(parent: nat, child: nat, v: nat) returns (ok: bool)
      requires Building(s, parent, child) && UserKey(parent, v) in s.ptes && UserKey(child, v) !in s.ptes
      requires v < USER_PAGES
      modifies this
      ensures Building(s, parent, child)
      ensures ok ==> Abs(s) == old(Abs(s))[Place(child, v) := old(Abs(s))[Place(parent, v)]]
      ensures !ok ==> Abs(s) == old(Abs(s)) && s.free == []
    {
      hide Building;
      ProtectBuilds(s, parent, child, v);
      s := Apply(s, Protect(parent, v));
      ok := EnsureTable(parent, child, v / NPTENTRIES);
      if ok {
        ShareBuilds(s, parent, child, v);
        s := Apply(s, ShareMap(parent, child, v));
        s := Apply(s, ShareCount(parent));
      }
    }

    /** Unmap one of the child's slots if it is there. */
    method Drop(parent: nat, child: nat, x: Slot, ghost m0: Memory)
      requires Building(s, parent, child) && OthersKept(m0, Abs(s), child)
      modifies this
      ensures Building(s, parent, child) && OthersKept(m0, Abs(s), child)
      ensures s.ptes.Keys == old(s.ptes.Keys) - {Key(child, x)} && s.free == old(s.free)
    {
      hide Building;
      if Key(child, x) in s.ptes {
        UnmapBuilds(s, parent, child, x);
        s := Apply(s, Unmap(child, x));
      }
    }

    /** deallocuvm from KERNBASE down to 0. */
    method FreePages(parent: nat, child: nat, ghost m0: Memory)
      requires Building(s, parent, child) && OthersKept(m0, Abs(s), child)
      modifies this
      ensures Building(s, parent, child) && OthersKept(m0, Abs(s), child)
      ensures forall v: nat :: UserKey(child, v) !in s.ptes
      ensures s.free == old(s.free)
    {
      hide Building, OthersKept;
      KeysBounded(s, parent, child);
      for v := 0 to USER_PAGES
        invariant Building(s, parent, child) && OthersKept(m0, Abs(s), child)
        invariant forall u: nat :: UserKey(child, u) in s.ptes ==> v <= u < USER_PAGES
        invariant s.free == old(s.free)
      {
        Drop(parent, child, User(v), m0);
      }
    }

    method FreeTables(parent: nat, child: nat, ghost m0: Memory)
      requires Building(s, parent, child) && OthersKept(m0, Abs(s), child)
      requires forall v: nat :: UserKey(child, v) !in s.ptes
      modifies this
      ensures Building(s, parent, child) && OthersKept(m0, Abs(s), child)
      ensures forall v: nat :: UserKey(child, v) !in s.ptes && Key(child, Table(v)) !in s.ptes
      ensures s.free == old(s.free)
    {
      hide Building, OthersKept;
      KeysBounded(s, parent, child);
      for i := 0 to NPTENTRIES
        invariant Building(s, parent, child) && OthersKept(m0, Abs(s), child)
        invariant forall v: nat :: UserKey(child, v) !in s.ptes
        invariant forall j: nat :: Key(child, Table(j)) in s.ptes ==> i <= j < NPTENTRIES
        invariant s.free == old(s.free)
      {
        Drop(parent, child, Table(i), m0);
      }
    }

    /** freevm: every page, every page table, then the directory. */
    method FreeVm(parent: nat, child: nat, ghost m0: Memory)
      requires Building(s, parent, child) && OthersKept(m0, Abs(s), child)
      requires forall x :: x in m0 ==> x.p != child
      modifies this
      ensures Inv(s) && Idle(s, parent) && child !in s.procs && Abs(s) == m0 && s.free == old(s.free)
    {
      hide Building, Apply, Enabled, OthersKept, Inv, Idle;
      FreePages(parent, child, m0);
      FreeTables(parent, child, m0);
      Drop(parent, child, Dir, m0);
      forall k | k in s.ptes ensures k.p != child {
        match k.slot
        case User(v) => assert k == UserKey(k.p, v);
        case Table(i) => assert k == Key(k.p, Table(i));
        case Dir =>
      }
      ReapBuilds(s, parent, child);
      NothingLeft(m0, Abs(s), child);
      s := Apply(s, Reap(child));
    }

    /** setupkvm: the directory, then the kernel's page tables.  When kalloc fails the child
        is freed again. */
    method SetupKvm(parent: nat, child: nat) returns (ok: bool)
      requires Inv(s) && Idle(s, parent) && child !in s.procs
      modifies this
      ensures ok ==> Building(s, parent, child)
      ensures !ok ==> Inv(s) && Idle(s, parent) && child !in s.procs && s.free == []
      ensures Abs(s) == old(Abs(s))
    {
      hide Building, Inv, Apply, Enabled, Abs, Idle, Bounded;
      if s.free == [] { return false; }
      NewSpaceBuilds(s, parent, child);
      NoPages(s, child);
      ghost var m0 := Abs(s);
      s := Apply(s, NewSpace(parent, child));
      ok := true;
      for i := 0 to KERNEL_TABLES
        invariant ok && Building(s, parent, child) && Abs(s) == m0
      {
        ok := EnsureTable(parent, child, KernelPdx(i));
        if !ok {
          FreeVm(parent, child, m0);
          return;
        }
      }
    }

    /** One of copyuvm's two loops, over the pages [b, hi); the pages [1, a) are done. */
    method CopyRange(parent: nat, child: nat, a: nat, b: nat, hi: nat, ghost m0: Memory)
      returns (r: Outcome, ghost at: nat)
      requires Building(s, parent, child) && b <= hi <= USER_PAGES && parent != child
      requires Copy(m0, Abs(s), parent, child, a, b, b)
      modifies this
      ensures Building(s, parent, child) && OthersKept(m0, Abs(s), child)
      ensures r.Done? ==> Copy(m0, Abs(s), parent, child, a, b, hi) && Apart(a, b, hi)
      ensures r.Panic? ==> b <= at < hi && (Place(parent, at) !in m0 || 1 <= at < a)
      ensures r.NoMemory? ==> s.free == []
    {
      hide *;
      ApartNone(a, b);
      at := b;
      r := Done;
      for v := b to hi
        invariant Building(s, parent, child) && Copy(m0, Abs(s), parent, child, a, b, v) && Apart(a, b, v)
      {
        CopyKeeps(m0, Abs(s), parent, child, a, b, v);
        if UserKey(parent, v) !in s.ptes || UserKey(child, v) in s.ptes {
          CopyMissing(m0, Abs(s), parent, child, a, b, v);
          return Panic, v;
        }
        CopyFree(m0, Abs(s), parent, child, a, b, v);
        ghost var m := Abs(s);
        var ok := CopyPage(parent, child, v);
        if !ok { return NoMemory, v; }
        CopyGrows(m0, m, Abs(s), parent, child, a, b, v);
      }
      CopyKeeps(m0, Abs(s), parent, child, a, b, hi);
    }

    /** Both loops. */
    method CopyPages(parent: nat, child: nat, sz: nat, stackSize: nat, ghost m0: Memory) returns (r: Outcome)
      requires Building(s, parent, child) && parent != child && Copy(m0, Abs(s), parent, child, 0, 1, 1)
      requires sz <= USERTOP && stackSize <= USERTOP && stackSize % PGSIZE == 0
      modifies this
      ensures Building(s, parent, child) && OthersKept(m0, Abs(s), child)
      ensures r.Done? ==> Copy(m0, Abs(s), parent, child, HeapEnd(sz), StackStart(stackSize), USER_PAGES)
      ensures r.Done? ==> !Stuck(m0, parent, sz, stackSize)
      ensures r.Panic? ==> Stuck(m0, parent, sz, stackSize)
      ensures r.NoMemory? ==> s.free == []
    {
      hide Building, Copy, OthersKept;
      ghost var at;
      r, at := CopyRange(parent, child, 0, 1, HeapEnd(sz), m0);
      if r.Done? {
        CopyTurns(m0, Abs(s), parent, child, HeapEnd(sz), StackStart(stackSize));
        r, at := CopyRange(parent, child, HeapEnd(sz), StackStart(stackSize), USER_PAGES, m0);
        if r.Done? { CopyNotMissing(m0, Abs(s), parent, child, sz, stackSize); }
      }
    }

    /** copyuvm.  Unless it runs out of frames, which leaves no trace, it panics exactly when a
        page is not there or is in both heap and stack; otherwise the child has the parent's
        bytes in exactly the pages copied and nobody else notices. */
    method CopyUvm(parent: nat, child: nat, sz: nat, stackSize: nat) returns (r: Outcome)
      requires Inv(s) && Idle(s, parent) && child !in s.procs
      requires sz <= USERTOP && stackSize <= USERTOP && stackSize % PGSIZE == 0
      modifies this
      ensures r.Done? ==> Building(s, parent, child)
      ensures r.Done? ==> Copy(old(Abs(s)), Abs(s), parent, child, HeapEnd(sz), StackStart(stackSize), USER_PAGES)
      ensures r.NoMemory? ==> Inv(s) && Idle(s, parent) && child !in s.procs && Abs(s) == old(Abs(s)) && s.free == []
      ensures r.Done? ==> !Stuck(old(Abs(s)), parent, sz, stackSize)
      ensures r.Panic? ==> Stuck(old(Abs(s)), parent, sz, stackSize)
    {
      hide Building, Copy, Inv;
      ghost var m0 := Abs(s);
      FreeHead(s);
      var ok := SetupKvm(parent, child);
      if !ok { return NoMemory; }
      CopyStarts(m0, parent, child);
      r := CopyPages(parent, child, sz, stackSize, m0);
      if r.NoMemory? { FreeVm(parent, child, m0); }
    }
  }
}
