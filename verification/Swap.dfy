/** Swapping pages between frames and swap files (src/vm.c, src/VirtualMemory.c, src/fs.c). */
module Swap {
  import opened Params

  const SWAP_TABLE_ENTRY_NUM := 1022
  const SWAP_FILE_SIZE := 65536
  const SWAP_FILE_MAX_NUM := 6
  const SWAP_BUFFER_SIZE := 1024
  /** Slots that fall into one of the six files. */
  const SLOTS := 96

  datatype Slot = Usable | Holds(page: nat)
  datatype Entry = Present(frame: nat) | Paged

  /** A process: page table, swap table, swap files and the FIFO of resident pages, newest
      first. */
  datatype Proc = Proc(pages: map<nat, Entry>, slots: seq<Slot>, files: seq<seq<byte>>, resident: seq<nat>)

  datatype State = State(frames: seq<Page>, procs: map<nat, Proc>)

  // ------------------------------------------------------------------------ swap files

  /** filewrite at off <= size: overwrite or extend. */
  function WriteAt(f: seq<byte>, off: nat, data: seq<byte>): (r: seq<byte>)
    requires off <= |f|
    ensures |r| == if off + |data| > |f| then off + |data| else |f|
    ensures forall i :: 0 <= i < |data| ==> r[off + i] == data[i]
    ensures forall i :: 0 <= i < |f| && !(off <= i < off + |data|) ==> r[i] == f[i]
  {
    f[..off] + data + (if off + |data| < |f| then f[off + |data|..] else [])
  }

  /** What ReadSwapFile and WriteSwapFile do with a byte offset: their guard lets file 6
      through although there are only six files. */
  datatype Target = Target(file: nat, off: nat) | Stray | Panic

  function Locate(total: nat): Target {
    var n := total / SWAP_FILE_SIZE;
    if n > SWAP_FILE_MAX_NUM then Panic
    else if n == SWAP_FILE_MAX_NUM then Stray
    else Target(n, total % SWAP_FILE_SIZE)
  }

  /** A slot's offset is inside the files exactly for the first 96 slots, and then the whole
      page lies in one file. */
  lemma SlotTarget(n: nat)
    ensures Locate(PGSIZE * n).Target? <==> n < SLOTS
    ensures Locate(PGSIZE * n).Stray? <==> SLOTS <= n < SLOTS + 16
    ensures n < SLOTS ==> Locate(PGSIZE * n) == Target(n / 16, PGSIZE * (n % 16))
    ensures n < SLOTS ==> PGSIZE * (n % 16) + PGSIZE <= SWAP_FILE_SIZE
  {
    assert PGSIZE * n == SWAP_FILE_SIZE * (n / 16) + PGSIZE * (n % 16);
  }

  /** Different slots never overlap. */
  lemma SlotsDisjoint(m: nat, n: nat)
    requires m < SLOTS && n < SLOTS && m != n
    ensures m / 16 != n / 16 || PGSIZE * (m % 16) + PGSIZE <= PGSIZE * (n % 16) || PGSIZE * (n % 16) + PGSIZE <= PGSIZE * (m % 16)
  {
  }

  predicate Covered(files: seq<seq<byte>>, n: nat) {
    && |files| == SWAP_FILE_MAX_NUM && n < SLOTS
    && PGSIZE * (n % 16) + PGSIZE <= |files[n / 16]|
  }

  function SlotBytes(files: seq<seq<byte>>, n: nat): Page {
    if Covered(files, n) then files[n / 16][PGSIZE * (n % 16)..PGSIZE * (n % 16) + PGSIZE] else []
  }

  /** files with slot n overwritten. */
  function WithSlot(files: seq<seq<byte>>, n: nat, data: Page): seq<seq<byte>>
    requires |files| == SWAP_FILE_MAX_NUM && n < SLOTS && PGSIZE * (n % 16) <= |files[n / 16]|
  {
    files[n / 16 := WriteAt(files[n / 16], PGSIZE * (n % 16), data)]
  }

  /** Writing one slot leaves the bytes of every other slot alone. */
  lemma SlotWrite(files: seq<seq<byte>>, n: nat, data: Page, m: nat)
    requires |files| == SWAP_FILE_MAX_NUM && n < SLOTS && PGSIZE * (n % 16) <= |files[n / 16]| && |data| == PGSIZE
    requires m == n || Covered(files, m)
    ensures Covered(WithSlot(files, n, data), m)
    ensures SlotBytes(WithSlot(files, n, data), m) == if m == n then data else SlotBytes(files, m)
  {
    if m != n { SlotsDisjoint(m, n); }
    var g := WithSlot(files, n, data);
    forall i | 0 <= i < PGSIZE
      ensures SlotBytes(g, m)[i] == if m == n then data[i] else SlotBytes(files, m)[i]
    {
      assert SlotBytes(g, m)[i] == g[m / 16][PGSIZE * (m % 16) + i];
    }
  }

  // ------------------------------------------------------------------------- invariant

  /** Slot n holds page v. */
  predicate InSlot(q: Proc, n: nat, v: nat) {
    n < |q.slots| && q.slots[n] == Holds(v)
  }

  ghost predicate ProcOk(frames: nat, q: Proc) {
    && |q.files| == SWAP_FILE_MAX_NUM
    && (forall v :: v in q.pages && q.pages[v].Present? ==> q.pages[v].frame < frames)
    && (forall n: nat, v :: InSlot(q, n, v) ==> Covered(q.files, n) && v in q.pages && q.pages[v] == Paged)
    && (forall m: nat, n: nat, v :: InSlot(q, m, v) && InSlot(q, n, v) ==> m == n)
    && (forall v :: v in q.pages && q.pages[v] == Paged ==> exists n: nat :: InSlot(q, n, v))
    && (forall i :: 0 <= i < |q.resident| ==> q.resident[i] in q.pages && q.pages[q.resident[i]].Present?)
    && (forall i, j :: 0 <= i < j < |q.resident| ==> q.resident[i] != q.resident[j])
  }

  ghost predicate Inv(s: State) {
    && (forall f :: 0 <= f < |s.frames| ==> |s.frames[f]| == PGSIZE)
    && (forall p :: p in s.procs ==> ProcOk(|s.frames|, s.procs[p]))
  }

  ghost function SlotOf(q: Proc, v: nat): (n: nat)
    ensures (exists m: nat :: InSlot(q, m, v)) ==> InSlot(q, n, v)
  {
    if exists m: nat :: InSlot(q, m, v) then var n: nat :| InSlot(q, n, v); n else 0
  }

  /** What a process sees in page v, wherever the bytes are. */
  ghost function Contents(frames: seq<Page>, q: Proc, v: nat): Page
    requires v in q.pages
  {
    match q.pages[v]
    case Present(f) => if f < |frames| then frames[f] else []
    case Paged => SlotBytes(q.files, SlotOf(q, v))
  }

  // ---------------------------------------------------------------------- the two moves

  /** The tail of the FIFO. */
  function Victim(q: Proc): nat
    requires q.resident != []
  {
    q.resident[|q.resident| - 1]
  }

  predicate Lowest(slots: seq<Slot>, k: nat) {
    && k <= |slots| && (k < |slots| ==> slots[k] == Usable)
    && (forall i :: 0 <= i < k ==> slots[i] != Usable)
  }

  predicate VictimReady(frames: seq<Page>, q: Proc, k: nat) {
    && |q.resident| >= 2 && Victim(q) in q.pages && q.pages[Victim(q)].Present?
    && q.pages[Victim(q)].frame < |frames| && k < |q.slots|
    && |q.files| == SWAP_FILE_MAX_NUM && k < SLOTS && PGSIZE * (k % 16) <= |q.files[k / 16]|
  }

  /** RecordInSwapTable: the victim's bytes go to slot k; its frame is left to kfree. */
  function SwappedOut(frames: seq<Page>, q: Proc, k: nat): Proc
    requires VictimReady(frames, q, k)
  {
    var w := Victim(q);
    Proc(q.pages[w := Paged], q.slots[k := Holds(w)], WithSlot(q.files, k, frames[q.pages[w].frame]),
         q.resident[..|q.resident| - 1])
  }

  /** SwapMemoryAndFile: page v, in slot k, trades places with the victim. */
  function SwappedIn(frames: seq<Page>, q: Proc, v: nat, k: nat): Proc
    requires |q.resident| >= 2 && Victim(q) in q.pages && q.pages[Victim(q)].Present?
    requires q.pages[Victim(q)].frame < |frames| && k < |q.slots| && Covered(q.files, k)
  {
    var w := Victim(q);
    Proc(q.pages[v := q.pages[w]][w := Paged], q.slots[k := Holds(w)],
         WithSlot(q.files, k, frames[q.pages[w].frame]), [v] + q.resident[..|q.resident| - 1])
  }

  /** All slots below the lowest usable one hold pages, so the file reaches its offset. */
  lemma LowestFits(frames: nat, q: Proc, k: nat)
    requires ProcOk(frames, q) && Lowest(q.slots, k) && k < |q.slots| && k < SLOTS
    ensures PGSIZE * (k % 16) <= |q.files[k / 16]|
  {
    if k % 16 > 0 {
      assert q.slots[k - 1] != Usable;
      assert InSlot(q, k - 1, q.slots[k - 1].page);
    }
  }

  lemma SwappedOutOk(frames: seq<Page>, q: Proc, k: nat)
    requires ProcOk(|frames|, q) && |q.resident| >= 2 && Lowest(q.slots, k) && k < |q.slots| && k < SLOTS
    requires forall f :: 0 <= f < |frames| ==> |frames[f]| == PGSIZE
    ensures VictimReady(frames, q, k)
    ensures ProcOk(|frames|, SwappedOut(frames, q, k))
  {
    LowestFits(|frames|, q, k);
    var q', w := SwappedOut(frames, q, k), Victim(q);
    forall n: nat, v | InSlot(q', n, v) ensures Covered(q'.files, n) && v in q'.pages && q'.pages[v] == Paged {
      if n != k { assert InSlot(q, n, v); }
      SlotWrite(q.files, k, frames[q.pages[w].frame], n);
    }
    forall m: nat, n: nat, v | InSlot(q', m, v) && InSlot(q', n, v) ensures m == n {
      assert (m != k ==> InSlot(q, m, v)) && (n != k ==> InSlot(q, n, v));
    }
    forall v | v in q'.pages && q'.pages[v] == Paged ensures exists n: nat :: InSlot(q', n, v) {
      if v == w { assert InSlot(q', k, v); } else { assert InSlot(q', SlotOf(q, v), v); }
    }
  }

  lemma SwappedOutContents(frames: seq<Page>, q: Proc, k: nat, v: nat)
    requires ProcOk(|frames|, q) && |q.resident| >= 2 && Lowest(q.slots, k) && k < |q.slots| && k < SLOTS
    requires forall f :: 0 <= f < |frames| ==> |frames[f]| == PGSIZE
    requires VictimReady(frames, q, k) && v in q.pages
    ensures Contents(frames, SwappedOut(frames, q, k), v) == Contents(frames, q, v)
  {
    var q', w := SwappedOut(frames, q, k), Victim(q);
    SwappedOutOk(frames, q, k);
    if q'.pages[v] == Paged {
      if v == w { assert InSlot(q', k, v); } else { assert InSlot(q', SlotOf(q, v), v); }
      SlotWrite(q.files, k, frames[q.pages[w].frame], SlotOf(q', v));
    }
  }

  lemma SwappedInOk(frames: seq<Page>, q: Proc, v: nat, k: nat)
    requires ProcOk(|frames|, q) && |q.resident| >= 2 && InSlot(q, k, v)
    requires forall f :: 0 <= f < |frames| ==> |frames[f]| == PGSIZE
    ensures ProcOk(|frames|, SwappedIn(frames, q, v, k))
  {
    var q', w := SwappedIn(frames, q, v, k), Victim(q);
    forall n: nat, x | InSlot(q', n, x) ensures Covered(q'.files, n) && x in q'.pages && q'.pages[x] == Paged {
      if n != k { assert InSlot(q, n, x); }
      SlotWrite(q.files, k, frames[q.pages[w].frame], n);
    }
    forall m: nat, n: nat, x | InSlot(q', m, x) && InSlot(q', n, x) ensures m == n {
      assert (m != k ==> InSlot(q, m, x)) && (n != k ==> InSlot(q, n, x));
    }
    forall x | x in q'.pages && q'.pages[x] == Paged ensures exists n: nat :: InSlot(q', n, x) {
      if x == w { assert InSlot(q', k, x); } else { assert InSlot(q', SlotOf(q, x), x); }
    }
  }

  /** After the exchange every page of the process that is not another mapping of the
      victim's frame reads as before. */
  lemma SwappedInContents(frames: seq<Page>, q: Proc, v: nat, k: nat, x: nat)
    requires ProcOk(|frames|, q) && |q.resident| >= 2 && InSlot(q, k, v) && x in q.pages
    requires forall f :: 0 <= f < |frames| ==> |frames[f]| == PGSIZE
    ensures var f := q.pages[Victim(q)].frame;
      Contents(frames[f := SlotBytes(q.files, k)], SwappedIn(frames, q, v, k), x)
      == if x != Victim(q) && q.pages[x] == Present(f) then SlotBytes(q.files, k) else Contents(frames, q, x)
  {
    var q', w := SwappedIn(frames, q, v, k), Victim(q);
    SwappedInOk(frames, q, v, k);
    if q'.pages[x] == Paged {
      var n := if x == w then k else SlotOf(q, x);
      assert InSlot(q', n, x) && (n == k || Covered(q.files, n));
      assert SlotOf(q', x) == n;
      hide ProcOk, Covered, SlotBytes, WithSlot;
      SlotWrite(q.files, k, frames[q.pages[w].frame], n);
    } else if x == v {
      assert InSlot(q, SlotOf(q, v), v);
    }
  }

  // ------------------------------------------------------------------- all processes

  /** The state after process p swapped page v in from slot k. */
  ghost function InState(s: State, p: nat, v: nat, k: nat): State
    requires Inv(s) && p in s.procs && |s.procs[p].resident| >= 2 && InSlot(s.procs[p], k, v)
  {
    var q := s.procs[p];
    State(s.frames[q.pages[Victim(q)].frame := SlotBytes(q.files, k)],
          s.procs[p := SwappedIn(s.frames, q, v, k)])
  }

  /** Every process sees the same pages with the same bytes. */
  ghost predicate Indistinct(s: State, t: State) {
    && t.procs.Keys == s.procs.Keys
    && (forall p :: p in s.procs ==> t.procs[p].pages.Keys == s.procs[p].pages.Keys)
    && (forall p, x :: p in s.procs && x in s.procs[p].pages ==>
          Contents(t.frames, t.procs[p], x) == Contents(s.frames, s.procs[p], x))
  }

  /** The frame of p's victim has no other mapping. */
  ghost predicate PrivateVictim(s: State, p: nat)
    requires p in s.procs && s.procs[p].resident != [] && Victim(s.procs[p]) in s.procs[p].pages
  {
    forall r, x :: r in s.procs && x in s.procs[r].pages ==> !Alias(s, p, r, x)
  }

  lemma InStateOk(s: State, p: nat, v: nat, k: nat)
    requires Inv(s) && p in s.procs && |s.procs[p].resident| >= 2 && InSlot(s.procs[p], k, v)
    ensures Inv(InState(s, p, v, k))
  {
    SwappedInOk(s.frames, s.procs[p], v, k);
  }

  /** What process r sees in page x after process p swapped v in. */
  lemma SwapInSees(s: State, p: nat, v: nat, k: nat, r: nat, x: nat)
    requires Inv(s) && p in s.procs && |s.procs[p].resident| >= 2 && InSlot(s.procs[p], k, v)
    requires r in s.procs && x in s.procs[r].pages
    ensures var t, w := InState(s, p, v, k), Victim(s.procs[p]);
      && t.procs.Keys == s.procs.Keys && t.procs[r].pages.Keys == s.procs[r].pages.Keys
      && Contents(t.frames, t.procs[r], x)
         == if s.procs[r].pages[x] == s.procs[p].pages[w] && !(r == p && x == w)
            then SlotBytes(s.procs[p].files, k) else Contents(s.frames, s.procs[r], x)
  {
    if r == p { SwappedInContents(s.frames, s.procs[p], v, k, x); }
  }

  /** t differs from s only in that every mapping of p's victim frame other than the victim
      now reads as data. */
  ghost predicate Clobbered(s: State, t: State, p: nat, data: Page)
    requires p in s.procs && s.procs[p].resident != [] && Victim(s.procs[p]) in s.procs[p].pages
  {
    && t.procs.Keys == s.procs.Keys
    && (forall r :: r in s.procs ==> t.procs[r].pages.Keys == s.procs[r].pages.Keys)
    && (forall r, x :: r in s.procs && x in s.procs[r].pages ==>
          Contents(t.frames, t.procs[r], x)
          == if Alias(s, p, r, x) then data else Contents(s.frames, s.procs[r], x))
  }

  /** Page x of process r is another mapping of the frame of p's victim. */
  ghost predicate Alias(s: State, p: nat, r: nat, x: nat)
    requires p in s.procs && s.procs[p].resident != [] && Victim(s.procs[p]) in s.procs[p].pages
    requires r in s.procs && x in s.procs[r].pages
  {
    s.procs[r].pages[x] == s.procs[p].pages[Victim(s.procs[p])] && !(r == p && x == Victim(s.procs[p]))
  }

  lemma InStateKeys(s: State, p: nat, v: nat, k: nat)
    requires Inv(s) && p in s.procs && |s.procs[p].resident| >= 2 && InSlot(s.procs[p], k, v)
    ensures Victim(s.procs[p]) in s.procs[p].pages && InState(s, p, v, k).procs.Keys == s.procs.Keys
    ensures forall r :: r in s.procs ==> InState(s, p, v, k).procs[r].pages.Keys == s.procs[r].pages.Keys
  {
    hide Contents, SlotBytes, WithSlot;
    assert ProcOk(|s.frames|, s.procs[p]);
  }

  lemma SwapInClobbers(s: State, p: nat, v: nat, k: nat)
    requires Inv(s) && p in s.procs && |s.procs[p].resident| >= 2 && InSlot(s.procs[p], k, v)
    ensures Victim(s.procs[p]) in s.procs[p].pages
    ensures Clobbered(s, InState(s, p, v, k), p, SlotBytes(s.procs[p].files, k))
  {
    hide InState, SwappedIn, Contents, Inv, SlotBytes;
    InStateKeys(s, p, v, k);
    var t := InState(s, p, v, k);
    forall r, x | r in s.procs && x in s.procs[r].pages
      ensures Contents(t.frames, t.procs[r], x)
        == if Alias(s, p, r, x) then SlotBytes(s.procs[p].files, k) else Contents(s.frames, s.procs[r], x)
    {
      SwapInSees(s, p, v, k, r, x);
    }
  }

  lemma ClobberInvisibleIff(s: State, t: State, p: nat, data: Page)
    requires p in s.procs && s.procs[p].resident != [] && Victim(s.procs[p]) in s.procs[p].pages
    requires s.procs[p].pages[Victim(s.procs[p])].Present?
    requires s.procs[p].pages[Victim(s.procs[p])].frame < |s.frames|
    requires Clobbered(s, t, p, data)
    ensures Indistinct(s, t) <==>
      PrivateVictim(s, p) || s.frames[s.procs[p].pages[Victim(s.procs[p])].frame] == data
  {
    if Indistinct(s, t) && !PrivateVictim(s, p) {
      var r, x :| r in s.procs && x in s.procs[r].pages && Alias(s, p, r, x);
      assert Contents(t.frames, t.procs[r], x) == Contents(s.frames, s.procs[r], x);
    }
  }

  lemma VictimPresent(s: State, p: nat)
    requires Inv(s) && p in s.procs && s.procs[p].resident != []
    ensures var q := s.procs[p];
      Victim(q) in q.pages && q.pages[Victim(q)].Present? && q.pages[Victim(q)].frame < |s.frames|
  {
  }

  /** Swapping in is invisible to every process exactly when the victim's frame is private,
      or happens to hold the very bytes that come in. */
  lemma SwapInTransparentIff(s: State, p: nat, v: nat, k: nat)
    requires Inv(s) && p in s.procs && |s.procs[p].resident| >= 2 && InSlot(s.procs[p], k, v)
    ensures Inv(InState(s, p, v, k))
    ensures Indistinct(s, InState(s, p, v, k)) <==>
      PrivateVictim(s, p)
      || s.frames[s.procs[p].pages[Victim(s.procs[p])].frame] == SlotBytes(s.procs[p].files, k)
  {
    hide *;
    InStateOk(s, p, v, k);
    VictimPresent(s, p);
    SwapInClobbers(s, p, v, k);
    ClobberInvisibleIff(s, InState(s, p, v, k), p, SlotBytes(s.procs[p].files, k));
  }

  function Repeat(n: nat, x: byte): (r: Page)
    ensures |r| == n && forall i :: 0 <= i < n ==> r[i] == x
  {
    seq(n, i => x)
  }

  /** A process with pages 1 and 2 in memory and page 3 in slot 0. */
  function Swapper(): (q: Proc)
    ensures |q.resident| == 2 && InSlot(q, 0, 3) && Victim(q) == 1 && 1 in q.pages && q.pages[1] == Present(0)
    ensures SlotBytes(q.files, 0) == Repeat(PGSIZE, 7)
  {
    Proc(map[1 := Present(0), 2 := Present(1), 3 := Paged], [Holds(3)],
         [Repeat(PGSIZE, 7), [], [], [], [], []], [2, 1])
  }

  lemma SwapperOk()
    ensures ProcOk(2, Swapper())
  {
  }

  /** A process that shares frame 0. */
  function Sharer(): Proc {
    Proc(map[1 := Present(0)], [], [[], [], [], [], [], []], [])
  }

  /** Process 2 still shares, after a fork, the frame of process 1's oldest page; process 1
      touches its swapped page 3, and process 2 reads the bytes of that page. */
  lemma SharedVictimShows()
    ensures var s := State([Repeat(PGSIZE, 0), Repeat(PGSIZE, 0)], map[1 := Swapper(), 2 := Sharer()]);
      Inv(s) && !Indistinct(s, InState(s, 1, 3, 0))
  {
    var s := State([Repeat(PGSIZE, 0), Repeat(PGSIZE, 0)], map[1 := Swapper(), 2 := Sharer()]);
    SwapperOk();
    assert ProcOk(2, Sharer());
    hide ProcOk, Swapper;
    assert Alias(s, 1, 2, 1);
    assert Repeat(PGSIZE, 7)[0] != Repeat(PGSIZE, 0)[0];
    SwapInTransparentIff(s, 1, 3, 0);
  }

  predicate GrownTo(slots: seq<Slot>, grown: seq<Slot>) {
    slots <= grown && forall i :: |slots| <= i < |grown| ==> grown[i] == Usable
  }

  lemma GrownSlots(q: Proc, grown: seq<Slot>)
    requires GrownTo(q.slots, grown)
    ensures forall n: nat, v :: InSlot(q.(slots := grown), n, v) <==> InSlot(q, n, v)
  {
  }

  /** A table page of usable slots changes nothing. */
  lemma GrownOk(frames: seq<Page>, q: Proc, grown: seq<Slot>)
    requires ProcOk(|frames|, q) && GrownTo(q.slots, grown)
    ensures ProcOk(|frames|, q.(slots := grown))
    ensures forall v :: v in q.pages ==> Contents(frames, q.(slots := grown), v) == Contents(frames, q, v)
  {
    GrownSlots(q, grown);
    hide InSlot;
    var q' := q.(slots := grown);
    forall v | v in q.pages && q.pages[v].Paged? ensures SlotOf(q', v) == SlotOf(q, v) {
      var n: nat :| InSlot(q, n, v);
      assert InSlot(q', n, v);
    }
  }

  /** p's victim is in slot k and off the FIFO; frames and other processes are untouched. */
  ghost predicate MovedOut(s: State, t: State, p: nat, k: nat) {
    && p in s.procs && p in t.procs && s.procs[p].resident != [] && t.frames == s.frames
    && t.procs == s.procs[p := t.procs[p]] && InSlot(t.procs[p], k, Victim(s.procs[p]))
    && t.procs[p].resident + [Victim(s.procs[p])] == s.procs[p].resident
  }

  /** RecordInSwapTable as a whole, for the process that runs it: the table may grow, then
      the victim moves. */
  lemma OutProc(frames: seq<Page>, q: Proc, grown: seq<Slot>, k: nat)
    requires ProcOk(|frames|, q) && |q.resident| >= 2 && forall f :: 0 <= f < |frames| ==> |frames[f]| == PGSIZE
    requires GrownTo(q.slots, grown) && Lowest(grown, k) && k < |grown| && k < SLOTS
    ensures VictimReady(frames, q.(slots := grown), k)
    ensures var q' := SwappedOut(frames, q.(slots := grown), k);
      && ProcOk(|frames|, q') && q'.pages.Keys == q.pages.Keys
      && (forall x :: x in q.pages ==> Contents(frames, q', x) == Contents(frames, q, x))
  {
    var g := q.(slots := grown);
    GrownOk(frames, q, grown);
    SwappedOutOk(frames, g, k);
    forall x | x in q.pages ensures Contents(frames, SwappedOut(frames, g, k), x) == Contents(frames, q, x) {
      SwappedOutContents(frames, g, k, x);
    }
  }

  lemma OneProcess(s: State, p: nat, q: Proc)
    requires Inv(s) && p in s.procs && ProcOk(|s.frames|, q) && q.pages.Keys == s.procs[p].pages.Keys
    requires forall x :: x in q.pages ==> Contents(s.frames, q, x) == Contents(s.frames, s.procs[p], x)
    ensures var t := s.(procs := s.procs[p := q]); Inv(t) && Indistinct(s, t)
  {
  }

  lemma OutOk(s: State, p: nat, grown: seq<Slot>, k: nat)
    requires Inv(s) && p in s.procs && |s.procs[p].resident| >= 2
    requires GrownTo(s.procs[p].slots, grown) && Lowest(grown, k) && k < |grown| && k < SLOTS
    ensures VictimReady(s.frames, s.procs[p].(slots := grown), k)
    ensures var t := s.(procs := s.procs[p := SwappedOut(s.frames, s.procs[p].(slots := grown), k)]);
      Inv(t) && Indistinct(s, t) && MovedOut(s, t, p, k)
  {
    hide ProcOk, Contents;
    OutProc(s.frames, s.procs[p], grown, k);
    OneProcess(s, p, SwappedOut(s.frames, s.procs[p].(slots := grown), k));
  }

  // ---------------------------------------------------------------- scans and exchange

  /** GetEmptyInSwapTable: the lowest usable slot, in a table page added at the end if need
      be, and its offset. */
  method GetEmptyInSwapTable(slots: seq<Slot>) returns (grown: seq<Slot>, k: nat, offset: nat)
    requires |slots| % SWAP_TABLE_ENTRY_NUM == 0
    ensures k < |grown| && Lowest(slots, k) && offset == PGSIZE * k
    ensures grown == if k < |slots| then slots else slots + seq(SWAP_TABLE_ENTRY_NUM, i => Usable)
  {
    var pageNum := 0;
    while pageNum * SWAP_TABLE_ENTRY_NUM < |slots|
      invariant pageNum * SWAP_TABLE_ENTRY_NUM <= |slots|
      invariant forall i :: 0 <= i < pageNum * SWAP_TABLE_ENTRY_NUM ==> slots[i] != Usable
    {
      var entryNum := 0;
      while entryNum < SWAP_TABLE_ENTRY_NUM
        invariant entryNum <= SWAP_TABLE_ENTRY_NUM
        invariant forall i :: 0 <= i < pageNum * SWAP_TABLE_ENTRY_NUM + entryNum ==> slots[i] != Usable
      {
        if slots[pageNum * SWAP_TABLE_ENTRY_NUM + entryNum] == Usable {
          return slots, pageNum * SWAP_TABLE_ENTRY_NUM + entryNum,
                 pageNum * SWAP_TABLE_ENTRY_NUM * PGSIZE + entryNum * PGSIZE;
        }
        entryNum := entryNum + 1;
      }
      pageNum := pageNum + 1;
    }
    return slots + seq(SWAP_TABLE_ENTRY_NUM, i => Usable), |slots|, pageNum * SWAP_TABLE_ENTRY_NUM * PGSIZE;
  }

  /** GetAddressInSwapTable: the slot that holds page v; false when none does (a panic). */
  method GetAddressInSwapTable(slots: seq<Slot>, v: nat) returns (found: bool, k: nat, offset: nat)
    requires |slots| % SWAP_TABLE_ENTRY_NUM == 0
    ensures found ==> k < |slots| && slots[k] == Holds(v) && offset == PGSIZE * k
    ensures !found ==> forall i :: 0 <= i < |slots| ==> slots[i] != Holds(v)
  {
    var pageNum := 0;
    while pageNum * SWAP_TABLE_ENTRY_NUM < |slots|
      invariant pageNum * SWAP_TABLE_ENTRY_NUM <= |slots|
      invariant forall i :: 0 <= i < pageNum * SWAP_TABLE_ENTRY_NUM ==> slots[i] != Holds(v)
    {
      var entryNum := 0;
      while entryNum < SWAP_TABLE_ENTRY_NUM
        invariant entryNum <= SWAP_TABLE_ENTRY_NUM
        invariant forall i :: 0 <= i < pageNum * SWAP_TABLE_ENTRY_NUM + entryNum ==> slots[i] != Holds(v)
      {
        if slots[pageNum * SWAP_TABLE_ENTRY_NUM + entryNum] == Holds(v) {
          return true, pageNum * SWAP_TABLE_ENTRY_NUM + entryNum,
                 pageNum * SWAP_TABLE_ENTRY_NUM * PGSIZE + entryNum * PGSIZE;
        }
        entryNum := entryNum + 1;
      }
      pageNum := pageNum + 1;
    }
    return false, 0, 0;
  }

  /** Two adjacent writes are one. */
  lemma WriteTwice(f: seq<byte>, base: nat, data: seq<byte>, m: nat, n: nat)
    requires m <= n <= |data| && base + n <= |f|
    ensures WriteAt(WriteAt(f, base, data[..m]), base + m, data[m..n]) == WriteAt(f, base, data[..n])
  {
    hide WriteAt;
    var g := WriteAt(WriteAt(f, base, data[..m]), base + m, data[m..n]);
    forall i | 0 <= i < |f| ensures g[i] == WriteAt(f, base, data[..n])[i] {
      if base <= i < base + m { assert WriteAt(f, base, data[..m])[base + (i - base)] == data[i - base]; }
      if base + m <= i < base + n { assert g[base + m + (i - base - m)] == data[m..n][i - base - m]; }
      if base <= i < base + n { assert WriteAt(f, base, data[..n])[base + (i - base)] == data[i - base]; }
    }
  }

  /** A write leaves what follows it alone. */
  lemma WriteAfter(f: seq<byte>, base: nat, data: seq<byte>, m: nat, n: nat)
    requires base + |data| <= m <= n <= |f|
    ensures WriteAt(f, base, data)[m..n] == f[m..n]
  {
  }

  lemma SliceOfSlice(f: seq<byte>, lo: nat, hi: nat, i: nat, j: nat)
    requires lo <= hi <= |f| && i <= j <= hi - lo
    ensures f[lo..hi][i..j] == f[lo + i..lo + j]
  {
    forall t | 0 <= t < j - i ensures f[lo..hi][i..j][t] == f[lo + i..lo + j][t] {}
  }

  lemma ChunkStep(f: seq<byte>, page: Page, base: nat, at: nat)
    requires |page| == PGSIZE && base + PGSIZE <= |f| && at + SWAP_BUFFER_SIZE <= PGSIZE
    ensures var n, g, h := at + SWAP_BUFFER_SIZE, WriteAt(f, base, page[..at]), WriteAt(page, 0, f[base..base + at]);
      && WriteAt(g, base + at, h[at..n]) == WriteAt(f, base, page[..n])
      && WriteAt(h, at, g[base + at..base + n]) == WriteAt(page, 0, f[base..base + n])
  {
    hide WriteAt;
    var n := at + SWAP_BUFFER_SIZE;
    WriteAfter(page, 0, f[base..base + at], at, n);
    WriteAfter(f, base, page[..at], base + at, base + n);
    WriteTwice(f, base, page, at, n);
    var data := f[base..base + PGSIZE];
    SliceOfSlice(f, base, base + PGSIZE, 0, at);
    SliceOfSlice(f, base, base + PGSIZE, at, n);
    SliceOfSlice(f, base, base + PGSIZE, 0, n);
    WriteTwice(page, 0, data, at, n);
  }

  /** k chunks of the page and of the slot at base have changed places. */
  ghost predicate Swapping(f: seq<byte>, page: Page, base: nat, k: nat, g: seq<byte>, h: Page) {
    && |page| == PGSIZE && base + PGSIZE <= |f| && SWAP_BUFFER_SIZE * k <= PGSIZE
    && |g| == |f| && g == WriteAt(f, base, page[..SWAP_BUFFER_SIZE * k])
    && |h| == PGSIZE && h == WriteAt(page, 0, f[base..base + SWAP_BUFFER_SIZE * k])
  }

  lemma SwappingStarts(f: seq<byte>, page: Page, base: nat)
    requires |page| == PGSIZE && base + PGSIZE <= |f|
    ensures Swapping(f, page, base, 0, f, page)
  {
    assert page[..0] == [] && WriteAt(f, base, []) == f && f[base..base] == [] && WriteAt(page, 0, []) == page;
  }

  lemma SwappingStep(f: seq<byte>, page: Page, base: nat, k: nat, g: seq<byte>, h: Page)
    requires Swapping(f, page, base, k, g, h) && k < 4
    ensures var at := SWAP_BUFFER_SIZE * k; var n := at + SWAP_BUFFER_SIZE;
      && n <= |h| == PGSIZE && base + n <= |g|
      && Swapping(f, page, base, k + 1, WriteAt(g, base + at, h[at..n]), WriteAt(h, at, g[base + at..base + n]))
  {
    hide WriteAt;
    ChunkStep(f, page, base, SWAP_BUFFER_SIZE * k);
  }

  lemma SwappingEnds(f: seq<byte>, page: Page, base: nat, g: seq<byte>, h: Page)
    requires Swapping(f, page, base, 4, g, h)
    ensures g == WriteAt(f, base, page) && h == f[base..base + PGSIZE]
  {
    assert page[..PGSIZE] == page;
  }

  /** The four-chunk loop of SwapMemoryAndFile: page and file slot change places through a
      buffer a quarter of a page long. */
  method Exchange(f: seq<byte>, page: Page, base: nat) returns (g: seq<byte>, h: Page)
    requires |page| == PGSIZE && base + PGSIZE <= |f|
    ensures g == WriteAt(f, base, page) && h == f[base..base + PGSIZE]
  {
    hide Swapping, WriteAt;
    g, h := f, page;
    SwappingStarts(f, page, base);
    for k := 0 to 4
      invariant Swapping(f, page, base, k, g, h)
    {
      var at := SWAP_BUFFER_SIZE * k;
      SwappingStep(f, page, base, k, g, h);
      var buffer := g[base + at..base + at + SWAP_BUFFER_SIZE];
      g := WriteAt(g, base + at, h[at..at + SWAP_BUFFER_SIZE]);
      h := WriteAt(h, at, buffer);
    }
    SwappingEnds(f, page, base, g, h);
  }

  // ------------------------------------------------------------------------- the pager

  datatype Outcome = Moved | NoVictim | StrayFile | NoSlot | Panicked

  /** Swap tables grow by whole pages. */
  ghost predicate WholeTables(s: State) {
    forall p :: p in s.procs ==> |s.procs[p].slots| % SWAP_TABLE_ENTRY_NUM == 0
  }

  lemma StaysWhole(s: State, frames: seq<Page>, p: nat, q: Proc)
    requires WholeTables(s) && p in s.procs
    requires |q.slots| == |s.procs[p].slots| || |q.slots| == |s.procs[p].slots| + SWAP_TABLE_ENTRY_NUM
    ensures WholeTables(State(frames, s.procs[p := q]))
  {
  }

  /** What SwapMemoryAndFile finds, and the state that its assignments make of it. */
  lemma InParts(s: State, p: nat, v: nat, k: nat)
    requires Inv(s) && p in s.procs && |s.procs[p].resident| >= 2 && InSlot(s.procs[p], k, v)
    ensures var q := s.procs[p];
      && Victim(q) in q.pages && q.pages[Victim(q)].Present? && q.pages[Victim(q)].frame < |s.frames|
      && |s.frames[q.pages[Victim(q)].frame]| == PGSIZE
      && k < |q.slots| && k / 16 < |q.files| && PGSIZE * (k % 16) + PGSIZE <= |q.files[k / 16]|
      && PGSIZE * k / SWAP_FILE_SIZE == k / 16 && PGSIZE * k % SWAP_FILE_SIZE == PGSIZE * (k % 16)
    ensures var q, base := s.procs[p], PGSIZE * (k % 16);
      InState(s, p, v, k)
      == State(s.frames[q.pages[Victim(q)].frame := q.files[k / 16][base..base + PGSIZE]],
               s.procs[p := Proc(q.pages[v := Present(q.pages[Victim(q)].frame)][Victim(q) := Paged],
                                 q.slots[k := Holds(Victim(q))],
                                 q.files[k / 16 := WriteAt(q.files[k / 16], base, s.frames[q.pages[Victim(q)].frame])],
                                 [v] + q.resident[..|q.resident| - 1])])
  {
    var q := s.procs[p];
    assert ProcOk(|s.frames|, q) && q.resident[|q.resident| - 1] in q.pages;
    assert PGSIZE * k == SWAP_FILE_SIZE * (k / 16) + PGSIZE * (k % 16);
  }

  class Pager {
    var s: State

    ghost predicate Valid()
      reads this
    {
      Inv(s) && WholeTables(s)
    }

    constructor (s0: State)
      requires Inv(s0) && WholeTables(s0)
      ensures Valid() && s == s0
    {
      s := s0;
    }

    /** SwapMemoryAndFile: bring p's page v in, in exchange for the tail of the FIFO. */
    method SwapMemoryAndFile(p: nat, v: nat) returns (r: Outcome)
      requires Valid() && p in s.procs
      modifies this
      ensures Valid()
      ensures r.NoVictim? <==> |old(s).procs[p].resident| < 2
      ensures r.NoSlot? ==> forall n: nat :: !InSlot(old(s).procs[p], n, v)
      ensures r.Moved? ==> exists k: nat :: InSlot(old(s).procs[p], k, v) && s == InState(old(s), p, v, k)
      ensures !r.Moved? ==> s == old(s)
      ensures r.Moved? || r.NoVictim? || r.NoSlot?
    {
      var q := s.procs[p];
      assert |q.slots| % SWAP_TABLE_ENTRY_NUM == 0;
      if |q.resident| < 2 { return NoVictim; }
      var found, k, offset := GetAddressInSwapTable(q.slots, v);
      if !found { return NoSlot; }
      assert InSlot(q, k, v);
      hide Inv, InState, WholeTables, WriteAt;
      InParts(s, p, v, k);
      InStateOk(s, p, v, k);
      var f := q.pages[Victim(q)].frame;
      var file, page := Exchange(q.files[offset / SWAP_FILE_SIZE], s.frames[f], offset % SWAP_FILE_SIZE);
      var q' := Proc(q.pages[v := Present(f)][Victim(q) := Paged], q.slots[k := Holds(Victim(q))],
                     q.files[offset / SWAP_FILE_SIZE := file], [v] + q.resident[..|q.resident| - 1]);
      StaysWhole(s, s.frames[f := page], p, q');
      s := State(s.frames[f := page], s.procs[p := q']);
      r := Moved;
    }

    /** RecordInSwapTable: throw the tail of p's FIFO out to the lowest usable slot. */
    method RecordInSwapTable(p: nat) returns (r: Outcome, ghost k: nat)
      requires Valid() && p in s.procs
      modifies this
      ensures Valid()
      ensures r.NoVictim? <==> |old(s).procs[p].resident| < 2
      ensures !r.NoVictim? ==> Lowest(old(s).procs[p].slots, k)
      ensures r.Moved? <==> !r.NoVictim? && k < SLOTS
      ensures r.StrayFile? <==> !r.NoVictim? && SLOTS <= k < SLOTS + 16
      ensures r.Moved? ==> Indistinct(old(s), s)
      ensures r.Moved? ==> MovedOut(old(s), s, p, k)
      ensures !r.Moved? ==> s == old(s)
    {
      hide Inv, Indistinct, MovedOut;
      var q := s.procs[p];
      assert |q.slots| % SWAP_TABLE_ENTRY_NUM == 0;
      hide WholeTables;
      k := 0;
      if |q.resident| < 2 { return NoVictim, 0; }
      var grown, n, offset := GetEmptyInSwapTable(q.slots);
      k := n;
      SlotTarget(n);
      var target := Locate(offset);
      if target.Stray? { return StrayFile, n; }
      if target.Panic? { return Panicked, n; }
      OutOk(s, p, grown, n);
      StaysWhole(s, s.frames, p, SwappedOut(s.frames, q.(slots := grown), n));
      s := s.(procs := s.procs[p := SwappedOut(s.frames, q.(slots := grown), n)]);
      r := Moved;
    }
  }
}
