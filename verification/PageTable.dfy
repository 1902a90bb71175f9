/** Two-level page tables (src/vm.c): walkpgdir, mappages and deallocuvm.  A page number is an
    address divided by PGSIZE; its table is the number divided by NPTENTRIES. */
module PageTable {
  import opened Params

  const NPDENTRIES := 1024
  /** Pages in a 32-bit address space. */
  const PAGES := 0x10_0000

  datatype Entry = Absent | Present(frame: nat) | Paged
  datatype Table = NoTable | Table(entries: seq<Entry>)
  type Dir = seq<Table>

  ghost predicate WfDir(d: Dir) {
    |d| == NPDENTRIES && forall i :: 0 <= i < NPDENTRIES && d[i].Table? ==> |d[i].entries| == NPTENTRIES
  }

  /** The flat map a directory stands for. */
  function Lookup(d: Dir, v: nat): Entry
    requires WfDir(d) && v < PAGES
  {
    if d[v / NPTENTRIES].NoTable? then Absent else d[v / NPTENTRIES].entries[v % NPTENTRIES]
  }

  predicate HasTable(d: Dir, v: nat)
    requires WfDir(d) && v < PAGES
  {
    d[v / NPTENTRIES].Table?
  }

  function EmptyTable(): Table {
    Table(seq(NPTENTRIES, i => Absent))
  }

  function Set(d: Dir, v: nat, e: Entry): Dir
    requires WfDir(d) && v < PAGES && HasTable(d, v)
  {
    d[v / NPTENTRIES := Table(d[v / NPTENTRIES].entries[v % NPTENTRIES := e])]
  }

  lemma SetLookup(d: Dir, v: nat, e: Entry, u: nat)
    requires WfDir(d) && v < PAGES && HasTable(d, v) && u < PAGES
    ensures WfDir(Set(d, v, e))
    ensures Lookup(Set(d, v, e), u) == if u == v then e else Lookup(d, u)
    ensures HasTable(Set(d, v, e), u) == HasTable(d, u)
  {
    assert u == NPTENTRIES * (u / NPTENTRIES) + u % NPTENTRIES;
    assert v == NPTENTRIES * (v / NPTENTRIES) + v % NPTENTRIES;
  }

  /** A fresh page table is all absent, so adding one changes no page. */
  lemma AddTableLookup(d: Dir, v: nat, u: nat)
    requires WfDir(d) && v < PAGES && !HasTable(d, v) && u < PAGES
    ensures WfDir(d[v / NPTENTRIES := EmptyTable()])
    ensures Lookup(d[v / NPTENTRIES := EmptyTable()], u) == Lookup(d, u)
  {
  }

  // -------------------------------------------------------- deallocuvm's traversal

  /** The page after a in deallocuvm's loop: a missing table is skipped as 1024 pages from
      wherever the loop stands, not from the start of the table. */
  function NextPage(d: Dir, a: nat): nat
    requires WfDir(d) && a < PAGES
  {
    if HasTable(d, a) then a + 1 else a + NPTENTRIES
  }

  /** The loop from a reaches page v, with a page table there. */
  ghost predicate Visits(d: Dir, a: nat, end: nat, v: nat)
    requires WfDir(d) && end <= PAGES
    decreases if a < end then end - a else 0
  {
    a < end && ((a == v && HasTable(d, a)) || Visits(d, NextPage(d, a), end, v))
  }

  /** t is the first page table after page a's, and a has none. */
  predicate FirstTableAfter(d: Dir, a: nat, t: nat)
    requires WfDir(d)
  {
    && a / NPTENTRIES < t < NPDENTRIES && d[t].Table?
    && forall i :: a / NPTENTRIES <= i < t ==> d[i].NoTable?
  }

  /** Page v lies in the part of the first table that the skip jumps over. */
  ghost predicate Skipped(d: Dir, a: nat, v: nat)
    requires WfDir(d) && v < PAGES
  {
    FirstTableAfter(d, a, v / NPTENTRIES) && v % NPTENTRIES < a % NPTENTRIES
  }

  /** The loop reaches exactly the pages of its range that have a table and are not jumped
      over. */
  lemma {:induction false} VisitsIff(d: Dir, a: nat, end: nat, v: nat)
    requires WfDir(d) && end <= PAGES && v < PAGES
    ensures Visits(d, a, end, v) <==> a <= v < end && HasTable(d, v) && !Skipped(d, a, v)
    decreases if a < end then end - a else 0
  {
    if a < end {
      VisitsIff(d, NextPage(d, a), end, v);
      if HasTable(d, a) { StepInside(d, a, v); } else { StepOver(d, a, v); }
    }
  }

  /** Inside a table nothing is jumped over, and the next table is entered at its start. */
  lemma StepInside(d: Dir, a: nat, v: nat)
    requires WfDir(d) && a < PAGES && v < PAGES && HasTable(d, a)
    ensures !Skipped(d, a, v) && !Skipped(d, a + 1, v)
  {
  }

  lemma StepOver(d: Dir, a: nat, v: nat)
    requires WfDir(d) && a < PAGES && v < PAGES && !HasTable(d, a)
    ensures a <= v && HasTable(d, v) && !Skipped(d, a, v) <==>
            a + NPTENTRIES <= v && HasTable(d, v) && !Skipped(d, a + NPTENTRIES, v)
  {
  }

  /** From a page-table boundary, or from inside an existing table, nothing is missed. */
  lemma AlignedMissesNothing(d: Dir, a: nat, end: nat, v: nat)
    requires WfDir(d) && end <= PAGES && a <= v < end
    requires a % NPTENTRIES == 0 || HasTable(d, a)
    ensures Visits(d, a, end, v) <==> HasTable(d, v)
  {
    VisitsIff(d, a, end, v);
    if HasTable(d, a) { StepInside(d, a, v); }
  }

  /** The traversal reaches every present page of [a, end) exactly when none of them lies
      below a's offset in the first table found after skipping. */
  lemma MissesNothingIff(d: Dir, a: nat, end: nat)
    requires WfDir(d) && end <= PAGES
    ensures (forall v: nat :: a <= v < end && Lookup(d, v).Present? ==> Visits(d, a, end, v)) <==>
            (forall v: nat :: a <= v < end && Skipped(d, a, v) ==> !Lookup(d, v).Present?)
  {
    forall v: nat | v < end ensures Visits(d, a, end, v) <==> a <= v < end && HasTable(d, v) && !Skipped(d, a, v) {
      VisitsIff(d, a, end, v);
    }
  }

  /** A directory whose only mapped page is the first of the second table. */
  function LonePage(): (d: Dir)
    ensures WfDir(d)
  {
    seq(NPDENTRIES, i => if i == 1 then Table(seq(NPTENTRIES, j => if j == 0 then Present(7) else Absent)) else NoTable)
  }

  /** Shrinking from 8 MB to 4 KB leaves that page mapped. */
  lemma SkipMissesPage()
    ensures Lookup(LonePage(), NPTENTRIES) == Present(7) && !Visits(LonePage(), 1, 2 * NPTENTRIES, NPTENTRIES)
  {
    assert FirstTableAfter(LonePage(), 1, 1);
    VisitsIff(LonePage(), 1, 2 * NPTENTRIES, NPTENTRIES);
  }

  // ------------------------------------------------------------------- the operations

  /** d is d0 with n absent or paged pages from first on mapped to consecutive frames. */
  ghost predicate Mapped(d0: Dir, d: Dir, first: nat, n: nat, frame: nat) {
    && WfDir(d0) && WfDir(d) && first + n <= PAGES
    && (forall v: nat :: first <= v < first + n ==> !Lookup(d0, v).Present? && Lookup(d, v) == Present(frame + (v - first)))
    && (forall v: nat :: v < PAGES && !(first <= v < first + n) ==> Lookup(d, v) == Lookup(d0, v))
  }

  lemma MapStep(d0: Dir, d: Dir, first: nat, n: nat, frame: nat)
    requires Mapped(d0, d, first, n, frame) && first + n < PAGES && HasTable(d, first + n) && !Lookup(d, first + n).Present?
    ensures Mapped(d0, Set(d, first + n, Present(frame + n)), first, n + 1, frame)
  {
    var d' := Set(d, first + n, Present(frame + n));
    forall u: nat | u < PAGES
      ensures WfDir(d') && Lookup(d', u) == if u == first + n then Present(frame + n) else Lookup(d, u)
    {
      SetLookup(d, first + n, Present(frame + n), u);
    }
    SetLookup(d, first + n, Present(frame + n), 0);
    hide Lookup;
  }

  /** d is d0 with the pages of freed absent. */
  ghost predicate Cleared(d0: Dir, d: Dir, freed: set<nat>) {
    && WfDir(d0) && WfDir(d)
    && (forall v: nat :: v in freed ==> v < PAGES)
    && (forall v: nat :: v < PAGES ==> Lookup(d, v) == if v in freed then Absent else Lookup(d0, v))
    && (forall v: nat :: v < PAGES ==> HasTable(d, v) == HasTable(d0, v))
  }

  lemma ClearStep(d0: Dir, d: Dir, freed: set<nat>, a: nat)
    requires Cleared(d0, d, freed) && a < PAGES && HasTable(d, a)
    ensures Cleared(d0, Set(d, a, Absent), freed + {a})
  {
    var d' := Set(d, a, Absent);
    forall u: nat | u < PAGES
      ensures WfDir(d') && Lookup(d', u) == (if u == a then Absent else Lookup(d, u)) && HasTable(d', u) == HasTable(d, u)
    {
      SetLookup(d, a, Absent, u);
    }
    SetLookup(d, a, Absent, 0);
  }

  /** The traversal from a reaches page v, which is present, or swapped out. */
  ghost predicate Reached(d: Dir, a: nat, end: nat, v: nat)
    requires WfDir(d) && end <= PAGES
  {
    v < PAGES && Visits(d, a, end, v) && Lookup(d, v) != Absent
  }

  lemma ReachedStep(d: Dir, a: nat, end: nat)
    requires WfDir(d) && a < end <= PAGES
    ensures forall v: nat :: Reached(d, a, end, v) <==>
      (v == a && HasTable(d, a) && Lookup(d, a) != Absent) || Reached(d, NextPage(d, a), end, v)
  {
  }

  /** deallocuvm panics at page v: frame 0, or a page of the running process that is not in
      the table it should be in. */
  predicate Stops(d: Dir, v: nat, current: bool, memory: set<nat>, swapped: set<nat>)
    requires WfDir(d) && v < PAGES
  {
    match Lookup(d, v)
    case Absent => false
    case Present(frame) => frame == 0 || (current && v !in memory)
    case Paged => current && v !in swapped
  }

  /** deallocuvm from start has come to page a: it has freed and dropped all pages reached so
      far, and none of them stops it. */
  ghost predicate Progress(d0: Dir, d: Dir, start: nat, a: nat, end: nat, current: bool, memory: set<nat>, swapped: set<nat>,
                           freed: set<nat>, dropped: set<nat>)
  {
    && Cleared(d0, d, freed) && end <= PAGES
    && (forall v: nat :: v in freed ==> v < a && v < PAGES && Lookup(d0, v).Present?)
    && (forall v: nat :: v in dropped ==> v < a && v < PAGES && Lookup(d0, v).Paged?)
    && (forall v: nat :: v in freed || v in dropped ==> v < PAGES && !Stops(d0, v, current, memory, swapped))
    && (forall v: nat :: Reached(d0, start, end, v) <==> v in freed || v in dropped || Reached(d0, a, end, v))
  }

  lemma ProgressOver(d0: Dir, d: Dir, start: nat, a: nat, end: nat, current: bool, memory: set<nat>, swapped: set<nat>,
                     freed: set<nat>, dropped: set<nat>)
    requires Progress(d0, d, start, a, end, current, memory, swapped, freed, dropped) && a < end
    requires !HasTable(d, a) || Lookup(d, a) == Absent
    ensures Progress(d0, d, start, NextPage(d, a), end, current, memory, swapped, freed, dropped)
  {
    ReachedStep(d0, a, end);
    hide Lookup, Reached;
  }

  lemma ProgressFree(d0: Dir, d: Dir, start: nat, a: nat, end: nat, current: bool, memory: set<nat>, swapped: set<nat>,
                     freed: set<nat>, dropped: set<nat>)
    requires Progress(d0, d, start, a, end, current, memory, swapped, freed, dropped) && a < end
    requires HasTable(d, a) && Lookup(d, a).Present? && !Stops(d0, a, current, memory, swapped)
    ensures Progress(d0, Set(d, a, Absent), start, a + 1, end, current, memory, swapped, freed + {a}, dropped)
  {
    ReachedStep(d0, a, end);
    ClearStep(d0, d, freed, a);
    hide Lookup, Reached, Set;
  }

  lemma ProgressDrop(d0: Dir, d: Dir, start: nat, a: nat, end: nat, current: bool, memory: set<nat>, swapped: set<nat>,
                     freed: set<nat>, dropped: set<nat>)
    requires Progress(d0, d, start, a, end, current, memory, swapped, freed, dropped) && a < end
    requires HasTable(d, a) && Lookup(d, a).Paged? && !Stops(d0, a, current, memory, swapped)
    ensures Progress(d0, d, start, a + 1, end, current, memory, swapped, freed, dropped + {a})
  {
    ReachedStep(d0, a, end);
    hide Lookup, Reached;
  }

  /** The page the loop stands at is reached, and is as it was. */
  lemma ProgressHere(d0: Dir, d: Dir, start: nat, a: nat, end: nat, current: bool, memory: set<nat>, swapped: set<nat>,
                     freed: set<nat>, dropped: set<nat>)
    requires Progress(d0, d, start, a, end, current, memory, swapped, freed, dropped) && a < end
    ensures a !in freed && a !in dropped && a < PAGES && WfDir(d0) && WfDir(d)
    ensures Lookup(d, a) == Lookup(d0, a) && HasTable(d, a) == HasTable(d0, a)
    ensures HasTable(d, a) && Lookup(d, a) != Absent ==> Reached(d0, start, end, a)
  {
    ReachedStep(d0, a, end);
  }

  datatype Outcome = Done | NoMemory | Panic

  class AddressSpace {
    var dir: Dir
    /** Frames kalloc can still hand out. */
    var avail: nat
    /** The pages recorded in the memory table and in the swap table of the process that owns
        the directory, and its MemoryEntryNum and SwapPageNum. */
    var memory: set<nat>
    var swapped: set<nat>
    var entryNum: int
    var swapNum: int

    constructor (frames: nat)
      ensures WfDir(dir) && avail == frames && memory == {} && swapped == {} && entryNum == 0 && swapNum == 0
      ensures forall v: nat :: v < PAGES ==> Lookup(dir, v) == Absent
    {
      dir := seq(NPDENTRIES, i => NoTable);
      avail, memory, swapped, entryNum, swapNum := frames, {}, {}, 0, 0;
    }

    /** walkpgdir with alloc: afterwards page v has a table, or kalloc failed. */
    method Walk(v: nat) returns (ok: bool)
      requires WfDir(dir) && v < PAGES
      modifies this`dir, this`avail
      ensures WfDir(dir) && (ok <==> HasTable(dir, v))
      ensures ok <==> old(HasTable(dir, v)) || old(avail) > 0
      ensures avail == old(avail) - if !old(HasTable(dir, v)) && ok then 1 else 0
      ensures forall u: nat :: u < PAGES ==> Lookup(dir, u) == old(Lookup(dir, u))
    {
      if !HasTable(dir, v) {
        if avail == 0 { return false; }
        forall u: nat | u < PAGES ensures Lookup(dir[v / NPTENTRIES := EmptyTable()], u) == Lookup(dir, u) {
          AddTableLookup(dir, v, u);
        }
        avail := avail - 1;
        dir := dir[v / NPTENTRIES := EmptyTable()];
      }
      ok := true;
    }

    /** mappages for a byte range: page after page until the last, giving up when a table
        cannot be allocated and panicking on a page that is present.  done is the number of
        pages mapped. */
    method MapPages(va: nat, size: nat, frame: nat) returns (r: Outcome, done: nat)
      requires WfDir(dir) && 0 < size && va + size <= PAGES * PGSIZE
      modifies this`dir, this`avail
      ensures Mapped(old(dir), dir, va / PGSIZE, done, frame)
      ensures r.Done? <==> va / PGSIZE + done == (va + size - 1) / PGSIZE + 1
      ensures r.Panic? ==> va / PGSIZE + done < PAGES && old(Lookup(dir, va / PGSIZE + done)).Present?
      ensures r.NoMemory? ==> avail == 0 && va / PGSIZE + done < PAGES && !HasTable(dir, va / PGSIZE + done)
    {
      var first, last := va / PGSIZE, (va + size - 1) / PGSIZE;
      done := 0;
      while true
        invariant Mapped(old(dir), dir, first, done, frame) && first + done <= last < PAGES
        decreases last - first - done
      {
        var ok := Walk(first + done);
        if !ok { return NoMemory, done; }
        if Lookup(dir, first + done).Present? { return Panic, done; }
        MapStep(old(dir), dir, first, done, frame);
        dir := Set(dir, first + done, Present(frame + done));
        done := done + 1;
        if first + done - 1 == last { return Done, done; }
      }
    }

    /** deallocuvm on page numbers [start, end); current when the directory is the running
        process's.  freed are the pages given to kfree; dropped are swapped out, and their
        entries stay.  Each page freed lowers the entry count by two, once in
        RemoveFromMemoryList and once here. */
    method DeallocUvm(start: nat, end: nat, current: bool) returns (r: Outcome, ghost freed: set<nat>, ghost dropped: set<nat>)
      requires WfDir(dir) && end <= PAGES
      modifies this`dir, this`memory, this`swapped, this`entryNum, this`swapNum
      ensures Cleared(old(dir), dir, freed) && !r.NoMemory?
      ensures r.Panic? <==>
        exists v: nat :: Reached(old(dir), start, end, v) && Stops(old(dir), v, current, old(memory), old(swapped))
      ensures forall v: nat :: v in freed ==> Reached(old(dir), start, end, v) && old(Lookup(dir, v)).Present?
      ensures forall v: nat :: v in dropped ==> Reached(old(dir), start, end, v) && old(Lookup(dir, v)).Paged?
      ensures r.Done? ==> forall v: nat :: Reached(old(dir), start, end, v) ==> v in freed || v in dropped
      ensures current ==> memory == old(memory) - freed && entryNum == old(entryNum) - 2 * |freed|
      ensures current ==> swapped == old(swapped) - dropped && swapNum == old(swapNum) - |dropped|
      ensures !current ==> memory == old(memory) && swapped == old(swapped)
      ensures !current ==> entryNum == old(entryNum) && swapNum == old(swapNum)
    {
      ghost var d0, m0, s0 := dir, memory, swapped;
      freed, dropped := {}, {};
      r := Done;
      var a := start;
      hide Lookup, Set, Reached, Stops, Cleared, Progress, WfDir, HasTable;
      ProgressStarts(d0, start, end, current, m0, s0);
      while a < end
        invariant Progress(d0, dir, start, a, end, current, m0, s0, freed, dropped)
        invariant if current then memory == m0 - freed && swapped == s0 - dropped else memory == m0 && swapped == s0
        invariant if current then entryNum == old(entryNum) - 2 * |freed| && swapNum == old(swapNum) - |dropped|
                  else entryNum == old(entryNum) && swapNum == old(swapNum)
        decreases if a < end then end - a else 0
      {
        ProgressHere(d0, dir, start, a, end, current, m0, s0, freed, dropped);
        StopsAt(d0, a, current, m0, s0);
        if !HasTable(dir, a) {
          ProgressOver(d0, dir, start, a, end, current, m0, s0, freed, dropped);
          a := a + (NPTENTRIES - 1);
        } else if Lookup(dir, a).Present? {
          if Lookup(dir, a).frame == 0 || (current && a !in memory) {
            ProgressEnds(d0, dir, start, a, end, current, m0, s0, freed, dropped);
            return Panic, freed, dropped;
          }
          ProgressFree(d0, dir, start, a, end, current, m0, s0, freed, dropped);
          if current { memory, entryNum := memory - {a}, entryNum - 1 - 1; }
          dir := Set(dir, a, Absent);
          freed := freed + {a};
        } else if Lookup(dir, a).Paged? {
          if current {
            if a !in swapped {
              ProgressEnds(d0, dir, start, a, end, current, m0, s0, freed, dropped);
              return Panic, freed, dropped;
            }
            swapped, swapNum := swapped - {a}, swapNum - 1;
          }
          ProgressDrop(d0, dir, start, a, end, current, m0, s0, freed, dropped);
          dropped := dropped + {a};
        } else {
          ProgressOver(d0, dir, start, a, end, current, m0, s0, freed, dropped);
        }
        a := a + 1;
      }
      ProgressEnds(d0, dir, start, a, end, current, m0, s0, freed, dropped);
    }
  }

  lemma ProgressStarts(d: Dir, start: nat, end: nat, current: bool, memory: set<nat>, swapped: set<nat>)
    requires WfDir(d) && end <= PAGES
    ensures Progress(d, d, start, start, end, current, memory, swapped, {}, {})
  {
    hide Lookup, Reached;
  }

  lemma StopsAt(d: Dir, v: nat, current: bool, memory: set<nat>, swapped: set<nat>)
    requires WfDir(d) && v < PAGES
    ensures Lookup(d, v).Present? ==> (Stops(d, v, current, memory, swapped) <==> Lookup(d, v).frame == 0 || (current && v !in memory))
    ensures Lookup(d, v).Paged? ==> (Stops(d, v, current, memory, swapped) <==> current && v !in swapped)
  {
  }

  lemma ProgressEnds(d0: Dir, d: Dir, start: nat, a: nat, end: nat, current: bool, memory: set<nat>, swapped: set<nat>,
                     freed: set<nat>, dropped: set<nat>)
    requires Progress(d0, d, start, a, end, current, memory, swapped, freed, dropped)
    ensures Cleared(d0, d, freed) && WfDir(d0) && end <= PAGES
    ensures forall v: nat :: v in freed ==> v < PAGES && Reached(d0, start, end, v) && Lookup(d0, v).Present?
    ensures forall v: nat :: v in dropped ==> v < PAGES && Reached(d0, start, end, v) && Lookup(d0, v).Paged?
    ensures a >= end ==> forall v: nat :: Reached(d0, start, end, v) ==>
      (v in freed || v in dropped) && v < PAGES && !Stops(d0, v, current, memory, swapped)
  {
    hide Lookup;
  }
}
