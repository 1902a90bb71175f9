/** The shared-memory table (src/SharedMemory.c) and the signatures each process lists
    (src/proc.c).  Every event is one section under SharedMemoryLock. */
module SharedMemory {
  import opened Params

  const PER_PROC := 8

  /** page is what kalloc gave; None stands for the null of a failed kalloc and for the
      addresses of an unused entry, which kfree refuses with a panic. */
  datatype Entry = Entry(sig: int, users: int, page: Option<nat>)

  datatype Outcome = Done | Refused | Panic

  datatype State = State(global: seq<Entry>, lists: map<nat, seq<int>>)

  /** The first index of x, or |xs|. */
  function First(xs: seq<int>, x: int): (r: nat)
    ensures r <= |xs| && (r < |xs| ==> xs[r] == x) && forall j :: 0 <= j < r ==> xs[j] != x
  {
    if xs == [] || xs[0] == x then 0 else
      var r := First(xs[1..], x) + 1;
      assert forall j :: 0 < j < r ==> xs[j] == xs[1..][j - 1];
      r
  }

  /** The last index of x, or |xs|. */
  function Last(xs: seq<int>, x: int): (r: nat)
    ensures r <= |xs| && (r < |xs| ==> xs[r] == x && forall j :: r < j < |xs| ==> xs[j] != x)
    ensures r == |xs| ==> x !in xs
  {
    if xs == [] then 0
    else if xs[|xs| - 1] == x then |xs| - 1
    else
      var r := Last(xs[..|xs| - 1], x);
      if r < |xs| - 1 then r else |xs|
  }

  function Sigs(global: seq<Entry>): (r: seq<int>)
    ensures |r| == |global| && forall i :: 0 <= i < |r| ==> r[i] == global[i].sig
  {
    seq(|global|, i requires 0 <= i < |global| => global[i].sig)
  }

  /** AllocSharedMemory, given kalloc's answer should it be asked.  Empty places are the last
      ones found; an entry in use is the first one with the signature. */
  function Alloc(s: State, p: nat, sig: int, page: Option<nat>): (State, bool)
    requires p in s.lists
  {
    var self := s.lists[p];
    if sig in self || 0 !in self then (s, false)
    else
      var k, sigs := Last(self, 0), Sigs(s.global);
      var i, e := First(sigs, sig), Last(sigs, 0);
      if i < |sigs| then
        (State(s.global[i := s.global[i].(users := s.global[i].users + 1)], s.lists[p := self[k := sig]]), true)
      else if e < |sigs| then (State(s.global[e := Entry(sig, 1, page)], s.lists[p := self[k := sig]]), true)
      else (s, false)
  }

  /** DeallocSharedMemory.  kfree panics on an entry without a page. */
  function Dealloc(s: State, p: nat, sig: int): (State, Outcome)
    requires p in s.lists
  {
    var self := s.lists[p];
    var k, i := First(self, sig), First(Sigs(s.global), sig);
    if k == |self| || i == |s.global| then (s, Refused)
    else
      var n := s.global[i].users - 1;
      if n <= 0 && s.global[i].page == None then (s, Panic)
      else (State(s.global[i := if n <= 0 then Entry(0, n, None) else s.global[i].(users := n)], s.lists[p := self[k := 0]]), Done)
  }

  // ------------------------------------------------------------------------- invariant

  /** The processes that list sig. */
  ghost function Users(s: State, sig: int): set<nat> {
    set p | p in s.lists && sig in s.lists[p]
  }

  ghost predicate ListOk(list: seq<int>) {
    |list| == PER_PROC && forall i, j :: 0 <= i < j < |list| && list[i] == list[j] ==> list[i] == 0
  }

  /** A used entry's signature is unique and its count is the number of processes that list
      it; an unused entry counts nobody; every listed signature has an entry. */
  ghost predicate Inv(s: State) {
    && (forall p :: p in s.lists ==> ListOk(s.lists[p]))
    && (forall i, j :: 0 <= i < j < |s.global| && s.global[i].sig == s.global[j].sig ==> s.global[i].sig == 0)
    && (forall i :: 0 <= i < |s.global| ==> EntryOk(s, i))
    && (forall p, x :: p in s.lists && x in s.lists[p] && x != 0 ==> Known(s, x))
  }

  ghost predicate EntryOk(s: State, i: nat)
    requires i < |s.global|
  {
    var e := s.global[i];
    if e.sig == 0 then e.users == 0 && e.page == None else e.users == |Users(s, e.sig)| && e.users > 0
  }

  /** kalloc failed for the entry with this signature, or the entry is unused. */
  ghost predicate Pageless(s: State, x: int) {
    exists i :: 0 <= i < |s.global| && s.global[i].sig == x && s.global[i].page == None
  }

  ghost predicate Known(s: State, x: int) {
    exists i :: 0 <= i < |s.global| && s.global[i].sig == x
  }

  /** Writing y over x in place k of p's list changes who lists what only there. */
  lemma ListMoves(s: State, s': State, p: nat, k: nat, y: int)
    requires p in s.lists && ListOk(s.lists[p]) && k < PER_PROC && s'.lists == s.lists[p := s.lists[p][k := y]]
    requires y == 0 || y !in s.lists[p]
    requires y == 0 || s.lists[p][k] == 0
    ensures ListOk(s'.lists[p])
    ensures y != 0 ==> Users(s', y) == Users(s, y) + {p} && p !in Users(s, y)
    ensures y == 0 && s.lists[p][k] != 0 ==> Users(s', s.lists[p][k]) == Users(s, s.lists[p][k]) - {p} && p in Users(s, s.lists[p][k])
    ensures forall z :: z != 0 && z != y && z != s.lists[p][k] ==> Users(s', z) == Users(s, z)
  {
    var a, b := s.lists[p], s'.lists[p];
    assert b[k] == y;
    forall z | z != y && z != a[k] ensures z in b <==> z in a {
      if z in a { var i :| 0 <= i < |a| && a[i] == z; assert b[i] == z; }
    }
    if y == 0 && a[k] != 0 { assert a[k] !in b; }
  }

  lemma AllocKeeps(s: State, p: nat, sig: int, page: Option<nat>)
    requires Inv(s) && p in s.lists
    ensures Inv(Alloc(s, p, sig, page).0)
    ensures Alloc(s, p, sig, page).1 <==> sig !in s.lists[p] && 0 in s.lists[p] && (Known(s, sig) || Known(s, 0))
    ensures Alloc(s, p, sig, page).1 ==> sig != 0 && Users(Alloc(s, p, sig, page).0, sig) == Users(s, sig) + {p}
    ensures !Alloc(s, p, sig, page).1 ==> Alloc(s, p, sig, page).0 == s
  {
    var r := Alloc(s, p, sig, page);
    if r.1 {
      var s', k := r.0, Last(s.lists[p], 0);
      ListMoves(s, s', p, k, sig);
      assert s'.lists[p][k] == sig;
      forall i: nat | i < |s'.global| ensures EntryOk(s', i) { assert EntryOk(s, i); AllocEntry(s, p, sig, page, i); }
      forall q, x | q in s'.lists && x in s'.lists[q] && x != 0 ensures Known(s', x) {
        AllocKnown(s, p, sig, page, q, x);
      }
    }
  }

  lemma AllocEntry(s: State, p: nat, sig: int, page: Option<nat>, i: nat)
    requires Inv(s) && p in s.lists && Alloc(s, p, sig, page).1 && i < |s.global|
    ensures |Alloc(s, p, sig, page).0.global| == |s.global| && EntryOk(Alloc(s, p, sig, page).0, i)
  {
    var s' := Alloc(s, p, sig, page).0;
    ListMoves(s, s', p, Last(s.lists[p], 0), sig);
    assert EntryOk(s, i);
    if First(Sigs(s.global), sig) == |s.global| && i == Last(Sigs(s.global), 0) {
      assert !Known(s, sig);
      assert Users(s, sig) == {};
    }
  }

  lemma AllocKnown(s: State, p: nat, sig: int, page: Option<nat>, q: nat, x: int)
    requires Inv(s) && p in s.lists && Alloc(s, p, sig, page).1
    requires q in Alloc(s, p, sig, page).0.lists && x in Alloc(s, p, sig, page).0.lists[q] && x != 0
    ensures Known(Alloc(s, p, sig, page).0, x)
  {
    var s', sigs := Alloc(s, p, sig, page).0, Sigs(s.global);
    var i := if First(sigs, sig) < |sigs| then First(sigs, sig) else Last(sigs, 0);
    if x == sig { assert s'.global[i].sig == sig; }
    else {
      assert x in s.lists[q] && Known(s, x);
      var j :| 0 <= j < |s.global| && s.global[j].sig == x;
      assert s'.global[j].sig == x;
    }
  }

  lemma DeallocEntry(s: State, p: nat, sig: int, i: nat)
    requires Inv(s) && p in s.lists && Dealloc(s, p, sig).1.Done? && i < |s.global|
    ensures |Dealloc(s, p, sig).0.global| == |s.global| && EntryOk(Dealloc(s, p, sig).0, i)
  {
    var s', k := Dealloc(s, p, sig).0, First(s.lists[p], sig);
    ListMoves(s, s', p, k, 0);
    assert EntryOk(s, i);
  }

  lemma DeallocKnown(s: State, p: nat, sig: int, q: nat, x: int)
    requires Inv(s) && p in s.lists && Dealloc(s, p, sig).1.Done?
    requires q in Dealloc(s, p, sig).0.lists && x in Dealloc(s, p, sig).0.lists[q] && x != 0
    ensures Known(Dealloc(s, p, sig).0, x)
  {
    var s', k := Dealloc(s, p, sig).0, First(s.lists[p], sig);
    ListMoves(s, s', p, k, 0);
    assert x in s.lists[q] && Known(s, x);
    var j :| 0 <= j < |s.global| && s.global[j].sig == x;
    DeallocEntry(s, p, sig, j);
    assert EntryOk(s, j);
    if x == sig {
      assert q in Users(s', sig);
      assert |Users(s', sig)| == |Users(s, sig)| - 1;
      assert s.global[j].users == 1 ==> |Users(s', sig)| == 0;
    }
    assert s'.global[j].sig == x;
  }

  /** Deallocation keeps the counts.  It is refused exactly when the process or the table does
      not have the signature; it panics exactly when the last user leaves an entry without a
      page; otherwise this user leaves, and the entry is freed exactly with the last one. */
  lemma DeallocKeeps(s: State, p: nat, sig: int)
    requires Inv(s) && p in s.lists
    ensures Inv(Dealloc(s, p, sig).0)
    ensures Dealloc(s, p, sig).1.Refused? <==> sig !in s.lists[p] || !Known(s, sig)
    ensures Dealloc(s, p, sig).1.Panic? <==> sig in s.lists[p] && Pageless(s, sig) && (sig == 0 || Users(s, sig) == {p})
    ensures !Dealloc(s, p, sig).1.Done? ==> Dealloc(s, p, sig).0 == s
    ensures Dealloc(s, p, sig).1.Done? ==>
      && sig != 0 && Users(Dealloc(s, p, sig).0, sig) == Users(s, sig) - {p}
      && (Known(Dealloc(s, p, sig).0, sig) <==> Users(s, sig) != {p})
  {
    var r, k, g := Dealloc(s, p, sig), First(s.lists[p], sig), First(Sigs(s.global), sig);
    if sig in s.lists[p] && Known(s, sig) {
      assert EntryOk(s, g);
      DeallocOutcome(s, p, sig);
      if r.1.Done? { DeallocDone(s, p, sig); }
    }
  }

  lemma DeallocOutcome(s: State, p: nat, sig: int)
    requires Inv(s) && p in s.lists && sig in s.lists[p] && Known(s, sig)
    ensures !Dealloc(s, p, sig).1.Refused?
    ensures Dealloc(s, p, sig).1.Panic? <==> Pageless(s, sig) && (sig == 0 || Users(s, sig) == {p})
  {
    var g := First(Sigs(s.global), sig);
    assert EntryOk(s, g);
    assert sig != 0 ==> (Pageless(s, sig) <==> s.global[g].page == None);
    if sig != 0 { LastUser(s, p, sig); }
  }

  lemma DeallocDone(s: State, p: nat, sig: int)
    requires Inv(s) && p in s.lists && Dealloc(s, p, sig).1.Done?
    ensures sig != 0 && Inv(Dealloc(s, p, sig).0)
    ensures Users(Dealloc(s, p, sig).0, sig) == Users(s, sig) - {p}
    ensures Known(Dealloc(s, p, sig).0, sig) <==> Users(s, sig) != {p}
  {
    var s', k, g := Dealloc(s, p, sig).0, First(s.lists[p], sig), First(Sigs(s.global), sig);
    assert EntryOk(s, g);
    ListMoves(s, s', p, k, 0);
    forall i: nat | i < |s'.global| ensures EntryOk(s', i) { DeallocEntry(s, p, sig, i); }
    forall q, x | q in s'.lists && x in s'.lists[q] && x != 0 ensures Known(s', x) { DeallocKnown(s, p, sig, q, x); }
    LastUser(s, p, sig);
    assert s'.global[g].sig == if s.global[g].users == 1 then 0 else sig;
  }

  lemma LastUser(s: State, p: nat, sig: int)
    requires p in Users(s, sig)
    ensures |Users(s, sig)| == 1 <==> Users(s, sig) == {p}
  {
    assert |Users(s, sig) - {p}| == |Users(s, sig)| - 1;
    if Users(s, sig) - {p} == {} { assert Users(s, sig) == {p}; }
  }

  /** With signature 0 the search finds an empty place and an unused entry, whose address kfree
      refuses: deallocation panics exactly when there are both, and does nothing otherwise. */
  lemma DeallocZeroPanicsIff(s: State, p: nat)
    requires Inv(s) && p in s.lists
    ensures Dealloc(s, p, 0).1.Panic? <==> 0 in s.lists[p] && Known(s, 0)
    ensures Dealloc(s, p, 0).0 == s
  {
    DeallocKeeps(s, p, 0);
    forall i: nat | i < |s.global| && s.global[i].sig == 0 ensures Pageless(s, 0) { assert EntryOk(s, i); }
  }

  // ------------------------------------------------------------------------ whole runs

  function NoSigs(): seq<int> {
    seq(PER_PROC, i => 0)
  }

  datatype Event = AllocE(p: nat, sig: int, page: Option<nat>) | DeallocE(p: nat, sig: int) | Fork(child: nat) | Gone(p: nat)

  /** A process goes once exit has emptied its list. */
  predicate Enabled(s: State, e: Event) {
    match e
    case AllocE(p, _, _) => p in s.lists
    case DeallocE(p, sig) => p in s.lists && !Dealloc(s, p, sig).1.Panic?
    case Fork(child) => child !in s.lists
    case Gone(p) => p in s.lists && s.lists[p] == NoSigs()
  }

  function Apply(s: State, e: Event): State
    requires Enabled(s, e)
  {
    match e
    case AllocE(p, sig, page) => Alloc(s, p, sig, page).0
    case DeallocE(p, sig) => Dealloc(s, p, sig).0
    case Fork(child) => s.(lists := s.lists[child := NoSigs()])
    case Gone(p) => s.(lists := s.lists - {p})
  }

  lemma Keeps(s: State, e: Event)
    requires Inv(s) && Enabled(s, e)
    ensures Inv(Apply(s, e))
  {
    match e
    case AllocE(p, sig, page) => AllocKeeps(s, p, sig, page);
    case DeallocE(p, sig) => DeallocKeeps(s, p, sig);
    case Fork(child) => EmptyListKeeps(s, Apply(s, e), child);
    case Gone(p) => EmptyListKeeps(s, Apply(s, e), p);
  }

  lemma EmptyListKeeps(s: State, s': State, p: nat)
    requires Inv(s) && s'.global == s.global && (p in s.lists ==> s.lists[p] == NoSigs())
    requires s'.lists == s.lists[p := NoSigs()] || s'.lists == s.lists - {p}
    ensures Inv(s')
  {
    forall z | z != 0 ensures Users(s', z) == Users(s, z) {}
    forall i: nat | i < |s.global| ensures EntryOk(s', i) { assert EntryOk(s, i); }
    forall q, x | q in s'.lists && x in s'.lists[q] && x != 0 ensures Known(s', x) { assert Known(s, x); }
  }

  ghost predicate ValidRun(s: State, es: seq<Event>)
    decreases |es|
  {
    es != [] ==> Enabled(s, es[0]) && ValidRun(Apply(s, es[0]), es[1..])
  }

  ghost function RunTo(s: State, es: seq<Event>): State
    requires ValidRun(s, es)
    decreases |es|
  {
    if es == [] then s else RunTo(Apply(s, es[0]), es[1..])
  }

  /** Whatever processes do short of a panic, every entry counts its users. */
  lemma {:induction false} CountsAreUsers(s: State, es: seq<Event>)
    requires Inv(s) && ValidRun(s, es)
    ensures Inv(RunTo(s, es))
    decreases |es|
  {
    if es != [] {
      Keeps(s, es[0]);
      CountsAreUsers(Apply(s, es[0]), es[1..]);
    }
  }

  // ------------------------------------------------------------------------- the loops

  class Manager {
    var s: State

    constructor (n: nat)
      ensures Inv(s) && s.lists == map[]
    {
      s := State(seq(n, i => Entry(0, 0, None)), map[]);
    }

    method FindSelf(p: nat, sig: int) returns (k: nat)
      requires p in s.lists
      ensures k == First(s.lists[p], sig)
    {
      k := 0;
      while k < |s.lists[p]| && s.lists[p][k] != sig
        invariant k <= |s.lists[p]| && forall j :: 0 <= j < k ==> s.lists[p][j] != sig
      {
        k := k + 1;
      }
    }

    method FindGlobal(sig: int) returns (i: nat)
      ensures i == First(Sigs(s.global), sig)
    {
      i := 0;
      while i < |s.global| && s.global[i].sig != sig
        invariant i <= |s.global| && forall j :: 0 <= j < i ==> s.global[j].sig != sig
      {
        i := i + 1;
      }
    }

    /** AllocSharedMemory's two scans. */
    method AllocSharedMemory(p: nat, sig: int, page: Option<nat>) returns (ok: bool)
      requires p in s.lists
      modifies this
      ensures s == Alloc(old(s), p, sig, page).0 && ok == Alloc(old(s), p, sig, page).1
    {
      var self := s.lists[p];
      var i, place := 0, -1;
      while i < |self|
        invariant 0 <= i <= |self| && s == old(s)
        invariant forall j :: 0 <= j < i ==> self[j] != sig
        invariant place == -1 ==> forall j :: 0 <= j < i ==> self[j] != 0
        invariant place != -1 ==> 0 <= place < i && self[place] == 0 && forall j :: place < j < i ==> self[j] != 0
      {
        if self[i] == sig { return false; }
        if self[i] == 0 { place := i; }
        i := i + 1;
      }
      if place == -1 { return false; }
      assert place == Last(self, 0);
      var g, spot := 0, -1;
      while g < |s.global|
        invariant 0 <= g <= |s.global| && s == old(s)
        invariant forall j :: 0 <= j < g ==> s.global[j].sig != sig
        invariant spot == -1 ==> forall j :: 0 <= j < g ==> s.global[j].sig != 0
        invariant spot != -1 ==> 0 <= spot < g && s.global[spot].sig == 0 && forall j :: spot < j < g ==> s.global[j].sig != 0
      {
        if s.global[g].sig == sig {
          assert g == First(Sigs(s.global), sig);
          s := State(s.global[g := s.global[g].(users := s.global[g].users + 1)], s.lists[p := self[place := sig]]);
          return true;
        }
        if s.global[g].sig == 0 { spot := g; }
        g := g + 1;
      }
      assert First(Sigs(s.global), sig) == |s.global|;
      assert spot != -1 ==> spot == Last(Sigs(s.global), 0);
      assert spot == -1 ==> Last(Sigs(s.global), 0) == |s.global|;
      if spot == -1 { return false; }
      s := State(s.global[spot := Entry(sig, 1, page)], s.lists[p := self[place := sig]]);
      ok := true;
    }

    method DeallocSharedMemory(p: nat, sig: int) returns (r: Outcome)
      requires p in s.lists
      modifies this
      ensures s == Dealloc(old(s), p, sig).0 && r == Dealloc(old(s), p, sig).1
    {
      var k := FindSelf(p, sig);
      if k == |s.lists[p]| { return Refused; }
      var i := FindGlobal(sig);
      if i == |s.global| { return Refused; }
      var n := s.global[i].users - 1;
      if n <= 0 && s.global[i].page == None { return Panic; }
      s := State(s.global[i := if n <= 0 then Entry(0, n, None) else s.global[i].(users := n)], s.lists[p := s.lists[p][k := 0]]);
      r := Done;
    }

    /** exit's loop: afterwards the process lists nothing and all counts are right.  It panics
        exactly when the process is the last user of an entry for which kalloc had failed. */
    method Exit(p: nat) returns (ok: bool)
      requires Inv(s) && p in s.lists
      modifies this
      ensures ok ==> Inv(s) && s.lists == old(s).lists[p := NoSigs()]
      ensures ok <==> forall x :: x in old(s).lists[p] ==> !LeavesPageless(old(s), p, x)
    {
      ghost var s0 := s;
      var i := 0;
      while i < PER_PROC
        invariant 0 <= i <= PER_PROC && Inv(s) && p in s.lists && s.lists == s0.lists[p := s.lists[p]]
        invariant forall j :: 0 <= j < i ==> s.lists[p][j] == 0
        invariant forall j :: i <= j < PER_PROC ==> s.lists[p][j] == s0.lists[p][j]
        invariant forall x :: x in s.lists[p] ==> LeavesPageless(s, p, x) == LeavesPageless(s0, p, x)
        invariant forall j :: 0 <= j < i ==> !LeavesPageless(s0, p, s0.lists[p][j])
      {
        var sig := s.lists[p][i];
        if sig != 0 {
          ghost var before := s;
          DeallocKeeps(s, p, sig);
          var r := DeallocSharedMemory(p, sig);
          if r.Panic? { return false; }
          OthersStay(before, p, sig);
          assert s.lists[p][i] == 0;
        }
        i := i + 1;
      }
      assert s.lists[p] == NoSigs();
      ok := true;
    }
  }

  /** p is the last user of an entry that has no page. */
  ghost predicate LeavesPageless(s: State, p: nat, x: int) {
    x != 0 && Pageless(s, x) && Users(s, x) == {p}
  }

  /** Leaving one signature makes no difference to the others. */
  lemma OthersStay(s: State, p: nat, sig: int)
    requires Inv(s) && p in s.lists && Dealloc(s, p, sig).1.Done?
    ensures var s' := Dealloc(s, p, sig).0;
      && s'.lists == s.lists[p := s.lists[p][First(s.lists[p], sig) := 0]]
      && forall x :: x != sig ==> LeavesPageless(s', p, x) == LeavesPageless(s, p, x)
  {
    var s', k := Dealloc(s, p, sig).0, First(s.lists[p], sig);
    DeallocDone(s, p, sig);
    ListMoves(s, s', p, k, 0);
    forall x | x != sig && x != 0 ensures LeavesPageless(s', p, x) == LeavesPageless(s, p, x) {
      assert Users(s', x) == Users(s, x);
      forall i: nat | i < |s.global| ensures s.global[i].sig == x <==> s'.global[i].sig == x {}
      assert Pageless(s', x) == Pageless(s, x);
    }
  }
}
