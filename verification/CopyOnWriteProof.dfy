/** Every run of the copy-on-write machine refines private per-process memories. */
module CopyOnWriteProof {
  import opened Params
  import opened CopyOnWrite

  // ------------------------------------------------------------------ invariant

  /** A child slot mapped by copyuvm whose count increment is still to come. */
  predicate Uncounted(s: State, k: Key) {
    && k.slot.User? && k.p in s.embryo && s.embryo[k.p] in s.busy
    && s.busy[s.embryo[k.p]] == Sharing(k.p, k.slot.page)
  }

  /** The counted slots that map frame f. */
  ghost function Counted(s: State, f: nat): set<Key> {
    set k | k in s.ptes && s.ptes[k].frame == f && !Uncounted(s, k)
  }

  /** The activity holds a count of frame f: the frame is to be copied to, or was mapped until
      now. */
  predicate InFlight(a: Activity, f: nat) {
    a == Dropping(f) || (a.Copying? && a.frame == f)
  }

  ghost function Pending(s: State, f: nat): set<nat> {
    set p | p in s.busy && InFlight(s.busy[p], f)
  }

  /** No other slot maps the frame that slot k maps. */
  ghost predicate Sole(ptes: map<Key, Pte>, k: Key)
    requires k in ptes
  {
    forall j :: j in ptes && ptes[j].frame == ptes[k].frame ==> j == k
  }

  ghost predicate Shape(s: State) {
    && |s.refcnt| == |s.frames|
    && (forall f :: 0 <= f < |s.frames| ==> |s.frames[f]| == PGSIZE)
    && (forall k :: k in s.ptes ==> s.ptes[k].frame < |s.frames| && k.p in s.procs)
  }

  /** Frames on the free list are distinct, uncounted and mapped by nobody. */
  ghost predicate FreeOk(s: State)
    requires Shape(s)
  {
    && (forall i :: 0 <= i < |s.free| ==> s.free[i] < |s.frames| && s.refcnt[s.free[i]] == 0)
    && (forall i, j :: 0 <= i < j < |s.free| ==> s.free[i] != s.free[j])
    && (forall i, k :: 0 <= i < |s.free| && k in s.ptes ==> s.ptes[k].frame != s.free[i])
  }

  /** A frame's count is the number of counted slots that map it and of activities that hold
      it. */
  ghost predicate CountsOk(s: State)
    requires Shape(s)
  {
    forall f :: 0 <= f < |s.refcnt| ==> s.refcnt[f] == |Counted(s, f)| + |Pending(s, f)|
  }

  ghost predicate EmbryoOk(s: State) {
    && (forall c :: c in s.embryo ==>
          c in s.procs && s.embryo[c] in s.procs && s.embryo[c] !in s.embryo && c !in s.busy)
    && (forall p :: p in s.busy ==> p in s.procs && p !in s.embryo)
  }

  ghost predicate SharingOk(s: State, p: nat)
    requires p in s.busy && s.busy[p].Sharing?
  {
    var own, copy := UserKey(p, s.busy[p].page), UserKey(s.busy[p].child, s.busy[p].page);
    && copy.p in s.embryo && s.embryo[copy.p] == p
    && own in s.ptes && copy in s.ptes && s.ptes[copy] == s.ptes[own]
  }

  ghost predicate FaultingOk(s: State, p: nat)
    requires p in s.busy && s.busy[p].Faulting?
  {
    var k := UserKey(p, s.busy[p].page);
    && k in s.ptes && !s.ptes[k].writable && s.ptes[k].user
    && (s.busy[p].count == 1 ==> Sole(s.ptes, k))
  }

  /** The frame to copy to is mapped by nobody, and the page still waits for it. */
  ghost predicate CopyingOk(s: State, p: nat)
    requires p in s.busy && s.busy[p].Copying?
  {
    var k := UserKey(p, s.busy[p].page);
    && k in s.ptes && !s.ptes[k].writable && s.ptes[k].user
    && s.busy[p].frame < |s.frames| && (forall j :: j in s.ptes ==> s.ptes[j].frame != s.busy[p].frame)
  }

  ghost predicate BusyOk(s: State) {
    && (forall p :: p in s.busy && s.busy[p].Copying? ==> CopyingOk(s, p))
    && (forall p, q :: p in s.busy && q in s.busy && p != q && s.busy[p].Copying? && s.busy[q].Copying? ==>
          s.busy[p].frame != s.busy[q].frame)
    && (forall p :: p in s.busy && s.busy[p].Dropping? ==> s.busy[p].frame < |s.frames|)
    && (forall p :: p in s.busy && s.busy[p].Sharing? ==> SharingOk(s, p))
    && (forall p :: p in s.busy && s.busy[p].Faulting? ==> FaultingOk(s, p))
  }

  /** A writable entry is its frame's only mapping. */
  ghost predicate WritableOk(s: State) {
    forall k :: k in s.ptes && s.ptes[k].writable ==> Sole(s.ptes, k)
  }

  ghost predicate Inv(s: State) {
    && Shape(s) && FreeOk(s) && CountsOk(s) && EmbryoOk(s) && BusyOk(s) && WritableOk(s)
  }

  // -------------------------------------------------------------- specification

  /** A user page of a process. */
  datatype Place = Place(p: nat, page: nat)

  /** Private memories: the bytes of every user page of every process. */
  type Memory = map<Place, Page>

  ghost function Places(ptes: map<Key, Pte>): (r: set<Place>)
    ensures forall x :: x in r <==> UserKey(x.p, x.page) in ptes
  {
    var r := set k | k in ptes && k.slot.User? :: Place(k.p, k.slot.page);
    assert forall x: Place :: UserKey(x.p, x.page) in ptes ==>
             Place(UserKey(x.p, x.page).p, UserKey(x.p, x.page).slot.page) in r;
    r
  }

  ghost function FrameBytes(s: State, f: nat): Page {
    if f < |s.frames| then s.frames[f] else []
  }

  ghost function Abs(s: State): (m: Memory)
    ensures forall x :: x in m <==> UserKey(x.p, x.page) in s.ptes
    ensures forall x :: x in m ==> m[x] == FrameBytes(s, s.ptes[UserKey(x.p, x.page)].frame)
  {
    map x | x in Places(s.ptes) :: FrameBytes(s, s.ptes[UserKey(x.p, x.page)].frame)
  }

  /** What each event means for private memories.  Page faults and counting mean nothing. */
  ghost function SpecStep(m: Memory, e: Event): Memory {
    match e
    case MapZero(p, page) => m[Place(p, page) := Filled(PGSIZE, 0)]
    case ShareMap(parent, child, page) =>
      if Place(parent, page) in m then m[Place(child, page) := m[Place(parent, page)]] else m
    case Unmap(p, x) => if x.User? then m - {Place(p, x.page)} else m
    case Store(p, page, off, val) =>
      if Place(p, page) in m && off < |m[Place(p, page)]|
      then m[Place(p, page) := m[Place(p, page)][off := val]] else m
    case _ => m
  }

  // ------------------------------------------------------------------- counting

  /** Two sets that agree except perhaps on k differ in size by k alone. */
  lemma SizeBut(a: set<Key>, b: set<Key>, k: Key)
    requires forall j :: j != k ==> (j in a <==> j in b)
    ensures |a| - (if k in a then 1 else 0) == |b| - (if k in b then 1 else 0)
  {
    assert a - {k} == b - {k};
    assert |a - {k}| == |a| - if k in a then 1 else 0;
    assert |b - {k}| == |b| - if k in b then 1 else 0;
  }

  /** Counts when a step changes slot k only. */
  lemma CountsMove(s: State, s': State, k: Key, f: nat)
    requires forall j :: j != k ==> (j in s'.ptes <==> j in s.ptes)
    requires forall j :: j != k && j in s.ptes ==> s'.ptes[j].frame == s.ptes[j].frame && Uncounted(s', j) == Uncounted(s, j)
    ensures |Counted(s', f)| == |Counted(s, f)| + (if k in Counted(s', f) then 1 else 0)
                                               - (if k in Counted(s, f) then 1 else 0)
  {
    SizeBut(Counted(s, f), Counted(s', f), k);
  }

  /** No activity takes or gives up a frame. */
  ghost predicate SameInFlight(s: State, s': State) {
    forall p, f: nat :: p in s.busy && InFlight(s.busy[p], f) <==> p in s'.busy && InFlight(s'.busy[p], f)
  }

  lemma SamePending(s: State, s': State, f: nat)
    requires SameInFlight(s, s')
    ensures Pending(s', f) == Pending(s, f)
  {
    forall p ensures p in Pending(s', f) <==> p in Pending(s, f) {}
  }

  /** What activities hold when only that of p changes. */
  lemma PendingMove(s: State, s': State, p: nat, f: nat)
    requires forall q :: q != p ==> (q in s'.busy <==> q in s.busy) && (q in s.busy ==> s'.busy[q] == s.busy[q])
    ensures |Pending(s', f)| == |Pending(s, f)| + (if p in Pending(s', f) then 1 else 0)
                                                - (if p in Pending(s, f) then 1 else 0)
  {
    var a, b := Pending(s, f), Pending(s', f);
    forall q | q != p ensures q in a <==> q in b {}
    hide Pending;
    assert a - {p} == b - {p};
    assert |a - {p}| == |a| - if p in a then 1 else 0;
    assert |b - {p}| == |b| - if p in b then 1 else 0;
  }

  /** A frame that an activity holds is counted, and so not free. */
  lemma InFlightCounted(s: State, p: nat, f: nat)
    requires Shape(s) && CountsOk(s) && p in s.busy && InFlight(s.busy[p], f) && f < |s.refcnt|
    ensures s.refcnt[f] > 0
  {
    assert p in Pending(s, f);
  }

  // --------------------------------------------------------- fresh frames: kalloc

  /** One frame leaves the free list for one new slot. */
  lemma TakeFrameCounts(s: State, s': State, k: Key, data: Page, user: bool)
    requires Inv(s) && s.free != [] && k !in s.ptes && |data| == PGSIZE
    requires s' == TakeFrame(s, k, data, user).(procs := s.procs + {k.p}, embryo := s'.embryo)
    requires forall j :: j in s'.ptes ==> Uncounted(s', j) == Uncounted(s, j)
    requires !Uncounted(s', k)
    ensures Shape(s') && FreeOk(s') && CountsOk(s')
  {
    forall f | 0 <= f < |s'.refcnt| ensures s'.refcnt[f] == |Counted(s', f)| + |Pending(s', f)| {
      CountsMove(s, s', k, f);
      SamePending(s, s', f);
    }
  }

  lemma TakeFrameSole(s: State, s': State, k: Key, data: Page, user: bool)
    requires Inv(s) && s.free != [] && k !in s.ptes && |data| == PGSIZE
    requires s' == TakeFrame(s, k, data, user).(procs := s.procs + {k.p}, embryo := s'.embryo)
    requires forall c :: c in s.embryo ==> c in s'.embryo && s'.embryo[c] == s.embryo[c]
    ensures BusyOk(s') && WritableOk(s')
  {
    forall p | p in s'.busy && s'.busy[p].Sharing? ensures SharingOk(s', p) { assert SharingOk(s, p); }
    forall p | p in s'.busy && s'.busy[p].Faulting? ensures FaultingOk(s', p) { assert FaultingOk(s, p); }
    forall p | p in s'.busy && s'.busy[p].Copying? ensures CopyingOk(s', p) {
      assert CopyingOk(s, p);
      InFlightCounted(s, p, s.busy[p].frame);
    }
    forall j | j in s'.ptes && s'.ptes[j].writable ensures Sole(s'.ptes, j) {
      if j != k { assert Sole(s.ptes, j); }
    }
  }

  lemma KeepsNewSpace(s: State, e: Event)
    requires Inv(s) && Enabled(s, e) && e.NewSpace?
    ensures Inv(Apply(s, e))
  {
    var s', k := Apply(s, e), Key(e.child, Dir);
    TakeFrameCounts(s, s', k, Filled(PGSIZE, 0), false);
    TakeFrameSole(s, s', k, Filled(PGSIZE, 0), false);
  }

  /** An uncounted slot exists and belongs to an embryo whose parent is busy. */
  lemma UncountedExists(s: State, k: Key)
    requires Inv(s) && Uncounted(s, k)
    ensures k in s.ptes && !Editable(s, k.p)
  {
    assert SharingOk(s, s.embryo[k.p]);
  }

  lemma KeepsMapZero(s: State, e: Event)
    requires Inv(s) && Enabled(s, e) && (e.AddTable? || e.MapZero?)
    ensures Inv(Apply(s, e))
  {
    var s', k := Apply(s, e), if e.AddTable? then Key(e.p, Table(e.pdx)) else UserKey(e.p, e.page);
    assert s.procs + {k.p} == s.procs;
    assert !Uncounted(s, k) by { if Uncounted(s, k) { UncountedExists(s, k); } }
    TakeFrameCounts(s, s', k, Filled(PGSIZE, 0), e.MapZero?);
    TakeFrameSole(s, s', k, Filled(PGSIZE, 0), e.MapZero?);
  }

  // ------------------------------------------------------------- fork: copyuvm

  lemma ShareMapHeld(s: State, e: Event, f: nat)
    requires EmbryoOk(s) && BusyOk(s) && Enabled(s, e) && e.ShareMap?
    ensures var s' := Apply(s, e); |Counted(s', f)| == |Counted(s, f)| && |Pending(s', f)| == |Pending(s, f)|
  {
    var s', copy := Apply(s, e), UserKey(e.child, e.page);
    assert Uncounted(s', copy);
    hide BusyOk;
    CountsMove(s, s', copy, f);
    SamePending(s, s', f);
  }

  lemma ShareMapCounts(s: State, e: Event)
    requires Inv(s) && Enabled(s, e) && e.ShareMap?
    ensures var s' := Apply(s, e); Shape(s') && FreeOk(s') && CountsOk(s')
  {
    hide Counted, Pending, BusyOk, WritableOk, EmbryoOk;
    var s' := Apply(s, e);
    assert Shape(s') && FreeOk(s');
    forall f | 0 <= f < |s'.refcnt| ensures s'.refcnt[f] == |Counted(s', f)| + |Pending(s', f)| { ShareMapHeld(s, e, f); }
  }

  lemma ShareMapIs(s: State, e: Event)
    requires Enabled(s, e) && e.ShareMap?
    ensures var own, copy := UserKey(e.parent, e.page), UserKey(e.child, e.page);
      && Idle(s, e.parent) && e.child in s.embryo && s.embryo[e.child] == e.parent && own in s.ptes && copy !in s.ptes
      && var pte := s.ptes[own].(writable := false);
         Apply(s, e) == s.(ptes := s.ptes[own := pte][copy := pte], busy := s.busy[e.parent := Sharing(e.child, e.page)])
  {
  }

  /** Forking touches no page that a fault is about, and adds no mapping of its frame. */
  lemma ShareMapFaults(s: State, e: Event, p: nat)
    requires Inv(s) && Enabled(s, e) && e.ShareMap? && p in s.busy && p in Apply(s, e).busy
    ensures s.busy[p].Faulting? ==> Apply(s, e).busy[p] == s.busy[p] && FaultingOk(Apply(s, e), p)
    ensures s.busy[p].Copying? ==> Apply(s, e).busy[p] == s.busy[p] && CopyingOk(Apply(s, e), p)
  {
    ShareMapIs(s, e);
    hide Apply, Enabled, CountsOk, FreeOk, WritableOk, EmbryoOk;
    if s.busy[p].Faulting? { assert FaultingOk(s, p); }
    if s.busy[p].Copying? { assert CopyingOk(s, p); }
  }

  lemma ShareMapShares(s: State, e: Event, p: nat)
    requires Inv(s) && Enabled(s, e) && e.ShareMap? && p in Apply(s, e).busy && Apply(s, e).busy[p].Sharing?
    ensures SharingOk(Apply(s, e), p)
  {
    ShareMapIs(s, e);
    hide Apply, Enabled, CountsOk, FreeOk, WritableOk;
    if p != e.parent { assert SharingOk(s, p); }
  }

  lemma ShareMapBusy(s: State, e: Event)
    requires Inv(s) && Enabled(s, e) && e.ShareMap?
    ensures BusyOk(Apply(s, e))
  {
    var s' := Apply(s, e);
    ShareMapIs(s, e);
    assert BusyOk(s);
    hide Inv, Apply, Enabled, SharingOk, FaultingOk, CopyingOk;
    forall p | p in s'.busy && s'.busy[p].Sharing? ensures SharingOk(s', p) { ShareMapShares(s, e, p); }
    forall p | p in s'.busy && s'.busy[p].Faulting? ensures FaultingOk(s', p) { ShareMapFaults(s, e, p); }
    forall p | p in s'.busy && s'.busy[p].Copying? ensures CopyingOk(s', p) { ShareMapFaults(s, e, p); }
  }

  lemma KeepsShareMap(s: State, e: Event)
    requires Inv(s) && Enabled(s, e) && e.ShareMap?
    ensures Inv(Apply(s, e))
  {
    var s' := Apply(s, e);
    ShareMapCounts(s, e);
    ShareMapBusy(s, e);
    hide CountsOk, BusyOk, FreeOk, Shape;
    forall k | k in s'.ptes && s'.ptes[k].writable ensures Sole(s'.ptes, k) { assert Sole(s.ptes, k); }
  }

  lemma KeepsShareCount(s: State, e: Event)
    requires Inv(s) && Enabled(s, e) && e.ShareCount?
    ensures Inv(Apply(s, e))
  {
    var s', copy := Apply(s, e), UserKey(s.busy[e.parent].child, s.busy[e.parent].page);
    assert SharingOk(s, e.parent);
    assert Uncounted(s, copy);
    forall f | 0 <= f < |s'.refcnt| ensures s'.refcnt[f] == |Counted(s', f)| + |Pending(s', f)| {
      CountsMove(s, s', copy, f);
      SamePending(s, s', f);
    }
    forall p | p in s'.busy && s'.busy[p].Sharing? ensures SharingOk(s', p) { assert SharingOk(s, p); }
    forall p | p in s'.busy && s'.busy[p].Faulting? ensures FaultingOk(s', p) { assert FaultingOk(s, p); }
    forall p | p in s'.busy && s'.busy[p].Copying? ensures CopyingOk(s', p) { assert CopyingOk(s, p); }
  }

  lemma KeepsRelease(s: State, e: Event)
    requires Inv(s) && Enabled(s, e) && (e.Release? || e.Reap?)
    ensures Inv(Apply(s, e))
  {
    var s' := Apply(s, e);
    ReleaseIs(s, e);
    ReleaseBusy(s, e);
    hide Apply, Enabled, BusyOk;
    assert SameInFlight(s, s');
    FlagsKeepCounts(s, s');
  }

  lemma ReleaseIs(s: State, e: Event)
    requires Inv(s) && Enabled(s, e) && (e.Release? || e.Reap?)
    ensures var s' := Apply(s, e);
      && s' == s.(procs := s'.procs, embryo := s'.embryo) && EmbryoOk(s')
      && (forall k :: k in s.ptes ==> k.p in s'.procs && Uncounted(s', k) == Uncounted(s, k))
  {
    hide CountsOk, FreeOk, WritableOk, BusyOk;
  }

  lemma ReleaseBusy(s: State, e: Event)
    requires Inv(s) && Enabled(s, e) && (e.Release? || e.Reap?)
    ensures BusyOk(Apply(s, e))
  {
    var s' := Apply(s, e);
    hide CountsOk, FreeOk, WritableOk;
    forall p | p in s'.busy && s'.busy[p].Sharing? ensures SharingOk(s', p) { assert SharingOk(s, p); }
    forall p | p in s'.busy && s'.busy[p].Faulting? ensures FaultingOk(s', p) { assert FaultingOk(s, p); }
    forall p | p in s'.busy && s'.busy[p].Copying? ensures CopyingOk(s', p) { assert CopyingOk(s, p); }
  }

  // ------------------------------------------------------------- freeing: kfree

  /** kfree of a mapped frame lowers its count and never puts it on the free list. */
  lemma UnmapOnlyLowers(s: State, p: nat, x: Slot)
    requires Inv(s) && Enabled(s, Unmap(p, x))
    ensures var s', f := Apply(s, Unmap(p, x)), s.ptes[Key(p, x)].frame;
      && s.refcnt[f] > 0
      && s' == s.(refcnt := s.refcnt[f := s.refcnt[f] - 1], ptes := s.ptes - {Key(p, x)})
  {
    var k := Key(p, x);
    assert !Uncounted(s, k) by { if Uncounted(s, k) { UncountedExists(s, k); } }
    assert k in Counted(s, s.ptes[k].frame);
  }

  lemma UnmapHeld(s: State, e: Event, f: nat)
    requires Inv(s) && Enabled(s, e) && e.Unmap? && f < |s.refcnt|
    ensures var s' := Apply(s, e); |s'.refcnt| == |s.refcnt| && s'.refcnt[f] == |Counted(s', f)| + |Pending(s', f)|
  {
    var s', k := Apply(s, e), Key(e.p, e.slot);
    UnmapOnlyLowers(s, e.p, e.slot);
    assert !Uncounted(s, k) by { if Uncounted(s, k) { UncountedExists(s, k); } }
    assert k in Counted(s, f) <==> f == s.ptes[k].frame;
    assert s.refcnt[f] == |Counted(s, f)| + |Pending(s, f)| && k !in Counted(s', f);
    hide Inv, Counted, Pending;
    CountsMove(s, s', k, f);
    SamePending(s, s', f);
  }

  lemma UnmapBusy(s: State, e: Event)
    requires Inv(s) && Enabled(s, e) && e.Unmap?
    ensures BusyOk(Apply(s, e))
  {
    var s' := Apply(s, e);
    UnmapOnlyLowers(s, e.p, e.slot);
    hide CountsOk, FreeOk, WritableOk;
    forall q | q in s'.busy && s'.busy[q].Sharing? ensures SharingOk(s', q) { assert SharingOk(s, q); }
    forall q | q in s'.busy && s'.busy[q].Faulting? ensures FaultingOk(s', q) { assert FaultingOk(s, q); }
    forall q | q in s'.busy && s'.busy[q].Copying? ensures CopyingOk(s', q) { assert CopyingOk(s, q); }
  }

  lemma UnmapCounts(s: State, e: Event)
    requires Inv(s) && Enabled(s, e) && e.Unmap? && Shape(Apply(s, e))
    ensures CountsOk(Apply(s, e))
  {
    hide Inv, Enabled, Apply, Counted, Pending, Shape;
    var s' := Apply(s, e);
    forall f | 0 <= f < |s'.refcnt| ensures s'.refcnt[f] == |Counted(s', f)| + |Pending(s', f)| {
      UnmapSize(s, e);
      UnmapHeld(s, e, f);
    }
  }

  lemma UnmapSize(s: State, e: Event)
    requires Inv(s) && Enabled(s, e) && e.Unmap?
    ensures |Apply(s, e).refcnt| == |s.refcnt|
  {
    hide Inv;
  }

  lemma UnmapRest(s: State, e: Event)
    requires Inv(s) && Enabled(s, e) && e.Unmap?
    ensures var s' := Apply(s, e); Shape(s') && FreeOk(s') && EmbryoOk(s') && WritableOk(s')
  {
    var s' := Apply(s, e);
    UnmapOnlyLowers(s, e.p, e.slot);
    hide Apply, Enabled, CountsOk, BusyOk;
    forall j | j in s'.ptes && s'.ptes[j].writable ensures Sole(s'.ptes, j) { assert Sole(s.ptes, j); }
  }

  lemma KeepsUnmap(s: State, e: Event)
    requires Inv(s) && Enabled(s, e) && e.Unmap?
    ensures Inv(Apply(s, e))
  {
    hide Apply, Enabled, Shape, FreeOk, EmbryoOk, WritableOk, CountsOk, BusyOk;
    UnmapRest(s, e);
    UnmapCounts(s, e);
    UnmapBusy(s, e);
  }

  // --------------------------------------------------------------- page faults

  lemma OneElement(a: set<Key>, k: Key, j: Key)
    requires |a| == 1 && k in a && j in a
    ensures j == k
  {
    assert |a - {k}| == |a| - 1;
    assert j != k ==> j in a - {k};
  }

  lemma CountedOnceIsSole(s: State, k: Key)
    requires Inv(s) && Idle(s, k.p) && k in s.ptes && |Counted(s, s.ptes[k].frame)| == 1
    ensures Sole(s.ptes, k)
  {
    var counted := Counted(s, s.ptes[k].frame);
    assert k in counted;
    forall j | j in s.ptes && s.ptes[j].frame == s.ptes[k].frame ensures j == k {
      if Uncounted(s, j) {
        var q := s.embryo[j.p];
        assert SharingOk(s, q);
        OneElement(counted, k, UserKey(q, s.busy[q].page));
      } else {
        OneElement(counted, k, j);
      }
    }
  }

  /** A count of one read by a process that is doing nothing else means no other mapping, not
      even one that a fork has made and not yet counted. */
  lemma CountOneIsSole(s: State, k: Key)
    requires Inv(s) && Idle(s, k.p) && k in s.ptes && s.refcnt[s.ptes[k].frame] == 1
    ensures Sole(s.ptes, k)
  {
    assert k in Counted(s, s.ptes[k].frame);
    CountedOnceIsSole(s, k);
  }

  lemma KeepsFaultRead(s: State, e: Event)
    requires Inv(s) && Enabled(s, e) && e.FaultRead?
    ensures Inv(Apply(s, e))
  {
    hide Apply, Enabled, Shape, FreeOk, EmbryoOk, WritableOk, CountsOk, BusyOk;
    FaultReadBusy(s, e);
    FaultReadRest(s, e);
  }

  lemma FaultReadRest(s: State, e: Event)
    requires Inv(s) && Enabled(s, e) && e.FaultRead?
    ensures var s' := Apply(s, e); Shape(s') && FreeOk(s') && EmbryoOk(s') && WritableOk(s') && CountsOk(s')
  {
    var s' := Apply(s, e);
    FaultReadIs(s, e);
    hide Apply, Enabled, BusyOk, Sole, CountsOk;
    assert SameInFlight(s, s');
    FlagsKeepCounts(s, s');
  }

  lemma FaultReadIs(s: State, e: Event)
    requires Enabled(s, e) && e.FaultRead?
    ensures UserKey(e.p, e.page) in s.ptes && s.ptes[UserKey(e.p, e.page)].frame < |s.refcnt| && Idle(s, e.p)
    ensures Apply(s, e) == s.(busy := s.busy[e.p := Faulting(e.page, s.refcnt[s.ptes[UserKey(e.p, e.page)].frame])])
  {
  }

  lemma FaultReadBusy(s: State, e: Event)
    requires Inv(s) && Enabled(s, e) && e.FaultRead?
    ensures BusyOk(Apply(s, e))
  {
    var s', k := Apply(s, e), UserKey(e.p, e.page);
    if s.refcnt[s.ptes[k].frame] == 1 { CountOneIsSole(s, k); }
    hide CountsOk, FreeOk, WritableOk, EmbryoOk, Sole;
    forall q | q in s'.busy && s'.busy[q].Sharing? ensures SharingOk(s', q) { assert SharingOk(s, q); }
    forall q | q in s'.busy && s'.busy[q].Faulting? ensures FaultingOk(s', q) {
      if q != e.p { assert FaultingOk(s, q); }
    }
    forall q | q in s'.busy && s'.busy[q].Copying? ensures CopyingOk(s', q) { assert CopyingOk(s, q); }
  }

  lemma FlagsKeepCounts(s: State, s': State)
    requires Shape(s) && CountsOk(s) && s'.ptes.Keys == s.ptes.Keys && s'.refcnt == s.refcnt && Shape(s')
    requires forall k :: k in s.ptes ==> s'.ptes[k].frame == s.ptes[k].frame && Uncounted(s', k) == Uncounted(s, k)
    requires SameInFlight(s, s')
    ensures CountsOk(s')
  {
    forall f | 0 <= f < |s'.refcnt| ensures Counted(s', f) == Counted(s, f) && Pending(s', f) == Pending(s, f) {
      SamePending(s, s', f);
    }
  }

  lemma ProtectBusy(s: State, e: Event)
    requires Inv(s) && Enabled(s, e) && e.Protect?
    ensures BusyOk(Apply(s, e))
  {
    var s' := Apply(s, e);
    hide CountsOk, FreeOk, WritableOk;
    forall q | q in s'.busy && s'.busy[q].Sharing? ensures SharingOk(s', q) { assert SharingOk(s, q); }
    forall q | q in s'.busy && s'.busy[q].Faulting? ensures FaultingOk(s', q) { assert FaultingOk(s, q); }
    forall q | q in s'.busy && s'.busy[q].Copying? ensures CopyingOk(s', q) { assert CopyingOk(s, q); }
  }

  lemma KeepsProtect(s: State, e: Event)
    requires Inv(s) && Enabled(s, e) && e.Protect?
    ensures Inv(Apply(s, e))
  {
    var s' := Apply(s, e);
    ProtectBusy(s, e);
    hide BusyOk;
    FlagsKeepCounts(s, s');
    hide CountsOk;
    forall j | j in s'.ptes && s'.ptes[j].writable ensures Sole(s'.ptes, j) { assert Sole(s.ptes, j); }
  }

  lemma FaultFlagIs(s: State, e: Event)
    requires Enabled(s, e) && e.FaultFinish? && (s.busy[e.p].count == 1 || s.free == [])
    ensures var k := UserKey(e.p, s.busy[e.p].page);
      && e.p in s.busy && s.busy[e.p].Faulting? && k in s.ptes
      && Apply(s, e) == s.(busy := s.busy - {e.p},
           ptes := if s.busy[e.p].count == 1 then s.ptes[k := s.ptes[k].(writable := true)] else s.ptes)
  {
  }

  lemma FaultFlagBusy(s: State, e: Event)
    requires Inv(s) && Enabled(s, e) && e.FaultFinish? && (s.busy[e.p].count == 1 || s.free == [])
    ensures BusyOk(Apply(s, e))
  {
    var s' := Apply(s, e);
    FaultFlagIs(s, e);
    hide Apply, Enabled, CountsOk, FreeOk, WritableOk;
    forall q | q in s'.busy && s'.busy[q].Sharing? ensures SharingOk(s', q) { assert SharingOk(s, q); }
    forall q | q in s'.busy && s'.busy[q].Faulting? ensures FaultingOk(s', q) { assert FaultingOk(s, q); }
    forall q | q in s'.busy && s'.busy[q].Copying? ensures CopyingOk(s', q) { assert CopyingOk(s, q); }
  }

  lemma FaultFlagRest(s: State, e: Event)
    requires Inv(s) && Enabled(s, e) && e.FaultFinish? && (s.busy[e.p].count == 1 || s.free == [])
    ensures var s' := Apply(s, e); Shape(s') && FreeOk(s') && EmbryoOk(s') && WritableOk(s')
  {
    var s', k := Apply(s, e), UserKey(e.p, s.busy[e.p].page);
    FaultFlagIs(s, e);
    assert FaultingOk(s, e.p);
    hide Apply, Enabled, CountsOk, BusyOk;
    forall j | j in s'.ptes && s'.ptes[j].writable ensures Sole(s'.ptes, j) {
      if j != k { assert Sole(s.ptes, j); }
    }
  }

  lemma FaultFlagCounts(s: State, e: Event)
    requires Inv(s) && Enabled(s, e) && e.FaultFinish? && (s.busy[e.p].count == 1 || s.free == [])
    requires Shape(Apply(s, e))
    ensures CountsOk(Apply(s, e))
  {
    var s' := Apply(s, e);
    FaultFlagIs(s, e);
    hide Apply, Enabled, CountsOk, BusyOk, FreeOk, WritableOk, EmbryoOk;
    FlagsKeepCounts(s, s');
  }

  /** With no copy made, either nothing changed or the sole mapping became writable. */
  lemma KeepsFaultFlag(s: State, e: Event)
    requires Inv(s) && Enabled(s, e) && e.FaultFinish? && (s.busy[e.p].count == 1 || s.free == [])
    ensures Inv(Apply(s, e))
  {
    hide Apply, Enabled, Shape, FreeOk, CountsOk, EmbryoOk, BusyOk, WritableOk;
    FaultFlagRest(s, e);
    FaultFlagBusy(s, e);
    FaultFlagCounts(s, e);
  }

  lemma FaultAllocIs(s: State, e: Event)
    requires Enabled(s, e) && e.FaultFinish? && s.busy[e.p].count != 1 && s.free != []
    ensures e.p in s.busy && s.busy[e.p].Faulting? && s.free[0] < |s.refcnt|
    ensures Apply(s, e) == s.(free := s.free[1..], refcnt := s.refcnt[s.free[0] := 1],
                              busy := s.busy[e.p := Copying(s.busy[e.p].page, s.free[0])])
  {
  }

  lemma FaultAllocHeld(s: State, e: Event, f: nat)
    requires Inv(s) && Enabled(s, e) && e.FaultFinish? && s.busy[e.p].count != 1 && s.free != [] && f < |s.refcnt|
    ensures var s' := Apply(s, e); |s'.refcnt| == |s.refcnt| && s'.refcnt[f] == |Counted(s', f)| + |Pending(s', f)|
  {
    var s' := Apply(s, e);
    assert Counted(s', f) == Counted(s, f);
    assert e.p !in Pending(s, f) && (e.p in Pending(s', f) <==> f == s.free[0]);
    assert s.refcnt[f] == |Counted(s, f)| + |Pending(s, f)| && s.refcnt[s.free[0]] == 0;
    hide Inv, Counted, Pending;
    PendingMove(s, s', e.p, f);
  }

  /** kalloc for a copy: the frame is counted once, for the process that will map it. */
  lemma KeepsFaultAlloc(s: State, e: Event)
    requires Inv(s) && Enabled(s, e) && e.FaultFinish? && s.busy[e.p].count != 1 && s.free != []
    ensures Inv(Apply(s, e))
  {
    var s' := Apply(s, e);
    FaultAllocIs(s, e);
    FaultAllocBusy(s, e);
    hide Apply, Enabled, BusyOk, CountsOk, Sole;
    assert Shape(s') && FreeOk(s') && EmbryoOk(s') && WritableOk(s');
    FaultAllocCounts(s, e);
  }

  lemma FaultAllocCounts(s: State, e: Event)
    requires Inv(s) && Enabled(s, e) && e.FaultFinish? && s.busy[e.p].count != 1 && s.free != [] && Shape(Apply(s, e))
    ensures CountsOk(Apply(s, e))
  {
    FaultAllocIs(s, e);
    var s' := Apply(s, e);
    hide Inv, Apply, Enabled, Counted, Pending;
    forall f | 0 <= f < |s'.refcnt| ensures s'.refcnt[f] == |Counted(s', f)| + |Pending(s', f)| { FaultAllocHeld(s, e, f); }
  }

  lemma FaultAllocBusy(s: State, e: Event)
    requires Inv(s) && Enabled(s, e) && e.FaultFinish? && s.busy[e.p].count != 1 && s.free != []
    ensures BusyOk(Apply(s, e))
  {
    var s' := Apply(s, e);
    assert FaultingOk(s, e.p);
    forall q | q in s'.busy && s'.busy[q].Sharing? ensures SharingOk(s', q) { assert SharingOk(s, q); }
    forall q | q in s'.busy && s'.busy[q].Faulting? ensures FaultingOk(s', q) { assert FaultingOk(s, q); }
    forall q | q in s'.busy && s'.busy[q].Copying?
      ensures CopyingOk(s', q) && (q != e.p ==> s'.busy[q].frame != s.free[0])
    {
      if q != e.p {
        assert CopyingOk(s, q);
        InFlightCounted(s, q, s.busy[q].frame);
      }
    }
  }

  /** The copy: the page moves to the new frame, where it is alone, and the old frame keeps the
      count that is still to be lowered. */
  lemma CowCopies(s: State, e: Event)
    requires Inv(s) && Enabled(s, e) && e.FaultCopy?
    ensures var k, s' := UserKey(e.p, s.busy[e.p].page), Apply(s, e);
      && s'.ptes[k].frame != s.ptes[k].frame && s'.ptes[k].writable && Sole(s'.ptes, k)
      && s'.frames[s'.ptes[k].frame] == s.frames[s.ptes[k].frame]
      && (forall f :: 0 <= f < |s.frames| && f != s'.ptes[k].frame ==> s'.frames[f] == s.frames[f])
      && s'.refcnt == s.refcnt && s.refcnt[s.ptes[k].frame] > 0
  {
    var k := UserKey(e.p, s.busy[e.p].page);
    assert CopyingOk(s, e.p);
    assert k in Counted(s, s.ptes[k].frame);
  }

  lemma CowCopyShape(s: State, e: Event)
    requires Inv(s) && Enabled(s, e) && e.FaultCopy?
    ensures Shape(Apply(s, e)) && FreeOk(Apply(s, e))
  {
    assert CopyingOk(s, e.p);
    InFlightCounted(s, e.p, s.busy[e.p].frame);
    hide CountsOk, WritableOk, EmbryoOk, BusyOk;
  }

  lemma CowCopyHeld(s: State, e: Event, f: nat)
    requires Inv(s) && Enabled(s, e) && e.FaultCopy?
    ensures var s' := Apply(s, e); |Counted(s', f)| + |Pending(s', f)| == |Counted(s, f)| + |Pending(s, f)|
  {
    var s', k := Apply(s, e), UserKey(e.p, s.busy[e.p].page);
    assert CopyingOk(s, e.p);
    assert !Uncounted(s, k) && !Uncounted(s', k);
    assert k in Counted(s, f) <==> f == s.ptes[k].frame;
    assert k in Counted(s', f) <==> f == s.busy[e.p].frame;
    assert e.p in Pending(s, f) <==> f == s.busy[e.p].frame;
    assert e.p in Pending(s', f) <==> f == s.ptes[k].frame;
    hide Inv, Counted, Pending, CopyingOk;
    CountsMove(s, s', k, f);
    PendingMove(s, s', e.p, f);
  }

  lemma CowCopyCounts(s: State, e: Event)
    requires Inv(s) && Enabled(s, e) && e.FaultCopy?
    ensures Shape(Apply(s, e)) && CountsOk(Apply(s, e))
  {
    hide Counted, Pending, FreeOk, EmbryoOk, BusyOk, WritableOk;
    CowCopyShape(s, e);
    var s' := Apply(s, e);
    forall f | 0 <= f < |s'.refcnt| ensures s'.refcnt[f] == |Counted(s', f)| + |Pending(s', f)| { CowCopyHeld(s, e, f); }
  }

  lemma KeepsFaultCopy(s: State, e: Event)
    requires Inv(s) && Enabled(s, e) && e.FaultCopy?
    ensures Inv(Apply(s, e))
  {
    var s', k := Apply(s, e), UserKey(e.p, s.busy[e.p].page);
    CowCopies(s, e);
    CowCopyShape(s, e);
    CowCopyCounts(s, e);
    FaultCopyBusy(s, e);
    forall j | j in s'.ptes && s'.ptes[j].writable ensures Sole(s'.ptes, j) {
      if j != k { assert Sole(s.ptes, j); }
    }
  }

  lemma FaultCopyBusy(s: State, e: Event)
    requires Inv(s) && Enabled(s, e) && e.FaultCopy?
    ensures BusyOk(Apply(s, e))
  {
    var s' := Apply(s, e);
    assert CopyingOk(s, e.p);
    forall q | q in s'.busy && s'.busy[q].Sharing? ensures SharingOk(s', q) { assert SharingOk(s, q); }
    forall q | q in s'.busy && s'.busy[q].Faulting? ensures FaultingOk(s', q) { assert FaultingOk(s, q); }
    forall q | q in s'.busy && s'.busy[q].Copying? ensures CopyingOk(s', q) {
      assert CopyingOk(s, q);
    }
  }

  lemma FaultDropIs(s: State, e: Event)
    requires Enabled(s, e) && e.FaultDrop?
    ensures e.p in s.busy && s.busy[e.p].Dropping? && s.busy[e.p].frame < |s.refcnt|
    ensures var f := s.busy[e.p].frame;
      Apply(s, e) == s.(refcnt := s.refcnt[f := Decremented(s.refcnt[f])], busy := s.busy - {e.p})
  {
  }

  lemma DropHeld(s: State, e: Event, f: nat)
    requires Inv(s) && Enabled(s, e) && e.FaultDrop? && f < |s.refcnt|
    ensures var s' := Apply(s, e); |s'.refcnt| == |s.refcnt| && s'.refcnt[f] == |Counted(s', f)| + |Pending(s', f)|
  {
    var s', g := Apply(s, e), s.busy[e.p].frame;
    FaultDropIs(s, e);
    hide Apply, Enabled;
    assert Counted(s', f) == Counted(s, f);
    assert e.p in Pending(s, f) <==> f == g;
    assert e.p !in Pending(s', f);
    InFlightCounted(s, e.p, g);
    assert s.refcnt[f] == |Counted(s, f)| + |Pending(s, f)|;
    hide Inv, Counted, Pending;
    PendingMove(s, s', e.p, f);
  }

  lemma KeepsFaultDrop(s: State, e: Event)
    requires Inv(s) && Enabled(s, e) && e.FaultDrop?
    ensures Inv(Apply(s, e))
  {
    var s' := Apply(s, e);
    FaultDropIs(s, e);
    InFlightCounted(s, e.p, s.busy[e.p].frame);
    hide Apply, Enabled, Counted, Pending;
    assert Shape(s') && FreeOk(s');
    forall f | 0 <= f < |s'.refcnt| ensures s'.refcnt[f] == |Counted(s', f)| + |Pending(s', f)| { DropHeld(s, e, f); }
    forall q | q in s'.busy && s'.busy[q].Sharing? ensures SharingOk(s', q) { assert SharingOk(s, q); }
    forall q | q in s'.busy && s'.busy[q].Faulting? ensures FaultingOk(s', q) { assert FaultingOk(s, q); }
    forall q | q in s'.busy && s'.busy[q].Copying? ensures CopyingOk(s', q) { assert CopyingOk(s, q); }
  }

  lemma KeepsStore(s: State, e: Event)
    requires Inv(s) && Enabled(s, e) && e.Store?
    ensures Inv(Apply(s, e))
  {
    var s' := Apply(s, e);
    forall q | q in s'.busy && s'.busy[q].Sharing? ensures SharingOk(s', q) { assert SharingOk(s, q); }
    forall q | q in s'.busy && s'.busy[q].Faulting? ensures FaultingOk(s', q) { assert FaultingOk(s, q); }
    forall q | q in s'.busy && s'.busy[q].Copying? ensures CopyingOk(s', q) { assert CopyingOk(s, q); }
    forall f | 0 <= f < |s'.refcnt| ensures Counted(s', f) == Counted(s, f) && Pending(s', f) == Pending(s, f) {
      SamePending(s, s', f);
    }
  }

  lemma Keeps(s: State, e: Event)
    requires Inv(s) && Enabled(s, e)
    ensures Inv(Apply(s, e))
  {
    match e
    case NewSpace(_, _) => KeepsNewSpace(s, e);
    case AddTable(_, _) => KeepsMapZero(s, e);
    case MapZero(_, _) => KeepsMapZero(s, e);
    case Protect(_, _) => KeepsProtect(s, e);
    case ShareMap(_, _, _) => KeepsShareMap(s, e);
    case ShareCount(_) => KeepsShareCount(s, e);
    case Release(_) => KeepsRelease(s, e);
    case Unmap(_, _) => KeepsUnmap(s, e);
    case Reap(_) => KeepsRelease(s, e);
    case FaultRead(_, _) => KeepsFaultRead(s, e);
    case FaultFinish(_) =>
      if s.busy[e.p].count == 1 || s.free == [] { KeepsFaultFlag(s, e); } else { KeepsFaultAlloc(s, e); }
    case FaultCopy(_) => KeepsFaultCopy(s, e);
    case FaultDrop(_) => KeepsFaultDrop(s, e);
    case Store(_, _, _, _) => KeepsStore(s, e);
  }

  // ----------------------------------------------------------------- simulation

  lemma AbsEqual(s: State, m: Memory)
    requires Shape(s)
    requires forall x: Place :: x in m <==> UserKey(x.p, x.page) in s.ptes
    requires forall x :: x in m ==> m[x] == s.frames[s.ptes[UserKey(x.p, x.page)].frame]
    ensures Abs(s) == m
  {
  }

  /** A frame taken off the free list is nobody's page. */
  lemma SimulatesTake(s: State, s': State, k: Key, data: Page, user: bool)
    requires Shape(s) && FreeOk(s) && Shape(s') && s.free != [] && k !in s.ptes
    requires s' == TakeFrame(s, k, data, user).(procs := s'.procs, embryo := s'.embryo)
    ensures Abs(s') == if k.slot.User? then Abs(s)[Place(k.p, k.slot.page) := data] else Abs(s)
  {
    AbsEqual(s', if k.slot.User? then Abs(s)[Place(k.p, k.slot.page) := data] else Abs(s));
  }

  lemma SimulatesShare(s: State, e: Event)
    requires Enabled(s, e) && e.ShareMap? && Shape(s) && Shape(Apply(s, e))
    ensures Abs(Apply(s, e)) == SpecStep(Abs(s), e)
  {
    AbsEqual(Apply(s, e), Abs(s)[Place(e.child, e.page) := Abs(s)[Place(e.parent, e.page)]]);
  }

  lemma SimulatesUnmap(s: State, e: Event)
    requires Inv(s) && Enabled(s, e) && e.Unmap? && Shape(Apply(s, e))
    ensures Abs(Apply(s, e)) == SpecStep(Abs(s), e)
  {
    UnmapOnlyLowers(s, e.p, e.slot);
    AbsEqual(Apply(s, e), SpecStep(Abs(s), e));
  }

  lemma SimulatesFault(s: State, e: Event)
    requires Inv(s) && Enabled(s, e) && e.FaultCopy? && Shape(Apply(s, e))
    ensures Abs(Apply(s, e)) == SpecStep(Abs(s), e)
  {
    CowCopies(s, e);
    assert CopyingOk(s, e.p);
    AbsEqual(Apply(s, e), Abs(s));
  }

  lemma SimulatesStore(s: State, e: Event)
    requires Inv(s) && Enabled(s, e) && e.Store? && Shape(Apply(s, e))
    ensures Abs(Apply(s, e)) == SpecStep(Abs(s), e)
  {
    assert Sole(s.ptes, UserKey(e.p, e.page));
    AbsEqual(Apply(s, e), SpecStep(Abs(s), e));
  }

  lemma InvShape(s: State)
    requires Inv(s)
    ensures Shape(s) && FreeOk(s)
  {
  }

  lemma SimulatesMap(s: State, e: Event)
    requires Enabled(s, e) && (e.NewSpace? || e.AddTable? || e.MapZero?)
    requires Shape(s) && FreeOk(s) && Shape(Apply(s, e))
    requires e.NewSpace? ==> Key(e.child, Dir) !in s.ptes
    ensures Abs(Apply(s, e)) == SpecStep(Abs(s), e)
  {
    hide Shape, FreeOk, Abs;
    match e
    case NewSpace(_, child) => SimulatesTake(s, Apply(s, e), Key(child, Dir), Filled(PGSIZE, 0), false);
    case AddTable(p, pdx) => SimulatesTake(s, Apply(s, e), Key(p, Table(pdx)), Filled(PGSIZE, 0), false);
    case MapZero(p, page) => SimulatesTake(s, Apply(s, e), UserKey(p, page), Filled(PGSIZE, 0), true);
  }

  lemma SimulatesQuiet(s: State, e: Event)
    requires Enabled(s, e) && Shape(s) && Shape(Apply(s, e))
    requires e.Protect? || e.ShareCount? || e.Release? || e.Reap? || e.FaultRead? || e.FaultFinish? || e.FaultDrop?
    ensures Abs(Apply(s, e)) == SpecStep(Abs(s), e)
  {
    AbsEqual(Apply(s, e), Abs(s));
  }

  /** Each event of the machine is exactly the private-memory step for that event. */
  lemma Simulates(s: State, e: Event)
    requires Inv(s) && Enabled(s, e)
    ensures Inv(Apply(s, e))
    ensures Abs(Apply(s, e)) == SpecStep(Abs(s), e)
  {
    assert e.NewSpace? ==> Key(e.child, Dir) !in s.ptes;
    hide Inv, FreeOk, Shape, Apply, Enabled, Abs, SpecStep;
    Keeps(s, e);
    InvShape(s);
    InvShape(Apply(s, e));
    match e
    case NewSpace(_, _) => SimulatesMap(s, e);
    case AddTable(_, _) => SimulatesMap(s, e);
    case MapZero(_, _) => SimulatesMap(s, e);
    case ShareMap(_, _, _) => SimulatesShare(s, e);
    case Unmap(_, _) => SimulatesUnmap(s, e);
    case FaultCopy(_) => SimulatesFault(s, e);
    case Store(_, _, _, _) => SimulatesStore(s, e);
    case _ => SimulatesQuiet(s, e);
  }

  /** Memory after freerange has given n frames to kfree: all free, none counted. */
  function Fresh(n: nat, procs: set<nat>): State {
    State(seq(n, f => Filled(PGSIZE, 1)), seq(n, f => 0), seq(n, i => n - 1 - i), procs, map[], map[], map[])
  }

  lemma FreshOk(n: nat, procs: set<nat>)
    ensures Inv(Fresh(n, procs)) && Abs(Fresh(n, procs)) == map[]
  {
    var s := Fresh(n, procs);
    forall f | 0 <= f < n ensures Counted(s, f) == {} && Pending(s, f) == {} {}
  }

  // ----------------------------------------------------------------- whole runs

  ghost predicate ValidRun(s: State, es: seq<Event>)
    decreases |es|
  {
    es != [] ==> Enabled(s, es[0]) && ValidRun(Apply(s, es[0]), es[1..])
  }

  ghost function RunTo(s: State, es: seq<Event>): State
    requires ValidRun(s, es)
    decreases |es|
  {
    if es == [] then s else RunTo(Apply(s, es[0]), es[1..])
  }

  ghost function SpecRun(m: Memory, es: seq<Event>): Memory
    decreases |es|
  {
    if es == [] then m else SpecRun(SpecStep(m, es[0]), es[1..])
  }

  /** Copy-on-write isolation: whatever the interleaving of forks, faults, stores, growth and
      frees, the machine's memories are those of processes that share nothing. */
  lemma {:induction false} RefinesPrivateMemories(s: State, es: seq<Event>)
    requires Inv(s) && ValidRun(s, es)
    ensures Inv(RunTo(s, es))
    ensures Abs(RunTo(s, es)) == SpecRun(Abs(s), es)
    decreases |es|
  {
    if es != [] {
      Simulates(s, es[0]);
      RefinesPrivateMemories(Apply(s, es[0]), es[1..]);
    }
  }

  /** What process q's pages hold. */
  ghost function Own(m: Memory, q: nat): Memory {
    map x | x in m && x.p == q :: m[x]
  }

  predicate Concerns(e: Event, q: nat) {
    match e
    case MapZero(p, _) => p == q
    case ShareMap(_, child, _) => child == q
    case Unmap(p, _) => p == q
    case Store(p, _, _, _) => p == q
    case _ => false
  }

  lemma StepConcerns(m: Memory, e: Event, q: nat)
    requires !Concerns(e, q)
    ensures Own(SpecStep(m, e), q) == Own(m, q)
  {
    forall x: Place | x.p == q ensures x in SpecStep(m, e) <==> x in m {}
    forall x: Place | x.p == q && x in m ensures SpecStep(m, e)[x] == m[x] {}
  }

  lemma {:induction false} RunConcerns(m: Memory, es: seq<Event>, q: nat)
    requires forall i :: 0 <= i < |es| ==> !Concerns(es[i], q)
    ensures Own(SpecRun(m, es), q) == Own(m, q)
    decreases |es|
  {
    if es != [] {
      StepConcerns(m, es[0], q);
      RunConcerns(SpecStep(m, es[0]), es[1..], q);
    }
  }

  /** Nothing others do, forking from q included, changes what q's pages hold. */
  lemma OthersCannotInterfere(s: State, es: seq<Event>, q: nat)
    requires Inv(s) && ValidRun(s, es)
    requires forall i :: 0 <= i < |es| ==> !Concerns(es[i], q)
    ensures Inv(RunTo(s, es)) && Own(Abs(RunTo(s, es)), q) == Own(Abs(s), q)
  {
    RefinesPrivateMemories(s, es);
    RunConcerns(Abs(s), es, q);
  }

  lemma FreeListStep(s: State, e: Event)
    requires Inv(s) && Enabled(s, e)
    ensures Apply(s, e).free == s.free || (s.free != [] && Apply(s, e).free == s.free[1..])
  {
    if e.Unmap? { UnmapOnlyLowers(s, e.p, e.slot); }
    hide Inv;
  }

  /** kfree never gives memory back: in every run the free list only shrinks, and a frame
      once taken from it never returns. */
  lemma {:induction false} FreeListNeverGrows(s: State, es: seq<Event>)
    requires Inv(s) && ValidRun(s, es)
    ensures exists n: nat :: n <= |s.free| && RunTo(s, es).free == s.free[n..]
    decreases |es|
  {
    if es == [] {
      assert s.free == s.free[0..];
    } else {
      var s' := Apply(s, es[0]);
      hide Inv, Apply, Enabled;
      Keeps(s, es[0]);
      FreeListStep(s, es[0]);
      FreeListNeverGrows(s', es[1..]);
      var n: nat :| n <= |s'.free| && RunTo(s', es[1..]).free == s'.free[n..];
      if s'.free != s.free { assert s.free[1..][n..] == s.free[n + 1..]; }
    }
  }

  /** A frame that kfree is told to release goes back on the free list exactly when its count
      is already zero, so a frame from kalloc needs two kfrees. */
  lemma KfreeReclaimsIffUncounted(s: State, f: nat)
    requires Shape(s) && f < |s.refcnt| && f !in s.free
    ensures f in Kfree(s, f).free <==> s.refcnt[f] == 0
    ensures s.refcnt[f] == 1 ==> f !in Kfree(s, f).free && f in Kfree(Kfree(s, f), f).free
  {
  }

  // ----------------------------------------- between kfree and the clearing of the entry

  function Cleared(s: State, k: Key): State {
    s.(ptes := s.ptes - {k})
  }

  /** The process that edits p's page table. */
  function Editor(s: State, p: nat): nat {
    if p in s.embryo then s.embryo[p] else p
  }

  /** The event is about neither p nor the process that edits p's page table. */
  predicate Aside(s: State, e: Event, p: nat) {
    var q := Editor(s, p);
    match e
    case NewSpace(parent, child) => parent != p && child != p && parent != q && child != q
    case ShareMap(parent, child, _) => parent != p && child != p && parent != q && child != q
    case ShareCount(parent) => parent != p && parent != q
    case Release(child) => child != p && child != q
    case AddTable(r, _) => r != p && r != q
    case MapZero(r, _) => r != p && r != q
    case Protect(r, _) => r != p && r != q
    case Unmap(r, _) => r != p && r != q
    case Reap(r) => r != p && r != q
    case FaultRead(r, _) => r != p && r != q
    case FaultFinish(r) => r != p && r != q
    case FaultCopy(r) => r != p && r != q
    case FaultDrop(r) => r != p && r != q
    case Store(r, _, _, _) => r != p && r != q
  }

  ghost predicate AsideRun(s: State, es: seq<Event>, p: nat)
    requires ValidRun(s, es)
    decreases |es|
  {
    es != [] ==> Aside(s, es[0], p) && AsideRun(Apply(s, es[0]), es[1..], p)
  }

  /** A parent that has mapped a page it has not counted is not the one at work on p. */
  lemma NotTheChild(s: State, k: Key, parent: nat)
    requires BusyOk(Cleared(s, k)) && parent in s.busy && s.busy[parent].Sharing? && parent != Editor(s, k.p)
    ensures s.busy[parent].child != k.p
  {
    assert SharingOk(Cleared(s, k), parent);
  }

  lemma ClearEnabled(s: State, k: Key, e: Event)
    requires BusyOk(Cleared(s, k)) && k in s.ptes && Enabled(s, e) && Aside(s, e, k.p)
    ensures Enabled(Cleared(s, k), e)
  {
    if e.ShareCount? { NotTheChild(s, k, e.parent); }
    hide BusyOk;
  }

  lemma ClearEditor(s: State, k: Key, e: Event)
    requires k in s.ptes && Enabled(s, e) && Aside(s, e, k.p)
    ensures k in Apply(s, e).ptes && Editor(Apply(s, e), k.p) == Editor(s, k.p)
  {
  }

  /** The events that give a slot a new frame. */
  predicate Takes(e: Event) {
    e.NewSpace? || e.AddTable? || e.MapZero?
  }

  lemma ClearTake(s: State, k: Key, e: Event)
    requires k in s.ptes && Enabled(s, e) && Aside(s, e, k.p) && Enabled(Cleared(s, k), e) && Takes(e)
    ensures Apply(Cleared(s, k), e).ptes == Apply(s, e).ptes - {k}
  {
    hide Editor, Idle, Editable, Empty, Filled;
  }

  lemma ClearShare(s: State, k: Key, e: Event)
    requires k in s.ptes && Enabled(s, e) && Aside(s, e, k.p) && Enabled(Cleared(s, k), e) && (e.ShareMap? || e.Unmap?)
    ensures Apply(Cleared(s, k), e).ptes == Apply(s, e).ptes - {k}
  {
    hide Editor, Idle, Editable, Empty, Filled;
  }

  lemma ClearOther(s: State, k: Key, e: Event)
    requires k in s.ptes && Enabled(s, e) && Aside(s, e, k.p) && Enabled(Cleared(s, k), e)
    requires !Takes(e) && !e.ShareMap? && !e.Unmap?
    ensures Apply(Cleared(s, k), e).ptes == Apply(s, e).ptes - {k}
  {
    hide Editor, Idle, Editable, Empty, Filled;
  }

  lemma ClearTables(s: State, k: Key, e: Event)
    requires k in s.ptes && Enabled(s, e) && Aside(s, e, k.p) && Enabled(Cleared(s, k), e)
    ensures Apply(Cleared(s, k), e).ptes == Apply(s, e).ptes - {k}
  {
    hide Apply, Enabled, Aside;
    if Takes(e) { ClearTake(s, k, e); } else if e.ShareMap? || e.Unmap? { ClearShare(s, k, e); } else { ClearOther(s, k, e); }
  }

  lemma ClearRest(s: State, k: Key, e: Event)
    requires BusyOk(Cleared(s, k)) && k in s.ptes && Enabled(s, e) && Aside(s, e, k.p) && Enabled(Cleared(s, k), e)
    ensures Apply(Cleared(s, k), e) == Apply(s, e).(ptes := Apply(Cleared(s, k), e).ptes)
  {
    if e.ShareCount? { NotTheChild(s, k, e.parent); }
    hide BusyOk;
  }

  lemma ClearCommutes(s: State, k: Key, e: Event)
    requires BusyOk(Cleared(s, k)) && k in s.ptes && Enabled(s, e) && Aside(s, e, k.p)
    ensures Enabled(Cleared(s, k), e) && Apply(Cleared(s, k), e) == Cleared(Apply(s, e), k)
    ensures k in Apply(s, e).ptes && Editor(Apply(s, e), k.p) == Editor(s, k.p)
  {
    hide BusyOk, Enabled, Apply, Aside, Editor;
    ClearEnabled(s, k, e);
    ClearEditor(s, k, e);
    ClearTables(s, k, e);
    ClearRest(s, k, e);
  }

  /** deallocuvm frees a page before it clears the entry.  Whatever others do in between, they
      do not see the stale entry: they could as well have come after the clearing, which is the
      single event Unmap. */
  lemma {:induction false} StaleEntryUnseen(s: State, k: Key, es: seq<Event>)
    requires Inv(Cleared(s, k)) && k in s.ptes && ValidRun(s, es) && AsideRun(s, es, k.p)
    ensures ValidRun(Cleared(s, k), es) && RunTo(Cleared(s, k), es) == Cleared(RunTo(s, es), k)
    ensures Inv(Cleared(RunTo(s, es), k))
    decreases |es|
  {
    if es != [] {
      ClearCommutes(s, k, es[0]);
      Keeps(Cleared(s, k), es[0]);
      hide Inv, Apply, Enabled, Aside, Cleared;
      StaleEntryUnseen(Apply(s, es[0]), k, es[1..]);
    }
  }

  /** The case of deallocuvm: s after kfree alone is, but for the entry, s after Unmap. */
  lemma FreeThenClear(s: State, p: nat, x: Slot, es: seq<Event>)
    requires Inv(s) && Enabled(s, Unmap(p, x))
    requires ValidRun(Kfree(s, s.ptes[Key(p, x)].frame), es) && AsideRun(Kfree(s, s.ptes[Key(p, x)].frame), es, p)
    ensures var t := RunTo(Kfree(s, s.ptes[Key(p, x)].frame), es);
      ValidRun(Apply(s, Unmap(p, x)), es) && RunTo(Apply(s, Unmap(p, x)), es) == Cleared(t, Key(p, x))
  {
    var h := Kfree(s, s.ptes[Key(p, x)].frame);
    assert Apply(s, Unmap(p, x)) == Cleared(h, Key(p, x)) && Key(p, x) in h.ptes;
    Keeps(s, Unmap(p, x));
    hide Inv, Apply, Enabled, Cleared, Kfree;
    StaleEntryUnseen(h, Key(p, x), es);
  }
}
