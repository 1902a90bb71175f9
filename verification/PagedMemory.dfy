/** Copy-on-write and swapping together (src/vm.c): the machine of CopyOnWrite, with user pages
    that may be swapped out.  A process swaps one of its pages out to make room, exchanges one
    for the page it faulted on, or gives up a swapped-out page when it shrinks.  Where a page's
    bytes lie in the swap files is module Swap's subject; here they are a map. */
module PagedMemory {
  import opened Params
  import opened CopyOnWrite
  import Cow = CopyOnWriteProof

  /** swap has the pages in the swap tables; paged are those whose entry has PTE_PG set. */
  datatype Paging = Paging(mem: State, swap: Cow.Memory, paged: set<Cow.Place>)

  /** In(p, v, w): page v of p comes in, and page w goes out in its place.  Drop(p, v):
      deallocuvm meets page v of the running process in its swap table. */
  datatype Event =
    | Core(e: CopyOnWrite.Event)
    | Out(p: nat, w: nat)
    | In(p: nat, v: nat, w: nat)
    | Drop(p: nat, v: nat)

  /** Page v of p is not present, its entry says that it is swapped out, and the swap table has
      it. */
  predicate SwappedOut(s: Paging, p: nat, v: nat) {
    && Cow.Place(p, v) in s.swap && Cow.Place(p, v) in s.paged
    && Key(p, Table(v / NPTENTRIES)) in s.mem.ptes && UserKey(p, v) !in s.mem.ptes
  }

  /** Page w of p is present and may go out. */
  predicate Evictable(s: Paging, p: nat, w: nat) {
    && UserKey(p, w) in s.mem.ptes && FrameOk(s.mem, UserKey(p, w)) && Key(p, Table(w / NPTENTRIES)) in s.mem.ptes
  }

  /** A page that is swapped out is not mapped a second time. */
  predicate Enabled(s: Paging, e: Event) {
    match e
    case Core(x) =>
      && CopyOnWrite.Enabled(s.mem, x)
      && (x.MapZero? ==> Cow.Place(x.p, x.page) !in s.swap)
      && (x.ShareMap? ==> Cow.Place(x.child, x.page) !in s.swap)
    case Out(p, w) => Idle(s.mem, p) && Evictable(s, p, w) && CopyOnWrite.Enabled(s.mem, Unmap(p, User(w)))
    case In(p, v, w) => Idle(s.mem, p) && SwappedOut(s, p, v) && Evictable(s, p, w)
    case Drop(p, v) => Idle(s.mem, p) && SwappedOut(s, p, v)
  }

  /** The entries with PTE_PG set after an event on mapped pages: a new entry, and the end of a
      page table or of its process, clear the flag. */
  ghost function PagedAfter(paged: set<Cow.Place>, x: CopyOnWrite.Event): set<Cow.Place> {
    match x
    case MapZero(p, page) => paged - {Cow.Place(p, page)}
    case ShareMap(_, child, page) => paged - {Cow.Place(child, page)}
    case Unmap(p, slot) =>
      if slot.Table? then set y | y in paged && !(y.p == p && y.page / NPTENTRIES == slot.pdx) else paged
    case Reap(p) => set y | y in paged && y.p != p
    case _ => paged
  }

  function FrameOf(s: Paging, p: nat, w: nat): nat
    requires UserKey(p, w) in s.mem.ptes
  {
    s.mem.ptes[UserKey(p, w)].frame
  }

  /** SwapMemoryAndFile: v takes over w's frame, writable, whatever the frame's count. */
  function Exchanged(s: Paging, p: nat, v: nat, w: nat): Paging
    requires Enabled(s, In(p, v, w))
  {
    var f := FrameOf(s, p, w);
    Paging(s.mem.(frames := s.mem.frames[f := s.swap[Cow.Place(p, v)]],
                 ptes := (s.mem.ptes - {UserKey(p, w)})[UserKey(p, v) := Pte(f, true, true)]),
          (s.swap - {Cow.Place(p, v)})[Cow.Place(p, w) := s.mem.frames[f]],
          s.paged - {Cow.Place(p, v)} + {Cow.Place(p, w)})
  }

  /** The pages of all processes but p. */
  ghost function Without(m: Cow.Memory, p: nat): (r: Cow.Memory)
    ensures forall x :: x in r <==> x in m && x.p != p
    ensures forall x :: x in r ==> r[x] == m[x]
  {
    map x | x in m && x.p != p :: m[x]
  }

  ghost function Apply(s: Paging, e: Event): Paging
    requires Enabled(s, e)
  {
    match e
    case Core(x) =>
      Paging(CopyOnWrite.Apply(s.mem, x), if x.Reap? then Without(s.swap, x.p) else s.swap, PagedAfter(s.paged, x))
    case Out(p, w) =>
      Paging(CopyOnWrite.Apply(s.mem, Unmap(p, User(w))), s.swap[Cow.Place(p, w) := s.mem.frames[FrameOf(s, p, w)]],
             s.paged + {Cow.Place(p, w)})
    case In(p, v, w) => Exchanged(s, p, v, w)
    case Drop(p, v) => s.(swap := s.swap - {Cow.Place(p, v)})
  }

  // ------------------------------------------------------------------ invariant and view

  /** Page tables and directories are never write-protected. */
  ghost predicate TablesOk(mem: State) {
    forall k :: k in mem.ptes && !k.slot.User? ==> mem.ptes[k].writable
  }

  ghost predicate SwapOk(s: Paging) {
    && Cow.Abs(s.mem).Keys !! s.swap.Keys
    && forall x :: x in s.swap ==> x.p in s.mem.procs && |s.swap[x]| == PGSIZE
  }

  ghost predicate Inv(s: Paging) {
    Cow.Inv(s.mem) && TablesOk(s.mem) && SwapOk(s)
  }

  /** What the processes see, wherever the bytes are. */
  ghost function Abs(s: Paging): Cow.Memory {
    Cow.Abs(s.mem) + s.swap
  }

  /** Swapping means nothing; a page that is dropped is gone, and a process that goes takes its
      swapped pages with it. */
  ghost function SpecStep(m: Cow.Memory, e: Event): Cow.Memory {
    match e
    case Core(x) => if x.Reap? then Without(m, x.p) else Cow.SpecStep(m, x)
    case Out(_, _) => m
    case In(_, _, _) => m
    case Drop(p, v) => m - {Cow.Place(p, v)}
  }

  lemma FreshOk(n: nat, procs: set<nat>)
    ensures var s := Paging(Cow.Fresh(n, procs), map[], {}); Inv(s) && Abs(s) == map[]
  {
    Cow.FreshOk(n, procs);
    hide Cow.Inv, Cow.Abs;
    assert TablesOk(Cow.Fresh(n, procs));
  }

  // ---------------------------------------------------------------------------- one step

  lemma CoreTables(mem: State, x: CopyOnWrite.Event)
    requires TablesOk(mem) && CopyOnWrite.Enabled(mem, x)
    ensures TablesOk(CopyOnWrite.Apply(mem, x))
  {
  }

  /** A step on mapped pages is the same with the swapped ones beside them. */
  lemma SpecUnion(m: Cow.Memory, swap: Cow.Memory, x: CopyOnWrite.Event)
    requires m.Keys !! swap.Keys && !x.Reap?
    requires x.MapZero? ==> Cow.Place(x.p, x.page) !in swap
    requires x.ShareMap? ==> Cow.Place(x.parent, x.page) in m && Cow.Place(x.child, x.page) !in swap
    requires x.Unmap? && x.slot.User? ==> Cow.Place(x.p, x.slot.page) in m
    requires x.Store? ==> Cow.Place(x.p, x.page) in m
    ensures Cow.SpecStep(m + swap, x) == Cow.SpecStep(m, x) + swap
    ensures Cow.SpecStep(m, x).Keys !! swap.Keys
  {
  }

  lemma CoreProcs(mem: State, x: CopyOnWrite.Event, p: nat)
    requires CopyOnWrite.Enabled(mem, x) && p in mem.procs
    ensures x == Reap(p) || p in CopyOnWrite.Apply(mem, x).procs
  {
  }

  /** What a core event needs to be there is there. */
  lemma CorePlaces(s: Paging, x: CopyOnWrite.Event)
    requires Enabled(s, Core(x)) && Cow.Abs(s.mem).Keys !! s.swap.Keys
    ensures var m := Cow.Abs(s.mem);
      && (x.ShareMap? ==> Cow.Place(x.parent, x.page) in m)
      && (x.Unmap? && x.slot.User? ==> Cow.Place(x.p, x.slot.page) in m)
      && (x.Store? ==> Cow.Place(x.p, x.page) in m)
  {
  }

  lemma SimulatesCore(s: Paging, x: CopyOnWrite.Event)
    requires Inv(s) && Enabled(s, Core(x)) && !x.Reap?
    ensures Inv(Apply(s, Core(x))) && Abs(Apply(s, Core(x))) == SpecStep(Abs(s), Core(x))
  {
    hide Cow.Inv, Cow.SpecStep, Cow.Abs, TablesOk, CopyOnWrite.Apply, CopyOnWrite.Enabled;
    Cow.Simulates(s.mem, x);
    CoreTables(s.mem, x);
    CorePlaces(s, x);
    SpecUnion(Cow.Abs(s.mem), s.swap, x);
    var t := Apply(s, Core(x));
    forall y | y in t.swap ensures y.p in t.mem.procs { CoreProcs(s.mem, x, y.p); }
  }

  lemma WithoutUnion(m: Cow.Memory, swap: Cow.Memory, p: nat)
    requires forall y :: y in m ==> y.p != p
    ensures m + Without(swap, p) == Without(m + swap, p)
  {
  }

  lemma SimulatesReap(s: Paging, p: nat)
    requires Inv(s) && Enabled(s, Core(Reap(p)))
    ensures Inv(Apply(s, Core(Reap(p)))) && Abs(Apply(s, Core(Reap(p)))) == SpecStep(Abs(s), Core(Reap(p)))
  {
    hide Cow.Inv, Cow.SpecStep, Cow.Abs, TablesOk, CopyOnWrite.Apply, CopyOnWrite.Enabled, Without;
    ReapKeeps(s.mem, p);
    Cow.Simulates(s.mem, Reap(p));
    CoreTables(s.mem, Reap(p));
    WithoutUnion(Cow.Abs(s.mem), s.swap, p);
    var t := Apply(s, Core(Reap(p)));
    assert Cow.Abs(t.mem) == Cow.Abs(s.mem) && t.swap == Without(s.swap, p);
    forall y | y in t.swap ensures y.p in t.mem.procs { CoreProcs(s.mem, Reap(p), y.p); }
  }

  lemma ReapKeeps(mem: State, p: nat)
    requires CopyOnWrite.Enabled(mem, Reap(p))
    ensures CopyOnWrite.Apply(mem, Reap(p)).ptes == mem.ptes
    ensures Cow.SpecStep(Cow.Abs(mem), Reap(p)) == Cow.Abs(mem)
    ensures forall y :: y in Cow.Abs(mem) ==> y.p != p
  {
  }

  lemma UnmapFrame(mem: State, p: nat, w: nat)
    requires Cow.Inv(mem) && CopyOnWrite.Enabled(mem, Unmap(p, User(w)))
    ensures var t := CopyOnWrite.Apply(mem, Unmap(p, User(w)));
      t.procs == mem.procs && Cow.Abs(t) == Cow.Abs(mem) - {Cow.Place(p, w)}
    ensures UserKey(p, w) in mem.ptes && mem.ptes[UserKey(p, w)].frame < |mem.frames| && p in mem.procs
    ensures Cow.Place(p, w) in Cow.Abs(mem)
    ensures Cow.Abs(mem)[Cow.Place(p, w)] == mem.frames[mem.ptes[UserKey(p, w)].frame]
    ensures |mem.frames[mem.ptes[UserKey(p, w)].frame]| == PGSIZE
  {
    Cow.UnmapOnlyLowers(mem, p, User(w));
    Cow.Simulates(mem, Unmap(p, User(w)));
  }

  /** A page that goes from one map to the other. */
  lemma Moved(m: Cow.Memory, swap: Cow.Memory, x: Cow.Place)
    requires m.Keys !! swap.Keys && x in m
    ensures (m - {x}) + swap[x := m[x]] == m + swap
    ensures (m - {x}).Keys !! swap[x := m[x]].Keys
  {
  }

  /** Swapping out is invisible, shared frame or not. */
  lemma SimulatesOut(s: Paging, p: nat, w: nat)
    requires Inv(s) && Enabled(s, Out(p, w))
    ensures Inv(Apply(s, Out(p, w))) && Abs(Apply(s, Out(p, w))) == Abs(s)
  {
    hide Cow.Inv, Cow.Abs, TablesOk, CopyOnWrite.Apply, CopyOnWrite.Enabled;
    UnmapFrame(s.mem, p, w);
    Cow.Keeps(s.mem, Unmap(p, User(w)));
    CoreTables(s.mem, Unmap(p, User(w)));
    Moved(Cow.Abs(s.mem), s.swap, Cow.Place(p, w));
  }

  // ------------------------------------------------------------------------ swapping in

  /** No other page maps the frame of the page that goes out. */
  ghost predicate PrivateVictim(s: Paging, e: Event)
    requires Enabled(s, e)
  {
    e.In? ==> Cow.Sole(s.mem.ptes, UserKey(e.p, e.w))
  }

  /** For a process that is between kernel activities, a count of one, apart from those that
      faults have still to lower, is what makes a mapping the only one. */
  lemma SoleIffCountOne(mem: State, k: Key)
    requires Cow.Inv(mem) && Idle(mem, k.p) && k in mem.ptes
    ensures mem.ptes[k].frame < |mem.refcnt|
    ensures mem.refcnt[mem.ptes[k].frame] - |Cow.Pending(mem, mem.ptes[k].frame)| == 1 <==> Cow.Sole(mem.ptes, k)
  {
    var counted := Cow.Counted(mem, mem.ptes[k].frame);
    assert k in counted;
    if Cow.Sole(mem.ptes, k) { assert counted == {k}; }
    if |counted| == 1 { Cow.CountedOnceIsSole(mem, k); }
  }

  /** ptes with key w replaced by key v on the same frame. */
  lemma ReplacedSole(ptes: map<Key, Pte>, w: Key, v: Key, j: Key)
    requires w in ptes && v !in ptes && Cow.Sole(ptes, w) && j in ptes && j != w
    ensures var ptes' := (ptes - {w})[v := Pte(ptes[w].frame, true, true)];
      && j in ptes' && ptes'[j] == ptes[j] && (Cow.Sole(ptes, j) ==> Cow.Sole(ptes', j)) && Cow.Sole(ptes', v)
  {
  }

  lemma ReplacedCounts(s: Paging, p: nat, v: nat, w: nat, f: nat)
    requires Cow.Inv(s.mem) && Enabled(s, In(p, v, w)) && Cow.Sole(s.mem.ptes, UserKey(p, w)) && f < |s.mem.refcnt|
    ensures var t := Exchanged(s, p, v, w).mem; |Cow.Counted(t, f)| + |Cow.Pending(t, f)| == s.mem.refcnt[f]
  {
    var t, k, j := Exchanged(s, p, v, w).mem, UserKey(p, w), UserKey(p, v);
    assert Cow.Pending(t, f) == Cow.Pending(s.mem, f);
    if f == FrameOf(s, p, w) {
      SoleIffCountOne(s.mem, k);
      assert !Cow.Uncounted(t, j);
      assert Cow.Counted(t, f) == {j};
    } else {
      assert Cow.Counted(t, f) == Cow.Counted(s.mem, f);
    }
  }

  lemma ReplacedBusy(s: Paging, p: nat, v: nat, w: nat)
    requires Cow.Inv(s.mem) && Enabled(s, In(p, v, w)) && Cow.Sole(s.mem.ptes, UserKey(p, w))
    ensures Cow.BusyOk(Exchanged(s, p, v, w).mem)
  {
    var t, k := Exchanged(s, p, v, w).mem, UserKey(p, w);
    forall q | q in t.busy && t.busy[q].Sharing? ensures Cow.SharingOk(t, q) {
      assert Cow.SharingOk(s.mem, q);
      var own, copy := UserKey(q, t.busy[q].page), UserKey(t.busy[q].child, t.busy[q].page);
      assert own != k && copy != k;
    }
    forall q | q in t.busy && t.busy[q].Faulting? ensures Cow.FaultingOk(t, q) {
      assert Cow.FaultingOk(s.mem, q);
      ReplacedSole(s.mem.ptes, k, UserKey(p, v), UserKey(q, t.busy[q].page));
    }
    forall q | q in t.busy && t.busy[q].Copying? ensures Cow.CopyingOk(t, q) { assert Cow.CopyingOk(s.mem, q); }
  }

  lemma ReplacedWritable(s: Paging, p: nat, v: nat, w: nat)
    requires Cow.Inv(s.mem) && Enabled(s, In(p, v, w)) && Cow.Sole(s.mem.ptes, UserKey(p, w))
    ensures Cow.WritableOk(Exchanged(s, p, v, w).mem)
  {
    var t, k, j := Exchanged(s, p, v, w).mem, UserKey(p, w), UserKey(p, v);
    forall i | i in t.ptes && t.ptes[i].writable ensures Cow.Sole(t.ptes, i) {
      if i != j { ReplacedSole(s.mem.ptes, k, j, i); }
    }
  }

  lemma ReplacedShape(s: Paging, p: nat, v: nat, w: nat)
    requires Inv(s) && Enabled(s, In(p, v, w))
    ensures var t := Exchanged(s, p, v, w).mem; Cow.Shape(t) && Cow.FreeOk(t) && Cow.EmbryoOk(t) && TablesOk(t)
  {
    hide Cow.BusyOk, Cow.WritableOk, Cow.CountsOk;
    ReplacedFrames(s, p, v, w);
    hide Exchanged, Cow.EmbryoOk;
  }

  lemma ReplacedFrames(s: Paging, p: nat, v: nat, w: nat)
    requires Cow.Shape(s.mem) && SwapOk(s) && Enabled(s, In(p, v, w))
    ensures var t := Exchanged(s, p, v, w).mem;
      && Cow.Shape(t) && |t.frames| == |s.mem.frames| && t.refcnt == s.mem.refcnt && t.free == s.mem.free
      && t.procs == s.mem.procs && t.busy == s.mem.busy && t.embryo == s.mem.embryo
      && (forall k :: k in t.ptes && k != UserKey(p, v) ==> k in s.mem.ptes && t.ptes[k] == s.mem.ptes[k])
      && UserKey(p, v) in t.ptes && t.ptes[UserKey(p, v)] == Pte(FrameOf(s, p, w), true, true)
  {
  }

  lemma ReplacedCountsOk(s: Paging, p: nat, v: nat, w: nat)
    requires Inv(s) && Enabled(s, In(p, v, w)) && Cow.Sole(s.mem.ptes, UserKey(p, w))
    ensures var t := Exchanged(s, p, v, w).mem; Cow.Shape(t) && Cow.CountsOk(t)
  {
    ReplacedShape(s, p, v, w);
    var t := Exchanged(s, p, v, w).mem;
    hide Cow.Inv, Cow.Counted, Cow.Sole;
    hide Cow.Pending;
    forall f | 0 <= f < |t.refcnt| ensures t.refcnt[f] == |Cow.Counted(t, f)| + |Cow.Pending(t, f)| {
      ReplacedCounts(s, p, v, w, f);
    }
  }

  lemma KeepsIn(s: Paging, p: nat, v: nat, w: nat)
    requires Inv(s) && Enabled(s, In(p, v, w)) && Cow.Sole(s.mem.ptes, UserKey(p, w))
    ensures Cow.Inv(Exchanged(s, p, v, w).mem) && TablesOk(Exchanged(s, p, v, w).mem)
  {
    hide Cow.Shape, Cow.FreeOk, Cow.EmbryoOk, Cow.CountsOk, Cow.BusyOk, Cow.WritableOk, Cow.Sole, TablesOk, SwapOk;
    ReplacedShape(s, p, v, w);
    ReplacedCountsOk(s, p, v, w);
    ReplacedBusy(s, p, v, w);
    ReplacedWritable(s, p, v, w);
  }

  lemma ExchangedAt(s: Paging, p: nat, v: nat, w: nat, x: Cow.Place)
    requires Cow.Shape(s.mem) && Enabled(s, In(p, v, w)) && Cow.Sole(s.mem.ptes, UserKey(p, w))
    ensures var t, k := Exchanged(s, p, v, w).mem, UserKey(x.p, x.page);
      && (k in t.ptes <==> (k in s.mem.ptes && x != Cow.Place(p, w)) || x == Cow.Place(p, v))
      && (k in t.ptes && x != Cow.Place(p, v) ==>
            t.ptes[k] == s.mem.ptes[k] && t.frames[t.ptes[k].frame] == s.mem.frames[s.mem.ptes[k].frame])
      && (x == Cow.Place(p, v) ==> t.frames[t.ptes[k].frame] == s.swap[x])
  {
  }

  /** The mapped pages after the exchange, when nobody else maps the frame. */
  lemma ExchangedAbs(s: Paging, p: nat, v: nat, w: nat)
    requires Inv(s) && Enabled(s, In(p, v, w)) && Cow.Sole(s.mem.ptes, UserKey(p, w))
    ensures var m := Cow.Abs(s.mem);
      && Cow.Place(p, w) in m && s.mem.frames[FrameOf(s, p, w)] == m[Cow.Place(p, w)]
      && Cow.Abs(Exchanged(s, p, v, w).mem) == (m - {Cow.Place(p, w)})[Cow.Place(p, v) := s.swap[Cow.Place(p, v)]]
  {
    ReplacedShape(s, p, v, w);
    hide Cow.BusyOk, Cow.WritableOk, Cow.CountsOk, Cow.EmbryoOk, Cow.FreeOk, Cow.Sole, TablesOk;
    var t, m := Exchanged(s, p, v, w).mem, Cow.Abs(s.mem);
    var r := (m - {Cow.Place(p, w)})[Cow.Place(p, v) := s.swap[Cow.Place(p, v)]];
    assert m[Cow.Place(p, w)] == s.mem.frames[FrameOf(s, p, w)];
    hide Exchanged, Cow.Abs;
    forall x: Cow.Place ensures x in r <==> UserKey(x.p, x.page) in t.ptes { ExchangedAt(s, p, v, w, x); }
    forall x | x in r ensures r[x] == t.frames[t.ptes[UserKey(x.p, x.page)].frame] { ExchangedAt(s, p, v, w, x); }
    Cow.AbsEqual(t, r);
  }

  lemma Traded(m: Cow.Memory, swap: Cow.Memory, x: Cow.Place, y: Cow.Place)
    requires m.Keys !! swap.Keys && x in m && y in swap
    ensures (m - {x})[y := swap[y]] + (swap - {y})[x := m[x]] == m + swap
    ensures (m - {x})[y := swap[y]].Keys !! (swap - {y})[x := m[x]].Keys
  {
  }

  lemma SimulatesIn(s: Paging, e: Event)
    requires Inv(s) && Enabled(s, e) && e.In? && PrivateVictim(s, e)
    ensures Inv(Apply(s, e)) && Abs(Apply(s, e)) == Abs(s)
  {
    var p, v, w := e.p, e.v, e.w;
    KeepsIn(s, p, v, w);
    ExchangedAbs(s, p, v, w);
    assert |s.mem.frames[FrameOf(s, p, w)]| == PGSIZE && p in s.mem.procs;
    hide Cow.Inv, Cow.Abs, TablesOk, Cow.Sole;
    Traded(Cow.Abs(s.mem), s.swap, Cow.Place(p, w), Cow.Place(p, v));
  }

  lemma DroppedUnion(m: Cow.Memory, swap: Cow.Memory, x: Cow.Place)
    requires m.Keys !! swap.Keys && x in swap
    ensures m + (swap - {x}) == (m + swap) - {x} && m.Keys !! (swap - {x}).Keys
  {
  }

  lemma SimulatesDrop(s: Paging, p: nat, v: nat)
    requires Inv(s) && Enabled(s, Drop(p, v))
    ensures Inv(Apply(s, Drop(p, v))) && Abs(Apply(s, Drop(p, v))) == Abs(s) - {Cow.Place(p, v)}
  {
    hide Cow.Inv, Cow.Abs, TablesOk;
    DroppedUnion(Cow.Abs(s.mem), s.swap, Cow.Place(p, v));
  }

  /** Each event with a private victim is the private-memory step for that event. */
  lemma Simulates(s: Paging, e: Event)
    requires Inv(s) && Enabled(s, e) && PrivateVictim(s, e)
    ensures Inv(Apply(s, e)) && Abs(Apply(s, e)) == SpecStep(Abs(s), e)
  {
    hide Inv, Abs, Apply, Enabled, PrivateVictim;
    match e
    case Core(x) => if x.Reap? { SimulatesReap(s, x.p); } else { SimulatesCore(s, x); }
    case Out(p, w) => SimulatesOut(s, p, w);
    case In(_, _, _) => SimulatesIn(s, e);
    case Drop(p, v) => SimulatesDrop(s, p, v);
  }

  // -------------------------------------------------------------------------- whole runs

  ghost predicate ValidRun(s: Paging, es: seq<Event>)
    decreases |es|
  {
    es != [] ==> Enabled(s, es[0]) && ValidRun(Apply(s, es[0]), es[1..])
  }

  ghost predicate PrivateVictims(s: Paging, es: seq<Event>)
    requires ValidRun(s, es)
    decreases |es|
  {
    es != [] ==> PrivateVictim(s, es[0]) && PrivateVictims(Apply(s, es[0]), es[1..])
  }

  ghost function RunTo(s: Paging, es: seq<Event>): Paging
    requires ValidRun(s, es)
    decreases |es|
  {
    if es == [] then s else RunTo(Apply(s, es[0]), es[1..])
  }

  ghost function SpecRun(m: Cow.Memory, es: seq<Event>): Cow.Memory
    decreases |es|
  {
    if es == [] then m else SpecRun(SpecStep(m, es[0]), es[1..])
  }

  /** Whatever the interleaving of forks, faults, stores, growth, frees and swapping, processes
      whose victims are private have the memories of processes that share nothing. */
  lemma {:induction false} PagingRefines(s: Paging, es: seq<Event>)
    requires Inv(s) && ValidRun(s, es) && PrivateVictims(s, es)
    ensures Inv(RunTo(s, es)) && Abs(RunTo(s, es)) == SpecRun(Abs(s), es)
    decreases |es|
  {
    hide Inv, Abs, Apply, Enabled, PrivateVictim, SpecStep;
    if es != [] {
      Simulates(s, es[0]);
      PagingRefines(Apply(s, es[0]), es[1..]);
    }
  }

  /** Every way to go on from t, with private victims, gives what the specification gives from m. */
  ghost predicate Isolated(t: Paging, m: Cow.Memory) {
    forall es :: ValidRun(t, es) && PrivateVictims(t, es) ==> Abs(RunTo(t, es)) == SpecRun(m, es)
  }

  /** Another page maps the frame of the victim. */
  lemma SharedPage(s: Paging, e: Event) returns (k: Key)
    requires Inv(s) && Enabled(s, e) && e.In? && !PrivateVictim(s, e)
    ensures k in s.mem.ptes && k.slot.User? && k != UserKey(e.p, e.w) && s.mem.ptes[k].frame == FrameOf(s, e.p, e.w)
  {
    var j := UserKey(e.p, e.w);
    k :| k in s.mem.ptes && s.mem.ptes[k].frame == s.mem.ptes[j].frame && k != j;
    assert s.mem.ptes[k].writable ==> Cow.Sole(s.mem.ptes, k);
  }

  /** Page x maps the frame that page v of p maps, writable. */
  ghost predicate Exposed(t: Paging, p: nat, v: nat, x: Cow.Place) {
    && Idle(t.mem, p) && UserKey(p, v) in t.mem.ptes && UserKey(x.p, x.page) in t.mem.ptes && x != Cow.Place(p, v)
    && x !in t.swap && FrameOk(t.mem, UserKey(p, v)) && |t.mem.frames[FrameOf(t, p, v)]| == PGSIZE
    && t.mem.ptes[UserKey(p, v)] == Pte(FrameOf(t, p, v), true, true)
    && t.mem.ptes[UserKey(x.p, x.page)].frame == FrameOf(t, p, v)
  }

  lemma InExposes(s: Paging, e: Event, k: Key)
    requires Inv(s) && Enabled(s, e) && e.In?
    requires k in s.mem.ptes && k.slot.User? && k != UserKey(e.p, e.w) && s.mem.ptes[k].frame == FrameOf(s, e.p, e.w)
    ensures Cow.Place(k.p, k.slot.page) in Abs(s) && Exposed(Apply(s, e), e.p, e.v, Cow.Place(k.p, k.slot.page))
    ensures FreeHeadOk(Apply(s, e).mem)
  {
    var t, x := Apply(s, e), Cow.Place(k.p, k.slot.page);
    hide Cow.BusyOk, Cow.WritableOk, Cow.CountsOk, Cow.EmbryoOk, TablesOk;
    assert UserKey(x.p, x.page) == k && x in Cow.Abs(s.mem);
    assert x !in s.swap && Cow.Place(e.p, e.v) !in Cow.Abs(s.mem);
    ReplacedFrames(s, e.p, e.v, e.w);
    assert x !in t.swap && k in t.mem.ptes;
    hide Exchanged, Cow.Abs;
  }

  /** A store into v shows in x. */
  lemma StoreShows(t: Paging, p: nat, v: nat, x: Cow.Place, val: byte)
    requires Exposed(t, p, v, x) && FreeHeadOk(t.mem)
    ensures x in Abs(t) && |Abs(t)[x]| == PGSIZE && Enabled(t, Core(Store(p, v, 0, val)))
    ensures var u := Apply(t, Core(Store(p, v, 0, val))); x in Abs(u) && Abs(u)[x] == Abs(t)[x][0 := val]
  {
  }

  /** Swapping in keeps processes isolated, now and in all that follows, exactly when the
      no other page maps the victim's frame. */
  lemma SwapInIsolatedIff(s: Paging, e: Event)
    requires Inv(s) && Enabled(s, e) && e.In?
    ensures Isolated(Apply(s, e), Abs(s)) <==> PrivateVictim(s, e)
  {
    var t := Apply(s, e);
    if PrivateVictim(s, e) {
      SimulatesIn(s, e);
      hide Inv, Abs, Apply, Enabled;
      forall es | ValidRun(t, es) && PrivateVictims(t, es) ensures Abs(RunTo(t, es)) == SpecRun(Abs(s), es) { PagingRefines(t, es); }
    } else {
      var k := SharedPage(s, e);
      var x := Cow.Place(k.p, k.slot.page);
      InExposes(s, e, k);
      StoreShows(t, e.p, e.v, x, 0);
      var b := Abs(t)[x][0];
      var val: byte := if b == 0 then 1 else 0;
      StoreShows(t, e.p, e.v, x, val);
      NotIsolated(t, Abs(s), e.p, e.v, x, val);
    }
  }

  lemma NotIsolated(t: Paging, m: Cow.Memory, p: nat, v: nat, x: Cow.Place, val: byte)
    requires x in m && x in Abs(t) && x != Cow.Place(p, v) && |Abs(t)[x]| == PGSIZE && Abs(t)[x][0] != val
    requires Enabled(t, Core(Store(p, v, 0, val)))
    requires var u := Apply(t, Core(Store(p, v, 0, val))); x in Abs(u) && Abs(u)[x] == Abs(t)[x][0 := val]
    ensures !Isolated(t, m)
  {
    RunNone(t, m);
    RunStore(t, m, p, v, val);
    var none: seq<Event> := [];
    var one := [Core(Store(p, v, 0, val))];
    hide Abs, Enabled, Apply, SpecStep, SpecRun, RunTo, ValidRun, PrivateVictims;
    assert !(Abs(RunTo(t, none)) == SpecRun(m, none) && Abs(RunTo(t, one)) == SpecRun(m, one));
  }

  lemma RunNone(t: Paging, m: Cow.Memory)
    ensures ValidRun(t, []) && PrivateVictims(t, []) && RunTo(t, []) == t && SpecRun(m, []) == m
  {
  }

  lemma RunStore(t: Paging, m: Cow.Memory, p: nat, v: nat, val: byte)
    requires Enabled(t, Core(Store(p, v, 0, val)))
    ensures var e := Core(Store(p, v, 0, val));
      ValidRun(t, [e]) && PrivateVictims(t, [e]) && RunTo(t, [e]) == Apply(t, e)
    ensures var m' := SpecRun(m, [Core(Store(p, v, 0, val))]);
      forall x :: x in m && x != Cow.Place(p, v) ==> x in m' && m'[x] == m[x]
  {
    var e := Core(Store(p, v, 0, val));
    assert [e][1..] == [];
    RunNone(Apply(t, e), SpecStep(m, e));
    assert SpecRun(m, [e]) == SpecStep(m, e);
  }

  // ------------------------------------------------------------- touching a dropped page

  /** PageFault finds PTE_PG in the entry of an absent page, and SwapMemoryAndFile does not find
      the page in the swap table. */
  predicate TouchPanics(s: Paging, p: nat, v: nat) {
    && Key(p, Table(v / NPTENTRIES)) in s.mem.ptes && UserKey(p, v) !in s.mem.ptes
    && Cow.Place(p, v) in s.paged && Cow.Place(p, v) !in s.swap
  }

  /** Pages marked as swapped out are absent and have a page table. */
  ghost predicate PagedOk(s: Paging) {
    forall x: Cow.Place :: x in s.paged ==>
      UserKey(x.p, x.page) !in s.mem.ptes && Key(x.p, Table(x.page / NPTENTRIES)) in s.mem.ptes
  }

  /** The event writes the entry of page v of p anew, or does away with its page table. */
  predicate Renews(e: Event, p: nat, v: nat) {
    && e.Core?
    && match e.e
       case MapZero(q, page) => q == p && page == v
       case ShareMap(_, child, page) => child == p && page == v
       case Unmap(q, slot) => q == p && slot == Table(v / NPTENTRIES)
       case Reap(q) => q == p
       case _ => false
  }

  /** Which entries a core event makes and which it takes away. */
  lemma CoreKeys(mem: State, x: CopyOnWrite.Event, k: Key)
    requires CopyOnWrite.Enabled(mem, x)
    ensures k in CopyOnWrite.Apply(mem, x).ptes <==>
      match x
      case NewSpace(_, child) => k in mem.ptes || k == Key(child, Dir)
      case AddTable(p, pdx) => k in mem.ptes || k == Key(p, Table(pdx))
      case MapZero(p, page) => k in mem.ptes || k == UserKey(p, page)
      case ShareMap(_, child, page) => k in mem.ptes || k == UserKey(child, page)
      case Unmap(p, slot) => k in mem.ptes && k != Key(p, slot)
      case _ => k in mem.ptes
  {
  }

  lemma ReapedEmpty(mem: State, p: nat, k: Key)
    requires CopyOnWrite.Enabled(mem, Reap(p)) && k.p == p
    ensures k !in mem.ptes
  {
  }

  lemma CoreTouch(s: Paging, x: CopyOnWrite.Event, p: nat, v: nat)
    requires PagedOk(s) && Enabled(s, Core(x))
    ensures TouchPanics(Apply(s, Core(x)), p, v) <==> TouchPanics(s, p, v) && !Renews(Core(x), p, v)
    ensures var t := Apply(s, Core(x));
      Cow.Place(p, v) in t.paged ==> UserKey(p, v) !in t.mem.ptes && Key(p, Table(v / NPTENTRIES)) in t.mem.ptes
  {
    CoreKeys(s.mem, x, UserKey(p, v));
    CoreKeys(s.mem, x, Key(p, Table(v / NPTENTRIES)));
    if x == Reap(p) { ReapedEmpty(s.mem, p, Key(p, Table(v / NPTENTRIES))); }
    hide CopyOnWrite.Apply, CopyOnWrite.Enabled;
    assert Cow.Place(p, v) in s.paged ==> UserKey(p, v) !in s.mem.ptes && Key(p, Table(v / NPTENTRIES)) in s.mem.ptes;
  }

  lemma SwapTouch(s: Paging, e: Event, p: nat, v: nat)
    requires PagedOk(s) && Enabled(s, e) && !e.Core?
    ensures TouchPanics(Apply(s, e), p, v) <==> e == Drop(p, v) || TouchPanics(s, p, v)
    ensures var t := Apply(s, e);
      Cow.Place(p, v) in t.paged ==> UserKey(p, v) !in t.mem.ptes && Key(p, Table(v / NPTENTRIES)) in t.mem.ptes
  {
    if e.Out? {
      CoreKeys(s.mem, Unmap(e.p, User(e.w)), UserKey(p, v));
      CoreKeys(s.mem, Unmap(e.p, User(e.w)), Key(p, Table(v / NPTENTRIES)));
    }
    hide CopyOnWrite.Apply, CopyOnWrite.Enabled;
    assert Cow.Place(p, v) in s.paged ==> UserKey(p, v) !in s.mem.ptes && Key(p, Table(v / NPTENTRIES)) in s.mem.ptes;
  }

  lemma StepTouch(s: Paging, e: Event, p: nat, v: nat)
    requires PagedOk(s) && Enabled(s, e)
    ensures PagedOk(Apply(s, e))
    ensures TouchPanics(Apply(s, e), p, v) <==> e == Drop(p, v) || (TouchPanics(s, p, v) && !Renews(e, p, v))
  {
    hide Enabled, Apply, TouchPanics;
    var t := Apply(s, e);
    forall x: Cow.Place | x in t.paged
      ensures UserKey(x.p, x.page) !in t.mem.ptes && Key(x.p, Table(x.page / NPTENTRIES)) in t.mem.ptes
    {
      if e.Core? { CoreTouch(s, e.e, x.p, x.page); } else { SwapTouch(s, e, x.p, x.page); }
    }
    if e.Core? { CoreTouch(s, e.e, p, v); } else { SwapTouch(s, e, p, v); }
  }

  ghost predicate NeverRenewed(es: seq<Event>, p: nat, v: nat) {
    forall i :: 0 <= i < |es| ==> !Renews(es[i], p, v)
  }

  /** Page v of p was dropped at step i and its entry has not been written since. */
  ghost predicate DroppedAt(es: seq<Event>, p: nat, v: nat, i: nat) {
    i < |es| && es[i] == Drop(p, v) && NeverRenewed(es[i + 1..], p, v)
  }

  lemma DroppedCons(e: Event, es: seq<Event>, p: nat, v: nat)
    ensures (exists i: nat :: DroppedAt([e] + es, p, v, i)) <==>
      (exists i: nat :: DroppedAt(es, p, v, i)) || (e == Drop(p, v) && NeverRenewed(es, p, v))
    ensures NeverRenewed([e] + es, p, v) <==> !Renews(e, p, v) && NeverRenewed(es, p, v)
  {
    var all := [e] + es;
    assert all[1..] == es && all[0] == e;
    assert forall i :: 0 <= i < |es| ==> all[i + 1] == es[i];
    hide Renews;
    forall i: nat | DroppedAt(all, p, v, i) ensures i == 0 || DroppedAt(es, p, v, i - 1) {
      if i > 0 { assert all[i + 1..] == es[i..]; }
    }
    forall i: nat | DroppedAt(es, p, v, i) ensures DroppedAt(all, p, v, i + 1) { assert all[i + 2..] == es[i + 1..]; }
    if e == Drop(p, v) && NeverRenewed(es, p, v) { assert DroppedAt(all, p, v, 0); }
  }

  lemma {:induction false} TouchAfter(s: Paging, es: seq<Event>, p: nat, v: nat)
    requires PagedOk(s) && ValidRun(s, es)
    ensures TouchPanics(RunTo(s, es), p, v) <==>
      (exists i: nat :: DroppedAt(es, p, v, i)) || (TouchPanics(s, p, v) && NeverRenewed(es, p, v))
    decreases |es|
  {
    if es != [] {
      hide Enabled, Apply, TouchPanics, PagedOk, Renews, NeverRenewed, DroppedAt;
      StepTouch(s, es[0], p, v);
      TouchAfter(Apply(s, es[0]), es[1..], p, v);
      DroppedCons(es[0], es[1..], p, v);
      assert es == [es[0]] + es[1..];
    }
  }

  /** deallocuvm takes a swapped-out page off the swap table and leaves PTE_PG set.  From a state
      with nothing swapped out, touching a page panics exactly when it was so dropped and its
      entry has not been written since, as growing again over it does. */
  lemma TouchPanicsIff(s: Paging, es: seq<Event>, p: nat, v: nat)
    requires s.paged == {} && ValidRun(s, es)
    ensures TouchPanics(RunTo(s, es), p, v) <==> exists i: nat :: DroppedAt(es, p, v, i)
  {
    TouchAfter(s, es, p, v);
  }
}
