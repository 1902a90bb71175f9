/** The FIFO of resident pages over whole runs of its operations: it refines a queue as long
    as the tail is not removed from a longer list, and what it does after that. */
module MemoryFifo {
  import opened MemoryList

  /** A page is recorded, a page replaces the tail (GetMemoryListTail and then
      SetMemoryListHead), the k-th page from the head is removed. */
  datatype Step = Record(addr: int) | Replace(addr: int) | Remove(k: nat)

  predicate Enabled(f: Fifo, s: Step) {
    match s
    case Record(addr) => addr != SLOT_USABLE && HasRoom(f.table)
    case Replace(addr) => addr != SLOT_USABLE && !TailPanics(f)
    case Remove(k) => Removable(f, k)
  }

  function Replaced(f: Fifo, addr: int): Fifo
    requires !TailPanics(f)
  {
    HeadSet(TailTaken(f), f.tail, addr)
  }

  function Apply(f: Fifo, s: Step): Fifo
    requires Enabled(f, s)
  {
    match s
    case Record(addr) => Recorded(f, addr)
    case Replace(addr) => Replaced(f, addr)
    case Remove(k) => Removed(f, k)
  }

  /** The entry removed is not the last one, or is the only one. */
  predicate Harmless(f: Fifo, s: Step)
    requires Enabled(f, s)
  {
    s.Remove? ==> s.k == 0 || f.table[Nth(f.table, f.head, s.k)].next != NIL
  }

  ghost predicate Runs(f: Fifo, ss: seq<Step>)
    decreases |ss|
  {
    ss != [] ==> Enabled(f, ss[0]) && Runs(Apply(f, ss[0]), ss[1..])
  }

  ghost predicate HarmlessRun(f: Fifo, ss: seq<Step>)
    requires Runs(f, ss)
    decreases |ss|
  {
    ss != [] ==> Harmless(f, ss[0]) && HarmlessRun(Apply(f, ss[0]), ss[1..])
  }

  ghost function RunTo(f: Fifo, ss: seq<Step>): Fifo
    requires Runs(f, ss)
    decreases |ss|
  {
    if ss == [] then f else RunTo(Apply(f, ss[0]), ss[1..])
  }

  /** The addresses thrown out along a run. */
  ghost function Victims(f: Fifo, ss: seq<Step>): seq<int>
    requires Runs(f, ss)
    decreases |ss|
  {
    if ss == [] then []
    else (if ss[0].Replace? then [f.table[f.tail].addr] else []) + Victims(Apply(f, ss[0]), ss[1..])
  }

  // ----------------------------------------------------------------- the queue refined

  /** A queue of addresses, newest first. */
  predicate CanStep(q: seq<int>, s: Step) {
    match s
    case Record(_) => true
    case Replace(_) => |q| >= 2
    case Remove(k) => k < |q|
  }

  function QueueStep(q: seq<int>, s: Step): seq<int>
    requires CanStep(q, s)
  {
    match s
    case Record(addr) => [addr] + q
    case Replace(addr) => [addr] + q[..|q| - 1]
    case Remove(k) => Without(q, k)
  }

  ghost predicate QueueRuns(q: seq<int>, ss: seq<Step>)
    decreases |ss|
  {
    ss != [] ==> CanStep(q, ss[0]) && QueueRuns(QueueStep(q, ss[0]), ss[1..])
  }

  ghost function QueueTo(q: seq<int>, ss: seq<Step>): seq<int>
    requires QueueRuns(q, ss)
    decreases |ss|
  {
    if ss == [] then q else QueueTo(QueueStep(q, ss[0]), ss[1..])
  }

  /** Replacement takes the last address of the queue. */
  ghost function QueueVictims(q: seq<int>, ss: seq<Step>): seq<int>
    requires QueueRuns(q, ss)
    decreases |ss|
  {
    if ss == [] then []
    else (if ss[0].Replace? then [q[|q| - 1]] else []) + QueueVictims(QueueStep(q, ss[0]), ss[1..])
  }

  /** The slots in use are linked from head to tail in this order. */
  ghost predicate Good(f: Fifo, order: seq<int>) {
    Shape(f.table, order, NIL, f.head) && (order != [] ==> f.tail == order[|order| - 1])
  }

  lemma RecordedShape(f: Fifo, order: seq<int>, addr: int)
    requires Shape(f.table, order, NIL, f.head) && HasRoom(f.table) && addr != SLOT_USABLE
    ensures InTable(|f.table|, order)
    ensures var g, e := Recorded(f, addr), UsableFrom(f.table, 0);
      Shape(g.table, [e] + order, NIL, g.head) && Addrs(g.table, [e] + order) == [addr] + Addrs(f.table, order)
  {
    hide Links, Spare, InTable, HeadOf;
    UsableIsFree(f.table, order, UsableFrom(f.table, 0));
    PushedShape(f.table, order, NIL, f.head, UsableFrom(f.table, 0), addr);
  }

  lemma RecordRefines(f: Fifo, order: seq<int>, addr: int) returns (o: seq<int>)
    requires Good(f, order) && Enabled(f, Record(addr))
    ensures InTable(|f.table|, order) && Good(Recorded(f, addr), o)
    ensures Addrs(Recorded(f, addr).table, o) == [addr] + Addrs(f.table, order)
  {
    RecordedShape(f, order, addr);
    o := [UsableFrom(f.table, 0)] + order;
    assert f.head == NIL <==> order == [];
    hide Links, Spare, InTable, UsableFrom;
  }

  /** GetMemoryListTail panics exactly below two entries. */
  lemma GoodTail(f: Fifo, order: seq<int>)
    requires Good(f, order)
    ensures TailPanics(f) <==> |order| < 2
    ensures InTable(|f.table|, order) && (|order| >= 2 ==> Addrs(f.table, order)[|order| - 1] == f.table[f.tail].addr)
  {
    if order != [] {
      EntryOn(f, order, 0);
      EntryOn(f, order, |order| - 1);
    }
  }

  lemma ReplaceRefines(f: Fifo, order: seq<int>, addr: int) returns (o: seq<int>)
    requires Good(f, order) && Enabled(f, Replace(addr))
    ensures |order| >= 2 && InTable(|f.table|, order) && Good(Replaced(f, addr), o)
    ensures f.table[f.tail].addr == Addrs(f.table, order)[|order| - 1]
    ensures Addrs(Replaced(f, addr).table, o) == [addr] + Addrs(f.table, order)[..|order| - 1]
  {
    GoodTail(f, order);
    var n, e := |order| - 1, f.tail;
    PoppedShape(f.table, order, f.head);
    TailLast(f.table, order);
    EntryOn(f, order, n);
    var t := Popped(f.table, e);
    PushedShape(t, order[..n], e, f.head, e, addr);
    o := [e] + order[..n];
    hide Links, Spare, InTable, At, HeadOf;
    assert o[|o| - 1] == order[n - 1];
  }

  lemma RemoveRefines(f: Fifo, order: seq<int>, k: nat) returns (o: seq<int>)
    requires Good(f, order) && k < |order| && (k + 1 < |order| || |order| == 1)
    ensures InTable(|f.table|, order) && Removable(f, k) && Good(Removed(f, k), o)
    ensures Addrs(Removed(f, k).table, o) == Without(Addrs(f.table, order), k)
  {
    hide Links, Spare, At, HeadOf, Unlinked, Nth, Without, Addrs;
    RemovedIs(f, order, k);
    UnlinkedShape(f.table, order, f.head, k);
    o := Without(order, k);
    LastAfter(|f.table|, order, k);
    hide InTable, Removed;
    EntryOn(f, order, k);
  }

  /** Which entry a removal takes, and that harmless means neither the tail nor alone. */
  lemma RemovableIff(f: Fifo, order: seq<int>, k: nat)
    requires Shape(f.table, order, NIL, f.head) && Removable(f, k)
    ensures k < |order| && Nth(f.table, f.head, k) == order[k]
    ensures Harmless(f, Remove(k)) <==> k + 1 < |order| || |order| == 1
  {
    if k >= |order| { NthEnds(f, order, k); }
    EntryOn(f, order, k);
    NthIsOn(f, order, k);
  }

  lemma NthEnds(f: Fifo, order: seq<int>, k: nat)
    requires Shape(f.table, order, NIL, f.head) && k >= |order|
    ensures Nth(f.table, f.head, k) == NIL
  {
    if order != [] {
      EntryOn(f, order, |order| - 1);
      NthIsOn(f, order, |order| - 1);
      hide *;
      NthSum(f.table, f.head, |order| - 1, k - (|order| - 1));
      NthNil(f.table, k - |order|);
      NthNext(f.table, order[|order| - 1], k - (|order| - 1));
    } else {
      NthNil(f.table, k);
    }
  }

  lemma {:induction false} NthSum(t: seq<Entry>, p: int, a: nat, b: nat)
    requires 0 <= Nth(t, p, a) < |t|
    ensures Nth(t, p, a + b) == Nth(t, Nth(t, p, a), b)
    decreases a
  {
    if a > 0 { NthSum(t, t[p].next, a - 1, b); }
  }

  lemma NthNext(t: seq<Entry>, p: int, k: nat)
    requires 0 <= p < |t| && k > 0
    ensures Nth(t, p, k) == Nth(t, t[p].next, k - 1)
  {
  }

  lemma NthNil(t: seq<Entry>, k: nat)
    ensures Nth(t, NIL, k) == NIL
  {
  }

  /** Each harmless step is the queue's step, and its victim the queue's. */
  lemma StepRefines(f: Fifo, order: seq<int>, s: Step) returns (o: seq<int>)
    requires Good(f, order) && Enabled(f, s) && Harmless(f, s)
    ensures InTable(|f.table|, order) && Good(Apply(f, s), o) && InTable(|Apply(f, s).table|, o)
    ensures CanStep(Addrs(f.table, order), s)
    ensures Addrs(Apply(f, s).table, o) == QueueStep(Addrs(f.table, order), s)
    ensures s.Replace? ==> f.table[f.tail].addr == Addrs(f.table, order)[|order| - 1]
  {
    hide Links, Spare, At, HeadOf, Unlinked, Nth, Without, InTable, Recorded, Replaced, Removed, TailPanics, HasRoom;
    match s
    case Record(addr) => o := RecordRefines(f, order, addr);
    case Replace(addr) => o := ReplaceRefines(f, order, addr);
    case Remove(k) =>
      RemovableIff(f, order, k);
      o := RemoveRefines(f, order, k);
  }

  lemma GoodIn(f: Fifo, order: seq<int>)
    requires Good(f, order)
    ensures InTable(|f.table|, order)
  {
  }

  /** Every run whose removals are harmless is a run of the queue, with the same victims. */
  lemma {:induction false} FifoRefinesQueue(f: Fifo, order: seq<int>, ss: seq<Step>) returns (o: seq<int>)
    requires Good(f, order) && Runs(f, ss) && HarmlessRun(f, ss)
    ensures InTable(|f.table|, order) && QueueRuns(Addrs(f.table, order), ss)
    ensures Good(RunTo(f, ss), o) && InTable(|RunTo(f, ss).table|, o)
    ensures Addrs(RunTo(f, ss).table, o) == QueueTo(Addrs(f.table, order), ss)
    ensures Victims(f, ss) == QueueVictims(Addrs(f.table, order), ss)
    decreases |ss|
  {
    hide Good, Enabled, Harmless, Apply, CanStep, QueueStep, Addrs, InTable;
    o := order;
    GoodIn(f, order);
    if ss != [] {
      o := StepRefines(f, order, ss[0]);
      o := FifoRefinesQueue(Apply(f, ss[0]), o, ss[1..]);
    }
  }

  // -------------------------------------------------------------------- oldest first

  /** The steps from number now on, each recording its own number instead of an address. */
  ghost function Stamped(ss: seq<Step>, now: int): seq<Step>
    decreases |ss|
  {
    if ss == [] then [] else [Stamp(ss[0], now)] + Stamped(ss[1..], now + 1)
  }

  function Stamp(s: Step, now: int): Step {
    match s
    case Record(_) => Record(now)
    case Replace(_) => Replace(now)
    case Remove(k) => Remove(k)
  }

  /** Numbers for n pages recorded before the run, newest first. */
  ghost function Before(n: nat): (w: seq<int>)
    ensures |w| == n && NewestFirst(w, 0)
  {
    seq(n, i => -1 - i)
  }

  /** The numbers of the pages listed after the run ss from a queue of n pages, and those of
      the victims: what the queue does with numbers in place of addresses. */
  ghost function ListedSteps(n: nat, ss: seq<Step>): seq<int>
    requires QueueRuns(Before(n), Stamped(ss, 0))
  {
    QueueTo(Before(n), Stamped(ss, 0))
  }

  ghost function VictimSteps(n: nat, ss: seq<Step>): seq<int>
    requires QueueRuns(Before(n), Stamped(ss, 0))
  {
    QueueVictims(Before(n), Stamped(ss, 0))
  }

  /** Step t of ss recorded address a; negative steps are those of the queue q before the run. */
  predicate RecordedAt(q: seq<int>, ss: seq<Step>, t: int, a: int) {
    if t < 0 then -|q| <= t && q[-1 - t] == a
    else t < |ss| && !ss[t].Remove? && ss[t].addr == a
  }

  /** addrs are the addresses that the steps ts recorded. */
  ghost predicate Names(q: seq<int>, ss: seq<Step>, ts: seq<int>, addrs: seq<int>) {
    |ts| == |addrs| && forall i :: 0 <= i < |ts| ==> RecordedAt(q, ss, ts[i], addrs[i])
  }

  ghost predicate NewestFirst(q: seq<int>, now: int) {
    && (forall i, j :: 0 <= i < j < |q| ==> q[i] > q[j])
    && (forall i :: 0 <= i < |q| ==> q[i] < now)
  }

  lemma PushOrder(q: seq<int>, now: int)
    requires NewestFirst(q, now)
    ensures NewestFirst([now] + q, now + 1)
    ensures forall x :: x in [now] + q ==> x in q || x == now
  {
    var r := [now] + q;
    assert forall i :: 0 < i < |r| ==> r[i] == q[i - 1];
  }

  lemma WithoutOrdered(q: seq<int>, k: nat, now: int)
    requires NewestFirst(q, now) && k < |q|
    ensures NewestFirst(Without(q, k), now)
    ensures forall x :: x in Without(q, k) ==> x in q
    ensures k == |q| - 1 ==> forall x :: x in Without(q, k) ==> x > q[k]
  {
    var r := Without(q, k);
    assert forall i :: 0 <= i < |r| ==> r[i] == q[if i < k then i else i + 1];
    forall x | x in r ensures x in q && (k == |q| - 1 ==> x > q[k]) {
      var i :| 0 <= i < |r| && r[i] == x;
    }
  }

  lemma StepOrder(q: seq<int>, s: Step, now: int)
    requires NewestFirst(q, now) && CanStep(q, Stamp(s, now))
    ensures NewestFirst(QueueStep(q, Stamp(s, now)), now + 1)
    ensures forall x :: x in QueueStep(q, Stamp(s, now)) ==> x in q || x == now
    ensures s.Replace? ==>
      q[|q| - 1] in q && q[|q| - 1] < now && forall x :: x in QueueStep(q, Stamp(s, now)) ==> x > q[|q| - 1]
  {
    match s
    case Record(_) => PushOrder(q, now);
    case Replace(_) =>
      assert q[|q| - 1] < now;
      WithoutOrdered(q, |q| - 1, now);
      assert Without(q, |q| - 1) == q[..|q| - 1];
      hide NewestFirst;
      PushOrder(q[..|q| - 1], now);
    case Remove(k) => WithoutOrdered(q, k, now);
  }

  ghost predicate Ascending(v: seq<int>) {
    forall i, j :: 0 <= i < j < |v| ==> v[i] < v[j]
  }

  ghost predicate Descending(v: seq<int>) {
    forall i, j :: 0 <= i < j < |v| ==> v[i] > v[j]
  }

  ghost predicate AllBelow(v: seq<int>, r: seq<int>) {
    forall i, j :: 0 <= i < |v| && 0 <= j < |r| ==> v[i] < r[j]
  }

  /** Every element was in the queue or was recorded since. */
  ghost predicate AllFrom(v: seq<int>, q: seq<int>, now: int) {
    forall i :: 0 <= i < |v| ==> v[i] in q || v[i] >= now
  }

  /** The victims v of a run from queue q come oldest first and before all of r, which lists
      the newest first. */
  ghost predicate OldestFirst(v: seq<int>, r: seq<int>, q: seq<int>, now: int) {
    Ascending(v) && AllBelow(v, r) && Descending(r) && AllFrom(v, q, now) && AllFrom(r, q, now)
  }

  lemma FromBefore(v: seq<int>, q: seq<int>, s: Step, now: int)
    requires NewestFirst(q, now) && CanStep(q, Stamp(s, now))
    requires AllFrom(v, QueueStep(q, Stamp(s, now)), now + 1)
    ensures AllFrom(v, q, now)
    ensures s.Replace? ==> q[|q| - 1] in q && AllBelow([q[|q| - 1]], v)
  {
    StepOrder(q, s, now);
    hide NewestFirst, QueueStep;
    if s.Replace? {
      var x := q[|q| - 1];
      forall j | 0 <= j < |v| ensures x < v[j] {}
    }
  }

  lemma Prepended(x: int, v: seq<int>, r: seq<int>, q: seq<int>, now: int)
    requires OldestFirst(v, r, q, now) && x in q && AllBelow([x], v) && AllBelow([x], r)
    ensures OldestFirst([x] + v, r, q, now)
  {
    forall j | 0 <= j < |v| ensures x < v[j] { assert [x][0] < v[j]; }
    forall j | 0 <= j < |r| ensures x < r[j] { assert [x][0] < r[j]; }
    var w := [x] + v;
    assert forall i :: 0 < i < |w| ==> w[i] == v[i - 1];
  }

  lemma OldestFirstCons(q: seq<int>, s: Step, now: int, v: seq<int>, r: seq<int>)
    requires NewestFirst(q, now) && CanStep(q, Stamp(s, now))
    requires OldestFirst(v, r, QueueStep(q, Stamp(s, now)), now + 1)
    ensures OldestFirst((if s.Replace? then [q[|q| - 1]] else []) + v, r, q, now)
  {
    hide NewestFirst, QueueStep, Ascending, Descending, AllBelow, AllFrom;
    FromBefore(v, q, s, now);
    FromBefore(r, q, s, now);
    if s.Replace? { Prepended(q[|q| - 1], v, r, q, now); } else { assert [] + v == v; }
  }

  /** A queue of step numbers gives them up in order. */
  lemma {:induction false} QueueOrder(w: seq<int>, ss: seq<Step>, now: int)
    requires NewestFirst(w, now) && QueueRuns(w, Stamped(ss, now))
    ensures OldestFirst(QueueVictims(w, Stamped(ss, now)), QueueTo(w, Stamped(ss, now)), w, now)
    decreases |ss|
  {
    if ss != [] {
      var st := Stamped(ss, now);
      assert st[0] == Stamp(ss[0], now) && st[1..] == Stamped(ss[1..], now + 1);
      StepOrder(w, ss[0], now);
      var w' := QueueStep(w, st[0]);
      hide QueueStep, CanStep, NewestFirst, OldestFirst, Stamped;
      QueueOrder(w', ss[1..], now + 1);
      OldestFirstCons(w, ss[0], now, QueueVictims(w', st[1..]), QueueTo(w', st[1..]));
    }
  }

  lemma NamesJoin(q0: seq<int>, all: seq<Step>, v: seq<int>, a: seq<int>, w: seq<int>, b: seq<int>)
    requires Names(q0, all, v, a) && Names(q0, all, w, b)
    ensures Names(q0, all, v + w, a + b)
  {
    hide RecordedAt;
  }

  lemma NamesPart(q0: seq<int>, all: seq<Step>, w: seq<int>, q: seq<int>, lo: nat, hi: nat)
    requires Names(q0, all, w, q) && lo <= hi <= |w|
    ensures Names(q0, all, w[lo..hi], q[lo..hi])
  {
    hide RecordedAt;
  }

  lemma NamesStep(q0: seq<int>, all: seq<Step>, now: nat, q: seq<int>, w: seq<int>)
    requires now < |all| && Names(q0, all, w, q) && CanStep(q, all[now])
    ensures CanStep(w, Stamp(all[now], now))
    ensures Names(q0, all, QueueStep(w, Stamp(all[now], now)), QueueStep(q, all[now]))
    ensures all[now].Replace? ==> Names(q0, all, [w[|w| - 1]], [q[|q| - 1]])
  {
    var n := |w|;
    assert |q| == n;
    match all[now]
    case Record(addr) =>
      assert Names(q0, all, [now], [addr]);
      hide Names;
      NamesJoin(q0, all, [now], [addr], w, q);
    case Replace(addr) =>
      assert Names(q0, all, [now], [addr]);
      assert w[..n - 1] == w[0..n - 1] && q[..n - 1] == q[0..n - 1];
      assert w[n - 1..n] == [w[n - 1]] && q[n - 1..n] == [q[n - 1]];
      hide Names;
      NamesPart(q0, all, w, q, 0, n - 1);
      NamesPart(q0, all, w, q, n - 1, n);
      NamesJoin(q0, all, [now], [addr], w[..n - 1], q[..n - 1]);
    case Remove(k) =>
      assert w[..k] == w[0..k] && q[..k] == q[0..k] && w[k + 1..] == w[k + 1..n] && q[k + 1..] == q[k + 1..n];
      hide Names;
      NamesPart(q0, all, w, q, 0, k);
      NamesPart(q0, all, w, q, k + 1, n);
      NamesJoin(q0, all, w[..k], q[..k], w[k + 1..], q[k + 1..]);
  }

  /** The queue of step numbers keeps pace with the queue of addresses. */
  lemma {:induction false} KeepsPace(q0: seq<int>, all: seq<Step>, now: nat, q: seq<int>, w: seq<int>)
    requires now <= |all| && Names(q0, all, w, q) && QueueRuns(q, all[now..])
    ensures QueueRuns(w, Stamped(all[now..], now))
    ensures Names(q0, all, QueueTo(w, Stamped(all[now..], now)), QueueTo(q, all[now..]))
    ensures Names(q0, all, QueueVictims(w, Stamped(all[now..], now)), QueueVictims(q, all[now..]))
    decreases |all| - now
  {
    var ss := all[now..];
    if ss != [] {
      var st := Stamped(ss, now);
      assert ss[0] == all[now] && ss[1..] == all[now + 1..];
      assert st[0] == Stamp(ss[0], now) && st[1..] == Stamped(ss[1..], now + 1);
      NamesStep(q0, all, now, q, w);
      var q', w' := QueueStep(q, ss[0]), QueueStep(w, st[0]);
      assert Names(q0, all, [], []);
      hide QueueStep, CanStep, Names, Stamped;
      KeepsPace(q0, all, now + 1, q', w');
      if ss[0].Replace? {
        NamesJoin(q0, all, [w[|w| - 1]], [q[|q| - 1]], QueueVictims(w', st[1..]), QueueVictims(q', ss[1..]));
      } else {
        NamesJoin(q0, all, [], [], QueueVictims(w', st[1..]), QueueVictims(q', ss[1..]));
      }
    }
  }

  /** Along every run whose removals are harmless, victims leave in the order of the steps
      that recorded them, and each was recorded before every page still on the list, which
      has the latest first.  Addresses may come back any number of times. */
  lemma VictimsAreOldest(f: Fifo, order: seq<int>, ss: seq<Step>) returns (o: seq<int>)
    requires Good(f, order) && Runs(f, ss) && HarmlessRun(f, ss)
    ensures InTable(|f.table|, order) && Good(RunTo(f, ss), o) && InTable(|RunTo(f, ss).table|, o)
    ensures QueueRuns(Before(|order|), Stamped(ss, 0))
    ensures Names(Addrs(f.table, order), ss, VictimSteps(|order|, ss), Victims(f, ss))
    ensures Names(Addrs(f.table, order), ss, ListedSteps(|order|, ss), Addrs(RunTo(f, ss).table, o))
    ensures Ascending(VictimSteps(|order|, ss)) && Descending(ListedSteps(|order|, ss))
    ensures AllBelow(VictimSteps(|order|, ss), ListedSteps(|order|, ss))
  {
    GoodIn(f, order);
    var q := Addrs(f.table, order);
    assert Names(q, ss, Before(|order|), q);
    assert ss[0..] == ss;
    hide Runs, HarmlessRun, RunTo, Victims, QueueVictims, QueueTo, QueueRuns, Addrs, Good, InTable, NewestFirst, Stamped, Names;
    o := FifoRefinesQueue(f, order, ss);
    KeepsPace(q, ss, 0, q, Before(|order|));
    QueueOrder(Before(|order|), ss, 0);
  }

  // ------------------------------------------------------------ after the tail is removed

  /** Wherever the tail pointer points, GetMemoryListTail panics exactly when fewer than two
      entries are linked or the entry pointed at is not linked behind another. */
  lemma TailPanicsIff(f: Fifo, order: seq<int>)
    requires Shape(f.table, order, NIL, f.head) && 0 <= f.tail < |f.table|
    ensures TailPanics(f) <==> |order| < 2 || f.tail !in order || f.tail == order[0]
  {
    if order != [] { EntryOn(f, order, 0); }
    if f.tail in order {
      var j: nat :| j < |order| && order[j] == f.tail;
      EntryOn(f, order, j);
    }
  }

  lemma CutAt(t: seq<Entry>, order: seq<int>, j: nat, i: nat)
    requires InTable(|t|, order) && Links(t, order) && 0 < j < |order| && i < j
    ensures InTable(|t|, order[..j]) && At(t, order, j) && At(t, order, j - 1)
    ensures var t' := Popped(t, order[j]); At(t', order[..j], i) && t'[order[i]].addr == t[order[i]].addr
  {
    assert At(t, order, j) && At(t, order, j - 1) && At(t, order, i);
  }

  /** Popping the j-th entry cuts the list there. */
  lemma CutLinks(t: seq<Entry>, order: seq<int>, j: nat)
    requires InTable(|t|, order) && Links(t, order) && 0 < j < |order|
    ensures InTable(|t|, order[..j]) && At(t, order, j) && At(t, order, j - 1) && order[j] !in order[..j]
    ensures var t' := Popped(t, order[j]);
      && Links(t', order[..j]) && Addrs(t', order[..j]) == Addrs(t, order)[..j]
      && t'[order[j]].last == NIL
      && forall e :: 0 <= e < |t| ==> t'[e].addr == t[e].addr
  {
    assert At(t, order, j) && At(t, order, j - 1);
    var t' := Popped(t, order[j]);
    hide At;
    forall i: nat | i < j ensures At(t', order[..j], i) && t'[order[i]].addr == t[order[i]].addr { CutAt(t, order, j, i); }
  }

  /** Replacement takes the entry pointed at.  Exactly the pages recorded after it stay on the
      list; those recorded before it fall off, though their slots stay in use. */
  lemma ReplacedAt(f: Fifo, order: seq<int>, j: nat, addr: int)
    requires Shape(f.table, order, NIL, f.head) && 0 < j < |order| && f.tail == order[j] && addr != SLOT_USABLE
    ensures !TailPanics(f) && InTable(|f.table|, order) && f.table[f.tail].addr == Addrs(f.table, order)[j]
    ensures var g, o := Replaced(f, addr), [f.tail] + order[..j];
      && InTable(|g.table|, o) && Links(g.table, o) && HeadOf(o, g.head) && g.tail == o[|o| - 1]
      && Addrs(g.table, o) == [addr] + Addrs(f.table, order)[..j]
      && forall i :: j < i < |order| ==> order[i] !in o && g.table[order[i]].addr == Addrs(f.table, order)[i] != SLOT_USABLE
  {
    EntryOn(f, order, j);
    EntryOn(f, order, 0);
    TailPanicsIff(f, order);
    CutLinks(f.table, order, j);
    var t, o := Popped(f.table, f.tail), [f.tail] + order[..j];
    PushedOrder(|t|, order[..j], f.tail);
    PushedLinks(t, order[..j], f.head, f.tail, addr);
    forall i | j < i < |order| ensures order[i] !in o && Addrs(f.table, order)[i] != SLOT_USABLE {
      assert At(f.table, order, i);
    }
    hide Links, Spare, At;
  }

  /** Usable slots among the first n. */
  function Usable(t: seq<Entry>, n: nat): nat
    requires n <= |t|
  {
    if n == 0 then 0 else Usable(t, n - 1) + if t[n - 1].addr == SLOT_USABLE then 1 else 0
  }

  ghost predicate RoomFor(f: Fifo, addrs: seq<int>)
    decreases |addrs|
  {
    addrs != [] ==> addrs[0] != SLOT_USABLE && HasRoom(f.table) && RoomFor(Recorded(f, addrs[0]), addrs[1..])
  }

  ghost function RecordAll(f: Fifo, addrs: seq<int>): Fifo
    requires RoomFor(f, addrs)
    decreases |addrs|
  {
    if addrs == [] then f else RecordAll(Recorded(f, addrs[0]), addrs[1..])
  }

  function Reversed(s: seq<int>): (r: seq<int>)
    ensures |r| == |s|
  {
    if s == [] then [] else Reversed(s[1..]) + [s[0]]
  }

  lemma {:induction false} ReversedAt(s: seq<int>, i: nat)
    requires i < |s|
    ensures Reversed(s)[|s| - 1 - i] == s[i]
  {
    if i > 0 { ReversedAt(s[1..], i - 1); }
  }

  /** f's list is order, newest first, with these addresses, but its tail pointer is e. */
  ghost predicate Dangles(f: Fifo, order: seq<int>, q: seq<int>, e: int) {
    && Shape(f.table, order, NIL, f.head) && order != [] && f.tail == e && 0 <= e < |f.table|
    && Addrs(f.table, order) == q
  }

  lemma RecordDangling(f: Fifo, order: seq<int>, q: seq<int>, e: int, addr: int)
    requires Dangles(f, order, q, e) && HasRoom(f.table) && addr != SLOT_USABLE
    ensures Dangles(Recorded(f, addr), [UsableFrom(f.table, 0)] + order, [addr] + q, e)
  {
    RecordedShape(f, order, addr);
    EntryOn(f, order, 0);
    hide Links, Spare, At, UsableFrom;
  }

  /** Once the entry is linked again, each new page pushes it one place back. */
  lemma {:induction false} Riding(f: Fifo, order: seq<int>, q: seq<int>, e: int, j: nat, addrs: seq<int>) returns (o: seq<int>)
    requires Dangles(f, order, q, e) && j < |order| && order[j] == e && RoomFor(f, addrs)
    ensures Dangles(RecordAll(f, addrs), o, Reversed(addrs) + q, e)
    ensures |o| == |order| + |addrs| && o[j + |addrs|] == e
    decreases |addrs|
  {
    hide Dangles, HasRoom, UsableFrom, Recorded, Reversed;
    o := order;
    if addrs == [] {
      assert Reversed(addrs) == [];
      assert [] + q == q;
    } else {
      RecordDangling(f, order, q, e, addrs[0]);
      var order' := [UsableFrom(f.table, 0)] + order;
      assert order'[j + 1] == e;
      o := Riding(Recorded(f, addrs[0]), order', [addrs[0]] + q, e, j + 1, addrs[1..]);
      ReversedCons(addrs, q);
    }
  }

  lemma {:induction false} UsableOne(t: seq<Entry>, u: seq<Entry>, n: nat, x: nat)
    requires |u| == |t| && n <= |t| && x < |t| && t[x].addr == SLOT_USABLE && u[x].addr != SLOT_USABLE
    requires forall i :: 0 <= i < |t| && i != x ==> (u[i].addr == SLOT_USABLE <==> t[i].addr == SLOT_USABLE)
    ensures Usable(u, n) == Usable(t, n) - if x < n then 1 else 0
  {
    if n > 0 { UsableOne(t, u, n - 1, x); }
  }

  lemma {:induction false} UsableNone(t: seq<Entry>, n: nat)
    requires n <= |t|
    ensures Usable(t, n) == 0 <==> forall i :: 0 <= i < n ==> t[i].addr != SLOT_USABLE
  {
    if n > 0 { UsableNone(t, n - 1); }
  }

  /** New pages take the usable slots below the entry first, then the entry itself. */
  lemma FillsBelow(f: Fifo, e: int, addr: int)
    requires 0 <= e < |f.table| && f.table[e].addr == SLOT_USABLE && addr != SLOT_USABLE && HasRoom(f.table)
    ensures var x, r := UsableFrom(f.table, 0), Usable(f.table, e);
      if r == 0 then x == e
      else x < e && |Recorded(f, addr).table| == |f.table| && Recorded(f, addr).table[e].addr == SLOT_USABLE
           && Usable(Recorded(f, addr).table, e) == r - 1
  {
    UsableNone(f.table, e);
    var x, u := UsableFrom(f.table, 0), Recorded(f, addr).table;
    UsableOne(f.table, u, e, x);
  }

  /** After m pages, with r usable slots below e to begin with: e is usable still, or back on
      the list with m - 1 - r pages before it. */
  ghost predicate Waited(f: Fifo, order: seq<int>, q: seq<int>, e: int, r: nat, m: nat) {
    && Dangles(f, order, q, e) && |order| >= m
    && if m <= r then f.table[e].addr == SLOT_USABLE else order[m - 1 - r] == e
  }

  lemma {:induction false} Waiting(f: Fifo, order: seq<int>, q: seq<int>, e: int, addrs: seq<int>) returns (o: seq<int>)
    requires Dangles(f, order, q, e) && f.table[e].addr == SLOT_USABLE && RoomFor(f, addrs)
    ensures Waited(RecordAll(f, addrs), o, Reversed(addrs) + q, e, Usable(f.table, e), |addrs|)
    ensures |o| == |order| + |addrs|
    decreases |addrs|
  {
    hide Dangles, HasRoom, UsableFrom, Recorded, Usable, Reversed;
    DanglesAt(f, order, q, e);
    o := order;
    if addrs == [] {
      assert Reversed(addrs) == [];
      assert [] + q == q;
    } else {
      var g, r := Recorded(f, addrs[0]), Usable(f.table, e);
      var order', q' := [UsableFrom(f.table, 0)] + order, [addrs[0]] + q;
      RecordDangling(f, order, q, e, addrs[0]);
      FillsBelow(f, e, addrs[0]);
      DanglesAt(g, order', q', e);
      if r == 0 {
        o := Riding(g, order', q', e, 0, addrs[1..]);
      } else {
        o := Waiting(g, order', q', e, addrs[1..]);
      }
      ReversedCons(addrs, q);
    }
  }

  lemma ReversedCons(s: seq<int>, q: seq<int>)
    requires s != []
    ensures Reversed(s) + q == Reversed(s[1..]) + ([s[0]] + q)
  {
  }

  lemma DanglesAt(f: Fifo, order: seq<int>, q: seq<int>, e: int)
    requires Dangles(f, order, q, e)
    ensures f.tail == e && 0 <= e < |f.table| && |q| == |order|
  {
  }

  lemma TailRemoved(f: Fifo, order: seq<int>)
    requires Good(f, order) && |order| >= 2
    ensures var n := |order| - 1;
      && Removable(f, n) && InTable(|f.table|, order)
      && Dangles(Removed(f, n), order[..n], Addrs(f.table, order)[..n], f.tail)
      && Removed(f, n).table[f.tail].addr == SLOT_USABLE
  {
    var n := |order| - 1;
    EntryOn(f, order, n);
    RemovedIs(f, order, n);
    UnlinkedShape(f.table, order, f.head, n);
    assert Without(order, n) == order[..n];
    hide Links, Spare, At, Nth;
    assert Without(Addrs(f.table, order), n) == Addrs(f.table, order)[..n];
  }

  /** f's list, from head to tail, is order, with these addresses. */
  ghost predicate Lists(f: Fifo, order: seq<int>, q: seq<int>) {
    && InTable(|f.table|, order) && Links(f.table, order) && HeadOf(order, f.head)
    && order != [] && f.tail == order[|order| - 1] && Addrs(f.table, order) == q
  }

  lemma UnlinkedTailPanics(f: Fifo, order: seq<int>, q: seq<int>, e: int)
    requires Dangles(f, order, q, e) && f.table[e].addr == SLOT_USABLE
    ensures TailPanics(f)
  {
    TailPanicsIff(f, order);
    UsableIsFree(f.table, order, e);
  }

  lemma LinkedTail(f: Fifo, order: seq<int>, q: seq<int>, e: int, j: nat, addr: int)
    requires Dangles(f, order, q, e) && j < |order| && order[j] == e && addr != SLOT_USABLE
    ensures TailPanics(f) <==> j == 0
    ensures |q| == |order| && f.table[f.tail].addr == q[j]
    ensures j > 0 ==> Lists(Replaced(f, addr), [e] + order[..j], [addr] + q[..j])
  {
    TailPanicsIff(f, order);
    EntryOn(f, order, j);
    if j > 0 { ReplacedAt(f, order, j, addr); }
    hide Links, Spare, At, Replaced;
  }

  lemma WaitedOutcome(h: Fifo, o: seq<int>, q: seq<int>, e: int, r: nat, addrs: seq<int>, addr: int) returns (left: seq<int>)
    requires Waited(h, o, Reversed(addrs) + q, e, r, |addrs|) && addr != SLOT_USABLE
    ensures 0 <= h.tail < |h.table| && (TailPanics(h) <==> |addrs| <= r + 1)
    ensures |addrs| > r + 1 ==> h.table[h.tail].addr == addrs[r]
    ensures |addrs| > r + 1 ==> Lists(Replaced(h, addr), left, [addr] + Reversed(addrs)[..|addrs| - 1 - r])
  {
    DanglesAt(h, o, Reversed(addrs) + q, e);
    hide Dangles, Lists, Replaced, TailPanics, Reversed;
    left := [];
    if |addrs| <= r {
      UnlinkedTailPanics(h, o, Reversed(addrs) + q, e);
    } else {
      var j := |addrs| - 1 - r;
      LinkedTail(h, o, Reversed(addrs) + q, e, j, addr);
      ReversedAt(addrs, r);
      left := [e] + o[..j];
      assert (Reversed(addrs) + q)[..j] == Reversed(addrs)[..j];
    }
  }

  /** Remove the tail of a longer list, record some pages, ask for a victim.  With r usable
      slots below the old tail's, GetMemoryListTail panics exactly when at most r + 1 pages
      were recorded.  Otherwise the victim is the page recorded in the old tail's slot, and
      every older page falls off the list with it. */
  lemma TailRemovalOutcome(f: Fifo, order: seq<int>, addrs: seq<int>, addr: int) returns (left: seq<int>)
    requires Good(f, order) && |order| >= 2 && addr != SLOT_USABLE
    requires Removable(f, |order| - 1) ==> RoomFor(Removed(f, |order| - 1), addrs)
    ensures Removable(f, |order| - 1) && 0 <= f.tail < |Removed(f, |order| - 1).table|
    ensures var h, r := RecordAll(Removed(f, |order| - 1), addrs), Usable(Removed(f, |order| - 1).table, f.tail);
      && 0 <= h.tail < |h.table|
      && (TailPanics(h) <==> |addrs| <= r + 1)
      && (|addrs| > r + 1 ==> h.table[h.tail].addr == addrs[r])
      && (|addrs| > r + 1 ==> Lists(Replaced(h, addr), left, [addr] + Reversed(addrs)[..|addrs| - 1 - r]))
  {
    TailRemoved(f, order);
    var n := |order| - 1;
    var g, q := Removed(f, n), Addrs(f.table, order)[..n];
    DanglesAt(g, order[..n], q, f.tail);
    hide *;
    var o := Waiting(g, order[..n], q, f.tail, addrs);
    left := WaitedOutcome(RecordAll(g, addrs), o, q, f.tail, Usable(g.table, f.tail), addrs, addr);
  }
}
