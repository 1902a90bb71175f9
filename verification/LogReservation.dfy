/** begin_op, log_write and end_op as an interleaved protocol (src/log.c): how much log
    space operations reserve, when log_write can panic and how long its list can grow.
    log_write looks at the length of the list before it takes log.lock, so its test and
    its append are two events. */
module LogReservation {
  import opened Params
  import opened DiskLog

  /** An outstanding operation: how often it called log_write, on which blocks, and whether
      it is between log_write's test and its append. */
  datatype Op = Op(calls: nat, blocks: set<nat>, tested: bool)

  /** size is log.size; ops are the outstanding operations, so outstanding == |ops|. */
  datatype State = State(size: nat, lh: seq<nat>, ops: map<nat, Op>, committing: bool)

  datatype Event = Begin(op: nat) | Test(op: nat) | Append(op: nat, b: nat) | End(op: nat) | Clear | Done

  function Init(size: nat): State {
    State(size, [], map[], false)
  }

  /** begin_op's test for letting one more operation in. */
  predicate CanBegin(s: State) {
    !s.committing && |s.lh| + (|s.ops| + 1) * MAXOPBLOCKS <= LOGSIZE
  }

  /** log_write's panic test. */
  predicate LogFull(size: nat, lh: seq<nat>) {
    |lh| >= LOGSIZE || |lh| + 1 >= size
  }

  /** Append b unless the log already lists it (absorption). */
  function Absorb(lh: seq<nat>, b: nat): seq<nat> {
    if b in lh then lh else lh + [b]
  }

  predicate Enabled(s: State, e: Event) {
    match e
    case Begin(op) => op !in s.ops && CanBegin(s)
    case Test(op) => op in s.ops && !s.ops[op].tested && !LogFull(s.size, s.lh)
    case Append(op, b) => op in s.ops && s.ops[op].tested
    case End(op) => op in s.ops && !s.ops[op].tested
    case Clear => s.committing
    case Done => s.committing && s.lh == []
  }

  function Tested(o: Op): Op {
    o.(tested := true)
  }

  function Appended(o: Op, b: nat): Op {
    Op(o.calls + 1, o.blocks + {b}, false)
  }

  function Apply(s: State, e: Event): State
    requires Enabled(s, e)
  {
    match e
    case Begin(op) => s.(ops := s.ops[op := Op(0, {}, false)])
    case Test(op) => s.(ops := s.ops[op := Tested(s.ops[op])])
    case Append(op, b) => s.(lh := Absorb(s.lh, b), ops := s.ops[op := Appended(s.ops[op], b)])
    case End(op) => s.(ops := s.ops - {op}, committing := s.ops - {op} == map[])
    case Clear => s.(lh := [])
    case Done => s.(committing := false)
  }

  ghost predicate ValidRun(s: State, es: seq<Event>)
    decreases |es|
  {
    es != [] ==> Enabled(s, es[0]) && ValidRun(Apply(s, es[0]), es[1..])
  }

  ghost function RunTo(s: State, es: seq<Event>): State
    requires ValidRun(s, es)
    decreases |es|
  {
    if es == [] then s else RunTo(Apply(s, es[0]), es[1..])
  }

  // -------------------------------------------------------------- reservation

  /** The sum of w over the outstanding operations. */
  ghost function Total(ops: map<nat, Op>, w: Op -> int): int {
    if ops == map[] then 0 else
      var k :| k in ops;
      w(ops[k]) + Total(ops - {k}, w)
  }

  /** Log slots an operation may still claim, by the blocks it has logged. */
  function SpareBlocks(o: Op): int {
    MAXOPBLOCKS - |o.blocks|
  }

  /** The same by its calls of log_write. */
  function SpareCalls(o: Op): int {
    MAXOPBLOCKS - o.calls
  }

  function InTest(o: Op): int {
    if o.tested then 1 else 0
  }

  lemma {:induction false} TotalWithout(ops: map<nat, Op>, k: nat, w: Op -> int)
    requires k in ops
    ensures Total(ops, w) == w(ops[k]) + Total(ops - {k}, w)
    decreases |ops|
  {
    var j :| j in ops && Total(ops, w) == w(ops[j]) + Total(ops - {j}, w);
    if j != k {
      TotalWithout(ops - {j}, k, w);
      TotalWithout(ops - {k}, j, w);
      assert ops - {j} - {k} == ops - {k} - {j};
    }
  }

  lemma TotalWith(ops: map<nat, Op>, k: nat, o: Op, w: Op -> int)
    ensures Total(ops[k := o], w) == w(o) + Total(ops - {k}, w)
  {
    TotalWithout(ops[k := o], k, w);
    assert ops[k := o] - {k} == ops - {k};
  }

  lemma TotalUpdate(ops: map<nat, Op>, k: nat, o: Op, w: Op -> int)
    requires k in ops
    ensures Total(ops[k := o], w) == Total(ops, w) - w(ops[k]) + w(o)
  {
    TotalWithout(ops, k, w);
    TotalWith(ops, k, o, w);
  }

  lemma TotalNew(ops: map<nat, Op>, k: nat, o: Op, w: Op -> int)
    requires k !in ops
    ensures Total(ops[k := o], w) == Total(ops, w) + w(o)
  {
    TotalWith(ops, k, o, w);
    assert ops - {k} == ops;
  }

  lemma {:induction false} TotalAtLeast(ops: map<nat, Op>, w: Op -> int)
    requires forall k :: k in ops ==> w(ops[k]) >= 0
    ensures Total(ops, w) >= 0
    decreases |ops|
  {
    if ops != map[] {
      var k :| k in ops && Total(ops, w) == w(ops[k]) + Total(ops - {k}, w);
      TotalAtLeast(ops - {k}, w);
    }
  }

  lemma {:induction false} TotalAtMost(ops: map<nat, Op>, w: Op -> int, c: nat)
    requires forall k :: k in ops ==> w(ops[k]) <= c
    ensures Total(ops, w) <= |ops| * c
    decreases |ops|
  {
    if ops != map[] {
      var k :| k in ops && Total(ops, w) == w(ops[k]) + Total(ops - {k}, w);
      TotalAtMost(ops - {k}, w, c);
      SizeWithout(ops, k);
      assert |ops| * c == |ops - {k}| * c + c;
    }
  }

  lemma SizeWith(ops: map<nat, Op>, k: nat, o: Op)
    ensures |ops[k := o]| == |ops| + if k in ops then 0 else 1
  {
    assert ops[k := o].Keys == ops.Keys + {k};
    if k in ops { assert ops.Keys + {k} == ops.Keys; }
  }

  lemma SizeWithout(ops: map<nat, Op>, k: nat)
    requires k in ops
    ensures |ops - {k}| == |ops| - 1
  {
    assert (ops - {k}).Keys == ops.Keys - {k};
  }

  /** Everything logged by an outstanding operation is listed, and no more operations are
      outstanding than could each fill their share of the log. */
  ghost predicate Inv(s: State) {
    && Distinct(s.lh)
    && (forall op, b :: op in s.ops && b in s.ops[op].blocks ==> b in s.lh)
    && (forall op :: op in s.ops ==> |s.ops[op].blocks| <= s.ops[op].calls)
    && |s.ops| * MAXOPBLOCKS <= LOGSIZE
    && (s.committing ==> s.ops == map[])
    && (s.size < 2 ==> forall op :: op in s.ops ==> !s.ops[op].tested && s.ops[op].blocks == {})
  }

  /** Every operation logs at most MAXOPBLOCKS distinct blocks. */
  ghost predicate Modest(s: State) {
    forall op :: op in s.ops ==> |s.ops[op].blocks| <= MAXOPBLOCKS
  }

  /** Every operation calls log_write at most MAXOPBLOCKS times. */
  ghost predicate Frugal(s: State) {
    forall op :: op in s.ops ==> s.ops[op].calls <= MAXOPBLOCKS
  }

  ghost predicate ModestRun(s: State, es: seq<Event>)
    requires ValidRun(s, es)
    decreases |es|
  {
    Modest(s) && (es != [] ==> ModestRun(Apply(s, es[0]), es[1..]))
  }

  ghost predicate FrugalRun(s: State, es: seq<Event>)
    requires ValidRun(s, es)
    decreases |es|
  {
    Frugal(s) && (es != [] ==> FrugalRun(Apply(s, es[0]), es[1..]))
  }

  ghost predicate Reserved(s: State) {
    |s.lh| + Total(s.ops, SpareBlocks) <= LOGSIZE
  }

  ghost predicate ReservedCalls(s: State) {
    |s.lh| + Total(s.ops, SpareCalls) <= LOGSIZE
  }

  /** Whoever is between test and append saw a list with room for one more block. */
  ghost predicate Bounded(s: State) {
    if s.size < 2 then s.lh == [] else |s.lh| + Total(s.ops, InTest) <= s.size + 1
  }

  /** A set of size at most one more, by whether the element is new. */
  lemma AddOne(s: set<nat>, b: nat)
    ensures |s + {b}| == |s| + if b in s then 0 else 1
  {
    if b in s { assert s + {b} == s; }
  }

  lemma AppendKeepsInv(s: State, op: nat, b: nat)
    requires Inv(s) && Enabled(s, Append(op, b))
    ensures Inv(Apply(s, Append(op, b)))
  {
    AddOne(s.ops[op].blocks, b);
    SizeWith(s.ops, op, Appended(s.ops[op], b));
  }

  lemma OpKeepsInv(s: State, e: Event)
    requires Inv(s) && Enabled(s, e) && (e.Begin? || e.Test?)
    ensures Inv(Apply(s, e))
  {
    SizeWith(s.ops, e.op, if e.Begin? then Op(0, {}, false) else Tested(s.ops[e.op]));
  }

  lemma EndKeepsInv(s: State, op: nat)
    requires Inv(s) && Enabled(s, End(op))
    ensures Inv(Apply(s, End(op)))
  {
    SizeWithout(s.ops, op);
  }

  lemma KeepsInv(s: State, e: Event)
    requires Inv(s) && Enabled(s, e)
    ensures Inv(Apply(s, e))
  {
    match e
    case Begin(_) => OpKeepsInv(s, e);
    case Test(_) => OpKeepsInv(s, e);
    case Append(op, b) => AppendKeepsInv(s, op, b);
    case End(op) => EndKeepsInv(s, op);
    case Clear =>
    case Done =>
  }

  lemma KeepsReserved(s: State, e: Event)
    requires Inv(s) && Enabled(s, e)
    ensures Reserved(s) && Modest(s) ==> Reserved(Apply(s, e))
    ensures ReservedCalls(s) && Frugal(s) ==> ReservedCalls(Apply(s, e))
  {
    match e
    case Begin(op) =>
      TotalNew(s.ops, op, Op(0, {}, false), SpareBlocks);
      TotalNew(s.ops, op, Op(0, {}, false), SpareCalls);
      TotalAtMost(s.ops, SpareBlocks, MAXOPBLOCKS);
      TotalAtMost(s.ops, SpareCalls, MAXOPBLOCKS);
    case Test(op) =>
      TotalUpdate(s.ops, op, Tested(s.ops[op]), SpareBlocks);
      TotalUpdate(s.ops, op, Tested(s.ops[op]), SpareCalls);
    case Append(op, b) =>
      AddOne(s.ops[op].blocks, b);
      TotalUpdate(s.ops, op, Appended(s.ops[op], b), SpareBlocks);
      TotalUpdate(s.ops, op, Appended(s.ops[op], b), SpareCalls);
    case End(op) =>
      TotalWithout(s.ops, op, SpareBlocks);
      TotalWithout(s.ops, op, SpareCalls);
    case Clear =>
    case Done =>
  }

  lemma KeepsBounded(s: State, e: Event)
    requires Inv(s) && Bounded(s) && Enabled(s, e)
    ensures Bounded(Apply(s, e))
  {
    match e
    case Begin(op) => TotalNew(s.ops, op, Op(0, {}, false), InTest);
    case Test(op) =>
      TotalWith(s.ops, op, Tested(s.ops[op]), InTest);
      TotalAtMost(s.ops - {op}, InTest, 1);
      SizeWithout(s.ops, op);
    case Append(op, b) => TotalUpdate(s.ops, op, Appended(s.ops[op], b), InTest);
    case End(op) => TotalWithout(s.ops, op, InTest);
    case Clear => TotalAtLeast(s.ops, InTest);
    case Done =>
  }

  lemma {:induction false} RunKeeps(s: State, es: seq<Event>)
    requires Inv(s) && ValidRun(s, es)
    ensures Inv(RunTo(s, es)) && RunTo(s, es).size == s.size
    ensures Reserved(s) && ModestRun(s, es) ==> Reserved(RunTo(s, es)) && Modest(RunTo(s, es))
    ensures ReservedCalls(s) && FrugalRun(s, es) ==> ReservedCalls(RunTo(s, es)) && Frugal(RunTo(s, es))
    ensures Bounded(s) ==> Bounded(RunTo(s, es))
    decreases |es|
  {
    hide Inv, Reserved, ReservedCalls, Bounded, Modest, Frugal;
    if es != [] {
      KeepsInv(s, es[0]);
      KeepsReserved(s, es[0]);
      if Bounded(s) { KeepsBounded(s, es[0]); }
      RunKeeps(Apply(s, es[0]), es[1..]);
    }
  }

  /** Group commit never over-commits the log: in every interleaving the logged blocks are
      distinct, they plus what outstanding operations may still claim fit LOGSIZE, and a
      commit runs with no operation outstanding and none able to begin. */
  lemma GroupCommitFits(size: nat, es: seq<Event>)
    requires ValidRun(Init(size), es) && ModestRun(Init(size), es)
    ensures var s := RunTo(Init(size), es);
      && Distinct(s.lh) && |s.lh| + Total(s.ops, SpareBlocks) <= LOGSIZE && Total(s.ops, SpareBlocks) >= 0
      && (s.committing ==> s.ops == map[] && !CanBegin(s))
  {
    RunKeeps(Init(size), es);
    TotalAtLeast(RunTo(Init(size), es).ops, SpareBlocks);
  }

  // ------------------------------------------------------------- how far runs can get

  /** s is reached from an idle log of that size by operations that keep to MAXOPBLOCKS calls. */
  ghost predicate Reaches(size: nat, s: State) {
    exists es :: ValidRun(Init(size), es) && FrugalRun(Init(size), es) && RunTo(Init(size), es) == s
  }

  lemma {:induction false} RunSnoc(s: State, es: seq<Event>, e: Event)
    requires ValidRun(s, es) && FrugalRun(s, es) && Enabled(RunTo(s, es), e) && Frugal(Apply(RunTo(s, es), e))
    ensures ValidRun(s, es + [e]) && FrugalRun(s, es + [e]) && RunTo(s, es + [e]) == Apply(RunTo(s, es), e)
    decreases |es|
  {
    hide Enabled, Apply, Frugal;
    if es == [] {
      assert es + [e] == [e] && [e][1..] == [];
    } else {
      assert (es + [e])[1..] == es[1..] + [e];
      RunSnoc(Apply(s, es[0]), es[1..], e);
    }
  }

  lemma ReachesNext(size: nat, s: State, e: Event)
    requires Reaches(size, s) && Enabled(s, e) && Frugal(Apply(s, e))
    ensures Reaches(size, Apply(s, e))
  {
    hide ValidRun, RunTo, FrugalRun, Enabled, Apply, Frugal;
    var es :| ValidRun(Init(size), es) && FrugalRun(Init(size), es) && RunTo(Init(size), es) == s;
    RunSnoc(Init(size), es, e);
  }

  lemma ReachesInv(size: nat, s: State)
    requires Reaches(size, s)
    ensures s.size == size && Inv(s) && ReservedCalls(s) && Frugal(s) && Bounded(s)
  {
    hide ValidRun, RunTo, FrugalRun;
    var es :| ValidRun(Init(size), es) && FrugalRun(Init(size), es) && RunTo(Init(size), es) == s;
    RunKeeps(Init(size), es);
  }

  /** Three operations take turns: how many blocks from block k on come before the next one of
      operation r. */
  function Turn(r: nat, k: nat): nat {
    if k == 0 then r else if Turn(r, k - 1) == 0 then 2 else Turn(r, k - 1) - 1
  }

  lemma {:induction false} TurnsDiffer(k: nat)
    ensures Turn(0, k) < 3 && Turn(1, k) < 3 && Turn(2, k) < 3
    ensures Turn(0, k) != Turn(1, k) && Turn(0, k) != Turn(2, k) && Turn(1, k) != Turn(2, k)
  {
    if k > 0 { TurnsDiffer(k - 1); }
  }

  /** The operation whose block is k + n. */
  function Who(k: nat, n: nat): nat {
    if Turn(0, k) == n then 0 else if Turn(1, k) == n then 1 else 2
  }

  lemma WhoNext(k: nat, n: nat)
    requires n < 2
    ensures Who(k + 1, n) == Who(k, n + 1)
  {
    TurnsDiffer(k);
  }

  /** Operation r has logged its share of the first k blocks, and is between test and append if
      one of the next n blocks is its own. */
  ghost predicate Share(o: Op, r: nat, names: seq<nat>, k: nat, n: nat) {
    && 3 * o.calls == k + Turn(r, k) - r && (o.tested <==> Turn(r, k) < n)
    && (r == 0 < k && names != [] ==> names[0] in o.blocks)
  }

  /** Three operations log the named blocks in turn: k are listed, and the next n are between
      test and append. */
  ghost predicate Filled(s: State, size: nat, names: seq<nat>, k: nat, n: nat) {
    && s.size == size && !s.committing && Distinct(names) && k + n <= |names|
    && s.lh == names[..k] && s.ops.Keys == {0, 1, 2}
    && Share(s.ops[0], 0, names, k, n) && Share(s.ops[1], 1, names, k, n) && Share(s.ops[2], 2, names, k, n)
  }

  lemma FilledFrugal(s: State, size: nat, names: seq<nat>, k: nat, n: nat)
    requires Filled(s, size, names, k, n) && k <= LOGSIZE
    ensures Frugal(s)
  {
    TurnsDiffer(k);
  }

  function IdleOps(n: nat): (r: map<nat, Op>)
    ensures |r| == n && forall k: nat :: k in r <==> k < n
  {
    if n == 0 then map[] else
      var r := IdleOps(n - 1);
      assert r[n - 1 := Op(0, {}, false)].Keys == r.Keys + {n - 1};
      r[n - 1 := Op(0, {}, false)]
  }

  function Idle(size: nat, n: nat): State {
    State(size, [], IdleOps(n), false)
  }

  lemma {:induction false} IdleFrugal(n: nat)
    ensures forall k :: k in IdleOps(n) ==> IdleOps(n)[k] == Op(0, {}, false)
  {
    if n > 0 { IdleFrugal(n - 1); }
  }

  lemma BeginIdle(size: nat, n: nat)
    requires n < 3
    ensures Enabled(Idle(size, n), Begin(n)) && Apply(Idle(size, n), Begin(n)) == Idle(size, n + 1)
    ensures Frugal(Idle(size, n + 1))
  {
    IdleFrugal(n + 1);
  }

  lemma BeginOnce(size: nat, n: nat)
    requires n < 3 && Reaches(size, Idle(size, n))
    ensures Reaches(size, Idle(size, n + 1))
  {
    hide Reaches, Enabled, Apply, Frugal;
    BeginIdle(size, n);
    ReachesNext(size, Idle(size, n), Begin(n));
  }

  lemma ReachesInit(size: nat)
    ensures Reaches(size, Init(size))
  {
    var none: seq<Event> := [];
    assert ValidRun(Init(size), none) && FrugalRun(Init(size), none) && RunTo(Init(size), none) == Init(size);
  }

  lemma IdleFilled(size: nat, names: seq<nat>)
    requires Distinct(names)
    ensures Filled(Idle(size, 3), size, names, 0, 0)
  {
    IdleFrugal(3);
    assert IdleOps(3).Keys == {0, 1, 2};
  }

  lemma FilledStarts(size: nat, names: seq<nat>) returns (s: State)
    requires Distinct(names)
    ensures Reaches(size, s) && Filled(s, size, names, 0, 0)
  {
    ReachesInit(size);
    assert Init(size) == Idle(size, 0);
    hide Reaches, Filled;
    BeginOnce(size, 0);
    BeginOnce(size, 1);
    BeginOnce(size, 2);
    s := Idle(size, 3);
    IdleFilled(size, names);
  }

  lemma TestShare(o: Op, r: nat, names: seq<nat>, k: nat, n: nat)
    requires Share(o, r, names, k, n)
    ensures Share(if Turn(r, k) == n then Tested(o) else o, r, names, k, n + 1)
  {
  }

  lemma AppendShare(o: Op, r: nat, names: seq<nat>, k: nat, n: nat)
    requires Share(o, r, names, k, n) && 0 < n <= 3 && r < 3 && k < |names|
    ensures Share(if Turn(r, k) == 0 then Appended(o, names[k]) else o, r, names, k + 1, n - 1)
  {
  }

  lemma TestFilled(s: State, size: nat, names: seq<nat>, k: nat, n: nat)
    requires Filled(s, size, names, k, n) && n < 3 && k + n < |names| && !LogFull(size, s.lh)
    ensures Enabled(s, Test(Who(k, n))) && Filled(Apply(s, Test(Who(k, n))), size, names, k, n + 1)
  {
    TurnsDiffer(k);
    assert !s.ops[Who(k, n)].tested;
    hide Turn;
    TestShare(s.ops[0], 0, names, k, n);
    TestShare(s.ops[1], 1, names, k, n);
    TestShare(s.ops[2], 2, names, k, n);
    hide Share;
    var t := Apply(s, Test(Who(k, n)));
    assert t.ops.Keys == s.ops.Keys;
  }

  lemma AppendFilled(s: State, size: nat, names: seq<nat>, k: nat, n: nat)
    requires Filled(s, size, names, k, n) && 0 < n <= 3
    ensures Enabled(s, Append(Who(k, 0), names[k]))
    ensures Filled(Apply(s, Append(Who(k, 0), names[k])), size, names, k + 1, n - 1)
  {
    TurnsDiffer(k);
    assert s.ops[Who(k, 0)].tested;
    hide Turn;
    AppendShare(s.ops[0], 0, names, k, n);
    AppendShare(s.ops[1], 1, names, k, n);
    AppendShare(s.ops[2], 2, names, k, n);
    hide Share;
    assert names[k] !in s.lh;
    assert names[..k + 1] == names[..k] + [names[k]];
    var t := Apply(s, Append(Who(k, 0), names[k]));
    assert t.ops.Keys == s.ops.Keys;
  }

  lemma TestOnce(size: nat, s: State, names: seq<nat>, k: nat, n: nat) returns (t: State)
    requires Reaches(size, s) && Filled(s, size, names, k, n) && n < 3 && k + n < |names| <= LOGSIZE && !LogFull(size, s.lh)
    ensures Reaches(size, t) && Filled(t, size, names, k, n + 1)
  {
    TestFilled(s, size, names, k, n);
    t := Apply(s, Test(Who(k, n)));
    FilledFrugal(t, size, names, k, n + 1);
    hide *;
    ReachesNext(size, s, Test(Who(k, n)));
  }

  lemma AppendOnce(size: nat, s: State, names: seq<nat>, k: nat, n: nat) returns (t: State)
    requires Reaches(size, s) && Filled(s, size, names, k, n) && 0 < n <= 3 && |names| <= LOGSIZE
    ensures Reaches(size, t) && Filled(t, size, names, k + 1, n - 1)
  {
    AppendFilled(s, size, names, k, n);
    t := Apply(s, Append(Who(k, 0), names[k]));
    FilledFrugal(t, size, names, k + 1, n - 1);
    hide *;
    ReachesNext(size, s, Append(Who(k, 0), names[k]));
  }

  /** Blocks to log. */
  function Numbers(n: nat): (r: seq<nat>)
    ensures |r| == n && Distinct(r) && forall i :: 0 <= i < n ==> r[i] == i
  {
    if n == 0 then [] else Numbers(n - 1) + [n - 1]
  }

  lemma {:induction false} FillInTurn(size: nat, names: seq<nat>, k: nat) returns (s: State)
    requires k <= |names| <= LOGSIZE && Distinct(names) && (k == 0 || k < size)
    ensures Reaches(size, s) && Filled(s, size, names, k, 0)
  {
    hide Reaches, Filled;
    if k == 0 {
      s := FilledStarts(size, names);
    } else {
      s := FillInTurn(size, names, k - 1);
      FilledLength(s, size, names, k - 1, 0);
      s := TestOnce(size, s, names, k - 1, 0);
      s := AppendOnce(size, s, names, k - 1, 1);
    }
  }

  lemma FilledLength(s: State, size: nat, names: seq<nat>, k: nat, n: nat)
    requires Filled(s, size, names, k, n)
    ensures |s.lh| == k && s.lh == names[..k]
  {
  }

  /** n operations pass the test together, and then all of them append. */
  lemma FillTogether(size: nat, names: seq<nat>, k: nat, n: nat) returns (s: State)
    requires k + n == |names| <= LOGSIZE && Distinct(names) && k + 1 < size && 1 <= n <= 3
    ensures Reaches(size, s) && Filled(s, size, names, k + n, 0)
  {
    hide Reaches, Filled, Distinct;
    s := FillInTurn(size, names, k);
    var i := 0;
    while i < n
      invariant i <= n && Reaches(size, s) && Filled(s, size, names, k, i)
    {
      FilledLength(s, size, names, k, i);
      s := TestOnce(size, s, names, k, i);
      i := i + 1;
    }
    while i > 0
      invariant 0 <= i <= n && Reaches(size, s) && Filled(s, size, names, k + (n - i), i)
    {
      s := AppendOnce(size, s, names, k + (n - i), i);
      i := i - 1;
    }
  }

  /** The longest list that operations within their budget can make. */
  function Longest(size: nat): nat {
    if size < 2 then 0 else if size + 1 < LOGSIZE then size + 1 else LOGSIZE
  }

  ghost predicate ModestList(size: nat, es: seq<Event>, k: nat) {
    ValidRun(Init(size), es) && ModestRun(Init(size), es) && |RunTo(Init(size), es).lh| == k
  }

  ghost predicate FrugalList(size: nat, s: State, k: nat) {
    Reaches(size, s) && |s.lh| == k
  }

  lemma LengthBounded(s: State)
    requires Reserved(s) && Modest(s) && Bounded(s)
    ensures |s.lh| <= Longest(s.size)
  {
    TotalAtLeast(s.ops, SpareBlocks);
    TotalAtLeast(s.ops, InTest);
  }

  lemma ListBounded(size: nat, es: seq<Event>)
    requires ValidRun(Init(size), es) && ModestRun(Init(size), es)
    ensures |RunTo(Init(size), es).lh| <= Longest(size)
  {
    hide ValidRun, RunTo, ModestRun;
    RunKeeps(Init(size), es);
    LengthBounded(RunTo(Init(size), es));
  }

  lemma {:induction false} FrugalIsModest(s: State, es: seq<Event>)
    requires Inv(s) && ValidRun(s, es) && FrugalRun(s, es)
    ensures ModestRun(s, es)
    decreases |es|
  {
    if es != [] {
      KeepsInv(s, es[0]);
      FrugalIsModest(Apply(s, es[0]), es[1..]);
    }
  }

  /** The lengths that budgeted runs reach are exactly those up to Longest, whether the
      budget counts calls or distinct blocks. */
  lemma ListLengths(size: nat, k: nat)
    ensures (exists s :: FrugalList(size, s, k)) <==> k <= Longest(size)
    ensures (exists es :: ModestList(size, es, k)) <==> k <= Longest(size)
  {
    hide ValidRun, RunTo, ModestRun, FrugalRun;
    forall es | ModestList(size, es, k) ensures k <= Longest(size) { ListBounded(size, es); }
    forall s | FrugalList(size, s, k) ensures exists es :: ModestList(size, es, k) { FrugalListIsModest(size, s, k); }
    if k <= Longest(size) {
      var s: State;
      var names := Numbers(k);
      if k == 0 || k < size { s := FillInTurn(size, names, k); } else { s := FillTogether(size, names, size - 2, k - (size - 2)); }
      FilledLength(s, size, names, k, 0);
      assert FrugalList(size, s, k);
    }
  }

  lemma FrugalListIsModest(size: nat, s: State, k: nat)
    requires FrugalList(size, s, k)
    ensures exists es :: ModestList(size, es, k)
  {
    var es :| ValidRun(Init(size), es) && FrugalRun(Init(size), es) && RunTo(Init(size), es) == s;
    FrugalIsModest(Init(size), es);
    assert ModestList(size, es, k);
  }

  /** Two operations that pass the test with room for one block list more than the region
      holds.  That is possible exactly when the region, header included, has from two to
      LOGSIZE blocks, as mkfs's has. */
  lemma OverrunIff(size: nat)
    ensures (exists s :: Reaches(size, s) && s.lh != [] && |s.lh| >= size) <==> 2 <= size <= LOGSIZE
  {
    hide Reaches;
    if 2 <= size <= LOGSIZE {
      ListLengths(size, size);
      var s :| FrugalList(size, s, size);
    }
    forall s | Reaches(size, s) && s.lh != [] && |s.lh| >= size ensures 2 <= size <= LOGSIZE {
      assert FrugalList(size, s, |s.lh|);
      ListLengths(size, |s.lh|);
    }
  }

  /** A transaction that pins all NBUF buffers, so that write_log cannot read its first log
      block, is reachable exactly from a region of LOGSIZE - 1 blocks on. */
  lemma PinsAllBuffersIff(size: nat)
    ensures (exists s :: FrugalList(size, s, NBUF)) <==> size >= LOGSIZE - 1
  {
    ListLengths(size, NBUF);
  }

  // ------------------------------------------------------- when log_write panics

  /** Operation op, with a call left in its budget, is about to run into the panic. */
  ghost predicate BudgetedPanic(size: nat, s: State, op: nat) {
    Reaches(size, s) && op in s.ops && s.ops[op].calls < MAXOPBLOCKS && !s.ops[op].tested && LogFull(size, s.lh)
  }

  /** The panic is reachable within the budget exactly when the region, header included, has
      at most LOGSIZE blocks: there log_write has room for one block less than begin_op
      promises. */
  lemma PanicIffLogTooSmall(size: nat)
    ensures (exists s, op: nat :: BudgetedPanic(size, s, op)) <==> size <= LOGSIZE
  {
    hide Reaches;
    if size <= LOGSIZE {
      var k := if size == 0 then 0 else size - 1;
      var s := FillInTurn(size, Numbers(k), k);
      TurnsDiffer(k);
      assert BudgetedPanic(size, s, 2);
    }
    forall s, op: nat | BudgetedPanic(size, s, op) ensures size <= LOGSIZE {
      ReachesInv(size, s);
      TotalWithout(s.ops, op, SpareCalls);
      TotalAtLeast(s.ops - {op}, SpareCalls);
    }
  }

  /** Operation op, which has logged at most MAXOPBLOCKS distinct blocks and logs a listed one
      again, is about to run into the panic. */
  ghost predicate AbsorbedPanic(size: nat, s: State, op: nat, b: nat) {
    && Reaches(size, s) && op in s.ops && !s.ops[op].tested && LogFull(size, s.lh)
    && b in s.lh && b in s.ops[op].blocks
  }

  /** Since the test comes before absorption, logging a block again can panic on every image
      whose log holds a block at all. */
  lemma AbsorbedWriteCanPanicIff(size: nat)
    ensures (exists s, op: nat, b: nat :: AbsorbedPanic(size, s, op, b)) <==> size >= 2
  {
    hide Reaches;
    if size >= 2 {
      var k := if size > LOGSIZE then LOGSIZE else size - 1;
      var s := FillInTurn(size, Numbers(k), k);
      assert s.lh[0] == 0;
      assert AbsorbedPanic(size, s, 0, 0);
    }
    forall s, op: nat, b: nat | AbsorbedPanic(size, s, op, b) ensures size >= 2 { ReachesInv(size, s); }
  }
}
