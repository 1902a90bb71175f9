/** What a read of a hole does to the log (src/fs.c, src/log.c).  readi allocates the missing
    block and passes it to log_write without an operation of its own: log_write panics when
    no process is inside one, and otherwise lists a block that nobody reserved. */
module HoleReads {
  import opened Params
  import opened DiskLog
  import LR = LogReservation

  /** strays is the number of blocks on the list that readers put there; readers are between
      log_write's test and its append. */
  datatype State = State(log: LR.State, strays: nat, readers: nat)

  /** A section of an operation or of the commit, the two halves of a reader's log_write, and
      the end of a commit during which a reader appended. */
  datatype Event = Op(e: LR.Event) | Test | Append(b: nat) | Done

  function Init(size: nat): State {
    State(LR.Init(size), 0, 0)
  }

  predicate Enabled(s: State, e: Event) {
    match e
    case Op(x) => LR.Enabled(s.log, x)
    case Test => s.log.ops != map[] && !LR.LogFull(s.log.size, s.log.lh)
    case Append(b) => s.readers > 0
    case Done => s.log.committing
  }

  function Apply(s: State, e: Event): State
    requires Enabled(s, e)
  {
    match e
    case Op(x) => State(LR.Apply(s.log, x), if x.Clear? then 0 else s.strays, s.readers)
    case Test => s.(readers := s.readers + 1)
    case Append(b) =>
      State(s.log.(lh := LR.Absorb(s.log.lh, b)), s.strays + if b in s.log.lh then 0 else 1, s.readers - 1)
    case Done => s.(log := s.log.(committing := false))
  }

  ghost predicate ValidRun(s: State, es: seq<Event>)
    decreases |es|
  {
    es != [] ==> Enabled(s, es[0]) && ValidRun(Apply(s, es[0]), es[1..])
  }

  ghost function RunTo(s: State, es: seq<Event>): State
    requires ValidRun(s, es)
    decreases |es|
  {
    if es == [] then s else RunTo(Apply(s, es[0]), es[1..])
  }

  ghost predicate FrugalRun(s: State, es: seq<Event>)
    requires ValidRun(s, es)
    decreases |es|
  {
    LR.Frugal(s.log) && (es != [] ==> FrugalRun(Apply(s, es[0]), es[1..]))
  }

  /** The list and the unused calls of all operations exceed LOGSIZE by no more than the
      readers' blocks. */
  ghost predicate Reserved(s: State) {
    |s.log.lh| + LR.Total(s.log.ops, LR.SpareCalls) <= LOGSIZE + s.strays
  }

  lemma OpKeeps(s: State, x: LR.Event)
    requires LR.Inv(s.log) && Reserved(s) && LR.Frugal(s.log) && LR.Enabled(s.log, x)
    ensures LR.Inv(LR.Apply(s.log, x)) && Reserved(Apply(s, Op(x)))
  {
    LR.KeepsInv(s.log, x);
    match x
    case Begin(op) =>
      LR.TotalNew(s.log.ops, op, LR.Op(0, {}, false), LR.SpareCalls);
      LR.TotalAtMost(s.log.ops, LR.SpareCalls, MAXOPBLOCKS);
    case Test(op) => LR.TotalUpdate(s.log.ops, op, LR.Tested(s.log.ops[op]), LR.SpareCalls);
    case Append(op, b) => LR.TotalUpdate(s.log.ops, op, LR.Appended(s.log.ops[op], b), LR.SpareCalls);
    case End(op) => LR.TotalWithout(s.log.ops, op, LR.SpareCalls);
    case Clear =>
    case Done =>
  }

  /** Each section, a reader's included, keeps the bound. */
  lemma Keeps(s: State, e: Event)
    requires LR.Inv(s.log) && Reserved(s) && LR.Frugal(s.log) && Enabled(s, e)
    ensures LR.Inv(Apply(s, e).log) && Reserved(Apply(s, e)) && Apply(s, e).log.size == s.log.size
  {
    if e.Op? { OpKeeps(s, e.e); }
  }

  /** Readers take the log over LOGSIZE by at most one block for each that they list. */
  lemma {:induction false} ReservedButForReaders(s: State, es: seq<Event>)
    requires LR.Inv(s.log) && Reserved(s) && ValidRun(s, es) && FrugalRun(s, es)
    ensures var t := RunTo(s, es); LR.Inv(t.log) && Reserved(t) && LR.Frugal(t.log) && t.log.size == s.log.size
    decreases |es|
  {
    hide LR.Inv, Reserved, LR.Frugal, Enabled, Apply;
    if es != [] {
      Keeps(s, es[0]);
      ReservedButForReaders(Apply(s, es[0]), es[1..]);
    }
  }

  // -------------------------------------------------------------------- what one block does

  ghost predicate Reaches(size: nat, s: State) {
    exists es :: ValidRun(Init(size), es) && FrugalRun(Init(size), es) && RunTo(Init(size), es) == s
  }

  lemma {:induction false} RunSnoc(s: State, es: seq<Event>, e: Event)
    requires ValidRun(s, es) && FrugalRun(s, es) && Enabled(RunTo(s, es), e) && LR.Frugal(Apply(RunTo(s, es), e).log)
    ensures ValidRun(s, es + [e]) && FrugalRun(s, es + [e]) && RunTo(s, es + [e]) == Apply(RunTo(s, es), e)
    decreases |es|
  {
    hide Enabled, Apply, LR.Frugal;
    if es == [] {
      assert es + [e] == [e] && [e][1..] == [];
    } else {
      assert (es + [e])[1..] == es[1..] + [e];
      RunSnoc(Apply(s, es[0]), es[1..], e);
    }
  }

  lemma ReachesNext(size: nat, s: State, e: Event)
    requires Reaches(size, s) && Enabled(s, e) && LR.Frugal(Apply(s, e).log)
    ensures Reaches(size, Apply(s, e))
  {
    hide ValidRun, RunTo, FrugalRun, Enabled, Apply, LR.Frugal;
    var es :| ValidRun(Init(size), es) && FrugalRun(Init(size), es) && RunTo(Init(size), es) == s;
    RunSnoc(Init(size), es, e);
  }

  function AsOps(es: seq<LR.Event>): seq<Event>
    decreases |es|
  {
    if es == [] then [] else [Op(es[0])] + AsOps(es[1..])
  }

  lemma {:induction false} OpsRun(v: LR.State, es: seq<LR.Event>)
    requires LR.ValidRun(v, es) && LR.FrugalRun(v, es)
    ensures var s := State(v, 0, 0);
      ValidRun(s, AsOps(es)) && FrugalRun(s, AsOps(es)) && RunTo(s, AsOps(es)) == State(LR.RunTo(v, es), 0, 0)
    decreases |es|
  {
    if es != [] {
      var all := AsOps(es);
      assert all[0] == Op(es[0]) && all[1..] == AsOps(es[1..]);
      OpsRun(LR.Apply(v, es[0]), es[1..]);
    }
  }

  /** Without readers this is the machine of operations. */
  lemma OpsReach(size: nat, v: LR.State)
    requires LR.Reaches(size, v)
    ensures Reaches(size, State(v, 0, 0))
  {
    var es :| LR.ValidRun(LR.Init(size), es) && LR.FrugalRun(LR.Init(size), es) && LR.RunTo(LR.Init(size), es) == v;
    OpsRun(LR.Init(size), es);
    assert ValidRun(Init(size), AsOps(es)) && RunTo(Init(size), AsOps(es)) == State(v, 0, 0);
  }

  lemma ReachesReserved(size: nat, s: State)
    requires Reaches(size, s)
    ensures LR.Inv(s.log) && Reserved(s) && LR.Frugal(s.log) && s.log.size == size
  {
    hide ValidRun, RunTo, FrugalRun;
    var es :| ValidRun(Init(size), es) && FrugalRun(Init(size), es) && RunTo(Init(size), es) == s;
    ReservedButForReaders(Init(size), es);
  }

  /** Operation op, with a call left in its budget, is about to run into log_write's panic, and
      readers have put n blocks on the list. */
  ghost predicate BudgetedPanic(size: nat, s: State, op: nat, n: nat) {
    && Reaches(size, s) && s.strays == n && op in s.log.ops && LR.LogFull(size, s.log.lh)
    && s.log.ops[op].calls < MAXOPBLOCKS && !s.log.ops[op].tested
  }

  /** All but one of the blocks that three operations reserve are listed, and a reader lists
      one more. */
  lemma OneStray(size: nat) returns (s: State)
    requires size > LOGSIZE
    ensures BudgetedPanic(size, s, 2, 1)
  {
    var k := LOGSIZE - 1;
    var v := LR.FillInTurn(size, LR.Numbers(k), k);
    LR.FilledFrugal(v, size, LR.Numbers(k), k, 0);
    LR.TurnsDiffer(k);
    assert v.ops != map[] && |v.lh| == k && k !in v.lh && 2 in v.ops && v.ops[2].calls < MAXOPBLOCKS && !v.ops[2].tested;
    hide LR.Reaches, LR.Filled, LR.Turn, LR.Numbers, Reaches, LR.Frugal;
    OpsReach(size, v);
    var s0 := State(v, 0, 0);
    ReachesNext(size, s0, Test);
    var s1 := State(v, 0, 1);
    assert Apply(s0, Test) == s1;
    SameOps(v, LR.Absorb(v.lh, k));
    ReachesNext(size, s1, Append(k));
    s := Apply(s1, Append(k));
  }

  lemma SameOps(v: LR.State, lh: seq<nat>)
    requires LR.Frugal(v)
    ensures LR.Frugal(v.(lh := lh))
  {
  }

  /** Operations that keep to their budget can run into log_write's panic exactly when the
      region is too small for begin_op's promise anyway, or a read has listed a single block
      of a hole. */
  lemma OneReadBreaksTheBudget(size: nat, n: nat)
    ensures (exists s, op: nat, k: nat :: k <= n && BudgetedPanic(size, s, op, k)) <==> size <= LOGSIZE || n >= 1
  {
    hide Reaches, LR.Reaches;
    if size <= LOGSIZE {
      LR.PanicIffLogTooSmall(size);
      var v: LR.State, op: nat :| LR.BudgetedPanic(size, v, op);
      OpsReach(size, v);
      assert BudgetedPanic(size, State(v, 0, 0), op, 0);
    } else if n >= 1 {
      var s := OneStray(size);
    }
    forall s, op: nat | BudgetedPanic(size, s, op, 0) ensures size <= LOGSIZE {
      ReachesReserved(size, s);
      LR.TotalWithout(s.log.ops, op, LR.SpareCalls);
      LR.TotalAtLeast(s.log.ops - {op}, LR.SpareCalls);
    }
  }
}
