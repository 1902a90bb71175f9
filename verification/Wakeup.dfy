/** sleep and wakeup (src/proc.c) under any interleaving of processes that use one condition
    lock: a pipe's (src/pipe.c), the log's (src/log.c) or a sleep lock's (src/sleeplock.c). */
module Wakeup {
  import opened Params

  const PIPESIZE := 512
  const LOGSIZE := 30

  /** What the condition lock protects. */
  datatype Shared =
    | PipeS(nread: nat, nwrite: nat, readopen: bool, writeopen: bool)
    | LogS(n: nat, outstanding: nat, committing: bool)
    | LockS(locked: bool)

  datatype Chan = NRead | NWrite | LogC | LockC

  /** Where a routine stands.  dirty: it has stored bytes since it last called wakeup. */
  datatype Op =
    | Write(left: nat, dirty: bool) | Read(want: nat) | Copy(left: nat) | Close(writable: bool)
    | Begin | LogWrite(grows: bool) | End | Committed
    | AcquireS | ReleaseS

  /** What follows a wakeup: leaving, or sleep. */
  datatype Then = Leave | SleepOn(c: Chan, op: Op)

  /** Sleep0 has called sleep; Sleep1 holds ptable.lock as well; Sleep2 has released the
      condition lock; Asleep is SLEEPING.  Exit is about to release the condition lock, and
      to commit if so marked; Commit runs without the lock. */
  datatype Pc =
    | Idle | Outside(op: Op) | Inside(op: Op) | Wake(c: Chan, after: Then) | Exit(commits: bool) | Commit
    | Sleep0(c: Chan, op: Op) | Sleep1(c: Chan, op: Op) | Sleep2(c: Chan, op: Op) | Asleep(c: Chan, op: Op)

  datatype State = State(shared: Shared, lk: Option<nat>, pt: Option<nat>, pcs: map<nat, Pc>, killed: set<nat>)

  datatype Event =
    | Start(p: nat, op: Op) | Acquire(p: nat) | Step(p: nat) | WakeAll(p: nat) | Release(p: nat) | Reset(p: nat)
    | SleepLock(p: nat) | SleepDrop(p: nat) | SleepCommit(p: nat) | Kill(q: nat)

  /** What a process that sleeps on c waits for has not happened yet. */
  predicate Cond(c: Chan, s: Shared) {
    match c
    case NRead => s.PipeS? && s.nread == s.nwrite && s.writeopen
    case NWrite => s.PipeS? && s.nwrite == s.nread + PIPESIZE && s.readopen
    case LogC => s.LogS? && (s.committing || s.n + (s.outstanding + 1) * MAXOPBLOCKS > LOGSIZE)
    case LockC => s.LockS? && s.locked
  }

  /** op works on this kind of object; log operations are bracketed by begin_op and end_op. */
  predicate Legal(op: Op, s: Shared) {
    match op
    case Write(_, _) => s.PipeS?
    case Read(_) => s.PipeS?
    case Copy(_) => s.PipeS?
    case Close(_) => s.PipeS?
    case Begin => s.LogS?
    case LogWrite(_) => s.LogS? && s.outstanding > 0 && s.n < LOGSIZE
    case End => s.LogS? && s.outstanding > 0 && !s.committing
    case Committed => s.LogS?
    case AcquireS => s.LockS?
    case ReleaseS => s.LockS?
  }

  /** One step of a routine inside its critical section. */
  function Run(op: Op, s: Shared, killed: bool): (Shared, Pc)
    requires Legal(op, s)
  {
    match op
    case Write(left, dirty) =>
      if left == 0 then (s, Wake(NRead, Leave))
      else if s.nwrite == s.nread + PIPESIZE then
        if !s.readopen || killed then (s, Exit(false)) else (s, Wake(NRead, SleepOn(NWrite, Write(left, false))))
      else (s.(nwrite := s.nwrite + 1), Inside(Write(left - 1, true)))
    case Read(want) =>
      if s.nread == s.nwrite && s.writeopen then
        if killed then (s, Exit(false)) else (s, Sleep0(NRead, op))
      else (s, Inside(Copy(want)))
    case Copy(left) =>
      if left == 0 || s.nread == s.nwrite then (s, Wake(NWrite, Leave))
      else (s.(nread := s.nread + 1), Inside(Copy(left - 1)))
    case Close(writable) =>
      if writable then (s.(writeopen := false), Wake(NRead, Leave)) else (s.(readopen := false), Wake(NWrite, Leave))
    case Begin =>
      if Cond(LogC, s) then (s, Sleep0(LogC, op)) else (s.(outstanding := s.outstanding + 1), Exit(false))
    case LogWrite(grows) => (if grows then s.(n := s.n + 1) else s, Exit(false))
    case End =>
      if s.outstanding == 1 then (s.(outstanding := 0, committing := true), Exit(true))
      else (s.(outstanding := s.outstanding - 1), Wake(LogC, Leave))
    case Committed => (s.(committing := false), Wake(LogC, Leave))
    case AcquireS => if s.locked then (s, Sleep0(LockC, op)) else (s.(locked := true), Exit(false))
    case ReleaseS => (s.(locked := false), Wake(LockC, Leave))
  }

  predicate Initial(op: Op) {
    !op.Copy? && !op.Committed? && (op.Write? ==> !op.dirty)
  }

  predicate Enabled(s: State, e: Event) {
    match e
    case Start(p, op) => p in s.pcs && s.pcs[p] == Idle && Initial(op)
    case Acquire(p) => p in s.pcs && s.pcs[p].Outside? && s.lk == None
    case Step(p) => p in s.pcs && s.pcs[p].Inside? && Legal(s.pcs[p].op, s.shared)
    case WakeAll(p) => p in s.pcs && s.pcs[p].Wake? && s.pt == None
    case Release(p) => p in s.pcs && s.pcs[p].Exit?
    case Reset(p) => p in s.pcs && s.pcs[p] == Commit && s.shared.LogS?
    case SleepLock(p) => p in s.pcs && s.pcs[p].Sleep0? && s.pt == None
    case SleepDrop(p) => p in s.pcs && s.pcs[p].Sleep1?
    case SleepCommit(p) => p in s.pcs && s.pcs[p].Sleep2?
    case Kill(q) => q in s.pcs && s.pt == None
  }

  /** wakeup1: everyone SLEEPING on c becomes RUNNABLE, to take the lock again. */
  function Woken(pcs: map<nat, Pc>, c: Chan): map<nat, Pc> {
    map q | q in pcs :: if pcs[q].Asleep? && pcs[q].c == c then Outside(pcs[q].op) else pcs[q]
  }

  function Apply(s: State, e: Event): State
    requires Enabled(s, e)
  {
    match e
    case Start(p, op) => s.(pcs := s.pcs[p := Outside(op)])
    case Acquire(p) => s.(lk := Some(p), pcs := s.pcs[p := Inside(s.pcs[p].op)])
    case Step(p) =>
      var r := Run(s.pcs[p].op, s.shared, p in s.killed);
      s.(shared := r.0, pcs := s.pcs[p := r.1])
    case WakeAll(p) =>
      var next := match s.pcs[p].after case Leave => Exit(false) case SleepOn(c, op) => Sleep0(c, op);
      s.(pcs := Woken(s.pcs, s.pcs[p].c)[p := next])
    case Release(p) => s.(lk := None, pcs := s.pcs[p := if s.pcs[p].commits then Commit else Idle])
    case Reset(p) => s.(shared := s.shared.(n := 0), pcs := s.pcs[p := Outside(Committed)])
    case SleepLock(p) => s.(pt := Some(p), pcs := s.pcs[p := Sleep1(s.pcs[p].c, s.pcs[p].op)])
    case SleepDrop(p) => s.(lk := None, pcs := s.pcs[p := Sleep2(s.pcs[p].c, s.pcs[p].op)])
    case SleepCommit(p) => s.(pt := None, pcs := s.pcs[p := Asleep(s.pcs[p].c, s.pcs[p].op)])
    case Kill(q) =>
      s.(killed := s.killed + {q}, pcs := if s.pcs[q].Asleep? then s.pcs[q := Outside(s.pcs[q].op)] else s.pcs)
  }

  // ------------------------------------------------------------------------- invariant

  predicate HoldsLk(pc: Pc) {
    pc.Inside? || pc.Wake? || pc.Exit? || pc.Sleep0? || pc.Sleep1?
  }

  predicate HoldsPt(pc: Pc) {
    pc.Sleep1? || pc.Sleep2?
  }

  /** Asleep on c, or about to be with the condition lock already released. */
  predicate Waits(pc: Pc, c: Chan) {
    (pc.Asleep? || pc.Sleep2?) && pc.c == c
  }

  /** The routine calls wakeup(c) before it next releases the lock. */
  predicate Owes(pc: Pc, c: Chan) {
    || (pc.Wake? && pc.c == c)
    || (pc.Inside? && pc.op.Write? && pc.op.dirty && c == NRead)
    || (pc.Inside? && pc.op.Copy? && c == NWrite)
  }

  /** The routine has seen that c's condition holds and is on its way to sleep. */
  predicate Saw(pc: Pc, c: Chan) {
    || ((pc.Sleep0? || pc.Sleep1?) && pc.c == c)
    || (pc.Wake? && pc.after.SleepOn? && pc.after.c == c)
  }

  /** Between end_op's decision to commit and the end of the commit. */
  predicate Commits(pc: Pc) {
    match pc
    case Idle => false
    case Wake(_, after) => after.SleepOn? && after.op.Committed?
    case Exit(commits) => commits
    case Commit => true
    case _ => pc.op.Committed?
  }

  ghost predicate Owed(s: State, c: Chan) {
    s.lk.Some? && s.lk.value in s.pcs && Owes(s.pcs[s.lk.value], c)
  }

  ghost predicate LocksOk(s: State) {
    && (forall p :: p in s.pcs && HoldsLk(s.pcs[p]) ==> s.lk == Some(p))
    && (forall p :: p in s.pcs && HoldsPt(s.pcs[p]) ==> s.pt == Some(p))
    && (s.lk.Some? ==> s.lk.value in s.pcs && HoldsLk(s.pcs[s.lk.value]))
  }

  ghost predicate WaitersOk(s: State) {
    && (forall p, c :: p in s.pcs && Waits(s.pcs[p], c) ==> Cond(c, s.shared) || Owed(s, c))
    && (forall p, c :: p in s.pcs && Saw(s.pcs[p], c) ==> Cond(c, s.shared))
  }

  ghost predicate CommitOk(s: State) {
    && (forall p :: p in s.pcs && Commits(s.pcs[p]) ==> s.shared.LogS? && s.shared.committing)
    && (forall p, q :: p in s.pcs && q in s.pcs && Commits(s.pcs[p]) && Commits(s.pcs[q]) ==> p == q)
  }

  ghost predicate Inv(s: State) {
    LocksOk(s) && WaitersOk(s) && CommitOk(s)
  }

  /** No lost wakeup: with the lock free, whoever sleeps, or has let go of the lock to sleep,
      still has to. */
  ghost predicate NoneLost(s: State) {
    s.lk == None ==> forall p, c :: p in s.pcs && Waits(s.pcs[p], c) ==> Cond(c, s.shared)
  }

  lemma InvNoneLost(s: State)
    requires Inv(s)
    ensures NoneLost(s)
  {
  }

  /** A writer that has stored bytes since its last wakeup finds the pipe full and gives up,
      because it was killed or the read end is closed. */
  predicate GivesUp(s: State, e: Event) {
    && e.Step? && e.p in s.pcs && s.pcs[e.p].Inside? && s.pcs[e.p].op.Write? && s.pcs[e.p].op.left > 0
    && s.pcs[e.p].op.dirty && s.shared.PipeS? && s.shared.nwrite == s.shared.nread + PIPESIZE
    && (!s.shared.readopen || e.p in s.killed)
  }

  ghost predicate ReaderWaits(s: State) {
    exists p :: p in s.pcs && Waits(s.pcs[p], NRead)
  }

  lemma RunHolds(op: Op, s: Shared, killed: bool)
    requires Legal(op, s)
    ensures HoldsLk(Run(op, s, killed).1) && !HoldsPt(Run(op, s, killed).1)
  {
  }

  lemma KeepsLocks(s: State, e: Event)
    requires LocksOk(s) && Enabled(s, e)
    ensures LocksOk(Apply(s, e))
  {
    if e.Step? { RunHolds(s.pcs[e.p].op, s.shared, e.p in s.killed); }
    hide Run;
  }

  lemma KeepsCommit(s: State, e: Event)
    requires Inv(s) && Enabled(s, e)
    ensures CommitOk(Apply(s, e))
  {
    var s' := Apply(s, e);
    if e.Step? { CommitStep(s, e); }
    else {
      forall p | p in s'.pcs && Commits(s'.pcs[p]) ensures Commits(s.pcs[p]) {}
    }
  }

  lemma CommitStep(s: State, e: Event)
    requires Inv(s) && Enabled(s, e) && e.Step?
    ensures CommitOk(Apply(s, e))
  {
    var op := s.pcs[e.p].op;
    assert op.Committed? ==> Commits(s.pcs[e.p]);
  }

  /** What one step of a routine does to a channel's condition and to its own debt. */
  lemma RunOwes(op: Op, s: Shared, killed: bool, c: Chan)
    requires Legal(op, s) && (Cond(c, s) || Owes(Inside(op), c))
    requires op.Write? && op.dirty && op.left > 0 && s.nwrite == s.nread + PIPESIZE && (!s.readopen || killed) ==> c != NRead
    ensures var r := Run(op, s, killed); Cond(c, r.0) || Owes(r.1, c)
  {
  }

  lemma RunSaw(op: Op, s: Shared, killed: bool, c: Chan)
    requires Legal(op, s)
    ensures var r := Run(op, s, killed); !Waits(r.1, c) && (Saw(r.1, c) ==> Cond(c, r.0))
  {
  }

  /** A step keeps every waiter's condition or owes a wakeup, unless it gives up on a reader. */
  lemma StepWaiters(s: State, e: Event)
    requires Inv(s) && Enabled(s, e) && e.Step? && !(GivesUp(s, e) && ReaderWaits(s))
    ensures WaitersOk(Apply(s, e))
  {
    var s', op, killed := Apply(s, e), s.pcs[e.p].op, e.p in s.killed;
    assert s.lk == Some(e.p);
    hide Run;
    forall p, c | p in s'.pcs && Waits(s'.pcs[p], c) ensures Cond(c, s'.shared) || Owed(s', c) {
      RunSaw(op, s.shared, killed, c);
      assert Waits(s.pcs[p], c);
      RunOwes(op, s.shared, killed, c);
    }
    forall p, c | p in s'.pcs && Saw(s'.pcs[p], c) ensures Cond(c, s'.shared) {
      RunSaw(op, s.shared, killed, c);
      assert p != e.p ==> !HoldsLk(s.pcs[p]);
    }
  }

  lemma ResetWaiters(s: State, e: Event)
    requires Inv(s) && Enabled(s, e) && e.Reset?
    ensures WaitersOk(Apply(s, e))
  {
    var s' := Apply(s, e);
    assert Commits(s.pcs[e.p]);
    forall c | Cond(c, s.shared) ensures Cond(c, s'.shared) {}
    forall p, c | p in s'.pcs && Waits(s'.pcs[p], c) ensures Cond(c, s'.shared) || Owed(s', c) {
      assert Waits(s.pcs[p], c);
    }
    forall p, c | p in s'.pcs && Saw(s'.pcs[p], c) ensures Cond(c, s'.shared) { assert Saw(s.pcs[p], c); }
  }

  lemma WakeWaiters(s: State, e: Event)
    requires Inv(s) && Enabled(s, e) && e.WakeAll?
    ensures WaitersOk(Apply(s, e))
  {
    var s' := Apply(s, e);
    assert s.lk == Some(e.p);
    forall p, c | p in s'.pcs && Waits(s'.pcs[p], c) ensures Cond(c, s'.shared) || Owed(s', c) {
      assert Waits(s.pcs[p], c) && c != s.pcs[e.p].c;
    }
    forall p, c | p in s'.pcs && Saw(s'.pcs[p], c) ensures Cond(c, s'.shared) { assert Saw(s.pcs[p], c); }
  }

  lemma OtherWaiters(s: State, e: Event)
    requires Inv(s) && Enabled(s, e) && !e.Step? && !e.Reset? && !e.WakeAll?
    ensures WaitersOk(Apply(s, e))
  {
    var s' := Apply(s, e);
    forall p, c | p in s'.pcs && Waits(s'.pcs[p], c) ensures Cond(c, s'.shared) || Owed(s', c) {
      assert if e.SleepDrop? && p == e.p then Saw(s.pcs[p], c) else Waits(s.pcs[p], c);
    }
    forall p, c | p in s'.pcs && Saw(s'.pcs[p], c) ensures Cond(c, s'.shared) { assert Saw(s.pcs[p], c); }
  }

  lemma Keeps(s: State, e: Event)
    requires Inv(s) && Enabled(s, e) && !(GivesUp(s, e) && ReaderWaits(s))
    ensures Inv(Apply(s, e))
  {
    KeepsLocks(s, e);
    KeepsCommit(s, e);
    hide WaitersOk, LocksOk, CommitOk;
    if e.Step? { StepWaiters(s, e); }
    else if e.Reset? { ResetWaiters(s, e); }
    else if e.WakeAll? { WakeWaiters(s, e); }
    else { OtherWaiters(s, e); }
  }

  /** When a writer gives up after storing bytes, and lets go of the lock, a wakeup has been
      lost exactly if a reader was waiting. */
  lemma GivingUpLosesIff(s: State, e: Event)
    requires Inv(s) && Enabled(s, e) && GivesUp(s, e)
    ensures Enabled(Apply(s, e), Release(e.p))
    ensures NoneLost(Apply(Apply(s, e), Release(e.p))) <==> !ReaderWaits(s)
  {
    var t := Apply(Apply(s, e), Release(e.p));
    assert s.lk == Some(e.p);
    if ReaderWaits(s) {
      var p :| p in s.pcs && Waits(s.pcs[p], NRead);
      assert Waits(t.pcs[p], NRead) && !Cond(NRead, t.shared);
    } else {
      Keeps(s, e);
      Keeps(Apply(s, e), Release(e.p));
    }
  }

  // ------------------------------------------------------------------------ whole runs

  ghost predicate ValidRun(s: State, es: seq<Event>)
    decreases |es|
  {
    es != [] ==> Enabled(s, es[0]) && ValidRun(Apply(s, es[0]), es[1..])
  }

  ghost function RunTo(s: State, es: seq<Event>): State
    requires ValidRun(s, es)
    decreases |es|
  {
    if es == [] then s else RunTo(Apply(s, es[0]), es[1..])
  }

  /** No writer gives up on a waiting reader after storing bytes. */
  ghost predicate Careful(s: State, es: seq<Event>)
    requires ValidRun(s, es)
    decreases |es|
  {
    es != [] ==> !(GivesUp(s, es[0]) && ReaderWaits(s)) && Careful(Apply(s, es[0]), es[1..])
  }

  lemma {:induction false} NoLostWakeup(s: State, es: seq<Event>)
    requires Inv(s) && ValidRun(s, es) && Careful(s, es)
    ensures Inv(RunTo(s, es)) && NoneLost(RunTo(s, es))
    decreases |es|
  {
    if es == [] {
      InvNoneLost(s);
    } else {
      Keeps(s, es[0]);
      NoLostWakeup(Apply(s, es[0]), es[1..]);
    }
  }

  /** The log and sleep locks never lose a wakeup, whatever happens. */
  lemma {:induction false} LogAndLocksNeverLose(s: State, es: seq<Event>)
    requires Inv(s) && ValidRun(s, es) && !s.shared.PipeS?
    ensures NoneLost(RunTo(s, es))
    decreases |es|
  {
    if es == [] {
      InvNoneLost(s);
    } else {
      Keeps(s, es[0]);
      LogAndLocksNeverLose(Apply(s, es[0]), es[1..]);
    }
  }

  /** Idle processes around an object nobody commits to. */
  lemma IdleOk(shared: Shared, pids: set<nat>)
    ensures Inv(State(shared, None, None, map p | p in pids :: Idle, {}))
  {
  }

  // --------------------------------------------------------------------- a lost wakeup

  ghost predicate Reaches(s: State, t: State) {
    exists es: seq<Event> :: ValidRun(s, es) && RunTo(s, es) == t
  }

  lemma {:induction false} RunSnoc(s: State, es: seq<Event>, e: Event)
    requires ValidRun(s, es) && Enabled(RunTo(s, es), e)
    ensures ValidRun(s, es + [e]) && RunTo(s, es + [e]) == Apply(RunTo(s, es), e)
    decreases |es|
  {
    if es == [] {
      assert (es + [e])[1..] == [];
    } else {
      RunSnoc(Apply(s, es[0]), es[1..], e);
      assert (es + [e])[1..] == es[1..] + [e];
    }
  }

  lemma ReachesNext(s: State, t: State, e: Event)
    requires Reaches(s, t) && Enabled(t, e)
    ensures Reaches(s, Apply(t, e))
  {
    var es: seq<Event> :| ValidRun(s, es) && RunTo(s, es) == t;
    RunSnoc(s, es, e);
  }

  /** A reader asleep on an empty pipe, and a writer inside with left bytes to go, after k. */
  function Filling(k: nat, left: nat, killed: set<nat>): State {
    State(PipeS(0, k, true, true), Some(2), None,
          map[1 := Asleep(NRead, Read(1)), 2 := Inside(Write(left, k > 0))], killed)
  }

  lemma {:induction false} FillingReached(s: State, k: nat, left: nat)
    requires Reaches(s, Filling(0, left, {})) && k <= left && k <= PIPESIZE
    ensures Reaches(s, Filling(k, left - k, {}))
  {
    if k > 0 {
      FillingReached(s, k - 1, left);
      var t := Filling(k - 1, left - k + 1, {});
      ReachesNext(s, t, Step(2));
      assert Apply(t, Step(2)) == Filling(k, left - k, {});
    }
  }

  /** Two idle processes and an empty pipe. */
  function Start0(): State {
    State(PipeS(0, 0, true, true), None, None, map[1 := Idle, 2 := Idle], {})
  }

  /** Reader 1 with program counter pc, writer 2 idle, the pipe empty. */
  function Reading(lk: Option<nat>, pt: Option<nat>, pc: Pc, killed: set<nat>): State {
    State(PipeS(0, 0, true, true), lk, pt, map[1 := pc, 2 := Idle], killed)
  }

  lemma ReachesSelf(s: State)
    ensures Reaches(s, s)
  {
    var es: seq<Event> := [];
    assert ValidRun(s, es) && RunTo(s, es) == s;
  }

  lemma ReaderInside()
    ensures Reaches(Start0(), Reading(Some(1), None, Sleep0(NRead, Read(1)), {}))
  {
    hide Reaches;
    var s0 := Start0();
    ReachesSelf(s0);
    ReachesNext(s0, s0, Start(1, Read(1)));
    var s1 := Reading(None, None, Outside(Read(1)), {});
    assert Apply(s0, Start(1, Read(1))) == s1;
    ReachesNext(s0, s1, Acquire(1));
    var s2 := Reading(Some(1), None, Inside(Read(1)), {});
    assert Apply(s1, Acquire(1)) == s2;
    ReachesNext(s0, s2, Step(1));
    assert Apply(s2, Step(1)) == Reading(Some(1), None, Sleep0(NRead, Read(1)), {});
  }

  lemma ReaderSleeps(killed: set<nat>)
    requires Reaches(Start0(), Reading(Some(1), None, Sleep0(NRead, Read(1)), killed))
    ensures Reaches(Start0(), Reading(None, None, Asleep(NRead, Read(1)), killed))
  {
    hide Reaches;
    var s0, s3 := Start0(), Reading(Some(1), None, Sleep0(NRead, Read(1)), killed);
    ReachesNext(s0, s3, SleepLock(1));
    var s4 := Reading(Some(1), Some(1), Sleep1(NRead, Read(1)), killed);
    assert Apply(s3, SleepLock(1)) == s4;
    ReachesNext(s0, s4, SleepDrop(1));
    var s5 := Reading(None, Some(1), Sleep2(NRead, Read(1)), killed);
    assert Apply(s4, SleepDrop(1)) == s5;
    ReachesNext(s0, s5, SleepCommit(1));
    assert Apply(s5, SleepCommit(1)) == Reading(None, None, Asleep(NRead, Read(1)), killed);
  }

  lemma SleeperReached(left: nat)
    ensures Reaches(Start0(), Filling(0, left, {}))
  {
    hide Reaches;
    ReaderInside();
    ReaderSleeps({});
    var s0, s6 := Start0(), Reading(None, None, Asleep(NRead, Read(1)), {});
    ReachesNext(s0, s6, Start(2, Write(left, false)));
    var s7 := Apply(s6, Start(2, Write(left, false)));
    ReachesNext(s0, s7, Acquire(2));
    assert Apply(s7, Acquire(2)) == Filling(0, left, {});
  }

  /** A writer of more than 512 bytes that is killed once the pipe is full leaves a reader
      asleep beside a full pipe, with the lock free. */
  lemma WakeupCanBeLost()
    ensures exists t :: Reaches(Start0(), t) && !NoneLost(t) && 1 in t.pcs && t.pcs[1].Asleep? && t.shared == PipeS(0, PIPESIZE, true, true)
  {
    hide Reaches;
    SleeperReached(PIPESIZE + 1);
    FillingReached(Start0(), PIPESIZE, PIPESIZE + 1);
    var a := Filling(PIPESIZE, 1, {});
    ReachesNext(Start0(), a, Kill(2));
    var b := Apply(a, Kill(2));
    ReachesNext(Start0(), b, Step(2));
    var c := Apply(b, Step(2));
    ReachesNext(Start0(), c, Release(2));
    var t := Apply(c, Release(2));
    assert Waits(t.pcs[1], NRead) && !Cond(NRead, t.shared);
  }

  // ------------------------------------------------------------------------------ kill

  /** Past the test of killed and on its way to sleep: a kill now goes unseen until the next
      wakeup. */
  predicate InWindow(pc: Pc) {
    pc.Sleep0? || pc.Sleep1? || (pc.Wake? && pc.after.SleepOn?)
  }

  /** In the window or in the sleep it leads to. */
  predicate Drowsy(pc: Pc) {
    InWindow(pc) || pc.Sleep2? || pc.Asleep?
  }

  lemma WindowIsSaw(pc: Pc)
    ensures InWindow(pc) <==> exists c :: Saw(pc, c)
  {
    if InWindow(pc) { assert Saw(pc, if pc.Wake? then pc.after.c else pc.c); }
  }

  /** A routine on a pipe that tests killed and finds it set does not go on to sleep. */
  lemma KilledRunStays(op: Op, s: Shared)
    requires Legal(op, s) && s.PipeS?
    ensures var r := Run(op, s, true); !Drowsy(r.1) && r.0.PipeS?
  {
  }

  lemma KilledStepStays(s: State, e: Event, q: nat)
    requires Enabled(s, e) && s.shared.PipeS? && q in s.killed && q in s.pcs && !Drowsy(s.pcs[q])
    ensures var t := Apply(s, e); t.shared.PipeS? && q in t.killed && q in t.pcs && !Drowsy(t.pcs[q])
  {
    if e.Step? && e.p == q { KilledRunStays(s.pcs[q].op, s.shared); }
  }

  /** Once a killed process is not on its way to sleep, it never sleeps on the pipe again. */
  lemma {:induction false} KilledStaysAwake(s: State, es: seq<Event>, q: nat)
    requires ValidRun(s, es) && s.shared.PipeS? && q in s.killed && q in s.pcs && !Drowsy(s.pcs[q])
    ensures var t := RunTo(s, es); q in t.pcs && !Drowsy(t.pcs[q])
    decreases |es|
  {
    hide Drowsy, Enabled, Apply;
    if es != [] {
      KilledStepStays(s, es[0], q);
      KilledStaysAwake(Apply(s, es[0]), es[1..], q);
    }
  }

  /** From the window nothing else can happen to a process than to fall asleep. */
  lemma WindowSleeps(s: State, q: nat)
    requires LocksOk(s) && q in s.pcs && s.pt == None && InWindow(s.pcs[q])
    ensures exists t :: Reaches(s, t) && q in t.pcs && t.pcs[q].Asleep? && t.killed == s.killed
  {
    ReachesSelf(s);
    hide Reaches;
    var a := s;
    if s.pcs[q].Wake? {
      ReachesNext(s, s, WakeAll(q));
      a := Apply(s, WakeAll(q));
    }
    ReachesNext(s, a, SleepLock(q));
    var b := Apply(a, SleepLock(q));
    ReachesNext(s, b, SleepDrop(q));
    var c := Apply(b, SleepDrop(q));
    ReachesNext(s, c, SleepCommit(q));
    assert Apply(c, SleepCommit(q)).pcs[q].Asleep?;
  }

  ghost predicate SleepsAfter(s: State, q: nat) {
    exists t :: Reaches(s, t) && q in t.pcs && t.pcs[q].Asleep?
  }

  /** After a kill the process can still fall asleep on the pipe exactly when the kill came
      between its test of killed and its sleep. */
  lemma KillMissedIff(s: State, q: nat)
    requires Inv(s) && s.shared.PipeS? && Enabled(s, Kill(q))
    ensures SleepsAfter(Apply(s, Kill(q)), q) <==> exists c :: Saw(s.pcs[q], c)
  {
    var s' := Apply(s, Kill(q));
    WindowIsSaw(s.pcs[q]);
    if InWindow(s.pcs[q]) {
      KeepsLocks(s, Kill(q));
      WindowSleeps(s', q);
    } else {
      assert !HoldsPt(s.pcs[q]) && !Drowsy(s'.pcs[q]);
      forall t | Reaches(s', t) && q in t.pcs ensures !t.pcs[q].Asleep? {
        var es: seq<Event> :| ValidRun(s', es) && RunTo(s', es) == t;
        KilledStaysAwake(s', es, q);
      }
    }
  }

  /** Kill number i of the run hits q in the window. */
  ghost predicate MissedKill(s: State, es: seq<Event>, i: nat, q: nat)
    requires ValidRun(s, es)
    decreases |es|
  {
    es != [] && if i == 0 then es[0] == Kill(q) && q in s.pcs && InWindow(s.pcs[q])
                else MissedKill(Apply(s, es[0]), es[1..], i - 1, q)
  }

  lemma KillStep(s: State, e: Event, q: nat)
    requires LocksOk(s) && Enabled(s, e) && s.shared.PipeS? && q in s.pcs && q !in s.killed
    ensures var t := Apply(s, e); LocksOk(t) && t.shared.PipeS? && q in t.pcs && (q in t.killed <==> e == Kill(q))
    ensures e == Kill(q) && Drowsy(Apply(s, e).pcs[q]) ==> InWindow(s.pcs[q])
  {
    KeepsLocks(s, e);
    assert HoldsPt(s.pcs[q]) ==> s.pt == Some(q);
  }

  /** In every run on a pipe, a killed process that sleeps, or is about to, was killed in the
      window. */
  lemma {:induction false} KilledSleeperWasMissed(s: State, es: seq<Event>, q: nat)
    requires LocksOk(s) && ValidRun(s, es) && s.shared.PipeS? && q in s.pcs && q !in s.killed
    requires var t := RunTo(s, es); q in t.killed && q in t.pcs && Drowsy(t.pcs[q])
    ensures exists i: nat :: MissedKill(s, es, i, q)
    decreases |es|
  {
    hide Drowsy, InWindow, Enabled, Apply, LocksOk;
    if es != [] {
      var t := Apply(s, es[0]);
      KillStep(s, es[0], q);
      if es[0] == Kill(q) {
        if !Drowsy(t.pcs[q]) { KilledStaysAwake(t, es[1..], q); }
        assert MissedKill(s, es, 0, q);
      } else {
        KilledSleeperWasMissed(t, es[1..], q);
        var i: nat :| MissedKill(t, es[1..], i, q);
        assert MissedKill(s, es, i + 1, q);
      }
    }
  }

  /** begin_op and acquiresleep do not look at killed. */
  lemma LogAndLocksIgnoreKill(op: Op, s: Shared)
    requires Legal(op, s) && !s.PipeS?
    ensures Run(op, s, true) == Run(op, s, false)
  {
  }

  /** What a process does that is asleep in begin_op or acquiresleep. */
  predicate AsleepIn(pc: Pc, op: Op, c: Chan) {
    pc == Asleep(c, op) && ((op.Begin? && c == LogC) || (op.AcquireS? && c == LockC))
  }

  /** So a killed process that waits for the log or a sleep lock goes back to sleep, as long as
      what it waits for has not happened. */
  lemma KilledSleepsOn(s: State, q: nat, op: Op, c: Chan)
    requires Inv(s) && s.lk == None && s.pt == None && q in s.pcs && AsleepIn(s.pcs[q], op, c)
    ensures SleepsAfter(Apply(s, Kill(q)), q)
  {
    assert Waits(s.pcs[q], c) && Cond(c, s.shared);
    var s0 := Apply(s, Kill(q));
    ReachesSelf(s0);
    hide Reaches, Inv;
    ReachesNext(s0, s0, Acquire(q));
    var a := Apply(s0, Acquire(q));
    ReachesNext(s0, a, Step(q));
    var b := Apply(a, Step(q));
    ReachesNext(s0, b, SleepLock(q));
    var d := Apply(b, SleepLock(q));
    ReachesNext(s0, d, SleepDrop(q));
    var e := Apply(d, SleepDrop(q));
    ReachesNext(s0, e, SleepCommit(q));
    assert Apply(e, SleepCommit(q)).pcs[q].Asleep?;
  }
}
