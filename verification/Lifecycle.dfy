/** Process states, scheduling, fork, exit and wait (src/proc.c).  Every event is one section
    under ptable.lock, except that fork sets the child's parent without it. */
module Lifecycle {
  import opened Params

  datatype Status = Unused | Embryo | Sleeping | Runnable | Running | Zombie

  /** chan: Some(p) is the address of process p, on which wait sleeps; None any other. */
  datatype Proc = Proc(status: Status, pid: nat, parent: Option<nat>, chan: Option<nat>)

  /** cpus[c] is the process CPU c runs; forking maps a process inside fork to the slot of its
      child; reaped lists the pids wait has returned, oldest first. */
  datatype State = State(procs: seq<Proc>, cpus: seq<Option<nat>>, forking: map<nat, nat>,
                         nextpid: nat, exited: set<nat>, reaped: seq<nat>)

  const INIT := 0

  datatype Event =
    | Schedule(c: nat, p: nat)
    | Yield(c: nat)
    | Sleep(c: nat)
    | Wakeup(chan: Option<nat>)
    | Kill(p: nat)
    | Alloc(c: nat, slot: nat)
    | Fail(c: nat)
    | SetParent(c: nat)
    | Launch(c: nat)
    | Abandon(c: nat)
    | Exit(c: nat)
    | WaitSleep(c: nat)
    | Reap(c: nat, child: nat)

  predicate OnCpu(s: State, c: nat) {
    c < |s.cpus| && s.cpus[c].Some? && s.cpus[c].value < |s.procs|
  }

  /** The process CPU c runs. */
  function Cur(s: State, c: nat): nat
    requires OnCpu(s, c)
  {
    s.cpus[c].value
  }

  predicate IsChild(s: State, p: nat, parent: nat) {
    p < |s.procs| && s.procs[p].parent == Some(parent)
  }

  ghost predicate HasZombie(s: State, parent: nat) {
    exists p: nat :: IsChild(s, p, parent) && s.procs[p].status == Zombie
  }

  ghost predicate HasKids(s: State, parent: nat) {
    exists p: nat :: IsChild(s, p, parent)
  }

  predicate Forking(s: State, c: nat) {
    OnCpu(s, c) && Cur(s, c) in s.forking && s.forking[Cur(s, c)] < |s.procs|
  }

  function Child(s: State, c: nat): nat
    requires Forking(s, c)
  {
    s.forking[Cur(s, c)]
  }

  ghost predicate Enabled(s: State, e: Event) {
    match e
    case Schedule(c, p) => c < |s.cpus| && s.cpus[c] == None && p < |s.procs| && s.procs[p].status == Runnable
    case Yield(c) => OnCpu(s, c)
    case Sleep(c) => OnCpu(s, c)
    case Wakeup(_) => true
    case Kill(p) => p < |s.procs|
    case Alloc(c, slot) =>
      OnCpu(s, c) && Cur(s, c) !in s.forking && slot < |s.procs| && s.procs[slot].status == Unused
    case Fail(c) => Forking(s, c) && s.procs[Child(s, c)].parent == None
    case SetParent(c) => Forking(s, c)
    case Launch(c) => Forking(s, c) && s.procs[Child(s, c)].parent == Some(Cur(s, c))
    case Abandon(c) => Forking(s, c) && s.procs[Child(s, c)].parent == Some(Cur(s, c))
    case Exit(c) => OnCpu(s, c) && Cur(s, c) !in s.forking && Cur(s, c) != INIT && INIT < |s.procs|
    case WaitSleep(c) =>
      OnCpu(s, c) && Cur(s, c) !in s.forking && HasKids(s, Cur(s, c)) && !HasZombie(s, Cur(s, c))
    case Reap(c, child) =>
      && OnCpu(s, c) && Cur(s, c) !in s.forking
      && IsChild(s, child, Cur(s, c)) && s.procs[child].status == Zombie
  }

  /** wakeup1. */
  function Woken(procs: seq<Proc>, chan: Option<nat>): (r: seq<Proc>)
    ensures |r| == |procs|
    ensures forall i :: 0 <= i < |r| ==> r[i] == WokenOne(procs[i], chan)
  {
    seq(|procs|, i requires 0 <= i < |procs| => WokenOne(procs[i], chan))
  }

  function WokenOne(p: Proc, chan: Option<nat>): Proc {
    if p.status == Sleeping && p.chan == chan then p.(status := Runnable) else p
  }

  /** Children of p are given to init. */
  function Adopted(procs: seq<Proc>, p: nat): (r: seq<Proc>)
    ensures |r| == |procs|
    ensures forall i :: 0 <= i < |r| ==> r[i] == AdoptedOne(procs[i], p)
  {
    seq(|procs|, i requires 0 <= i < |procs| => AdoptedOne(procs[i], p))
  }

  function AdoptedOne(q: Proc, p: nat): Proc {
    if q.parent == Some(p) then q.(parent := Some(INIT)) else q
  }

  ghost function WakeInit(procs: seq<Proc>, p: nat): seq<Proc> {
    if exists i :: 0 <= i < |procs| && procs[i].parent == Some(p) && procs[i].status == Zombie
    then Woken(procs, Some(INIT)) else procs
  }

  /** exit: wake the parent, hand the children over, wake init if one of them is a zombie,
      become a zombie. */
  ghost function Exited(procs: seq<Proc>, p: nat): seq<Proc>
    requires p < |procs|
  {
    var a := Woken(procs, procs[p].parent);
    var b := Adopted(WakeInit(a, p), p);
    assert |b| == |procs|;
    b[p := b[p].(status := Zombie)]
  }

  function Off(s: State, c: nat, p: Proc): State
    requires OnCpu(s, c)
  {
    s.(procs := s.procs[Cur(s, c) := p], cpus := s.cpus[c := None])
  }

  ghost function Apply(s: State, e: Event): State
    requires Enabled(s, e)
  {
    match e
    case Schedule(c, p) => s.(procs := s.procs[p := s.procs[p].(status := Running)], cpus := s.cpus[c := Some(p)])
    case Yield(c) => Off(s, c, s.procs[Cur(s, c)].(status := Runnable))
    case Sleep(c) => Off(s, c, s.procs[Cur(s, c)].(status := Sleeping, chan := None))
    case Wakeup(chan) => s.(procs := Woken(s.procs, chan))
    case Kill(p) =>
      if s.procs[p].status == Sleeping then s.(procs := s.procs[p := s.procs[p].(status := Runnable)]) else s
    case Alloc(c, slot) =>
      s.(procs := s.procs[slot := s.procs[slot].(status := Embryo, pid := s.nextpid)],
         forking := s.forking[Cur(s, c) := slot], nextpid := s.nextpid + 1)
    case Fail(c) =>
      s.(procs := s.procs[Child(s, c) := s.procs[Child(s, c)].(status := Unused)], forking := s.forking - {Cur(s, c)})
    case SetParent(c) => s.(procs := s.procs[Child(s, c) := s.procs[Child(s, c)].(parent := Some(Cur(s, c)))])
    case Launch(c) =>
      s.(procs := s.procs[Child(s, c) := s.procs[Child(s, c)].(status := Runnable)], forking := s.forking - {Cur(s, c)})
    case Abandon(c) => s.(forking := s.forking - {Cur(s, c)})
    case Exit(c) =>
      s.(procs := Exited(s.procs, Cur(s, c)), cpus := s.cpus[c := None], exited := s.exited + {s.procs[Cur(s, c)].pid})
    case WaitSleep(c) => Off(s, c, s.procs[Cur(s, c)].(status := Sleeping, chan := Some(Cur(s, c))))
    case Reap(c, child) =>
      s.(procs := s.procs[child := Proc(Unused, 0, None, s.procs[child].chan)], reaped := s.reaped + [s.procs[child].pid])
  }

  // ------------------------------------------------------------------------- invariant

  predicate Alive(st: Status) {
    st == Sleeping || st == Runnable || st == Running
  }

  /** A process is RUNNING exactly when a CPU runs it, and then only one does. */
  ghost predicate CpusOk(s: State) {
    && (forall c :: 0 <= c < |s.cpus| && s.cpus[c].Some? ==>
          s.cpus[c].value < |s.procs| && s.procs[s.cpus[c].value].status == Running)
    && (forall c, d :: 0 <= c < d < |s.cpus| && s.cpus[c].Some? ==> s.cpus[c] != s.cpus[d])
    && (forall p :: 0 <= p < |s.procs| && s.procs[p].status == Running ==> exists c :: 0 <= c < |s.cpus| && s.cpus[c] == Some(p))
  }

  /** A parent is alive; every started process but init has one; unused slots have none. */
  ghost predicate FamilyOk(s: State) {
    && INIT < |s.procs| && Alive(s.procs[INIT].status) && s.procs[INIT].parent == None
    && (forall p: nat :: p < |s.procs| ==> ParentOk(s, p))
  }

  ghost predicate ParentOk(s: State, p: nat)
    requires p < |s.procs|
  {
    var q := s.procs[p];
    && (q.parent.Some? ==> q.parent.value != p && q.parent.value < |s.procs| && Alive(s.procs[q.parent.value].status) && q.status != Unused)
    && ((Alive(q.status) || q.status == Zombie) && p != INIT ==> q.parent.Some?)
  }

  ghost predicate ForkOk(s: State) {
    && (forall p :: p in s.forking ==> p < |s.procs| && Alive(s.procs[p].status))
    && (forall p :: p in s.forking ==> s.forking[p] < |s.procs| && s.procs[s.forking[p]].status == Embryo)
    && (forall p :: p in s.forking ==> s.procs[s.forking[p]].parent == None || s.procs[s.forking[p]].parent == Some(p))
    && (forall p, q :: p in s.forking && q in s.forking && s.forking[p] == s.forking[q] ==> p == q)
  }

  /** No lost wakeup in wait: whoever sleeps for a child has no zombie child. */
  ghost predicate WaitOk(s: State) {
    forall p: nat, q: nat :: WaitsFor(s, p) && IsChild(s, q, p) ==> s.procs[q].status != Zombie
  }

  /** Whoever sleeps for a child has one. */
  ghost predicate KidsOk(s: State) {
    forall p: nat :: WaitsFor(s, p) ==> HasKids(s, p)
  }

  predicate WaitsFor(s: State, p: nat) {
    p < |s.procs| && s.procs[p].status == Sleeping && s.procs[p].chan == Some(p)
  }

  /** pids are unique; what has exited is a zombie or has been reaped, not both, and nothing
      is reaped twice. */
  ghost predicate PidsOk(s: State) {
    && (forall p :: 0 <= p < |s.procs| && s.procs[p].status != Unused ==> s.procs[p].pid < s.nextpid)
    && (forall p, q :: 0 <= p < q < |s.procs| && s.procs[p].status != Unused && s.procs[q].status != Unused ==>
          s.procs[p].pid != s.procs[q].pid)
    && (forall p :: 0 <= p < |s.procs| && s.procs[p].status != Unused ==> s.procs[p].pid !in s.reaped)
    && (forall p :: 0 <= p < |s.procs| && s.procs[p].status != Unused ==>
          (s.procs[p].pid in s.exited <==> s.procs[p].status == Zombie))
    && (forall i :: 0 <= i < |s.reaped| ==> s.reaped[i] in s.exited && s.reaped[i] < s.nextpid)
    && (forall i, j :: 0 <= i < j < |s.reaped| ==> s.reaped[i] != s.reaped[j])
    && (forall x :: x in s.exited ==> x < s.nextpid && (x in s.reaped || ZombiePid(s, x)))
  }

  ghost predicate ZombiePid(s: State, x: nat) {
    exists p :: 0 <= p < |s.procs| && s.procs[p].status == Zombie && s.procs[p].pid == x
  }

  ghost predicate Inv(s: State) {
    CpusOk(s) && FamilyOk(s) && ForkOk(s) && WaitOk(s) && KidsOk(s) && PidsOk(s)
  }

  // ---------------------------------------------------------------------- preservation

  /** What exit does to one slot. */
  lemma ExitedAt(procs: seq<Proc>, p: nat, i: nat)
    requires p < |procs| && i < |procs|
    ensures |Exited(procs, p)| == |procs|
    ensures var q, r := procs[i], Exited(procs, p)[i];
      && r.pid == q.pid && r.chan == q.chan
      && r.parent == (if q.parent == Some(p) then Some(INIT) else q.parent)
      && (i == p ==> r.status == Zombie)
      && (i != p ==> r.status == q.status || (q.status == Sleeping && r.status == Runnable))
      && (i != p && q.status == Sleeping && q.chan == procs[p].parent ==> r.status == Runnable)
  {
  }

  predicate Leaves(e: Event) {
    e.Yield? || e.Sleep? || e.WaitSleep? || e.Exit?
  }

  /** What an event does to the RUNNING processes and the CPUs. */
  lemma RunningAfter(s: State, e: Event, i: nat)
    requires Enabled(s, e) && i < |s.procs| && (IsFork(e) && !e.Alloc? ==> s.procs[Child(s, e.c)].status == Embryo)
    ensures var s' := Apply(s, e);
      && |s'.procs| == |s.procs|
      && (s'.procs[i].status == Running <==>
            (s.procs[i].status == Running && !(Leaves(e) && i == Cur(s, e.c))) || (e.Schedule? && i == e.p))
  {
    if e.Exit? { ExitedAt(s.procs, Cur(s, e.c), i); }
  }

  lemma CpusAfter(s: State, e: Event)
    requires Enabled(s, e)
    ensures Apply(s, e).cpus
      == if Leaves(e) then s.cpus[e.c := None] else if e.Schedule? then s.cpus[e.c := Some(e.p)] else s.cpus
  {
  }

  /** Running(s', i) in terms of the CPUs' change. */
  ghost predicate RunningMoves(s: State, s': State, out: Option<nat>, into: Option<nat>) {
    && |s'.procs| == |s.procs|
    && forall i: nat :: i < |s.procs| ==>
         (s'.procs[i].status == Running <==> (s.procs[i].status == Running && out != Some(i)) || into == Some(i))
  }

  lemma CpuLeaves(s: State, s': State, c: nat)
    requires CpusOk(s) && OnCpu(s, c) && s'.cpus == s.cpus[c := None] && RunningMoves(s, s', s.cpus[c], None)
    ensures CpusOk(s')
  {
    forall p | 0 <= p < |s'.procs| && s'.procs[p].status == Running
      ensures exists d :: 0 <= d < |s'.cpus| && s'.cpus[d] == Some(p)
    {
      var d :| 0 <= d < |s.cpus| && s.cpus[d] == Some(p);
      assert s'.cpus[d] == Some(p);
    }
  }

  lemma CpuEnters(s: State, s': State, c: nat, p: nat)
    requires CpusOk(s) && c < |s.cpus| && s.cpus[c] == None && p < |s.procs| && s.procs[p].status != Running
    requires s'.cpus == s.cpus[c := Some(p)] && RunningMoves(s, s', None, Some(p))
    ensures CpusOk(s')
  {
    forall q | 0 <= q < |s'.procs| && s'.procs[q].status == Running
      ensures exists d :: 0 <= d < |s'.cpus| && s'.cpus[d] == Some(q)
    {
      if q == p { assert s'.cpus[c] == Some(p); }
      else { var d :| 0 <= d < |s.cpus| && s.cpus[d] == Some(q); assert s'.cpus[d] == Some(q); }
    }
  }

  lemma KeepsCpus(s: State, e: Event)
    requires CpusOk(s) && ForkOk(s) && FamilyOk(s) && Enabled(s, e)
    ensures CpusOk(Apply(s, e))
  {
    var s' := Apply(s, e);
    assert IsFork(e) && !e.Alloc? ==> s.procs[Child(s, e.c)].status == Embryo;
    RunningAfter(s, e, INIT);
    forall i: nat | i < |s.procs|
      ensures s'.procs[i].status == Running <==>
        (s.procs[i].status == Running && !(Leaves(e) && i == Cur(s, e.c))) || (e.Schedule? && i == e.p)
    {
      RunningAfter(s, e, i);
    }
    CpusAfter(s, e);
    hide Apply, ForkOk, FamilyOk;
    if Leaves(e) { CpuLeaves(s, s', e.c); }
    else if e.Schedule? { CpuEnters(s, s', e.c, e.p); }
  }

  /** Events that leave every parent link and the line between alive and not alone. */
  lemma QuietFamily(s: State, e: Event)
    requires CpusOk(s) && FamilyOk(s) && Enabled(s, e) && !e.Exit? && !IsFork(e) && !e.Reap?
    ensures FamilyOk(Apply(s, e))
  {
    var s' := Apply(s, e);
    forall i: nat | i < |s.procs|
      ensures |s'.procs| == |s.procs| && s'.procs[i].parent == s.procs[i].parent
      ensures Alive(s'.procs[i].status) <==> Alive(s.procs[i].status)
      ensures !Alive(s.procs[i].status) ==> s'.procs[i].status == s.procs[i].status
    {
    }
    assert ParentOk(s, INIT);
    hide Apply, CpusOk;
    forall i: nat | i < |s.procs| ensures ParentOk(s', i) { assert ParentOk(s, i); }
  }

  lemma ForkFamily(s: State, e: Event)
    requires CpusOk(s) && ForkOk(s) && FamilyOk(s) && Enabled(s, e) && IsFork(e) && !e.Alloc?
    ensures FamilyOk(Apply(s, e))
  {
    var s', x, k := Apply(s, e), Cur(s, e.c), Child(s, e.c);
    assert s.procs[x].status == Running && s.procs[k].status == Embryo && x != k;
    assert ParentOk(s, INIT) && ParentOk(s, k);
    hide CpusOk, ForkOk;
    forall i: nat | i < |s.procs| ensures |s'.procs| == |s.procs| && ParentOk(s', i) { assert ParentOk(s, i); }
  }

  lemma SlotFamily(s: State, e: Event)
    requires CpusOk(s) && FamilyOk(s) && Enabled(s, e) && (e.Alloc? || e.Reap?)
    ensures FamilyOk(Apply(s, e))
  {
    var s', k := Apply(s, e), if e.Alloc? then e.slot else e.child;
    assert ParentOk(s, INIT) && ParentOk(s, k);
    hide CpusOk;
    forall i: nat | i < |s.procs| ensures |s'.procs| == |s.procs| && ParentOk(s', i) { assert ParentOk(s, i); }
  }

  lemma ExitFamily(s: State, e: Event)
    requires CpusOk(s) && FamilyOk(s) && Enabled(s, e) && e.Exit?
    ensures FamilyOk(Apply(s, e))
  {
    var s' := Apply(s, e);
    ExitedAt(s.procs, Cur(s, e.c), INIT);
    hide Exited;
    forall i: nat | i < |s.procs| ensures ParentOk(s', i) {
      ExitedAt(s.procs, Cur(s, e.c), i);
      assert ParentOk(s, i);
      if s.procs[i].parent.Some? { ExitedAt(s.procs, Cur(s, e.c), s.procs[i].parent.value); }
    }
  }

  predicate IsFork(e: Event) {
    e.Alloc? || e.Fail? || e.SetParent? || e.Launch? || e.Abandon?
  }

  lemma AllocFork(s: State, e: Event)
    requires CpusOk(s) && ForkOk(s) && FamilyOk(s) && Enabled(s, e) && e.Alloc?
    ensures ForkOk(Apply(s, e))
  {
    assert ParentOk(s, e.slot);
    assert s.procs[Cur(s, e.c)].status == Running;
  }

  lemma ForkFork(s: State, e: Event)
    requires ForkOk(s) && Enabled(s, e) && IsFork(e) && !e.Alloc?
    ensures ForkOk(Apply(s, e))
  {
    var s', x, k := Apply(s, e), Cur(s, e.c), Child(s, e.c);
    assert s'.forking == if e.SetParent? then s.forking else s.forking - {x};
    forall p | p in s'.forking
      ensures |s'.procs| == |s.procs| && s'.forking[p] == s.forking[p]
      ensures Alive(s'.procs[p].status) && s'.procs[s.forking[p]].status == Embryo
      ensures s'.procs[s.forking[p]].parent == None || s'.procs[s.forking[p]].parent == Some(p)
    {
      assert p in s.forking && s.procs[k].status == Embryo;
      assert p != x ==> s.forking[p] != k;
    }
    hide Apply;
  }

  /** Other events leave embryos alone and forking processes alive. */
  lemma EmbryosAlone(s: State, e: Event, i: nat)
    requires CpusOk(s) && Enabled(s, e) && !IsFork(e) && !e.Exit? && i < |s.procs|
    ensures |Apply(s, e).procs| == |s.procs| && Apply(s, e).forking == s.forking
    ensures Alive(s.procs[i].status) ==> Alive(Apply(s, e).procs[i].status)
    ensures s.procs[i].status == Embryo ==> Apply(s, e).procs[i] == s.procs[i]
  {
  }

  lemma OtherFork(s: State, e: Event)
    requires CpusOk(s) && ForkOk(s) && FamilyOk(s) && Enabled(s, e) && !IsFork(e) && !e.Exit?
    ensures ForkOk(Apply(s, e))
  {
    hide Apply, CpusOk, FamilyOk;
    var s' := Apply(s, e);
    InitIn(s);
    EmbryosAlone(s, e, INIT);
    forall i: nat | i < |s.procs|
      ensures Alive(s.procs[i].status) ==> Alive(s'.procs[i].status)
      ensures s.procs[i].status == Embryo ==> s'.procs[i] == s.procs[i]
    {
      EmbryosAlone(s, e, i);
    }
  }

  lemma InitIn(s: State)
    requires FamilyOk(s)
    ensures INIT < |s.procs|
  {
  }

  lemma ExitFork(s: State, e: Event)
    requires CpusOk(s) && FamilyOk(s) && ForkOk(s) && Enabled(s, e) && e.Exit?
    ensures ForkOk(Apply(s, e))
  {
    var s' := Apply(s, e);
    hide Exited;
    ExitedAt(s.procs, Cur(s, e.c), INIT);
    forall p | p in s.forking
      ensures |s'.procs| == |s.procs| && Alive(s'.procs[p].status) && s'.procs[s.forking[p]].status == Embryo
      ensures s'.procs[s.forking[p]].parent == None || s'.procs[s.forking[p]].parent == Some(p)
    {
      ExitedAt(s.procs, Cur(s, e.c), p);
      ExitedAt(s.procs, Cur(s, e.c), s.forking[p]);
    }
  }

  /** Nobody starts to wait except in wait, and nobody else becomes a zombie or a child. */
  lemma WaitAfter(s: State, e: Event, i: nat)
    requires Enabled(s, e) && !e.Exit? && i < |s.procs|
    requires IsFork(e) && !e.Alloc? ==> s.procs[Child(s, e.c)].status == Embryo
    ensures var s' := Apply(s, e);
      && |s'.procs| == |s.procs|
      && (WaitsFor(s', i) ==> WaitsFor(s, i) || (e.WaitSleep? && i == Cur(s, e.c)))
      && (s'.procs[i].status == Zombie ==> s.procs[i].status == Zombie && s'.procs[i].parent == s.procs[i].parent)
  {
  }

  lemma KeepsWait(s: State, e: Event)
    requires CpusOk(s) && ForkOk(s) && WaitOk(s) && Enabled(s, e) && !e.Exit?
    ensures WaitOk(Apply(s, e))
  {
    assert IsFork(e) && !e.Alloc? ==> s.procs[Child(s, e.c)].status == Embryo;
    hide CpusOk, ForkOk, Apply;
    var s' := Apply(s, e);
    forall p: nat, q: nat | WaitsFor(s', p) && IsChild(s', q, p) ensures s'.procs[q].status != Zombie {
      SameTable(s, e);
      WaitAfter(s, e, p);
      WaitAfter(s, e, q);
      assert s'.procs[q].status == Zombie ==> IsChild(s, q, p);
    }
  }

  lemma SameTable(s: State, e: Event)
    requires Enabled(s, e)
    ensures |Apply(s, e).procs| == |s.procs|
  {
    if e.Exit? { ExitedAt(s.procs, Cur(s, e.c), Cur(s, e.c)); }
  }

  lemma ExitWait(s: State, e: Event)
    requires CpusOk(s) && FamilyOk(s) && WaitOk(s) && Enabled(s, e) && e.Exit?
    ensures WaitOk(Apply(s, e))
  {
    var s', x := Apply(s, e), Cur(s, e.c);
    assert ParentOk(s, x);
    forall p: nat, q: nat | WaitsFor(s', p) && IsChild(s', q, p) ensures s'.procs[q].status != Zombie {
      ExitedAt(s.procs, x, p);
      ExitedAt(s.procs, x, q);
      assert WaitsFor(s, p);
      assert ParentOk(s, q);
      if s.procs[q].parent == Some(x) && s.procs[q].status == Zombie { InitAwake(s.procs, x, q); }
      assert s.procs[q].parent != Some(x) ==> IsChild(s, q, p);
    }
  }

  /** A child of a process that is not running itself stays its child. */
  lemma ChildStays(s: State, e: Event, q: nat, p: nat)
    requires CpusOk(s) && ForkOk(s) && Enabled(s, e) && IsChild(s, q, p) && p < |s.procs| && s.procs[p].status != Running
    ensures IsChild(Apply(s, e), q, p)
  {
    if e.Exit? { ExitedAt(s.procs, Cur(s, e.c), q); }
  }

  lemma WaiterWaited(s: State, e: Event, p: nat)
    requires CpusOk(s) && ForkOk(s) && Enabled(s, e) && WaitsFor(Apply(s, e), p)
    ensures WaitsFor(s, p) || (e.WaitSleep? && p == Cur(s, e.c))
  {
    if e.Exit? { ExitedAt(s.procs, Cur(s, e.c), Cur(s, e.c)); ExitedAt(s.procs, Cur(s, e.c), p); } else { WaitAfter(s, e, p); }
  }

  lemma KeepsKids(s: State, e: Event)
    requires CpusOk(s) && ForkOk(s) && KidsOk(s) && Enabled(s, e)
    ensures KidsOk(Apply(s, e))
  {
    hide CpusOk, ForkOk;
    var s' := Apply(s, e);
    forall p: nat | WaitsFor(s', p) ensures HasKids(s', p) {
      WaiterWaited(s, e, p);
      var q: nat :| IsChild(s, q, p);
      if WaitsFor(s, p) { ChildStays(s, e, q, p); } else { assert IsChild(s', q, p); }
    }
  }

  /** A zombie handed to init finds init awake. */
  lemma InitAwake(procs: seq<Proc>, x: nat, q: nat)
    requires x < |procs| && q < |procs| && q != x && procs[q].parent == Some(x) && procs[q].status == Zombie && INIT < |procs| && x != INIT
    ensures Exited(procs, x)[INIT].status == Sleeping ==> procs[INIT].chan != Some(INIT)
  {
    var a := Woken(procs, procs[x].parent);
    assert a[q].parent == Some(x) && a[q].status == Zombie;
  }

  // ------------------------------------------------------------------------------ pids

  /** Events that change no pid, exit nobody and reap nobody. */
  predicate Quiet(e: Event) {
    !e.Alloc? && !e.Fail? && !e.Exit? && !e.Reap?
  }

  lemma QuietPids(s: State, e: Event)
    requires CpusOk(s) && ForkOk(s) && PidsOk(s) && Enabled(s, e) && Quiet(e)
    ensures PidsOk(Apply(s, e))
  {
    var s' := Apply(s, e);
    forall i: nat | i < |s.procs|
      ensures |s'.procs| == |s.procs| && s'.procs[i].pid == s.procs[i].pid
      ensures s'.procs[i].status == Unused <==> s.procs[i].status == Unused
      ensures s'.procs[i].status == Zombie <==> s.procs[i].status == Zombie
    {
    }
    assert |s'.procs| == |s.procs| && s'.exited == s.exited && s'.reaped == s.reaped && s'.nextpid == s.nextpid;
    SamePids(s, s');
  }

  lemma SamePids(s: State, s': State)
    requires PidsOk(s) && |s'.procs| == |s.procs| && s'.exited == s.exited && s'.reaped == s.reaped && s'.nextpid == s.nextpid
    requires forall i: nat :: i < |s.procs| ==>
      && s'.procs[i].pid == s.procs[i].pid
      && (s'.procs[i].status == Unused <==> s.procs[i].status == Unused)
      && (s'.procs[i].status == Zombie <==> s.procs[i].status == Zombie)
    ensures PidsOk(s')
  {
    forall x | ZombiePid(s, x) ensures ZombiePid(s', x) {
      var p :| 0 <= p < |s.procs| && s.procs[p].status == Zombie && s.procs[p].pid == x;
      assert s'.procs[p].pid == x;
    }
  }

  lemma ZombieStays(s: State, s': State, x: nat)
    requires |s'.procs| == |s.procs| && ZombiePid(s, x)
    requires forall p: nat :: p < |s.procs| && s.procs[p].status == Zombie && s.procs[p].pid == x ==>
      s'.procs[p].status == Zombie && s'.procs[p].pid == x
    ensures ZombiePid(s', x)
  {
    var p :| 0 <= p < |s.procs| && s.procs[p].status == Zombie && s.procs[p].pid == x;
    assert s'.procs[p].pid == x;
  }

  lemma AllocPids(s: State, e: Event)
    requires PidsOk(s) && Enabled(s, e) && e.Alloc?
    ensures PidsOk(Apply(s, e))
  {
    var s' := Apply(s, e);
    forall x | x in s'.exited ensures x < s'.nextpid && (x in s'.reaped || ZombiePid(s', x)) {
      if x !in s.reaped { ZombieStays(s, s', x); }
    }
  }

  lemma FailPids(s: State, e: Event)
    requires ForkOk(s) && PidsOk(s) && Enabled(s, e) && e.Fail?
    ensures PidsOk(Apply(s, e))
  {
    var s' := Apply(s, e);
    forall x | x in s'.exited ensures x < s'.nextpid && (x in s'.reaped || ZombiePid(s', x)) {
      if x !in s.reaped { ZombieStays(s, s', x); }
    }
  }

  lemma ExitPids(s: State, e: Event)
    requires CpusOk(s) && PidsOk(s) && Enabled(s, e) && e.Exit?
    ensures PidsOk(Apply(s, e))
  {
    var s', x := Apply(s, e), Cur(s, e.c);
    forall i: nat | i < |s.procs|
      ensures |s'.procs| == |s.procs| && s'.procs[i].pid == s.procs[i].pid
      ensures s'.procs[i].status == Unused <==> s.procs[i].status == Unused
      ensures s'.procs[i].status == Zombie <==> s.procs[i].status == Zombie || i == x
    {
      ExitedAt(s.procs, x, i);
    }
    ExitedAt(s.procs, x, x);
    hide Exited;
    forall y | y in s'.exited ensures y < s'.nextpid && (y in s'.reaped || ZombiePid(s', y)) {
      if y == s.procs[x].pid { assert s'.procs[x].pid == y; }
      else if y !in s.reaped { ZombieStays(s, s', y); }
    }
  }

  lemma ReapPids(s: State, e: Event)
    requires PidsOk(s) && Enabled(s, e) && e.Reap?
    ensures PidsOk(Apply(s, e))
  {
    var s', x := Apply(s, e), s.procs[e.child].pid;
    assert s'.reaped[|s.reaped|] == x;
    forall y | y in s'.exited ensures y < s'.nextpid && (y in s'.reaped || ZombiePid(s', y)) {
      if y in s.reaped { assert y in s'.reaped; }
      else if y != x { ZombieStays(s, s', y); }
    }
  }

  lemma Keeps(s: State, e: Event)
    requires Inv(s) && Enabled(s, e)
    ensures Inv(Apply(s, e))
  {
    hide CpusOk, FamilyOk, ForkOk, WaitOk, KidsOk, PidsOk, Apply;
    KeepsCpus(s, e);
    KeepsKids(s, e);
    if e.Exit? {
      ExitFamily(s, e);
      ExitFork(s, e);
      ExitWait(s, e);
      ExitPids(s, e);
    } else {
      if e.Alloc? || e.Reap? { SlotFamily(s, e); } else if IsFork(e) { ForkFamily(s, e); } else { QuietFamily(s, e); }
      KeepsWait(s, e);
      if e.Alloc? { AllocFork(s, e); } else if IsFork(e) { ForkFork(s, e); } else { OtherFork(s, e); }
      if e.Alloc? { AllocPids(s, e); } else if e.Fail? { FailPids(s, e); } else if e.Reap? { ReapPids(s, e); } else { QuietPids(s, e); }
    }
  }

  // ------------------------------------------------------------------------ whole runs

  ghost predicate ValidRun(s: State, es: seq<Event>)
    decreases |es|
  {
    es != [] ==> Enabled(s, es[0]) && ValidRun(Apply(s, es[0]), es[1..])
  }

  ghost function RunTo(s: State, es: seq<Event>): State
    requires ValidRun(s, es)
    decreases |es|
  {
    if es == [] then s else RunTo(Apply(s, es[0]), es[1..])
  }

  lemma {:induction false} LifecycleSafe(s: State, es: seq<Event>)
    requires Inv(s) && ValidRun(s, es)
    ensures Inv(RunTo(s, es))
    decreases |es|
  {
    if es != [] {
      Keeps(s, es[0]);
      LifecycleSafe(Apply(s, es[0]), es[1..]);
    }
  }

  /** After any run: no pid has been reaped twice, and every process that has exited is either
      a zombie, whose parent is alive to reap it, or has been reaped. */
  lemma ReapedExactlyOnce(s: State, es: seq<Event>)
    requires Inv(s) && ValidRun(s, es)
    ensures var t := RunTo(s, es);
      && (forall i, j :: 0 <= i < j < |t.reaped| ==> t.reaped[i] != t.reaped[j])
      && (forall x :: x in t.exited ==> (x in t.reaped <==> !ZombiePid(t, x)))
      && (forall p :: 0 <= p < |t.procs| && t.procs[p].status == Zombie ==>
            t.procs[p].parent.Some? && t.procs[p].parent.value < |t.procs| && Alive(t.procs[t.procs[p].parent.value].status))
  {
    LifecycleSafe(s, es);
    var t := RunTo(s, es);
    forall p: nat | p < |t.procs| && t.procs[p].status == Zombie
      ensures t.procs[p].parent.Some? && t.procs[p].parent.value < |t.procs| && Alive(t.procs[t.procs[p].parent.value].status)
    {
      assert ParentOk(t, p);
    }
  }

  // ------------------------------------------------------------------- waiting for ever

  /** p sleeps in wait, and fork has left all its children unfinished. */
  ghost predicate Deserted(s: State, p: nat) {
    WaitsFor(s, p) && p != INIT && forall q: nat :: IsChild(s, q, p) ==> s.procs[q].status == Embryo
  }

  /** e wakes p by name: kill, or a wakeup of the channel that only exit uses. */
  predicate Pokes(e: Event, p: nat) {
    e == Kill(p) || e == Wakeup(Some(p))
  }

  /** What an event of others does to one slot, seen from a sleeping process p. */
  lemma SlotFrom(s: State, e: Event, p: nat, i: nat)
    requires CpusOk(s) && ForkOk(s) && FamilyOk(s) && Enabled(s, e) && !Pokes(e, p) && Deserted(s, p) && i < |s.procs|
    ensures |Apply(s, e).procs| == |s.procs|
    ensures IsChild(Apply(s, e), i, p) ==> IsChild(s, i, p) && Apply(s, e).procs[i].status == s.procs[i].status
  {
    assert ParentOk(s, i);
    if e.Exit? { ExitedAt(s.procs, Cur(s, e.c), i); }
  }

  lemma SleeperFrom(s: State, e: Event, p: nat)
    requires CpusOk(s) && ForkOk(s) && FamilyOk(s) && Enabled(s, e) && !Pokes(e, p) && Deserted(s, p)
    ensures WaitsFor(Apply(s, e), p)
  {
    if e.Exit? {
      var x := Cur(s, e.c);
      ExitedAt(s.procs, x, p);
      assert !IsChild(s, x, p);
      ExitSpares(s.procs, x, p);
    }
  }

  /** exit wakes only who sleeps on its parent's channel or on init's. */
  lemma ExitSpares(procs: seq<Proc>, x: nat, p: nat)
    requires x < |procs| && p < |procs| && p != x && procs[p].chan != procs[x].parent && procs[p].chan != Some(INIT)
    ensures Exited(procs, x)[p].status == procs[p].status
  {
  }

  lemma DesertedStep(s: State, e: Event, p: nat)
    requires Inv(s) && Enabled(s, e) && !Pokes(e, p) && Deserted(s, p)
    ensures Deserted(Apply(s, e), p)
  {
    hide WaitOk, KidsOk, PidsOk;
    SleeperFrom(s, e, p);
    var t := Apply(s, e);
    forall q: nat | IsChild(t, q, p) ensures t.procs[q].status == Embryo {
      SameTable(s, e);
      SlotFrom(s, e, p, q);
    }
  }

  ghost predicate NoPokes(es: seq<Event>, p: nat) {
    forall i :: 0 <= i < |es| ==> !Pokes(es[i], p)
  }

  lemma {:induction false} DesertedStays(s: State, es: seq<Event>, p: nat)
    requires Inv(s) && ValidRun(s, es) && NoPokes(es, p) && Deserted(s, p)
    ensures WaitsFor(RunTo(s, es), p)
    decreases |es|
  {
    hide Inv, Enabled, Apply, Pokes;
    if es != [] {
      Keeps(s, es[0]);
      DesertedStep(s, es[0], p);
      DesertedStays(Apply(s, es[0]), es[1..], p);
    }
  }

  /** Some run without a kill or a stray wakeup of p gets p out of its sleep. */
  ghost predicate CanWake(s: State, p: nat) {
    exists es :: ValidRun(s, es) && NoPokes(es, p) && !WaitsFor(RunTo(s, es), p)
  }

  lemma WakeCons(s: State, e: Event, p: nat)
    requires Enabled(s, e) && !Pokes(e, p) && CanWake(Apply(s, e), p)
    ensures CanWake(s, p)
  {
    var es :| ValidRun(Apply(s, e), es) && NoPokes(es, p) && !WaitsFor(RunTo(Apply(s, e), es), p);
    var all := [e] + es;
    assert all[1..] == es;
    assert ValidRun(s, all) && RunTo(s, all) == RunTo(Apply(s, e), es);
    assert NoPokes(all, p);
  }

  lemma WakeNow(s: State, p: nat)
    requires !WaitsFor(s, p)
    ensures CanWake(s, p)
  {
    var none: seq<Event> := [];
    assert ValidRun(s, none) && NoPokes(none, p) && !WaitsFor(RunTo(s, none), p);
  }

  /** A child on a CPU and not in fork exits. */
  lemma WakeByExit(s: State, p: nat, c: nat)
    requires Inv(s) && WaitsFor(s, p) && OnCpu(s, c) && IsChild(s, Cur(s, c), p) && Cur(s, c) !in s.forking
    ensures CanWake(s, p)
  {
    var q := Cur(s, c);
    ExitedAt(s.procs, q, p);
    assert q != INIT && p != q;
    var t := Apply(s, Exit(c));
    assert t.procs[p].status == Runnable;
    hide Inv, Enabled, Apply, CanWake, OnCpu;
    WakeNow(t, p);
    WakeCons(s, Exit(c), p);
  }

  /** A child on a CPU gives up what it is forking, if anything. */
  lemma WakeByForker(s: State, p: nat, c: nat)
    requires Inv(s) && WaitsFor(s, p) && OnCpu(s, c) && IsChild(s, Cur(s, c), p)
    ensures CanWake(s, p)
  {
    if Cur(s, c) !in s.forking {
      WakeByExit(s, p, c);
    } else {
      var k := Child(s, c);
      var e := if s.procs[k].parent == None then Fail(c) else Abandon(c);
      assert Enabled(s, e) && s.procs[k].status == Embryo;
      var t := Apply(s, e);
      assert WaitsFor(t, p) && OnCpu(t, c) && IsChild(t, Cur(t, c), p) && Cur(t, c) !in t.forking;
      Keeps(s, e);
      hide Inv, Enabled, Apply, CanWake;
      WakeByExit(t, p, c);
      WakeCons(s, e, p);
    }
  }

  /** A runnable child gets a CPU. */
  lemma WakeByRunnable(s: State, p: nat, q: nat)
    requires Inv(s) && WaitsFor(s, p) && IsChild(s, q, p) && s.procs[q].status == Runnable && |s.cpus| > 0
    ensures CanWake(s, p)
    decreases if s.cpus[0] == None then 0 else 1
  {
    if s.cpus[0] == None {
      var t := Apply(s, Schedule(0, q));
      assert WaitsFor(t, p) && OnCpu(t, 0) && IsChild(t, Cur(t, 0), p);
      Keeps(s, Schedule(0, q));
      hide Inv, Enabled, Apply, CanWake, OnCpu;
      WakeByForker(t, p, 0);
      WakeCons(s, Schedule(0, q), p);
    } else {
      var t := Apply(s, Yield(0));
      assert WaitsFor(t, p) && IsChild(t, q, p) && t.procs[q].status == Runnable && t.cpus[0] == None;
      Keeps(s, Yield(0));
      hide Inv, Enabled, Apply, CanWake;
      WakeByRunnable(t, p, q);
      WakeCons(s, Yield(0), p);
    }
  }

  lemma WakeByChild(s: State, p: nat, q: nat)
    requires Inv(s) && WaitsFor(s, p) && IsChild(s, q, p) && s.procs[q].status != Embryo && |s.cpus| > 0
    ensures CanWake(s, p)
  {
    assert ParentOk(s, q) && q != p;
    assert s.procs[q].status != Zombie && s.procs[q].status != Unused;
    if s.procs[q].status == Running {
      var c :| 0 <= c < |s.cpus| && s.cpus[c] == Some(q);
      WakeByForker(s, p, c);
    } else if s.procs[q].status == Runnable {
      WakeByRunnable(s, p, q);
    } else {
      var t := Apply(s, Kill(q));
      assert WaitsFor(t, p) && IsChild(t, q, p) && t.procs[q].status == Runnable;
      Keeps(s, Kill(q));
      hide Inv, Enabled, Apply, CanWake;
      WakeByRunnable(t, p, q);
      WakeCons(s, Kill(q), p);
    }
  }

  /** A process other than init that sleeps in wait can be woken by exits exactly when it has a
      child that fork did not leave unfinished. */
  lemma WaitForeverIff(s: State, p: nat)
    requires Inv(s) && WaitsFor(s, p) && p != INIT && |s.cpus| > 0
    ensures CanWake(s, p) <==> exists q: nat :: IsChild(s, q, p) && s.procs[q].status != Embryo
  {
    hide Inv, CanWake;
    if q: nat :| IsChild(s, q, p) && s.procs[q].status != Embryo {
      WakeByChild(s, p, q);
    } else {
      assert Deserted(s, p);
      NeverWakes(s, p);
    }
  }

  lemma NeverWakes(s: State, p: nat)
    requires Inv(s) && Deserted(s, p)
    ensures !CanWake(s, p)
  {
    forall es | ValidRun(s, es) && NoPokes(es, p) ensures WaitsFor(RunTo(s, es), p) { DesertedStays(s, es, p); }
  }

  /** The system after userinit: init runnable, everything else unused. */
  function Boot(slots: nat, ncpu: nat): State
    requires slots > 0
  {
    State(seq(slots, i => if i == INIT then Proc(Runnable, 1, None, None) else Proc(Unused, 0, None, None)),
          seq(ncpu, c => None), map[], 2, {}, [])
  }

  lemma BootOk(slots: nat, ncpu: nat)
    requires slots > 0
    ensures Inv(Boot(slots, ncpu))
  {
  }

  // ----------------------------------------------------------------- the table's loops

  class Table {
    var procs: seq<Proc>

    constructor (procs: seq<Proc>)
      ensures this.procs == procs
    {
      this.procs := procs;
    }

    method Wakeup1(chan: Option<nat>)
      modifies this
      ensures procs == Woken(old(procs), chan)
    {
      var i := 0;
      while i < |procs|
        invariant 0 <= i <= |procs| == |old(procs)|
        invariant forall j :: 0 <= j < |procs| ==> procs[j] == if j < i then WokenOne(old(procs)[j], chan) else old(procs)[j]
      {
        if procs[i].status == Sleeping && procs[i].chan == chan { procs := procs[i := procs[i].(status := Runnable)]; }
        i := i + 1;
      }
    }

    /** exit's section under ptable.lock. */
    method Exit(p: nat)
      requires p < |procs|
      modifies this
      ensures procs == Exited(old(procs), p)
    {
      Wakeup1(procs[p].parent);
      ghost var a := procs;
      ghost var seen := false;
      var i := 0;
      while i < |procs|
        invariant 0 <= i <= |procs| == |a|
        invariant seen <==> exists j :: 0 <= j < i && a[j].parent == Some(p) && a[j].status == Zombie
        invariant forall j :: 0 <= j < |procs| ==> procs[j] == HandOver(a[j], p, seen, j < i)
      {
        if procs[i].parent == Some(p) {
          procs := procs[i := procs[i].(parent := Some(INIT))];
          if procs[i].status == Zombie {
            Wakeup1(Some(INIT));
            seen := true;
          }
        }
        i := i + 1;
      }
      assert procs == Adopted(WakeInit(a, p), p);
      procs := procs[p := procs[p].(status := Zombie)];
    }

    /** wait's scan: the first zombie child, and whether there are children at all. */
    method FindZombie(parent: nat) returns (zombie: Option<nat>, kids: bool)
      ensures zombie.Some? ==> zombie.value < |procs| && procs[zombie.value].parent == Some(parent)
      ensures zombie.Some? ==> procs[zombie.value].status == Zombie
      ensures zombie.Some? ==>
        forall i :: 0 <= i < zombie.value && procs[i].parent == Some(parent) ==> procs[i].status != Zombie
      ensures zombie.None? ==> forall i :: 0 <= i < |procs| && procs[i].parent == Some(parent) ==> procs[i].status != Zombie
      ensures zombie.None? ==> (kids <==> exists i :: 0 <= i < |procs| && procs[i].parent == Some(parent))
    {
      kids := false;
      var i := 0;
      while i < |procs|
        invariant 0 <= i <= |procs|
        invariant forall j :: 0 <= j < i && procs[j].parent == Some(parent) ==> procs[j].status != Zombie
        invariant kids <==> exists j :: 0 <= j < i && procs[j].parent == Some(parent)
      {
        if procs[i].parent == Some(parent) {
          kids := true;
          if procs[i].status == Zombie { return Some(i), true; }
        }
        i := i + 1;
      }
      zombie := None;
    }
  }

  /** A slot in the middle of exit's loop. */
  function HandOver(q: Proc, p: nat, woken: bool, done: bool): Proc {
    var w := if woken then WokenOne(q, Some(INIT)) else q;
    if done then AdoptedOne(w, p) else w
  }
}
