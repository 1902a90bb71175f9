/** Every run of the storage machine, with crashes anywhere, refines a disk with
    atomic group commit: a volatile current contents and a durable contents. */
module StorageRefinement {
  import opened Params
  import opened DiskLog
  import opened Storage
  import LR = LogReservation

  // ---------------------------------------------------------------- invariant

  ghost function Refs(hs: map<nat, Handle>, i: nat): set<nat> {
    set h | h in hs && hs[h].buf == i
  }

  /** Someone has changed buffer i and not yet passed it to log_write. */
  ghost predicate Touched(s: State, i: nat) {
    exists h :: h in s.handles && s.handles[h].buf == i && s.handles[h].modified
  }

  /** Logged blocks whose latest contents live only in the cache or the log region. */
  function Pending(s: State): seq<nat> {
    match s.phase
    case Running => s.lh
    case WritingLog(_) => s.lh
    case Installing(t, recovering) => if recovering || t > |s.lh| then [] else s.lh[t..]
    case Finishing => []
    case Booting => []
  }

  ghost predicate Shape(l: Layout, s: State) {
    && WfDisk(l, s.disk)
    && |s.bufs| == NBUF
    && Listable(l, s.lh)
  }

  predicate EntryOk(l: Layout, e: Entry) {
    && (e.valid || e.refcnt > 0 ==> e.dev == ROOTDEV)
    && (e.dirty ==> e.valid)
    && (e.dev == ROOTDEV ==> e.blockno < l.total)
  }

  /** At most one buffer holds a given block of the device. */
  ghost predicate Unique(bufs: seq<Entry>) {
    forall i, j :: 0 <= i < j < |bufs| && bufs[i].dev == ROOTDEV && bufs[j].dev == ROOTDEV
                   ==> bufs[i].blockno != bufs[j].blockno
  }

  ghost predicate CacheOk(l: Layout, s: State)
    requires Shape(l, s)
  {
    && (forall i :: 0 <= i < NBUF ==> EntryOk(l, s.bufs[i]))
    && Unique(s.bufs)
  }

  predicate HandleOk(l: Layout, s: State, h: nat)
    requires h in s.handles
  {
    var a := s.handles[h];
    && a.buf < |s.bufs|
    && (a.locked ==> s.bufs[a.buf].locked)
    && (a.modified ==> Owns(s, h) && IsHome(l, BlockOf(s, h)) && InOp(s, h))
  }

  ghost predicate HandlesOk(l: Layout, s: State)
    requires Shape(l, s)
  {
    && (forall i :: 0 <= i < NBUF ==> s.bufs[i].refcnt == |Refs(s.handles, i)|)
    && (forall h :: h in s.handles ==> HandleOk(l, s, h))
    && (forall h, g :: h in s.handles && g in s.handles && h != g && s.handles[h].locked && s.handles[g].locked
                       ==> s.handles[h].buf != s.handles[g].buf)
  }

  ghost predicate DirtyFor(bufs: seq<Entry>, b: nat) {
    exists i :: 0 <= i < |bufs| && bufs[i].dirty && bufs[i].blockno == b
  }

  ghost predicate Coherent(l: Layout, s: State)
    requires Shape(l, s) && CacheOk(l, s)
  {
    && (forall i :: 0 <= i < NBUF && s.bufs[i].valid && !s.bufs[i].dirty && !Touched(s, i)
          ==> s.bufs[i].data == s.disk[s.bufs[i].blockno])
    && (forall i :: 0 <= i < NBUF && s.bufs[i].dirty ==> s.bufs[i].blockno in Pending(s))
    && (forall i :: 0 <= i < NBUF && s.bufs[i].valid && s.bufs[i].blockno in Pending(s) ==> s.bufs[i].dirty)
    && (forall b :: b in Pending(s) ==> DirtyFor(s.bufs, b))
  }

  /** The log block for entry k carries what the cache holds for that block. */
  ghost predicate LogHas(l: Layout, s: State, k: nat)
    requires Shape(l, s) && k < |s.lh|
  {
    && k + 1 < l.size
    && forall i :: 0 <= i < NBUF && s.bufs[i].dirty && s.bufs[i].blockno == s.lh[k]
         ==> s.bufs[i].data == LogAt(l, s.disk, k)
  }

  ghost predicate PhaseOk(l: Layout, s: State)
    requires Shape(l, s)
  {
    && (!s.phase.Running? ==> s.ops == map[])
    && (s.phase.Running? ==> HeadOf(l, s.disk) == [])
    && (s.phase.WritingLog? ==>
          && HeadOf(l, s.disk) == [] && s.phase.tail <= |s.lh|
          && forall k :: 0 <= k < s.phase.tail ==> LogHas(l, s, k))
    && (s.phase.Installing? ==>
          && HeadOf(l, s.disk) == s.lh && s.phase.tail <= |s.lh| < l.size
          && (forall k :: 0 <= k < |s.lh| ==> LogHas(l, s, k))
          && (forall k :: 0 <= k < s.phase.tail ==> s.disk[s.lh[k]] == LogAt(l, s.disk, k)))
    && (s.phase.Finishing? ==> HeadOf(l, s.disk) == [] && s.lh == [])
    && (s.phase.Booting? ==> s.lh == [])
  }

  ghost predicate Inv(l: Layout, s: State) {
    && Shape(l, s)
    && CacheOk(l, s)
    && HandlesOk(l, s)
    && Coherent(l, s)
    && PhaseOk(l, s)
  }

  // ------------------------------------------------------------ specification

  /** A disk with atomic group commit. */
  datatype Spec = Spec(current: map<nat, Block>, durable: map<nat, Block>, ops: set<nat>)

  ghost predicate SpecWrite(a: Spec, b: Spec, x: nat, v: Block) {
    a.ops != {} && x in a.current && b == a.(current := a.current[x := v])
  }

  /** Operations begin and end, write blocks while outstanding, and become durable all
      together when none is outstanding; a crash returns to the durable contents. */
  ghost predicate SpecNext(a: Spec, b: Spec) {
    || a == b
    || (exists op :: op !in a.ops && b == a.(ops := a.ops + {op}))
    || (exists op :: op in a.ops && b == a.(ops := a.ops - {op}))
    || (exists x, v :: SpecWrite(a, b, x, v))
    || (a.ops == {} && b == a.(durable := a.current))
    || b == Spec(a.durable, a.durable, {})
  }

  predicate Up(s: State) {
    !s.phase.Booting? && !(s.phase.Installing? && s.phase.recovering)
  }

  /** What a reader of block b sees: the cached copy if there is a valid one, else onDisk. */
  function Visible(bufs: seq<Entry>, b: nat, onDisk: Block): Block {
    VisibleIn(bufs, |bufs|, b, onDisk)
  }

  /** Visible, looking at the first n buffers only. */
  function VisibleIn(bufs: seq<Entry>, n: nat, b: nat, onDisk: Block): Block
    requires n <= |bufs|
  {
    if n == 0 then onDisk
    else if bufs[n - 1].valid && Holds(bufs[n - 1], b) then bufs[n - 1].data
    else VisibleIn(bufs, n - 1, b, onDisk)
  }

  ghost function Abs(l: Layout, s: State): (a: Spec)
    requires Shape(l, s)
  {
    Spec(if Up(s) then CurrentMap(l, s) else Recovered(l, s.disk), Recovered(l, s.disk), s.ops.Keys)
  }

  // ------------------------------------------------------------------ helpers

  lemma {:induction false} VisibleInHit(bufs: seq<Entry>, n: nat, b: nat, d: Block, i: nat)
    requires Unique(bufs) && i < n <= |bufs| && bufs[i].valid && Holds(bufs[i], b)
    ensures VisibleIn(bufs, n, b, d) == bufs[i].data
  {
    if i < n - 1 { VisibleInHit(bufs, n - 1, b, d, i); }
  }

  lemma VisibleHit(bufs: seq<Entry>, b: nat, d: Block, i: nat)
    requires Unique(bufs) && i < |bufs| && bufs[i].valid && Holds(bufs[i], b)
    ensures Visible(bufs, b, d) == bufs[i].data
  {
    VisibleInHit(bufs, |bufs|, b, d, i);
  }

  lemma {:induction false} VisibleInMiss(bufs: seq<Entry>, n: nat, b: nat, d: Block)
    requires n <= |bufs| && forall i :: 0 <= i < n ==> !(bufs[i].valid && Holds(bufs[i], b))
    ensures VisibleIn(bufs, n, b, d) == d
  {
    if n > 0 { VisibleInMiss(bufs, n - 1, b, d); }
  }

  lemma VisibleMiss(bufs: seq<Entry>, b: nat, d: Block)
    requires forall i :: 0 <= i < |bufs| ==> !(bufs[i].valid && Holds(bufs[i], b))
    ensures Visible(bufs, b, d) == d
  {
    VisibleInMiss(bufs, |bufs|, b, d);
  }

  lemma RefsSame(hs: map<nat, Handle>, h: nat, a: Handle, i: nat)
    requires h in hs && hs[h].buf == a.buf
    ensures Refs(hs[h := a], i) == Refs(hs, i)
  {
  }

  lemma RefsAdd(hs: map<nat, Handle>, h: nat, a: Handle, i: nat)
    requires h !in hs
    ensures |Refs(hs[h := a], i)| == |Refs(hs, i)| + (if a.buf == i then 1 else 0)
  {
    if a.buf == i {
      assert Refs(hs[h := a], i) == Refs(hs, i) + {h};
    } else {
      assert Refs(hs[h := a], i) == Refs(hs, i);
    }
  }

  lemma RefsRemove(hs: map<nat, Handle>, h: nat, i: nat)
    requires h in hs
    ensures |Refs(hs - {h}, i)| == |Refs(hs, i)| - (if hs[h].buf == i then 1 else 0)
  {
    if hs[h].buf == i {
      assert Refs(hs, i) == Refs(hs - {h}, i) + {h};
    } else {
      assert Refs(hs - {h}, i) == Refs(hs, i);
    }
  }

  /** A handle keeps its buffer referenced, so bget does not recycle it. */
  lemma HandleRefs(l: Layout, s: State, h: nat)
    requires Inv(l, s) && h in s.handles
    ensures s.bufs[s.handles[h].buf].refcnt > 0 && s.bufs[s.handles[h].buf].dev == ROOTDEV
  {
    assert h in Refs(s.handles, s.handles[h].buf);
    assert EntryOk(l, s.bufs[s.handles[h].buf]);
  }

  lemma DirtyKept(bufs: seq<Entry>, bufs': seq<Entry>, b: nat)
    requires DirtyFor(bufs, b) && |bufs'| == |bufs|
    requires forall i :: 0 <= i < |bufs| && bufs[i].dirty && bufs[i].blockno == b
                         ==> bufs'[i].dirty && bufs'[i].blockno == b
    ensures DirtyFor(bufs', b)
  {
  }

  lemma TouchedKept(s: State, s': State, j: nat)
    requires Touched(s, j)
    requires forall h :: h in s.handles && s.handles[h].modified && s.handles[h].buf == j
                         ==> h in s'.handles && s'.handles[h].modified && s'.handles[h].buf == j
    ensures Touched(s', j)
  {
  }

  /** e' is e with only its counters changed, or a clean buffer emptied. */
  predicate QuietEntry(e: Entry, e': Entry) {
    || (e'.valid == e.valid && e'.dirty == e.dirty && e'.blockno == e.blockno && e'.data == e.data)
    || (!e.dirty && !e'.dirty && !e'.valid)
  }

  /** Events that touch neither disk nor log nor buffer contents keep coherence. */
  lemma QuietKeeps(l: Layout, s: State, s': State)
    requires Inv(l, s) && Shape(l, s') && CacheOk(l, s')
    requires s'.disk == s.disk && s'.lh == s.lh && s'.phase == s.phase && s'.ops == s.ops
    requires forall j :: 0 <= j < NBUF ==> QuietEntry(s.bufs[j], s'.bufs[j])
    requires forall h :: h in s.handles && s.handles[h].modified
                         ==> h in s'.handles && s'.handles[h].modified && s'.handles[h].buf == s.handles[h].buf
    ensures Coherent(l, s') && PhaseOk(l, s')
  {
    assert forall j :: 0 <= j < NBUF && s'.bufs[j].dirty ==> s.bufs[j].dirty && s'.bufs[j].blockno == s.bufs[j].blockno;
    forall x | x in Pending(s') ensures DirtyFor(s'.bufs, x) { DirtyKept(s.bufs, s'.bufs, x); }
    forall j | 0 <= j < NBUF && s'.bufs[j].valid && !s'.bufs[j].dirty && !Touched(s', j)
      ensures s'.bufs[j].data == s'.disk[s'.bufs[j].blockno]
    {
      assert QuietEntry(s.bufs[j], s'.bufs[j]);
      assert Touched(s, j) ==> Touched(s', j);
    }
    assert Coherent(l, s');
    forall k | 0 <= k < |s.lh| && LogHas(l, s, k) ensures LogHas(l, s', k) {}
  }

  // ---------------------------------------------- every event keeps the invariant

  lemma HandlesGet(l: Layout, s: State, h: nat, owner: Option<nat>, b: nat, i: nat)
    requires Inv(l, s) && Enabled(l, s, Get(h, owner, b, i))
    ensures Shape(l, Apply(l, s, Get(h, owner, b, i)))
    ensures HandlesOk(l, Apply(l, s, Get(h, owner, b, i)))
  {
    var s' := Apply(l, s, Get(h, owner, b, i));
    forall j | 0 <= j < NBUF ensures s'.bufs[j].refcnt == |Refs(s'.handles, j)| {
      RefsAdd(s.handles, h, Handle(i, false, owner, false), j);
    }
    forall g | g in s'.handles ensures HandleOk(l, s', g) {
      if g != h { assert HandleOk(l, s, g); HandleRefs(l, s, g); }
    }
  }

  lemma KeepsGet(l: Layout, s: State, h: nat, owner: Option<nat>, b: nat, i: nat)
    requires Inv(l, s) && Enabled(l, s, Get(h, owner, b, i))
    ensures Inv(l, Apply(l, s, Get(h, owner, b, i)))
  {
    var s' := Apply(l, s, Get(h, owner, b, i));
    HandlesGet(l, s, h, owner, b, i);
    forall j | 0 <= j < NBUF ensures EntryOk(l, s'.bufs[j]) { assert EntryOk(l, s.bufs[j]); }
    assert CacheOk(l, s');
    QuietKeeps(l, s, s');
  }

  /** Lock and Unlock differ only in the value they give to the two lock fields. */
  lemma HandlesLocking(l: Layout, s: State, h: nat, e: Event)
    requires Inv(l, s) && Enabled(l, s, e) && (e == Lock(h) || e == Unlock(h))
    ensures Shape(l, Apply(l, s, e)) && HandlesOk(l, Apply(l, s, e))
  {
    var s' := Apply(l, s, e);
    forall j | 0 <= j < NBUF ensures s'.bufs[j].refcnt == |Refs(s'.handles, j)| {
      RefsSame(s.handles, h, s'.handles[h], j);
    }
    forall g | g in s'.handles ensures HandleOk(l, s', g) { assert HandleOk(l, s, g); }
  }

  lemma KeepsLocking(l: Layout, s: State, h: nat, e: Event)
    requires Inv(l, s) && Enabled(l, s, e) && (e == Lock(h) || e == Unlock(h))
    ensures Inv(l, Apply(l, s, e))
  {
    hide Coherent, PhaseOk;
    var s' := Apply(l, s, e);
    HandlesLocking(l, s, h, e);
    forall j | 0 <= j < NBUF ensures EntryOk(l, s'.bufs[j]) { assert EntryOk(l, s.bufs[j]); }
    QuietKeeps(l, s, s');
  }

  lemma KeepsUnref(l: Layout, s: State, h: nat)
    requires Inv(l, s) && Enabled(l, s, Unref(h))
    ensures Inv(l, Apply(l, s, Unref(h)))
  {
    var s' := Apply(l, s, Unref(h));
    HandleRefs(l, s, h);
    forall j | 0 <= j < NBUF ensures s'.bufs[j].refcnt == |Refs(s'.handles, j)| {
      RefsRemove(s.handles, h, j);
    }
    forall j | 0 <= j < NBUF ensures EntryOk(l, s'.bufs[j]) { assert EntryOk(l, s.bufs[j]); }
    forall g | g in s'.handles ensures HandleOk(l, s', g) { assert HandleOk(l, s, g); }
    assert HandlesOk(l, s');
    QuietKeeps(l, s, s');
  }

  lemma HandlesLoad(l: Layout, s: State, h: nat)
    requires Inv(l, s) && Enabled(l, s, Load(h))
    ensures var s' := Apply(l, s, Load(h)); Shape(l, s') && CacheOk(l, s') && HandlesOk(l, s')
  {
    var s' := Apply(l, s, Load(h));
    HandleRefs(l, s, h);
    forall j | 0 <= j < NBUF ensures EntryOk(l, s'.bufs[j]) { assert EntryOk(l, s.bufs[j]); }
    forall g | g in s'.handles ensures HandleOk(l, s', g) { assert HandleOk(l, s, g); }
  }

  lemma KeepsLoad(l: Layout, s: State, h: nat)
    requires Inv(l, s) && Enabled(l, s, Load(h))
    ensures Inv(l, Apply(l, s, Load(h)))
  {
    var s' := Apply(l, s, Load(h));
    HandlesLoad(l, s, h);
    HandleRefs(l, s, h);
    var i := s.handles[h].buf;
    forall x | x in Pending(s') ensures DirtyFor(s'.bufs, x) { DirtyKept(s.bufs, s'.bufs, x); }
    assert forall j: nat :: Touched(s', j) == Touched(s, j);
    assert s.bufs[i].blockno in Pending(s) ==> DirtyFor(s.bufs, s.bufs[i].blockno);
    assert Coherent(l, s');
    forall k | 0 <= k < |s.lh| && LogHas(l, s, k) ensures LogHas(l, s', k) {}
  }

  lemma HandlesModify(l: Layout, s: State, h: nat, data: Block)
    requires Inv(l, s) && Enabled(l, s, Modify(h, data))
    ensures var s' := Apply(l, s, Modify(h, data));
      Shape(l, s') && CacheOk(l, s') && HandlesOk(l, s') && s.phase.Running?
  {
    var s' := Apply(l, s, Modify(h, data));
    forall j | 0 <= j < NBUF ensures s'.bufs[j].refcnt == |Refs(s'.handles, j)| {
      RefsSame(s.handles, h, s'.handles[h], j);
    }
    forall j | 0 <= j < NBUF ensures EntryOk(l, s'.bufs[j]) { assert EntryOk(l, s.bufs[j]); }
    forall g | g in s'.handles ensures HandleOk(l, s', g) { assert HandleOk(l, s, g); }
  }

  lemma KeepsModify(l: Layout, s: State, h: nat, data: Block)
    requires Inv(l, s) && Enabled(l, s, Modify(h, data))
    ensures Inv(l, Apply(l, s, Modify(h, data)))
  {
    var s' := Apply(l, s, Modify(h, data));
    HandlesModify(l, s, h, data);
    var i := s.handles[h].buf;
    forall x | x in Pending(s') ensures DirtyFor(s'.bufs, x) { DirtyKept(s.bufs, s'.bufs, x); }
    assert Touched(s', i) by { assert s'.handles[h].modified && s'.handles[h].buf == i; }
    forall j | 0 <= j < NBUF && Touched(s, j) ensures Touched(s', j) { TouchedKept(s, s', j); }
    assert Coherent(l, s');
  }

  /** The step does not take the list over its array, and write_log does not leave the region. */
  ghost predicate Fits(l: Layout, s: State, e: Event)
    requires Enabled(l, s, e)
  {
    && (e.LogAppend? ==> |Apply(l, s, e).lh| <= LOGSIZE)
    && (e.WriteLogBlock? ==> s.phase.tail + 1 < l.size)
  }

  lemma HandlesLogAppend(l: Layout, s: State, h: nat)
    requires Inv(l, s) && Enabled(l, s, LogAppend(h)) && Fits(l, s, LogAppend(h))
    ensures var s' := Apply(l, s, LogAppend(h));
      Shape(l, s') && CacheOk(l, s') && HandlesOk(l, s') && s.phase.Running?
  {
    var s' := Apply(l, s, LogAppend(h));
    HandleRefs(l, s, h);
    forall j | 0 <= j < NBUF ensures s'.bufs[j].refcnt == |Refs(s'.handles, j)| {
      RefsSame(s.handles, h, s'.handles[h], j);
    }
    forall j | 0 <= j < NBUF ensures EntryOk(l, s'.bufs[j]) { assert EntryOk(l, s.bufs[j]); }
    forall g | g in s'.handles ensures HandleOk(l, s', g) { assert HandleOk(l, s, g); }
  }

  lemma KeepsLogAppend(l: Layout, s: State, h: nat)
    requires Inv(l, s) && Enabled(l, s, LogAppend(h)) && Fits(l, s, LogAppend(h))
    ensures Inv(l, Apply(l, s, LogAppend(h)))
  {
    var s' := Apply(l, s, LogAppend(h));
    HandlesLogAppend(l, s, h);
    var i := s.handles[h].buf;
    forall x | x in Pending(s') ensures DirtyFor(s'.bufs, x) {
      if x in s.lh { DirtyKept(s.bufs, s'.bufs, x); }
      else { assert s'.bufs[i].dirty && s'.bufs[i].blockno == x; }
    }
    forall j | 0 <= j < NBUF && j != i && Touched(s, j) ensures Touched(s', j) { TouchedKept(s, s', j); }
    assert Coherent(l, s');
  }

  lemma LogOps(v: LR.State, x: LR.Event)
    requires LR.Enabled(v, x)
    ensures var ops := LR.Apply(v, x).ops.Keys;
      match x
      case Begin(op) => ops == v.ops.Keys + {op}
      case End(op) => ops == v.ops.Keys - {op}
      case _ => ops == v.ops.Keys
  {
  }

  /** Only operations and phase change, no modified buffer loses its operation, and the same
      blocks are pending. */
  ghost predicate OpsOnly(s: State, s': State) {
    && s' == s.(ops := s'.ops, phase := s'.phase) && Pending(s') == Pending(s)
    && forall h :: h in s.handles && s.handles[h].modified && InOp(s, h) ==> InOp(s', h)
  }

  /** How begin_op, log_write's test, end_op and the end of a commit move the phase. */
  predicate NextPhase(s: State, s': State) {
    if s.phase.Running? then
      s'.phase.Running? || (s'.ops == map[] && s'.phase == if |s.lh| > 0 then WritingLog(0) else Finishing)
    else
      s.phase.Finishing? && s'.phase.Running?
  }

  lemma OpsMoves(l: Layout, s: State, e: Event)
    requires !s.phase.Running? ==> s.ops == map[]
    requires Enabled(l, s, e) && (e.LogTest? || e.BeginOp? || e.EndOp? || e.Finish?)
    ensures var s' := Apply(l, s, e); s' == s.(ops := s'.ops, phase := s'.phase) && NextPhase(s, s')
  {
    hide CanLog, Settled;
  }

  lemma OpsStay(l: Layout, s: State, e: Event, h: nat)
    requires Enabled(l, s, e) && (e.LogTest? || e.BeginOp? || e.EndOp? || e.Finish?)
    requires h in s.handles && s.handles[h].modified && InOp(s, h)
    ensures InOp(Apply(l, s, e), h)
  {
    hide LR.Apply;
    match e
    case BeginOp(op) => LogOps(LogView(l, s), LR.Begin(op));
    case EndOp(op) => LogOps(LogView(l, s), LR.End(op));
    case LogTest(g) => LogOps(LogView(l, s), LR.Test(s.handles[g].op.value));
    case Finish =>
  }

  lemma OpsStep(l: Layout, s: State, e: Event)
    requires Shape(l, s) && PhaseOk(l, s)
    requires Enabled(l, s, e) && (e.LogTest? || e.BeginOp? || e.EndOp? || e.Finish?)
    ensures OpsOnly(s, Apply(l, s, e)) && PhaseOk(l, Apply(l, s, e))
  {
    OpsMoves(l, s, e);
    hide Enabled, Apply, WfDisk, Listable, HeadOf, LogHas, InOp;
    forall h | h in s.handles && s.handles[h].modified && InOp(s, h) ensures InOp(Apply(l, s, e), h) { OpsStay(l, s, e, h); }
  }

  lemma OpsHandles(l: Layout, s: State, s': State)
    requires Shape(l, s) && HandlesOk(l, s) && OpsOnly(s, s')
    ensures Shape(l, s') && HandlesOk(l, s')
  {
    hide WfDisk, Listable, Pending, Refs, InOp;
    forall g | g in s'.handles ensures HandleOk(l, s', g) { assert HandleOk(l, s, g); }
  }

  lemma OpsCoherent(l: Layout, s: State, s': State)
    requires Shape(l, s) && CacheOk(l, s) && Coherent(l, s) && OpsOnly(s, s')
    ensures Shape(l, s') && CacheOk(l, s') && Coherent(l, s')
  {
    hide WfDisk, Listable, Pending, EntryOk, Unique;
    assert forall j: nat :: Touched(s', j) == Touched(s, j);
  }

  lemma KeepsOps(l: Layout, s: State, e: Event)
    requires Inv(l, s) && Enabled(l, s, e) && (e.LogTest? || e.BeginOp? || e.EndOp? || e.Finish?)
    ensures Inv(l, Apply(l, s, e))
  {
    OpsStep(l, s, e);
    hide Enabled, Apply, PhaseOk;
    OpsHandles(l, s, Apply(l, s, e));
    OpsCoherent(l, s, Apply(l, s, e));
  }

  lemma KeepsCrash(l: Layout, s: State)
    requires Inv(l, s)
    ensures Inv(l, Apply(l, s, Crash))
  {
    var s' := Apply(l, s, Crash);
    assert forall j :: 0 <= j < NBUF ==> Refs(s'.handles, j) == {};
    assert CacheOk(l, s');
    assert HandlesOk(l, s');
  }

  /** A bwrite of new data through handle h while no operation is outstanding. */
  lemma HandlesBwrite(l: Layout, s: State, h: nat, data: Block, s': State)
    requires Inv(l, s) && Owns(s, h) && s.ops == map[] && BlockOf(s, h) < |s.disk| && Shape(l, s')
    requires s' == BwriteTo(s, h, data).(phase := s'.phase, lh := s'.lh)
    ensures CacheOk(l, s') && HandlesOk(l, s')
  {
    forall j | 0 <= j < NBUF ensures EntryOk(l, s'.bufs[j]) { assert EntryOk(l, s.bufs[j]); }
    forall g | g in s.handles ensures HandleOk(l, s', g) { assert HandleOk(l, s, g); }
  }

  /** With no operation outstanding nothing is touched. */
  lemma NothingTouched(l: Layout, s: State)
    requires Inv(l, s) && s.ops == map[]
    ensures forall i: nat :: !Touched(s, i)
  {
    forall h | h in s.handles ensures !s.handles[h].modified { assert HandleOk(l, s, h); }
  }

  /** Such a bwrite takes at most its own block off the pending list. */
  lemma CoherentBwrite(l: Layout, s: State, h: nat, data: Block, s': State)
    requires Inv(l, s) && Owns(s, h) && s.ops == map[] && BlockOf(s, h) < |s.disk| && Shape(l, s')
    requires s' == BwriteTo(s, h, data).(phase := s'.phase, lh := s'.lh)
    requires CacheOk(l, s') && BlockOf(s, h) !in Pending(s')
    requires forall x :: x in Pending(s') ==> x in Pending(s)
    requires forall x :: x in Pending(s) && x != BlockOf(s, h) ==> x in Pending(s')
    ensures Coherent(l, s')
  {
    NothingTouched(l, s);
    HandleRefs(l, s, h);
    var i := s.handles[h].buf;
    forall x | x in Pending(s') ensures DirtyFor(s'.bufs, x) { DirtyKept(s.bufs, s'.bufs, x); }
    forall j | 0 <= j < NBUF && s'.bufs[j].valid && !s'.bufs[j].dirty
      ensures s'.bufs[j].data == s'.disk[s'.bufs[j].blockno]
    {
      if j != i { assert s.bufs[j].blockno != s.bufs[i].blockno; }
    }
  }

  lemma LogBlockWritten(l: Layout, s: State, to: nat, from: nat)
    requires Inv(l, s) && Enabled(l, s, WriteLogBlock(to, from)) && Fits(l, s, WriteLogBlock(to, from))
    ensures var s' := Apply(l, s, WriteLogBlock(to, from));
      Shape(l, s') && PhaseOk(l, s')
  {
    var s' := Apply(l, s, WriteLogBlock(to, from));
    HandleRefs(l, s, from);
    HandleRefs(l, s, to);
    forall k | 0 <= k < s'.phase.tail ensures LogHas(l, s', k) {
      if k < s.phase.tail { assert LogHas(l, s, k); }
    }
  }

  lemma KeepsWriteLogBlock(l: Layout, s: State, to: nat, from: nat)
    requires Inv(l, s) && Enabled(l, s, WriteLogBlock(to, from)) && Fits(l, s, WriteLogBlock(to, from))
    ensures Inv(l, Apply(l, s, WriteLogBlock(to, from)))
  {
    var s' := Apply(l, s, WriteLogBlock(to, from));
    LogBlockWritten(l, s, to, from);
    HandlesBwrite(l, s, to, DataOf(s, from), s');
    CoherentBwrite(l, s, to, DataOf(s, from), s');
  }

  lemma HeadWritten(l: Layout, s: State, h: nat)
    requires Inv(l, s) && Enabled(l, s, WriteHead(h))
    ensures var s' := Apply(l, s, WriteHead(h)); Shape(l, s') && PhaseOk(l, s')
  {
    var s' := Apply(l, s, WriteHead(h));
    HandleRefs(l, s, h);
    NothingTouched(l, s);
    assert DataOf(s, h) == s.disk[l.start];
    assert |s.lh| < l.size by { if |s.lh| > 0 { assert LogHas(l, s, |s.lh| - 1); } }
    assert HeadOf(l, s'.disk) == s.lh;
    forall k | 0 <= k < |s.lh| ensures LogHas(l, s', k) { assert LogHas(l, s, k); }
  }

  lemma KeepsWriteHead(l: Layout, s: State, h: nat)
    requires Inv(l, s) && Enabled(l, s, WriteHead(h))
    ensures Inv(l, Apply(l, s, WriteHead(h)))
  {
    var s' := Apply(l, s, WriteHead(h));
    HeadWritten(l, s, h);
    HandlesBwrite(l, s, h, HeadBlock(DataOf(s, h), s.lh), s');
    CoherentBwrite(l, s, h, HeadBlock(DataOf(s, h), s.lh), s');
  }

  lemma InstallKeepsShape(l: Layout, s: State, lb: nat, db: nat)
    requires Inv(l, s) && Enabled(l, s, InstallBlock(lb, db))
    ensures var s' := Apply(l, s, InstallBlock(lb, db));
      && Shape(l, s') && HeadOf(l, s'.disk) == s.lh
      && forall k :: 0 <= k < |s.lh| ==> LogAt(l, s'.disk, k) == LogAt(l, s.disk, k)
  {
    var s' := Apply(l, s, InstallBlock(lb, db));
    assert IsHome(l, s.lh[s.phase.tail]);
    assert HeadOf(l, s'.disk) == s.lh;
  }

  /** The log buffer that is about to be installed holds what the log says. */
  lemma InstallData(l: Layout, s: State, lb: nat, db: nat)
    requires Inv(l, s) && Enabled(l, s, InstallBlock(lb, db))
    ensures DataOf(s, lb) == LogAt(l, s.disk, s.phase.tail)
  {
    hide HandlesOk;
    HandleRefs(l, s, lb);
    NothingTouched(l, s);
  }

  lemma BlockInstalled(l: Layout, s: State, lb: nat, db: nat)
    requires Inv(l, s) && Enabled(l, s, InstallBlock(lb, db))
    ensures var s' := Apply(l, s, InstallBlock(lb, db));
      Shape(l, s') && PhaseOk(l, s')
  {
    hide CacheOk, HandlesOk, Coherent;
    var s' := Apply(l, s, InstallBlock(lb, db));
    InstallKeepsShape(l, s, lb, db);
    HandleRefs(l, s, lb);
    HandleRefs(l, s, db);
    InstallData(l, s, lb, db);
    forall k | 0 <= k < |s.lh| ensures LogHas(l, s', k) { assert LogHas(l, s, k); }
  }

  lemma KeepsInstallBlock(l: Layout, s: State, lb: nat, db: nat)
    requires Inv(l, s) && Enabled(l, s, InstallBlock(lb, db))
    ensures Inv(l, Apply(l, s, InstallBlock(lb, db)))
  {
    hide CacheOk, HandlesOk, Coherent;
    var s' := Apply(l, s, InstallBlock(lb, db));
    BlockInstalled(l, s, lb, db);
    HandlesBwrite(l, s, db, DataOf(s, lb), s');
    assert Up(s) ==> Pending(s) == [s.lh[s.phase.tail]] + Pending(s');
    CoherentBwrite(l, s, db, DataOf(s, lb), s');
  }

  lemma HeadCleared(l: Layout, s: State, h: nat)
    requires Inv(l, s) && Enabled(l, s, WriteClear(h))
    ensures var s' := Apply(l, s, WriteClear(h)); Shape(l, s') && PhaseOk(l, s')
  {
    var s' := Apply(l, s, WriteClear(h));
    HandleRefs(l, s, h);
    NothingTouched(l, s);
    assert DataOf(s, h) == s.disk[l.start];
    assert HeadOf(l, s'.disk) == [];
  }

  lemma KeepsWriteClear(l: Layout, s: State, h: nat)
    requires Inv(l, s) && Enabled(l, s, WriteClear(h))
    ensures Inv(l, Apply(l, s, WriteClear(h)))
  {
    var s' := Apply(l, s, WriteClear(h));
    HeadCleared(l, s, h);
    HandlesBwrite(l, s, h, HeadBlock(DataOf(s, h), []), s');
    CoherentBwrite(l, s, h, HeadBlock(DataOf(s, h), []), s');
  }

  lemma KeepsReadHead(l: Layout, s: State, h: nat)
    requires Inv(l, s) && Enabled(l, s, ReadHead(h))
    ensures Inv(l, Apply(l, s, ReadHead(h)))
  {
    var s' := Apply(l, s, ReadHead(h));
    assert DataOf(s, h) == s.disk[l.start];
    assert HandlesOk(l, s');
    forall j | 0 <= j < NBUF && Touched(s, j) ensures Touched(s', j) { TouchedKept(s, s', j); }
    assert Coherent(l, s');
  }

  // ------------------------------------------------ every event simulates the spec

  /** What the specification does when the machine performs e. */
  function SpecStep(l: Layout, s: State, e: Event, a: Spec): Spec
    requires Enabled(l, s, e)
  {
    match e
    case BeginOp(op) => a.(ops := a.ops + {op})
    case EndOp(op) => a.(ops := a.ops - {op})
    case Modify(h, data) => a.(current := a.current[BlockOf(s, h) := data])
    case WriteHead(_) => a.(durable := a.current)
    case Crash => Spec(a.durable, a.durable, {})
    case _ => a
  }

  lemma Keeps(l: Layout, s: State, e: Event)
    requires Inv(l, s) && Enabled(l, s, e) && Fits(l, s, e)
    ensures Inv(l, Apply(l, s, e))
  {
    hide *;
    match e
    case Get(h, owner, b, i) => KeepsGet(l, s, h, owner, b, i);
    case Lock(h) => KeepsLocking(l, s, h, e);
    case Load(h) => KeepsLoad(l, s, h);
    case Modify(h, data) => KeepsModify(l, s, h, data);
    case LogTest(_) => KeepsOps(l, s, e);
    case LogAppend(h) => KeepsLogAppend(l, s, h);
    case Unlock(h) => KeepsLocking(l, s, h, e);
    case Unref(h) => KeepsUnref(l, s, h);
    case BeginOp(_) => KeepsOps(l, s, e);
    case EndOp(_) => KeepsOps(l, s, e);
    case WriteLogBlock(to, from) => KeepsWriteLogBlock(l, s, to, from);
    case WriteHead(h) => KeepsWriteHead(l, s, h);
    case InstallBlock(lb, db) => KeepsInstallBlock(l, s, lb, db);
    case WriteClear(h) => KeepsWriteClear(l, s, h);
    case Finish => KeepsOps(l, s, e);
    case Crash => KeepsCrash(l, s);
    case ReadHead(h) => KeepsReadHead(l, s, h);
  }

  ghost predicate NoCopy(bufs: seq<Entry>, b: nat) {
    forall i :: 0 <= i < |bufs| ==> !(bufs[i].valid && Holds(bufs[i], b))
  }

  /** Every valid copy of b carries v, and so does the disk if there is no copy. */
  ghost predicate Shows(bufs: seq<Entry>, b: nat, onDisk: Block, v: Block) {
    && (forall i :: 0 <= i < |bufs| && bufs[i].valid && Holds(bufs[i], b) ==> bufs[i].data == v)
    && (NoCopy(bufs, b) ==> onDisk == v)
  }

  lemma ShowsVisible(bufs: seq<Entry>, b: nat, onDisk: Block)
    requires Unique(bufs)
    ensures Shows(bufs, b, onDisk, Visible(bufs, b, onDisk))
  {
    forall i | 0 <= i < |bufs| && bufs[i].valid && Holds(bufs[i], b)
      ensures bufs[i].data == Visible(bufs, b, onDisk)
    {
      VisibleHit(bufs, b, onDisk, i);
    }
    if NoCopy(bufs, b) { VisibleMiss(bufs, b, onDisk); }
  }

  lemma VisibleShown(bufs: seq<Entry>, b: nat, onDisk: Block, v: Block)
    requires Unique(bufs) && Shows(bufs, b, onDisk, v)
    ensures Visible(bufs, b, onDisk) == v
  {
    if NoCopy(bufs, b) {
      VisibleMiss(bufs, b, onDisk);
    } else {
      var i :| 0 <= i < |bufs| && bufs[i].valid && Holds(bufs[i], b);
      VisibleHit(bufs, b, onDisk, i);
    }
  }

  /** A home block whose contents are neither pending nor touched is the same in cache and on disk. */
  lemma CleanView(l: Layout, s: State, b: nat)
    requires Inv(l, s) && IsHome(l, b) && b !in Pending(s)
    requires forall i :: 0 <= i < NBUF && Touched(s, i) ==> !Holds(s.bufs[i], b)
    ensures Visible(s.bufs, b, s.disk[b]) == s.disk[b]
  {
    VisibleShown(s.bufs, b, s.disk[b], s.disk[b]);
  }

  lemma ViewQuiet(l: Layout, s: State, s': State, b: nat)
    requires Inv(l, s) && Inv(l, s') && IsHome(l, b) && s'.disk == s.disk
    requires forall j :: 0 <= j < NBUF ==> SameView(s.bufs[j], s'.bufs[j])
    ensures Visible(s'.bufs, b, s'.disk[b]) == Visible(s.bufs, b, s.disk[b])
  {
    ShowsVisible(s.bufs, b, s.disk[b]);
    assert NoCopy(s'.bufs, b) ==> NoCopy(s.bufs, b);
    VisibleShown(s'.bufs, b, s'.disk[b], Visible(s.bufs, b, s.disk[b]));
  }

  lemma ViewGet(l: Layout, s: State, e: Event, b: nat)
    requires Inv(l, s) && Enabled(l, s, e) && e.Get? && IsHome(l, b)
    ensures Visible(Apply(l, s, e).bufs, b, s.disk[b]) == Visible(s.bufs, b, s.disk[b])
  {
    var s' := Apply(l, s, e);
    Keeps(l, s, e);
    ShowsVisible(s.bufs, b, s.disk[b]);
    var v := Visible(s.bufs, b, s.disk[b]);
    if NoCopy(s'.bufs, b) && !NoCopy(s.bufs, b) {
      var i :| 0 <= i < NBUF && s.bufs[i].valid && Holds(s.bufs[i], b);
      assert s'.bufs[i] == s.bufs[i] || i == e.i;
      assert i == e.i && s.bufs[i].refcnt == 0 && !s.bufs[i].dirty;
      assert !Touched(s, i) by {
        forall h | h in s.handles ensures s.handles[h].buf != i { HandleRefs(l, s, h); }
      }
      assert s.disk[b] == v;
    }
    VisibleShown(s'.bufs, b, s'.disk[b], v);
  }

  lemma ViewLoad(l: Layout, s: State, e: Event, b: nat)
    requires Inv(l, s) && Enabled(l, s, e) && e.Load? && IsHome(l, b)
    ensures Visible(Apply(l, s, e).bufs, b, s.disk[b]) == Visible(s.bufs, b, s.disk[b])
  {
    var s' := Apply(l, s, e);
    Keeps(l, s, e);
    HandleRefs(l, s, e.h);
    ShowsVisible(s.bufs, b, s.disk[b]);
    var i := s.handles[e.h].buf;
    if Holds(s.bufs[i], b) { assert NoCopy(s.bufs, b); }
    VisibleShown(s'.bufs, b, s'.disk[b], Visible(s.bufs, b, s.disk[b]));
  }

  lemma ViewModify(l: Layout, s: State, e: Event, b: nat)
    requires Inv(l, s) && Enabled(l, s, e) && e.Modify? && IsHome(l, b)
    ensures Visible(Apply(l, s, e).bufs, b, s.disk[b])
         == if b == BlockOf(s, e.h) then e.data else Visible(s.bufs, b, s.disk[b])
  {
    hide PhaseOk, HandlesOk, Coherent;
    var s' := Apply(l, s, e);
    Keeps(l, s, e);
    HandleRefs(l, s, e.h);
    ShowsVisible(s.bufs, b, s.disk[b]);
    var i := s.handles[e.h].buf;
    assert s'.bufs[i].valid && Holds(s'.bufs[i], BlockOf(s, e.h));
    assert forall j :: 0 <= j < NBUF && s.bufs[j].valid && Holds(s.bufs[j], b) ==> s'.bufs[j].valid && Holds(s'.bufs[j], b);
    VisibleShown(s'.bufs, b, s'.disk[b], if b == BlockOf(s, e.h) then e.data else Visible(s.bufs, b, s.disk[b]));
  }

  /** A bwrite shows readers nothing new when the data equals what they already see. */
  lemma ViewBwrite(l: Layout, s: State, s': State, h: nat, data: Block, b: nat)
    requires Inv(l, s) && Inv(l, s') && IsHome(l, b) && Owns(s, h) && BlockOf(s, h) < |s.disk|
    requires s'.bufs == BwriteTo(s, h, data).bufs && s'.disk == BwriteTo(s, h, data).disk
    requires b == BlockOf(s, h) ==> DataOf(s, h) == data
    ensures Visible(s'.bufs, b, s'.disk[b]) == Visible(s.bufs, b, s.disk[b])
  {
    ShowsVisible(s.bufs, b, s.disk[b]);
    HandleRefs(l, s, h);
    var i := s.handles[h].buf;
    assert s.bufs[i].valid && Holds(s.bufs[i], BlockOf(s, h));
    assert forall j :: 0 <= j < NBUF && s.bufs[j].valid && Holds(s.bufs[j], b) ==> s'.bufs[j].valid && Holds(s'.bufs[j], b);
    VisibleShown(s'.bufs, b, s'.disk[b], Visible(s.bufs, b, s.disk[b]));
  }

  // ------------------------------------------------------- what recovery would give

  /** What recovery gives depends only on the header, the listed log blocks and the unlisted home blocks. */
  lemma RecoveredSame(l: Layout, d: Disk, d': Disk)
    requires WfDisk(l, d) && WfDisk(l, d')
    requires HeadOf(l, d') == HeadOf(l, d)
    requires forall k :: 0 <= k < |HeadOf(l, d)| ==> LogAt(l, d', k) == LogAt(l, d, k)
    requires forall b: nat :: IsHome(l, b) && b !in HeadOf(l, d) ==> d'[b] == d[b]
    ensures Recovered(l, d') == Recovered(l, d)
  {
    forall b: nat | IsHome(l, b) ensures RecoveredAt(l, d', b) == RecoveredAt(l, d, b) {}
  }

  /** A pending block is seen as its dirty copy. */
  lemma PendingView(l: Layout, s: State, k: nat)
    requires Inv(l, s) && k < |s.lh| && s.lh[k] in Pending(s) && LogHas(l, s, k)
    ensures Visible(s.bufs, s.lh[k], s.disk[s.lh[k]]) == LogAt(l, s.disk, k)
  {
    var b := s.lh[k];
    assert DirtyFor(s.bufs, b);
    var i :| 0 <= i < NBUF && s.bufs[i].dirty && s.bufs[i].blockno == b;
    assert EntryOk(l, s.bufs[i]);
    VisibleHit(s.bufs, b, s.disk[b], i);
  }

  /** The header write is the commit point: what recovery gives jumps to what readers see. */
  lemma HeadWriteCommits(l: Layout, s: State, h: nat, b: nat)
    requires Inv(l, s) && Enabled(l, s, WriteHead(h)) && IsHome(l, b)
    ensures WfDisk(l, Apply(l, s, WriteHead(h)).disk)
    ensures RecoveredAt(l, Apply(l, s, WriteHead(h)).disk, b) == Visible(s.bufs, b, s.disk[b])
  {
    var s' := Apply(l, s, WriteHead(h));
    KeepsWriteHead(l, s, h);
    NothingTouched(l, s);
    if b in s.lh {
      PendingView(l, s, IndexOf(s.lh, b));
    } else {
      CleanView(l, s, b);
    }
  }

  /** Clearing the header after all blocks are installed changes nothing that recovery gives. */
  lemma ClearKeepsRecovered(l: Layout, d: Disk, d': Disk)
    requires WfDisk(l, d) && WfDisk(l, d') && HeadOf(l, d') == []
    requires forall k :: 0 <= k < |HeadOf(l, d)| ==> d[HeadOf(l, d)[k]] == LogAt(l, d, k)
    requires forall b: nat :: IsHome(l, b) ==> d'[b] == d[b]
    ensures Recovered(l, d') == Recovered(l, d)
  {
    var h := HeadOf(l, d);
    forall b: nat | IsHome(l, b) ensures RecoveredAt(l, d', b) == RecoveredAt(l, d, b) {
      if b in h { assert d[h[IndexOf(h, b)]] == LogAt(l, d, IndexOf(h, b)); }
    }
  }

  // ------------------------------------------------------------------ simulation

  ghost function CurrentMap(l: Layout, s: State): (m: map<nat, Block>)
    requires Shape(l, s)
    ensures forall b :: b in m <==> IsHome(l, b)
    ensures forall b :: b in m ==> b < |s.disk| && m[b] == Visible(s.bufs, b, s.disk[b])
  {
    map b: nat | 0 <= b < l.total && IsHome(l, b) :: Visible(s.bufs, b, s.disk[b])
  }

  lemma MapsAgree(l: Layout, s: State, s': State)
    requires Shape(l, s) && Shape(l, s')
    requires forall b: nat :: IsHome(l, b) ==> Visible(s'.bufs, b, s'.disk[b]) == Visible(s.bufs, b, s.disk[b])
    ensures CurrentMap(l, s') == CurrentMap(l, s)
  {
  }

  predicate Quiet(e: Event) {
    e.Lock? || e.Unlock? || e.Unref? || e.LogTest? || e.LogAppend? || e.BeginOp? || e.EndOp? || e.Finish?
  }

  /** The two buffers show the same. */
  predicate SameView(e: Entry, e': Entry) {
    e'.dev == e.dev && e'.blockno == e.blockno && e'.valid == e.valid && e'.data == e.data
  }

  lemma QuietBufs(l: Layout, s: State, e: Event)
    requires |s.bufs| == NBUF && Enabled(l, s, e) && Quiet(e)
    ensures var s' := Apply(l, s, e);
      s'.disk == s.disk && |s'.bufs| == NBUF && forall j :: 0 <= j < NBUF ==> SameView(s.bufs[j], s'.bufs[j])
  {
  }

  lemma QuietOps(l: Layout, s: State, e: Event)
    requires Enabled(l, s, e) && Quiet(e) && (!s.phase.Running? ==> s.ops == map[])
    ensures Up(Apply(l, s, e)) == Up(s)
    ensures var ops := Apply(l, s, e).ops.Keys;
      match e
      case BeginOp(op) => ops == s.ops.Keys + {op}
      case EndOp(op) => ops == s.ops.Keys - {op}
      case _ => ops == s.ops.Keys
  {
    hide LR.Apply;
    match e
    case BeginOp(op) => LogOps(LogView(l, s), LR.Begin(op));
    case EndOp(op) => LogOps(LogView(l, s), LR.End(op));
    case LogTest(h) => LogOps(LogView(l, s), LR.Test(s.handles[h].op.value));
    case LogAppend(h) => LogOps(LogView(l, s), LR.Append(s.handles[h].op.value, BlockOf(s, h)));
    case _ =>
  }

  lemma SimulatesQuiet(l: Layout, s: State, e: Event)
    requires Inv(l, s) && Enabled(l, s, e) && Fits(l, s, e) && Quiet(e)
    ensures Inv(l, Apply(l, s, e)) && Abs(l, Apply(l, s, e)) == SpecStep(l, s, e, Abs(l, s))
  {
    var s' := Apply(l, s, e);
    Keeps(l, s, e);
    QuietBufs(l, s, e);
    QuietOps(l, s, e);
    hide CacheOk, HandlesOk, Coherent, PhaseOk, Apply, Enabled, Visible, Fits;
    forall b: nat | IsHome(l, b) ensures Visible(s'.bufs, b, s'.disk[b]) == Visible(s.bufs, b, s.disk[b]) {
      ViewQuiet(l, s, s', b);
    }
    MapsAgree(l, s, s');
  }

  lemma SimulatesBread(l: Layout, s: State, e: Event)
    requires Inv(l, s) && Enabled(l, s, e) && (e.Get? || e.Load?)
    ensures Inv(l, Apply(l, s, e)) && Abs(l, Apply(l, s, e)) == SpecStep(l, s, e, Abs(l, s))
  {
    var s' := Apply(l, s, e);
    Keeps(l, s, e);
    forall b: nat | IsHome(l, b) ensures Visible(s'.bufs, b, s'.disk[b]) == Visible(s.bufs, b, s.disk[b]) {
      if e.Get? { ViewGet(l, s, e, b); } else { ViewLoad(l, s, e, b); }
    }
    MapsAgree(l, s, s');
  }

  lemma SimulatesModify(l: Layout, s: State, e: Event)
    requires Inv(l, s) && Enabled(l, s, e) && e.Modify?
    ensures Inv(l, Apply(l, s, e)) && Abs(l, Apply(l, s, e)) == SpecStep(l, s, e, Abs(l, s))
  {
    var s' := Apply(l, s, e);
    Keeps(l, s, e);
    assert s.phase.Running?;
    forall b: nat | IsHome(l, b)
      ensures Visible(s'.bufs, b, s'.disk[b])
           == if b == BlockOf(s, e.h) then e.data else Visible(s.bufs, b, s.disk[b])
    {
      ViewModify(l, s, e, b);
    }
    assert CurrentMap(l, s') == CurrentMap(l, s)[BlockOf(s, e.h) := e.data];
  }

  lemma SimulatesWriteLog(l: Layout, s: State, e: Event)
    requires Inv(l, s) && Enabled(l, s, e) && Fits(l, s, e) && e.WriteLogBlock?
    ensures Inv(l, Apply(l, s, e)) && Abs(l, Apply(l, s, e)) == SpecStep(l, s, e, Abs(l, s))
  {
    hide CacheOk, HandlesOk, Coherent;
    var s' := Apply(l, s, e);
    Keeps(l, s, e);
    forall b: nat | IsHome(l, b) ensures Visible(s'.bufs, b, s'.disk[b]) == Visible(s.bufs, b, s.disk[b]) {
      ViewBwrite(l, s, s', e.to, DataOf(s, e.from), b);
    }
    MapsAgree(l, s, s');
    RecoveredSame(l, s.disk, s'.disk);
  }

  lemma SimulatesWriteHead(l: Layout, s: State, e: Event)
    requires Inv(l, s) && Enabled(l, s, e) && e.WriteHead?
    ensures Inv(l, Apply(l, s, e)) && Abs(l, Apply(l, s, e)) == SpecStep(l, s, e, Abs(l, s))
  {
    hide CacheOk, HandlesOk, Coherent;
    var s' := Apply(l, s, e);
    Keeps(l, s, e);
    forall b: nat | IsHome(l, b) ensures Visible(s'.bufs, b, s'.disk[b]) == Visible(s.bufs, b, s.disk[b]) {
      ViewBwrite(l, s, s', e.h, HeadBlock(DataOf(s, e.h), s.lh), b);
    }
    MapsAgree(l, s, s');
    forall b: nat | IsHome(l, b) ensures RecoveredAt(l, s'.disk, b) == Visible(s.bufs, b, s.disk[b]) {
      HeadWriteCommits(l, s, e.h, b);
    }
    assert Recovered(l, s'.disk) == CurrentMap(l, s);
  }

  lemma SimulatesInstall(l: Layout, s: State, e: Event)
    requires Inv(l, s) && Enabled(l, s, e) && e.InstallBlock?
    ensures Inv(l, Apply(l, s, e)) && Abs(l, Apply(l, s, e)) == SpecStep(l, s, e, Abs(l, s))
  {
    hide CacheOk, HandlesOk;
    var s' := Apply(l, s, e);
    Keeps(l, s, e);
    HandleRefs(l, s, e.db);
    HandleRefs(l, s, e.lb);
    NothingTouched(l, s);
    RecoveredSame(l, s.disk, s'.disk);
    if Up(s) {
      assert LogHas(l, s, s.phase.tail);
      assert s.lh[s.phase.tail] in Pending(s);
      assert DataOf(s, e.db) == DataOf(s, e.lb);
      forall b: nat | IsHome(l, b) ensures Visible(s'.bufs, b, s'.disk[b]) == Visible(s.bufs, b, s.disk[b]) {
        ViewBwrite(l, s, s', e.db, DataOf(s, e.lb), b);
      }
      MapsAgree(l, s, s');
    }
  }

  lemma SimulatesClear(l: Layout, s: State, e: Event)
    requires Inv(l, s) && Enabled(l, s, e) && e.WriteClear?
    ensures Inv(l, Apply(l, s, e)) && Abs(l, Apply(l, s, e)) == SpecStep(l, s, e, Abs(l, s))
  {
    hide CacheOk, HandlesOk, Coherent;
    var s' := Apply(l, s, e);
    Keeps(l, s, e);
    ClearKeepsRecovered(l, s.disk, s'.disk);
    if Up(s) {
      forall b: nat | IsHome(l, b) ensures Visible(s'.bufs, b, s'.disk[b]) == Visible(s.bufs, b, s.disk[b]) {
        ViewBwrite(l, s, s', e.h, HeadBlock(DataOf(s, e.h), []), b);
      }
      MapsAgree(l, s, s');
    } else {
      NothingTouched(l, s');
      forall b: nat | IsHome(l, b) ensures Visible(s'.bufs, b, s'.disk[b]) == RecoveredAt(l, s'.disk, b) {
        CleanView(l, s', b);
      }
      assert CurrentMap(l, s') == Recovered(l, s'.disk);
    }
  }

  lemma SimulatesCrash(l: Layout, s: State)
    requires Inv(l, s)
    ensures Inv(l, Apply(l, s, Crash)) && Abs(l, Apply(l, s, Crash)) == SpecStep(l, s, Crash, Abs(l, s))
  {
    KeepsCrash(l, s);
    hide CacheOk, HandlesOk, Coherent;
  }

  lemma SimulatesReadHead(l: Layout, s: State, e: Event)
    requires Inv(l, s) && Enabled(l, s, e) && e.ReadHead?
    ensures Inv(l, Apply(l, s, e)) && Abs(l, Apply(l, s, e)) == SpecStep(l, s, e, Abs(l, s))
  {
    hide CacheOk, HandlesOk, Coherent;
    KeepsReadHead(l, s, e.h);
  }

  /** Each event of the machine is the specification's step for that event, exactly. */
  lemma Simulates(l: Layout, s: State, e: Event)
    requires Inv(l, s) && Enabled(l, s, e) && Fits(l, s, e)
    ensures Inv(l, Apply(l, s, e))
    ensures Abs(l, Apply(l, s, e)) == SpecStep(l, s, e, Abs(l, s))
  {
    assert Quiet(e) <==> e.Lock? || e.Unlock? || e.Unref? || e.LogTest? || e.LogAppend? || e.BeginOp? || e.EndOp? || e.Finish?;
    hide *;
    match e
    case Get(_, _, _, _) => SimulatesBread(l, s, e);
    case Load(_) => SimulatesBread(l, s, e);
    case Modify(_, _) => SimulatesModify(l, s, e);
    case WriteLogBlock(_, _) => SimulatesWriteLog(l, s, e);
    case WriteHead(_) => SimulatesWriteHead(l, s, e);
    case InstallBlock(_, _) => SimulatesInstall(l, s, e);
    case WriteClear(_) => SimulatesClear(l, s, e);
    case Crash => SimulatesCrash(l, s);
    case ReadHead(_) => SimulatesReadHead(l, s, e);
    case _ => SimulatesQuiet(l, s, e);
  }

  // ------------------------------------------------------- room for the list

  /** No budgeted run leaves the log region: either the region has room for all that begin_op
      lets in, or log_write always panics.  At LOGSIZE blocks the list can be one block too
      long, but then it pins every buffer and write_log cannot start. */
  predicate SafeSize(l: Layout) {
    l.size == 1 || l.size >= LOGSIZE
  }

  ghost predicate Safe(l: Layout, s: State) {
    && SafeSize(l) && Inv(l, s)
    && LR.Inv(LogView(l, s)) && LR.Reserved(LogView(l, s)) && LR.Bounded(LogView(l, s))
    && (s.phase.WritingLog? && s.phase.tail > 0 ==> |s.lh| < l.size)
  }

  /** Every listed block has a buffer of its own among the given ones. */
  lemma {:induction false} CoverSize(bufs: seq<Entry>, es: set<nat>, at: set<nat>)
    requires forall b :: b in es ==> exists i :: i in at && i < |bufs| && bufs[i].blockno == b
    ensures |es| <= |at|
  {
    if es != {} {
      var b :| b in es;
      var i :| i in at && i < |bufs| && bufs[i].blockno == b;
      forall c | c in es - {b} ensures exists j :: j in at - {i} && j < |bufs| && bufs[j].blockno == c {
        var j :| j in at && j < |bufs| && bufs[j].blockno == c;
        assert j in at - {i};
      }
      CoverSize(bufs, es - {b}, at - {i});
      assert |es - {b}| == |es| - 1 && |at - {i}| == |at| - 1;
    }
  }

  function Indices(n: nat): (r: set<nat>)
    ensures |r| == n && forall i: nat :: i in r <==> i < n
  {
    if n == 0 then {} else Indices(n - 1) + {n - 1}
  }

  ghost function Members(h: seq<nat>): set<nat> {
    set b | b in h
  }

  lemma {:induction false} DistinctSize(h: seq<nat>)
    requires Distinct(h)
    ensures |Members(h)| == |h|
  {
    if h != [] {
      var n := |h| - 1;
      DistinctSize(h[..n]);
      assert h[n] !in Members(h[..n]);
      assert Members(h) == Members(h[..n]) + {h[n]};
    }
  }

  /** A list of NBUF blocks takes every buffer. */
  lemma AllPinned(bufs: seq<Entry>, h: seq<nat>, k: nat)
    requires |bufs| == NBUF && Distinct(h) && |h| == NBUF && k < NBUF
    requires forall b :: b in h ==> DirtyFor(bufs, b)
    ensures bufs[k].dirty
  {
    DistinctSize(h);
    var all := Indices(NBUF);
    assert |all - {k}| == NBUF - 1;
    if !bufs[k].dirty {
      forall b | b in h ensures exists i :: i in all - {k} && i < |bufs| && bufs[i].blockno == b {
        assert DirtyFor(bufs, b);
        var i: nat :| i < |bufs| && bufs[i].dirty && bufs[i].blockno == b;
        assert i in all - {k};
      }
      CoverSize(bufs, Members(h), all - {k});
    }
  }

  lemma WriteLogFits(l: Layout, s: State, to: nat, from: nat)
    requires Safe(l, s) && Enabled(l, s, WriteLogBlock(to, from))
    ensures |s.lh| < l.size
  {
    if |s.lh| >= l.size && l.size >= LOGSIZE {
      AllPinned(s.bufs, s.lh, s.handles[to].buf);
    }
  }

  lemma LengthFits(v: LR.State)
    requires LR.Reserved(v) && LR.Modest(v)
    ensures |v.lh| <= LOGSIZE
  {
    LR.TotalAtLeast(v.ops, LR.SpareBlocks);
  }

  /** What an event does in the reservation protocol, if anything. */
  function Reserving(l: Layout, s: State, e: Event): Option<LR.Event>
    requires Enabled(l, s, e)
  {
    match e
    case LogTest(h) => Some(LR.Test(s.handles[h].op.value))
    case LogAppend(h) => Some(LR.Append(s.handles[h].op.value, BlockOf(s, h)))
    case BeginOp(op) => Some(LR.Begin(op))
    case EndOp(op) => Some(LR.End(op))
    case WriteClear(_) => Some(LR.Clear)
    case Finish => Some(LR.Done)
    case _ => None
  }

  lemma ReservingStep(l: Layout, s: State, e: Event)
    requires Inv(l, s) && Enabled(l, s, e) && !e.Crash? && !e.ReadHead?
    ensures var v, v' := LogView(l, s), LogView(l, Apply(l, s, e));
      match Reserving(l, s, e)
      case Some(x) => LR.Enabled(v, x) && v' == LR.Apply(v, x)
      case None => v' == v
  {
    hide CacheOk, HandlesOk, Coherent;
  }

  lemma SafeView(l: Layout, s: State, e: Event)
    requires Safe(l, s) && Enabled(l, s, e) && LR.Modest(LogView(l, s)) && !e.Crash? && !e.ReadHead?
    ensures var v' := LogView(l, Apply(l, s, e)); LR.Inv(v') && LR.Reserved(v') && LR.Bounded(v')
  {
    ReservingStep(l, s, e);
    hide LR.Inv, LR.Reserved, LR.Bounded, LR.Modest, LR.Apply, LR.Enabled, Inv, Apply;
    var x := Reserving(l, s, e);
    if x.Some? {
      LR.KeepsInv(LogView(l, s), x.value);
      LR.KeepsReserved(LogView(l, s), x.value);
      LR.KeepsBounded(LogView(l, s), x.value);
    }
  }

  lemma SafeFits(l: Layout, s: State, e: Event)
    requires Safe(l, s) && Enabled(l, s, e)
    requires LR.Modest(LogView(l, s)) && LR.Modest(LogView(l, Apply(l, s, e)))
    ensures Fits(l, s, e)
  {
    hide CacheOk, HandlesOk, Coherent, PhaseOk, LR.Modest, LR.Reserved, LR.Bounded, LR.Inv;
    match e
    case LogAppend(_) =>
      SafeView(l, s, e);
      LengthFits(LogView(l, Apply(l, s, e)));
    case WriteLogBlock(to, from) => WriteLogFits(l, s, to, from);
    case _ =>
  }

  lemma RestartView(l: Layout, s: State, e: Event)
    requires Inv(l, s) && Enabled(l, s, e) && (e.Crash? || e.ReadHead?)
    ensures var v := LogView(l, Apply(l, s, e)); LR.Inv(v) && LR.Reserved(v) && LR.Bounded(v)
  {
    hide CacheOk, HandlesOk;
    Keeps(l, s, e);
    var s' := Apply(l, s, e);
    assert s'.ops == map[] && |s'.lh| < l.size;
    assert LR.Total(s'.ops, LR.InTest) == 0 && LR.Total(s'.ops, LR.SpareBlocks) == 0;
  }

  /** On a safe layout every event of an operation within its budget fits and keeps it so. */
  lemma SafeKeeps(l: Layout, s: State, e: Event)
    requires Safe(l, s) && Enabled(l, s, e)
    requires LR.Modest(LogView(l, s)) && LR.Modest(LogView(l, Apply(l, s, e)))
    ensures Fits(l, s, e) && Safe(l, Apply(l, s, e))
  {
    SafeFits(l, s, e);
    Keeps(l, s, e);
    if e.Crash? || e.ReadHead? { RestartView(l, s, e); } else { SafeView(l, s, e); }
    if e.WriteLogBlock? { WriteLogFits(l, s, e.to, e.from); }
    hide LR.Inv, LR.Reserved, LR.Bounded, LR.Modest, Inv;
  }

  // --------------------------------------------------------------- whole runs

  lemma SpecStepIsNext(l: Layout, s: State, e: Event)
    requires Inv(l, s) && Enabled(l, s, e)
    ensures SpecNext(Abs(l, s), SpecStep(l, s, e, Abs(l, s)))
  {
    var a := Abs(l, s);
    if e.Modify? {
      assert s.phase.Running?;
      assert SpecWrite(a, SpecStep(l, s, e, a), BlockOf(s, e.h), e.data);
    }
  }

  lemma BootOk(l: Layout, d: Disk)
    requires WfDisk(l, d)
    ensures Inv(l, Boot(d)) && Abs(l, Boot(d)) == Spec(Recovered(l, d), Recovered(l, d), {})
  {
    var s := Boot(d);
    assert forall j: nat :: Refs(s.handles, j) == {};
  }

  /** No operation ever logs more than MAXOPBLOCKS distinct blocks. */
  ghost predicate Budgeted(l: Layout, s: State, es: seq<Event>)
    requires ValidRun(l, s, es)
    decreases |es|
  {
    LR.Modest(LogView(l, s)) && (es != [] ==> Budgeted(l, Apply(l, s, es[0]), es[1..]))
  }

  lemma BudgetedStep(l: Layout, s: State, es: seq<Event>)
    requires ValidRun(l, s, es) && Budgeted(l, s, es) && es != []
    ensures Enabled(l, s, es[0]) && ValidRun(l, Apply(l, s, es[0]), es[1..]) && Budgeted(l, Apply(l, s, es[0]), es[1..])
    ensures LR.Modest(LogView(l, s)) && LR.Modest(LogView(l, Apply(l, s, es[0])))
    ensures RunTo(l, s, es) == RunTo(l, Apply(l, s, es[0]), es[1..])
  {
  }

  lemma SafeStep(l: Layout, s: State, es: seq<Event>)
    requires Safe(l, s) && ValidRun(l, s, es) && Budgeted(l, s, es) && es != []
    ensures Enabled(l, s, es[0]) && Safe(l, Apply(l, s, es[0]))
    ensures ValidRun(l, Apply(l, s, es[0]), es[1..]) && Budgeted(l, Apply(l, s, es[0]), es[1..])
    ensures RunTo(l, s, es) == RunTo(l, Apply(l, s, es[0]), es[1..])
    ensures Shape(l, s) && Shape(l, Apply(l, s, es[0]))
    ensures Abs(l, Apply(l, s, es[0])) == SpecStep(l, s, es[0], Abs(l, s))
    ensures SpecNext(Abs(l, s), Abs(l, Apply(l, s, es[0])))
  {
    hide ValidRun, Budgeted, RunTo, Abs, SpecStep, SpecNext, LR.Modest, LR.Inv, LR.Reserved, LR.Bounded, Apply, Enabled;
    hide CacheOk, HandlesOk, Coherent, PhaseOk;
    BudgetedStep(l, s, es);
    SafeKeeps(l, s, es[0]);
    Simulates(l, s, es[0]);
    SpecStepIsNext(l, s, es[0]);
  }

  /** The specification's state after each of the first |es| events. */
  ghost function SpecTrace(l: Layout, s: State, es: seq<Event>): seq<Spec>
    requires Safe(l, s) && ValidRun(l, s, es) && Budgeted(l, s, es)
    decreases |es|
  {
    if es == [] then [Abs(l, s)]
    else SafeStep(l, s, es); [Abs(l, s)] + SpecTrace(l, Apply(l, s, es[0]), es[1..])
  }

  ghost predicate SpecBehaviour(t: seq<Spec>) {
    t != [] && forall i :: 0 <= i < |t| - 1 ==> SpecNext(t[i], t[i + 1])
  }

  lemma BehaviourCons(a: Spec, t: seq<Spec>)
    requires SpecBehaviour(t) && SpecNext(a, t[0])
    ensures SpecBehaviour([a] + t)
  {
    hide SpecNext;
  }

  lemma {:induction false} RunSimulates(l: Layout, s: State, es: seq<Event>)
    requires Safe(l, s) && ValidRun(l, s, es) && Budgeted(l, s, es)
    ensures Safe(l, RunTo(l, s, es)) && Shape(l, RunTo(l, s, es)) && Shape(l, s)
    ensures var t := SpecTrace(l, s, es);
      SpecBehaviour(t) && |t| == |es| + 1 && t[0] == Abs(l, s) && t[|es|] == Abs(l, RunTo(l, s, es))
    decreases |es|
  {
    hide Inv, LR.Inv, LR.Reserved, LR.Bounded, Abs, Apply, Enabled, SpecNext;
    SafeShape(l, s);
    if es != [] {
      SafeStep(l, s, es);
      hide ValidRun, Budgeted, RunTo, Safe;
      var s' := Apply(l, s, es[0]);
      RunSimulates(l, s', es[1..]);
      BehaviourCons(Abs(l, s), SpecTrace(l, s', es[1..]));
      assert SpecTrace(l, s, es) == [Abs(l, s)] + SpecTrace(l, s', es[1..]);
    }
  }

  lemma SafeShape(l: Layout, s: State)
    requires Safe(l, s)
    ensures Shape(l, s) && Inv(l, s)
  {
  }

  lemma SafeBoot(l: Layout, d: Disk)
    requires WfDisk(l, d) && SafeSize(l)
    ensures Safe(l, Boot(d))
  {
    BootOk(l, d);
  }

  /** The trace at i is what the machine stands for after i events, and the next event moves it
      by that event's own step. */
  ghost predicate TraceAt(l: Layout, s: State, es: seq<Event>, t: seq<Spec>, i: nat)
    requires i <= |es| && |t| == |es| + 1
  {
    && ValidRun(l, s, es[..i]) && Shape(l, RunTo(l, s, es[..i])) && t[i] == Abs(l, RunTo(l, s, es[..i]))
    && (i < |es| ==>
          && Enabled(l, RunTo(l, s, es[..i]), es[i])
          && t[i + 1] == SpecStep(l, RunTo(l, s, es[..i]), es[i], t[i]))
  }

  lemma TraceStarts(l: Layout, s: State, es: seq<Event>, t: seq<Spec>)
    requires ValidRun(l, s, es) && Shape(l, s) && |t| == |es| + 1 && t[0] == Abs(l, s)
    requires es != [] ==> t[1] == SpecStep(l, s, es[0], t[0])
    ensures TraceAt(l, s, es, t, 0)
  {
    hide Shape, Abs, SpecStep, Enabled, Apply;
    assert es[..0] == [];
  }

  lemma TraceCons(l: Layout, s: State, es: seq<Event>, a: Spec, t: seq<Spec>, i: nat)
    requires es != [] && Enabled(l, s, es[0]) && i < |es| && |t| == |es|
    requires TraceAt(l, Apply(l, s, es[0]), es[1..], t, i)
    ensures TraceAt(l, s, es, [a] + t, i + 1)
  {
    hide Shape, Abs, SpecStep, Enabled, Apply;
    assert es[..i + 1][0] == es[0] && es[..i + 1][1..] == es[1..][..i];
  }

  lemma {:induction false} TraceFollows(l: Layout, s: State, es: seq<Event>, i: nat)
    requires Safe(l, s) && ValidRun(l, s, es) && Budgeted(l, s, es) && i <= |es|
    ensures |SpecTrace(l, s, es)| == |es| + 1 && TraceAt(l, s, es, SpecTrace(l, s, es), i)
    decreases i
  {
    hide Safe, Abs, SpecStep, Enabled, Apply, SpecBehaviour, Budgeted, Shape, ValidRun, RunTo, TraceAt;
    RunSimulates(l, s, es);
    var t := SpecTrace(l, s, es);
    if es != [] {
      SafeStep(l, s, es);
      var s' := Apply(l, s, es[0]);
      RunSimulates(l, s', es[1..]);
      assert t == [Abs(l, s)] + SpecTrace(l, s', es[1..]);
      if i > 0 {
        TraceFollows(l, s', es[1..], i - 1);
        TraceCons(l, s, es, Abs(l, s), SpecTrace(l, s', es[1..]), i - 1);
      }
    }
    if i == 0 { TraceStarts(l, s, es, t); }
  }

  /** Every run from power-on of operations within their budget, with crashes anywhere, is a
      behaviour of the atomic-commit disk that starts from what recovery makes of the initial
      image: what the machine stands for moves, event by event, by the step that the
      specification has for that event. */
  lemma StorageRefinesAtomicDisk(l: Layout, d: Disk, es: seq<Event>)
    requires WfDisk(l, d) && SafeSize(l) && ValidRun(l, Boot(d), es) && Budgeted(l, Boot(d), es)
    ensures Safe(l, Boot(d)) && Safe(l, RunTo(l, Boot(d), es))
    ensures var t := SpecTrace(l, Boot(d), es);
      && SpecBehaviour(t) && |t| == |es| + 1
      && t[0] == Spec(Recovered(l, d), Recovered(l, d), {})
      && forall i: nat :: i <= |es| ==> TraceAt(l, Boot(d), es, t, i)
  {
    BootOk(l, d);
    SafeBoot(l, d);
    hide *;
    RunSimulates(l, Boot(d), es);
    forall i: nat | i <= |es| ensures TraceAt(l, Boot(d), es, SpecTrace(l, Boot(d), es), i) {
      TraceFollows(l, Boot(d), es, i);
    }
  }

  /** Only the header write changes the durable contents. */
  lemma {:induction false} DurableStable(l: Layout, s: State, es: seq<Event>)
    requires Safe(l, s) && ValidRun(l, s, es) && Budgeted(l, s, es)
    requires forall i :: 0 <= i < |es| ==> !es[i].WriteHead?
    ensures Safe(l, RunTo(l, s, es)) && WfDisk(l, RunTo(l, s, es).disk) && WfDisk(l, s.disk)
    ensures Recovered(l, RunTo(l, s, es).disk) == Recovered(l, s.disk)
    decreases |es|
  {
    hide Inv, LR.Inv, LR.Reserved, LR.Bounded, WfDisk, Apply, Enabled, SpecNext;
    SafeShape(l, s);
    if es != [] {
      SafeStep(l, s, es);
      hide ValidRun, Budgeted, RunTo, Safe;
      DurableStable(l, Apply(l, s, es[0]), es[1..]);
    }
  }

  /** A recovery that has installed everything leaves the durable contents in place. */
  lemma RecoveredIsHome(l: Layout, s: State)
    requires Inv(l, s) && s.phase.Finishing?
    ensures HomeOf(l, s.disk) == Recovered(l, s.disk)
  {
  }

  lemma SafeCrash(l: Layout, s: State)
    requires Safe(l, s)
    ensures Safe(l, Apply(l, s, Crash)) && Shape(l, s) && Apply(l, s, Crash).disk == s.disk
  {
    KeepsCrash(l, s);
    RestartView(l, s, Crash);
    hide LR.Inv, LR.Reserved, LR.Bounded, Inv;
  }

  /** Crash atomicity.  Crash a machine in any reachable state, then let it run with any
      number of further crashes until a recovery completes: the home blocks on disk are
      exactly the durable contents, whole transactions only. */
  lemma RecoveryRestoresDurable(l: Layout, s: State, es: seq<Event>)
    requires Safe(l, s) && ValidRun(l, Apply(l, s, Crash), es) && Budgeted(l, Apply(l, s, Crash), es)
    requires forall i :: 0 <= i < |es| ==> !es[i].WriteHead?
    requires RunTo(l, Apply(l, s, Crash), es).phase.Finishing?
    ensures Safe(l, RunTo(l, Apply(l, s, Crash), es)) && Shape(l, RunTo(l, Apply(l, s, Crash), es)) && Shape(l, s)
    ensures HomeOf(l, RunTo(l, Apply(l, s, Crash), es).disk) == Abs(l, s).durable
  {
    SafeCrash(l, s);
    hide ValidRun, RunTo, Budgeted, Safe, Inv;
    var t := RunTo(l, Apply(l, s, Crash), es);
    DurableStable(l, Apply(l, s, Crash), es);
    SafeShape(l, t);
    RecoveredIsHome(l, t);
  }

  lemma HomeIsDurable(l: Layout, s: State)
    requires Inv(l, s) && (s.phase.Running? || s.phase.WritingLog?)
    ensures HomeOf(l, s.disk) == Recovered(l, s.disk)
  {
    forall b: nat | IsHome(l, b) ensures s.disk[b] == RecoveredAt(l, s.disk, b) {}
  }

  /** Along every run without a header write no home block on disk changes: not while
      operations run, not while the log is being written, and not across crashes either. */
  lemma HomeUntouchedBeforeCommit(l: Layout, s: State, es: seq<Event>)
    requires Safe(l, s) && ValidRun(l, s, es) && Budgeted(l, s, es)
    requires forall i :: 0 <= i < |es| ==> !es[i].WriteHead?
    requires s.phase.Running? && (RunTo(l, s, es).phase.Running? || RunTo(l, s, es).phase.WritingLog?)
    ensures Shape(l, s) && Shape(l, RunTo(l, s, es)) && HomeOf(l, RunTo(l, s, es).disk) == HomeOf(l, s.disk)
  {
    hide ValidRun, RunTo, Budgeted, Safe, Inv;
    var t := RunTo(l, s, es);
    DurableStable(l, s, es);
    SafeShape(l, s);
    SafeShape(l, t);
    HomeIsDurable(l, s);
    HomeIsDurable(l, t);
  }

  /** The header is written, and so a transaction becomes durable, only with no operation
      outstanding; from then until the next operation begins, durable and current agree. */
  lemma CommitIsWhole(l: Layout, s: State, h: nat)
    requires Inv(l, s) && Enabled(l, s, WriteHead(h))
    ensures s.ops == map[] && Shape(l, Apply(l, s, WriteHead(h)))
    ensures var a := Abs(l, Apply(l, s, WriteHead(h))); a.durable == a.current == Abs(l, s).current
  {
    Simulates(l, s, WriteHead(h));
  }

  /** Whoever holds a buffer's lock sees the latest contents of its block. */
  lemma ReaderSeesCurrent(l: Layout, s: State, h: nat)
    requires Inv(l, s) && Up(s) && Owns(s, h) && IsHome(l, BlockOf(s, h))
    ensures DataOf(s, h) == Abs(l, s).current[BlockOf(s, h)]
  {
    HandleRefs(l, s, h);
    VisibleHit(s.bufs, BlockOf(s, h), s.disk[BlockOf(s, h)], s.handles[h].buf);
  }

  /** A logged, uncommitted buffer keeps its block and stays dirty until it is installed or lost in a crash. */
  lemma DirtyNeverEvicted(l: Layout, s: State, e: Event, i: nat)
    requires Inv(l, s) && Enabled(l, s, e) && Fits(l, s, e) && i < NBUF && s.bufs[i].dirty
    requires !e.InstallBlock? && !e.Crash?
    ensures Apply(l, s, e).bufs[i].dirty && Apply(l, s, e).bufs[i].blockno == s.bufs[i].blockno
  {
    hide HandlesOk;
    assert s.bufs[i].blockno in Pending(s);
    assert EntryOk(l, s.bufs[i]);
    match e
    case WriteLogBlock(to, _) => HandleRefs(l, s, to);
    case WriteHead(h) => HandleRefs(l, s, h);
    case WriteClear(h) => HandleRefs(l, s, h);
    case _ =>
  }
}
