/** What the unlocked test of log_write costs: on a log region of two blocks or more, but less
    than LOGSIZE, operations within their budget make write_log run over the end of the region
    and overwrite a home block before anything is committed. */
module LogOverrun {
  import opened Params
  import opened DiskLog
  import opened Storage
  import opened StorageRefinement
  import LR = LogReservation

  const BLANK := Data([0])
  const WRITTEN := Data([1])

  /** Room behind the region, and home blocks enough to list one more than it holds. */
  ghost predicate Roomy(l: Layout) {
    WfLayout(l) && l.start + l.size < l.total && 2 * l.size <= l.total
  }

  /** The home blocks, those behind the log region first. */
  function Home(l: Layout, j: nat): nat {
    if l.start + l.size + j < l.total then l.start + l.size + j else j - (l.total - l.start - l.size)
  }

  lemma HomeIsHome(l: Layout, j: nat)
    requires Roomy(l) && j < l.size
    ensures IsHome(l, Home(l, j))
  {
  }

  function Homes(l: Layout): (r: seq<nat>)
    ensures |r| == l.size && forall j :: 0 <= j < l.size ==> r[j] == Home(l, j)
  {
    seq(l.size, j requires 0 <= j => Home(l, j))
  }

  lemma HomesDistinct(l: Layout)
    requires Roomy(l)
    ensures Distinct(Homes(l))
  {
  }

  function Zeros(n: nat): (r: seq<nat>)
    ensures |r| == n
  {
    seq(n, i => 0)
  }

  /** An image with an empty log. */
  function Image(l: Layout): (d: Disk)
    ensures |d| == l.total
    ensures forall b :: 0 <= b < l.total ==> d[b] == if b == l.start then Head(0, Zeros(LOGSIZE)) else BLANK
  {
    seq(l.total, b requires 0 <= b => if b == l.start then Head(0, Zeros(LOGSIZE)) else BLANK)
  }

  // ---------------------------------------------------------------------- reachability

  ghost predicate NoHead(es: seq<Event>) {
    forall i :: 0 <= i < |es| ==> !es[i].WriteHead?
  }

  /** Operations within their budget get from power-on to s without a header write. */
  ghost predicate Reaches(l: Layout, d: Disk, s: State) {
    exists es :: ValidRun(l, Boot(d), es) && Budgeted(l, Boot(d), es) && NoHead(es) && RunTo(l, Boot(d), es) == s
  }

  lemma {:induction false} RunSnoc(l: Layout, s: State, es: seq<Event>, e: Event)
    requires ValidRun(l, s, es) && Budgeted(l, s, es) && Enabled(l, RunTo(l, s, es), e)
    requires LR.Modest(LogView(l, Apply(l, RunTo(l, s, es), e)))
    ensures ValidRun(l, s, es + [e]) && Budgeted(l, s, es + [e])
    ensures RunTo(l, s, es + [e]) == Apply(l, RunTo(l, s, es), e)
    decreases |es|
  {
    hide Enabled, Apply, LR.Modest;
    if es == [] {
      assert es + [e] == [e] && [e][1..] == [];
    } else {
      assert (es + [e])[1..] == es[1..] + [e];
      RunSnoc(l, Apply(l, s, es[0]), es[1..], e);
    }
  }

  lemma ReachesNext(l: Layout, d: Disk, s: State, e: Event)
    requires Reaches(l, d, s) && Enabled(l, s, e) && !e.WriteHead? && LR.Modest(LogView(l, Apply(l, s, e)))
    ensures Reaches(l, d, Apply(l, s, e))
  {
    hide Enabled, Apply, LR.Modest, ValidRun, Budgeted, RunTo;
    var es :| ValidRun(l, Boot(d), es) && Budgeted(l, Boot(d), es) && NoHead(es) && RunTo(l, Boot(d), es) == s;
    RunSnoc(l, Boot(d), es, e);
    assert NoHead(es + [e]);
  }

  lemma ReachesBoot(l: Layout, d: Disk)
    ensures Reaches(l, d, Boot(d))
  {
    var es: seq<Event> := [];
    assert ValidRun(l, Boot(d), es) && Budgeted(l, Boot(d), es) && NoHead(es) && RunTo(l, Boot(d), es) == Boot(d);
  }

  /** An event that leaves the list and the operations alone keeps their budget. */
  lemma ReachesQuiet(l: Layout, d: Disk, s: State, e: Event)
    requires Reaches(l, d, s) && Enabled(l, s, e) && !e.WriteHead? && LR.Modest(LogView(l, s)) && Apply(l, s, e).ops == s.ops
    ensures Reaches(l, d, Apply(l, s, e)) && LR.Modest(LogView(l, Apply(l, s, e)))
  {
    assert LR.Modest(LogView(l, Apply(l, s, e)));
    hide *;
    ReachesNext(l, d, s, e);
  }

  // ----------------------------------------------------------------------- filling the log

  const SPARE := NBUF - 1

  function HeaderEntry(): Entry {
    Entry(ROOTDEV, 0, true, false, 0, false, Head(0, Zeros(LOGSIZE)))
  }

  /** Buffer j holds the j-th home block, changed: released, or held by handle j. */
  function Buf(l: Layout, j: nat, p: nat, k: nat): Entry {
    Entry(ROOTDEV, Home(l, j), true, j < k, if j < p then 0 else 1, j >= p, WRITTEN)
  }

  function HandleFor(j: nat, k: nat): Handle {
    Handle(j, true, Some(LR.Who(j, 0)), j >= k)
  }

  /** Home blocks 0 to m - 1 are in the cache, changed; the first k are listed and the first p
      released; n more are between log_write's test and its append. */
  ghost predicate Stage(l: Layout, s: State, p: nat, m: nat, k: nat, n: nat) {
    && p <= k && k + n <= m <= l.size < NBUF && n <= 2
    && s.disk == Image(l) && s.phase == Running && |s.bufs| == NBUF
    && (forall j: nat :: j < m ==> s.bufs[j] == Buf(l, j, p, k))
    && (forall j: nat :: m <= j < SPARE ==> s.bufs[j] == EMPTY_ENTRY)
    && s.bufs[SPARE] == HeaderEntry().(blockno := l.start)
    && (forall h: nat :: h in s.handles <==> p <= h < m)
    && (forall h: nat :: p <= h < m ==> s.handles[h] == HandleFor(h, k))
    && LR.Filled(LogView(l, s), l.size, Homes(l), k, n) && LR.Inv(LogView(l, s))
  }

  lemma StageModest(l: Layout, s: State, p: nat, m: nat, k: nat, n: nat)
    requires Stage(l, s, p, m, k, n)
    ensures LR.Modest(LogView(l, s))
  {
    LR.FilledFrugal(LogView(l, s), l.size, Homes(l), k, n);
  }

  /** s with buffer m and handle m replaced. */
  function With(s: State, m: nat, e: Entry, h: Handle): State
    requires m < |s.bufs|
  {
    s.(bufs := s.bufs[m := e], handles := s.handles[m := h])
  }

  lemma WithTwice(s: State, m: nat, e: Entry, h: Handle, e': Entry, h': Handle)
    requires m < |s.bufs|
    ensures With(With(s, m, e, h), m, e', h') == With(s, m, e', h')
  {
    assert s.bufs[m := e][m := e'] == s.bufs[m := e'];
    assert s.handles[m := h][m := h'] == s.handles[m := h'];
  }

  lemma LockWith(l: Layout, s: State, m: nat, e: Entry, h: Handle)
    requires m < |s.bufs| && h.buf == m && !h.locked && !e.locked
    ensures Enabled(l, With(s, m, e, h), Lock(m))
    ensures Apply(l, With(s, m, e, h), Lock(m)) == With(s, m, e.(locked := true), h.(locked := true))
  {
    WithTwice(s, m, e, h, e.(locked := true), h.(locked := true));
  }

  lemma LoadWith(l: Layout, s: State, m: nat, e: Entry, h: Handle)
    requires m < |s.bufs| && h.buf == m && h.locked && !e.valid && e.blockno < |s.disk|
    ensures Enabled(l, With(s, m, e, h), Load(m))
    ensures Apply(l, With(s, m, e, h), Load(m)) == With(s, m, e.(valid := true, data := s.disk[e.blockno]), h)
  {
    WithTwice(s, m, e, h, e.(valid := true, data := s.disk[e.blockno]), h);
  }

  lemma ModifyWith(l: Layout, s: State, m: nat, e: Entry, h: Handle, data: Block)
    requires m < |s.bufs| && h.buf == m && h.locked && e.valid && h.op.Some? && h.op.value in s.ops && IsHome(l, e.blockno)
    ensures Enabled(l, With(s, m, e, h), Modify(m, data))
    ensures Apply(l, With(s, m, e, h), Modify(m, data)) == With(s, m, e.(data := data), h.(modified := true))
  {
    WithTwice(s, m, e, h, e.(data := data), h.(modified := true));
  }

  lemma UnlockWith(l: Layout, s: State, m: nat, e: Entry, h: Handle)
    requires m < |s.bufs| && h.buf == m && h.locked && !h.modified
    ensures Enabled(l, With(s, m, e, h), Unlock(m))
    ensures Apply(l, With(s, m, e, h), Unlock(m)) == With(s, m, e.(locked := false), h.(locked := false))
  {
    WithTwice(s, m, e, h, e.(locked := false), h.(locked := false));
  }

  /** The next home block is not in the cache, and buffer m is free for it. */
  lemma StageRoom(l: Layout, s: State, p: nat, m: nat, k: nat, n: nat)
    requires Roomy(l) && Stage(l, s, p, m, k, n) && m < l.size
    ensures IsHome(l, Home(l, m)) && CanGet(s, Home(l, m), m) && m !in s.handles && s.bufs[m] == EMPTY_ENTRY
    ensures LR.Who(m, 0) in s.ops
  {
    HomeIsHome(l, m);
    forall i | 0 <= i < |s.bufs| ensures !Holds(s.bufs[i], Home(l, m)) {}
  }

  lemma StageTaken(l: Layout, s: State, p: nat, m: nat, k: nat, n: nat)
    requires Stage(l, s, p, m, k, n) && m < l.size
    ensures Stage(l, With(s, m, Buf(l, m, p, k), HandleFor(m, k)), p, m + 1, k, n)
  {
    var t := With(s, m, Buf(l, m, p, k), HandleFor(m, k));
    assert LogView(l, t) == LogView(l, s);
    hide LR.Filled, LR.Inv;
  }

  /** bget, bread and the change of the next home block. */
  lemma Take(l: Layout, s: State, p: nat, m: nat, k: nat, n: nat) returns (t: State)
    requires Roomy(l) && Reaches(l, Image(l), s) && Stage(l, s, p, m, k, n) && m < l.size
    ensures Reaches(l, Image(l), t) && Stage(l, t, p, m + 1, k, n)
  {
    var d, b, o := Image(l), Home(l, m), LR.Who(m, 0);
    StageRoom(l, s, p, m, k, n);
    StageModest(l, s, p, m, k, n);
    StageTaken(l, s, p, m, k, n);
    t := With(s, m, Buf(l, m, p, k), HandleFor(m, k));
    assert d[b] == BLANK && s.disk == d && |s.bufs| == NBUF && m < NBUF && p <= k <= m;
    hide Reaches, Stage, LR.Modest, IsHome, Home, Image, LR.Who;
    var e, h := Entry(ROOTDEV, b, false, false, 1, false, Data([])), Handle(m, false, Some(o), false);
    ReachesQuiet(l, d, s, Get(m, Some(o), b, m));
    assert Apply(l, s, Get(m, Some(o), b, m)) == With(s, m, e, h);
    LockWith(l, s, m, e, h);
    ReachesQuiet(l, d, With(s, m, e, h), Lock(m));
    e, h := e.(locked := true), h.(locked := true);
    LoadWith(l, s, m, e, h);
    ReachesQuiet(l, d, With(s, m, e, h), Load(m));
    e := e.(valid := true, data := BLANK);
    ModifyWith(l, s, m, e, h, WRITTEN);
    ReachesQuiet(l, d, With(s, m, e, h), Modify(m, WRITTEN));
    assert e.(data := WRITTEN) == Buf(l, m, p, k) && h.(modified := true) == HandleFor(m, k);
  }

  lemma WhoNext(k: nat, n: nat)
    requires n < 2
    ensures LR.Who(k, n) == LR.Who(k + n, 0)
  {
    if n == 1 { LR.WhoNext(k, 0); }
  }

  lemma StageHandle(l: Layout, s: State, p: nat, m: nat, k: nat, n: nat, j: nat)
    requires Roomy(l) && Stage(l, s, p, m, k, n) && p <= j < m
    ensures CanLog(l, s, j) && s.handles[j] == HandleFor(j, k) && BlockOf(s, j) == Home(l, j)
  {
    HomeIsHome(l, j);
  }

  lemma StageLog(l: Layout, s: State, p: nat, m: nat, k: nat, n: nat)
    requires Stage(l, s, p, m, k, n)
    ensures LR.Filled(LogView(l, s), l.size, Homes(l), k, n) && LR.Inv(LogView(l, s))
    ensures |s.lh| == k && k + n <= m <= l.size < NBUF
  {
  }

  lemma TestApplies(l: Layout, s: State, h: nat, op: nat)
    requires CanLog(l, s, h) && s.handles[h].op == Some(op) && LR.Enabled(LogView(l, s), LR.Test(op))
    ensures Enabled(l, s, LogTest(h))
    ensures var t := Apply(l, s, LogTest(h)); t == s.(ops := t.ops) && LogView(l, t) == LR.Apply(LogView(l, s), LR.Test(op))
  {
  }

  lemma TestView(l: Layout, s: State, p: nat, m: nat, k: nat, n: nat)
    requires Roomy(l) && Stage(l, s, p, m, k, n) && k + n < m && n < 2 && k + 1 < l.size
    ensures Enabled(l, s, LogTest(k + n))
    ensures var t := Apply(l, s, LogTest(k + n));
      && t == s.(ops := t.ops)
      && LR.Filled(LogView(l, t), l.size, Homes(l), k, n + 1) && LR.Inv(LogView(l, t))
  {
    StageHandle(l, s, p, m, k, n, k + n);
    StageLog(l, s, p, m, k, n);
    WhoNext(k, n);
    hide Stage, LR.Who, LR.Filled, LR.Inv, CanLog, Enabled, Apply, LR.Enabled, LR.Apply, Roomy, Homes;
    LR.TestFilled(LogView(l, s), l.size, Homes(l), k, n);
    LR.KeepsInv(LogView(l, s), LR.Test(LR.Who(k, n)));
    TestApplies(l, s, k + n, LR.Who(k, n));
  }

  lemma StageSame(l: Layout, s: State, t: State, p: nat, m: nat, k: nat, n: nat, n': nat)
    requires Stage(l, s, p, m, k, n) && t == s.(ops := t.ops) && k + n' <= m && n' <= 2
    requires LR.Filled(LogView(l, t), l.size, Homes(l), k, n') && LR.Inv(LogView(l, t))
    ensures Stage(l, t, p, m, k, n')
  {
    hide LR.Filled, LR.Inv;
  }

  lemma TestNext(l: Layout, s: State, p: nat, m: nat, k: nat, n: nat) returns (t: State)
    requires Roomy(l) && Reaches(l, Image(l), s) && Stage(l, s, p, m, k, n) && k + n < m && n < 2 && k + 1 < l.size
    ensures Reaches(l, Image(l), t) && Stage(l, t, p, m, k, n + 1)
  {
    hide Stage, Reaches, Enabled, Apply, LR.Filled, LR.Inv, LR.Modest, LogView, Roomy, Image;
    TestView(l, s, p, m, k, n);
    t := Apply(l, s, LogTest(k + n));
    StageSame(l, s, t, p, m, k, n, n + 1);
    StageModest(l, t, p, m, k, n + 1);
    ReachesNext(l, Image(l), s, LogTest(k + n));
  }

  lemma AppendView(l: Layout, s: State, p: nat, m: nat, k: nat, n: nat)
    requires Roomy(l) && Stage(l, s, p, m, k, n) && n > 0
    ensures Enabled(l, s, LogAppend(k)) && k < m && k < |s.bufs| && k in s.handles
    ensures var t := Apply(l, s, LogAppend(k));
      && t == With(s, k, s.bufs[k].(dirty := true), s.handles[k].(modified := false)).(lh := t.lh, ops := t.ops)
      && LR.Filled(LogView(l, t), l.size, Homes(l), k + 1, n - 1) && LR.Inv(LogView(l, t))
  {
    StageHandle(l, s, p, m, k, n, k);
    StageLog(l, s, p, m, k, n);
    hide Stage, LR.Who, LR.Filled, LR.Inv;
    var v, x := LogView(l, s), LR.Append(LR.Who(k, 0), Homes(l)[k]);
    LR.AppendFilled(v, l.size, Homes(l), k, n);
    LR.KeepsInv(v, x);
    assert LR.Apply(v, x) == v.(lh := LR.Apply(v, x).lh, ops := LR.Apply(v, x).ops);
    hide LR.Enabled, LR.Apply;
    assert LogView(l, Apply(l, s, LogAppend(k))) == LR.Apply(v, x);
  }

  lemma AppendStage(l: Layout, s: State, p: nat, m: nat, k: nat, n: nat, t: State)
    requires Stage(l, s, p, m, k, n) && n > 0 && |s.bufs| > k && k in s.handles
    requires t == With(s, k, s.bufs[k].(dirty := true), s.handles[k].(modified := false)).(lh := t.lh, ops := t.ops)
    requires LR.Filled(LogView(l, t), l.size, Homes(l), k + 1, n - 1) && LR.Inv(LogView(l, t))
    ensures Stage(l, t, p, m, k + 1, n - 1)
  {
    hide LR.Filled, LR.Inv;
  }

  lemma AppendNext(l: Layout, s: State, p: nat, m: nat, k: nat, n: nat) returns (t: State)
    requires Roomy(l) && Reaches(l, Image(l), s) && Stage(l, s, p, m, k, n) && n > 0
    ensures Reaches(l, Image(l), t) && Stage(l, t, p, m, k + 1, n - 1)
  {
    hide Stage, Reaches, Enabled, Apply, LR.Filled, LR.Inv, LR.Modest, LogView, With, Roomy, Image;
    AppendView(l, s, p, m, k, n);
    t := Apply(l, s, LogAppend(k));
    AppendStage(l, s, p, m, k, n, t);
    StageModest(l, t, p, m, k + 1, n - 1);
    ReachesNext(l, Image(l), s, LogAppend(k));
  }

  function Released(s: State, p: nat, e: Entry): State
    requires p < |s.bufs|
  {
    s.(bufs := s.bufs[p := e], handles := s.handles - {p})
  }

  lemma StageReleased(l: Layout, s: State, p: nat, m: nat, k: nat, n: nat)
    requires Stage(l, s, p, m, k, n) && p < k
    ensures p < m && p < |s.bufs| && p in s.handles && s == With(s, p, Buf(l, p, p, k), HandleFor(p, k))
    ensures Stage(l, Released(s, p, Buf(l, p, p + 1, k)), p + 1, m, k, n)
  {
    var t := Released(s, p, Buf(l, p, p + 1, k));
    assert LogView(l, t) == LogView(l, s);
    hide LR.Filled, LR.Inv;
  }

  /** brelse of the first block still held. */
  lemma Drop(l: Layout, s: State, p: nat, m: nat, k: nat, n: nat) returns (t: State)
    requires Reaches(l, Image(l), s) && Stage(l, s, p, m, k, n) && p < k
    ensures Reaches(l, Image(l), t) && Stage(l, t, p + 1, m, k, n)
  {
    StageReleased(l, s, p, m, k, n);
    StageModest(l, s, p, m, k, n);
    hide Reaches, Stage, LR.Modest, LR.Who, Home, Image;
    var d, e, h := Image(l), Buf(l, p, p, k), HandleFor(p, k);
    UnlockWith(l, s, p, e, h);
    ReachesQuiet(l, d, s, Unlock(p));
    var u := With(s, p, e.(locked := false), h.(locked := false));
    ReachesQuiet(l, d, u, Unref(p));
    t := Released(s, p, Buf(l, p, p + 1, k));
    assert Apply(l, u, Unref(p)).bufs == t.bufs;
    assert Apply(l, u, Unref(p)).handles == t.handles;
  }

  lemma FillOne(l: Layout, s: State, k: nat) returns (t: State)
    requires Roomy(l) && Reaches(l, Image(l), s) && Stage(l, s, k, k, k, 0) && k + 1 < l.size
    ensures Reaches(l, Image(l), t) && Stage(l, t, k + 1, k + 1, k + 1, 0)
  {
    hide *;
    t := Take(l, s, k, k, k, 0);
    t := TestNext(l, t, k, k + 1, k, 0);
    t := AppendNext(l, t, k, k + 1, k, 1);
    t := Drop(l, t, k, k + 1, k + 1, 0);
  }

  /** Two operations pass the test with room for one block. */
  lemma FillTwo(l: Layout, s: State, k: nat) returns (t: State)
    requires Roomy(l) && Reaches(l, Image(l), s) && Stage(l, s, k, k, k, 0) && k + 2 == l.size
    ensures Reaches(l, Image(l), t) && Stage(l, t, k + 2, k + 2, k + 2, 0)
  {
    hide *;
    t := Take(l, s, k, k, k, 0);
    t := Take(l, t, k, k + 1, k, 0);
    t := TestNext(l, t, k, k + 2, k, 0);
    t := TestNext(l, t, k, k + 2, k, 1);
    t := AppendNext(l, t, k, k + 2, k, 2);
    t := AppendNext(l, t, k, k + 2, k + 1, 1);
    t := Drop(l, t, k, k + 2, k + 2, 0);
    t := Drop(l, t, k + 1, k + 2, k + 2, 0);
  }

  // ------------------------------------------------------------------------- from power-on

  /** Recovery over an empty log is done, with the header in the spare buffer. */
  function Clean(l: Layout): State {
    Released(Boot(Image(l)).(phase := Running), SPARE, HeaderEntry().(blockno := l.start))
  }

  lemma ModestNone(l: Layout, s: State)
    requires s.ops == map[]
    ensures LR.Modest(LogView(l, s))
  {
  }

  lemma BootRead(l: Layout) returns (s: State, e: Entry, h: Handle)
    requires Roomy(l)
    ensures e == Entry(ROOTDEV, l.start, true, false, 1, true, Head(0, Zeros(LOGSIZE))) && h == Handle(SPARE, true, None, false)
    ensures s == With(Boot(Image(l)), SPARE, e, h) && Reaches(l, Image(l), s)
  {
    var d, b := Image(l), Boot(Image(l));
    ReachesBoot(l, d);
    ModestNone(l, b);
    assert d[l.start] == Head(0, Zeros(LOGSIZE)) && |d| == l.total;
    assert forall i :: 0 <= i < NBUF ==> b.bufs[i] == EMPTY_ENTRY;
    hide Reaches, LR.Modest, Image, Zeros;
    e, h := Entry(ROOTDEV, l.start, false, false, 1, false, Data([])), Handle(SPARE, false, None, false);
    ReachesQuiet(l, d, b, Get(SPARE, None, l.start, SPARE));
    assert Apply(l, b, Get(SPARE, None, l.start, SPARE)) == With(b, SPARE, e, h);
    LockWith(l, b, SPARE, e, h);
    ReachesQuiet(l, d, With(b, SPARE, e, h), Lock(SPARE));
    e, h := e.(locked := true), h.(locked := true);
    LoadWith(l, b, SPARE, e, h);
    ReachesQuiet(l, d, With(b, SPARE, e, h), Load(SPARE));
    e := e.(valid := true, data := d[l.start]);
    s := With(b, SPARE, e, h);
  }

  lemma HeadStays(l: Layout, d: Disk)
    requires d == Image(l) && l.start < l.total
    ensures HeadBlock(d[l.start], []) == d[l.start] && d[l.start := HeadBlock(d[l.start], [])] == d
  {
    var z := Zeros(LOGSIZE);
    assert [] + z[0..] == z;
  }

  lemma BootRecovers(l: Layout)
    requires Roomy(l)
    ensures Reaches(l, Image(l), Clean(l))
  {
    var s, e, h := BootRead(l);
    var d, b := Image(l), Boot(Image(l));
    HeadStays(l, d);
    ModestNone(l, s);
    assert d[l.start] == e.data && |d| == l.total && |e.data.block| == LOGSIZE;
    hide Reaches, LR.Modest, Image, Zeros, HeadBlock;
    ReachesQuiet(l, d, s, ReadHead(SPARE));
    var s1 := s.(phase := Installing(0, true));
    assert Apply(l, s, ReadHead(SPARE)) == s1;
    ReachesQuiet(l, d, s1, WriteClear(SPARE));
    var s2 := s.(phase := Finishing);
    assert Apply(l, s1, WriteClear(SPARE)) == s2 by { assert s1.bufs[SPARE := e] == s1.bufs; }
    ReachesQuiet(l, d, s2, Finish);
    var s3 := s.(phase := Running);
    assert s3 == With(b.(phase := Running), SPARE, e, h);
    UnlockWith(l, b.(phase := Running), SPARE, e, h);
    ReachesQuiet(l, d, s3, Unlock(SPARE));
    var u := With(b.(phase := Running), SPARE, e.(locked := false), h.(locked := false));
    ReachesQuiet(l, d, u, Unref(SPARE));
    assert Apply(l, u, Unref(SPARE)).bufs == Clean(l).bufs;
    assert Apply(l, u, Unref(SPARE)).handles == Clean(l).handles;
  }

  function Begun(l: Layout, n: nat): State {
    Clean(l).(ops := LR.IdleOps(n))
  }

  lemma IdleModest(size: nat, n: nat)
    requires n <= 3
    ensures LR.Modest(LR.Idle(size, n)) && LR.Inv(LR.Idle(size, n))
  {
    LR.IdleFrugal(n);
  }

  lemma BeginNext(l: Layout, n: nat)
    requires Reaches(l, Image(l), Begun(l, n)) && n < 3
    ensures Reaches(l, Image(l), Begun(l, n + 1))
  {
    var s, t := Begun(l, n), Begun(l, n + 1);
    assert LogView(l, s) == LR.Idle(l.size, n) && LogView(l, t) == LR.Idle(l.size, n + 1);
    LR.BeginIdle(l.size, n);
    IdleModest(l.size, n + 1);
    hide Reaches, LR.Modest, LR.Enabled, LR.Apply, LR.IdleOps, Clean;
    assert Apply(l, s, BeginOp(n)) == t;
    ReachesNext(l, Image(l), s, BeginOp(n));
  }

  lemma BegunStage(l: Layout)
    requires Roomy(l) && l.size < NBUF
    ensures Stage(l, Begun(l, 3), 0, 0, 0, 0)
  {
    HomesDistinct(l);
    LR.IdleFilled(l.size, Homes(l));
    IdleModest(l.size, 3);
    assert LogView(l, Begun(l, 3)) == LR.Idle(l.size, 3);
    hide LR.Filled, LR.Inv, LR.Idle, LR.IdleOps;
  }

  /** Recovery is over and three operations have begun. */
  lemma Started(l: Layout) returns (s: State)
    requires Roomy(l) && l.size < NBUF
    ensures Reaches(l, Image(l), s) && Stage(l, s, 0, 0, 0, 0)
  {
    hide Reaches, Stage, Roomy, Image;
    BootRecovers(l);
    assert Begun(l, 0) == Clean(l);
    hide Begun;
    BeginNext(l, 0);
    BeginNext(l, 1);
    BeginNext(l, 2);
    BegunStage(l);
    s := Begun(l, 3);
  }

  lemma {:induction false} FillTo(l: Layout, k: nat) returns (s: State)
    requires Roomy(l) && 2 <= l.size < NBUF && k + 2 <= l.size
    ensures Reaches(l, Image(l), s) && Stage(l, s, k, k, k, 0)
  {
    hide *;
    if k == 0 {
      s := Started(l);
    } else {
      s := FillTo(l, k - 1);
      s := FillOne(l, s, k - 1);
    }
  }

  // ------------------------------------------------------------------------- the overrun

  /** write_log has written t log blocks; every home block on disk is as it was. */
  ghost predicate Logged(l: Layout, s: State, t: nat) {
    && l.size < NBUF && s.phase == WritingLog(t) && s.lh == Homes(l) && s.ops == map[] && s.handles == map[]
    && |s.disk| == l.total && (forall b: nat :: b < l.total && !InLog(l, b) ==> s.disk[b] == BLANK)
    && l.start < l.total && s.disk[l.start] == Image(l)[l.start]
    && |s.bufs| == NBUF
    && (forall j: nat :: j < l.size ==> s.bufs[j] == Buf(l, j, l.size, l.size))
    && (forall j: nat :: l.size <= j < SPARE ==> s.bufs[j] == EMPTY_ENTRY)
    && Holds(s.bufs[SPARE], l.start + t) && s.bufs[SPARE].refcnt == 0 && !s.bufs[SPARE].locked && !s.bufs[SPARE].dirty
  }

  lemma FullEnds(l: Layout, s: State)
    requires Roomy(l) && l.size >= 2 && Stage(l, s, l.size, l.size, l.size, 0)
    ensures s.handles == map[] && s.ops.Keys == {0, 1, 2} && s.lh == Homes(l)
    ensures forall r :: r in s.ops ==> !s.ops[r].tested
    ensures Logged(l, s.(phase := WritingLog(0), ops := map[]), 0)
  {
    assert Homes(l)[..l.size] == Homes(l);
    LR.TurnsDiffer(l.size);
    assert forall h: nat :: h !in s.handles;
  }

  lemma EndNext(l: Layout, s: State, op: nat, more: nat)
    requires Reaches(l, Image(l), s) && LR.Modest(LogView(l, s)) && s.phase.Running? && s.handles == map[]
    requires op in s.ops && !s.ops[op].tested && more in s.ops && more != op
    ensures var t := s.(ops := s.ops - {op}); Reaches(l, Image(l), t) && LR.Modest(LogView(l, t))
  {
    var t := s.(ops := s.ops - {op});
    assert more in t.ops;
    assert LR.Modest(LogView(l, t));
    hide Reaches, LR.Modest;
    assert Apply(l, s, EndOp(op)) == t;
    ReachesNext(l, Image(l), s, EndOp(op));
  }

  lemma EndLast(l: Layout, s: State, op: nat)
    requires Reaches(l, Image(l), s) && s.phase.Running? && s.handles == map[] && s.lh != []
    requires s.ops.Keys == {op} && !s.ops[op].tested
    ensures Reaches(l, Image(l), s.(phase := WritingLog(0), ops := map[]))
  {
    var t := s.(phase := WritingLog(0), ops := map[]);
    assert s.ops - {op} == map[];
    ModestNone(l, t);
    hide Reaches, LR.Modest;
    assert Apply(l, s, EndOp(op)) == t;
    ReachesNext(l, Image(l), s, EndOp(op));
  }

  lemma EndAll(l: Layout, s: State) returns (t: State)
    requires Roomy(l) && l.size >= 2 && Reaches(l, Image(l), s) && Stage(l, s, l.size, l.size, l.size, 0)
    ensures Reaches(l, Image(l), t) && Logged(l, t, 0)
  {
    FullEnds(l, s);
    StageModest(l, s, l.size, l.size, l.size, 0);
    assert s.phase.Running?;
    hide Reaches, LR.Modest, Stage, Logged;
    EndNext(l, s, 0, 1);
    var a := s.(ops := s.ops - {0});
    EndNext(l, a, 1, 2);
    var b := a.(ops := a.ops - {1});
    assert b.ops.Keys == {2};
    EndLast(l, b, 2);
    t := s.(phase := WritingLog(0), ops := map[]);
  }

  /** No buffer but the spare one could hold a log block. */
  lemma LoggedRoom(l: Layout, s: State, t: nat)
    requires Roomy(l) && Logged(l, s, t) && t + 1 < l.size
    ensures CanGet(s, l.start + 1 + t, SPARE) && CanGet(s, Home(l, t), t) && l.start + 1 + t < l.total
    ensures s.bufs[t] == Buf(l, t, l.size, l.size) && Home(l, t) < l.total && l.start + 1 + t != Home(l, t)
  {
    HomeIsHome(l, t);
    forall i | 0 <= i < |s.bufs| ensures !Holds(s.bufs[i], l.start + 1 + t) {
      if i < l.size { HomeIsHome(l, i); }
    }
    assert Holds(s.bufs[t], Home(l, t));
  }

  /** bread of a cached block: handle j on buffer j. */
  lemma HoldCached(l: Layout, d: Disk, s: State, j: nat, b: nat) returns (u: State, e: Entry)
    requires Reaches(l, d, s) && s.ops == map[] && j !in s.handles && j < |s.bufs| && b < l.total
    requires CanGet(s, b, j) && Holds(s.bufs[j], b) && s.bufs[j].valid && s.bufs[j].refcnt == 0 && !s.bufs[j].locked
    ensures e == s.bufs[j].(refcnt := 1, locked := true)
    ensures u == With(s, j, e, Handle(j, true, None, false)) && Reaches(l, d, u)
  {
    ModestNone(l, s);
    hide Reaches, LR.Modest;
    var h := Handle(j, false, None, false);
    e := s.bufs[j].(refcnt := 1);
    ReachesQuiet(l, d, s, Get(j, None, b, j));
    assert Apply(l, s, Get(j, None, b, j)) == With(s, j, e, h);
    LockWith(l, s, j, e, h);
    ReachesQuiet(l, d, With(s, j, e, h), Lock(j));
    e := e.(locked := true);
    u := With(s, j, e, Handle(j, true, None, false));
  }

  /** bread of a log block into the spare buffer. */
  lemma HoldLogBlock(l: Layout, d: Disk, s: State, b: nat) returns (u: State, e: Entry)
    requires Reaches(l, d, s) && s.ops == map[] && SPARE !in s.handles && |s.bufs| == NBUF && b < l.total == |s.disk|
    requires CanGet(s, b, SPARE) && !Holds(s.bufs[SPARE], b) && !s.bufs[SPARE].locked
    ensures e == Entry(ROOTDEV, b, true, false, 1, true, s.disk[b])
    ensures u == With(s, SPARE, e, Handle(SPARE, true, None, false)) && Reaches(l, d, u)
  {
    ModestNone(l, s);
    hide Reaches, LR.Modest;
    var h := Handle(SPARE, false, None, false);
    e := Entry(ROOTDEV, b, false, false, 1, false, s.bufs[SPARE].data);
    ReachesQuiet(l, d, s, Get(SPARE, None, b, SPARE));
    assert Apply(l, s, Get(SPARE, None, b, SPARE)) == With(s, SPARE, e, h);
    LockWith(l, s, SPARE, e, h);
    ReachesQuiet(l, d, With(s, SPARE, e, h), Lock(SPARE));
    e, h := e.(locked := true), h.(locked := true);
    LoadWith(l, s, SPARE, e, h);
    ReachesQuiet(l, d, With(s, SPARE, e, h), Load(SPARE));
    e := e.(valid := true, data := s.disk[b]);
    u := With(s, SPARE, e, h);
  }

  /** brelse: handle j on buffer j. */
  lemma LetGo(l: Layout, d: Disk, s: State, j: nat, e: Entry) returns (u: State)
    requires j < |s.bufs| && s.ops == map[] && e.refcnt == 1
    requires Reaches(l, d, With(s, j, e, Handle(j, true, None, false)))
    ensures u == Released(s, j, e.(refcnt := 0, locked := false)) && Reaches(l, d, u)
  {
    var h := Handle(j, true, None, false);
    ModestNone(l, With(s, j, e, h));
    hide Reaches, LR.Modest;
    UnlockWith(l, s, j, e, h);
    ReachesQuiet(l, d, With(s, j, e, h), Unlock(j));
    var v := With(s, j, e.(locked := false), h.(locked := false));
    ReachesQuiet(l, d, v, Unref(j));
    u := Released(s, j, e.(refcnt := 0, locked := false));
    assert Apply(l, v, Unref(j)).bufs == u.bufs;
    assert Apply(l, v, Unref(j)).handles == u.handles;
  }

  /** The state after write_log's step for handles to and from. */
  lemma WriteNext(l: Layout, d: Disk, s: State, t: nat, to: nat, from: nat, e: Entry, f: Entry) returns (u: State)
    requires s.phase == WritingLog(t) && t < |s.lh| && s.ops == map[] && to != from && to < |s.bufs| && from < |s.bufs|
    requires e.valid && f.valid && e.blockno == l.start + 1 + t < |s.disk| && f.blockno == s.lh[t]
    requires Reaches(l, d, With(With(s, to, e, Handle(to, true, None, false)), from, f, Handle(from, true, None, false)))
    ensures var s' := s.(phase := WritingLog(t + 1), disk := s.disk[e.blockno := f.data]);
      u == With(With(s', to, e.(data := f.data, dirty := false), Handle(to, true, None, false)), from, f, Handle(from, true, None, false))
    ensures Reaches(l, d, u)
  {
    var w := With(With(s, to, e, Handle(to, true, None, false)), from, f, Handle(from, true, None, false));
    ModestNone(l, w);
    hide Reaches, LR.Modest;
    ReachesQuiet(l, d, w, WriteLogBlock(to, from));
    u := Apply(l, w, WriteLogBlock(to, from));
    var s' := s.(phase := WritingLog(t + 1), disk := s.disk[e.blockno := f.data]);
    var x := With(With(s', to, e.(data := f.data, dirty := false), Handle(to, true, None, false)), from, f, Handle(from, true, None, false));
    assert u.bufs == x.bufs && u.handles == x.handles;
  }

  lemma LoggedNext(l: Layout, s: State, t: nat, x: Entry) returns (u: State)
    requires Roomy(l) && Logged(l, s, t) && t + 1 < l.size
    requires x.blockno == l.start + 1 + t && x.dev == ROOTDEV && x.refcnt == 0 && !x.locked && !x.dirty
    ensures u == s.(phase := WritingLog(t + 1), disk := s.disk[l.start + 1 + t := WRITTEN], bufs := s.bufs[SPARE := x])
    ensures Logged(l, u, t + 1)
  {
    u := s.(phase := WritingLog(t + 1), disk := s.disk[l.start + 1 + t := WRITTEN], bufs := s.bufs[SPARE := x]);
  }

  lemma ReleasedTwice(s: State, i: nat, j: nat, e: Entry, f: Entry)
    requires i < |s.bufs| && j < |s.bufs| && i != j && s.handles == map[]
    ensures Released(With(s, i, e, Handle(i, true, None, false)), j, f) == With(s.(bufs := s.bufs[j := f]), i, e, Handle(i, true, None, false))
  {
  }

  lemma ReleasedLast(s: State, i: nat, e: Entry)
    requires i < |s.bufs| && s.handles == map[]
    ensures Released(s, i, e) == s.(bufs := s.bufs[i := e])
  {
  }

  /** One turn of write_log inside the region. */
  lemma WriteOne(l: Layout, s: State, t: nat) returns (u: State)
    requires Roomy(l) && Reaches(l, Image(l), s) && Logged(l, s, t) && t + 1 < l.size
    ensures Reaches(l, Image(l), u) && Logged(l, u, t + 1)
  {
    LoggedRoom(l, s, t);
    var d, b := Image(l), l.start + 1 + t;
    assert s.lh[t] == Home(l, t) && |s.lh| == l.size && |s.bufs| == NBUF && |s.disk| == l.total && s.handles == map[] && s.ops == map[];
    assert !Holds(s.bufs[SPARE], b) && !s.bufs[SPARE].locked && s.phase == WritingLog(t) && t < SPARE;
    var f0 := s.bufs[t];
    var x := Entry(ROOTDEV, b, true, false, 0, false, WRITTEN);
    var z := LoggedNext(l, s, t, x);
    hide Reaches, Logged, Image, Home, Homes;
    var v, e := HoldLogBlock(l, d, s, b);
    assert CanGet(v, Home(l, t), t) by { assert Holds(v.bufs[t], Home(l, t)); }
    var w, f := HoldCached(l, d, v, t, Home(l, t));
    hide CanGet;
    u := WriteNext(l, d, s, t, SPARE, t, e, f);
    var s' := s.(phase := WritingLog(t + 1), disk := s.disk[b := WRITTEN]);
    var e' := e.(data := WRITTEN, dirty := false);
    u := LetGo(l, d, With(s', SPARE, e', Handle(SPARE, true, None, false)), t, f);
    assert f.(refcnt := 0, locked := false) == f0;
    ReleasedTwice(s', SPARE, t, e', f0);
    assert s'.bufs[t := f0] == s'.bufs;
    u := LetGo(l, d, s', SPARE, e');
    ReleasedLast(s', SPARE, x);
    assert u == z;
  }

  lemma {:induction false} WriteTo(l: Layout, t: nat) returns (s: State)
    requires Roomy(l) && 2 <= l.size < NBUF && t < l.size
    ensures Reaches(l, Image(l), s) && Logged(l, s, t)
  {
    hide *;
    if t == 0 {
      s := FillTo(l, l.size - 2);
      s := FillTwo(l, s, l.size - 2);
      s := EndAll(l, s);
    } else {
      s := WriteTo(l, t - 1);
      s := WriteOne(l, s, t - 1);
    }
  }

  lemma LoggedFull(l: Layout, s: State)
    requires Roomy(l) && Logged(l, s, l.size - 1) && l.size >= 2
    ensures var z := l.size - 1;
      && s.lh[z] == Home(l, z) && Home(l, 0) == l.start + l.size < l.total == |s.disk| && Home(l, z) < l.total
      && CanGet(s, Home(l, 0), 0) && CanGet(s, Home(l, z), z)
      && s.bufs[0] == Buf(l, 0, l.size, l.size) && s.bufs[z] == Buf(l, z, l.size, l.size)
      && Home(l, 0) != Home(l, z) && s.disk[Home(l, 0)] == BLANK
  {
    HomeIsHome(l, 0);
    HomeIsHome(l, l.size - 1);
    assert Holds(s.bufs[0], Home(l, 0)) && Holds(s.bufs[l.size - 1], Home(l, l.size - 1));
    forall i | 0 <= i < |s.bufs| && i != 0 ensures !Holds(s.bufs[i], Home(l, 0)) {}
  }

  /** The last turn writes the block behind the region. */
  lemma WriteBehind(l: Layout) returns (u: State)
    requires Roomy(l) && 2 <= l.size < NBUF
    ensures Reaches(l, Image(l), u) && |u.disk| == l.total && u.phase.WritingLog?
    ensures u.disk[l.start + l.size] == WRITTEN && u.disk[l.start] == Image(l)[l.start]
  {
    var z := l.size - 1;
    var s := WriteTo(l, z);
    LoggedFull(l, s);
    assert |s.lh| == l.size && |s.bufs| == NBUF && s.handles == map[] && s.ops == map[];
    assert s.phase == WritingLog(z) && s.disk[l.start] == Image(l)[l.start];
    hide Reaches, Logged, Image, Home, Homes;
    var v, e := HoldCached(l, Image(l), s, 0, Home(l, 0));
    assert CanGet(v, Home(l, z), z) by { assert Holds(v.bufs[z], Home(l, z)); }
    var w, f := HoldCached(l, Image(l), v, z, Home(l, z));
    u := WriteNext(l, Image(l), s, z, 0, z, e, f);
  }

  // -------------------------------------------------------------------------- the condition

  /** Without a header write nothing that recovery gives changes. */
  ghost predicate Contained(l: Layout) {
    forall d, s :: WfDisk(l, d) && Reaches(l, d, s) ==> WfDisk(l, s.disk) && Recovered(l, s.disk) == Recovered(l, d)
  }

  lemma ImageOk(l: Layout)
    requires Roomy(l)
    ensures WfDisk(l, Image(l)) && IsHome(l, l.start + l.size) && Recovered(l, Image(l))[l.start + l.size] == BLANK
  {
    assert HeadOf(l, Image(l)) == [];
  }

  lemma BehindSeen(l: Layout, d: Disk)
    requires Roomy(l) && |d| == l.total && d[l.start] == Image(l)[l.start]
    ensures WfDisk(l, d) && IsHome(l, l.start + l.size) && Recovered(l, d)[l.start + l.size] == d[l.start + l.size]
  {
    assert HeadOf(l, d) == [];
  }

  lemma SafeContained(l: Layout, d: Disk, s: State)
    requires SafeSize(l) && WfDisk(l, d) && Reaches(l, d, s)
    ensures WfDisk(l, s.disk) && Recovered(l, s.disk) == Recovered(l, d)
  {
    hide ValidRun, Budgeted, RunTo, WfDisk;
    var es :| ValidRun(l, Boot(d), es) && Budgeted(l, Boot(d), es) && NoHead(es) && RunTo(l, Boot(d), es) == s;
    SafeBoot(l, d);
    hide Safe;
    DurableStable(l, Boot(d), es);
  }

  /** Uncommitted writes stay off the home blocks exactly on a region of one block, where
      log_write always panics, or of LOGSIZE blocks and more, which includes mkfs's own. */
  lemma ContainedIff(l: Layout)
    requires Roomy(l)
    ensures Contained(l) <==> SafeSize(l)
  {
    if SafeSize(l) {
      hide Reaches, WfDisk;
      forall d, s | WfDisk(l, d) && Reaches(l, d, s) ensures WfDisk(l, s.disk) && Recovered(l, s.disk) == Recovered(l, d) {
        SafeContained(l, d, s);
      }
    } else {
      var u := WriteBehind(l);
      ImageOk(l);
      hide Reaches, WfDisk, Image, Recovered;
      BehindSeen(l, u.disk);
      assert Recovered(l, u.disk) != Recovered(l, Image(l));
    }
  }
}
