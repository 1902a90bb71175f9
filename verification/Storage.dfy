/** Buffer cache, log and crashes as one interleaved machine (src/bio.c, src/log.c).

    A handle is one caller's reference to a buffer between bget and brelse.
    Events are atomic at the granularity of the source's locks: bget's scan runs
    under bcache.lock; a buffer's data is touched only by the handle that holds its
    sleep lock, so memmove and the bwrite that follows it are one event; log_write's
    test for room, made before it takes log.lock, is an event of its own.  Crash may
    come between any two events.  The buffer that bget recycles is any eligible
    one, of which the least recently used (module BufferCache) is one choice. */
module Storage {
  import opened Params
  import opened DiskLog
  import LogReservation

  datatype Entry = Entry(dev: nat, blockno: nat, valid: bool, dirty: bool,
                         refcnt: nat, locked: bool, data: Block)

  const EMPTY_ENTRY := Entry(0, 0, false, false, 0, false, Data([]))

  datatype Handle = Handle(buf: nat, locked: bool, op: Option<nat>, modified: bool)

  /** What end_op's caller is doing; committing is every phase but Running. */
  datatype Phase =
    | Running
    | WritingLog(tail: nat)
    | Installing(tail: nat, recovering: bool)
    | Finishing
    | Booting

  datatype State = State(disk: Disk, bufs: seq<Entry>, handles: map<nat, Handle>,
                         lh: seq<nat>, ops: map<nat, LogReservation.Op>, phase: Phase)

  datatype Event =
    | Get(h: nat, owner: Option<nat>, b: nat, i: nat)
    | Lock(h: nat)
    | Load(h: nat)
    | Modify(h: nat, data: Block)
    | LogTest(h: nat)
    | LogAppend(h: nat)
    | Unlock(h: nat)
    | Unref(h: nat)
    | BeginOp(op: nat)
    | EndOp(op: nat)
    | WriteLogBlock(to: nat, from: nat)
    | WriteHead(h: nat)
    | InstallBlock(lb: nat, db: nat)
    | WriteClear(h: nat)
    | Finish
    | Crash
    | ReadHead(h: nat)

  predicate Holds(e: Entry, b: nat) {
    e.dev == ROOTDEV && e.blockno == b
  }

  predicate Cached(s: State, b: nat) {
    exists i :: 0 <= i < |s.bufs| && Holds(s.bufs[i], b)
  }

  /** bget: use the buffer that holds b, else recycle one that is neither referenced nor dirty. */
  function GetEntry(e: Entry, b: nat): Entry {
    if Holds(e, b) then e.(refcnt := e.refcnt + 1)
    else Entry(ROOTDEV, b, false, false, 1, e.locked, e.data)
  }

  predicate CanGet(s: State, b: nat, i: nat) {
    && i < |s.bufs|
    && (if Cached(s, b) then Holds(s.bufs[i], b) else s.bufs[i].refcnt == 0 && !s.bufs[i].dirty)
  }

  /** Handle h owns the sleep lock of a valid buffer. */
  predicate Owns(s: State, h: nat) {
    && h in s.handles
    && s.handles[h].locked
    && s.handles[h].buf < |s.bufs|
    && s.bufs[s.handles[h].buf].valid
  }

  function BlockOf(s: State, h: nat): nat
    requires Owns(s, h)
  {
    s.bufs[s.handles[h].buf].blockno
  }

  function DataOf(s: State, h: nat): Block
    requires Owns(s, h)
  {
    s.bufs[s.handles[h].buf].data
  }

  predicate InOp(s: State, h: nat) {
    h in s.handles && s.handles[h].op.Some? && s.handles[h].op.value in s.ops
  }

  /** The log as the reservation protocol sees it. */
  function LogView(l: Layout, s: State): LogReservation.State {
    LogReservation.State(l.size, s.lh, s.ops, !s.phase.Running?)
  }

  /** Handle h may be passed to log_write. */
  predicate CanLog(l: Layout, s: State, h: nat) {
    Owns(s, h) && InOp(s, h) && IsHome(l, BlockOf(s, h))
  }

  /** Everything the operation changed has been passed to log_write. */
  predicate Settled(s: State, op: nat) {
    forall h :: h in s.handles && s.handles[h].op == Some(op) ==> !s.handles[h].modified
  }

  predicate Enabled(l: Layout, s: State, e: Event) {
    match e
    case Get(h, owner, b, i) => h !in s.handles && b < l.total && CanGet(s, b, i)
    case Lock(h) => h in s.handles && !s.handles[h].locked
                    && s.handles[h].buf < |s.bufs| && !s.bufs[s.handles[h].buf].locked
    case Load(h) => h in s.handles && s.handles[h].locked && s.handles[h].buf < |s.bufs|
                    && !s.bufs[s.handles[h].buf].valid
                    && s.bufs[s.handles[h].buf].blockno < |s.disk|
    case Modify(h, data) => Owns(s, h) && InOp(s, h) && IsHome(l, BlockOf(s, h))
    case LogTest(h) =>
      CanLog(l, s, h) && LogReservation.Enabled(LogView(l, s), LogReservation.Test(s.handles[h].op.value))
    case LogAppend(h) =>
      CanLog(l, s, h) && LogReservation.Enabled(LogView(l, s), LogReservation.Append(s.handles[h].op.value, BlockOf(s, h)))
    case Unlock(h) => h in s.handles && s.handles[h].locked && !s.handles[h].modified
                      && s.handles[h].buf < |s.bufs|
    case Unref(h) => h in s.handles && !s.handles[h].locked && s.handles[h].buf < |s.bufs|
                     && s.bufs[s.handles[h].buf].refcnt > 0
    case BeginOp(op) => LogReservation.Enabled(LogView(l, s), LogReservation.Begin(op))
    case EndOp(op) => LogReservation.Enabled(LogView(l, s), LogReservation.End(op)) && Settled(s, op)
    case WriteLogBlock(to, from) =>
      && s.phase.WritingLog? && s.phase.tail < |s.lh|
      && Owns(s, to) && BlockOf(s, to) == l.start + 1 + s.phase.tail < |s.disk|
      && Owns(s, from) && BlockOf(s, from) == s.lh[s.phase.tail]
    case WriteHead(h) =>
      && s.phase.WritingLog? && s.phase.tail == |s.lh|
      && Owns(s, h) && BlockOf(s, h) == l.start < |s.disk|
      && DataOf(s, h).Head? && |s.lh| <= |DataOf(s, h).block|
    case InstallBlock(lb, db) =>
      && s.phase.Installing? && s.phase.tail < |s.lh|
      && Owns(s, lb) && BlockOf(s, lb) == l.start + 1 + s.phase.tail
      && Owns(s, db) && BlockOf(s, db) == s.lh[s.phase.tail] < |s.disk|
    case WriteClear(h) =>
      && s.phase.Installing? && s.phase.tail == |s.lh|
      && Owns(s, h) && BlockOf(s, h) == l.start < |s.disk|
      && DataOf(s, h).Head?
    case Finish => s.phase.Finishing?
    case Crash => true
    case ReadHead(h) =>
      && s.phase.Booting?
      && Owns(s, h) && BlockOf(s, h) == l.start
      && DataOf(s, h).Head? && DataOf(s, h).n <= |DataOf(s, h).block|
  }

  /** bwrite: the buffer's new data reaches the disk and the buffer becomes clean. */
  function BwriteTo(s: State, h: nat, data: Block): State
    requires Owns(s, h) && BlockOf(s, h) < |s.disk|
  {
    var i := s.handles[h].buf;
    s.(bufs := s.bufs[i := s.bufs[i].(data := data, dirty := false)],
       disk := s.disk[BlockOf(s, h) := data])
  }

  /** binit: every buffer starts with key (0, 0), invalid and unreferenced. */
  function FreshBufs(n: nat): (r: seq<Entry>)
    ensures |r| == n && forall i :: 0 <= i < n ==> r[i] == EMPTY_ENTRY
  {
    if n == 0 then [] else FreshBufs(n - 1) + [EMPTY_ENTRY]
  }

  function Apply(l: Layout, s: State, e: Event): State
    requires Enabled(l, s, e)
  {
    match e
    case Get(h, owner, b, i) =>
      s.(bufs := s.bufs[i := GetEntry(s.bufs[i], b)],
         handles := s.handles[h := Handle(i, false, owner, false)])
    case Lock(h) =>
      var i := s.handles[h].buf;
      s.(bufs := s.bufs[i := s.bufs[i].(locked := true)],
         handles := s.handles[h := s.handles[h].(locked := true)])
    case Load(h) =>
      var i := s.handles[h].buf;
      s.(bufs := s.bufs[i := s.bufs[i].(valid := true, data := s.disk[s.bufs[i].blockno])])
    case Modify(h, data) =>
      var i := s.handles[h].buf;
      s.(bufs := s.bufs[i := s.bufs[i].(data := data)],
         handles := s.handles[h := s.handles[h].(modified := true)])
    case LogTest(h) =>
      s.(ops := LogReservation.Apply(LogView(l, s), LogReservation.Test(s.handles[h].op.value)).ops)
    case LogAppend(h) =>
      var i := s.handles[h].buf;
      var t := LogReservation.Apply(LogView(l, s), LogReservation.Append(s.handles[h].op.value, BlockOf(s, h)));
      s.(bufs := s.bufs[i := s.bufs[i].(dirty := true)],
         handles := s.handles[h := s.handles[h].(modified := false)],
         lh := t.lh, ops := t.ops)
    case Unlock(h) =>
      var i := s.handles[h].buf;
      s.(bufs := s.bufs[i := s.bufs[i].(locked := false)],
         handles := s.handles[h := s.handles[h].(locked := false)])
    case Unref(h) =>
      var i := s.handles[h].buf;
      s.(bufs := s.bufs[i := s.bufs[i].(refcnt := s.bufs[i].refcnt - 1)],
         handles := s.handles - {h})
    case BeginOp(op) => s.(ops := LogReservation.Apply(LogView(l, s), LogReservation.Begin(op)).ops)
    case EndOp(op) =>
      var t := LogReservation.Apply(LogView(l, s), LogReservation.End(op));
      s.(ops := t.ops,
         phase := if !t.committing then s.phase else if |s.lh| > 0 then WritingLog(0) else Finishing)
    case WriteLogBlock(to, from) =>
      BwriteTo(s, to, DataOf(s, from)).(phase := WritingLog(s.phase.tail + 1))
    case WriteHead(h) =>
      BwriteTo(s, h, HeadBlock(DataOf(s, h), s.lh)).(phase := Installing(0, false))
    case InstallBlock(lb, db) =>
      BwriteTo(s, db, DataOf(s, lb)).(phase := Installing(s.phase.tail + 1, s.phase.recovering))
    case WriteClear(h) =>
      BwriteTo(s, h, HeadBlock(DataOf(s, h), [])).(lh := [], phase := Finishing)
    case Finish => s.(phase := Running)
    case Crash => State(s.disk, FreshBufs(NBUF), map[], [], map[], Booting)
    case ReadHead(h) =>
      s.(lh := DataOf(s, h).block[..DataOf(s, h).n], phase := Installing(0, true))
  }

  /** The machine right after power-on over a disk whose header may or may not be empty. */
  function Boot(d: Disk): State {
    State(d, FreshBufs(NBUF), map[], [], map[], Booting)
  }

  ghost predicate ValidRun(l: Layout, s: State, es: seq<Event>)
    decreases |es|
  {
    es != [] ==> Enabled(l, s, es[0]) && ValidRun(l, Apply(l, s, es[0]), es[1..])
  }

  ghost function RunTo(l: Layout, s: State, es: seq<Event>): State
    requires ValidRun(l, s, es)
    decreases |es|
  {
    if es == [] then s else RunTo(l, Apply(l, s, es[0]), es[1..])
  }
}
