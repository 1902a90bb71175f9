/** The disk and the on-disk redo log of src/log.c: one header block followed by
    the logged blocks, and what a recovery would make of a given disk. */
module DiskLog {
  import opened Params

  const LOGSIZE := MAXOPBLOCKS * 3
  const NBUF := MAXOPBLOCKS * 3
  const ROOTDEV := 1

  /** A block is raw data, except for the one block that holds the log header. */
  datatype Block = Data(bytes: seq<byte>) | Head(n: nat, block: seq<nat>)

  type Disk = seq<Block>

  /** log.start, log.size and the number of blocks of the device. */
  datatype Layout = Layout(start: nat, size: nat, total: nat)

  ghost predicate WfLayout(l: Layout) {
    1 <= l.size && l.start + l.size <= l.total
  }

  predicate InLog(l: Layout, b: nat) {
    l.start <= b < l.start + l.size
  }

  /** A home block is one outside the log region. */
  predicate IsHome(l: Layout, b: nat) {
    b < l.total && !InLog(l, b)
  }

  ghost predicate Distinct<T>(s: seq<T>) {
    forall i, j :: 0 <= i < j < |s| ==> s[i] != s[j]
  }

  /** The block numbers log_write may list. */
  ghost predicate Listable(l: Layout, h: seq<nat>) {
    && |h| <= LOGSIZE
    && (forall i :: 0 <= i < |h| ==> IsHome(l, h[i]))
    && Distinct(h)
  }

  /** The block numbers a header may list: as many as there are log blocks behind it. */
  ghost predicate WfEntries(l: Layout, h: seq<nat>) {
    Listable(l, h) && |h| < l.size
  }

  ghost predicate WfDisk(l: Layout, d: Disk) {
    && WfLayout(l)
    && |d| == l.total
    && d[l.start].Head?
    && |d[l.start].block| == LOGSIZE
    && d[l.start].n <= LOGSIZE
    && WfEntries(l, HeadOf(l, d))
  }

  /** The committed block list: the first n entries of the header on disk. */
  function HeadOf(l: Layout, d: Disk): seq<nat>
    requires l.start < |d| && d[l.start].Head? && d[l.start].n <= |d[l.start].block|
  {
    d[l.start].block[..d[l.start].n]
  }

  /** The header block write_head leaves: the first |h| entries replaced, the rest stale. */
  function HeadBlock(old_: Block, h: seq<nat>): (r: Block)
    requires old_.Head? && |h| <= |old_.block|
    ensures r.Head? && r.n == |h| && |r.block| == |old_.block| && r.block[..r.n] == h
  {
    Head(|h|, h + old_.block[|h|..])
  }

  /** The k-th logged block on disk. */
  function LogAt(l: Layout, d: Disk, k: nat): Block
    requires WfLayout(l) && |d| == l.total && k + 1 < l.size
  {
    d[l.start + 1 + k]
  }

  function IndexOf(h: seq<nat>, b: nat): (i: nat)
    requires b in h
    ensures i < |h| && h[i] == b
  {
    if h[0] == b then 0 else 1 + IndexOf(h[1..], b)
  }

  /** Contents of home block b once recovery has run on disk d. */
  function RecoveredAt(l: Layout, d: Disk, b: nat): Block
    requires WfDisk(l, d) && IsHome(l, b)
  {
    var h := HeadOf(l, d);
    if b in h then LogAt(l, d, IndexOf(h, b)) else d[b]
  }

  /** All home blocks after recovery, as one value. */
  function Recovered(l: Layout, d: Disk): (m: map<nat, Block>)
    requires WfDisk(l, d)
    ensures forall b :: b in m <==> IsHome(l, b)
    ensures forall b :: b in m ==> m[b] == RecoveredAt(l, d, b)
  {
    map b: nat | 0 <= b < l.total && IsHome(l, b) :: RecoveredAt(l, d, b)
  }

  /** The home blocks as they stand on disk. */
  function HomeOf(l: Layout, d: Disk): (m: map<nat, Block>)
    requires |d| == l.total
    ensures forall b :: b in m <==> IsHome(l, b)
    ensures forall b :: b in m ==> b < |d| && m[b] == d[b]
  {
    map b: nat | 0 <= b < l.total && IsHome(l, b) :: d[b]
  }
}
