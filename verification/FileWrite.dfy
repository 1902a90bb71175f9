/** fileread and filewrite on inodes (src/file.c).  Each chunk of filewrite is one operation of
    the log; fileread is none. */
module FileWrite {
  import opened Params
  import opened FileSystem
  import opened FileOps

  /** ((MAXOPBLOCKS - 1 - 1 - 2) / 2) * 512 */
  const MAX_CHUNK := 1536

  /** Two adjacent overwrites are one. */
  lemma OverwriteTwice(s: seq<Byte>, off: nat, data: seq<Byte>, k: nat, m: nat)
    requires off <= |s| && k <= m <= |data|
    ensures Overwrite(Overwrite(s, off, data[..k]), off + k, data[k..m]) == Overwrite(s, off, data[..m])
  {
    var x, y := Overwrite(Overwrite(s, off, data[..k]), off + k, data[k..m]), Overwrite(s, off, data[..m]);
    hide Overwrite;
    assert |x| == |y|;
    forall p | 0 <= p < |x| ensures x[p] == y[p] {}
  }

  lemma StoredTwice(a: Fs, b: Fs, c: Fs, i: nat, off: nat, src: seq<Byte>, k: nat, m: nat)
    requires k <= m <= |src| && Stored(a, b, i, off, src[..k]) && Stored(b, c, i, off + k, src[k..m])
    ensures Stored(a, c, i, off, src[..m])
  {
    OverwriteTwice(Contents(a, i), off, src, k, m);
    hide Overwrite, Inv, MappedTo, At, ByteAt;
  }

  /** A chunk touches at most four data blocks, so with the indirect block, the bitmap block
      and the inode block an operation logs at most seven blocks. */
  lemma ChunkFitsLog(off: nat, n: nat, bmap: nat, iblock: nat, ind: set<nat>, data: set<nat>, logged: set<nat>)
    requires n <= MAX_CHUNK && |data| <= Span(off, n) && |ind| <= 1
    requires logged <= {bmap, iblock} + ind + data
    ensures |logged| <= 7 <= MAXOPBLOCKS
  {
    Larger(logged, {bmap, iblock} + ind + data);
  }

  lemma {:induction false} Larger(a: set<nat>, b: set<nat>)
    requires a <= b
    ensures |a| <= |b|
  {
    if a != {} {
      var x :| x in a;
      Larger(a - {x}, b - {x});
    }
  }

  lemma StoredGives(a: Fs, b: Fs, i: nat, off: nat, src: seq<Byte>)
    requires Stored(a, b, i, off, src)
    ensures Inv(b) && i < |b.inodes| == |a.inodes| && SizeOk(b, i) && |b.disk| == |a.disk| && off + |src| <= b.inodes[i].size
    ensures HoleFree(a, i) ==> HoleFree(b, i)
  {
  }

  /** A volume between operations. */
  ghost predicate Ready(v: Volume, i: nat)
    reads v
  {
    Inv(v.fs) && i < |v.fs.inodes| && SizeOk(v.fs, i) && |v.dinodes| == |v.fs.inodes| && |v.fs.disk| <= BPB
  }

  /** File i has no hole and the inodes on disk are those in memory. */
  ghost predicate Settled(v: Volume, i: nat)
    reads v
  {
    Ready(v, i) && HoleFree(v.fs, i) && v.dinodes == v.fs.inodes
  }

  /** One chunk as one operation of the log. */
  method WriteChunk(v: Volume, i: nat, src: seq<Byte>, off: nat) returns (r: Result, ghost op: set<nat>)
    requires Ready(v, i) && |src| <= MAX_CHUNK
    modifies v
    ensures r.Fail? <==> off > old(v.fs.inodes[i].size) || off + |src| > MAXFILE * BSIZE
    ensures r.Fail? ==> v.fs == old(v.fs)
    ensures !r.Fail? ==> (r.Panic? <==> TooFew(old(v.fs), i, off, |src|))
    ensures r.Wrote? ==> Stored(old(v.fs), v.fs, i, off, src) && |op| <= MAXOPBLOCKS
    ensures r.Wrote? ==> Filled(old(v.fs), v.fs, i, off, |src|)
    ensures !r.Panic? ==> Ready(v, i) && (old(Settled(v, i)) ==> Settled(v, i)) && v.outstanding == old(v.outstanding)
  {
    v.logged, v.outstanding := {}, v.outstanding + 1;
    ghost var data;
    hide Filled, TooFew;
    r, data := v.Writei(i, src, off);
    op := v.logged;
    v.outstanding := v.outstanding - 1;
    if r.Wrote? {
      StoredGives(old(v.fs), v.fs, i, off, src);
      ChunkFitsLog(off, |src|, v.bmapstart, i / IPB + v.inodestart, Indirect(v.fs, i), data, v.logged);
    }
  }

  /** The first k bytes of src are stored at start, whole chunks so far. */
  ghost predicate Chunked(fs0: Fs, fs: Fs, i: nat, start: nat, src: seq<Byte>, k: nat) {
    && k <= |src| && Filled(fs0, fs, i, start, k)
    && if k == 0 then fs == fs0 else Stored(fs0, fs, i, start, src[..k])
  }

  lemma ChunkedNone(v: Volume, i: nat, start: nat, src: seq<Byte>)
    requires Ready(v, i)
    ensures Chunked(v.fs, v.fs, i, start, src, 0)
  {
    FillingStarts(v.fs, i, start);
  }

  lemma ChunkedNext(fs0: Fs, was: Fs, fs: Fs, i: nat, start: nat, src: seq<Byte>, k: nat, m: nat)
    requires Chunked(fs0, was, i, start, src, k) && 0 < m && k + m <= |src|
    requires Stored(was, fs, i, start + k, src[k..k + m]) && Filled(was, fs, i, start + k, m)
    ensures Chunked(fs0, fs, i, start, src, k + m)
  {
    hide Stored, Filled;
    FilledTwice(fs0, was, fs, i, start, k, m);
    if k > 0 { StoredTwice(fs0, was, fs, i, start, src, k, k + m); } else { assert src[0..m] == src[..m]; }
  }

  lemma ChunkedSize(fs0: Fs, fs: Fs, i: nat, start: nat, src: seq<Byte>, k: nat)
    requires Chunked(fs0, fs, i, start, src, k)
    ensures i < |fs.inodes| == |fs0.inodes| && (k > 0 ==> start + k <= fs.inodes[i].size) && (k == 0 ==> fs == fs0)
  {
    if k > 0 { StoredGives(fs0, fs, i, start, src[..k]); }
  }

  lemma ChunkedFails(fs0: Fs, fs: Fs, i: nat, start: nat, src: seq<Byte>, k: nat, m: nat)
    requires Chunked(fs0, fs, i, start, src, k) && k + m <= |src| && TooFew(fs, i, start + k, m)
    ensures Wf(fs0) && i < |fs0.inodes| && TooFew(fs0, i, start, |src|)
  {
    hide TooFew, Stored, RangeMapped;
    TooFewTwice(fs0, fs, i, start, k, m, |src|);
  }

  lemma ChunkedAll(fs0: Fs, fs: Fs, i: nat, start: nat, src: seq<Byte>)
    requires Chunked(fs0, fs, i, start, src, |src|)
    ensures Wf(fs0) && i < |fs0.inodes| && !TooFew(fs0, i, start, |src|)
    ensures if src == [] then fs == fs0 else Stored(fs0, fs, i, start, src)
  {
    hide TooFew, Stored;
    assert src[..|src|] == src;
    FillingEnds(fs0, fs, i, start, |src|);
  }

  /** The size of the chunk at k. */
  function ChunkAt(k: nat, n: nat): (m: nat)
    requires k < n
    ensures 0 < m <= MAX_CHUNK && k + m <= n && (k % MAX_CHUNK == 0 ==> k + m == n || (k + m) % MAX_CHUNK == 0)
  {
    if n - k > MAX_CHUNK then MAX_CHUNK else n - k
  }

  /** One turn of the loop. */
  method NextChunk(v: Volume, ghost fs0: Fs, i: nat, src: seq<Byte>, start: nat, k: nat) returns (r: Result, m: nat, ghost op: set<nat>)
    requires Ready(v, i) && k < |src| && Chunked(fs0, v.fs, i, start, src, k)
    modifies v
    ensures m == ChunkAt(k, |src|)
    ensures r.Wrote? ==> Chunked(fs0, v.fs, i, start, src, k + m) && |op| <= MAXOPBLOCKS
    ensures r.Fail? ==> Chunked(fs0, v.fs, i, start, src, k)
    ensures r.Fail? ==> i < |fs0.inodes| && (start > fs0.inodes[i].size || start + |src| > MAXFILE * BSIZE)
    ensures r.Panic? ==> Wf(fs0) && i < |fs0.inodes| && TooFew(fs0, i, start, |src|)
    ensures !r.Panic? ==> Ready(v, i) && (old(Settled(v, i)) ==> Settled(v, i)) && v.outstanding == old(v.outstanding)
  {
    hide Ready, Settled, Stored, Filled, TooFew, Chunked, ChunkAt;
    ghost var before := v.fs;
    ChunkedSize(fs0, before, i, start, src, k);
    m := ChunkAt(k, |src|);
    r, op := WriteChunk(v, i, src[k..k + m], start + k);
    match r
    case Panic => ChunkedFails(fs0, before, i, start, src, k, m);
    case Wrote => ChunkedNext(fs0, before, v.fs, i, start, src, k, m);
    case Fail =>
  }

  /** filewrite on an inode.  When every chunk succeeds the file is overwritten by all of
      src; when one fails a prefix of whole chunks has been stored.  A write that the file has
      room for panics exactly when it needs more blocks than are free at its start. */
  method Filewrite(v: Volume, i: nat, src: seq<Byte>, start: nat)
    returns (r: Result, off: nat, ghost ops: seq<set<nat>>)
    requires Ready(v, i)
    modifies v
    ensures forall k :: 0 <= k < |ops| ==> |ops[k]| <= MAXOPBLOCKS
    ensures r.Wrote? ==> off == start + |src| && (src == [] ==> v.fs == old(v.fs))
    ensures r.Wrote? && src != [] ==> Stored(old(v.fs), v.fs, i, start, src)
    ensures r.Fail? ==> start <= off < start + |src| && (off - start) % MAX_CHUNK == 0
    ensures r.Fail? ==> Chunked(old(v.fs), v.fs, i, start, src, off - start)
    ensures r.Fail? ==> start > old(v.fs.inodes[i].size) || start + |src| > MAXFILE * BSIZE
    ensures r.Panic? ==> TooFew(old(v.fs), i, start, |src|)
    ensures r.Wrote? ==> !TooFew(old(v.fs), i, start, |src|)
    ensures !r.Panic? ==> Ready(v, i) && (old(Settled(v, i)) ==> Settled(v, i)) && v.outstanding == old(v.outstanding)
  {
    hide Ready, Settled, Stored, Filled, TooFew, Chunked, ChunkAt;
    ChunkedNone(v, i, start, src);
    var k := 0;
    off, ops := start, [];
    while k < |src|
      invariant 0 <= k <= |src| && off == start + k && (k == |src| || k % MAX_CHUNK == 0)
      invariant forall t :: 0 <= t < |ops| ==> |ops[t]| <= MAXOPBLOCKS
      invariant Ready(v, i) && (old(Settled(v, i)) ==> Settled(v, i)) && v.outstanding == old(v.outstanding)
      invariant Chunked(old(v.fs), v.fs, i, start, src, k)
    {
      ghost var op;
      var n1;
      r, n1, op := NextChunk(v, old(v.fs), i, src, start, k);
      if !r.Wrote? { return; }
      ops := ops + [op];
      off, k := off + n1, k + n1;
    }
    ChunkedAll(old(v.fs), v.fs, i, start, src);
    r := Wrote;
  }

  /** fileread on an inode: readi outside of any operation of its own, so that reading a hole
      is a panic unless some other process is inside one. */
  method Fileread(v: Volume, i: nat, n: nat, start: nat) returns (r: ReadResult, off: nat)
    requires Ready(v, i) && n < UINT
    modifies v`fs, v`logged
    ensures r.Refused? <==> start > old(v.fs.inodes[i].size) || start + n >= UINT
    ensures !r.Refused? && v.outstanding == 0 ==>
      (r.Panic? <==> Hole(old(v.fs), i, start, ReadLength(old(v.fs.inodes[i].size), start, n)))
    ensures !r.Refused? && v.outstanding > 0 ==>
      (r.Panic? <==> TooFew(old(v.fs), i, start, ReadLength(old(v.fs.inodes[i].size), start, n)))
    ensures r.Got? ==>
      && off == start + |r.bytes| <= old(v.fs.inodes[i].size) && r.bytes == Contents(old(v.fs), i)[start..off]
      && SameFiles(old(v.fs), v.fs)
      && |r.bytes| == ReadLength(old(v.fs.inodes[i].size), start, n)
    ensures r.Got? && v.outstanding == 0 ==> v.fs == old(v.fs)
    ensures !r.Got? ==> off == start
  {
    hide Hole, TooFew, SameFiles, Contents;
    r := v.Readi(i, start, n);
    off := if r.Got? then start + |r.bytes| else start;
  }
}
