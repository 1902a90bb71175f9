/** balloc, bfree, bmap, itrunc, readi, writei (src/fs.c) and filewrite (src/file.c). */
module FileOps {
  import opened Params
  import opened FileSystem

  const BPB := BSIZE * 8
  const IPB := 8

  /** Overwrite data at off <= |s|, extending s if need be. */
  function Overwrite(s: seq<Byte>, off: nat, data: seq<Byte>): (r: seq<Byte>)
    requires off <= |s|
    ensures |r| == if off + |data| > |s| then off + |data| else |s|
    ensures forall p :: 0 <= p < |r| ==> r[p] == if off <= p < off + |data| then data[p - off] else s[p]
  {
    s[..off] + data + (if off + |data| < |s| then s[off + |data|..] else [])
  }

  // ------------------------------------------------------------------ growing, on values

  /** fs is fs0 with empty slots of inode i filled by fresh blocks: slots that were in use are
      the same and so is every byte of every file. */
  ghost predicate Grown(fs0: Fs, fs: Fs, i: nat, slots: set<nat>) {
    && Inv(fs0) && Inv(fs) && fs.nmeta == fs0.nmeta && |fs.disk| == |fs0.disk| && |fs.inodes| == |fs0.inodes|
    && i < |fs.inodes| && fs.inodes[i].size == fs0.inodes[i].size && fs.inodes == fs0.inodes[i := fs.inodes[i]]
    && (forall j: nat, l: nat :: SlotOk(fs, j, l) && At(fs, j, l) != At(fs0, j, l) ==> j == i && l in slots && At(fs0, j, l) == 0)
    && (forall j: nat, pos: nat :: j < |fs.inodes| && pos < MAXFILE * BSIZE ==> ByteAt(fs, j, pos) == ByteAt(fs0, j, pos))
    && Paid(fs0, fs, i)
  }

  ghost function FreeBlocks(fs: Fs): set<nat> {
    set b: nat | b < |fs.used| && !fs.used[b]
  }

  ghost function NewSlots(fs0: Fs, fs: Fs, i: nat): set<nat>
    requires Wf(fs0) && Wf(fs) && i < |fs.inodes| == |fs0.inodes|
  {
    set l: nat | l < NSLOTS && At(fs, i, l) != At(fs0, i, l)
  }

  /** One free block went for each slot of inode i that was filled. */
  ghost predicate Paid(fs0: Fs, fs: Fs, i: nat)
    requires Wf(fs0) && Wf(fs) && i < |fs.inodes| == |fs0.inodes|
  {
    |FreeBlocks(fs0)| == |FreeBlocks(fs)| + |NewSlots(fs0, fs, i)|
  }

  /** Slots of inode i that were filled are as they were. */
  ghost predicate OnlyMore(fs0: Fs, fs: Fs, i: nat)
    requires Wf(fs0) && Wf(fs) && i < |fs.inodes| == |fs0.inodes|
  {
    forall l: nat :: l < NSLOTS && At(fs0, i, l) != 0 ==> At(fs, i, l) == At(fs0, i, l)
  }

  lemma PaidNothing(fs0: Fs, fs: Fs, i: nat)
    requires Wf(fs0) && Wf(fs) && i < |fs.inodes| == |fs0.inodes| && fs.used == fs0.used
    requires forall l: nat :: l < NSLOTS ==> At(fs, i, l) == At(fs0, i, l)
    ensures Paid(fs0, fs, i)
  {
    hide At, Wf;
    assert NewSlots(fs0, fs, i) == {};
    assert FreeBlocks(fs0) == FreeBlocks(fs);
  }

  lemma PaidOne(fs0: Fs, fs: Fs, i: nat, k: nat, b: nat)
    requires Wf(fs0) && Wf(fs) && i < |fs.inodes| == |fs0.inodes| && k < NSLOTS
    requires b < |fs0.used| && !fs0.used[b] && fs.used == fs0.used[b := true] && b != At(fs0, i, k)
    requires forall l: nat :: l < NSLOTS ==> At(fs, i, l) == if l == k then b else At(fs0, i, l)
    ensures Paid(fs0, fs, i)
  {
    hide At, Wf;
    assert NewSlots(fs0, fs, i) == {k};
    assert FreeBlocks(fs0) == FreeBlocks(fs) + {b} && b !in FreeBlocks(fs);
  }

  lemma PaidTwice(a: Fs, b: Fs, c: Fs, i: nat)
    requires Wf(a) && Wf(b) && Wf(c) && i < |a.inodes| == |b.inodes| == |c.inodes|
    requires OnlyMore(a, b, i) && OnlyMore(b, c, i) && Paid(a, b, i) && Paid(b, c, i)
    ensures Paid(a, c, i) && OnlyMore(a, c, i)
  {
    hide At, Wf, FreeBlocks;
    assert NewSlots(a, c, i) == NewSlots(a, b, i) + NewSlots(b, c, i);
    assert NewSlots(a, b, i) !! NewSlots(b, c, i);
  }

  lemma GrownRefl(fs: Fs, i: nat)
    requires Inv(fs) && i < |fs.inodes|
    ensures Grown(fs, fs, i, {})
  {
    PaidNothing(fs, fs, i);
  }

  lemma InstalledGrown(fs: Fs, i: nat, k: nat, b: nat)
    requires Inv(fs) && CanInstall(fs, i, k, b)
    ensures Grown(fs, Installed(fs, i, k, b), i, {k})
  {
    InstalledKeeps(fs, i, k, b);
    var fs' := Installed(fs, i, k, b);
    forall j: nat, l: nat | SlotOk(fs, j, l)
      ensures At(fs', j, l) == if i == j && k == l then b else At(fs, j, l)
    {
      InstalledAt(fs, i, k, b, j, l);
    }
    forall l: nat | l < NSLOTS ensures At(fs', i, l) == if l == k then b else At(fs, i, l) { assert SlotOk(fs, i, l); }
    IndirectUsed(fs, i);
    PaidOne(fs, fs', i, k, b);
    forall j: nat, pos: nat | j < |fs.inodes| && pos < MAXFILE * BSIZE
      ensures ByteAt(fs', j, pos) == ByteAt(fs, j, pos)
    {
      InstalledBytes(fs, i, k, b, j, pos);
    }
  }

  lemma GrownOnlyMore(fs0: Fs, fs: Fs, i: nat, slots: set<nat>)
    requires Grown(fs0, fs, i, slots)
    ensures Wf(fs0) && Wf(fs) && |fs.inodes| == |fs0.inodes| && OnlyMore(fs0, fs, i) && Paid(fs0, fs, i)
  {
    hide At, ByteAt, Paid;
    forall l: nat | l < NSLOTS && At(fs0, i, l) != 0 ensures At(fs, i, l) == At(fs0, i, l) { assert SlotOk(fs, i, l); }
  }

  lemma GrownTwice(a: Fs, b: Fs, c: Fs, i: nat, s: set<nat>, t: set<nat>)
    requires Grown(a, b, i, s) && Grown(b, c, i, t)
    ensures Grown(a, c, i, s + t)
  {
    GrownOnlyMore(a, b, i, s);
    GrownOnlyMore(b, c, i, t);
    PaidTwice(a, b, c, i);
    hide At, ByteAt, Paid;
    forall j: nat, l: nat | SlotOk(c, j, l) && At(c, j, l) != At(a, j, l)
      ensures j == i && l in s + t && At(a, j, l) == 0
    {
      assert SlotOk(b, j, l);
    }
  }

  // ----------------------------------------------------------------- writing, on values

  /** n bytes at off touch data block bn. */
  predicate Touched(off: nat, n: nat, bn: nat) {
    n > 0 && off / BSIZE <= bn <= (off + n - 1) / BSIZE
  }

  /** The slots bmap may fill for data block bn. */
  function BmapSlots(bn: nat): set<nat> {
    if bn < NDIRECT then {bn} else {NDIRECT, bn + 1}
  }

  /** The slots filled lie under n bytes at off. */
  ghost predicate FilledUnder(fs0: Fs, fs: Fs, i: nat, off: nat, n: nat)
    requires Wf(fs0) && Wf(fs) && i < |fs.inodes| && |fs0.inodes| == |fs.inodes|
  {
    forall l: nat :: l < NSLOTS && At(fs, i, l) != At(fs0, i, l) ==> Under(off, n, l)
  }

  ghost predicate Under(off: nat, n: nat, l: nat) {
    exists bn: nat :: bn < MAXFILE && Touched(off, n, bn) && l in BmapSlots(bn)
  }

  /** The empty slots under n bytes at off of file i, for each of which an access takes a
      block. */
  ghost function Missing(fs: Fs, i: nat, off: nat, n: nat): set<nat>
    requires Wf(fs) && i < |fs.inodes|
  {
    set l: nat | l < NSLOTS && Under(off, n, l) && At(fs, i, l) == 0
  }

  ghost predicate TooFew(fs: Fs, i: nat, off: nat, n: nat)
    requires Wf(fs) && i < |fs.inodes|
  {
    |FreeBlocks(fs)| < |Missing(fs, i, off, n)|
  }

  /** fs is fs0 with slots under n bytes at off of file i filled, one free block for each. */
  ghost predicate Filling(fs0: Fs, fs: Fs, i: nat, off: nat, n: nat) {
    && Wf(fs0) && Wf(fs) && i < |fs.inodes| == |fs0.inodes|
    && OnlyMore(fs0, fs, i) && FilledUnder(fs0, fs, i, off, n) && Paid(fs0, fs, i)
  }

  lemma FillingSame(fs0: Fs, fs: Fs, fs': Fs, i: nat, off: nat, n: nat)
    requires Filling(fs0, fs, i, off, n) && Wf(fs') && |fs'.inodes| == |fs.inodes| && fs'.used == fs.used
    requires forall l: nat :: l < NSLOTS ==> At(fs', i, l) == At(fs, i, l)
    ensures Filling(fs0, fs', i, off, n)
  {
    PaidNothing(fs, fs', i);
    assert OnlyMore(fs, fs', i);
    PaidTwice(fs0, fs, fs', i);
    hide At, Wf, Paid;
  }

  lemma FillingStarts(fs: Fs, i: nat, off: nat)
    requires Wf(fs) && i < |fs.inodes|
    ensures Filling(fs, fs, i, off, 0)
  {
    PaidNothing(fs, fs, i);
  }

  lemma FillingGrown(fs0: Fs, was: Fs, fs: Fs, i: nat, off: nat, done: nat, m: nat)
    requires Filling(fs0, was, i, off, done) && Grown(was, fs, i, BmapSlots((off + done) / BSIZE))
    requires 0 < m && (off + done) % BSIZE + m <= BSIZE && (off + done) / BSIZE < MAXFILE
    ensures Filling(fs0, fs, i, off, done + m)
  {
    GrownOnlyMore(was, fs, i, BmapSlots((off + done) / BSIZE));
    PaidTwice(fs0, was, fs, i);
    hide At, Wf, Paid, ByteAt, Under, OnlyMore;
    forall l: nat | l < NSLOTS && At(fs, i, l) != At(fs0, i, l) ensures Under(off, done + m, l) {
      assert SlotOk(fs, i, l);
      if At(fs, i, l) == At(was, i, l) { assert At(was, i, l) != At(fs0, i, l); }
      UnderNext(off, done, m, l);
    }
  }

  lemma UnderMore(off: nat, n: nat, n': nat, l: nat)
    requires Under(off, n, l) && n <= n'
    ensures Under(off, n', l)
  {
    var bn: nat :| bn < MAXFILE && Touched(off, n, bn) && l in BmapSlots(bn);
    assert Touched(off, n', bn);
  }

  lemma NewMissing(fs0: Fs, fs: Fs, i: nat, off: nat, n: nat)
    requires Filling(fs0, fs, i, off, n)
    ensures NewSlots(fs0, fs, i) <= Missing(fs0, i, off, n)
  {
    hide At, Wf, Paid, Under;
  }

  lemma MissingMore(fs: Fs, i: nat, off: nat, n: nat, n': nat)
    requires Wf(fs) && i < |fs.inodes| && n <= n'
    ensures Missing(fs, i, off, n) <= Missing(fs, i, off, n')
  {
    hide At, Wf, Under;
    forall l | l in Missing(fs, i, off, n) ensures Under(off, n', l) { UnderMore(off, n, n', l); }
  }

  lemma {:induction false} SubsetSize(a: set<nat>, b: set<nat>)
    requires a <= b
    ensures |a| <= |b| && (a != b ==> |a| < |b|)
  {
    if a == {} {
      assert b != {} ==> |b| > 0;
    } else {
      var x :| x in a;
      SubsetSize(a - {x}, b - {x});
      if a != b { assert a - {x} != b - {x} by { assert a == (a - {x}) + {x} && b == (b - {x}) + {x}; } }
    }
  }

  /** An access that finds the disk full was short of blocks from the start. */
  lemma FillingFails(fs0: Fs, fs: Fs, i: nat, off: nat, n: nat, bn: nat, n': nat)
    requires Filling(fs0, fs, i, off, n) && DiskFull(fs) && n <= n'
    requires bn < MAXFILE && Touched(off, n, bn) && At(fs, i, DataSlot(bn)) == 0
    ensures TooFew(fs0, i, off, n')
  {
    assert At(fs0, i, DataSlot(bn)) == 0;
    assert Under(off, n, DataSlot(bn));
    assert FreeBlocks(fs) == {};
    NewMissing(fs0, fs, i, off, n);
    MissingMore(fs0, i, off, n, n');
    assert DataSlot(bn) in Missing(fs0, i, off, n) && DataSlot(bn) !in NewSlots(fs0, fs, i);
    hide At, Wf, Under, Missing, NewSlots, FreeBlocks;
    SubsetSize(NewSlots(fs0, fs, i), Missing(fs0, i, off, n'));
  }

  /** An access that got all its blocks was not. */
  lemma FillingEnds(fs0: Fs, fs: Fs, i: nat, off: nat, n: nat)
    requires Filling(fs0, fs, i, off, n) && RangeMapped(fs, i, off, n)
    ensures !TooFew(fs0, i, off, n)
  {
    forall l | l in Missing(fs0, i, off, n) ensures At(fs, i, l) != 0 {
      var bn: nat :| bn < MAXFILE && Touched(off, n, bn) && l in BmapSlots(bn);
      assert At(fs, i, DataSlot(bn)) != 0;
      if bn >= NDIRECT { EntryNeedsIndirect(fs, i, bn + 1); }
    }
    hide At, Wf, Under;
    assert Missing(fs0, i, off, n) <= NewSlots(fs0, fs, i);
    SubsetSize(Missing(fs0, i, off, n), NewSlots(fs0, fs, i));
  }

  lemma TouchedJoin(off: nat, k: nat, m: nat, bn: nat)
    ensures Touched(off, k + m, bn) <==> Touched(off, k, bn) || Touched(off + k, m, bn)
  {
  }

  lemma UnderJoin(off: nat, k: nat, m: nat, l: nat)
    requires Under(off, k, l) || Under(off + k, m, l)
    ensures Under(off, k + m, l)
  {
    var bn: nat :| bn < MAXFILE && (Touched(off, k, bn) || Touched(off + k, m, bn)) && l in BmapSlots(bn);
    TouchedJoin(off, k, m, bn);
  }

  /** ... and no slot is missing any more. */
  ghost predicate Filled(fs0: Fs, fs: Fs, i: nat, off: nat, n: nat) {
    Filling(fs0, fs, i, off, n) && RangeMapped(fs, i, off, n)
  }

  lemma FilledTwice(a: Fs, b: Fs, c: Fs, i: nat, off: nat, k: nat, m: nat)
    requires Filled(a, b, i, off, k) && Filled(b, c, i, off + k, m)
    ensures Filled(a, c, i, off, k + m)
  {
    MoreMapped(b, c, i, off, k);
    FillingTwice(a, b, c, i, off, k, m);
    hide At, Filling, Touched;
    forall bn: nat | bn < MAXFILE && Touched(off, k + m, bn) ensures At(c, i, DataSlot(bn)) != 0 {
      TouchedJoin(off, k, m, bn);
    }
  }

  /** Two adjacent accesses fill as one. */
  lemma FillingTwice(a: Fs, b: Fs, c: Fs, i: nat, off: nat, k: nat, m: nat)
    requires Filling(a, b, i, off, k) && Filling(b, c, i, off + k, m)
    ensures Filling(a, c, i, off, k + m)
  {
    PaidTwice(a, b, c, i);
    hide At, Wf, Paid, Under, OnlyMore;
    forall l: nat | l < NSLOTS && At(c, i, l) != At(a, i, l) ensures Under(off, k + m, l) { UnderJoin(off, k, m, l); }
  }

  /** Blocks that run out in the second of two accesses were too few for both. */
  lemma TooFewTwice(a: Fs, b: Fs, i: nat, off: nat, k: nat, m: nat, n: nat)
    requires Filling(a, b, i, off, k) && TooFew(b, i, off + k, m) && k + m <= n
    ensures TooFew(a, i, off, n)
  {
    var x, y, z := NewSlots(a, b, i), Missing(b, i, off + k, m), Missing(a, i, off, n);
    NewMissing(a, b, i, off, k);
    MissingMore(a, i, off, k, n);
    forall l | l in y ensures l in z && l !in x {
      UnderJoin(off, k, m, l);
      UnderMore(off, k + m, n, l);
    }
    hide At, Wf, Under, Missing, NewSlots, FreeBlocks;
    assert x !! y && |x + y| == |x| + |y|;
    SubsetSize(x + y, z);
  }

  /** The inode's own slot on the way to data block bn. */
  function InodeSlot(bn: nat): nat {
    if bn < NDIRECT then bn else NDIRECT
  }

  /** n bytes at off need an address in the inode that is not there yet. */
  ghost predicate FillsInode(fs: Fs, i: nat, off: nat, n: nat)
    requires Wf(fs) && i < |fs.inodes|
  {
    exists bn: nat :: bn < MAXFILE && Touched(off, n, bn) && At(fs, i, InodeSlot(bn)) == 0
  }

  /** Every block that n bytes at off touch is mapped. */
  ghost predicate RangeMapped(fs: Fs, i: nat, off: nat, n: nat)
    requires Wf(fs) && i < |fs.inodes|
  {
    forall bn: nat :: bn < MAXFILE && Touched(off, n, bn) ==> At(fs, i, DataSlot(bn)) != 0
  }

  /** fs is fs0 after writei has stored the first tot bytes of src at off in file i, the size
      not yet updated. */
  ghost predicate Written(fs0: Fs, fs: Fs, i: nat, off: nat, src: seq<Byte>, tot: nat) {
    && Inv(fs0) && Inv(fs) && fs.nmeta == fs0.nmeta && |fs.disk| == |fs0.disk| && |fs.inodes| == |fs0.inodes|
    && i < |fs.inodes| && tot <= |src| && off + tot <= MAXFILE * BSIZE && off <= fs0.inodes[i].size
    && fs.inodes[i].size == fs0.inodes[i].size && fs.inodes == fs0.inodes[i := fs.inodes[i]]
    && SizeOk(fs0, i) && RangeMapped(fs, i, off, tot)
    && (forall j: nat, l: nat :: SlotOk(fs, j, l) && At(fs, j, l) != At(fs0, j, l) ==> j == i && At(fs0, j, l) == 0)
    && (forall j: nat, pos: nat :: j < |fs.inodes| && pos < MAXFILE * BSIZE ==> Untouched(fs0, fs, i, off, tot, j, pos))
    && (forall pos: nat :: off <= pos < off + tot ==> ByteAt(fs, i, pos) == src[pos - off])
  }

  ghost predicate Untouched(fs0: Fs, fs: Fs, i: nat, off: nat, tot: nat, j: nat, pos: nat)
    requires Wf(fs0) && Wf(fs) && j < |fs.inodes| && j < |fs0.inodes| && pos < MAXFILE * BSIZE
  {
    j != i || !(off <= pos < off + tot) ==> ByteAt(fs, j, pos) == ByteAt(fs0, j, pos)
  }

  lemma WrittenHas(fs0: Fs, fs: Fs, i: nat, off: nat, src: seq<Byte>, tot: nat)
    requires Written(fs0, fs, i, off, src, tot)
    ensures Inv(fs0) && Inv(fs) && Wf(fs0) && Wf(fs) && |fs.disk| == |fs0.disk| && |fs.inodes| == |fs0.inodes|
    ensures i < |fs.inodes| && off <= fs0.inodes[i].size == fs.inodes[i].size && fs.inodes == fs0.inodes[i := fs.inodes[i]]
    ensures SizeOk(fs0, i) && RangeMapped(fs, i, off, tot)
  {
  }

  lemma WrittenNothing(fs: Fs, i: nat, off: nat, src: seq<Byte>)
    requires Inv(fs) && i < |fs.inodes| && SizeOk(fs, i) && off <= fs.inodes[i].size
    ensures Written(fs, fs, i, off, src, 0)
  {
  }

  /** bmap in between changes nothing that counts. */
  lemma WrittenGrown(fs0: Fs, fs: Fs, fs1: Fs, i: nat, off: nat, src: seq<Byte>, tot: nat, slots: set<nat>)
    requires Written(fs0, fs, i, off, src, tot) && Grown(fs, fs1, i, slots)
    ensures Written(fs0, fs1, i, off, src, tot)
  {
    hide At, ByteAt;
    forall j: nat, l: nat | SlotOk(fs1, j, l) && At(fs1, j, l) != At(fs0, j, l)
      ensures j == i && At(fs0, j, l) == 0
    {
      assert SlotOk(fs, j, l);
    }
    forall bn: nat | bn < MAXFILE && At(fs, i, DataSlot(bn)) != 0 ensures At(fs1, i, DataSlot(bn)) != 0 {
      assert SlotOk(fs1, i, DataSlot(bn));
    }
    forall j: nat, pos: nat | j < |fs.inodes| && pos < MAXFILE * BSIZE ensures Untouched(fs0, fs1, i, off, tot, j, pos) {
      assert Untouched(fs0, fs, i, off, tot, j, pos);
    }
  }

  /** A block with m bytes of src from tot on copied to its offset. */
  function Patched(b: Block, at: nat, src: seq<Byte>, tot: nat, m: nat): (r: Block)
    requires at + m <= BSIZE && tot + m <= |src|
    ensures forall p :: 0 <= p < BSIZE ==> r[p] == if at <= p < at + m then src[tot + (p - at)] else b[p]
  {
    b[..at] + src[tot..tot + m] + b[at + m..]
  }

  /** One round of the loop after bmap: the block at off + tot takes m more bytes. */
  lemma WrittenStep(fs0: Fs, fs: Fs, i: nat, off: nat, src: seq<Byte>, tot: nat, m: nat)
    requires Written(fs0, fs, i, off, src, tot) && 0 < m && tot + m <= |src| && off + tot + m <= MAXFILE * BSIZE
    requires (off + tot) % BSIZE + m <= BSIZE
    requires At(fs, i, DataSlot((off + tot) / BSIZE)) != 0
    ensures var bn := (off + tot) / BSIZE;
      var b := At(fs, i, DataSlot(bn));
      && b < |fs.disk|
      && Written(fs0, DataWritten(fs, i, bn, Patched(fs.disk[b], (off + tot) % BSIZE, src, tot, m)), i, off, src, tot + m)
  {
    var bn := (off + tot) / BSIZE;
    var b := At(fs, i, DataSlot(bn));
    DataWrittenKeeps(fs, i, bn, ZeroBlock());
    var data := Patched(fs.disk[b], (off + tot) % BSIZE, src, tot, m);
    var fs' := DataWritten(fs, i, bn, data);
    DataWrittenKeeps(fs, i, bn, data);
    forall j: nat, l: nat | SlotOk(fs, j, l) ensures At(fs', j, l) == At(fs, j, l) {
      DataWrittenAt(fs, i, bn, data, j, l);
    }
    forall j: nat, pos: nat | j < |fs.inodes| && pos < MAXFILE * BSIZE
      ensures ByteAt(fs', j, pos)
        == if j == i && pos / BSIZE == bn then data[pos % BSIZE] else ByteAt(fs, j, pos)
    {
      DataWrittenBytes(fs, i, bn, data, j, pos);
    }
    PatchedBytes(fs0, fs, fs', i, off, src, tot, m);
  }

  lemma PatchedBytes(fs0: Fs, fs: Fs, fs': Fs, i: nat, off: nat, src: seq<Byte>, tot: nat, m: nat)
    requires Written(fs0, fs, i, off, src, tot) && 0 < m && tot + m <= |src| && off + tot + m <= MAXFILE * BSIZE
    requires (off + tot) % BSIZE + m <= BSIZE
    requires Inv(fs') && fs'.inodes == fs.inodes && fs'.nmeta == fs.nmeta && |fs'.disk| == |fs.disk|
    requires At(fs, i, DataSlot((off + tot) / BSIZE)) != 0 && At(fs, i, DataSlot((off + tot) / BSIZE)) < |fs.disk|
    requires forall j: nat, l: nat :: SlotOk(fs, j, l) ==> At(fs', j, l) == At(fs, j, l)
    requires forall j: nat, pos: nat :: j < |fs.inodes| && pos < MAXFILE * BSIZE ==>
      ByteAt(fs', j, pos) == if j == i && pos / BSIZE == (off + tot) / BSIZE
        then Patched(fs.disk[At(fs, i, DataSlot((off + tot) / BSIZE))], (off + tot) % BSIZE, src, tot, m)[pos % BSIZE]
        else ByteAt(fs, j, pos)
    ensures Written(fs0, fs', i, off, src, tot + m)
  {
    var bn := (off + tot) / BSIZE;
    var b := At(fs, i, DataSlot(bn));
    forall pos: nat | pos < MAXFILE * BSIZE && pos / BSIZE == bn ensures fs.disk[b][pos % BSIZE] == ByteAt(fs, i, pos) {}
    hide At, ByteAt;
    forall bn': nat | bn' < MAXFILE && Touched(off, tot + m, bn') ensures At(fs', i, DataSlot(bn')) != 0 {
      TouchedNext(off, tot, m, bn');
      assert SlotOk(fs, i, DataSlot(bn'));
    }
    var n := tot + m;
    forall j: nat, pos: nat | j < |fs.inodes| && pos < MAXFILE * BSIZE ensures Untouched(fs0, fs', i, off, n, j, pos) {
      assert Untouched(fs0, fs, i, off, tot, j, pos);
    }
  }

  /** m more bytes inside one block touch that block only. */
  lemma TouchedNext(off: nat, tot: nat, m: nat, bn: nat)
    requires 0 < m && (off + tot) % BSIZE + m <= BSIZE
    ensures Touched(off, tot + m, bn) <==> Touched(off, tot, bn) || bn == (off + tot) / BSIZE
  {
  }

  function Resized(fs: Fs, i: nat, size: nat): Fs
    requires i < |fs.inodes|
  {
    fs.(inodes := fs.inodes[i := fs.inodes[i].(size := size)])
  }

  lemma ResizedSame(fs: Fs, i: nat, size: nat)
    requires Inv(fs) && i < |fs.inodes|
    ensures Inv(Resized(fs, i, size))
    ensures forall j: nat, l: nat :: SlotOk(fs, j, l) ==> At(Resized(fs, i, size), j, l) == At(fs, j, l)
    ensures forall j: nat, pos: nat :: j < |fs.inodes| && pos < MAXFILE * BSIZE ==>
      ByteAt(Resized(fs, i, size), j, pos) == ByteAt(fs, j, pos)
  {
    var fs' := Resized(fs, i, size);
    assert forall j: nat, l: nat, c: nat :: Owns(fs', j, l, c) <==> Owns(fs, j, l, c);
    SameOwners(fs, fs');
  }

  /** Files other than i are as they were. */
  ghost predicate OthersKept(fs0: Fs, fs: Fs, i: nat)
    requires Wf(fs0) && Wf(fs)
  {
    && |fs.inodes| == |fs0.inodes|
    && (forall j: nat :: j < |fs.inodes| && j != i && SizeOk(fs0, j) ==> SizeOk(fs, j) && Contents(fs, j) == Contents(fs0, j))
    && (forall j: nat :: j < |fs.inodes| && j != i && HoleFree(fs0, j) ==> HoleFree(fs, j))
  }

  /** With the size brought up to date, file i is its old contents overwritten by src. */
  lemma WrittenContents(fs0: Fs, fs: Fs, i: nat, off: nat, src: seq<Byte>)
    requires Written(fs0, fs, i, off, src, |src|)
    ensures var size := if off + |src| > fs.inodes[i].size then off + |src| else fs.inodes[i].size;
      var fs' := Resized(fs, i, size);
      && Inv(fs') && SizeOk(fs', i) && Contents(fs', i) == Overwrite(Contents(fs0, i), off, src)
      && (HoleFree(fs0, i) ==> HoleFree(fs', i)) && OthersKept(fs0, fs', i)
  {
    var size := if off + |src| > fs.inodes[i].size then off + |src| else fs.inodes[i].size;
    var fs' := Resized(fs, i, size);
    ResizedSame(fs, i, size);
    WrittenSelf(fs0, fs, fs', i, off, src);
    if HoleFree(fs0, i) { WrittenNoHole(fs0, fs, fs', i, off, src); }
    forall j: nat | j < |fs.inodes| && j != i && SizeOk(fs0, j)
      ensures SizeOk(fs', j) && Contents(fs', j) == Contents(fs0, j)
    {
      WrittenOther(fs0, fs, fs', i, off, src, j);
    }
    forall j: nat | j < |fs.inodes| && j != i && HoleFree(fs0, j) ensures HoleFree(fs', j) {
      forall bn: nat | bn < Blocks(fs0.inodes[j].size) ensures At(fs', j, DataSlot(bn)) != 0 {
        assert SlotOk(fs, j, DataSlot(bn));
      }
    }
  }

  lemma WrittenSelf(fs0: Fs, fs: Fs, fs': Fs, i: nat, off: nat, src: seq<Byte>)
    requires Written(fs0, fs, i, off, src, |src|) && Wf(fs') && |fs'.inodes| == |fs.inodes|
    requires fs'.inodes[i].size == if off + |src| > fs.inodes[i].size then off + |src| else fs.inodes[i].size
    requires forall j: nat, l: nat :: SlotOk(fs, j, l) ==> At(fs', j, l) == At(fs, j, l)
    requires forall j: nat, pos: nat :: j < |fs.inodes| && pos < MAXFILE * BSIZE ==> ByteAt(fs', j, pos) == ByteAt(fs, j, pos)
    ensures SizeOk(fs', i) && Contents(fs', i) == Overwrite(Contents(fs0, i), off, src)
  {
    hide At, ByteAt;
    forall pos: nat | pos < fs'.inodes[i].size
      ensures Contents(fs', i)[pos] == Overwrite(Contents(fs0, i), off, src)[pos]
    {
      if !(off <= pos < off + |src|) { assert Untouched(fs0, fs, i, off, |src|, i, pos); }
    }
  }

  /** A write at or below the size leaves no hole in a file that has none. */
  lemma WrittenNoHole(fs0: Fs, fs: Fs, fs': Fs, i: nat, off: nat, src: seq<Byte>)
    requires Written(fs0, fs, i, off, src, |src|) && HoleFree(fs0, i) && Wf(fs') && |fs'.inodes| == |fs.inodes|
    requires fs'.inodes[i].size == if off + |src| > fs.inodes[i].size then off + |src| else fs.inodes[i].size
    requires forall j: nat, l: nat :: SlotOk(fs, j, l) ==> At(fs', j, l) == At(fs, j, l)
    ensures HoleFree(fs', i)
  {
    hide At;
    forall bn: nat | bn < Blocks(fs'.inodes[i].size) ensures At(fs', i, DataSlot(bn)) != 0 {
      assert SlotOk(fs, i, DataSlot(bn));
      assert bn >= Blocks(fs0.inodes[i].size) ==> Touched(off, |src|, bn);
    }
  }

  lemma WrittenOther(fs0: Fs, fs: Fs, fs': Fs, i: nat, off: nat, src: seq<Byte>, j: nat)
    requires Written(fs0, fs, i, off, src, |src|) && j < |fs.inodes| && j != i && SizeOk(fs0, j)
    requires Wf(fs') && |fs'.inodes| == |fs.inodes| && fs'.inodes[j].size == fs.inodes[j].size
    requires forall j: nat, pos: nat :: j < |fs.inodes| && pos < MAXFILE * BSIZE ==> ByteAt(fs', j, pos) == ByteAt(fs, j, pos)
    ensures SizeOk(fs', j) && Contents(fs', j) == Contents(fs0, j)
  {
    hide At, ByteAt;
    forall pos: nat | pos < fs0.inodes[j].size ensures ByteAt(fs', j, pos) == ByteAt(fs0, j, pos) {
      assert Untouched(fs0, fs, i, off, |src|, j, pos);
    }
  }

  /** The file's indirect block, if it has one. */
  ghost function Indirect(fs: Fs, i: nat): (r: set<nat>)
    requires Wf(fs) && i < |fs.inodes|
    ensures |r| <= 1
  {
    if At(fs, i, NDIRECT) == 0 then {} else {At(fs, i, NDIRECT)}
  }

  /** Blocks that n bytes at off touch. */
  function Span(off: nat, n: nat): nat {
    if n == 0 then 0 else (off + n - 1) / BSIZE - off / BSIZE + 1
  }

  function ChunkSize(off: nat, tot: nat, n: nat): nat
    requires tot <= n
  {
    if n - tot < BSIZE - (off + tot) % BSIZE then n - tot else BSIZE - (off + tot) % BSIZE
  }

  /** Between rounds the loop stands at the start of a block, except at its two ends. */
  lemma SpanStep(off: nat, tot: nat, n: nat)
    requires tot < n && (tot == 0 || (off + tot) % BSIZE == 0)
    ensures var m := ChunkSize(off, tot, n);
      && m > 0 && Span(off, tot + m) == Span(off, tot) + 1
      && (tot + m == n || (off + tot + m) % BSIZE == 0)
  {
  }

  lemma FreeBits(fs: Fs)
    requires Inv(fs)
    ensures |fs.used| == |fs.disk| && forall b :: 0 <= b < |fs.used| && !fs.used[b] ==> 0 < fs.nmeta <= b
  {
  }

  /** All bits of one round are in one bitmap block. */
  lemma BitmapBlock(base: nat, bi: nat)
    requires base % BPB == 0 && bi < BPB
    ensures (base + bi) / BPB == base / BPB
  {
  }

  /** balloc has nothing left. */
  ghost predicate DiskFull(fs: Fs) {
    forall b :: 0 <= b < |fs.used| ==> fs.used[b]
  }

  class Volume {
    var fs: Fs
    /** The on-disk copies of the inodes; fs.inodes are the cached ones. */
    var dinodes: seq<Inode>
    /** Blocks passed to log_write in the current operation. */
    ghost var logged: set<nat>
    /** Operations between begin_op and end_op; log_write panics when there is none. */
    var outstanding: nat
    const bmapstart: nat
    const inodestart: nat

    constructor (fs: Fs, bmapstart: nat, inodestart: nat)
      requires Inv(fs)
      ensures this.fs == fs && dinodes == fs.inodes && logged == {} && outstanding == 0
    {
      this.fs, this.dinodes, this.logged, this.outstanding := fs, fs.inodes, {}, 0;
      this.bmapstart, this.inodestart := bmapstart, inodestart;
    }

    /** Nothing can be allocated: no block is free, or log_write would panic. */
    ghost predicate Dry()
      reads this
    {
      DiskFull(fs) || outstanding == 0
    }

    /** balloc: the lowest free block, marked, zeroed and logged; 0 stands for its panic when
        all are in use and for log_write's outside of an operation. */
    method Balloc() returns (b: nat)
      requires Inv(fs)
      modifies this`fs, this`logged
      ensures b == 0 <==> old(Dry())
      ensures b == 0 ==> fs == old(fs) && logged == old(logged)
      ensures b != 0 ==> fs.nmeta <= b < |old(fs).disk| && !old(fs).used[b]
      ensures b != 0 ==> forall c :: 0 <= c < b ==> old(fs).used[c]
      ensures b != 0 ==> fs == old(fs).(used := old(fs).used[b := true], disk := old(fs).disk[b := ZeroBlock()])
      ensures b != 0 ==> logged == old(logged) + {b / BPB + bmapstart, b}
    {
      hide Inv, Wf;
      FreeBits(fs);
      var base := 0;
      while base < |fs.used|
        invariant fs == old(fs) && logged == old(logged) && base % BPB == 0
        invariant forall c :: 0 <= c < base && c < |fs.used| ==> fs.used[c]
      {
        var bi := 0;
        while bi < BPB && base + bi < |fs.used|
          invariant bi <= BPB && fs == old(fs) && logged == old(logged)
          invariant forall c :: 0 <= c < base + bi && c < |fs.used| ==> fs.used[c]
        {
          if !fs.used[base + bi] {
            if outstanding == 0 { return 0; }
            b := base + bi;
            BitmapBlock(base, bi);
            fs := fs.(used := fs.used[b := true], disk := fs.disk[b := ZeroBlock()]);
            logged := logged + {base / BPB + bmapstart, b};
            return;
          }
          bi := bi + 1;
        }
        base := base + BPB;
      }
      b := 0;
    }

    /** bfree: panics exactly on a block that is free, or outside of an operation; otherwise
        clears its bit. */
    method Bfree(b: nat) returns (ok: bool)
      requires Wf(fs) && b < |fs.used|
      modifies this`fs, this`logged
      ensures ok <==> old(fs).used[b] && outstanding > 0
      ensures fs == if ok then old(fs).(used := old(fs).used[b := false]) else old(fs)
      ensures logged == if ok then old(logged) + {b / BPB + bmapstart} else old(logged)
    {
      if !fs.used[b] || outstanding == 0 { return false; }
      fs := fs.(used := fs.used[b := false]);
      logged := logged + {b / BPB + bmapstart};
      ok := true;
    }

    /** Allocate a block for empty slot k of inode i, as bmap does in three places. */
    method Fill(i: nat, k: nat) returns (b: nat)
      requires Inv(fs) && SlotOk(fs, i, k) && At(fs, i, k) == 0 && (k > NDIRECT ==> At(fs, i, NDIRECT) != 0)
      modifies this`fs, this`logged
      ensures b == 0 <==> old(Dry())
      ensures b == 0 ==> fs == old(fs) && logged == old(logged)
      ensures b != 0 ==> CanInstall(old(fs), i, k, b) && fs == Installed(old(fs), i, k, b)
      ensures b != 0 && k <= NDIRECT ==> logged == old(logged) + {b / BPB + bmapstart, b}
      ensures b != 0 && k > NDIRECT ==> logged == old(logged) + {b / BPB + bmapstart, b, At(old(fs), i, NDIRECT)}
    {
      IndirectUsed(fs, i);
      var ind := fs.inodes[i].addrs[NDIRECT];
      b := Balloc();
      if b == 0 { return; }
      if k <= NDIRECT {
        fs := fs.(inodes := fs.inodes[i := fs.inodes[i].(addrs := fs.inodes[i].addrs[k := b])]);
      } else {
        fs := fs.(disk := fs.disk[ind := SetWord(fs.disk[ind], k - NDIRECT - 1, b)]);
        logged := logged + {ind};
      }
    }

    /** The block in slot k of inode i, allocated if the slot is empty; 0 when it cannot be. */
    method EnsureSlot(i: nat, k: nat) returns (b: nat)
      requires Inv(fs) && SlotOk(fs, i, k) && (k > NDIRECT ==> At(fs, i, NDIRECT) != 0)
      modifies this`fs, this`logged
      ensures Grown(old(fs), fs, i, {k}) && b == At(fs, i, k) && (b == 0 ==> Dry())
      ensures outstanding == 0 ==> fs == old(fs) && logged == old(logged)
      ensures k > NDIRECT ==> At(fs, i, NDIRECT) == At(old(fs), i, NDIRECT)
      ensures At(old(fs), i, k) != 0 ==> fs == old(fs) && logged == old(logged)
      ensures |fs.disk| <= BPB ==> logged <= old(logged) + {bmapstart, b} + Indirect(fs, i)
    {
      b := At(fs, i, k);
      if b == 0 {
        b := Fill(i, k);
        if b != 0 {
          FillGrows(old(fs), fs, i, k, b);
          return;
        }
      }
      GrownRefl(fs, i);
      GrownMore(fs, fs, i, {}, {k});
    }

    /** bmap: the block of the file's bn-th data block, allocating it, and the indirect block,
        when missing.  0 when one cannot be allocated (the source panics). */
    method Bmap(i: nat, bn: nat) returns (addr: nat)
      requires Inv(fs) && i < |fs.inodes| && bn < MAXFILE
      modifies this`fs, this`logged
      ensures Grown(old(fs), fs, i, BmapSlots(bn))
      ensures addr == At(fs, i, DataSlot(bn)) && (addr == 0 ==> Dry())
      ensures outstanding == 0 ==> fs == old(fs) && logged == old(logged)
      ensures At(old(fs), i, DataSlot(bn)) != 0 ==> fs == old(fs) && logged == old(logged)
      ensures |fs.disk| <= BPB ==> logged <= old(logged) + {bmapstart, addr} + Indirect(fs, i)
    {
      if bn < NDIRECT {
        addr := EnsureSlot(i, bn);
      } else {
        EntryNeedsIndirect(fs, i, bn + 1);
        var ind := EnsureSlot(i, NDIRECT);
        GrownMore(old(fs), fs, i, {NDIRECT}, {NDIRECT, bn + 1});
        if ind == 0 {
          EntryNeedsIndirect(fs, i, bn + 1);
          return 0;
        }
        ghost var mid := fs;
        addr := EnsureSlot(i, bn + 1);
        GrownTwice(old(fs), mid, fs, i, {NDIRECT, bn + 1}, {bn + 1});
        GrownMore(old(fs), fs, i, {NDIRECT, bn + 1} + {bn + 1}, {NDIRECT, bn + 1});
      }
    }

    /** One round of readi's loop: m bytes at pos, inside one block, which bmap allocates if it
        is missing. */
    method ReadRound(i: nat, pos: nat, m: nat) returns (ok: bool, bytes: seq<Byte>)
      requires Inv(fs) && i < |fs.inodes| && SizeOk(fs, i)
      requires 0 < m && pos + m <= fs.inodes[i].size && pos % BSIZE + m <= BSIZE
      modifies this`fs, this`logged
      ensures Grown(old(fs), fs, i, BmapSlots(pos / BSIZE)) && SizeOk(fs, i) && Wf(fs)
      ensures At(old(fs), i, DataSlot(pos / BSIZE)) != 0 ==> fs == old(fs) && logged == old(logged)
      ensures ok <==> At(fs, i, DataSlot(pos / BSIZE)) != 0
      ensures outstanding == 0 ==> fs == old(fs)
      ensures if ok then bytes == Contents(old(fs), i)[pos..pos + m] else Dry()
    {
      hide At, ByteAt, Owns;
      bytes := [];
      assert pos / BSIZE < MAXFILE;
      var b := Bmap(i, pos / BSIZE);
      ok := b != 0;
      if ok {
        GrownContents(old(fs), fs, i, BmapSlots(pos / BSIZE));
        ReadStep(fs, i, pos, m);
        bytes := fs.disk[b][pos % BSIZE..pos % BSIZE + m];
      }
    }

    /** readi returns the slice of the contents that lies below the size, zero in holes, and
        changes no byte of any file.  It allocates exactly when the slice touches a hole.  It
        panics exactly when it needs more blocks than it can have: more than are free, or any
        at all when no operation is outstanding, which is how fileread calls it. */
    method Readi(i: nat, off: nat, n: nat) returns (r: ReadResult)
      requires Inv(fs) && i < |fs.inodes| && SizeOk(fs, i) && n < UINT
      modifies this`fs, this`logged
      ensures r.Refused? <==> off > old(fs).inodes[i].size || off + n >= UINT
      ensures r.Refused? ==> fs == old(fs) && logged == old(logged)
      ensures !r.Refused? && outstanding == 0 ==>
        (r.Panic? <==> Hole(old(fs), i, off, ReadLength(old(fs).inodes[i].size, off, n)))
      ensures !r.Refused? && outstanding > 0 ==>
        (r.Panic? <==> TooFew(old(fs), i, off, ReadLength(old(fs).inodes[i].size, off, n)))
      ensures r.Got? ==>
        && |r.bytes| == ReadLength(old(fs).inodes[i].size, off, n)
        && off + |r.bytes| <= old(fs).inodes[i].size && r.bytes == Contents(old(fs), i)[off..off + |r.bytes|]
        && SameFiles(old(fs), fs)
        && (fs == old(fs) <==> !Hole(old(fs), i, off, |r.bytes|))
        && (fs == old(fs) ==> logged == old(logged))
    {
      hide Inv, Wf, At, Grown, Reading, Hole, Slice, Contents, SameFiles, DiskFull, ChunkSize, BmapSlots, DataSlot, TooFew;
      var size := fs.inodes[i].size;
      if off > size || off + n >= UINT { return Refused; }
      var len := ReadLength(size, off, n);
      ghost var fs0 := fs;
      ReadingStarts(fs, i, off);
      var dst := [];
      while |dst| < len
        invariant |dst| <= len && Reading(fs0, fs, i, off, |dst|) && dst == Slice(fs0, i, off, |dst|)
        invariant !Hole(fs0, i, off, |dst|) ==> logged == old(logged)
        invariant outstanding == 0 ==> fs == fs0
        decreases len - |dst|
      {
        ReadingHas(fs0, fs, i, off, |dst|);
        var m := ChunkSize(off, |dst|, len);
        ChunkInBlock(off, |dst|, len);
        ghost var was, done := fs, |dst|;
        var ok, bytes := ReadRound(i, off + |dst|, m);
        if !ok {
          ReadHole(fs0, was, fs, i, off, done, len);
          return ReadResult.Panic;
        }
        ReadingStep(fs0, was, fs, i, off, done, m, bytes);
        dst := dst + bytes;
      }
      ReadingEnds(fs0, fs, i, off, len);
      r := Got(dst);
    }

    /** One round of writei's loop.  0 stands for the panics of balloc and log_write. */
    method WriteRound(ghost fs0: Fs, i: nat, src: seq<Byte>, off: nat, tot: nat, ghost logged0: set<nat>, ghost data0: set<nat>)
      returns (m: nat, ghost data: set<nat>)
      requires tot < |src| && off + |src| <= MAXFILE * BSIZE
      requires Writing(fs0, fs, i, off, src, tot, logged0 + {bmapstart} + data0, logged, data0)
      modifies this`fs, this`logged
      ensures if m == 0 then outstanding == 0 || TooFew(fs0, i, off, |src|) else outstanding > 0 && m == ChunkSize(off, tot, |src|)
      ensures m != 0 ==> Writing(fs0, fs, i, off, src, tot + m, logged0 + {bmapstart} + data, logged, data)
    {
      hide Inv, At, Grown, Writing, DiskFull, Indirect, DataWritten, Patched, ChunkSize, BmapSlots, DataSlot, TooFew;
      WritingHas(fs0, fs, i, off, src, tot, logged0 + {bmapstart} + data0, logged, data0);
      var b := Bmap(i, (off + tot) / BSIZE);
      data := data0;
      GrownWf(old(fs), fs, i, BmapSlots((off + tot) / BSIZE));
      if b == 0 && outstanding > 0 { WriteFails(fs0, old(fs), fs, i, off, src, tot, logged0 + {bmapstart} + data0, old(logged), data0); }
      if b == 0 || outstanding == 0 { return 0, data0; }
      m := ChunkSize(off, tot, |src|);
      ChunkInBlock(off, tot, |src|);
      WriteRoundOk(fs0, old(fs), fs, i, off, src, tot, logged0 + {bmapstart}, old(logged), logged, data0);
      fs := DataWritten(fs, i, (off + tot) / BSIZE, Patched(fs.disk[b], (off + tot) % BSIZE, src, tot, m));
      logged := logged + {b};
      data := data0 + {b};
    }

    /** The loop of writei.  false stands for the panics of balloc and log_write. */
    method WriteLoop(i: nat, src: seq<Byte>, off: nat) returns (ok: bool, ghost data: set<nat>)
      requires Inv(fs) && i < |fs.inodes| && SizeOk(fs, i)
      requires off <= fs.inodes[i].size && off + |src| <= MAXFILE * BSIZE
      modifies this`fs, this`logged
      ensures !ok ==> if outstanding == 0 then src != [] else TooFew(old(fs), i, off, |src|)
      ensures ok && outstanding == 0 ==> src == []
      ensures ok ==> Writing(old(fs), fs, i, off, src, |src|, old(logged) + {bmapstart} + data, logged, data)
    {
      hide *;
      data := {};
      WritingStarts(fs, i, off, src, logged, bmapstart);
      var tot := 0;
      while tot < |src|
        invariant tot <= |src|
        invariant Writing(old(fs), fs, i, off, src, tot, old(logged) + {bmapstart} + data, logged, data)
        invariant outstanding == 0 ==> tot == 0
      {
        var m;
        ChunkAdvances(off, tot, |src|);
        m, data := WriteRound(old(fs), i, src, off, tot, old(logged), data);
        if m == 0 { return false, data; }
        tot := tot + m;
      }
      ok := true;
    }

    /** writei: the whole of src at off, or nothing.  It panics exactly when it needs more
        blocks than are free, or has something to log outside of an operation.  The on-disk
        inode is brought up to date only when the size grows: that is enough exactly when a
        write below the size needs no new address in the inode, and so always in a file without
        holes. */
    method Writei(i: nat, src: seq<Byte>, off: nat) returns (r: Result, ghost data: set<nat>)
      requires Inv(fs) && i < |fs.inodes| && SizeOk(fs, i) && |dinodes| == |fs.inodes|
      modifies this`fs, this`logged, this`dinodes
      ensures r.Fail? <==> off > old(fs).inodes[i].size || off + |src| > MAXFILE * BSIZE
      ensures r.Fail? ==> fs == old(fs) && dinodes == old(dinodes) && logged == old(logged)
      ensures !r.Fail? ==> (r.Panic? <==> if outstanding == 0 then src != [] else TooFew(old(fs), i, off, |src|))
      ensures r.Wrote? ==> Stored(old(fs), fs, i, off, src) && Filled(old(fs), fs, i, off, |src|)
      ensures r.Wrote? ==> dinodes == if off + |src| > old(fs).inodes[i].size then old(dinodes)[i := fs.inodes[i]] else old(dinodes)
      ensures r.Wrote? && old(dinodes == fs.inodes) ==>
        (dinodes == fs.inodes <==> off + |src| > old(fs).inodes[i].size || !FillsInode(old(fs), i, off, |src|))
      ensures r.Wrote? && old(dinodes == fs.inodes && HoleFree(fs, i)) ==> dinodes == fs.inodes
      ensures r.Wrote? ==> |data| <= Span(off, |src|)
      ensures r.Wrote? && |fs.disk| <= BPB ==>
        logged <= old(logged) + {bmapstart, i / IPB + inodestart} + Indirect(fs, i) + data
    {
      hide HoleFree, Writing, Indirect, FillsInode, Stored, Filled, TooFew, Inv, Wf, Span, Resized;
      data := {};
      if off > fs.inodes[i].size || off + |src| > MAXFILE * BSIZE { return Fail, {}; }
      var ok;
      ok, data := WriteLoop(i, src, off);
      if !ok { return Result.Panic, data; }
      WritingDone(old(fs), fs, i, off, src, old(logged) + {bmapstart} + data, logged, data);
      if |src| > 0 && off + |src| > fs.inodes[i].size {
        fs := Resized(fs, i, off + |src|);
        dinodes := dinodes[i := fs.inodes[i]];
        logged := logged + {i / IPB + inodestart};
      }
      LoggedSmall(old(logged), bmapstart, i / IPB + inodestart, data, Indirect(fs, i));
      r := Wrote;
    }

    /** One bfree of itrunc, for the slot that comes p-th.  It never finds a free block. */
    method FreeSlot(ghost fs0: Fs, i: nat, ghost p: nat, b: nat) returns (ok: bool)
      requires Inv(fs0) && i < |fs0.inodes| && p < NSLOTS && b == At(fs0, i, SlotAt(p)) && b != 0
      requires Wf(fs) && UsedAfter(fs0, fs.used, i, p)
      modifies this`fs, this`logged
      ensures ok <==> outstanding > 0
      ensures ok ==> UsedAfter(fs0, fs.used, i, p + 1) && fs == old(fs).(used := fs.used)
    {
      FreeStep(fs0, fs.used, i, p);
      ok := Bfree(b);
    }

    /** itrunc's first loop. */
    method FreeDirect(i: nat) returns (ok: bool)
      requires Inv(fs) && i < |fs.inodes|
      modifies this`fs, this`logged
      ensures !ok ==> outstanding == 0
      ensures ok ==> UsedAfter(old(fs), fs.used, i, NDIRECT) && Wf(fs)
      ensures ok ==> fs == old(fs).(used := fs.used, inodes := fs.inodes)
      ensures ok ==> fs.inodes == old(fs).inodes[i := DirectCleared(old(fs).inodes[i], NDIRECT)]
    {
      FreedNone(fs, i);
      assert DirectCleared(fs.inodes[i], 0) == fs.inodes[i];
      for k := 0 to NDIRECT
        invariant Wf(fs) && UsedAfter(old(fs), fs.used, i, k) && fs == old(fs).(used := fs.used, inodes := fs.inodes)
        invariant fs.inodes == old(fs).inodes[i := DirectCleared(old(fs).inodes[i], k)]
      {
        var b := fs.inodes[i].addrs[k];
        FreeStep(old(fs), fs.used, i, k);
        if b != 0 {
          ok := FreeSlot(old(fs), i, k, b);
          if !ok { return; }
        }
        ClearNext(old(fs).inodes[i], k);
        fs := fs.(inodes := fs.inodes[i := fs.inodes[i].(addrs := fs.inodes[i].addrs[k := 0])]);
      }
      ok := true;
    }

    /** itrunc's second loop: the entries of the indirect block, whose bytes stay as they
        are. */
    method FreeEntries(ghost fs0: Fs, i: nat) returns (ok: bool)
      requires Inv(fs0) && i < |fs0.inodes| && fs0.inodes[i].addrs[NDIRECT] != 0
      requires Wf(fs) && UsedAfter(fs0, fs.used, i, NDIRECT) && fs.disk == fs0.disk && |fs.inodes| == |fs0.inodes|
      requires fs.inodes[i].addrs[NDIRECT] == fs0.inodes[i].addrs[NDIRECT]
      modifies this`fs, this`logged
      ensures !ok ==> outstanding == 0
      ensures ok ==> UsedAfter(fs0, fs.used, i, MAXFILE) && fs == old(fs).(used := fs.used)
    {
      IndirectUsed(fs0, i);
      var ind := fs.inodes[i].addrs[NDIRECT];
      for j := 0 to NINDIRECT
        invariant Wf(fs) && UsedAfter(fs0, fs.used, i, NDIRECT + j) && fs == old(fs).(used := fs.used)
      {
        var b := Word(fs.disk[ind], j);
        FreeStep(fs0, fs.used, i, NDIRECT + j);
        if b != 0 {
          ok := FreeSlot(fs0, i, NDIRECT + j, b);
          if !ok { return; }
        }
      }
      ok := true;
    }

    /** itrunc: every block of the file becomes free and nothing else does.  The panic of
        bfree on a free block is unreachable; log_write's comes exactly outside of an
        operation. */
    method Itrunc(i: nat) returns (ok: bool)
      requires Inv(fs) && i < |fs.inodes|
      modifies this`fs, this`logged, this`dinodes
      ensures ok <==> outstanding > 0
      ensures ok ==> fs == Truncated(old(fs), i) && Inv(fs)
      ensures ok && i < |old(dinodes)| ==> dinodes == old(dinodes)[i := fs.inodes[i]]
      ensures ok ==> OthersKept(old(fs), fs, i)
    {
      ok := FreeDirect(i);
      if !ok { return; }
      var ind := fs.inodes[i].addrs[NDIRECT];
      if ind != 0 {
        ok := FreeEntries(old(fs), i);
        if !ok { return; }
        ok := FreeSlot(old(fs), i, MAXFILE, ind);
        if !ok { return; }
        fs := fs.(inodes := fs.inodes[i := fs.inodes[i].(addrs := fs.inodes[i].addrs[NDIRECT := 0])]);
      } else {
        FreedWithoutIndirect(old(fs), i, fs.used);
      }
      fs := fs.(inodes := fs.inodes[i := fs.inodes[i].(size := 0)]);
      TruncatedIs(old(fs), fs, i);
      TruncatedOthers(old(fs), i);
      ok := outstanding > 0;
      if ok && i < |dinodes| { dinodes := dinodes[i := fs.inodes[i]]; }
      logged := logged + {i / IPB + inodestart};
    }
  }

  // ---------------------------------------------------------------- itrunc, on values

  /** itrunc visits the direct slots, the entries of the indirect block, then that block. */
  function SlotAt(p: nat): nat {
    if p < NDIRECT then p else if p < MAXFILE then p + 1 else NDIRECT
  }

  ghost predicate Freed(fs: Fs, i: nat, p: nat, b: nat) {
    exists q: nat :: q < p && Owns(fs, i, SlotAt(q), b)
  }

  ghost predicate UsedAfter(fs: Fs, used: seq<bool>, i: nat, p: nat) {
    |used| == |fs.used| && forall b :: 0 <= b < |used| ==> (used[b] <==> fs.used[b] && !Freed(fs, i, p, b))
  }

  lemma FreedNone(fs: Fs, i: nat)
    ensures UsedAfter(fs, fs.used, i, 0)
  {
  }

  lemma FreedNext(fs: Fs, i: nat, p: nat, b: nat)
    ensures Freed(fs, i, p + 1, b) <==> Freed(fs, i, p, b) || Owns(fs, i, SlotAt(p), b)
  {
    if Freed(fs, i, p, b) { var q: nat :| q < p && Owns(fs, i, SlotAt(q), b); assert q < p + 1; }
    if Owns(fs, i, SlotAt(p), b) { assert p < p + 1; }
  }

  /** The p-th block has not been freed before its turn. */
  lemma FreeStep(fs: Fs, used: seq<bool>, i: nat, p: nat)
    requires Inv(fs) && i < |fs.inodes| && p < NSLOTS && UsedAfter(fs, used, i, p)
    ensures var b := At(fs, i, SlotAt(p));
      && (b == 0 ==> UsedAfter(fs, used, i, p + 1))
      && (b != 0 ==> b < |used| && used[b] && UsedAfter(fs, used[b := false], i, p + 1))
  {
    var b := At(fs, i, SlotAt(p));
    forall c: nat ensures Owns(fs, i, SlotAt(p), c) <==> c == b && b != 0 {}
    forall c: nat ensures Freed(fs, i, p + 1, c) <==> Freed(fs, i, p, c) || (c == b && b != 0) { FreedNext(fs, i, p, c); }
    if b != 0 {
      assert Owns(fs, i, SlotAt(p), b);
      assert !Freed(fs, i, p, b);
    }
  }

  function DirectCleared(ip: Inode, k: nat): Inode
    requires k <= NDIRECT && |ip.addrs| == NDIRECT + 1
  {
    ip.(addrs := seq(k, j => 0) + ip.addrs[k..])
  }

  lemma ClearNext(ip: Inode, k: nat)
    requires k < NDIRECT && |ip.addrs| == NDIRECT + 1
    ensures DirectCleared(ip, k).addrs[k] == ip.addrs[k]
    ensures DirectCleared(ip, k).(addrs := DirectCleared(ip, k).addrs[k := 0]) == DirectCleared(ip, k + 1)
  {
    assert DirectCleared(ip, k).addrs[k := 0] == DirectCleared(ip, k + 1).addrs;
  }

  lemma FreedWithoutIndirect(fs: Fs, i: nat, used: seq<bool>)
    requires Wf(fs) && i < |fs.inodes| && fs.inodes[i].addrs[NDIRECT] == 0 && UsedAfter(fs, used, i, NDIRECT)
    ensures UsedAfter(fs, used, i, NSLOTS)
  {
    forall b: nat ensures Freed(fs, i, NSLOTS, b) <==> Freed(fs, i, NDIRECT, b) {
      forall q: nat | NDIRECT <= q < NSLOTS ensures !Owns(fs, i, SlotAt(q), b) {}
    }
  }

  lemma FreedAll(fs: Fs, i: nat, b: nat)
    requires Wf(fs) && i < |fs.inodes|
    ensures Freed(fs, i, NSLOTS, b) <==> OwnedBy(fs, i, b)
  {
    forall k: nat | Owns(fs, i, k, b) ensures Freed(fs, i, NSLOTS, b) {
      var q := if k < NDIRECT then k else if k == NDIRECT then MAXFILE else k - 1;
      assert SlotAt(q) == k;
    }
  }

  lemma TruncatedIs(fs: Fs, fs': Fs, i: nat)
    requires Inv(fs) && i < |fs.inodes| && UsedAfter(fs, fs'.used, i, NSLOTS)
    requires fs'.disk == fs.disk && fs'.nmeta == fs.nmeta && |fs'.inodes| == |fs.inodes|
    requires fs'.inodes == fs.inodes[i := fs'.inodes[i]] && fs'.inodes[i].size == 0
    requires |fs'.inodes[i].addrs| == NDIRECT + 1 && forall k :: 0 <= k <= NDIRECT ==> fs'.inodes[i].addrs[k] == 0
    ensures fs' == Truncated(fs, i)
  {
    var t := Truncated(fs, i);
    forall b: nat | b < |fs.used| ensures fs'.used[b] == t.used[b] { FreedAll(fs, i, b); }
    assert fs'.used == t.used;
    assert fs'.inodes[i].addrs == t.inodes[i].addrs;
  }

  lemma TruncatedOthers(fs: Fs, i: nat)
    requires Inv(fs) && i < |fs.inodes|
    ensures Inv(Truncated(fs, i)) && OthersKept(fs, Truncated(fs, i), i)
  {
    TruncatedKeeps(fs, i);
    var t := Truncated(fs, i);
    forall j: nat, bn: nat | j < |fs.inodes| && j != i && bn < MAXFILE
      ensures At(t, j, DataSlot(bn)) == At(fs, j, DataSlot(bn))
    {
      assert SlotOk(fs, j, DataSlot(bn));
    }
    forall j: nat | j < |fs.inodes| && j != i && SizeOk(fs, j) ensures Contents(t, j) == Contents(fs, j) {
      forall pos: nat | pos < fs.inodes[j].size ensures ByteAt(t, j, pos) == ByteAt(fs, j, pos) {}
    }
  }

  lemma ChunkAdvances(off: nat, tot: nat, n: nat)
    requires tot < n
    ensures 0 < ChunkSize(off, tot, n) <= n - tot
  {
  }

  /** fs is fs0 with src stored at off in file i. */
  ghost predicate Stored(fs0: Fs, fs: Fs, i: nat, off: nat, src: seq<Byte>) {
    && Inv(fs0) && Inv(fs) && |fs.inodes| == |fs0.inodes| && |fs.disk| == |fs0.disk| && i < |fs.inodes|
    && SizeOk(fs0, i) && SizeOk(fs, i) && off <= fs0.inodes[i].size
    && Contents(fs, i) == Overwrite(Contents(fs0, i), off, src) && OthersKept(fs0, fs, i)
    && (HoleFree(fs0, i) ==> HoleFree(fs, i))
  }

  lemma FilledResized(fs0: Fs, fs: Fs, i: nat, off: nat, n: nat, size: nat)
    requires Inv(fs) && Filled(fs0, fs, i, off, n)
    ensures Filled(fs0, Resized(fs, i, size), i, off, n)
  {
    ResizedSame(fs, i, size);
    forall l: nat | l < NSLOTS ensures At(Resized(fs, i, size), i, l) == At(fs, i, l) { assert SlotOk(fs, i, l); }
    hide Filling, At, Inv;
    FillingSame(fs0, fs, Resized(fs, i, size), i, off, n);
  }

  lemma LoggedSmall(before: set<nat>, bm: nat, ib: nat, data: set<nat>, ind: set<nat>)
    ensures before + {bm} + data + ind + {ib} == before + {bm, ib} + ind + data
  {
  }

  lemma WritingDone(fs0: Fs, fs: Fs, i: nat, off: nat, src: seq<Byte>, may: set<nat>, logged: set<nat>, data: set<nat>)
    requires Writing(fs0, fs, i, off, src, |src|, may, logged, data)
    ensures |fs.inodes| == |fs0.inodes| && |data| <= Span(off, |src|)
    ensures var fs' := if off + |src| > fs.inodes[i].size then Resized(fs, i, off + |src|) else fs;
      && Stored(fs0, fs', i, off, src) && fs'.inodes == fs0.inodes[i := fs'.inodes[i]]
      && (off + |src| <= fs.inodes[i].size ==> (fs'.inodes == fs0.inodes <==> !FillsInode(fs0, i, off, |src|)))
      && (|fs'.disk| <= BPB ==> logged <= may + Indirect(fs', i))
      && Filled(fs0, fs', i, off, |src|) && Wf(fs') && i < |fs'.inodes|
      && (HoleFree(fs0, i) && off + |src| <= fs.inodes[i].size ==> fs'.inodes == fs0.inodes)
    ensures Wf(fs0) && !TooFew(fs0, i, off, |src|)
    ensures fs.inodes[i].size == fs0.inodes[i].size && off <= fs0.inodes[i].size
  {
    hide Written, HoleFree, At, OthersKept, Overwrite, Inv, FillsInode, Filling, TooFew, Wf, Indirect, Span, Contents;
    WrittenHas(fs0, fs, i, off, src, |src|);
    WrittenContents(fs0, fs, i, off, src);
    InodeFilled(fs0, fs, i, off, src);
    FillingEnds(fs0, fs, i, off, |src|);
    FilledResized(fs0, fs, i, off, |src|, off + |src|);
    assert off + |src| <= fs.inodes[i].size ==> Resized(fs, i, fs.inodes[i].size) == fs;
    IndirectResized(fs, i, off + |src|);
    if HoleFree(fs0, i) && off + |src| <= fs0.inodes[i].size { NoHoleNoFill(fs0, i, off, |src|); }
  }

  lemma FilledNeeded(fs0: Fs, fs: Fs, i: nat, off: nat, n: nat, k: nat)
    requires Filling(fs0, fs, i, off, n) && k <= NDIRECT
    ensures At(fs, i, k) != At(fs0, i, k) ==> FillsInode(fs0, i, off, n)
  {
    if At(fs, i, k) != At(fs0, i, k) {
      assert Under(off, n, k);
      var bn: nat :| bn < MAXFILE && Touched(off, n, bn) && k in BmapSlots(bn);
      assert InodeSlot(bn) == k;
    }
  }

  /** The cached inode changes exactly when it needed an address. */
  lemma InodeFilled(fs0: Fs, fs: Fs, i: nat, off: nat, src: seq<Byte>)
    requires Written(fs0, fs, i, off, src, |src|) && Filling(fs0, fs, i, off, |src|)
    ensures fs.inodes == fs0.inodes <==> !FillsInode(fs0, i, off, |src|)
  {
    if FillsInode(fs0, i, off, |src|) {
      var bn: nat :| bn < MAXFILE && Touched(off, |src|, bn) && At(fs0, i, InodeSlot(bn)) == 0;
      assert At(fs, i, DataSlot(bn)) != 0;
      if bn >= NDIRECT { EntryNeedsIndirect(fs, i, bn + 1); }
      assert At(fs, i, InodeSlot(bn)) != At(fs0, i, InodeSlot(bn));
    } else {
      forall k: nat | k <= NDIRECT ensures fs.inodes[i].addrs[k] == fs0.inodes[i].addrs[k] {
        FilledNeeded(fs0, fs, i, off, |src|, k);
      }
      assert fs.inodes[i].addrs == fs0.inodes[i].addrs;
      assert fs.inodes[i] == fs0.inodes[i];
    }
  }

  /** In a file without holes no write below the size needs an address. */
  lemma NoHoleNoFill(fs: Fs, i: nat, off: nat, n: nat)
    requires Wf(fs) && i < |fs.inodes| && HoleFree(fs, i) && off + n <= fs.inodes[i].size
    ensures !FillsInode(fs, i, off, n) && RangeMapped(fs, i, off, n)
  {
    forall bn: nat | bn < MAXFILE && Touched(off, n, bn) ensures At(fs, i, DataSlot(bn)) != 0 && At(fs, i, InodeSlot(bn)) != 0 {
      assert bn < Blocks(fs.inodes[i].size);
      if bn >= NDIRECT { EntryNeedsIndirect(fs, i, bn + 1); }
    }
  }

  /** Reading a whole file meets a hole exactly when the file has one. */
  lemma HoleIff(fs: Fs, i: nat)
    requires Wf(fs) && i < |fs.inodes| && SizeOk(fs, i)
    ensures Hole(fs, i, 0, fs.inodes[i].size) <==> !HoleFree(fs, i)
  {
    var size := fs.inodes[i].size;
    forall bn: nat | bn < MAXFILE ensures Touched(0, size, bn) <==> bn < Blocks(size) {}
    hide At, Wf, Touched;
  }

  lemma IndirectResized(fs: Fs, i: nat, size: nat)
    requires Wf(fs) && i < |fs.inodes|
    ensures Wf(Resized(fs, i, size)) && Indirect(Resized(fs, i, size), i) == Indirect(fs, i)
  {
  }

  datatype Result = Fail | Panic | Wrote
  datatype ReadResult = Refused | Panic | Got(bytes: seq<Byte>)

  // ---------------------------------------------------------------- readi, on values

  /** Every file has the same bytes, and no file has got a hole. */
  ghost predicate SameFiles(fs0: Fs, fs: Fs) {
    && Inv(fs0) && Inv(fs) && |fs.inodes| == |fs0.inodes|
    && (forall j: nat :: j < |fs.inodes| ==> fs.inodes[j].size == fs0.inodes[j].size)
    && (forall j: nat :: j < |fs.inodes| && SizeOk(fs0, j) ==> Contents(fs, j) == Contents(fs0, j))
    && (forall j: nat :: j < |fs.inodes| && HoleFree(fs0, j) ==> HoleFree(fs, j))
  }

  lemma SameFilesRefl(fs: Fs)
    requires Inv(fs)
    ensures SameFiles(fs, fs)
  {
    hide Inv;
  }

  lemma GrownSame(fs0: Fs, fs: Fs, i: nat, slots: set<nat>)
    requires Grown(fs0, fs, i, slots)
    ensures SameFiles(fs0, fs) && Wf(fs0) && Wf(fs) && OnlyMore(fs0, fs, i)
  {
    forall j: nat, l: nat | j < |fs.inodes| && l < NSLOTS && At(fs0, j, l) != 0 ensures At(fs, j, l) == At(fs0, j, l) {
      assert SlotOk(fs, j, l);
    }
    hide At, ByteAt;
    forall j: nat | j < |fs.inodes| && SizeOk(fs0, j) ensures Contents(fs, j) == Contents(fs0, j) {
      forall pos: nat | pos < fs.inodes[j].size ensures ByteAt(fs, j, pos) == ByteAt(fs0, j, pos) {}
    }
  }

  lemma GrownContents(fs0: Fs, fs: Fs, i: nat, slots: set<nat>)
    requires Grown(fs0, fs, i, slots) && SizeOk(fs0, i)
    ensures Inv(fs) && |fs.inodes| == |fs0.inodes| && i < |fs.inodes| && fs.inodes[i].size == fs0.inodes[i].size
    ensures SizeOk(fs, i) && Contents(fs, i) == Contents(fs0, i)
  {
    GrownSame(fs0, fs, i, slots);
  }

  lemma SameFilesTrans(a: Fs, b: Fs, c: Fs)
    requires SameFiles(a, b) && SameFiles(b, c)
    ensures SameFiles(a, c)
  {
    hide Inv, Contents, MappedTo;
  }

  /** n bytes at off touch a hole of file i. */
  ghost predicate Hole(fs: Fs, i: nat, off: nat, n: nat)
    requires Wf(fs) && i < |fs.inodes|
  {
    !RangeMapped(fs, i, off, n)
  }

  /** n bytes at off of file i. */
  ghost function Slice(fs: Fs, i: nat, off: nat, n: nat): (r: seq<Byte>)
    requires Wf(fs) && i < |fs.inodes| && SizeOk(fs, i) && off + n <= fs.inodes[i].size
    ensures |r| == n
  {
    Contents(fs, i)[off..off + n]
  }

  /** The part of n bytes at off that lies below the size. */
  function ReadLength(size: nat, off: nat, n: nat): nat
    requires off <= size
  {
    if off + n > size then size - off else n
  }

  /** readi's loop after done bytes. */
  ghost predicate Reading(fs0: Fs, fs: Fs, i: nat, off: nat, done: nat) {
    && SameFiles(fs0, fs) && i < |fs.inodes| && SizeOk(fs0, i) && off + done <= fs0.inodes[i].size
    && Filling(fs0, fs, i, off, done) && RangeMapped(fs, i, off, done)
    && (!Hole(fs0, i, off, done) ==> fs == fs0)
  }

  lemma ReadingStarts(fs: Fs, i: nat, off: nat)
    requires Inv(fs) && i < |fs.inodes| && SizeOk(fs, i) && off <= fs.inodes[i].size
    ensures Wf(fs) && Reading(fs, fs, i, off, 0) && Slice(fs, i, off, 0) == []
  {
    SameFilesRefl(fs);
    FillingStarts(fs, i, off);
    hide Inv, SameFiles, Filling;
  }

  lemma ReadingHas(fs0: Fs, fs: Fs, i: nat, off: nat, done: nat)
    requires Reading(fs0, fs, i, off, done)
    ensures Inv(fs) && i < |fs.inodes| == |fs0.inodes| && SizeOk(fs, i) && Wf(fs0) && SizeOk(fs0, i) && Wf(fs)
    ensures fs.inodes[i].size == fs0.inodes[i].size && off + done <= fs0.inodes[i].size
  {
  }

  lemma ChunkInBlock(off: nat, tot: nat, n: nat)
    requires tot < n
    ensures var m := ChunkSize(off, tot, n); 0 < m <= n - tot && (off + tot) % BSIZE + m <= BSIZE
  {
  }

  /** What one round of readi keeps. */
  lemma ReadingStep(fs0: Fs, was: Fs, fs: Fs, i: nat, off: nat, done: nat, m: nat, bytes: seq<Byte>)
    requires Reading(fs0, was, i, off, done) && 0 < m && (off + done) % BSIZE + m <= BSIZE
    requires off + done + m <= fs0.inodes[i].size && SizeOk(was, i) && Wf(was) && was.inodes[i].size == fs0.inodes[i].size
    requires Grown(was, fs, i, BmapSlots((off + done) / BSIZE)) && Wf(fs)
    requires At(was, i, DataSlot((off + done) / BSIZE)) != 0 ==> fs == was
    requires At(fs, i, DataSlot((off + done) / BSIZE)) != 0 && bytes == Contents(was, i)[off + done..off + done + m]
    ensures Reading(fs0, fs, i, off, done + m)
    ensures Slice(fs0, i, off, done) + bytes == Slice(fs0, i, off, done + m)
    ensures !Hole(fs0, i, off, done + m) ==> !Hole(fs0, i, off, done) && At(was, i, DataSlot((off + done) / BSIZE)) != 0
  {
    var pos := off + done;
    assert Contents(was, i) == Contents(fs0, i) && |fs.inodes| == |fs0.inodes| && Wf(fs0);
    hide At, SameFiles, Grown, Inv, Contents, Wf, RangeMapped, OnlyMore, Slice, BmapSlots, DataSlot, Filling;
    SliceNext(fs0, i, off, done, m);
    GrownSame(was, fs, i, BmapSlots(pos / BSIZE));
    SameFilesTrans(fs0, was, fs);
    MoreMapped(was, fs, i, off, done);
    FillingGrown(fs0, was, fs, i, off, done, m);
    RangeNext(fs, i, off, done, m);
    RangeNext(fs0, i, off, done, m);
    assert !Hole(fs0, i, off, done + m) ==> was == fs0 && fs == was;
  }

  lemma SliceNext(fs: Fs, i: nat, off: nat, n: nat, m: nat)
    requires Wf(fs) && i < |fs.inodes| && SizeOk(fs, i) && off + n + m <= fs.inodes[i].size
    ensures off + n + m <= |Contents(fs, i)|
    ensures Slice(fs, i, off, n) + Contents(fs, i)[off + n..off + n + m] == Slice(fs, i, off, n + m)
  {
    hide Contents, Wf;
  }

  lemma MoreMapped(fs0: Fs, fs: Fs, i: nat, off: nat, n: nat)
    requires Wf(fs0) && Wf(fs) && i < |fs.inodes| == |fs0.inodes| && OnlyMore(fs0, fs, i) && RangeMapped(fs0, i, off, n)
    ensures RangeMapped(fs, i, off, n)
  {
    forall bn: nat | bn < MAXFILE ensures DataSlot(bn) < NSLOTS {}
    hide At;
  }

  /** m more bytes inside one block need that block too. */
  lemma RangeNext(fs: Fs, i: nat, off: nat, n: nat, m: nat)
    requires Wf(fs) && i < |fs.inodes| && 0 < m && (off + n) % BSIZE + m <= BSIZE && (off + n) / BSIZE < MAXFILE
    ensures RangeMapped(fs, i, off, n + m) <==> RangeMapped(fs, i, off, n) && At(fs, i, DataSlot((off + n) / BSIZE)) != 0
  {
    forall bn: nat | bn < MAXFILE ensures Touched(off, n + m, bn) <==> Touched(off, n, bn) || bn == (off + n) / BSIZE {
      TouchedNext(off, n, m, bn);
    }
    hide At, Touched;
  }

  lemma ReadingEnds(fs0: Fs, fs: Fs, i: nat, off: nat, n: nat)
    requires Reading(fs0, fs, i, off, n)
    ensures Wf(fs0) && i < |fs0.inodes| && SizeOk(fs0, i) && off + n <= fs0.inodes[i].size
    ensures SameFiles(fs0, fs) && (fs == fs0 <==> !Hole(fs0, i, off, n)) && !TooFew(fs0, i, off, n)
    ensures Slice(fs0, i, off, n) == Contents(fs0, i)[off..off + n]
  {
    hide Contents, HoleFree, Filling, TooFew;
    FillingEnds(fs0, fs, i, off, n);
  }

  /** A block that could not be had was a hole to begin with. */
  lemma ReadHole(fs0: Fs, was: Fs, fs: Fs, i: nat, off: nat, done: nat, n: nat)
    requires Reading(fs0, was, i, off, done) && done < n && off + done < fs0.inodes[i].size && Wf(was)
    requires Grown(was, fs, i, BmapSlots((off + done) / BSIZE)) && Wf(fs)
    requires (off + done) / BSIZE < MAXFILE && At(fs, i, DataSlot((off + done) / BSIZE)) == 0
    ensures Wf(fs0) && i < |fs0.inodes| && Hole(fs0, i, off, n) && (DiskFull(fs) ==> TooFew(fs0, i, off, n))
  {
    var bn := (off + done) / BSIZE;
    assert Touched(off, n, bn) && Touched(off, done + 1, bn);
    assert DataSlot(bn) < NSLOTS && (off + done) % BSIZE + 1 <= BSIZE;
    hide At, Grown, SameFiles, Filling, TooFew, BmapSlots, DataSlot, Touched, DiskFull;
    FillingGrown(fs0, was, fs, i, off, done, 1);
    StillMissing(fs0, fs, i, off, done + 1, DataSlot(bn));
    if DiskFull(fs) { FillingFails(fs0, fs, i, off, done + 1, bn, n); }
  }

  lemma StillMissing(fs0: Fs, fs: Fs, i: nat, off: nat, n: nat, l: nat)
    requires Filling(fs0, fs, i, off, n) && l < NSLOTS && At(fs, i, l) == 0
    ensures At(fs0, i, l) == 0
  {
  }

  /** writei meets a full disk only when it was short of blocks from the start. */
  lemma WriteFails(fs0: Fs, was: Fs, fs: Fs, i: nat, off: nat, src: seq<Byte>, tot: nat,
                   may: set<nat>, logged: set<nat>, data: set<nat>)
    requires Writing(fs0, was, i, off, src, tot, may, logged, data) && tot < |src| && off + |src| <= MAXFILE * BSIZE
    requires Grown(was, fs, i, BmapSlots((off + tot) / BSIZE)) && DiskFull(fs) && Wf(fs)
    requires At(fs, i, DataSlot((off + tot) / BSIZE)) == 0
    ensures Wf(fs0) && i < |fs0.inodes| && TooFew(fs0, i, off, |src|)
  {
    var bn := (off + tot) / BSIZE;
    assert Touched(off, tot + 1, bn) && (off + tot) % BSIZE + 1 <= BSIZE;
    assert Filling(fs0, was, i, off, tot);
    hide At, Grown, Written, Filling, TooFew, BmapSlots, DataSlot, Touched, DiskFull;
    FillingGrown(fs0, was, fs, i, off, tot, 1);
    FillingFails(fs0, fs, i, off, tot + 1, bn, |src|);
  }

  /** writei's loop after tot bytes: what is stored, which slots were filled and which blocks
      were logged. */
  ghost predicate Writing(fs0: Fs, fs: Fs, i: nat, off: nat, src: seq<Byte>, tot: nat,
                          may: set<nat>, logged: set<nat>, data: set<nat>)
  {
    && Written(fs0, fs, i, off, src, tot)
    && (tot == |src| || tot == 0 || (off + tot) % BSIZE == 0)
    && |data| <= Span(off, tot)
    && Filling(fs0, fs, i, off, tot)
    && (|fs.disk| <= BPB ==> logged <= may + Indirect(fs, i))
  }

  lemma WritingHas(fs0: Fs, fs: Fs, i: nat, off: nat, src: seq<Byte>, tot: nat, may: set<nat>, logged: set<nat>, data: set<nat>)
    requires Writing(fs0, fs, i, off, src, tot, may, logged, data)
    ensures Inv(fs) && Wf(fs) && i < |fs.inodes| && (|fs.disk| <= BPB ==> logged <= may + Indirect(fs, i))
    ensures Wf(fs0) && i < |fs0.inodes| && |data| <= Span(off, tot)
    ensures Written(fs0, fs, i, off, src, tot) && Filling(fs0, fs, i, off, tot)
    ensures tot == |src| || tot == 0 || (off + tot) % BSIZE == 0
  {
  }

  lemma WritingStarts(fs: Fs, i: nat, off: nat, src: seq<Byte>, logged: set<nat>, bm: nat)
    requires Inv(fs) && i < |fs.inodes| && SizeOk(fs, i) && off <= fs.inodes[i].size
    ensures Writing(fs, fs, i, off, src, 0, logged + {bm} + {}, logged, {})
  {
    WrittenNothing(fs, i, off, src);
    FillingStarts(fs, i, off);
    hide Filling, Written;
  }

  /** What one round stores. */
  lemma RoundWritten(fs0: Fs, fs: Fs, fs1: Fs, i: nat, off: nat, src: seq<Byte>, tot: nat)
    requires tot < |src| && off + |src| <= MAXFILE * BSIZE && Written(fs0, fs, i, off, src, tot)
    requires tot == 0 || (off + tot) % BSIZE == 0
    requires Grown(fs, fs1, i, BmapSlots((off + tot) / BSIZE))
    requires At(fs1, i, DataSlot((off + tot) / BSIZE)) != 0
    ensures var bn, m := (off + tot) / BSIZE, ChunkSize(off, tot, |src|);
      var b := At(fs1, i, DataSlot(bn));
      && b < |fs1.disk| && (off + tot) % BSIZE + m <= BSIZE
      && var fs2 := DataWritten(fs1, i, bn, Patched(fs1.disk[b], (off + tot) % BSIZE, src, tot, m));
         i < |fs2.inodes| && Written(fs0, fs2, i, off, src, tot + m) && Indirect(fs, i) <= Indirect(fs1, i) == Indirect(fs2, i)
  {
    var bn, m := (off + tot) / BSIZE, ChunkSize(off, tot, |src|);
    WrittenGrown(fs0, fs, fs1, i, off, src, tot, BmapSlots(bn));
    assert SlotOk(fs1, i, NDIRECT);
    hide Written, Grown, At;
    WrittenStep(fs0, fs1, i, off, src, tot, m);
    DataWrittenAt(fs1, i, bn, Patched(fs1.disk[At(fs1, i, DataSlot(bn))], (off + tot) % BSIZE, src, tot, m), i, NDIRECT);
  }

  lemma GrownWf(fs0: Fs, fs: Fs, i: nat, slots: set<nat>)
    requires Grown(fs0, fs, i, slots)
    ensures Wf(fs) && i < |fs.inodes| && |fs.disk| == |fs0.disk|
  {
  }

  lemma WriteRoundOk(fs0: Fs, fs: Fs, fs1: Fs, i: nat, off: nat, src: seq<Byte>, tot: nat,
                     may: set<nat>, logged: set<nat>, logged1: set<nat>, data: set<nat>)
    requires tot < |src| && off + |src| <= MAXFILE * BSIZE
    requires Writing(fs0, fs, i, off, src, tot, may + data, logged, data)
    requires Grown(fs, fs1, i, BmapSlots((off + tot) / BSIZE))
    requires At(fs1, i, DataSlot((off + tot) / BSIZE)) != 0
    requires |fs.disk| <= BPB ==> logged1 <= may + data + logged + {At(fs1, i, DataSlot((off + tot) / BSIZE))} + Indirect(fs1, i)
    ensures var bn, m := (off + tot) / BSIZE, ChunkSize(off, tot, |src|);
      var b := At(fs1, i, DataSlot(bn));
      && b < |fs1.disk| && (off + tot) % BSIZE + m <= BSIZE
      && Writing(fs0, DataWritten(fs1, i, bn, Patched(fs1.disk[b], (off + tot) % BSIZE, src, tot, m)), i, off, src,
                 tot + m, may + (data + {b}), logged1 + {b}, data + {b})
  {
    hide Writing, Written, Grown, At, Indirect, Filling, DataWritten, Patched, Span, ChunkSize, Wf, BmapSlots;
    GrownWf(fs, fs1, i, BmapSlots((off + tot) / BSIZE));
    WritingHas(fs0, fs, i, off, src, tot, may + data, logged, data);
    ChunkInBlock(off, tot, |src|);
    SpanStep(off, tot, |src|);
    RoundWritten(fs0, fs, fs1, i, off, src, tot);
    var b := At(fs1, i, DataSlot((off + tot) / BSIZE));
    RoundFilled(fs0, fs, fs1, i, off, src, tot,
                Patched(fs1.disk[b], (off + tot) % BSIZE, src, tot, ChunkSize(off, tot, |src|)));
    SizeGrows(data, b);
    if |fs.disk| <= BPB { LoggedGrows(may, data, logged, logged1, b, Indirect(fs, i), Indirect(fs1, i)); }
    WritingIs(fs0, DataWritten(fs1, i, (off + tot) / BSIZE, Patched(fs1.disk[b], (off + tot) % BSIZE, src, tot, ChunkSize(off, tot, |src|))),
              i, off, src, tot + ChunkSize(off, tot, |src|), may + (data + {b}), logged1 + {b}, data + {b});
  }

  lemma WritingIs(fs0: Fs, fs: Fs, i: nat, off: nat, src: seq<Byte>, tot: nat, may: set<nat>, logged: set<nat>, data: set<nat>)
    requires Written(fs0, fs, i, off, src, tot) && Filling(fs0, fs, i, off, tot) && |data| <= Span(off, tot)
    requires tot == |src| || tot == 0 || (off + tot) % BSIZE == 0
    requires Wf(fs) && i < |fs.inodes| && (|fs.disk| <= BPB ==> logged <= may + Indirect(fs, i))
    ensures Writing(fs0, fs, i, off, src, tot, may, logged, data)
  {
    hide Written, Filling, Span, Indirect, Wf;
  }

  lemma LoggedGrows(may: set<nat>, data: set<nat>, logged: set<nat>, logged1: set<nat>, b: nat, x: set<nat>, x1: set<nat>)
    requires logged <= may + data + x && x <= x1 && logged1 <= may + data + logged + {b} + x1
    ensures logged1 + {b} <= may + (data + {b}) + x1
  {
  }

  lemma SizeGrows(a: set<nat>, b: nat)
    ensures |a + {b}| <= |a| + 1
  {
    if b in a { assert a + {b} == a; }
  }

  /** The slots bmap fills in a round lie under what the round writes. */
  lemma RoundFilled(fs0: Fs, fs: Fs, fs1: Fs, i: nat, off: nat, src: seq<Byte>, tot: nat, data: Block)
    requires tot < |src| && off + |src| <= MAXFILE * BSIZE && Filling(fs0, fs, i, off, tot)
    requires Grown(fs, fs1, i, BmapSlots((off + tot) / BSIZE)) && At(fs1, i, DataSlot((off + tot) / BSIZE)) != 0
    requires (off + tot) % BSIZE + ChunkSize(off, tot, |src|) <= BSIZE && 0 < ChunkSize(off, tot, |src|)
    ensures At(fs1, i, DataSlot((off + tot) / BSIZE)) < |fs1.disk|
    ensures var fs2 := DataWritten(fs1, i, (off + tot) / BSIZE, data);
      Wf(fs2) && |fs2.disk| == |fs.disk| && Filling(fs0, fs2, i, off, tot + ChunkSize(off, tot, |src|))
  {
    var bn, m := (off + tot) / BSIZE, ChunkSize(off, tot, |src|);
    assert Inv(fs1) && i < |fs1.inodes| && |fs1.disk| == |fs.disk|;
    hide Filling, Grown, At, Inv, ChunkSize, BmapSlots, DataSlot;
    FillingGrown(fs0, fs, fs1, i, off, tot, m);
    DataWrittenAt(fs1, i, bn, data, i, 0);
    forall l: nat | l < NSLOTS ensures At(DataWritten(fs1, i, bn, data), i, l) == At(fs1, i, l) {
      DataWrittenAt(fs1, i, bn, data, i, l);
    }
    FillingSame(fs0, fs1, DataWritten(fs1, i, bn, data), i, off, tot + m);
  }

  lemma UnderNext(off: nat, tot: nat, m: nat, l: nat)
    requires 0 < m && (off + tot) % BSIZE + m <= BSIZE && (off + tot) / BSIZE < MAXFILE
    requires Under(off, tot, l) || l in BmapSlots((off + tot) / BSIZE)
    ensures Under(off, tot + m, l)
  {
    if Under(off, tot, l) {
      var bn: nat :| bn < MAXFILE && Touched(off, tot, bn) && l in BmapSlots(bn);
      TouchedNext(off, tot, m, bn);
    } else {
      TouchedNext(off, tot, m, (off + tot) / BSIZE);
    }
  }

  /** The bytes of one block as the file sees them. */
  lemma ReadStep(fs: Fs, i: nat, pos: nat, m: nat)
    requires Inv(fs) && i < |fs.inodes| && SizeOk(fs, i) && pos + m <= fs.inodes[i].size
    requires pos % BSIZE + m <= BSIZE && 0 < m && At(fs, i, DataSlot(pos / BSIZE)) != 0
    ensures pos / BSIZE < MAXFILE && At(fs, i, DataSlot(pos / BSIZE)) < |fs.disk|
    ensures fs.disk[At(fs, i, DataSlot(pos / BSIZE))][pos % BSIZE..pos % BSIZE + m] == Contents(fs, i)[pos..pos + m]
  {
    var b := At(fs, i, DataSlot(pos / BSIZE));
    assert Owns(fs, i, DataSlot(pos / BSIZE), b);
    hide At, Inv, Owns;
    forall p | pos <= p < pos + m ensures fs.disk[b][p % BSIZE] == Contents(fs, i)[p] {
      assert p / BSIZE == pos / BSIZE;
    }
    var x, y := fs.disk[b][pos % BSIZE..pos % BSIZE + m], Contents(fs, i)[pos..pos + m];
    forall t | 0 <= t < m ensures x[t] == y[t] {
      assert (pos + t) % BSIZE == pos % BSIZE + t;
    }
  }

  lemma EntryNeedsIndirect(fs: Fs, i: nat, k: nat)
    requires Wf(fs) && SlotOk(fs, i, k) && k > NDIRECT
    ensures At(fs, i, NDIRECT) == 0 ==> At(fs, i, k) == 0
  {
  }

  lemma FillGrows(fs: Fs, fs': Fs, i: nat, k: nat, b: nat)
    requires Inv(fs) && CanInstall(fs, i, k, b) && fs' == Installed(fs, i, k, b)
    ensures Grown(fs, fs', i, {k}) && At(fs', i, k) == b
    ensures k > NDIRECT ==> At(fs', i, NDIRECT) == At(fs, i, NDIRECT)
    ensures |fs.disk| <= BPB ==> b / BPB == 0
  {
    InstalledGrown(fs, i, k, b);
    InstalledAt(fs, i, k, b, i, k);
  }

  lemma GrownMore(fs: Fs, fs': Fs, i: nat, s: set<nat>, t: set<nat>)
    requires Grown(fs, fs', i, s) && s <= t
    ensures Grown(fs, fs', i, t)
  {
  }
}
