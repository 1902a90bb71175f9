/** Inode block maps and the block bitmap (src/fs.c) on values: which block each slot of each
    inode names, and what installing, writing and freeing blocks do to that map. */
module FileSystem {

  const BSIZE := 512
  const NDIRECT := 12
  const NINDIRECT := 128
  const MAXFILE := NDIRECT + NINDIRECT
  /** Slots of an inode: the direct ones, the indirect block, then the indirect block's
      entries. */
  const NSLOTS := MAXFILE + 1

  type Byte = x: int | 0 <= x < 256
  type Block = b: seq<Byte> | |b| == BSIZE witness seq(BSIZE, i => 0)

  datatype Inode = Inode(size: nat, addrs: seq<nat>)

  /** used is the bitmap; blocks below nmeta hold the boot block, superblock, log, inodes and
      bitmap. */
  datatype Fs = Fs(nmeta: nat, disk: seq<Block>, used: seq<bool>, inodes: seq<Inode>)

  function ZeroBlock(): Block {
    seq(BSIZE, i => 0)
  }

  // ------------------------------------------------------------- the indirect block

  /** The k-th little-endian 32-bit word of a block. */
  function Word(b: Block, k: nat): nat
    requires k < NINDIRECT
  {
    var w: seq<int> := b;
    w[4 * k] + 0x100 * w[4 * k + 1] + 0x1_0000 * w[4 * k + 2] + 0x100_0000 * w[4 * k + 3]
  }

  function SetWord(b: Block, k: nat, x: nat): Block
    requires k < NINDIRECT
  {
    b[4 * k := x % 0x100][4 * k + 1 := x / 0x100 % 0x100]
     [4 * k + 2 := x / 0x1_0000 % 0x100][4 * k + 3 := x / 0x100_0000 % 0x100]
  }

  /** What SetWord leaves at byte p. */
  lemma SetWordAt(b: Block, k: nat, x: nat, p: nat)
    requires k < NINDIRECT && p < BSIZE
    ensures SetWord(b, k, x)[p] ==
      if p == 4 * k then x % 0x100 else if p == 4 * k + 1 then x / 0x100 % 0x100
      else if p == 4 * k + 2 then x / 0x1_0000 % 0x100 else if p == 4 * k + 3 then x / 0x100_0000 % 0x100 else b[p]
  {
  }

  lemma BytesOf(x: nat)
    requires x < 0x1_0000_0000
    ensures x == x % 0x100 + 0x100 * (x / 0x100 % 0x100) + 0x1_0000 * (x / 0x1_0000 % 0x100) + 0x100_0000 * (x / 0x100_0000 % 0x100)
  {
    var a, b, c := x / 0x100, x / 0x1_0000, x / 0x100_0000;
    assert b == a / 0x100 && c == b / 0x100 && c < 0x100;
    assert x == 0x100 * a + x % 0x100 && a == 0x100 * b + a % 0x100 && b == 0x100 * c + b % 0x100;
  }

  lemma WordSet(b: Block, k: nat, x: nat, l: nat)
    requires k < NINDIRECT && l < NINDIRECT && x < 0x1_0000_0000
    ensures Word(SetWord(b, k, x), l) == if l == k then x else Word(b, l)
  {
    SetWordAt(b, k, x, 4 * l);
    SetWordAt(b, k, x, 4 * l + 1);
    SetWordAt(b, k, x, 4 * l + 2);
    SetWordAt(b, k, x, 4 * l + 3);
    BytesOf(x);
    hide SetWord;
  }

  // -------------------------------------------------------------------- the slot map

  ghost predicate Wf(fs: Fs) {
    && |fs.disk| == |fs.used| && fs.nmeta <= |fs.disk| < 0x1_0000_0000 && 0 < fs.nmeta
    && (forall i :: 0 <= i < |fs.inodes| ==> |fs.inodes[i].addrs| == NDIRECT + 1)
  }

  /** The block in slot k of inode i; 0 when there is none. */
  function At(fs: Fs, i: nat, k: nat): nat
    requires Wf(fs) && i < |fs.inodes| && k < NSLOTS
  {
    if k <= NDIRECT then fs.inodes[i].addrs[k]
    else
      var ind := fs.inodes[i].addrs[NDIRECT];
      if ind == 0 || ind >= |fs.disk| then 0 else Word(fs.disk[ind], k - NDIRECT - 1)
  }

  /** The slot of the bn-th data block of a file. */
  function DataSlot(bn: nat): nat {
    if bn < NDIRECT then bn else bn + 1
  }

  predicate SlotOk(fs: Fs, i: nat, k: nat) {
    i < |fs.inodes| && k < NSLOTS
  }

  /** Slot k of inode i names block b. */
  ghost predicate Owns(fs: Fs, i: nat, k: nat, b: nat) {
    Wf(fs) && SlotOk(fs, i, k) && b != 0 && At(fs, i, k) == b
  }

  /** Every bit of the bitmap is set exactly when its block is metadata or belongs to exactly
      one slot. */
  ghost predicate Inv(fs: Fs) {
    && Wf(fs)
    && (forall i: nat, k: nat, b: nat :: Owns(fs, i, k, b) ==> fs.nmeta <= b < |fs.disk| && fs.used[b])
    && (forall i: nat, k: nat, j: nat, l: nat, b: nat :: Owns(fs, i, k, b) && Owns(fs, j, l, b) ==> i == j && k == l)
    && (forall b :: fs.nmeta <= b < |fs.used| && fs.used[b] ==> exists i: nat, k: nat :: Owns(fs, i, k, b))
    && (forall b :: 0 <= b < fs.nmeta ==> fs.used[b])
  }

  // --------------------------------------------------------------- installing a block

  /** Block b, zeroed and marked used by balloc, goes into empty slot k of inode i. */
  function Installed(fs: Fs, i: nat, k: nat, b: nat): Fs
    requires Wf(fs) && SlotOk(fs, i, k) && b < |fs.disk|
  {
    var disk := fs.disk[b := ZeroBlock()];
    var used := fs.used[b := true];
    var ind := fs.inodes[i].addrs[NDIRECT];
    if k <= NDIRECT then
      fs.(disk := disk, used := used, inodes := fs.inodes[i := fs.inodes[i].(addrs := fs.inodes[i].addrs[k := b])])
    else if ind >= |fs.disk| then fs
    else fs.(disk := disk[ind := SetWord(disk[ind], k - NDIRECT - 1, b)], used := used)
  }

  predicate CanInstall(fs: Fs, i: nat, k: nat, b: nat)
    requires Wf(fs)
  {
    && SlotOk(fs, i, k) && At(fs, i, k) == 0 && fs.nmeta <= b < |fs.disk| && !fs.used[b]
    && (k > NDIRECT ==> At(fs, i, NDIRECT) != 0)
  }

  /** An indirect block is a used block. */
  lemma IndirectUsed(fs: Fs, i: nat)
    requires Inv(fs) && i < |fs.inodes|
    ensures var ind := fs.inodes[i].addrs[NDIRECT]; ind != 0 ==> fs.nmeta <= ind < |fs.disk| && fs.used[ind]
  {
    if fs.inodes[i].addrs[NDIRECT] != 0 { assert Owns(fs, i, NDIRECT, fs.inodes[i].addrs[NDIRECT]); }
  }

  /** Two inodes never share an indirect block. */
  lemma IndirectUnique(fs: Fs, i: nat, j: nat)
    requires Inv(fs) && i < |fs.inodes| && j < |fs.inodes| && i != j
    ensures fs.inodes[i].addrs[NDIRECT] != 0 ==> fs.inodes[j].addrs[NDIRECT] != fs.inodes[i].addrs[NDIRECT]
  {
    var b := fs.inodes[i].addrs[NDIRECT];
    if b != 0 && fs.inodes[j].addrs[NDIRECT] == b {
      assert Owns(fs, i, NDIRECT, b) && Owns(fs, j, NDIRECT, b);
    }
  }

  /** Installing changes the slot map at that slot only. */
  lemma InstalledAt(fs: Fs, i: nat, k: nat, b: nat, j: nat, l: nat)
    requires Inv(fs) && CanInstall(fs, i, k, b) && SlotOk(fs, j, l)
    ensures Wf(Installed(fs, i, k, b))
    ensures At(Installed(fs, i, k, b), j, l) == if i == j && k == l then b else At(fs, j, l)
  {
    IndirectUsed(fs, i);
    IndirectUsed(fs, j);
    if i != j { IndirectUnique(fs, i, j); }
    var fs' := Installed(fs, i, k, b);
    if l > NDIRECT && k > NDIRECT && i == j {
      WordSet(fs.disk[fs.inodes[i].addrs[NDIRECT]], k - NDIRECT - 1, b, l - NDIRECT - 1);
    }
  }

  /** The bitmap and the slot map after an installation satisfy the invariant if they change
      together. */
  lemma OwnsMore(fs: Fs, fs': Fs, i: nat, k: nat, b: nat)
    requires Inv(fs) && Wf(fs') && fs'.nmeta == fs.nmeta && fs.nmeta <= b < |fs.disk| && !fs.used[b]
    requires fs'.used == fs.used[b := true]
    requires forall j: nat, l: nat, c: nat :: Owns(fs', j, l, c) <==> Owns(fs, j, l, c) || (j == i && l == k && c == b)
    ensures Inv(fs')
  {
    hide Owns;
    forall c | fs'.nmeta <= c < |fs'.used| && fs'.used[c] ensures exists j: nat, l: nat :: Owns(fs', j, l, c) {
      if c == b { assert Owns(fs', i, k, b); }
      else { var j: nat, l: nat :| Owns(fs, j, l, c); assert Owns(fs', j, l, c); }
    }
  }

  lemma InstalledKeeps(fs: Fs, i: nat, k: nat, b: nat)
    requires Inv(fs) && CanInstall(fs, i, k, b)
    ensures Inv(Installed(fs, i, k, b))
  {
    var fs' := Installed(fs, i, k, b);
    InstalledAt(fs, i, k, b, i, k);
    IndirectUsed(fs, i);
    forall j: nat, l: nat, c: nat ensures Owns(fs', j, l, c) <==> Owns(fs, j, l, c) || (j == i && l == k && c == b) {
      if SlotOk(fs, j, l) { InstalledAt(fs, i, k, b, j, l); }
    }
    OwnsMore(fs, fs', i, k, b);
  }

  // ---------------------------------------------------------------------- contents

  /** Byte pos of file i; 0 where no block is mapped. */
  function ByteAt(fs: Fs, i: nat, pos: nat): Byte
    requires Wf(fs) && i < |fs.inodes| && pos < MAXFILE * BSIZE
  {
    var b := At(fs, i, DataSlot(pos / BSIZE));
    if b == 0 || b >= |fs.disk| then 0 else fs.disk[b][pos % BSIZE]
  }

  function Blocks(size: nat): nat {
    (size + BSIZE - 1) / BSIZE
  }

  /** The first n data blocks of file i are mapped. */
  ghost predicate MappedTo(fs: Fs, i: nat, n: nat)
    requires Wf(fs) && i < |fs.inodes|
  {
    n <= MAXFILE && forall bn: nat :: bn < n ==> At(fs, i, DataSlot(bn)) != 0
  }

  /** No hole below the size. */
  ghost predicate HoleFree(fs: Fs, i: nat)
    requires Wf(fs) && i < |fs.inodes|
  {
    MappedTo(fs, i, Blocks(fs.inodes[i].size))
  }

  /** The size is one that the slots can reach. */
  predicate SizeOk(fs: Fs, i: nat)
    requires i < |fs.inodes|
  {
    fs.inodes[i].size <= MAXFILE * BSIZE
  }

  lemma SizeFits(fs: Fs, i: nat)
    requires Wf(fs) && i < |fs.inodes| && HoleFree(fs, i)
    ensures SizeOk(fs, i)
  {
  }

  /** The bytes of file i, zero in its holes. */
  ghost function Contents(fs: Fs, i: nat): (r: seq<Byte>)
    requires Wf(fs) && i < |fs.inodes| && SizeOk(fs, i)
    ensures |r| == fs.inodes[i].size
  {
    seq(fs.inodes[i].size, pos requires 0 <= pos < fs.inodes[i].size => ByteAt(fs, i, pos))
  }

  /** A new block is zero, so it changes no byte of any file. */
  lemma InstalledBytes(fs: Fs, i: nat, k: nat, b: nat, j: nat, pos: nat)
    requires Inv(fs) && CanInstall(fs, i, k, b) && j < |fs.inodes| && pos < MAXFILE * BSIZE
    ensures Wf(Installed(fs, i, k, b))
    ensures ByteAt(Installed(fs, i, k, b), j, pos) == ByteAt(fs, j, pos)
  {
    var l := DataSlot(pos / BSIZE);
    InstalledAt(fs, i, k, b, j, l);
    IndirectUsed(fs, i);
    assert At(fs, j, l) != 0 ==> Owns(fs, j, l, At(fs, j, l));
    assert k > NDIRECT ==> Owns(fs, i, NDIRECT, fs.inodes[i].addrs[NDIRECT]);
  }

  /** Overwriting the block in a data slot. */
  function DataWritten(fs: Fs, i: nat, bn: nat, data: Block): Fs
    requires Wf(fs) && i < |fs.inodes| && bn < MAXFILE && At(fs, i, DataSlot(bn)) < |fs.disk|
  {
    fs.(disk := fs.disk[At(fs, i, DataSlot(bn)) := data])
  }

  lemma DataWrittenAt(fs: Fs, i: nat, bn: nat, data: Block, j: nat, l: nat)
    requires Inv(fs) && i < |fs.inodes| && bn < MAXFILE && At(fs, i, DataSlot(bn)) != 0 && SlotOk(fs, j, l)
    ensures At(fs, i, DataSlot(bn)) < |fs.disk| && Wf(DataWritten(fs, i, bn, data))
    ensures At(DataWritten(fs, i, bn, data), j, l) == At(fs, j, l)
  {
    var b := At(fs, i, DataSlot(bn));
    assert Owns(fs, i, DataSlot(bn), b);
    if fs.inodes[j].addrs[NDIRECT] == b { assert Owns(fs, j, NDIRECT, b); }
  }

  lemma DataWrittenKeeps(fs: Fs, i: nat, bn: nat, data: Block)
    requires Inv(fs) && i < |fs.inodes| && bn < MAXFILE && At(fs, i, DataSlot(bn)) != 0
    ensures At(fs, i, DataSlot(bn)) < |fs.disk| && Inv(DataWritten(fs, i, bn, data))
  {
    assert Owns(fs, i, DataSlot(bn), At(fs, i, DataSlot(bn)));
    var fs' := DataWritten(fs, i, bn, data);
    forall j: nat, l: nat, c: nat ensures Owns(fs', j, l, c) <==> Owns(fs, j, l, c) {
      if SlotOk(fs, j, l) { DataWrittenAt(fs, i, bn, data, j, l); }
    }
    SameOwners(fs, fs');
  }

  lemma SameOwners(fs: Fs, fs': Fs)
    requires Inv(fs) && Wf(fs') && fs'.nmeta == fs.nmeta && fs'.used == fs.used
    requires forall j: nat, l: nat, c: nat :: Owns(fs', j, l, c) <==> Owns(fs, j, l, c)
    ensures Inv(fs')
  {
    hide Owns;
    forall c | fs'.nmeta <= c < |fs'.used| && fs'.used[c] ensures exists j: nat, l: nat :: Owns(fs', j, l, c) {
      var j: nat, l: nat :| Owns(fs, j, l, c);
      assert Owns(fs', j, l, c);
    }
  }

  /** A data write changes exactly the bytes of that block of that file. */
  lemma DataWrittenBytes(fs: Fs, i: nat, bn: nat, data: Block, j: nat, pos: nat)
    requires Inv(fs) && i < |fs.inodes| && bn < MAXFILE && At(fs, i, DataSlot(bn)) != 0
    requires j < |fs.inodes| && pos < MAXFILE * BSIZE
    ensures At(fs, i, DataSlot(bn)) < |fs.disk| && Wf(DataWritten(fs, i, bn, data))
    ensures ByteAt(DataWritten(fs, i, bn, data), j, pos)
      == if j == i && pos / BSIZE == bn then data[pos % BSIZE] else ByteAt(fs, j, pos)
  {
    var l := DataSlot(pos / BSIZE);
    DataWrittenAt(fs, i, bn, data, j, l);
    assert Owns(fs, i, DataSlot(bn), At(fs, i, DataSlot(bn)));
    if At(fs, j, l) != 0 { assert Owns(fs, j, l, At(fs, j, l)); }
  }

  // ------------------------------------------------------------------------ freeing

  ghost predicate OwnedBy(fs: Fs, i: nat, b: nat) {
    exists k: nat :: Owns(fs, i, k, b)
  }

  /** itrunc: the file's blocks are free and its slots empty. */
  ghost function Truncated(fs: Fs, i: nat): Fs
    requires Wf(fs) && i < |fs.inodes|
  {
    fs.(used := seq(|fs.used|, b requires 0 <= b < |fs.used| => fs.used[b] && !OwnedBy(fs, i, b)),
        inodes := fs.inodes[i := Inode(0, seq(NDIRECT + 1, k => 0))])
  }

  lemma TruncatedKeeps(fs: Fs, i: nat)
    requires Inv(fs) && i < |fs.inodes|
    ensures Inv(Truncated(fs, i))
    ensures forall j: nat, l: nat :: j != i && SlotOk(fs, j, l) ==> At(Truncated(fs, i), j, l) == At(fs, j, l)
    ensures forall l: nat :: l < NSLOTS ==> At(Truncated(fs, i), i, l) == 0
  {
    var fs' := Truncated(fs, i);
    forall j: nat, l: nat, c: nat ensures Owns(fs', j, l, c) <==> Owns(fs, j, l, c) && j != i {
    }
    OwnersLeave(fs, fs', i);
  }

  lemma OwnersLeave(fs: Fs, fs': Fs, i: nat)
    requires Inv(fs) && Wf(fs') && fs'.nmeta == fs.nmeta && |fs'.used| == |fs.used|
    requires forall b :: 0 <= b < |fs.used| ==> (fs'.used[b] <==> fs.used[b] && !OwnedBy(fs, i, b))
    requires forall j: nat, l: nat, c: nat :: Owns(fs', j, l, c) <==> Owns(fs, j, l, c) && j != i
    ensures Inv(fs')
  {
    hide Owns;
    forall j: nat, l: nat, c: nat | Owns(fs', j, l, c) ensures fs'.nmeta <= c < |fs'.disk| && fs'.used[c] {
      assert Owns(fs, j, l, c);
    }
    forall c | fs'.nmeta <= c < |fs'.used| && fs'.used[c] ensures exists j: nat, l: nat :: Owns(fs', j, l, c) {
      var j: nat, l: nat :| Owns(fs, j, l, c);
      assert j != i;
      assert Owns(fs', j, l, c);
    }
  }
}
