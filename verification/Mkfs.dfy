/** mkfs (src/mkfs.c): building the initial file system with two counters.  The image is
    viewed as a file system whose bitmap has exactly the bits below freeblock set, which is
    what mkfs's balloc writes at the end. */
module Mkfs {
  import opened FileSystem
  import opened FileOps

  /** The image under construction as a file system. */
  ghost function View(nmeta: nat, disk: seq<Block>, inodes: seq<Inode>, freeblock: nat): Fs {
    Fs(nmeta, disk, seq(|disk|, b => b < freeblock), inodes)
  }

  /** Every block not handed out yet is still zero. */
  ghost predicate Fresh(disk: seq<Block>, freeblock: nat) {
    forall b :: freeblock <= b < |disk| ==> disk[b] == ZeroBlock()
  }

  function FreeInode(): Inode {
    Inode(0, seq(NDIRECT + 1, k => 0))
  }

  /** The zeroed image with all inodes free is a file system with every block accounted for. */
  lemma EmptyImage(nmeta: nat, size: nat, ninodes: nat)
    requires 0 < nmeta <= size < 0x1_0000_0000
    ensures var disk, inodes := seq(size, b => ZeroBlock()), seq(ninodes, i => FreeInode());
      && Inv(View(nmeta, disk, inodes, nmeta)) && Fresh(disk, nmeta)
      && forall i: nat :: i < ninodes ==>
           && HoleFree(View(nmeta, disk, inodes, nmeta), i) && Contents(View(nmeta, disk, inodes, nmeta), i) == []
           && Tight(View(nmeta, disk, inodes, nmeta), i)
  {
    var disk, inodes := seq(size, b => ZeroBlock()), seq(ninodes, i => FreeInode());
    var fs := View(nmeta, disk, inodes, nmeta);
    forall i: nat, k: nat | SlotOk(fs, i, k) ensures At(fs, i, k) == 0 {}
  }

  /** Taking freeblock for an empty slot is what balloc and bmap would do. */
  lemma TakeIsInstall(nmeta: nat, disk: seq<Block>, inodes: seq<Inode>, freeblock: nat, i: nat, k: nat)
    requires Inv(View(nmeta, disk, inodes, freeblock)) && Fresh(disk, freeblock) && nmeta <= freeblock < |disk|
    requires i < |inodes| && k <= NDIRECT && At(View(nmeta, disk, inodes, freeblock), i, k) == 0
    ensures CanInstall(View(nmeta, disk, inodes, freeblock), i, k, freeblock)
    ensures View(nmeta, disk, inodes[i := inodes[i].(addrs := inodes[i].addrs[k := freeblock])], freeblock + 1)
      == Installed(View(nmeta, disk, inodes, freeblock), i, k, freeblock)
  {
    assert disk[freeblock := ZeroBlock()] == disk;
    UsedNext(disk, freeblock);
  }

  lemma UsedNext(disk: seq<Block>, freeblock: nat)
    requires freeblock < |disk|
    ensures seq(|disk|, b => b < freeblock)[freeblock := true] == seq(|disk|, b => b < freeblock + 1)
  {
  }

  lemma TakeEntryIsInstall(nmeta: nat, disk: seq<Block>, inodes: seq<Inode>, freeblock: nat, i: nat, k: nat)
    requires Inv(View(nmeta, disk, inodes, freeblock)) && Fresh(disk, freeblock) && nmeta <= freeblock < |disk|
    requires i < |inodes| && NDIRECT < k < NSLOTS && At(View(nmeta, disk, inodes, freeblock), i, k) == 0
    requires inodes[i].addrs[NDIRECT] != 0
    ensures CanInstall(View(nmeta, disk, inodes, freeblock), i, k, freeblock) && inodes[i].addrs[NDIRECT] < freeblock
    ensures var ind := inodes[i].addrs[NDIRECT];
      View(nmeta, disk[ind := SetWord(disk[ind], k - NDIRECT - 1, freeblock)], inodes, freeblock + 1)
      == Installed(View(nmeta, disk, inodes, freeblock), i, k, freeblock)
  {
    IndirectUsed(View(nmeta, disk, inodes, freeblock), i);
    assert disk[freeblock := ZeroBlock()] == disk;
    UsedNext(disk, freeblock);
  }

  /** The image is a file system with every block accounted for, and the rest is zero. */
  ghost predicate Ok(nmeta: nat, disk: seq<Block>, inodes: seq<Inode>, freeblock: nat) {
    Inv(View(nmeta, disk, inodes, freeblock)) && Fresh(disk, freeblock) && nmeta <= freeblock <= |disk|
  }

  lemma TakeOk(nmeta: nat, disk: seq<Block>, inodes: seq<Inode>, freeblock: nat, i: nat, k: nat)
    requires Ok(nmeta, disk, inodes, freeblock) && freeblock < |disk|
    requires i < |inodes| && k <= NDIRECT && At(View(nmeta, disk, inodes, freeblock), i, k) == 0
    ensures var inodes' := inodes[i := inodes[i].(addrs := inodes[i].addrs[k := freeblock])];
      && Ok(nmeta, disk, inodes', freeblock + 1)
      && Grown(View(nmeta, disk, inodes, freeblock), View(nmeta, disk, inodes', freeblock + 1), i, {k})
      && At(View(nmeta, disk, inodes', freeblock + 1), i, k) == freeblock
  {
    var fs := View(nmeta, disk, inodes, freeblock);
    TakeIsInstall(nmeta, disk, inodes, freeblock, i, k);
    FillGrows(fs, Installed(fs, i, k, freeblock), i, k, freeblock);
  }

  lemma TakeEntryOk(nmeta: nat, disk: seq<Block>, inodes: seq<Inode>, freeblock: nat, i: nat, k: nat)
    requires Ok(nmeta, disk, inodes, freeblock) && freeblock < |disk|
    requires i < |inodes| && NDIRECT < k < NSLOTS && At(View(nmeta, disk, inodes, freeblock), i, k) == 0
    requires inodes[i].addrs[NDIRECT] != 0 && inodes[i].addrs[NDIRECT] < |disk|
    ensures var ind := inodes[i].addrs[NDIRECT];
      var disk' := disk[ind := SetWord(disk[ind], k - NDIRECT - 1, freeblock)];
      && Ok(nmeta, disk', inodes, freeblock + 1)
      && Grown(View(nmeta, disk, inodes, freeblock), View(nmeta, disk', inodes, freeblock + 1), i, {k})
      && At(View(nmeta, disk', inodes, freeblock + 1), i, k) == freeblock
  {
    var fs := View(nmeta, disk, inodes, freeblock);
    TakeEntryIsInstall(nmeta, disk, inodes, freeblock, i, k);
    FillGrows(fs, Installed(fs, i, k, freeblock), i, k, freeblock);
  }

  lemma NothingTaken(nmeta: nat, disk: seq<Block>, inodes: seq<Inode>, freeblock: nat, i: nat, k: nat)
    requires Ok(nmeta, disk, inodes, freeblock) && i < |inodes| && k < NSLOTS
    ensures |inodes[i].addrs| == NDIRECT + 1
    ensures Grown(View(nmeta, disk, inodes, freeblock), View(nmeta, disk, inodes, freeblock), i, {k})
    ensures freeblock <= |disk|
    ensures var ind := inodes[i].addrs[NDIRECT]; ind != 0 ==> ind < |disk|
    ensures var ind := inodes[i].addrs[NDIRECT];
      At(View(nmeta, disk, inodes, freeblock), i, k)
      == if k <= NDIRECT then inodes[i].addrs[k]
         else if ind == 0 || ind >= |disk| then 0 else Word(disk[ind], k - NDIRECT - 1)
  {
    IndirectUsed(View(nmeta, disk, inodes, freeblock), i);
    GrownRefl(View(nmeta, disk, inodes, freeblock), i);
    GrownMore(View(nmeta, disk, inodes, freeblock), View(nmeta, disk, inodes, freeblock), i, {}, {k});
  }

  /** No data block from the n-th on is mapped. */
  ghost predicate TightTo(fs: Fs, i: nat, n: nat)
    requires Wf(fs) && i < |fs.inodes|
  {
    forall bn: nat :: n <= bn < MAXFILE ==> At(fs, i, DataSlot(bn)) == 0
  }

  /** No block beyond the size. */
  ghost predicate Tight(fs: Fs, i: nat)
    requires Wf(fs) && i < |fs.inodes|
  {
    TightTo(fs, i, Blocks(fs.inodes[i].size))
  }

  /** One round maps at most the block it writes to. */
  lemma RoundTight(fs: Fs, fs1: Fs, i: nat, off: nat, n1: nat, data: Block)
    requires Inv(fs) && Inv(fs1) && i < |fs.inodes| && 0 < n1 && off % BSIZE + n1 <= BSIZE && off / BSIZE < MAXFILE
    requires Grown(fs, fs1, i, BmapSlots(off / BSIZE)) && TightTo(fs, i, Blocks(off))
    requires At(fs1, i, DataSlot(off / BSIZE)) != 0
    ensures At(fs1, i, DataSlot(off / BSIZE)) < |fs1.disk| && Wf(DataWritten(fs1, i, off / BSIZE, data))
    ensures TightTo(DataWritten(fs1, i, off / BSIZE, data), i, Blocks(off + n1))
  {
    DataWrittenAt(fs1, i, off / BSIZE, data, i, 0);
    forall bn: nat | Blocks(off + n1) <= bn < MAXFILE
      ensures At(DataWritten(fs1, i, off / BSIZE, data), i, DataSlot(bn)) == 0
    {
      DataWrittenAt(fs1, i, off / BSIZE, data, i, DataSlot(bn));
      assert SlotOk(fs1, i, DataSlot(bn));
    }
  }

  lemma RoundOk(fs0: Fs, fs: Fs, nmeta: nat, disk: seq<Block>, inodes: seq<Inode>, freeblock: nat,
                i: nat, off: nat, src: seq<Byte>, tot: nat)
    requires Ok(nmeta, disk, inodes, freeblock) && Written(fs0, fs, i, off, src, tot)
    requires tot < |src| && off + |src| <= MAXFILE * BSIZE && (tot == 0 || (off + tot) % BSIZE == 0)
    requires TightTo(fs, i, Blocks(off + tot))
    requires Grown(fs, View(nmeta, disk, inodes, freeblock), i, BmapSlots((off + tot) / BSIZE))
    requires At(View(nmeta, disk, inodes, freeblock), i, DataSlot((off + tot) / BSIZE)) != 0
    ensures var x, n1 := At(View(nmeta, disk, inodes, freeblock), i, DataSlot((off + tot) / BSIZE)), ChunkSize(off, tot, |src|);
      && x < |disk| && (off + tot) % BSIZE + n1 <= BSIZE && 0 < n1 && tot + n1 <= |src|
      && (tot + n1 == |src| || (off + tot + n1) % BSIZE == 0)
      && var disk' := disk[x := Patched(disk[x], (off + tot) % BSIZE, src, tot, n1)];
         && Ok(nmeta, disk', inodes, freeblock) && Written(fs0, View(nmeta, disk', inodes, freeblock), i, off, src, tot + n1)
         && TightTo(View(nmeta, disk', inodes, freeblock), i, Blocks(off + tot + n1))
  {
    var x, n1 := At(View(nmeta, disk, inodes, freeblock), i, DataSlot((off + tot) / BSIZE)), ChunkSize(off, tot, |src|);
    SpanStep(off, tot, |src|);
    RoundWritten(fs0, fs, View(nmeta, disk, inodes, freeblock), i, off, src, tot);
    DataBelow(nmeta, disk, inodes, freeblock, i, (off + tot) / BSIZE, Patched(disk[x], (off + tot) % BSIZE, src, tot, n1));
    RoundTight(fs, View(nmeta, disk, inodes, freeblock), i, off + tot, n1, Patched(disk[x], (off + tot) % BSIZE, src, tot, n1));
  }

  lemma DataBelow(nmeta: nat, disk: seq<Block>, inodes: seq<Inode>, freeblock: nat, i: nat, bn: nat, data: Block)
    requires Inv(View(nmeta, disk, inodes, freeblock)) && Fresh(disk, freeblock) && i < |inodes| && bn < MAXFILE
    requires At(View(nmeta, disk, inodes, freeblock), i, DataSlot(bn)) != 0
    ensures var b := At(View(nmeta, disk, inodes, freeblock), i, DataSlot(bn));
      && b < freeblock && b < |disk| && Fresh(disk[b := data], freeblock)
      && View(nmeta, disk[b := data], inodes, freeblock) == DataWritten(View(nmeta, disk, inodes, freeblock), i, bn, data)
      && Inv(View(nmeta, disk[b := data], inodes, freeblock))
  {
    var fs := View(nmeta, disk, inodes, freeblock);
    assert Owns(fs, i, DataSlot(bn), At(fs, i, DataSlot(bn)));
    DataWrittenKeeps(fs, i, bn, data);
  }

  class Image {
    const nmeta: nat
    var disk: seq<Block>
    var inodes: seq<Inode>
    var freeblock: nat

    ghost function Fs(): Fs
      reads this
    {
      View(nmeta, disk, inodes, freeblock)
    }

    ghost predicate Valid()
      reads this
    {
      Ok(nmeta, disk, inodes, freeblock)
    }

    constructor (nmeta: nat, size: nat, ninodes: nat)
      requires 0 < nmeta <= size < 0x1_0000_0000
      ensures Valid() && |inodes| == ninodes && |disk| == size && freeblock == nmeta && this.nmeta == nmeta
      ensures forall i: nat :: i < ninodes ==> HoleFree(Fs(), i) && Contents(Fs(), i) == [] && Tight(Fs(), i)
    {
      EmptyImage(nmeta, size, ninodes);
      this.nmeta := nmeta;
      disk := seq(size, b => ZeroBlock());
      inodes := seq(ninodes, i => FreeInode());
      freeblock := nmeta;
    }

    /** The block in one of the inode's own slots, taken from freeblock if the slot is empty;
        0 when the image is full. */
    method EnsureDirect(i: nat, k: nat) returns (b: nat)
      requires Valid() && i < |inodes| && k <= NDIRECT
      modifies this
      ensures Valid() && Grown(old(Fs()), Fs(), i, {k}) && b == At(Fs(), i, k)
      ensures b == 0 ==> freeblock == |disk|
    {
      assert freeblock > 0;
      hide Ok, View, Grown, At;
      NothingTaken(nmeta, disk, inodes, freeblock, i, k);
      b := inodes[i].addrs[k];
      if b != 0 || freeblock == |disk| { return; }
      TakeOk(nmeta, disk, inodes, freeblock, i, k);
      b := freeblock;
      inodes := inodes[i := inodes[i].(addrs := inodes[i].addrs[k := b])];
      freeblock := freeblock + 1;
    }

    /** The same for an entry of the indirect block. */
    method EnsureEntry(i: nat, k: nat) returns (b: nat)
      requires Valid() && i < |inodes| && NDIRECT < k < NSLOTS && At(Fs(), i, NDIRECT) != 0
      modifies this
      ensures Valid() && Grown(old(Fs()), Fs(), i, {k}) && b == At(Fs(), i, k)
      ensures b == 0 ==> freeblock == |disk|
    {
      assert freeblock > 0;
      hide Ok, View, Grown, At;
      NothingTaken(nmeta, disk, inodes, freeblock, i, NDIRECT);
      NothingTaken(nmeta, disk, inodes, freeblock, i, k);
      var ind := inodes[i].addrs[NDIRECT];
      b := Word(disk[ind], k - NDIRECT - 1);
      if b != 0 || freeblock == |disk| { return; }
      TakeEntryOk(nmeta, disk, inodes, freeblock, i, k);
      b := freeblock;
      disk := disk[ind := SetWord(disk[ind], k - NDIRECT - 1, b)];
      freeblock := freeblock + 1;
    }

    /** The block that iappend finds or takes for data block fbn; 0 when the image is full. */
    method EnsureBlock(i: nat, fbn: nat) returns (x: nat)
      requires Valid() && i < |inodes| && fbn < MAXFILE
      modifies this
      ensures Valid() && Grown(old(Fs()), Fs(), i, BmapSlots(fbn)) && x == At(Fs(), i, DataSlot(fbn))
      ensures x == 0 ==> freeblock == |disk|
    {
      hide At, Grown;
      if fbn < NDIRECT {
        x := EnsureDirect(i, fbn);
      } else {
        var ind := EnsureDirect(i, NDIRECT);
        GrownMore(old(Fs()), Fs(), i, {NDIRECT}, {NDIRECT, fbn + 1});
        if ind == 0 {
          EntryNeedsIndirect(Fs(), i, fbn + 1);
          return 0;
        }
        ghost var mid := Fs();
        x := EnsureEntry(i, fbn + 1);
        GrownTwice(old(Fs()), mid, Fs(), i, {NDIRECT, fbn + 1}, {fbn + 1});
        GrownMore(old(Fs()), Fs(), i, {NDIRECT, fbn + 1} + {fbn + 1}, {NDIRECT, fbn + 1});
      }
    }

    /** One round of iappend's loop: n1 bytes into one block.  0 when the image is full. */
    method AppendRound(ghost fs0: FileSystem.Fs, i: nat, src: seq<Byte>, off: nat, tot: nat) returns (n1: nat)
      requires Valid() && i < |inodes| && Written(fs0, Fs(), i, off, src, tot)
      requires tot < |src| && off + |src| <= MAXFILE * BSIZE && (tot == 0 || (off + tot) % BSIZE == 0)
      requires TightTo(Fs(), i, Blocks(off + tot))
      modifies this
      ensures Valid() && (n1 == 0 ==> freeblock == |disk|)
      ensures n1 != 0 ==> |inodes| == old(|inodes|) && tot + n1 <= |src| && Written(fs0, Fs(), i, off, src, tot + n1)
      ensures n1 != 0 ==> tot + n1 == |src| || (off + tot + n1) % BSIZE == 0
      ensures n1 != 0 ==> TightTo(Fs(), i, Blocks(off + tot + n1))
    {
      hide Ok, Grown, At, Written, TightTo;
      var x := EnsureBlock(i, (off + tot) / BSIZE);
      if x == 0 { return 0; }
      n1 := ChunkSize(off, tot, |src|);
      RoundOk(fs0, old(Fs()), nmeta, disk, inodes, freeblock, i, off, src, tot);
      GrownCount(old(Fs()), Fs(), i, BmapSlots((off + tot) / BSIZE));
      disk := disk[x := Patched(disk[x], (off + tot) % BSIZE, src, tot, n1)];
    }

    /** iappend's loop, the size not yet written back.  false when the image is full. */
    method AppendLoop(i: nat, data: seq<Byte>) returns (ok: bool)
      requires Valid() && i < |inodes| && HoleFree(Fs(), i) && inodes[i].size + |data| <= MAXFILE * BSIZE
      requires Tight(Fs(), i)
      modifies this
      ensures Valid() && (!ok ==> freeblock == |disk|)
      ensures ok ==> Written(old(Fs()), Fs(), i, old(inodes[i].size), data, |data|)
      ensures ok ==> TightTo(Fs(), i, Blocks(old(inodes[i].size) + |data|))
    {
      var off, tot := inodes[i].size, 0;
      WrittenNothing(Fs(), i, off, data);
      hide Ok, Written, HoleFree, View, TightTo;
      while tot < |data|
        invariant tot <= |data| && Valid() && i < |inodes| && Written(old(Fs()), Fs(), i, off, data, tot)
        invariant Wf(Fs()) && i < |Fs().inodes| && TightTo(Fs(), i, Blocks(off + tot))
        invariant tot == |data| || tot == 0 || (off + tot) % BSIZE == 0
      {
        var n1 := AppendRound(old(Fs()), i, data, off, tot);
        if n1 == 0 { return false; }
        tot := tot + n1;
      }
      ok := true;
    }

    /** iappend: data goes at the end of file i and nowhere else.  false when the file would
        exceed MAXFILE blocks or the image is full. */
    method Iappend(i: nat, data: seq<Byte>) returns (ok: bool)
      requires Valid() && i < |inodes| && HoleFree(Fs(), i) && Tight(Fs(), i)
      modifies this
      ensures Valid()
      ensures ok ==> Extended(old(Fs()), Fs(), i, data)
      ensures !ok ==> freeblock == |disk| || old(inodes[i].size) + |data| > MAXFILE * BSIZE
    {
      var off := inodes[i].size;
      if off + |data| > MAXFILE * BSIZE { return false; }
      ok := AppendLoop(i, data);
      if ok {
        AppendDone(old(Fs()), nmeta, disk, inodes, freeblock, i, data);
        inodes := inodes[i := inodes[i].(size := off + |data|)];
      }
    }

    /** main's loop over one input file: append it block by block. */
    method AppendFile(i: nat, data: seq<Byte>) returns (ok: bool)
      requires Valid() && i < |inodes| && HoleFree(Fs(), i) && Tight(Fs(), i)
      modifies this
      ensures Valid()
      ensures ok ==> Extended(old(Fs()), Fs(), i, data)
      ensures !ok ==> freeblock == |disk| || old(inodes[i].size) + |data| > MAXFILE * BSIZE
    {
      var p := 0;
      ExtendedNothing(Fs(), i);
      assert data[..0] == [];
      while p < |data|
        invariant p <= |data| && Valid() && Extended(old(Fs()), Fs(), i, data[..p])
      {
        ExtendedHas(old(Fs()), Fs(), i, data[..p]);
        hide Ok, Extended, Inv, HoleFree, Tight;
        var cc := if |data| - p < BSIZE then |data| - p else BSIZE;
        ghost var mid := Fs();
        ok := Iappend(i, data[p..p + cc]);
        if !ok { return; }
        ExtendedTwice(old(Fs()), mid, Fs(), i, data[..p], data[p..p + cc]);
        assert data[..p] + data[p..p + cc] == data[..p + cc];
        p := p + cc;
      }
      ok := true;
      assert data[..p] == data;
    }
  }

  /** fs is fs0 with data appended to file i. */
  ghost predicate Extended(fs0: Fs, fs: Fs, i: nat, data: seq<Byte>) {
    && Wf(fs0) && Wf(fs) && i < |fs0.inodes| == |fs.inodes| && HoleFree(fs0, i) && HoleFree(fs, i)
    && Contents(fs, i) == Contents(fs0, i) + data && OthersKept(fs0, fs, i)
    && (forall j: nat :: j < |fs.inodes| && Tight(fs0, j) ==> Tight(fs, j))
  }

  lemma ExtendedNothing(fs: Fs, i: nat)
    requires Wf(fs) && i < |fs.inodes| && HoleFree(fs, i)
    ensures Extended(fs, fs, i, [])
  {
  }

  lemma ExtendedHas(fs0: Fs, fs: Fs, i: nat, data: seq<Byte>)
    requires Extended(fs0, fs, i, data)
    ensures Wf(fs) && i < |fs.inodes| && HoleFree(fs, i) && fs.inodes[i].size == fs0.inodes[i].size + |data|
    ensures Tight(fs0, i) ==> Tight(fs, i)
  {
  }

  lemma ExtendedTwice(a: Fs, b: Fs, c: Fs, i: nat, s: seq<Byte>, t: seq<Byte>)
    requires Extended(a, b, i, s) && Extended(b, c, i, t)
    ensures Extended(a, c, i, s + t)
  {
    assert Contents(a, i) + s + t == Contents(a, i) + (s + t);
    hide Contents, MappedTo;
  }

  lemma AppendDone(fs0: Fs, nmeta: nat, disk: seq<Block>, inodes: seq<Inode>, freeblock: nat, i: nat, data: seq<Byte>)
    requires Ok(nmeta, disk, inodes, freeblock) && i < |fs0.inodes| && Wf(fs0) && HoleFree(fs0, i) && Tight(fs0, i)
    requires i < |inodes| && TightTo(View(nmeta, disk, inodes, freeblock), i, Blocks(fs0.inodes[i].size + |data|))
    requires Written(fs0, View(nmeta, disk, inodes, freeblock), i, fs0.inodes[i].size, data, |data|)
    ensures |inodes| == |fs0.inodes|
    ensures var inodes' := inodes[i := inodes[i].(size := fs0.inodes[i].size + |data|)];
      Ok(nmeta, disk, inodes', freeblock) && Extended(fs0, View(nmeta, disk, inodes', freeblock), i, data)
  {
    var fs, size := View(nmeta, disk, inodes, freeblock), fs0.inodes[i].size;
    WrittenContents(fs0, fs, i, size, data);
    assert View(nmeta, disk, inodes[i := inodes[i].(size := size + |data|)], freeblock) == Resized(fs, i, size + |data|);
    assert Overwrite(Contents(fs0, i), size, data) == Contents(fs0, i) + data;
    ResizedTight(fs0, fs, i, size, data);
  }

  lemma ResizedTight(fs0: Fs, fs: Fs, i: nat, off: nat, data: seq<Byte>)
    requires Written(fs0, fs, i, off, data, |data|) && TightTo(fs, i, Blocks(off + |data|))
    ensures Wf(Resized(fs, i, off + |data|)) && Tight(Resized(fs, i, off + |data|), i)
    ensures forall j: nat :: j < |fs.inodes| && j != i && Tight(fs0, j) ==> Tight(Resized(fs, i, off + |data|), j)
  {
    ResizedSame(fs, i, off + |data|);
    var t := Resized(fs, i, off + |data|);
    hide At;
    forall bn: nat | bn < MAXFILE ensures At(t, i, DataSlot(bn)) == At(fs, i, DataSlot(bn)) {
      assert SlotOk(fs, i, DataSlot(bn));
    }
    forall j: nat, bn: nat | j < |fs.inodes| && j != i && bn < MAXFILE ensures At(t, j, DataSlot(bn)) == At(fs0, j, DataSlot(bn)) {
      assert SlotOk(fs, j, DataSlot(bn));
    }
  }

  lemma GrownCount(fs: Fs, fs': Fs, i: nat, slots: set<nat>)
    requires Grown(fs, fs', i, slots)
    ensures |fs'.inodes| == |fs.inodes|
  {
  }

  // ---------------------------------------------------------------------------- main

  const ROOTINO := 1

  function Concat(parts: seq<seq<Byte>>): seq<Byte> {
    if parts == [] then [] else Concat(parts[..|parts| - 1]) + parts[|parts| - 1]
  }

  /** What inode i holds after n names and k files have been written. */
  ghost function Expected(i: nat, dots: seq<Byte>, names: seq<seq<Byte>>, files: seq<seq<Byte>>, n: nat, k: nat): seq<Byte>
    requires n <= |names| && k <= |files|
  {
    if i == ROOTINO then dots + Concat(names[..n]) else if 2 <= i < k + 2 then files[i - 2] else []
  }

  /** No file has a hole and every inode holds what it should. */
  ghost predicate Built(fs: Fs, dots: seq<Byte>, names: seq<seq<Byte>>, files: seq<seq<Byte>>, n: nat, k: nat) {
    && Wf(fs) && n <= |names| && k <= |files| && |files| + 2 <= |fs.inodes|
    && (forall i: nat :: i < |fs.inodes| ==> Tight(fs, i))
    && (forall i: nat :: i < |fs.inodes| ==>
          HoleFree(fs, i) && Contents(fs, i) == Expected(i, dots, names, files, n, k))
  }

  lemma BuiltStep(a: Fs, b: Fs, i: nat, data: seq<Byte>,
                  dots: seq<Byte>, names: seq<seq<Byte>>, files: seq<seq<Byte>>, n: nat, k: nat, n': nat, k': nat)
    requires Built(a, dots, names, files, n, k) && Extended(a, b, i, data) && n' <= |names| && k' <= |files|
    requires forall j: nat :: j != i ==>
      Expected(j, dots, names, files, n', k') == Expected(j, dots, names, files, n, k)
    requires Expected(i, dots, names, files, n', k') == Expected(i, dots, names, files, n, k) + data
    ensures Built(b, dots, names, files, n', k')
  {
    hide Expected, MappedTo, HoleFree;
    forall j: nat | j < |b.inodes| ensures HoleFree(b, j) && SizeOk(b, j) && Contents(b, j) == Expected(j, dots, names, files, n', k') {
      if j != i { assert HoleFree(a, j); SizeFits(a, j); }
      SizeFits(b, j);
    }
  }

  lemma NextName(dots: seq<Byte>, names: seq<seq<Byte>>, n: nat)
    requires n < |names|
    ensures dots + Concat(names[..n + 1]) == dots + Concat(names[..n]) + names[n]
  {
    assert names[..n + 1][..n] == names[..n] && names[..n + 1][n] == names[n];
  }

  lemma NameStep(a: Fs, b: Fs, dots: seq<Byte>, names: seq<seq<Byte>>, files: seq<seq<Byte>>, k: nat)
    requires k < |files| == |names| && Built(a, dots, names, files, k, k) && Extended(a, b, ROOTINO, names[k])
    ensures Built(b, dots, names, files, k + 1, k)
  {
    NextName(dots, names, k);
    BuiltStep(a, b, ROOTINO, names[k], dots, names, files, k, k, k + 1, k);
  }

  lemma FileStep(a: Fs, b: Fs, dots: seq<Byte>, names: seq<seq<Byte>>, files: seq<seq<Byte>>, k: nat)
    requires k < |files| == |names| && Built(a, dots, names, files, k + 1, k) && Extended(a, b, k + 2, files[k])
    ensures Built(b, dots, names, files, k + 1, k + 1)
  {
    BuiltStep(a, b, k + 2, files[k], dots, names, files, k + 1, k, k + 1, k + 1);
  }

  lemma BuiltHas(fs: Fs, dots: seq<Byte>, names: seq<seq<Byte>>, files: seq<seq<Byte>>, n: nat, k: nat, i: nat)
    requires Built(fs, dots, names, files, n, k) && i < |files| + 2
    ensures Wf(fs) && i < |fs.inodes| && HoleFree(fs, i) && Tight(fs, i)
    ensures fs.inodes[i].size == |Expected(i, dots, names, files, n, k)|
  {
  }

  /** What the input makes of the root directory or of some file is too long. */
  predicate TooLong(dots: seq<Byte>, names: seq<seq<Byte>>, files: seq<seq<Byte>>) {
    || |dots| + |Concat(names)| > MAXFILE * BSIZE
    || exists k :: 0 <= k < |files| && |files[k]| > MAXFILE * BSIZE
  }

  lemma {:induction false} ConcatGrows(parts: seq<seq<Byte>>, n: nat)
    requires n <= |parts|
    ensures |Concat(parts[..n])| <= |Concat(parts)|
  {
    if n < |parts| {
      ConcatGrows(parts[..|parts| - 1], n);
      assert parts[..|parts| - 1][..n] == parts[..n];
    } else {
      assert parts[..n] == parts;
    }
  }

  lemma BuiltFirst(a: Fs, b: Fs, dots: seq<Byte>, names: seq<seq<Byte>>, files: seq<seq<Byte>>)
    requires Wf(a) && |files| + 2 <= |a.inodes|
    requires forall i: nat :: i < |a.inodes| ==> HoleFree(a, i) && Contents(a, i) == [] && Tight(a, i)
    requires Extended(a, b, ROOTINO, dots)
    ensures Built(b, dots, names, files, 0, 0)
  {
    forall j: nat | j < |b.inodes| ensures HoleFree(b, j) && Contents(b, j) == Expected(j, dots, names, files, 0, 0) {
      if j != ROOTINO { assert HoleFree(a, j); }
    }
  }

  /** One input file: its name into the root directory, then its bytes into its inode. */
  method AddFile(img: Image, dots: seq<Byte>, names: seq<seq<Byte>>, files: seq<seq<Byte>>, k: nat) returns (ok: bool)
    requires k < |files| == |names| && img.Valid() && Built(img.Fs(), dots, names, files, k, k)
    modifies img
    ensures img.Valid()
    ensures ok ==> Built(img.Fs(), dots, names, files, k + 1, k + 1)
    ensures !ok ==> img.freeblock == |img.disk| || TooLong(dots, names, files)
  {
    NextName(dots, names, k);
    ConcatGrows(names, k + 1);
    hide Ok, Built, Extended, HoleFree, Tight;
    ghost var a := img.Fs();
    BuiltHas(a, dots, names, files, k, k, ROOTINO);
    ok := img.Iappend(ROOTINO, names[k]);
    if !ok { return; }
    NameStep(a, img.Fs(), dots, names, files, k);
    ghost var b := img.Fs();
    BuiltHas(b, dots, names, files, k + 1, k, k + 2);
    ok := img.AppendFile(k + 2, files[k]);
    if !ok { return; }
    FileStep(b, img.Fs(), dots, names, files, k);
  }

  /** mkfs before the size of the root is rounded: every input file is in its inode, the root
      holds the directory entries, no file has a hole, and every block is accounted for. */
  method Build(nmeta: nat, size: nat, ninodes: nat, dots: seq<Byte>, names: seq<seq<Byte>>, files: seq<seq<Byte>>)
    returns (img: Image, ok: bool)
    requires 0 < nmeta <= size < 0x1_0000_0000 && |files| + 2 <= ninodes && |names| == |files|
    ensures img.Valid()
    ensures ok ==> Built(img.Fs(), dots, names, files, |files|, |files|)
    ensures !ok ==> img.freeblock == |img.disk| || TooLong(dots, names, files)
  {
    img := new Image(nmeta, size, ninodes);
    ghost var a := img.Fs();
    ok := img.Iappend(ROOTINO, dots);
    if !ok { return; }
    BuiltFirst(a, img.Fs(), dots, names, files);
    hide Ok, Built, Extended;
    var k := 0;
    while k < |files|
      invariant k <= |files| && img.Valid() && Built(img.Fs(), dots, names, files, k, k)
    {
      ok := AddFile(img, dots, names, files, k);
      if !ok { return; }
      k := k + 1;
    }
  }

  /** The root directory's size is rounded up past its end. */
  function RoundedSize(size: nat): nat {
    (size / BSIZE + 1) * BSIZE
  }

  /** The rounding leaves the root without a hole exactly when its entries do not fill whole
      blocks. */
  lemma RoundingHoleIff(fs: Fs, i: nat)
    requires Inv(fs) && i < |fs.inodes| && HoleFree(fs, i) && Tight(fs, i)
    requires fs.inodes[i].size + BSIZE <= MAXFILE * BSIZE
    ensures var fs' := Resized(fs, i, RoundedSize(fs.inodes[i].size));
      Inv(fs') && (HoleFree(fs', i) <==> fs.inodes[i].size % BSIZE != 0)
  {
    var size := fs.inodes[i].size;
    ResizedSame(fs, i, RoundedSize(size));
    var fs' := Resized(fs, i, RoundedSize(size));
    if size % BSIZE == 0 {
      assert At(fs, i, DataSlot(size / BSIZE)) == 0;
      assert size / BSIZE < Blocks(RoundedSize(size));
      assert SlotOk(fs, i, DataSlot(size / BSIZE));
      assert At(fs', i, DataSlot(size / BSIZE)) == 0;
    } else {
      assert Blocks(RoundedSize(size)) == Blocks(size);
    }
  }

  /** The end of main: the root's size is rounded; the bitmap then written has exactly the
      bits below freeblock set. */
  method RoundRoot(img: Image)
    requires img.Valid() && ROOTINO < |img.inodes| && HoleFree(img.Fs(), ROOTINO) && Tight(img.Fs(), ROOTINO)
    requires img.inodes[ROOTINO].size + BSIZE <= MAXFILE * BSIZE
    modifies img
    ensures img.Valid() && |img.inodes| == old(|img.inodes|)
    ensures HoleFree(img.Fs(), ROOTINO) <==> old(img.inodes[ROOTINO].size) % BSIZE != 0
    ensures img.Fs() == Resized(old(img.Fs()), ROOTINO, RoundedSize(old(img.inodes[ROOTINO].size)))
  {
    RoundingHoleIff(img.Fs(), ROOTINO);
    var ip := img.inodes[ROOTINO];
    img.inodes := img.inodes[ROOTINO := ip.(size := RoundedSize(ip.size))];
  }

  lemma {:induction false} EntriesLength(names: seq<seq<Byte>>)
    requires forall k :: 0 <= k < |names| ==> |names[k]| == 16
    ensures |Concat(names)| == 16 * |names|
  {
    if names != [] { EntriesLength(names[..|names| - 1]); }
  }

  lemma RootLength(fs: Fs, dots: seq<Byte>, names: seq<seq<Byte>>, files: seq<seq<Byte>>)
    requires Inv(fs) && Built(fs, dots, names, files, |files|, |files|) && |names| == |files|
    requires |dots| == 32 && forall k :: 0 <= k < |names| ==> |names[k]| == 16
    ensures ROOTINO < |fs.inodes| && HoleFree(fs, ROOTINO) && Tight(fs, ROOTINO)
    ensures fs.inodes[ROOTINO].size == 16 * (|names| + 2)
  {
    assert names[..|names|] == names;
    EntriesLength(names);
    SizeFits(fs, ROOTINO);
    hide HoleFree, Tight, Concat;
    assert |Contents(fs, ROOTINO)| == fs.inodes[ROOTINO].size;
  }

  /** With 16-byte entries the image has a hole in its root directory exactly when the number
      of entries, the two dot entries included, is a multiple of 32; and then reading the
      directory to its end meets the hole. */
  lemma RootHoleIff(fs: Fs, dots: seq<Byte>, names: seq<seq<Byte>>, files: seq<seq<Byte>>)
    requires Inv(fs) && Built(fs, dots, names, files, |files|, |files|) && |names| == |files|
    requires |dots| == 32 && forall k :: 0 <= k < |names| ==> |names[k]| == 16
    requires fs.inodes[ROOTINO].size + BSIZE <= MAXFILE * BSIZE
    ensures var t := Resized(fs, ROOTINO, RoundedSize(fs.inodes[ROOTINO].size));
      && Inv(t) && (HoleFree(t, ROOTINO) <==> (|names| + 2) % 32 != 0)
      && (Hole(t, ROOTINO, 0, t.inodes[ROOTINO].size) <==> (|names| + 2) % 32 == 0)
  {
    hide Inv, Built, HoleFree, Hole, Wf, Tight;
    RootLength(fs, dots, names, files);
    RoundingHoleIff(fs, ROOTINO);
    RootSize(fs);
    HoleIff(Resized(fs, ROOTINO, RoundedSize(fs.inodes[ROOTINO].size)), ROOTINO);
  }

  lemma RootSize(fs: Fs)
    requires Inv(fs) && ROOTINO < |fs.inodes| && fs.inodes[ROOTINO].size + BSIZE <= MAXFILE * BSIZE
    ensures var t := Resized(fs, ROOTINO, RoundedSize(fs.inodes[ROOTINO].size));
      Wf(t) && SizeOk(t, ROOTINO)
  {
  }
}
