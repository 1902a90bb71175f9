/** src/log.c run by the one process that commits or recovers: the loops that copy
    blocks between cache, log and home, and the disk images they pass through. */
module Log {
  import opened DiskLog
  import opened Storage
  import opened StorageRefinement
  import LR = LogReservation
  import opened BufferCache

  /** Exactly the given blocks are pinned dirty in the cache. */
  ghost predicate Pinned(bufs: seq<Entry>, es: set<nat>) {
    && (forall i :: 0 <= i < |bufs| && bufs[i].dirty ==> bufs[i].blockno in es)
    && (forall b :: b in es ==> DirtyFor(bufs, b))
  }

  ghost predicate Idle(bufs: seq<Entry>) {
    forall i :: 0 <= i < |bufs| ==> bufs[i].refcnt == 0 && !bufs[i].locked
  }

  /** Fewer than NBUF blocks are pinned, so bget finds a free buffer. */
  lemma SomeFree(bufs: seq<Entry>, es: set<nat>)
    requires |bufs| == NBUF && |es| < NBUF
    requires Unique(bufs) && Idle(bufs)
    requires forall i :: 0 <= i < |bufs| && bufs[i].dirty ==> bufs[i].dev == ROOTDEV && bufs[i].blockno in es
    ensures exists i :: 0 <= i < |bufs| && Free(bufs[i])
  {
    if forall i :: 0 <= i < |bufs| ==> !Free(bufs[i]) {
      Pigeons(bufs, es);
    }
  }

  /** With no buffer in use, bget can read an uncached block exactly when fewer than NBUF
      blocks are pinned; commit reads its log blocks this way. */
  lemma FreeBufferIff(bufs: seq<Entry>, es: set<nat>)
    requires |bufs| == NBUF && Unique(bufs) && Idle(bufs) && Pinned(bufs, es)
    requires forall i :: 0 <= i < |bufs| && bufs[i].dirty ==> bufs[i].dev == ROOTDEV
    ensures (exists i :: 0 <= i < |bufs| && Free(bufs[i])) <==> |es| < NBUF
  {
    if |es| < NBUF { SomeFree(bufs, es); }
    var all := Indices(NBUF);
    forall k: nat | k < NBUF && Free(bufs[k]) ensures |es| < NBUF {
      forall b | b in es ensures exists i :: i in all - {k} && i < |bufs| && bufs[i].blockno == b {
        assert DirtyFor(bufs, b);
        var i: nat :| i < |bufs| && bufs[i].dirty && bufs[i].blockno == b;
        assert i in all - {k};
      }
      CoverSize(bufs, es, all - {k});
      assert |all - {k}| == NBUF - 1;
    }
  }

  lemma {:induction false} Pigeons(bufs: seq<Entry>, es: set<nat>)
    requires Unique(bufs)
    requires forall i :: 0 <= i < |bufs| ==> bufs[i].dev == ROOTDEV && bufs[i].blockno in es
    ensures |bufs| <= |es|
  {
    if bufs != [] {
      var last := |bufs| - 1;
      Pigeons(bufs[..last], es - {bufs[last].blockno});
    }
  }

  /** After bread of one block there is a buffer for another: its own if it is pinned, a free
      one if nothing is. */
  lemma RoomForSecond(was: seq<Entry>, bufs: seq<Entry>, i: nat, b: nat, es: set<nat>)
    requires |was| == |bufs| == NBUF && i < NBUF && bufs == was[i := bufs[i]] && Idle(was) && Pinned(was, es) && Pinned(bufs, es)
    requires es == {} || b in es
    requires forall k :: 0 <= k < NBUF && was[k].dirty ==> was[k].dev == ROOTDEV
    requires bufs[i].dev == ROOTDEV
    ensures exists k :: 0 <= k < NBUF && (Holds(bufs[k], b) || Free(bufs[k]))
  {
    if b in es {
      assert DirtyFor(bufs, b);
      var k :| 0 <= k < NBUF && bufs[k].dirty && bufs[k].blockno == b;
      assert Holds(bufs[k], b);
    } else {
      var k := if i == 0 then 1 else 0;
      assert bufs[k] == was[k] && Free(bufs[k]);
    }
  }

  /** Taking and releasing buffers pins and unpins nothing. */
  lemma PinnedKept(bufs: seq<Entry>, bufs': seq<Entry>, es: set<nat>)
    requires Pinned(bufs, es) && |bufs'| == |bufs|
    requires forall i :: 0 <= i < |bufs| ==> bufs'[i].dirty == bufs[i].dirty
    requires forall i :: 0 <= i < |bufs| && bufs[i].dirty ==> bufs'[i].blockno == bufs[i].blockno
    ensures Pinned(bufs', es)
  {
    forall b | b in es ensures DirtyFor(bufs', b) { DirtyKept(bufs, bufs', b); }
  }

  /** bwrite through buffer i unpins its block. */
  lemma PinnedWrite(bufs: seq<Entry>, bufs': seq<Entry>, i: nat, es: set<nat>)
    requires Pinned(bufs, es) && i < |bufs| && Unique(bufs)
    requires bufs[i].dev == ROOTDEV && forall k :: 0 <= k < |bufs| && bufs[k].dirty ==> bufs[k].dev == ROOTDEV
    requires |bufs'| == |bufs| && bufs' == bufs[i := bufs'[i]] && !bufs'[i].dirty
    ensures Pinned(bufs', es - {bufs[i].blockno})
  {
    forall k | 0 <= k < |bufs'| && bufs'[k].dirty ensures bufs'[k].blockno in es - {bufs[i].blockno} {
      assert k != i && bufs[k] == bufs'[k];
    }
    forall b | b in es - {bufs[i].blockno} ensures DirtyFor(bufs', b) { DirtyKept(bufs, bufs', b); }
  }

  /** A block with no dirty copy is seen as the disk has it. */
  lemma CleanSeen(bufs: seq<Entry>, disk: Disk, es: set<nat>, b: nat)
    requires Sound(bufs, disk) && Pinned(bufs, es) && b < |disk| && b !in es
    ensures Visible(bufs, b, disk[b]) == disk[b]
  {
    VisibleShown(bufs, b, disk[b], disk[b]);
  }

  /** Writes outside the header block leave the list on disk alone. */
  lemma HeadKept(l: Layout, disk: Disk, b: nat, v: Block)
    requires WfDisk(l, disk) && b < |disk| && b != l.start
    ensures WfDisk(l, disk[b := v]) && HeadOf(l, disk[b := v]) == HeadOf(l, disk)
  {
  }

  /** Power failing at any of the images from index m on, recovery gives r. */
  ghost predicate AllRecover(l: Layout, images: seq<Disk>, m: nat, r: map<nat, Block>) {
    forall k :: m <= k < |images| ==> WfDisk(l, images[k]) && Recovered(l, images[k]) == r
  }

  /** The image a header write leaves, those of the install after it and the one that clears. */
  lemma AllRecoverAround(l: Layout, images: seq<Disk>, m: nat, x: Disk, y: Disk, r: map<nat, Block>)
    requires m < |images| && images[m] == x && AllRecover(l, images, m + 1, r)
    requires WfDisk(l, x) && Recovered(l, x) == r && WfDisk(l, y) && Recovered(l, y) == r
    ensures AllRecover(l, images + [y], m, r)
  {
  }

  /** A write into the log region behind an empty header is invisible to recovery. */
  lemma LogWriteInvisible(l: Layout, disk: Disk, t: nat, v: Block)
    requires WfDisk(l, disk) && HeadOf(l, disk) == [] && t + 1 < l.size
    ensures var disk' := disk[l.start + 1 + t := v];
      && WfDisk(l, disk') && HeadOf(l, disk') == [] && Recovered(l, disk') == Recovered(l, disk)
      && LogAt(l, disk', t) == v
      && forall k: nat :: k + 1 < l.size && k != t ==> LogAt(l, disk', k) == LogAt(l, disk, k)
  {
    HeadKept(l, disk, l.start + 1 + t, v);
    RecoveredSame(l, disk, disk[l.start + 1 + t := v]);
  }

  /** The first t listed blocks have reached home. */
  ghost predicate Home(l: Layout, disk: Disk, es: seq<nat>, t: nat)
    requires WfDisk(l, disk) && WfEntries(l, es) && t <= |es|
  {
    forall k :: 0 <= k < t ==> disk[es[k]] == LogAt(l, disk, k)
  }

  /** Installing entry t changes nothing recovery gives. */
  lemma InstallInvisible(l: Layout, disk: Disk, es: seq<nat>, t: nat)
    requires WfDisk(l, disk) && HeadOf(l, disk) == es && t < |es| && Home(l, disk, es, t)
    ensures IsHome(l, es[t])
    ensures var disk' := disk[es[t] := LogAt(l, disk, t)];
      && WfDisk(l, disk') && HeadOf(l, disk') == es && Recovered(l, disk') == Recovered(l, disk)
      && Home(l, disk', es, t + 1)
  {
    assert IsHome(l, es[t]);
    HeadKept(l, disk, es[t], LogAt(l, disk, t));
    RecoveredSame(l, disk, disk[es[t] := LogAt(l, disk, t)]);
  }

  lemma AllInstalled(l: Layout, disk: Disk)
    requires WfDisk(l, disk)
    requires Home(l, disk, HeadOf(l, disk), |HeadOf(l, disk)|)
    ensures HomeOf(l, disk) == Recovered(l, disk)
  {
    var h := HeadOf(l, disk);
    forall b: nat | IsHome(l, b) ensures disk[b] == RecoveredAt(l, disk, b) {
      if b in h { assert disk[h[IndexOf(h, b)]] == LogAt(l, disk, IndexOf(h, b)); }
    }
  }

  /** The blocks still pinned when install_trans is about to handle entry t; recovery pins none. */
  ghost function Remaining(es: seq<nat>, t: nat, recovering: bool): set<nat>
    requires t <= |es|
  {
    if recovering then {} else set k | t <= k < |es| :: es[k]
  }

  lemma RemainingStep(l: Layout, es: seq<nat>, t: nat, recovering: bool)
    requires WfEntries(l, es) && t < |es|
    ensures Remaining(es, t + 1, recovering) == Remaining(es, t, recovering) - {es[t]}
    ensures if recovering then Remaining(es, t, recovering) == {} else es[t] in Remaining(es, t, recovering)
    ensures forall b: nat :: InLog(l, b) ==> b !in Remaining(es, t, recovering)
  {
    forall k | t < k < |es| ensures es[k] != es[t] {}
  }

  lemma {:induction false} RemainingSize(es: seq<nat>, t: nat, recovering: bool)
    requires t <= |es|
    ensures |Remaining(es, t, recovering)| <= if recovering then 0 else |es| - t
    decreases |es| - t
  {
    if t < |es| && !recovering {
      RemainingSize(es, t + 1, recovering);
      assert Remaining(es, t, recovering) == Remaining(es, t + 1, recovering) + {es[t]};
    }
  }

  /** From (bufs, disk) to (bufs', disk') readers see only block dst change. */
  ghost predicate OnlyChanges(bufs: seq<Entry>, disk: Disk, bufs': seq<Entry>, disk': Disk, dst: nat) {
    && |disk'| == |disk|
    && forall x: nat :: x < |disk| && x != dst ==> Visible(bufs', x, disk'[x]) == Visible(bufs, x, disk[x])
  }

  ghost predicate Shown(l: Layout, bufs: seq<Entry>, disk: Disk, v: map<nat, Block>)
    requires |disk| == l.total
  {
    forall x: nat :: IsHome(l, x) ==> x in v && v[x] == Visible(bufs, x, disk[x])
  }

  ghost predicate CopiedTo(l: Layout, disk: Disk, es: seq<nat>, t: nat, v: map<nat, Block>)
    requires WfDisk(l, disk) && WfEntries(l, es) && t <= |es|
  {
    forall k :: 0 <= k < t ==> es[k] in v && LogAt(l, disk, k) == v[es[k]]
  }

  /** write_log has handled t entries; recovery would still give r, and readers see v. */
  ghost predicate LoggedTo(l: Layout, bufs: seq<Entry>, disk: Disk, es: seq<nat>, t: nat,
                           r: map<nat, Block>, v: map<nat, Block>) {
    && t <= |es| && WfEntries(l, es) && WfDisk(l, disk) && HeadOf(l, disk) == []
    && Recovered(l, disk) == r
    && Shown(l, bufs, disk, v)
    && CopiedTo(l, disk, es, t, v)
  }

  lemma LogStep(l: Layout, bufs: seq<Entry>, disk: Disk, es: seq<nat>, t: nat,
                r: map<nat, Block>, v: map<nat, Block>, bufs': seq<Entry>, disk': Disk)
    requires LoggedTo(l, bufs, disk, es, t, r, v) && t < |es|
    requires disk' == disk[l.start + 1 + t := Visible(bufs, es[t], disk[es[t]])]
    requires OnlyChanges(bufs, disk, bufs', disk', l.start + 1 + t)
    ensures LoggedTo(l, bufs', disk', es, t + 1, r, v)
  {
    assert IsHome(l, es[t]);
    LogWriteInvisible(l, disk, t, Visible(bufs, es[t], disk[es[t]]));
  }

  lemma LogPre(l: Layout, bufs: seq<Entry>, disk: Disk, es: seq<nat>, t: nat,
               r: map<nat, Block>, v: map<nat, Block>)
    requires LoggedTo(l, bufs, disk, es, t, r, v) && t < |es| && |es| < NBUF
    ensures es[t] < |disk| && l.start + 1 + t < |disk| && es[t] != l.start + 1 + t
    ensures es[t] in Remaining(es, 0, false) && |Remaining(es, 0, false)| < NBUF
    ensures Remaining(es, 0, false) - {l.start + 1 + t} == Remaining(es, 0, false)
  {
    assert IsHome(l, es[t]);
    RemainingSize(es, 0, false);
    RemainingStep(l, es, 0, false);
  }

  /** install_trans has handled t entries of the list on disk; recovery would give r. */
  ghost predicate InstalledTo(l: Layout, disk: Disk, es: seq<nat>, t: nat, r: map<nat, Block>) {
    && t <= |es| && WfEntries(l, es) && WfDisk(l, disk) && HeadOf(l, disk) == es
    && Recovered(l, disk) == r
    && Home(l, disk, es, t)
  }

  lemma InstallStep(l: Layout, disk: Disk, es: seq<nat>, t: nat, r: map<nat, Block>, disk': Disk)
    requires InstalledTo(l, disk, es, t, r) && t < |es|
    requires disk' == disk[es[t] := LogAt(l, disk, t)]
    ensures InstalledTo(l, disk', es, t + 1, r)
  {
    InstallInvisible(l, disk, es, t);
  }

  lemma InstallPlaces(l: Layout, disk: Disk, es: seq<nat>, t: nat, r: map<nat, Block>)
    requires InstalledTo(l, disk, es, t, r) && t < |es|
    ensures WfEntries(l, es) && InLog(l, l.start + 1 + t) && !InLog(l, es[t])
    ensures es[t] < |disk| && l.start + 1 + t < |disk| && LogAt(l, disk, t) == disk[l.start + 1 + t]
  {
    hide Recovered, HeadOf, Home;
    assert IsHome(l, es[t]);
  }

  lemma InstallPre(l: Layout, bufs: seq<Entry>, disk: Disk, es: seq<nat>, t: nat, r: map<nat, Block>, recovering: bool)
    requires InstalledTo(l, disk, es, t, r) && t < |es| && (recovering || |es| < NBUF)
    requires Sound(bufs, disk) && Pinned(bufs, Remaining(es, t, recovering))
    ensures var p := Remaining(es, t, recovering);
      && Remaining(es, t + 1, recovering) == p - {es[t]}
      && (p == {} || es[t] in p) && |p| < NBUF
    ensures es[t] < |disk| && l.start + 1 + t < |disk| && es[t] != l.start + 1 + t
    ensures Visible(bufs, l.start + 1 + t, disk[l.start + 1 + t]) == LogAt(l, disk, t)
  {
    hide InstalledTo, WfDisk, WfEntries, Recovered, HeadOf, LogAt, Sound, Pinned, Remaining, InLog, Visible;
    InstallPlaces(l, disk, es, t, r);
    RemainingStep(l, es, t, recovering);
    RemainingSize(es, t, recovering);
    CleanSeen(bufs, disk, Remaining(es, t, recovering), l.start + 1 + t);
  }

  /** Writing the header once every entry is in the log makes recovery give what readers see. */
  lemma CommitPoint(l: Layout, bufs: seq<Entry>, disk: Disk, es: seq<nat>, r: map<nat, Block>, v: map<nat, Block>)
    requires LoggedTo(l, bufs, disk, es, |es|, r, v) && v.Keys == r.Keys
    requires Sound(bufs, disk) && Pinned(bufs, Remaining(es, 0, false))
    ensures InstalledTo(l, disk[l.start := HeadBlock(disk[l.start], es)], es, 0, v)
  {
    var disk' := disk[l.start := HeadBlock(disk[l.start], es)];
    assert HeadOf(l, disk') == es;
    forall b: nat | IsHome(l, b) ensures RecoveredAt(l, disk', b) == v[b] {
      if b in es {
        assert LogAt(l, disk, IndexOf(es, b)) == v[es[IndexOf(es, b)]];
      } else {
        CleanSeen(bufs, disk, Remaining(es, 0, false), b);
      }
    }
  }

  /** Clearing the header once every entry is home changes nothing recovery gives. */
  lemma ClearPoint(l: Layout, disk: Disk, es: seq<nat>, r: map<nat, Block>)
    requires InstalledTo(l, disk, es, |es|, r)
    ensures var disk' := disk[l.start := HeadBlock(disk[l.start], [])];
      WfDisk(l, disk') && HeadOf(l, disk') == [] && Recovered(l, disk') == r == HomeOf(l, disk')
  {
    var disk' := disk[l.start := HeadBlock(disk[l.start], [])];
    assert HeadOf(l, disk') == [];
    ClearKeepsRecovered(l, disk, disk');
    AllInstalled(l, disk');
  }

  class Log {
    const l: Layout
    const cache: Cache
    const d: Device
    const block: array<nat>
    var n: nat
    var outstanding: nat

    constructor (l: Layout, cache: Cache, d: Device)
      requires cache.Valid() && d.Valid()
      ensures Valid() && fresh(block) && this.l == l && this.cache == cache && this.d == d
      ensures n == 0 && outstanding == 0
    {
      this.l := l;
      this.cache := cache;
      this.d := d;
      block := new nat[LOGSIZE](i => 0);
      n := 0;
      outstanding := 0;
    }

    ghost predicate Valid()
      reads this, block, d, cache, cache.bufs, cache.next, cache.prev
    {
      && block.Length == LOGSIZE && n <= LOGSIZE
      && block != cache.next && block != cache.prev
      && cache.Valid() && d.Valid()
    }

    ghost function Entries(): seq<nat>
      reads this, block
      requires n <= block.Length
    {
      block[..n]
    }

    ghost function View(b: nat): Block
      reads d, cache.bufs
      requires b < |d.blocks|
    {
      Visible(cache.bufs[..], b, d.blocks[b])
    }

    /** Record a locked buffer's block for the next commit and pin it.  false is a panic. */
    method LogWrite(i: nat) returns (ok: bool)
      requires Valid() && i < NBUF
      requires WfEntries(l, Entries())
      modifies this`n, block, cache.bufs
      ensures Valid()
      ensures ok <==> !LR.LogFull(l.size, old(Entries())) && outstanding >= 1
      ensures !ok ==> Entries() == old(Entries()) && cache.bufs[..] == old(cache.bufs[..])
      ensures ok ==> Entries() == LR.Absorb(old(Entries()), old(cache.bufs[i]).blockno)
      ensures ok ==> cache.bufs[..] == old(cache.bufs[..])[i := old(cache.bufs[i]).(dirty := true)]
    {
      if n >= LOGSIZE || n + 1 >= l.size || outstanding < 1 {
        return false;
      }
      var b := cache.bufs[i].blockno;
      var k := 0;
      while k < n
        invariant 0 <= k <= n
        invariant forall j :: 0 <= j < k ==> block[j] != b
      {
        if block[k] == b { break; }
        k := k + 1;
      }
      block[k] := b;
      if k == n { n := n + 1; }
      cache.bufs[i] := cache.bufs[i].(dirty := true);
      ok := true;
    }

    /** No buffer is in use, clean copies equal the disk, and exactly the given blocks are pinned. */
    ghost predicate Calm(pinned: set<nat>)
      reads this, block, d, cache, cache.bufs, cache.next, cache.prev
    {
      && Valid()
      && Sound(cache.bufs[..], d.blocks)
      && Idle(cache.bufs[..])
      && Pinned(cache.bufs[..], pinned)
    }

    /** brelse, with what it leaves alone. */
    method Release(i: nat, ghost pinned: set<nat>)
      requires Valid() && i < NBUF && cache.bufs[i].locked && Sound(cache.bufs[..], d.blocks)
      requires Pinned(cache.bufs[..], pinned)
      modifies cache, cache.bufs, cache.next, cache.prev
      ensures Valid() && Sound(cache.bufs[..], d.blocks) && Pinned(cache.bufs[..], pinned)
      ensures cache.bufs[..] == old(cache.bufs[..])[i := Freed(old(cache.bufs[i]))]
      ensures forall x: nat :: x < |d.blocks| ==> View(x) == old(View(x))
    {
      ghost var was := cache.bufs[..];
      cache.Brelse(i);
      PinnedKept(was, cache.bufs[..], pinned);
      forall x: nat | x < |d.blocks| ensures View(x) == Visible(was, x, d.blocks[x]) {
        FreedView(was, i, x, d.blocks[x]);
      }
    }

    /** bread, with what it leaves alone; it cannot panic when a buffer is free or holds b. */
    method Take(b: nat, ghost pinned: set<nat>) returns (i: nat)
      requires Valid() && b < |d.blocks| && Sound(cache.bufs[..], d.blocks) && Pinned(cache.bufs[..], pinned)
      requires forall i :: 0 <= i < NBUF && Holds(cache.bufs[i], b) ==> !cache.bufs[i].locked
      requires exists i :: 0 <= i < NBUF && (Holds(cache.bufs[i], b) || Free(cache.bufs[i]))
      modifies cache.bufs
      ensures Valid() && Sound(cache.bufs[..], d.blocks) && Pinned(cache.bufs[..], pinned)
      ensures i < NBUF && cache.bufs[..] == old(cache.bufs[..])[i := Taken(old(cache.bufs[i]), b, old(View(b)))]
      ensures old(Holds(cache.bufs[i], b)) || old(Free(cache.bufs[i]))
      ensures forall x: nat :: x < |d.blocks| ==> View(x) == old(View(x))
    {
      ghost var was := cache.bufs[..];
      var r := cache.Bread(b, d);
      i := r.value;
      PinnedKept(was, cache.bufs[..], pinned);
    }

    /** bread of one block and then another. */
    method TakeTwo(a: nat, b: nat, ghost pinned: set<nat>) returns (i: nat, j: nat)
      requires Calm(pinned) && |pinned| < NBUF && a < |d.blocks| && b < |d.blocks| && a != b
      requires pinned == {} || b in pinned
      modifies cache.bufs
      ensures Valid() && Sound(cache.bufs[..], d.blocks) && Pinned(cache.bufs[..], pinned)
      ensures i < NBUF && j < NBUF && i != j
      ensures cache.bufs[..] == old(cache.bufs[..])[i := Taken(old(cache.bufs[i]), a, old(View(a)))]
                                                   [j := Taken(old(cache.bufs[j]), b, old(View(b)))]
      ensures forall x: nat :: x < |d.blocks| ==> View(x) == old(View(x))
    {
      ghost var was := cache.bufs[..];
      SomeFree(was, pinned);
      i := Take(a, pinned);
      RoomForSecond(was, cache.bufs[..], i, b, pinned);
      j := Take(b, pinned);
    }

    /** Write the contents of held buffer from to held buffer to and its block, and release both. */
    method Flush(from: nat, to: nat, ghost pinned: set<nat>)
      requires Valid() && Sound(cache.bufs[..], d.blocks) && Pinned(cache.bufs[..], pinned)
      requires from < NBUF && to < NBUF && from != to
      requires cache.bufs[from].locked && cache.bufs[to].locked && cache.bufs[to].valid
      modifies cache, cache.bufs, cache.next, cache.prev, d
      ensures Valid() && Sound(cache.bufs[..], d.blocks)
      ensures Pinned(cache.bufs[..], pinned - {old(cache.bufs[to]).blockno})
      ensures d.blocks == old(d.blocks)[old(cache.bufs[to]).blockno := old(cache.bufs[from]).data]
      ensures d.images == old(d.images) + [d.blocks]
      ensures forall k :: 0 <= k < NBUF ==>
                cache.bufs[k].refcnt == old(cache.bufs[k]).refcnt - (if k == from || k == to then 1 else 0)
      ensures forall k :: 0 <= k < NBUF && cache.bufs[k].locked ==> old(cache.bufs[k]).locked && k != from && k != to
      ensures forall x: nat :: x < |d.blocks| ==>
                View(x) == if x == old(cache.bufs[to]).blockno then d.blocks[x] else old(View(x))
    {
      ghost var was := cache.bufs[..];
      cache.Bwrite(to, cache.bufs[from].data, d);
      PinnedWrite(was, cache.bufs[..], to, pinned);
      Release(from, pinned - {was[to].blockno});
      Release(to, pinned - {was[to].blockno});
    }

    /** The body shared by write_log's loop, which reads the destination first, and
        install_trans's, which reads the source first. */
    method CopyBlock(src: nat, dst: nat, dstFirst: bool, ghost pinned: set<nat>)
      requires Calm(pinned) && |pinned| < NBUF && src < |d.blocks| && dst < |d.blocks| && src != dst
      requires pinned == {} || (if dstFirst then src else dst) in pinned
      modifies cache, cache.bufs, cache.next, cache.prev, d
      ensures Calm(pinned - {dst})
      ensures d.blocks == old(d.blocks)[dst := old(View(src))]
      ensures d.images == old(d.images) + [d.blocks]
      ensures OnlyChanges(old(cache.bufs[..]), old(d.blocks), cache.bufs[..], d.blocks, dst)
    {
      ghost var bufs, disk := cache.bufs[..], d.blocks;
      if dstFirst {
        var to, from := TakeTwo(dst, src, pinned);
        Flush(from, to, pinned);
      } else {
        var from, to := TakeTwo(src, dst, pinned);
        Flush(from, to, pinned);
      }
      forall x: nat | x < |disk| && x != dst
        ensures Visible(cache.bufs[..], x, d.blocks[x]) == Visible(bufs, x, disk[x])
      {
        assert View(x) == old(View(x));
      }
    }

    ghost predicate Logged(t: nat, r: map<nat, Block>, v: map<nat, Block>)
      reads this, block, d, cache, cache.bufs, cache.next, cache.prev
    {
      && n <= block.Length && n < NBUF
      && Calm(Remaining(Entries(), 0, false))
      && LoggedTo(l, cache.bufs[..], d.blocks, Entries(), t, r, v)
    }

    /** One turn of write_log's loop: log block t becomes what readers see of entry t. */
    method CopyToLog(t: nat, ghost r: map<nat, Block>, ghost v: map<nat, Block>)
      requires t < n && Logged(t, r, v)
      modifies cache, cache.bufs, cache.next, cache.prev, d
      ensures Logged(t + 1, r, v)
      ensures d.images == old(d.images) + [d.blocks]
    {
      hide LoggedTo, Sound, Pinned, Remaining, OnlyChanges, Visible;
      ghost var es, bufs, disk := Entries(), cache.bufs[..], d.blocks;
      LogPre(l, bufs, disk, es, t, r, v);
      assert es[t] == block[t];
      CopyBlock(block[t], l.start + 1 + t, true, Remaining(es, 0, false));
      LogStep(l, bufs, disk, es, t, r, v, cache.bufs[..], d.blocks);
    }

    /** write_log: every log block becomes what readers see of its entry, and nothing that
        recovery would give changes on the way. */
    method WriteLog(ghost r: map<nat, Block>, ghost v: map<nat, Block>)
      requires Logged(0, r, v)
      modifies cache, cache.bufs, cache.next, cache.prev, d
      ensures Logged(n, r, v)
      ensures |d.images| == |old(d.images)| + n && old(d.images) <= d.images
      ensures AllRecover(l, d.images, |old(d.images)|, r)
    {
      var tail := 0;
      while tail < n
        invariant Logged(tail, r, v)
        invariant |d.images| == |old(d.images)| + tail && old(d.images) <= d.images
        invariant AllRecover(l, d.images, |old(d.images)|, r)
      {
        CopyToLog(tail, r, v);
        tail := tail + 1;
      }
    }

    ghost predicate Installed(t: nat, recovering: bool, r: map<nat, Block>)
      reads this, block, d, cache, cache.bufs, cache.next, cache.prev
    {
      && t <= n <= block.Length && (recovering || n < NBUF)
      && Calm(Remaining(Entries(), t, recovering))
      && InstalledTo(l, d.blocks, Entries(), t, r)
    }

    /** One turn of install_trans's loop: entry t's home block becomes log block t. */
    method InstallOne(t: nat, ghost recovering: bool, ghost r: map<nat, Block>)
      requires t < n && Installed(t, recovering, r)
      modifies cache, cache.bufs, cache.next, cache.prev, d
      ensures Installed(t + 1, recovering, r)
      ensures d.images == old(d.images) + [d.blocks]
    {
      hide InstalledTo, Pinned, Remaining, OnlyChanges;
      ghost var es, disk := Entries(), d.blocks;
      InstallPre(l, cache.bufs[..], disk, es, t, r, recovering);
      assert es[t] == block[t];
      CopyBlock(l.start + 1 + t, block[t], false, Remaining(es, t, recovering));
      InstallStep(l, disk, es, t, r, d.blocks);
    }

    /** install_trans: every listed home block becomes its log block, whatever recovery
        would give never changes, and nothing stays pinned. */
    method InstallTrans(ghost recovering: bool, ghost r: map<nat, Block>)
      requires Installed(0, recovering, r)
      modifies cache, cache.bufs, cache.next, cache.prev, d
      ensures Installed(n, recovering, r)
      ensures HomeOf(l, d.blocks) == r
      ensures |d.images| == |old(d.images)| + n && old(d.images) <= d.images
      ensures AllRecover(l, d.images, |old(d.images)|, r)
    {
      var tail := 0;
      while tail < n
        invariant Installed(tail, recovering, r)
        invariant |d.images| == |old(d.images)| + tail && old(d.images) <= d.images
        invariant AllRecover(l, d.images, |old(d.images)|, r)
      {
        InstallOne(tail, recovering, r);
        tail := tail + 1;
      }
      AllInstalled(l, d.blocks);
    }

    /** The loop of write_head: the first n entries replaced, stale ones kept. */
    method FillHead(hb: Block) returns (r: Block)
      requires n <= block.Length == LOGSIZE && hb.Head? && |hb.block| == LOGSIZE
      ensures r == HeadBlock(hb, Entries())
    {
      var list := hb.block;
      var i := 0;
      while i < n
        invariant 0 <= i <= n && list == block[..i] + hb.block[i..]
      {
        list := list[i := block[i]];
        i := i + 1;
      }
      r := Head(n, list);
    }

    /** bread of a block that is not pinned: the buffer carries the disk's contents. */
    method TakeClean(b: nat, ghost pinned: set<nat>) returns (i: nat)
      requires Calm(pinned) && |pinned| < NBUF && b < |d.blocks| && b !in pinned
      modifies cache.bufs
      ensures Valid() && Sound(cache.bufs[..], d.blocks) && Pinned(cache.bufs[..], pinned)
      ensures i < NBUF && cache.bufs[..] == old(cache.bufs[..])[i := Taken(old(cache.bufs[i]), b, d.blocks[b])]
    {
      SomeFree(cache.bufs[..], pinned);
      CleanSeen(cache.bufs[..], d.blocks, pinned, b);
      i := Take(b, pinned);
    }

    /** bwrite and brelse of the one held buffer, whose block is not pinned. */
    method PutClean(i: nat, data: Block, ghost pinned: set<nat>)
      requires Valid() && Sound(cache.bufs[..], d.blocks) && Pinned(cache.bufs[..], pinned)
      requires i < NBUF && cache.bufs[i].locked && cache.bufs[i].valid && cache.bufs[i].blockno !in pinned
      requires cache.bufs[i].refcnt == 1
      requires forall k :: 0 <= k < NBUF && k != i ==> cache.bufs[k].refcnt == 0
      modifies cache, cache.bufs, cache.next, cache.prev, d
      ensures Calm(pinned)
      ensures d.blocks == old(d.blocks)[old(cache.bufs[i]).blockno := data]
      ensures d.images == old(d.images) + [d.blocks]
    {
      ghost var was := cache.bufs[..];
      cache.Bwrite(i, data, d);
      PinnedWrite(was, cache.bufs[..], i, pinned);
      assert pinned - {was[i].blockno} == pinned;
      Release(i, pinned);
    }

    /** write_head: put the in-memory list on disk. */
    method WriteHead(ghost pinned: set<nat>)
      requires Calm(pinned) && |pinned| < NBUF && l.start !in pinned
      requires l.start < |d.blocks| && d.blocks[l.start].Head? && |d.blocks[l.start].block| == LOGSIZE
      modifies cache, cache.bufs, cache.next, cache.prev, d
      ensures Calm(pinned)
      ensures d.blocks == old(d.blocks)[l.start := HeadBlock(old(d.blocks[l.start]), Entries())]
      ensures d.images == old(d.images) + [d.blocks]
    {
      var buf := TakeClean(l.start, pinned);
      var head := FillHead(cache.bufs[buf].data);
      PutClean(buf, head, pinned);
    }

    /** The loop of read_head. */
    method LoadHead(lh: Block)
      requires block.Length == LOGSIZE && lh.Head? && lh.n <= |lh.block| == LOGSIZE
      modifies this`n, block
      ensures n == lh.n && Entries() == lh.block[..lh.n]
    {
      n := lh.n;
      var i := 0;
      while i < n
        invariant 0 <= i <= n == lh.n && block[..i] == lh.block[..i]
      {
        block[i] := lh.block[i];
        i := i + 1;
      }
    }

    /** read_head: take over the list the disk carries. */
    method ReadHead()
      requires Calm({}) && WfDisk(l, d.blocks)
      modifies this`n, block, cache, cache.bufs, cache.next, cache.prev
      ensures Calm({}) && Entries() == HeadOf(l, d.blocks)
    {
      var buf := TakeClean(l.start, {});
      LoadHead(cache.bufs[buf].data);
      Release(buf, {});
    }

    /** The header write that commits. */
    method CommitHead(ghost r: map<nat, Block>, ghost v: map<nat, Block>)
      requires n > 0 && Logged(n, r, v) && v.Keys == r.Keys
      modifies cache, cache.bufs, cache.next, cache.prev, d
      ensures Installed(0, false, v) && d.images == old(d.images) + [d.blocks]
      ensures WfDisk(l, d.blocks) && Recovered(l, d.blocks) == v
    {
      ghost var es := Entries();
      CommitPoint(l, cache.bufs[..], d.blocks, es, r, v);
      RemainingStep(l, es, 0, false);
      RemainingSize(es, 0, false);
      WriteHead(Remaining(es, 0, false));
    }

    /** log.lh.n = 0 and the header write that erases the transaction. */
    method ClearLog(ghost recovering: bool, ghost r: map<nat, Block>)
      requires Installed(n, recovering, r)
      modifies this`n, cache, cache.bufs, cache.next, cache.prev, d
      ensures n == 0 && Calm({})
      ensures WfDisk(l, d.blocks) && HeadOf(l, d.blocks) == [] && Recovered(l, d.blocks) == r == HomeOf(l, d.blocks)
      ensures d.images == old(d.images) + [d.blocks]
    {
      ClearPoint(l, d.blocks, Entries(), r);
      n := 0;
      assert Entries() == [];
      WriteHead({});
    }

    /** commit.  r is what recovery gives before, v what readers see.  Power failing at any
        image up to the header write leaves r; from the header write on it leaves v; and at
        the end the home blocks on disk are v and the log is empty. */
    method Commit(ghost r: map<nat, Block>, ghost v: map<nat, Block>)
      requires Logged(0, r, v) && v.Keys == r.Keys
      modifies this`n, cache, cache.bufs, cache.next, cache.prev, d
      ensures old(n) == 0 ==> n == 0 && d.blocks == old(d.blocks) && d.images == old(d.images)
      ensures old(n) > 0 ==> n == 0 && Calm({}) && WfDisk(l, d.blocks)
      ensures old(n) > 0 ==> HeadOf(l, d.blocks) == [] && HomeOf(l, d.blocks) == v
      ensures old(n) > 0 ==> |d.images| == |old(d.images)| + 2 * old(n) + 2 && old(d.images) <= d.images
      ensures old(n) > 0 ==> AllRecover(l, d.images[..|old(d.images)| + old(n)], |old(d.images)|, r)
      ensures old(n) > 0 ==> AllRecover(l, d.images, |old(d.images)| + old(n), v)
    {
      hide *;
      if n > 0 {
        ghost var m := |d.images| + n;
        WriteLog(r, v);
        ghost var logged := d.images;
        CommitHead(r, v);
        ghost var x := d.blocks;
        InstallTrans(false, v);
        ghost var installed := d.images;
        ClearLog(false, v);
        AllRecoverAround(l, installed, m, x, d.blocks, v);
        assert d.images[..m] == logged;
      }
    }

    /** recover_from_log: at every image recovery would give the same, and at the end it is home. */
    method Recover()
      requires Calm({}) && WfDisk(l, d.blocks)
      modifies this`n, block, cache, cache.bufs, cache.next, cache.prev, d
      ensures n == 0 && Calm({}) && WfDisk(l, d.blocks) && HeadOf(l, d.blocks) == []
      ensures HomeOf(l, d.blocks) == old(Recovered(l, d.blocks))
      ensures old(d.images) <= d.images
      ensures AllRecover(l, d.images, |old(d.images)|, old(Recovered(l, d.blocks)))
    {
      ghost var r := Recovered(l, d.blocks);
      ReadHead();
      InstallTrans(true, r);
      ClearLog(true, r);
    }
  }
}
