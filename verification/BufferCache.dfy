/** The buffer cache of src/bio.c as the code keeps it: buffers in an array, and a
    circular doubly linked list through them in most-recently-used order. */
module BufferCache {
  import opened Params
  import opened DiskLog
  import opened Storage
  import opened StorageRefinement

  /** The disk behind iderw.  images lists every contents the disk has had: each is a
      point at which the power may fail. */
  class Device {
    var blocks: Disk
    ghost var images: seq<Disk>

    ghost predicate Valid()
      reads this
    {
      images != [] && images[|images| - 1] == blocks
    }

    constructor (d: Disk)
      ensures Valid() && blocks == d && images == [d]
    {
      blocks := d;
      images := [d];
    }

    method Write(b: nat, data: Block)
      requires Valid() && b < |blocks|
      modifies this
      ensures Valid() && blocks == old(blocks)[b := data]
      ensures images == old(images) + [blocks]
    {
      blocks := blocks[b := data];
      images := images + [blocks];
    }
  }

  /** Index of the list head, which is not a buffer. */
  const HEAD := NBUF

  /** The k-th list node counting from the head: buffers inside, the head at both ends. */
  function Node(order: seq<nat>, k: int): nat {
    if 0 <= k < |order| then order[k] else HEAD
  }

  ghost predicate Permutation(order: seq<nat>) {
    && |order| == NBUF
    && Distinct(order)
    && (forall k :: 0 <= k < |order| ==> order[k] < NBUF)
    && (forall i: nat :: i < NBUF ==> i in order)
  }

  /** next and prev thread the buffers in the given order. */
  ghost predicate Threads(next: seq<nat>, prev: seq<nat>, order: seq<nat>) {
    && |next| == |prev| == NBUF + 1
    && (forall k :: 0 <= k < |order| ==> order[k] < NBUF)
    && forall k :: -1 <= k < |order| ==>
         next[Node(order, k)] == Node(order, k + 1) && prev[Node(order, k + 1)] == Node(order, k)
  }

  function Without(order: seq<nat>, k: nat): seq<nat>
    requires k < |order|
  {
    order[..k] + order[k + 1..]
  }

  /** Linking b in right after the head puts it first. */
  lemma LinkFront(next: seq<nat>, prev: seq<nat>, order: seq<nat>, b: nat)
    requires Threads(next, prev, order) && b < NBUF && b !in order
    ensures next[HEAD] == Node(order, 0) && next[HEAD] <= NBUF
    ensures Threads(next[b := next[HEAD]][HEAD := b], prev[b := HEAD][next[HEAD] := b], [b] + order)
  {
    var first := next[HEAD];
    assert Node(order, -1) == HEAD && first == Node(order, 0);
    var next', prev', order' := next[b := first][HEAD := b], prev[b := HEAD][first := b], [b] + order;
    forall k | -1 <= k < |order'|
      ensures next'[Node(order', k)] == Node(order', k + 1) && prev'[Node(order', k + 1)] == Node(order', k)
    {
      assert k >= 0 ==> Node(order', k + 1) == Node(order, k) && next[Node(order, k - 1)] == Node(order, k);
      if k >= 1 {
        assert Node(order', k) == Node(order, k - 1) == order[k - 1];
        assert prev[Node(order, k)] == Node(order, k - 1);
      }
    }
  }

  /** Linking a node's neighbours to each other takes it out. */
  lemma Unlink(next: seq<nat>, prev: seq<nat>, order: seq<nat>, k: nat)
    requires Threads(next, prev, order) && Distinct(order) && k < |order|
    ensures var i := order[k];
      && next[i] == Node(order, k + 1) && prev[i] == Node(order, k - 1)
      && Threads(next[prev[i] := next[i]], prev[next[i] := prev[i]], Without(order, k))
  {
    var i := order[k];
    assert Node(order, k) == i;
    assert next[Node(order, k)] == Node(order, k + 1);
    assert prev[Node(order, (k - 1) + 1)] == Node(order, k - 1);
    var next', prev', order' := next[prev[i] := next[i]], prev[next[i] := prev[i]], Without(order, k);
    forall j | -1 <= j < |order'|
      ensures next'[Node(order', j)] == Node(order', j + 1) && prev'[Node(order', j + 1)] == Node(order', j)
    {
      if j < k - 1 {
        assert next[Node(order, j)] == Node(order, j + 1);
      } else if j == k - 1 {
        assert Node(order', j) == Node(order, k - 1) && Node(order', j + 1) == Node(order, k + 1);
      } else {
        assert next[Node(order, j + 1)] == Node(order, j + 2) && prev[Node(order, (j + 1) + 1)] == Node(order, j + 1);
      }
    }
  }

  lemma FrontPermutation(order: seq<nat>, k: nat)
    requires Permutation(order) && k < |order|
    ensures Permutation([order[k]] + Without(order, k)) && order[k] !in Without(order, k)
  {
    var order' := [order[k]] + Without(order, k);
    forall i: nat | i < NBUF ensures i in order' {
      assert i in order;
      var j :| 0 <= j < |order| && order[j] == i;
      if j < k { assert order'[j + 1] == i; } else if j > k { assert order'[j] == i; }
    }
  }

  predicate Free(e: Entry) {
    e.refcnt == 0 && !e.dirty
  }

  /** Sequentially, with no half-done changes: keys are unique and clean copies equal the disk. */
  ghost predicate Sound(bufs: seq<Entry>, disk: Disk) {
    && Unique(bufs)
    && (forall i :: 0 <= i < |bufs| ==>
          && (bufs[i].valid ==> bufs[i].dev == ROOTDEV && bufs[i].blockno < |disk|)
          && (bufs[i].dirty ==> bufs[i].valid)
          && (bufs[i].valid && !bufs[i].dirty ==> bufs[i].data == disk[bufs[i].blockno]))
  }

  /** The buffer bread returns: the one bget chose, locked, and loaded if it was not valid. */
  function BreadEntry(e: Entry, b: nat, onDisk: Block): Entry {
    var g := GetEntry(e, b).(locked := true);
    if g.valid then g else g.(valid := true, data := onDisk)
  }

  /** Seen from outside, hit or miss alike: one more reference and the given contents. */
  function Taken(e: Entry, b: nat, v: Block): Entry {
    Entry(ROOTDEV, b, true, e.dirty, e.refcnt + 1, true, v)
  }

  ghost predicate Present(bufs: seq<Entry>, b: nat) {
    exists i :: 0 <= i < |bufs| && Holds(bufs[i], b)
  }

  /** bread changes what no one reads, and returns what everyone reads. */
  lemma BreadView(bufs: seq<Entry>, disk: Disk, b: nat, i: nat, x: nat)
    requires Sound(bufs, disk) && i < |bufs| && b < |disk| && x < |disk|
    requires if Present(bufs, b) then Holds(bufs[i], b) else Free(bufs[i])
    ensures var bufs' := bufs[i := BreadEntry(bufs[i], b, disk[b])];
      && Sound(bufs', disk)
      && bufs'[i] == Taken(bufs[i], b, Visible(bufs, b, disk[b]))
      && Visible(bufs', x, disk[x]) == Visible(bufs, x, disk[x])
  {
    var bufs' := bufs[i := BreadEntry(bufs[i], b, disk[b])];
    assert Unique(bufs');
    ShowsVisible(bufs, x, disk[x]);
    ShowsVisible(bufs, b, disk[b]);
    if Holds(bufs[i], b) {
      if !bufs[i].valid { assert NoCopy(bufs, b); }
    } else {
      assert NoCopy(bufs, b);
    }
    if NoCopy(bufs', x) && !NoCopy(bufs, x) {
      var j :| 0 <= j < |bufs| && bufs[j].valid && Holds(bufs[j], x);
      assert bufs'[j] == bufs[j] || j == i;
    }
    VisibleShown(bufs', x, disk[x], Visible(bufs, x, disk[x]));
  }

  /** Writing a held buffer through to disk changes the view of its block only. */
  lemma BwriteView(bufs: seq<Entry>, disk: Disk, i: nat, data: Block, x: nat)
    requires Sound(bufs, disk) && i < |bufs| && bufs[i].valid && x < |disk|
    ensures var bufs', disk' := bufs[i := bufs[i].(data := data, dirty := false)], disk[bufs[i].blockno := data];
      && Sound(bufs', disk')
      && Visible(bufs', x, disk'[x]) == if x == bufs[i].blockno then data else Visible(bufs, x, disk[x])
  {
    var bufs', disk' := bufs[i := bufs[i].(data := data, dirty := false)], disk[bufs[i].blockno := data];
    ShowsVisible(bufs, x, disk[x]);
    assert forall k :: 0 <= k < |bufs| && bufs[k].valid && Holds(bufs[k], x) ==> bufs'[k].valid && Holds(bufs'[k], x);
    assert Holds(bufs'[i], bufs[i].blockno);
    VisibleShown(bufs', x, disk'[x], if x == bufs[i].blockno then data else Visible(bufs, x, disk[x]));
  }

  function Freed(e: Entry): Entry
    requires e.refcnt > 0
  {
    e.(locked := false, refcnt := e.refcnt - 1)
  }

  /** Releasing a buffer changes no view. */
  lemma {:induction false} FreedViewIn(bufs: seq<Entry>, n: nat, i: nat, x: nat, onDisk: Block)
    requires n <= |bufs| && i < |bufs| && bufs[i].refcnt > 0
    ensures VisibleIn(bufs[i := Freed(bufs[i])], n, x, onDisk) == VisibleIn(bufs, n, x, onDisk)
  {
    if n > 0 { FreedViewIn(bufs, n - 1, i, x, onDisk); }
  }

  lemma FreedView(bufs: seq<Entry>, i: nat, x: nat, onDisk: Block)
    requires i < |bufs| && bufs[i].refcnt > 0
    ensures Visible(bufs[i := Freed(bufs[i])], x, onDisk) == Visible(bufs, x, onDisk)
  {
    FreedViewIn(bufs, |bufs|, i, x, onDisk);
  }

  lemma StaysUnique(bufs: seq<Entry>, i: nat, b: nat)
    requires i < |bufs| && (Present(bufs, b) ==> Holds(bufs[i], b))
    ensures Unique(bufs) ==> Unique(bufs[i := GetEntry(bufs[i], b)])
  {
    assert forall j :: 0 <= j < |bufs| && Holds(bufs[j], b) ==> Present(bufs, b);
  }

  class Cache {
    const bufs: array<Entry>
    const next: array<nat>
    const prev: array<nat>
    ghost var order: seq<nat>

    ghost predicate Valid()
      reads this, bufs, next, prev
    {
      && bufs.Length == NBUF
      && next != prev
      && next.Length == prev.Length == NBUF + 1
      && Permutation(order)
      && Threads(next[..], prev[..], order)
      && forall i :: 0 <= i < NBUF && bufs[i].locked ==> bufs[i].refcnt > 0
    }

    /** binit. */
    constructor ()
      ensures Valid() && fresh(bufs) && fresh(next) && fresh(prev)
      ensures bufs[..] == FreshBufs(NBUF)
    {
      bufs := new Entry[NBUF](i => EMPTY_ENTRY);
      next := new nat[NBUF + 1](i => HEAD);
      prev := new nat[NBUF + 1](i => HEAD);
      order := [];
      new;
      var b := 0;
      while b < NBUF
        invariant 0 <= b <= NBUF
        invariant |order| == b
        invariant forall k :: 0 <= k < b ==> order[k] == b - 1 - k
        invariant Threads(next[..], prev[..], order)
        invariant bufs[..] == FreshBufs(NBUF)
      {
        LinkFront(next[..], prev[..], order, b);
        next[b] := next[HEAD];
        prev[b] := HEAD;
        prev[next[HEAD]] := b;
        next[HEAD] := b;
        order := [b] + order;
        b := b + 1;
      }
      forall i: nat | i < NBUF ensures i in order { assert order[NBUF - 1 - i] == i; }
    }

    /** The buffer holding b if there is one; otherwise the least recently used free buffer,
        emptied and rekeyed, so that no block of the device gets a second buffer.  None is the
        panic "no buffers". */
    method Bget(b: nat) returns (r: Option<nat>)
      requires Valid()
      modifies bufs
      ensures Valid() && (old(Unique(bufs[..])) ==> Unique(bufs[..]))
      ensures r.None? <==> !old(Present(bufs[..], b)) && forall i :: 0 <= i < NBUF ==> !old(Free(bufs[i]))
      ensures r.None? ==> bufs[..] == old(bufs[..])
      ensures r.Some? ==> r.value < NBUF && bufs[..] == old(bufs[..])[r.value := GetEntry(old(bufs[r.value]), b)]
      ensures r.Some? && old(Present(bufs[..], b)) ==> old(Holds(bufs[r.value], b))
      ensures r.Some? && !old(Present(bufs[..], b)) ==>
                old(Free(bufs[r.value]))
                && exists k :: 0 <= k < NBUF && order[k] == r.value
                               && forall j :: k < j < NBUF ==> !old(Free(bufs[order[j]]))
    {
      var p := next[HEAD];
      ghost var k := 0;
      assert Node(order, -1) == HEAD;
      while p != HEAD
        invariant 0 <= k <= NBUF && p == Node(order, k)
        invariant forall j :: 0 <= j < k ==> !Holds(bufs[order[j]], b)
        decreases NBUF - k
      {
        if Holds(bufs[p], b) {
          StaysUnique(bufs[..], p, b);
          bufs[p] := GetEntry(bufs[p], b);
          return Some(p);
        }
        assert next[Node(order, k)] == Node(order, k + 1);
        p := next[p];
        k := k + 1;
      }
      assert !Present(bufs[..], b) by {
        forall i: nat | i < NBUF ensures !Holds(bufs[i], b) { assert i in order; }
      }
      p := prev[HEAD];
      k := NBUF - 1;
      assert prev[Node(order, (NBUF - 1) + 1)] == Node(order, NBUF - 1);
      while p != HEAD
        invariant -1 <= k < NBUF && p == Node(order, k)
        invariant forall j :: k < j < NBUF ==> !Free(bufs[order[j]])
        decreases k
      {
        if Free(bufs[p]) {
          StaysUnique(bufs[..], p, b);
          bufs[p] := GetEntry(bufs[p], b);
          return Some(p);
        }
        assert prev[Node(order, (k - 1) + 1)] == Node(order, k - 1);
        p := prev[p];
        k := k - 1;
      }
      forall i: nat | i < NBUF ensures !Free(bufs[i]) { assert i in order; }
      r := None;
    }

    /** A locked buffer with the latest contents of b; nobody's view of any block changes. */
    method Bread(b: nat, d: Device) returns (r: Option<nat>)
      requires Valid() && d.Valid() && b < |d.blocks| && Sound(bufs[..], d.blocks)
      requires forall i :: 0 <= i < NBUF && Holds(bufs[i], b) ==> !bufs[i].locked
      modifies bufs
      ensures Valid() && Sound(bufs[..], d.blocks)
      ensures r.None? <==> !old(Present(bufs[..], b)) && forall i :: 0 <= i < NBUF ==> !old(Free(bufs[i]))
      ensures r.None? ==> bufs[..] == old(bufs[..])
      ensures r.Some? ==> r.value < NBUF && bufs[..] == old(bufs[..])[r.value :=
                Taken(old(bufs[r.value]), b, old(Visible(bufs[..], b, d.blocks[b])))]
      ensures r.Some? ==> old(Holds(bufs[r.value], b)) || old(Free(bufs[r.value]))
      ensures forall x: nat :: x < |d.blocks| ==>
                Visible(bufs[..], x, d.blocks[x]) == old(Visible(bufs[..], x, d.blocks[x]))
    {
      ghost var was := bufs[..];
      r := Bget(b);
      if r.Some? {
        var i := r.value;
        bufs[i] := bufs[i].(locked := true);
        if !bufs[i].valid {
          bufs[i] := bufs[i].(valid := true, data := d.blocks[b]);
        }
        assert bufs[..] == was[i := BreadEntry(was[i], b, d.blocks[b])];
        BreadView(was, d.blocks, b, i, b);
        forall x: nat | x < |d.blocks|
          ensures Visible(bufs[..], x, d.blocks[x]) == Visible(was, x, d.blocks[x])
        {
          BreadView(was, d.blocks, b, i, x);
        }
      }
    }

    /** memmove into the buffer, then bwrite. */
    method Bwrite(i: nat, data: Block, d: Device)
      requires Valid() && d.Valid() && Sound(bufs[..], d.blocks)
      requires i < NBUF && bufs[i].locked && bufs[i].valid
      modifies bufs, d
      ensures Valid() && d.Valid() && Sound(bufs[..], d.blocks)
      ensures bufs[..] == old(bufs[..])[i := old(bufs[i]).(data := data, dirty := false)]
      ensures d.blocks == old(d.blocks)[bufs[i].blockno := data]
      ensures d.images == old(d.images) + [d.blocks]
      ensures forall x: nat :: x < |d.blocks| ==>
                Visible(bufs[..], x, d.blocks[x]) == if x == bufs[i].blockno then data else old(Visible(bufs[..], x, d.blocks[x]))
    {
      forall x: nat | x < |d.blocks| { BwriteView(bufs[..], d.blocks, i, data, x); }
      assert old(bufs[..])[i := old(bufs[i]).(data := data, dirty := false)]
          == bufs[..][i := bufs[i].(data := data, dirty := false)];
      bufs[i] := bufs[i].(data := data, dirty := false);
      d.Write(bufs[i].blockno, data);
    }

    /** Unlock and drop the reference; the last one moves the buffer to the front of the list. */
    method Brelse(i: nat)
      requires Valid() && i < NBUF && bufs[i].locked
      modifies this, bufs, next, prev
      ensures Valid()
      ensures bufs[..] == old(bufs[..])[i := Freed(old(bufs[i]))]
      ensures bufs[i].refcnt > 0 ==> order == old(order)
      ensures bufs[i].refcnt == 0 ==>
                exists k :: 0 <= k < NBUF && old(order[k]) == i && order == [i] + Without(old(order), k)
    {
      bufs[i] := bufs[i].(locked := false, refcnt := bufs[i].refcnt - 1);
      if bufs[i].refcnt == 0 {
        assert i in order;
        ghost var k :| 0 <= k < NBUF && order[k] == i;
        Unlink(next[..], prev[..], order, k);
        FrontPermutation(order, k);
        prev[next[i]] := prev[i];
        next[prev[i]] := next[i];
        ghost var rest := Without(order, k);
        LinkFront(next[..], prev[..], rest, i);
        next[i] := next[HEAD];
        prev[i] := HEAD;
        prev[next[HEAD]] := i;
        next[HEAD] := i;
        order := [i] + rest;
      }
    }
  }
}
