/** The per-process FIFO of resident pages (src/VirtualMemory.c, src/vm.c): a fixed table of
    entries threaded into a doubly linked list, newest page at the head.  Null is NIL. */
module MemoryList {

  const NIL := -1
  const SLOT_USABLE := 0xFFFF_FFFF

  datatype Entry = Entry(addr: int, next: int, last: int)

  /** The table with MemoryListHead and MemoryListTail. */
  datatype Fifo = Fifo(table: seq<Entry>, head: int, tail: int)

  // ---------------------------------------------------------------- list, on values

  ghost predicate InTable(n: nat, order: seq<int>) {
    && (forall i :: 0 <= i < |order| ==> 0 <= order[i] < n)
    && (forall i, j :: 0 <= i < j < |order| ==> order[i] != order[j])
  }

  /** The i-th entry of the list is linked to its neighbours, NIL beyond the ends. */
  ghost predicate At(t: seq<Entry>, order: seq<int>, i: nat)
    requires InTable(|t|, order) && i < |order|
  {
    && t[order[i]].next == (if i + 1 < |order| then order[i + 1] else NIL)
    && t[order[i]].last == (if i > 0 then order[i - 1] else NIL)
    && t[order[i]].addr != SLOT_USABLE
  }

  ghost predicate Links(t: seq<Entry>, order: seq<int>)
    requires InTable(|t|, order)
  {
    forall i: nat :: i < |order| ==> At(t, order, i)
  }

  /** Entries off the list are unlinked, and usable except the one taken out to be reused. */
  ghost predicate Spare(t: seq<Entry>, order: seq<int>, loose: int) {
    forall e :: 0 <= e < |t| && e !in order ==>
      t[e].next == NIL && t[e].last == NIL && (t[e].addr == SLOT_USABLE <==> e != loose)
  }

  ghost predicate Shape(t: seq<Entry>, order: seq<int>, loose: int, head: int) {
    && InTable(|t|, order) && Links(t, order) && Spare(t, order, loose) && loose !in order
    && HeadOf(order, head)
  }

  ghost function Addrs(t: seq<Entry>, order: seq<int>): (r: seq<int>)
    requires InTable(|t|, order)
    ensures |r| == |order| && forall i :: 0 <= i < |r| ==> r[i] == t[order[i]].addr
  {
    seq(|order|, i requires 0 <= i < |order| => t[order[i]].addr)
  }

  /** A new head: its next is the old head, whose last becomes the new entry. */
  function Pushed(t: seq<Entry>, head: int, e: int, addr: int): (r: seq<Entry>)
    requires 0 <= e < |t|
    ensures |r| == |t|
  {
    var u := if 0 <= head < |t| then t[head := t[head].(last := e)] else t;
    u[e := u[e].(addr := addr, next := head)]
  }

  lemma PushedOrder(n: nat, order: seq<int>, e: int)
    requires InTable(n, order) && 0 <= e < n && e !in order
    ensures InTable(n, [e] + order) && NIL !in [e] + order
    ensures forall x :: x in [e] + order <==> x == e || x in order
  {
    assert ([e] + order)[0] == e;
    forall i | 0 < i < |[e] + order| ensures ([e] + order)[i] == order[i - 1] {}
  }

  /** head is where order begins. */
  predicate HeadOf(order: seq<int>, head: int) {
    head == if order == [] then NIL else order[0]
  }

  lemma PushedAt(t: seq<Entry>, order: seq<int>, head: int, e: int, addr: int, i: nat)
    requires InTable(|t|, order) && Links(t, order) && HeadOf(order, head)
    requires 0 <= e < |t| && e !in order && t[e].last == NIL && addr != SLOT_USABLE
    requires InTable(|t|, [e] + order) && i <= |order|
    ensures At(Pushed(t, head, e, addr), [e] + order, i)
    ensures Addrs(Pushed(t, head, e, addr), [e] + order)[i] == ([addr] + Addrs(t, order))[i]
  {
    if i > 0 { assert At(t, order, i - 1); }
  }

  lemma PushedSpare(t: seq<Entry>, order: seq<int>, loose: int, head: int, e: int, addr: int)
    requires Shape(t, order, loose, head) && 0 <= e < |t| && e !in order
    requires loose == NIL || e == loose
    ensures Spare(Pushed(t, head, e, addr), [e] + order, NIL)
  {
    PushedOrder(|t|, order, e);
  }

  lemma PushedLinks(t: seq<Entry>, order: seq<int>, head: int, e: int, addr: int)
    requires InTable(|t|, order) && Links(t, order) && HeadOf(order, head)
    requires 0 <= e < |t| && e !in order && t[e].last == NIL && addr != SLOT_USABLE
    requires InTable(|t|, [e] + order)
    ensures Links(Pushed(t, head, e, addr), [e] + order)
    ensures Addrs(Pushed(t, head, e, addr), [e] + order) == [addr] + Addrs(t, order)
  {
    hide At, InTable, Addrs, Links, HeadOf;
    var t', o' := Pushed(t, head, e, addr), [e] + order;
    forall i: nat | i < |o'| ensures At(t', o', i) && Addrs(t', o')[i] == ([addr] + Addrs(t, order))[i] {
      PushedAt(t, order, head, e, addr, i);
    }
    AllLinked(t', o');
  }

  lemma AllLinked(t: seq<Entry>, order: seq<int>)
    requires InTable(|t|, order) && forall i: nat :: i < |order| ==> At(t, order, i)
    ensures Links(t, order)
  {
  }

  lemma PushedShape(t: seq<Entry>, order: seq<int>, loose: int, head: int, e: int, addr: int)
    requires Shape(t, order, loose, head) && 0 <= e < |t| && e !in order && addr != SLOT_USABLE
    requires loose == NIL || e == loose
    ensures var t' := Pushed(t, head, e, addr);
      Shape(t', [e] + order, NIL, e) && Addrs(t', [e] + order) == [addr] + Addrs(t, order)
  {
    PushedOrder(|t|, order, e);
    PushedSpare(t, order, loose, head, e, addr);
    PushedLinks(t, order, head, e, addr);
    hide Links, Spare, InTable;
  }

  /** order without its k-th element. */
  function Without(order: seq<int>, k: nat): seq<int>
    requires k < |order|
  {
    order[..k] + order[k + 1..]
  }

  /** Unlinking entry e, whose predecessor on the list is p (NIL for the head). */
  function Unlinked(t: seq<Entry>, e: int, p: int): (r: seq<Entry>)
    requires 0 <= e < |t| && p < |t| && t[e].next < |t|
    ensures |r| == |t|
  {
    var n := t[e].next;
    var u := if n >= 0 then t[n := t[n].(last := p)] else t;
    var v := if p >= 0 then u[p := u[p].(next := n)] else u;
    v[e := Entry(SLOT_USABLE, NIL, NIL)]
  }

  lemma WithoutOrder(n: nat, order: seq<int>, k: nat)
    requires InTable(n, order) && k < |order|
    ensures InTable(n, Without(order, k))
    ensures forall i :: 0 <= i < |order| - 1 ==> Without(order, k)[i] == order[if i < k then i else i + 1]
    ensures forall x :: x in Without(order, k) <==> x in order && x != order[k]
  {
    var o' := Without(order, k);
    forall x | x in order && x != order[k] ensures x in o' {
      var j :| 0 <= j < |order| && order[j] == x;
      assert o'[if j < k then j else j - 1] == x;
    }
  }

  function Prev(order: seq<int>, k: nat): int
    requires k < |order|
  {
    if k > 0 then order[k - 1] else NIL
  }

  lemma UnlinkedAt(t: seq<Entry>, order: seq<int>, k: nat, i: nat)
    requires InTable(|t|, order) && Links(t, order) && k < |order| && i < |order| - 1
    requires InTable(|t|, Without(order, k))
    ensures At(t, order, k) && t[order[k]].next < |t|
    ensures var t' := Unlinked(t, order[k], Prev(order, k));
      && At(t', Without(order, k), i)
      && t'[Without(order, k)[i]].addr == t[Without(order, k)[i]].addr
  {
    WithoutOrder(|t|, order, k);
    assert At(t, order, k) && At(t, order, if i < k then i else i + 1);
  }

  lemma UnlinkedSpare(t: seq<Entry>, order: seq<int>, head: int, k: nat)
    requires Shape(t, order, NIL, head) && k < |order|
    ensures At(t, order, k) && t[order[k]].next < |t|
    ensures Spare(Unlinked(t, order[k], Prev(order, k)), Without(order, k), NIL)
  {
    assert At(t, order, k);
    WithoutOrder(|t|, order, k);
  }

  lemma UnlinkedLinks(t: seq<Entry>, order: seq<int>, k: nat)
    requires InTable(|t|, order) && Links(t, order) && k < |order| && InTable(|t|, Without(order, k))
    ensures At(t, order, k) && t[order[k]].next < |t|
    ensures Links(Unlinked(t, order[k], Prev(order, k)), Without(order, k))
  {
    assert At(t, order, k);
    var t', o' := Unlinked(t, order[k], Prev(order, k)), Without(order, k);
    hide At, InTable;
    forall i: nat | i < |o'| ensures At(t', o', i) { UnlinkedAt(t, order, k, i); }
  }

  lemma UnlinkedAddrs(t: seq<Entry>, order: seq<int>, k: nat)
    requires InTable(|t|, order) && Links(t, order) && k < |order| && InTable(|t|, Without(order, k))
    ensures At(t, order, k) && t[order[k]].next < |t|
    ensures Addrs(Unlinked(t, order[k], Prev(order, k)), Without(order, k)) == Without(Addrs(t, order), k)
  {
    assert At(t, order, k);
    WithoutOrder(|t|, order, k);
    var t', o' := Unlinked(t, order[k], Prev(order, k)), Without(order, k);
    hide At, Links;
    forall i: nat | i < |o'| ensures Addrs(t', o')[i] == Without(Addrs(t, order), k)[i] { UnlinkedAt(t, order, k, i); }
  }

  lemma UnlinkedShape(t: seq<Entry>, order: seq<int>, head: int, k: nat)
    requires Shape(t, order, NIL, head) && k < |order|
    ensures 0 <= order[k] < |t| && Prev(order, k) < |t| && t[order[k]].next < |t|
    ensures head == order[0]
    ensures var t', o' := Unlinked(t, order[k], Prev(order, k)), Without(order, k);
      && Shape(t', o', NIL, if k > 0 then head else t[order[k]].next)
      && Addrs(t', o') == Without(Addrs(t, order), k)
  {
    WithoutOrder(|t|, order, k);
    UnlinkedSpare(t, order, head, k);
    UnlinkedLinks(t, order, k);
    UnlinkedAddrs(t, order, k);
    hide Links, Spare, Addrs;
  }

  /** Taking the tail off: its predecessor becomes the last entry; the tail keeps its
      address and so stays unusable until it is put back at the head. */
  function Popped(t: seq<Entry>, e: int): (r: seq<Entry>)
    requires 0 <= e < |t| && 0 <= t[e].last < |t|
    ensures |r| == |t|
  {
    var u := t[t[e].last := t[t[e].last].(next := NIL)];
    u[e := u[e].(last := NIL)]
  }

  lemma PoppedAt(t: seq<Entry>, order: seq<int>, i: nat)
    requires InTable(|t|, order) && Links(t, order) && i + 1 < |order|
    ensures InTable(|t|, order[..|order| - 1])
    ensures At(t, order, |order| - 1) && At(t, order, |order| - 2)
    ensures var t' := Popped(t, order[|order| - 1]);
      At(t', order[..|order| - 1], i) && t'[order[i]].addr == t[order[i]].addr
  {
    assert At(t, order, |order| - 1) && At(t, order, |order| - 2) && At(t, order, i);
  }

  lemma PoppedSpare(t: seq<Entry>, order: seq<int>)
    requires InTable(|t|, order) && Links(t, order) && Spare(t, order, NIL) && |order| >= 2
    ensures At(t, order, |order| - 1) && At(t, order, |order| - 2)
    ensures Spare(Popped(t, order[|order| - 1]), order[..|order| - 1], order[|order| - 1])
  {
    var n := |order|;
    assert At(t, order, n - 1) && At(t, order, n - 2);
    assert order == order[..n - 1] + [order[n - 1]];
  }

  lemma PoppedLinks(t: seq<Entry>, order: seq<int>)
    requires InTable(|t|, order) && Links(t, order) && |order| >= 2
    ensures At(t, order, |order| - 1) && At(t, order, |order| - 2)
    ensures var n, t' := |order| - 1, Popped(t, order[|order| - 1]);
      InTable(|t|, order[..n]) && Links(t', order[..n]) && Addrs(t', order[..n]) == Addrs(t, order)[..n]
  {
    assert At(t, order, |order| - 1) && At(t, order, |order| - 2);
    var n, t' := |order| - 1, Popped(t, order[|order| - 1]);
    hide At;
    forall i: nat | i < n ensures At(t', order[..n], i) && t'[order[i]].addr == t[order[i]].addr {
      PoppedAt(t, order, i);
    }
  }

  lemma PoppedShape(t: seq<Entry>, order: seq<int>, head: int)
    requires Shape(t, order, NIL, head) && |order| >= 2
    ensures At(t, order, |order| - 1) && At(t, order, |order| - 2)
    ensures var n, t' := |order| - 1, Popped(t, order[|order| - 1]);
      Shape(t', order[..n], order[n], head) && Addrs(t', order[..n]) == Addrs(t, order)[..n]
  {
    PoppedSpare(t, order);
    PoppedLinks(t, order);
  }

  // ------------------------------------------------------------------ the steps, on values

  /** The first usable slot from i on; |t| when there is none. */
  function UsableFrom(t: seq<Entry>, i: nat): (e: nat)
    requires i <= |t|
    ensures i <= e <= |t| && (e < |t| ==> t[e].addr == SLOT_USABLE)
    ensures forall x :: i <= x < e ==> t[x].addr != SLOT_USABLE
    decreases |t| - i
  {
    if i == |t| || t[i].addr == SLOT_USABLE then i else UsableFrom(t, i + 1)
  }

  predicate HasRoom(t: seq<Entry>) {
    UsableFrom(t, 0) < |t|
  }

  /** RecordInMemory on a table with room. */
  function Recorded(f: Fifo, addr: int): Fifo
    requires HasRoom(f.table)
  {
    var e := UsableFrom(f.table, 0);
    Fifo(Pushed(f.table, f.head, e, addr), e, if f.head == NIL then e else f.tail)
  }

  /** The two panics of GetMemoryListTail. */
  predicate TailPanics(f: Fifo) {
    || !(0 <= f.head < |f.table|) || f.table[f.head].next == NIL
    || !(0 <= f.tail < |f.table|) || !(0 <= f.table[f.tail].last < |f.table|)
  }

  /** GetMemoryListTail. */
  function TailTaken(f: Fifo): (r: Fifo)
    requires !TailPanics(f)
    ensures |r.table| == |f.table|
  {
    Fifo(Popped(f.table, f.tail), f.head, f.table[f.tail].last)
  }

  /** SetMemoryListHead. */
  function HeadSet(f: Fifo, e: int, addr: int): Fifo
    requires 0 <= e < |f.table|
  {
    Fifo(Pushed(f.table, f.head, e, addr), e, f.tail)
  }

  /** The entry k links behind p; NIL beyond the end. */
  function Nth(t: seq<Entry>, p: int, k: nat): int
    decreases k
  {
    if k == 0 || !(0 <= p < |t|) then p else Nth(t, t[p].next, k - 1)
  }

  /** The k-th entry from the head exists, and what is linked to it too. */
  predicate Removable(f: Fifo, k: nat) {
    var e := Nth(f.table, f.head, k);
    && 0 <= e < |f.table| && f.table[e].next < |f.table|
    && (k > 0 ==> Nth(f.table, f.head, k - 1) < |f.table|)
  }

  /** RemoveFromMemoryList of the k-th entry from the head.  The tail pointer stays. */
  function Removed(f: Fifo, k: nat): Fifo
    requires Removable(f, k)
  {
    var e := Nth(f.table, f.head, k);
    Fifo(Unlinked(f.table, e, if k == 0 then NIL else Nth(f.table, f.head, k - 1)),
         if k == 0 then f.table[e].next else f.head, f.tail)
  }

  lemma {:induction false} NthIs(t: seq<Entry>, order: seq<int>, i: nat, k: nat)
    requires InTable(|t|, order) && Links(t, order) && i + k < |order|
    ensures Nth(t, order[i], k) == order[i + k]
    decreases k
  {
    if k > 0 {
      assert At(t, order, i);
      NthIs(t, order, i + 1, k - 1);
    }
  }

  lemma EntryOn(f: Fifo, order: seq<int>, k: nat)
    requires Shape(f.table, order, NIL, f.head) && k < |order|
    ensures f.head == order[0] && 0 <= order[k] < |f.table|
    ensures InTable(|f.table|, order) && Links(f.table, order) && At(f.table, order, k)
    ensures f.table[order[k]].next == if k + 1 < |order| then order[k + 1] else NIL
    ensures f.table[order[k]].next < |f.table|
    ensures k > 0 ==> 0 <= order[k - 1] < |f.table|
  {
    assert At(f.table, order, k);
  }

  lemma NthIsOn(f: Fifo, order: seq<int>, k: nat)
    requires Shape(f.table, order, NIL, f.head) && k < |order|
    ensures Nth(f.table, f.head, k) == order[k]
  {
    EntryOn(f, order, k);
    hide *;
    NthIs(f.table, order, 0, k);
  }

  lemma RemovedIs(f: Fifo, order: seq<int>, k: nat)
    requires Shape(f.table, order, NIL, f.head) && k < |order|
    ensures 0 <= order[k] < |f.table| && f.table[order[k]].next < |f.table| && Prev(order, k) < |f.table|
    ensures Removable(f, k) && Nth(f.table, f.head, k) == order[k]
    ensures Removed(f, k)
         == Fifo(Unlinked(f.table, order[k], Prev(order, k)), if k == 0 then f.table[order[k]].next else f.head, f.tail)
  {
    EntryOn(f, order, k);
    NthIsOn(f, order, k);
    if k > 0 { NthIsOn(f, order, k - 1); }
    hide Shape, InTable, Links, At, Nth, Unlinked;
  }

  /** The slots 0, 1, ..., k - 1. */
  function FirstSlots(k: nat): (r: seq<int>)
    ensures |r| == k && forall i :: 0 <= i < k ==> r[i] == i
  {
    seq(k, i => i)
  }

  /** The copy loop writes slot k behind slot k - 1. */
  function Appended(t: seq<Entry>, k: nat, addr: int): seq<Entry>
    requires k < |t|
  {
    var u := if k > 0 then t[k - 1 := t[k - 1].(next := k)] else t;
    u[k := u[k].(addr := addr, last := k - 1)]
  }

  lemma AppendedAt(t: seq<Entry>, k: nat, addr: int, i: nat)
    requires InTable(|t|, FirstSlots(k)) && Links(t, FirstSlots(k)) && Spare(t, FirstSlots(k), NIL)
    requires i <= k < |t| && addr != SLOT_USABLE
    ensures At(Appended(t, k, addr), FirstSlots(k + 1), i)
  {
    if i < k { assert At(t, FirstSlots(k), i); }
    assert k !in FirstSlots(k);
  }

  lemma AppendedLinks(t: seq<Entry>, k: nat, addr: int)
    requires InTable(|t|, FirstSlots(k)) && Links(t, FirstSlots(k)) && Spare(t, FirstSlots(k), NIL)
    requires k < |t| && addr != SLOT_USABLE
    ensures var t', o' := Appended(t, k, addr), FirstSlots(k + 1);
      InTable(|t|, o') && Links(t', o') && Spare(t', o', NIL)
      && Addrs(t', o') == Addrs(t, FirstSlots(k)) + [addr]
  {
    var t', o' := Appended(t, k, addr), FirstSlots(k + 1);
    AppendedSpare(t, k, addr);
    assert o' == FirstSlots(k) + [k];
    hide At, Spare;
    forall i: nat | i < |o'| ensures At(t', o', i) { AppendedAt(t, k, addr, i); }
  }

  lemma AppendedSpare(t: seq<Entry>, k: nat, addr: int)
    requires Spare(t, FirstSlots(k), NIL) && k < |t| && addr != SLOT_USABLE
    ensures Spare(Appended(t, k, addr), FirstSlots(k + 1), NIL)
  {
    var t', o' := Appended(t, k, addr), FirstSlots(k + 1);
    assert o' == FirstSlots(k) + [k];
    forall e | 0 <= e < |t| && e !in o' ensures e !in FirstSlots(k) && t'[e] == t[e] {
      assert e != k && e != k - 1 by { assert o'[k] == k && (k > 0 ==> o'[k - 1] == k - 1); }
    }
  }

  /** The copy after k entries: the addresses of the source's first k entries, in slots
      0..k. */
  ghost predicate CopiedSoFar(t: seq<Entry>, src: seq<Entry>, order: seq<int>, k: nat)
    requires InTable(|src|, order)
  {
    && k <= |order| && InTable(|t|, FirstSlots(k)) && Links(t, FirstSlots(k)) && Spare(t, FirstSlots(k), NIL)
    && Addrs(t, FirstSlots(k)) == Addrs(src, order)[..k]
  }

  lemma CopyStarts(n: nat, src: seq<Entry>, order: seq<int>)
    requires InTable(|src|, order)
    ensures CopiedSoFar(seq(n, i => Entry(SLOT_USABLE, NIL, NIL)), src, order, 0)
  {
  }

  lemma CopyEnds(t: seq<Entry>, src: seq<Entry>, order: seq<int>)
    requires InTable(|src|, order) && CopiedSoFar(t, src, order, |order|)
    ensures var o' := FirstSlots(|order|);
      Shape(t, o', NIL, if |order| > 0 then 0 else NIL) && Addrs(t, o') == Addrs(src, order)
  {
    assert Addrs(src, order)[..|order|] == Addrs(src, order);
  }

  lemma CopyStep(t: seq<Entry>, src: seq<Entry>, order: seq<int>, k: nat)
    requires InTable(|src|, order) && Links(src, order) && |order| <= |t|
    requires CopiedSoFar(t, src, order, k) && k < |order|
    ensures 0 <= order[k] < |src| && k < |t|
    ensures CopiedSoFar(Appended(t, k, src[order[k]].addr), src, order, k + 1)
    ensures src[order[k]].next == (if k + 1 < |order| then order[k + 1] else NIL)
  {
    assert At(src, order, k);
    AppendedLinks(t, k, src[order[k]].addr);
    assert Addrs(src, order)[..k + 1] == Addrs(src, order)[..k] + [src[order[k]].addr];
  }

  /** A list never has more entries than the table. */
  lemma {:induction false} FitsTable(n: nat, order: seq<int>)
    requires InTable(n, order)
    ensures |order| <= n
    decreases n
  {
    if order == [] {
    } else if n - 1 in order {
      assert 0 <= order[0] < n;
      var k: nat :| k < |order| && order[k] == n - 1;
      WithoutOrder(n, order, k);
      var o' := Without(order, k);
      forall i | 0 <= i < |o'| ensures 0 <= o'[i] < n - 1 { assert o'[i] in o'; }
      FitsTable(n - 1, o');
    } else {
      assert 0 <= order[0] < n;
      forall i | 0 <= i < |order| ensures 0 <= order[i] < n - 1 { assert order[i] in order; }
      FitsTable(n - 1, order);
    }
  }

  // ------------------------------------------------------------------------ the list

  class List {
    var table: seq<Entry>
    var head: int
    var tail: int
    ghost var order: seq<int>
    ghost var loose: int

    ghost predicate Valid()
      reads this
    {
      Shape(table, order, loose, head) && (order != [] ==> tail == order[|order| - 1])
    }

    /** The recorded addresses, newest first. */
    ghost function Contents(): seq<int>
      requires Valid()
      reads this
    {
      Addrs(table, order)
    }

    ghost function Now(): Fifo
      reads this
    {
      Fifo(table, head, tail)
    }

    /** ClearMemoryTable. */
    constructor (n: nat)
      ensures Valid() && Contents() == [] && loose == NIL && |table| == n
    {
      table := seq(n, i => Entry(SLOT_USABLE, NIL, NIL));
      head, tail := NIL, NIL;
      order, loose := [], NIL;
    }

    /** The scan of RecordInMemory for a usable slot; |table| when there is none. */
    method FindUsable() returns (e: nat)
      requires Valid()
      ensures e == UsableFrom(table, 0) && (e < |table| ==> e !in order)
    {
      e := 0;
      while e < |table| && table[e].addr != SLOT_USABLE
        invariant e <= |table| && UsableFrom(table, 0) == UsableFrom(table, e)
      {
        e := e + 1;
      }
      if e < |table| { UsableIsFree(table, order, e); }
    }

    /** RecordInMemory.  false when no slot is usable (the source panics). */
    method RecordInMemory(addr: int) returns (ok: bool)
      requires Valid() && loose == NIL && addr != SLOT_USABLE
      modifies this
      ensures Valid() && loose == NIL && |table| == old(|table|)
      ensures ok <==> exists e :: 0 <= e < |table| && e !in old(order)
      ensures ok <==> HasRoom(old(table))
      ensures Now() == if ok then Recorded(old(Now()), addr) else old(Now())
      ensures Contents() == if ok then [addr] + old(Contents()) else old(Contents())
    {
      hide InTable, Links;
      var e := FindUsable();
      ok := e < |table|;
      if ok {
        PushedShape(table, order, NIL, head, e, addr);
        table := Pushed(table, head, e, addr);
        if head == NIL { tail := e; }
        head := e;
        order := [e] + order;
      }
    }

    /** GetMemoryListTail: unlink and return the oldest entry.  NIL when fewer than two
        entries are linked (the source panics). */
    method GetMemoryListTail() returns (e: int)
      requires Valid() && loose == NIL
      modifies this
      ensures Valid() && loose == e && |table| == old(|table|)
      ensures e == NIL <==> |old(order)| < 2
      ensures e == NIL <==> TailPanics(old(Now()))
      ensures if e == NIL then Now() == old(Now()) else e == old(tail) && Now() == TailTaken(old(Now()))
      ensures e == NIL ==> Contents() == old(Contents())
      ensures e != NIL ==> 0 <= e < |table| && Contents() + [table[e].addr] == old(Contents())
    {
      hide InTable, Links, Spare, At;
      HeadNext(table, order, head);
      if head == NIL || table[head].next == NIL { return NIL; }
      PoppedShape(table, order, head);
      TailLast(table, order);
      e := tail;
      tail := table[e].last;
      table := Popped(table, e);
      order, loose := order[..|order| - 1], e;
    }

    /** SetMemoryListHead: put the entry taken out back in front, for another address. */
    method SetMemoryListHead(e: int, addr: int)
      requires Valid() && loose == e && 0 <= e < |table| && order != [] && addr != SLOT_USABLE
      modifies this
      ensures Valid() && loose == NIL && |table| == old(|table|)
      ensures Now() == HeadSet(old(Now()), e, addr)
      ensures Contents() == [addr] + old(Contents())
    {
      hide InTable, Links, Spare;
      PushedShape(table, order, e, head, e, addr);
      table := Pushed(table, head, e, addr);
      head := e;
      order, loose := [e] + order, NIL;
    }

    /** The walk of RemoveFromMemoryList to the entry before e. */
    method FindPrevious(e: int, ghost k: nat) returns (p: int)
      requires Valid() && 0 < k < |order| && e == order[k]
      ensures p == order[k - 1]
    {
      p := head;
      ghost var i: nat := 0;
      NextOf(table, order, i, k);
      while table[p].next != e
        invariant i < k && p == order[i] && 0 <= p < |table|
        invariant table[p].next == e <==> i + 1 == k
        decreases k - i
      {
        NextOf(table, order, i, k);
        NextOf(table, order, i + 1, k);
        p, i := table[p].next, i + 1;
      }
    }

    /** RemoveFromMemoryList.  The tail pointer does not move, so the list stays valid
        exactly when the entry was not the tail, or was the only one. */
    method RemoveFromMemoryList(e: int, ghost k: nat)
      requires Valid() && loose == NIL && k < |order| && e == order[k]
      modifies this
      ensures Shape(table, order, NIL, head) && loose == NIL && |table| == old(|table|)
      ensures Removable(old(Now()), k) && Now() == Removed(old(Now()), k)
      ensures Addrs(table, order) == Without(old(Contents()), k)
      ensures Valid() <==> k + 1 < |old(order)| || |old(order)| == 1
    {
      hide Links, Spare, InTable, Without, Unlinked, Addrs, At;
      UnlinkedShape(table, order, head, k);
      LastAfter(|table|, order, k);
      RemovedIs(Now(), order, k);
      if head == e {
        FirstOnly(table, order, k);
        head := table[e].next;
        table := Unlinked(table, e, NIL);
      } else {
        var p := FindPrevious(e, k);
        table := Unlinked(table, e, p);
      }
      order := Without(order, k);
    }

    /** The list-copying half of CopyVirtualMemoryData: the same addresses in the same order,
        packed into the first slots. */
    method CopyFrom(src: List)
      requires src.Valid() && src.loose == NIL && src != this && |table| == |src.table|
      modifies this
      ensures Valid() && loose == NIL && Contents() == src.Contents()
      ensures order == FirstSlots(|src.order|)
    {
      hide CopiedSoFar, Links, Spare, InTable;
      var n := |table|;
      FitsTable(n, src.order);
      table := seq(n, i => Entry(SLOT_USABLE, NIL, NIL));
      var k, cur := 0, src.head;
      CopyStarts(n, src.table, src.order);
      while cur != NIL
        invariant 0 <= k <= |src.order| <= n == |table|
        invariant cur == if k < |src.order| then src.order[k] else NIL
        invariant CopiedSoFar(table, src.table, src.order, k)
        decreases |src.order| - k
      {
        CopyStep(table, src.table, src.order, k);
        table := Appended(table, k, src.table[cur].addr);
        cur := src.table[cur].next;
        k := k + 1;
      }
      CopyEnds(table, src.table, src.order);
      head, tail := if k > 0 then 0 else NIL, k - 1;
      order, loose := FirstSlots(k), NIL;
    }
  }

  lemma LastAfter(n: nat, order: seq<int>, k: nat)
    requires InTable(n, order) && k < |order|
    ensures |Without(order, k)| == |order| - 1
    ensures |order| >= 2 ==> (Without(order, k)[|order| - 2] == order[|order| - 1] <==> k + 1 < |order|)
  {
  }

  lemma UsableIsFree(t: seq<Entry>, order: seq<int>, e: int)
    requires InTable(|t|, order) && Links(t, order) && 0 <= e < |t| && t[e].addr == SLOT_USABLE
    ensures e !in order
  {
    forall i: nat | i < |order| ensures t[order[i]].addr != SLOT_USABLE { assert At(t, order, i); }
  }

  lemma HeadNext(t: seq<Entry>, order: seq<int>, head: int)
    requires Shape(t, order, NIL, head)
    ensures head == NIL <==> order == []
    ensures head != NIL ==> 0 <= head < |t| && (t[head].next == NIL <==> |order| == 1)
  {
    if order != [] { assert At(t, order, 0); }
  }

  lemma TailLast(t: seq<Entry>, order: seq<int>)
    requires InTable(|t|, order) && Links(t, order) && |order| >= 2
    ensures var e := order[|order| - 1]; 0 <= e < |t| && t[e].last == order[|order| - 2] && 0 <= t[e].last < |t|
    ensures order[|order| - 1] != order[|order| - 2]
    ensures order == order[..|order| - 1] + [order[|order| - 1]]
  {
    assert At(t, order, |order| - 1);
  }

  lemma FirstOnly(t: seq<Entry>, order: seq<int>, k: nat)
    requires InTable(|t|, order) && k < |order| && order[0] == order[k]
    ensures k == 0
  {
  }

  /** Walking from the i-th entry towards the k-th. */
  lemma NextOf(t: seq<Entry>, order: seq<int>, i: nat, k: nat)
    requires InTable(|t|, order) && Links(t, order) && i < k < |order|
    ensures t[order[i]].next == order[i + 1]
    ensures t[order[i]].next == order[k] <==> i + 1 == k
  {
    assert At(t, order, i);
  }
}
