/** The free ring of the allocator in src/umalloc.c, on values.  Addresses and sizes count
    header units; a block is its header and the units behind it.  base is the static header
    with which the ring starts: it has size 0 and lies below the heap. */
module FreeRing {

  datatype Header = Header(ptr: nat, size: nat)
  type Memory = map<nat, Header>

  /** The ring has one wrap point: it is listed here from base up. */
  function Next(ring: seq<nat>, i: nat): nat
    requires i < |ring|
  {
    if i + 1 < |ring| then ring[i + 1] else ring[0]
  }

  /** The i-th block points to the next one and ends no later than that begins. */
  ghost predicate LinkAt(m: Memory, ring: seq<nat>, i: nat)
    requires i < |ring|
  {
    && ring[i] in m && m[ring[i]].ptr == Next(ring, i)
    && (i == 0 <==> m[ring[i]].size == 0)
    && (i + 1 < |ring| ==> ring[i] < ring[i + 1] && ring[i] + m[ring[i]].size <= ring[i + 1])
  }

  /** The i-th block does not touch the next one. */
  ghost predicate Apart(m: Memory, ring: seq<nat>, i: nat)
    requires i < |ring|
  {
    i + 1 < |ring| && ring[i] in m ==> ring[i] + m[ring[i]].size != ring[i + 1]
  }

  ghost predicate Linked(m: Memory, ring: seq<nat>, base: nat) {
    && |ring| > 0 && ring[0] == base
    && forall i: nat :: i < |ring| ==> LinkAt(m, ring, i)
  }

  /** Free blocks ascend from base with one wrap, and never touch. */
  ghost predicate RingOk(m: Memory, ring: seq<nat>, base: nat) {
    Linked(m, ring, base) && forall i: nat :: i < |ring| ==> Apart(m, ring, i)
  }

  lemma {:induction false} Ascending(m: Memory, ring: seq<nat>, base: nat, i: nat, j: nat)
    requires Linked(m, ring, base) && i < j < |ring|
    ensures ring[i] in m && ring[j] in m && ring[i] < ring[j] && ring[i] + m[ring[i]].size <= ring[j]
    decreases j
  {
    assert LinkAt(m, ring, i) && LinkAt(m, ring, j) && LinkAt(m, ring, j - 1);
    if i < j - 1 { Ascending(m, ring, base, i, j - 1); }
  }

  /** k is where address a belongs: above ring[k] and below the next block, if any. */
  ghost predicate Place(ring: seq<nat>, k: nat, a: nat) {
    k < |ring| && ring[k] < a && (k + 1 < |ring| ==> a < ring[k + 1])
  }

  lemma {:induction false} FindPlace(m: Memory, ring: seq<nat>, base: nat, a: nat, n: nat) returns (k: nat)
    requires Linked(m, ring, base) && base < a && a !in ring && 0 < n <= |ring|
    requires n < |ring| ==> a < ring[n]
    ensures Place(ring, k, a) && k < n
  {
    if ring[n - 1] < a { k := n - 1; } else { k := FindPlace(m, ring, base, a, n - 1); }
  }

  /** The test that ends the search loop of free holds at the place of a, and there only. */
  lemma StopsAtPlace(m: Memory, ring: seq<nat>, base: nat, k: nat, a: nat, i: nat)
    requires Linked(m, ring, base) && Place(ring, k, a) && base < a && a !in ring && i < |ring|
    ensures ring[i] in m
    ensures var p, q := ring[i], m[ring[i]].ptr;
      (p < a && a < q) || (p >= q && (a > p || a < q)) <==> i == k
  {
    assert LinkAt(m, ring, i);
    if i < k { Ascending(m, ring, base, i, k); if i + 1 < k { Ascending(m, ring, base, i + 1, k); } }
    if k < i { Ascending(m, ring, base, k, i); if k + 1 < i { Ascending(m, ring, base, k + 1, i); } }
    if i + 1 == |ring| && i > 0 { Ascending(m, ring, base, 0, i); }
    if 0 < k { Ascending(m, ring, base, 0, k); }
  }

  /** Unit u lies in a free block. */
  ghost predicate FreeUnit(m: Memory, ring: seq<nat>, u: nat) {
    exists i: nat :: i < |ring| && Holds(m, ring[i], u)
  }

  predicate Holds(m: Memory, a: nat, u: nat) {
    a in m && a <= u < a + m[a].size
  }

  // ------------------------------------------------------------------ putting one in

  /** bp goes between p and the block after p. */
  function Put(m: Memory, p: nat, bp: nat): Memory
    requires p in m && bp in m
  {
    m[bp := m[bp].(ptr := m[p].ptr)][p := m[p].(ptr := bp)]
  }

  function PutRing(ring: seq<nat>, k: nat, bp: nat): seq<nat>
    requires k < |ring|
  {
    ring[..k + 1] + [bp] + ring[k + 1..]
  }

  /** Block bp fits between its neighbours. */
  ghost predicate Fits(m: Memory, ring: seq<nat>, k: nat, bp: nat) {
    && Place(ring, k, bp) && bp in m && m[bp].size > 0 && ring[k] in m && ring[k] + m[ring[k]].size <= bp
    && (k + 1 < |ring| ==> bp + m[bp].size <= ring[k + 1])
  }

  lemma PutAt(m: Memory, ring: seq<nat>, base: nat, k: nat, bp: nat, i: nat)
    requires Linked(m, ring, base) && Fits(m, ring, k, bp) && bp !in ring && i <= |ring|
    ensures LinkAt(Put(m, ring[k], bp), PutRing(ring, k, bp), i)
    ensures i < k ==> (Apart(Put(m, ring[k], bp), PutRing(ring, k, bp), i) <==> Apart(m, ring, i))
    ensures i > k + 1 ==> (Apart(Put(m, ring[k], bp), PutRing(ring, k, bp), i) <==> Apart(m, ring, i - 1))
  {
    assert LinkAt(m, ring, k) && (k + 1 < |ring| ==> LinkAt(m, ring, k + 1));
    if i < k { assert LinkAt(m, ring, i); Ascending(m, ring, base, i, k); }
    if i > k + 1 { assert LinkAt(m, ring, i - 1); Ascending(m, ring, base, k, i - 1); }
  }

  lemma PutOk(m: Memory, ring: seq<nat>, base: nat, k: nat, bp: nat)
    requires RingOk(m, ring, base) && Fits(m, ring, k, bp) && bp !in ring
    ensures Linked(Put(m, ring[k], bp), PutRing(ring, k, bp), base)
    ensures forall i: nat :: i <= |ring| && i != k && i != k + 1 ==> Apart(Put(m, ring[k], bp), PutRing(ring, k, bp), i)
  {
    forall i: nat | i <= |ring|
      ensures LinkAt(Put(m, ring[k], bp), PutRing(ring, k, bp), i)
      ensures i != k && i != k + 1 ==> Apart(Put(m, ring[k], bp), PutRing(ring, k, bp), i)
    {
      PutAt(m, ring, base, k, bp, i);
    }
  }

  lemma PutUnits(m: Memory, ring: seq<nat>, k: nat, bp: nat, u: nat)
    requires k < |ring| && ring[k] in m && bp in m && bp !in ring
    ensures FreeUnit(Put(m, ring[k], bp), PutRing(ring, k, bp), u) <==> FreeUnit(m, ring, u) || Holds(m, bp, u)
  {
    var m', r' := Put(m, ring[k], bp), PutRing(ring, k, bp);
    forall i: nat | i < |ring| && Holds(m, ring[i], u) ensures FreeUnit(m', r', u) {
      assert r'[if i <= k then i else i + 1] == ring[i];
    }
    assert r'[k + 1] == bp;
    forall i: nat | i < |r'| && Holds(m', r'[i], u) ensures FreeUnit(m, ring, u) || Holds(m, bp, u) {
      if i != k + 1 { assert r'[i] == ring[if i <= k then i else i - 1]; }
    }
  }

  // -------------------------------------------------------------- merging neighbours

  /** a swallows the block behind it. */
  function Merged(m: Memory, a: nat): Memory
    requires a in m && m[a].ptr in m
  {
    m[a := Header(m[m[a].ptr].ptr, m[a].size + m[m[a].ptr].size)]
  }

  function MergedRing(ring: seq<nat>, j: nat): seq<nat>
    requires j + 1 < |ring|
  {
    ring[..j + 1] + ring[j + 2..]
  }

  ghost predicate Touch(m: Memory, ring: seq<nat>, j: nat) {
    j > 0 && j + 1 < |ring| && ring[j] in m && ring[j] + m[ring[j]].size == ring[j + 1]
  }

  lemma MergeAt(m: Memory, ring: seq<nat>, base: nat, j: nat, i: nat)
    requires Linked(m, ring, base) && Touch(m, ring, j) && i < |ring| - 1
    ensures LinkAt(m, ring, j) && LinkAt(m, ring, j + 1)
    ensures LinkAt(Merged(m, ring[j]), MergedRing(ring, j), i)
    ensures i < j ==> (Apart(Merged(m, ring[j]), MergedRing(ring, j), i) <==> Apart(m, ring, i))
    ensures i >= j ==> (Apart(Merged(m, ring[j]), MergedRing(ring, j), i) <==> Apart(m, ring, i + 1))
  {
    assert LinkAt(m, ring, j) && LinkAt(m, ring, j + 1);
    if i < j { assert LinkAt(m, ring, i); Ascending(m, ring, base, i, j); }
    if i > j { assert LinkAt(m, ring, i + 1); Ascending(m, ring, base, j, i + 1); }
  }

  lemma MergeOk(m: Memory, ring: seq<nat>, base: nat, j: nat)
    requires Linked(m, ring, base) && Touch(m, ring, j)
    ensures LinkAt(m, ring, j) && LinkAt(m, ring, j + 1)
    ensures Linked(Merged(m, ring[j]), MergedRing(ring, j), base)
    ensures forall i: nat :: i < j && Apart(m, ring, i) ==> Apart(Merged(m, ring[j]), MergedRing(ring, j), i)
    ensures forall i: nat :: j <= i < |ring| - 1 && Apart(m, ring, i + 1) ==> Apart(Merged(m, ring[j]), MergedRing(ring, j), i)
  {
    MergeAt(m, ring, base, j, 0);
    forall i: nat | i < |ring| - 1
      ensures LinkAt(Merged(m, ring[j]), MergedRing(ring, j), i)
      ensures i < j && Apart(m, ring, i) ==> Apart(Merged(m, ring[j]), MergedRing(ring, j), i)
      ensures j <= i && Apart(m, ring, i + 1) ==> Apart(Merged(m, ring[j]), MergedRing(ring, j), i)
    {
      MergeAt(m, ring, base, j, i);
    }
  }

  lemma MergeUnits(m: Memory, ring: seq<nat>, base: nat, j: nat, u: nat)
    requires Linked(m, ring, base) && Touch(m, ring, j)
    ensures LinkAt(m, ring, j) && LinkAt(m, ring, j + 1)
    ensures FreeUnit(Merged(m, ring[j]), MergedRing(ring, j), u) <==> FreeUnit(m, ring, u)
  {
    assert LinkAt(m, ring, j) && LinkAt(m, ring, j + 1);
    var m', r' := Merged(m, ring[j]), MergedRing(ring, j);
    forall i: nat | i < |ring| && Holds(m, ring[i], u) ensures FreeUnit(m', r', u) {
      var t := if i <= j then i else i - 1;
      if i == j + 1 { assert r'[j] == ring[j]; } else { assert r'[t] == ring[i]; Distinct(m, ring, base, i, j); }
    }
    forall i: nat | i < |r'| && Holds(m', r'[i], u) ensures FreeUnit(m, ring, u) {
      var t := if i <= j then i else i + 1;
      assert r'[i] == ring[t];
      Distinct(m, ring, base, t, j);
      if i == j && !Holds(m, ring[j], u) { assert Holds(m, ring[j + 1], u); }
    }
  }

  lemma Distinct(m: Memory, ring: seq<nat>, base: nat, i: nat, j: nat)
    requires Linked(m, ring, base) && i < |ring| && j < |ring|
    ensures ring[i] == ring[j] <==> i == j
  {
    if i < j { Ascending(m, ring, base, i, j); }
    if j < i { Ascending(m, ring, base, j, i); }
  }

  // ----------------------------------------------------------------------------- free

  /** What free writes once it has found p: link bp behind p, absorbing the block after bp if
      bp ends there, and being absorbed by p if p ends at bp. */
  function FreeInto(m: Memory, p: nat, bp: nat): Memory
    requires p in m && bp in m && m[p].ptr in m && bp != p
  {
    var q := m[p].ptr;
    var m1 := if bp + m[bp].size == q then m[bp := Header(m[q].ptr, m[bp].size + m[q].size)]
              else m[bp := m[bp].(ptr := q)];
    if p + m1[p].size == bp then m1[p := Header(m1[bp].ptr, m1[p].size + m1[bp].size)]
    else m1[p := m1[p].(ptr := bp)]
  }

  ghost function MergedIf(m: Memory, ring: seq<nat>, base: nat, j: nat): (r: (Memory, seq<nat>))
    requires Linked(m, ring, base)
    ensures Linked(r.0, r.1, base)
    ensures forall u: nat :: FreeUnit(r.0, r.1, u) <==> FreeUnit(m, ring, u)
  {
    if Touch(m, ring, j) then
      MergeOk(m, ring, base, j);
      assert forall u: nat :: FreeUnit(Merged(m, ring[j]), MergedRing(ring, j), u) <==> FreeUnit(m, ring, u) by {
        forall u: nat ensures FreeUnit(Merged(m, ring[j]), MergedRing(ring, j), u) <==> FreeUnit(m, ring, u) {
          MergeUnits(m, ring, base, j, u);
        }
      }
      (Merged(m, ring[j]), MergedRing(ring, j))
    else (m, ring)
  }

  /** The ring after free: bp inserted behind ring[k] and merged with its neighbours where
      they touch. */
  ghost function FreedRing(m: Memory, ring: seq<nat>, base: nat, k: nat, bp: nat): seq<nat>
    requires RingOk(m, ring, base) && Fits(m, ring, k, bp) && bp !in ring
  {
    PutOk(m, ring, base, k, bp);
    var up := MergedIf(Put(m, ring[k], bp), PutRing(ring, k, bp), base, k + 1);
    MergedIf(up.0, up.1, base, k).1
  }

  lemma FreedIs(m: Memory, ring: seq<nat>, base: nat, k: nat, bp: nat)
    requires RingOk(m, ring, base) && Fits(m, ring, k, bp) && bp !in ring
    ensures Linked(Put(m, ring[k], bp), PutRing(ring, k, bp), base)
    ensures LinkAt(m, ring, k) && m[ring[k]].ptr in m
    ensures var up := MergedIf(Put(m, ring[k], bp), PutRing(ring, k, bp), base, k + 1);
      FreeInto(m, ring[k], bp) == MergedIf(up.0, up.1, base, k).0
  {
    PutOk(m, ring, base, k, bp);
    assert LinkAt(m, ring, k) && LinkAt(m, ring, 0) && (k + 1 < |ring| ==> LinkAt(m, ring, k + 1));
    if k > 0 { Ascending(m, ring, base, 0, k); }
  }

  /** After free the ring is sorted and nothing in it touches; it covers what it covered and
      the units of bp; and the block behind which bp was put keeps its position. */
  lemma FreedOk(m: Memory, ring: seq<nat>, base: nat, k: nat, bp: nat)
    requires RingOk(m, ring, base) && Fits(m, ring, k, bp) && bp !in ring
    ensures LinkAt(m, ring, k) && m[ring[k]].ptr in m
    ensures var m', r' := FreeInto(m, ring[k], bp), FreedRing(m, ring, base, k, bp);
      && RingOk(m', r', base) && k < |r'| && r'[k] == ring[k]
      && (forall u: nat :: FreeUnit(m', r', u) <==> FreeUnit(m, ring, u) || Holds(m, bp, u))
      && ((k + 1 < |r'| && r'[k + 1] == bp && bp in m' && m'[bp].size >= m[bp].size)
          || (ring[k] in m' && m'[ring[k]].size >= m[bp].size))
  {
    FreedIs(m, ring, base, k, bp);
    PutOk(m, ring, base, k, bp);
    forall u: nat ensures FreeUnit(Put(m, ring[k], bp), PutRing(ring, k, bp), u) <==> FreeUnit(m, ring, u) || Holds(m, bp, u) {
      PutUnits(m, ring, k, bp, u);
    }
    FreedApart(m, ring, base, k, bp);
    FreedSize(m, ring, base, k, bp);
  }

  lemma FreedSize(m: Memory, ring: seq<nat>, base: nat, k: nat, bp: nat)
    requires RingOk(m, ring, base) && Fits(m, ring, k, bp) && bp !in ring
    ensures LinkAt(m, ring, k) && m[ring[k]].ptr in m
    ensures var m', r' := FreeInto(m, ring[k], bp), FreedRing(m, ring, base, k, bp);
      || (k + 1 < |r'| && r'[k + 1] == bp && bp in m' && m'[bp].size >= m[bp].size)
      || (ring[k] in m' && m'[ring[k]].size >= m[bp].size)
  {
    FreedIs(m, ring, base, k, bp);
  }

  lemma FreedApart(m: Memory, ring: seq<nat>, base: nat, k: nat, bp: nat)
    requires RingOk(m, ring, base) && Fits(m, ring, k, bp) && bp !in ring
    ensures Linked(Put(m, ring[k], bp), PutRing(ring, k, bp), base)
    ensures var up := MergedIf(Put(m, ring[k], bp), PutRing(ring, k, bp), base, k + 1);
      var r := MergedIf(up.0, up.1, base, k);
      RingOk(r.0, r.1, base) && k < |r.1| && r.1[k] == ring[k]
  {
    PutOk(m, ring, base, k, bp);
    var m1, r1 := Put(m, ring[k], bp), PutRing(ring, k, bp);
    var up := MergedIf(m1, r1, base, k + 1);
    if Touch(m1, r1, k + 1) { MergeOk(m1, r1, base, k + 1); }
    assert forall i: nat :: i < |up.1| && i != k ==> Apart(up.0, up.1, i);
    if Touch(up.0, up.1, k) { MergeOk(up.0, up.1, base, k); }
    else { assert LinkAt(up.0, up.1, k); assert Apart(up.0, up.1, k); }
  }

  // --------------------------------------------------------------------------- malloc

  /** An exact fit leaves the ring: its predecessor points past it. */
  function Unlinked(m: Memory, prev: nat, p: nat): Memory
    requires prev in m && p in m
  {
    m[prev := m[prev].(ptr := m[p].ptr)]
  }

  function UnlinkedRing(ring: seq<nat>, k: nat): seq<nat>
    requires k < |ring|
  {
    ring[..k] + ring[k + 1..]
  }

  lemma UnlinkAt(m: Memory, ring: seq<nat>, base: nat, k: nat, i: nat)
    requires RingOk(m, ring, base) && 0 < k < |ring| && i < |ring| - 1
    ensures LinkAt(m, ring, k) && LinkAt(m, ring, k - 1)
    ensures LinkAt(Unlinked(m, ring[k - 1], ring[k]), UnlinkedRing(ring, k), i)
    ensures Apart(Unlinked(m, ring[k - 1], ring[k]), UnlinkedRing(ring, k), i)
  {
    assert LinkAt(m, ring, k) && LinkAt(m, ring, k - 1);
    var t := if i < k then i else i + 1;
    assert LinkAt(m, ring, t) && Apart(m, ring, t);
    Distinct(m, ring, base, t, k - 1);
    if k + 1 < |ring| { Ascending(m, ring, base, k - 1, k + 1); }
  }

  lemma UnlinkOk(m: Memory, ring: seq<nat>, base: nat, k: nat)
    requires RingOk(m, ring, base) && 0 < k < |ring|
    ensures LinkAt(m, ring, k) && LinkAt(m, ring, k - 1)
    ensures RingOk(Unlinked(m, ring[k - 1], ring[k]), UnlinkedRing(ring, k), base)
  {
    UnlinkAt(m, ring, base, k, 0);
    var m', r' := Unlinked(m, ring[k - 1], ring[k]), UnlinkedRing(ring, k);
    forall i: nat | i < |r'| ensures LinkAt(m', r', i) && Apart(m', r', i) {
      UnlinkAt(m, ring, base, k, i);
    }
  }

  lemma UnlinkUnits(m: Memory, ring: seq<nat>, base: nat, k: nat, u: nat)
    requires RingOk(m, ring, base) && 0 < k < |ring|
    ensures LinkAt(m, ring, k) && LinkAt(m, ring, k - 1)
    ensures FreeUnit(Unlinked(m, ring[k - 1], ring[k]), UnlinkedRing(ring, k), u) <==> FreeUnit(m, ring, u) && !Holds(m, ring[k], u)
  {
    assert LinkAt(m, ring, k) && LinkAt(m, ring, k - 1);
    var m', r' := Unlinked(m, ring[k - 1], ring[k]), UnlinkedRing(ring, k);
    forall i: nat | i < |ring| && i != k && Holds(m, ring[i], u) ensures FreeUnit(m', r', u) {
      assert r'[if i < k then i else i - 1] == ring[i];
    }
    forall i: nat | i < |r'| && Holds(m', r'[i], u) ensures FreeUnit(m, ring, u) && !Holds(m, ring[k], u) {
      var t := if i < k then i else i + 1;
      assert r'[i] == ring[t];
      assert Holds(m, ring[t], u);
      BlocksDisjoint(m, ring, base, t, k);
    }
  }

  lemma BlocksDisjoint(m: Memory, ring: seq<nat>, base: nat, i: nat, j: nat)
    requires Linked(m, ring, base) && i < |ring| && j < |ring| && i != j
    ensures forall u: nat :: !(Holds(m, ring[i], u) && Holds(m, ring[j], u))
  {
    if i < j { Ascending(m, ring, base, i, j); } else { Ascending(m, ring, base, j, i); }
  }

  /** A larger block gives up its last n units, which start with a header of their own. */
  function Split(m: Memory, a: nat, n: nat): Memory
    requires a in m && n < m[a].size
  {
    var q := a + (m[a].size - n);
    m[a := m[a].(size := m[a].size - n)][q := Header(if q in m then m[q].ptr else 0, n)]
  }

  lemma SplitAt(m: Memory, ring: seq<nat>, base: nat, k: nat, n: nat, i: nat)
    requires RingOk(m, ring, base) && 0 < k < |ring| && i < |ring| && 0 < n
    requires LinkAt(m, ring, k) && n < m[ring[k]].size
    ensures LinkAt(Split(m, ring[k], n), ring, i) && Apart(Split(m, ring[k], n), ring, i)
    ensures ring[k] + (m[ring[k]].size - n) != ring[i]
    ensures forall u: nat :: Holds(Split(m, ring[k], n), ring[i], u) <==>
      Holds(m, ring[i], u) && !(i == k && ring[k] + m[ring[k]].size - n <= u)
  {
    assert LinkAt(m, ring, i) && Apart(m, ring, i);
    if i < k { Ascending(m, ring, base, i, k); }
    if k < i { Ascending(m, ring, base, k, i); }
  }

  lemma SplitOk(m: Memory, ring: seq<nat>, base: nat, k: nat, n: nat)
    requires RingOk(m, ring, base) && 0 < k < |ring| && 0 < n
    requires LinkAt(m, ring, k) && n < m[ring[k]].size
    ensures RingOk(Split(m, ring[k], n), ring, base)
    ensures forall u: nat :: FreeUnit(Split(m, ring[k], n), ring, u) <==>
      FreeUnit(m, ring, u) && !(ring[k] + m[ring[k]].size - n <= u < ring[k] + m[ring[k]].size)
  {
    var m' := Split(m, ring[k], n);
    forall i: nat | i < |ring|
      ensures LinkAt(m', ring, i) && Apart(m', ring, i)
    {
      SplitAt(m, ring, base, k, n, i);
    }
    forall u: nat
      ensures FreeUnit(m', ring, u) <==>
        FreeUnit(m, ring, u) && !(ring[k] + m[ring[k]].size - n <= u < ring[k] + m[ring[k]].size)
    {
      SplitUnits(m, ring, base, k, n, u);
    }
  }

  lemma SplitUnits(m: Memory, ring: seq<nat>, base: nat, k: nat, n: nat, u: nat)
    requires RingOk(m, ring, base) && 0 < k < |ring| && 0 < n
    requires LinkAt(m, ring, k) && n < m[ring[k]].size
    ensures FreeUnit(Split(m, ring[k], n), ring, u) <==>
      FreeUnit(m, ring, u) && !(ring[k] + m[ring[k]].size - n <= u < ring[k] + m[ring[k]].size)
  {
    var m' := Split(m, ring[k], n);
    forall i: nat | i < |ring|
      ensures Holds(m', ring[i], u) <==>
        Holds(m, ring[i], u) && !(ring[k] + m[ring[k]].size - n <= u < ring[k] + m[ring[k]].size)
    {
      SplitAt(m, ring, base, k, n, i);
      if i != k { BlocksDisjoint(m, ring, base, i, k); }
    }
  }
}
