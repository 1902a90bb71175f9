/** free, morecore and malloc of src/umalloc.c, with the live blocks and the units obtained
    from sbrk as ghost state. */
module Allocator {
  import opened Params
  import opened FreeRing

  const UNIT := 8

  /** The unsigned arithmetic of malloc: units for nbytes and a header. */
  function Units(nbytes: nat): (n: nat)
    requires nbytes < UINT
    ensures n > 0
  {
    (nbytes + UNIT - 1) % UINT / UNIT + 1
  }

  /** The block that malloc carves is large enough exactly when rounding up does not wrap. */
  lemma BigEnoughIff(nbytes: nat)
    requires nbytes < UINT
    ensures (Units(nbytes) - 1) * UNIT >= nbytes <==> nbytes + UNIT - 1 < UINT
  {
  }

  datatype Grant = Refused | Grant(addr: nat, size: nat)

  /** sys_sbrk for a process of size sz, with what growproc answers: the old size, and the new
      one, to which the increment is added twice.  The comparisons are unsigned. */
  function Sbrk(sz: nat, room: nat, n: int, grows: bool): Grant {
    if Unsigned(sz + n) > room || !grows || Unsigned(sz + n + n) > room then Refused
    else Grant(sz, Unsigned(sz + n + n))
  }

  function Unsigned(x: int): (u: nat)
    ensures u < UINT
  {
    x % UINT
  }

  /** The increment morecore asks for, as the signed number that sbrk takes. */
  function Increment(units: nat): (n: int) {
    var bytes := Unsigned(units * UNIT);
    if bytes < UINT / 2 then bytes else bytes - UINT
  }

  /** What sbrk grants lies inside the process exactly when the request is below 2^31 bytes;
      from there on it takes memory away and answers as if it had given some. */
  lemma GrantedInsideIff(sz: nat, room: nat, units: nat)
    requires sz <= room < UINT / 2 && 0 < units <= UINT / UNIT
    requires Sbrk(sz, room, Increment(units), true).Grant?
    ensures var r := Sbrk(sz, room, Increment(units), true);
      r.addr + units * UNIT <= r.size <==> units * UNIT < UINT / 2
  {
    var n := Increment(units);
    assert n == if units * UNIT < UINT / 2 then units * UNIT else units * UNIT - UINT;
    assert -UINT / 2 <= n < UINT / 2;
  }

  ghost predicate LiveUnit(live: map<nat, nat>, u: nat) {
    exists a :: a in live && a <= u < a + live[a]
  }

  /** Live blocks have their headers, lie above base and do not overlap; and every granted
      unit is in exactly one free or live block. */
  ghost predicate LiveOk(m: Memory, ring: seq<nat>, base: nat, live: map<nat, nat>, granted: iset<nat>) {
    && (forall a :: a in live ==> a in m && m[a].size == live[a] && live[a] > 0 && a > base)
    && (forall a, b :: a in live && b in live && a < b ==> a + live[a] <= b)
    && (forall u: nat :: u in granted <==> FreeUnit(m, ring, u) || LiveUnit(live, u))
    && (forall u: nat :: !(FreeUnit(m, ring, u) && LiveUnit(live, u)))
  }

  /** A live block is not in the ring and fits between its neighbours. */
  lemma LiveFits(m: Memory, ring: seq<nat>, base: nat, live: map<nat, nat>, granted: iset<nat>, k: nat, a: nat)
    requires RingOk(m, ring, base) && LiveOk(m, ring, base, live, granted) && a in live && Place(ring, k, a)
    ensures a !in ring && Fits(m, ring, k, a)
  {
    LiveNotFree(m, ring, base, live, granted, a);
    assert LinkAt(m, ring, k);
    assert LiveUnit(live, a) && !Holds(m, ring[k], a);
    if k + 1 < |ring| {
      assert LinkAt(m, ring, k + 1);
      assert Holds(m, ring[k + 1], ring[k + 1]);
      assert !LiveUnit(live, ring[k + 1]);
    }
  }

  lemma LiveNotFree(m: Memory, ring: seq<nat>, base: nat, live: map<nat, nat>, granted: iset<nat>, a: nat)
    requires RingOk(m, ring, base) && LiveOk(m, ring, base, live, granted) && a in live
    ensures a !in ring
  {
    assert LiveUnit(live, a);
    forall i: nat | i < |ring| ensures ring[i] != a {
      assert LinkAt(m, ring, i);
      if i > 0 { assert Holds(m, ring[i], ring[i]); }
    }
  }

  lemma LiveWithout(live: map<nat, nat>, a: nat, u: nat)
    requires a in live && forall b, c :: b in live && c in live && b < c ==> b + live[b] <= c
    ensures LiveUnit(live - {a}, u) <==> LiveUnit(live, u) && !(a <= u < a + live[a])
  {
    if LiveUnit(live - {a}, u) {
      var b :| b in live - {a} && b <= u < b + live[b];
      assert b in live && b != a;
    }
    if LiveUnit(live, u) && !(a <= u < a + live[a]) {
      var b :| b in live && b <= u < b + live[b];
      assert b in live - {a};
    }
  }

  lemma LiveWith(live: map<nat, nat>, a: nat, n: nat, u: nat)
    requires a !in live
    ensures LiveUnit(live[a := n], u) <==> LiveUnit(live, u) || a <= u < a + n
  {
    if LiveUnit(live[a := n], u) {
      var b :| b in live[a := n] && b <= u < b + live[a := n][b];
      assert b != a ==> b in live;
    }
    if LiveUnit(live, u) {
      var b :| b in live && b <= u < b + live[b];
      assert b in live[a := n] && live[a := n][b] == live[b];
    }
    assert a in live[a := n] && live[a := n][a] == n;
  }

  lemma FreeLive(m: Memory, ring: seq<nat>, base: nat, live: map<nat, nat>, granted: iset<nat>, k: nat, a: nat)
    requires RingOk(m, ring, base) && LiveOk(m, ring, base, live, granted) && a in live && Place(ring, k, a)
    ensures a !in ring && Fits(m, ring, k, a) && LinkAt(m, ring, k) && m[ring[k]].ptr in m
    ensures var m', r' := FreeInto(m, ring[k], a), FreedRing(m, ring, base, k, a);
      && RingOk(m', r', base) && LiveOk(m', r', base, live - {a}, granted) && k < |r'| && r'[k] == ring[k]
      && ((k + 1 < |r'| && r'[k + 1] == a && a in m' && m'[a].size >= live[a])
          || (ring[k] in m' && m'[ring[k]].size >= live[a]))
  {
    LiveFits(m, ring, base, live, granted, k, a);
    FreedOk(m, ring, base, k, a);
    var m', r', live' := FreeInto(m, ring[k], a), FreedRing(m, ring, base, k, a), live - {a};
    forall u: nat ensures LiveUnit(live', u) <==> LiveUnit(live, u) && !Holds(m, a, u) { LiveWithout(live, a, u); }
    forall b | b in live' ensures b in m' && m'[b].size == live'[b] && live'[b] > 0 && b > base {
      LiveNotFree(m, ring, base, live, granted, b);
    }
  }

  /** n units of free memory become a live block at q. */
  lemma CarvedLive(m: Memory, ring: seq<nat>, m': Memory, ring': seq<nat>, base: nat,
                   live: map<nat, nat>, granted: iset<nat>, q: nat, n: nat)
    requires LiveOk(m, ring, base, live, granted) && q > base && n > 0 && q !in live
    requires q in m' && m'[q].size == n && forall a :: a in live ==> a in m' && m'[a].size == m[a].size
    requires forall u: nat :: FreeUnit(m', ring', u) <==> FreeUnit(m, ring, u) && !(q <= u < q + n)
    requires forall u: nat :: q <= u < q + n ==> FreeUnit(m, ring, u)
    ensures LiveOk(m', ring', base, live[q := n], granted)
  {
    forall u: nat ensures LiveUnit(live[q := n], u) <==> LiveUnit(live, u) || q <= u < q + n { LiveWith(live, q, n, u); }
    forall a | a in live ensures a + live[a] <= q || q + n <= a {
      assert LiveUnit(live, a);
      assert a < q < a + live[a] ==> LiveUnit(live, q);
    }
  }

  lemma ExactLive(m: Memory, ring: seq<nat>, base: nat, live: map<nat, nat>, granted: iset<nat>, k: nat)
    requires RingOk(m, ring, base) && LiveOk(m, ring, base, live, granted) && 0 < k < |ring|
    ensures LinkAt(m, ring, k) && LinkAt(m, ring, k - 1) && ring[k] !in live
    ensures var m', r' := Unlinked(m, ring[k - 1], ring[k]), UnlinkedRing(ring, k);
      RingOk(m', r', base) && LiveOk(m', r', base, live[ring[k] := m[ring[k]].size], granted)
  {
    UnlinkOk(m, ring, base, k);
    var m', r' := Unlinked(m, ring[k - 1], ring[k]), UnlinkedRing(ring, k);
    forall u: nat ensures FreeUnit(m', r', u) <==> FreeUnit(m, ring, u) && !Holds(m, ring[k], u) {
      UnlinkUnits(m, ring, base, k, u);
    }
    Ascending(m, ring, base, 0, k);
    forall a | a in live ensures a != ring[k] && a != ring[k - 1] { LiveNotFree(m, ring, base, live, granted, a); }
    CarvedLive(m, ring, m', r', base, live, granted, ring[k], m[ring[k]].size);
  }

  lemma SplitLive(m: Memory, ring: seq<nat>, base: nat, live: map<nat, nat>, granted: iset<nat>, k: nat, n: nat)
    requires RingOk(m, ring, base) && LiveOk(m, ring, base, live, granted) && 0 < k < |ring| && 0 < n
    requires LinkAt(m, ring, k) && n < m[ring[k]].size
    ensures var m', q := Split(m, ring[k], n), ring[k] + (m[ring[k]].size - n);
      q !in live && RingOk(m', ring, base) && LiveOk(m', ring, base, live[q := n], granted)
  {
    var m', q := Split(m, ring[k], n), ring[k] + (m[ring[k]].size - n);
    SplitOk(m, ring, base, k, n);
    Ascending(m, ring, base, 0, k);
    forall u: nat | q <= u < q + n ensures FreeUnit(m, ring, u) { assert Holds(m, ring[k], u); }
    forall a | a in live ensures a != q && a != ring[k] {
      LiveNotFree(m, ring, base, live, granted, a);
      assert LiveUnit(live, a);
    }
    CarvedLive(m, ring, m', ring, base, live, granted, q, n);
  }

  predicate InRegion(u: nat, a: nat, n: nat) {
    a <= u < a + n
  }

  ghost function Region(a: nat, n: nat): iset<nat> {
    iset u: nat | InRegion(u, a, n)
  }

  /** A region from sbrk, above base and not granted before, as a live block. */
  lemma GrantLive(m: Memory, ring: seq<nat>, base: nat, live: map<nat, nat>, granted: iset<nat>, hp: nat, n: nat)
    requires RingOk(m, ring, base) && LiveOk(m, ring, base, live, granted) && hp > base && n > 0
    requires forall u: nat :: hp <= u < hp + n ==> u !in granted
    ensures hp !in live && hp !in ring
    ensures var m' := m[hp := Header(if hp in m then m[hp].ptr else 0, n)];
      RingOk(m', ring, base) && LiveOk(m', ring, base, live[hp := n], granted + Region(hp, n))
  {
    var m' := m[hp := Header(if hp in m then m[hp].ptr else 0, n)];
    assert hp !in granted;
    NewOutside(m, ring, base, live, granted, hp, n);
    HeaderOutside(m, ring, base, hp, m'[hp]);
    forall u: nat ensures LiveUnit(live[hp := n], u) <==> LiveUnit(live, u) || hp <= u < hp + n { LiveWith(live, hp, n, u); }
    hide RingOk, FreeUnit;
    forall u: nat ensures u in granted + Region(hp, n) <==> FreeUnit(m', ring, u) || LiveUnit(live[hp := n], u) {
      assert u in granted <==> FreeUnit(m, ring, u) || LiveUnit(live, u);
    }
  }

  /** A header outside the ring is no part of it. */
  lemma HeaderOutside(m: Memory, ring: seq<nat>, base: nat, hp: nat, x: Header)
    requires RingOk(m, ring, base) && hp !in ring
    ensures RingOk(m[hp := x], ring, base)
    ensures forall u: nat :: FreeUnit(m[hp := x], ring, u) <==> FreeUnit(m, ring, u)
  {
    var m' := m[hp := x];
    forall i: nat | i < |ring| ensures LinkAt(m', ring, i) && Apart(m', ring, i) { assert LinkAt(m, ring, i) && Apart(m, ring, i); }
    forall u: nat ensures FreeUnit(m', ring, u) <==> FreeUnit(m, ring, u) {
      forall i: nat | i < |ring| ensures Holds(m', ring[i], u) == Holds(m, ring[i], u) {}
    }
  }

  /** Units not granted before are in no block. */
  lemma NewOutside(m: Memory, ring: seq<nat>, base: nat, live: map<nat, nat>, granted: iset<nat>, hp: nat, n: nat)
    requires RingOk(m, ring, base) && LiveOk(m, ring, base, live, granted) && hp > base && n > 0
    requires forall u: nat :: hp <= u < hp + n ==> u !in granted
    ensures hp !in live && hp !in ring
    ensures forall a :: a in live ==> a + live[a] <= hp || hp + n <= a
  {
    assert hp !in granted;
    assert !FreeUnit(m, ring, hp) && !LiveUnit(live, hp);
    if hp in ring {
      var i: nat :| i < |ring| && ring[i] == hp;
      assert LinkAt(m, ring, i);
      assert Holds(m, ring[i], hp);
    }
    forall a | a in live ensures a != hp && (a + live[a] <= hp || hp + n <= a) {
      assert LiveUnit(live, a) && a in granted;
      assert a <= hp < a + live[a] ==> LiveUnit(live, hp);
    }
  }

  /** What sbrk answers if it is asked. */
  datatype Core = NoCore | Core(addr: nat)

  function CoreUnits(n: nat): nat {
    if n < 4096 then 4096 else n
  }

  class Heap {
    const base: nat
    var m: Memory
    /** 0 before the first malloc. */
    var freep: nat
    ghost var ring: seq<nat>
    ghost var at: nat
    ghost var live: map<nat, nat>
    ghost var granted: iset<nat>

    ghost predicate Valid()
      reads this
    {
      && base > 0
      && if freep == 0 then live == map[] && granted == iset{}
         else RingOk(m, ring, base) && LiveOk(m, ring, base, live, granted) && at < |ring| && freep == ring[at]
    }

    constructor (base: nat)
      requires base > 0
      ensures Valid() && live == map[] && granted == iset{}
    {
      this.base, m, freep := base, map[], 0;
      ring, at, live, granted := [], 0, map[], iset{};
    }

    /** free's search from freep round to the block behind which bp belongs. */
    method Search(bp: nat) returns (p: nat, ghost k: nat)
      requires Valid() && freep != 0 && bp in live
      ensures k < |ring| && p == ring[k] && Place(ring, k, bp)
    {
      LiveNotFree(m, ring, base, live, granted, bp);
      k := FindPlace(m, ring, base, bp, |ring|);
      p := freep;
      ghost var i: nat := at;
      assert LinkAt(m, ring, i);
      StopsAtPlace(m, ring, base, k, bp, i);
      while !(bp > p && bp < m[p].ptr)
        invariant i < |ring| && p == ring[i] && p in m && m[p].ptr == Next(ring, i)
        invariant (p < bp && bp < m[p].ptr) || (p >= m[p].ptr && (bp > p || bp < m[p].ptr)) <==> i == k
        decreases Distance(i, k, |ring|)
      {
        if p >= m[p].ptr && (bp > p || bp < m[p].ptr) { return; }
        p := m[p].ptr;
        i := if i + 1 < |ring| then i + 1 else 0;
        assert LinkAt(m, ring, i);
        StopsAtPlace(m, ring, base, k, bp, i);
      }
    }

    /** free of the block whose header is at bp: its units become free, and every other live
        block stays as it is. */
    method Free(bp: nat)
      requires Valid() && freep != 0 && bp in live
      modifies this
      ensures Valid() && freep != 0 && live == old(live) - {bp} && granted == old(granted)
      ensures (at + 1 < |ring| && ring[at + 1] == bp && bp in m && m[bp].size >= old(live)[bp])
        || (freep in m && m[freep].size >= old(live)[bp])
    {
      ghost var k;
      var p;
      p, k := Search(bp);
      FreeLive(m, ring, base, live, granted, k, bp);
      AboveBase(m, ring, base, k);
      ring := FreedRing(m, ring, base, k, bp);
      m := FreeInto(m, p, bp);
      freep, at := p, k;
      live := live - {bp};
    }

    /** morecore: at least 4096 units from sbrk go through free.  The block at freep, or the
        one after it, is then large enough. */
    method Morecore(n: nat, core: Core) returns (p: nat, ghost t: nat)
      requires Valid() && freep != 0 && n > 0
      requires core.Core? ==> core.addr > base && forall u: nat :: InRegion(u, core.addr, CoreUnits(n)) ==> u !in granted
      modifies this
      ensures Valid() && freep != 0 && live == old(live)
      ensures core.NoCore? ==> p == 0 && m == old(m) && ring == old(ring) && granted == old(granted) && freep == old(freep)
      ensures core.Core? ==> p == freep && granted == old(granted) + Region(core.addr, CoreUnits(n))
      ensures core.Core? ==> (t == at || t == at + 1) && t < |ring| && ring[t] in m && m[ring[t]].size >= n
    {
      t := 0;
      if core.NoCore? { return 0, 0; }
      var nu := CoreUnits(n);
      GrantLive(m, ring, base, live, granted, core.addr, nu);
      m := m[core.addr := Header(if core.addr in m then m[core.addr].ptr else 0, nu)];
      live, granted := live[core.addr := nu], granted + Region(core.addr, nu);
      Free(core.addr);
      assert live == old(live);
      t := if at + 1 < |ring| && ring[at + 1] == core.addr && core.addr in m && m[core.addr].size >= nu then at + 1 else at;
      p := freep;
    }

    /** The two ways malloc takes n units from the block p found behind prevp. */
    method Carve(prevp: nat, p: nat, n: nat, ghost k: nat) returns (q: nat)
      requires Valid() && freep != 0 && n > 0 && 0 < k < |ring| && p == ring[k] && prevp == ring[k - 1]
      requires p in m && m[p].size >= n
      modifies this
      ensures Valid() && freep == prevp && freep != 0 && granted == old(granted)
      ensures q !in old(live) && live == old(live)[q := n]
    {
      hide RingOk, LiveOk;
      AboveBase(m, ring, base, k - 1);
      AboveBase(m, ring, base, k);
      if m[p].size == n {
        ExactLive(m, ring, base, live, granted, k);
        m := Unlinked(m, prevp, p);
        ring := UnlinkedRing(ring, k);
        q := p;
      } else {
        SplitLive(m, ring, base, live, granted, k, n);
        q := p + (m[p].size - n);
        m := Split(m, p, n);
      }
      freep, at := prevp, k - 1;
      live := live[q := n];
    }

    /** malloc's first call makes base the whole ring. */
    method Init()
      requires Valid()
      modifies this
      ensures Valid() && freep != 0 && live == old(live) && granted == old(granted)
      ensures old(freep) != 0 ==> m == old(m) && ring == old(ring) && freep == old(freep)
      ensures old(freep) == 0 ==> ring == [base] && base in m && m[base].size == 0
    {
      if freep == 0 {
        freep := base;
        m := m[base := Header(base, 0)];
        ring, at := [base], 0;
        assert LinkAt(m, ring, 0);
      }
    }

    /** Before morecore all blocks passed since freep are too small; after it, block t is
        large enough and is reached before freep is passed again. */
    ghost predicate Scanning(prevp: nat, p: nat, n: nat, j: nat, grown: bool, t: nat)
      reads this
    {
      && Valid() && freep != 0 && j < |ring| && p == ring[j] && p in m
      && prevp == (if j > 0 then ring[j - 1] else ring[|ring| - 1])
      && if grown then Nearer(m, ring, n, at, j, t) else TooSmall(m, ring, n, at, j)
    }

    /** The end of malloc's loop body, for a block p that is too small: morecore if the scan is
        back at freep, then one step on.  false when morecore fails. */
    method Advance(prevp: nat, p: nat, n: nat, core: Core, ghost j: nat, ghost grown: bool, ghost t: nat)
      returns (ok: bool, q: nat, p': nat, ghost j': nat, ghost grown': bool, ghost t': nat)
      requires Scanning(prevp, p, n, j, grown, t) && m[p].size < n && n > 0
      requires core.Core? ==> core.addr > base
      requires core.Core? && !grown ==> forall u: nat :: InRegion(u, core.addr, CoreUnits(n)) ==> u !in granted
      modifies this
      ensures Valid() && freep != 0 && live == old(live)
      ensures ok ==> Scanning(q, p', n, j', grown', t')
      ensures ok ==> 0 <= Left(at, j', grown', t', |ring|)
      ensures ok && grown' == grown ==> Left(at, j', grown', t', |ring|) < old(Left(at, j, grown, t, |ring|))
      ensures ok ==> (grown ==> grown')
      ensures ok && !grown' ==> m == old(m) && ring == old(ring)
      ensures !ok || (grown' && !grown) ==> NoneLarge(old(m), old(ring), n)
      ensures !ok ==> core.NoCore? && !grown && NoneLarge(m, ring, n)
      ensures ok && grown' && !grown ==> core.Core?
      ensures granted == if ok && grown' && !grown then old(granted) + Region(core.addr, CoreUnits(n)) else old(granted)
    {
      hide RingOk, LiveOk, TooSmall, Distance, NoneLarge, Nearer;
      ok, q, p', j', grown', t' := true, p, p, j, grown, t;
      NextLink(m, ring, base, j);
      if p == freep {
        SameSpot(m, ring, base, at, j);
        if !grown { AllTooSmall(m, ring, n, at, j); } else { NotYet(m, ring, n, at, j, t); }
        q, t' := Morecore(n, core);
        if q == 0 { return false, 0, 0, 0, false, 0; }
        grown', j' := true, at;
        NextLink(m, ring, base, at);
        GrownStep(m, ring, n, at, t');
      } else if grown {
        NearerStep(m, ring, n, at, j, t);
      } else {
        TooSmallStep(m, ring, n, at, j);
      }
      p' := m[q].ptr;
      j' := Succ(j', |ring|);
    }

    /** malloc(nbytes), given sbrk's answer should it be asked.  0 exactly when no free block
        is large enough and sbrk has nothing; otherwise a block of Units(nbytes) units that
        overlaps no live block.  Returns the address behind the header. */
    method Malloc(nbytes: nat, core: Core) returns (r: nat)
      requires Valid() && nbytes < UINT
      requires core.Core? ==> core.addr > base
      requires core.Core? ==> forall u: nat :: InRegion(u, core.addr, CoreUnits(Units(nbytes))) ==> u !in granted
      modifies this
      ensures Valid() && freep != 0
      ensures r == 0 ==> core.NoCore? && live == old(live) && NoneLarge(m, ring, Units(nbytes))
      ensures r == 0 <==> core.NoCore? && old(freep == 0 || NoneLarge(m, ring, Units(nbytes)))
      ensures granted != old(granted) ==> old(freep == 0 || NoneLarge(m, ring, Units(nbytes)))
      ensures r != 0 ==> r - 1 !in old(live) && live == old(live)[r - 1 := Units(nbytes)]
      ensures granted == old(granted) || (core.Core? && granted == old(granted) + Region(core.addr, CoreUnits(Units(nbytes))))
    {
      hide RingOk, LiveOk, TooSmall, Distance, NoneLarge, Nearer;
      var n := Units(nbytes);
      Init();
      ghost var m0, ring0 := m, ring;
      assert old(freep) == 0 ==> NoneLarge(m0, ring0, n) by { NoneInBase(m0, ring0, base, n); }
      NextLink(m, ring, base, at);
      FirstStep(m, ring, n, at);
      var prevp := freep;
      var p := m[prevp].ptr;
      ghost var j: nat, grown, t: nat := Succ(at, |ring|), false, 0;
      while true
        invariant Scanning(prevp, p, n, j, grown, t) && live == old(live)
        invariant if grown then NoneLarge(m0, ring0, n) else m == m0 && ring == ring0
        invariant !grown ==> granted == old(granted)
        invariant grown ==> core.Core? && granted == old(granted) + Region(core.addr, CoreUnits(n))
        decreases !grown, Left(at, j, grown, t, |ring|)
      {
        NextLink(m, ring, base, j);
        if m[p].size >= n {
          if !grown { LargeAt(m, ring, n, j); }
          var q := Carve(prevp, p, n, j);
          return q + 1;
        }
        var ok;
        ok, prevp, p, j, grown, t := Advance(prevp, p, n, core, j, grown, t);
        if !ok { return 0; }
      }
    }
  }

  /** Steps the scan still has to make. */
  ghost function Left(at: nat, j: nat, grown: bool, t: nat, n: nat): int {
    Distance(j, if grown then t else at, n)
  }

  function Succ(i: nat, n: nat): nat {
    if i + 1 < n then i + 1 else 0
  }

  lemma NextLink(m: Memory, ring: seq<nat>, base: nat, j: nat)
    requires RingOk(m, ring, base) && j < |ring|
    ensures ring[j] in m && m[ring[j]].ptr == ring[Succ(j, |ring|)] && ring[Succ(j, |ring|)] in m
    ensures m[ring[j]].size > 0 ==> j > 0
  {
    assert LinkAt(m, ring, j) && LinkAt(m, ring, Succ(j, |ring|));
  }

  /** Block t is large enough and is reached before the scan returns to at. */
  ghost predicate Nearer(m: Memory, ring: seq<nat>, n: nat, at: nat, j: nat, t: nat) {
    t < |ring| && ring[t] in m && m[ring[t]].size >= n && Distance(j, t, |ring|) <= Distance(j, at, |ring|)
  }

  lemma FirstStep(m: Memory, ring: seq<nat>, n: nat, at: nat)
    requires at < |ring|
    ensures TooSmall(m, ring, n, at, Succ(at, |ring|))
  {
  }

  lemma TooSmallStep(m: Memory, ring: seq<nat>, n: nat, at: nat, j: nat)
    requires TooSmall(m, ring, n, at, j) && at < |ring| && j < |ring| && j != at && ring[j] in m && m[ring[j]].size < n
    ensures TooSmall(m, ring, n, at, Succ(j, |ring|))
    ensures 0 <= Distance(Succ(j, |ring|), at, |ring|) < Distance(j, at, |ring|)
  {
    forall i: nat | i < |ring| && Distance(i, at, |ring|) > Distance(Succ(j, |ring|), at, |ring|)
      ensures ring[i] in m && m[ring[i]].size < n
    {
      if i != j { assert Distance(i, at, |ring|) > Distance(j, at, |ring|); }
    }
  }

  lemma NearerStep(m: Memory, ring: seq<nat>, n: nat, at: nat, j: nat, t: nat)
    requires Nearer(m, ring, n, at, j, t) && at < |ring| && j < |ring| && j != at && ring[j] in m && m[ring[j]].size < n
    ensures Nearer(m, ring, n, at, Succ(j, |ring|), t)
    ensures 0 <= Distance(Succ(j, |ring|), t, |ring|) < Distance(j, t, |ring|)
  {
  }

  /** Back at freep with a block in store: it is this one, so the scan has ended before. */
  lemma NotYet(m: Memory, ring: seq<nat>, n: nat, at: nat, j: nat, t: nat)
    requires Nearer(m, ring, n, at, j, t) && at == j < |ring|
    ensures ring[j] in m && m[ring[j]].size >= n
  {
  }

  lemma GrownStep(m: Memory, ring: seq<nat>, n: nat, at: nat, t: nat)
    requires at < |ring| && (t == at || t == at + 1) && t < |ring| && ring[t] in m && m[ring[t]].size >= n
    ensures Nearer(m, ring, n, at, Succ(at, |ring|), t) && 0 <= Distance(Succ(at, |ring|), t, |ring|)
  {
  }

  /** No free block has n units. */
  ghost predicate NoneLarge(m: Memory, ring: seq<nat>, n: nat) {
    forall i: nat :: i < |ring| && ring[i] in m ==> m[ring[i]].size < n
  }

  lemma LargeAt(m: Memory, ring: seq<nat>, n: nat, j: nat)
    requires j < |ring| && ring[j] in m && m[ring[j]].size >= n
    ensures !NoneLarge(m, ring, n)
  {
  }

  lemma NoneInBase(m: Memory, ring: seq<nat>, base: nat, n: nat)
    ensures ring == [base] && base in m && m[base].size == 0 && n > 0 ==> NoneLarge(m, ring, n)
  {
  }

  /** The blocks passed on the way from behind at to j are too small. */
  ghost predicate TooSmall(m: Memory, ring: seq<nat>, n: nat, at: nat, j: nat) {
    forall i: nat :: i < |ring| && Distance(i, at, |ring|) > Distance(j, at, |ring|) ==>
      ring[i] in m && m[ring[i]].size < n
  }

  lemma AboveBase(m: Memory, ring: seq<nat>, base: nat, k: nat)
    requires RingOk(m, ring, base) && k < |ring|
    ensures ring[k] >= base && LinkAt(m, ring, k)
  {
    assert LinkAt(m, ring, k);
    if k > 0 { Ascending(m, ring, base, 0, k); }
  }

  lemma SameSpot(m: Memory, ring: seq<nat>, base: nat, i: nat, j: nat)
    requires RingOk(m, ring, base) && i < |ring| && j < |ring| && ring[i] == ring[j]
    ensures i == j
  {
    Distinct(m, ring, base, i, j);
  }

  lemma AllTooSmall(m: Memory, ring: seq<nat>, n: nat, at: nat, j: nat)
    requires TooSmall(m, ring, n, at, j) && at == j < |ring| && ring[j] in m && m[ring[j]].size < n
    ensures NoneLarge(m, ring, n)
  {
    forall i: nat | i < |ring| && ring[i] in m ensures m[ring[i]].size < n {
      if i != j { assert Distance(i, at, |ring|) > 0; }
    }
  }

  /** Steps from i forward to t in a ring of n. */
  function Distance(i: nat, t: nat, n: nat): int {
    if i <= t then t - i else t - i + n
  }
}
