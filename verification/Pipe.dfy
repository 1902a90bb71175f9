/** The pipe's ring buffer (src/pipe.c), whose counters are 32-bit and wrap. */
module Pipe {
  import opened Params

  const PIPESIZE := 512

  datatype Ring = Ring(data: seq<byte>, nread: nat, nwrite: nat)

  predicate Full(r: Ring) {
    r.nwrite == (r.nread + PIPESIZE) % UINT
  }

  predicate Empty(r: Ring) {
    r.nread == r.nwrite
  }

  function Put(r: Ring, b: byte): Ring
    requires |r.data| == PIPESIZE
  {
    r.(data := r.data[r.nwrite % PIPESIZE := b], nwrite := (r.nwrite + 1) % UINT)
  }

  function Front(r: Ring): byte
    requires |r.data| == PIPESIZE
  {
    r.data[r.nread % PIPESIZE]
  }

  function Drop(r: Ring): Ring {
    r.(nread := (r.nread + 1) % UINT)
  }

  // --------------------------------------------------------------------------- history

  /** Bytes ever stored and the number of them ever fetched, against the ring: the counters
      are the totals modulo 2^32, at most 512 bytes are under way, and each of them is at its
      place in the ring. */
  ghost predicate Ok(r: Ring, written: seq<byte>, taken: nat) {
    && |r.data| == PIPESIZE && taken <= |written| <= taken + PIPESIZE
    && r.nread == taken % UINT && r.nwrite == |written| % UINT
    && forall i :: taken <= i < |written| ==> r.data[i % PIPESIZE] == written[i]
  }

  lemma OkBound(r: Ring, written: seq<byte>, taken: nat)
    requires Ok(r, written, taken)
    ensures taken <= |written| && |r.data| == PIPESIZE
  {
  }

  /** The wrapped comparisons decide what they are meant to. */
  lemma FullAndEmpty(r: Ring, written: seq<byte>, taken: nat)
    requires Ok(r, written, taken)
    ensures Full(r) <==> |written| == taken + PIPESIZE
    ensures Empty(r) <==> |written| == taken
  {
    var k := |written| - taken;
    assert |written| % UINT == (taken % UINT + k) % UINT by { ModAdd(taken, k); }
  }

  lemma ModAdd(a: nat, k: nat)
    ensures (a + k) % UINT == (a % UINT + k) % UINT
  {
    assert a == a / UINT * UINT + a % UINT;
    assert a + k == (a % UINT + k) + a / UINT * UINT;
    ModShift(a % UINT + k, a / UINT);
  }

  lemma {:induction false} ModShift(x: nat, q: nat)
    ensures (x + q * UINT) % UINT == x % UINT
  {
    if q > 0 {
      ModShift(x, q - 1);
      assert x + q * UINT == (x + (q - 1) * UINT) + UINT;
    }
  }

  /** 512 divides 2^32, so a wrapped counter names the same place. */
  lemma Slot(n: nat)
    ensures n % UINT % PIPESIZE == n % PIPESIZE
  {
  }

  lemma PutOk(r: Ring, written: seq<byte>, taken: nat, b: byte)
    requires Ok(r, written, taken) && !Full(r)
    ensures Ok(Put(r, b), written + [b], taken)
  {
    FullAndEmpty(r, written, taken);
    Slot(|written|);
    ModAdd(|written|, 1);
    var all, r' := written + [b], Put(r, b);
    forall i | taken <= i < |all| ensures r'.data[i % PIPESIZE] == all[i] {
      if i < |written| { DifferentSlot(i, |written|); }
    }
  }

  lemma DifferentSlot(i: nat, n: nat)
    requires i < n < i + PIPESIZE
    ensures i % PIPESIZE != n % PIPESIZE
  {
  }

  lemma DropOk(r: Ring, written: seq<byte>, taken: nat)
    requires Ok(r, written, taken) && !Empty(r)
    ensures taken < |written| && Front(r) == written[taken] && Ok(Drop(r), written, taken + 1)
  {
    FullAndEmpty(r, written, taken);
    Slot(taken);
    ModAdd(taken, 1);
  }

  // ------------------------------------------------------------------------ whole runs

  /** One byte stored or fetched under the pipe's lock, by any writer or reader. */
  datatype Event = Store(b: byte) | Fetch

  predicate Enabled(r: Ring, e: Event) {
    |r.data| == PIPESIZE && match e case Store(_) => !Full(r) case Fetch => !Empty(r)
  }

  function Apply(r: Ring, e: Event): Ring
    requires Enabled(r, e)
  {
    match e case Store(b) => Put(r, b) case Fetch => Drop(r)
  }

  ghost predicate ValidRun(r: Ring, es: seq<Event>)
    decreases |es|
  {
    es != [] ==> Enabled(r, es[0]) && ValidRun(Apply(r, es[0]), es[1..])
  }

  ghost function RunTo(r: Ring, es: seq<Event>): Ring
    requires ValidRun(r, es)
    decreases |es|
  {
    if es == [] then r else RunTo(Apply(r, es[0]), es[1..])
  }

  function Stored(es: seq<Event>): seq<byte>
    decreases |es|
  {
    if es == [] then [] else (if es[0].Store? then [es[0].b] else []) + Stored(es[1..])
  }

  ghost function Fetched(r: Ring, es: seq<Event>): seq<byte>
    requires ValidRun(r, es)
    decreases |es|
  {
    if es == [] then [] else (if es[0].Fetch? then [Front(r)] else []) + Fetched(Apply(r, es[0]), es[1..])
  }

  /** got are the bytes of all from taken on. */
  ghost predicate Taken(all: seq<byte>, taken: nat, got: seq<byte>) {
    taken + |got| <= |all| && all[taken..taken + |got|] == got
  }

  lemma TakenCons(all: seq<byte>, taken: nat, got: seq<byte>)
    requires taken < |all| && Taken(all, taken + 1, got)
    ensures Taken(all, taken, [all[taken]] + got)
  {
    assert all[taken..taken + 1 + |got|] == [all[taken]] + all[taken + 1..taken + 1 + |got|];
  }

  lemma TakenNone(all: seq<byte>, taken: nat)
    requires taken <= |all|
    ensures all + Stored([]) == all && Taken(all, taken, [])
  {
    assert Stored([]) == [];
  }

  lemma StoredCons(es: seq<Event>, written: seq<byte>)
    requires es != []
    ensures written + Stored(es) == (if es[0].Store? then written + [es[0].b] else written) + Stored(es[1..])
  {
  }

  /** In every interleaving the bytes fetched are the next bytes of what was and is stored,
      in order, and the rest is what the ring holds. */
  lemma {:induction false} Fifo(r: Ring, es: seq<Event>, written: seq<byte>, taken: nat)
    requires Ok(r, written, taken) && ValidRun(r, es)
    ensures Taken(written + Stored(es), taken, Fetched(r, es))
    ensures Ok(RunTo(r, es), written + Stored(es), taken + |Fetched(r, es)|)
    decreases |es|
  {
    hide Ok, Put, Drop, Front, Full, Empty, Taken, Stored;
    OkBound(r, written, taken);
    if es == [] {
      TakenNone(written, taken);
    } else {
      var e := es[0];
      StoredCons(es, written);
      match e
      case Store(b) =>
        PutOk(r, written, taken, b);
        Fifo(Apply(r, e), es[1..], written + [b], taken);
        assert Fetched(r, es) == Fetched(Apply(r, e), es[1..]);
      case Fetch =>
        DropOk(r, written, taken);
        Fifo(Apply(r, e), es[1..], written, taken + 1);
        assert (written + Stored(es))[taken] == written[taken] == Front(r);
        TakenCons(written + Stored(es), taken, Fetched(Apply(r, e), es[1..]));
    }
  }

  /** From a new pipe: what readers got is a prefix of what writers put. */
  lemma FifoFromEmpty(r: Ring, es: seq<Event>)
    requires |r.data| == PIPESIZE && r.nread == 0 && r.nwrite == 0 && ValidRun(r, es)
    ensures Fetched(r, es) <= Stored(es) && |Stored(es)| <= |Fetched(r, es)| + PIPESIZE
  {
    assert Ok(r, [], 0);
    Fifo(r, es, [], 0);
    assert [] + Stored(es) == Stored(es);
  }

  // ------------------------------------------------------------------------- the class

  datatype Outcome = Done | Blocked | Failed

  class Buffer {
    var data: array<byte>
    var nread: nat
    var nwrite: nat
    var readopen: bool
    var writeopen: bool
    ghost var written: seq<byte>
    ghost var taken: nat

    ghost predicate Valid()
      reads this, data
    {
      Ok(Ring(data[..], nread, nwrite), written, taken)
    }

    constructor ()
      ensures Valid() && written == [] && taken == 0 && readopen && writeopen && fresh(data)
    {
      data := new byte[PIPESIZE];
      nread, nwrite, readopen, writeopen := 0, 0, true, true;
      written, taken := [], 0;
    }

    /** pipewrite from byte i until it is done, must sleep, or gives up.  Bytes go in order
        behind those already there; it stops early exactly when 512 are under way. */
    method WriteFrom(addr: seq<byte>, start: nat, killed: bool) returns (r: Outcome, i: nat)
      requires Valid() && start <= |addr|
      modifies this`nwrite, this`written, data
      ensures Valid() && taken == old(taken)
      ensures start <= i <= |addr| && written == old(written) + addr[start..i]
      ensures r.Done? <==> i == |addr|
      ensures !r.Done? ==> |written| == taken + PIPESIZE
      ensures r.Failed? <==> !r.Done? && (!readopen || killed)
    {
      i := start;
      while i < |addr|
        invariant Valid() && start <= i <= |addr| && written == old(written) + addr[start..i] && data == old(data)
      {
        FullAndEmpty(Ring(data[..], nread, nwrite), written, taken);
        if nwrite == (nread + PIPESIZE) % UINT {
          return if !readopen || killed then Failed else Blocked, i;
        }
        PutOk(Ring(data[..], nread, nwrite), written, taken, addr[i]);
        data[nwrite % PIPESIZE] := addr[i];
        nwrite := (nwrite + 1) % UINT;
        written := written + [addr[i]];
        i := i + 1;
      }
      r := Done;
    }

    /** piperead up to the point where it sleeps or returns.  It returns the oldest bytes, as
        many as asked for or as there are. */
    method ReadUpTo(n: nat, killed: bool) returns (r: Outcome, bytes: seq<byte>)
      requires Valid()
      modifies this`nread, this`taken
      ensures Valid() && written == old(written)
      ensures !r.Done? <==> |written| == old(taken) && writeopen
      ensures !r.Done? ==> bytes == [] && taken == old(taken)
      ensures r.Failed? <==> !r.Done? && killed
      ensures taken == old(taken) + |bytes| <= |written| && bytes == written[old(taken)..taken]
      ensures r.Done? ==> |bytes| == n || taken == |written|
      ensures |bytes| <= n
    {
      bytes := [];
      FullAndEmpty(Ring(data[..], nread, nwrite), written, taken);
      if nread == nwrite && writeopen {
        return if killed then Failed else Blocked, [];
      }
      while |bytes| < n
        invariant Valid() && written == old(written) && |bytes| <= n
        invariant taken == old(taken) + |bytes| <= |written| && bytes == written[old(taken)..taken]
        decreases n - |bytes|
      {
        FullAndEmpty(Ring(data[..], nread, nwrite), written, taken);
        if nread == nwrite { return Done, bytes; }
        DropOk(Ring(data[..], nread, nwrite), written, taken);
        bytes := bytes + [data[nread % PIPESIZE]];
        nread := (nread + 1) % UINT;
        taken := taken + 1;
      }
      r := Done;
    }
  }
}
