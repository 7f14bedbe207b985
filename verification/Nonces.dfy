/**
  Deterministic nonces: srv/apns/es256/rfc6979.go, sections 2.3 and 3.2 of RFC 6979 for a 256-bit
  group and a 32-byte MAC. HMAC-SHA256 is any function with 32-byte results.
 */
module Nonces {

  type Byte = b: nat | b < 256

  const SCALAR_BYTES := 32
  const SCALAR_BITS := 256

  function Pow256(n: nat): nat {
    if n == 0 then 1 else 256 * Pow256(n - 1)
  }

  /** A big-endian byte string as an integer. */
  function FromBytes(b: seq<Byte>): nat {
    if b == [] then 0 else FromBytes(b[..|b| - 1]) * 256 + b[|b| - 1]
  }

  /** FillBytes: an integer as exactly so many bytes. */
  function ToBytes(v: nat, length: nat): (b: seq<Byte>)
    ensures |b| == length
  {
    if length == 0 then [] else ToBytes(v / 256, length - 1) + [v % 256]
  }

  lemma {:induction false} BytesRoundTrip(v: nat, length: nat)
    requires v < Pow256(length)
    ensures FromBytes(ToBytes(v, length)) == v
  {
    if length > 0 {
      var b := ToBytes(v, length);
      assert b[..|b| - 1] == ToBytes(v / 256, length - 1);
      BytesRoundTrip(v / 256, length - 1);
    }
  }

  lemma {:induction false} FromBytesBound(b: seq<Byte>)
    ensures FromBytes(b) < Pow256(|b|)
  {
    if b != [] {
      FromBytesBound(b[..|b| - 1]);
    }
  }

  /** A byte string splits into its high part, shifted, and its low part. */
  lemma {:induction false} FromBytesSplit(a: seq<Byte>, b: seq<Byte>)
    ensures FromBytes(a + b) == FromBytes(a) * Pow256(|b|) + FromBytes(b)
  {
    if b == [] {
      assert a + b == a;
    } else {
      var init, last := b[..|b| - 1], b[|b| - 1];
      assert (a + b)[..|a + b| - 1] == a + init;
      FromBytesSplit(a, init);
      ShiftUp(FromBytes(a), Pow256(|init|), FromBytes(init), last);
    }
  }

  lemma ShiftUp(high: nat, p: nat, low: nat, last: nat)
    ensures (high * p + low) * 256 + last == high * (256 * p) + (low * 256 + last)
  {
  }

  /** A right shift by whole bytes; 2^(8*m) is 256^m. */
  function ShiftRight(v: nat, bytes: nat): nat {
    if bytes == 0 then v else ShiftRight(v / 256, bytes - 1)
  }

  /** bits2int: a plain read, shifted down when there are more than 256 bits. */
  function Bits2Int(b: seq<Byte>): nat {
    if |b| * 8 > SCALAR_BITS then ShiftRight(FromBytes(b), |b| - SCALAR_BYTES) else FromBytes(b)
  }

  lemma {:induction false} ShiftDropsLowBytes(b: seq<Byte>, m: nat)
    requires m <= |b|
    ensures ShiftRight(FromBytes(b), m) == FromBytes(b[..|b| - m])
  {
    if m == 0 {
      assert b[..|b|] == b;
    } else {
      var init := b[..|b| - 1];
      assert FromBytes(b) / 256 == FromBytes(init);
      ShiftDropsLowBytes(init, m - 1);
      assert init[..|init| - (m - 1)] == b[..|b| - m];
    }
  }

  /** bits2int takes the leftmost 256 bits, whatever it is handed, so its result fits a scalar. */
  lemma Bits2IntIsLeftmost(b: seq<Byte>)
    ensures Bits2Int(b) == FromBytes(if |b| > SCALAR_BYTES then b[..SCALAR_BYTES] else b)
    ensures |b| >= SCALAR_BYTES ==> Bits2Int(b) < Pow256(SCALAR_BYTES)
  {
    if |b| > SCALAR_BYTES {
      ShiftDropsLowBytes(b, |b| - SCALAR_BYTES);
      FromBytesBound(b[..SCALAR_BYTES]);
    } else {
      FromBytesBound(b);
    }
  }

  /** int2octets; FillBytes panics on a value that does not fit. */
  function Int2Octets(v: nat): (b: seq<Byte>)
    requires v < Pow256(SCALAR_BYTES)
    ensures |b| == SCALAR_BYTES
  {
    ToBytes(v, SCALAR_BYTES)
  }

  /** bits2octets: reduce into the group, then render; reading it back gives the reduced digest. */
  function Bits2Octets(digest: seq<Byte>, n: nat): (b: seq<Byte>)
    requires 0 < n <= Pow256(SCALAR_BYTES)
    ensures |b| == SCALAR_BYTES && Bits2Int(b) == Bits2Int(digest) % n && Bits2Int(b) < n
  {
    BytesRoundTrip(Bits2Int(digest) % n, SCALAR_BYTES);
    Int2Octets(Bits2Int(digest) % n)
  }

  /** The two conversions undo each other: a scalar survives rendering, a 32-byte string survives reading. */
  lemma OctetsRoundTrip(v: nat, b: seq<Byte>)
    ensures v < Pow256(SCALAR_BYTES) ==> Bits2Int(Int2Octets(v)) == v
    ensures |b| == SCALAR_BYTES ==> Bits2Int(b) < Pow256(SCALAR_BYTES) && Int2Octets(Bits2Int(b)) == b
  {
    if v < Pow256(SCALAR_BYTES) {
      BytesRoundTrip(v, SCALAR_BYTES);
    }
    if |b| == SCALAR_BYTES {
      Bits2IntIsLeftmost(b);
      ReadBack(b);
    }
  }

  lemma {:induction false} ReadBack(b: seq<Byte>)
    ensures ToBytes(FromBytes(b), |b|) == b
  {
    if b != [] {
      ReadBack(b[..|b| - 1]);
      assert FromBytes(b) / 256 == FromBytes(b[..|b| - 1]) && FromBytes(b) % 256 == b[|b| - 1];
      assert b == b[..|b| - 1] + [b[|b| - 1]];
    }
  }

  // ---------- The generator ----------

  type Mac = (seq<Byte>, seq<Byte>) -> seq<Byte>

  ghost predicate WholeBlocks(mac: Mac) {
    forall k, m :: |mac(k, m)| == SCALAR_BYTES
  }

  datatype Drbg = Drbg(k: seq<Byte>, v: seq<Byte>)

  /** Steps b to g of section 3.2 of RFC 6979. */
  function Seeded(mac: Mac, x: seq<Byte>, h: seq<Byte>): Drbg {
    var v0, k0 := seq(SCALAR_BYTES, _ => 1), seq(SCALAR_BYTES, _ => 0);
    Absorbed(mac, Absorbed(mac, Drbg(k0, v0), 0, x, h), 1, x, h)
  }

  /** What one absorption asks of the mac. */
  function Query(g: Drbg, tag: Byte, x: seq<Byte>, h: seq<Byte>): (seq<Byte>, seq<Byte>) {
    (g.k, g.v + [tag] + x + h)
  }

  /** The key and the digest go into the key, and the key into the value. */
  function Absorbed(mac: Mac, g: Drbg, tag: Byte, x: seq<Byte>, h: seq<Byte>): Drbg {
    var k := mac(Query(g, tag, x, h).0, Query(g, tag, x, h).1);
    Drbg(k, mac(k, g.v))
  }

  predicate Collides(mac: Mac, a: (seq<Byte>, seq<Byte>), b: (seq<Byte>, seq<Byte>)) {
    a != b && mac(a.0, a.1) == mac(b.0, b.1)
  }

  lemma SplitAfter(v: seq<Byte>, b: Byte, x: seq<Byte>, h: seq<Byte>, v': seq<Byte>, x': seq<Byte>, h': seq<Byte>)
    requires |v| == |v'| && |x| == |x'| && v + [b] + x + h == v' + [b] + x' + h'
    ensures v == v' && x == x' && h == h'
  {
    var s, s' := v + [b] + x + h, v' + [b] + x' + h';
    assert s[..|v|] == v && s'[..|v|] == v';
    assert s[|v| + 1..|v| + 1 + |x|] == x && s'[|v| + 1..|v| + 1 + |x|] == x';
    assert s[|v| + 1 + |x|..] == h && s'[|v| + 1 + |x|..] == h';
  }

  /** An absorption forgets neither where it started nor what it absorbed, unless the mac collides on it. */
  lemma AbsorbedDetermines(mac: Mac, tag: Byte, g: Drbg, x: seq<Byte>, h: seq<Byte>, g': Drbg, x': seq<Byte>, h': seq<Byte>)
    requires |g.v| == |g'.v| && |x| == |x'| && Absorbed(mac, g, tag, x, h) == Absorbed(mac, g', tag, x', h')
    ensures (g == g' && x == x' && h == h') || Collides(mac, Query(g, tag, x, h), Query(g', tag, x', h'))
  {
    if Query(g, tag, x, h) == Query(g', tag, x', h') {
      SplitAfter(g.v, tag, x, h, g'.v, x', h');
    }
  }

  /** The state a seeding has reached before its second absorption. */
  function HalfSeeded(mac: Mac, x: seq<Byte>, h: seq<Byte>): Drbg {
    Absorbed(mac, Drbg(seq(SCALAR_BYTES, _ => 0), seq(SCALAR_BYTES, _ => 1)), 0, x, h)
  }

  /** Equal seeds come from equal keys and equal digests, unless the mac collides on what the two ask of it last. */
  lemma SeedDetermines(mac: Mac, x: seq<Byte>, h: seq<Byte>, x': seq<Byte>, h': seq<Byte>)
    requires WholeBlocks(mac) && |x| == |x'| && Seeded(mac, x, h) == Seeded(mac, x', h')
    ensures (x == x' && h == h') || Collides(mac, Query(HalfSeeded(mac, x, h), 1, x, h), Query(HalfSeeded(mac, x', h'), 1, x', h'))
  {
    AbsorbedDetermines(mac, 1, HalfSeeded(mac, x, h), x, h, HalfSeeded(mac, x', h'), x', h');
  }

  function Generated(mac: Mac, g: Drbg): Drbg {
    g.(v := mac(g.k, g.v))
  }

  function Reseeded(mac: Mac, g: Drbg): Drbg {
    var k := mac(g.k, g.v + [0]);
    Drbg(k, mac(k, g.v))
  }

  /** ... and no step of the generator forgets where it came from, unless the mac collides on it. */
  lemma StepsDetermine(mac: Mac, g: Drbg, g': Drbg)
    ensures Generated(mac, g) == Generated(mac, g') ==> g == g' || Collides(mac, (g.k, g.v), (g'.k, g'.v))
    ensures Reseeded(mac, g) == Reseeded(mac, g') ==> g == g' || Collides(mac, (g.k, g.v + [0]), (g'.k, g'.v + [0]))
  {
    if g.v + [0] == g'.v + [0] {
      assert g.v == (g.v + [0])[..|g.v|] && g'.v == (g'.v + [0])[..|g'.v|];
    }
  }

  /** The generator after so many candidates have been rejected. */
  function Rejected(mac: Mac, g: Drbg, times: nat): Drbg {
    if times == 0 then g else Reseeded(mac, Generated(mac, Rejected(mac, g, times - 1)))
  }

  function Candidate(mac: Mac, g: Drbg, rejections: nat): nat {
    Bits2Int(Generated(mac, Rejected(mac, g, rejections)).v)
  }

  /** The first acceptable candidate comes after so many rejections. */
  ghost predicate FirstAccepted(mac: Mac, g: Drbg, n: nat, rejections: nat) {
    && 0 < Candidate(mac, g, rejections) < n
    && forall i :: 0 <= i < rejections ==> !(0 < Candidate(mac, g, i) < n)
  }

  /** Where the next search starts, once a candidate has been handed out. */
  function AfterDraw(mac: Mac, g: Drbg, rejections: nat): Drbg {
    Reseeded(mac, Generated(mac, Rejected(mac, g, rejections)))
  }

  /** The nonces that successive searches from g find. */
  ghost predicate Draws(mac: Mac, g: Drbg, n: nat, nonces: seq<nat>)
    decreases |nonces|
  {
    nonces == [] ||
    exists r: nat ::
      && FirstAccepted(mac, g, n, r)
      && nonces[0] == Candidate(mac, g, r)
      && Draws(mac, AfterDraw(mac, g, r), n, nonces[1..])
  }

  lemma NextDraw(mac: Mac, g: Drbg, n: nat, nonces: seq<nat>) returns (r: nat)
    requires nonces != [] && Draws(mac, g, n, nonces)
    ensures FirstAccepted(mac, g, n, r) && nonces[0] == Candidate(mac, g, r) && 0 < nonces[0] < n
    ensures Draws(mac, AfterDraw(mac, g, r), n, nonces[1..])
  {
    r :| FirstAccepted(mac, g, n, r) && nonces[0] == Candidate(mac, g, r) && Draws(mac, AfterDraw(mac, g, r), n, nonces[1..]);
  }

  lemma FirstAcceptedUnique(mac: Mac, g: Drbg, n: nat, r: nat, r': nat)
    requires FirstAccepted(mac, g, n, r) && FirstAccepted(mac, g, n, r')
    ensures r == r'
  {
  }

  /** The state determines the nonces: of two sequences drawn from it, one begins with the other, and all are in range. */
  lemma {:induction false} DrawsUnique(mac: Mac, g: Drbg, n: nat, a: seq<nat>, b: seq<nat>)
    requires Draws(mac, g, n, a) && Draws(mac, g, n, b) && |a| <= |b|
    ensures a <= b
    ensures forall i :: 0 <= i < |a| ==> 0 < a[i] < n
    decreases |a|
  {
    if a != [] {
      var r := NextDraw(mac, g, n, a);
      var r' := NextDraw(mac, g, n, b);
      FirstAcceptedUnique(mac, g, n, r, r');
      DrawsUnique(mac, AfterDraw(mac, g, r), n, a[1..], b[1..]);
      assert a == [a[0]] + a[1..] && b == [b[0]] + b[1..];
    }
  }

  class NonceGenerator {
    const mac: Mac
    const n: nat
    var k: seq<Byte>
    var v: seq<Byte>
    var primed: bool

    constructor (mac: Mac, privateKey: nat, digest: seq<Byte>, n: nat)
      requires WholeBlocks(mac) && 0 < n <= Pow256(SCALAR_BYTES) && privateKey < Pow256(SCALAR_BYTES)
      ensures this.mac == mac && this.n == n && !primed
      ensures State() == Seeded(mac, Int2Octets(privateKey), Bits2Octets(digest, n))
    {
      var x, h := Int2Octets(privateKey), Bits2Octets(digest, n);
      var v0 := seq(SCALAR_BYTES, _ => 1);
      var k0 := seq(SCALAR_BYTES, _ => 0);
      k0 := mac(k0, v0 + [0] + x + h);
      v0 := mac(k0, v0);
      k0 := mac(k0, v0 + [1] + x + h);
      v0 := mac(k0, v0);
      this.mac, this.n, this.k, this.v, this.primed := mac, n, k0, v0, false;
    }

    function State(): Drbg
      reads this
    {
      Drbg(k, v)
    }

    /** Where the next search for a candidate starts: a generator already used is advanced first. */
    function Start(): Drbg
      reads this
    {
      if primed then Reseeded(mac, State()) else State()
    }

    /** T = V || V || ... until it is 256 bits long, which one block is. */
    method Fill() returns (t: seq<Byte>)
      requires WholeBlocks(mac)
      modifies this`v
      ensures State() == Generated(mac, old(State())) && t == v
    {
      t := [];
      while |t| * 8 < SCALAR_BITS
        invariant (t == [] && v == old(v)) || (t == v && |t| == SCALAR_BYTES && v == mac(k, old(v)))
        decreases SCALAR_BYTES - |t|
      {
        v := mac(k, v);
        t := t + v;
      }
    }

    /**
      next, when it returns at all: the first candidate of the RFC's sequence that lies in 1..n-1.
      The source claims no bound on the rejections; here it is the ghost parameter.
     */
    method Next(ghost rejections: nat) returns (candidate: nat)
      requires WholeBlocks(mac) && FirstAccepted(mac, Start(), n, rejections)
      modifies this
      ensures 0 < candidate < n
      ensures candidate == Candidate(mac, old(Start()), rejections)
      ensures primed && State() == Generated(mac, Rejected(mac, old(Start()), rejections))
    {
      ghost var start := Start();
      if primed {
        k := mac(k, v + [0]);
        v := mac(k, v);
      }
      primed := true;
      ghost var done := 0;
      while true
        invariant primed && done <= rejections && State() == Rejected(mac, start, done)
        decreases rejections - done
      {
        var t := Fill();
        candidate := Bits2Int(t);
        assert candidate == Candidate(mac, start, done) && FirstAccepted(mac, start, n, rejections);
        if 0 < candidate < n {
          return;
        }
        k := mac(k, v + [0]);
        v := mac(k, v);
        done := done + 1;
      }
    }
  }
}
