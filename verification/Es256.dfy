/**
  Deterministic signing, srv/apns/es256: the nonces of RFC 6979 put through ECDSA. The digest is
  given; HMAC-SHA256 is any function with 32-byte results, xOf(j) the x coordinate of j*G.
 */
module Es256 {
  import opened Basics
  import opened Ecdsa
  import opened Nonces

  const MAX_ATTEMPTS := 8

  /** The generator's state for a key and a digest. */
  function Seed(mac: Mac, n: nat, d: nat, digest: seq<Byte>): Drbg
    requires d < n <= Pow256(SCALAR_BYTES)
  {
    Seeded(mac, Int2Octets(d), Bits2Octets(digest, n))
  }

  /** What the seeding for a key and a digest asks of the mac last but one. */
  function LastQuery(mac: Mac, n: nat, d: nat, digest: seq<Byte>): (seq<Byte>, seq<Byte>)
    requires 0 < n && d < n <= Pow256(SCALAR_BYTES)
  {
    var x, h := Int2Octets(d), Bits2Octets(digest, n);
    Query(HalfSeeded(mac, x, h), 1, x, h)
  }

  /** Two keys, or two digests that differ modulo n, never share a generator, unless the mac collides on their two seedings. */
  lemma SeedsDiffer(mac: Mac, n: nat, d: nat, digest: seq<Byte>, d': nat, digest': seq<Byte>)
    requires WholeBlocks(mac) && 0 < n && d < n && d' < n <= Pow256(SCALAR_BYTES)
    ensures d == d' && Bits2Int(digest) % n == Bits2Int(digest') % n ==> Seed(mac, n, d, digest) == Seed(mac, n, d', digest')
    ensures Seed(mac, n, d, digest) == Seed(mac, n, d', digest') ==>
              || (d == d' && Bits2Int(digest) % n == Bits2Int(digest') % n)
              || Collides(mac, LastQuery(mac, n, d, digest), LastQuery(mac, n, d', digest'))
  {
    if Seed(mac, n, d, digest) == Seed(mac, n, d', digest') {
      SeedDetermines(mac, Int2Octets(d), Bits2Octets(digest, n), Int2Octets(d'), Bits2Octets(digest', n));
      OctetsRoundTrip(d, []);
      OctetsRoundTrip(d', []);
    }
  }

  /** Nonces drawn for the key and the digest, up to the first that gives a signature or as many as Sign tries. */
  ghost predicate NoncesFor(mac: Mac, n: nat, d: nat, digest: seq<Byte>, nonces: seq<nat>, xOf: nat -> nat)
    requires 1 < n && d < n <= Pow256(SCALAR_BYTES)
  {
    && Draws(mac, Seed(mac, n, d, digest), n, nonces)
    && |nonces| <= MAX_ATTEMPTS
    && (|nonces| == MAX_ATTEMPTS || FirstSignature(n, d, Bits2Int(digest), nonces, xOf).Some?)
  }

  /** What Sign answers for the nonces: the first signature, if it verifies under the public key q*G. */
  function Outcome(n: nat, d: nat, q: nat, e: nat, nonces: seq<nat>, xOf: nat -> nat): Result<Signature>
    requires n > 1
  {
    var first := FirstSignature(n, d, e, nonces, xOf);
    if first.Some? && Verifies(n, q, e, first.value, xOf) then Ok(first.value) else Err
  }

  /** The key and the digest determine the signature, however far the nonces are written out. */
  lemma NoncesDetermine(mac: Mac, n: nat, d: nat, digest: seq<Byte>, a: seq<nat>, b: seq<nat>, xOf: nat -> nat)
    requires 1 < n && d < n <= Pow256(SCALAR_BYTES)
    requires NoncesFor(mac, n, d, digest, a, xOf) && NoncesFor(mac, n, d, digest, b, xOf)
    ensures FirstSignature(n, d, Bits2Int(digest), a, xOf) == FirstSignature(n, d, Bits2Int(digest), b, xOf)
  {
    if |a| <= |b| {
      ShorterDetermines(mac, n, d, digest, a, b, xOf);
    } else {
      ShorterDetermines(mac, n, d, digest, b, a, xOf);
    }
  }

  lemma ShorterDetermines(mac: Mac, n: nat, d: nat, digest: seq<Byte>, a: seq<nat>, b: seq<nat>, xOf: nat -> nat)
    requires 1 < n && d < n <= Pow256(SCALAR_BYTES) && |a| <= |b|
    requires NoncesFor(mac, n, d, digest, a, xOf) && NoncesFor(mac, n, d, digest, b, xOf)
    ensures FirstSignature(n, d, Bits2Int(digest), a, xOf) == FirstSignature(n, d, Bits2Int(digest), b, xOf)
  {
    DrawsUnique(mac, Seed(mac, n, d, digest), n, a, b);
    PrefixDecides(n, d, Bits2Int(digest), a, b, xOf);
  }

  lemma PrefixDecides(n: nat, d: nat, e: nat, a: seq<nat>, b: seq<nat>, xOf: nat -> nat)
    requires n > 1 && a <= b && (|a| == |b| || FirstSignature(n, d, e, a, xOf).Some?)
    ensures FirstSignature(n, d, e, a, xOf) == FirstSignature(n, d, e, b, xOf)
  {
    if |a| == |b| {
      assert a == b;
    } else {
      assert b[..|a|] == a;
      FirstStaysFirst(n, d, e, b, xOf, |a|);
    }
  }

  /** A matching key's first signature always passes the check made before it is returned. */
  lemma MatchingKeyVerifies(mac: Mac, n: nat, d: nat, digest: seq<Byte>, nonces: seq<nat>, xOf: nat -> nat)
    requires Prime(n) && d < n <= Pow256(SCALAR_BYTES) && Draws(mac, Seed(mac, n, d, digest), n, nonces)
    ensures var first := FirstSignature(n, d, Bits2Int(digest), nonces, xOf);
            first.Some? ==> 0 < first.value.r < n && 0 < first.value.s < n && Verifies(n, d, Bits2Int(digest), first.value, xOf)
  {
    var e := Bits2Int(digest);
    var first := FirstSignature(n, d, e, nonces, xOf);
    if first.Some? {
      FirstSignatureIsFirst(n, d, e, nonces, xOf);
      DrawsUnique(mac, Seed(mac, n, d, digest), n, nonces, nonces);
      var i :| 0 <= i < |nonces| && SignWith(n, d, e, nonces[i], xOf) == first;
      SignatureIsGood(n, d, e, nonces[i], xOf);
    }
  }

  /**
    Sign, from the digest on: q is the public key's multiple of G, blinds the random blinding
    factors, nonces what the generator will find.
   */
  method Sign(mac: Mac, n: nat, d: nat, q: nat, digest: seq<Byte>, ghost nonces: seq<nat>, blinds: seq<nat>, xOf: nat -> nat)
    returns (result: Result<Signature>)
    requires WholeBlocks(mac) && Prime(n) && n <= Pow256(SCALAR_BYTES)
    requires |blinds| == MAX_ATTEMPTS && forall i :: 0 <= i < MAX_ATTEMPTS ==> 0 < blinds[i] < n
    requires 0 < d < n ==> NoncesFor(mac, n, d, digest, nonces, xOf)
    ensures d == 0 || d >= n ==> result == Err
    ensures 0 < d < n ==> result == Outcome(n, d, q, Bits2Int(digest), nonces, xOf)
    ensures result.Ok? ==> 0 < result.value.r < n && 0 < result.value.s < n && Verifies(n, q, Bits2Int(digest), result.value, xOf)
    ensures 0 < d < n && q == d ==> (result.Ok? <==> FirstSignature(n, d, Bits2Int(digest), nonces, xOf).Some?)
  {
    if d == 0 || d >= n {
      return Err;
    }
    var e := Bits2Int(digest);
    MatchingKeyVerifies(mac, n, d, digest, nonces, xOf);
    assert nonces[..|nonces|] == nonces;
    var generator := new NonceGenerator(mac, d, digest, n);
    for attempt := 0 to MAX_ATTEMPTS
      invariant attempt <= |nonces| && FirstSignature(n, d, e, nonces[..attempt], xOf).None?
      invariant fresh(generator) && generator.mac == mac && generator.n == n
      invariant Draws(mac, generator.Start(), n, nonces[attempt..])
    {
      assert attempt < |nonces|;
      ghost var rejections := NextDraw(mac, generator.Start(), n, nonces[attempt..]);
      var k := generator.Next(rejections);
      assert k == nonces[attempt] && nonces[attempt..][1..] == nonces[attempt + 1..];
      var sig := Attempt(n, d, e, k, blinds[attempt], xOf);
      OneMoreNonce(n, d, e, nonces, xOf, attempt);
      if sig.Some? {
        return if Verifies(n, q, e, sig.value, xOf) then Ok(sig.value) else Err;
      }
    }
    return Err;
  }

  /** One round of the loop: r, the blinded inverse, s; None where the source tries the next nonce. */
  method Attempt(n: nat, d: nat, e: nat, k: nat, blind: nat, xOf: nat -> nat) returns (sig: Option<Signature>)
    requires Prime(n) && 0 < k < n && 0 < blind < n
    ensures sig == SignWith(n, d, e, k, xOf)
  {
    var r := xOf(k) % n;
    if r == 0 {
      return None;
    }
    var s := r * d;
    s := s + e;
    var kInv := BlindedInverse(k, n, blind);
    SignWithInverse(n, d, e, k, xOf, kInv.value);
    s := s * kInv.value;
    s := s % n;
    if s == 0 {
      return None;
    }
    return Some(Signature(r, s));
  }

  lemma SignWithInverse(n: nat, d: nat, e: nat, k: nat, xOf: nat -> nat, inverse: nat)
    requires n > 1 && ModInverse(k, n) == Some(inverse) && xOf(k) % n != 0
    ensures var r := xOf(k) % n;
            var s := ((r * d + e) * inverse) % n;
            SignWith(n, d, e, k, xOf) == if s == 0 then None else Some(Signature(r, s))
  {
  }

  lemma OneMoreNonce(n: nat, d: nat, e: nat, nonces: seq<nat>, xOf: nat -> nat, i: nat)
    requires n > 1 && i < |nonces| && FirstSignature(n, d, e, nonces[..i], xOf).None?
    ensures var sig := SignWith(n, d, e, nonces[i], xOf);
            FirstSignature(n, d, e, nonces[..i + 1], xOf) == sig && (sig.Some? ==> FirstSignature(n, d, e, nonces, xOf) == sig)
  {
    assert nonces[..i + 1][..i] == nonces[..i];
    if SignWith(n, d, e, nonces[i], xOf).Some? {
      FirstStaysFirst(n, d, e, nonces, xOf, i + 1);
    }
  }

  /** Signing twice, in two processes with their own blinding: one answer, a matter of the key and the digest alone. */
  method SignTwice(mac: Mac, n: nat, d: nat, q: nat, digest: seq<Byte>, ghost a: seq<nat>, ghost b: seq<nat>,
                   blinds: seq<nat>, blinds': seq<nat>, xOf: nat -> nat)
    returns (first: Result<Signature>, second: Result<Signature>)
    requires WholeBlocks(mac) && Prime(n) && n <= Pow256(SCALAR_BYTES) && |blinds| == |blinds'| == MAX_ATTEMPTS
    requires forall i :: 0 <= i < MAX_ATTEMPTS ==> 0 < blinds[i] < n && 0 < blinds'[i] < n
    requires 0 < d < n ==> NoncesFor(mac, n, d, digest, a, xOf) && NoncesFor(mac, n, d, digest, b, xOf)
    ensures first == second
  {
    first := Sign(mac, n, d, q, digest, a, blinds, xOf);
    second := Sign(mac, n, d, q, digest, b, blinds', xOf);
    if 0 < d < n {
      NoncesDetermine(mac, n, d, digest, a, b, xOf);
    }
  }
}
