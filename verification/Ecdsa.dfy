/**
  The arithmetic of srv/apns/es256: the blinded inverse and the signing equation, over any prime
  order n and any cyclic group of that order. Remainders are never negative, as in math/big's Mod.
 */
module Ecdsa {
  import opened Basics

  // ---------- Congruences ----------

  ghost predicate Cong(a: int, b: int, n: int) {
    exists m :: a == b + n * m
  }

  lemma CongBy(a: int, b: int, n: int, m: int)
    requires a == b + n * m
    ensures Cong(a, b, n)
  {
  }

  lemma SmallMultipleIsZero(n: int, m: int)
    requires n > 0 && -n < n * m < n
    ensures m == 0
  {
    assert m >= 1 ==> n * m >= n;
    assert m <= -1 ==> n * m <= -n;
  }

  lemma CongSmallEqual(a: int, b: int, n: int)
    requires n > 0 && 0 <= a < n && 0 <= b < n && Cong(a, b, n)
    ensures a == b
  {
    var m :| a == b + n * m;
    SmallMultipleIsZero(n, m);
  }

  lemma CongMod(a: int, n: int)
    requires n > 0
    ensures Cong(a % n, a, n) && Cong(a, a % n, n) && 0 <= a % n < n
  {
    CongBy(a, a % n, n, a / n);
    CongBy(a % n, a, n, -(a / n));
  }

  lemma CongSym(a: int, b: int, n: int)
    requires Cong(a, b, n)
    ensures Cong(b, a, n)
  {
    var m :| a == b + n * m;
    CongBy(b, a, n, -m);
  }

  lemma CongTrans(a: int, b: int, c: int, n: int)
    requires Cong(a, b, n) && Cong(b, c, n)
    ensures Cong(a, c, n)
  {
    var i :| a == b + n * i;
    var j :| b == c + n * j;
    assert n * i + n * j == n * (i + j);
    CongBy(a, c, n, i + j);
  }

  lemma CongMul(a: int, b: int, c: int, n: int)
    requires Cong(a, b, n)
    ensures Cong(a * c, b * c, n) && Cong(c * a, c * b, n)
  {
    var m :| a == b + n * m;
    assert a * c == b * c + n * (m * c);
    CongBy(a * c, b * c, n, m * c);
  }

  lemma CongAdd(a: int, b: int, c: int, d: int, n: int)
    requires Cong(a, b, n) && Cong(c, d, n)
    ensures Cong(a + c, b + d, n)
  {
    var i :| a == b + n * i;
    var j :| c == d + n * j;
    assert n * i + n * j == n * (i + j);
    CongBy(a + c, b + d, n, i + j);
  }

  /** Congruence is having the same remainder. */
  lemma CongIsSameRemainder(a: int, b: int, n: int)
    requires n > 0
    ensures Cong(a, b, n) <==> a % n == b % n
  {
    CongMod(a, n);
    CongMod(b, n);
    if Cong(a, b, n) {
      CongTrans(a % n, a, b, n);
      CongTrans(a % n, b, b % n, n);
      CongSmallEqual(a % n, b % n, n);
    }
    if a % n == b % n {
      CongTrans(a, a % n, b, n);
    }
  }

  // ---------- Inverses ----------

  ghost predicate Prime(n: int) {
    n > 1 && forall d :: 1 < d < n ==> n % d != 0
  }

  /** Extended Euclid: the greatest common divisor and the two coefficients. */
  function Egcd(a: nat, b: nat): (r: (nat, int, int))
    ensures a * r.1 + b * r.2 == r.0
    decreases b
  {
    if b == 0 then (a, 1, 0)
    else
      var (g, x, y) := Egcd(b, a % b);
      assert a * y + b * (x - (a / b) * y) == g by {
        var q := a / b;
        assert a == b * q + a % b;
        assert (a % b) * y == a * y - b * (q * y);
        assert b * (x - q * y) == b * x - b * (q * y);
      }
      (g, y, x - (a / b) * y)
  }

  lemma {:induction false} EgcdDivides(a: nat, b: nat)
    requires a > 0 || b > 0
    ensures Egcd(a, b).0 > 0 && a % Egcd(a, b).0 == 0 && b % Egcd(a, b).0 == 0
    decreases b
  {
    if b > 0 {
      EgcdDivides(b, a % b);
      var g := Egcd(b, a % b).0;
      var q := a / b;
      assert a == b * q + a % b;
      MultipleSum(b, a % b, q, g);
    }
  }

  lemma MultipleSum(b: int, c: int, q: int, g: int)
    requires g > 0 && b % g == 0 && c % g == 0
    ensures (b * q + c) % g == 0
  {
    var i, j := b / g, c / g;
    assert b == g * i && c == g * j;
    assert b * q + c == g * (i * q + j);
    CongBy(b * q + c, 0, g, i * q + j);
    CongIsSameRemainder(b * q + c, 0, g);
  }

  /** The first coefficient of a combination that makes 1 is an inverse. */
  lemma BezoutInverse(a: int, n: int, x: int, y: int)
    requires n > 1 && a * x + n * y == 1
    ensures 0 <= x % n < n && (a * (x % n)) % n == 1
  {
    CongBy(a * x, 1, n, -y);
    CongMod(x, n);
    CongMul(x % n, x, a, n);
    CongTrans(a * (x % n), a * x, 1, n);
    CongIsSameRemainder(a * (x % n), 1, n);
    SmallRemainder(1, n);
  }

  /** math/big's ModInverse: None where there is no inverse. */
  function ModInverse(a: nat, n: nat): (r: Option<nat>)
    requires n > 1
    ensures r.Some? ==> r.value < n && (a * r.value) % n == 1
  {
    var (g, x, y) := Egcd(a, n);
    if g != 1 then None
    else
      BezoutInverse(a, n, x, y);
      Some(x % n)
  }

  lemma SmallRemainder(a: int, g: int)
    requires 0 <= a < g
    ensures a % g == a
  {
  }

  lemma CoprimeToPrime(a: nat, n: nat)
    requires Prime(n) && 0 < a < n
    ensures Egcd(a, n).0 == 1
  {
    EgcdDivides(a, n);
    var g := Egcd(a, n).0;
    if g >= n {
      SmallRemainder(a, g);
      assert false;
    }
  }

  lemma InverseExists(a: nat, n: nat)
    requires Prime(n) && 0 < a < n
    ensures ModInverse(a, n).Some?
  {
    CoprimeToPrime(a, n);
  }

  lemma InverseUnique(a: int, x: int, y: int, n: int)
    requires n > 1 && 0 <= x < n && 0 <= y < n
    requires (a * x) % n == 1 && (a * y) % n == 1
    ensures x == y
  {
    Cancel(a, x, y, n);
    Cancel(a, y, x, n);
    Swap(a, x, y);
    SameRemainderSame(a * x * y, x, y, n);
  }

  lemma SameRemainderSame(p: int, x: int, y: int, n: int)
    requires n > 1 && 0 <= x < n && 0 <= y < n && Cong(p, x, n) && Cong(p, y, n)
    ensures x == y
  {
    CongSym(p, x, n);
    CongTrans(x, p, y, n);
    CongSmallEqual(x, y, n);
  }

  lemma Swap(a: int, b: int, c: int)
    ensures a * b * c == a * c * b
  {
  }

  /** Multiplying by an inverse of a undoes multiplying by a. */
  lemma Cancel(a: int, i: int, b: int, n: int)
    requires n > 1 && (a * i) % n == 1
    ensures Cong(a * b * i, b, n)
  {
    CongIsSameRemainder(a * i, 1, n);
    CongMul(a * i, 1, b, n);
    Swap(a, b, i);
  }

  /** A product of two numbers not divisible by a prime is not divisible by it. */
  lemma ProductNotZero(a: nat, b: nat, n: nat)
    requires Prime(n) && 0 < a < n && 0 < b < n
    ensures (a * b) % n != 0
  {
    InverseExists(a, n);
    var i := ModInverse(a, n).value;
    Cancel(a, i, b, n);
    if (a * b) % n == 0 {
      ZeroStaysZero(a * b, i, n);
      CongSym(a * b * i, b, n);
      CongTrans(b, a * b * i, 0, n);
      CongSmallEqual(b, 0, n);
      assert false;
    }
  }

  lemma ZeroStaysZero(x: int, i: int, n: int)
    requires n > 1 && x % n == 0
    ensures Cong(x * i, 0, n)
  {
    CongIsSameRemainder(x, 0, n);
    CongMul(x, 0, i, n);
  }

  /** blindedInverse, for one blinding factor in 1..n-1. */
  method BlindedInverse(k: nat, n: nat, blind: nat) returns (r: Option<nat>)
    requires Prime(n) && 0 < k < n && 0 < blind < n
    ensures r == ModInverse(k, n) && r.Some?
  {
    var blinded := k * blind;
    blinded := blinded % n;
    var inverse := ModInverse(blinded, n);
    ProductNotZero(k, blind, n);
    InverseExists(blinded, n);
    if inverse.None? {
      return None;
    }
    r := Some((inverse.value * blind) % n);
    InverseExists(k, n);
    UnblindedIsInverse(k, n, blind, inverse.value);
    InverseUnique(k, r.value, ModInverse(k, n).value, n);
  }

  lemma UnblindedIsInverse(k: nat, n: nat, blind: nat, i: nat)
    requires n > 1 && (((k * blind) % n) * i) % n == 1
    ensures (k * ((i * blind) % n)) % n == 1
  {
    ReduceLeft(k * blind, i, n);
    ReduceRight(k, i * blind, n);
    Regroup(k, blind, i);
  }

  lemma Regroup(k: int, blind: int, i: int)
    ensures (k * blind) * i == k * (i * blind)
  {
  }

  lemma ReduceLeft(x: int, y: int, n: int)
    requires n > 1
    ensures ((x % n) * y) % n == (x * y) % n
  {
    CongMod(x, n);
    CongMul(x % n, x, y, n);
    CongIsSameRemainder((x % n) * y, x * y, n);
  }

  lemma ReduceRight(x: int, y: int, n: int)
    requires n > 1
    ensures (x * (y % n)) % n == (x * y) % n
  {
    CongMod(y, n);
    CongMul(y % n, y, x, n);
    CongIsSameRemainder(x * (y % n), x * y, n);
  }

  // ---------- Signing ----------

  datatype Signature = Signature(r: nat, s: nat)

  /** The signature one nonce gives, or None where r or s comes out zero; xOf(j) is the x coordinate of j*G. */
  function SignWith(n: nat, d: nat, e: nat, k: nat, xOf: nat -> nat): Option<Signature>
    requires n > 1
  {
    var r := xOf(k) % n;
    var inverse := ModInverse(k, n);
    if r == 0 || inverse.None? then None else
    var s := ((r * d + e) * inverse.value) % n;
    if s == 0 then None else Some(Signature(r, s))
  }

  /** The signature of the first nonce that gives one. */
  function FirstSignature(n: nat, d: nat, e: nat, nonces: seq<nat>, xOf: nat -> nat): Option<Signature>
    requires n > 1
  {
    if nonces == [] then None else
    var first := FirstSignature(n, d, e, nonces[..|nonces| - 1], xOf);
    if first.Some? then first else SignWith(n, d, e, nonces[|nonces| - 1], xOf)
  }

  /** The multiple of G that verification computes, when the public key is q*G. */
  function Recovered(n: nat, q: nat, e: nat, sig: Signature, inverse: nat): nat
    requires n > 1
  {
    ((e * inverse) % n + ((sig.r * inverse) % n) * q) % n
  }

  /** ECDSA verification, on exponents. */
  predicate Verifies(n: nat, q: nat, e: nat, sig: Signature, xOf: nat -> nat)
    requires n > 1
  {
    && 0 < sig.r < n && 0 < sig.s < n
    && var inverse := ModInverse(sig.s, n);
    && inverse.Some?
    && Recovered(n, q, e, sig, inverse.value) != 0
    && xOf(Recovered(n, q, e, sig, inverse.value)) % n == sig.r
  }

  /** The signing equation: s times the nonce is e + r*d. */
  lemma SigningEquation(n: nat, d: nat, e: nat, k: nat, r: nat)
    requires Prime(n) && 0 < k < n
    ensures ModInverse(k, n).Some?
    ensures ((((r * d + e) * ModInverse(k, n).value) % n) * k) % n == (e + r * d) % n
  {
    InverseExists(k, n);
    var i := ModInverse(k, n).value;
    var t := r * d + e;
    ReduceLeft(t * i, k, n);
    Cancel(k, i, t, n);
    Rotate(k, t, i);
    CongIsSameRemainder(t * i * k, t, n);
  }

  lemma Rotate(k: int, t: int, i: int)
    ensures k * t * i == t * i * k
  {
  }

  /** What verification recovers is the nonce. */
  lemma RecoversNonce(n: nat, d: nat, e: nat, k: nat, sig: Signature, w: nat)
    requires n > 1 && 0 < k < n
    requires (sig.s * k) % n == (e + sig.r * d) % n
    requires (sig.s * w) % n == 1
    ensures Recovered(n, d, e, sig, w) == k
  {
    SumReduces(n, d, e, sig.r, w);
    FactorOut(e, sig.r, d, w);
    var t := e + sig.r * d;
    // t*w = s*k*w = k
    CongIsSameRemainder(sig.s * k, t, n);
    CongMul(sig.s * k, t, w, n);
    Cancel(sig.s, w, k, n);
    CongSym(sig.s * k * w, t * w, n);
    CongTrans(t * w, sig.s * k * w, k, n);
    CongIsSameRemainder(t * w, k, n);
    SmallRemainder(k, n);
  }

  lemma FactorOut(e: int, r: int, d: int, w: int)
    ensures e * w + (r * w) * d == (e + r * d) * w
  {
    Swap(r, w, d);
  }

  lemma SumReduces(n: nat, d: nat, e: nat, r: nat, w: nat)
    requires n > 1
    ensures ((e * w) % n + ((r * w) % n) * d) % n == (e * w + (r * w) * d) % n
  {
    CongMod(e * w, n);
    CongMod(r * w, n);
    CongMul((r * w) % n, r * w, d, n);
    CongAdd((e * w) % n, e * w, ((r * w) % n) * d, (r * w) * d, n);
    CongIsSameRemainder((e * w) % n + ((r * w) % n) * d, e * w + (r * w) * d, n);
  }

  /** Every signature a nonce gives is in range, satisfies the signing equation and verifies under the matching key. */
  lemma SignatureIsGood(n: nat, d: nat, e: nat, k: nat, xOf: nat -> nat)
    requires Prime(n) && 0 < k < n && SignWith(n, d, e, k, xOf).Some?
    ensures var sig := SignWith(n, d, e, k, xOf).value;
            && 0 < sig.r < n && 0 < sig.s < n
            && (sig.s * k) % n == (e + sig.r * d) % n
            && Verifies(n, d, e, sig, xOf)
  {
    var sig := SignWith(n, d, e, k, xOf).value;
    SigningEquation(n, d, e, k, sig.r);
    InverseExists(sig.s, n);
    RecoversNonce(n, d, e, k, sig, ModInverse(sig.s, n).value);
  }

  /** A nonce gives no signature exactly when r or e + r*d is a multiple of the order. */
  lemma SignsUnlessZero(n: nat, d: nat, e: nat, k: nat, xOf: nat -> nat)
    requires Prime(n) && 0 < k < n
    ensures var r := xOf(k) % n;
            SignWith(n, d, e, k, xOf).None? <==> r == 0 || (e + r * d) % n == 0
  {
    var r := xOf(k) % n;
    InverseExists(k, n);
    if r != 0 {
      var t := r * d + e;
      var i := ModInverse(k, n).value;
      assert t == e + r * d;
      if t % n == 0 {
        ZeroStaysZero(t, i, n);
        CongIsSameRemainder(t * i, 0, n);
      } else {
        assert i % n != 0 by { InverseNotZero(k, i, n); }
        ProductNotZero(t % n, i % n, n);
        ReduceRight(t % n, i, n);
        ReduceLeft(t, i, n);
      }
    }
  }

  lemma InverseNotZero(k: int, i: int, n: int)
    requires n > 1 && (k * i) % n == 1
    ensures i % n != 0
  {
    ReduceRight(k, i, n);
  }

  /** The signature is that of the first nonce to give one, and there is none only if none gives one. */
  lemma {:induction false} FirstSignatureIsFirst(n: nat, d: nat, e: nat, nonces: seq<nat>, xOf: nat -> nat)
    requires n > 1
    ensures var first := FirstSignature(n, d, e, nonces, xOf);
            if first.None? then forall j :: 0 <= j < |nonces| ==> SignWith(n, d, e, nonces[j], xOf).None?
            else exists i :: 0 <= i < |nonces| && SignWith(n, d, e, nonces[i], xOf) == first
                   && forall j :: 0 <= j < i ==> SignWith(n, d, e, nonces[j], xOf).None?
  {
    if nonces != [] {
      var m := |nonces| - 1;
      var init := nonces[..m];
      FirstSignatureIsFirst(n, d, e, init, xOf);
      var first := FirstSignature(n, d, e, init, xOf);
      if first.Some? {
        var i :| 0 <= i < m && SignWith(n, d, e, init[i], xOf) == first
                 && forall j :: 0 <= j < i ==> SignWith(n, d, e, init[j], xOf).None?;
        assert forall j :: 0 <= j <= i ==> nonces[j] == init[j];
      } else {
        assert forall j :: 0 <= j < m ==> nonces[j] == init[j];
      }
    }
  }

  lemma {:induction false} FirstStaysFirst(n: nat, d: nat, e: nat, nonces: seq<nat>, xOf: nat -> nat, i: nat)
    requires n > 1 && i <= |nonces| && FirstSignature(n, d, e, nonces[..i], xOf).Some?
    ensures FirstSignature(n, d, e, nonces, xOf) == FirstSignature(n, d, e, nonces[..i], xOf)
  {
    if i == |nonces| {
      assert nonces[..i] == nonces;
    } else {
      assert nonces[..|nonces| - 1][..i] == nonces[..i];
      FirstStaysFirst(n, d, e, nonces[..|nonces| - 1], xOf, i);
    }
  }

  // ---------- Any cyclic group ----------

  /** gen(j) is j*G: adding points adds exponents, modulo the order. */
  ghost predicate CyclicGroup<P>(add: (P, P) -> P, gen: nat -> P, n: nat) {
    n > 1 && forall i: nat, j: nat :: i < n && j < n ==> add(gen(i), gen(j)) == gen((i + j) % n)
  }

  /** Scalar multiplication as repeated addition. */
  function Scale<P>(add: (P, P) -> P, zero: P, u: nat, p: P): P {
    if u == 0 then zero else add(p, Scale(add, zero, u - 1, p))
  }

  lemma {:induction false} ScaleIsMultiple<P>(add: (P, P) -> P, gen: nat -> P, n: nat, u: nat, d: nat)
    requires CyclicGroup(add, gen, n) && d < n
    ensures Scale(add, gen(0), u, gen(d)) == gen((u * d) % n)
  {
    if u > 0 {
      ScaleIsMultiple(add, gen, n, u - 1, d);
      OneMore(u, d, n);
      CongMod((u - 1) * d, n);
      assert add(gen(d), gen(((u - 1) * d) % n)) == gen((d + ((u - 1) * d) % n) % n);
    } else {
      assert 0 * d == 0;
    }
  }

  lemma OneMore(u: nat, d: nat, n: nat)
    requires n > 1 && u > 0
    ensures (d + ((u - 1) * d) % n) % n == (u * d) % n
  {
    AddReduces(d, (u - 1) * d, n);
    assert u * d == d + (u - 1) * d;
  }

  lemma AddReduces(a: int, b: int, n: int)
    requires n > 1
    ensures (a + b % n) % n == (a + b) % n
  {
    CongMod(b, n);
    CongBy(a, a, n, 0);
    CongAdd(a, a, b % n, b, n);
    CongIsSameRemainder(a + b % n, a + b, n);
  }

  /** The verifier's own computation: u1*G + u2*Q, compared by its x coordinate. */
  ghost predicate GroupVerifies<P>(add: (P, P) -> P, gen: nat -> P, x: P -> nat, n: nat, key: P, e: nat, sig: Signature)
    requires n > 1
  {
    && 0 < sig.r < n && 0 < sig.s < n
    && var inverse := ModInverse(sig.s, n);
    && inverse.Some?
    && var u1, u2 := (e * inverse.value) % n, (sig.r * inverse.value) % n;
    && x(add(Scale(add, gen(0), u1, gen(1)), Scale(add, gen(0), u2, key))) % n == sig.r
  }

  /** A signature made from a nonce verifies in any cyclic group of prime order n, under the key d*G. */
  lemma VerifiesInAnyGroup<P>(add: (P, P) -> P, gen: nat -> P, x: P -> nat, xOf: nat -> nat, n: nat, d: nat, e: nat, k: nat)
    requires Prime(n) && CyclicGroup(add, gen, n) && d < n && 0 < k < n
    requires forall j: nat :: xOf(j) == x(gen(j))
    requires SignWith(n, d, e, k, xOf).Some?
    ensures GroupVerifies(add, gen, x, n, gen(d), e, SignWith(n, d, e, k, xOf).value)
  {
    var sig := SignWith(n, d, e, k, xOf).value;
    SigningEquation(n, d, e, k, sig.r);
    InverseExists(sig.s, n);
    var w := ModInverse(sig.s, n).value;
    RecoversNonce(n, d, e, k, sig, w);
    var u1, u2 := (e * w) % n, (sig.r * w) % n;
    PointIsNonce(add, gen, n, u1, u2, d);
  }

  lemma PointIsNonce<P>(add: (P, P) -> P, gen: nat -> P, n: nat, u1: nat, u2: nat, d: nat)
    requires CyclicGroup(add, gen, n) && d < n && u1 < n
    ensures add(Scale(add, gen(0), u1, gen(1)), Scale(add, gen(0), u2, gen(d))) == gen((u1 + u2 * d) % n)
  {
    ScaleIsMultiple(add, gen, n, u1, 1);
    ScaleIsMultiple(add, gen, n, u2, d);
    SmallRemainder(u1 * 1, n);
    CongMod(u2 * d, n);
    AddReduces(u1, u2 * d, n);
  }
}
