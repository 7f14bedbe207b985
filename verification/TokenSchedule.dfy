/**
  The provider-token schedule of srv/apns/http_api/token.go.

  Instants and durations are nanoseconds, as in Go's time package; a bucket is named by the
  instant it starts at. Signing is deterministic, so a token is a function of its bucket.
 */
module TokenSchedule {
  import opened Basics

  const SECOND := 1_000_000_000
  const MINUTE := 60_000_000_000
  const TOKEN_LIFETIME := 3_600_000_000_000
  const TOKEN_MINT_FLOOR := 1_200_000_000_000
  const TOKEN_SKEW_MARGIN := 300_000_000_000
  const TOKEN_REFRESH_INTERVAL := 2_100_000_000_000

  /** Go's integer division, which truncates toward zero. */
  function Quotient(a: int, b: int): int
    requires b > 0
  {
    if a >= 0 then a / b else -((-a) / b)
  }

  /** A bucket start: a whole number of refresh intervals from the epoch. */
  predicate Aligned(bucket: int) {
    bucket % 2_100_000_000_000 == 0
  }

  /** Rounds the clock to its bucket: Unix seconds, floored, then a truncating division. */
  function IssuedAtBucket(now: int): int {
    Quotient(now / 1_000_000_000, 2100) * 2100 * 1_000_000_000
  }

  /** From the epoch on, a bucket is the one aligned interval that holds the instant. */
  lemma BucketHoldsInstant(now: int)
    requires 0 <= now
    ensures IssuedAtBucket(now) <= now < IssuedAtBucket(now) + TOKEN_REFRESH_INTERVAL
    ensures Aligned(IssuedAtBucket(now))
  {
    var unix := now / 1_000_000_000;
    assert unix == (unix / 2100) * 2100 + unix % 2100;
    assert IssuedAtBucket(now) == (unix / 2100) * 2_100_000_000_000;
  }

  lemma AlignedIntervalIsUnique(a: int, b: int, now: int)
    requires Aligned(a) && Aligned(b)
    requires a <= now < a + TOKEN_REFRESH_INTERVAL
    requires b <= now < b + TOKEN_REFRESH_INTERVAL
    ensures a == b
  {
  }

  lemma BucketAligned(now: int)
    ensures Aligned(IssuedAtBucket(now))
  {
    var q := Quotient(now / 1_000_000_000, 2100);
    assert IssuedAtBucket(now) == q * 2_100_000_000_000;
  }

  lemma BucketMonotone(a: int, b: int)
    requires a <= b
    ensures IssuedAtBucket(a) <= IssuedAtBucket(b)
  {
    var x, y := a / 1_000_000_000, b / 1_000_000_000;
    assert x <= y;
    assert Quotient(x, 2100) <= Quotient(y, 2100);
  }

  /** Distinct bucket starts are a whole number of intervals apart. */
  lemma AlignedGap(a: int, b: int)
    requires Aligned(a) && Aligned(b)
    requires a < b
    ensures a <= b - TOKEN_REFRESH_INTERVAL
  {
  }

  lemma AlignedPrevious(a: int)
    requires Aligned(a)
    ensures Aligned(a - TOKEN_REFRESH_INTERVAL)
  {
  }

  /** Two bucket starts less than two intervals apart are the same or neighbours. */
  lemma NearIsNeighbour(a: int, b: int)
    requires Aligned(a) && Aligned(b) && a <= b < a + 2 * TOKEN_REFRESH_INTERVAL
    ensures a == b || a == b - TOKEN_REFRESH_INTERVAL
  {
    AlignedPrevious(b);
    if a < b {
      AlignedGap(a, b);
      if a < b - TOKEN_REFRESH_INTERVAL {
        AlignedGap(a, b - TOKEN_REFRESH_INTERVAL);
      }
    }
  }

  // ---------- The refusal memo ----------

  /** The bucket APNs refused with TooManyProviderTokenUpdates, and when the answer came. */
  datatype Refusal = Refusal(bucket: int, at: int)
  type Memo = Option<Refusal>

  predicate RefusalLive(memo: Memo, bucket: int, now: int) {
    memo.Some? && memo.value.bucket == bucket && now - memo.value.at < TOKEN_MINT_FLOOR
  }

  /** The bucket previousToken offers, None where the source returns "". */
  function FallbackBucket(memo: Memo, now: int): Option<int> {
    var previous := IssuedAtBucket(now) - TOKEN_REFRESH_INTERVAL;
    if now - previous >= TOKEN_LIFETIME || RefusalLive(memo, previous, now) then None else Some(previous)
  }

  /** The bucket whose token `token` hands out, when signing works. */
  function SigningBucket(memo: Memo, now: int): int {
    var bucket := IssuedAtBucket(now);
    var fallback := FallbackBucket(memo, now);
    if RefusalLive(memo, bucket, now) && fallback.Some? then fallback.value else bucket
  }

  // ---------- The signed-token cache ----------

  /** pruneExpired: forget buckets older than the lifetime, measured from the bucket just signed. */
  function Pruned(cache: map<int, string>, newest: int): map<int, string> {
    map b | b in cache && b >= newest - TOKEN_LIFETIME :: cache[b]
  }

  /** What tokenForBucket leaves in the cache, when signing the bucket gives jwt. */
  function CacheAfter(cache: map<int, string>, bucket: int, jwt: string): map<int, string> {
    if bucket in cache then cache else Pruned(cache[bucket := jwt], bucket)
  }

  /** One call on a providerToken; the memo is whatever it was at that moment. */
  datatype Call = CallToken(now: int, memo: Memo) | CallPrevious(now: int, memo: Memo) {
    /** The bucket the call looks up, if it looks one up at all. */
    function Asked(): Option<int> {
      match this
      case CallToken(now, memo) => Some(SigningBucket(memo, now))
      case CallPrevious(now, memo) => FallbackBucket(memo, now)
    }
  }

  /** The cache together with the buckets signed so far, in order. */
  datatype Signing = Signing(cache: map<int, string>, signatures: seq<int>)

  function Serve(s: Signing, sign: int -> string, call: Call): Signing {
    match call.Asked()
    case None => s
    case Some(b) =>
      if b in s.cache then s
      else Signing(CacheAfter(s.cache, b, sign(b)), s.signatures + [b])
  }

  function ServeAll(sign: int -> string, calls: seq<Call>): Signing {
    if calls == [] then Signing(map[], []) else
    Serve(ServeAll(sign, calls[..|calls| - 1]), sign, calls[|calls| - 1])
  }

  predicate Nondecreasing(calls: seq<Call>) {
    forall i, j :: 0 <= i < j < |calls| ==> calls[i].now <= calls[j].now
  }

  /** What holds of the cache once the latest call fell in bucket cur. */
  ghost predicate CacheInv(s: Signing, sign: int -> string, cur: int) {
    && (forall b :: b in s.cache ==> Aligned(b) && b <= cur && s.cache[b] == sign(b))
    && (forall a, b :: a in s.cache && b in s.cache ==> a - b <= TOKEN_REFRESH_INTERVAL)
    && (forall b :: b in s.signatures ==> b in s.cache || b < cur - TOKEN_REFRESH_INTERVAL)
    && Distinct(s.signatures)
  }

  lemma AskedIsCurrentOrPrevious(call: Call)
    ensures var b := IssuedAtBucket(call.now);
            call.Asked().Some? ==> call.Asked().value == b || call.Asked().value == b - TOKEN_REFRESH_INTERVAL
    ensures Aligned(IssuedAtBucket(call.now))
  {
    BucketAligned(call.now);
  }

  /** Signing bucket b leaves only its neighbours in the cache. */
  lemma SigningKeepsNeighbours(cache: map<int, string>, b: int, jwt: string)
    requires b !in cache && Aligned(b)
    requires forall a :: a in cache ==> Aligned(a)
    ensures var c := CacheAfter(cache, b, jwt);
            && b in c && c[b] == jwt
            && (forall a :: a in c && a != b ==> a in cache && c[a] == cache[a] && b - a <= TOKEN_REFRESH_INTERVAL)
            && (forall a :: a in cache && a !in c ==> a < b - TOKEN_REFRESH_INTERVAL)
  {
    forall a | a in cache && a >= b - TOKEN_LIFETIME && a < b - TOKEN_REFRESH_INTERVAL ensures false {
      AlignedGap(a, b - TOKEN_REFRESH_INTERVAL);
    }
  }

  lemma ServeKeepsInv(s: Signing, sign: int -> string, cur: int, call: Call)
    requires CacheInv(s, sign, cur) && cur <= IssuedAtBucket(call.now)
    ensures CacheInv(Serve(s, sign, call), sign, IssuedAtBucket(call.now))
  {
    var cur', asked := IssuedAtBucket(call.now), call.Asked();
    AskedIsCurrentOrPrevious(call);
    if asked.Some? && asked.value !in s.cache {
      ServeNewKeepsInv(s, sign, cur, cur', asked.value);
    }
  }

  lemma ServeNewKeepsInv(s: Signing, sign: int -> string, cur: int, cur': int, b: int)
    requires CacheInv(s, sign, cur) && cur <= cur' && Aligned(cur')
    requires b !in s.cache && (b == cur' || b == cur' - TOKEN_REFRESH_INTERVAL)
    ensures CacheInv(Signing(CacheAfter(s.cache, b, sign(b)), s.signatures + [b]), sign, cur')
  {
    SigningKeepsNeighbours(s.cache, b, sign(b));
  }

  lemma {:induction false} ServeAllInv(sign: int -> string, calls: seq<Call>)
    requires Nondecreasing(calls)
    ensures calls != [] ==> CacheInv(ServeAll(sign, calls), sign, IssuedAtBucket(calls[|calls| - 1].now))
  {
    if calls != [] {
      var init, last := calls[..|calls| - 1], calls[|calls| - 1];
      if init != [] {
        ServeAllInv(sign, init);
        BucketMonotone(init[|init| - 1].now, last.now);
        ServeKeepsInv(ServeAll(sign, init), sign, IssuedAtBucket(init[|init| - 1].now), last);
      } else {
        ServeKeepsInv(Signing(map[], []), sign, IssuedAtBucket(last.now), last);
      }
    }
  }

  lemma CloseBucketsAreTwo(keys: set<int>)
    requires forall b :: b in keys ==> Aligned(b)
    requires forall a, b :: a in keys && b in keys ==> a - b <= TOKEN_REFRESH_INTERVAL
    ensures |keys| <= 2
  {
    if forall a :: a !in keys {
      assert keys == {};
    } else {
      var a :| a in keys;
      var low, high := a - TOKEN_REFRESH_INTERVAL, a + TOKEN_REFRESH_INTERVAL;
      forall b | b in keys && b != a ensures b == low || b == high {
        if b < a { AlignedGap(b, a); } else { AlignedGap(a, b); }
      }
      if low in keys {
        AtMostTwo(keys, low, a);
      } else {
        AtMostTwo(keys, a, high);
      }
    }
  }

  /**
    Over every sequence of token and previousToken calls with a clock that does not go back:
    no bucket is signed twice, at most two tokens are held, a held token is what signing its
    bucket afresh would give, and the token the latest call asked for is held.
   */
  lemma {:induction false} SignsOncePerBucket(sign: int -> string, calls: seq<Call>)
    requires Nondecreasing(calls)
    ensures var s := ServeAll(sign, calls);
            && Distinct(s.signatures)
            && |s.cache| <= 2
            && (forall b :: b in s.cache ==> s.cache[b] == sign(b))
    ensures calls != [] && calls[|calls| - 1].Asked().Some? ==>
              calls[|calls| - 1].Asked().value in ServeAll(sign, calls).cache
  {
    ServeAllInv(sign, calls);
    if calls != [] {
      CloseBucketsAreTwo(ServeAll(sign, calls).cache.Keys);
      LatestIsHeld(ServeAll(sign, calls[..|calls| - 1]), sign, calls[|calls| - 1]);
    }
  }

  lemma LatestIsHeld(s: Signing, sign: int -> string, call: Call)
    ensures call.Asked().Some? ==> call.Asked().value in Serve(s, sign, call).cache
  {
  }

  lemma AtMostTwo(s: set<int>, a: int, b: int)
    requires s <= {a, b}
    ensures |s| <= 2
  {
    var rest := {a, b} - s;
    assert s + rest == {a, b} && s * rest == {};
    assert |{a, b}| <= 2;
    assert |s + rest| == |s| + |rest|;
  }
}
