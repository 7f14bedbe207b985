/**
  The retry chain of one notification: fixRetryError of pushbackend.go, called again with twice
  the wait for as long as the push service keeps answering with a retryable error. What delay
  the service asks for is up to the service, negative and huge values included.
 */
module RetryChain {
  import opened TokenSchedule

  const MAX_REQUESTED_RETRY_DELAY := 30 * MINUTE

  datatype Verdict = Ignored | Abandoned | RetryAfter(wait: int)

  function Cap(requested: int): int {
    if requested > MAX_REQUESTED_RETRY_DELAY then MAX_REQUESTED_RETRY_DELAY else requested
  }

  /** fixRetryError; sendable: the error carries the provider, the device and the content. */
  method FixRetryError(sendable: bool, after0: int, requested0: int) returns (v: Verdict)
    ensures !sendable ==> v == Ignored
    ensures sendable ==> v == Decide(after0, requested0)
  {
    if !sendable {
      return Ignored;
    }
    var after, requested := after0, requested0;
    if requested > MAX_REQUESTED_RETRY_DELAY {
      requested := MAX_REQUESTED_RETRY_DELAY;
    }
    if requested > after {
      after := requested;
    }
    if after <= 1 * SECOND {
      after := 5 * SECOND;
    }
    var ceiling := 1 * MINUTE;
    if requested > ceiling {
      ceiling := requested;
    }
    if after > ceiling {
      return Abandoned;
    }
    return RetryAfter(after);
  }

  /** The wait is the larger of the backoff and the capped request, and at most a minute or the request. */
  function Decide(after: int, requested: int): Verdict {
    var larger := if Cap(requested) > after then Cap(requested) else after;
    var wait := if larger <= SECOND then 5 * SECOND else larger;
    if wait <= MINUTE || wait <= Cap(requested) then RetryAfter(wait) else Abandoned
  }

  /** The waits of a chain that stands at a backoff, for the delays asked for from here on; it ends early if a push is not retryable. */
  function Waits(after: int, requests: seq<int>): seq<int>
    decreases |requests|
  {
    if requests == [] then [] else
    match Decide(after, requests[0])
    case RetryAfter(wait) => [wait] + Waits(2 * wait, requests[1..])
    case _ => []
  }

  function Sum(s: seq<int>): int {
    if s == [] then 0 else s[0] + Sum(s[1..])
  }

  function Pow2(n: nat): nat {
    if n == 0 then 1 else 2 * Pow2(n - 1)
  }

  /** A backoff that can double only k more times before it passes the cap allows at most k more waits. */
  lemma {:induction false} FewWaitsLeft(after: int, requests: seq<int>, k: nat)
    requires k <= 11 && after >= Pow2(11 - k) * (SECOND + 1)
    ensures |Waits(after, requests)| <= k
    decreases |requests|
  {
    if requests != [] {
      var v := Decide(after, requests[0]);
      if k == 0 {
        assert Pow2(11) == 2048 by { assert Pow2(8) == 256; assert Pow2(9) == 512; assert Pow2(10) == 1024; }
      } else if v.RetryAfter? {
        assert Pow2(12 - k) == 2 * Pow2(11 - k);
        FewWaitsLeft(2 * v.wait, requests[1..], k - 1);
      }
    }
  }

  lemma {:induction false} WaitsGrow(after: int, requests: seq<int>)
    requires 0 <= after
    ensures var ws := Waits(after, requests);
            && |ws| <= |requests|
            && (ws != [] ==> ws[0] >= after && ws[0] > SECOND)
            && (forall i :: 0 <= i < |ws| - 1 ==> 2 * ws[i] <= ws[i + 1])
            && (forall i :: 0 <= i < |ws| ==> Cap(requests[i]) <= ws[i] <= MAX_REQUESTED_RETRY_DELAY)
    decreases |requests|
  {
    if requests != [] {
      var v := Decide(after, requests[0]);
      if v.RetryAfter? {
        WaitsGrow(2 * v.wait, requests[1..]);
      }
    }
  }

  lemma {:induction false} WaitsAddUp(after: int, requests: seq<int>)
    requires 0 <= after
    ensures var ws := Waits(after, requests);
            ws != [] ==> Sum(ws) <= 2 * MAX_REQUESTED_RETRY_DELAY - ws[0]
    decreases |requests|
  {
    WaitsGrow(after, requests);
    if requests != [] {
      var v := Decide(after, requests[0]);
      if v.RetryAfter? {
        var rest := Waits(2 * v.wait, requests[1..]);
        assert Waits(after, requests)[1..] == rest;
        WaitsAddUp(2 * v.wait, requests[1..]);
        WaitsGrow(2 * v.wait, requests[1..]);
      }
    }
  }

  /**
    Whatever delays are asked for, a notification is retried at most 11 times and waits less than
    an hour in all; each wait is at least twice the one before, never shorter than the delay asked
    for capped at 30 minutes, and never longer than 30 minutes.
   */
  lemma ChainIsBounded(requests: seq<int>)
    ensures var ws := Waits(0, requests);
            && |ws| <= 11
            && Sum(ws) < 60 * MINUTE
            && (forall i :: 0 <= i < |ws| - 1 ==> 2 * ws[i] <= ws[i + 1])
            && |ws| <= |requests|
            && (forall i :: 0 <= i < |ws| ==> Cap(requests[i]) <= ws[i] <= MAX_REQUESTED_RETRY_DELAY)
  {
    WaitsGrow(0, requests);
    WaitsAddUp(0, requests);
    if requests != [] {
      var v := Decide(0, requests[0]);
      if v.RetryAfter? {
        assert Pow2(1) == 2;
        FewWaitsLeft(2 * v.wait, requests[1..], 10);
      }
    }
  }

  /** The backoff a chain stands at after so many waits. */
  function Backoff(after: int, ws: seq<int>, i: nat): int
    requires i <= |ws|
  {
    if i == 0 then after else 2 * ws[i - 1]
  }

  /** What a retry waits: the larger of the backoff and the delay asked for, capped. */
  predicate WaitsRight(backoff: int, requested: int, wait: int) {
    wait == Larger(backoff, Cap(requested)) && (wait <= MINUTE || wait <= Cap(requested))
  }

  predicate GivesUp(backoff: int, requested: int) {
    Larger(backoff, Cap(requested)) > MINUTE && Larger(backoff, Cap(requested)) > Cap(requested)
  }

  /** A chain that stands at a backoff over a second: what its waits are and when it ends. */
  ghost predicate Exactly(after: int, requests: seq<int>, ws: seq<int>) {
    && |ws| <= |requests|
    && (forall i {:trigger Backoff(after, ws, i)} :: 0 <= i < |ws| ==> WaitsRight(Backoff(after, ws, i), requests[i], ws[i]))
    && (|ws| < |requests| ==> GivesUp(Backoff(after, ws, |ws|), requests[|ws|]))
  }

  function Larger(a: int, b: int): int {
    if a >= b then a else b
  }

  lemma {:induction false} WaitsAreExact(after: int, requests: seq<int>)
    requires after > SECOND
    ensures Exactly(after, requests, Waits(after, requests))
    decreases |requests|
  {
    if requests != [] {
      var v := Decide(after, requests[0]);
      if v.RetryAfter? {
        WaitsAreExact(2 * v.wait, requests[1..]);
        OneWaitMore(after, requests, Waits(2 * v.wait, requests[1..]), v.wait);
      }
    }
  }

  lemma OneWaitMore(after: int, requests: seq<int>, rest: seq<int>, wait: int)
    requires requests != [] && Exactly(2 * wait, requests[1..], rest) && WaitsRight(after, requests[0], wait)
    ensures Exactly(after, requests, [wait] + rest)
  {
    var ws := [wait] + rest;
    forall i | 0 <= i < |ws| ensures WaitsRight(Backoff(after, ws, i), requests[i], ws[i]) {
      if i > 0 {
        LaterWait(after, requests, rest, wait, i - 1);
      }
    }
    BackoffShifts(after, rest, wait, |rest|);
  }

  lemma LaterWait(after: int, requests: seq<int>, rest: seq<int>, wait: int, j: nat)
    requires requests != [] && j < |rest| < |requests| && WaitsRight(Backoff(2 * wait, rest, j), requests[1..][j], rest[j])
    ensures WaitsRight(Backoff(after, [wait] + rest, j + 1), requests[j + 1], ([wait] + rest)[j + 1])
  {
    BackoffShifts(after, rest, wait, j);
  }

  lemma BackoffShifts(after: int, rest: seq<int>, wait: int, j: nat)
    requires j <= |rest|
    ensures Backoff(after, [wait] + rest, j + 1) == Backoff(2 * wait, rest, j)
  {
  }

  /**
    Whatever delays are asked for: the first wait is the delay asked for, capped, if that is over a
    second and 5 seconds otherwise; each later one is the larger of twice the last and the delay
    asked for, capped; and a notification is dropped while it still fails exactly when that is
    over both a minute and the delay asked for.
   */
  lemma ChainIsExact(requests: seq<int>)
    requires requests != []
    ensures var ws := Waits(0, requests);
            && ws != [] && ws[0] == (if Cap(requests[0]) > SECOND then Cap(requests[0]) else 5 * SECOND)
            && Exactly(2 * ws[0], requests[1..], ws[1..])
  {
    var v := Decide(0, requests[0]);
    WaitsAreExact(2 * v.wait, requests[1..]);
  }

  /** With no delay asked for, the waits are 5, 10, 20 and 40 seconds and the next failure drops the notification. */
  lemma DefaultSchedule(requests: seq<int>)
    requires |requests| >= 5 && forall i :: 0 <= i < |requests| ==> requests[i] <= 0
    ensures Waits(0, requests) == [5 * SECOND, 10 * SECOND, 20 * SECOND, 40 * SECOND]
  {
    LastTwoUnasked(requests);
    Unasked(10 * SECOND, requests, 1);
    Unasked(0, requests, 0);
    assert requests[0..] == requests;
  }

  lemma LastTwoUnasked(requests: seq<int>)
    requires |requests| >= 5 && forall i :: 0 <= i < |requests| ==> requests[i] <= 0
    ensures Waits(20 * SECOND, requests[2..]) == [20 * SECOND, 40 * SECOND]
  {
    Unasked(80 * SECOND, requests, 4);
    Unasked(40 * SECOND, requests, 3);
    Unasked(20 * SECOND, requests, 2);
  }

  /** One failure with no delay asked for. */
  lemma Unasked(after: int, requests: seq<int>, i: nat)
    requires i < |requests| && requests[i] <= 0 && after >= 0
    ensures var wait := if after <= SECOND then 5 * SECOND else after;
            Waits(after, requests[i..]) == if wait > MINUTE then [] else [wait] + Waits(2 * wait, requests[i + 1..])
  {
    assert requests[i..][1..] == requests[i + 1..];
  }

  /** The bound is met: a service that asks for just over a second and then keeps raising the ceiling gets all 11. */
  lemma ElevenRetriesHappen() returns (requests: seq<int>)
    ensures |Waits(0, requests)| == 11
  {
    assert Pow2(9) == 512 by { assert Pow2(6) == 64; }
    var rest := RaiseTheCeiling(10, 2 * (SECOND + 1));
    requests := [SECOND + 1] + rest;
    assert requests[1..] == rest;
  }

  /** Asking for exactly the backoff keeps the chain going as long as the cap allows. */
  lemma {:induction false} RaiseTheCeiling(k: nat, after: int) returns (requests: seq<int>)
    requires SECOND < after && k <= 10 && (k > 0 ==> after * Pow2(k - 1) <= MAX_REQUESTED_RETRY_DELAY)
    ensures |Waits(after, requests)| == k
  {
    if k == 0 {
      return [];
    }
    if k > 1 {
      assert after * Pow2(k - 1) == 2 * after * Pow2(k - 2);
    }
    assert after <= MAX_REQUESTED_RETRY_DELAY by { PowPositive(k - 1, after); }
    var rest := RaiseTheCeiling(k - 1, 2 * after);
    requests := [after] + rest;
    assert requests[1..] == rest;
  }

  lemma PowPositive(n: nat, x: int)
    requires x > 0
    ensures x <= x * Pow2(n)
  {
  }
}
