/**
  One probe per bucket: claimProbe and finishProbe of srv/apns/http_api/token.go.

  A channel is a number; closing one appends it to the log of closes, so a channel closed
  twice (which panics in Go) would appear twice.
 */
module Probes {
  import opened Basics
  import opened TokenSchedule

  datatype Probe = Probe(channel: nat, finished: bool, finishedAt: int)

  datatype Table = Table(probes: map<int, Probe>, channels: nat, closes: seq<nat>)

  predicate Lapsed(probe: Probe, now: int) {
    probe.finished && now - probe.finishedAt >= TOKEN_MINT_FLOOR
  }

  /** claimProbe first drops the records whose retention has lapsed. */
  function Retained(probes: map<int, Probe>, now: int): map<int, Probe> {
    map b | b in probes && !Lapsed(probes[b], now) :: probes[b]
  }

  predicate Wins(t: Table, bucket: int, now: int) {
    bucket !in Retained(t.probes, now)
  }

  function Claim(t: Table, bucket: int, now: int): Table {
    var kept := Retained(t.probes, now);
    if bucket in kept then t.(probes := kept)
    else Table(kept[bucket := Probe(t.channels, false, 0)], t.channels + 1, t.closes)
  }

  /** The channel a claim hands back, to the prober and to those who wait for it. */
  function ClaimChannel(t: Table, bucket: int, now: int): nat {
    var kept := Retained(t.probes, now);
    if bucket in kept then kept[bucket].channel else t.channels
  }

  predicate Finishes(t: Table, bucket: int) {
    bucket in t.probes && !t.probes[bucket].finished
  }

  function Finish(t: Table, bucket: int, now: int): Table {
    if !Finishes(t, bucket) then t
    else t.(probes := t.probes[bucket := t.probes[bucket].(finished := true, finishedAt := now)],
            closes := t.closes + [t.probes[bucket].channel])
  }

  // ---------- Histories ----------

  datatype Event = Claimed(bucket: int, now: int) | Finished(bucket: int, now: int)

  function After(events: seq<Event>): Table {
    if events == [] then Table(map[], 0, []) else
    var t := After(events[..|events| - 1]);
    match events[|events| - 1]
    case Claimed(b, now) => Claim(t, b, now)
    case Finished(b, now) => Finish(t, b, now)
  }

  predicate Nondecreasing(events: seq<Event>) {
    forall i, j :: 0 <= i < j < |events| ==> events[i].now <= events[j].now
  }

  /** Event i is a claim that made its caller the prober of the bucket. */
  predicate Won(events: seq<Event>, i: nat, bucket: int)
    requires i < |events|
  {
    events[i].Claimed? && events[i].bucket == bucket && Wins(After(events[..i]), bucket, events[i].now)
  }

  /** Event k finished the probe then open on the bucket. */
  predicate Ended(events: seq<Event>, k: nat, bucket: int)
    requires k < |events|
  {
    events[k].Finished? && events[k].bucket == bucket && Finishes(After(events[..k]), bucket)
  }

  /** After a won claim: still open, or ended by event k whose record lives until the floor has passed. */
  ghost predicate OpenOrEnded(events: seq<Event>, i: nat, bucket: int) {
    var t := After(events);
    || Finishes(t, bucket)
    || exists k :: i < k < |events| && Ended(events, k, bucket) &&
         if bucket in t.probes then t.probes[bucket].finished && t.probes[bucket].finishedAt == events[k].now
         else events[|events| - 1].now - events[k].now >= TOKEN_MINT_FLOOR
  }

  /** The latest win before an event is either still open or was ended in between. */
  lemma {:induction false} WinStaysUntilEnded(events: seq<Event>, i: nat, bucket: int)
    requires i < |events| && Nondecreasing(events) && Won(events, i, bucket)
    requires forall m :: i < m < |events| ==> !Won(events, m, bucket)
    ensures OpenOrEnded(events, i, bucket)
  {
    var n := |events| - 1;
    var init, last := events[..n], events[n];
    if i < n {
      assert forall m :: i <= m < n ==> init[..m] == events[..m];
      assert Won(init, i, bucket);
      assert forall m :: i < m < n ==> Won(init, m, bucket) == Won(events, m, bucket);
      WinStaysUntilEnded(init, i, bucket);
      StepKeepsOpenOrEnded(events, i, bucket);
    }
  }

  lemma StepKeepsOpenOrEnded(events: seq<Event>, i: nat, bucket: int)
    requires i < |events| - 1 && Nondecreasing(events)
    requires OpenOrEnded(events[..|events| - 1], i, bucket)
    requires !Won(events, |events| - 1, bucket)
    ensures OpenOrEnded(events, i, bucket)
  {
    var n := |events| - 1;
    var init, last := events[..n], events[n];
    var t := After(init);
    if Finishes(t, bucket) {
      if last.Finished? && last.bucket == bucket {
        assert Ended(events, n, bucket);
      }
    } else {
      var k :| i < k < |init| && Ended(init, k, bucket) &&
        if bucket in t.probes then t.probes[bucket].finished && t.probes[bucket].finishedAt == init[k].now
        else init[|init| - 1].now - init[k].now >= TOKEN_MINT_FLOOR;
      assert init[..k] == events[..k];
      assert Ended(events, k, bucket);
    }
  }

  /** Two wins of one bucket are separated by an end at least 20 minutes before the second. */
  lemma {:induction false} WinsAreSeparated(events: seq<Event>, i: nat, j: nat, bucket: int)
    requires i < j < |events| && Nondecreasing(events)
    requires Won(events, i, bucket) && Won(events, j, bucket)
    ensures exists k :: i < k < j && Ended(events, k, bucket) && events[j].now - events[k].now >= TOKEN_MINT_FLOOR
    decreases j - i
  {
    if m :| i < m < j && Won(events, m, bucket) {
      WinsAreSeparated(events, m, j, bucket);
    } else {
      var before := events[..j];
      assert forall m :: i <= m < j ==> before[..m] == events[..m];
      assert Won(before, i, bucket);
      assert forall m :: i < m < j ==> Won(before, m, bucket) == Won(events, m, bucket);
      WinStaysUntilEnded(before, i, bucket);
      var t := After(before);
      assert !Finishes(t, bucket);
      var k :| i < k < j && Ended(before, k, bucket) &&
        if bucket in t.probes then t.probes[bucket].finished && t.probes[bucket].finishedAt == before[k].now
        else before[j - 1].now - before[k].now >= TOKEN_MINT_FLOOR;
      assert before[..k] == events[..k];
      assert Ended(events, k, bucket);
    }
  }

  /** An unfinished probe is never pruned: until its own end it keeps its record and its channel. */
  lemma {:induction false} UnfinishedIsNeverPruned(events: seq<Event>, i: nat, bucket: int)
    requires i < |events| && Won(events, i, bucket)
    requires forall k :: i < k < |events| ==> !Ended(events, k, bucket)
    ensures Finishes(After(events), bucket)
    ensures After(events).probes[bucket].channel == ClaimChannel(After(events[..i]), bucket, events[i].now)
  {
    var n := |events| - 1;
    if i < n {
      var init := events[..n];
      assert forall m :: i <= m < n ==> init[..m] == events[..m];
      assert forall k :: i < k < n ==> Ended(init, k, bucket) == Ended(events, k, bucket);
      UnfinishedIsNeverPruned(init, i, bucket);
      assert !Ended(events, n, bucket);
    }
  }

  // ---------- Whose channel, and who wins ----------

  /** Event i is the latest win of the bucket. */
  ghost predicate LatestWin(events: seq<Event>, i: nat, bucket: int) {
    i < |events| && Won(events, i, bucket) && forall m :: i < m < |events| ==> !Won(events, m, bucket)
  }

  lemma WonBefore(events: seq<Event>, i: nat, bucket: int)
    requires i < |events| - 1
    ensures Won(events[..|events| - 1], i, bucket) == Won(events, i, bucket)
    ensures Ended(events[..|events| - 1], i, bucket) == Ended(events, i, bucket)
  {
    assert events[..|events| - 1][..i] == events[..i];
  }

  /** A record is that of the latest win, and is finished exactly if an event has ended it since, at the time of that event. */
  lemma {:induction false} RecordIsLatestWin(events: seq<Event>, bucket: int) returns (i: nat)
    requires bucket in After(events).probes
    ensures LatestWin(events, i, bucket)
    ensures After(events).probes[bucket].channel == ClaimChannel(After(events[..i]), bucket, events[i].now)
    ensures After(events).probes[bucket].finished <==> exists k :: i < k < |events| && Ended(events, k, bucket)
    ensures forall k :: i < k < |events| && Ended(events, k, bucket) ==> After(events).probes[bucket].finishedAt == events[k].now
  {
    var n := |events| - 1;
    var init := events[..n];
    if Won(events, n, bucket) {
      i := n;
    } else {
      i := RecordIsLatestWin(init, bucket);
      assert init[..i] == events[..i];
      RecordKept(events, i, bucket);
    }
  }

  /** One more event that does not win the bucket again. */
  lemma RecordKept(events: seq<Event>, i: nat, bucket: int)
    requires i < |events| - 1 && !Won(events, |events| - 1, bucket)
    requires bucket in After(events).probes && bucket in After(events[..|events| - 1]).probes
    requires var init := events[..|events| - 1];
             && LatestWin(init, i, bucket)
             && (After(init).probes[bucket].finished <==> exists k :: i < k < |init| && Ended(init, k, bucket))
             && (forall k :: i < k < |init| && Ended(init, k, bucket) ==> After(init).probes[bucket].finishedAt == init[k].now)
    ensures LatestWin(events, i, bucket)
    ensures After(events).probes[bucket].channel == After(events[..|events| - 1]).probes[bucket].channel
    ensures After(events).probes[bucket].finished <==> exists k :: i < k < |events| && Ended(events, k, bucket)
    ensures forall k :: i < k < |events| && Ended(events, k, bucket) ==> After(events).probes[bucket].finishedAt == events[k].now
  {
    var n := |events| - 1;
    var init := events[..n];
    forall m: nat | m < n ensures Won(init, m, bucket) == Won(events, m, bucket) && Ended(init, m, bucket) == Ended(events, m, bucket) {
      WonBefore(events, m, bucket);
    }
    var was, now := After(init).probes[bucket], After(events).probes[bucket];
    assert events[..n] == init;
    assert now.finished <==> was.finished || Ended(events, n, bucket);
    assert was.finished ==> now == was;
    if k :| i < k < n && Ended(init, k, bucket) {
      assert Ended(events, k, bucket);
    }
  }

  /** In every history, a caller that does not get to probe waits on the channel of the latest caller that did. */
  lemma LoserWaitsForTheProber(events: seq<Event>, j: nat, bucket: int) returns (i: nat)
    requires j < |events| && events[j].Claimed? && events[j].bucket == bucket && !Won(events, j, bucket)
    ensures i < j && LatestWin(events[..j], i, bucket)
    ensures ClaimChannel(After(events[..j]), bucket, events[j].now) == ClaimChannel(After(events[..j][..i]), bucket, events[i].now)
  {
    i := RecordIsLatestWin(events[..j], bucket);
  }

  /** In every history with a clock that does not go back, a claim wins exactly when every earlier win of the bucket was ended at least 20 minutes before. */
  lemma ClaimWinsExactly(events: seq<Event>, j: nat, bucket: int)
    requires j < |events| && Nondecreasing(events) && events[j].Claimed? && events[j].bucket == bucket
    ensures Won(events, j, bucket) <==>
              forall i: nat :: i < j && Won(events, i, bucket) ==>
                exists k :: i < k < j && Ended(events, k, bucket) && events[j].now - events[k].now >= TOKEN_MINT_FLOOR
  {
    if Won(events, j, bucket) {
      forall i: nat | i < j && Won(events, i, bucket)
        ensures exists k :: i < k < j && Ended(events, k, bucket) && events[j].now - events[k].now >= TOKEN_MINT_FLOOR
      {
        WinsAreSeparated(events, i, j, bucket);
      }
    } else {
      var before := events[..j];
      var i := RecordIsLatestWin(before, bucket);
      assert before[..i] == events[..i];
      assert Won(events, i, bucket);
      forall k | i < k < j && Ended(events, k, bucket) ensures events[j].now - events[k].now < TOKEN_MINT_FLOOR {
        assert before[..k] == events[..k];
        assert Ended(before, k, bucket);
      }
    }
  }

  /** In every history, ending a probe closes the channel its waiters have. */
  lemma EndCloses(events: seq<Event>, k: nat, bucket: int)
    requires k < |events| && Ended(events, k, bucket)
    ensures After(events[..k]).probes[bucket].channel in After(events[..k + 1]).closes
  {
    assert events[..k + 1][..k] == events[..k];
  }

  ghost predicate ChannelInv(t: Table) {
    && (forall b :: b in t.probes ==> t.probes[b].channel < t.channels)
    && (forall a, b :: a in t.probes && b in t.probes && t.probes[a].channel == t.probes[b].channel ==> a == b)
    && (forall b :: b in t.probes ==> (t.probes[b].channel in t.closes <==> t.probes[b].finished))
    && (forall c :: c in t.closes ==> c < t.channels)
    && Distinct(t.closes)
  }

  /** Some record still points at the channel, so someone can still close it. */
  ghost predicate Held(t: Table, channel: nat) {
    exists b :: b in t.probes && t.probes[b].channel == channel
  }

  lemma ClaimKeepsChannelInv(t: Table, bucket: int, now: int)
    requires ChannelInv(t)
    ensures ChannelInv(Claim(t, bucket, now))
  {
  }

  lemma FinishKeepsChannelInv(t: Table, bucket: int, now: int)
    requires ChannelInv(t)
    ensures ChannelInv(Finish(t, bucket, now))
  {
  }

  /**
    In every history a channel is closed at most once, a recorded probe's channel is closed
    exactly when the probe is finished, and a channel no record holds any more is closed.
   */
  lemma {:induction false} ChannelsCloseOnce(events: seq<Event>)
    ensures ChannelInv(After(events))
    ensures forall c: nat :: c < After(events).channels && c !in After(events).closes ==> Held(After(events), c)
  {
    if events != [] {
      var init, last := events[..|events| - 1], events[|events| - 1];
      ChannelsCloseOnce(init);
      var t, t' := After(init), After(events);
      if last.Claimed? {
        ClaimKeepsChannelInv(t, last.bucket, last.now);
      } else {
        FinishKeepsChannelInv(t, last.bucket, last.now);
      }
      forall c: nat | c < t'.channels && c !in t'.closes
        ensures Held(t', c)
      {
        if c == t.channels {
          assert last.bucket in t'.probes;
        } else {
          assert Held(t, c);
          var b :| b in t.probes && t.probes[b].channel == c;
          assert b in t'.probes && t'.probes[b].channel == c;
        }
      }
    }
  }
}
