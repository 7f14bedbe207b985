/**
  The providerToken object of srv/apns/http_api/token.go: each method is one critical section of
  the source (token and previousToken are two), proved against the functions of TokenSchedule
  and Probes.
 */
module ProviderTokens {
  import opened Basics
  import opened TokenSchedule
  import opened Probes

  class ProviderToken {
    /** Signs the claims for one bucket, or fails; deterministic, so a function of the bucket. */
    const sign: int -> Option<string>

    var signed: map<int, string>
    var refused: Memo
    var confirmedBucket: Option<int>
    var probes: map<int, Probe>
    var channels: nat
    var closes: seq<nat>

    constructor (sign: int -> Option<string>)
      ensures this.sign == sign && signed == map[] && refused == None && confirmedBucket == None
      ensures ProbeTable() == Table(map[], 0, [])
    {
      this.sign := sign;
      signed, refused, confirmedBucket := map[], None, None;
      probes, channels, closes := map[], 0, [];
    }

    function ProbeTable(): Table
      reads this
    {
      Table(probes, channels, closes)
    }

    /** A cached token is what signing its bucket would give. */
    ghost predicate Valid()
      reads this
    {
      forall b :: b in signed ==> sign(b) == Some(signed[b])
    }

    /** The bucket whose token `token` hands out; a fallback that will not sign is passed over. */
    function Chosen(now: int): int
      reads this
    {
      if sign(SigningBucket(refused, now)).Some? then SigningBucket(refused, now) else IssuedAtBucket(now)
    }

    method Token(now: int) returns (jwt: Option<string>, bucket: int)
      requires Valid()
      modifies this`signed
      ensures Valid()
      ensures bucket == Chosen(now) && jwt == sign(bucket)
      ensures signed == if jwt.Some? then CacheAfter(old(signed), bucket, jwt.value) else old(signed)
    {
      bucket := IssuedAtBucket(now);
      if RefusalLive(refused, bucket, now) {
        var previous, previousBucket := PreviousToken(now);
        if previous.Some? && previous.value.Some? {
          return previous.value, previousBucket;
        }
      }
      jwt := TokenForBucket(bucket);
    }

    /** None where the source returns "", Some(None) where signing fails. */
    method PreviousToken(now: int) returns (jwt: Option<Option<string>>, bucket: int)
      requires Valid()
      modifies this`signed
      ensures Valid()
      ensures jwt.Some? <==> FallbackBucket(refused, now).Some?
      ensures jwt.Some? ==> bucket == FallbackBucket(refused, now).value && jwt.value == sign(bucket)
      ensures signed ==
              if jwt.Some? && jwt.value.Some? then CacheAfter(old(signed), bucket, jwt.value.value) else old(signed)
    {
      bucket := IssuedAtBucket(now) - TOKEN_REFRESH_INTERVAL;
      if now - bucket >= TOKEN_LIFETIME {
        return None, bucket;
      }
      if RefusalLive(refused, bucket, now) {
        return None, bucket;
      }
      var r := TokenForBucket(bucket);
      jwt := Some(r);
    }

    method TokenForBucket(issuedAt: int) returns (jwt: Option<string>)
      requires Valid()
      modifies this`signed
      ensures Valid()
      ensures jwt == sign(issuedAt)
      ensures signed == if jwt.Some? then CacheAfter(old(signed), issuedAt, jwt.value) else old(signed)
    {
      if issuedAt in signed {
        return Some(signed[issuedAt]);
      }
      jwt := sign(issuedAt);
      if jwt.Some? {
        signed := signed[issuedAt := jwt.value];
        PruneExpired(issuedAt);
      }
    }

    method PruneExpired(newest: int)
      modifies this`signed
      ensures signed == Pruned(old(signed), newest)
    {
      var all := signed;
      var todo := signed.Items;
      while todo != {}
        invariant todo <= all.Items
        invariant forall b :: b in signed <==> b in all && ((b, all[b]) in todo || b >= newest - TOKEN_LIFETIME)
        invariant forall b :: b in signed ==> signed[b] == all[b]
      {
        var entry :| entry in todo;
        if entry.0 < newest - TOKEN_LIFETIME {
          signed := signed - {entry.0};
        }
        todo := todo - {entry};
      }
      assert forall b :: b in signed <==> b in Pruned(all, newest);
      IntMapsEqual(signed, Pruned(all, newest));
    }

    method NoteRefused(bucket: int, observedAt: int)
      modifies this`refused
      ensures refused == Some(Refusal(bucket, observedAt))
    {
      refused := Some(Refusal(bucket, observedAt));
    }

    /** Does not touch the refusal memo: see TokenRuns.OneProcessCanStrand. */
    method NoteAccepted(bucket: int)
      modifies this`confirmedBucket
      ensures confirmedBucket == Some(bucket)
    {
      confirmedBucket := Some(bucket);
    }

    method IsConfirmed(bucket: int) returns (confirmed: bool)
      ensures confirmed <==> confirmedBucket == Some(bucket)
    {
      confirmed := confirmedBucket.Some? && confirmedBucket.value == bucket;
    }

    method ClaimProbe(bucket: int, now: int) returns (probing: bool, done: nat)
      modifies this`probes, this`channels
      ensures ProbeTable() == Claim(old(ProbeTable()), bucket, now)
      ensures probing == Wins(old(ProbeTable()), bucket, now)
      ensures done == ClaimChannel(old(ProbeTable()), bucket, now)
    {
      var all := probes;
      var todo := probes.Items;
      while todo != {}
        invariant channels == old(channels) && todo <= all.Items
        invariant forall b :: b in probes <==> b in all && ((b, all[b]) in todo || !Lapsed(all[b], now))
        invariant forall b :: b in probes ==> probes[b] == all[b]
      {
        var entry :| entry in todo;
        if Lapsed(entry.1, now) {
          probes := probes - {entry.0};
        }
        todo := todo - {entry};
      }
      assert forall b :: b in probes <==> b in Retained(all, now);
      IntMapsEqual(probes, Retained(all, now));
      if bucket in probes {
        return false, probes[bucket].channel;
      }
      probes := probes[bucket := Probe(channels, false, 0)];
      probing, done := true, channels;
      channels := channels + 1;
    }

    method FinishProbe(bucket: int, now: int)
      modifies this`probes, this`closes
      ensures ProbeTable() == Finish(old(ProbeTable()), bucket, now)
    {
      if bucket !in probes || probes[bucket].finished {
        return;
      }
      closes := closes + [probes[bucket].channel];
      probes := probes[bucket := probes[bucket].(finished := true, finishedAt := now)];
    }
  }
}
