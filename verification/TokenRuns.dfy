/**
  Whole runs of the provider-token scheme: any number of processes sharing one signing key and
  one clock, against APNs's mint floor and token expiry.

  APNs is the repository's own statement of its rules (srv/apns/apnstest/auth.go). A batch
  resolves its tokens and then sends its devices one request at a time; batches of all
  processes interleave freely, and any time passes between resolving and sending, bucket
  boundaries included. A request and its answer happen at one instant. A token is named by
  its bucket.
 */
module TokenRuns {
  import opened Basics
  import opened TokenSchedule

  // ---------- APNs ----------

  datatype Apns = Apns(seen: set<int>, lastMint: Option<int>)

  datatype Answer = Admitted | TooManyTokenUpdates | ExpiredToken

  predicate FloorRunning(apns: Apns, now: int) {
    apns.lastMint.Some? && now - apns.lastMint.value < TOKEN_MINT_FLOOR
  }

  function Judge(apns: Apns, bucket: int, now: int): Answer {
    if now - bucket > TOKEN_LIFETIME then ExpiredToken
    else if bucket in apns.seen then Admitted
    else if FloorRunning(apns, now) then TooManyTokenUpdates
    else Admitted
  }

  /** A token APNs admits without having seen it is a mint, dated by APNs's own clock. */
  function Record(apns: Apns, bucket: int, now: int): Apns {
    if Judge(apns, bucket, now) == Admitted && bucket !in apns.seen
    then Apns(apns.seen + {bucket}, Some(now))
    else apns
  }

  // ---------- One device of one batch ----------

  /** What resolveTokens leaves a batch with; at is when it ran and memo the refusal memo it read. */
  datatype Plan = Plan(process: nat, at: int, memo: Memo, signing: int, fallback: Option<int>)

  function ResolveTokens(process: nat, memo: Memo, now: int): Plan {
    var signing := SigningBucket(memo, now);
    var fallback := FallbackBucket(memo, now);
    Plan(process, now, memo, signing, if fallback == Some(signing) then None else fallback)
  }

  /** The answers one device drew: the first request, and the retry with the fallback token if there was one. */
  datatype Delivery = Delivery(first: Answer, retry: Option<Answer>) {
    predicate Authenticated() {
      (if retry.Some? then retry.value else first) == Admitted
    }
  }

  datatype Sent = Sent(apns: Apns, memo: Memo, delivery: Delivery)

  /** sendRequest, as far as tokens go: present the signing token, remember a refusal, retry once with the fallback. */
  function SendRequest(apns: Apns, memo: Memo, plan: Plan, now: int): Sent {
    var first := Judge(apns, plan.signing, now);
    var apns1 := Record(apns, plan.signing, now);
    if first == TooManyTokenUpdates && plan.fallback.Some? then
      Sent(Record(apns1, plan.fallback.value, now),
           Some(Refusal(plan.signing, now)),
           Delivery(first, Some(Judge(apns1, plan.fallback.value, now))))
    else
      Sent(apns1, memo, Delivery(first, None))
  }

  // ---------- Runs ----------

  /** The batch chose its tokens in an earlier bucket. */
  predicate Crossed(plan: Plan, now: int) {
    IssuedAtBucket(plan.at) != IssuedAtBucket(now)
  }

  /** crossed: some device was sent by a batch that had crossed a bucket boundary. */
  datatype World = World(now: int, apns: Apns, memos: map<nat, Memo>, batches: map<nat, Plan>, crossed: bool)

  datatype Step =
    | Advance(to: int)
    | Start(process: nat)                // a process starts, or restarts and forgets its memo
    | Resolve(batch: nat, process: nat)  // a batch reads its tokens, or re-reads them after a probe
    | Send(batch: nat)                   // one device of the batch
    | Close(batch: nat)

  predicate Enabled(w: World, step: Step) {
    match step
    case Advance(to) => w.now <= to
    case Start(p) => true
    case Resolve(b, p) => p in w.memos
    case Send(b) => b in w.batches && w.batches[b].process in w.memos
    case Close(b) => true
  }

  /** A step that is not enabled changes nothing, so every sequence of steps is a run. */
  function Apply(w: World, step: Step): World {
    if !Enabled(w, step) then w else
    match step
    case Advance(to) => w.(now := to)
    case Start(p) => w.(memos := w.memos[p := None])
    case Resolve(b, p) => w.(batches := w.batches[b := ResolveTokens(p, w.memos[p], w.now)])
    case Send(b) =>
      var sent := SendRequest(w.apns, w.memos[w.batches[b].process], w.batches[b], w.now);
      w.(apns := sent.apns, memos := w.memos[w.batches[b].process := sent.memo],
         crossed := w.crossed || Crossed(w.batches[b], w.now))
    case Close(b) => w.(batches := w.batches - {b})
  }

  /** A fleet before its first push: APNs has seen nothing and no process remembers anything. */
  function Initial(now: nat): World {
    World(now, Apns({}, None), map[], map[], false)
  }

  function Reached(start: nat, steps: seq<Step>): World {
    if steps == [] then Initial(start)
    else Apply(Reached(start, steps[..|steps| - 1]), steps[|steps| - 1])
  }

  // ---------- The invariant ----------

  /** calm: no device has been sent over a bucket boundary. Then the latest mint is the token of the bucket it happened in. */
  ghost predicate ApnsInv(apns: Apns, now: int, calm: bool) {
    apns.lastMint.Some? ==>
      0 <= apns.lastMint.value <= now && (calm ==> IssuedAtBucket(apns.lastMint.value) in apns.seen)
  }

  /** A refusal remembered in a calm run happened early in the refused bucket, and APNs knew the bucket before it. */
  ghost predicate MemoInv(memo: Memo, apns: Apns, now: int) {
    memo.Some? ==>
      && Aligned(memo.value.bucket)
      && memo.value.bucket <= memo.value.at < memo.value.bucket + TOKEN_MINT_FLOOR
      && memo.value.at <= now
      && memo.value.bucket - TOKEN_REFRESH_INTERVAL in apns.seen
  }

  ghost predicate PlanInv(plan: Plan, apns: Apns, now: int, calm: bool) {
    && 0 <= plan.at <= now
    && plan == ResolveTokens(plan.process, plan.memo, plan.at)
    && (calm ==> MemoInv(plan.memo, apns, plan.at))
  }

  ghost predicate Inv(w: World) {
    && 0 <= w.now
    && ApnsInv(w.apns, w.now, !w.crossed)
    && (forall p :: p in w.memos && !w.crossed ==> MemoInv(w.memos[p], w.apns, w.now))
    && (forall b :: b in w.batches ==> PlanInv(w.batches[b], w.apns, w.now, !w.crossed))
  }

  /** In a calm run a bucket APNs refuses is refused for a late mint of the bucket before it. */
  lemma RefusalMeansLateMint(apns: Apns, bucket: int, now: int)
    requires 0 <= now && ApnsInv(apns, now, true)
    requires bucket == IssuedAtBucket(now) && bucket !in apns.seen && FloorRunning(apns, now)
    ensures bucket - TOKEN_REFRESH_INTERVAL in apns.seen
    ensures now < bucket + TOKEN_MINT_FLOOR
    ensures Judge(apns, bucket, now) == TooManyTokenUpdates
  {
    var mint := apns.lastMint.value;
    BucketHoldsInstant(now);
    BucketHoldsInstant(mint);
    if bucket <= mint {
      AlignedIntervalIsUnique(bucket, IssuedAtBucket(mint), mint);
      assert false;
    }
    AlignedIntervalIsUnique(bucket - TOKEN_REFRESH_INTERVAL, IssuedAtBucket(mint), mint);
  }

  lemma PlanShape(plan: Plan, apns: Apns, now: int, calm: bool)
    requires 0 <= now && PlanInv(plan, apns, now, calm)
    ensures var bucket := IssuedAtBucket(plan.at);
            var previous := bucket - TOKEN_REFRESH_INTERVAL;
            && Aligned(bucket) && bucket <= plan.at < bucket + TOKEN_REFRESH_INTERVAL
            && (plan.signing == bucket || plan.signing == previous)
            && (plan.signing == previous ==> plan.fallback == None && (calm ==> previous in apns.seen))
            && (plan.fallback.Some? ==> plan.fallback == Some(previous) && plan.signing == bucket)
            && (plan.signing == bucket && plan.fallback == None ==>
                  plan.at - previous >= TOKEN_LIFETIME || RefusalLive(plan.memo, previous, plan.at))
            && (RefusalLive(plan.memo, previous, plan.at) ==> plan.signing == bucket && plan.fallback == None)
  {
    BucketHoldsInstant(plan.at);
  }

  /** A batch that has crossed a boundary is at least one whole interval on. */
  lemma CrossedIsLater(plan: Plan, now: int)
    requires 0 <= plan.at <= now && Crossed(plan, now)
    ensures now >= IssuedAtBucket(plan.at) + TOKEN_REFRESH_INTERVAL
  {
    BucketHoldsInstant(now);
    BucketHoldsInstant(plan.at);
    BucketMonotone(plan.at, now);
    AlignedGap(IssuedAtBucket(plan.at), IssuedAtBucket(now));
  }

  // ---------- The four ways to fail ----------

  /** APNs refuses the token chosen: it has not seen it and its mint floor is running. */
  predicate Refused(plan: Plan, apns: Apns, now: int) {
    plan.signing !in apns.seen && FloorRunning(apns, now)
  }

  /** The token chosen is more than an hour old by the time it is sent. */
  predicate Overdue(plan: Plan, now: int) {
    now - plan.signing > TOKEN_LIFETIME
  }

  /** Refused in the bucket of the choice, with nothing to fall back on because of a live refusal of the bucket before. */
  predicate Stranded(plan: Plan, apns: Apns, now: int) {
    !Crossed(plan, now) && Refused(plan, apns, now) && RefusalLive(plan.memo, IssuedAtBucket(now) - TOKEN_REFRESH_INTERVAL, plan.at)
  }

  /** Refused after crossing a boundary: another process has minted the new bucket's token meanwhile. */
  predicate Overtaken(plan: Plan, apns: Apns, now: int) {
    Crossed(plan, now) && Refused(plan, apns, now)
  }

  /** Refused in the bucket of the choice, with no fallback that APNs has seen and that is still alive. */
  predicate Strayed(plan: Plan, apns: Apns, now: int) {
    && !Crossed(plan, now) && Refused(plan, apns, now)
    && !RefusalLive(plan.memo, IssuedAtBucket(now) - TOKEN_REFRESH_INTERVAL, plan.at)
    && !(plan.fallback.Some? && plan.fallback.value in apns.seen && now - plan.fallback.value <= TOKEN_LIFETIME)
  }

  predicate Fails(plan: Plan, apns: Apns, now: int) {
    Overdue(plan, now) || Stranded(plan, apns, now) || Overtaken(plan, apns, now) || Strayed(plan, apns, now)
  }

  /** What one device's requests do, in any state a run can reach. */
  lemma SendOutcome(apns: Apns, memo: Memo, plan: Plan, now: int, calm: bool)
    requires 0 <= now && ApnsInv(apns, now, calm) && PlanInv(plan, apns, now, calm)
    ensures var sent := SendRequest(apns, memo, plan, now);
            && (sent.delivery.Authenticated() <==> !Fails(plan, apns, now))
            && (sent.delivery.retry.Some? ==> sent.apns == apns)
            && (sent.delivery.retry == Some(Admitted) ==> plan.fallback.value in apns.seen)
            && (sent.delivery.first == ExpiredToken <==> Overdue(plan, now))
            && (sent.apns != apns ==>
                  sent.apns == Apns(apns.seen + {plan.signing}, Some(now)) && !FloorRunning(apns, now) && !Overdue(plan, now))
            && (sent.delivery.retry.Some? <==> Refused(plan, apns, now) && !Overdue(plan, now) && plan.fallback.Some?)
            && sent.memo == if sent.delivery.retry.Some? then Some(Refusal(plan.signing, now)) else memo
  {
    PlanShape(plan, apns, now, calm);
    BucketHoldsInstant(now);
    if Crossed(plan, now) {
      CrossedIsLater(plan, now);
    }
  }

  /** In a calm run nothing strays: a refused batch has a fallback APNs knows, and a mint is of its own bucket. */
  lemma CalmOutcome(apns: Apns, memo: Memo, plan: Plan, now: int)
    requires 0 <= now && ApnsInv(apns, now, true) && PlanInv(plan, apns, now, true)
    ensures !Strayed(plan, apns, now)
    ensures var sent := SendRequest(apns, memo, plan, now);
            !Crossed(plan, now) ==>
              && (sent.delivery.retry.Some? ==> sent.delivery.retry == Some(Admitted))
              && (sent.apns != apns ==> plan.signing == IssuedAtBucket(now))
              && (sent.memo != memo ==> MemoInv(sent.memo, apns, now))
  {
    PlanShape(plan, apns, now, true);
    BucketHoldsInstant(now);
    if !Crossed(plan, now) && Refused(plan, apns, now) {
      RefusalMeansLateMint(apns, IssuedAtBucket(now), now);
    }
  }

  lemma SendKeepsInv(w: World, batch: nat)
    requires Inv(w) && Enabled(w, Send(batch))
    ensures Inv(Apply(w, Send(batch)))
  {
    var plan, w' := w.batches[batch], Apply(w, Send(batch));
    SendOutcome(w.apns, w.memos[plan.process], plan, w.now, !w.crossed);
    assert w.apns.seen <= w'.apns.seen;
    if !w'.crossed {
      CalmOutcome(w.apns, w.memos[plan.process], plan, w.now);
    }
  }

  lemma InvPreserved(w: World, step: Step)
    requires Inv(w)
    ensures Inv(Apply(w, step))
  {
    if step.Send? && Enabled(w, step) {
      SendKeepsInv(w, step.batch);
    }
  }

  lemma {:induction false} RunKeepsInv(start: nat, steps: seq<Step>)
    ensures Inv(Reached(start, steps))
  {
    if steps != [] {
      RunKeepsInv(start, steps[..|steps| - 1]);
      InvPreserved(Reached(start, steps[..|steps| - 1]), steps[|steps| - 1]);
    }
  }

  // ---------- The theorems ----------

  /**
    In every run, a device is authenticated within its two requests exactly when its batch is not
    overdue, stranded, overtaken or strayed; falling back never mints, and the fallback token is
    admitted only if APNs has admitted it before. Until some device has been sent over a bucket
    boundary nothing strays and every fallback is admitted.
   */
  lemma {:induction false} EveryPushAuthenticates(start: nat, steps: seq<Step>, batch: nat)
    requires Enabled(Reached(start, steps), Send(batch))
    ensures var w := Reached(start, steps);
            var plan := w.batches[batch];
            var sent := SendRequest(w.apns, w.memos[plan.process], plan, w.now);
            && (sent.delivery.Authenticated() <==> !Fails(plan, w.apns, w.now))
            && (sent.delivery.retry.Some? ==> sent.apns == w.apns)
            && (sent.delivery.retry == Some(Admitted) ==> plan.fallback.value in w.apns.seen)
            && (!w.crossed ==> !Strayed(plan, w.apns, w.now))
            && (!w.crossed && !Crossed(plan, w.now) && sent.delivery.retry.Some? ==> sent.delivery.retry == Some(Admitted))
  {
    RunKeepsInv(start, steps);
    var w := Reached(start, steps);
    var plan := w.batches[batch];
    SendOutcome(w.apns, w.memos[plan.process], plan, w.now, !w.crossed);
    if !w.crossed {
      CalmOutcome(w.apns, w.memos[plan.process], plan, w.now);
    }
  }

  /**
    The exceptions are narrow: until some device has been sent over a boundary, a stranded batch
    chose its token in the first five minutes of a bucket; an overdue batch has crossed a boundary,
    or chose before minute 25 of a bucket and sends after it; a batch strays only once some device
    has been sent over a boundary.
   */
  lemma {:induction false} ExceptionsAreNarrow(start: nat, steps: seq<Step>, batch: nat)
    requires batch in Reached(start, steps).batches
    ensures var w := Reached(start, steps);
            var plan, bucket := w.batches[batch], IssuedAtBucket(w.now);
            && (Stranded(plan, w.apns, w.now) && !w.crossed ==> plan.at - bucket < TOKEN_SKEW_MARGIN)
            && (Overdue(plan, w.now) ==> Crossed(plan, w.now) || plan.at - bucket < 25 * MINUTE < w.now - bucket)
            && (Strayed(plan, w.apns, w.now) ==> w.crossed)
  {
    RunKeepsInv(start, steps);
    var w := Reached(start, steps);
    PlanShape(w.batches[batch], w.apns, w.now, !w.crossed);
    BucketHoldsInstant(w.now);
    if !w.crossed {
      CalmOutcome(w.apns, None, w.batches[batch], w.now);
    }
  }

  /**
    Mints are a floor apart, and each is of the bucket it happens in or the one before; of the
    bucket it happens in until some device has been sent over a boundary.
   */
  lemma {:induction false} MintsFollowTheBuckets(start: nat, steps: seq<Step>, step: Step)
    ensures var w, w' := Reached(start, steps), Apply(Reached(start, steps), step);
            w'.apns != w.apns ==>
              exists token ::
                && token !in w.apns.seen && w'.apns == Apns(w.apns.seen + {token}, Some(w.now))
                && (token == IssuedAtBucket(w.now) || (w'.crossed && token == IssuedAtBucket(w.now) - TOKEN_REFRESH_INTERVAL))
                && (w.apns.lastMint.Some? ==> w.now - w.apns.lastMint.value >= TOKEN_MINT_FLOOR)
  {
    RunKeepsInv(start, steps);
    var w := Reached(start, steps);
    if step.Send? && Enabled(w, step) {
      var plan := w.batches[step.batch];
      SendOutcome(w.apns, w.memos[plan.process], plan, w.now, !w.crossed);
      if !w.crossed {
        CalmOutcome(w.apns, w.memos[plan.process], plan, w.now);
      }
      if !Overdue(plan, w.now) {
        YoungTokens(plan, w.apns, w.now, !w.crossed);
      }
    }
  }

  /** A token under an hour old is the current bucket's or the one before. */
  lemma YoungTokens(plan: Plan, apns: Apns, now: int, calm: bool)
    requires 0 <= now && PlanInv(plan, apns, now, calm) && !Overdue(plan, now)
    ensures plan.signing == IssuedAtBucket(now) || plan.signing == IssuedAtBucket(now) - TOKEN_REFRESH_INTERVAL
  {
    PlanShape(plan, apns, now, calm);
    BucketHoldsInstant(now);
    BucketMonotone(plan.at, now);
    AlignedPrevious(IssuedAtBucket(plan.at));
    NearIsNeighbour(plan.signing, IssuedAtBucket(now));
  }

  // ---------- What a refusal teaches ----------

  /** Between two moments of a run, process p is not restarted and no bucket but b is refused to it. */
  ghost predicate OnlyRefused(start: nat, steps: seq<Step>, more: seq<Step>, p: nat, b: int) {
    more == [] ||
    var init, last := more[..|more| - 1], more[|more| - 1];
    && OnlyRefused(start, steps, init, p, b)
    && last != Start(p)
    && (Retries(Reached(start, steps + init), last, p) ==> Presented(Reached(start, steps + init), last) == b)
  }

  /** The step sends a device of process p that is refused and tries again with the fallback token. */
  predicate Retries(w: World, step: Step, p: nat) {
    step.Send? && Enabled(w, step) && w.batches[step.batch].process == p &&
    SendRequest(w.apns, w.memos[p], w.batches[step.batch], w.now).delivery.retry.Some?
  }

  /** The bucket whose token the batch presents first. */
  function Presented(w: World, step: Step): int
    requires step.Send? && step.batch in w.batches
  {
    w.batches[step.batch].signing
  }

  lemma StepKeepsMemo(w: World, step: Step, p: nat, b: int, at: int)
    requires Inv(w) && p in w.memos && w.memos[p].Some? && w.memos[p].value.bucket == b && at <= w.memos[p].value.at <= w.now
    requires step != Start(p) && (Retries(w, step, p) ==> Presented(w, step) == b)
    ensures var w' := Apply(w, step);
            && w.now <= w'.now && p in w'.memos && w'.memos[p].Some?
            && w'.memos[p].value.bucket == b && at <= w'.memos[p].value.at <= w'.now
  {
    if step.Send? && Enabled(w, step) {
      var plan := w.batches[step.batch];
      SendOutcome(w.apns, w.memos[plan.process], plan, w.now, !w.crossed);
    }
  }

  lemma {:induction false} MemoLasts(start: nat, steps: seq<Step>, more: seq<Step>, p: nat, b: int, at: int)
    requires var w := Reached(start, steps);
             p in w.memos && w.memos[p] == Some(Refusal(b, at)) && at == w.now
    requires OnlyRefused(start, steps, more, p, b)
    ensures var w := Reached(start, steps + more);
            p in w.memos && w.memos[p].Some? && w.memos[p].value.bucket == b && at <= w.memos[p].value.at <= w.now
  {
    if more == [] {
      assert steps + more == steps;
    } else {
      var init, last := more[..|more| - 1], more[|more| - 1];
      MemoLasts(start, steps, init, p, b, at);
      RunKeepsInv(start, steps + init);
      StepKeepsMemo(Reached(start, steps + init), last, p, b, at);
      ReachedExtends(start, steps + init, last);
      assert steps + init + [last] == steps + more;
    }
  }

  /**
    In every run, once a device of process p has been refused bucket b at some time and tried again,
    then until p restarts or is refused another bucket, what p chooses in bucket b is the previous
    bucket's token exactly as long as a refusal is under 20 minutes old and that token under an
    hour; a refused token is not presented again while there is one to use instead.
   */
  lemma RefusedTokenIsPutAside(start: nat, steps: seq<Step>, batch: nat, more: seq<Step>)
    requires Enabled(Reached(start, steps), Send(batch))
    requires var w := Reached(start, steps);
             var plan := w.batches[batch];
             && Retries(w, Send(batch), plan.process)
             && OnlyRefused(start, steps + [Send(batch)], more, plan.process, plan.signing)
             && IssuedAtBucket(Reached(start, steps + [Send(batch)] + more).now) == plan.signing
    ensures var w, now := Reached(start, steps), Reached(start, steps + [Send(batch)] + more);
            var plan, previous := w.batches[batch], w.batches[batch].signing - TOKEN_REFRESH_INTERVAL;
            && plan.process in now.memos && now.memos[plan.process].Some? && now.memos[plan.process].value.at >= w.now
            && var next := ResolveTokens(plan.process, now.memos[plan.process], now.now);
            && (next.signing == previous <==>
                  now.now - now.memos[plan.process].value.at < TOKEN_MINT_FLOOR && now.now - previous < TOKEN_LIFETIME)
            && (now.now - w.now < TOKEN_MINT_FLOOR && now.now - previous < TOKEN_LIFETIME ==> next.signing == previous)
            && (next.signing == previous || next.signing == plan.signing)
  {
    var w := Reached(start, steps);
    var plan := w.batches[batch];
    RunKeepsInv(start, steps);
    SendOutcome(w.apns, w.memos[plan.process], plan, w.now, !w.crossed);
    ReachedExtends(start, steps, Send(batch));
    MemoLasts(start, steps + [Send(batch)], more, plan.process, plan.signing, w.now);
  }

  lemma ReachedExtends(start: nat, steps: seq<Step>, step: Step)
    ensures Reached(start, steps + [step]) == Apply(Reached(start, steps), step)
  {
    assert (steps + [step])[..|steps|] == steps;
  }

  lemma Then(steps: seq<Step>, w: World, step: Step) returns (steps': seq<Step>, w': World)
    requires w == Reached(0, steps)
    ensures w' == Apply(w, step) && w' == Reached(0, steps')
  {
    steps', w' := steps + [step], Apply(w, step);
    ReachedExtends(0, steps, step);
  }

  /** A world of process 0 alone, between batches. */
  function Alone(now: int, apns: Apns, memo: Memo): World {
    World(now, apns, map[0 := memo], map[], false)
  }

  /** One whole batch of one device by process 0. */
  lemma PushOnce(steps: seq<Step>, w: World, memo: Memo, at: int) returns (steps': seq<Step>, w': World)
    requires w == Reached(0, steps) && w == Alone(w.now, w.apns, memo) && w.now <= at
    ensures w' == Reached(0, steps')
    ensures var sent := SendRequest(w.apns, memo, ResolveTokens(0, memo, at), at);
            w' == Alone(at, sent.apns, sent.memo)
  {
    var plan := ResolveTokens(0, memo, at);
    steps', w' := Then(steps, w, Advance(at));
    steps', w' := Then(steps', w', Resolve(0, 0));
    assert w'.batches == map[0 := plan];
    steps', w' := Then(steps', w', Send(0));
    steps', w' := Then(steps', w', Close(0));
    assert map[0 := plan] - {0} == map[];
    assert map[0 := memo][0 := SendRequest(w.apns, memo, plan, at).memo] == map[0 := SendRequest(w.apns, memo, plan, at).memo];
  }

  /** Minted late in bucket 0, so refused at minute 53 in bucket 35, which is remembered until minute 73. */
  lemma RefusedAt53() returns (steps: seq<Step>, w: World)
    ensures w == Reached(0, steps)
    ensures w == Alone(53 * MINUTE, Apns({0}, Some(34 * MINUTE)), Some(Refusal(35 * MINUTE, 53 * MINUTE)))
  {
    steps, w := Then([], Initial(0), Start(0));
    assert w == Alone(0, Apns({}, None), None);
    steps, w := PushOnce(steps, w, None, 34 * MINUTE);
    assert w == Alone(34 * MINUTE, Apns({0}, Some(34 * MINUTE)), None);
    steps, w := PushOnce(steps, w, None, 53 * MINUTE);
  }

  /**
    "A refused push always recovers" is false, for a single process on its own: noteAccepted
    leaves the refusal memo standing, so a bucket refused late and accepted since is still
    treated as known bad just after the next boundary.
   */
  lemma OneProcessCanStrand() returns (steps: seq<Step>)
    ensures var w := Reached(0, steps);
            && 0 in w.memos && w.batches == map[] && !w.crossed
            && IssuedAtBucket(w.now) - TOKEN_REFRESH_INTERVAL in w.apns.seen
            && var plan := ResolveTokens(0, w.memos[0], w.now);
            && Stranded(plan, w.apns, w.now)
            && SendRequest(w.apns, w.memos[0], plan, w.now).delivery == Delivery(TooManyTokenUpdates, None)
  {
    var w: World;
    var memo := Some(Refusal(35 * MINUTE, 53 * MINUTE));
    steps, w := RefusedAt53();
    steps, w := PushOnce(steps, w, memo, 60 * MINUTE);  // bucket 0 is too old to offer, so bucket 35 is minted after all
    assert w == Alone(60 * MINUTE, Apns({0, 35 * MINUTE}, Some(60 * MINUTE)), memo);
    steps, w := Then(steps, w, Advance(70 * MINUTE));
  }

  /**
    The age check of previousToken leaves no margin for the time a request takes: a token chosen a
    second before its hour is up draws ExpiredToken two seconds later, when the current bucket's
    token would have been admitted.
   */
  lemma OneProcessCanBeOverdue() returns (steps: seq<Step>)
    ensures var w := Reached(0, steps);
            && 0 in w.batches && 0 in w.memos && w.batches[0].process == 0 && !w.crossed
            && Overdue(w.batches[0], w.now) && !Crossed(w.batches[0], w.now)
            && w.now - w.batches[0].at == 2 * SECOND
            && SendRequest(w.apns, w.memos[0], w.batches[0], w.now).delivery == Delivery(ExpiredToken, None)
            && Judge(w.apns, IssuedAtBucket(w.now), w.now) == Admitted
  {
    var w: World;
    var memo := Some(Refusal(35 * MINUTE, 53 * MINUTE));
    steps, w := RefusedAt53();
    steps, w := Then(steps, w, Advance(60 * MINUTE - SECOND));
    steps, w := Then(steps, w, Resolve(0, 0));
    assert w.batches == map[0 := Plan(0, 60 * MINUTE - SECOND, memo, 0, None)];
    steps, w := Then(steps, w, Advance(60 * MINUTE + SECOND));
  }

  /**
    A batch open over a boundary can fail for that alone: process 0 chooses its token a second
    before the boundary, process 1 mints the new bucket's a second after it, and process 0's own is
    then refused with nothing to fall back on.
   */
  lemma TwoProcessesCanOvertake() returns (steps: seq<Step>)
    ensures var w := Reached(0, steps);
            && 0 in w.batches && 0 in w.memos && w.batches[0].process == 0 && !w.crossed
            && Overtaken(w.batches[0], w.apns, w.now) && !Overdue(w.batches[0], w.now)
            && w.now - w.batches[0].at == 2 * SECOND
            && SendRequest(w.apns, w.memos[0], w.batches[0], w.now).delivery == Delivery(TooManyTokenUpdates, None)
  {
    var w := Initial(0);
    steps, w := Then([], w, Start(0));
    steps, w := Then(steps, w, Start(1));
    steps, w := Then(steps, w, Advance(35 * MINUTE - SECOND));
    steps, w := Then(steps, w, Resolve(0, 0));
    assert w.batches == map[0 := Plan(0, 35 * MINUTE - SECOND, None, 0, None)];
    steps, w := Then(steps, w, Advance(35 * MINUTE + SECOND));
    steps, w := Then(steps, w, Resolve(1, 1));
    assert w.batches[1] == Plan(1, 35 * MINUTE + SECOND, None, 35 * MINUTE, Some(0));
    steps, w := Then(steps, w, Send(1));
    assert w.apns == Apns({35 * MINUTE}, Some(35 * MINUTE + SECOND));
  }

  /**
    And the mint of such a batch can fail another that crosses nothing: a token of two buckets ago,
    minted late, runs the floor over the boundary with neither of the tokens the other has known to APNs.
   */
  lemma StrayMintFailsAnother() returns (steps: seq<Step>)
    ensures var w := Reached(0, steps);
            && 1 in w.batches && 1 in w.memos && w.batches[1].process == 1
            && Strayed(w.batches[1], w.apns, w.now) && w.batches[1].at == w.now
            && SendRequest(w.apns, w.memos[1], w.batches[1], w.now).delivery == Delivery(TooManyTokenUpdates, Some(TooManyTokenUpdates))
  {
    var w := Initial(0);
    steps, w := Then([], w, Start(0));
    steps, w := Then(steps, w, Start(1));
    steps, w := Then(steps, w, Advance(34 * MINUTE));
    steps, w := Then(steps, w, Resolve(0, 0));
    assert w.batches == map[0 := Plan(0, 34 * MINUTE, None, 0, None)];
    steps, w := Then(steps, w, Advance(58 * MINUTE));
    steps, w := Then(steps, w, Send(0));
    assert w.apns == Apns({0}, Some(58 * MINUTE));
    steps, w := Then(steps, w, Advance(70 * MINUTE));
    steps, w := Then(steps, w, Resolve(1, 1));
    assert w.batches[1] == Plan(1, 70 * MINUTE, None, 70 * MINUTE, Some(35 * MINUTE));
  }
}
