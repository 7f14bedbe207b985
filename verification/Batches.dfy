/**
  One batch of devices through srv/apns/http_api/processor.go: sendRequests, sendRequest and
  handlePushResponseBody, as the steps of the batch's own goroutine and of one goroutine per
  device, interleaved freely with each other and with the other batches that share the token.
 */
module Batches {
  import opened Basics
  import opened TokenSchedule

  // ---------- Responses ----------

  datatype Body = NoBody | Garbled | Reason(text: string)

  datatype Response = Response(status: int, body: Body)

  const TOO_MANY := "TooManyProviderTokenUpdates"

  const PERMANENT_TOKEN_FAILURES := {"BadDeviceToken", "DeviceTokenNotForTopic", "Unregistered", "ExpiredToken"}

  function ReasonOf(r: Response): string {
    if r.status == 200 || !r.body.Reason? then "" else r.body.text
  }

  predicate IsRefusal(r: Response) {
    ReasonOf(r) == TOO_MANY
  }

  /** What reaches ErrChan or ResChan for a device. */
  datatype Message = Failure | Success(id: nat) | Unsubscribe(id: nat)

  /** handlePushResponseBody: each branch of the source sends one message and returns. */
  function HandleResponse(r: Response, id: nat): Message {
    if 300 <= r.status < 400 then Failure
    else match r.body
      case NoBody => if r.status == 200 then Success(id) else if r.status == 410 then Unsubscribe(id) else Failure
      case Garbled => Failure
      case Reason(text) => if text in PERMANENT_TOKEN_FAILURES then Unsubscribe(id) else Failure
  }

  // ---------- Message ids ----------

  const UINT32 := 0x1_0000_0000

  /** PushRequest.GetID, in 32-bit arithmetic. */
  function GetID(n: nat, maxId: nat, i: int): nat {
    if i < 0 || i >= n then 0 else (maxId - n % UINT32 + i % UINT32) % UINT32
  }

  /** How Push finds the device a result is for: Some(index), or None for a result it skips. */
  function Matched(n: nat, lastId: nat, id: nat): Option<nat> {
    var i := (id - lastId + n % UINT32) % UINT32;
    if i >= n % UINT32 then None else Some(i)
  }

  /** Subtraction undoes addition in 32 bits. */
  lemma WrapsBack(a: int, i: int)
    requires 0 <= i < UINT32
    ensures ((a + i) % UINT32 - a) % UINT32 == i
  {
    var q := (a + i) / UINT32;
    assert (a + i) % UINT32 - a == i - q * UINT32;
  }

  lemma IdFindsItsDevice(n: nat, lastId: nat, i: nat)
    requires i < n < UINT32
    ensures Matched(n, lastId, GetID(n, lastId, i)) == Some(i)
  {
    assert n % UINT32 == n && i % UINT32 == i;
    WrapsBack(lastId - n, i);
  }

  /** Whatever the counter, wraparound included, each id finds its own device, exactly as long as the batch fits 32 bits. */
  lemma IdsFindTheirDevice(n: nat, lastId: nat)
    requires n > 0
    ensures (forall i :: 0 <= i < n ==> Matched(n, lastId, GetID(n, lastId, i)) == Some(i)) <==> n < UINT32
  {
    if n < UINT32 {
      forall i | 0 <= i < n ensures Matched(n, lastId, GetID(n, lastId, i)) == Some(i) {
        IdFindsItsDevice(n, lastId, i);
      }
    } else {
      TooManyDevices(n, lastId);
    }
  }

  /** An index found is below n reduced to 32 bits, so the last device of such a batch is never found. */
  lemma TooManyDevices(n: nat, lastId: nat)
    requires n >= UINT32
    ensures Matched(n, lastId, GetID(n, lastId, n - 1)) != Some(n - 1)
  {
    assert n % UINT32 < UINT32;
  }

  // ---------- One device ----------

  /** The previous bucket's token: the bucket it was signed for, and the bucket recorded beside it. */
  datatype Fallback = Fallback(header: int, bucket: int)

  /** sendRequest in progress. header is the bucket whose token the request carries; None for certificate auth. */
  datatype Call =
    | Ready(header: Option<int>, fallback: Option<Fallback>, signing: Option<int>)
    | Answered(fallback: Option<Fallback>, signing: Option<int>, response: Response)
    | Retrying(retry: Fallback)
    | Settled(accepted: Option<int>, response: Response)
    | Reporting(message: Message)

  datatype Device =
    | Unsent
    | Refunded         // could not be built: counted off the WaitGroup, its error not yet sent
    | Flying(call: Call)
    | Told             // its message is sent, its count not yet given back
    | Finished

  // ---------- The batch's own goroutine ----------

  datatype Main =
    | Start
    | Authenticating
    | Resolving(first: Option<nat>)    // resolveTokens, before the client (None) or before sending from a device on
    | FallingBack(first: Option<nat>)
    | Connecting
    | Choosing
    | Probing
    | ProbeReport
    | ProbeWait
    | Sending(next: nat)
    | SendReport(next: nat)
    | Waiting
    | Refusing(next: nat)              // an early failure: one error per device
    | Closed

  datatype Post = Post(device: nat, message: Message)

  datatype Batch = Batch(
    n: nat, maxId: nat, tokens: bool,
    main: Main, early: bool, wg: int,
    devices: seq<Device>, posts: seq<Post>,
    header: Option<int>, signing: Option<int>, fallback: Option<Fallback>)

  function NewBatch(n: nat, maxId: nat, tokens: bool): Batch {
    Batch(n, maxId, tokens, Start, false, n, seq(n, _ => Unsent), [], None, None, None)
  }

  datatype Claim = NoProbe | Prober | Waiter

  datatype Action =
    | Check(allowed: bool)
    | Sign(now: int, signable: bool)
    | ReadToken(now: int, signable: bool)
    | ReadFallback(now: int, signable: bool)
    | GetClient(ok: bool)
    | Choose(claim: Claim)
    | Build(ok: bool)
    | Report
    | EndProbe
    | Close
    // one device's goroutine
    | Reply(i: nat, response: Option<Response>)
    | NoteRefused(i: nat, at: int)
    | RetryReply(i: nat, response: Option<Response>)
    | NoteAccepted(i: nat)
    | Send(i: nat)
    | Done(i: nat)

  /** What all batches of the process share: the token's memo and confirmed bucket, and (bucket, refused) for every answer APNs gave. */
  datatype Shared = Shared(memo: Memo, confirmed: Option<int>, answers: set<(int, bool)>)

  function Tell(b: Batch, i: nat, m: Message): Batch {
    b.(posts := b.posts + [Post(i, m)])
  }

  function SetDevice(b: Batch, i: nat, d: Device): Batch {
    if i < |b.devices| then b.(devices := b.devices[i := d]) else b
  }

  function GiveUp(b: Batch): Batch {
    b.(main := Refusing(0), early := true)
  }

  /** After resolveTokens: on to the client, or on to the devices. */
  function Onward(first: Option<nat>): Main {
    if first.None? then Connecting else Sending(first.value)
  }

  function Launch(b: Batch): Device {
    Flying(Ready(b.header, b.fallback, b.signing))
  }

  /** buildDeviceRequest for device i: a goroutine is started, or the device is counted off at once. */
  function BuildAt(b: Batch, i: nat, ok: bool, launched: Main, failed: Main): Batch {
    if ok then SetDevice(b, i, Launch(b)).(main := launched)
    else SetDevice(b, i, Refunded).(main := failed, wg := b.wg - 1)
  }

  /** ... and then its error is sent. */
  function ReportAt(b: Batch, i: nat, next: Main): Batch {
    SetDevice(Tell(b, i, Failure), i, Finished).(main := next)
  }

  function WithTokens(b: Batch, bucket: int): Batch {
    b.(header := Some(bucket), signing := Some(bucket))
  }

  predicate InSetup(main: Main) {
    main.Start? || main.Authenticating? || main.Resolving? || main.FallingBack? || main.Connecting? || main.Choosing?
  }

  /** needsProbe: token auth, several devices, and a bucket not yet confirmed. */
  predicate NeedsProbe(b: Batch, s: Shared) {
    b.tokens && b.n > 1 && s.confirmed != b.signing
  }

  function Offered(s: Shared, signing: Option<int>, now: int, signable: bool): Option<Fallback> {
    var f := FallbackBucket(s.memo, now);
    if !signable || f.None? || f == signing then None else Some(Fallback(f.value, f.value))
  }

  /** sendRequests up to the devices: the endpoint, the tokens, the client, the probe. */
  function SetupStep(b: Batch, s: Shared, a: Action): Batch {
    match (b.main, a)
    case (Start, Check(allowed)) => if !allowed then GiveUp(b) else b.(main := if b.tokens then Authenticating else Connecting)
    case (Authenticating, Sign(now, signable)) =>
      if !signable then GiveUp(b) else WithTokens(b, SigningBucket(s.memo, now)).(main := Resolving(None))
    case (Resolving(first), ReadToken(now, signable)) =>
      (if signable then WithTokens(b, SigningBucket(s.memo, now)) else b).(main := FallingBack(first))
    case (FallingBack(first), ReadFallback(now, signable)) =>
      b.(main := Onward(first), fallback := Offered(s, b.signing, now, signable))
    case (Connecting, GetClient(ok)) => if ok then b.(main := Choosing) else GiveUp(b)
    case (Choosing, Choose(claim)) =>
      b.(main := if !NeedsProbe(b, s) || claim == NoProbe then Sending(0)
                 else if claim == Prober then Probing
                 else Resolving(Some(0)))
    case _ => b
  }

  /** sendRequests from the probe to the close of the channels. */
  function SendStep(b: Batch, a: Action): Batch {
    match (b.main, a)
    case (Probing, Build(ok)) => BuildAt(b, 0, ok, ProbeWait, ProbeReport)
    case (ProbeReport, Report) => ReportAt(b, 0, Resolving(Some(1)))
    case (ProbeWait, EndProbe) => if |b.devices| > 0 && b.devices[0] == Finished then b.(main := Resolving(Some(1))) else b
    case (Sending(i), Build(ok)) => if i >= b.n then b else BuildAt(b, i, ok, Sending(i + 1), SendReport(i))
    case (SendReport(i), Report) => ReportAt(b, i, Sending(i + 1))
    case (Sending(i), Close) => if i >= b.n then b.(main := Waiting) else b
    case (Waiting, Close) => if b.wg == 0 then b.(main := Closed) else b
    case (Refusing(i), Report) => if i < b.n then Tell(b, i, Failure).(main := Refusing(i + 1)) else b
    case (Refusing(i), Close) => if i >= b.n then b.(main := Closed) else b
    case _ => b
  }

  /** A step of the batch's own goroutine. */
  function MainStep(b: Batch, s: Shared, a: Action): Batch {
    if InSetup(b.main) then SetupStep(b, s, a) else SendStep(b, a)
  }

  function Heard(s: Shared, bucket: Option<int>, response: Response): Shared {
    if bucket.None? then s else s.(answers := s.answers + {(bucket.value, IsRefusal(response))})
  }

  /** A step of one device's goroutine: the device's new state, what it tells, what it shares. */
  datatype Effect = Effect(device: Device, message: Option<Message>, shared: Shared, counted: bool)

  function DeviceStep(d: Device, tokens: bool, id: nat, s: Shared, a: Action): Effect {
    var same := Effect(d, None, s, false);
    match (d, a)
    case (Flying(Ready(header, fallback, signing)), Reply(_, response)) =>
      if response.None? then same.(device := Flying(Reporting(Failure)))
      else same.(device := Flying(Answered(fallback, signing, response.value)), shared := Heard(s, header, response.value))
    case (Flying(Answered(fallback, signing, response)), NoteRefused(_, at)) =>
      if fallback.Some? && IsRefusal(response) then
        same.(device := Flying(Retrying(fallback.value)),
              shared := if tokens && signing.Some? then s.(memo := Some(Refusal(signing.value, at))) else s)
      else same.(device := Flying(Settled(signing, response)))
    case (Flying(Retrying(fallback)), RetryReply(_, response)) =>
      if response.None? then same.(device := Flying(Reporting(Failure)))
      else same.(device := Flying(Settled(Some(fallback.bucket), response.value)),
                 shared := Heard(s, Some(fallback.header), response.value))
    case (Flying(Settled(accepted, response)), NoteAccepted(_)) =>
      same.(device := Flying(Reporting(HandleResponse(response, id))),
            shared := if tokens && accepted.Some? && !IsRefusal(response) then s.(confirmed := accepted) else s)
    case (Flying(Reporting(message)), Send(_)) => same.(device := Told, message := Some(message))
    case (Told, Done(_)) => same.(device := Finished, counted := true)
    case _ => same
  }

  predicate OfDevice(a: Action) {
    a.Reply? || a.NoteRefused? || a.RetryReply? || a.NoteAccepted? || a.Send? || a.Done?
  }

  function Index(a: Action): nat
    requires OfDevice(a)
  {
    a.i
  }

  function ApplyEffect(b: Batch, i: nat, e: Effect): Batch {
    var b1 := SetDevice(b, i, e.device);
    var b2 := if e.message.Some? then Tell(b1, i, e.message.value) else b1;
    if e.counted then b2.(wg := b2.wg - 1) else b2
  }

  function EffectOf(b: Batch, i: nat, s: Shared, a: Action): Effect
    requires i < |b.devices|
  {
    DeviceStep(b.devices[i], b.tokens, GetID(b.n, b.maxId, i), s, a)
  }

  function BatchStep(b: Batch, s: Shared, a: Action): (Batch, Shared) {
    if !OfDevice(a) then (MainStep(b, s, a), s)
    else if Index(a) >= |b.devices| then (b, s)
    else
      var e := EffectOf(b, Index(a), s, a);
      (ApplyEffect(b, Index(a), e), e.shared)
  }

  // ---------- Counting ----------

  /** A device holds one count of the WaitGroup until it is counted off. */
  function Holds(d: Device): nat {
    if d.Refunded? || d.Finished? then 0 else 1
  }

  function Outstanding(ds: seq<Device>): nat {
    if ds == [] then 0 else Outstanding(ds[..|ds| - 1]) + Holds(ds[|ds| - 1])
  }

  lemma {:induction false} OutstandingUpdate(ds: seq<Device>, i: nat, d: Device)
    requires i < |ds|
    ensures Outstanding(ds[i := d]) + Holds(ds[i]) == Outstanding(ds) + Holds(d)
  {
    var ds', last := ds[i := d], |ds| - 1;
    if i == last {
      assert ds'[..last] == ds[..last];
    } else {
      assert ds'[..last] == ds[..last][i := d];
      OutstandingUpdate(ds[..last], i, d);
    }
  }

  lemma {:induction false} OutstandingZero(ds: seq<Device>, i: nat)
    requires i < |ds| && Outstanding(ds) == 0
    ensures Holds(ds[i]) == 0
  {
    if i < |ds| - 1 {
      OutstandingZero(ds[..|ds| - 1], i);
    }
  }

  lemma {:induction false} OutstandingAll(n: nat)
    ensures Outstanding(seq(n, _ => Unsent)) == n
  {
    if n > 0 {
      assert seq(n, _ => Unsent)[..n - 1] == seq(n - 1, _ => Unsent);
      OutstandingAll(n - 1);
    }
  }

  function PostsOf(posts: seq<Post>, i: nat): nat {
    if posts == [] then 0
    else PostsOf(posts[..|posts| - 1], i) + if posts[|posts| - 1].device == i then 1 else 0
  }

  lemma PostsOfTell(posts: seq<Post>, j: nat, m: Message, i: nat)
    ensures PostsOf(posts + [Post(j, m)], i) == PostsOf(posts, i) + if i == j then 1 else 0
  {
    assert (posts + [Post(j, m)])[..|posts|] == posts;
  }

  // ---------- The invariant ----------

  /** The first device the batch has not got to yet. */
  function Frontier(main: Main, n: nat): nat {
    match main
    case ProbeReport => 1
    case ProbeWait => 1
    case Resolving(first) => if first.Some? then first.value else 0
    case FallingBack(first) => if first.Some? then first.value else 0
    case Sending(i) => i
    case SendReport(i) => i + 1
    case Waiting => n
    case Closed => n
    case _ => 0
  }

  predicate IsTold(b: Batch, i: nat)
    requires i < |b.devices|
  {
    if b.early then b.main.Refusing? ==> i < b.main.next
    else b.devices[i].Told? || b.devices[i].Finished?
  }

  /** The device whose build failed and whose error is about to be sent. */
  predicate BeingReported(main: Main, i: nat) {
    main == SendReport(i) || (main.ProbeReport? && i == 0)
  }

  ghost predicate Shape(b: Batch) {
    && |b.devices| == b.n
    && Frontier(b.main, b.n) <= b.n
    && (b.main.Probing? ==> b.n > 0)
    && (b.main.Refusing? ==> b.early && b.main.next <= b.n)
    && (b.early ==> b.main.Refusing? || b.main.Closed?)
    && (b.early ==> forall i :: 0 <= i < b.n ==> b.devices[i].Unsent?)
    && (!b.early ==> forall i :: 0 <= i < b.n ==> (b.devices[i].Unsent? <==> i >= Frontier(b.main, b.n)))
    && (forall i: nat :: i < b.n ==> (b.devices[i].Refunded? <==> BeingReported(b.main, i)))
  }

  ghost predicate Counts(b: Batch)
    requires |b.devices| == b.n
  {
    && b.wg == Outstanding(b.devices)
    && (b.main.Closed? && !b.early ==> b.wg == 0)
    && PostsRight(b)
  }

  /** Every device that has been told has one message on the channels, and no other has any. */
  ghost predicate PostsRight(b: Batch)
    requires |b.devices| == b.n
  {
    && (forall i: nat :: i < b.n ==> PostsOf(b.posts, i) == if IsTold(b, i) then 1 else 0)
    && (forall k :: 0 <= k < |b.posts| ==> b.posts[k].device < b.n && Addressed(b, b.posts[k].device, b.posts[k].message))
  }

  /** A result carries the id of the device it is about. */
  predicate Addressed(b: Batch, i: nat, m: Message) {
    m.Failure? || m.id == GetID(b.n, b.maxId, i)
  }

  ghost predicate CallInv(call: Call, answers: set<(int, bool)>) {
    match call
    case Ready(header, fallback, signing) => header == signing && (fallback.Some? ==> fallback.value.header == fallback.value.bucket)
    case Answered(fallback, signing, response) =>
      && (fallback.Some? ==> fallback.value.header == fallback.value.bucket)
      && (signing.Some? ==> (signing.value, IsRefusal(response)) in answers)
    case Retrying(retry) => retry.header == retry.bucket
    case Settled(accepted, response) => accepted.Some? ==> (accepted.value, IsRefusal(response)) in answers
    case Reporting(_) => true
  }

  ghost predicate Calls(b: Batch, answers: set<(int, bool)>) {
    && b.header == b.signing
    && (b.fallback.Some? ==> b.fallback.value.header == b.fallback.value.bucket)
    && (forall i: nat :: i < |b.devices| ==> DeviceCall(b, i, answers))
  }

  ghost predicate DeviceCall(b: Batch, i: nat, answers: set<(int, bool)>)
    requires i < |b.devices|
  {
    b.devices[i].Flying? ==>
      && CallInv(b.devices[i].call, answers)
      && (b.devices[i].call.Reporting? ==> Addressed(b, i, b.devices[i].call.message))
  }

  ghost predicate SharedInv(s: Shared) {
    && (s.memo.Some? ==> (s.memo.value.bucket, true) in s.answers)
    && (s.confirmed.Some? ==> (s.confirmed.value, false) in s.answers)
  }

  lemma NewBatchInv(n: nat, maxId: nat, tokens: bool, answers: set<(int, bool)>)
    ensures var b := NewBatch(n, maxId, tokens); Shape(b) && Counts(b) && Calls(b, answers)
  {
    OutstandingAll(n);
  }

  // ---------- The batch's own steps ----------

  /** b' is b with only its place and its token variables changed. */
  predicate Moves(b: Batch, b': Batch) {
    b' == b.(main := b'.main, early := b'.early, header := b'.header, signing := b'.signing, fallback := b'.fallback)
  }

  /** A step that changes no device and tells nothing keeps everything, if it keeps the frontier. */
  lemma MoveKeeps(b: Batch, b': Batch)
    requires Shape(b) && Counts(b) && Moves(b, b')
    requires Frontier(b'.main, b.n) == Frontier(b.main, b.n)
    requires b'.early == b.early && (b.main.Refusing? <==> b'.main.Refusing?) && (b.main.Refusing? ==> b'.main == b.main)
    requires b'.main.Probing? ==> b.n > 0
    requires forall i: nat :: BeingReported(b.main, i) <==> BeingReported(b'.main, i)
    requires b'.early ==> b'.main.Refusing? || b'.main.Closed?
    requires b'.main.Closed? && !b'.early ==> b'.wg == 0
    ensures Shape(b') && Counts(b')
  {
    assert forall i: nat :: i < b.n ==> IsTold(b', i) == IsTold(b, i);
  }

  lemma GiveUpKeeps(b: Batch)
    requires Shape(b) && Counts(b) && !b.early && Frontier(b.main, b.n) == 0 && !b.main.Probing?
    requires !b.main.Closed? && !b.main.Waiting? && (forall i: nat :: !BeingReported(b.main, i))
    ensures Shape(GiveUp(b)) && Counts(GiveUp(b))
  {
    assert forall i: nat :: i < b.n ==> !IsTold(b, i) && !IsTold(GiveUp(b), i);
  }

  /** The end of the early-failure loop. */
  lemma RefusedAllKeeps(b: Batch)
    requires Shape(b) && Counts(b) && b.main.Refusing? && b.main.next >= b.n
    ensures Shape(b.(main := Closed)) && Counts(b.(main := Closed))
  {
    var b' := b.(main := Closed);
    assert forall i: nat :: i < b.n ==> IsTold(b', i) && IsTold(b, i);
  }

  lemma TellKeepsPosts(b: Batch, j: nat, m: Message, b': Batch)
    requires |b.devices| == b.n && PostsRight(b) && |b'.devices| == b'.n && j < b.n && !IsTold(b, j) && Addressed(b, j, m)
    requires b'.posts == b.posts + [Post(j, m)] && b'.n == b.n && b'.maxId == b.maxId
    requires forall i: nat :: i < b.n ==> (IsTold(b', i) <==> IsTold(b, i) || i == j)
    ensures PostsRight(b')
  {
    forall i: nat | i < b'.n ensures PostsOf(b'.posts, i) == if IsTold(b', i) then 1 else 0 {
      PostsOfTell(b.posts, j, m, i);
    }
  }

  lemma RefuseNextKeeps(b: Batch)
    requires Shape(b) && Counts(b) && b.main.Refusing? && b.main.next < b.n
    ensures var b' := Tell(b, b.main.next, Failure).(main := Refusing(b.main.next + 1)); Shape(b') && Counts(b')
  {
    var b' := Tell(b, b.main.next, Failure).(main := Refusing(b.main.next + 1));
    assert forall i: nat :: i < b.n ==> (IsTold(b', i) <==> IsTold(b, i) || i == b.main.next);
    TellKeepsPosts(b, b.main.next, Failure, b');
  }

  /** Launching a device, or counting off one that could not be built. */
  lemma BuildKeeps(b: Batch, i: nat, ok: bool, launched: Main, failed: Main)
    requires Shape(b) && Counts(b) && !b.early && i < b.n && Frontier(b.main, b.n) == i
    requires Frontier(launched, b.n) == i + 1 == Frontier(failed, b.n)
    requires !launched.Closed? && !launched.Refusing? && !launched.Probing?
    requires !failed.Closed? && !failed.Refusing? && !failed.Probing?
    requires forall j: nat :: !BeingReported(b.main, j) && !BeingReported(launched, j) && (BeingReported(failed, j) <==> j == i)
    ensures var b' := BuildAt(b, i, ok, launched, failed); Shape(b') && Counts(b')
  {
    var d := if ok then Launch(b) else Refunded;
    var b' := BuildAt(b, i, ok, launched, failed);
    OutstandingUpdate(b.devices, i, d);
    assert forall j: nat :: j < b.n ==> IsTold(b', j) == IsTold(b, j);
  }

  lemma ReportKeeps(b: Batch, i: nat, next: Main)
    requires Shape(b) && Counts(b) && !b.early && i < b.n && b.devices[i].Refunded?
    requires Frontier(next, b.n) == Frontier(b.main, b.n) && !next.Closed? && !next.Refusing? && !next.Probing?
    requires forall j: nat :: !BeingReported(next, j) && (BeingReported(b.main, j) <==> j == i)
    ensures var b' := ReportAt(b, i, next); Shape(b') && Counts(b')
  {
    var b' := ReportAt(b, i, next);
    OutstandingUpdate(b.devices, i, Finished);
    assert forall j: nat :: j < b.n ==> (IsTold(b', j) <==> IsTold(b, j) || j == i);
    TellKeepsPosts(b, i, Failure, b');
  }

  lemma SetupKeeps(b: Batch, s: Shared, a: Action)
    requires Shape(b) && Counts(b) && InSetup(b.main)
    ensures Shape(SetupStep(b, s, a)) && Counts(SetupStep(b, s, a))
  {
    var b' := SetupStep(b, s, a);
    if b'.main.Refusing? {
      GiveUpKeeps(b);
    } else if b' != b {
      MoveKeeps(b, b');
    }
  }

  lemma ProbeKeeps(b: Batch, a: Action)
    requires Shape(b) && Counts(b) && (b.main.Probing? || b.main.ProbeReport? || b.main.ProbeWait?)
    ensures Shape(SendStep(b, a)) && Counts(SendStep(b, a))
  {
    if b.main.Probing? && a.Build? {
      BuildKeeps(b, 0, a.ok, ProbeWait, ProbeReport);
    } else if b.main.ProbeReport? && a.Report? {
      ReportKeeps(b, 0, Resolving(Some(1)));
    } else if b.main.ProbeWait? && a.EndProbe? && b.devices[0] == Finished {
      MoveKeeps(b, b.(main := Resolving(Some(1))));
    }
  }

  lemma SendingKeeps(b: Batch, a: Action)
    requires Shape(b) && Counts(b) && b.main.Sending?
    ensures Shape(SendStep(b, a)) && Counts(SendStep(b, a))
  {
    var i := b.main.next;
    if a.Build? && i < b.n {
      BuildKeeps(b, i, a.ok, Sending(i + 1), SendReport(i));
    } else if a.Close? && i >= b.n {
      MoveKeeps(b, b.(main := Waiting));
    }
  }

  lemma SendReportKeeps(b: Batch, a: Action)
    requires Shape(b) && Counts(b) && b.main.SendReport?
    ensures Shape(SendStep(b, a)) && Counts(SendStep(b, a))
  {
    if a.Report? {
      ReportKeeps(b, b.main.next, Sending(b.main.next + 1));
    }
  }

  lemma EndKeeps(b: Batch, a: Action)
    requires Shape(b) && Counts(b) && (b.main.Waiting? || b.main.Closed?)
    ensures Shape(SendStep(b, a)) && Counts(SendStep(b, a))
  {
    if b.main.Waiting? && a.Close? && b.wg == 0 {
      MoveKeeps(b, b.(main := Closed));
    }
  }

  lemma RefusingKeeps(b: Batch, a: Action)
    requires Shape(b) && Counts(b) && b.main.Refusing?
    ensures Shape(SendStep(b, a)) && Counts(SendStep(b, a))
  {
    if a.Report? && b.main.next < b.n {
      RefuseNextKeeps(b);
    } else if a.Close? && b.main.next >= b.n {
      RefusedAllKeeps(b);
    }
  }

  lemma SetupKeepsCalls(b: Batch, s: Shared, a: Action)
    requires Calls(b, s.answers)
    ensures Calls(SetupStep(b, s, a), s.answers)
  {
    var b' := SetupStep(b, s, a);
    assert b'.header == b'.signing;
    assert b'.fallback.Some? ==> b'.fallback.value.header == b'.fallback.value.bucket;
    SameDevicesKeepCalls(b, b', s.answers);
  }

  lemma SameDevicesKeepCalls(b: Batch, b': Batch, answers: set<(int, bool)>)
    requires Calls(b, answers) && b'.devices == b.devices && b'.n == b.n && b'.maxId == b.maxId
    ensures forall i: nat :: i < |b'.devices| ==> DeviceCall(b', i, answers)
  {
    forall i: nat | i < |b'.devices| ensures DeviceCall(b', i, answers) {
      assert DeviceCall(b, i, answers);
    }
  }

  lemma SetDeviceKeepsCalls(b: Batch, b': Batch, i: nat, d: Device, answers: set<(int, bool)>)
    requires Calls(b, answers) && i < |b.devices| && b'.devices == b.devices[i := d]
    requires d == Launch(b) || !d.Flying?
    requires b'.header == b.header && b'.signing == b.signing && b'.fallback == b.fallback && b'.n == b.n && b'.maxId == b.maxId
    ensures Calls(b', answers)
  {
    forall j: nat | j < |b'.devices| ensures DeviceCall(b', j, answers) {
      assert DeviceCall(b, j, answers);
    }
  }

  lemma SendKeepsCalls(b: Batch, a: Action, answers: set<(int, bool)>)
    requires Shape(b) && Calls(b, answers)
    ensures Calls(SendStep(b, a), answers)
  {
    var b' := SendStep(b, a);
    match (b.main, a)
    case (Probing, Build(ok)) => SetDeviceKeepsCalls(b, b', 0, if ok then Launch(b) else Refunded, answers);
    case (ProbeReport, Report) => SetDeviceKeepsCalls(b, b', 0, Finished, answers);
    case (Sending(i), Build(ok)) =>
      if i < b.n { SetDeviceKeepsCalls(b, b', i, if ok then Launch(b) else Refunded, answers); }
    case (SendReport(i), Report) => SetDeviceKeepsCalls(b, b', i, Finished, answers);
    case _ => SameDevicesKeepCalls(b, b', answers);
  }

  // ---------- A device's steps ----------

  /** Told, counted off, moved on in flight, or unmoved. */
  predicate Kind(d: Device, e: Effect) {
    || (e.device == d && e.message.None? && !e.counted)
    || (d.Flying? && e.device.Flying? && e.message.None? && !e.counted)
    || (d.Flying? && d.call.Reporting? && e.device.Told? && e.message == Some(d.call.message) && !e.counted)
    || (d.Told? && e.device.Finished? && e.message.None? && e.counted)
  }

  lemma EffectHasKind(d: Device, tokens: bool, id: nat, s: Shared, a: Action)
    ensures Kind(d, DeviceStep(d, tokens, id, s, a))
  {
  }

  lemma EffectKeepsShape(b: Batch, i: nat, e: Effect)
    requires Shape(b) && i < b.n && Kind(b.devices[i], e)
    ensures Shape(ApplyEffect(b, i, e))
  {
  }

  lemma EffectKeeps(b: Batch, i: nat, e: Effect)
    requires Shape(b) && Counts(b) && i < b.n && Kind(b.devices[i], e)
    requires e.message.Some? ==> Addressed(b, i, e.message.value)
    ensures Shape(ApplyEffect(b, i, e)) && Counts(ApplyEffect(b, i, e))
  {
    var b' := ApplyEffect(b, i, e);
    EffectKeepsShape(b, i, e);
    OutstandingUpdate(b.devices, i, e.device);
    if b.wg == 0 {
      OutstandingZero(b.devices, i);
    }
    if e.message.Some? {
      assert forall j: nat :: j < b.n ==> (IsTold(b', j) <==> IsTold(b, j) || j == i);
      TellKeepsPosts(b, i, e.message.value, b');
    } else {
      assert forall j: nat :: j < b.n ==> IsTold(b', j) == IsTold(b, j);
    }
  }

  /** What a device's goroutine records about the token is what APNs answered to that token. */
  lemma CallStaysHonest(d: Device, tokens: bool, id: nat, s: Shared, a: Action)
    requires SharedInv(s) && (d.Flying? ==> CallInv(d.call, s.answers))
    ensures var e := DeviceStep(d, tokens, id, s, a);
            && SharedInv(e.shared) && s.answers <= e.shared.answers
            && (e.device.Flying? ==> CallInv(e.device.call, e.shared.answers))
            && (e.device.Flying? && e.device.call.Reporting? && e.device != d ==>
                  e.device.call.message.Failure? || e.device.call.message.id == id)
  {
  }

  lemma MoreAnswers(call: Call, a: set<(int, bool)>, b: set<(int, bool)>)
    requires CallInv(call, a) && a <= b
    ensures CallInv(call, b)
  {
  }

  lemma DeviceKeepsCalls(b: Batch, s: Shared, i: nat, a: Action)
    requires Calls(b, s.answers) && SharedInv(s) && i < |b.devices|
    ensures var e := EffectOf(b, i, s, a);
            Calls(ApplyEffect(b, i, e), e.shared.answers) && SharedInv(e.shared) && s.answers <= e.shared.answers
  {
    var e := EffectOf(b, i, s, a);
    assert DeviceCall(b, i, s.answers);
    CallStaysHonest(b.devices[i], b.tokens, GetID(b.n, b.maxId, i), s, a);
    EffectKeepsCalls(b, i, e, s.answers);
  }

  lemma EffectKeepsCalls(b: Batch, i: nat, e: Effect, answers: set<(int, bool)>)
    requires Calls(b, answers) && i < |b.devices| && answers <= e.shared.answers
    requires e.device.Flying? ==> CallInv(e.device.call, e.shared.answers)
    requires e.device.Flying? && e.device.call.Reporting? && e.device != b.devices[i] ==> Addressed(b, i, e.device.call.message)
    ensures Calls(ApplyEffect(b, i, e), e.shared.answers)
  {
    var b' := ApplyEffect(b, i, e);
    forall j: nat | j < |b'.devices| ensures DeviceCall(b', j, e.shared.answers) {
      assert DeviceCall(b, j, answers);
      if j != i && b.devices[j].Flying? {
        MoreAnswers(b.devices[j].call, answers, e.shared.answers);
      }
    }
  }

  // ---------- Runs of any number of batches ----------

  datatype World = World(shared: Shared, batches: map<nat, Batch>)

  datatype Step = Submit(batch: nat, n: nat, maxId: nat, tokens: bool) | Act(batch: nat, action: Action)

  function Apply(w: World, step: Step): World {
    match step
    case Submit(id, n, maxId, tokens) =>
      if id in w.batches then w else w.(batches := w.batches[id := NewBatch(n, maxId, tokens)])
    case Act(id, a) =>
      if id !in w.batches then w else
      var (b, s) := BatchStep(w.batches[id], w.shared, a);
      World(s, w.batches[id := b])
  }

  function Reached(steps: seq<Step>): World {
    if steps == [] then World(Shared(None, None, {}), map[])
    else Apply(Reached(steps[..|steps| - 1]), steps[|steps| - 1])
  }

  ghost predicate BatchInv(b: Batch, answers: set<(int, bool)>) {
    Shape(b) && Counts(b) && Calls(b, answers)
  }

  ghost predicate Inv(w: World) {
    SharedInv(w.shared) && forall id :: id in w.batches ==> BatchInv(w.batches[id], w.shared.answers)
  }

  lemma OthersKeepBatch(b: Batch, before: set<(int, bool)>, after: set<(int, bool)>)
    requires BatchInv(b, before) && before <= after
    ensures BatchInv(b, after)
  {
    forall i: nat | i < |b.devices| ensures DeviceCall(b, i, after) {
      assert DeviceCall(b, i, before);
      if b.devices[i].Flying? {
        MoreAnswers(b.devices[i].call, before, after);
      }
    }
  }

  lemma BatchStepKeeps(b: Batch, s: Shared, a: Action)
    requires BatchInv(b, s.answers) && SharedInv(s)
    ensures var (b', s') := BatchStep(b, s, a);
            BatchInv(b', s'.answers) && SharedInv(s') && s.answers <= s'.answers
  {
    if !OfDevice(a) {
      if InSetup(b.main) {
        SetupKeeps(b, s, a);
        SetupKeepsCalls(b, s, a);
      } else {
        if b.main.Probing? || b.main.ProbeReport? || b.main.ProbeWait? {
          ProbeKeeps(b, a);
        } else if b.main.Sending? {
          SendingKeeps(b, a);
        } else if b.main.SendReport? {
          SendReportKeeps(b, a);
        } else if b.main.Refusing? {
          RefusingKeeps(b, a);
        } else {
          EndKeeps(b, a);
        }
        SendKeepsCalls(b, a, s.answers);
      }
    } else if Index(a) < |b.devices| {
      var i := Index(a);
      EffectHasKind(b.devices[i], b.tokens, GetID(b.n, b.maxId, i), s, a);
      assert DeviceCall(b, i, s.answers);
      EffectKeeps(b, i, EffectOf(b, i, s, a));
      DeviceKeepsCalls(b, s, i, a);
    }
  }

  lemma InvPreserved(w: World, step: Step)
    requires Inv(w)
    ensures Inv(Apply(w, step))
  {
    match step
    case Submit(id, n, maxId, tokens) => NewBatchInv(n, maxId, tokens, w.shared.answers);
    case Act(id, a) =>
      if id in w.batches {
        BatchStepKeeps(w.batches[id], w.shared, a);
        var s' := BatchStep(w.batches[id], w.shared, a).1;
        forall other | other in w.batches && other != id ensures BatchInv(w.batches[other], s'.answers) {
          OthersKeepBatch(w.batches[other], w.shared.answers, s'.answers);
        }
      }
  }

  lemma {:induction false} RunKeepsInv(steps: seq<Step>)
    ensures Inv(Reached(steps))
  {
    if steps != [] {
      RunKeepsInv(steps[..|steps| - 1]);
      InvPreserved(Reached(steps[..|steps| - 1]), steps[|steps| - 1]);
    }
  }

  // ---------- Progress ----------

  /** How many steps a device has ahead of it at most. */
  function DeviceLeft(d: Device): nat {
    match d
    case Unsent => 7
    case Refunded => 1
    case Flying(call) =>
      (match call
       case Ready(_, _, _) => 6
       case Answered(_, _, _) => 5
       case Retrying(_) => 4
       case Settled(_, _) => 3
       case Reporting(_) => 2)
    case Told => 1
    case Finished => 0
  }

  function DevicesLeft(ds: seq<Device>): nat {
    if ds == [] then 0 else DevicesLeft(ds[..|ds| - 1]) + DeviceLeft(ds[|ds| - 1])
  }

  /** The same for the batch's own goroutine. */
  function MainLeft(main: Main, n: nat): nat {
    match main
    case Start => 2 * n + 14
    case Authenticating => 2 * n + 13
    case Resolving(first) => if first.None? then 2 * n + 12 else 2 * n + 6
    case FallingBack(first) => if first.None? then 2 * n + 11 else 2 * n + 5
    case Connecting => 2 * n + 10
    case Choosing => 2 * n + 9
    case Probing => 2 * n + 8
    case ProbeReport => 2 * n + 7
    case ProbeWait => 2 * n + 7
    case Sending(i) => if i <= n then 2 * (n - i) + 2 else 2
    case SendReport(i) => if i < n then 2 * (n - i) + 1 else 3
    case Waiting => 1
    case Refusing(i) => if i <= n then n - i + 1 else 1
    case Closed => 0
  }

  function Left(b: Batch): nat {
    MainLeft(b.main, b.n) + DevicesLeft(b.devices)
  }

  lemma {:induction false} DevicesLeftUpdate(ds: seq<Device>, i: nat, d: Device)
    requires i < |ds|
    ensures DevicesLeft(ds[i := d]) + DeviceLeft(ds[i]) == DevicesLeft(ds) + DeviceLeft(d)
  {
    var ds', last := ds[i := d], |ds| - 1;
    if i == last {
      assert ds'[..last] == ds[..last];
    } else {
      assert ds'[..last] == ds[..last][i := d];
      DevicesLeftUpdate(ds[..last], i, d);
    }
  }

  lemma {:induction false} DevicesLeftAll(n: nat)
    ensures DevicesLeft(seq(n, _ => Unsent)) == 7 * n
  {
    if n > 0 {
      assert seq(n, _ => Unsent)[..n - 1] == seq(n - 1, _ => Unsent);
      DevicesLeftAll(n - 1);
    }
  }

  lemma DeviceStepLowers(d: Device, tokens: bool, id: nat, s: Shared, a: Action)
    ensures var e := DeviceStep(d, tokens, id, s, a);
            if e.device == d then e.message.None? && !e.counted else DeviceLeft(e.device) < DeviceLeft(d)
  {
  }

  lemma BuildLowers(b: Batch, i: nat, ok: bool, launched: Main, failed: Main)
    requires i < |b.devices| && b.devices[i].Unsent?
    requires MainLeft(launched, b.n) <= MainLeft(b.main, b.n) && MainLeft(failed, b.n) <= MainLeft(b.main, b.n)
    ensures Left(BuildAt(b, i, ok, launched, failed)) < Left(b)
  {
    DevicesLeftUpdate(b.devices, i, if ok then Launch(b) else Refunded);
  }

  lemma ReportLowers(b: Batch, i: nat, next: Main)
    requires i < |b.devices| && MainLeft(next, b.n) < MainLeft(b.main, b.n)
    ensures Left(ReportAt(b, i, next)) < Left(b)
  {
    DevicesLeftUpdate(b.devices, i, Finished);
  }

  lemma SendStepLowers(b: Batch, a: Action)
    requires Shape(b) && !InSetup(b.main)
    ensures SendStep(b, a) != b ==> Left(SendStep(b, a)) < Left(b)
  {
    if a.Build? && b.main.Probing? {
      BuildLowers(b, 0, a.ok, ProbeWait, ProbeReport);
    } else if a.Build? && b.main.Sending? && b.main.next < b.n {
      BuildLowers(b, b.main.next, a.ok, Sending(b.main.next + 1), SendReport(b.main.next));
    } else if a.Report? && b.main.ProbeReport? {
      ReportLowers(b, 0, Resolving(Some(1)));
    } else if a.Report? && b.main.SendReport? {
      ReportLowers(b, b.main.next, Sending(b.main.next + 1));
    }
  }

  lemma SetupStepLowers(b: Batch, s: Shared, a: Action)
    requires InSetup(b.main)
    ensures SetupStep(b, s, a) != b ==> Left(SetupStep(b, s, a)) < Left(b)
  {
  }

  lemma EffectLowers(b: Batch, i: nat, e: Effect)
    requires i < |b.devices|
    requires if e.device == b.devices[i] then e.message.None? && !e.counted else DeviceLeft(e.device) < DeviceLeft(b.devices[i])
    ensures ApplyEffect(b, i, e) != b ==> Left(ApplyEffect(b, i, e)) < Left(b)
  {
    DevicesLeftUpdate(b.devices, i, e.device);
    if e.device == b.devices[i] {
      assert b.devices[i := e.device] == b.devices;
    }
  }

  /** Whatever happens, and whatever APNs answers, a step that changes a batch leaves fewer ahead of it. */
  lemma EveryStepLowers(b: Batch, s: Shared, a: Action)
    requires Shape(b)
    ensures BatchStep(b, s, a).0 != b ==> Left(BatchStep(b, s, a).0) < Left(b)
  {
    if !OfDevice(a) {
      if InSetup(b.main) { SetupStepLowers(b, s, a); } else { SendStepLowers(b, a); }
    } else if Index(a) < |b.devices| {
      DeviceStepLowers(b.devices[Index(a)], b.tokens, GetID(b.n, b.maxId, Index(a)), s, a);
      EffectLowers(b, Index(a), EffectOf(b, Index(a), s, a));
    }
  }

  /** What a device's goroutine does next, with a failed request for every answer it waits for. */
  function NextOf(d: Device, i: nat): Action {
    match d
    case Flying(call) =>
      (match call
       case Ready(_, _, _) => Reply(i, None)
       case Answered(_, _, _) => NoteRefused(i, 0)
       case Retrying(_) => RetryReply(i, None)
       case Settled(_, _) => NoteAccepted(i)
       case Reporting(_) => Send(i))
    case _ => Done(i)
  }

  lemma DeviceCanMove(b: Batch, s: Shared, i: nat)
    requires i < |b.devices| && (b.devices[i].Flying? || b.devices[i].Told?)
    ensures BatchStep(b, s, NextOf(b.devices[i], i)).0 != b
  {
    var a := NextOf(b.devices[i], i);
    assert EffectOf(b, i, s, a).device != b.devices[i];
    assert BatchStep(b, s, a).0.devices[i] != b.devices[i];
  }

  lemma {:induction false} SomeHolds(ds: seq<Device>) returns (i: nat)
    requires Outstanding(ds) > 0
    ensures i < |ds| && Holds(ds[i]) == 1
  {
    if Holds(ds[|ds| - 1]) == 1 {
      i := |ds| - 1;
    } else {
      i := SomeHolds(ds[..|ds| - 1]);
    }
  }

  /** A batch that waits, for its probe or for its WaitGroup, waits for a device that can move. */
  lemma WaitsForSomeone(b: Batch, s: Shared) returns (a: Action)
    requires Shape(b) && Counts(b) && (b.main.ProbeWait? || b.main.Waiting?)
    ensures BatchStep(b, s, a).0 != b
  {
    if b.main.ProbeWait? {
      assert !b.devices[0].Unsent? && !b.devices[0].Refunded?;
      if b.devices[0].Finished? {
        return EndProbe;
      }
      DeviceCanMove(b, s, 0);
      return NextOf(b.devices[0], 0);
    }
    if b.wg == 0 {
      return Close;
    }
    var i := SomeHolds(b.devices);
    assert !b.devices[i].Unsent?;
    DeviceCanMove(b, s, i);
    return NextOf(b.devices[i], i);
  }

  /** No batch is ever stuck: until it has closed its channels, some step changes it. */
  lemma NeverStuck(b: Batch, s: Shared) returns (a: Action)
    requires Shape(b) && Counts(b) && !b.main.Closed?
    ensures BatchStep(b, s, a).0 != b
  {
    match b.main
    case Start => a := Check(true);
    case Authenticating => a := Sign(0, true);
    case Resolving(_) => a := ReadToken(0, false);
    case FallingBack(_) => a := ReadFallback(0, false);
    case Connecting => a := GetClient(true);
    case Choosing => a := Choose(NoProbe);
    case Probing => a := Build(true);
    case ProbeReport => a := Report;
    case SendReport(_) => a := Report;
    case Sending(i) => a := if i < b.n then Build(true) else Close;
    case Refusing(i) => a := if i < b.n then Report else Close;
    case _ => a := WaitsForSomeone(b, s);
  }

  /** How many steps of the run have changed the batch. */
  function Spent(steps: seq<Step>, id: nat): nat {
    if steps == [] then 0 else
    var init := steps[..|steps| - 1];
    Spent(init, id) +
    if id in Reached(init).batches && Reached(steps).batches[id] != Reached(init).batches[id] then 1 else 0
  }

  // ---------- The theorems ----------

  lemma StepSpends(w: World, step: Step, id: nat)
    requires id in w.batches && Shape(w.batches[id])
    ensures id in Apply(w, step).batches
    ensures var b, b' := w.batches[id], Apply(w, step).batches[id];
            b'.n == b.n && (b' != b ==> Left(b') < Left(b))
  {
    if step.Act? && step.batch == id {
      EveryStepLowers(w.batches[id], w.shared, step.action);
    }
  }

  lemma ShapeHolds(steps: seq<Step>, id: nat)
    requires id in Reached(steps).batches
    ensures Shape(Reached(steps).batches[id]) && Counts(Reached(steps).batches[id])
  {
    RunKeepsInv(steps);
    assert BatchInv(Reached(steps).batches[id], Reached(steps).shared.answers);
  }

  lemma NewBatchLeft(n: nat, maxId: nat, tokens: bool)
    ensures Left(NewBatch(n, maxId, tokens)) == 9 * n + 14
  {
    DevicesLeftAll(n);
  }

  /** In every interleaving a batch of n devices changes at most 9n + 14 times, whatever APNs answers, and stops only closed. */
  lemma {:induction false} EveryBatchEnds(steps: seq<Step>, id: nat)
    requires id in Reached(steps).batches
    ensures Spent(steps, id) + Left(Reached(steps).batches[id]) <= 9 * Reached(steps).batches[id].n + 14
    ensures var w := Reached(steps);
            (forall a :: BatchStep(w.batches[id], w.shared, a).0 == w.batches[id]) ==> w.batches[id].main.Closed?
  {
    ShapeHolds(steps, id);
    if !Reached(steps).batches[id].main.Closed? {
      var a := NeverStuck(Reached(steps).batches[id], Reached(steps).shared);
    }
    var init, last := steps[..|steps| - 1], steps[|steps| - 1];
    if id in Reached(init).batches {
      EveryBatchEnds(init, id);
      ShapeHolds(init, id);
      StepSpends(Reached(init), last, id);
    } else {
      NothingSpentBefore(init, id);
      NewBatchLeft(last.n, last.maxId, last.tokens);
    }
  }

  lemma {:induction false} NothingSpentBefore(steps: seq<Step>, id: nat)
    requires id !in Reached(steps).batches
    ensures Spent(steps, id) == 0
  {
    if steps != [] {
      NothingSpentBefore(steps[..|steps| - 1], id);
    }
  }

  /** Every batch of every run can be brought to its end by its own steps, with each device told exactly once. */
  lemma EveryBatchCanClose(steps: seq<Step>, id: nat) returns (more: seq<Step>)
    requires id in Reached(steps).batches
    ensures forall i :: 0 <= i < |more| ==> more[i].Act? && more[i].batch == id
    ensures id in Reached(steps + more).batches
    ensures var b := Reached(steps + more).batches[id];
            b.main.Closed? && forall i: nat :: i < b.n ==> PostsOf(b.posts, i) == 1
  {
    var all := CanClose(steps, id);
    more := all[|steps|..];
    assert steps + more == all;
    EachDeviceIsToldOnce(all, id);
  }

  lemma {:induction false} CanClose(steps: seq<Step>, id: nat) returns (all: seq<Step>)
    requires id in Reached(steps).batches
    ensures steps <= all && forall i :: |steps| <= i < |all| ==> all[i].Act? && all[i].batch == id
    ensures id in Reached(all).batches && Reached(all).batches[id].main.Closed?
    decreases Left(Reached(steps).batches[id])
  {
    if Reached(steps).batches[id].main.Closed? {
      all := steps;
    } else {
      var a := OneStepNearer(steps, id);
      all := CanClose(steps + [Act(id, a)], id);
      assert all[|steps|] == (steps + [Act(id, a)])[|steps|];
    }
  }

  lemma OneStepNearer(steps: seq<Step>, id: nat) returns (a: Action)
    requires id in Reached(steps).batches && !Reached(steps).batches[id].main.Closed?
    ensures id in Reached(steps + [Act(id, a)]).batches
    ensures Left(Reached(steps + [Act(id, a)]).batches[id]) < Left(Reached(steps).batches[id])
  {
    var w := Reached(steps);
    ShapeHolds(steps, id);
    a := NeverStuck(w.batches[id], w.shared);
    EveryStepLowers(w.batches[id], w.shared, a);
    assert (steps + [Act(id, a)])[..|steps|] == steps;
  }

  /** A step that would send on one of the batch's channels. */
  predicate Sends(b: Batch, s: Shared, a: Action) {
    |BatchStep(b, s, a).0.posts| > |b.posts|
  }

  lemma ClosedSendsNothing(b: Batch, s: Shared, a: Action)
    requires Shape(b) && Counts(b) && b.main.Closed?
    ensures !Sends(b, s, a)
  {
    if OfDevice(a) && Index(a) < |b.devices| {
      var i := Index(a);
      EffectHasKind(b.devices[i], b.tokens, GetID(b.n, b.maxId, i), s, a);
      if !b.early { OutstandingZero(b.devices, i); }
    }
  }

  /**
    In every interleaving of any number of batches, early failures, probes and fallback retries
    included: the WaitGroup never goes negative and is zero when a batch that waits on it goes on;
    no device is told twice and, when the channels close, each has been told exactly once; a result
    carries its device's id; and nothing is sent on a closed channel.
   */
  lemma EachDeviceIsToldOnce(steps: seq<Step>, id: nat)
    requires id in Reached(steps).batches
    ensures var b := Reached(steps).batches[id];
            && b.wg >= 0
            && (b.main.Closed? && !b.early ==> b.wg == 0)
            && (forall i: nat :: i < b.n ==> PostsOf(b.posts, i) <= 1)
            && (b.main.Closed? ==> forall i: nat :: i < b.n ==> PostsOf(b.posts, i) == 1)
            && (forall k :: 0 <= k < |b.posts| ==> b.posts[k].device < b.n && Addressed(b, b.posts[k].device, b.posts[k].message))
    ensures var b := Reached(steps).batches[id];
            b.main.Closed? ==> forall a :: !Sends(b, Reached(steps).shared, a)
  {
    RunKeepsInv(steps);
    var b := Reached(steps).batches[id];
    assert BatchInv(b, Reached(steps).shared.answers);
    if b.main.Closed? {
      forall i: nat | i < b.n ensures PostsOf(b.posts, i) == 1 {
        if !b.early { OutstandingZero(b.devices, i); }
      }
      forall a ensures !Sends(b, Reached(steps).shared, a) {
        ClosedSendsNothing(b, Reached(steps).shared, a);
      }
    }
  }

  /** Each result of a batch that fits 32 bits is matched back to the device it was sent for. */
  lemma ResultsReachTheirDevice(steps: seq<Step>, id: nat, k: nat)
    requires id in Reached(steps).batches
    requires var b := Reached(steps).batches[id];
             b.n < UINT32 && k < |b.posts| && !b.posts[k].message.Failure?
    ensures var b := Reached(steps).batches[id];
            Matched(b.n, b.maxId, b.posts[k].message.id) == Some(b.posts[k].device)
  {
    EachDeviceIsToldOnce(steps, id);
    IdsFindTheirDevice(Reached(steps).batches[id].n, Reached(steps).batches[id].maxId);
  }

  /** The result channel, which has room for one message per device, is never over-full. */
  lemma ResultsFitTheirChannel(steps: seq<Step>, id: nat)
    requires id in Reached(steps).batches
    ensures |Reached(steps).batches[id].posts| <= Reached(steps).batches[id].n
  {
    EachDeviceIsToldOnce(steps, id);
    var b := Reached(steps).batches[id];
    PostsFit(b.posts, b.n);
  }

  lemma {:induction false} PostsFit(posts: seq<Post>, n: nat)
    requires forall k :: 0 <= k < |posts| ==> posts[k].device < n
    requires forall i: nat :: i < n ==> PostsOf(posts, i) <= 1
    ensures |posts| <= n
  {
    var seen := set k | 0 <= k < |posts| :: posts[k].device;
    DistinctPosts(posts, n);
    BelowSize(n);
    assert seen <= Below(n);
    assert |Below(n)| == |seen| + |Below(n) - seen|;
  }

  function Below(n: nat): set<nat> {
    if n == 0 then {} else Below(n - 1) + {n - 1}
  }

  lemma {:induction false} BelowSize(n: nat)
    ensures |Below(n)| == n && forall i: nat :: i in Below(n) <==> i < n
  {
    if n > 0 {
      BelowSize(n - 1);
    }
  }

  lemma {:induction false} DistinctPosts(posts: seq<Post>, n: nat)
    requires forall k :: 0 <= k < |posts| ==> posts[k].device < n
    requires forall i: nat :: i < n ==> PostsOf(posts, i) <= 1
    ensures |set k | 0 <= k < |posts| :: posts[k].device| == |posts|
  {
    if posts != [] {
      var init, last := posts[..|posts| - 1], posts[|posts| - 1].device;
      assert forall i: nat :: i < n ==> PostsOf(init, i) <= PostsOf(posts, i);
      DistinctPosts(init, n);
      assert PostsOf(init, last) == 0;
      NotPosted(init, last);
      assert (set k | 0 <= k < |posts| :: posts[k].device) == (set k | 0 <= k < |init| :: init[k].device) + {last};
    }
  }

  lemma {:induction false} NotPosted(posts: seq<Post>, i: nat)
    requires PostsOf(posts, i) == 0
    ensures forall k :: 0 <= k < |posts| ==> posts[k].device != i
  {
    if posts != [] {
      NotPosted(posts[..|posts| - 1], i);
    }
  }

  /**
    However signing, answering and bookkeeping of the batches interleave, refusedBucket only ever
    names a bucket whose own token drew a mint-floor refusal, and confirmedBucket only one whose
    own token drew some other answer.
   */
  lemma BookkeepingIsHonest(steps: seq<Step>)
    ensures var s := Reached(steps).shared;
            && (s.memo.Some? ==> (s.memo.value.bucket, true) in s.answers)
            && (s.confirmed.Some? ==> (s.confirmed.value, false) in s.answers)
  {
    RunKeepsInv(steps);
  }
}
