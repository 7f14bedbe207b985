/**
  What a batch of srv/apns/http_api/processor.go does for each device, told from the actions of
  a run alone: what was sent, what APNs answered, what that has to mean. Batches is held to it.
 */
module Stories {
  import opened Basics
  import opened TokenSchedule
  import opened Batches
  import TokenRuns

  // ---------- What an answer means ----------

  /** APNs took the notification. */
  predicate Delivered(r: Response) {
    r.status == 200 && r.body == NoBody
  }

  /** APNs says the device token is dead. */
  predicate Dead(r: Response) {
    || (r.status == 410 && r.body == NoBody)
    || (!(300 <= r.status < 400) &&
        r.body in {Reason("BadDeviceToken"), Reason("DeviceTokenNotForTopic"), Reason("Unregistered"), Reason("ExpiredToken")})
  }

  /** APNs refuses the provider token because it saw another too recently. */
  predicate FloorRefusal(r: Response) {
    r.status != 200 && r.body == Reason("TooManyProviderTokenUpdates")
  }

  // ---------- A device's story ----------

  /**
    Sent: the tokens the device went out with, what came back to the first request and to the
    second, None for a request that failed; noted and acked: the refusal and the acceptance of
    the answer have been dealt with.
   */
  datatype Story =
    | NotYet
    | Unbuilt
    | Sent(header: Option<int>, fallback: Option<Fallback>, signing: Option<int>,
           first: Option<Option<Response>>, noted: bool, second: Option<Option<Response>>, acked: bool)

  /** The device goes out a second time, with the fallback token. */
  predicate GoesAgain(s: Story) {
    s.Sent? && s.fallback.Some? && s.first.Some? && s.first.value.Some? && FloorRefusal(s.first.value.value)
  }

  /** Every request the device was due has come back. */
  predicate Complete(s: Story) {
    s.Sent? && s.first.Some? && (GoesAgain(s) ==> s.second.Some?)
  }

  /** The last answer: the second request's if there was one. */
  function LastAnswer(s: Story): Option<Response> {
    if !Complete(s) then None else if GoesAgain(s) then s.second.value else s.first.value
  }

  /** The bucket of the token the last answer was given to. */
  function AnsweredBucket(s: Story): Option<int>
    requires s.Sent?
  {
    if GoesAgain(s) then Some(s.fallback.value.bucket) else s.signing
  }

  /** The device whose turn it is to be built. */
  function Turn(main: Main, n: nat): Option<nat> {
    match main
    case Probing => if n > 0 then Some(0) else None
    case Sending(i) => if i < n then Some(i) else None
    case _ => None
  }

  function Next(s: Story, b: Batch, i: nat, a: Action): Story {
    match a
    case Build(ok) =>
      if s != NotYet || Turn(b.main, b.n) != Some(i) then s
      else if ok then Sent(b.header, b.fallback, b.signing, None, false, None, false) else Unbuilt
    case Reply(j, response) => if j == i && s.Sent? && s.first.None? then s.(first := Some(response)) else s
    case NoteRefused(j, _) => if j == i && s.Sent? && s.first.Some? && s.first.value.Some? then s.(noted := true) else s
    case RetryReply(j, response) =>
      if j == i && GoesAgain(s) && s.noted && s.second.None? then s.(second := Some(response)) else s
    case NoteAccepted(j) => if j == i && s.Sent? && s.noted && LastAnswer(s).Some? then s.(acked := true) else s
    case _ => s
  }

  /** The story of device i of a batch, after a run. */
  function StoryOf(steps: seq<Step>, id: nat, i: nat): Story {
    if steps == [] then NotYet else
    var init, last := steps[..|steps| - 1], steps[|steps| - 1];
    if last.Act? && last.batch == id && id in Reached(init).batches
    then Next(StoryOf(init, id, i), Reached(init).batches[id], i, last.action)
    else StoryOf(init, id, i)
  }

  /** The message is about the last answer, and says what it means. */
  ghost predicate Fits(m: Message, s: Story) {
    && (m.Success? <==> LastAnswer(s).Some? && Delivered(LastAnswer(s).value))
    && (m.Unsubscribe? <==> LastAnswer(s).Some? && Dead(LastAnswer(s).value))
  }

  /** The device is where its story says. */
  ghost predicate Tells(d: Device, s: Story) {
    match d
    case Unsent => s == NotYet
    case Refunded => s == Unbuilt
    case Flying(Ready(header, fallback, signing)) => s == Sent(header, fallback, signing, None, false, None, false)
    case Flying(Answered(fallback, signing, r)) => s.Sent? && s == Sent(s.header, fallback, signing, Some(Some(r)), false, None, false)
    case Flying(Retrying(retry)) => GoesAgain(s) && s.fallback == Some(retry) && s.noted && s.second.None? && !s.acked
    case Flying(Settled(accepted, r)) => s.Sent? && s.noted && !s.acked && LastAnswer(s) == Some(r) && accepted == AnsweredBucket(s)
    case Flying(Reporting(m)) => Closed(s) && Fits(m, s)
    case Told => Closed(s)
    case Finished => s == Unbuilt || Closed(s)
  }

  /** Nothing is left to do but to tell. */
  predicate Closed(s: Story) {
    Complete(s) && (GoesAgain(s) ==> s.noted) && (LastAnswer(s).Some? ==> s.noted && s.acked)
  }

  // ---------- The batch keeps to the stories ----------

  lemma ReportFits(r: Response, id: nat, s: Story)
    requires LastAnswer(s) == Some(r)
    ensures Fits(HandleResponse(r, id), s)
  {
  }

  lemma DeviceStepTells(d: Device, b: Batch, i: nat, sh: Shared, a: Action, s: Story)
    requires OfDevice(a) && Index(a) == i && Tells(d, s)
    ensures Tells(DeviceStep(d, b.tokens, GetID(b.n, b.maxId, i), sh, a).device, Next(s, b, i, a))
  {
  }

  lemma SetupStepTells(b: Batch, i: nat, sh: Shared, a: Action, s: Story)
    requires |b.devices| == b.n && i < b.n && !OfDevice(a) && InSetup(b.main) && Tells(b.devices[i], s)
    ensures SetupStep(b, sh, a).devices == b.devices && Next(s, b, i, a) == s
  {
  }

  /** A device is built when its turn comes, or counted off for good. */
  lemma BuildTells(b: Batch, i: nat, a: Action, s: Story)
    requires Shape(b) && i < b.n && a.Build? && !InSetup(b.main) && Tells(b.devices[i], s)
    ensures |SendStep(b, a).devices| == b.n && Tells(SendStep(b, a).devices[i], Next(s, b, i, a))
  {
    assert Turn(b.main, b.n) == Some(i) ==> b.devices[i].Unsent?;
  }

  lemma SendStepTells(b: Batch, i: nat, a: Action, s: Story)
    requires Shape(b) && i < b.n && !OfDevice(a) && !a.Build? && !InSetup(b.main) && Tells(b.devices[i], s)
    ensures |SendStep(b, a).devices| == b.n && Tells(SendStep(b, a).devices[i], Next(s, b, i, a))
  {
    assert Next(s, b, i, a) == s;
  }

  /** A step of the batch's own goroutine. */
  lemma MainStepTells(b: Batch, i: nat, sh: Shared, a: Action, s: Story)
    requires Shape(b) && i < b.n && !OfDevice(a) && Tells(b.devices[i], s)
    ensures |MainStep(b, sh, a).devices| == b.n && Tells(MainStep(b, sh, a).devices[i], Next(s, b, i, a))
  {
    if InSetup(b.main) {
      SetupStepTells(b, i, sh, a, s);
    } else if a.Build? {
      BuildTells(b, i, a, s);
    } else {
      SendStepTells(b, i, a, s);
    }
  }

  lemma BatchStepTells(b: Batch, i: nat, sh: Shared, a: Action, s: Story)
    requires Shape(b) && i < b.n && Tells(b.devices[i], s)
    ensures var b' := BatchStep(b, sh, a).0; |b'.devices| == b.n && Tells(b'.devices[i], Next(s, b, i, a))
  {
    if !OfDevice(a) {
      MainStepTells(b, i, sh, a, s);
    } else if Index(a) == i {
      DeviceStepTells(b.devices[i], b, i, sh, a, s);
    } else {
      OtherDeviceTells(b, i, sh, a, s);
    }
  }

  lemma OtherDeviceTells(b: Batch, i: nat, sh: Shared, a: Action, s: Story)
    requires |b.devices| == b.n && i < b.n && OfDevice(a) && Index(a) != i
    ensures var b' := BatchStep(b, sh, a).0; |b'.devices| == b.n && b'.devices[i] == b.devices[i] && Next(s, b, i, a) == s
  {
  }

  /** A device that has been told has its last answer for good. */
  lemma ToldStays(b: Batch, i: nat, a: Action, s: Story)
    requires Shape(b) && i < b.n && IsTold(b, i) && Tells(b.devices[i], s)
    ensures LastAnswer(Next(s, b, i, a)) == LastAnswer(s)
  {
  }

  lemma PostedIsTold(b: Batch, k: nat)
    requires Shape(b) && Counts(b) && k < |b.posts|
    ensures b.posts[k].device < b.n && IsTold(b, b.posts[k].device)
  {
    var i := b.posts[k].device;
    if !IsTold(b, i) {
      NotPosted(b.posts, i);
    }
  }

  /** At most one post was added, for a device of the batch. */
  ghost predicate OneMore(b: Batch, b': Batch) {
    b'.posts == b.posts || (exists post: Post :: post.device < b.n && b'.posts == b.posts + [post])
  }

  lemma SendPosts(b: Batch, a: Action)
    requires Shape(b)
    ensures OneMore(b, SendStep(b, a)) && |SendStep(b, a).devices| == SendStep(b, a).n == b.n
  {
    var b' := SendStep(b, a);
    if |b'.posts| > |b.posts| {
      assert b'.posts == b.posts + [b'.posts[|b.posts|]];
    }
  }

  lemma EffectPosts(b: Batch, i: nat, e: Effect)
    requires |b.devices| == b.n && i < b.n
    ensures OneMore(b, ApplyEffect(b, i, e)) && |ApplyEffect(b, i, e).devices| == ApplyEffect(b, i, e).n == b.n
  {
    if e.message.Some? {
      assert ApplyEffect(b, i, e).posts == b.posts + [Post(i, e.message.value)];
    }
  }

  lemma StepPosts(b: Batch, sh: Shared, a: Action)
    requires Shape(b)
    ensures var b' := BatchStep(b, sh, a).0; OneMore(b, b') && |b'.devices| == b'.n == b.n
  {
    if OfDevice(a) {
      if Index(a) < |b.devices| { EffectPosts(b, Index(a), EffectOf(b, Index(a), sh, a)); }
    } else if !InSetup(b.main) {
      SendPosts(b, a);
    }
  }

  /** A message of the batch's own goroutine is a failure, for a device that was never sent. */
  lemma SendPostFits(b: Batch, a: Action, post: Post, s: Story)
    requires Shape(b) && !InSetup(b.main) && !OfDevice(a) && post.device < b.n && Tells(b.devices[post.device], s)
    requires SendStep(b, a).posts == b.posts + [post]
    ensures Fits(post.message, Next(s, b, post.device, a))
  {
    assert SendStep(b, a).posts[|b.posts|] == post;
    assert Next(s, b, post.device, a) == s;
  }

  lemma EffectPostFits(b: Batch, sh: Shared, a: Action, post: Post, s: Story)
    requires OfDevice(a) && Index(a) < |b.devices| && post.device < |b.devices| && Tells(b.devices[post.device], s)
    requires ApplyEffect(b, Index(a), EffectOf(b, Index(a), sh, a)).posts == b.posts + [post]
    ensures Fits(post.message, Next(s, b, post.device, a))
  {
    var i := Index(a);
    var e := EffectOf(b, i, sh, a);
    EffectHasKind(b.devices[i], b.tokens, GetID(b.n, b.maxId, i), sh, a);
    assert ApplyEffect(b, i, e).posts[|b.posts|] == post;
    assert b.posts != b.posts + [post];
  }

  /** What one step posts fits the story. */
  lemma NewPostFits(b: Batch, sh: Shared, a: Action, post: Post, s: Story)
    requires Shape(b) && post.device < b.n && Tells(b.devices[post.device], s)
    requires BatchStep(b, sh, a).0.posts == b.posts + [post]
    ensures Fits(post.message, Next(s, b, post.device, a))
  {
    assert |b.posts + [post]| != |b.posts|;
    if OfDevice(a) {
      EffectPostFits(b, sh, a, post, s);
    } else {
      SendPostFits(b, a, post, s);
    }
  }

  ghost predicate Follows(steps: seq<Step>, id: nat)
    requires id in Reached(steps).batches
  {
    var b := Reached(steps).batches[id];
    && |b.devices| == b.n
    && (forall i: nat :: i < b.n ==> Tells(b.devices[i], StoryOf(steps, id, i)))
    && (forall k: nat :: k < |b.posts| ==> Fits(b.posts[k].message, StoryOf(steps, id, b.posts[k].device)))
  }

  lemma StoryGoesOn(steps: seq<Step>, step: Step, id: nat, i: nat)
    ensures StoryOf(steps + [step], id, i) ==
            if step.Act? && step.batch == id && id in Reached(steps).batches
            then Next(StoryOf(steps, id, i), Reached(steps).batches[id], i, step.action) else StoryOf(steps, id, i)
  {
    assert (steps + [step])[..|steps|] == steps;
  }

  lemma ReachedGoesOn(steps: seq<Step>, step: Step)
    ensures Reached(steps + [step]) == Apply(Reached(steps), step)
  {
    assert (steps + [step])[..|steps|] == steps;
  }

  lemma {:induction false} NoStoryYet(steps: seq<Step>, id: nat, i: nat)
    requires id !in Reached(steps).batches
    ensures StoryOf(steps, id, i) == NotYet
  {
    if steps != [] {
      NoStoryYet(steps[..|steps| - 1], id, i);
    }
  }

  lemma ActFollows(steps: seq<Step>, id: nat, a: Action)
    requires id in Reached(steps).batches && Follows(steps, id)
    ensures id in Reached(steps + [Act(id, a)]).batches && Follows(steps + [Act(id, a)], id)
  {
    var w, steps' := Reached(steps), steps + [Act(id, a)];
    var b, b' := w.batches[id], BatchStep(w.batches[id], w.shared, a).0;
    ShapeHolds(steps, id);
    ReachedGoesOn(steps, Act(id, a));
    assert Reached(steps').batches[id] == b';
    forall i: nat | i < b.n ensures |b'.devices| == b.n && Tells(b'.devices[i], StoryOf(steps', id, i)) {
      StoryGoesOn(steps, Act(id, a), id, i);
      BatchStepTells(b, i, w.shared, a, StoryOf(steps, id, i));
    }
    StepPosts(b, w.shared, a);
    forall k: nat | k < |b'.posts| ensures Fits(b'.posts[k].message, StoryOf(steps', id, b'.posts[k].device)) {
      StoryGoesOn(steps, Act(id, a), id, b'.posts[k].device);
      if k < |b.posts| {
        OldPostFits(steps, id, a, k);
        assert b'.posts[k] == b.posts[k];
      } else {
        var post := b'.posts[k];
        assert b'.posts == b.posts + [post];
        NewPostFits(b, w.shared, a, post, StoryOf(steps, id, post.device));
      }
    }
  }

  lemma OldPostFits(steps: seq<Step>, id: nat, a: Action, k: nat)
    requires id in Reached(steps).batches && Follows(steps, id) && k < |Reached(steps).batches[id].posts|
    ensures var b := Reached(steps).batches[id];
            b.posts[k].device < b.n && Fits(b.posts[k].message, Next(StoryOf(steps, id, b.posts[k].device), b, b.posts[k].device, a))
  {
    var b := Reached(steps).batches[id];
    ShapeHolds(steps, id);
    PostedIsTold(b, k);
    ToldStays(b, b.posts[k].device, a, StoryOf(steps, id, b.posts[k].device));
  }

  lemma {:induction false} RunFollows(steps: seq<Step>, id: nat)
    requires id in Reached(steps).batches
    ensures Follows(steps, id)
  {
    var init, last := steps[..|steps| - 1], steps[|steps| - 1];
    assert steps == init + [last];
    ReachedGoesOn(init, last);
    forall i { StoryGoesOn(init, last, id, i); }
    if id !in Reached(init).batches {
      forall i: nat { NoStoryYet(init, id, i); }
    } else {
      RunFollows(init, id);
      if last.Act? && last.batch == id {
        ActFollows(init, id, last.action);
      } else {
        SameStories(init, last, id);
      }
    }
  }

  lemma SameStories(init: seq<Step>, last: Step, id: nat)
    requires id in Reached(init).batches && Follows(init, id) && !(last.Act? && last.batch == id)
    ensures id in Reached(init + [last]).batches && Follows(init + [last], id)
  {
    ReachedGoesOn(init, last);
    assert Reached(init + [last]).batches[id] == Reached(init).batches[id];
    forall i: nat ensures StoryOf(init + [last], id, i) == StoryOf(init, id, i) { StoryGoesOn(init, last, id, i); }
  }

  // ---------- The messages ----------

  /**
    In every interleaving, the message a device is told is about the last answer APNs gave it, the
    second request's if there was one: a success if and only if that was a 200 with no body, an
    unsubscription if and only if it was a 410 with no body or a body, not of a redirect, that
    names one of the four reasons a token is dead. A device sent with a fallback token and refused
    by the mint floor has been sent again before it is told anything.
   */
  lemma MessagesMeanWhatWasAnswered(steps: seq<Step>, id: nat, k: nat)
    requires id in Reached(steps).batches && k < |Reached(steps).batches[id].posts|
    ensures var post := Reached(steps).batches[id].posts[k];
            var story := StoryOf(steps, id, post.device);
            && (story.Sent? ==> Complete(story))
            && (post.message.Success? <==> LastAnswer(story).Some? && Delivered(LastAnswer(story).value))
            && (post.message.Unsubscribe? <==> LastAnswer(story).Some? && Dead(LastAnswer(story).value))
  {
    RunFollows(steps, id);
    PostedDevice(steps, id, k);
    var b := Reached(steps).batches[id];
    ToldIsComplete(b.devices[b.posts[k].device], StoryOf(steps, id, b.posts[k].device));
  }

  lemma PostedDevice(steps: seq<Step>, id: nat, k: nat)
    requires id in Reached(steps).batches && k < |Reached(steps).batches[id].posts|
    ensures var b := Reached(steps).batches[id];
            |b.devices| == b.n && b.posts[k].device < b.n && NothingLeft(b.devices[b.posts[k].device])
  {
    ShapeHolds(steps, id);
    PostedIsTold(Reached(steps).batches[id], k);
  }

  /** The device was never sent, or its goroutine has told. */
  predicate NothingLeft(d: Device) {
    d.Unsent? || d.Told? || d.Finished?
  }

  lemma ToldIsComplete(d: Device, s: Story)
    requires NothingLeft(d) && Tells(d, s)
    ensures s.Sent? ==> Complete(s)
  {
  }

  // ---------- What is remembered ----------

  datatype Ledger = Ledger(memo: Memo, confirmed: Option<int>)

  /** What a device's goroutine writes down about the token. */
  function Note(l: Ledger, s: Story, tokens: bool, a: Action): Ledger {
    match a
    case NoteRefused(_, at) =>
      if tokens && GoesAgain(s) && !s.noted && s.signing.Some? then l.(memo := Some(Refusal(s.signing.value, at))) else l
    case NoteAccepted(_) =>
      if tokens && s.Sent? && s.noted && !s.acked && LastAnswer(s).Some? && !FloorRefusal(LastAnswer(s).value) && AnsweredBucket(s).Some?
      then l.(confirmed := AnsweredBucket(s)) else l
    case _ => l
  }

  function LedgerOf(steps: seq<Step>): Ledger {
    if steps == [] then Ledger(None, None) else
    var init, last := steps[..|steps| - 1], steps[|steps| - 1];
    if last.Act? && last.batch in Reached(init).batches && OfDevice(last.action)
       && Index(last.action) < Reached(init).batches[last.batch].n
    then Note(LedgerOf(init), StoryOf(init, last.batch, Index(last.action)), Reached(init).batches[last.batch].tokens, last.action)
    else LedgerOf(init)
  }

  lemma DeviceStepNotes(d: Device, tokens: bool, id: nat, sh: Shared, a: Action, s: Story)
    requires Tells(d, s)
    ensures var after := DeviceStep(d, tokens, id, sh, a).shared;
            Ledger(after.memo, after.confirmed) == Note(Ledger(sh.memo, sh.confirmed), s, tokens, a)
  {
  }

  /**
    In every interleaving, the refusal remembered is the latest noted: of the token the refused
    device went out with, when it is sent again; and the bucket confirmed is that of the latest
    answer that was no such refusal.
   */
  lemma {:induction false} LedgerIsKept(steps: seq<Step>)
    ensures var sh := Reached(steps).shared; Ledger(sh.memo, sh.confirmed) == LedgerOf(steps)
  {
    if steps != [] {
      var init, last := steps[..|steps| - 1], steps[|steps| - 1];
      LedgerIsKept(init);
      if last.Act? && last.batch in Reached(init).batches {
        ActNotes(init, last.batch, last.action);
      }
    }
  }

  lemma ActNotes(steps: seq<Step>, id: nat, a: Action)
    requires id in Reached(steps).batches
    ensures var w := Reached(steps);
            var b, sh := w.batches[id], BatchStep(w.batches[id], w.shared, a).1;
            Ledger(sh.memo, sh.confirmed) ==
            if OfDevice(a) && Index(a) < b.n then Note(Ledger(w.shared.memo, w.shared.confirmed), StoryOf(steps, id, Index(a)), b.tokens, a)
            else Ledger(w.shared.memo, w.shared.confirmed)
  {
    RunFollows(steps, id);
    var w := Reached(steps);
    var b := w.batches[id];
    if OfDevice(a) && Index(a) < b.n {
      DeviceStepNotes(b.devices[Index(a)], b.tokens, GetID(b.n, b.maxId, Index(a)), w.shared, a, StoryOf(steps, id, Index(a)));
    }
  }

  // ---------- Who is sent, and with what ----------

  /** The batch ran into a failure of its own: the endpoint, the first token or the client. */
  function GaveUp(steps: seq<Step>, id: nat): bool {
    if steps == [] then false else
    var init, last := steps[..|steps| - 1], steps[|steps| - 1];
    GaveUp(init, id) ||
    (last.Act? && last.batch == id && id in Reached(init).batches && Spoils(Reached(init).batches[id].main, last.action))
  }

  predicate Spoils(main: Main, a: Action) {
    || (main.Start? && a == Check(false))
    || (main.Authenticating? && a.Sign? && !a.signable)
    || (main.Connecting? && a == GetClient(false))
  }

  lemma SetupGivesUp(b: Batch, sh: Shared, a: Action)
    requires InSetup(b.main)
    ensures SetupStep(b, sh, a).early <==> b.early || Spoils(b.main, a)
  {
  }

  lemma SendNeverGivesUp(b: Batch, a: Action)
    ensures SendStep(b, a).early == b.early
  {
  }

  /** A step of a device leaves the batch's own goroutine where it was. */
  lemma DeviceLeavesMain(b: Batch, sh: Shared, a: Action)
    requires OfDevice(a)
    ensures var b' := BatchStep(b, sh, a).0; b'.main == b.main && b'.early == b.early && b'.tokens == b.tokens
  {
  }

  lemma StepGivesUp(b: Batch, sh: Shared, a: Action)
    ensures BatchStep(b, sh, a).0.early <==> b.early || Spoils(b.main, a)
  {
    if OfDevice(a) {
      DeviceLeavesMain(b, sh, a);
    } else if InSetup(b.main) {
      SetupGivesUp(b, sh, a);
    } else {
      SendNeverGivesUp(b, a);
    }
  }

  /** In every run, a batch is marked as having ended early exactly if one of its own steps gave it up. */
  lemma {:induction false} EarlyMeansGaveUp(steps: seq<Step>, id: nat)
    ensures id in Reached(steps).batches ==> (Reached(steps).batches[id].early <==> GaveUp(steps, id))
    ensures id !in Reached(steps).batches ==> !GaveUp(steps, id)
  {
    if steps != [] {
      var init, last := steps[..|steps| - 1], steps[|steps| - 1];
      EarlyMeansGaveUp(init, id);
      if last.Act? && last.batch == id && id in Reached(init).batches {
        StepGivesUp(Reached(init).batches[id], Reached(init).shared, last.action);
      }
    }
  }

  /** When a batch has closed its channels, every device has been sent but for a failure of its own batch, or of its own request to be built. */
  lemma EveryoneIsSent(steps: seq<Step>, id: nat, i: nat)
    requires id in Reached(steps).batches && Reached(steps).batches[id].main.Closed? && i < Reached(steps).batches[id].n
    ensures var story := StoryOf(steps, id, i);
            if GaveUp(steps, id) then story == NotYet else story == Unbuilt || Complete(story)
  {
    RunFollows(steps, id);
    ShapeHolds(steps, id);
    EarlyMeansGaveUp(steps, id);
    var b := Reached(steps).batches[id];
    if !b.early {
      OutstandingZero(b.devices, i);
    }
  }

  /** The batch has read its tokens since it last waited for another's answer. */
  function Fresh(steps: seq<Step>, id: nat): bool {
    if steps == [] then false else
    var init, last := steps[..|steps| - 1], steps[|steps| - 1];
    if last.Act? && last.batch == id && id in Reached(init).batches
    then Refreshed(Fresh(init, id), Reached(init).batches[id], last.action, Reached(init).shared)
    else Fresh(init, id)
  }

  function Refreshed(read: bool, b: Batch, a: Action, sh: Shared): bool {
    if b.main.Authenticating? && a.Sign? then true
    else if b.main.Resolving? && a.ReadToken? then true
    else if (b.main.ProbeWait? && a.EndProbe? && b.devices != [] && b.devices[0] == Finished)
         || (b.main.ProbeReport? && a.Report?)
         || (b.main.Choosing? && a == Choose(Waiter) && NeedsProbe(b, sh)) then false
    else read
  }

  /** Where a batch with tokens stands without having read them since it last waited. */
  predicate MayBeStale(main: Main) {
    main.Start? || main.Authenticating? || main.Resolving? || main.Refusing? || main.Closed?
  }

  lemma StepKeepsFresh(b: Batch, sh: Shared, a: Action, read: bool)
    requires Shape(b) && (b.tokens && !MayBeStale(b.main) ==> read)
    ensures var b' := BatchStep(b, sh, a).0; b'.tokens == b.tokens && (b'.tokens && !MayBeStale(b'.main) ==> Refreshed(read, b, a, sh))
  {
    if OfDevice(a) {
      DeviceLeavesMain(b, sh, a);
    } else if InSetup(b.main) {
      SetupKeepsFresh(b, sh, a, read);
    } else {
      SendKeepsFresh(b, sh, a, read);
    }
  }

  lemma SetupKeepsFresh(b: Batch, sh: Shared, a: Action, read: bool)
    requires InSetup(b.main) && (b.tokens && !MayBeStale(b.main) ==> read)
    ensures var b' := SetupStep(b, sh, a); b'.tokens == b.tokens && (b'.tokens && !MayBeStale(b'.main) ==> Refreshed(read, b, a, sh))
  {
  }

  lemma SendKeepsFresh(b: Batch, sh: Shared, a: Action, read: bool)
    requires !InSetup(b.main) && (b.tokens && !MayBeStale(b.main) ==> read)
    ensures var b' := SendStep(b, a); b'.tokens == b.tokens && (b'.tokens && !MayBeStale(b'.main) ==> Refreshed(read, b, a, sh))
  {
  }

  /** In every run, a device of a batch with tokens goes out only with tokens read after whatever probe the batch waited for. */
  lemma {:induction false} TokensAreFresh(steps: seq<Step>, id: nat)
    requires id in Reached(steps).batches
    ensures var b := Reached(steps).batches[id]; b.tokens && !MayBeStale(b.main) ==> Fresh(steps, id)
  {
    var init, last := steps[..|steps| - 1], steps[|steps| - 1];
    if id in Reached(init).batches {
      TokensAreFresh(init, id);
      ShapeHolds(init, id);
      if last.Act? && last.batch == id {
        StepKeepsFresh(Reached(init).batches[id], Reached(init).shared, last.action, Fresh(init, id));
      }
    }
  }

  /** While a probe is out, its device is the only one that has been sent. */
  lemma ProbeGoesAlone(steps: seq<Step>, id: nat, i: nat)
    requires id in Reached(steps).batches
    requires var b := Reached(steps).batches[id]; (b.main.ProbeWait? || b.main.ProbeReport?) && 0 < i < b.n
    ensures StoryOf(steps, id, i) == NotYet
  {
    RunFollows(steps, id);
    ShapeHolds(steps, id);
  }

  /** What resolveTokens reads at one moment is the plan TokenRuns reasons about. */
  lemma TokensAreThePlans(b: Batch, sh: Shared, now: int, process: nat)
    requires b.main.Resolving?
    ensures var plan := TokenRuns.ResolveTokens(process, sh.memo, now);
            var b' := BatchStep(BatchStep(b, sh, ReadToken(now, true)).0, sh, ReadFallback(now, true)).0;
            && b'.header == Some(plan.signing) && b'.signing == Some(plan.signing)
            && b'.fallback == (if plan.fallback.None? then None else Some(Fallback(plan.fallback.value, plan.fallback.value)))
            && b'.main == Onward(b.main.first)
  {
  }
}
