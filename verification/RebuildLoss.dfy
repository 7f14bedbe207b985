/**
  Subscriptions a rebuild loses: one concrete run for each part of the rebuild outside the window
  of IndexRuns.Window. The first is spelled out to its end and never visits the subscriber it loses.
 */
module RebuildLoss {
  import opened Basics
  import opened Store
  import opened IndexRuns
  import opened RebuildExact

  const BLANK_DB := Db(map[], map[], map[], map[], map[], false, map[], map[])

  /** The walk reads no subscriber at all. */
  ghost predicate VisitsNobody(steps: seq<Step>) {
    forall i :: 0 <= i < |steps| ==> !steps[i].ReadSubscriber?
  }

  lemma Then(steps: seq<Step>, step: Step) returns (steps': seq<Step>)
    ensures steps' == steps + [step] && Reached(BLANK_DB, steps') == Apply(Reached(BLANK_DB, steps), step)
    ensures VisitsNobody(steps) && !step.ReadSubscriber? ==> VisitsNobody(steps')
  {
    steps' := steps + [step];
    ReachedOne(BLANK_DB, steps, step);
  }

  lemma SubscribeBehindTheWalk(dp: Name) returns (steps: seq<Step>)
    ensures VisitsNobody(steps)
    ensures Reached(BLANK_DB, steps) ==
            World(Subscribe(BLANK_DB, Owner(dp), dp), DroppingServices(Keys({dp.service}, {}), NO_KEYS, NO_KEYS),
                  {Owner(dp)}, {}, false, false)
  {
    steps := Then([], Begin);
    steps := Then(steps, Proceed);
    assert Reached(BLANK_DB, steps).phase == Walking({}, {}, None, NO_KEYS);
    steps := Then(steps, SubscribeStep(dp));
    var w := Reached(BLANK_DB, steps);
    assert w == World(Subscribe(BLANK_DB, Owner(dp), dp), Walking({}, {}, None, NO_KEYS), {Owner(dp)}, {}, false, false);
    steps := Then(steps, Proceed);
    assert w.db.subscribers.Keys == {dp.service};
  }

  /** With nothing staged, a rebuild deletes the one live index key of each kind. */
  lemma DropOneService(db: Db, s: string, touched: set<Sub>)
    requires db.subscribers.Keys == {s}
    ensures var w := World(db, DroppingServices(Keys({s}, {}), NO_KEYS, NO_KEYS), touched, {}, false, false);
            Apply(Apply(Apply(w, Page({s}, {}, {})), HandleService(s)), Proceed)
            == World(db.(subscribers := map[]), DroppingTypes(Keys({}, db.typed.Keys), NO_KEYS, NO_KEYS), touched, {}, false, false)
  {
    var w := World(db, DroppingServices(Keys({s}, {}), NO_KEYS, NO_KEYS), touched, {}, false, false);
    DropServiceNow(w, {s}, NO_KEYS, s);
    assert db.subscribers - {s} == map[] && {s} - {s} == {};
  }

  lemma DropOneType(db: Db, k: TypeKey, touched: set<Sub>)
    requires db.typed.Keys == {k}
    ensures var w := World(db, DroppingTypes(Keys({}, {k}), NO_KEYS, NO_KEYS), touched, {}, false, false);
            Apply(Apply(Apply(w, Page({}, {k}, {})), HandleType(k)), Proceed)
            == World(db.(typed := map[]), Publishing(NO_KEYS), touched, {}, false, false)
  {
    var w := World(db, DroppingTypes(Keys({}, {k}), NO_KEYS, NO_KEYS), touched, {}, false, false);
    DropTypeNow(w, {k}, NO_KEYS, k);
    assert db.typed - {k} == map[] && {k} - {k} == {};
  }

  lemma OneSubscription(dp: Name)
    ensures var db := Subscribe(BLANK_DB, Owner(dp), dp);
            && db.subscribers.Keys == {dp.service} && db.typed.Keys == {TypeKey(dp.service, dp.pushType)}
            && Members(db.devices, Owner(dp)) == {dp}
  {
  }

  lemma ThenThree(steps: seq<Step>, a: Step, b: Step, c: Step) returns (steps': seq<Step>)
    requires VisitsNobody(steps) && !a.ReadSubscriber? && !b.ReadSubscriber? && !c.ReadSubscriber?
    ensures VisitsNobody(steps')
    ensures Reached(BLANK_DB, steps') == Apply(Apply(Apply(Reached(BLANK_DB, steps), a), b), c)
  {
    steps' := Then(steps, a);
    steps' := Then(steps', b);
    steps' := Then(steps', c);
  }

  lemma LiveKeysGo(dp: Name) returns (steps: seq<Step>)
    ensures VisitsNobody(steps)
    ensures Reached(BLANK_DB, steps) ==
            World(Subscribe(BLANK_DB, Owner(dp), dp).(subscribers := map[], typed := map[]),
                  Publishing(NO_KEYS), {Owner(dp)}, {}, false, false)
  {
    steps := ServiceKeyGoes(dp);
    var db, k := Subscribe(BLANK_DB, Owner(dp), dp).(subscribers := map[]), TypeKey(dp.service, dp.pushType);
    OneSubscription(dp);
    DropOneType(db, k, {Owner(dp)});
    steps := ThenThree(steps, Page({}, {k}, {}), HandleType(k), Proceed);
  }

  lemma ServiceKeyGoes(dp: Name) returns (steps: seq<Step>)
    ensures VisitsNobody(steps)
    ensures Reached(BLANK_DB, steps) ==
            World(Subscribe(BLANK_DB, Owner(dp), dp).(subscribers := map[]),
                  DroppingTypes(Keys({}, {TypeKey(dp.service, dp.pushType)}), NO_KEYS, NO_KEYS), {Owner(dp)}, {}, false, false)
  {
    steps := SubscribeBehindTheWalk(dp);
    OneSubscription(dp);
    DropOneService(Subscribe(BLANK_DB, Owner(dp), dp), dp.service, {Owner(dp)});
    steps := ThenThree(steps, Page({dp.service}, {}, {}), HandleService(dp.service), Proceed);
  }

  /**
    A subscription made while the walk runs can be lost although the walk never visits its
    subscriber: a SCAN owes nothing for a key that was not there when it started.
   */
  lemma RebuildCanLoseTheUnvisited(dp: Name) returns (steps: seq<Step>)
    ensures VisitsNobody(steps)
    ensures var w := Reached(BLANK_DB, steps);
            && w.db.built && w.phase.Idle?
            && dp in Members(w.db.devices, Owner(dp))
            && !IndexedRight(w.db, Owner(dp))
  {
    steps := LiveKeysGo(dp);
    steps := Then(steps, Proceed);
    OneSubscription(dp);
    assert !SubscriberRight(Reached(BLANK_DB, steps).db, Owner(dp));
  }

  // ---------- The other windows ----------

  /** The database of one subscription whose index entries are missing. */
  function Unindexed(a: Name): Db {
    BLANK_DB.(devices := map[Owner(a) := {a}])
  }

  lemma UnindexedIsWellFormed(a: Name)
    ensures WellFormed(Unindexed(a)) && Members(Unindexed(a).devices, Owner(a)) == {a}
  {
  }

  lemma Go(db: Db, steps: seq<Step>, w: World, step: Step) returns (steps': seq<Step>, w': World)
    requires w == Reached(db, steps)
    ensures steps' == steps + [step] && w' == Apply(w, step) && w' == Reached(db, steps')
  {
    steps', w' := steps + [step], Apply(w, step);
    ReachedOne(db, steps, step);
  }

  lemma TypesOfOne(a: Name)
    ensures TypesOf({a}) == {a.pushType}
  {
    assert a in {a};
  }

  /** The walk has read the subscriber of a. */
  lemma ReadOne(a: Name) returns (steps: seq<Step>, w: World)
    ensures w == Reached(Unindexed(a), steps)
    ensures w == World(Unindexed(a), Walking({}, {}, Some(Visit(Owner(a), {a}, {a.pushType})), NO_KEYS), {}, {}, false, false)
  {
    var db, y := Unindexed(a), Owner(a);
    steps, w := [], World(db, Idle, {}, {}, false, false);
    steps, w := Go(db, steps, w, Begin);
    assert w.phase == Clearing(NO_KEYS, NO_KEYS);
    steps, w := Go(db, steps, w, Proceed);
    assert w.phase == Walking({y}, {}, None, NO_KEYS);
    VisitNow(w, {y}, NO_KEYS, y);
    steps, w := Go(db, steps, w, Page({}, {}, {y}));
    steps, w := Go(db, steps, w, ReadSubscriber(y));
    UnindexedIsWellFormed(a);
    TypesOfOne(a);
    assert Members(db.devices, y) == {a} && a in {a} && {y} - {y} == {};
  }

  /** Between the visit and the rename, walk still running: the new device is in no set the rebuild publishes. */
  lemma LostAfterTheVisit(a: Name, b: Name) returns (steps: seq<Step>, more: seq<Step>)
    requires Owner(a) == Owner(b) && a != b
    ensures Loses(Unindexed(a), steps + [SubscribeStep(b)], more, Owner(b))
    ensures Reached(Unindexed(a), steps).phase.Walking? && Hand(Reached(Unindexed(a), steps).phase.visit, Owner(a)) == {a}
  {
    var w: World;
    steps, w := ReadOne(a);
    var steps', w' := Go(Unindexed(a), steps, w, SubscribeStep(b));
    assert w'.phase == w.phase;
    assert b in Members(w'.db.devices, Owner(b)) && !Staged(w'.db, b) && b !in Hand(w'.phase.visit, Owner(b));
    assert !Caught(w'.db, Owner(b), w'.phase.visit);
    UnindexedIsWellFormed(a);
    more := UnshelteredCanLose(Unindexed(a), steps', Owner(b));
  }

  lemma ToTheDrop(types: bool) returns (steps: seq<Step>, w: World)
    ensures w == Reached(BLANK_DB, steps) && w.db == BLANK_DB
    ensures w.phase == if types then DroppingTypes(NO_KEYS, NO_KEYS, NO_KEYS) else DroppingServices(NO_KEYS, NO_KEYS, NO_KEYS)
  {
    steps, w := Go(BLANK_DB, [], World(BLANK_DB, Idle, {}, {}, false, false), Begin);
    steps, w := Go(BLANK_DB, steps, w, Proceed);
    assert w.phase == Walking({}, {}, None, NO_KEYS);
    steps, w := Go(BLANK_DB, steps, w, Proceed);
    assert w.phase == DroppingServices(NO_KEYS, NO_KEYS, NO_KEYS);
    if types {
      steps, w := Go(BLANK_DB, steps, w, Proceed);
    }
  }

  /** While live keys are being dropped, in either phase. */
  lemma LostWhileDropping(b: Name, types: bool) returns (steps: seq<Step>, more: seq<Step>)
    ensures Loses(BLANK_DB, steps + [SubscribeStep(b)], more, Owner(b))
    ensures var phase := Reached(BLANK_DB, steps).phase; if types then phase.DroppingTypes? else phase.DroppingServices?
  {
    var w: World;
    steps, w := ToTheDrop(types);
    var steps', w' := Go(BLANK_DB, steps, w, SubscribeStep(b));
    assert !StagedDeviceRight(w'.db, b, KeyOf(b));
    more := UnshelteredCanLose(BLANK_DB, steps', Owner(b));
  }

  /** Unindexed(a) with a and its subscriber staged. */
  function StagedDb(a: Name): Db {
    Unindexed(a).(stagedTyped := map[KeyOf(a) := {a}], stagedSubscribers := map[a.service := {a.subscriber}])
  }

  lemma StageTheDevice(a: Name)
    ensures var v := Visit(Owner(a), {a}, {a.pushType});
            var w := World(Unindexed(a), Walking({}, {}, Some(v), NO_KEYS), {}, {}, false, false);
            Apply(w, StageType(a.pushType)) ==
            w.(db := w.db.(stagedTyped := map[KeyOf(a) := {a}]),
               phase := Walking({}, {}, Some(v.(left := {})), Keys({}, {KeyOf(a)})))
  {
    assert OfType({a}, a.pushType) == {a} && {a.pushType} - {a.pushType} == {};
    AddToNothing(KeyOf(a), a);
    assert Plus(NO_KEYS, {}, {KeyOf(a)}) == Keys({}, {KeyOf(a)});
  }

  lemma AddToNothing<K, V>(k: K, v: V)
    ensures SAdd(map[], k, {v}) == map[k := {v}]
  {
    assert {} + {v} == {v};
  }

  lemma StageTheSubscriber(a: Name)
    ensures var w := World(Unindexed(a).(stagedTyped := map[KeyOf(a) := {a}]),
                           Walking({}, {}, Some(Visit(Owner(a), {a}, {})), Keys({}, {KeyOf(a)})), {}, {}, false, false);
            Apply(w, StageSubscriber) == w.(db := StagedDb(a), phase := Walking({}, {}, None, Keys({a.service}, {KeyOf(a)})))
  {
    AddToNothing(a.service, a.subscriber);
    assert Plus(Keys({}, {KeyOf(a)}), {a.service}, {}) == Keys({a.service}, {KeyOf(a)});
  }

  lemma StageOneDevice(a: Name) returns (steps: seq<Step>, w: World)
    ensures w == Reached(Unindexed(a), steps)
    ensures w == World(StagedDb(a), Walking({}, {}, None, Keys({a.service}, {KeyOf(a)})), {}, {}, false, false)
  {
    steps, w := ReadOne(a);
    StageTheDevice(a);
    steps, w := Go(Unindexed(a), steps, w, StageType(a.pushType));
    StageTheSubscriber(a);
    steps, w := Go(Unindexed(a), steps, w, StageSubscriber);
  }

  lemma NothingToDrop(db: Db, staged: Keys)
    requires db.subscribers == map[] && db.typed == map[]
    ensures var w := World(db, Walking({}, {}, None, staged), {}, {}, false, false);
            Apply(Apply(Apply(w, Proceed), Proceed), Proceed) == w.(phase := Publishing(staged))
  {
    var w := World(db, Walking({}, {}, None, staged), {}, {}, false, false);
    assert db.subscribers.Keys == {} && db.typed.Keys == {};
    assert Apply(w, Proceed) == w.(phase := DroppingServices(NO_KEYS, NO_KEYS, staged));
    assert Apply(Apply(w, Proceed), Proceed) == w.(phase := DroppingTypes(NO_KEYS, NO_KEYS, staged));
  }

  /** Everything staged and nothing renamed yet. */
  lemma StagedOne(a: Name) returns (steps: seq<Step>, w: World)
    ensures w == Reached(Unindexed(a), steps)
    ensures w == World(StagedDb(a), Publishing(Keys({a.service}, {KeyOf(a)})), {}, {}, false, false)
  {
    var db := Unindexed(a);
    steps, w := StageOneDevice(a);
    NothingToDrop(StagedDb(a), Keys({a.service}, {KeyOf(a)}));
    steps, w := Go(db, steps, w, Proceed);
    steps, w := Go(db, steps, w, Proceed);
    steps, w := Go(db, steps, w, Proceed);
  }

  /** Once everything is staged, until the rename of the device's type set. */
  lemma LostBeforeTheRename(a: Name, b: Name) returns (steps: seq<Step>, more: seq<Step>)
    requires Owner(a) == Owner(b) && a.pushType == b.pushType && a != b
    ensures Loses(Unindexed(a), steps + [SubscribeStep(b)], more, Owner(b))
    ensures var phase := Reached(Unindexed(a), steps).phase; phase.Publishing? && KeyOf(b) in phase.left.types
  {
    var w: World;
    steps, w := StagedOne(a);
    var steps', w' := Go(Unindexed(a), steps, w, SubscribeStep(b));
    assert !StagedDeviceRight(w'.db, b, KeyOf(b));
    UnindexedIsWellFormed(a);
    more := UnshelteredCanLose(Unindexed(a), steps', Owner(b));
  }
}
