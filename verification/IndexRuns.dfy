/**
  Runs of the subscriber index: the scripts of db/pushredisdb.go, the startup preparation and
  the staged rebuild of db/subscriber_index.go, one redis command at a time, interleaved freely.

  One rebuild runs at a time, as two would share one staging area. A SCAN is the keys it still
  owes: it starts owing every key present, stops owing a key it returns or that goes away, may
  return anything else as often as it likes, and is over only when it owes nothing.
 */
module IndexRuns {
  import opened Basics
  import opened Store

  /** The staging keys the rebuild has written: the `staged` map of RebuildSubscriberIndex. */
  datatype Keys = Keys(services: set<string>, types: set<TypeKey>)

  /** A subscriber read and not yet fully staged: its devices, and the types still to be written. */
  datatype Visit = Visit(x: Sub, names: set<Name>, left: set<string>)

  /** Where the rebuild is. `owed` is the scan under way, `todo` the keys returned and not yet handled. */
  datatype Phase =
    | Idle
    | Clearing(owed: Keys, todo: Keys)
    | Walking(owedSubs: set<Sub>, todoSubs: set<Sub>, visit: Option<Visit>, staged: Keys)
    | DroppingServices(owed: Keys, todo: Keys, staged: Keys)
    | DroppingTypes(owed: Keys, todo: Keys, staged: Keys)
    | Publishing(left: Keys)

  /**
    touched: subscribers a script changed at a harmful moment of the rebuild under way; unsettled:
    of the last one that finished, or of those given up since. suspect: the marker is older than the run.
   */
  datatype World = World(db: Db, phase: Phase, touched: set<Sub>, unsettled: set<Sub>, prepared: bool, suspect: bool)

  datatype Step =
    // redis scripts and commands of the subscription paths
    | SubscribeStep(dp: Name)
    | UnsubscribeStep(x: Sub, dp: Name)
    | RemoveUnchangedStep(x: Sub, dp: Name, raw: Raw)
    | PutRecord(dp: Name, raw: Raw)
    | DropRecord(dp: Name)
    | Bind(binding: Binding, psp: string)
    | Unbind(binding: Binding)
    // PrepareSubscriberIndex: measure the database, then mark it
    | FindEmpty
    | MarkPrepared
    // RebuildSubscriberIndex
    | Begin
    | Page(services: set<string>, types: set<TypeKey>, subs: set<Sub>)
    | HandleService(service: string)
    | HandleType(k: TypeKey)
    | ReadSubscriber(x: Sub)
    | StageType(pushType: string)
    | StageSubscriber
    | Proceed
    | GiveUp

  predicate IsScript(step: Step) {
    step.SubscribeStep? || step.UnsubscribeStep? || step.RemoveUnchangedStep?
  }

  function Named(step: Step): Sub
    requires IsScript(step)
  {
    match step
    case SubscribeStep(dp) => Owner(dp)
    case UnsubscribeStep(x, _) => x
    case RemoveUnchangedStep(x, _, _) => x
  }

  function Device(step: Step): Name
    requires IsScript(step)
  {
    step.dp
  }

  const NO_KEYS := Keys({}, {})

  predicate EmptyDb(db: Db) {
    db == Db(map[], map[], map[], map[], map[], false, map[], map[])
  }

  /** What a write by someone else leaves a scan owing: only keys that were there all along. */
  function Owing(phase: Phase, db: Db): Phase {
    match phase
    case Walking(owed, todo, visit, staged) => Walking(owed * db.devices.Keys, todo, visit, staged)
    case DroppingServices(owed, todo, staged) =>
      DroppingServices(Keys(owed.services * db.subscribers.Keys, {}), todo, staged)
    case DroppingTypes(owed, todo, staged) => DroppingTypes(Keys({}, owed.types * db.typed.Keys), todo, staged)
    case _ => phase
  }

  function ApplyScript(db: Db, step: Step): Db
    requires IsScript(step)
  {
    match step
    case SubscribeStep(dp) => Subscribe(db, Owner(dp), dp)
    case UnsubscribeStep(x, dp) => Unsubscribe(db, x, dp)
    case RemoveUnchangedStep(x, dp, raw) => RemoveUnchanged(db, x, dp, raw)
  }

  function Script(w: World, step: Step): World
    requires IsScript(step)
  {
    var db := ApplyScript(w.db, step);
    w.(db := db, phase := Owing(w.phase, db),
       touched := if Harmless(w, step) then w.touched else w.touched + {Named(step)})
  }

  /** The type set a device is in. */
  function KeyOf(dp: Name): TypeKey {
    TypeKey(dp.service, dp.pushType)
  }

  predicate Listed(db: Db, y: Sub) {
    y.name in Members(db.stagedSubscribers, y.service)
  }

  predicate Staged(db: Db, dp: Name) {
    dp in Members(db.stagedTyped, KeyOf(dp))
  }

  /** What the walk has read of subscriber y and may still have to stage. */
  function Hand(visit: Option<Visit>, y: Sub): set<Name> {
    if visit.Some? && visit.value.x == y then visit.value.names else {}
  }

  /**
    The moments of a rebuild at which a script may change a subscriber's devices. While the walk
    runs: a device may be added as long as the walk still has to come to the subscriber, and
    removed as long as the walk has not read it. Once the walk is over: never, until the type set
    is renamed, and until the subscriber index is too if the subscriber comes or goes.
   */
  predicate Window(phase: Phase, db: Db, step: Step)
    requires IsScript(step)
  {
    var y, dp := Named(step), Device(step);
    var remains := Members(ApplyScript(db, step).devices, y) != {};
    match phase
    case Idle => true
    case Clearing(_, _) => true
    case Walking(owed, todo, visit, _) =>
      if step.SubscribeStep? then y in owed || y in todo
      else !Staged(db, dp) && dp !in Hand(visit, y) && (Listed(db, y) ==> remains)
    case DroppingServices(_, _, _) => false
    case DroppingTypes(_, _, _) => false
    case Publishing(left) =>
      KeyOf(dp) !in left.types && (y.service in left.services ==> Members(db.devices, y) != {} && remains)
  }

  /** A script that leaves the subscriber's devices as they were, or comes at such a moment. */
  predicate Harmless(w: World, step: Step)
    requires IsScript(step)
  {
    || Members(ApplyScript(w.db, step).devices, Named(step)) == Members(w.db.devices, Named(step))
    || Window(w.phase, w.db, step)
  }

  function Minus(k: Keys, services: set<string>, types: set<TypeKey>): Keys {
    Keys(k.services - services, k.types - types)
  }

  function Plus(k: Keys, services: set<string>, types: set<TypeKey>): Keys {
    Keys(k.services + services, k.types + types)
  }

  /** A page of the scan under way. */
  function TakePage(phase: Phase, services: set<string>, types: set<TypeKey>, subs: set<Sub>): Phase {
    match phase
    case Clearing(owed, todo) => Clearing(Minus(owed, services, types), Plus(todo, services, types))
    case Walking(owed, todo, visit, staged) => Walking(owed - subs, todo + subs, visit, staged)
    case DroppingServices(owed, todo, staged) =>
      DroppingServices(Minus(owed, services, {}), Plus(todo, services, {}), staged)
    case DroppingTypes(owed, todo, staged) => DroppingTypes(Minus(owed, {}, types), Plus(todo, {}, types), staged)
    case _ => phase
  }

  /** DEL or RENAME of one service's subscriber index, live or staged. */
  function HandleServiceIn(w: World, s: string): World {
    match w.phase
    case Clearing(owed, todo) =>
      if s !in todo.services then w else
      w.(db := w.db.(stagedSubscribers := w.db.stagedSubscribers - {s}), phase := Clearing(owed, Minus(todo, {s}, {})))
    case DroppingServices(owed, todo, staged) =>
      if s !in todo.services then w else
      w.(db := if s in staged.services then w.db else w.db.(subscribers := w.db.subscribers - {s}),
         phase := DroppingServices(if s in staged.services then owed else Minus(owed, {s}, {}), Minus(todo, {s}, {}), staged))
    case Publishing(left) =>
      if s !in left.services || s !in w.db.stagedSubscribers then w else
      w.(db := w.db.(subscribers := w.db.subscribers[s := w.db.stagedSubscribers[s]],
                     stagedSubscribers := w.db.stagedSubscribers - {s}),
         phase := Publishing(Minus(left, {s}, {})))
    case _ => w
  }

  /** The same for one type set. */
  function HandleTypeIn(w: World, k: TypeKey): World {
    match w.phase
    case Clearing(owed, todo) =>
      if k !in todo.types then w else
      w.(db := w.db.(stagedTyped := w.db.stagedTyped - {k}), phase := Clearing(owed, Minus(todo, {}, {k})))
    case DroppingTypes(owed, todo, staged) =>
      if k !in todo.types then w else
      w.(db := if k in staged.types then w.db else w.db.(typed := w.db.typed - {k}),
         phase := DroppingTypes(if k in staged.types then owed else Minus(owed, {}, {k}), Minus(todo, {}, {k}), staged))
    case Publishing(left) =>
      if k !in left.types || k !in w.db.stagedTyped then w else
      w.(db := w.db.(typed := w.db.typed[k := w.db.stagedTyped[k]], stagedTyped := w.db.stagedTyped - {k}),
         phase := Publishing(Minus(left, {}, {k})))
    case _ => w
  }

  function TypesOf(names: set<Name>): set<string> {
    set dp | dp in names :: dp.pushType
  }

  /** SMEMBERS of a subscriber the walk returned; one with no devices left belongs in no index. */
  function Read(w: World, x: Sub): World {
    if !w.phase.Walking? || w.phase.visit.Some? || x !in w.phase.todoSubs then w else
    var names := Members(w.db.devices, x);
    w.(phase := w.phase.(todoSubs := w.phase.todoSubs - {x},
                         visit := if names == {} then None else Some(Visit(x, names, TypesOf(names)))))
  }

  function OfType(names: set<Name>, pushType: string): set<Name> {
    set dp | dp in names && dp.pushType == pushType
  }

  /** SADD of the visited subscriber's devices of one type. */
  function StageTypeIn(w: World, pushType: string): World {
    if !w.phase.Walking? || w.phase.visit.None? || pushType !in w.phase.visit.value.left then w else
    var v := w.phase.visit.value;
    var k := TypeKey(v.x.service, pushType);
    w.(db := w.db.(stagedTyped := SAdd(w.db.stagedTyped, k, OfType(v.names, pushType))),
       phase := w.phase.(visit := Some(v.(left := v.left - {pushType})), staged := Plus(w.phase.staged, {}, {k})))
  }

  /** ZADD of the visited subscriber, once its types are written. */
  function StageSubscriberIn(w: World): World {
    if !w.phase.Walking? || w.phase.visit.None? || w.phase.visit.value.left != {} then w else
    var x := w.phase.visit.value.x;
    w.(db := w.db.(stagedSubscribers := SAdd(w.db.stagedSubscribers, x.service, {x.name})),
       phase := w.phase.(visit := None, staged := Plus(w.phase.staged, {x.service}, {})))
  }

  /** The rebuild moves on once its scan is over and what it returned is handled. */
  function Advance(w: World): World {
    match w.phase
    case Idle => w
    case Clearing(owed, todo) =>
      if owed != NO_KEYS || todo != NO_KEYS then w
      else w.(phase := Walking(w.db.devices.Keys, {}, None, NO_KEYS))
    case Walking(owed, todo, visit, staged) =>
      if owed != {} || todo != {} || visit.Some? then w
      else w.(phase := DroppingServices(Keys(w.db.subscribers.Keys, {}), NO_KEYS, staged))
    case DroppingServices(owed, todo, staged) =>
      if owed.services != {} || todo.services != {} then w
      else w.(phase := DroppingTypes(Keys({}, w.db.typed.Keys), NO_KEYS, staged))
    case DroppingTypes(owed, todo, staged) =>
      if owed.types != {} || todo.types != {} then w else w.(phase := Publishing(staged))
    case Publishing(left) =>
      if left != NO_KEYS then w
      else World(w.db.(built := true), Idle, {}, w.touched, w.prepared, false)
  }

  function Apply(w: World, step: Step): World {
    if IsScript(step) then Script(w, step) else
    match step
    case PutRecord(dp, raw) => w.(db := w.db.(records := w.db.records[dp := raw]))
    case DropRecord(dp) => w.(db := w.db.(records := w.db.records - {dp}))
    case Bind(b, psp) => w.(db := w.db.(bindings := w.db.bindings[b := psp]))
    case Unbind(b) => w.(db := w.db.(bindings := w.db.bindings - {b}))
    case FindEmpty => if EmptyDb(w.db) then w.(prepared := true) else w
    case MarkPrepared => if w.prepared then w.(db := w.db.(built := true)) else w
    case Begin =>
      if !w.phase.Idle? then w
      else w.(phase := Clearing(Keys(w.db.stagedSubscribers.Keys, w.db.stagedTyped.Keys), NO_KEYS))
    case Page(services, types, subs) => w.(phase := TakePage(w.phase, services, types, subs))
    case HandleService(s) => HandleServiceIn(w, s)
    case HandleType(k) => HandleTypeIn(w, k)
    case ReadSubscriber(x) => Read(w, x)
    case StageType(t) => StageTypeIn(w, t)
    case StageSubscriber => StageSubscriberIn(w)
    case Proceed => Advance(w)
    case GiveUp => World(w.db, Idle, {}, w.unsettled + w.touched, w.prepared, w.suspect)
  }

  /** A run from any database. */
  function Reached(db: Db, steps: seq<Step>): World {
    if steps == [] then World(db, Idle, {}, {}, false, db.built)
    else Apply(Reached(db, steps[..|steps| - 1]), steps[|steps| - 1])
  }

  // ---------- The invariant ----------

  ghost predicate StagedSubscriberRight(db: Db, y: Sub) {
    y.name in Members(db.stagedSubscribers, y.service) <==> Members(db.devices, y) != {}
  }

  ghost predicate StagedDeviceRight(db: Db, dp: Name, k: TypeKey) {
    dp in Members(db.stagedTyped, k) <==> BelongsIn(db, dp, k)
  }

  ghost predicate StagedRight(db: Db, y: Sub) {
    StagedSubscriberRight(db, y) && forall dp, k :: Owner(dp) == y ==> StagedDeviceRight(db, dp, k)
  }

  /** Nothing staged for y that does not belong. */
  ghost predicate StagedSound(db: Db, y: Sub) {
    && (y.name in Members(db.stagedSubscribers, y.service) ==> Members(db.devices, y) != {})
    && (forall dp, k :: Owner(dp) == y && dp in Members(db.stagedTyped, k) ==> BelongsIn(db, dp, k))
  }

  /** Every device of y is staged or in hand, and so is y itself. */
  ghost predicate Caught(db: Db, y: Sub, visit: Option<Visit>) {
    && (Listed(db, y) || (visit.Some? && visit.value.x == y))
    && forall dp :: dp in Members(db.devices, y) ==> Staged(db, dp) || dp in Hand(visit, y)
  }

  /** The rebuild under way will leave y indexed right, unless a script interferes. */
  ghost predicate Sheltered(phase: Phase, db: Db, y: Sub) {
    match phase
    case Idle => true
    case Clearing(_, _) => true
    case Walking(owed, todo, visit, _) =>
      && StagedSound(db, y)
      && Hand(visit, y) <= Members(db.devices, y)
      && (Members(db.devices, y) != {} ==> y in owed || y in todo || Caught(db, y, visit))
    case DroppingServices(owed, todo, staged) =>
      && StagedRight(db, y)
      && (y.name in Members(db.subscribers, y.service) && y.service !in staged.services ==>
            y.service in owed.services || y.service in todo.services)
    case DroppingTypes(owed, todo, staged) =>
      && (if y.service in staged.services then StagedSubscriberRight(db, y) else SubscriberRight(db, y))
      && (forall dp, k :: Owner(dp) == y ==> StagedDeviceRight(db, dp, k))
      && (forall dp, k :: Owner(dp) == y && dp in Members(db.typed, k) && k !in staged.types ==>
            k in owed.types || k in todo.types)
    case Publishing(left) =>
      && (if y.service in left.services then StagedSubscriberRight(db, y) else SubscriberRight(db, y))
      && (forall dp, k :: Owner(dp) == y ==>
            if k in left.types then StagedDeviceRight(db, dp, k) else DeviceRight(db, dp, k))
  }

  ghost predicate Shape(phase: Phase, db: Db) {
    match phase
    case Idle => true
    case Clearing(owed, todo) =>
      && db.stagedSubscribers.Keys <= owed.services + todo.services
      && db.stagedTyped.Keys <= owed.types + todo.types
    case Walking(owed, todo, visit, staged) =>
      && staged == Keys(db.stagedSubscribers.Keys, db.stagedTyped.Keys)
      && (visit.Some? ==> visit.value.names != {} && (forall dp :: dp in visit.value.names ==> Owner(dp) == visit.value.x))
      && (visit.Some? ==> forall t :: t in visit.value.left ==> OfType(visit.value.names, t) != {})
      && (visit.Some? ==> forall dp :: dp in visit.value.names && dp.pushType !in visit.value.left ==> Staged(db, dp))
    case DroppingServices(_, _, staged) => staged == Keys(db.stagedSubscribers.Keys, db.stagedTyped.Keys)
    case DroppingTypes(_, _, staged) => staged == Keys(db.stagedSubscribers.Keys, db.stagedTyped.Keys)
    case Publishing(left) => left == Keys(db.stagedSubscribers.Keys, db.stagedTyped.Keys)
  }

  ghost predicate Trusted(w: World) {
    (w.db.built || w.prepared) && !w.suspect
  }

  ghost predicate Inv(w: World) {
    && WellFormed(w.db)
    && Shape(w.phase, w.db)
    && (forall y :: y !in w.touched ==> Sheltered(w.phase, w.db, y))
    && (Trusted(w) ==> forall y :: y !in w.touched && y !in w.unsettled ==> IndexedRight(w.db, y))
    && (w.phase.Idle? ==> w.touched == {})
  }

  // ---------- Writes by others ----------

  lemma OthersKeepPhase(phase: Phase, db: Db, db': Db, y: Sub)
    requires Sheltered(phase, db, y) && SameFor(db, db', y) && WellFormed(db')
    ensures Sheltered(Owing(phase, db'), db', y)
  {
    match phase
    case Publishing(left) =>
      forall dp, k | Owner(dp) == y
        ensures if k in left.types then StagedDeviceRight(db', dp, k) else DeviceRight(db', dp, k)
      {
        assert if k in left.types then StagedDeviceRight(db, dp, k) else DeviceRight(db, dp, k);
      }
    case Walking(owed, todo, visit, _) =>
      assert StagedSound(db', y);
      assert Caught(db, y, visit) ==> Caught(db', y, visit);
    case DroppingServices(_, _, _) => SameForKeepsStaged(db, db', y);
    case DroppingTypes(_, _, _) => SameForKeepsStaged(db, db', y);
    case _ =>
  }

  lemma SameForKeepsStaged(db: Db, db': Db, y: Sub)
    requires SameFor(db, db', y)
    ensures forall dp, k :: Owner(dp) == y && StagedDeviceRight(db, dp, k) ==> StagedDeviceRight(db', dp, k)
    ensures StagedSubscriberRight(db, y) ==> StagedSubscriberRight(db', y)
    ensures SubscriberRight(db, y) ==> SubscriberRight(db', y)
  {
  }

  lemma ScriptSpares(db: Db, step: Step)
    requires WellFormed(db) && IsScript(step)
    ensures var db' := ApplyScript(db, step);
            && WellFormed(db')
            && (forall y :: y != Named(step) ==> SameFor(db, db', y))
            && (IndexedRight(db, Named(step)) ==> IndexedRight(db', Named(step)))
            && db'.stagedSubscribers == db.stagedSubscribers && db'.stagedTyped == db.stagedTyped
            && db'.built == db.built
  {
    match step
    case SubscribeStep(dp) =>
      SubscribeSpares(db, Owner(dp), dp);
      if IndexedRight(db, Owner(dp)) { SubscribeKeepsRight(db, Owner(dp), dp); }
    case UnsubscribeStep(x, dp) =>
      UnsubscribeSpares(db, x, dp);
      if IndexedRight(db, x) { UnsubscribeKeepsRight(db, x, dp); }
    case RemoveUnchangedStep(x, dp, raw) => RemoveUnchangedIsUnsubscribe(db, x, dp, raw);
  }

  // ---------- Scripts on the subscriber itself ----------

  /** What a script that changes y's devices does: dp comes or goes, in the device set and in the live index. */
  ghost predicate Changes(db: Db, db': Db, y: Sub, dp: Name, added: bool) {
    && Owner(dp) == y
    && (dp in Members(db.devices, y) <==> !added)
    && Members(db'.devices, y) == (if added then Members(db.devices, y) + {dp} else Members(db.devices, y) - {dp})
    && (forall e, k :: Owner(e) == y ==>
          (e in Members(db'.typed, k) <==> if e == dp && k == KeyOf(dp) then added else e in Members(db.typed, k)))
    && (y.name in Members(db'.subscribers, y.service) <==>
          if added then true else Members(db'.devices, y) != {} && y.name in Members(db.subscribers, y.service))
    && db'.stagedSubscribers == db.stagedSubscribers
    && db'.stagedTyped == db.stagedTyped
  }

  lemma ScriptChanges(db: Db, step: Step)
    requires WellFormed(db) && IsScript(step)
    requires Members(ApplyScript(db, step).devices, Named(step)) != Members(db.devices, Named(step))
    ensures Changes(db, ApplyScript(db, step), Named(step), Device(step), step.SubscribeStep?)
  {
    match step
    case SubscribeStep(dp) => SubscribeChanges(db, Owner(dp), dp);
    case UnsubscribeStep(x, dp) => UnsubscribeChanges(db, x, dp);
    case RemoveUnchangedStep(x, dp, raw) =>
      var db1 := db.(records := db.records - {dp}, bindings := db.bindings - {Binding(x.service, dp)});
      UnsubscribeChanges(db1, x, dp);
  }

  lemma SubscribeChanges(db: Db, x: Sub, dp: Name)
    requires Owner(dp) == x && dp !in Members(db.devices, x)
    ensures Changes(db, Subscribe(db, x, dp), x, dp, true)
  {
  }

  lemma UnsubscribeChanges(db: Db, x: Sub, dp: Name)
    requires WellFormed(db) && dp in Members(db.devices, x)
    ensures Changes(db, Unsubscribe(db, x, dp), x, dp, false)
  {
  }

  /** A script that leaves y's devices alone writes to the live index only what is right there. */
  ghost predicate Refreshes(db: Db, db': Db, y: Sub) {
    && Members(db'.devices, y) == Members(db.devices, y)
    && (forall e, k :: Owner(e) == y && (e in Members(db'.typed, k) <==> e !in Members(db.typed, k)) ==> DeviceRight(db', e, k))
    && ((y.name in Members(db'.subscribers, y.service) <==> y.name !in Members(db.subscribers, y.service)) ==> SubscriberRight(db', y))
    && db'.stagedSubscribers == db.stagedSubscribers
    && db'.stagedTyped == db.stagedTyped
  }

  lemma ScriptRefreshes(db: Db, step: Step)
    requires WellFormed(db) && IsScript(step)
    requires Members(ApplyScript(db, step).devices, Named(step)) == Members(db.devices, Named(step))
    ensures Refreshes(db, ApplyScript(db, step), Named(step))
  {
    match step
    case SubscribeStep(dp) => SubscribeRefreshes(db, Owner(dp), dp);
    case UnsubscribeStep(x, dp) => UnsubscribeRefreshes(db, x, dp);
    case RemoveUnchangedStep(x, dp, raw) =>
      if Unchanged(db, dp, raw) {
        UnsubscribeRefreshes(db.(records := db.records - {dp}, bindings := db.bindings - {Binding(x.service, dp)}), x, dp);
      }
  }

  lemma SubscribeRefreshes(db: Db, x: Sub, dp: Name)
    requires WellFormed(db) && Owner(dp) == x && Members(Subscribe(db, x, dp).devices, x) == Members(db.devices, x)
    ensures Refreshes(db, Subscribe(db, x, dp), x)
  {
  }

  lemma UnsubscribeRefreshes(db: Db, x: Sub, dp: Name)
    requires WellFormed(db) && Members(Unsubscribe(db, x, dp).devices, x) == Members(db.devices, x)
    ensures Refreshes(db, Unsubscribe(db, x, dp), x)
  {
  }

  lemma RefreshKeepsShelter(phase: Phase, db: Db, db': Db, y: Sub)
    requires Shape(phase, db) && Sheltered(phase, db, y) && Refreshes(db, db', y) && WellFormed(db')
    ensures Sheltered(Owing(phase, db'), db', y)
  {
    match phase
    case Walking(owed, todo, visit, _) =>
      assert StagedSound(db', y);
      assert Caught(db, y, visit) ==> Caught(db', y, visit);
    case DroppingServices(_, _, _) => RefreshKeepsStaged(db, db', y);
    case DroppingTypes(_, _, staged) =>
      RefreshKeepsStaged(db, db', y);
      forall dp, k | Owner(dp) == y && dp in Members(db'.typed, k) && k !in staged.types ensures dp in Members(db.typed, k) {
        assert StagedDeviceRight(db', dp, k);
      }
    case Publishing(left) =>
      forall dp, k | Owner(dp) == y
        ensures if k in left.types then StagedDeviceRight(db', dp, k) else DeviceRight(db', dp, k)
      {
        assert if k in left.types then StagedDeviceRight(db, dp, k) else DeviceRight(db, dp, k);
      }
    case _ =>
  }

  lemma RefreshKeepsStaged(db: Db, db': Db, y: Sub)
    requires Refreshes(db, db', y)
    ensures forall dp, k :: Owner(dp) == y && StagedDeviceRight(db, dp, k) ==> StagedDeviceRight(db', dp, k)
    ensures StagedSubscriberRight(db, y) ==> StagedSubscriberRight(db', y)
    ensures SubscriberRight(db, y) ==> SubscriberRight(db', y)
  {
  }

  /** A change of y's devices while the walk runs. */
  lemma WalkWindow(phase: Phase, db: Db, db': Db, y: Sub, dp: Name, added: bool)
    requires phase.Walking? && Shape(phase, db) && Sheltered(phase, db, y) && Changes(db, db', y, dp, added) && WellFormed(db')
    ensures Sheltered(Owing(phase, db'), db', y) <==>
              if added then y in phase.owedSubs || y in phase.todoSubs
              else !Staged(db, dp) && dp !in Hand(phase.visit, y) && (Listed(db, y) ==> Members(db'.devices, y) != {})
  {
    var visit := phase.visit;
    if added {
      assert StagedSound(db', y);
      assert !Staged(db, dp) && dp !in Hand(visit, y);
    } else {
      forall e, k | Owner(e) == y && e != dp && e in Members(db.stagedTyped, k) ensures BelongsIn(db', e, k) {
        assert BelongsIn(db, e, k);
      }
      assert !Staged(db, dp) ==> forall k :: dp in Members(db.stagedTyped, k) ==> BelongsIn(db, dp, k);
      assert Staged(db, dp) ==> !BelongsIn(db', dp, KeyOf(dp));
      assert Staged(db, dp) ==> !StagedSound(db', y);
    }
  }

  /** Once the walk is over, a change is not what was staged. */
  lemma DropWindow(phase: Phase, db: Db, db': Db, y: Sub, dp: Name, added: bool)
    requires (phase.DroppingServices? || phase.DroppingTypes?) && Sheltered(phase, db, y) && Changes(db, db', y, dp, added)
    ensures !Sheltered(Owing(phase, db'), db', y)
  {
    assert StagedDeviceRight(db, dp, KeyOf(dp));
    assert !StagedDeviceRight(db', dp, KeyOf(dp));
  }

  lemma PublishWindow(left: Keys, db: Db, db': Db, y: Sub, dp: Name, added: bool)
    requires Sheltered(Publishing(left), db, y) && Changes(db, db', y, dp, added)
    ensures Sheltered(Publishing(left), db', y) <==>
              KeyOf(dp) !in left.types && (y.service in left.services ==> Members(db.devices, y) != {} && Members(db'.devices, y) != {})
  {
    forall e, k | Owner(e) == y && !(e == dp && k == KeyOf(dp))
      ensures if k in left.types then StagedDeviceRight(db', e, k) else DeviceRight(db', e, k)
    {
      assert if k in left.types then StagedDeviceRight(db, e, k) else DeviceRight(db, e, k);
    }
    assert if KeyOf(dp) in left.types then StagedDeviceRight(db, dp, KeyOf(dp)) else DeviceRight(db, dp, KeyOf(dp));
    assert KeyOf(dp) in left.types ==> !StagedDeviceRight(db', dp, KeyOf(dp));
    assert KeyOf(dp) !in left.types ==> DeviceRight(db', dp, KeyOf(dp));
  }

  /** For a sheltered subscriber, Harmless is exact: the script leaves it sheltered if and only if it is harmless. */
  lemma HarmlessIsExact(w: World, step: Step)
    requires WellFormed(w.db) && Shape(w.phase, w.db) && IsScript(step) && Sheltered(w.phase, w.db, Named(step))
    ensures Sheltered(Script(w, step).phase, Script(w, step).db, Named(step)) <==> Harmless(w, step)
  {
    var db', y, dp := ApplyScript(w.db, step), Named(step), Device(step);
    ScriptSpares(w.db, step);
    if Members(db'.devices, y) == Members(w.db.devices, y) {
      ScriptRefreshes(w.db, step);
      RefreshKeepsShelter(w.phase, w.db, db', y);
    } else {
      ScriptChanges(w.db, step);
      match w.phase
      case Walking(_, _, _, _) => WalkWindow(w.phase, w.db, db', y, dp, step.SubscribeStep?);
      case DroppingServices(_, _, _) => DropWindow(w.phase, w.db, db', y, dp, step.SubscribeStep?);
      case DroppingTypes(_, _, _) => DropWindow(w.phase, w.db, db', y, dp, step.SubscribeStep?);
      case Publishing(left) => PublishWindow(left, w.db, db', y, dp, step.SubscribeStep?);
      case _ =>
    }
  }

  lemma ScriptKeepsInv(w: World, step: Step)
    requires Inv(w) && IsScript(step)
    ensures Inv(Script(w, step))
  {
    var w' := Script(w, step);
    ScriptSpares(w.db, step);
    forall y | y !in w'.touched ensures Sheltered(w'.phase, w'.db, y) {
      if y == Named(step) {
        HarmlessIsExact(w, step);
      } else {
        OthersKeepPhase(w.phase, w.db, w'.db, y);
      }
    }
    if Trusted(w') {
      forall y | y !in w'.touched && y !in w'.unsettled ensures IndexedRight(w'.db, y) {
        if y != Named(step) { SameForKeepsRight(w.db, w'.db, y); }
      }
    }
  }

  // ---------- Steps that leave sets and index alone ----------

  ghost predicate SameSets(db: Db, db': Db) {
    && db'.devices == db.devices && db'.subscribers == db.subscribers && db'.typed == db.typed
    && db'.stagedSubscribers == db.stagedSubscribers && db'.stagedTyped == db.stagedTyped
  }

  lemma SameSetsKeepPhase(phase: Phase, db: Db, db': Db, y: Sub)
    requires Sheltered(phase, db, y) && SameSets(db, db')
    ensures Sheltered(phase, db', y)
  {
    SameForKeepsStaged(db, db', y);
    if phase.Publishing? {
      forall dp, k | Owner(dp) == y
        ensures if k in phase.left.types then StagedDeviceRight(db', dp, k) else DeviceRight(db', dp, k)
      {
        assert if k in phase.left.types then StagedDeviceRight(db, dp, k) else DeviceRight(db, dp, k);
      }
    }
  }

  lemma SameSetsKeepInv(w: World, w': World)
    requires Inv(w) && SameSets(w.db, w'.db) && (Trusted(w') ==> Trusted(w))
    requires w'.phase == w.phase && w'.touched == w.touched && w'.unsettled == w.unsettled
    ensures Inv(w')
  {
    forall y | y !in w'.touched ensures Sheltered(w'.phase, w'.db, y) {
      SameSetsKeepPhase(w.phase, w.db, w'.db, y);
    }
    if Trusted(w') {
      forall y | y !in w'.touched && y !in w'.unsettled ensures IndexedRight(w'.db, y) {
        SameForKeepsRight(w.db, w'.db, y);
      }
    }
  }

  lemma EmptyDbAgrees(db: Db)
    requires EmptyDb(db)
    ensures Agrees(db)
  {
    forall y ensures IndexedRight(db, y) {}
  }

  // ---------- Rebuild steps ----------

  lemma PageKeepsShelter(w: World, services: set<string>, types: set<TypeKey>, subs: set<Sub>, y: Sub)
    requires Sheltered(w.phase, w.db, y)
    ensures Sheltered(TakePage(w.phase, services, types, subs), w.db, y)
  {
  }

  lemma PageKeepsInv(w: World, services: set<string>, types: set<TypeKey>, subs: set<Sub>)
    requires Inv(w)
    ensures Inv(Apply(w, Page(services, types, subs)))
  {
    var w' := Apply(w, Page(services, types, subs));
    forall y | y !in w'.touched ensures Sheltered(w'.phase, w'.db, y) {
      PageKeepsShelter(w, services, types, subs, y);
    }
  }

  lemma ReadKeepsShelter(w: World, x: Sub, y: Sub)
    requires WellFormed(w.db) && Sheltered(w.phase, w.db, y)
    ensures Sheltered(Read(w, x).phase, w.db, y)
  {
  }

  lemma ReadKeepsInv(w: World, x: Sub)
    requires Inv(w)
    ensures Inv(Read(w, x))
  {
    var w' := Read(w, x);
    if w' != w {
      var names := Members(w.db.devices, x);
      assert forall t :: t in TypesOf(names) ==> OfType(names, t) != {} by {
        forall t | t in TypesOf(names) ensures OfType(names, t) != {} {
          var dp :| dp in names && dp.pushType == t;
          assert dp in OfType(names, t);
        }
      }
      forall y | y !in w'.touched ensures Sheltered(w'.phase, w'.db, y) {
        ReadKeepsShelter(w, x, y);
      }
    }
  }

  lemma StageTypeKeepsInv(w: World, t: string)
    requires Inv(w)
    ensures Inv(StageTypeIn(w, t))
  {
    var w' := StageTypeIn(w, t);
    if w' != w {
      var v := w.phase.visit.value;
      var k := TypeKey(v.x.service, t);
      forall y | y !in w'.touched ensures Sheltered(w'.phase, w'.db, y) {
        StageTypeKeepsPhase(w, t, y);
      }
      if Trusted(w') {
        forall y | y !in w'.touched && y !in w'.unsettled ensures IndexedRight(w'.db, y) {
          LiveIndexOnly(w.db, w'.db, y);
        }
      }
    }
  }

  lemma StageTypeKeepsPhase(w: World, t: string, y: Sub)
    requires WellFormed(w.db) && Shape(w.phase, w.db) && Sheltered(w.phase, w.db, y)
    requires w.phase.Walking? && w.phase.visit.Some? && t in w.phase.visit.value.left
    ensures Sheltered(StageTypeIn(w, t).phase, StageTypeIn(w, t).db, y)
  {
    var v := w.phase.visit.value;
    var k, added := TypeKey(v.x.service, t), OfType(v.names, t);
    var w' := StageTypeIn(w, t);
    assert forall j :: Members(w'.db.stagedTyped, j) == if j == k then Members(w.db.stagedTyped, k) + added
                                                        else Members(w.db.stagedTyped, j);
    forall dp, j | Owner(dp) == y && dp in Members(w'.db.stagedTyped, j) ensures BelongsIn(w'.db, dp, j) {
      if dp !in Members(w.db.stagedTyped, j) {
        assert dp in added && j == k;
      } else {
        assert BelongsIn(w.db, dp, j);
      }
    }
  }

  lemma LiveIndexOnly(db: Db, db': Db, y: Sub)
    requires IndexedRight(db, y)
    requires db'.devices == db.devices && db'.subscribers == db.subscribers && db'.typed == db.typed
    ensures IndexedRight(db', y)
  {
    forall dp, k | Owner(dp) == y ensures DeviceRight(db', dp, k) { assert DeviceRight(db, dp, k); }
  }

  lemma StageSubscriberKeepsShelter(w: World, y: Sub)
    requires WellFormed(w.db) && Shape(w.phase, w.db) && Sheltered(w.phase, w.db, y)
    ensures Sheltered(StageSubscriberIn(w).phase, StageSubscriberIn(w).db, y)
  {
    var w' := StageSubscriberIn(w);
    if w' != w {
      assert forall dp, k :: Owner(dp) == y && BelongsIn(w.db, dp, k) ==> BelongsIn(w'.db, dp, k);
      assert Caught(w.db, y, w.phase.visit) ==> Caught(w'.db, y, None);
    }
  }

  lemma StageSubscriberKeepsInv(w: World)
    requires Inv(w)
    ensures Inv(StageSubscriberIn(w))
  {
    var w' := StageSubscriberIn(w);
    if w' != w {
      forall y | y !in w'.touched ensures Sheltered(w'.phase, w'.db, y) {
        StageSubscriberKeepsShelter(w, y);
      }
      if Trusted(w') {
        forall y | y !in w'.touched && y !in w'.unsettled ensures IndexedRight(w'.db, y) {
          LiveIndexOnly(w.db, w'.db, y);
        }
      }
    }
  }

  /** Deleting a live key the walk staged nothing for takes nothing from a sheltered subscriber. */
  lemma DropServiceKeepsShelter(w: World, s: string, y: Sub)
    requires w.phase.DroppingServices? && Sheltered(w.phase, w.db, y)
    ensures Sheltered(HandleServiceIn(w, s).phase, HandleServiceIn(w, s).db, y)
  {
    var db' := HandleServiceIn(w, s).db;
    forall dp, k | Owner(dp) == y ensures StagedDeviceRight(db', dp, k) { assert StagedDeviceRight(w.db, dp, k); }
  }

  lemma DropTypeKeepsShelter(w: World, j: TypeKey, y: Sub)
    requires w.phase.DroppingTypes? && Sheltered(w.phase, w.db, y)
    ensures Sheltered(HandleTypeIn(w, j).phase, HandleTypeIn(w, j).db, y)
  {
    var db' := HandleTypeIn(w, j).db;
    forall dp, k | Owner(dp) == y ensures StagedDeviceRight(db', dp, k) { assert StagedDeviceRight(w.db, dp, k); }
  }

  lemma DropServiceKeepsInv(w: World, s: string)
    requires Inv(w) && w.phase.DroppingServices?
    ensures Inv(HandleServiceIn(w, s))
  {
    var w' := HandleServiceIn(w, s);
    if s in w.phase.todo.services {
      forall y | y !in w'.touched ensures Sheltered(w'.phase, w'.db, y) {
        DropServiceKeepsShelter(w, s, y);
      }
      if Trusted(w') {
        forall y | y !in w'.touched && y !in w'.unsettled ensures IndexedRight(w'.db, y) {
          assert Sheltered(w.phase, w.db, y);
          assert IndexedRight(w.db, y);
          forall dp, k | Owner(dp) == y ensures DeviceRight(w'.db, dp, k) { assert DeviceRight(w.db, dp, k); }
        }
      }
    }
  }

  lemma DropTypeKeepsInv(w: World, j: TypeKey)
    requires Inv(w) && w.phase.DroppingTypes?
    ensures Inv(HandleTypeIn(w, j))
  {
    var w' := HandleTypeIn(w, j);
    if j in w.phase.todo.types {
      forall y | y !in w'.touched ensures Sheltered(w'.phase, w'.db, y) {
        DropTypeKeepsShelter(w, j, y);
      }
      if Trusted(w') {
        forall y | y !in w'.touched && y !in w'.unsettled ensures IndexedRight(w'.db, y) {
          DropTypeSpares(w, j, y);
        }
      }
    }
  }

  lemma DropTypeSpares(w: World, j: TypeKey, y: Sub)
    requires WellFormed(w.db) && Shape(w.phase, w.db) && w.phase.DroppingTypes?
    requires Sheltered(w.phase, w.db, y) && IndexedRight(w.db, y)
    ensures IndexedRight(HandleTypeIn(w, j).db, y)
  {
    var db' := HandleTypeIn(w, j).db;
    forall dp, k | Owner(dp) == y ensures DeviceRight(db', dp, k) {
      assert DeviceRight(w.db, dp, k);
      assert StagedDeviceRight(w.db, dp, k);
    }
  }

  lemma ClearKeepsInv(w: World, w': World)
    requires Inv(w) && w.phase.Clearing? && w'.phase.Clearing? && Shape(w'.phase, w'.db) && WellFormed(w'.db)
    requires w' == w.(db := w'.db, phase := w'.phase)
    requires w'.db.devices == w.db.devices && w'.db.subscribers == w.db.subscribers && w'.db.typed == w.db.typed
    requires w'.db.built == w.db.built
    ensures Inv(w')
  {
    if Trusted(w') {
      forall y | y !in w'.touched && y !in w'.unsettled ensures IndexedRight(w'.db, y) {
        LiveIndexOnly(w.db, w'.db, y);
      }
    }
  }

  /** After the rename, the service's subscriber index is the staged one. */
  lemma PublishServiceSpares(w: World, s: string, y: Sub)
    requires w.phase.Publishing? && Shape(w.phase, w.db) && s in w.phase.left.services
    requires Sheltered(w.phase, w.db, y)
    ensures var w' := HandleServiceIn(w, s);
            && Sheltered(w'.phase, w'.db, y)
            && (IndexedRight(w.db, y) ==> IndexedRight(w'.db, y))
  {
    var w' := HandleServiceIn(w, s);
    forall dp, k | Owner(dp) == y
      ensures if k in w'.phase.left.types then StagedDeviceRight(w'.db, dp, k) else DeviceRight(w'.db, dp, k)
    {
      assert if k in w.phase.left.types then StagedDeviceRight(w.db, dp, k) else DeviceRight(w.db, dp, k);
    }
    if IndexedRight(w.db, y) {
      forall dp, k | Owner(dp) == y ensures DeviceRight(w'.db, dp, k) { assert DeviceRight(w.db, dp, k); }
    }
  }

  lemma PublishTypeSpares(w: World, j: TypeKey, y: Sub)
    requires w.phase.Publishing? && Shape(w.phase, w.db) && j in w.phase.left.types
    requires Sheltered(w.phase, w.db, y)
    ensures var w' := HandleTypeIn(w, j);
            && Sheltered(w'.phase, w'.db, y)
            && (IndexedRight(w.db, y) ==> IndexedRight(w'.db, y))
  {
    var w' := HandleTypeIn(w, j);
    forall dp, k | Owner(dp) == y
      ensures if k in w'.phase.left.types then StagedDeviceRight(w'.db, dp, k) else DeviceRight(w'.db, dp, k)
    {
      assert if k in w.phase.left.types then StagedDeviceRight(w.db, dp, k) else DeviceRight(w.db, dp, k);
    }
    if IndexedRight(w.db, y) {
      forall dp, k | Owner(dp) == y ensures DeviceRight(w'.db, dp, k) {
        assert DeviceRight(w.db, dp, k);
        assert if k in w.phase.left.types then StagedDeviceRight(w.db, dp, k) else DeviceRight(w.db, dp, k);
      }
    }
  }

  lemma HandleServiceKeepsInv(w: World, s: string)
    requires Inv(w)
    ensures Inv(HandleServiceIn(w, s))
  {
    var w' := HandleServiceIn(w, s);
    match w.phase
    case Clearing(_, _) => if w' != w { ClearKeepsInv(w, w'); }
    case DroppingServices(_, _, _) => DropServiceKeepsInv(w, s);
    case Publishing(left) =>
      if w' != w {
        forall y | y !in w.touched
          ensures Sheltered(w'.phase, w'.db, y) && (IndexedRight(w.db, y) ==> IndexedRight(w'.db, y))
        {
          PublishServiceSpares(w, s, y);
        }
      }
    case _ =>
  }

  lemma HandleTypeKeepsInv(w: World, k: TypeKey)
    requires Inv(w)
    ensures Inv(HandleTypeIn(w, k))
  {
    var w' := HandleTypeIn(w, k);
    match w.phase
    case Clearing(_, _) => if w' != w { ClearKeepsInv(w, w'); }
    case DroppingTypes(_, _, _) => DropTypeKeepsInv(w, k);
    case Publishing(left) =>
      if w' != w {
        forall y | y !in w.touched
          ensures Sheltered(w'.phase, w'.db, y) && (IndexedRight(w.db, y) ==> IndexedRight(w'.db, y))
        {
          PublishTypeSpares(w, k, y);
        }
      }
    case _ =>
  }

  /** A finished walk has staged every untouched subscriber exactly right. */
  lemma WalkStages(w: World, y: Sub)
    requires WellFormed(w.db) && w.phase.Walking? && Sheltered(w.phase, w.db, y)
    requires w.phase.owedSubs == {} && w.phase.todoSubs == {} && w.phase.visit == None
    ensures StagedRight(w.db, y)
  {
    forall dp, k | Owner(dp) == y ensures StagedDeviceRight(w.db, dp, k) {
      if BelongsIn(w.db, dp, k) {
        assert dp in Members(w.db.devices, y);
        assert Caught(w.db, y, None);
      }
    }
  }

  lemma AdvanceKeepsPhase(w: World, y: Sub)
    requires WellFormed(w.db) && Shape(w.phase, w.db) && Sheltered(w.phase, w.db, y)
    ensures Sheltered(Advance(w).phase, Advance(w).db, y)
  {
    var w' := Advance(w);
    if w' != w {
      match w.phase
      case Clearing(_, _) => assert w.db.stagedSubscribers == map[] && w.db.stagedTyped == map[];
      case Walking(_, _, _, _) => WalkStages(w, y);
      case DroppingServices(_, _, staged) =>
        assert StagedSubscriberRight(w.db, y);
      case DroppingTypes(_, _, staged) =>
        forall dp, k | Owner(dp) == y
          ensures if k in staged.types then StagedDeviceRight(w'.db, dp, k) else DeviceRight(w'.db, dp, k)
        {
          assert StagedDeviceRight(w.db, dp, k);
        }
      case _ =>
    }
  }

  /** When the last rename is done, every subscriber untouched since the rebuild began is indexed right. */
  lemma PublishedIsRight(w: World, y: Sub)
    requires Inv(w) && w.phase == Publishing(NO_KEYS) && y !in w.touched
    ensures IndexedRight(w.db, y)
  {
    assert Sheltered(w.phase, w.db, y);
    forall dp, k | Owner(dp) == y ensures DeviceRight(w.db, dp, k) {
      assert k !in NO_KEYS.types;
    }
  }

  lemma AdvanceKeepsInv(w: World)
    requires Inv(w)
    ensures Inv(Advance(w))
  {
    var w' := Advance(w);
    if w.phase == Publishing(NO_KEYS) {
      forall y | y !in w'.unsettled ensures IndexedRight(w'.db, y) {
        PublishedIsRight(w, y);
        LiveIndexOnly(w.db, w'.db, y);
      }
    } else {
      forall y | y !in w'.touched ensures Sheltered(w'.phase, w'.db, y) {
        AdvanceKeepsPhase(w, y);
      }
    }
  }

  /** A sheltered subscriber stays sheltered through every step but a script on itself. */
  lemma StepKeepsShelter(w: World, step: Step, y: Sub)
    requires WellFormed(w.db) && Shape(w.phase, w.db) && Sheltered(w.phase, w.db, y)
    requires IsScript(step) ==> Named(step) != y
    ensures Sheltered(Apply(w, step).phase, Apply(w, step).db, y)
  {
    if IsScript(step) {
      ScriptSpares(w.db, step);
      OthersKeepPhase(w.phase, w.db, Apply(w, step).db, y);
    } else {
      match step
      case Page(services, types, subs) => PageKeepsShelter(w, services, types, subs, y);
      case HandleService(s) => HandleServiceKeepsShelter(w, s, y);
      case HandleType(k) => HandleTypeKeepsShelter(w, k, y);
      case ReadSubscriber(x) => ReadKeepsShelter(w, x, y);
      case StageType(t) => if StageTypeIn(w, t) != w { StageTypeKeepsPhase(w, t, y); }
      case StageSubscriber => StageSubscriberKeepsShelter(w, y);
      case Proceed => AdvanceKeepsPhase(w, y);
      case Begin =>
      case GiveUp =>
      case _ => SameSetsKeepPhase(w.phase, w.db, Apply(w, step).db, y);
    }
  }

  lemma HandleServiceKeepsShelter(w: World, s: string, y: Sub)
    requires Shape(w.phase, w.db) && Sheltered(w.phase, w.db, y)
    ensures Sheltered(HandleServiceIn(w, s).phase, HandleServiceIn(w, s).db, y)
  {
    if w.phase.DroppingServices? {
      DropServiceKeepsShelter(w, s, y);
    } else if w.phase.Publishing? && s in w.phase.left.services {
      PublishServiceSpares(w, s, y);
    }
  }

  lemma HandleTypeKeepsShelter(w: World, k: TypeKey, y: Sub)
    requires Shape(w.phase, w.db) && Sheltered(w.phase, w.db, y)
    ensures Sheltered(HandleTypeIn(w, k).phase, HandleTypeIn(w, k).db, y)
  {
    if w.phase.DroppingTypes? {
      DropTypeKeepsShelter(w, k, y);
    } else if w.phase.Publishing? && k in w.phase.left.types {
      PublishTypeSpares(w, k, y);
    }
  }

  lemma InvPreserved(w: World, step: Step)
    requires Inv(w)
    ensures Inv(Apply(w, step))
  {
    match step
    case SubscribeStep(_) => ScriptKeepsInv(w, step);
    case UnsubscribeStep(_, _) => ScriptKeepsInv(w, step);
    case RemoveUnchangedStep(_, _, _) => ScriptKeepsInv(w, step);
    case PutRecord(_, _) => SameSetsKeepInv(w, Apply(w, step));
    case DropRecord(_) => SameSetsKeepInv(w, Apply(w, step));
    case Bind(_, _) => SameSetsKeepInv(w, Apply(w, step));
    case Unbind(_) => SameSetsKeepInv(w, Apply(w, step));
    case FindEmpty => if EmptyDb(w.db) { EmptyDbAgrees(w.db); }
    case MarkPrepared => SameSetsKeepInv(w, Apply(w, step));
    case Begin =>
    case Page(services, types, subs) => PageKeepsInv(w, services, types, subs);
    case HandleService(s) => HandleServiceKeepsInv(w, s);
    case HandleType(k) => HandleTypeKeepsInv(w, k);
    case ReadSubscriber(x) => ReadKeepsInv(w, x);
    case StageType(t) => StageTypeKeepsInv(w, t);
    case StageSubscriber => StageSubscriberKeepsInv(w);
    case Proceed => AdvanceKeepsInv(w);
    case GiveUp =>
  }

  lemma {:induction false} RunKeepsInv(db: Db, steps: seq<Step>)
    requires WellFormed(db)
    ensures Inv(Reached(db, steps))
  {
    if steps != [] {
      RunKeepsInv(db, steps[..|steps| - 1]);
      InvPreserved(Reached(db, steps[..|steps| - 1]), steps[|steps| - 1]);
    }
  }

  // ---------- Returning one key and handling it ----------

  lemma ClearServiceNow(w: World, owed: Keys, s: string)
    requires w.phase == Clearing(owed, NO_KEYS)
    ensures Apply(Apply(w, Page({s}, {}, {})), HandleService(s)) ==
            w.(db := w.db.(stagedSubscribers := w.db.stagedSubscribers - {s}),
               phase := Clearing(Keys(owed.services - {s}, owed.types), NO_KEYS))
  {
    var p := Clearing(Keys(owed.services - {s}, owed.types), Keys({s}, {}));
    assert TakePage(w.phase, {s}, {}, {}) == p;
    assert Apply(w, Page({s}, {}, {})) == w.(phase := p);
    assert Minus(Keys({s}, {}), {s}, {}) == NO_KEYS;
  }

  lemma ClearTypeNow(w: World, owed: Keys, k: TypeKey)
    requires w.phase == Clearing(owed, NO_KEYS)
    ensures Apply(Apply(w, Page({}, {k}, {})), HandleType(k)) ==
            w.(db := w.db.(stagedTyped := w.db.stagedTyped - {k}),
               phase := Clearing(Keys(owed.services, owed.types - {k}), NO_KEYS))
  {
    var p := Clearing(Keys(owed.services, owed.types - {k}), Keys({}, {k}));
    assert TakePage(w.phase, {}, {k}, {}) == p;
    assert Apply(w, Page({}, {k}, {})) == w.(phase := p);
    assert Minus(Keys({}, {k}), {}, {k}) == NO_KEYS;
  }

  lemma VisitNow(w: World, owed: set<Sub>, staged: Keys, x: Sub)
    requires w.phase == Walking(owed, {}, None, staged)
    ensures var names := Members(w.db.devices, x);
            Apply(Apply(w, Page({}, {}, {x})), ReadSubscriber(x)) ==
            w.(phase := Walking(owed - {x}, {},
                 if names == {} then None else Some(Visit(x, names, TypesOf(names))), staged))
  {
    var p := Walking(owed - {x}, {x}, None, staged);
    assert TakePage(w.phase, {}, {}, {x}) == p;
    assert Apply(w, Page({}, {}, {x})) == w.(phase := p);
    assert {x} - {x} == {};
  }

  lemma DropServiceNow(w: World, owed: set<string>, staged: Keys, s: string)
    requires w.phase == DroppingServices(Keys(owed, {}), NO_KEYS, staged)
    ensures Apply(Apply(w, Page({s}, {}, {})), HandleService(s)) ==
            w.(db := if s in staged.services then w.db else w.db.(subscribers := w.db.subscribers - {s}),
               phase := DroppingServices(Keys(owed - {s}, {}), NO_KEYS, staged))
  {
    var p := DroppingServices(Keys(owed - {s}, {}), Keys({s}, {}), staged);
    assert TakePage(w.phase, {s}, {}, {}) == p;
    assert Apply(w, Page({s}, {}, {})) == w.(phase := p);
    assert Minus(Keys({s}, {}), {s}, {}) == NO_KEYS;
    assert Minus(Keys(owed - {s}, {}), {s}, {}) == Keys(owed - {s}, {});
  }

  lemma DropTypeNow(w: World, owed: set<TypeKey>, staged: Keys, k: TypeKey)
    requires w.phase == DroppingTypes(Keys({}, owed), NO_KEYS, staged)
    ensures Apply(Apply(w, Page({}, {k}, {})), HandleType(k)) ==
            w.(db := if k in staged.types then w.db else w.db.(typed := w.db.typed - {k}),
               phase := DroppingTypes(Keys({}, owed - {k}), NO_KEYS, staged))
  {
    var p := DroppingTypes(Keys({}, owed - {k}), Keys({}, {k}), staged);
    assert TakePage(w.phase, {}, {k}, {}) == p;
    assert Apply(w, Page({}, {k}, {})) == w.(phase := p);
    assert Minus(Keys({}, {k}), {}, {k}) == NO_KEYS;
    assert Minus(Keys({}, owed - {k}), {}, {k}) == Keys({}, owed - {k});
  }

  // ---------- The theorems ----------

  /**
    In every run, from any index and staging contents, marked or not: once a rebuild's last rename
    is done, every subscriber is indexed exactly right whose devices no script changed during it
    outside the window.
   */
  lemma {:induction false} RebuildSettlesUntouched(db: Db, steps: seq<Step>, y: Sub)
    requires WellFormed(db)
    requires Reached(db, steps).phase == Publishing(NO_KEYS)
    requires y !in Reached(db, steps).touched
    ensures IndexedRight(Reached(db, steps).db, y)
    ensures var w := Apply(Reached(db, steps), Proceed);
            w.db.built && w.phase.Idle? && IndexedRight(w.db, y) && y !in w.unsettled && !w.suspect
  {
    RunKeepsInv(db, steps);
    PublishedIsRight(Reached(db, steps), y);
    ProceedMarks(Reached(db, steps), y);
  }

  lemma ProceedMarks(w: World, y: Sub)
    requires w.phase == Publishing(NO_KEYS) && y !in w.touched && IndexedRight(w.db, y)
    ensures var w' := Apply(w, Proceed);
            w'.db.built && w'.phase.Idle? && IndexedRight(w'.db, y) && y !in w'.unsettled && !w'.suspect
  {
    LiveIndexOnly(w.db, w.db.(built := true), y);
  }

  /**
    In every run, once the marker is one the run has set, every subscriber is indexed exactly right
    unless a script changed its devices outside the window of the rebuild under way or the last one.
   */
  lemma {:induction false} MarkedMeansRight(db: Db, steps: seq<Step>, y: Sub)
    requires WellFormed(db)
    requires Reached(db, steps).db.built && !Reached(db, steps).suspect
    requires y !in Reached(db, steps).touched && y !in Reached(db, steps).unsettled
    ensures IndexedRight(Reached(db, steps).db, y)
  {
    RunKeepsInv(db, steps);
  }

  /** A marker older than the run is the only kind that can be suspect, and a finished rebuild clears it. */
  lemma {:induction false} OnlyOldMarkersAreSuspect(db: Db, steps: seq<Step>)
    requires !db.built
    ensures !Reached(db, steps).suspect
  {
    if steps != [] {
      OnlyOldMarkersAreSuspect(db, steps[..|steps| - 1]);
      NoStepSuspects(Reached(db, steps[..|steps| - 1]), steps[|steps| - 1]);
    }
  }

  lemma NoStepSuspects(w: World, step: Step)
    requires !w.suspect
    ensures !Apply(w, step).suspect
  {
  }

  /** No script runs while a rebuild does. */
  ghost predicate NoOverlap(db: Db, steps: seq<Step>) {
    forall i :: 0 <= i < |steps| && IsScript(steps[i]) ==> Reached(db, steps[..i]).phase.Idle?
  }

  lemma {:induction false} NoOverlapTouchesNobody(db: Db, steps: seq<Step>)
    requires NoOverlap(db, steps)
    ensures Reached(db, steps).touched == {} && Reached(db, steps).unsettled == {}
  {
    if steps != [] {
      var init := steps[..|steps| - 1];
      forall i | 0 <= i < |init| && IsScript(init[i]) ensures Reached(db, init[..i]).phase.Idle? {
        assert init[..i] == steps[..i];
      }
      NoOverlapTouchesNobody(db, init);
      QuietStepTouchesNobody(Reached(db, init), steps[|steps| - 1]);
    }
  }

  lemma QuietStepTouchesNobody(w: World, step: Step)
    requires w.touched == {} && w.unsettled == {} && (IsScript(step) ==> w.phase.Idle?)
    ensures Apply(w, step).touched == {} && Apply(w, step).unsettled == {}
  {
  }

  /** With rebuilds that overlap no script, a marked index is the one the subscriber sets say, for everyone. */
  lemma {:induction false} MarkedMeansExact(db: Db, steps: seq<Step>)
    requires WellFormed(db)
    requires NoOverlap(db, steps) && Reached(db, steps).db.built && !Reached(db, steps).suspect
    ensures Agrees(Reached(db, steps).db)
  {
    NoOverlapTouchesNobody(db, steps);
    RunKeepsInv(db, steps);
  }

  // ---------- How the marker comes to be set ----------

  ghost predicate SawEmpty(db: Db, steps: seq<Step>, j: nat)
    requires j < |steps|
  {
    steps[j].FindEmpty? && EmptyDb(Reached(db, steps[..j]).db)
  }

  /** Some step of the run has found the database empty. */
  ghost predicate FoundEmpty(db: Db, steps: seq<Step>) {
    exists j :: 0 <= j < |steps| && SawEmpty(db, steps, j)
  }

  /** Step i ended a rebuild with everything staged published, or marked after the database had been found empty. */
  ghost predicate Earns(db: Db, steps: seq<Step>, i: nat)
    requires i < |steps|
  {
    || (steps[i].Proceed? && Reached(db, steps[..i]).phase == Publishing(NO_KEYS))
    || (steps[i].MarkPrepared? && FoundEmpty(db, steps[..i]))
  }

  ghost predicate Earned(db: Db, steps: seq<Step>) {
    exists i :: 0 <= i < |steps| && Earns(db, steps, i)
  }

  lemma FoundEmptyOneMore(db: Db, steps: seq<Step>)
    requires steps != []
    ensures FoundEmpty(db, steps) <==> FoundEmpty(db, steps[..|steps| - 1]) || SawEmpty(db, steps, |steps| - 1)
  {
    var n := |steps| - 1;
    var init := steps[..n];
    forall j: nat | j < n ensures SawEmpty(db, init, j) == SawEmpty(db, steps, j) {
      assert init[..j] == steps[..j];
    }
    if FoundEmpty(db, init) {
      var j :| 0 <= j < n && SawEmpty(db, init, j);
      assert SawEmpty(db, steps, j);
    }
  }

  lemma EarnedOneMore(db: Db, steps: seq<Step>)
    requires steps != []
    ensures Earned(db, steps) <==> Earned(db, steps[..|steps| - 1]) || Earns(db, steps, |steps| - 1)
  {
    var n := |steps| - 1;
    var init := steps[..n];
    forall i: nat | i < n ensures Earns(db, init, i) == Earns(db, steps, i) {
      assert init[..i] == steps[..i];
    }
    if Earned(db, init) {
      var i :| 0 <= i < n && Earns(db, init, i);
      assert Earns(db, steps, i);
    }
  }

  /** The index is marked exactly if it was from the start, or a step of the run has earned the marker. */
  lemma {:induction false} MarkerIsEarned(db: Db, steps: seq<Step>)
    ensures Reached(db, steps).prepared <==> FoundEmpty(db, steps)
    ensures Reached(db, steps).db.built <==> db.built || Earned(db, steps)
  {
    if steps != [] {
      var n := |steps| - 1;
      MarkerIsEarned(db, steps[..n]);
      MarkStep(Reached(db, steps[..n]), steps[n]);
      FoundEmptyOneMore(db, steps);
      EarnedOneMore(db, steps);
    }
  }

  /** What one step does to the marker and to the note that the database was found empty. */
  lemma MarkStep(w: World, step: Step)
    ensures Apply(w, step).prepared <==> w.prepared || (step.FindEmpty? && EmptyDb(w.db))
    ensures Apply(w, step).db.built <==>
              w.db.built || (step.Proceed? && w.phase == Publishing(NO_KEYS)) || (step.MarkPrepared? && w.prepared)
  {
    match step
    case SubscribeStep(_) =>
    case UnsubscribeStep(_, _) =>
    case RemoveUnchangedStep(_, _, _) =>
    case PutRecord(_, _) =>
    case DropRecord(_) =>
    case Bind(_, _) =>
    case Unbind(_) =>
    case FindEmpty =>
    case MarkPrepared =>
    case Begin =>
    case Page(_, _, _) =>
    case HandleService(s) => HandleServiceMarksNothing(w, s);
    case HandleType(k) => HandleTypeMarksNothing(w, k);
    case ReadSubscriber(_) =>
    case StageType(_) =>
    case StageSubscriber =>
    case Proceed => AdvanceMarks(w);
    case GiveUp =>
  }

  lemma HandleServiceMarksNothing(w: World, s: string)
    ensures HandleServiceIn(w, s).db.built == w.db.built && HandleServiceIn(w, s).prepared == w.prepared
  {
    match w.phase
    case Clearing(_, _) =>
    case DroppingServices(_, todo, staged) =>
      if s in todo.services && s in staged.services {
        assert HandleServiceIn(w, s).db == w.db;
      }
    case Publishing(_) =>
    case _ => assert HandleServiceIn(w, s) == w;
  }

  lemma HandleTypeMarksNothing(w: World, k: TypeKey)
    ensures HandleTypeIn(w, k).db.built == w.db.built && HandleTypeIn(w, k).prepared == w.prepared
  {
    match w.phase
    case Clearing(_, _) =>
    case DroppingTypes(_, todo, staged) =>
      if k in todo.types && k in staged.types {
        assert HandleTypeIn(w, k).db == w.db;
      }
    case Publishing(_) =>
    case _ => assert HandleTypeIn(w, k) == w;
  }

  lemma AdvanceMarks(w: World)
    ensures Advance(w).prepared == w.prepared
    ensures Advance(w).db.built <==> w.db.built || w.phase == Publishing(NO_KEYS)
  {
  }
}
