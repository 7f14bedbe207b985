/**
  PushRedisDB of db/pushredisdb.go and db/subscriber_index.go, run on its own: the scripts, and
  the whole rebuild as the loops it is. A SCAN's pages are a parameter: what the walk returns,
  in any order and with any repeats, covering the keys that are there.
 */
module PushRedisDb {
  import opened Basics
  import opened Store
  import opened IndexRuns

  class PushRedisDB {
    /** What the redis server holds. */
    var db: Db

    constructor (db: Db)
      ensures this.db == db
    {
      this.db := db;
    }

    /** subscribeScript, command by command; the result is the number of members added. */
    method SubscribeScript(x: Sub, dp: Name) returns (added: nat)
      modifies this
      ensures db == Subscribe(old(db), x, dp)
      ensures added == if dp in Members(old(db).devices, x) then 0 else 1
    {
      added := if dp in Members(db.devices, x) then 0 else 1;
      db := db.(devices := SAdd(db.devices, x, {dp}));
      db := db.(subscribers := SAdd(db.subscribers, x.service, {x.name}));
      db := db.(typed := SAdd(db.typed, TypeKey(x.service, dp.pushType), {dp}));
    }

    /** unsubscribeScript; the result is the number removed. */
    method UnsubscribeScript(x: Sub, dp: Name) returns (removed: nat)
      modifies this
      ensures db == Unsubscribe(old(db), x, dp)
      ensures removed == if dp in Members(old(db).devices, x) then 1 else 0
    {
      removed := if dp in Members(db.devices, x) then 1 else 0;
      db := db.(devices := SRem(db.devices, x, dp));
      if removed == 1 {
        db := db.(typed := SRem(db.typed, TypeKey(x.service, dp.pushType), dp));
      }
      if |Members(db.devices, x)| == 0 {
        db := db.(subscribers := SRem(db.subscribers, x.service, x.name));
      }
    }

    /** removeUnchangedScript. */
    method RemoveUnchangedScript(x: Sub, dp: Name, raw: Raw) returns (removed: nat)
      modifies this
      ensures db == RemoveUnchanged(old(db), x, dp, raw)
      ensures removed == if Unchanged(old(db), dp, raw) then 1 else 0
    {
      if dp !in db.records || db.records[dp] != raw {
        return 0;
      }
      db := db.(records := db.records - {dp}, bindings := db.bindings - {Binding(x.service, dp)});
      var _ := UnsubscribeScript(x, dp);
      removed := 1;
    }

    // ---------- The rebuild ----------

    /** Everything but the index, its staging area and its marker. */
    function Rest(): Db
      reads this
    {
      Db(db.devices, map[], map[], map[], map[], false, db.records, db.bindings)
    }

    /** The rebuild stands at t: what redis holds, and the phase it is in. */
    ghost predicate At(t: Trail, phase: Phase)
      reads this
    {
      t.Valid() && t.end == World(db, phase, {}, {}, false, t.db.built)
    }

    /** clearSubscriberIndexStaging, for the staged subscriber indexes. */
    method ClearStagedServices(page: seq<string>, owed: Keys, ghost t0: Trail) returns (ghost t: Trail)
      requires At(t0, Clearing(owed, NO_KEYS)) && owed.services <= ToSet(page)
      modifies this
      ensures t.db == t0.db && At(t, Clearing(Keys({}, owed.types), NO_KEYS))
      ensures db == old(db).(stagedSubscribers := db.stagedSubscribers)
    {
      t := t0;
      ghost var left := owed.services;
      for i := 0 to |page|
        invariant t.db == t0.db && At(t, Clearing(Keys(left, owed.types), NO_KEYS))
        invariant left <= ToSet(page[i..])
        invariant db == old(db).(stagedSubscribers := db.stagedSubscribers)
      {
        t := t.ClearService(Keys(left, owed.types), page[i]);
        left := left - {page[i]};
        db := db.(stagedSubscribers := db.stagedSubscribers - {page[i]});
      }
      assert left == {};
    }

    /** clearSubscriberIndexStaging, for the staged type sets. */
    method ClearStagedTypes(page: seq<TypeKey>, owed: set<TypeKey>, ghost t0: Trail) returns (ghost t: Trail)
      requires At(t0, Clearing(Keys({}, owed), NO_KEYS)) && owed <= ToSet(page)
      modifies this
      ensures t.db == t0.db && At(t, Clearing(NO_KEYS, NO_KEYS))
      ensures db == old(db).(stagedTyped := db.stagedTyped)
    {
      t := t0;
      ghost var left := owed;
      for i := 0 to |page|
        invariant t.db == t0.db && At(t, Clearing(Keys({}, left), NO_KEYS))
        invariant left <= ToSet(page[i..])
        invariant db == old(db).(stagedTyped := db.stagedTyped)
      {
        t := t.ClearType(Keys({}, left), page[i]);
        left := left - {page[i]};
        db := db.(stagedTyped := db.stagedTyped - {page[i]});
      }
      assert left == {};
    }

    /** stageSubscriber, its middle: the devices just read, grouped and written type by type. */
    method StageTypes(x: Sub, names: set<Name>, staged0: Keys, ghost owed: set<Sub>, ghost t0: Trail)
      returns (staged: Keys, ghost t: Trail)
      requires At(t0, Walking(owed, {}, Some(Visit(x, names, TypesOf(names))), staged0))
      modifies this
      ensures t.db == t0.db && At(t, Walking(owed, {}, Some(Visit(x, names, {})), staged))
      ensures db == old(db).(stagedTyped := db.stagedTyped)
    {
      staged, t := staged0, t0;
      var left := TypesOf(names);
      while left != {}
        invariant t.db == t0.db && At(t, Walking(owed, {}, Some(Visit(x, names, left)), staged))
        invariant db == old(db).(stagedTyped := db.stagedTyped)
      {
        var pushType :| pushType in left;
        var key := TypeKey(x.service, pushType);
        t := t.Stage(pushType);
        db := db.(stagedTyped := SAdd(db.stagedTyped, key, OfType(names, pushType)));
        staged := Plus(staged, {}, {key});
        left := left - {pushType};
      }
    }

    /** stageSubscriber: read the devices, write each type's, then the subscriber. */
    method StageOne(x: Sub, staged0: Keys, ghost owed: set<Sub>, ghost t0: Trail) returns (staged: Keys, ghost t: Trail)
      requires At(t0, Walking(owed, {}, None, staged0))
      modifies this
      ensures t.db == t0.db && At(t, Walking(owed - {x}, {}, None, staged))
      ensures Rest() == old(Rest()) && db.subscribers == old(db).subscribers && db.typed == old(db).typed
    {
      staged := staged0;
      var names := Members(db.devices, x);
      t := t0.Visit(owed, staged0, x);
      if names == {} {
        return;
      }
      staged, t := StageTypes(x, names, staged, owed - {x}, t);
      t := t.StageLast();
      db := db.(stagedSubscribers := SAdd(db.stagedSubscribers, x.service, {x.name}));
      staged := Plus(staged, {x.service}, {});
    }

    method Walk(page: seq<Sub>, ghost t0: Trail) returns (staged: Keys, ghost t: Trail)
      requires At(t0, Walking(db.devices.Keys, {}, None, NO_KEYS)) && db.devices.Keys <= ToSet(page)
      modifies this
      ensures t.db == t0.db && At(t, Walking({}, {}, None, staged))
      ensures Rest() == old(Rest()) && db.subscribers == old(db).subscribers && db.typed == old(db).typed
    {
      staged, t := NO_KEYS, t0;
      ghost var left := db.devices.Keys;
      for i := 0 to |page|
        invariant t.db == t0.db && At(t, Walking(left, {}, None, staged)) && left <= ToSet(page[i..])
        invariant Rest() == old(Rest()) && db.subscribers == old(db).subscribers && db.typed == old(db).typed
      {
        staged, t := StageOne(page[i], staged, left, t);
        left := left - {page[i]};
      }
      assert left == {};
    }

    /** publishSubscriberIndexStaging, first half: live subscriber indexes with no staged counterpart go. */
    method DropServices(page: seq<string>, staged: Keys, ghost t0: Trail) returns (ghost t: Trail)
      requires At(t0, DroppingServices(Keys(db.subscribers.Keys, {}), NO_KEYS, staged))
      requires db.subscribers.Keys <= ToSet(page)
      modifies this
      ensures t.db == t0.db && At(t, DroppingServices(NO_KEYS, NO_KEYS, staged))
      ensures db == old(db).(subscribers := db.subscribers)
    {
      t := t0;
      ghost var left := db.subscribers.Keys;
      for i := 0 to |page|
        invariant t.db == t0.db && At(t, DroppingServices(Keys(left, {}), NO_KEYS, staged)) && left <= ToSet(page[i..])
        invariant db == old(db).(subscribers := db.subscribers)
      {
        t := t.DropService(left, staged, page[i]);
        left := left - {page[i]};
        var live := db.subscribers;
        if page[i] !in staged.services {
          live := live - {page[i]};
        }
        db := db.(subscribers := live);
      }
      assert left == {};
    }

    /** The same for live type sets. */
    method DropTypes(page: seq<TypeKey>, staged: Keys, ghost t0: Trail) returns (ghost t: Trail)
      requires At(t0, DroppingTypes(Keys({}, db.typed.Keys), NO_KEYS, staged))
      requires db.typed.Keys <= ToSet(page)
      modifies this
      ensures t.db == t0.db && At(t, DroppingTypes(NO_KEYS, NO_KEYS, staged))
      ensures db == old(db).(typed := db.typed)
    {
      t := t0;
      ghost var left := db.typed.Keys;
      for i := 0 to |page|
        invariant t.db == t0.db && At(t, DroppingTypes(Keys({}, left), NO_KEYS, staged)) && left <= ToSet(page[i..])
        invariant db == old(db).(typed := db.typed)
      {
        t := t.DropType(left, staged, page[i]);
        left := left - {page[i]};
        var live := db.typed;
        if page[i] !in staged.types {
          live := live - {page[i]};
        }
        db := db.(typed := live);
      }
      assert left == {};
    }

    /** publishSubscriberIndexStaging, second half: every staged key is renamed over its live one. */
    method PublishServices(services: set<string>, ghost types: set<TypeKey>, ghost t0: Trail) returns (ghost t: Trail)
      requires At(t0, Publishing(Keys(services, types))) && services == db.stagedSubscribers.Keys
      modifies this
      ensures t.db == t0.db && At(t, Publishing(Keys({}, types)))
      ensures db == old(db).(subscribers := db.subscribers, stagedSubscribers := map[])
    {
      t := t0;
      var left := services;
      while left != {}
        invariant t.db == t0.db && At(t, Publishing(Keys(left, types))) && left == db.stagedSubscribers.Keys
        invariant db == old(db).(subscribers := db.subscribers, stagedSubscribers := db.stagedSubscribers)
      {
        var s :| s in left;
        t := t.RenameService(s);
        db := db.(subscribers := db.subscribers[s := db.stagedSubscribers[s]],
                  stagedSubscribers := db.stagedSubscribers - {s});
        left := left - {s};
      }
    }

    method PublishTypes(types: set<TypeKey>, ghost t0: Trail) returns (ghost t: Trail)
      requires At(t0, Publishing(Keys({}, types))) && types == db.stagedTyped.Keys
      modifies this
      ensures t.db == t0.db && At(t, Publishing(NO_KEYS))
      ensures db == old(db).(typed := db.typed, stagedTyped := map[])
    {
      t := t0;
      var left := types;
      while left != {}
        invariant t.db == t0.db && At(t, Publishing(Keys({}, left))) && left == db.stagedTyped.Keys
        invariant db == old(db).(typed := db.typed, stagedTyped := db.stagedTyped)
      {
        var k :| k in left;
        t := t.RenameType(k);
        db := db.(typed := db.typed[k := db.stagedTyped[k]], stagedTyped := db.stagedTyped - {k});
        left := left - {k};
      }
    }

    /** clearSubscriberIndexStaging: what an interrupted rebuild left behind goes. */
    method ClearStaging(staleServices: seq<string>, staleTypes: seq<TypeKey>) returns (ghost t: Trail)
      requires db.stagedSubscribers.Keys <= ToSet(staleServices) && db.stagedTyped.Keys <= ToSet(staleTypes)
      modifies this
      ensures t.db == old(db) && At(t, Walking(db.devices.Keys, {}, None, NO_KEYS))
      ensures db == old(db).(stagedSubscribers := db.stagedSubscribers, stagedTyped := db.stagedTyped)
    {
      t := Trail(db, [], World(db, Idle, {}, {}, false, db.built));
      t := t.ToClearing();
      t := ClearStagedServices(staleServices, Keys(db.stagedSubscribers.Keys, db.stagedTyped.Keys), t);
      t := ClearStagedTypes(staleTypes, db.stagedTyped.Keys, t);
      t := t.ToWalking();
    }

    /** publishSubscriberIndexStaging, as far as the live keys with nothing staged. */
    method DropUnstaged(services: seq<string>, types: seq<TypeKey>, staged: Keys, ghost t0: Trail) returns (ghost t: Trail)
      requires At(t0, DroppingServices(Keys(db.subscribers.Keys, {}), NO_KEYS, staged))
      requires db.subscribers.Keys <= ToSet(services) && db.typed.Keys <= ToSet(types)
      modifies this
      ensures t.db == t0.db && At(t, Publishing(staged))
      ensures db == old(db).(subscribers := db.subscribers, typed := db.typed)
    {
      t := DropServices(services, staged, t0);
      t := t.ToTypes(staged);
      t := DropTypes(types, staged, t);
      t := t.ToPublishing(staged);
    }

    /** The rest of it: every staged key takes its live name. */
    method PublishStaged(staged: Keys, ghost t0: Trail) returns (ghost t: Trail)
      requires WellFormed(t0.db) && At(t0, Publishing(staged))
      modifies this
      ensures t.db == t0.db && At(t, Publishing(NO_KEYS))
      ensures Rest() == old(Rest()) && db.stagedSubscribers == map[] && db.stagedTyped == map[]
    {
      t0.StagedIsWhatIsThere(staged);
      t := PublishServices(staged.services, staged.types, t0);
      t := PublishTypes(staged.types, t);
    }

    /**
      RebuildSubscriberIndex with nobody else writing: from any index and staging contents it
      leaves exactly the index the subscriber sets say, marked as built, and nothing else changed.
     */
    method RebuildSubscriberIndex(staleServices: seq<string>, staleTypes: seq<TypeKey>, walk: seq<Sub>,
                                  services: seq<string>, types: seq<TypeKey>)
      requires WellFormed(db)
      requires db.stagedSubscribers.Keys <= ToSet(staleServices) && db.stagedTyped.Keys <= ToSet(staleTypes)
      requires db.devices.Keys <= ToSet(walk)
      requires db.subscribers.Keys <= ToSet(services) && db.typed.Keys <= ToSet(types)
      modifies this
      ensures WellFormed(db) && Agrees(db) && db.built
      ensures Rest() == old(Rest()) && db.stagedSubscribers == map[] && db.stagedTyped == map[]
    {
      ghost var t := ClearStaging(staleServices, staleTypes);
      var staged: Keys;
      staged, t := Walk(walk, t);
      t := t.ToDropping(staged);
      t := DropUnstaged(services, types, staged, t);
      t := PublishStaged(staged, t);
      db := db.(built := true);
      t.PublishedAgrees(db);
    }
  }

  /** A run that IndexRuns knows: where it started, the steps taken and where they lead. */
  datatype Trail = Trail(db: Db, steps: seq<Step>, end: World) {
    ghost predicate Valid() {
      end == Reached(db, steps)
    }

    lemma Take(step: Step) returns (t: Trail)
      requires Valid()
      ensures t.Valid() && t.db == db && t.end == Apply(end, step)
    {
      t := Trail(db, steps + [step], Apply(end, step));
      assert t.steps[..|steps|] == steps;
    }

    lemma ToClearing() returns (t: Trail)
      requires Valid() && end.phase == Idle
      ensures t.Valid() && t.db == db
      ensures t.end == end.(phase := Clearing(Keys(end.db.stagedSubscribers.Keys, end.db.stagedTyped.Keys), NO_KEYS))
    {
      t := Take(Begin);
    }

    lemma ToWalking() returns (t: Trail)
      requires Valid() && end.phase == Clearing(NO_KEYS, NO_KEYS)
      ensures t.Valid() && t.db == db && t.end == end.(phase := Walking(end.db.devices.Keys, {}, None, NO_KEYS))
    {
      t := Take(Proceed);
    }

    lemma ToDropping(staged: Keys) returns (t: Trail)
      requires Valid() && end.phase == Walking({}, {}, None, staged)
      ensures t.Valid() && t.db == db
      ensures t.end == end.(phase := DroppingServices(Keys(end.db.subscribers.Keys, {}), NO_KEYS, staged))
    {
      t := Take(Proceed);
    }

    lemma ToTypes(staged: Keys) returns (t: Trail)
      requires Valid() && end.phase == DroppingServices(NO_KEYS, NO_KEYS, staged)
      ensures t.Valid() && t.db == db && t.end == end.(phase := DroppingTypes(Keys({}, end.db.typed.Keys), NO_KEYS, staged))
    {
      t := Take(Proceed);
    }

    lemma ToPublishing(staged: Keys) returns (t: Trail)
      requires Valid() && end.phase == DroppingTypes(NO_KEYS, NO_KEYS, staged)
      ensures t.Valid() && t.db == db && t.end == end.(phase := Publishing(staged))
    {
      t := Take(Proceed);
    }

    lemma ClearService(owed: Keys, s: string) returns (t: Trail)
      requires Valid() && end.phase == Clearing(owed, NO_KEYS)
      ensures t.Valid() && t.db == db
      ensures t.end == end.(db := end.db.(stagedSubscribers := end.db.stagedSubscribers - {s}),
                                phase := Clearing(Keys(owed.services - {s}, owed.types), NO_KEYS))
    {
      ClearServiceNow(end, owed, s);
      t := TakeTwo(Page({s}, {}, {}), HandleService(s));
    }

    lemma ClearType(owed: Keys, k: TypeKey) returns (t: Trail)
      requires Valid() && end.phase == Clearing(owed, NO_KEYS)
      ensures t.Valid() && t.db == db
      ensures t.end == end.(db := end.db.(stagedTyped := end.db.stagedTyped - {k}),
                                phase := Clearing(Keys(owed.services, owed.types - {k}), NO_KEYS))
    {
      ClearTypeNow(end, owed, k);
      t := TakeTwo(Page({}, {k}, {}), HandleType(k));
    }

    lemma Visit(owed: set<Sub>, staged: Keys, x: Sub) returns (t: Trail)
      requires Valid() && end.phase == Walking(owed, {}, None, staged)
      ensures t.Valid() && t.db == db
      ensures var names := Members(end.db.devices, x);
              t.end == end.(phase := Walking(owed - {x}, {},
                if names == {} then None else Some(IndexRuns.Visit(x, names, TypesOf(names))), staged))
    {
      VisitNow(end, owed, staged, x);
      t := TakeTwo(Page({}, {}, {x}), ReadSubscriber(x));
    }

    lemma DropService(owed: set<string>, staged: Keys, s: string) returns (t: Trail)
      requires Valid() && end.phase == DroppingServices(Keys(owed, {}), NO_KEYS, staged)
      ensures t.Valid() && t.db == db
      ensures t.end == end.(
                db := end.db.(subscribers := if s in staged.services then end.db.subscribers else end.db.subscribers - {s}),
                phase := DroppingServices(Keys(owed - {s}, {}), NO_KEYS, staged))
    {
      DropServiceNow(end, owed, staged, s);
      t := TakeTwo(Page({s}, {}, {}), HandleService(s));
    }

    lemma DropType(owed: set<TypeKey>, staged: Keys, k: TypeKey) returns (t: Trail)
      requires Valid() && end.phase == DroppingTypes(Keys({}, owed), NO_KEYS, staged)
      ensures t.Valid() && t.db == db
      ensures t.end == end.(
                db := end.db.(typed := if k in staged.types then end.db.typed else end.db.typed - {k}),
                phase := DroppingTypes(Keys({}, owed - {k}), NO_KEYS, staged))
    {
      DropTypeNow(end, owed, staged, k);
      t := TakeTwo(Page({}, {k}, {}), HandleType(k));
    }

    lemma TakeTwo(a: Step, b: Step) returns (t: Trail)
      requires Valid()
      ensures t.Valid() && t.db == db && t.end == Apply(Apply(end, a), b)
    {
      t := Take(a);
      t := t.Take(b);
    }

    lemma Stage(pushType: string) returns (t: Trail)
      requires Valid() && end.phase.Walking? && end.phase.visit.Some? && pushType in end.phase.visit.value.left
      ensures t.Valid() && t.db == db
      ensures var v, p := end.phase.visit.value, end.phase;
              var k := TypeKey(v.x.service, pushType);
              t.end == end.(
                db := end.db.(stagedTyped := SAdd(end.db.stagedTyped, k, OfType(v.names, pushType))),
                phase := Walking(p.owedSubs, p.todoSubs, Some(v.(left := v.left - {pushType})), Plus(p.staged, {}, {k})))
    {
      t := Take(StageType(pushType));
    }

    lemma StageLast() returns (t: Trail)
      requires Valid() && end.phase.Walking? && end.phase.visit.Some? && end.phase.visit.value.left == {}
      ensures t.Valid() && t.db == db
      ensures var x, p := end.phase.visit.value.x, end.phase;
              t.end == end.(
                db := end.db.(stagedSubscribers := SAdd(end.db.stagedSubscribers, x.service, {x.name})),
                phase := Walking(p.owedSubs, p.todoSubs, None, Plus(p.staged, {x.service}, {})))
    {
      t := Take(StageSubscriber);
    }

    lemma RenameService(s: string) returns (t: Trail)
      requires Valid() && end.phase.Publishing? && s in end.phase.left.services && s in end.db.stagedSubscribers
      ensures t.Valid() && t.db == db
      ensures var d := end.db;
              t.end == end.(
                db := d.(subscribers := d.subscribers[s := d.stagedSubscribers[s]],
                         stagedSubscribers := d.stagedSubscribers - {s}),
                phase := Publishing(Keys(end.phase.left.services - {s}, end.phase.left.types)))
    {
      t := Take(HandleService(s));
      assert end.phase.left.types - {} == end.phase.left.types;
    }

    lemma RenameType(k: TypeKey) returns (t: Trail)
      requires Valid() && end.phase.Publishing? && k in end.phase.left.types && k in end.db.stagedTyped
      ensures t.Valid() && t.db == db
      ensures var d := end.db;
              t.end == end.(
                db := d.(typed := d.typed[k := d.stagedTyped[k]], stagedTyped := d.stagedTyped - {k}),
                phase := Publishing(Keys(end.phase.left.services, end.phase.left.types - {k})))
    {
      t := Take(HandleType(k));
      assert end.phase.left.services - {} == end.phase.left.services;
    }

    lemma StagedIsWhatIsThere(staged: Keys)
      requires Valid() && WellFormed(db) && end.phase == Publishing(staged)
      ensures staged == Keys(end.db.stagedSubscribers.Keys, end.db.stagedTyped.Keys)
    {
      RunKeepsInv(db, steps);
    }

    lemma PublishedAgrees(now: Db)
      requires Valid() && WellFormed(db) && end.phase == Publishing(NO_KEYS) && end.touched == {}
      requires now == end.db.(built := true)
      ensures WellFormed(now) && Agrees(now)
    {
      RunKeepsInv(db, steps);
      forall y ensures IndexedRight(now, y) {
        RebuildSettlesUntouched(db, steps, y);
        LiveIndexOnly(end.db, now, y);
      }
    }
  }
}
