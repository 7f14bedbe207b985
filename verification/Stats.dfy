/** What /stats counts, and what a removal asked for by a push service does: readers of the subscriber index. */
module Stats {
  import opened Basics
  import opened Store
  import opened IndexRuns
  import Providers

  // ---------- Counting ----------

  /** The subscribers of a service who have at least one device. */
  function SubscribersOf(db: Db, service: string): set<Sub> {
    set x | x in db.devices && x.service == service && db.devices[x] != {}
  }

  /** The devices of one type that the service's subscribers have. */
  function DevicesOf(db: Db, service: string, pushType: string): set<Name> {
    set x, dp | x in db.devices && x.service == service && dp in db.devices[x] && dp.pushType == pushType :: dp
  }

  /** Those of them who last subscribed at or after a time; a subscriber's score in the index is that time. */
  function SubscribersSince(db: Db, service: string, scores: Sub -> int, since: int): set<Sub> {
    set x | x in SubscribersOf(db, service) && scores(x) >= since
  }

  datatype ServiceStats = ServiceStats(subscribers: nat, subscribersSince: Option<nat>, deliveryPoints: map<string, nat>)

  /** The counts a service is due. */
  ghost predicate Exact(stats: ServiceStats, db: Db, service: string, scores: Sub -> int, since: Option<int>) {
    && stats.subscribers == |SubscribersOf(db, service)|
    && (stats.subscribersSince.Some? <==> since.Some?)
    && (since.Some? ==> stats.subscribersSince.value == |SubscribersSince(db, service, scores, since.value)|)
    && (forall t :: t in stats.deliveryPoints ==> stats.deliveryPoints[t] == |DevicesOf(db, service, t)|)
  }

  /** pushServiceTypesOfService: the types of the providers a service lists, names with no record skipped. */
  method PushServiceTypes(names: seq<Providers.ProviderName>, records: map<Providers.ProviderName, Providers.Provider>) returns (types: seq<string>)
    ensures Distinct(types)
    ensures forall t :: t in types <==> exists n :: n in names && n in records && records[n].name.pushType == t
  {
    types := [];
    for i := 0 to |names|
      invariant Distinct(types)
      invariant forall t :: t in types <==> exists n :: n in names[..i] && n in records && records[n].name.pushType == t
    {
      assert names[..i + 1] == names[..i] + [names[i]];
      if names[i] in records && records[names[i]].name.pushType !in types {
        types := types + [records[names[i]].name.pushType];
      }
    }
    assert names[..|names|] == names;
  }

  /** statsOfService: ZCARD, ZCOUNT if a time is asked for, then SCARD for each type. */
  method StatsOfService(db: Db, service: string, scores: Sub -> int, since: Option<int>, types: seq<string>) returns (stats: ServiceStats)
    ensures stats.deliveryPoints.Keys == ToSet(types)
    ensures WellFormed(db) && Agrees(db) ==> Exact(stats, db, service, scores, since)
  {
    var members := Members(db.subscribers, service);
    var recent := if since.None? then None else Some(|set n | n in members && scores(Sub(service, n)) >= since.value|);
    var counts: map<string, nat> := map[];
    for i := 0 to |types|
      invariant counts.Keys == ToSet(types[..i])
      invariant forall t :: t in counts ==> counts[t] == |Members(db.typed, TypeKey(service, t))|
    {
      counts := counts[types[i] := |Members(db.typed, TypeKey(service, types[i]))|];
      assert types[..i + 1] == types[..i] + [types[i]];
    }
    assert types[..|types|] == types;
    stats := ServiceStats(|members|, recent, counts);
    if WellFormed(db) && Agrees(db) {
      SubscriberCountExact(db, service);
      if since.Some? {
        SinceCountExact(db, service, scores, since.value);
      }
      forall t | t in counts ensures counts[t] == |DevicesOf(db, service, t)| {
        TypeSetExact(db, service, t);
      }
    }
  }

  /** SubscriberStats: refused until the index is built; every service asked for, or every known one if none is. */
  method SubscriberStats(db: Db, asked: seq<string>, known: seq<string>, scores: Sub -> int, since: Option<int>,
                         providers: string -> seq<Providers.ProviderName>, records: map<Providers.ProviderName, Providers.Provider>)
    returns (stats: Result<map<string, ServiceStats>>)
    ensures stats.Ok? <==> db.built
    ensures stats.Ok? ==> stats.value.Keys == ToSet(if asked == [] then known else asked) - {""}
    ensures stats.Ok? ==> forall srv :: srv in stats.value ==>
              forall t :: t in stats.value[srv].deliveryPoints <==>
                exists n :: n in providers(srv) && n in records && records[n].name.pushType == t
    ensures stats.Ok? && WellFormed(db) && Agrees(db) ==>
              forall srv :: srv in stats.value ==> Exact(stats.value[srv], db, srv, scores, since)
  {
    if !db.built {
      return Err;
    }
    var services := if asked == [] then known else asked;
    var all: map<string, ServiceStats> := map[];
    for i := 0 to |services|
      invariant all.Keys == ToSet(services[..i]) - {""}
      invariant forall srv :: srv in all ==>
        forall t :: t in all[srv].deliveryPoints <==> exists n :: n in providers(srv) && n in records && records[n].name.pushType == t
      invariant WellFormed(db) && Agrees(db) ==> forall srv :: srv in all ==> Exact(all[srv], db, srv, scores, since)
    {
      assert services[..i + 1] == services[..i] + [services[i]];
      if services[i] != "" {
        var types := PushServiceTypes(providers(services[i]), records);
        var entry := StatsOfService(db, services[i], scores, since, types);
        assert forall t :: t in entry.deliveryPoints <==> t in types;
        all := all[services[i] := entry];
      }
    }
    assert services[..|services|] == services;
    return Ok(all);
  }

  lemma TypeSetExact(db: Db, service: string, pushType: string)
    requires WellFormed(db) && Agrees(db)
    ensures Members(db.typed, TypeKey(service, pushType)) == DevicesOf(db, service, pushType)
  {
    var k := TypeKey(service, pushType);
    forall dp ensures dp in Members(db.typed, k) <==> dp in DevicesOf(db, service, pushType) {
      assert IndexedRight(db, Owner(dp));
      assert DeviceRight(db, dp, k);
      if dp in DevicesOf(db, service, pushType) {
        var x :| x in db.devices && x.service == service && dp in db.devices[x] && dp.pushType == pushType;
        assert dp in Members(db.devices, x);
      }
    }
  }

  lemma SubscriberCountExact(db: Db, service: string)
    requires WellFormed(db) && Agrees(db)
    ensures |Members(db.subscribers, service)| == |SubscribersOf(db, service)|
  {
    var names := Members(db.subscribers, service);
    forall n ensures n in names <==> Sub(service, n) in SubscribersOf(db, service) {
      assert IndexedRight(db, Sub(service, n));
    }
    SameSize(names, SubscribersOf(db, service), service);
  }

  lemma SinceCountExact(db: Db, service: string, scores: Sub -> int, since: int)
    requires WellFormed(db) && Agrees(db)
    ensures |set n | n in Members(db.subscribers, service) && scores(Sub(service, n)) >= since| ==
            |SubscribersSince(db, service, scores, since)|
  {
    var names := set n | n in Members(db.subscribers, service) && scores(Sub(service, n)) >= since;
    forall n ensures n in names <==> Sub(service, n) in SubscribersSince(db, service, scores, since) {
      assert IndexedRight(db, Sub(service, n));
    }
    SameSize(names, SubscribersSince(db, service, scores, since), service);
  }

  lemma {:induction false} SameSize(names: set<string>, subs: set<Sub>, service: string)
    requires forall n :: n in names <==> Sub(service, n) in subs
    requires forall x :: x in subs ==> x.service == service
    ensures |names| == |subs|
    decreases |names|
  {
    if names == {} {
      assert forall x :: x in subs ==> x == Sub(service, x.name);
      assert subs == {};
    } else {
      var n :| n in names;
      SameSize(names - {n}, subs - {Sub(service, n)}, service);
    }
  }

  /** Whenever a run has marked the index, /stats answers, and with rebuilds overlapping no script its counts are exact. */
  lemma {:induction false} StatsAreExact(db: Db, steps: seq<Step>, service: string, pushType: string)
    requires WellFormed(db)
    requires NoOverlap(db, steps) && Reached(db, steps).db.built && !Reached(db, steps).suspect
    ensures var now := Reached(db, steps).db;
            && |Members(now.subscribers, service)| == |SubscribersOf(now, service)|
            && |Members(now.typed, TypeKey(service, pushType))| == |DevicesOf(now, service, pushType)|
  {
    RunKeepsInv(db, steps);
    MarkedMeansExact(db, steps);
    SubscriberCountExact(Reached(db, steps).db, service);
    TypeSetExact(Reached(db, steps).db, service, pushType);
  }

  /** An index that agrees with the subscriber sets is determined by them, so rebuilding it again changes no member. */
  lemma AgreementDeterminesIndex(a: Db, b: Db)
    requires WellFormed(a) && WellFormed(b) && Agrees(a) && Agrees(b)
    requires a.devices == b.devices
    ensures a.subscribers == b.subscribers && a.typed == b.typed
  {
    forall s ensures Members(a.subscribers, s) == Members(b.subscribers, s) {
      forall n ensures n in Members(a.subscribers, s) <==> n in Members(b.subscribers, s) {
        assert IndexedRight(a, Sub(s, n)) && IndexedRight(b, Sub(s, n));
      }
    }
    forall k: TypeKey ensures Members(a.typed, k) == Members(b.typed, k) {
      TypeSetExact(a, k.service, k.pushType);
      TypeSetExact(b, k.service, k.pushType);
    }
    SameMembersSameMap(a.subscribers, b.subscribers);
    SameMembersSameMap(a.typed, b.typed);
  }

  lemma SameMembersSameMap<K, V>(a: map<K, set<V>>, b: map<K, set<V>>)
    requires NoEmptySet(a) && NoEmptySet(b)
    requires forall k :: Members(a, k) == Members(b, k)
    ensures a == b
  {
    forall k ensures k in a <==> k in b {
      assert Members(a, k) == Members(b, k);
    }
    forall k | k in a ensures a[k] == b[k] {
      assert Members(a, k) == Members(b, k);
    }
  }

  // ---------- Removing a device its push service said is gone ----------

  /** The read half of RemoveDeliveryPointIfUnchanged: Some(raw) when the script is to be run with raw. */
  function ReadUnchanged(db: Db, dp: Name, fixedData: map<string, string>, volatileData: map<string, string>): Option<Raw> {
    if dp in db.records && db.records[dp].Readable?
       && db.records[dp].fixedData == fixedData && db.records[dp].volatileData == volatileData
    then Some(db.records[dp]) else None
  }

  /** The record is there and decodes to what the push read, however it is spelled. */
  ghost predicate SaysWhatPushRead(db: Db, dp: Name, fixedData: map<string, string>, volatileData: map<string, string>) {
    dp in db.records && exists spelling :: db.records[dp] == Readable(fixedData, volatileData, spelling)
  }

  /** The script is run exactly where the record says what the push read. */
  lemma ReadIsExact(db: Db, dp: Name, fixedData: map<string, string>, volatileData: map<string, string>)
    ensures ReadUnchanged(db, dp, fixedData, volatileData).Some? <==> SaysWhatPushRead(db, dp, fixedData, volatileData)
    ensures SaysWhatPushRead(db, dp, fixedData, volatileData) ==> ReadUnchanged(db, dp, fixedData, volatileData) == Some(db.records[dp])
  {
    if dp in db.records && db.records[dp].Readable? {
      var raw := db.records[dp];
      assert raw == Readable(raw.fixedData, raw.volatileData, raw.spelling);
    }
  }

  /**
    Whatever is written between the read and the script: a record that then says something else
    is not removed and nothing about its device changes; a removal removes the record, the
    binding and the set entry; and either way every subscriber indexed right stays indexed right.
   */
  lemma {:induction false} OnlyWhatWasReadIsRemoved(db: Db, before: seq<Step>, between: seq<Step>, x: Sub, dp: Name,
                                 fixedData: map<string, string>, volatileData: map<string, string>)
    requires WellFormed(db)
    requires SaysWhatPushRead(Reached(db, before).db, dp, fixedData, volatileData)
    ensures ReadUnchanged(Reached(db, before).db, dp, fixedData, volatileData) == Some(Reached(db, before).db.records[dp])
    ensures var raw := ReadUnchanged(Reached(db, before).db, dp, fixedData, volatileData).value;
            var current := Reached(db, before + between).db;
            var after := RemoveUnchanged(current, x, dp, raw);
            && (!SaysWhatPushRead(current, dp, fixedData, volatileData) ==> after == current)
            && (Unchanged(current, dp, raw) ==>
                  && dp !in after.records
                  && Binding(x.service, dp) !in after.bindings
                  && dp !in Members(after.devices, x)
                  && (forall y, e :: e in Members(after.devices, y) <==>
                        e in Members(current.devices, y) && !(y == x && e == dp)))
            && (!Unchanged(current, dp, raw) ==> after == current)
            && (forall y :: IndexedRight(current, y) ==> IndexedRight(after, y))
  {
    ReadIsExact(Reached(db, before).db, dp, fixedData, volatileData);
    ReadIsExact(Reached(db, before + between).db, dp, fixedData, volatileData);
    var raw := ReadUnchanged(Reached(db, before).db, dp, fixedData, volatileData).value;
    RunKeepsInv(db, before + between);
    var current := Reached(db, before + between).db;
    RemoveUnchangedIsUnsubscribe(current, x, dp, raw);
    forall y | IndexedRight(current, y) ensures IndexedRight(RemoveUnchanged(current, x, dp, raw), y) {
      if y != x { SameForKeepsRight(current, RemoveUnchanged(current, x, dp, raw), y); }
    }
  }
}
