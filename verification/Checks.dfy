/**
  The walks of the consistency check (db/consistency_redis.go) over subscriptions and their index:
  what they find, in what order and how often. A walk may return a member more than once.
 */
module Checks {
  import opened Basics
  import opened Store
  import opened Consistency

  // ---------- What each visit finds ----------

  function DeviceFindings(db: Db, x: Sub, dp: Name): seq<Problem> {
    (if dp in db.records then [] else [Problem(OrphanedDeliveryPoint, x.service, Device(dp), x.name)]) +
    (if dp in Members(db.typed, TypeKey(x.service, dp.pushType)) then [] else [Problem(MissingIndexEntry, x.service, Device(dp), x.name)])
  }

  function ListingFindings(db: Db, x: Sub, names: seq<Name>): seq<Problem> {
    if names == [] || x.name in Members(db.subscribers, x.service) then []
    else [Problem(MissingIndexEntry, x.service, Subscriber(x.name), "")]
  }

  function RecordFindings(db: Db, dp: Name): seq<Problem> {
    if dp !in db.records then [] else
    match db.records[dp]
    case Blank => []
    case Unreadable(_) => [Problem(UnreferencedDeliveryPoint, "", Device(dp), "")]
    case Readable(fixedData, _, _) =>
      var service, subscriber := Field(fixedData, "service"), Field(fixedData, "subscriber");
      if service == "" || subscriber == "" || dp !in Members(db.devices, Sub(service, subscriber))
      then [Problem(UnreferencedDeliveryPoint, service, Device(dp), subscriber)] else []
  }

  function EntryFindings(db: Db, srv: string, sub: string): seq<Problem> {
    if Members(db.devices, Sub(srv, sub)) == {} then [Problem(StaleIndexEntry, srv, Subscriber(sub), "")] else []
  }

  function TypeEntryFindings(db: Db, k: TypeKey, dp: Name): seq<Problem> {
    if dp in db.records then [] else [Problem(StaleIndexEntry, k.service, Device(dp), k.pushType)]
  }

  // ---------- Walks ----------

  /** What the visits of a walk find, one after the other. */
  function Flat<T>(walk: seq<T>, finds: T -> seq<Problem>): seq<Problem> {
    if walk == [] then [] else Flat(walk[..|walk| - 1], finds) + finds(walk[|walk| - 1])
  }

  lemma FlatAppend<T>(walk: seq<T>, finds: T -> seq<Problem>, i: nat)
    requires i < |walk|
    ensures Flat(walk[..i + 1], finds) == Flat(walk[..i], finds) + finds(walk[i])
  {
    assert walk[..i + 1][..i] == walk[..i];
  }

  lemma {:induction false} FlatMembers<T>(walk: seq<T>, finds: T -> seq<Problem>, p: Problem)
    ensures p in Flat(walk, finds) <==> exists x :: x in walk && p in finds(x)
  {
    if walk != [] {
      FlatMembers(walk[..|walk| - 1], finds, p);
      assert walk == walk[..|walk| - 1] + [walk[|walk| - 1]];
    }
  }

  /** No member that finds something is returned twice. */
  ghost predicate OnceEach<T(!new)>(walk: seq<T>, finds: T -> seq<Problem>) {
    forall i, j :: 0 <= i < j < |walk| && walk[i] == walk[j] ==> finds(walk[i]) == []
  }

  /** Different members find different problems. */
  ghost predicate Apart<T(!new)>(finds: T -> seq<Problem>) {
    forall x, y, p :: p in finds(x) && p in finds(y) ==> x == y
  }

  lemma DistinctSum<T>(a: seq<T>, b: seq<T>)
    requires forall x :: x in a ==> x !in b
    ensures Distinct(a + b) <==> Distinct(a) && Distinct(b)
  {
    var s := a + b;
    if Distinct(s) {
      forall i, j | 0 <= i < j < |a| ensures a[i] != a[j] { assert s[i] == a[i] && s[j] == a[j]; }
      forall i, j | 0 <= i < j < |b| ensures b[i] != b[j] { assert s[|a| + i] == b[i] && s[|a| + j] == b[j]; }
    }
    if Distinct(a) && Distinct(b) {
      forall i, j | 0 <= i < j < |s| ensures s[i] != s[j] {
        assert i < |a| <= j ==> s[i] in a && s[j] in b;
      }
    }
  }

  lemma CommonMeansRepeated<T>(a: seq<T>, b: seq<T>, x: T)
    requires x in a && x in b
    ensures !Distinct(a + b)
  {
    var i :| 0 <= i < |a| && a[i] == x;
    var j :| 0 <= j < |b| && b[j] == x;
    assert (a + b)[i] == (a + b)[|a| + j];
  }

  lemma RepeatFindsAgain<T(!new)>(init: seq<T>, last: T, finds: T -> seq<Problem>)
    requires last in init && finds(last) != []
    ensures !Distinct(Flat(init, finds) + finds(last)) && !OnceEach(init + [last], finds)
  {
    var p := finds(last)[0];
    FlatMembers(init, finds, p);
    CommonMeansRepeated(Flat(init, finds), finds(last), p);
    var i :| 0 <= i < |init| && init[i] == last;
    assert (init + [last])[i] == (init + [last])[|init|];
  }

  lemma FreshFindsMore<T(!new)>(init: seq<T>, last: T, finds: T -> seq<Problem>)
    requires Apart(finds) && (last !in init || finds(last) == [])
    ensures Distinct(Flat(init, finds) + finds(last)) <==> Distinct(Flat(init, finds)) && Distinct(finds(last))
    ensures OnceEach(init + [last], finds) <==> OnceEach(init, finds)
  {
    forall p | p in Flat(init, finds) ensures p !in finds(last) {
      FlatMembers(init, finds, p);
    }
    DistinctSum(Flat(init, finds), finds(last));
    OnceEachGrows(init, last, finds);
  }

  lemma OnceEachGrows<T(!new)>(init: seq<T>, last: T, finds: T -> seq<Problem>)
    requires last !in init || finds(last) == []
    ensures OnceEach(init + [last], finds) <==> OnceEach(init, finds)
  {
    var walk := init + [last];
    if OnceEach(walk, finds) {
      forall i, j | 0 <= i < j < |init| && init[i] == init[j] ensures finds(init[i]) == [] {
        assert walk[i] == walk[j];
      }
    }
  }

  /** A walk finds each problem once exactly when no member that finds something is repeated and no member finds a problem twice. */
  lemma {:induction false} FlatDistinct<T(!new)>(walk: seq<T>, finds: T -> seq<Problem>)
    requires Apart(finds)
    ensures Distinct(Flat(walk, finds)) <==> OnceEach(walk, finds) && forall x :: x in walk ==> Distinct(finds(x))
  {
    if walk != [] {
      var init, last := walk[..|walk| - 1], walk[|walk| - 1];
      FlatDistinct(init, finds);
      assert walk == init + [last];
      if last in init && finds(last) != [] {
        RepeatFindsAgain(init, last, finds);
      } else {
        FreshFindsMore(init, last, finds);
      }
    }
  }

  // ---------- The checks ----------

  function PerDevice(db: Db, x: Sub): Name -> seq<Problem> {
    dp => DeviceFindings(db, x, dp)
  }

  function SetFindings(db: Db, x: Sub, names: seq<Name>): seq<Problem> {
    ListingFindings(db, x, names) + Flat(names, PerDevice(db, x))
  }

  function PerSet(db: Db, smembers: Sub -> seq<Name>): Sub -> seq<Problem> {
    x => SetFindings(db, x, smembers(x))
  }

  function PerRecord(db: Db): Name -> seq<Problem> {
    dp => RecordFindings(db, dp)
  }

  function PerEntry(db: Db, srv: string): string -> seq<Problem> {
    sub => EntryFindings(db, srv, sub)
  }

  function PerService(db: Db, zscan: string -> seq<string>): string -> seq<Problem> {
    srv => Flat(zscan(srv), PerEntry(db, srv))
  }

  function PerTypeEntry(db: Db, k: TypeKey): Name -> seq<Problem> {
    dp => TypeEntryFindings(db, k, dp)
  }

  function PerType(db: Db, sscan: TypeKey -> seq<Name>): TypeKey -> seq<Problem> {
    k => Flat(sscan(k), PerTypeEntry(db, k))
  }

  lemma Regroup(a: seq<Problem>, b: seq<Problem>, c: seq<Problem>)
    ensures a + b + c == a + (b + c)
  {
  }

  method CheckDevice(db: Db, report: ConsistencyReport, x: Sub, dp: Name)
    requires report.Valid()
    modifies report
    ensures report.Valid()
    ensures report.findings == old(report.findings) + DeviceFindings(db, x, dp)
  {
    if dp !in db.records {
      report.Add(Problem(OrphanedDeliveryPoint, x.service, Device(dp), x.name));
    }
    if dp !in Members(db.typed, TypeKey(x.service, dp.pushType)) {
      report.Add(Problem(MissingIndexEntry, x.service, Device(dp), x.name));
    }
  }

  /** checkSubscriberSets, its inside: one subscriber's device set. */
  method CheckSet(db: Db, report: ConsistencyReport, x: Sub, names: seq<Name>)
    requires report.Valid()
    modifies report
    ensures report.Valid()
    ensures report.findings == old(report.findings) + SetFindings(db, x, names)
  {
    if |names| > 0 && x.name !in Members(db.subscribers, x.service) {
      report.Add(Problem(MissingIndexEntry, x.service, Subscriber(x.name), ""));
    }
    ghost var before := report.findings;
    assert before == old(report.findings) + ListingFindings(db, x, names);
    for i := 0 to |names|
      invariant report.Valid() && report.findings == before + Flat(names[..i], PerDevice(db, x))
    {
      FlatAppend(names, PerDevice(db, x), i);
      CheckDevice(db, report, x, names[i]);
      Regroup(before, Flat(names[..i], PerDevice(db, x)), DeviceFindings(db, x, names[i]));
    }
    assert names[..|names|] == names;
    Regroup(old(report.findings), ListingFindings(db, x, names), Flat(names, PerDevice(db, x)));
  }

  method CheckSubscriberSets(db: Db, report: ConsistencyReport, walk: seq<Sub>, smembers: Sub -> seq<Name>)
    requires report.Valid()
    modifies report
    ensures report.Valid()
    ensures report.findings == old(report.findings) + Flat(walk, PerSet(db, smembers))
  {
    for i := 0 to |walk|
      invariant report.Valid() && report.findings == old(report.findings) + Flat(walk[..i], PerSet(db, smembers))
    {
      FlatAppend(walk, PerSet(db, smembers), i);
      CheckSet(db, report, walk[i], smembers(walk[i]));
      Regroup(old(report.findings), Flat(walk[..i], PerSet(db, smembers)), PerSet(db, smembers)(walk[i]));
    }
    assert walk[..|walk|] == walk;
  }

  method CheckRecord(db: Db, report: ConsistencyReport, dp: Name)
    requires report.Valid()
    modifies report
    ensures report.Valid()
    ensures report.findings == old(report.findings) + RecordFindings(db, dp)
  {
    if dp !in db.records {
      return;  // unsubscribed between the scan and this read
    }
    match db.records[dp]
    case Blank =>
    case Unreadable(_) =>
      report.Add(Problem(UnreferencedDeliveryPoint, "", Device(dp), ""));
    case Readable(fixedData, _, _) =>
      var service, subscriber := Field(fixedData, "service"), Field(fixedData, "subscriber");
      if service == "" || subscriber == "" {
        report.Add(Problem(UnreferencedDeliveryPoint, service, Device(dp), subscriber));
      } else if dp !in Members(db.devices, Sub(service, subscriber)) {
        report.Add(Problem(UnreferencedDeliveryPoint, service, Device(dp), subscriber));
      }
  }

  method CheckDeliveryPointRecords(db: Db, report: ConsistencyReport, walk: seq<Name>)
    requires report.Valid()
    modifies report
    ensures report.Valid()
    ensures report.findings == old(report.findings) + Flat(walk, PerRecord(db))
  {
    for i := 0 to |walk|
      invariant report.Valid() && report.findings == old(report.findings) + Flat(walk[..i], PerRecord(db))
    {
      FlatAppend(walk, PerRecord(db), i);
      CheckRecord(db, report, walk[i]);
    }
    assert walk[..|walk|] == walk;
  }

  method CheckEntries(db: Db, report: ConsistencyReport, srv: string, subs: seq<string>)
    requires report.Valid()
    modifies report
    ensures report.Valid()
    ensures report.findings == old(report.findings) + Flat(subs, PerEntry(db, srv))
  {
    for i := 0 to |subs|
      invariant report.Valid() && report.findings == old(report.findings) + Flat(subs[..i], PerEntry(db, srv))
    {
      FlatAppend(subs, PerEntry(db, srv), i);
      if |Members(db.devices, Sub(srv, subs[i]))| == 0 {
        report.Add(Problem(StaleIndexEntry, srv, Subscriber(subs[i]), ""));
      }
    }
    assert subs[..|subs|] == subs;
  }

  method CheckIndexedSubscribers(db: Db, report: ConsistencyReport, walk: seq<string>, zscan: string -> seq<string>)
    requires report.Valid()
    modifies report
    ensures report.Valid()
    ensures report.findings == old(report.findings) + Flat(walk, PerService(db, zscan))
  {
    for i := 0 to |walk|
      invariant report.Valid() && report.findings == old(report.findings) + Flat(walk[..i], PerService(db, zscan))
    {
      FlatAppend(walk, PerService(db, zscan), i);
      CheckEntries(db, report, walk[i], zscan(walk[i]));
      Regroup(old(report.findings), Flat(walk[..i], PerService(db, zscan)), PerService(db, zscan)(walk[i]));
    }
    assert walk[..|walk|] == walk;
  }

  method CheckTypeEntries(db: Db, report: ConsistencyReport, k: TypeKey, names: seq<Name>)
    requires report.Valid()
    modifies report
    ensures report.Valid()
    ensures report.findings == old(report.findings) + Flat(names, PerTypeEntry(db, k))
  {
    for i := 0 to |names|
      invariant report.Valid() && report.findings == old(report.findings) + Flat(names[..i], PerTypeEntry(db, k))
    {
      FlatAppend(names, PerTypeEntry(db, k), i);
      if names[i] !in db.records {
        report.Add(Problem(StaleIndexEntry, k.service, Device(names[i]), k.pushType));
      }
    }
    assert names[..|names|] == names;
  }

  method CheckIndexedDeliveryPoints(db: Db, report: ConsistencyReport, walk: seq<TypeKey>, sscan: TypeKey -> seq<Name>)
    requires report.Valid()
    modifies report
    ensures report.Valid()
    ensures report.findings == old(report.findings) + Flat(walk, PerType(db, sscan))
  {
    for i := 0 to |walk|
      invariant report.Valid() && report.findings == old(report.findings) + Flat(walk[..i], PerType(db, sscan))
    {
      FlatAppend(walk, PerType(db, sscan), i);
      CheckTypeEntries(db, report, walk[i], sscan(walk[i]));
      Regroup(old(report.findings), Flat(walk[..i], PerType(db, sscan)), PerType(db, sscan)(walk[i]));
    }
    assert walk[..|walk|] == walk;
  }

  // ---------- The whole check ----------

  /** What redis hands the walks. */
  datatype Walked = Walked(
    sets: seq<Sub>, smembers: Sub -> seq<Name>,
    records: seq<Name>,
    services: seq<string>, zscan: string -> seq<string>,
    types: seq<TypeKey>, sscan: TypeKey -> seq<Name>)

  /** ... on a database nobody is writing to: everything that is there, perhaps more than once. */
  ghost predicate WalkedOver(db: Db, w: Walked) {
    && Walks(w.sets, db.devices.Keys) && (forall x :: Walks(w.smembers(x), Members(db.devices, x)))
    && Walks(w.records, db.records.Keys)
    && Walks(w.services, db.subscribers.Keys) && (forall srv :: Walks(w.zscan(srv), Members(db.subscribers, srv)))
    && Walks(w.types, db.typed.Keys) && (forall k :: Walks(w.sscan(k), Members(db.typed, k)))
  }

  function MarkerFindings(db: Db): seq<Problem> {
    if db.built then [] else [Problem(IndexNotBuilt, "", Nothing, "")]
  }

  /** Every visit that finds something, in order. */
  function AllFindings(db: Db, w: Walked): seq<Problem> {
    Flat(w.sets, PerSet(db, w.smembers)) + Flat(w.records, PerRecord(db)) + MarkerFindings(db)
    + Flat(w.services, PerService(db, w.zscan)) + Flat(w.types, PerType(db, w.sscan))
  }

  /** CheckConsistency, its checks on subscriptions and their index. */
  method CheckConsistency(db: Db, w: Walked) returns (report: ConsistencyReport)
    ensures fresh(report) && report.Valid() && report.findings == AllFindings(db, w)
  {
    report := new ConsistencyReport();
    CheckSubscriberSets(db, report, w.sets, w.smembers);
    ghost var sets := Flat(w.sets, PerSet(db, w.smembers));
    assert report.findings == sets;
    CheckDeliveryPointRecords(db, report, w.records);
    CheckSubscriberIndex(db, report, w);
  }

  /** checkSubscriberIndex: the marker, then both index types. */
  method CheckSubscriberIndex(db: Db, report: ConsistencyReport, w: Walked)
    requires report.Valid()
    modifies report
    ensures report.Valid()
    ensures report.findings == old(report.findings) + MarkerFindings(db)
                               + Flat(w.services, PerService(db, w.zscan)) + Flat(w.types, PerType(db, w.sscan))
  {
    if !db.built {
      report.Add(Problem(IndexNotBuilt, "", Nothing, ""));
    }
    assert report.findings == old(report.findings) + MarkerFindings(db);
    CheckIndexedSubscribers(db, report, w.services, w.zscan);
    CheckIndexedDeliveryPoints(db, report, w.types, w.sscan);
  }

  // ---------- What it finds ----------

  lemma SetFindingsMeaning(db: Db, x: Sub, names: seq<Name>, p: Problem)
    requires Walks(names, Members(db.devices, x))
    ensures p in SetFindings(db, x, names) <==> SetFinding(db, x, p)
  {
    FlatMembers(names, PerDevice(db, x), p);
    assert names != [] <==> Members(db.devices, x) != {} by {
      assert names != [] ==> names[0] in Members(db.devices, x);
    }
    assert forall dp :: p in PerDevice(db, x)(dp) <==> DeviceFinding(db, x, dp, p);
  }

  lemma SetsMeaning(db: Db, w: Walked, p: Problem)
    requires WalkedOver(db, w)
    ensures p in Flat(w.sets, PerSet(db, w.smembers)) <==> AnySet(db, db.devices.Keys, p)
  {
    FlatMembers(w.sets, PerSet(db, w.smembers), p);
    forall x ensures p in PerSet(db, w.smembers)(x) <==> SetFinding(db, x, p) {
      SetFindingsMeaning(db, x, w.smembers(x), p);
    }
  }

  lemma RecordsMeaning(db: Db, w: Walked, p: Problem)
    requires WalkedOver(db, w)
    ensures p in Flat(w.records, PerRecord(db)) <==> AnyRecord(db, db.records.Keys, p)
  {
    FlatMembers(w.records, PerRecord(db), p);
    assert forall dp :: p in PerRecord(db)(dp) <==> RecordFinding(db, dp, p);
  }

  lemma ServicesMeaning(db: Db, w: Walked, p: Problem)
    requires WalkedOver(db, w)
    ensures p in Flat(w.services, PerService(db, w.zscan)) <==> AnyService(db, db.subscribers.Keys, p)
  {
    FlatMembers(w.services, PerService(db, w.zscan), p);
    forall srv ensures p in PerService(db, w.zscan)(srv) <==> AnySubscriber(db, srv, Members(db.subscribers, srv), p) {
      FlatMembers(w.zscan(srv), PerEntry(db, srv), p);
      assert forall sub :: p in PerEntry(db, srv)(sub) <==> IndexedSubscriberFinding(db, srv, sub, p);
    }
  }

  lemma TypesMeaning(db: Db, w: Walked, p: Problem)
    requires WalkedOver(db, w)
    ensures p in Flat(w.types, PerType(db, w.sscan)) <==> AnyType(db, db.typed.Keys, p)
  {
    FlatMembers(w.types, PerType(db, w.sscan), p);
    forall k ensures p in PerType(db, w.sscan)(k) <==> AnyIndexedDevice(db, k, Members(db.typed, k), p) {
      FlatMembers(w.sscan(k), PerTypeEntry(db, k), p);
      assert forall dp :: p in PerTypeEntry(db, k)(dp) <==> IndexedDeviceFinding(db, k, dp, p);
    }
  }

  /** On a database nobody writes to, whatever the walks repeat, what is found is what there is to report. */
  lemma FindsWhatIsThere(db: Db, w: Walked, p: Problem)
    requires WalkedOver(db, w)
    ensures p in AllFindings(db, w) <==> Reported(db, p)
  {
    SetsMeaning(db, w, p);
    RecordsMeaning(db, w, p);
    ServicesMeaning(db, w, p);
    TypesMeaning(db, w, p);
  }

  // ---------- How often ----------

  /** No walk returns a member twice that finds something. */
  ghost predicate NoHarmfulRepeat(db: Db, w: Walked) {
    && OnceEach(w.sets, PerSet(db, w.smembers)) && (forall x :: x in w.sets ==> OnceEach(w.smembers(x), PerDevice(db, x)))
    && OnceEach(w.records, PerRecord(db))
    && OnceEach(w.services, PerService(db, w.zscan)) && (forall srv :: srv in w.services ==> OnceEach(w.zscan(srv), PerEntry(db, srv)))
    && OnceEach(w.types, PerType(db, w.sscan)) && (forall k :: k in w.types ==> OnceEach(w.sscan(k), PerTypeEntry(db, k)))
  }

  lemma SetOnce(db: Db, x: Sub, names: seq<Name>)
    ensures Distinct(SetFindings(db, x, names)) <==> OnceEach(names, PerDevice(db, x))
  {
    FlatDistinct(names, PerDevice(db, x));
    forall p | p in Flat(names, PerDevice(db, x)) ensures p.subject.Device? {
      FlatMembers(names, PerDevice(db, x), p);
    }
    DistinctSum(ListingFindings(db, x, names), Flat(names, PerDevice(db, x)));
    assert forall dp :: Distinct(PerDevice(db, x)(dp));
  }

  lemma SetFindsItsOwn(db: Db, smembers: Sub -> seq<Name>, x: Sub, p: Problem)
    requires p in PerSet(db, smembers)(x)
    ensures p.service == x.service && (p.subject == Subscriber(x.name) || (p.subject.Device? && p.detail == x.name))
    ensures p.kind in {MissingIndexEntry, OrphanedDeliveryPoint}
  {
    FlatMembers(smembers(x), PerDevice(db, x), p);
  }

  lemma SetsApart(db: Db, smembers: Sub -> seq<Name>)
    ensures Apart(PerSet(db, smembers))
  {
    forall x, y, p | p in PerSet(db, smembers)(x) && p in PerSet(db, smembers)(y) ensures x == y {
      SetFindsItsOwn(db, smembers, x, p);
      SetFindsItsOwn(db, smembers, y, p);
    }
  }

  lemma ServiceFindsItsOwn(db: Db, zscan: string -> seq<string>, srv: string, p: Problem)
    requires p in PerService(db, zscan)(srv)
    ensures p.service == srv && p.kind == StaleIndexEntry && p.subject.Subscriber?
  {
    FlatMembers(zscan(srv), PerEntry(db, srv), p);
  }

  lemma ServicesApart(db: Db, zscan: string -> seq<string>)
    ensures Apart(PerService(db, zscan))
  {
    forall x, y, p | p in PerService(db, zscan)(x) && p in PerService(db, zscan)(y) ensures x == y {
      ServiceFindsItsOwn(db, zscan, x, p);
      ServiceFindsItsOwn(db, zscan, y, p);
    }
  }

  lemma TypeFindsItsOwn(db: Db, sscan: TypeKey -> seq<Name>, k: TypeKey, p: Problem)
    requires p in PerType(db, sscan)(k)
    ensures p.service == k.service && p.detail == k.pushType && p.kind == StaleIndexEntry && p.subject.Device?
  {
    FlatMembers(sscan(k), PerTypeEntry(db, k), p);
  }

  lemma TypesApart(db: Db, sscan: TypeKey -> seq<Name>)
    ensures Apart(PerType(db, sscan))
  {
    forall x, y, p | p in PerType(db, sscan)(x) && p in PerType(db, sscan)(y) ensures x == y {
      TypeFindsItsOwn(db, sscan, x, p);
      TypeFindsItsOwn(db, sscan, y, p);
    }
  }

  lemma SetsOnce(db: Db, w: Walked)
    ensures Distinct(Flat(w.sets, PerSet(db, w.smembers))) <==>
              OnceEach(w.sets, PerSet(db, w.smembers)) && forall x :: x in w.sets ==> OnceEach(w.smembers(x), PerDevice(db, x))
  {
    SetsApart(db, w.smembers);
    FlatDistinct(w.sets, PerSet(db, w.smembers));
    forall x ensures Distinct(PerSet(db, w.smembers)(x)) <==> OnceEach(w.smembers(x), PerDevice(db, x)) {
      SetOnce(db, x, w.smembers(x));
    }
  }

  lemma RecordsOnce(db: Db, w: Walked)
    ensures Distinct(Flat(w.records, PerRecord(db))) <==> OnceEach(w.records, PerRecord(db))
  {
    FlatDistinct(w.records, PerRecord(db));
    assert forall dp :: Distinct(PerRecord(db)(dp));
  }

  lemma ServicesOnce(db: Db, w: Walked)
    ensures Distinct(Flat(w.services, PerService(db, w.zscan))) <==>
              OnceEach(w.services, PerService(db, w.zscan)) && forall srv :: srv in w.services ==> OnceEach(w.zscan(srv), PerEntry(db, srv))
  {
    ServicesApart(db, w.zscan);
    FlatDistinct(w.services, PerService(db, w.zscan));
    forall srv ensures Distinct(PerService(db, w.zscan)(srv)) <==> OnceEach(w.zscan(srv), PerEntry(db, srv)) {
      FlatDistinct(w.zscan(srv), PerEntry(db, srv));
      assert forall sub :: Distinct(PerEntry(db, srv)(sub));
    }
  }

  lemma TypesOnce(db: Db, w: Walked)
    ensures Distinct(Flat(w.types, PerType(db, w.sscan))) <==>
              OnceEach(w.types, PerType(db, w.sscan)) && forall k :: k in w.types ==> OnceEach(w.sscan(k), PerTypeEntry(db, k))
  {
    TypesApart(db, w.sscan);
    FlatDistinct(w.types, PerType(db, w.sscan));
    forall k ensures Distinct(PerType(db, w.sscan)(k)) <==> OnceEach(w.sscan(k), PerTypeEntry(db, k)) {
      FlatDistinct(w.sscan(k), PerTypeEntry(db, k));
      assert forall dp :: Distinct(PerTypeEntry(db, k)(dp));
    }
  }

  /** The kinds and subjects the four walks can find, which no two share. */
  lemma WalkKinds(db: Db, w: Walked, p: Problem)
    ensures p in Flat(w.sets, PerSet(db, w.smembers)) ==> p.kind in {MissingIndexEntry, OrphanedDeliveryPoint}
    ensures p in Flat(w.records, PerRecord(db)) ==> p.kind == UnreferencedDeliveryPoint
    ensures p in Flat(w.services, PerService(db, w.zscan)) ==> p.kind == StaleIndexEntry && p.subject.Subscriber?
    ensures p in Flat(w.types, PerType(db, w.sscan)) ==> p.kind == StaleIndexEntry && p.subject.Device?
  {
    FlatMembers(w.sets, PerSet(db, w.smembers), p);
    FlatMembers(w.records, PerRecord(db), p);
    FlatMembers(w.services, PerService(db, w.zscan), p);
    FlatMembers(w.types, PerType(db, w.sscan), p);
    if x :| x in w.sets && p in PerSet(db, w.smembers)(x) { SetFindsItsOwn(db, w.smembers, x, p); }
    if srv :| srv in w.services && p in PerService(db, w.zscan)(srv) { ServiceFindsItsOwn(db, w.zscan, srv, p); }
    if k :| k in w.types && p in PerType(db, w.sscan)(k) { TypeFindsItsOwn(db, w.sscan, k, p); }
  }

  /** Whatever database and walks: each problem is counted once exactly when no walk returns a member twice that finds something. */
  lemma CountedOnceIff(db: Db, w: Walked)
    ensures Distinct(AllFindings(db, w)) <==> NoHarmfulRepeat(db, w)
  {
    SetsOnce(db, w);
    RecordsOnce(db, w);
    ServicesOnce(db, w);
    TypesOnce(db, w);
    WalksApart(db, w);
    DistinctSumOfFive(Flat(w.sets, PerSet(db, w.smembers)), Flat(w.records, PerRecord(db)), MarkerFindings(db),
                      Flat(w.services, PerService(db, w.zscan)), Flat(w.types, PerType(db, w.sscan)));
  }

  ghost predicate Disjoint(a: seq<Problem>, b: seq<Problem>) {
    forall p :: p in a ==> p !in b
  }

  lemma WalksApart(db: Db, w: Walked)
    ensures var sets, records, marker := Flat(w.sets, PerSet(db, w.smembers)), Flat(w.records, PerRecord(db)), MarkerFindings(db);
            var services, types := Flat(w.services, PerService(db, w.zscan)), Flat(w.types, PerType(db, w.sscan));
            && Disjoint(sets, records) && Disjoint(sets + records, marker)
            && Disjoint(sets + records + marker, services) && Disjoint(sets + records + marker + services, types)
  {
    var sets, records, marker := Flat(w.sets, PerSet(db, w.smembers)), Flat(w.records, PerRecord(db)), MarkerFindings(db);
    var services, types := Flat(w.services, PerService(db, w.zscan)), Flat(w.types, PerType(db, w.sscan));
    forall p ensures p in sets ==> p !in records + marker + services + types { WalkKinds(db, w, p); }
    forall p ensures p in records ==> p !in marker + services + types { WalkKinds(db, w, p); }
    forall p ensures p in services ==> p !in types { WalkKinds(db, w, p); }
    forall p ensures p in marker ==> p !in services + types { WalkKinds(db, w, p); }
  }

  lemma DistinctSumOfFive(a: seq<Problem>, b: seq<Problem>, c: seq<Problem>, d: seq<Problem>, e: seq<Problem>)
    requires Disjoint(a, b) && Disjoint(a + b, c) && Disjoint(a + b + c, d) && Disjoint(a + b + c + d, e)
    ensures Distinct(a + b + c + d + e) <==> Distinct(a) && Distinct(b) && Distinct(c) && Distinct(d) && Distinct(e)
  {
    DistinctSum(a, b);
    DistinctSum(a + b, c);
    DistinctSum(a + b + c, d);
    DistinctSum(a + b + c + d, e);
  }

  lemma {:induction false} DistinctLength<T>(s: seq<T>)
    ensures |ToSet(s)| <= |s|
    ensures |ToSet(s)| == |s| <==> Distinct(s)
  {
    if s == [] {
      assert ToSet(s) == {};
    } else {
      var init, last := s[..|s| - 1], s[|s| - 1];
      DistinctLength(init);
      assert ToSet(s) == ToSet(init) + {last};
      assert s == init + [last];
      if last in init {
        assert ToSet(s) == ToSet(init);
        CommonMeansRepeated(init, [last], last);
      } else {
        DistinctSum(init, [last]);
      }
    }
  }

  /**
    The total the report gives is the number of problems there are, and never less; it is more
    exactly when some walk returned a member twice that finds something.
   */
  lemma TotalIsExact(db: Db, w: Walked, problems: set<Problem>)
    requires WalkedOver(db, w) && forall p :: p in problems <==> Reported(db, p)
    ensures |problems| <= |AllFindings(db, w)|
    ensures |problems| == |AllFindings(db, w)| <==> NoHarmfulRepeat(db, w)
  {
    forall p ensures p in ToSet(AllFindings(db, w)) <==> p in problems {
      FindsWhatIsThere(db, w, p);
    }
    assert ToSet(AllFindings(db, w)) == problems;
    DistinctLength(AllFindings(db, w));
    CountedOnceIff(db, w);
  }
}
