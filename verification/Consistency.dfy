/**
  The consistency check's view of subscriptions and their index (db/consistency.go,
  db/consistency_redis.go): what it reports, and what a clean report means.
 */
module Consistency {
  import opened Basics
  import opened Store

  datatype Kind = MissingIndexEntry | StaleIndexEntry | OrphanedDeliveryPoint | UnreferencedDeliveryPoint | IndexNotBuilt

  datatype Subject = Nothing | Subscriber(name: string) | Device(dp: Name)

  /** detail: the name its text quotes beside the subject, if any. */
  datatype Problem = Problem(kind: Kind, service: string, subject: Subject, detail: string)

  // ---------- The report ----------

  const MAX_PROBLEMS_PER_KIND := 50

  /** The first fifty, or all of them if fewer. */
  function FirstFew(s: seq<Problem>): seq<Problem> {
    if |s| <= MAX_PROBLEMS_PER_KIND then s else s[..MAX_PROBLEMS_PER_KIND]
  }

  lemma FirstFewAppend(s: seq<Problem>, p: Problem)
    ensures FirstFew(s + [p]) == if |s| < MAX_PROBLEMS_PER_KIND then FirstFew(s) + [p] else FirstFew(s)
  {
    if |s| >= MAX_PROBLEMS_PER_KIND {
      assert (s + [p])[..MAX_PROBLEMS_PER_KIND] == s[..MAX_PROBLEMS_PER_KIND];
    }
  }

  /** The findings of one kind, in the order they were made. */
  function OfKind(findings: seq<Problem>, k: Kind): seq<Problem> {
    if findings == [] then []
    else
      var last := findings[|findings| - 1];
      OfKind(findings[..|findings| - 1], k) + if last.kind == k then [last] else []
  }

  /** How many findings are of one of the kinds. */
  function Among(findings: seq<Problem>, kinds: set<Kind>): nat {
    if findings == [] then 0
    else Among(findings[..|findings| - 1], kinds) + if findings[|findings| - 1].kind in kinds then 1 else 0
  }

  lemma OfKindAppend(findings: seq<Problem>, p: Problem, k: Kind)
    ensures OfKind(findings + [p], k) == OfKind(findings, k) + if p.kind == k then [p] else []
  {
    assert (findings + [p])[..|findings|] == findings;
  }

  lemma {:induction false} AmongOneMore(findings: seq<Problem>, kinds: set<Kind>, k: Kind)
    requires k !in kinds
    ensures Among(findings, kinds + {k}) == Among(findings, kinds) + |OfKind(findings, k)|
  {
    if findings != [] {
      AmongOneMore(findings[..|findings| - 1], kinds, k);
    }
  }

  lemma {:induction false} AmongAll(findings: seq<Problem>, kinds: set<Kind>)
    requires forall p :: p in findings ==> p.kind in kinds
    ensures Among(findings, kinds) == |findings|
  {
    if findings != [] {
      AmongAll(findings[..|findings| - 1], kinds);
    }
  }

  lemma {:induction false} AmongNone(findings: seq<Problem>)
    ensures Among(findings, {}) == 0
  {
    if findings != [] {
      AmongNone(findings[..|findings| - 1]);
    }
  }

  lemma {:induction false} KindIsOccupied(findings: seq<Problem>, p: Problem)
    requires p in findings
    ensures OfKind(findings, p.kind) != []
  {
    var init := findings[..|findings| - 1];
    assert findings == init + [findings[|findings| - 1]];
    if findings[|findings| - 1] != p {
      KindIsOccupied(init, p);
    }
  }

  ghost predicate CountRight(counts: map<Kind, nat>, findings: seq<Problem>, k: Kind) {
    if OfKind(findings, k) == [] then k !in counts else k in counts && counts[k] == |OfKind(findings, k)|
  }

  ghost predicate ExamplesRight(problems: seq<Problem>, findings: seq<Problem>, k: Kind) {
    OfKind(problems, k) == FirstFew(OfKind(findings, k))
  }

  lemma ExamplesStayRight(problems: seq<Problem>, kept: seq<Problem>, findings: seq<Problem>, p: Problem, k: Kind)
    requires ExamplesRight(problems, findings, k)
    requires kept == if |OfKind(findings, p.kind)| < MAX_PROBLEMS_PER_KIND then problems + [p] else problems
    ensures ExamplesRight(kept, findings + [p], k)
  {
    OfKindAppend(findings, p, k);
    OfKindAppend(problems, p, k);
    FirstFewAppend(OfKind(findings, k), p);
    assert p.kind != k ==> OfKind(findings + [p], k) == OfKind(findings, k) && OfKind(problems + [p], k) == OfKind(problems, k);
  }

  lemma CountsStayRight(counts: map<Kind, nat>, findings: seq<Problem>, p: Problem, k: Kind)
    requires CountRight(counts, findings, k)
    ensures CountRight(counts[p.kind := |OfKind(findings, p.kind)| + 1], findings + [p], k)
  {
    OfKindAppend(findings, p, k);
    assert p.kind != k ==> OfKind(findings + [p], k) == OfKind(findings, k);
  }

  class ConsistencyReport {
    var counts: map<Kind, nat>
    var problems: seq<Problem>
    ghost var findings: seq<Problem>

    /** The counts are complete and the examples are the first fifty of each kind. */
    ghost predicate Valid()
      reads this
    {
      && (forall k :: CountRight(counts, findings, k))
      && (forall k :: ExamplesRight(problems, findings, k))
    }

    constructor ()
      ensures Valid() && findings == [] && problems == []
    {
      counts, problems, findings := map[], [], [];
    }

    method Add(problem: Problem)
      requires Valid()
      modifies this
      ensures Valid() && findings == old(findings) + [problem]
    {
      var k := problem.kind;
      assert CountRight(counts, findings, k);
      var counted := counts[k := 1 + if k in counts then counts[k] else 0];
      var kept := if counted[k] <= MAX_PROBLEMS_PER_KIND then problems + [problem] else problems;
      ghost var found := findings + [problem];
      forall j ensures CountRight(counted, found, j) {
        CountsStayRight(counts, findings, problem, j);
      }
      forall j ensures ExamplesRight(kept, found, j) {
        ExamplesStayRight(problems, kept, findings, problem, j);
      }
      counts, problems, findings := counted, kept, found;
    }

    method Healthy() returns (b: bool)
      requires Valid()
      ensures b <==> findings == []
    {
      b := counts.Keys == {};
      if findings != [] {
        KindIsOccupied(findings, findings[0]);
        assert CountRight(counts, findings, findings[0].kind);
      } else {
        forall k ensures k !in counts {
          assert CountRight(counts, findings, k);
        }
      }
    }

    method TotalProblems() returns (total: nat)
      requires Valid()
      ensures total == |findings|
    {
      total := 0;
      var left := counts.Keys;
      AmongNone(findings);
      assert counts.Keys - left == {};
      while left != {}
        invariant left <= counts.Keys
        invariant total == Among(findings, counts.Keys - left)
        decreases left
      {
        var k :| k in left;
        assert CountRight(counts, findings, k);
        AmongOneMore(findings, counts.Keys - left, k);
        assert counts.Keys - (left - {k}) == counts.Keys - left + {k};
        total := total + counts[k];
        left := left - {k};
      }
      forall p | p in findings ensures p.kind in counts.Keys {
        KindIsOccupied(findings, p);
        assert CountRight(counts, findings, p.kind);
      }
      AmongAll(findings, counts.Keys - left);
    }
  }

  // ---------- What each check looks for ----------

  /** A device listed by subscriber x. */
  ghost predicate DeviceFinding(db: Db, x: Sub, dp: Name, p: Problem) {
    || (p == Problem(OrphanedDeliveryPoint, x.service, Device(dp), x.name) && dp !in db.records)
    || (p == Problem(MissingIndexEntry, x.service, Device(dp), x.name) && dp !in Members(db.typed, TypeKey(x.service, dp.pushType)))
  }

  ghost predicate AnyDevice(db: Db, x: Sub, dps: set<Name>, p: Problem) {
    exists dp :: dp in dps && DeviceFinding(db, x, dp, p)
  }

  /** A subscriber's device set. */
  ghost predicate SetFinding(db: Db, x: Sub, p: Problem) {
    || (p == Problem(MissingIndexEntry, x.service, Subscriber(x.name), "") && Members(db.devices, x) != {} && x.name !in Members(db.subscribers, x.service))
    || AnyDevice(db, x, Members(db.devices, x), p)
  }

  ghost predicate AnySet(db: Db, xs: set<Sub>, p: Problem) {
    exists x :: x in xs && SetFinding(db, x, p)
  }

  function Field(fixedData: map<string, string>, key: string): string {
    if key in fixedData then fixedData[key] else ""
  }

  /** A stored record. */
  ghost predicate RecordFinding(db: Db, dp: Name, p: Problem) {
    dp in db.records &&
    match db.records[dp]
    case Blank => false
    case Unreadable(_) => p == Problem(UnreferencedDeliveryPoint, "", Device(dp), "")
    case Readable(fixedData, _, _) =>
      var service, subscriber := Field(fixedData, "service"), Field(fixedData, "subscriber");
      p == Problem(UnreferencedDeliveryPoint, service, Device(dp), subscriber) &&
      (service == "" || subscriber == "" || dp !in Members(db.devices, Sub(service, subscriber)))
  }

  ghost predicate AnyRecord(db: Db, dps: set<Name>, p: Problem) {
    exists dp :: dp in dps && RecordFinding(db, dp, p)
  }

  /** An entry of a service's subscriber index. */
  ghost predicate IndexedSubscriberFinding(db: Db, srv: string, sub: string, p: Problem) {
    p == Problem(StaleIndexEntry, srv, Subscriber(sub), "") && Members(db.devices, Sub(srv, sub)) == {}
  }

  ghost predicate AnySubscriber(db: Db, srv: string, subs: set<string>, p: Problem) {
    exists sub :: sub in subs && IndexedSubscriberFinding(db, srv, sub, p)
  }

  ghost predicate AnyService(db: Db, services: set<string>, p: Problem) {
    exists srv :: srv in services && AnySubscriber(db, srv, Members(db.subscribers, srv), p)
  }

  /** An entry of a type set. */
  ghost predicate IndexedDeviceFinding(db: Db, k: TypeKey, dp: Name, p: Problem) {
    p == Problem(StaleIndexEntry, k.service, Device(dp), k.pushType) && dp !in db.records
  }

  ghost predicate AnyIndexedDevice(db: Db, k: TypeKey, dps: set<Name>, p: Problem) {
    exists dp :: dp in dps && IndexedDeviceFinding(db, k, dp, p)
  }

  ghost predicate AnyType(db: Db, ks: set<TypeKey>, p: Problem) {
    exists k :: k in ks && AnyIndexedDevice(db, k, Members(db.typed, k), p)
  }

  /** Everything the checks on subscriptions and their index report of db. */
  ghost predicate Reported(db: Db, p: Problem) {
    || AnySet(db, db.devices.Keys, p)
    || AnyRecord(db, db.records.Keys, p)
    || (p == Problem(IndexNotBuilt, "", Nothing, "") && !db.built)
    || AnyService(db, db.subscribers.Keys, p)
    || AnyType(db, db.typed.Keys, p)
  }

  // ---------- What a report means ----------

  /** Nothing of the four kinds that concern subscriptions and their index. */
  ghost predicate Clean(db: Db) {
    forall p :: Reported(db, p) ==> p.kind == IndexNotBuilt
  }

  /** What the checks take on trust about the type sets: each holds names of its own service and type, and a blank record belongs to a listed device. */
  ghost predicate Trusted(db: Db) {
    forall k, dp :: dp in Members(db.typed, k) ==>
      && k == TypeKey(dp.service, dp.pushType)
      && (dp in db.records && db.records[dp] == Blank ==> dp in Members(db.devices, Owner(dp)))
  }

  lemma CleanSubscriber(db: Db, y: Sub)
    requires WellFormed(db) && Clean(db)
    ensures SubscriberRight(db, y)
  {
    if Members(db.devices, y) != {} {
      assert y in db.devices;
      var p := Problem(MissingIndexEntry, y.service, Subscriber(y.name), "");
      assert y.name !in Members(db.subscribers, y.service) ==> SetFinding(db, y, p);
      assert !Reported(db, p);
    } else {
      var p := Problem(StaleIndexEntry, y.service, Subscriber(y.name), "");
      assert IndexedSubscriberFinding(db, y.service, y.name, p);
      assert !Reported(db, p);
    }
  }

  lemma CleanListedDevice(db: Db, dp: Name)
    requires WellFormed(db) && Clean(db) && dp in Members(db.devices, Owner(dp))
    ensures dp in db.records && dp in Members(db.typed, TypeKey(dp.service, dp.pushType))
  {
    var x := Owner(dp);
    var orphaned, missing := Problem(OrphanedDeliveryPoint, x.service, Device(dp), x.name), Problem(MissingIndexEntry, x.service, Device(dp), x.name);
    assert x in db.devices;
    assert DeviceFinding(db, x, dp, orphaned) ==> SetFinding(db, x, orphaned);
    assert DeviceFinding(db, x, dp, missing) ==> SetFinding(db, x, missing);
    assert !Reported(db, orphaned) && !Reported(db, missing);
  }

  lemma CleanIndexedDevice(db: Db, k: TypeKey, dp: Name)
    requires WellFormed(db) && Clean(db) && Trusted(db) && dp in Members(db.typed, k)
    ensures BelongsIn(db, dp, k)
  {
    var stale := Problem(StaleIndexEntry, k.service, Device(dp), k.pushType);
    assert dp !in db.records ==> IndexedDeviceFinding(db, k, dp, stale);
    assert !Reported(db, stale);
    var dead := Problem(UnreferencedDeliveryPoint, "", Device(dp), "");
    assert db.records[dp].Unreadable? ==> RecordFinding(db, dp, dead);
    assert !Reported(db, dead);
    if db.records[dp].Readable? {
      var fixedData := db.records[dp].fixedData;
      var x := Sub(Field(fixedData, "service"), Field(fixedData, "subscriber"));
      var p := Problem(UnreferencedDeliveryPoint, x.service, Device(dp), x.name);
      assert dp !in Members(db.devices, x) ==> RecordFinding(db, dp, p);
      assert !Reported(db, p);
      assert Owner(dp) == x;
    }
  }

  /** A clean report means the index is in full agreement, exactly when what the checks trust is so. */
  lemma CleanMeansAgreement(db: Db)
    requires WellFormed(db) && Clean(db)
    ensures Agrees(db) <==> Trusted(db)
  {
    if Trusted(db) {
      forall y ensures IndexedRight(db, y) {
        CleanSubscriber(db, y);
        forall dp, k | Owner(dp) == y ensures DeviceRight(db, dp, k) {
          if dp in Members(db.typed, k) {
            CleanIndexedDevice(db, k, dp);
          } else if BelongsIn(db, dp, k) {
            CleanListedDevice(db, dp);
          }
        }
      }
    }
    if Agrees(db) {
      forall k, dp | dp in Members(db.typed, k) ensures BelongsIn(db, dp, k) {
        assert IndexedRight(db, Owner(dp));
        assert DeviceRight(db, dp, k);
      }
    }
  }

  /** Under full agreement, with a record behind every listed device, nothing is reported missing, stale or orphaned. */
  lemma AgreementMeansClean(db: Db, p: Problem)
    requires WellFormed(db) && Agrees(db)
    requires forall x, dp :: dp in Members(db.devices, x) ==> dp in db.records
    requires p.kind in {MissingIndexEntry, StaleIndexEntry, OrphanedDeliveryPoint}
    ensures !Reported(db, p)
  {
    forall x | x in db.devices ensures !SetFinding(db, x, p) {
      assert IndexedRight(db, x);
      forall dp | dp in Members(db.devices, x) ensures !DeviceFinding(db, x, dp, p) {
        assert DeviceRight(db, dp, TypeKey(dp.service, dp.pushType));
      }
    }
    forall srv, sub | sub in Members(db.subscribers, srv) ensures !IndexedSubscriberFinding(db, srv, sub, p) {
      assert IndexedRight(db, Sub(srv, sub));
    }
    forall k, dp | dp in Members(db.typed, k) ensures !IndexedDeviceFinding(db, k, dp, p) {
      assert IndexedRight(db, Owner(dp));
      assert DeviceRight(db, dp, k);
    }
  }

  /** A type set entry whose record is blank and whose subscriber is gone: nothing at all is reported, and the index is wrong. */
  lemma BlankRecordHidesStaleEntry()
    ensures exists db :: WellFormed(db) && (forall p :: !Reported(db, p)) && !Agrees(db)
  {
    var dp := Name("apns", "s", "u", "d");
    var k := TypeKey("s", "apns");
    var db := Db(map[], map[], map[k := {dp}], map[], map[], true, map[dp := Blank], map[]);
    assert dp in Members(db.typed, k) && !BelongsIn(db, dp, k);
    assert !DeviceRight(db, dp, k) && !IndexedRight(db, Owner(dp));
    forall p: Problem ensures !Reported(db, p) {}
    assert WellFormed(db) && (forall p :: !Reported(db, p)) && !Agrees(db);
  }
}
