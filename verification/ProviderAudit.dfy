/**
  The consistency check's view of providers (checkServiceProviders of db/consistency_redis.go), and
  what its duplicate finding means: a device's provider can be derived, without asking what it is
  bound to, exactly where nothing is reported.
 */
module ProviderAudit {
  import opened Basics
  import opened Providers

  datatype Finding =
    | Dangling(service: string, name: ProviderName)
    | Duplicate(service: string, pushType: string, sharing: nat)
    | Orphaned(name: ProviderName)

  type Records = map<ProviderName, Provider>

  /** The names of a listing that have a record, of one type, in order. */
  function Sharing(names: seq<ProviderName>, records: Records, pushType: string): seq<ProviderName> {
    if names == [] then [] else
    var rest, n := Sharing(names[..|names| - 1], records, pushType), names[|names| - 1];
    if n in records && records[n].name.pushType == pushType then rest + [n] else rest
  }

  lemma {:induction false} SharingMeaning(names: seq<ProviderName>, records: Records, pushType: string)
    ensures forall n :: n in Sharing(names, records, pushType) <==> n in names && n in records && records[n].name.pushType == pushType
    ensures Distinct(names) ==> Distinct(Sharing(names, records, pushType))
  {
    if names != [] {
      var init := names[..|names| - 1];
      SharingMeaning(init, records, pushType);
      assert names == init + [names[|names| - 1]];
      if Distinct(names) {
        assert Distinct(init);
      }
    }
  }

  /** The names of the listing grouped by type, as the loop builds them. */
  ghost predicate Grouped(byType: map<string, seq<ProviderName>>, names: seq<ProviderName>, records: Records) {
    && (forall t :: t in byType <==> Sharing(names, records, t) != [])
    && (forall t :: t in byType ==> byType[t] == Sharing(names, records, t))
  }

  method GroupByType(service: string, names: seq<ProviderName>, records: Records)
    returns (byType: map<string, seq<ProviderName>>, dangling: seq<Finding>)
    ensures Grouped(byType, names, records)
    ensures forall f :: f in dangling <==> f.Dangling? && f.service == service && f.name in names && f.name !in records
  {
    byType, dangling := map[], [];
    for i := 0 to |names|
      invariant Grouped(byType, names[..i], records)
      invariant forall f :: f in dangling <==> f.Dangling? && f.service == service && f.name in names[..i] && f.name !in records
    {
      var n := names[i];
      assert names[..i + 1][..i] == names[..i] && names[..i + 1] == names[..i] + [n];
      if n !in records {
        dangling := dangling + [Dangling(service, n)];
      } else {
        var t := records[n].name.pushType;
        byType := byType[t := (if t in byType then byType[t] else []) + [n]];
      }
    }
    assert names[..|names|] == names;
  }

  /** checkServiceProviders, its inside: one service's provider set. */
  method CheckService(service: string, names: seq<ProviderName>, records: Records) returns (findings: seq<Finding>)
    ensures forall n :: Dangling(service, n) in findings <==> n in names && n !in records
    ensures forall t, c :: Duplicate(service, t, c) in findings <==> c == |Sharing(names, records, t)| && c >= 2
    ensures forall f :: f in findings ==> !f.Orphaned? && f.service == service
  {
    var byType;
    byType, findings := GroupByType(service, names, records);
    ghost var dangling := findings;
    var left := byType.Keys;
    while left != {}
      invariant left <= byType.Keys
      invariant forall f :: f in findings && f.Dangling? <==> f in dangling
      invariant forall t, c :: Duplicate(service, t, c) in findings <==>
                  t in byType && t !in left && c == |Sharing(names, records, t)| && c >= 2
      invariant forall f :: f in findings ==> !f.Orphaned? && f.service == service
    {
      var t :| t in left;
      if |byType[t]| >= 2 {
        findings := findings + [Duplicate(service, t, |byType[t]|)];
      }
      left := left - {t};
    }
  }

  /** No device of the service depends on its binding: whatever it is bound to, the same provider serves it or none does. */
  ghost predicate Derivable(providers: set<Provider>) {
    forall t, b, b', p :: Serves(providers, t, b, p) ==> Serves(providers, t, b', p)
  }

  lemma SharedIsNotDerivable(names: seq<ProviderName>, records: Records, t: string)
    requires NamedRight(records) && Distinct(names) && |Sharing(names, records, t)| >= 2
    ensures !Derivable(ToSet(ServiceProviders(names, records)))
  {
    SharingMeaning(names, records, t);
    ServiceProvidersMeaning(names, records);
    var s, providers := Sharing(names, records, t), ToSet(ServiceProviders(names, records));
    assert s[0] != s[1] && s[0] in s && s[1] in s;
    var p, q := records[s[0]], records[s[1]];
    assert p in providers && q in providers && p != q;
    assert Serves(providers, t, Some(p.name), p);
    assert !Serves(providers, t, None, p);
  }

  lemma UnsharedIsUnique(names: seq<ProviderName>, records: Records, p: Provider, q: Provider)
    requires NamedRight(records) && p.name.pushType == q.name.pushType && |Sharing(names, records, p.name.pushType)| <= 1
    requires p in ServiceProviders(names, records) && q in ServiceProviders(names, records)
    ensures p == q
  {
    SharingMeaning(names, records, p.name.pushType);
    ServiceProvidersMeaning(names, records);
    assert p.name in Sharing(names, records, p.name.pushType) && q.name in Sharing(names, records, p.name.pushType);
  }

  /** Nothing is reported of a service as a duplicate exactly when its devices' providers can be derived. */
  lemma DerivableExactlyWithoutDuplicates(names: seq<ProviderName>, records: Records)
    requires NamedRight(records) && Distinct(names)
    ensures (forall t :: |Sharing(names, records, t)| < 2) <==> Derivable(ToSet(ServiceProviders(names, records)))
  {
    var providers := ToSet(ServiceProviders(names, records));
    if t :| |Sharing(names, records, t)| >= 2 {
      SharedIsNotDerivable(names, records, t);
    } else {
      forall t, b, b', p | Serves(providers, t, b, p) ensures Serves(providers, t, b', p) {
        forall q | q in providers && q.name.pushType == t ensures q == p {
          UnsharedIsUnique(names, records, p, q);
        }
      }
    }
  }

  /** checkServiceProviders: every service's set, then the records no set names. */
  method CheckServiceProviders(walk: seq<string>, smembers: string -> seq<ProviderName>, records: Records) returns (findings: seq<Finding>)
    ensures forall srv, n :: Dangling(srv, n) in findings <==> srv in walk && n in smembers(srv) && n !in records
    ensures forall srv, t, c :: Duplicate(srv, t, c) in findings <==> srv in walk && c == |Sharing(smembers(srv), records, t)| && c >= 2
    ensures forall n :: Orphaned(n) in findings <==> n in records && forall srv :: srv in walk ==> n !in smembers(srv)
  {
    findings := [];
    var listed: set<ProviderName> := {};
    for i := 0 to |walk|
      invariant forall n :: n in listed <==> exists srv :: srv in walk[..i] && n in smembers(srv)
      invariant forall srv, n :: Dangling(srv, n) in findings <==> srv in walk[..i] && n in smembers(srv) && n !in records
      invariant forall srv, t, c :: Duplicate(srv, t, c) in findings <==>
                  srv in walk[..i] && c == |Sharing(smembers(srv), records, t)| && c >= 2
      invariant forall f :: f in findings ==> !f.Orphaned?
    {
      assert walk[..i + 1] == walk[..i] + [walk[i]];
      listed := listed + ToSet(smembers(walk[i]));
      var more := CheckService(walk[i], smembers(walk[i]), records);
      findings := findings + more;
    }
    assert walk[..|walk|] == walk;
    var left := records.Keys - listed;
    ghost var before := findings;
    while left != {}
      invariant left <= records.Keys - listed
      invariant forall f :: f in findings && !f.Orphaned? <==> f in before
      invariant forall n :: Orphaned(n) in findings <==> n in records.Keys - listed && n !in left
    {
      var n :| n in left;
      findings := findings + [Orphaned(n)];
      left := left - {n};
    }
  }
}
