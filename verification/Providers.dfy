/**
  One provider per push service type: the policy of db/pushdb.go, the WATCH/MULTI/EXEC
  transaction of db/pushredisdb.go that applies it, and the derivation of a device's provider.

  A provider's name is its push service type with a hash of its fixed data, taken as injective;
  a record is stored under the name it computes.
 */
module Providers {
  import opened Basics
  import Store

  datatype ProviderName = ProviderName(pushType: string, fixedData: string)

  datatype Provider = Provider(name: ProviderName, volatileData: string)

  // ---------- The policy ----------

  /** A name in a service's provider set with the record behind it, if there is one. */
  datatype Entry = Entry(name: ProviderName, provider: Option<Provider>)

  /** The entry is a different provider of the same push service type. */
  predicate Conflicts(e: Entry, psp: Provider) {
    e.provider.Some? && e.provider.value.name.pushType == psp.name.pushType && e.provider.value.name != psp.name
  }

  function SupersededNames(psp: Provider, existing: seq<Entry>): seq<ProviderName> {
    if existing == [] then [] else
    var rest := SupersededNames(psp, existing[..|existing| - 1]);
    var e := existing[|existing| - 1];
    if e.provider.None? || Conflicts(e, psp) then rest + [e.name] else rest
  }

  predicate Refused(psp: Provider, existing: seq<Entry>, replace: bool) {
    !replace && exists i :: 0 <= i < |existing| && Conflicts(existing[i], psp)
  }

  /** supersededProviders. */
  method SupersededProviders(psp: Provider, existing: seq<Entry>, replace: bool) returns (r: Result<seq<ProviderName>>)
    ensures r.Err? <==> Refused(psp, existing, replace)
    ensures r.Ok? ==> r.value == SupersededNames(psp, existing)
  {
    var superseded := [];
    for i := 0 to |existing|
      invariant superseded == SupersededNames(psp, existing[..i])
      invariant !replace ==> forall j :: 0 <= j < i ==> !Conflicts(existing[j], psp)
    {
      var entry := existing[i];
      assert existing[..i + 1][..i] == existing[..i];
      if entry.provider.None? {
        superseded := superseded + [entry.name];
        continue;
      }
      var provider := entry.provider.value;
      if provider.name.pushType != psp.name.pushType {
        continue;
      }
      if provider.name == psp.name {
        continue;
      }
      if !replace {
        assert Conflicts(existing[i], psp);
        return Err;
      }
      superseded := superseded + [entry.name];
    }
    assert existing[..|existing|] == existing;
    r := Ok(superseded);
  }

  /** The entry goes: nothing is behind it, or it conflicts. */
  predicate Goes(e: Entry, psp: Provider, n: ProviderName) {
    e.name == n && (e.provider.None? || Conflicts(e, psp))
  }

  lemma {:induction false} SupersededMeaning(psp: Provider, existing: seq<Entry>, n: ProviderName)
    ensures n in SupersededNames(psp, existing) <==> exists i :: 0 <= i < |existing| && Goes(existing[i], psp, n)
  {
    if existing != [] {
      var init, last := existing[..|existing| - 1], |existing| - 1;
      SupersededMeaning(psp, init, n);
      if i :| 0 <= i < |existing| && Goes(existing[i], psp, n) {
        if i < last {
          assert Goes(init[i], psp, n);
        }
      }
      if n in SupersededNames(psp, init) {
        var i :| 0 <= i < |init| && Goes(init[i], psp, n);
        assert Goes(existing[i], psp, n);
      }
    }
  }

  // ---------- The transaction ----------

  const SET_PROVIDER_ATTEMPTS := 5

  /** How far one attempt of SetPushServiceProviderOfService has got; version is the set's when it was watched. */
  datatype Stage =
    | Waiting
    | Watching(version: nat)
    | Reading(version: nat, names: set<ProviderName>, found: map<ProviderName, Option<Provider>>)
    | Ready(version: nat, superseded: seq<ProviderName>, found: map<ProviderName, Option<Provider>>)

  datatype Client = Client(service: string, psp: Provider, replace: bool, attempts: nat, stage: Stage)

  /** sets is srv-2-psp, versions counts the changes WATCH would notice, records is push.service.provider. */
  datatype World = World(
    sets: map<string, set<ProviderName>>,
    versions: map<string, nat>,
    records: map<ProviderName, Provider>,
    clients: map<nat, Client>)

  datatype Step =
    | Call(id: nat, service: string, psp: Provider, replace: bool)
    | Watch(id: nat)
    | ReadSet(id: nat)
    | ReadRecord(id: nat, name: ProviderName)
    | Decide(id: nat, order: seq<ProviderName>)  // SMEMBERS lists the set in any order
    | Exec(id: nat)
    | RemoveFromService(service: string, name: ProviderName)
    | DropRecord(name: ProviderName)
    | PutRecord(psp: Provider)

  function Names(w: World, service: string): set<ProviderName> {
    Store.Members(w.sets, service)
  }

  function Version(w: World, service: string): nat {
    if service in w.versions then w.versions[service] else 0
  }

  /** A write to a provider set; WATCH notices it only if it changed something. */
  function WriteSet(w: World, service: string, names: set<ProviderName>): World {
    if names == Names(w, service) then w
    else w.(sets := w.sets[service := names], versions := w.versions[service := Version(w, service) + 1])
  }

  function Listing(order: seq<ProviderName>, found: map<ProviderName, Option<Provider>>): seq<Entry>
    requires forall n :: n in order ==> n in found
  {
    seq(|order|, i requires 0 <= i < |order| => Entry(order[i], found[order[i]]))
  }

  function Retry(c: Client): Option<Client> {
    if c.attempts + 1 < SET_PROVIDER_ATTEMPTS then Some(c.(attempts := c.attempts + 1, stage := Waiting)) else None
  }

  predicate Commits(w: World, id: nat) {
    id in w.clients && w.clients[id].stage.Ready? && w.clients[id].stage.version == Version(w, w.clients[id].service)
  }

  /** EXEC: everything queued happens, or, if the watched set has changed, nothing does. */
  function Commit(w: World, id: nat): World
    requires id in w.clients && w.clients[id].stage.Ready?
  {
    var c := w.clients[id];
    var gone := set n | n in c.stage.superseded && n != c.psp.name;
    var w1 := WriteSet(w, c.service, Names(w, c.service) + {c.psp.name} - gone);
    w1.(records := w.records[c.psp.name := c.psp] - gone, clients := w.clients - {id})
  }

  function Apply(w: World, step: Step): World {
    match step
    case Call(id, service, psp, replace) =>
      if id in w.clients then w else w.(clients := w.clients[id := Client(service, psp, replace, 0, Waiting)])
    case Watch(id) =>
      if id !in w.clients || !w.clients[id].stage.Waiting? then w else
      w.(clients := w.clients[id := w.clients[id].(stage := Watching(Version(w, w.clients[id].service)))])
    case ReadSet(id) =>
      if id !in w.clients || !w.clients[id].stage.Watching? then w else
      var c := w.clients[id];
      w.(clients := w.clients[id := c.(stage := Reading(c.stage.version, Names(w, c.service), map[]))])
    case ReadRecord(id, n) =>
      if id !in w.clients || !w.clients[id].stage.Reading? || n !in w.clients[id].stage.names then w else
      var c := w.clients[id];
      var value := if n in w.records then Some(w.records[n]) else None;
      w.(clients := w.clients[id := c.(stage := Reading(c.stage.version, c.stage.names, c.stage.found[n := value]))])
    case Decide(id, order) =>
      if id !in w.clients || !w.clients[id].stage.Reading? then w else
      var c := w.clients[id];
      if ToSet(order) != c.stage.names || c.stage.found.Keys != c.stage.names then w else
      var existing := Listing(order, c.stage.found);
      if Refused(c.psp, existing, c.replace) then w.(clients := w.clients - {id})
      else w.(clients := w.clients[id := c.(stage := Ready(c.stage.version, SupersededNames(c.psp, existing), c.stage.found))])
    case Exec(id) =>
      if id !in w.clients || !w.clients[id].stage.Ready? then w
      else if Commits(w, id) then Commit(w, id)
      else
        var again := Retry(w.clients[id]);
        w.(clients := if again.Some? then w.clients[id := again.value] else w.clients - {id})
    case RemoveFromService(service, n) => WriteSet(w, service, Names(w, service) - {n})
    case DropRecord(n) => w.(records := w.records - {n})
    case PutRecord(psp) => w.(records := w.records[psp.name := psp])
  }

  /** A run from any provider sets, legacy duplicates included. */
  function Reached(sets: map<string, set<ProviderName>>, records: map<ProviderName, Provider>, steps: seq<Step>): World {
    if steps == [] then World(sets, map[], records, map[])
    else Apply(Reached(sets, records, steps[..|steps| - 1]), steps[|steps| - 1])
  }

  ghost predicate NamedRight(records: map<ProviderName, Provider>) {
    forall n :: n in records ==> records[n].name == n
  }

  ghost predicate ClientInv(w: World, c: Client) {
    match c.stage
    case Waiting => true
    case Watching(v) => v <= Version(w, c.service)
    case Reading(v, names, found) =>
      && v <= Version(w, c.service)
      && (v == Version(w, c.service) ==> names == Names(w, c.service))
      && (forall n :: n in found && found[n].Some? ==> found[n].value.name == n)
    case Ready(v, superseded, found) =>
      && v <= Version(w, c.service)
      && (v == Version(w, c.service) ==> found.Keys == Names(w, c.service))
      && (forall n :: n in superseded <==> n in found && Yields(n, found[n], c.psp))
      && (!c.replace ==> forall n :: n in superseded ==> found[n].None?)
  }

  /** A name makes way for psp: nothing was behind it, or it is another provider of the type. */
  predicate Yields(n: ProviderName, behind: Option<Provider>, psp: Provider) {
    behind.None? || (n.pushType == psp.name.pushType && n != psp.name)
  }

  ghost predicate Inv(w: World) {
    NamedRight(w.records) && forall id :: id in w.clients ==> ClientInv(w, w.clients[id])
  }

  lemma SetClientKeepsInv(w: World, id: nat, c: Client)
    requires Inv(w) && ClientInv(w, c)
    ensures Inv(w.(clients := w.clients[id := c]))
  {
  }

  lemma WriteKeepsClients(w: World, service: string, names: set<ProviderName>, c: Client)
    requires ClientInv(w, c)
    ensures ClientInv(WriteSet(w, service, names), c)
  {
  }

  /** The policy, applied to what was read, names exactly what makes way, and without replace only names with nothing behind them. */
  lemma DecisionIsExact(psp: Provider, replace: bool, order: seq<ProviderName>, found: map<ProviderName, Option<Provider>>, n: ProviderName)
    requires forall m :: m in order ==> m in found
    requires forall m :: m in found && found[m].Some? ==> found[m].value.name == m
    ensures n in SupersededNames(psp, Listing(order, found)) <==> n in order && Yields(n, found[n], psp)
    ensures !Refused(psp, Listing(order, found), replace) && !replace && n in SupersededNames(psp, Listing(order, found)) ==> found[n].None?
  {
    var existing := Listing(order, found);
    SupersededMeaning(psp, existing, n);
    if n in order && Yields(n, found[n], psp) {
      var i :| 0 <= i < |order| && order[i] == n;
      assert Goes(existing[i], psp, n);
    }
    if n in SupersededNames(psp, existing) {
      var i :| 0 <= i < |existing| && Goes(existing[i], psp, n);
      assert order[i] == n;
    }
  }

  lemma DecideKeepsInv(w: World, id: nat, order: seq<ProviderName>)
    requires Inv(w)
    ensures Inv(Apply(w, Decide(id, order)))
  {
    var w' := Apply(w, Decide(id, order));
    if w' != w && id in w'.clients {
      var c := w.clients[id];
      assert ClientInv(w, c);
      forall n ensures n in w'.clients[id].stage.superseded <==> n in c.stage.found && Yields(n, c.stage.found[n], c.psp) {
        DecisionIsExact(c.psp, c.replace, order, c.stage.found, n);
        assert n in order <==> n in ToSet(order);
      }
      forall n | n in w'.clients[id].stage.superseded && !c.replace ensures c.stage.found[n].None? {
        DecisionIsExact(c.psp, c.replace, order, c.stage.found, n);
      }
      assert ClientInv(w, w'.clients[id]);
      SetClientKeepsInv(w, id, w'.clients[id]);
    }
  }

  /** The steps a client takes before it decides. */
  lemma ReadingKeepsInv(w: World, step: Step)
    requires Inv(w) && (step.Watch? || step.ReadSet? || step.ReadRecord?)
    ensures Inv(Apply(w, step))
  {
    var w' := Apply(w, step);
    if w' != w {
      assert ClientInv(w, w.clients[step.id]);
      assert ClientInv(w, w'.clients[step.id]);
      SetClientKeepsInv(w, step.id, w'.clients[step.id]);
    }
  }

  lemma ExecKeepsInv(w: World, id: nat)
    requires Inv(w)
    ensures Inv(Apply(w, Exec(id)))
  {
    var w' := Apply(w, Exec(id));
    if id in w.clients && w.clients[id].stage.Ready? {
      if Commits(w, id) {
        CommitKeepsInv(w, id);
      } else if id in w'.clients {
        SetClientKeepsInv(w, id, w'.clients[id]);
      }
    }
  }

  lemma CommitKeepsInv(w: World, id: nat)
    requires Inv(w) && Commits(w, id)
    ensures Inv(Commit(w, id))
  {
    var w' := Commit(w, id);
    var c := w.clients[id];
    var gone := set n | n in c.stage.superseded && n != c.psp.name;
    forall i | i in w'.clients ensures ClientInv(w', w'.clients[i]) {
      WriteKeepsClients(w, c.service, Names(w, c.service) + {c.psp.name} - gone, w.clients[i]);
    }
  }

  lemma InvPreserved(w: World, step: Step)
    requires Inv(w)
    ensures Inv(Apply(w, step))
  {
    match step
    case Decide(id, order) => DecideKeepsInv(w, id, order);
    case Exec(id) => ExecKeepsInv(w, id);
    case Watch(_) => ReadingKeepsInv(w, step);
    case ReadSet(_) => ReadingKeepsInv(w, step);
    case ReadRecord(_, _) => ReadingKeepsInv(w, step);
    case RemoveFromService(service, n) =>
      forall i | i in w.clients ensures ClientInv(Apply(w, step), w.clients[i]) {
        WriteKeepsClients(w, service, Names(w, service) - {n}, w.clients[i]);
      }
    case _ =>
  }

  lemma {:induction false} RunKeepsInv(sets: map<string, set<ProviderName>>, records: map<ProviderName, Provider>, steps: seq<Step>)
    requires NamedRight(records)
    ensures Inv(Reached(sets, records, steps))
  {
    if steps != [] {
      RunKeepsInv(sets, records, steps[..|steps| - 1]);
      InvPreserved(Reached(sets, records, steps[..|steps| - 1]), steps[|steps| - 1]);
    }
  }

  /** The names of one push service type that a service lists. */
  function OfType(w: World, service: string, pushType: string): set<ProviderName> {
    set n | n in Names(w, service) && n.pushType == pushType
  }

  /**
    In every interleaving, right after a successful update the service lists exactly one name of
    the installed type, whatever duplicates there were before, and its record is the one installed.
   */
  lemma UpdateLeavesOne(sets: map<string, set<ProviderName>>, records: map<ProviderName, Provider>, steps: seq<Step>, id: nat)
    requires NamedRight(records) && Commits(Reached(sets, records, steps), id)
    ensures var w := Reached(sets, records, steps);
            var c, w' := w.clients[id], Apply(w, Exec(id));
            && OfType(w', c.service, c.psp.name.pushType) == {c.psp.name}
            && c.psp.name in w'.records && w'.records[c.psp.name] == c.psp
  {
    RunKeepsInv(sets, records, steps);
    var w := Reached(sets, records, steps);
    assert ClientInv(w, w.clients[id]);
  }

  /**
    In every interleaving, exactly what a successful update does to the store: of the service's names
    those stay that had a record when read and are of another type, beside the one installed; the
    names that go lose their records; and nothing else changes, in this service or any other.
   */
  lemma UpdateSparesTheRest(sets: map<string, set<ProviderName>>, records: map<ProviderName, Provider>, steps: seq<Step>, id: nat)
    requires NamedRight(records) && Commits(Reached(sets, records, steps), id)
    ensures var w := Reached(sets, records, steps);
            var c, w' := w.clients[id], Apply(w, Exec(id));
            && (forall n :: n in Names(w, c.service) ==> n in c.stage.found)
            && (forall n :: n in Names(w', c.service) <==>
                  n == c.psp.name || (n in Names(w, c.service) && c.stage.found[n].Some? && n.pushType != c.psp.name.pushType))
            && (forall s :: s != c.service ==> Names(w', s) == Names(w, s))
            && (forall n :: n != c.psp.name ==>
                  if n in Names(w, c.service) && n !in Names(w', c.service) then n !in w'.records
                  else (n in w'.records <==> n in w.records) && (n in w.records ==> w'.records[n] == w.records[n]))
            && c.psp.name in w'.records && w'.records[c.psp.name] == c.psp
  {
    RunKeepsInv(sets, records, steps);
    CommitIsExact(Reached(sets, records, steps), id);
  }

  lemma CommitIsExact(w: World, id: nat)
    requires Inv(w) && Commits(w, id)
    ensures var c, w' := w.clients[id], Commit(w, id);
            && (forall n :: n in Names(w, c.service) ==> n in c.stage.found)
            && (forall n :: n in Names(w', c.service) <==>
                  n == c.psp.name || (n in Names(w, c.service) && c.stage.found[n].Some? && n.pushType != c.psp.name.pushType))
            && (forall s :: s != c.service ==> Names(w', s) == Names(w, s))
            && (forall n :: n != c.psp.name ==>
                  if n in Names(w, c.service) && n !in Names(w', c.service) then n !in w'.records
                  else (n in w'.records <==> n in w.records) && (n in w.records ==> w'.records[n] == w.records[n]))
            && c.psp.name in w'.records && w'.records[c.psp.name] == c.psp
  {
    assert ClientInv(w, w.clients[id]);
  }

  /** In every interleaving, an update that does not ask to replace takes no name off a service that had a record when read. */
  lemma UpdateWithoutReplaceTakesNothing(sets: map<string, set<ProviderName>>, records: map<ProviderName, Provider>, steps: seq<Step>, id: nat)
    requires NamedRight(records) && Commits(Reached(sets, records, steps), id) && !Reached(sets, records, steps).clients[id].replace
    ensures var w := Reached(sets, records, steps);
            var c, w' := w.clients[id], Apply(w, Exec(id));
            forall n :: n in Names(w, c.service) ==> n in c.stage.found && (c.stage.found[n].Some? ==> n in Names(w', c.service))
  {
    RunKeepsInv(sets, records, steps);
    var w := Reached(sets, records, steps);
    assert ClientInv(w, w.clients[id]);
  }

  /** No step of any run adds a name of a type beside another: a type's names shrink, stay, or become one. */
  lemma NeverASecondProvider(sets: map<string, set<ProviderName>>, records: map<ProviderName, Provider>, steps: seq<Step>,
                             step: Step, service: string, pushType: string)
    requires NamedRight(records)
    ensures var w := Reached(sets, records, steps);
            var w' := Apply(w, step);
            || OfType(w', service, pushType) <= OfType(w, service, pushType)
            || exists n :: OfType(w', service, pushType) == {n}
  {
    var w := Reached(sets, records, steps);
    if step.Exec? && Commits(w, step.id) {
      UpdateLeavesOne(sets, records, steps, step.id);
    }
  }

  /** So a service that starts with at most one provider of a type keeps at most one. */
  lemma {:induction false} AtMostOneForever(sets: map<string, set<ProviderName>>, records: map<ProviderName, Provider>, steps: seq<Step>,
                                            service: string, pushType: string)
    requires NamedRight(records)
    requires |OfType(World(sets, map[], records, map[]), service, pushType)| <= 1
    ensures |OfType(Reached(sets, records, steps), service, pushType)| <= 1
  {
    if steps != [] {
      var init, last := steps[..|steps| - 1], steps[|steps| - 1];
      AtMostOneForever(sets, records, init, service, pushType);
      NeverASecondProvider(sets, records, init, last, service, pushType);
      var before, after := OfType(Reached(sets, records, init), service, pushType),
                           OfType(Reached(sets, records, steps), service, pushType);
      if after <= before {
        SubsetIsNoLarger(after, before);
      }
    }
  }

  lemma {:induction false} SubsetIsNoLarger<T>(a: set<T>, b: set<T>)
    requires a <= b
    ensures |a| <= |b|
  {
    var rest := b - a;
    assert b == a + rest && a * rest == {};
  }

  // ---------- An update nobody disturbs ----------

  function ApplyAll(w: World, steps: seq<Step>): World {
    if steps == [] then w else Apply(ApplyAll(w, steps[..|steps| - 1]), steps[|steps| - 1])
  }

  lemma ApplyOneMore(w: World, steps: seq<Step>, step: Step)
    ensures ApplyAll(w, steps + [step]) == Apply(ApplyAll(w, steps), step)
  {
    assert (steps + [step])[..|steps|] == steps;
  }

  function Behind(w: World, n: ProviderName): Option<Provider> {
    if n in w.records then Some(w.records[n]) else None
  }

  /** What a client that reads now finds behind the names of a service. */
  function Found(w: World, names: set<ProviderName>): map<ProviderName, Option<Provider>> {
    map n | n in names :: Behind(w, n)
  }

  function Opening(id: nat, service: string, psp: Provider, replace: bool): seq<Step> {
    [Call(id, service, psp, replace), Watch(id), ReadSet(id)]
  }

  function Reads(id: nat, order: seq<ProviderName>): seq<Step> {
    seq(|order|, i requires 0 <= i < |order| => ReadRecord(id, order[i]))
  }

  /** The client of an undisturbed update, in some stage. */
  function With(w: World, id: nat, service: string, psp: Provider, replace: bool, stage: Stage): World {
    w.(clients := w.clients[id := Client(service, psp, replace, 0, stage)])
  }

  lemma OpeningReads(w: World, id: nat, service: string, psp: Provider, replace: bool)
    requires id !in w.clients
    ensures ApplyAll(w, Opening(id, service, psp, replace)) ==
            With(w, id, service, psp, replace, Reading(Version(w, service), Names(w, service), map[]))
  {
    var call, none := Call(id, service, psp, replace), [];
    ApplyOneMore(w, none, call);
    ApplyOneMore(w, none + [call], Watch(id));
    ApplyOneMore(w, none + [call] + [Watch(id)], ReadSet(id));
    assert Opening(id, service, psp, replace) == none + [call] + [Watch(id)] + [ReadSet(id)];
    OpeningSteps(w, id, service, psp, replace);
  }

  lemma OpeningSteps(w: World, id: nat, service: string, psp: Provider, replace: bool)
    requires id !in w.clients
    ensures Apply(w, Call(id, service, psp, replace)) == With(w, id, service, psp, replace, Waiting)
    ensures Apply(With(w, id, service, psp, replace, Waiting), Watch(id)) == With(w, id, service, psp, replace, Watching(Version(w, service)))
    ensures Apply(With(w, id, service, psp, replace, Watching(Version(w, service))), ReadSet(id)) ==
            With(w, id, service, psp, replace, Reading(Version(w, service), Names(w, service), map[]))
  {
  }

  /** Everything a client does, up to the decision. */
  function Preparation(id: nat, service: string, psp: Provider, replace: bool, order: seq<ProviderName>): seq<Step> {
    Opening(id, service, psp, replace) + Reads(id, order)
  }

  lemma {:induction false} PreparationFinds(w: World, id: nat, service: string, psp: Provider, replace: bool, order: seq<ProviderName>)
    requires id !in w.clients && ToSet(order) <= Names(w, service)
    ensures ApplyAll(w, Preparation(id, service, psp, replace, order)) ==
            With(w, id, service, psp, replace, Reading(Version(w, service), Names(w, service), Found(w, ToSet(order))))
  {
    if order == [] {
      assert Found(w, ToSet(order)) == map[];
      assert Preparation(id, service, psp, replace, order) == Opening(id, service, psp, replace);
      OpeningReads(w, id, service, psp, replace);
    } else {
      var init, last := order[..|order| - 1], order[|order| - 1];
      FoundGrows(w, order);
      PreparationFinds(w, id, service, psp, replace, init);
      assert Preparation(id, service, psp, replace, order) == Preparation(id, service, psp, replace, init) + [ReadRecord(id, last)];
      ApplyOneMore(w, Preparation(id, service, psp, replace, init), ReadRecord(id, last));
      ReadOne(w, id, service, psp, replace, Found(w, ToSet(init)), last);
    }
  }

  lemma FoundGrows(w: World, order: seq<ProviderName>)
    requires order != []
    ensures var init, last := order[..|order| - 1], order[|order| - 1];
            ToSet(init) <= ToSet(order) && last in ToSet(order) && Found(w, ToSet(order)) == Found(w, ToSet(init))[last := Behind(w, last)]
  {
    assert ToSet(order) == ToSet(order[..|order| - 1]) + {order[|order| - 1]};
  }

  lemma ReadOne(w: World, id: nat, service: string, psp: Provider, replace: bool, found: map<ProviderName, Option<Provider>>, n: ProviderName)
    requires n in Names(w, service)
    ensures Apply(With(w, id, service, psp, replace, Reading(Version(w, service), Names(w, service), found)), ReadRecord(id, n)) ==
            With(w, id, service, psp, replace, Reading(Version(w, service), Names(w, service), found[n := Behind(w, n)]))
  {
  }

  lemma DecideThenExec(w: World, id: nat, service: string, psp: Provider, replace: bool, order: seq<ProviderName>)
    requires id !in w.clients && NamedRight(w.records) && ToSet(order) == Names(w, service)
    ensures var w1 := With(w, id, service, psp, replace, Reading(Version(w, service), Names(w, service), Found(w, Names(w, service))));
            var w2 := Apply(w1, Decide(id, order));
            var existing := Listing(order, Found(w, Names(w, service)));
            if Refused(psp, existing, replace) then w2 == w && Apply(w2, Exec(id)) == w
            else Commits(w2, id) && w2.clients[id].psp == psp && w2.clients[id].service == service
                 && w2 == w.(clients := w2.clients) && w2.clients - {id} == w.clients
                 && w2.clients[id].stage.superseded == SupersededNames(psp, existing)
  {
    assert w.clients[id := Client(service, psp, replace, 0, Waiting)] - {id} == w.clients;
    var w1 := With(w, id, service, psp, replace, Reading(Version(w, service), Names(w, service), Found(w, Names(w, service))));
    assert w1.clients - {id} == w.clients;
  }

  /**
    An update that nobody disturbs, in any state, whatever order the set is listed in: it
    is refused, and changes nothing, exactly when it does not replace and another provider of the
    type has a record; otherwise the service lists the installed provider and those of other types
    that have a record.
   */
  lemma UndisturbedUpdate(w: World, id: nat, service: string, psp: Provider, replace: bool, order: seq<ProviderName>)
    requires id !in w.clients && NamedRight(w.records) && ToSet(order) == Names(w, service)
    ensures var w' := ApplyAll(w, Preparation(id, service, psp, replace, order) + [Decide(id, order)] + [Exec(id)]);
            if !replace && exists n :: n in Names(w, service) && n in w.records && n.pushType == psp.name.pushType && n != psp.name
            then w' == w
            else && (forall n :: n in Names(w', service) <==>
                       n == psp.name || (n in Names(w, service) && n in w.records && n.pushType != psp.name.pushType))
                 && psp.name in w'.records && w'.records[psp.name] == psp && w'.clients == w.clients
  {
    ThenDecides(w, id, service, psp, replace, order);
    DecideThenExec(w, id, service, psp, replace, order);
    RefusedMeaning(w, service, psp, replace, order);
    YieldingMeaning(w, service, psp, replace, order);
    var w2 := Apply(Prepared(w, id, service, psp, replace), Decide(id, order));
    if !Refused(psp, Listing(order, Found(w, Names(w, service))), replace) {
      ExecInstalls(w, w2, id);
    }
  }

  /** The EXEC of a client that read the world as it still is. */
  lemma ExecInstalls(w: World, w2: World, id: nat)
    requires Commits(w2, id) && w2 == w.(clients := w2.clients) && w2.clients - {id} == w.clients
    ensures var c, w' := w2.clients[id], Apply(w2, Exec(id));
            && (forall n :: n in Names(w', c.service) <==>
                  n == c.psp.name || (n in Names(w, c.service) && n !in c.stage.superseded))
            && c.psp.name in w'.records && w'.records[c.psp.name] == c.psp && w'.clients == w.clients
  {
  }

  /** The world once everything has been read. */
  function Prepared(w: World, id: nat, service: string, psp: Provider, replace: bool): World {
    With(w, id, service, psp, replace, Reading(Version(w, service), Names(w, service), Found(w, Names(w, service))))
  }

  lemma ThenDecides(w: World, id: nat, service: string, psp: Provider, replace: bool, order: seq<ProviderName>)
    requires id !in w.clients && ToSet(order) == Names(w, service)
    ensures ApplyAll(w, Preparation(id, service, psp, replace, order) + [Decide(id, order)] + [Exec(id)]) ==
            Apply(Apply(Prepared(w, id, service, psp, replace), Decide(id, order)), Exec(id))
  {
    var before := Preparation(id, service, psp, replace, order);
    PreparationFinds(w, id, service, psp, replace, order);
    ApplyOneMore(w, before, Decide(id, order));
    ApplyOneMore(w, before + [Decide(id, order)], Exec(id));
  }

  lemma YieldingMeaning(w: World, service: string, psp: Provider, replace: bool, order: seq<ProviderName>)
    requires NamedRight(w.records) && ToSet(order) == Names(w, service)
    ensures forall n :: n in SupersededNames(psp, Listing(order, Found(w, Names(w, service)))) <==>
              n in Names(w, service) && Yields(n, Behind(w, n), psp)
  {
    forall n ensures n in SupersededNames(psp, Listing(order, Found(w, Names(w, service)))) <==>
                     n in Names(w, service) && Yields(n, Behind(w, n), psp) {
      DecisionIsExact(psp, replace, order, Found(w, Names(w, service)), n);
      assert n in order <==> n in ToSet(order);
    }
  }

  lemma RefusedMeaning(w: World, service: string, psp: Provider, replace: bool, order: seq<ProviderName>)
    requires NamedRight(w.records) && ToSet(order) == Names(w, service)
    ensures Refused(psp, Listing(order, Found(w, Names(w, service))), replace) <==>
              !replace && exists n :: n in Names(w, service) && n in w.records && n.pushType == psp.name.pushType && n != psp.name
  {
    var existing := Listing(order, Found(w, Names(w, service)));
    if n :| n in Names(w, service) && n in w.records && n.pushType == psp.name.pushType && n != psp.name {
      assert n in ToSet(order);
      var i :| 0 <= i < |order| && order[i] == n;
      assert Conflicts(existing[i], psp);
    }
    if i :| 0 <= i < |existing| && Conflicts(existing[i], psp) {
      assert order[i] in ToSet(order);
    }
  }

  // ---------- A contended update ----------

  /** How often the current call of a client has found, at EXEC, that the set had changed. */
  function Failures(sets: map<string, set<ProviderName>>, records: map<ProviderName, Provider>, steps: seq<Step>, id: nat): nat {
    if steps == [] then 0 else
    var init, last := steps[..|steps| - 1], steps[|steps| - 1];
    var w := Reached(sets, records, init);
    if last.Call? && last.id == id && id !in w.clients then 0
    else if last == Exec(id) && id in w.clients && w.clients[id].stage.Ready? && !Commits(w, id) then Failures(sets, records, init, id) + 1
    else Failures(sets, records, init, id)
  }

  lemma {:induction false} AttemptsAreFailures(sets: map<string, set<ProviderName>>, records: map<ProviderName, Provider>, steps: seq<Step>, id: nat)
    requires id in Reached(sets, records, steps).clients
    ensures Reached(sets, records, steps).clients[id].attempts == Failures(sets, records, steps, id)
  {
    if steps != [] {
      var init, last := steps[..|steps| - 1], steps[|steps| - 1];
      if id in Reached(sets, records, init).clients {
        AttemptsAreFailures(sets, records, init, id);
        StepCounts(Reached(sets, records, init), last, id);
      } else {
        StepCalls(Reached(sets, records, init), last, id);
      }
    }
  }

  lemma StepCalls(w: World, step: Step, id: nat)
    requires id !in w.clients && id in Apply(w, step).clients
    ensures step.Call? && step.id == id && Apply(w, step).clients[id].attempts == 0
  {
  }

  lemma StepCounts(w: World, step: Step, id: nat)
    requires id in w.clients && id in Apply(w, step).clients
    ensures Apply(w, step).clients[id].attempts ==
            w.clients[id].attempts + if step == Exec(id) && w.clients[id].stage.Ready? && !Commits(w, id) then 1 else 0
  {
  }

  /** In every interleaving, an update whose EXEC finds the set changed starts over, unless it is the fifth time. */
  lemma GivesUpAtTheFifth(sets: map<string, set<ProviderName>>, records: map<ProviderName, Provider>, steps: seq<Step>, id: nat)
    requires var w := Reached(sets, records, steps); id in w.clients && w.clients[id].stage.Ready? && !Commits(w, id)
    ensures var w := Reached(sets, records, steps);
            var w' := Apply(w, Exec(id));
            && w'.sets == w.sets && w'.records == w.records
            && (id in w'.clients <==> Failures(sets, records, steps, id) < 4)
            && (id in w'.clients ==> w'.clients[id].stage.Waiting?)
  {
    AttemptsAreFailures(sets, records, steps, id);
  }

  // ---------- Deriving a device's provider ----------

  /** serviceProviders: the records behind a listing of the set; a name with none is skipped. */
  function ServiceProviders(order: seq<ProviderName>, records: map<ProviderName, Provider>): seq<Provider> {
    if order == [] then [] else
    var rest := ServiceProviders(order[..|order| - 1], records);
    var n := order[|order| - 1];
    if n in records then rest + [records[n]] else rest
  }

  function Candidates(providers: seq<Provider>, pushType: string): seq<Provider> {
    if providers == [] then [] else
    var rest := Candidates(providers[..|providers| - 1], pushType);
    var p := providers[|providers| - 1];
    if p.name.pushType == pushType then rest + [p] else rest
  }

  /** candidateProviders. */
  method CandidateProviders(providers: seq<Provider>, pushType: string) returns (matches: seq<Provider>)
    ensures matches == Candidates(providers, pushType)
  {
    matches := [];
    for i := 0 to |providers|
      invariant matches == Candidates(providers[..i], pushType)
    {
      assert providers[..i + 1][..i] == providers[..i];
      if providers[i].name.pushType == pushType {
        matches := matches + [providers[i]];
      }
    }
    assert providers[..|providers|] == providers;
  }

  /** The first candidate carrying the bound name; a device with no binding has None. */
  method FindBound(matches: seq<Provider>, bound: Option<ProviderName>) returns (r: Option<Provider>)
    ensures r.Some? ==> r.value in matches && Some(r.value.name) == bound
    ensures r.None? ==> forall p :: p in matches ==> Some(p.name) != bound
  {
    for i := 0 to |matches|
      invariant forall j :: 0 <= j < i ==> Some(matches[j].name) != bound
    {
      if Some(matches[i].name) == bound {
        return Some(matches[i]);
      }
    }
    return None;
  }

  ghost predicate DistinctNames(providers: seq<Provider>) {
    forall p, q :: p in providers && q in providers && p.name == q.name ==> p == q
  }

  /** The provider a device of the type sends through: the only candidate, or the one it is bound to. */
  ghost predicate Serves(providers: set<Provider>, pushType: string, bound: Option<ProviderName>, p: Provider) {
    && p in providers && p.name.pushType == pushType
    && ((forall q :: q in providers && q.name.pushType == pushType ==> q == p) || Some(p.name) == bound)
  }

  lemma {:induction false} CandidatesMeaning(providers: seq<Provider>, pushType: string)
    ensures forall p :: p in Candidates(providers, pushType) <==> p in providers && p.name.pushType == pushType
    ensures |Candidates(providers, pushType)| <= |providers|
  {
    if providers != [] {
      CandidatesMeaning(providers[..|providers| - 1], pushType);
      assert providers == providers[..|providers| - 1] + [providers[|providers| - 1]];
    }
  }

  lemma {:induction false} CandidatesDistinct(providers: seq<Provider>, pushType: string)
    requires Distinct(providers)
    ensures Distinct(Candidates(providers, pushType))
  {
    if providers != [] {
      var init := providers[..|providers| - 1];
      CandidatesDistinct(init, pushType);
      CandidatesMeaning(init, pushType);
    }
  }

  lemma OneCandidateServes(providers: seq<Provider>, pushType: string, bound: Option<ProviderName>, only: Provider)
    requires Candidates(providers, pushType) == [only]
    ensures forall p :: p == only <==> Serves(ToSet(providers), pushType, bound, p)
  {
    CandidatesMeaning(providers, pushType);
    assert forall p :: p in [only] <==> p == only;
  }

  lemma NoCandidateServes(providers: seq<Provider>, pushType: string, bound: Option<ProviderName>)
    requires Candidates(providers, pushType) == []
    ensures forall p :: !Serves(ToSet(providers), pushType, bound, p)
  {
    CandidatesMeaning(providers, pushType);
  }

  /** Among several candidates the binding decides, or nothing does. */
  lemma BoundCandidateServes(providers: seq<Provider>, pushType: string, bound: Option<ProviderName>, p: Provider)
    requires Distinct(providers) && |Candidates(providers, pushType)| > 1
    ensures Serves(ToSet(providers), pushType, bound, p) <==> p in Candidates(providers, pushType) && Some(p.name) == bound
  {
    CandidatesMeaning(providers, pushType);
    CandidatesDistinct(providers, pushType);
    var matches := Candidates(providers, pushType);
    assert matches[0] != matches[1] && matches[0] in matches && matches[1] in matches;
  }

  /**
    resolveProvider: None means the device is skipped. The answer is fixed by the set of
    providers, so it cannot depend on the order an unordered redis set is listed in.
   */
  method ResolveProvider(providers: seq<Provider>, pushType: string, bound: Option<ProviderName>) returns (r: Option<Provider>)
    requires Distinct(providers) && DistinctNames(providers)
    ensures forall p :: r == Some(p) <==> Serves(ToSet(providers), pushType, bound, p)
  {
    var matches := CandidateProviders(providers, pushType);
    if |matches| == 1 {
      OneCandidateServes(providers, pushType, bound, matches[0]);
      return Some(matches[0]);
    }
    if |matches| == 0 {
      NoCandidateServes(providers, pushType, bound);
      return None;
    }
    r := FindBound(matches, bound);
    CandidatesMeaning(providers, pushType);
    forall p ensures r == Some(p) <==> Serves(ToSet(providers), pushType, bound, p) {
      BoundCandidateServes(providers, pushType, bound, p);
    }
  }

  /** resolveProviderForSubscribe: the same choice, with an error where resolveProvider would skip. */
  method ResolveProviderForSubscribe(providers: seq<Provider>, pushType: string, bound: Option<ProviderName>)
    returns (r: Result<Provider>)
    requires Distinct(providers) && DistinctNames(providers)
    ensures forall p :: r == Ok(p) <==> Serves(ToSet(providers), pushType, bound, p)
  {
    if |providers| == 0 {
      return Err;
    }
    var matches := CandidateProviders(providers, pushType);
    if |matches| == 1 {
      OneCandidateServes(providers, pushType, bound, matches[0]);
      return Ok(matches[0]);
    }
    if |matches| == 0 {
      NoCandidateServes(providers, pushType, bound);
      return Err;
    }
    var found := FindBound(matches, bound);
    r := if found.Some? then Ok(found.value) else Err;
    CandidatesMeaning(providers, pushType);
    forall p ensures r == Ok(p) <==> Serves(ToSet(providers), pushType, bound, p) {
      BoundCandidateServes(providers, pushType, bound, p);
    }
  }

  /**
    A subscribe, and a push some time later that lists the same providers in any other order: the
    push sends through the provider the subscribe chose, whose name it wrote as the binding; where
    the subscribe was refused, the push skips the device.
   */
  method SubscribeThenPush(first: seq<Provider>, second: seq<Provider>, pushType: string, before: Option<ProviderName>)
    returns (chosen: Result<Provider>, pushed: Option<Provider>)
    requires Distinct(first) && DistinctNames(first) && Distinct(second) && DistinctNames(second)
    requires ToSet(first) == ToSet(second)
    ensures pushed == if chosen.Ok? then Some(chosen.value) else None
  {
    chosen := ResolveProviderForSubscribe(first, pushType, before);
    var bound := if chosen.Ok? then Some(chosen.value.name) else before;
    pushed := ResolveProvider(second, pushType, bound);
    assert chosen.Ok? ==> Serves(ToSet(second), pushType, bound, chosen.value);
    assert pushed.Some? ==> Serves(ToSet(first), pushType, bound, pushed.value);
  }

  lemma {:induction false} ServiceProvidersMeaning(order: seq<ProviderName>, records: map<ProviderName, Provider>)
    requires NamedRight(records)
    ensures forall p :: p in ServiceProviders(order, records) <==> p.name in order && p.name in records && records[p.name] == p
    ensures Distinct(order) ==> Distinct(ServiceProviders(order, records))
  {
    if order != [] {
      var init := order[..|order| - 1];
      ServiceProvidersMeaning(init, records);
      assert order == init + [order[|order| - 1]];
      if Distinct(order) {
        assert Distinct(init);
      }
    }
  }

  /** serviceProviders: one pass over the names the set lists. */
  method LoadProviders(order: seq<ProviderName>, records: map<ProviderName, Provider>) returns (providers: seq<Provider>)
    ensures providers == ServiceProviders(order, records)
    ensures NamedRight(records) && Distinct(order) ==> Distinct(providers) && DistinctNames(providers)
  {
    providers := [];
    for i := 0 to |order|
      invariant providers == ServiceProviders(order[..i], records)
    {
      assert order[..i + 1][..i] == order[..i];
      if order[i] in records {
        providers := providers + [records[order[i]]];
      }
    }
    assert order[..|order|] == order;
    if NamedRight(records) {
      ServiceProvidersMeaning(order, records);
    }
  }

  /** After a successful update every device of the type resolves to the installed provider, whatever it was bound to. */
  lemma ReplacementServesEveryone(sets: map<string, set<ProviderName>>, records: map<ProviderName, Provider>, steps: seq<Step>, id: nat,
                                  order: seq<ProviderName>, bound: Option<ProviderName>)
    requires NamedRight(records) && Commits(Reached(sets, records, steps), id)
    requires var w := Reached(sets, records, steps);
             ToSet(order) == Names(Apply(w, Exec(id)), w.clients[id].service)
    ensures var w := Reached(sets, records, steps);
            var c, w' := w.clients[id], Apply(w, Exec(id));
            Serves(ToSet(ServiceProviders(order, w'.records)), c.psp.name.pushType, bound, c.psp)
  {
    var w := Reached(sets, records, steps);
    var c, w' := w.clients[id], Apply(w, Exec(id));
    UpdateLeavesOne(sets, records, steps, id);
    RunKeepsInv(sets, records, steps);
    InvPreserved(w, Exec(id));
    ServiceProvidersMeaning(order, w'.records);
    var providers := ServiceProviders(order, w'.records);
    assert c.psp.name in OfType(w', c.service, c.psp.name.pushType);
    assert c.psp.name in ToSet(order);
    forall q | q in providers && q.name.pushType == c.psp.name.pushType ensures q == c.psp {
      assert q.name in ToSet(order);
      assert q.name in OfType(w', c.service, c.psp.name.pushType);
    }
  }
}
