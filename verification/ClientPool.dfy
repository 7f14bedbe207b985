/**
  The pooled HTTP clients of srv/apns/http_api/processor.go: GetClient borrows, release gives
  back, a repointed provider supersedes its old client, Finalize shuts everything down.

  GetClient is two critical sections with an unlocked build between them, so a run interleaves
  Begin, Complete, Release and Finalize freely. A *cachedClient is a position in `built`.
 */
module ClientPool {
  import opened Basics

  /** clientCacheKey: the provider's name joined with what decides its destination and trust. */
  datatype Key = Key(provider: string, destination: string)

  /** connected: the client's transport may hold open connections. */
  datatype Client = Client(inFlight: int, retired: bool, connected: bool)

  datatype Pool = Pool(clients: map<Key, nat>, currentKeys: map<string, Key>, generation: nat, built: seq<Client>)

  /** CloseIdleConnections does nothing for a connection in use and arranges nothing for later. */
  function CloseIdle(c: Client): Client {
    if c.inFlight <= 0 then c.(connected := false) else c
  }

  function Update(pool: Pool, id: nat, c: Client): Pool {
    if id < |pool.built| then pool.(built := pool.built[id := c]) else pool
  }

  function Borrow(pool: Pool, id: nat): Pool {
    if id >= |pool.built| then pool
    else Update(pool, id, pool.built[id].(inFlight := pool.built[id].inFlight + 1, connected := true))
  }

  predicate Borrowable(pool: Pool, key: Key) {
    key in pool.clients && pool.clients[key] < |pool.built| && !pool.built[pool.clients[key]].retired
  }

  function Release(pool: Pool, id: nat): Pool {
    if id >= |pool.built| then pool else
    var c := pool.built[id].(inFlight := pool.built[id].inFlight - 1);
    Update(pool, id, if c.retired then CloseIdle(c) else c)
  }

  function RetireSuperseded(pool: Pool, provider: string, key: Key): Pool {
    if provider !in pool.currentKeys || pool.currentKeys[provider] == key then pool else
    var previous := pool.currentKeys[provider];
    if previous !in pool.clients || pool.clients[previous] >= |pool.built| then pool else
    var id := pool.clients[previous];
    Update(pool, id, CloseIdle(pool.built[id].(retired := true))).(clients := pool.clients - {previous})
  }

  /** The second half of GetClient: what the pool becomes, for a build begun in some generation. */
  function Complete(pool: Pool, key: Key, generation: nat): Pool {
    if key in pool.clients then Borrow(pool, pool.clients[key])
    else if pool.generation != generation then pool.(built := pool.built + [Client(1, true, true)])
    else
      var rest := RetireSuperseded(pool, key.provider, key);
      Pool(rest.clients[key := |pool.built|], rest.currentKeys[key.provider := key], rest.generation,
           rest.built + [Client(1, false, true)])
  }

  /** The client that half hands to its caller. */
  function Obtained(pool: Pool, key: Key): nat {
    if key in pool.clients then pool.clients[key] else |pool.built|
  }

  function Finalize(pool: Pool): Pool {
    Pool(map[], map[], pool.generation + 1,
         seq(|pool.built|, i requires 0 <= i < |pool.built| =>
             if i in pool.clients.Values then CloseIdle(pool.built[i].(retired := true)) else pool.built[i]))
  }

  // ---------- Runs ----------

  datatype Build = Build(key: Key, generation: nat)

  /** borrows counts, per client, the release functions handed out and not yet called. */
  datatype World = World(pool: Pool, borrows: multiset<nat>, builds: map<nat, Build>)

  datatype Step =
    | Begin(caller: nat, key: Key)  // tryBorrow: a borrow, or the start of a build
    | Fail(caller: nat)             // the build could not be finished
    | Finish(caller: nat)           // the build is done; take the lock again
    | GiveBack(client: nat)
    | ShutDown

  function Apply(w: World, step: Step): World {
    match step
    case Begin(caller, key) =>
      if caller in w.builds then w
      else if Borrowable(w.pool, key) then
        w.(pool := Borrow(w.pool, w.pool.clients[key]), borrows := w.borrows + multiset{w.pool.clients[key]})
      else w.(builds := w.builds[caller := Build(key, w.pool.generation)])
    case Fail(caller) => w.(builds := w.builds - {caller})
    case Finish(caller) =>
      if caller !in w.builds then w else
      var Build(key, generation) := w.builds[caller];
      World(Complete(w.pool, key, generation), w.borrows + multiset{Obtained(w.pool, key)}, w.builds - {caller})
    case GiveBack(id) =>
      if id !in w.borrows then w
      else w.(pool := Release(w.pool, id), borrows := w.borrows - multiset{id})
    case ShutDown => w.(pool := Finalize(w.pool))
  }

  function Reached(steps: seq<Step>): World {
    if steps == [] then World(Pool(map[], map[], 0, []), multiset{}, map[])
    else Apply(Reached(steps[..|steps| - 1]), steps[|steps| - 1])
  }

  predicate Cached(pool: Pool, id: nat) {
    exists key :: key in pool.clients && pool.clients[key] == id
  }

  ghost predicate KeysInv(pool: Pool) {
    && (forall k :: k in pool.clients <==> k.provider in pool.currentKeys && pool.currentKeys[k.provider] == k)
    && (forall p :: p in pool.currentKeys ==> pool.currentKeys[p].provider == p)
    && (forall k :: k in pool.clients ==> pool.clients[k] < |pool.built|)
    && (forall k, l :: k in pool.clients && l in pool.clients && pool.clients[k] == pool.clients[l] ==> k == l)
  }

  ghost predicate ClientInv(pool: Pool, borrows: multiset<nat>, id: nat)
    requires id < |pool.built|
  {
    var c := pool.built[id];
    && c.inFlight == borrows[id]
    && (Cached(pool, id) <==> !c.retired)
    && (c.connected <==> Cached(pool, id) || c.inFlight > 0)
  }

  ghost predicate Inv(w: World) {
    && KeysInv(w.pool)
    && (forall id: nat :: id < |w.pool.built| ==> ClientInv(w.pool, w.borrows, id))
    && (forall id :: id in w.borrows ==> id < |w.pool.built|)
    && (forall caller :: caller in w.builds ==> w.builds[caller].generation <= w.pool.generation)
  }

  lemma BorrowKeepsInv(w: World, key: Key)
    requires Inv(w) && key in w.pool.clients
    ensures Inv(w.(pool := Borrow(w.pool, w.pool.clients[key]), borrows := w.borrows + multiset{w.pool.clients[key]}))
  {
    var w' := w.(pool := Borrow(w.pool, w.pool.clients[key]), borrows := w.borrows + multiset{w.pool.clients[key]});
    forall id: nat | id < |w'.pool.built| ensures ClientInv(w'.pool, w'.borrows, id) {
      assert ClientInv(w.pool, w.borrows, id);
      assert Cached(w'.pool, id) <==> Cached(w.pool, id);
    }
  }

  lemma ReleaseKeepsInv(w: World, id: nat)
    requires Inv(w) && id in w.borrows
    ensures Inv(Apply(w, GiveBack(id)))
  {
    var w' := Apply(w, GiveBack(id));
    forall i: nat | i < |w'.pool.built| ensures ClientInv(w'.pool, w'.borrows, i) {
      assert ClientInv(w.pool, w.borrows, i);
      assert Cached(w'.pool, i) <==> Cached(w.pool, i);
    }
  }

  /** Superseding removes the provider's cached client, and only it. */
  lemma RetireKeeps(pool: Pool, borrows: multiset<nat>, key: Key)
    requires KeysInv(pool) && key !in pool.clients
    requires forall id: nat :: id < |pool.built| ==> ClientInv(pool, borrows, id)
    ensures var rest := RetireSuperseded(pool, key.provider, key);
            && |rest.built| == |pool.built| && rest.currentKeys == pool.currentKeys && rest.generation == pool.generation
            && rest.clients == (map k | k in pool.clients && k.provider != key.provider :: pool.clients[k])
            && (forall id: nat :: id < |rest.built| ==> ClientInv(rest, borrows, id))
  {
    var rest := RetireSuperseded(pool, key.provider, key);
    forall id: nat | id < |rest.built| ensures ClientInv(rest, borrows, id) {
      assert ClientInv(pool, borrows, id);
      if k :| k in pool.clients && pool.clients[k] == id {
        assert k in rest.clients <==> k.provider != key.provider;
        assert Cached(rest, id) <==> k.provider != key.provider;
      }
    }
  }

  /** A client built for a generation that has ended is retired at birth and never cached. */
  lemma LateBuildKeepsInv(w: World, caller: nat)
    requires Inv(w) && caller in w.builds && w.builds[caller].key !in w.pool.clients
    requires w.builds[caller].generation != w.pool.generation
    ensures Inv(Apply(w, Finish(caller)))
  {
    var w' := Apply(w, Finish(caller));
    var id := |w.pool.built|;
    assert w.borrows[id] == 0;
    assert w'.pool.clients == w.pool.clients;
    forall i: nat | i < |w'.pool.built| ensures ClientInv(w'.pool, w'.borrows, i) {
      assert Cached(w'.pool, i) <==> Cached(w.pool, i);
      if i < id {
        assert ClientInv(w.pool, w.borrows, i);
      }
    }
  }

  lemma CachingKeepsKeys(pool: Pool, borrows: multiset<nat>, key: Key)
    requires KeysInv(pool) && key !in pool.clients
    requires forall id: nat :: id < |pool.built| ==> ClientInv(pool, borrows, id)
    ensures KeysInv(Complete(pool, key, pool.generation))
  {
    RetireKeeps(pool, borrows, key);
  }

  lemma CachingKeepsClients(pool: Pool, borrows: multiset<nat>, key: Key, i: nat)
    requires KeysInv(pool) && key !in pool.clients
    requires forall id: nat :: id < |pool.built| ==> ClientInv(pool, borrows, id)
    requires borrows[|pool.built|] == 0 && i <= |pool.built|
    ensures var pool' := Complete(pool, key, pool.generation);
            |pool'.built| == |pool.built| + 1 && ClientInv(pool', borrows + multiset{|pool.built|}, i)
  {
    RetireKeeps(pool, borrows, key);
    var rest, pool' := RetireSuperseded(pool, key.provider, key), Complete(pool, key, pool.generation);
    if i < |pool.built| {
      assert ClientInv(rest, borrows, i);
      if k :| k in rest.clients && rest.clients[k] == i {
        assert pool'.clients[k] == i;
      }
      assert Cached(pool', i) <==> Cached(rest, i);
    } else {
      assert pool'.clients[key] == i;
    }
  }

  lemma InsertKeepsInv(w: World, caller: nat)
    requires Inv(w) && caller in w.builds && w.builds[caller].key !in w.pool.clients
    requires w.builds[caller].generation == w.pool.generation
    ensures Inv(Apply(w, Finish(caller)))
  {
    var key := w.builds[caller].key;
    assert w.borrows[|w.pool.built|] == 0;
    RetireKeeps(w.pool, w.borrows, key);
    CachingKeepsKeys(w.pool, w.borrows, key);
    forall i: nat | i <= |w.pool.built|
      ensures ClientInv(Complete(w.pool, key, w.pool.generation), w.borrows + multiset{|w.pool.built|}, i)
    {
      CachingKeepsClients(w.pool, w.borrows, key, i);
    }
  }

  lemma FinalizeKeepsInv(w: World)
    requires Inv(w)
    ensures Inv(Apply(w, ShutDown))
  {
    var w' := Apply(w, ShutDown);
    forall i: nat | i < |w'.pool.built| ensures ClientInv(w'.pool, w'.borrows, i) {
      assert ClientInv(w.pool, w.borrows, i);
      assert Cached(w.pool, i) <==> i in w.pool.clients.Values;
    }
  }

  lemma InvPreserved(w: World, step: Step)
    requires Inv(w)
    ensures Inv(Apply(w, step))
  {
    match step
    case Begin(caller, key) =>
      if caller !in w.builds && Borrowable(w.pool, key) { BorrowKeepsInv(w, key); }
    case Fail(caller) =>
    case Finish(caller) =>
      if caller in w.builds {
        var key := w.builds[caller].key;
        if key in w.pool.clients {
          BorrowKeepsInv(w, key);
        } else if w.builds[caller].generation == w.pool.generation {
          InsertKeepsInv(w, caller);
        } else {
          LateBuildKeepsInv(w, caller);
        }
      }
    case GiveBack(id) =>
      if id in w.borrows { ReleaseKeepsInv(w, id); }
    case ShutDown => FinalizeKeepsInv(w);
  }

  lemma {:induction false} RunKeepsInv(steps: seq<Step>)
    ensures Inv(Reached(steps))
  {
    if steps != [] {
      RunKeepsInv(steps[..|steps| - 1]);
      InvPreserved(Reached(steps[..|steps| - 1]), steps[|steps| - 1]);
    }
  }

  /**
    In every interleaving: inFlight is the number of outstanding borrows; no cached client is
    retired and every uncached one is; the cached keys are exactly the values of currentKeys, so
    a provider has at most one client however often it is repointed; and a client holds its
    connections exactly as long as it is cached or borrowed.
   */
  lemma {:induction false} PoolIsSound(steps: seq<Step>)
    ensures var w := Reached(steps);
            && (forall id: nat :: id < |w.pool.built| ==> w.pool.built[id].inFlight == w.borrows[id])
            && (forall id: nat :: id < |w.pool.built| ==> (Cached(w.pool, id) <==> !w.pool.built[id].retired))
            && (forall id: nat :: id < |w.pool.built| ==> (w.pool.built[id].connected <==> Cached(w.pool, id) || id in w.borrows))
    ensures var pool := Reached(steps).pool;
            && pool.clients.Keys == pool.currentKeys.Values
            && (forall k, l :: k in pool.clients && l in pool.clients && k.provider == l.provider ==> k == l)
  {
    RunKeepsInv(steps);
    KeysAreCurrent(Reached(steps).pool);
    ClientsAreSound(Reached(steps));
  }

  lemma KeysAreCurrent(pool: Pool)
    requires KeysInv(pool)
    ensures pool.clients.Keys == pool.currentKeys.Values
  {
    forall k | k in pool.currentKeys.Values ensures k in pool.clients {
      var p :| p in pool.currentKeys && pool.currentKeys[p] == k;
    }
    forall k | k in pool.clients ensures k in pool.currentKeys.Values {
      assert pool.currentKeys[k.provider] == k;
    }
  }

  lemma ClientsAreSound(w: World)
    requires Inv(w)
    ensures forall id: nat :: id < |w.pool.built| ==> w.pool.built[id].inFlight == w.borrows[id]
    ensures forall id: nat :: id < |w.pool.built| ==> (Cached(w.pool, id) <==> !w.pool.built[id].retired)
    ensures forall id: nat :: id < |w.pool.built| ==> (w.pool.built[id].connected <==> Cached(w.pool, id) || id in w.borrows)
  {
    forall id: nat | id < |w.pool.built|
      ensures w.pool.built[id].inFlight == w.borrows[id]
      ensures Cached(w.pool, id) <==> !w.pool.built[id].retired
      ensures w.pool.built[id].connected <==> Cached(w.pool, id) || id in w.borrows
    {
      assert ClientInv(w.pool, w.borrows, id);
    }
  }

  /**
    Shutting down leaks nothing, even to a build it overtook: once Finalize has run, whatever the
    builds begun before it still do, no client is open when the last borrow has been given back.
   */
  lemma {:induction false} ShutdownLeaksNothing(before: seq<Step>, after: seq<Step>)
    requires forall s :: s in after ==> !s.Begin?
    requires Reached(before + [ShutDown] + after).borrows == multiset{}
    ensures forall c :: c in Reached(before + [ShutDown] + after).pool.built ==> !c.connected
  {
    var steps := before + [ShutDown] + after;
    RunKeepsInv(steps);
    NothingCachedAfterShutdown(before, after);
    var w := Reached(steps);
    forall id: nat | id < |w.pool.built| ensures !w.pool.built[id].connected {
      assert ClientInv(w.pool, w.borrows, id);
      assert !Cached(w.pool, id);
    }
  }

  ghost predicate OnlyLateBuilds(w: World) {
    w.pool.clients == map[] && forall caller :: caller in w.builds ==> w.builds[caller].generation < w.pool.generation
  }

  lemma LateBuildsStayLate(w: World, step: Step)
    requires OnlyLateBuilds(w) && !step.Begin?
    ensures OnlyLateBuilds(Apply(w, step))
  {
  }

  lemma {:induction false} NothingCachedAfterShutdown(before: seq<Step>, after: seq<Step>)
    requires forall s :: s in after ==> !s.Begin?
    ensures OnlyLateBuilds(Reached(before + [ShutDown] + after))
  {
    if after == [] {
      ReachedExtends(before, ShutDown);
      assert before + [ShutDown] + after == before + [ShutDown];
      RunKeepsInv(before);
    } else {
      var init, last := after[..|after| - 1], after[|after| - 1];
      assert before + [ShutDown] + after == before + [ShutDown] + init + [last];
      assert last in after;
      NothingCachedAfterShutdown(before, init);
      ReachedExtends(before + [ShutDown] + init, last);
      LateBuildsStayLate(Reached(before + [ShutDown] + init), last);
    }
  }

  lemma ReachedExtends(steps: seq<Step>, step: Step)
    ensures Reached(steps + [step]) == Apply(Reached(steps), step)
  {
    assert (steps + [step])[..|steps|] == steps;
  }

  // ---------- A client is used again ----------

  /** The step takes a cached client of the key out of the cache: another key of its provider is cached, or the processor shuts down. */
  predicate Displaces(w: World, step: Step, key: Key) {
    || step.ShutDown?
    || (step.Finish? && step.caller in w.builds
        && var build := w.builds[step.caller];
           build.key.provider == key.provider && build.key != key && build.generation == w.pool.generation)
  }

  /** No step of the run from steps on takes the key's client away. */
  ghost predicate Undisplaced(steps: seq<Step>, more: seq<Step>, key: Key) {
    more == [] ||
    var init := more[..|more| - 1];
    Undisplaced(steps, init, key) && !Displaces(Reached(steps + init), more[|more| - 1], key)
  }

  lemma FinishCaches(w: World, caller: nat)
    requires Inv(w) && caller in w.builds && w.builds[caller].generation == w.pool.generation
    ensures var key, w' := w.builds[caller].key, Apply(w, Finish(caller));
            key in w'.pool.clients && w'.pool.clients[key] == Obtained(w.pool, key)
  {
  }

  lemma RetireSparesOthers(pool: Pool, provider: string, key: Key, other: Key)
    requires KeysInv(pool) && other in pool.clients && other.provider != provider
    ensures var rest := RetireSuperseded(pool, provider, key); other in rest.clients && rest.clients[other] == pool.clients[other]
  {
  }

  lemma StepKeepsCached(w: World, step: Step, key: Key, id: nat)
    requires Inv(w) && key in w.pool.clients && w.pool.clients[key] == id && !Displaces(w, step, key)
    ensures var w' := Apply(w, step); key in w'.pool.clients && w'.pool.clients[key] == id
  {
    if step.Finish? && step.caller in w.builds {
      var other := w.builds[step.caller].key;
      if other.provider != key.provider {
        RetireSparesOthers(w.pool, other.provider, other, key);
      }
    }
  }

  predicate CachedAs(pool: Pool, key: Key, id: nat) {
    key in pool.clients && pool.clients[key] == id
  }

  lemma NextKeepsCached(steps: seq<Step>, step: Step, key: Key, id: nat)
    requires CachedAs(Reached(steps).pool, key, id) && !Displaces(Reached(steps), step, key)
    ensures CachedAs(Reached(steps + [step]).pool, key, id)
  {
    RunKeepsInv(steps);
    StepKeepsCached(Reached(steps), step, key, id);
    ReachedExtends(steps, step);
  }

  lemma {:induction false} CachedLasts(steps: seq<Step>, more: seq<Step>, key: Key, id: nat)
    requires CachedAs(Reached(steps).pool, key, id) && Undisplaced(steps, more, key)
    ensures CachedAs(Reached(steps + more).pool, key, id)
  {
    if more == [] {
      assert steps + more == steps;
    } else {
      var init := more[..|more| - 1];
      CachedLasts(steps, init, key, id);
      OneMoreKeepsCached(steps, more, key, id);
    }
  }

  lemma OneMoreKeepsCached(steps: seq<Step>, more: seq<Step>, key: Key, id: nat)
    requires more != []
    requires var init := more[..|more| - 1];
             CachedAs(Reached(steps + init).pool, key, id) && !Displaces(Reached(steps + init), more[|more| - 1], key)
    ensures CachedAs(Reached(steps + more).pool, key, id)
  {
    var init, last := more[..|more| - 1], more[|more| - 1];
    NextKeepsCached(steps + init, last, key, id);
    assert steps + init + [last] == steps + more;
  }

  lemma CachedIsBorrowed(w: World, caller: nat, key: Key)
    requires Inv(w) && caller !in w.builds
    ensures var w' := Apply(w, Begin(caller, key));
            if key in w.pool.clients
            then w'.borrows == w.borrows + multiset{w.pool.clients[key]} && w'.builds == w.builds && |w'.pool.built| == |w.pool.built|
            else w'.pool == w.pool && w'.borrows == w.borrows && caller in w'.builds && w'.builds[caller] == Build(key, w.pool.generation)
  {
    if key in w.pool.clients {
      assert ClientInv(w.pool, w.borrows, w.pool.clients[key]);
      assert Cached(w.pool, w.pool.clients[key]);
    }
  }

  /**
    In every interleaving, the client a build obtains while its generation lasts is the one the next
    caller for the same key borrows, with nothing built, until another key of the provider is
    cached or the processor shuts down.
   */
  lemma ClientIsUsedAgain(steps: seq<Step>, caller: nat, more: seq<Step>, again: nat)
    requires caller in Reached(steps).builds && Reached(steps).builds[caller].generation == Reached(steps).pool.generation
    requires Undisplaced(steps + [Finish(caller)], more, Reached(steps).builds[caller].key)
    requires again !in Reached(steps + [Finish(caller)] + more).builds
    ensures var key := Reached(steps).builds[caller].key;
            var w := Reached(steps + [Finish(caller)] + more);
            var w' := Apply(w, Begin(again, key));
            w'.borrows == w.borrows + multiset{Obtained(Reached(steps).pool, key)} && w'.builds == w.builds && |w'.pool.built| == |w.pool.built|
  {
    var key := Reached(steps).builds[caller].key;
    RunKeepsInv(steps);
    FinishCaches(Reached(steps), caller);
    ReachedExtends(steps, Finish(caller));
    CachedLasts(steps + [Finish(caller)], more, key, Obtained(Reached(steps).pool, key));
    RunKeepsInv(steps + [Finish(caller)] + more);
    CachedIsBorrowed(Reached(steps + [Finish(caller)] + more), again, key);
  }

  /** In every interleaving, a caller starts a build exactly when no client of its key is cached, and otherwise borrows the one that is. */
  lemma BuildsOnlyWhatIsMissing(steps: seq<Step>, caller: nat, key: Key)
    requires caller !in Reached(steps).builds
    ensures var w := Reached(steps);
            var w' := Apply(w, Begin(caller, key));
            && (caller in w'.builds <==> key !in w.pool.clients)
            && (key in w.pool.clients ==> w'.borrows == w.borrows + multiset{w.pool.clients[key]})
  {
    RunKeepsInv(steps);
    CachedIsBorrowed(Reached(steps), caller, key);
  }

  // ---------- The processor's own methods ----------

  /** The client cache of HTTPPushRequestProcessor; each method is one critical section of clientsLock. */
  class ClientCache {
    var clients: map<Key, nat>
    var currentKeys: map<string, Key>
    var generation: nat
    var built: seq<Client>

    constructor ()
      ensures View() == Pool(map[], map[], 0, [])
    {
      clients, currentKeys, generation, built := map[], map[], 0, [];
    }

    function View(): Pool
      reads this
    {
      Pool(clients, currentKeys, generation, built)
    }

    ghost predicate Valid()
      reads this
    {
      forall k :: k in clients ==> clients[k] < |built|
    }

    method TryBorrow(key: Key) returns (entry: Option<nat>, gen: nat)
      requires Valid()
      modifies this`built
      ensures Valid() && gen == generation
      ensures entry == if Borrowable(old(View()), key) then Some(clients[key]) else None
      ensures View() == if entry.Some? then Borrow(old(View()), entry.value) else old(View())
    {
      gen := generation;
      if key !in clients || built[clients[key]].retired {
        return None, gen;
      }
      var id := clients[key];
      built := built[id := built[id].(inFlight := built[id].inFlight + 1, connected := true)];
      entry := Some(id);
    }

    /** GetClient from the moment it takes the lock again, with the build done. */
    method FinishBuild(key: Key, gen: nat) returns (id: nat)
      requires Valid()
      modifies this
      ensures Valid()
      ensures View() == Complete(old(View()), key, gen) && id == Obtained(old(View()), key)
    {
      if key in clients {
        id := clients[key];
        built := built[id := built[id].(inFlight := built[id].inFlight + 1, connected := true)];
        return;
      }
      id := |built|;
      if generation != gen {
        built := built + [Client(1, true, true)];
        return;
      }
      RetireSupersededClient(key.provider, key);
      built := built + [Client(1, false, true)];
      clients := clients[key := id];
      currentKeys := currentKeys[key.provider := key];
    }

    method RetireSupersededClient(provider: string, key: Key)
      requires Valid()
      modifies this`built, this`clients
      ensures Valid() && |built| == old(|built|)
      ensures View() == RetireSuperseded(old(View()), provider, key)
    {
      if provider !in currentKeys || currentKeys[provider] == key {
        return;
      }
      var previous := currentKeys[provider];
      if previous !in clients {
        return;
      }
      var id := clients[previous];
      built := built[id := built[id].(retired := true)];
      clients := clients - {previous};
      if built[id].inFlight <= 0 {
        built := built[id := CloseIdle(built[id])];
      }
    }

    method Return(id: nat)
      requires Valid() && id < |built|
      modifies this`built
      ensures Valid()
      ensures View() == Release(old(View()), id)
    {
      built := built[id := built[id].(inFlight := built[id].inFlight - 1)];
      if built[id].retired && built[id].inFlight <= 0 {
        built := built[id := CloseIdle(built[id])];
      }
    }

    method Shutdown()
      requires Valid()
      modifies this
      ensures Valid()
      ensures View() == Finalize(old(View()))
    {
      ghost var all, was, closed: set<nat> := clients, built, {};
      while clients != map[]
        invariant |built| == |was| && closed <= all.Values && generation == old(generation)
        invariant forall k :: k in clients ==> k in all && clients[k] == all[k] && clients[k] < |was|
        invariant forall k :: k in all && k !in clients ==> all[k] in closed
        invariant forall i: nat :: i < |was| ==> built[i] == Closed(was[i], i in closed)
        decreases clients.Keys
      {
        var key :| key in clients;
        var id := clients[key];
        built := built[id := CloseIdle(built[id].(retired := true))];
        closed := closed + {id};
        clients := clients - {key};
      }
      assert closed == all.Values;
      currentKeys := map[];
      generation := generation + 1;
      assert built == Finalize(Pool(all, map[], 0, was)).built;
    }
  }

  function Closed(c: Client, shut: bool): Client {
    if shut then CloseIdle(c.(retired := true)) else c
  }
}
