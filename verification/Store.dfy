/**
  The subscription store of db/pushredisdb.go and its subscriber index.

  Redis is a map per key family; a set whose last member goes loses its key. A delivery point
  name is "<type>:<hash of its fixed data>" and the fixed data carry the service and the
  subscriber, so a name determines its type and its one owner; the hash is taken as injective.
 */
module Store {
  datatype Name = Name(pushType: string, service: string, subscriber: string, device: string)

  /** A subscriber of a service: the key of a device set. */
  datatype Sub = Sub(service: string, name: string)

  /** The key of a service's device set for one push service type. */
  datatype TypeKey = TypeKey(service: string, pushType: string)

  function Owner(dp: Name): Sub {
    Sub(dp.service, dp.subscriber)
  }

  // ---------- Redis sets ----------

  function Members<K, V>(m: map<K, set<V>>, k: K): set<V> {
    if k in m then m[k] else {}
  }

  function SAdd<K, V>(m: map<K, set<V>>, k: K, vs: set<V>): map<K, set<V>> {
    m[k := Members(m, k) + vs]
  }

  function SRem<K, V>(m: map<K, set<V>>, k: K, v: V): map<K, set<V>> {
    var left := Members(m, k) - {v};
    if left == {} then m - {k} else m[k := left]
  }

  ghost predicate NoEmptySet<K, V>(m: map<K, set<V>>) {
    forall k :: k in m ==> m[k] != {}
  }

  // ---------- The database ----------

  /** A stored delivery point record: what it decodes to and how the bytes spell it. */
  datatype Raw =
    | Blank
    | Unreadable(bytes: string)
    | Readable(fixedData: map<string, string>, volatileData: map<string, string>, spelling: string)

  datatype Binding = Binding(service: string, dp: Name)

  datatype Db = Db(
    devices: map<Sub, set<Name>>,             // srv.sub-2-dp: the source of truth
    subscribers: map<string, set<string>>,    // srv-2-sub, its members
    typed: map<TypeKey, set<Name>>,           // srv.type-2-dp
    stagedSubscribers: map<string, set<string>>,
    stagedTyped: map<TypeKey, set<Name>>,     // the two under "rebuilding:"
    built: bool,                              // subscriber.index:built
    records: map<Name, Raw>,                  // delivery.point
    bindings: map<Binding, string>)           // srv.dp-2-psp

  /** subscribeScript. */
  function Subscribe(db: Db, x: Sub, dp: Name): Db {
    db.(devices := SAdd(db.devices, x, {dp}),
        subscribers := SAdd(db.subscribers, x.service, {x.name}),
        typed := SAdd(db.typed, TypeKey(x.service, dp.pushType), {dp}))
  }

  /** unsubscribeScript. */
  function Unsubscribe(db: Db, x: Sub, dp: Name): Db {
    var removed := dp in Members(db.devices, x);
    var devices := SRem(db.devices, x, dp);
    db.(devices := devices,
        typed := if removed then SRem(db.typed, TypeKey(x.service, dp.pushType), dp) else db.typed,
        subscribers := if Members(devices, x) == {} then SRem(db.subscribers, x.service, x.name) else db.subscribers)
  }

  predicate Unchanged(db: Db, dp: Name, raw: Raw) {
    dp in db.records && db.records[dp] == raw
  }

  /** removeUnchangedScript: the record still holds the bytes read, or nothing happens. */
  function RemoveUnchanged(db: Db, x: Sub, dp: Name, raw: Raw): Db {
    if !Unchanged(db, dp, raw) then db
    else Unsubscribe(db.(records := db.records - {dp}, bindings := db.bindings - {Binding(x.service, dp)}), x, dp)
  }

  // ---------- Index agreement ----------

  /** Every device set holds only its owner's devices; what deriving names from fixed data gives. */
  ghost predicate Owned(db: Db) {
    forall x, dp :: dp in Members(db.devices, x) ==> Owner(dp) == x
  }

  ghost predicate WellFormed(db: Db) {
    && Owned(db)
    && NoEmptySet(db.devices) && NoEmptySet(db.subscribers) && NoEmptySet(db.typed)
    && NoEmptySet(db.stagedSubscribers) && NoEmptySet(db.stagedTyped)
  }

  ghost predicate SubscriberRight(db: Db, y: Sub) {
    y.name in Members(db.subscribers, y.service) <==> Members(db.devices, y) != {}
  }

  /** Whether dp belongs in the type set k. */
  predicate BelongsIn(db: Db, dp: Name, k: TypeKey) {
    k == TypeKey(dp.service, dp.pushType) && dp in Members(db.devices, Owner(dp))
  }

  ghost predicate DeviceRight(db: Db, dp: Name, k: TypeKey) {
    dp in Members(db.typed, k) <==> BelongsIn(db, dp, k)
  }

  /** Subscriber y is indexed exactly right, in both index types. */
  ghost predicate IndexedRight(db: Db, y: Sub) {
    && SubscriberRight(db, y)
    && forall dp, k :: Owner(dp) == y ==> DeviceRight(db, dp, k)
  }

  /** The whole index is what the subscriber sets say. */
  ghost predicate Agrees(db: Db) {
    forall y :: IndexedRight(db, y)
  }

  /** db and db' look the same from where subscriber y stands. */
  ghost predicate SameFor(db: Db, db': Db, y: Sub) {
    && Members(db'.devices, y) == Members(db.devices, y)
    && (y.name in Members(db'.subscribers, y.service) <==> y.name in Members(db.subscribers, y.service))
    && (forall dp, k :: Owner(dp) == y ==> (dp in Members(db'.typed, k) <==> dp in Members(db.typed, k)))
    && db'.stagedSubscribers == db.stagedSubscribers
    && db'.stagedTyped == db.stagedTyped
  }

  lemma SubscribeSpares(db: Db, x: Sub, dp: Name)
    requires WellFormed(db) && Owner(dp) == x
    ensures WellFormed(Subscribe(db, x, dp))
    ensures forall y :: y != x ==> SameFor(db, Subscribe(db, x, dp), y)
  {
    var db' := Subscribe(db, x, dp);
    forall y, e | e in Members(db'.devices, y) ensures Owner(e) == y {
      assert e in Members(db.devices, y) || (y == x && e == dp);
    }
  }

  lemma SubscribeKeepsRight(db: Db, x: Sub, dp: Name)
    requires WellFormed(db) && Owner(dp) == x && IndexedRight(db, x)
    ensures IndexedRight(Subscribe(db, x, dp), x)
  {
    var db' := Subscribe(db, x, dp);
    forall e, k | Owner(e) == x ensures DeviceRight(db', e, k) {
      assert DeviceRight(db, e, k);
    }
  }

  lemma UnsubscribeSpares(db: Db, x: Sub, dp: Name)
    requires WellFormed(db)
    ensures WellFormed(Unsubscribe(db, x, dp))
    ensures forall y :: y != x ==> SameFor(db, Unsubscribe(db, x, dp), y)
  {
    var db' := Unsubscribe(db, x, dp);
    forall y, e | e in Members(db'.devices, y) ensures Owner(e) == y {
      assert e in Members(db.devices, y) || (y == x && e == dp);
    }
  }

  lemma UnsubscribeKeepsRight(db: Db, x: Sub, dp: Name)
    requires WellFormed(db) && IndexedRight(db, x)
    ensures IndexedRight(Unsubscribe(db, x, dp), x)
  {
    var db' := Unsubscribe(db, x, dp);
    forall e, k | Owner(e) == x ensures DeviceRight(db', e, k) {
      assert DeviceRight(db, e, k);
    }
  }

  /** Unsubscribing a device just subscribed puts the whole database back, index and all. */
  lemma UnsubscribeUndoes(db: Db, x: Sub, dp: Name)
    requires WellFormed(db) && Owner(dp) == x && IndexedRight(db, x) && dp !in Members(db.devices, x)
    ensures Unsubscribe(Subscribe(db, x, dp), x, dp) == db
  {
    assert DeviceRight(db, dp, TypeKey(x.service, dp.pushType));
    RemoveUndoesAdd(db.devices, x, dp);
    RemoveUndoesAdd(db.typed, TypeKey(x.service, dp.pushType), dp);
    if Members(db.devices, x) == {} {
      RemoveUndoesAdd(db.subscribers, x.service, x.name);
    } else {
      assert Members(db.subscribers, x.service) + {x.name} == Members(db.subscribers, x.service);
    }
  }

  lemma RemoveUndoesAdd<K, V>(m: map<K, set<V>>, k: K, v: V)
    requires NoEmptySet(m) && v !in Members(m, k)
    ensures SRem(SAdd(m, k, {v}), k, v) == m
  {
    assert Members(m, k) + {v} - {v} == Members(m, k);
  }

  lemma RemoveUnchangedIsUnsubscribe(db: Db, x: Sub, dp: Name, raw: Raw)
    requires WellFormed(db)
    ensures WellFormed(RemoveUnchanged(db, x, dp, raw))
    ensures forall y :: y != x ==> SameFor(db, RemoveUnchanged(db, x, dp, raw), y)
    ensures IndexedRight(db, x) ==> IndexedRight(RemoveUnchanged(db, x, dp, raw), x)
  {
    if Unchanged(db, dp, raw) {
      var db1 := db.(records := db.records - {dp}, bindings := db.bindings - {Binding(x.service, dp)});
      UnsubscribeSpares(db1, x, dp);
      forall y | y != x ensures SameFor(db, RemoveUnchanged(db, x, dp, raw), y) {
        assert SameFor(db1, Unsubscribe(db1, x, dp), y);
      }
      if IndexedRight(db, x) {
        SameForKeepsRight(db, db1, x);
        UnsubscribeKeepsRight(db1, x, dp);
      }
    }
  }

  lemma SameForKeepsRight(db: Db, db': Db, y: Sub)
    requires SameFor(db, db', y) && IndexedRight(db, y)
    ensures IndexedRight(db', y)
  {
    forall dp, k | Owner(dp) == y ensures DeviceRight(db', dp, k) {
      assert DeviceRight(db, dp, k);
    }
  }
}
