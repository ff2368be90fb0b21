// Reading an immutable store through a cache that may lose, refuse or forget
// anything (shared/cache.go).
module CachedStore {
  import opened Wrappers
  import opened Collections

  newtype byte = x: int | 0 <= x < 256

  type Bytes = seq<byte>

  type Entries = map<string, Bytes>

  // ---- the cache ----

  datatype CacheError = NoRedis | CacheMiss | ReadFailed | SetFailed | WriteAfterClose | NotZipped

  // What may go wrong during one operation.
  datatype Weather = Weather(connected: bool, readsThrough: bool, setWorks: bool, storeWorks: bool)

  class Redis {
    var entries: Entries

    constructor ()
      ensures entries == map[]
    {
      entries := map[];
    }

    // NewReadCloser and ReadAll.
    method Read(key: string, weather: Weather) returns (r: Result<Bytes, CacheError>)
      ensures r == if Readable(entries, key, weather) then Ok(entries[key])
        else Err(if !weather.connected then NoRedis else if key !in entries then CacheMiss else ReadFailed)
    {
      if !weather.connected {
        return Err(NoRedis);
      }
      if key !in entries {
        return Err(CacheMiss);
      }
      if !weather.readsThrough {
        return Err(ReadFailed);
      }
      return Ok(entries[key]);
    }

    // Expiry, eviction, DeleteCache and FlushCache.
    method Forget(keys: set<string>)
      modifies this
      ensures entries == old(entries) - keys
    {
      entries := entries - keys;
    }
  }

  predicate Readable(entries: Entries, key: string, weather: Weather) {
    weather.connected && weather.readsThrough && key in entries
  }

  // redisWriteCloser: nothing reaches the cache before Close, and then all of it.
  class WriteCloser {
    const key: string
    var b: Bytes
    var hasWritten: bool
    var isClosed: bool

    constructor (key: string)
      ensures this.key == key && b == [] && !hasWritten && !isClosed
    {
      this.key, b, hasWritten, isClosed := key, [], false, false;
    }

    method Write(p: Bytes) returns (r: Result<nat, CacheError>)
      modifies this
      ensures hasWritten && isClosed == old(isClosed)
      ensures isClosed ==> r == Err(WriteAfterClose) && b == old(b)
      ensures !isClosed ==> r == Ok(|p|) && b == old(b) + p
    {
      hasWritten := true;
      if isClosed {
        return Err(WriteAfterClose);
      }
      b := b + p;
      return Ok(|p|);
    }

    method Close(redis: Redis, weather: Weather) returns (err: Option<CacheError>)
      modifies this`isClosed, redis
      ensures isClosed
      ensures redis.entries ==
        if hasWritten && CanSet(weather) then old(redis.entries)[key := b] else old(redis.entries)
    {
      isClosed := true;
      if !weather.connected || !hasWritten {
        return None;
      }
      if !weather.setWorks {
        return Some(SetFailed);
      }
      redis.entries := redis.entries[key := b];
      return None;
    }
  }

  predicate CanSet(weather: Weather) {
    weather.connected && weather.setWorks
  }

  // ---- the gzip layer ----

  // How values are written to the cache and read back.
  datatype Codec<!V> = Codec(encode: V -> Bytes, decode: Bytes -> Option<V>)

  ghost predicate RoundTrips<V(!new)>(codec: Codec<V>) {
    forall v :: codec.decode(codec.encode(v)) == Some(v)
  }

  // What stands between the callers and Redis: nothing, or NewGZReadWritable.
  datatype Layer = Bare | Zipped(gzip: Codec<Bytes>)

  ghost predicate Sound(layer: Layer) {
    layer.Zipped? ==> RoundTrips(layer.gzip)
  }

  function Encoded(layer: Layer, data: Bytes): Bytes {
    if layer.Bare? then data else layer.gzip.encode(data)
  }

  function Decoded(layer: Layer, stored: Bytes): Option<Bytes> {
    if layer.Bare? then Some(stored) else layer.gzip.decode(stored)
  }

  lemma ReadsBack(layer: Layer, data: Bytes)
    requires Sound(layer)
    ensures Decoded(layer, Encoded(layer, data)) == Some(data)
  {
  }

  // A read that reaches the caller.
  predicate Hit(layer: Layer, entries: Entries, key: string, weather: Weather) {
    Readable(entries, key, weather) && Decoded(layer, entries[key]).Some?
  }

  method ReadAll(layer: Layer, redis: Redis, key: string, weather: Weather) returns (r: Result<Bytes, CacheError>)
    ensures r.Ok? <==> Hit(layer, redis.entries, key, weather)
    ensures r.Ok? ==> Decoded(layer, redis.entries[key]) == Some(r.value)
  {
    r := redis.Read(key, weather);
    if r.Ok? && layer.Zipped? {
      var data := layer.gzip.decode(r.value);
      r := if data.Some? then Ok(data.value) else Err(NotZipped);
    }
  }

  // compositeReadWriteCloser over a gzip writer: closing it writes at least the
  // header, also when nothing was written.
  class GzipWriter {
    const gzip: Codec<Bytes>
    const w: WriteCloser
    var plain: Bytes

    constructor (gzip: Codec<Bytes>, w: WriteCloser)
      ensures this.gzip == gzip && this.w == w && plain == []
    {
      this.gzip, this.w, plain := gzip, w, [];
    }

    method Write(p: Bytes)
      modifies this`plain
      ensures plain == old(plain) + p
    {
      plain := plain + p;
    }

    method Close(redis: Redis, weather: Weather) returns (err: Option<CacheError>)
      requires w.b == [] && !w.isClosed
      modifies w, redis
      ensures redis.entries ==
        if CanSet(weather) then old(redis.entries)[w.key := gzip.encode(plain)] else old(redis.entries)
    {
      var written := w.Write(gzip.encode(plain));
      assert [] + gzip.encode(plain) == gzip.encode(plain);
      err := w.Close(redis, weather);
    }
  }

  // Opening a writer, copying data to it if there is any or if must is set, and
  // closing it.
  method WriteAll(layer: Layer, redis: Redis, key: string, data: Bytes, must: bool, weather: Weather)
    modifies redis
    ensures redis.entries ==
      if (must || data != [] || layer.Zipped?) && CanSet(weather)
        then old(redis.entries)[key := Encoded(layer, data)] else old(redis.entries)
  {
    var wc := new WriteCloser(key);
    assert [] + data == data;
    match layer
    case Bare =>
      if must || data != [] {
        var _ := wc.Write(data);
      }
      var _ := wc.Close(redis, weather);
    case Zipped(gzip) =>
      var gz := new GzipWriter(gzip, wc);
      if must || data != [] {
        gz.Write(data);
      }
      var _ := gz.Close(redis, weather);
  }

  // ---- the cached store ----

  function FromStore<V>(store: map<string, V>, id: string, weather: Weather): Option<V> {
    if weather.storeWorks then Lookup(store, id) else None
  }

  // What a get through the cache answers, and what it leaves in the cache.
  function CachedAnswer(layer: Layer, entries: Entries, store: Entries, cacheId: string, storeId: string,
                        weather: Weather): Option<Bytes>
  {
    if Hit(layer, entries, cacheId, weather) then Decoded(layer, entries[cacheId])
    else FromStore(store, storeId, weather)
  }

  function EntriesAfter(layer: Layer, entries: Entries, store: Entries, cacheId: string, storeId: string,
                        weather: Weather): Entries
  {
    if Hit(layer, entries, cacheId, weather) then entries
    else match FromStore(store, storeId, weather)
      case None => entries
      case Some(data) => if CanSet(weather) then entries[cacheId := Encoded(layer, data)] else entries
  }

  // byteCachedStore.Get; None is an error of the store.
  method Get(layer: Layer, redis: Redis, store: Entries, cacheId: string, storeId: string, weather: Weather)
    returns (value: Option<Bytes>)
    modifies redis
    ensures value == CachedAnswer(layer, old(redis.entries), store, cacheId, storeId, weather)
    ensures redis.entries == EntriesAfter(layer, old(redis.entries), store, cacheId, storeId, weather)
  {
    var cached := ReadAll(layer, redis, cacheId, weather);
    if cached.Ok? {
      return Some(cached.value);
    }
    if !weather.storeWorks || storeId !in store {
      return None;
    }
    var data := store[storeId];
    WriteAll(layer, redis, cacheId, data, true, weather);
    return Some(data);
  }

  // ---- any sequence of operations ----

  datatype Op =
    | GetOp(cacheId: string, weather: Weather)
    | ForgetOp(keys: set<string>)

  // storeIdOf is how the callers pair cache keys with store ids.
  function EntriesOf(layer: Layer, store: Entries, storeIdOf: string -> string, ops: seq<Op>): Entries {
    if ops == [] then map[] else
      var before, last := EntriesOf(layer, store, storeIdOf, ops[..|ops| - 1]), ops[|ops| - 1];
      match last
      case GetOp(id, weather) => EntriesAfter(layer, before, store, id, storeIdOf(id), weather)
      case ForgetOp(keys) => before - keys
  }

  ghost predicate Faithful(layer: Layer, entries: Entries, store: Entries, storeIdOf: string -> string) {
    forall k | k in entries ::
      storeIdOf(k) in store && Decoded(layer, entries[k]) == Some(store[storeIdOf(k)])
  }

  lemma {:induction false} EntriesAreFaithful(
      layer: Layer, store: Entries, storeIdOf: string -> string, ops: seq<Op>)
    requires Sound(layer)
    ensures Faithful(layer, EntriesOf(layer, store, storeIdOf, ops), store, storeIdOf)
  {
    if ops != [] {
      EntriesAreFaithful(layer, store, storeIdOf, ops[..|ops| - 1]);
    }
  }

  // After any gets, failures and evictions, a get answers what the store would;
  // only when the store fails may it do better.
  lemma {:induction false} CacheIsInvisible(
      layer: Layer, store: Entries, storeIdOf: string -> string, ops: seq<Op>, cacheId: string, weather: Weather)
    requires Sound(layer)
    ensures var entries := EntriesOf(layer, store, storeIdOf, ops);
      var answer := CachedAnswer(layer, entries, store, cacheId, storeIdOf(cacheId), weather);
      && (weather.storeWorks ==> answer == Lookup(store, storeIdOf(cacheId)))
      && (answer.Some? ==> answer == Lookup(store, storeIdOf(cacheId)))
  {
    EntriesAreFaithful(layer, store, storeIdOf, ops);
  }

  predicate Forgets(op: Op, key: string) {
    op.ForgetOp? && key in op.keys
  }

  lemma {:induction false} StaysUntilForgotten(
      layer: Layer, store: Entries, storeIdOf: string -> string, ops: seq<Op>, more: seq<Op>, key: string)
    requires key in EntriesOf(layer, store, storeIdOf, ops)
    requires forall op | op in more :: !Forgets(op, key)
    ensures key in EntriesOf(layer, store, storeIdOf, ops + more)
  {
    if more == [] {
      assert ops + more == ops;
    } else {
      hide Decoded, Encoded, FromStore;
      var front, last := more[..|more| - 1], more[|more| - 1];
      StaysUntilForgotten(layer, store, storeIdOf, ops, front, key);
      var all := ops + more;
      assert all[..|all| - 1] == ops + front && all[|all| - 1] == last && last in more;
      assert key in EntriesOf(layer, store, storeIdOf, all);
    }
  }

  // Once a get has found what it asked for, with a working store and cache, gets
  // that reach the cache answer it even if the store fails, until it is forgotten.
  lemma {:induction false} FoundIsKept(
      layer: Layer, store: Entries, storeIdOf: string -> string, ops: seq<Op>, more: seq<Op>, cacheId: string,
      weather: Weather, later: Weather)
    requires Sound(layer) && storeIdOf(cacheId) in store
    requires weather.storeWorks && weather.connected && weather.setWorks && later.connected && later.readsThrough
    requires forall op | op in more :: !Forgets(op, cacheId)
    ensures var entries := EntriesOf(layer, store, storeIdOf, ops + [GetOp(cacheId, weather)] + more);
      CachedAnswer(layer, entries, map[], cacheId, storeIdOf(cacheId), later) == Some(store[storeIdOf(cacheId)])
  {
    hide Sound, Decoded, Encoded;
    var found := ops + [GetOp(cacheId, weather)];
    assert found[..|found| - 1] == ops;
    assert cacheId in EntriesOf(layer, store, storeIdOf, found);
    StaysUntilForgotten(layer, store, storeIdOf, found, more, cacheId);
    EntriesAreFaithful(layer, store, storeIdOf, found + more);
  }

  // ---- objects, stored as text ----

  function CachedObject<V>(codec: Codec<V>, entries: Entries, cacheId: string, weather: Weather): Option<V> {
    if Readable(entries, cacheId, weather) then codec.decode(entries[cacheId]) else None
  }

  function ObjectAnswer<V>(codec: Codec<V>, entries: Entries, store: map<string, V>, cacheId: string, storeId: string,
                           weather: Weather): Option<V>
  {
    var cached := CachedObject(codec, entries, cacheId, weather);
    if cached.Some? then cached else FromStore(store, storeId, weather)
  }

  function EntriesAfterObject<V>(codec: Codec<V>, entries: Entries, store: map<string, V>, cacheId: string,
                                 storeId: string, weather: Weather): Entries
  {
    var found := FromStore(store, storeId, weather);
    if CachedObject(codec, entries, cacheId, weather).None? && found.Some? && CanSet(weather)
    then entries[cacheId := codec.encode(found.value)] else entries
  }

  // objectCachedStore.Get over a jsonObjectCache.
  method GetObject<V>(codec: Codec<V>, redis: Redis, store: map<string, V>, cacheId: string, storeId: string,
                      weather: Weather) returns (value: Option<V>)
    modifies redis
    ensures value == ObjectAnswer(codec, old(redis.entries), store, cacheId, storeId, weather)
    ensures redis.entries == EntriesAfterObject(codec, old(redis.entries), store, cacheId, storeId, weather)
  {
    var cached := redis.Read(cacheId, weather);
    if cached.Ok? {
      value := codec.decode(cached.value);
      if value.Some? {
        return;
      }
    }
    if !weather.storeWorks || storeId !in store {
      return None;
    }
    WriteAll(Bare, redis, cacheId, codec.encode(store[storeId]), true, weather);
    return Some(store[storeId]);
  }

  function ObjectEntriesOf<V>(codec: Codec<V>, store: map<string, V>, storeIdOf: string -> string, ops: seq<Op>)
    : Entries
  {
    if ops == [] then map[] else
      var before, last := ObjectEntriesOf(codec, store, storeIdOf, ops[..|ops| - 1]), ops[|ops| - 1];
      match last
      case GetOp(id, weather) => EntriesAfterObject(codec, before, store, id, storeIdOf(id), weather)
      case ForgetOp(keys) => before - keys
  }

  lemma {:induction false} ObjectEntriesAreFaithful<V(!new)>(
      codec: Codec<V>, store: map<string, V>, storeIdOf: string -> string, ops: seq<Op>, k: string)
    requires RoundTrips(codec) && k in ObjectEntriesOf(codec, store, storeIdOf, ops)
    ensures storeIdOf(k) in store
    ensures codec.decode(ObjectEntriesOf(codec, store, storeIdOf, ops)[k]) == Some(store[storeIdOf(k)])
  {
    if k in ObjectEntriesOf(codec, store, storeIdOf, ops[..|ops| - 1]) {
      ObjectEntriesAreFaithful(codec, store, storeIdOf, ops[..|ops| - 1], k);
    }
  }

  lemma {:induction false} ObjectStaysOnce<V>(
      codec: Codec<V>, store: map<string, V>, storeIdOf: string -> string, ops: seq<Op>, key: string)
    requires ops != [] && key in ObjectEntriesOf(codec, store, storeIdOf, ops[..|ops| - 1])
    requires !Forgets(ops[|ops| - 1], key)
    ensures key in ObjectEntriesOf(codec, store, storeIdOf, ops)
  {
    hide CachedObject, FromStore;
  }

  lemma {:induction false} ObjectStaysUntilForgotten<V>(
      codec: Codec<V>, store: map<string, V>, storeIdOf: string -> string, ops: seq<Op>, more: seq<Op>, key: string)
    requires key in ObjectEntriesOf(codec, store, storeIdOf, ops)
    requires forall op | op in more :: !Forgets(op, key)
    ensures key in ObjectEntriesOf(codec, store, storeIdOf, ops + more)
  {
    if more == [] {
      assert ops + more == ops;
    } else {
      hide ObjectEntriesOf;
      var front, last := more[..|more| - 1], more[|more| - 1];
      ObjectStaysUntilForgotten(codec, store, storeIdOf, ops, front, key);
      var all := ops + more;
      assert all[..|all| - 1] == ops + front && all[|all| - 1] == last && last in more;
      ObjectStaysOnce(codec, store, storeIdOf, all, key);
    }
  }

  // So it is for objects.
  lemma {:induction false} FoundObjectIsKept<V(!new)>(
      codec: Codec<V>, store: map<string, V>, storeIdOf: string -> string, ops: seq<Op>, more: seq<Op>,
      cacheId: string, weather: Weather, later: Weather)
    requires RoundTrips(codec) && storeIdOf(cacheId) in store
    requires weather.storeWorks && weather.connected && weather.setWorks && later.connected && later.readsThrough
    requires forall op | op in more :: !Forgets(op, cacheId)
    ensures var entries := ObjectEntriesOf(codec, store, storeIdOf, ops + [GetOp(cacheId, weather)] + more);
      ObjectAnswer(codec, entries, map[], cacheId, storeIdOf(cacheId), later) == Some(store[storeIdOf(cacheId)])
  {
    hide RoundTrips;
    var found := ops + [GetOp(cacheId, weather)];
    assert found[..|found| - 1] == ops;
    assert cacheId in ObjectEntriesOf(codec, store, storeIdOf, found);
    ObjectStaysUntilForgotten(codec, store, storeIdOf, found, more, cacheId);
    ObjectEntriesAreFaithful(codec, store, storeIdOf, found + more, cacheId);
  }

  // Objects that survive being written and read back are served as if uncached.
  lemma {:induction false} ObjectCacheIsInvisible<V(!new)>(
      codec: Codec<V>, store: map<string, V>, storeIdOf: string -> string, ops: seq<Op>, cacheId: string,
      weather: Weather)
    requires RoundTrips(codec)
    ensures var answer := ObjectAnswer(codec, ObjectEntriesOf(codec, store, storeIdOf, ops), store, cacheId,
                                       storeIdOf(cacheId), weather);
      && (answer.Some? ==> storeIdOf(cacheId) in store && answer == Some(store[storeIdOf(cacheId)]))
      && (weather.storeWorks && storeIdOf(cacheId) in store ==> answer.Some?)
  {
    if cacheId in ObjectEntriesOf(codec, store, storeIdOf, ops) {
      ObjectEntriesAreFaithful(codec, store, storeIdOf, ops, cacheId);
    }
  }
}
