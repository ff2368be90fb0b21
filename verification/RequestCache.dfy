// Caching whole responses (shared/request_caching.go) over the cache of
// shared/cache.go.
module RequestCache {
  import opened Wrappers
  import opened CachedStore

  const OK := 200
  const SERVER_ERROR := 500

  // What a handler does to its response writer: a write may fail, and then it
  // goes on differently, or the same, or not at all.
  datatype Reply =
    | End
    | Status(status: int, next: Reply)
    | Piece(data: Bytes, next: Reply, failed: Reply)

  type Handler = string -> Reply

  datatype Response = Response(status: int, body: Bytes)

  // ---- a reply, and a client that breaks off ----

  // What the client got, and the status that the caching writer noted: the first
  // one counts for the client, the last one for the writer, and 200 for both from
  // the first write on.
  datatype Exchange = Exchange(response: Response, recorded: int)

  const NOTHING := Exchange(Response(0, []), 0)

  function WithStatus(e: Exchange, status: int): Exchange {
    Exchange(if e.response.status == 0 then e.response.(status := status) else e.response, status)
  }

  function WithData(e: Exchange, data: Bytes): Exchange {
    Exchange(Response(if e.response.status == 0 then OK else e.response.status, e.response.body + data),
             if e.recorded == 0 then OK else e.recorded)
  }

  // The client takes the first n writes; the others fail.
  function RunFrom(p: Reply, n: nat, e: Exchange): Exchange {
    match p
    case End => e
    case Status(status, next) => RunFrom(next, n, WithStatus(e, status))
    case Piece(data, next, failed) =>
      if n > 0 then RunFrom(next, n - 1, WithData(e, data)) else RunFrom(failed, 0, WithData(e, []))
  }

  function Run(p: Reply, n: nat): Exchange {
    RunFrom(p, n, NOTHING)
  }

  // The writes of a reply to a client that takes them all.
  function Writes(p: Reply): nat {
    match p
    case End => 0
    case Status(_, next) => Writes(next)
    case Piece(_, next, _) => 1 + Writes(next)
  }

  function Whole(p: Reply): Exchange {
    Run(p, Writes(p))
  }

  function Final(r: Response): Response {
    if r.status == 0 then r.(status := OK) else r
  }

  function Uncached(p: Reply): Response {
    Final(Whole(p).response)
  }

  lemma {:induction false} EnoughIsAll(p: Reply, n: nat, e: Exchange)
    requires n >= Writes(p)
    ensures RunFrom(p, n, e) == RunFrom(p, Writes(p), e)
  {
    match p
    case End =>
    case Status(status, next) => EnoughIsAll(next, n, WithStatus(e, status));
    case Piece(data, next, failed) => EnoughIsAll(next, n - 1, WithData(e, data));
  }

  // ---- the response writers ----

  // The client's side of the connection; after writesLeft writes it breaks.
  class ResponseWriter {
    var status: int
    var body: Bytes
    var writesLeft: nat

    constructor (writesLeft: nat)
      ensures status == 0 && body == [] && this.writesLeft == writesLeft
    {
      status, body, this.writesLeft := 0, [], writesLeft;
    }

    function Value(): Response
      reads this
    {
      Response(status, body)
    }

    method WriteHeader(statusCode: int)
      modifies this`status
      ensures status == if old(status) == 0 then statusCode else old(status)
    {
      if status == 0 {
        status := statusCode;
      }
    }

    method Write(data: Bytes) returns (ok: bool)
      modifies this
      ensures status == if old(status) == 0 then OK else old(status)
      ensures ok <==> old(writesLeft) > 0
      ensures ok ==> body == old(body) + data && writesLeft == old(writesLeft) - 1
      ensures !ok ==> body == old(body) && writesLeft == 0
    {
      if status == 0 {
        status := OK;
      }
      ok := writesLeft > 0;
      if ok {
        body, writesLeft := body + data, writesLeft - 1;
      }
    }
  }

  // cachingResponseWriter.
  class CachingResponseWriter {
    const delegate: ResponseWriter
    var b: Bytes
    var statusCode: int

    constructor (delegate: ResponseWriter)
      ensures this.delegate == delegate && b == [] && statusCode == 0
    {
      this.delegate, b, statusCode := delegate, [], 0;
    }

    // Client and writer side by side.
    function Value(): Exchange
      reads this, delegate
    {
      Exchange(delegate.Value(), statusCode)
    }

    method Write(data: Bytes) returns (ok: bool)
      modifies this, delegate
      ensures ok <==> old(delegate.writesLeft) > 0
      ensures Value() == WithData(old(Value()), if ok then data else [])
      ensures b == if ok then old(b) + data else old(b)
      ensures delegate.writesLeft == if ok then old(delegate.writesLeft) - 1 else 0
    {
      if statusCode == 0 {
        statusCode := OK;
      }
      ok := delegate.Write(data);
      if ok {
        b := b + data;
      }
    }

    method WriteHeader(status: int)
      modifies this`statusCode, delegate`status
      ensures Value() == WithStatus(old(Value()), status)
    {
      statusCode := status;
      delegate.WriteHeader(status);
    }
  }

  // ---- the handler ----

  // Where responses are kept, and which: keep is shouldCache.
  datatype Cache = Cache(layer: Layer, keep: (int, Bytes) -> bool)

  // CacheStatusOK.
  ghost predicate KeepsOK(c: Cache) {
    forall status, body :: c.keep(status, body) <==> status == OK
  }

  // Copying an empty buffer makes no write, so that only the gzip layer stores it.
  predicate Stores(c: Cache, p: Reply, n: nat) {
    var e := Run(p, n);
    c.keep(e.recorded, e.response.body) && (e.response.body != [] || c.layer.Zipped?)
  }

  function EntriesWith(c: Cache, entries: Entries, key: string, p: Reply, n: nat, weather: Weather): Entries {
    if Stores(c, p, n) && CanSet(weather)
    then entries[key := Encoded(c.layer, Run(p, n).response.body)] else entries
  }

  function EntriesServed(c: Cache, entries: Entries, key: string, p: Reply, n: nat, weather: Weather): Entries {
    if Hit(c.layer, entries, key, weather) then entries else EntriesWith(c, entries, key, p, n, weather)
  }

  // What a client that takes n writes gets.
  function Answer(c: Cache, entries: Entries, key: string, p: Reply, n: nat, weather: Weather): Response {
    if Hit(c.layer, entries, key, weather)
    then Response(OK, if n > 0 then Decoded(c.layer, entries[key]).value else [])
    else Run(p, n).response
  }

  // A body that is to be kept is what the next request gets, whatever the delegate
  // would reply to that one.
  lemma KeptIsServed(c: Cache, entries: Entries, key: string, p: Reply, n: nat, weather: Weather, p': Reply, m: nat,
                     later: Weather)
    requires Sound(c.layer) && key !in entries && Run(p, n).response.body != []
    requires c.keep(Run(p, n).recorded, Run(p, n).response.body)
    requires weather.connected && weather.setWorks && later.connected && later.readsThrough && m > 0
    ensures var after := EntriesServed(c, entries, key, p, n, weather);
      Answer(c, after, key, p', m, later) == Response(200, Run(p, n).response.body) && after - {key} == entries
  {
    ReadsBack(c.layer, Run(p, n).response.body);
  }

  // The delegate, writing straight to the client.
  method Delegate(p: Reply, w: ResponseWriter)
    requires w.Value() == NOTHING.response
    modifies w
    ensures w.Value() == Run(p, old(w.writesLeft)).response
  {
    var rest := p;
    ghost var e := NOTHING;
    while !rest.End?
      invariant w.Value() == e.response
      invariant RunFrom(rest, w.writesLeft, e) == Run(p, old(w.writesLeft))
      decreases rest
    {
      match rest
      case Status(status, next) =>
        w.WriteHeader(status);
        e, rest := WithStatus(e, status), next;
      case Piece(data, next, failed) =>
        var ok := w.Write(data);
        e, rest := WithData(e, if ok then data else []), if ok then next else failed;
    }
  }

  // The delegate, writing through the caching writer.
  method DelegateThrough(p: Reply, cw: CachingResponseWriter)
    requires cw.Value() == NOTHING && cw.b == []
    modifies cw, cw.delegate
    ensures cw.Value() == Run(p, old(cw.delegate.writesLeft)) && cw.b == cw.Value().response.body
  {
    var rest := p;
    while !rest.End?
      invariant cw.b == cw.Value().response.body
      invariant RunFrom(rest, cw.delegate.writesLeft, cw.Value()) == Run(p, old(cw.delegate.writesLeft))
      decreases rest
    {
      match rest
      case Status(status, next) =>
        cw.WriteHeader(status);
        rest := next;
      case Piece(data, next, failed) =>
        var ok := cw.Write(data);
        rest := if ok then next else failed;
    }
  }

  // delegateAndCache.
  method DelegateAndCache(c: Cache, redis: Redis, key: string, p: Reply, w: ResponseWriter, weather: Weather)
    requires w.Value() == NOTHING.response
    modifies redis, w
    ensures w.Value() == Run(p, old(w.writesLeft)).response
    ensures redis.entries == EntriesWith(c, old(redis.entries), key, p, old(w.writesLeft), weather)
  {
    var cw := new CachingResponseWriter(w);
    DelegateThrough(p, cw);
    if !c.keep(cw.statusCode, cw.b) {
      return;
    }
    WriteAll(c.layer, redis, key, cw.b, false, weather);
  }

  // cachingHandler.ServeHTTP.
  method ServeHTTP(c: Cache, redis: Redis, key: string, cacheable: bool, p: Reply, w: ResponseWriter, weather: Weather)
    requires w.Value() == NOTHING.response
    modifies redis, w
    ensures var entries, n := old(redis.entries), old(w.writesLeft);
      && w.Value() == (if cacheable then Answer(c, entries, key, p, n, weather) else Run(p, n).response)
      && redis.entries == (if cacheable then EntriesServed(c, entries, key, p, n, weather) else entries)
  {
    if !cacheable {
      Delegate(p, w);
      return;
    }
    var data := ReadAll(c.layer, redis, key, weather);
    if data.Err? {
      DelegateAndCache(c, redis, key, p, w, weather);
      return;
    }
    var _ := w.Write(data.value);
    assert [] + data.value == data.value;
  }

  // ---- what a client takes of a body ----

  function Taken(p: Reply, n: nat): Bytes {
    match p
    case End => []
    case Status(_, next) => Taken(next, n)
    case Piece(data, next, _) => if n > 0 then data + Taken(next, n - 1) else []
  }

  // Some piece after the first n writes is not empty.
  predicate LosesSome(p: Reply, n: nat) {
    match p
    case End => false
    case Status(_, next) => LosesSome(next, n)
    case Piece(data, next, _) => if n > 0 then LosesSome(next, n - 1) else Pieces(p) > 0
  }

  // The pieces of the body that are not empty.
  function Pieces(p: Reply): nat {
    match p
    case End => 0
    case Status(_, next) => Pieces(next)
    case Piece(data, next, _) => (if data != [] then 1 else 0) + Pieces(next)
  }

  lemma {:induction false} BodyIsTaken(p: Reply, n: nat, e: Exchange)
    ensures RunFrom(p, n, e).response.body == e.response.body + Taken(p, n)
  {
    match p
    case End =>
    case Status(status, next) => BodyIsTaken(next, n, WithStatus(e, status));
    case Piece(data, next, failed) =>
      if n > 0 {
        BodyIsTaken(next, n - 1, WithData(e, data));
        assert e.response.body + data + Taken(next, n - 1) == e.response.body + (data + Taken(next, n - 1));
      } else {
        NothingMore(failed);
        BodyIsTaken(failed, 0, WithData(e, []));
      }
  }

  lemma {:induction false} NothingMore(p: Reply)
    ensures Taken(p, 0) == []
  {
    match p
    case End =>
    case Status(_, next) => NothingMore(next);
    case Piece(_, _, _) =>
  }

  // A client takes the start of the body, all of it if it loses no piece.
  lemma {:induction false} TakesTheStart(p: Reply, n: nat)
    ensures Taken(p, n) <= Taken(p, Writes(p))
    ensures LosesSome(p, n) <==> Taken(p, n) != Taken(p, Writes(p))
    ensures Pieces(p) == 0 <==> Taken(p, Writes(p)) == []
  {
    match p
    case End =>
    case Status(_, next) => TakesTheStart(next, n);
    case Piece(data, next, _) => TakesTheStart(next, if n > 0 then n - 1 else 0);
  }

  lemma TakesOfWhole(p: Reply, n: nat)
    ensures Run(p, n).response.body <= Whole(p).response.body
    ensures LosesSome(p, n) <==> Run(p, n).response.body != Whole(p).response.body
    ensures Pieces(p) == 0 <==> Whole(p).response.body == []
  {
    BodyIsTaken(p, n, NOTHING);
    BodyIsTaken(p, Writes(p), NOTHING);
    TakesTheStart(p, n);
  }

  // A client that takes the writes up to the first piece that is not empty.
  lemma {:induction false} FirstPiece(p: Reply) returns (n: nat)
    requires Pieces(p) > 0
    ensures Taken(p, n) != [] && n <= Writes(p) && (LosesSome(p, n) <==> Pieces(p) > 1)
  {
    match p
    case Status(_, next) => n := FirstPiece(next);
    case Piece(data, next, _) =>
      if data == [] {
        n := FirstPiece(next);
        n := n + 1;
      } else {
        n := 1;
        AllLost(next);
      }
  }

  lemma {:induction false} AllLost(p: Reply)
    ensures LosesSome(p, 0) <==> Pieces(p) > 0
  {
    match p
    case End =>
    case Status(_, next) => AllLost(next);
    case Piece(_, _, _) =>
  }

  // Of a body in two pieces a client may take some and not all.
  lemma TwoBodiesTruncate(p: Reply) returns (n: nat)
    requires Pieces(p) > 1
    ensures n <= Writes(p) && [] < Run(p, n).response.body < Whole(p).response.body
  {
    n := FirstPiece(p);
    BodyIsTaken(p, n, NOTHING);
    TakesOfWhole(p, n);
  }

  // A body in one piece is taken or not.
  lemma {:induction false} OnePieceOrNone(p: Reply, n: nat)
    requires Pieces(p) <= 1 && LosesSome(p, n)
    ensures Taken(p, n) == []
  {
    match p
    case Status(_, next) => OnePieceOrNone(next, n);
    case Piece(data, next, _) =>
      if n > 0 {
        SomePieceLost(next, n - 1);
        OnePieceOrNone(next, n - 1);
      }
  }

  lemma {:induction false} SomePieceLost(p: Reply, n: nat)
    requires LosesSome(p, n)
    ensures Pieces(p) > 0
  {
    match p
    case Status(_, next) => SomePieceLost(next, n);
    case Piece(_, next, _) =>
      if n > 0 {
        SomePieceLost(next, n - 1);
      }
  }

  // ---- any sequence of requests ----

  // A request whose client takes n writes before it breaks off.
  datatype Op =
    | Request(key: string, n: nat, weather: Weather)
    | Forget(keys: set<string>)

  function EntriesOf(c: Cache, handler: Handler, ops: seq<Op>): Entries {
    if ops == [] then map[] else
      var before, last := EntriesOf(c, handler, ops[..|ops| - 1]), ops[|ops| - 1];
      match last
      case Request(key, n, weather) => EntriesServed(c, before, key, handler(key), n, weather)
      case Forget(keys) => before - keys
  }

  // What a client that takes n writes leaves in the cache, if anything, is the
  // uncached response.
  predicate Good(c: Cache, p: Reply, n: nat) {
    Stores(c, p, n) ==> Uncached(p) == Response(OK, Run(p, n).response.body)
  }

  // The response kept is one that the client got with status 200.
  predicate Honest(c: Cache, p: Reply) {
    Stores(c, p, Writes(p)) ==> Uncached(p).status == OK
  }

  predicate AllTake(handler: Handler, ops: seq<Op>, key: string) {
    forall op | op in ops && op.Request? && op.key == key :: op.n >= Writes(handler(key))
  }

  // Every stored body is that of a whole response with status 200, if no client so
  // far left anything else behind.
  lemma {:induction false} OnlyGoodResponsesStored(c: Cache, handler: Handler, ops: seq<Op>, key: string)
    requires Sound(c.layer) && key in EntriesOf(c, handler, ops)
    requires forall op | op in ops && op.Request? && op.key == key :: Good(c, handler(key), op.n)
    ensures var stored := Decoded(c.layer, EntriesOf(c, handler, ops)[key]);
      stored.Some? && Uncached(handler(key)) == Response(OK, stored.value)
  {
    hide Stores, Uncached, Run, Decoded, Encoded, Sound;
    var front, last := ops[..|ops| - 1], ops[|ops| - 1];
    assert forall op | op in front :: op in ops;
    if key in EntriesOf(c, handler, front) {
      OnlyGoodResponsesStored(c, handler, front, key);
    }
    if last.Request? && last.key == key {
      assert last in ops;
      ReadsBack(c.layer, Run(handler(key), last.n).response.body);
    }
  }

  // A client that takes everything gets what it would without the cache.
  ghost predicate Invisible(c: Cache, handler: Handler, key: string, ops: seq<Op>) {
    forall weather, n: nat | n > 0 && n >= Writes(handler(key)) ::
      Final(Answer(c, EntriesOf(c, handler, ops), key, handler(key), n, weather)) == Uncached(handler(key))
  }

  const FINE := Weather(true, true, true, true)

  // Good entries do not show.
  lemma GoodIsInvisible(c: Cache, handler: Handler, key: string, ops: seq<Op>)
    requires var entries := EntriesOf(c, handler, ops); key in entries ==>
      var stored := Decoded(c.layer, entries[key]);
      stored.Some? && Uncached(handler(key)) == Response(OK, stored.value)
    ensures Invisible(c, handler, key, ops)
  {
    var entries, p := EntriesOf(c, handler, ops), handler(key);
    forall weather, n: nat | n > 0 && n >= Writes(p)
      ensures Final(Answer(c, entries, key, p, n, weather)) == Uncached(p)
    {
      EnoughIsAll(p, n, NOTHING);
    }
  }

  // One request that stores the wrong response is enough.
  lemma OneRequestShows(c: Cache, handler: Handler, key: string, n: nat)
    requires Sound(c.layer) && !Good(c, handler(key), n)
    ensures !Invisible(c, handler, key, [Request(key, n, FINE)])
  {
    OneRequestAnswers(c, handler, key, n, Writes(handler(key)) + 1);
  }

  // What is answered after one request that stored something.
  lemma OneRequestAnswers(c: Cache, handler: Handler, key: string, n: nat, m: nat)
    requires Sound(c.layer) && Stores(c, handler(key), n) && m > 0
    ensures Answer(c, EntriesOf(c, handler, [Request(key, n, FINE)]), key, handler(key), m, FINE)
      == Response(OK, Run(handler(key), n).response.body)
  {
    hide Stores, Decoded, Encoded, Sound;
    var ops, body := [Request(key, n, FINE)], Run(handler(key), n).response.body;
    assert ops[..0] == [] && EntriesOf(c, handler, ops[..0]) == map[];
    var entries := EntriesOf(c, handler, ops);
    assert entries == EntriesServed(c, map[], key, handler(key), n, FINE);
    ReadsBack(c.layer, body);
  }

  lemma HonestIsGood(c: Cache, p: Reply, n: nat)
    requires n >= Writes(p)
    ensures Good(c, p, n) <==> Honest(c, p)
  {
    EnoughIsAll(p, n, NOTHING);
  }

  // As long as no client of the key breaks off: whatever the requests, failures
  // and evictions before, the response is the uncached one, exactly when the
  // handler is honest.
  lemma InvisibleIff(c: Cache, handler: Handler, key: string)
    requires Sound(c.layer)
    ensures (forall ops: seq<Op> | AllTake(handler, ops, key) :: Invisible(c, handler, key, ops))
      <==> Honest(c, handler(key))
  {
    var p := handler(key);
    HonestIsGood(c, p, Writes(p));
    if Honest(c, p) {
      forall ops: seq<Op> | AllTake(handler, ops, key) ensures Invisible(c, handler, key, ops) {
        forall op | op in ops && op.Request? && op.key == key ensures Good(c, p, op.n) {
          HonestIsGood(c, p, op.n);
        }
        GoodOpsAreInvisible(c, handler, key, ops);
      }
    } else {
      OneRequestShows(c, handler, key, Writes(p));
      assert AllTake(handler, [Request(key, Writes(p), FINE)], key);
    }
  }

  lemma GoodOpsAreInvisible(c: Cache, handler: Handler, key: string, ops: seq<Op>)
    requires Sound(c.layer)
    requires forall op | op in ops && op.Request? && op.key == key :: Good(c, handler(key), op.n)
    ensures Invisible(c, handler, key, ops)
  {
    if key in EntriesOf(c, handler, ops) {
      OnlyGoodResponsesStored(c, handler, ops, key);
    }
    GoodIsInvisible(c, handler, key, ops);
  }

  // With clients that break off anywhere: exactly when no client, of those that
  // take different parts of the reply, leaves anything but the whole of it.
  lemma InvisibleToBrokenIff(c: Cache, handler: Handler, key: string)
    requires Sound(c.layer)
    ensures (forall ops: seq<Op> :: Invisible(c, handler, key, ops))
      <==> forall n: nat | n <= Writes(handler(key)) :: Good(c, handler(key), n)
  {
    var p := handler(key);
    if forall n: nat | n <= Writes(p) :: Good(c, p, n) {
      forall n: nat ensures Good(c, p, n) {
        if n > Writes(p) {
          EnoughIsAll(p, n, NOTHING);
          assert Good(c, p, Writes(p));
        }
      }
      forall ops: seq<Op> ensures Invisible(c, handler, key, ops) {
        GoodOpsAreInvisible(c, handler, key, ops);
      }
    } else {
      var n: nat :| n <= Writes(p) && !Good(c, p, n);
      OneRequestShows(c, handler, key, n);
    }
  }

  // One request, any reply: what is left is the whole response exactly when
  // nothing is, or its status is 200 and the client missed no piece.
  lemma StoredWholeIff(c: Cache, key: string, p: Reply, n: nat, weather: Weather)
    requires Sound(c.layer) && CanSet(weather)
    ensures var entries := EntriesServed(c, map[], key, p, n, weather);
      (key in entries ==> Decoded(c.layer, entries[key]) == Some(Uncached(p).body) && Uncached(p).status == OK)
        <==> (Stores(c, p, n) ==> Uncached(p).status == OK && !LosesSome(p, n))
  {
    hide Stores;
    ReadsBack(c.layer, Run(p, n).response.body);
    TakesOfWhole(p, n);
  }

  lemma GoodIff(c: Cache, p: Reply, n: nat)
    ensures Good(c, p, n) <==> (Stores(c, p, n) ==> Uncached(p).status == OK && !LosesSome(p, n))
  {
    hide Stores;
    TakesOfWhole(p, n);
  }

  // ---- replies that a failed write does not change ----

  predicate NoStatus(p: Reply) {
    match p
    case End => true
    case Status(_, _) => false
    case Piece(_, next, failed) => NoStatus(next) && NoStatus(failed)
  }

  // A failed write is ignored, or nothing but the body could follow it.
  predicate Steady(p: Reply) {
    match p
    case End => true
    case Status(_, next) => Steady(next)
    case Piece(_, next, failed) => Steady(next) && (failed == next || (NoStatus(next) && NoStatus(failed)))
  }

  predicate SameStatus(e: Exchange, e': Exchange) {
    e.recorded == e'.recorded && e.response.status == e'.response.status
  }

  lemma {:induction false} NoStatusKeeps(p: Reply, n: nat, e: Exchange)
    requires NoStatus(p) && e.recorded != 0 && e.response.status != 0
    ensures SameStatus(RunFrom(p, n, e), e)
  {
    match p
    case End =>
    case Piece(data, next, failed) =>
      if n > 0 {
        NoStatusKeeps(next, n - 1, WithData(e, data));
      } else {
        NoStatusKeeps(failed, 0, WithData(e, []));
      }
  }

  // However much the client takes, the same status is sent and recorded.
  lemma {:induction false} SteadyRecords(p: Reply, n: nat, m: nat, e: Exchange, e': Exchange)
    requires Steady(p) && SameStatus(e, e')
    ensures SameStatus(RunFrom(p, n, e), RunFrom(p, m, e'))
  {
    match p
    case End =>
    case Status(status, next) => SteadyRecords(next, n, m, WithStatus(e, status), WithStatus(e', status));
    case Piece(data, next, failed) =>
      var one, other := WithData(e, if n > 0 then data else []), WithData(e', if m > 0 then data else []);
      var n', m' := if n > 0 then n - 1 else 0, if m > 0 then m - 1 else 0;
      if failed == next {
        SteadyRecords(next, n', m', one, other);
      } else {
        NoStatusKeeps(if n > 0 then next else failed, n', one);
        NoStatusKeeps(if m > 0 then next else failed, m', other);
      }
  }

  // The pieces of body that a reply may have without showing: through the gzip
  // layer an empty body is stored like any other.
  function Spare(layer: Layer): nat {
    if layer.Zipped? then 0 else 1
  }

  lemma SteadyIsGood(c: Cache, p: Reply, n: nat)
    requires KeepsOK(c) && Steady(p)
    requires Stores(c, p, Writes(p)) ==> Uncached(p).status == OK && Pieces(p) <= Spare(c.layer)
    ensures Good(c, p, n)
  {
    hide Uncached;
    SteadyRecords(p, n, Writes(p), NOTHING, NOTHING);
    TakesOfWhole(p, n);
    GoodIff(c, p, n);
    if Stores(c, p, n) && LosesSome(p, n) {
      SomePieceLost(p, n);
      BodyIsTaken(p, n, NOTHING);
      if c.layer.Bare? {
        OnePieceOrNone(p, n);
      }
    }
  }

  lemma SteadyIsNotGood(c: Cache, p: Reply) returns (n: nat)
    requires KeepsOK(c) && Steady(p) && Stores(c, p, Writes(p)) && Pieces(p) > Spare(c.layer)
    ensures n <= Writes(p) && !Good(c, p, n)
  {
    n := 0;
    if c.layer.Bare? {
      n := TwoBodiesTruncate(p);
    }
    AllLost(p);
    TakesOfWhole(p, n);
    SteadyRecords(p, n, Writes(p), NOTHING, NOTHING);
    GoodIff(c, p, n);
  }

  // Handlers that ignore failed writes and keep every 200: exactly when a response
  // kept is a 200, with an empty body, or without the gzip layer in one piece.
  lemma SteadyInvisibleIff(c: Cache, handler: Handler, key: string)
    requires Sound(c.layer) && KeepsOK(c) && Steady(handler(key))
    ensures var p := handler(key);
      (forall ops: seq<Op> :: Invisible(c, handler, key, ops))
        <==> (Stores(c, p, Writes(p)) ==> Uncached(p).status == OK && Pieces(p) <= Spare(c.layer))
  {
    hide Stores, Good, Invisible, Uncached;
    var p := handler(key);
    InvisibleToBrokenIff(c, handler, key);
    GoodIff(c, p, Writes(p));
    if Stores(c, p, Writes(p)) && Pieces(p) > Spare(c.layer) {
      var n := SteadyIsNotGood(c, p);
    } else if Stores(c, p, Writes(p)) ==> Uncached(p).status == OK {
      forall n: nat ensures Good(c, p, n) {
        SteadyIsGood(c, p, n);
      }
    }
  }

  // Such a handler writes its body at once: a client that takes nothing leaves an
  // empty response in the cache, and everybody gets it.
  lemma OnePieceIsEmptied(c: Cache, key: string, data: Bytes, n: nat)
    requires Sound(c.layer) && c.layer.Zipped? && KeepsOK(c) && data != [] && n > 0
    ensures var p := Piece(data, End, End);
      && Steady(p) && Disciplined(p) && Uncached(p) == Response(OK, data)
      && Answer(c, EntriesOf(c, _ => p, [Request(key, 0, FINE)]), key, p, n, FINE) == Response(OK, [])
  {
    var p := Piece(data, End, End);
    assert WithData(NOTHING, data).response.body == data && WithData(NOTHING, []).response.body == [];
    assert Run(p, 0) == RunFrom(End, 0, WithData(NOTHING, []));
    assert Run(p, 1) == RunFrom(End, 0, WithData(NOTHING, data));
    assert Writes(p) == 1 + Writes(End) && NoStatus(End);
    OneRequestAnswers(c, _ => p, key, 0, n);
  }

  // A status is set at most once, before any write.
  predicate Disciplined(p: Reply) {
    if p.Status? then NoStatus(p.next) else NoStatus(p)
  }

  lemma {:induction false} NoStatusRecords(p: Reply, n: nat, e: Exchange)
    requires NoStatus(p) && e.recorded == e.response.status
    ensures RunFrom(p, n, e).recorded == RunFrom(p, n, e).response.status
  {
    match p
    case End =>
    case Piece(data, next, failed) =>
      if n > 0 {
        NoStatusRecords(next, n - 1, WithData(e, data));
      } else {
        NoStatusRecords(failed, 0, WithData(e, []));
      }
  }

  lemma DisciplinedRecords(p: Reply, n: nat)
    requires Disciplined(p)
    ensures Run(p, n).recorded == Run(p, n).response.status
  {
    if p.Status? {
      NoStatusRecords(p.next, n, WithStatus(NOTHING, p.status));
    } else {
      NoStatusRecords(p, n, NOTHING);
    }
  }

  lemma {:induction false} NoStatusIsSteady(p: Reply)
    requires NoStatus(p)
    ensures Steady(p)
  {
    if p.Piece? {
      NoStatusIsSteady(p.next);
    }
  }

  // So a handler that sets its status once, first, is always honest, and is only
  // ever misrepresented by clients that break off from a 200 response.
  lemma DisciplinedIsHonest(c: Cache, handler: Handler, key: string)
    requires Sound(c.layer) && KeepsOK(c) && Disciplined(handler(key))
    ensures Honest(c, handler(key))
    ensures (forall ops: seq<Op> :: Invisible(c, handler, key, ops))
      <==> (Whole(handler(key)).response.status == OK ==> Pieces(handler(key)) <= Spare(c.layer))
  {
    var p := handler(key);
    DisciplinedRecords(p, Writes(p));
    NoStatusIsSteady(if p.Status? then p.next else p);
    TakesOfWhole(p, 0);
    SteadyInvisibleIff(c, handler, key);
  }

  // A handler that sets the status twice is served with the wrong one.
  lemma SecondStatusMisleads(c: Cache, data: Bytes)
    requires KeepsOK(c) && (data != [] || c.layer.Zipped?)
    ensures !Honest(c, Status(SERVER_ERROR, Status(OK, Piece(data, End, End))))
  {
    var last := Piece(data, End, End);
    var e := WithStatus(WithStatus(NOTHING, SERVER_ERROR), OK);
    assert Writes(last) == 1 + Writes(End) && RunFrom(last, 1, e) == RunFrom(End, 0, WithData(e, data));
    assert Writes(Status(SERVER_ERROR, Status(OK, last))) == Writes(Status(OK, last)) == 1;
    assert RunFrom(Status(OK, last), 1, WithStatus(NOTHING, SERVER_ERROR)) == RunFrom(last, 1, e);
    assert WithData(e, data).response.body == data;
  }

  // ---- replies that end in an error when a write fails ----

  // The last status set is an error; refused says that one was set before.
  predicate GivesUp(p: Reply, refused: bool) {
    match p
    case End => refused
    case Status(status, next) => GivesUp(next, status != OK && status != 0)
    case Piece(_, _, failed) => GivesUp(failed, refused)
  }

  predicate Reacts(p: Reply) {
    match p
    case End => true
    case Status(_, next) => Reacts(next)
    case Piece(_, next, failed) => Reacts(next) && GivesUp(failed, false)
  }

  lemma {:induction false} GivenUpIsRefused(p: Reply, refused: bool, e: Exchange)
    requires GivesUp(p, refused) && (refused ==> e.recorded != OK && e.recorded != 0)
    ensures RunFrom(p, 0, e).recorded != OK
  {
    match p
    case End =>
    case Status(status, next) => GivenUpIsRefused(next, status != OK && status != 0, WithStatus(e, status));
    case Piece(_, _, failed) => GivenUpIsRefused(failed, refused, WithData(e, []));
  }

  lemma {:induction false} ReactingRefuses(p: Reply, n: nat, e: Exchange)
    requires Reacts(p) && n < Writes(p)
    ensures RunFrom(p, n, e).recorded != OK
  {
    match p
    case Status(status, next) => ReactingRefuses(next, n, WithStatus(e, status));
    case Piece(data, next, failed) =>
      if n > 0 {
        ReactingRefuses(next, n - 1, WithData(e, data));
      } else {
        GivenUpIsRefused(failed, false, WithData(e, []));
      }
  }

  ghost predicate KeepsOnlyOK(c: Cache) {
    forall status, body :: c.keep(status, body) ==> status == OK
  }

  // Handlers that answer a failed write with an error: exactly when they are
  // honest to clients that do not break off.
  lemma ReactingInvisibleIff(c: Cache, handler: Handler, key: string)
    requires Sound(c.layer) && KeepsOnlyOK(c) && Reacts(handler(key))
    ensures (forall ops: seq<Op> :: Invisible(c, handler, key, ops)) <==> Honest(c, handler(key))
  {
    hide Invisible, Uncached;
    var p := handler(key);
    InvisibleToBrokenIff(c, handler, key);
    HonestIsGood(c, p, Writes(p));
    forall n: nat | n < Writes(p) ensures Good(c, p, n) {
      ReactingRefuses(p, n, NOTHING);
    }
  }

  // ---- the search handler ----

  // shouldCacheSearchResponse: results counts those of a payload, if it is well
  // formed.
  function KeepsSearch(results: Bytes -> Option<nat>): (int, Bytes) -> bool {
    (status, body) => status == OK && results(body).Some? && results(body).value > 0
  }

  // The payload is checked: when no part of a response is well formed, clients that
  // break off do not matter.
  lemma SearchInvisibleIff(layer: Layer, results: Bytes -> Option<nat>, handler: Handler, key: string)
    requires Sound(layer) && (Steady(handler(key)) || Reacts(handler(key)))
    requires forall part | part < Uncached(handler(key)).body :: results(part).None?
    ensures var c := Cache(layer, KeepsSearch(results));
      (forall ops: seq<Op> :: Invisible(c, handler, key, ops)) <==> Honest(c, handler(key))
  {
    hide Invisible;
    var c, p := Cache(layer, KeepsSearch(results)), handler(key);
    if Reacts(p) {
      ReactingInvisibleIff(c, handler, key);
    } else {
      InvisibleToBrokenIff(c, handler, key);
      HonestIsGood(c, p, Writes(p));
      if Honest(c, p) {
        forall n: nat | n <= Writes(p) ensures Good(c, p, n) {
          TakesOfWhole(p, n);
          SteadyRecords(p, n, Writes(p), NOTHING, NOTHING);
        }
      }
    }
  }
}
