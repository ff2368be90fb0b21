// Pending test runs and their stages, and the creation of test runs
// (shared/models.go, api/receiver/api.go, api/receiver/create_run.go).
module Receiver {
  import opened Wrappers
  import opened Strings
  import opened Products

  // ---- pending runs ----

  const WPTFYI_RECEIVED := 600
  const WPTFYI_PROCESSING := 700
  const VALID := 800
  const INVALID := 850
  const EMPTY := 851
  const DUPLICATE := 852

  datatype Pending = Pending(
    at: ProductAtRevision, checkRunId: int, uploader: string, error: string, stage: int,
    created: Option<int>, updated: Option<int>)

  const ZERO := Pending(ProductAtRevision(Product("", "", "", ""), "", ""), 0, "", "", 0, None, None)

  const SHORT_LENGTH := 10

  function Short(hash: string): string {
    if |hash| > SHORT_LENGTH then hash[..SHORT_LENGTH] else hash
  }

  function SetIn(was: string, given: string): string {
    if given != "" then given else was
  }

  function SetProduct(p: Product, q: Product): Product {
    Product(SetIn(p.browserName, q.browserName), SetIn(p.browserVersion, q.browserVersion),
            SetIn(p.osName, q.osName), SetIn(p.osVersion, q.osVersion))
  }

  // PendingTestRun.Transition.
  predicate MayTransition(stage: int, next: int) {
    next != 0 && stage <= next
  }

  // What an accepted update makes of a run; the update's own short revision is
  // never used.
  function Updated(run: Pending, newRun: Pending, now: int): Pending {
    var hash := newRun.at.fullRevisionHash;
    Pending(
      ProductAtRevision(
        SetProduct(run.at.product, newRun.at.product),
        if hash != "" then Short(hash) else run.at.revision,
        SetIn(run.at.fullRevisionHash, hash)),
      if newRun.checkRunId != 0 then newRun.checkRunId else run.checkRunId,
      SetIn(run.uploader, newRun.uploader),
      SetIn(run.error, newRun.error),
      if newRun.stage != 0 then newRun.stage else run.stage,
      if run.created.None? then Some(now) else run.created,
      Some(now))
  }

  predicate Accepts(run: Pending, newRun: Pending) {
    newRun.stage == 0 || MayTransition(run.stage, newRun.stage)
  }

  predicate ShortOfFull(run: Pending) {
    run.at.revision == Short(run.at.fullRevisionHash)
  }

  predicate StaysSet(was: string, given: string) {
    was != "" ==> given != ""
  }

  // run' may come after run.
  predicate Follows(run: Pending, run': Pending) {
    && run.stage <= run'.stage
    && StaysSet(run.error, run'.error) && StaysSet(run.uploader, run'.uploader)
    && (run.checkRunId != 0 ==> run'.checkRunId != 0)
    && StaysSet(run.at.product.browserName, run'.at.product.browserName)
    && StaysSet(run.at.product.browserVersion, run'.at.product.browserVersion)
    && StaysSet(run.at.product.osName, run'.at.product.osName)
    && StaysSet(run.at.product.osVersion, run'.at.product.osVersion)
    && StaysSet(run.at.revision, run'.at.revision)
    && StaysSet(run.at.fullRevisionHash, run'.at.fullRevisionHash)
    && (run.created.Some? ==> run'.created == run.created)
    && (run.updated.Some? ==> run'.updated.Some?)
  }

  lemma UpdateFollows(run: Pending, newRun: Pending, now: int)
    requires Accepts(run, newRun)
    ensures Follows(run, Updated(run, newRun, now))
    ensures ShortOfFull(run) ==> ShortOfFull(Updated(run, newRun, now))
  {
  }

  // The text fields of a run, one at a time.
  datatype Field = Uploader | Error | FullRevisionHash | BrowserName | BrowserVersion | OSName | OSVersion

  function Text(run: Pending, f: Field): string {
    match f
    case Uploader => run.uploader
    case Error => run.error
    case FullRevisionHash => run.at.fullRevisionHash
    case BrowserName => run.at.product.browserName
    case BrowserVersion => run.at.product.browserVersion
    case OSName => run.at.product.osName
    case OSVersion => run.at.product.osVersion
  }

  // Each field of an accepted update is taken if it is set, and otherwise left.
  lemma UpdateTakesWhatIsSet(run: Pending, newRun: Pending, now: int, f: Field)
    ensures var updated := Updated(run, newRun, now);
      && (Text(newRun, f) != "" ==> Text(updated, f) == Text(newRun, f))
      && (Text(newRun, f) == "" ==> Text(updated, f) == Text(run, f))
      && (newRun.checkRunId != 0 ==> updated.checkRunId == newRun.checkRunId)
      && (newRun.checkRunId == 0 ==> updated.checkRunId == run.checkRunId)
      && (newRun.at.fullRevisionHash == "" ==> updated.at.revision == run.at.revision)
  {
    match f
    case Uploader =>
    case Error =>
    case FullRevisionHash =>
    case BrowserName =>
    case BrowserVersion =>
    case OSName =>
    case OSVersion =>
  }

  // What any updates in turn make of a run; those refused change nothing.
  function UpdatedBy(run: Pending, updates: seq<(Pending, int)>): Pending {
    if updates == [] then run else
      var was, (newRun, now) := UpdatedBy(run, updates[..|updates| - 1]), updates[|updates| - 1];
      if Accepts(was, newRun) then Updated(was, newRun, now) else was
  }

  // Update i is accepted and sets the field.
  predicate Sets(run: Pending, updates: seq<(Pending, int)>, i: nat, f: Field)
    requires i < |updates|
  {
    Accepts(UpdatedBy(run, updates[..i]), updates[i].0) && Text(updates[i].0, f) != ""
  }

  // The last accepted update that sets a field wins, and without one it stays.
  lemma {:induction false} LastSetWins(run: Pending, updates: seq<(Pending, int)>, i: int, f: Field)
    requires -1 <= i < |updates| && (i >= 0 ==> Sets(run, updates, i, f))
    requires forall j | i < j < |updates| :: !Sets(run, updates, j, f)
    ensures Text(UpdatedBy(run, updates), f) == if i < 0 then Text(run, f) else Text(updates[i].0, f)
  {
    hide Updated, Accepts, Text;
    if updates != [] {
      var n := |updates| - 1;
      UpdateTakesWhatIsSet(UpdatedBy(run, updates[..n]), updates[n].0, updates[n].1, f);
      if i < n {
        forall j | 0 <= j < n ensures Sets(run, updates[..n], j, f) <==> Sets(run, updates, j, f) {
          assert updates[..n][..j] == updates[..j];
        }
        assert !Sets(run, updates, n, f);
        LastSetWins(run, updates[..n], i, f);
      }
    }
  }

  // The highest stage of a run and its updates.
  function HighestStage(stage: int, updates: seq<(Pending, int)>): (highest: int)
    ensures highest >= stage && forall u | u in updates :: highest >= u.0.stage
    ensures highest == stage || exists u :: u in updates && highest == u.0.stage
  {
    if updates == [] then stage else
      var highest, last := HighestStage(stage, updates[..|updates| - 1]), updates[|updates| - 1];
      if last.0.stage > highest then last.0.stage else highest
  }

  // Whatever the order in which updates arrive, the stage is the highest of all.
  lemma {:induction false} StageIsHighest(run: Pending, updates: seq<(Pending, int)>)
    requires run.stage >= 0
    ensures UpdatedBy(run, updates).stage == HighestStage(run.stage, updates)
  {
    if updates != [] {
      StageIsHighest(run, updates[..|updates| - 1]);
    }
  }

  // The buffer that Datastore loads a run into and the update assigns to.
  class PendingTestRun {
    var at: ProductAtRevision
    var checkRunId: int
    var uploader: string
    var error: string
    var stage: int
    var created: Option<int>
    var updated: Option<int>

    constructor (run: Pending)
      ensures Value() == run
    {
      at, checkRunId, uploader, error := run.at, run.checkRunId, run.uploader, run.error;
      stage, created, updated := run.stage, run.created, run.updated;
    }

    function Value(): Pending
      reads this
    {
      Pending(at, checkRunId, uploader, error, stage, created, updated)
    }

    method Transition(next: int) returns (ok: bool)
      modifies this`stage
      ensures ok <==> next != 0 && old(stage) <= next
      ensures stage == if ok then next else old(stage)
    {
      if next == 0 || stage > next {
        return false;
      }
      stage := next;
      return true;
    }

    method MutateProduct(product: Product)
      modifies this`at
      ensures at == old(at).(product := SetProduct(old(at.product), product))
    {
      if product.browserName != "" {
        at := at.(product := at.product.(browserName := product.browserName));
      }
      if product.browserVersion != "" {
        at := at.(product := at.product.(browserVersion := product.browserVersion));
      }
      if product.osName != "" {
        at := at.(product := at.product.(osName := product.osName));
      }
      if product.osVersion != "" {
        at := at.(product := at.product.(osVersion := product.osVersion));
      }
    }

    method MutateRevision(hash: string)
      modifies this`at
      ensures at == if hash == "" then old(at)
        else ProductAtRevision(old(at.product), if |hash| > 10 then hash[..10] else hash, hash)
    {
      if hash != "" {
        if |hash| > SHORT_LENGTH {
          at := at.(revision := hash[..SHORT_LENGTH]);
        } else {
          at := at.(revision := hash);
        }
        at := at.(fullRevisionHash := hash);
      }
    }

    // The mutator of UpdatePendingTestRun.
    method Mutate(newRun: Pending, now: int) returns (ok: bool)
      modifies this
      ensures ok <==> Accepts(old(Value()), newRun)
      ensures ok ==> Value() == Updated(old(Value()), newRun, now)
    {
      if newRun.stage != 0 {
        ok := Transition(newRun.stage);
        if !ok {
          return;
        }
      }
      if newRun.error != "" {
        error := newRun.error;
      }
      if newRun.checkRunId != 0 {
        checkRunId := newRun.checkRunId;
      }
      if newRun.uploader != "" {
        uploader := newRun.uploader;
      }
      MutateProduct(newRun.at.product);
      MutateRevision(newRun.at.fullRevisionHash);
      if created.None? {
        created := Some(now);
      }
      updated := Some(now);
      ok := true;
    }
  }

  // ---- test runs ----

  const FULL_LENGTH := 40

  // A created run, or the payload asking for one.
  datatype Run = Run(at: ProductAtRevision, rawResultsUrl: string, labels: set<string>)

  predicate GoodHashes(at: ProductAtRevision) {
    |at.fullRevisionHash| == FULL_LENGTH && (at.revision != "" ==> HasPrefix(at.fullRevisionHash, at.revision))
  }

  function WithShort(run: Run): Run
    requires GoodHashes(run.at)
  {
    run.(at := run.at.(revision := run.at.fullRevisionHash[..SHORT_LENGTH]))
  }

  // Datastore as the receiver sees it; ids are never handed out again.
  datatype Entities = Entities(pending: map<int, Pending>, runs: map<int, Run>, ids: set<int>)

  function PendingAt(e: Entities, id: int): Pending {
    if id in e.pending then e.pending[id] else ZERO
  }

  function UpdatedAt(e: Entities, id: int, newRun: Pending, now: int): Entities {
    if Accepts(PendingAt(e, id), newRun)
    then e.(pending := e.pending[id := Updated(PendingAt(e, id), newRun, now)])
    else e
  }

  // AddTestRun: a pre-allocated id is inserted, never overwritten; without one
  // Datastore allocates the id fresh.
  function AddedRun(e: Entities, id: int, run: Run, freshId: int): Option<(Entities, int)> {
    if id != 0 then
      if id in e.runs then None else Some((e.(runs := e.runs[id := run], ids := e.ids + {id}), id))
    else Some((e.(runs := e.runs[freshId := run], ids := e.ids + {freshId}), freshId))
  }

  function Received(uploader: string, revision: string): Pending {
    ZERO.(stage := WPTFYI_RECEIVED, uploader := uploader, at := ZERO.at.(fullRevisionHash := revision))
  }

  function Validated(run: Run): Pending {
    ZERO.(stage := VALID, at := run.at)
  }

  datatype Answer = Created(id: int) | BadRequest | Failed

  // The pending run of a created run becomes valid, unless it is past that.
  predicate Settled(before: map<int, Pending>, id: int, payload: Run, after: map<int, Pending>) {
    if id in before && before[id].stage > 800 then after == before else
      && id in after && after == before[id := after[id]] && after[id].stage == 800
      && after[id].at.fullRevisionHash == payload.at.fullRevisionHash
  }

  datatype Task = Task(id: int, uploader: string)

  class Api {
    var pending: map<int, Pending>
    var runs: map<int, Run>
    var ids: set<int>
    var queue: seq<Task>

    function Value(): Entities
      reads this`pending, this`runs, this`ids
    {
      Entities(pending, runs, ids)
    }

    constructor ()
      ensures Value() == Entities(map[], map[], {}) && queue == []
    {
      pending, runs, ids, queue := map[], map[], {}, [];
    }

    // UpdatePendingTestRun: a transaction that writes nothing when it is rejected.
    method UpdatePendingTestRun(id: int, newRun: Pending, now: int) returns (ok: bool)
      modifies this`pending
      ensures Value() == UpdatedAt(old(Value()), id, newRun, now)
      ensures ok <==> Accepts(PendingAt(old(Value()), id), newRun)
    {
      var buffer := new PendingTestRun(if id in pending then pending[id] else ZERO);
      ok := buffer.Mutate(newRun, now);
      if ok {
        pending := pending[id := buffer.Value()];
      }
    }

    // AddTestRun.
    method AddTestRun(id: int, run: Run, freshId: int) returns (key: Option<int>)
      modifies this`runs, this`ids
      ensures var r := AddedRun(old(Value()), id, run, freshId);
        Value() == (if r.Some? then r.value.0 else old(Value())) && key == (if r.Some? then Some(r.value.1) else None)
      ensures key == if id != 0 && id in old(runs) then None else Some(if id != 0 then id else freshId)
      ensures key.None? ==> runs == old(runs) && ids == old(ids)
      ensures key.Some? ==> runs == old(runs)[key.value := run] && ids == old(ids) + {key.value}
    {
      if id != 0 {
        if id in runs {
          return None;
        }
        runs, ids := runs[id := run], ids + {id};
        return Some(id);
      }
      runs, ids := runs[freshId := run], ids + {freshId};
      return Some(freshId);
    }

    // ScheduleResultsTask, with the id that Datastore reserves.
    method ScheduleResultsTask(uploader: string, revision: string, reserved: int, now: int) returns (ok: bool)
      modifies this`pending, this`ids, this`queue
      ensures Value() == UpdatedAt(old(Value()).(ids := old(ids) + {reserved}), reserved,
                                   Received(uploader, revision), now)
      ensures ok <==> Accepts(PendingAt(old(Value()), reserved), Received(uploader, revision))
      ensures queue == if ok then old(queue) + [Task(reserved, uploader)] else old(queue)
      ensures ids == old(ids) + {reserved} && runs == old(runs)
      ensures ok <==> (reserved in old(pending) ==> old(pending)[reserved].stage <= 600)
      ensures !ok ==> pending == old(pending)
      ensures ok ==> pending == old(pending)[reserved := pending[reserved]] && pending[reserved].stage == 600
      ensures ok && uploader != "" ==> pending[reserved].uploader == uploader
      ensures ok && revision != "" ==> pending[reserved].at.fullRevisionHash == revision
    {
      ids := ids + {reserved};
      ok := UpdatePendingTestRun(reserved, Received(uploader, revision), now);
      if ok {
        queue := queue + [Task(reserved, uploader)];
      }
    }

    // HandleResultsCreate; a rejected update of the pending run is not fatal.
    method HandleResultsCreate(id: int, payload: Run, freshId: int, now: int) returns (answer: Answer)
      modifies this`pending, this`runs, this`ids
      ensures answer == BadRequest <==>
        || |payload.at.fullRevisionHash| != 40
        || (payload.at.revision != "" && !HasPrefix(payload.at.fullRevisionHash, payload.at.revision))
      ensures !answer.Created? ==> Value() == old(Value())
      ensures answer == Failed <==> answer != BadRequest && id != 0 && id in old(runs)
      ensures answer.Created? ==> (
        && answer.id == (if id != 0 then id else freshId)
        && runs == old(runs)[answer.id := Run(
             ProductAtRevision(payload.at.product, payload.at.fullRevisionHash[..10], payload.at.fullRevisionHash),
             payload.rawResultsUrl, payload.labels)])
      ensures answer.Created? ==> Settled(old(pending), answer.id, payload, pending)
      ensures GoodHashes(payload.at) ==>
        var run, r := WithShort(payload), AddedRun(old(Value()), id, WithShort(payload), freshId);
        && answer == (if r.None? then Failed else Created(r.value.1))
        && Value() == if r.None? then old(Value()) else UpdatedAt(r.value.0, r.value.1, Validated(run), now)
    {
      if |payload.at.fullRevisionHash| != FULL_LENGTH {
        return BadRequest;
      } else if payload.at.revision != "" && !HasPrefix(payload.at.fullRevisionHash, payload.at.revision) {
        return BadRequest;
      }
      var run := payload.(at := payload.at.(revision := payload.at.fullRevisionHash[..SHORT_LENGTH]));
      var key := AddTestRun(id, run, freshId);
      if key.None? {
        return Failed;
      }
      var _ := UpdatePendingTestRun(key.value, Validated(run), now);
      return Created(key.value);
    }
  }
}
