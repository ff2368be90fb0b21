// The results protocol: upload, process with retries, create. Any number of
// processors and handlers interleave, die and retry over one Datastore
// (api/receiver/api.go, api/receiver/create_run.go, results-processor/main.py,
// results-processor/processor.py).
module ReceiverProtocol {
  import opened Wrappers
  import opened Products
  import opened Receiver

  // Where a processor is in process_report.
  datatype Phase =
    | Idle
    | Started(task: Task)
    | Loaded(task: Task, payload: Run)
    | Uploaded(task: Task, payload: Run)
    | Creating(task: Task, payload: Run)
    | Ended(task: Task)

  // A request to create a run, still under way after its processor has died.
  datatype Request = Request(task: Task, payload: Run)

  // serial: the processors share the lock of _serial_task; prompt: no request
  // outlives its processor.
  datatype Mode = Mode(serial: bool, prompt: bool)

  const LOCKED := Mode(true, true)

  // validating holds the runs that HandleResultsCreate has inserted and whose
  // pending run it has still to update.
  datatype State = State(
    entities: Entities, queue: set<Task>, workers: map<int, Phase>, lock: Option<int>, validating: map<int, Run>,
    requests: set<Request>)

  // How far an upload gets before its handler dies.
  datatype Reach = Reserved | Noted | Queued

  // What update_status sends: lost, or received and possibly rejected.
  datatype Status = Lost | Sent(error: string, at: ProductAtRevision)

  datatype Action =
    | Upload(id: int, uploader: string, revision: string, reach: Reach)
    | Resubmit(uploader: string)
    | Start(worker: int, task: Task)
    | Announce(worker: int, status: Status)
    | NoResults(worker: int, status: Status)
    | BadReport(worker: int, status: Status)
    | Load(worker: int, payload: Run)
    | FindExisting(worker: int, status: Status)
    | FindNothing(worker: int)
    | Create(worker: int, id: int)
    | Validate(id: int)
    | HandlerDies(id: int)
    | Finish(worker: int)
    | Crash(worker: int)
    | Orphan(worker: int)
    | LateCreate(request: Request, id: int)

  const START := State(Entities(map[], map[], {}), {}, map[], None, map[], {})

  function PhaseOf(s: State, w: int): Phase {
    if w in s.workers then s.workers[w] else Idle
  }

  predicate Exists(s: State, url: string) {
    exists id :: id in s.entities.runs && s.entities.runs[id].rawResultsUrl == url
  }

  // ---- steps ----

  predicate Enabled(mode: Mode, s: State, a: Action) {
    match a
    case Upload(id, uploader, revision, reach) => id > 0 && id !in s.entities.ids
    case Resubmit(uploader) => true
    case Start(w, task) => task in s.queue && PhaseOf(s, w).Idle? && (mode.serial ==> s.lock.None?)
    case Announce(w, status) => PhaseOf(s, w).Started?
    case NoResults(w, status) => PhaseOf(s, w).Started?
    case BadReport(w, status) => PhaseOf(s, w).Started?
    case Load(w, payload) => PhaseOf(s, w).Started?
    case FindExisting(w, status) =>
      (PhaseOf(s, w).Loaded? || PhaseOf(s, w).Uploaded?) && Exists(s, PhaseOf(s, w).payload.rawResultsUrl)
    case FindNothing(w) =>
      (PhaseOf(s, w).Loaded? || PhaseOf(s, w).Uploaded?) && !Exists(s, PhaseOf(s, w).payload.rawResultsUrl)
    case Create(w, id) =>
      PhaseOf(s, w).Creating? && (PhaseOf(s, w).task.id == 0 ==> id > 0 && id !in s.entities.ids)
    case Validate(id) => id in s.validating
    case HandlerDies(id) => id in s.validating
    case Finish(w) => PhaseOf(s, w).Ended?
    case Crash(w) => !PhaseOf(s, w).Idle?
    case Orphan(w) => PhaseOf(s, w).Creating? && !mode.prompt
    case LateCreate(request, id) =>
      request in s.requests && (request.task.id == 0 ==> id > 0 && id !in s.entities.ids)
  }

  // update_status: without an id, or when the request is lost, nothing happens.
  function WithStatus(s: State, id: int, stage: int, status: Status, now: int): State {
    if id == 0 || status.Lost? then s else
      s.(entities := UpdatedAt(s.entities, id, ZERO.(stage := stage, error := status.error, at := status.at), now))
  }

  function MovedTo(s: State, w: int, phase: Phase): State {
    s.(workers := s.workers[w := phase])
  }

  // The lock of a process that ends or dies is released.
  function Released(s: State, w: int): State {
    MovedTo(s, w, Idle).(lock := if s.lock == Some(w) then None else s.lock)
  }

  function Uploads(s: State, id: int, uploader: string, revision: string, reach: Reach, now: int): State {
    var reserved := s.entities.(ids := s.entities.ids + {id});
    match reach
    case Reserved => s.(entities := reserved)
    case Noted => s.(entities := UpdatedAt(reserved, id, Received(uploader, revision), now))
    case Queued =>
      s.(entities := UpdatedAt(reserved, id, Received(uploader, revision), now),
         queue := if Accepts(PendingAt(reserved, id), Received(uploader, revision))
           then s.queue + {Task(id, uploader)} else s.queue)
  }

  // The creation request of a processor: refused ones make it raise.
  function Creates(s: State, w: int, task: Task, payload: Run, id: int): State {
    if !GoodHashes(payload.at) then Released(s, w) else
      match AddedRun(s.entities, task.id, WithShort(payload), id)
      case None => Released(s, w)
      case Some(added) =>
        MovedTo(s.(entities := added.0, validating := s.validating[added.1 := WithShort(payload)]), w, Ended(task))
  }

  // The same request when nobody waits for the answer.
  function LateCreates(s: State, request: Request, id: int): State {
    var done := s.(requests := s.requests - {request});
    if !GoodHashes(request.payload.at) then done else
      match AddedRun(s.entities, request.task.id, WithShort(request.payload), id)
      case None => done
      case Some(added) =>
        done.(entities := added.0, validating := s.validating[added.1 := WithShort(request.payload)])
  }

  // The processor dies after sending the request.
  function Orphans(s: State, w: int, task: Task, payload: Run): State {
    Released(s, w).(requests := s.requests + {Request(task, payload)})
  }

  function Apply(mode: Mode, s: State, a: Action, now: int): State
    requires Enabled(mode, s, a)
  {
    match a
    case Upload(id, uploader, revision, reach) => Uploads(s, id, uploader, revision, reach, now)
    case Resubmit(uploader) => s.(queue := s.queue + {Task(0, uploader)})
    case Start(w, task) => MovedTo(s, w, Started(task)).(lock := Some(w))
    case Announce(w, status) => WithStatus(s, PhaseOf(s, w).task.id, WPTFYI_PROCESSING, status, now)
    case NoResults(w, status) =>
      MovedTo(WithStatus(s, PhaseOf(s, w).task.id, EMPTY, status, now), w, Ended(PhaseOf(s, w).task))
    case BadReport(w, status) =>
      MovedTo(WithStatus(s, PhaseOf(s, w).task.id, INVALID, status, now), w, Ended(PhaseOf(s, w).task))
    case Load(w, payload) => MovedTo(s, w, Loaded(PhaseOf(s, w).task, payload))
    case FindExisting(w, status) =>
      MovedTo(WithStatus(s, PhaseOf(s, w).task.id, DUPLICATE, status, now), w, Ended(PhaseOf(s, w).task))
    case FindNothing(w) =>
      var phase := PhaseOf(s, w);
      MovedTo(s, w, if phase.Loaded? then Uploaded(phase.task, phase.payload) else Creating(phase.task, phase.payload))
    case Create(w, id) => Creates(s, w, PhaseOf(s, w).task, PhaseOf(s, w).payload, id)
    case Validate(id) =>
      s.(entities := UpdatedAt(s.entities, id, Validated(s.validating[id]), now), validating := s.validating - {id})
    case HandlerDies(id) => s.(validating := s.validating - {id})
    case Finish(w) => Released(s, w).(queue := s.queue - {PhaseOf(s, w).task})
    case Crash(w) => Released(s, w)
    case Orphan(w) => Orphans(s, w, PhaseOf(s, w).task, PhaseOf(s, w).payload)
    case LateCreate(request, id) => LateCreates(s, request, id)
  }

  ghost predicate Step(mode: Mode, s: State, a: Action, s': State) {
    Enabled(mode, s, a) && exists now :: s' == Apply(mode, s, a, now)
  }

  ghost predicate Leads(mode: Mode, s: State, actions: seq<Action>, s': State) {
    if actions == [] then s == s' else
      var front, last := actions[..|actions| - 1], actions[|actions| - 1];
      exists mid :: Leads(mode, s, front, mid) && Step(mode, mid, last, s')
  }

  // ---- what every state keeps ----

  ghost predicate RunsWellFormed(e: Entities) {
    forall id | id in e.runs ::
      id in e.ids && |e.runs[id].at.fullRevisionHash| == FULL_LENGTH
      && e.runs[id].at.revision == Short(e.runs[id].at.fullRevisionHash)
  }

  ghost predicate PendingWellFormed(e: Entities) {
    forall id | id in e.pending :: ShortOfFull(e.pending[id])
  }

  // VALID means created, and for the same revision.
  ghost predicate ValidIsCreated(e: Entities) {
    forall id | id in e.pending && e.pending[id].stage == VALID ::
      id in e.runs && e.pending[id].at.fullRevisionHash == e.runs[id].at.fullRevisionHash
  }

  ghost predicate ValidatingIsCreated(s: State) {
    forall id | id in s.validating :: id in s.entities.runs && s.entities.runs[id] == s.validating[id]
  }

  ghost predicate Safe(s: State) {
    && RunsWellFormed(s.entities) && PendingWellFormed(s.entities) && ValidIsCreated(s.entities)
    && ValidatingIsCreated(s)
  }

  // No two created runs have the same raw results.
  ghost predicate UniqueUrls(s: State) {
    forall i, j | i in s.entities.runs && j in s.entities.runs
      && s.entities.runs[i].rawResultsUrl == s.entities.runs[j].rawResultsUrl :: i == j
  }

  ghost predicate OneAtATime(s: State) {
    forall w | !PhaseOf(s, w).Idle? :: s.lock == Some(w)
  }

  ghost predicate CreatingNew(s: State) {
    forall w | PhaseOf(s, w).Creating? :: !Exists(s, PhaseOf(s, w).payload.rawResultsUrl)
  }

  ghost predicate Serialised(s: State) {
    OneAtATime(s) && CreatingNew(s) && UniqueUrls(s) && s.requests == {}
  }

  // ---- Datastore updates ----

  // An update that does not make a run VALID.
  lemma UpdateKeeps(e: Entities, id: int, newRun: Pending, now: int)
    requires RunsWellFormed(e) && PendingWellFormed(e) && ValidIsCreated(e)
    requires newRun.stage != 0 && newRun.stage != VALID
    ensures var e' := UpdatedAt(e, id, newRun, now);
      RunsWellFormed(e') && PendingWellFormed(e') && ValidIsCreated(e')
  {
    if Accepts(PendingAt(e, id), newRun) {
      UpdateFollows(PendingAt(e, id), newRun, now);
    }
  }

  lemma ValidateKeeps(e: Entities, id: int, now: int)
    requires RunsWellFormed(e) && PendingWellFormed(e) && ValidIsCreated(e) && id in e.runs
    ensures var e' := UpdatedAt(e, id, Validated(e.runs[id]), now);
      RunsWellFormed(e') && PendingWellFormed(e') && ValidIsCreated(e')
  {
    if Accepts(PendingAt(e, id), Validated(e.runs[id])) {
      UpdateFollows(PendingAt(e, id), Validated(e.runs[id]), now);
    }
  }

  lemma AddKeeps(e: Entities, id: int, run: Run, freshId: int)
    requires RunsWellFormed(e) && PendingWellFormed(e) && ValidIsCreated(e)
    requires |run.at.fullRevisionHash| == FULL_LENGTH && run.at.revision == Short(run.at.fullRevisionHash)
    requires AddedRun(e, id, run, freshId).Some? && (id == 0 ==> freshId !in e.ids)
    ensures var (e', key) := AddedRun(e, id, run, freshId).value;
      && RunsWellFormed(e') && PendingWellFormed(e') && ValidIsCreated(e')
      && key !in e.runs && key in e'.runs && e'.runs == e.runs[key := run]
  {
  }

  lemma StatusKeeps(s: State, id: int, stage: int, status: Status, now: int)
    requires Safe(s) && stage in {WPTFYI_PROCESSING, INVALID, EMPTY, DUPLICATE}
    ensures Safe(WithStatus(s, id, stage, status, now))
  {
    if id != 0 && status.Sent? {
      UpdateKeeps(s.entities, id, ZERO.(stage := stage, error := status.error, at := status.at), now);
    }
  }

  lemma UploadKeeps(s: State, id: int, uploader: string, revision: string, reach: Reach, now: int)
    requires Safe(s)
    ensures Safe(Uploads(s, id, uploader, revision, reach, now))
  {
    var reserved := s.entities.(ids := s.entities.ids + {id});
    UpdateKeeps(reserved, id, Received(uploader, revision), now);
  }

  lemma CreateKeeps(s: State, w: int, task: Task, payload: Run, id: int)
    requires Safe(s) && (task.id == 0 ==> id !in s.entities.ids)
    ensures Safe(Creates(s, w, task, payload, id))
  {
    if GoodHashes(payload.at) {
      var run := WithShort(payload);
      if AddedRun(s.entities, task.id, run, id).Some? {
        AddKeeps(s.entities, task.id, run, id);
      }
    }
  }

  lemma LateCreateKeeps(s: State, request: Request, id: int)
    requires Safe(s) && (request.task.id == 0 ==> id !in s.entities.ids)
    ensures Safe(LateCreates(s, request, id))
  {
    if GoodHashes(request.payload.at) {
      var run := WithShort(request.payload);
      if AddedRun(s.entities, request.task.id, run, id).Some? {
        AddKeeps(s.entities, request.task.id, run, id);
      }
    }
  }

  lemma StepIsSafe(mode: Mode, s: State, a: Action, now: int)
    requires Safe(s) && Enabled(mode, s, a)
    ensures Safe(Apply(mode, s, a, now))
  {
    match a
    case Upload(id, uploader, revision, reach) => UploadKeeps(s, id, uploader, revision, reach, now);
    case Announce(w, status) => StatusKeeps(s, PhaseOf(s, w).task.id, WPTFYI_PROCESSING, status, now);
    case NoResults(w, status) => StatusKeeps(s, PhaseOf(s, w).task.id, EMPTY, status, now);
    case BadReport(w, status) => StatusKeeps(s, PhaseOf(s, w).task.id, INVALID, status, now);
    case FindExisting(w, status) => StatusKeeps(s, PhaseOf(s, w).task.id, DUPLICATE, status, now);
    case Create(w, id) => CreateKeeps(s, w, PhaseOf(s, w).task, PhaseOf(s, w).payload, id);
    case Validate(id) => ValidateKeeps(s.entities, id, now);
    case LateCreate(request, id) => LateCreateKeeps(s, request, id);
    case _ =>
  }

  // ---- one processor at a time ----

  // Moving a worker that holds the lock anywhere but to Creating.
  lemma MoveKeepsSerial(s: State, s': State, w: int, phase: Phase)
    requires Serialised(s) && !PhaseOf(s, w).Idle? && !phase.Creating?
    requires s'.entities.runs == s.entities.runs && s'.workers == s.workers[w := phase]
    requires s'.lock == s.lock || (phase.Idle? && s'.lock.None?)
    requires s'.requests == s.requests
    ensures Serialised(s')
  {
    forall v | !PhaseOf(s', v).Idle? ensures s'.lock == Some(v) {
      assert v != w ==> PhaseOf(s', v) == PhaseOf(s, v);
    }
    forall v ensures !PhaseOf(s', v).Creating? {
      assert v != w ==> PhaseOf(s', v) == PhaseOf(s, v);
    }
  }

  lemma StartKeepsSerial(s: State, w: int, task: Task)
    requires Serialised(s) && PhaseOf(s, w).Idle? && s.lock.None?
    ensures Serialised(MovedTo(s, w, Started(task)).(lock := Some(w)))
  {
    var s' := MovedTo(s, w, Started(task)).(lock := Some(w));
    forall v ensures v != w ==> PhaseOf(s', v).Idle? {
      assert v != w ==> PhaseOf(s', v) == PhaseOf(s, v);
    }
  }

  lemma FindNothingKeepsSerial(s: State, w: int)
    requires Serialised(s) && Enabled(LOCKED, s, FindNothing(w))
    ensures Serialised(Apply(LOCKED, s, FindNothing(w), 0))
  {
    var s' := Apply(LOCKED, s, FindNothing(w), 0);
    assert s'.entities == s.entities;
    forall v ensures PhaseOf(s', v) == if v == w then s'.workers[w] else PhaseOf(s, v) {
    }
    forall v | PhaseOf(s', v).Creating? ensures !Exists(s', PhaseOf(s', v).payload.rawResultsUrl) {
      assert forall url :: Exists(s', url) <==> Exists(s, url);
    }
  }

  lemma CreateKeepsSerial(s: State, w: int, id: int)
    requires Serialised(s) && Safe(s) && Enabled(LOCKED, s, Create(w, id))
    ensures Serialised(Apply(LOCKED, s, Create(w, id), 0))
  {
    var task, payload := PhaseOf(s, w).task, PhaseOf(s, w).payload;
    var s' := Creates(s, w, task, payload, id);
    if !GoodHashes(payload.at) || AddedRun(s.entities, task.id, WithShort(payload), id).None? {
      MoveKeepsSerial(s, s', w, Idle);
    } else {
      var run := WithShort(payload);
      AddKeeps(s.entities, task.id, run, id);
      var key := AddedRun(s.entities, task.id, run, id).value.1;
      assert !Exists(s, payload.rawResultsUrl) && run.rawResultsUrl == payload.rawResultsUrl;
      forall i | i in s.entities.runs ensures s.entities.runs[i].rawResultsUrl != run.rawResultsUrl {
        assert !Exists(s, payload.rawResultsUrl);
      }
      forall v ensures PhaseOf(s', v) == if v == w then Ended(task) else PhaseOf(s, v) {
      }
    }
  }

  lemma StepIsSerial(s: State, a: Action, now: int)
    requires Serialised(s) && Safe(s) && Enabled(LOCKED, s, a)
    ensures Serialised(Apply(LOCKED, s, a, now))
  {
    hide Safe, Updated, Accepts, Exists, UniqueUrls, CreatingNew, OneAtATime;
    var s' := Apply(LOCKED, s, a, now);
    match a
    case Start(w, task) => StartKeepsSerial(s, w, task);
    case Announce(w, status) => SameRuns(s, s');
    case NoResults(w, status) => MoveKeepsSerial(s, s', w, Ended(PhaseOf(s, w).task));
    case BadReport(w, status) => MoveKeepsSerial(s, s', w, Ended(PhaseOf(s, w).task));
    case Load(w, payload) => MoveKeepsSerial(s, s', w, Loaded(PhaseOf(s, w).task, payload));
    case FindExisting(w, status) => MoveKeepsSerial(s, s', w, Ended(PhaseOf(s, w).task));
    case FindNothing(w) => FindNothingKeepsSerial(s, w);
    case Create(w, id) => CreateKeepsSerial(s, w, id);
    case Finish(w) => MoveKeepsSerial(s, s', w, Idle);
    case Crash(w) => MoveKeepsSerial(s, s', w, Idle);
    case _ => SameRuns(s, s');
  }

  lemma SameRuns(s: State, s': State)
    requires Serialised(s)
    requires s'.entities.runs == s.entities.runs && s'.workers == s.workers && s'.lock == s.lock
    requires s'.requests == s.requests
    ensures Serialised(s')
  {
    assert forall url :: Exists(s', url) <==> Exists(s, url);
    assert forall w :: PhaseOf(s', w) == PhaseOf(s, w);
  }

  // ---- the theorems ----

  // Whatever the interleaving, the deaths and the retries: a short revision is
  // the start of the full one, and a VALID run has been created.
  lemma {:induction false} EveryStateIsSafe(mode: Mode, actions: seq<Action>, s: State)
    requires Leads(mode, START, actions, s)
    ensures Safe(s)
    ensures mode == LOCKED ==> Serialised(s)
  {
    if actions != [] {
      var front, last := actions[..|actions| - 1], actions[|actions| - 1];
      var mid :| Leads(mode, START, front, mid) && Step(mode, mid, last, s);
      EveryStateIsSafe(mode, front, mid);
      var now :| s == Apply(mode, mid, last, now);
      StepIsSafe(mode, mid, last, now);
      if mode == LOCKED {
        StepIsSerial(mid, last, now);
      }
    }
  }

  // Pending runs move forward, and created runs are never changed or removed.
  ghost predicate Forward(e: Entities, e': Entities) {
    && (forall id | id in e.pending :: id in e'.pending && Follows(e.pending[id], e'.pending[id]))
    && (forall id | id in e.runs :: id in e'.runs && e'.runs[id] == e.runs[id])
  }

  lemma UpdateIsForward(e: Entities, id: int, newRun: Pending, now: int)
    ensures Forward(e, UpdatedAt(e, id, newRun, now))
  {
    if Accepts(PendingAt(e, id), newRun) {
      UpdateFollows(PendingAt(e, id), newRun, now);
    }
  }

  lemma StaysForward(e: Entities)
    ensures Forward(e, e)
  {
  }

  lemma ForwardAgain(a: Entities, b: Entities, c: Entities)
    requires Forward(a, b) && Forward(b, c)
    ensures Forward(a, c)
  {
  }

  lemma StatusIsForward(s: State, id: int, stage: int, status: Status, now: int)
    ensures Forward(s.entities, WithStatus(s, id, stage, status, now).entities)
  {
    if id != 0 && status.Sent? {
      UpdateIsForward(s.entities, id, ZERO.(stage := stage, error := status.error, at := status.at), now);
    }
  }

  lemma UploadIsForward(s: State, id: int, uploader: string, revision: string, reach: Reach, now: int)
    ensures Forward(s.entities, Uploads(s, id, uploader, revision, reach, now).entities)
  {
    UpdateIsForward(s.entities.(ids := s.entities.ids + {id}), id, Received(uploader, revision), now);
  }

  lemma CreateIsForward(s: State, w: int, task: Task, payload: Run, id: int)
    requires Safe(s) && (task.id == 0 ==> id !in s.entities.ids)
    ensures Forward(s.entities, Creates(s, w, task, payload, id).entities)
  {
    hide UpdatedAt;
  }

  lemma LateCreateIsForward(s: State, request: Request, id: int)
    requires Safe(s) && (request.task.id == 0 ==> id !in s.entities.ids)
    ensures Forward(s.entities, LateCreates(s, request, id).entities)
  {
    hide UpdatedAt;
  }

  lemma StepIsForward(mode: Mode, s: State, a: Action, now: int)
    requires Safe(s) && Enabled(mode, s, a)
    ensures Forward(s.entities, Apply(mode, s, a, now).entities)
  {
    hide UpdatedAt, Follows, Uploads, Creates, LateCreates, WithStatus;
    match a
    case Upload(id, uploader, revision, reach) =>
      UploadIsForward(s, id, uploader, revision, reach, now);
    case Announce(w, status) => StatusIsForward(s, PhaseOf(s, w).task.id, WPTFYI_PROCESSING, status, now);
    case NoResults(w, status) => StatusIsForward(s, PhaseOf(s, w).task.id, EMPTY, status, now);
    case BadReport(w, status) => StatusIsForward(s, PhaseOf(s, w).task.id, INVALID, status, now);
    case FindExisting(w, status) => StatusIsForward(s, PhaseOf(s, w).task.id, DUPLICATE, status, now);
    case Create(w, id) => CreateIsForward(s, w, PhaseOf(s, w).task, PhaseOf(s, w).payload, id);
    case Validate(id) => UpdateIsForward(s.entities, id, Validated(s.validating[id]), now);
    case LateCreate(request, id) => LateCreateIsForward(s, request, id);
    case _ => StaysForward(s.entities);
  }

  // From any moment on: stages never decrease, what is set stays set, and no
  // created run is overwritten.
  lemma {:induction false} HistoryMovesForward(
      mode: Mode, before: seq<Action>, s: State, actions: seq<Action>, s': State)
    requires Leads(mode, START, before, s) && Leads(mode, s, actions, s')
    ensures Forward(s.entities, s'.entities) && Safe(s')
  {
    if actions == [] {
      EveryStateIsSafe(mode, before, s);
    } else {
      var front, last := actions[..|actions| - 1], actions[|actions| - 1];
      var mid :| Leads(mode, s, front, mid) && Step(mode, mid, last, s');
      HistoryMovesForward(mode, before, s, front, mid);
      var now :| s' == Apply(mode, mid, last, now);
      StepIsForward(mode, mid, last, now);
      StepIsSafe(mode, mid, last, now);
      ForwardAgain(s.entities, mid.entities, s'.entities);
    }
  }

  // A pre-allocated id is inserted once: whatever happens after its run has been
  // created, a late request for it and a retry are both refused.
  lemma AllocatedIdIsInsertedOnce(
      mode: Mode, before: seq<Action>, s: State, actions: seq<Action>, s': State, task: Task, payload: Run, w: int,
      id: int)
    requires Leads(mode, START, before, s) && Leads(mode, s, actions, s')
    requires task.id != 0 && task.id in s.entities.runs
    ensures task.id in s'.entities.runs && s'.entities.runs[task.id] == s.entities.runs[task.id]
    ensures Creates(s', w, task, payload, id).entities == s'.entities
    ensures LateCreates(s', Request(task, payload), id).entities == s'.entities
  {
    HistoryMovesForward(mode, before, s, actions, s');
    hide Leads;
  }

  // With the lock and no late requests, no two created runs share their raw results.
  lemma LockedRunsAreUnique(actions: seq<Action>, s: State, i: int, j: int)
    requires Leads(LOCKED, START, actions, s) && i in s.entities.runs && j in s.entities.runs
    requires s.entities.runs[i].rawResultsUrl == s.entities.runs[j].rawResultsUrl
    ensures i == j
  {
    EveryStateIsSafe(LOCKED, actions, s);
  }

  // The receiver's HandleResultsCreate is a Create step and then a Validate step.
  lemma CreateIsTwoSteps(mode: Mode, s: State, w: int, id: int, now: int)
    requires Enabled(mode, s, Create(w, id)) && GoodHashes(PhaseOf(s, w).payload.at)
    requires AddedRun(s.entities, PhaseOf(s, w).task.id, WithShort(PhaseOf(s, w).payload), id).Some?
    ensures var run, task := WithShort(PhaseOf(s, w).payload), PhaseOf(s, w).task;
      var (e, key) := AddedRun(s.entities, task.id, run, id).value;
      var s' := Apply(mode, s, Create(w, id), now);
      && Enabled(mode, s', Validate(key))
      && Apply(mode, s', Validate(key), now).entities == UpdatedAt(e, key, Validated(run), now)
  {
  }

  // ---- without the lock, or with late requests ----

  lemma OneMoreStep(mode: Mode, s: State, actions: seq<Action>, mid: State, a: Action, s': State)
    requires Leads(mode, s, actions, mid) && Enabled(mode, mid, a) && s' == Apply(mode, mid, a, 0)
    ensures Leads(mode, s, actions + [a], s')
  {
    var all := actions + [a];
    assert all[..|all| - 1] == actions;
    assert Step(mode, mid, a, s');
  }

  lemma NoNewUrls(s: State, s': State, url: string)
    requires s'.entities == s.entities && !Exists(s, url)
    ensures !Exists(s', url)
  {
  }

  // A processor that gets started gets past both checks, whatever the others do.
  lemma PassesBothChecks(mode: Mode, s: State, actions: seq<Action>, w: int, task: Task, payload: Run)
    returns (more: seq<Action>)
    requires Leads(mode, START, actions, s) && Enabled(mode, s, Start(w, task))
    requires !Exists(s, payload.rawResultsUrl)
    ensures Leads(mode, START, more, MovedTo(s, w, Creating(task, payload)).(lock := Some(w)))
  {
    hide Creates, Uploads, WithStatus, UpdatedAt, Released, Leads, Exists;
    var s1 := MovedTo(s, w, Started(task)).(lock := Some(w));
    var s2 := MovedTo(s1, w, Loaded(task, payload));
    var s3 := MovedTo(s2, w, Uploaded(task, payload));
    var s4 := MovedTo(s3, w, Creating(task, payload));
    OneMoreStep(mode, START, actions, s, Start(w, task), s1);
    OneMoreStep(mode, START, actions + [Start(w, task)], s1, Load(w, payload), s2);
    more := actions + [Start(w, task)] + [Load(w, payload)];
    NoNewUrls(s, s2, payload.rawResultsUrl);
    NoNewUrls(s, s3, payload.rawResultsUrl);
    OneMoreStep(mode, START, more, s2, FindNothing(w), s3);
    OneMoreStep(mode, START, more + [FindNothing(w)], s3, FindNothing(w), s4);
    more := more + [FindNothing(w)] + [FindNothing(w)];
    assert s4 == MovedTo(s, w, Creating(task, payload)).(lock := Some(w));
  }

  // A first processor is about to create a run.
  lemma FirstProcessor(mode: Mode, payload: Run) returns (actions: seq<Action>, s: State)
    ensures s == MovedTo(START.(queue := {Task(0, "")}), 1, Creating(Task(0, ""), payload)).(lock := Some(1))
    ensures Leads(mode, START, actions, s)
  {
    var task := Task(0, "");
    var s1 := START.(queue := {task});
    OneMoreStep(mode, START, [], START, Resubmit(""), s1);
    actions := PassesBothChecks(mode, s1, [] + [Resubmit("")], 1, task, payload);
    s := MovedTo(s1, 1, Creating(task, payload)).(lock := Some(1));
  }

  // Without the lock two of them create two runs from the same results.
  lemma UnlockedRunsMayRepeat(mode: Mode, payload: Run) returns (actions: seq<Action>, s: State)
    requires !mode.serial && GoodHashes(payload.at)
    ensures Leads(mode, START, actions, s) && !UniqueUrls(s)
  {
    hide Leads;
    var task := Task(0, "");
    var s2;
    actions, s2 := FirstProcessor(mode, payload);
    actions := PassesBothChecks(mode, s2, actions, 2, task, payload);
    var s3 := MovedTo(s2, 2, Creating(task, payload)).(lock := Some(2));
    var s4 := Creates(s3, 1, task, payload, 1);
    assert s4 == Apply(mode, s3, Create(1, 1), 0);
    OneMoreStep(mode, START, actions, s3, Create(1, 1), s4);
    s := Creates(s4, 2, task, payload, 2);
    assert s == Apply(mode, s4, Create(2, 2), 0);
    OneMoreStep(mode, START, actions + [Create(1, 1)], s4, Create(2, 2), s);
    actions := actions + [Create(1, 1)] + [Create(2, 2)];
    assert 1 in s.entities.runs && 2 in s.entities.runs;
  }

  // Even with it, a request that outlives its processor creates a second run when
  // the queue tries again.
  lemma LateRunsMayRepeat(mode: Mode, payload: Run) returns (actions: seq<Action>, s: State)
    requires !mode.prompt && GoodHashes(payload.at)
    ensures Leads(mode, START, actions, s) && !UniqueUrls(s)
  {
    hide Leads;
    var task, request := Task(0, ""), Request(Task(0, ""), payload);
    var s2;
    actions, s2 := FirstProcessor(mode, payload);
    var s3 := Orphans(s2, 1, task, payload);
    OneMoreStep(mode, START, actions, s2, Orphan(1), s3);
    actions := PassesBothChecks(mode, s3, actions + [Orphan(1)], 2, task, payload);
    var s4 := MovedTo(s3, 2, Creating(task, payload)).(lock := Some(2));
    var s5 := Creates(s4, 2, task, payload, 1);
    s := LateCreates(s5, request, 2);
    RetriedAndLate(s4, payload);
    hide Creates, LateCreates, UniqueUrls, Released;
    OneMoreStep(mode, START, actions, s4, Create(2, 1), s5);
    OneMoreStep(mode, START, actions + [Create(2, 1)], s5, LateCreate(request, 2), s);
    actions := actions + [Create(2, 1)] + [LateCreate(request, 2)];
  }

  // The retried task creates run 1, and the late request run 2.
  lemma RetriedAndLate(s: State, payload: Run)
    requires s.entities == START.entities && GoodHashes(payload.at)
    requires Request(Task(0, ""), payload) in s.requests
    ensures var task, request := Task(0, ""), Request(Task(0, ""), payload);
      var s' := Creates(s, 2, task, payload, 1);
      && request in s'.requests && 2 !in s'.entities.ids
      && !UniqueUrls(LateCreates(s', request, 2))
  {
    var s' := Creates(s, 2, Task(0, ""), payload, 1);
    var s'' := LateCreates(s', Request(Task(0, ""), payload), 2);
    assert 1 in s''.entities.runs && 2 in s''.entities.runs;
  }

  // Runs never repeat exactly when there is the lock and no request is late.
  lemma RunsAreUniqueIff(mode: Mode)
    ensures (forall actions, s | Leads(mode, START, actions, s) :: UniqueUrls(s)) <==> mode.serial && mode.prompt
  {
    hide Leads, UniqueUrls;
    if mode.serial && mode.prompt {
      forall actions, s | Leads(mode, START, actions, s) ensures UniqueUrls(s) {
        EveryStateIsSafe(mode, actions, s);
      }
    } else {
      var hash := seq(FULL_LENGTH, i => 'a');
      var payload := Run(ProductAtRevision(Product("", "", "", ""), "", hash), "", {});
      if !mode.prompt {
        var _, _ := LateRunsMayRepeat(mode, payload);
      } else {
        var _, _ := UnlockedRunsMayRepeat(mode, payload);
      }
    }
  }
}
