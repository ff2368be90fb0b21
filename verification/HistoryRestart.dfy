// The history job as a state machine over Datastore, the flushed statuses, the
// committed date and the in-memory cache: crashing and restarting anywhere
// outside commit_checkpoint does not change the history
// (scripts/process_test_history.py).
module HistoryRestart {
  import opened History

  // The browsers whose statuses commit_checkpoint flushes.
  const FLUSHED := {"chrome", "edge", "firefox", "safari"}

  type RunSet = map<string, Run>

  // What processing one run does, as a function of the earlier statuses: the
  // statuses kept and the entries written.
  datatype Job = Job(after: (Statuses, Run) -> Statuses, entries: (Statuses, Run) -> map<EntryKey, Entry>)

  // Every entry is stored under the id of its run.
  ghost predicate OwnKeys(job: Job) {
    forall s, r, e | e in job.entries(s, r) :: e.runId == r.id
  }

  // Where the job starts from, and the aligned run sets it will find, one run
  // per browser in each; a date is the number of sets before it.
  datatype World = World(
    job: Job, init: map<string, Statuses>, store: map<EntryKey, Entry>, sets: seq<RunSet>)

  ghost predicate Aligned(w: World) {
    forall j, b | 0 <= j < |w.sets| && b in w.sets[j] ::
      b in FLUSHED && b in w.init && w.sets[j][b].browser == b
  }

  ghost predicate DistinctRuns(w: World) {
    forall i, j, b, c | 0 <= i < |w.sets| && 0 <= j < |w.sets| && b in w.sets[i] && c in w.sets[j] ::
      w.sets[i][b].id == w.sets[j][c].id ==> i == j && b == c
  }

  ghost predicate ValidWorld(w: World) {
    OwnKeys(w.job) && Aligned(w) && DistinctRuns(w)
  }

  // The statuses of browser b after the first n sets.
  ghost function Expected(w: World, b: string, n: nat): Statuses
    requires n <= |w.sets| && b in w.init
  {
    if n == 0 then w.init[b]
    else if b in w.sets[n - 1] then w.job.after(Expected(w, b, n - 1), w.sets[n - 1][b])
    else Expected(w, b, n - 1)
  }

  // What run b of set j contributes to the history.
  ghost function Contribution(w: World, j: nat, b: string): map<EntryKey, Entry>
    requires j < |w.sets| && b in w.sets[j] && b in w.init
  {
    w.job.entries(Expected(w, b, j), w.sets[j][b])
  }

  // ---- the machine ----

  datatype State = State(
    store: map<EntryKey, Entry>,
    gcs: map<string, Statuses>,
    committed: nat,
    cache: map<string, Statuses>,
    pos: nat,
    done: set<string>)

  // Any interleaving of the browser threads: some entries of an unfinished run
  // reach Datastore, or the rest of them do and the run finishes. Restart is
  // death of the process at any point, followed by a fresh one.
  datatype Action =
    | WriteSome(browser: string, part: map<EntryKey, Entry>)
    | Finish(browser: string)
    | Advance
    | Commit
    | Restart

  function Start(w: World): State {
    State(w.store, w.init, 0, map[], 0, {})
  }

  predicate CanLoad(s: State, b: string) {
    b in s.cache || b in s.gcs
  }

  // _populate_previous_statuses.
  function Loaded(s: State, b: string): Statuses
    requires CanLoad(s, b)
  {
    if b in s.cache then s.cache[b] else s.gcs[b]
  }

  ghost predicate Working(w: World, s: State, b: string) {
    s.pos < |w.sets| && b in w.sets[s.pos] && b !in s.done && CanLoad(s, b)
  }

  ghost function Pending(w: World, s: State, b: string): map<EntryKey, Entry>
    requires Working(w, s, b)
  {
    w.job.entries(Loaded(s, b), w.sets[s.pos][b])
  }

  ghost predicate Submap<K, V>(a: map<K, V>, b: map<K, V>) {
    forall k | k in a :: k in b && a[k] == b[k]
  }

  ghost predicate Enabled(w: World, s: State, a: Action) {
    match a
    case WriteSome(b, part) => Working(w, s, b) && Submap(part, Pending(w, s, b))
    case Finish(b) => Working(w, s, b)
    case Advance => s.pos < |w.sets| && s.done == w.sets[s.pos].Keys
    case Commit => s.done == {}
    case Restart => true
  }

  ghost function Apply(w: World, s: State, a: Action): State
    requires Enabled(w, s, a)
  {
    match a
    case WriteSome(b, part) => s.(store := s.store + part)
    case Finish(b) =>
      s.(store := s.store + Pending(w, s, b),
         cache := s.cache[b := w.job.after(Loaded(s, b), w.sets[s.pos][b])],
         done := s.done + {b})
    case Advance => s.(pos := s.pos + 1, done := {})
    case Commit => s.(committed := s.pos, gcs := s.gcs + (map b | b in s.cache && b in FLUSHED :: s.cache[b]))
    case Restart => s.(cache := map[], pos := s.committed, done := {})
  }

  ghost predicate Step(w: World, s: State, a: Action, s': State) {
    Enabled(w, s, a) && s' == Apply(w, s, a)
  }

  ghost predicate Leads(w: World, actions: seq<Action>, s: State) {
    if actions == [] then s == Start(w) else
      var front, last := actions[..|actions| - 1], actions[|actions| - 1];
      exists s0 :: Leads(w, front, s0) && Step(w, s0, last, s)
  }

  // ---- what every state keeps ----

  function Processed(s: State, b: string): nat {
    if b in s.done then s.pos + 1 else s.pos
  }

  ghost predicate MemoryRight(w: World, s: State)
    requires Aligned(w)
  {
    && s.committed <= s.pos <= |w.sets|
    && s.gcs.Keys == w.init.Keys && s.cache.Keys <= w.init.Keys && s.cache.Keys <= FLUSHED
    && (s.done != {} ==> s.pos < |w.sets| && s.done <= w.sets[s.pos].Keys)
    && (forall b | b in w.init :: s.gcs[b] == Expected(w, b, s.committed))
    && (forall b | b in w.init :: LoadedRight(w, s, b))
  }

  ghost predicate LoadedRight(w: World, s: State, b: string)
    requires Aligned(w) && b in w.init
  {
    Processed(s, b) <= |w.sets| && CanLoad(s, b) && Loaded(s, b) == Expected(w, b, Processed(s, b))
  }

  // Run b of set j is behind the current position.
  predicate Past(w: World, pos: nat, done: set<string>, j: nat, b: string) {
    j < |w.sets| && b in w.sets[j] && (j < pos || (j == pos && b in done))
  }

  ghost predicate From(w: World, e: EntryKey, entry: Entry)
    requires Aligned(w)
  {
    || (e in w.store && w.store[e] == entry)
    || exists j: nat, b :: j < |w.sets| && b in w.sets[j] && e in Contribution(w, j, b)
         && Contribution(w, j, b)[e] == entry
  }

  // Everything past is stored, and nothing is stored that an uninterrupted pass
  // would not store.
  ghost predicate StoreRight(w: World, store: map<EntryKey, Entry>, pos: nat, done: set<string>)
    requires Aligned(w)
  {
    && w.store.Keys <= store.Keys
    && (forall j, b | Past(w, pos, done, j, b) :: Submap(Contribution(w, j, b), store))
    && (forall e | e in store :: From(w, e, store[e]))
  }

  ghost predicate Inv(w: World, s: State)
    requires Aligned(w)
  {
    MemoryRight(w, s) && StoreRight(w, s.store, s.pos, s.done)
  }

  // Entries of different runs have different keys.
  lemma ContributionsDisjoint(w: World, i: nat, b: string, j: nat, c: string, e: EntryKey)
    requires ValidWorld(w) && i < |w.sets| && b in w.sets[i] && j < |w.sets| && c in w.sets[j]
    requires e in Contribution(w, i, b) && e in Contribution(w, j, c)
    ensures i == j && b == c
  {
    assert e.runId == w.sets[i][b].id;
    assert e.runId == w.sets[j][c].id;
  }

  lemma PendingIsContribution(w: World, s: State, b: string)
    requires Aligned(w) && MemoryRight(w, s) && Working(w, s, b)
    ensures Pending(w, s, b) == Contribution(w, s.pos, b)
  {
  }

  // Adding part of a contribution keeps everything already stored.
  lemma AddingKeepsStore(
      w: World, store: map<EntryKey, Entry>, pos: nat, done: set<string>, j: nat, b: string, part: map<EntryKey, Entry>)
    requires ValidWorld(w) && StoreRight(w, store, pos, done)
    requires j < |w.sets| && b in w.sets[j] && Submap(part, Contribution(w, j, b))
    ensures StoreRight(w, store + part, pos, done)
  {
    forall i, c | Past(w, pos, done, i, c) ensures Submap(Contribution(w, i, c), store + part) {
      forall e | e in Contribution(w, i, c) ensures e in store + part && (store + part)[e] == Contribution(w, i, c)[e] {
        if e in part {
          ContributionsDisjoint(w, i, c, j, b, e);
        }
      }
    }
  }

  lemma FinishKeepsStore(
      w: World, store: map<EntryKey, Entry>, pos: nat, done: set<string>, b: string)
    requires ValidWorld(w) && StoreRight(w, store, pos, done)
    requires pos < |w.sets| && b in w.sets[pos]
    ensures StoreRight(w, store + Contribution(w, pos, b), pos, done + {b})
  {
    AddingKeepsStore(w, store, pos, done, pos, b, Contribution(w, pos, b));
    forall j, c | Past(w, pos, done + {b}, j, c)
      ensures Submap(Contribution(w, j, c), store + Contribution(w, pos, b))
    {
      assert Past(w, pos, done, j, c) || (j == pos && c == b);
    }
  }

  lemma FinishedIsRight(w: World, s: State, b: string)
    requires Aligned(w) && b in w.init && Working(w, s, b) && LoadedRight(w, s, b)
    ensures LoadedRight(w, Apply(w, s, Finish(b)), b)
  {
    assert Expected(w, b, s.pos + 1) == w.job.after(Expected(w, b, s.pos), w.sets[s.pos][b]);
  }

  lemma FinishKeepsLoaded(w: World, s: State, b: string, c: string)
    requires Aligned(w) && c in w.init && Working(w, s, b) && LoadedRight(w, s, c)
    ensures LoadedRight(w, Apply(w, s, Finish(b)), c)
  {
    if c == b {
      FinishedIsRight(w, s, b);
    }
  }

  lemma FinishKeepsMemory(w: World, s: State, b: string)
    requires Aligned(w) && MemoryRight(w, s) && Working(w, s, b)
    ensures MemoryRight(w, Apply(w, s, Finish(b)))
  {
    hide LoadedRight, Expected, Processed, Loaded;
    var s' := Apply(w, s, Finish(b));
    assert b in w.init && b in FLUSHED;
    forall c | c in w.init ensures LoadedRight(w, s', c) {
      assert LoadedRight(w, s, c);
      FinishKeepsLoaded(w, s, b, c);
    }
  }

  // Moving the position back, or past a set that is done, asks for nothing new.
  lemma MovedStore(
      w: World, store: map<EntryKey, Entry>, pos: nat, done: set<string>, pos': nat)
    requires Aligned(w) && StoreRight(w, store, pos, done)
    requires pos' <= pos || (pos' == pos + 1 && pos < |w.sets| && done == w.sets[pos].Keys)
    ensures StoreRight(w, store, pos', {})
  {
    forall j, c | Past(w, pos', {}, j, c) ensures Submap(Contribution(w, j, c), store) {
      assert Past(w, pos, done, j, c);
    }
  }

  lemma AdvancedIsRight(w: World, s: State, b: string)
    requires Aligned(w) && b in w.init && Enabled(w, s, Advance) && LoadedRight(w, s, b)
    ensures LoadedRight(w, Apply(w, s, Advance), b)
  {
  }

  lemma AdvanceKeepsMemory(w: World, s: State)
    requires Aligned(w) && MemoryRight(w, s) && Enabled(w, s, Advance)
    ensures MemoryRight(w, Apply(w, s, Advance))
  {
    forall c | c in w.init ensures LoadedRight(w, Apply(w, s, Advance), c) {
      AdvancedIsRight(w, s, c);
    }
  }

  lemma CommitKeepsMemory(w: World, s: State)
    requires Aligned(w) && MemoryRight(w, s) && Enabled(w, s, Commit)
    ensures MemoryRight(w, Apply(w, s, Commit))
  {
    var s' := Apply(w, s, Commit);
    forall c | c in w.init ensures s'.gcs[c] == Expected(w, c, s.pos) && LoadedRight(w, s', c) {
      assert LoadedRight(w, s, c) && Processed(s, c) == s.pos;
    }
  }

  lemma RestartKeepsMemory(w: World, s: State)
    requires Aligned(w) && MemoryRight(w, s)
    ensures MemoryRight(w, Apply(w, s, Restart))
  {
  }

  lemma WriteKeepsMemory(w: World, s: State, b: string, part: map<EntryKey, Entry>)
    requires Aligned(w) && MemoryRight(w, s) && Enabled(w, s, WriteSome(b, part))
    ensures MemoryRight(w, Apply(w, s, WriteSome(b, part)))
  {
    hide Expected;
    forall c | c in w.init ensures LoadedRight(w, Apply(w, s, WriteSome(b, part)), c) {
      assert LoadedRight(w, s, c);
    }
  }

  lemma StepKeepsMemory(w: World, s: State, a: Action)
    requires Aligned(w) && MemoryRight(w, s) && Enabled(w, s, a)
    ensures MemoryRight(w, Apply(w, s, a))
  {
    hide MemoryRight;
    match a
    case WriteSome(b, part) => WriteKeepsMemory(w, s, b, part);
    case Finish(b) => FinishKeepsMemory(w, s, b);
    case Advance => AdvanceKeepsMemory(w, s);
    case Commit => CommitKeepsMemory(w, s);
    case Restart => RestartKeepsMemory(w, s);
  }

  lemma StepKeepsStore(w: World, s: State, a: Action)
    requires ValidWorld(w) && MemoryRight(w, s) && StoreRight(w, s.store, s.pos, s.done) && Enabled(w, s, a)
    ensures var s' := Apply(w, s, a); StoreRight(w, s'.store, s'.pos, s'.done)
  {
    match a
    case WriteSome(b, part) =>
      PendingIsContribution(w, s, b);
      AddingKeepsStore(w, s.store, s.pos, s.done, s.pos, b, part);
    case Finish(b) =>
      PendingIsContribution(w, s, b);
      FinishKeepsStore(w, s.store, s.pos, s.done, b);
    case Advance => MovedStore(w, s.store, s.pos, s.done, s.pos + 1);
    case Commit =>
    case Restart => MovedStore(w, s.store, s.pos, s.done, s.committed);
  }

  lemma {:induction false} EveryStateIsRight(w: World, actions: seq<Action>, s: State)
    requires ValidWorld(w) && Leads(w, actions, s)
    ensures Inv(w, s)
  {
    if actions != [] {
      var front, last := actions[..|actions| - 1], actions[|actions| - 1];
      var s0 :| Leads(w, front, s0) && Step(w, s0, last, s);
      EveryStateIsRight(w, front, s0);
      StepKeepsMemory(w, s0, last);
      StepKeepsStore(w, s0, last);
    }
  }

  // ---- the theorems ----

  // A store in which the whole run list is past is determined by the world.
  lemma FinishedStoreIsUnique(w: World, a: map<EntryKey, Entry>, b: map<EntryKey, Entry>)
    requires Aligned(w)
    requires StoreRight(w, a, |w.sets|, {}) && StoreRight(w, b, |w.sets|, {})
    ensures a == b
  {
    SameWherePresent(w, a, b);
    SameWherePresent(w, b, a);
    SubmapsAreEqual(a, b);
  }

  lemma SubmapsAreEqual<K, V>(a: map<K, V>, b: map<K, V>)
    requires Submap(a, b) && Submap(b, a)
    ensures a == b
  {
  }

  lemma SameWherePresent(w: World, a: map<EntryKey, Entry>, b: map<EntryKey, Entry>)
    requires Aligned(w)
    requires StoreRight(w, a, |w.sets|, {}) && StoreRight(w, b, |w.sets|, {})
    ensures Submap(a, b)
  {
    forall e | e in a ensures e in b && a[e] == b[e] {
      if j: nat, c :| j < |w.sets| && c in w.sets[j] && e in Contribution(w, j, c) {
        assert Past(w, |w.sets|, {}, j, c);
      } else {
        assert From(w, e, a[e]) && e in w.store;
        assert From(w, e, b[e]);
      }
    }
  }

  // Two executions over the same run list, each crashing and restarting as it
  // pleases, end with the same entries and the same statuses; in particular any
  // execution ends like the uninterrupted one.
  lemma RestartsConverge(w: World, one: seq<Action>, s: State, other: seq<Action>, s': State)
    requires ValidWorld(w) && Leads(w, one, s) && Leads(w, other, s')
    requires s.pos == |w.sets| == s'.pos
    ensures s.store == s'.store
    ensures forall b | b in w.init :: CanLoad(s, b) && CanLoad(s', b) && Loaded(s, b) == Loaded(s', b)
  {
    EveryStateIsRight(w, one, s);
    EveryStateIsRight(w, other, s');
    assert s.done == {} && s'.done == {};
    forall b | b in w.init ensures CanLoad(s, b) && CanLoad(s', b) && Loaded(s, b) == Loaded(s', b) {
      assert LoadedRight(w, s, b) && LoadedRight(w, s', b);
    }
    FinishedStoreIsUnique(w, s.store, s'.store);
  }

  // At every moment the committed prefix of the history is complete in Datastore
  // and the flushed statuses are those of the committed date.
  lemma CommittedIsDurable(w: World, actions: seq<Action>, s: State, j: nat, b: string)
    requires ValidWorld(w) && Leads(w, actions, s)
    requires j < s.committed && j < |w.sets| && b in w.sets[j]
    ensures Submap(Contribution(w, j, b), s.store)
    ensures s.committed <= |w.sets| && b in s.gcs && s.gcs[b] == Expected(w, b, s.committed)
  {
    EveryStateIsRight(w, actions, s);
    assert Past(w, s.pos, s.done, j, b);
  }

  // ---- the history job ----

  ghost function HistoryJob(): Job {
    Job((s: Statuses, r: Run) => After(s, Observations(r.results)),
        (s: Statuses, r: Run) => Entries(r, Delta(s, Observations(r.results))))
  }

  lemma HistoryJobOwnsItsKeys()
    ensures OwnKeys(HistoryJob())
  {
    forall s, r, e | e in HistoryJob().entries(s, r) ensures e.runId == r.id {
      var k :| Writes(r, Delta(s, Observations(r.results)), e, k);
    }
  }

  // Restart safety of the history job itself.
  lemma HistoryRestartsConverge(w: World, one: seq<Action>, s: State, other: seq<Action>, s': State)
    requires w.job == HistoryJob() && Aligned(w) && DistinctRuns(w)
    requires Leads(w, one, s) && Leads(w, other, s') && s.pos == |w.sets| == s'.pos
    ensures s.store == s'.store
  {
    HistoryJobOwnsItsKeys();
    RestartsConverge(w, one, s, other, s');
  }

  // ---- stale memory ----

  // Whatever prev already says of a reported test, stale says too.
  ghost predicate NoFalseNews(prev: Statuses, stale: Statuses, obs: seq<Observation>) {
    forall o | o in obs && Says(prev, o) :: Says(stale, o)
  }

  predicate Says(known: Statuses, o: Observation) {
    o.key in known && known[o.key] == o.status
  }

  // Whatever only stale would mark as missing, prev marks too.
  ghost predicate NoFalseAbsence(prev: Statuses, stale: Statuses, obs: seq<Observation>) {
    forall k | k in stale && k !in Keys(obs) && stale[k] != MISSING :: k in prev && prev[k] != MISSING
  }

  // What a run without repeats writes about one test it reports.
  lemma DeltaOfReported(prev: Statuses, obs: seq<Observation>, o: Observation)
    requires NoRepeats(obs) && o in obs
    ensures o.key in Delta(prev, obs) <==> !Says(prev, o)
    ensures o.key in Delta(prev, obs) ==> Delta(prev, obs)[o.key] == o.status
  {
    FirstChangeSound(prev, obs, o.key);
    assert Reports(obs, o.key, o.status);
    assert forall s | Reports(obs, o.key, s) :: s == o.status;
  }

  lemma DeltaOfAbsent(prev: Statuses, obs: seq<Observation>, k: TestKey)
    requires k !in Keys(obs)
    ensures k in Delta(prev, obs) <==> k in prev && prev[k] != MISSING
    ensures k in Delta(prev, obs) ==> Delta(prev, obs)[k] == MISSING
  {
  }

  // Reading a run against statuses that are not those before it writes only what
  // should be written exactly when they know as much of the reported tests and
  // no other test that was absent.
  lemma NothingSpuriousIff(prev: Statuses, stale: Statuses, obs: seq<Observation>)
    requires NoRepeats(obs)
    ensures Submap(Delta(stale, obs), Delta(prev, obs)) <==>
      NoFalseNews(prev, stale, obs) && NoFalseAbsence(prev, stale, obs)
  {
    hide Delta, Says;
    var written, expected := Delta(stale, obs), Delta(prev, obs);
    forall o | o in obs
      ensures o.key in written ==> written[o.key] == o.status
      ensures o.key in expected ==> expected[o.key] == o.status
      ensures o.key in written <==> !Says(stale, o)
      ensures o.key in expected <==> !Says(prev, o)
    {
      DeltaOfReported(prev, obs, o);
      DeltaOfReported(stale, obs, o);
    }
    forall k | k !in Keys(obs)
      ensures k in written ==> written[k] == MISSING
      ensures k in expected ==> expected[k] == MISSING
      ensures k in written <==> k in stale && stale[k] != MISSING
      ensures k in expected <==> k in prev && prev[k] != MISSING
    {
      DeltaOfAbsent(prev, obs, k);
      DeltaOfAbsent(stale, obs, k);
    }
    assert forall o | o in obs :: o.key in Keys(obs);
  }

  // It writes all of that, and nothing else, exactly when the two agree on the
  // reported tests and on the tests that are to be marked.
  lemma StaleMemoryIsHarmlessIff(prev: Statuses, stale: Statuses, obs: seq<Observation>)
    requires NoRepeats(obs)
    ensures Delta(stale, obs) == Delta(prev, obs) <==>
      && (forall o | o in obs :: Says(prev, o) <==> Says(stale, o))
      && (forall k | k !in Keys(obs) :: (k in prev && prev[k] != MISSING) <==> (k in stale && stale[k] != MISSING))
  {
    NothingSpuriousIff(prev, stale, obs);
    NothingSpuriousIff(stale, prev, obs);
    hide Delta, Says, Keys;
    if Submap(Delta(stale, obs), Delta(prev, obs)) && Submap(Delta(prev, obs), Delta(stale, obs)) {
      SubmapsAreEqual(Delta(stale, obs), Delta(prev, obs));
    }
  }

  // Why the process must be fresh: memory left by a later run may have forgotten
  // what was known, and re-reading the first run against it writes an entry that
  // no uninterrupted pass writes.
  lemma StaleMemoryWritesSpuriousEntry(k: TestKey)
    ensures var init: Statuses := map[k := "PASS"];
      var first, second := [Observation(k, "PASS")], [Observation(k, "FAIL")];
      !Submap(Delta(After(After(init, first), second), first), Delta(init, first))
  {
    hide Delta, After;
    var init: Statuses := map[k := "PASS"];
    var first, second := [Observation(k, "PASS")], [Observation(k, "FAIL")];
    var stale := After(After(init, first), second);
    RunIsRecorded(After(init, first), second);
    assert "PASS"[0] != "FAIL"[0];
    assert second[0] in second && first[0] in first;
    assert stale[k] == "FAIL" && !Says(stale, first[0]) && Says(init, first[0]);
    NothingSpuriousIff(init, stale, first);
  }

  // And the entries of a run are lost when its statuses stay in memory after a
  // batch that failed: on the next attempt there is no news.
  lemma StaleMemoryLosesEntries(prev: Statuses, obs: seq<Observation>)
    requires NoRepeats(obs)
    ensures Delta(After(prev, obs), obs) == map[]
  {
    RunIsRecorded(prev, obs);
    var after := After(prev, obs);
    forall o | o in obs ensures o.key !in Delta(after, obs) {
      DeltaOfReported(after, obs, o);
    }
    forall k | k !in Keys(obs) ensures k !in Delta(after, obs) {
      DeltaOfAbsent(after, obs, k);
    }
    hide Delta, After;
    forall k ensures k !in Delta(after, obs) {
      assert k in Keys(obs) ==> exists o :: o in obs && o.key == k;
    }
  }
}
