// The history job itself: the status cache, the write buffer and its batches,
// and the checkpoint (scripts/process_test_history.py). Every entity write can
// be the process's last.
module HistoryJob {
  import opened Wrappers
  import opened History
  import HistoryRestart

  const BATCH_SIZE := 500

  datatype Stored = Stored(key: EntryKey, entry: Entry)

  // Died: the process ends between two entity writes. Raised: the key name of an
  // entry is too long. NoStatuses: the flushed statuses cannot be loaded.
  datatype Outcome = Finished | Died | Raised | NoStatuses

  // Writing entities one after the other, later ones winning.
  function PutAll(store: map<EntryKey, Entry>, buffer: seq<Stored>): map<EntryKey, Entry> {
    if buffer == [] then store else
      PutAll(store, buffer[..|buffer| - 1])[buffer[|buffer| - 1].key := buffer[|buffer| - 1].entry]
  }

  // A list of statuses read into a dictionary, later ones winning.
  function AsDictionary(listed: seq<Observation>): Statuses {
    if listed == [] then map[] else
      AsDictionary(listed[..|listed| - 1])[listed[|listed| - 1].key := listed[|listed| - 1].status]
  }

  // No entry yet in this run, and not the status remembered.
  predicate IsNews(statuses: Statuses, unique: set<TestKey>, k: TestKey, status: string) {
    k !in unique && (k !in statuses || statuses[k] != status)
  }

  // ---- what one visit does to the entries found so far ----

  function Visit(prev: Statuses, d: Statuses, k: TestKey, status: string): Statuses {
    if IsNews(prev, d.Keys, k, status) then d[k := status] else d
  }

  lemma FirstChangeStep(prev: Statuses, done: seq<Observation>, o: Observation, k: TestKey)
    ensures FirstChange(prev, done + [o], k)
      == if FirstChange(prev, done, k).Some? then FirstChange(prev, done, k)
         else if o.key == k && (k !in prev || prev[k] != o.status) then Some(o.status) else None
  {
    assert (done + [o])[..|done|] == done;
  }

  lemma ChangedStep(prev: Statuses, done: seq<Observation>, o: Observation)
    ensures Changed(prev, done + [o]) == Visit(prev, Changed(prev, done), o.key, o.status)
  {
    var obs := done + [o];
    assert obs[|done|] == o;
    forall k ensures k in Changed(prev, obs) <==> k in Visit(prev, Changed(prev, done), o.key, o.status) {
      FirstChangeStep(prev, done, o, k);
      FirstChangeOnlyObserved(prev, done, k);
      FirstChangeOnlyObserved(prev, obs, k);
    }
    forall k | k in Changed(prev, obs)
      ensures Changed(prev, obs)[k] == Visit(prev, Changed(prev, done), o.key, o.status)[k]
    {
      FirstChangeStep(prev, done, o, k);
      FirstChangeOnlyObserved(prev, done, k);
    }
  }

  lemma {:induction false} FirstChangeOnlyObserved(prev: Statuses, obs: seq<Observation>, k: TestKey)
    ensures FirstChange(prev, obs, k).Some? ==> k in Keys(obs)
  {
    FirstChangeSound(prev, obs, k);
  }

  lemma {:induction false} FirstChangeStays(prev: Statuses, done: seq<Observation>, obs: seq<Observation>, k: TestKey)
    requires done <= obs && FirstChange(prev, done, k).Some?
    ensures FirstChange(prev, obs, k) == FirstChange(prev, done, k)
  {
    if |done| < |obs| {
      FirstChangeStays(prev, done, obs[..|obs| - 1], k);
    } else {
      assert done == obs;
    }
  }

  // Entries found early are final.
  lemma ChangedIsFinal(prev: Statuses, done: seq<Observation>, obs: seq<Observation>)
    requires done <= obs
    ensures HistoryRestart.Submap(Changed(prev, done), Delta(prev, obs))
  {
    forall k | k in Changed(prev, done) ensures k in Delta(prev, obs) && Delta(prev, obs)[k] == Changed(prev, done)[k] {
      FirstChangeStays(prev, done, obs, k);
      FirstChangeOnlyObserved(prev, obs, k);
    }
  }

  lemma NewKey(prev: Statuses, d: Statuses, k: TestKey, status: string)
    requires k !in d
    ensures prev + d[k := status] == (prev + d)[k := status]
    ensures d[k := status].Keys == d.Keys + {k} && |d[k := status]| == |d| + 1
  {
    assert d[k := status].Keys == d.Keys + {k};
  }

  lemma VisitCount(prev: Statuses, d: Statuses, k: TestKey, status: string)
    ensures |Visit(prev, d, k, status)| == |d| + (if IsNews(prev, d.Keys, k, status) then 1 else 0)
  {
    if IsNews(prev, d.Keys, k, status) { NewKey(prev, d, k, status); }
  }

  function NewEntity(run: Run, news: bool, k: TestKey, status: string): Option<Stored> {
    if news then Some(Stored(KeyOf(run.id, k), EntryOf(run, k, status))) else None
  }

  function VisitTarget(target: map<EntryKey, Entry>, run: Run, news: bool, k: TestKey, status: string)
    : map<EntryKey, Entry>
  {
    if news then target[KeyOf(run.id, k) := EntryOf(run, k, status)] else target
  }

  lemma VisitEntity(target: map<EntryKey, Entry>, run: Run, news: bool, k: TestKey, status: string)
    ensures var entity := NewEntity(run, news, k, status);
      && entity.Some? == news
      && (news ==> entity.value == Stored(KeyOf(run.id, k), EntryOf(run, k, status)))
      && VisitTarget(target, run, news, k, status)
           == if news then target[entity.value.key := entity.value.entry] else target
  {
  }

  // ---- the store while a run is being written ----

  // An entity for change k of the run: its fields are the run's, the test's and the
  // new status.
  predicate Records(run: Run, k: TestKey, status: string, entry: Entry) {
    && entry.runId == run.id && entry.browser == run.browser && entry.date == run.date
    && entry.test == k.0 && entry.subtest == k.1 && entry.status == status
  }

  // An entry for one of the changes d.
  ghost predicate IsEntry(run: Run, d: Statuses, e: EntryKey, entry: Entry) {
    exists k :: k in d && e == KeyOf(run.id, k) && Records(run, k, d[k], entry)
  }

  // Only entries for changes d have been added to the store.
  ghost predicate OnlyAdds(run: Run, before: map<EntryKey, Entry>, store: map<EntryKey, Entry>, d: Statuses) {
    && before.Keys <= store.Keys
    && forall e | e in store :: (e in before && store[e] == before[e]) || IsEntry(run, d, e, store[e])
  }

  ghost predicate BufferedFrom(run: Run, buffer: seq<Stored>, d: Statuses) {
    forall s | s in buffer :: IsEntry(run, d, s.key, s.entry)
  }

  lemma OneWritten(run: Run, before: map<EntryKey, Entry>, was: map<EntryKey, Entry>, buffer: seq<Stored>, i: nat,
                   all: Statuses)
    requires i < |buffer| && BufferedFrom(run, buffer, all) && OnlyAdds(run, before, PutAll(was, buffer[..i]), all)
    ensures PutAll(was, buffer[..i + 1]) == PutAll(was, buffer[..i])[buffer[i].key := buffer[i].entry]
    ensures OnlyAdds(run, before, PutAll(was, buffer[..i + 1]), all)
  {
    hide IsEntry;
    assert buffer[i] in buffer && buffer[..i + 1][..i] == buffer[..i];
  }

  // An entry for every change d has been added to the store, and no other: where
  // two of them share a key, for one of them.
  ghost predicate Adds(run: Run, before: map<EntryKey, Entry>, store: map<EntryKey, Entry>, d: Statuses) {
    && store.Keys == before.Keys + EntryKeys(run, d)
    && forall e | e in store :: if e in EntryKeys(run, d) then IsEntry(run, d, e, store[e]) else store[e] == before[e]
  }

  lemma AddOneMore(run: Run, before: map<EntryKey, Entry>, store: map<EntryKey, Entry>, d: Statuses, k: TestKey,
                   status: string)
    requires Adds(run, before, store, d) && k !in d
    ensures Adds(run, before, store[KeyOf(run.id, k) := EntryOf(run, k, status)], d[k := status])
  {
    var d', store' := d[k := status], store[KeyOf(run.id, k) := EntryOf(run, k, status)];
    forall e ensures e in EntryKeys(run, d') <==> e in EntryKeys(run, d) || e == KeyOf(run.id, k) {
      EntryKeyOneMore(run, d, k, status, e);
    }
    hide EntryKeys, EntryOf, KeyOf;
    forall e | e in EntryKeys(run, d') ensures IsEntry(run, d', e, store'[e]) {
      EntryOneMore(run, d, k, status, e, store'[e]);
    }
  }

  lemma EntryKeyOneMore(run: Run, d: Statuses, k: TestKey, status: string, e: EntryKey)
    requires k !in d
    ensures e in EntryKeys(run, d[k := status]) <==> e in EntryKeys(run, d) || e == KeyOf(run.id, k)
  {
    var d' := d[k := status];
    if k' :| Writes(run, d, e, k') {
      assert Writes(run, d', e, k');
    }
    if k' :| Writes(run, d', e, k') {
      assert k' == k || Writes(run, d, e, k');
    }
    assert Writes(run, d', KeyOf(run.id, k), k);
  }

  lemma EntryOneMore(run: Run, d: Statuses, k: TestKey, status: string, e: EntryKey, entry: Entry)
    requires k !in d
    ensures IsEntry(run, d, e, entry) ==> IsEntry(run, d[k := status], e, entry)
    ensures IsEntry(run, d[k := status], KeyOf(run.id, k), EntryOf(run, k, status))
  {
    hide KeyOf;
    var d' := d[k := status];
    if IsEntry(run, d, e, entry) {
      var k' :| k' in d && e == KeyOf(run.id, k') && Records(run, k', d[k'], entry);
      assert k' in d' && d'[k'] == d[k'];
    }
    assert k in d' && d'[k] == status;
  }

  // Only entries of the run have been added to the store.
  ghost predicate Between(before: map<EntryKey, Entry>, store: map<EntryKey, Entry>, entries: map<EntryKey, Entry>) {
    && before.Keys <= store.Keys
    && forall e | e in store ::
         (e in before && store[e] == before[e]) || (e in entries && store[e] == entries[e])
  }

  // On one-line test names the entries are those of the run.
  lemma AddsExactly(run: Run, before: map<EntryKey, Entry>, store: map<EntryKey, Entry>, d: Statuses)
    requires AllOneLine(d)
    ensures OnlyAdds(run, before, store, d) ==> Between(before, store, Entries(run, d))
    ensures Adds(run, before, store, d) ==> store == before + Entries(run, d)
  {
    EntriesHaveKeys(run, d);
    hide Entries, EntryKeys, IsEntry, AllOneLine;
    forall e, entry | IsEntry(run, d, e, entry) ensures e in Entries(run, d) && Entries(run, d)[e] == entry {
      IsThatEntry(run, d, e, entry);
    }
  }

  lemma IsThatEntry(run: Run, d: Statuses, e: EntryKey, entry: Entry)
    requires AllOneLine(d) && IsEntry(run, d, e, entry)
    ensures e in Entries(run, d) && Entries(run, d)[e] == entry
  {
    EntriesAreExact(run, d);
    hide KeyOf, Writes;
    var k :| k in d && e == KeyOf(run.id, k) && Records(run, k, d[k], entry);
  }

  lemma EntriesHaveKeys(run: Run, d: Statuses)
    ensures Entries(run, d).Keys == EntryKeys(run, d)
  {
    hide EntryKeys, Writes;
  }

  // ---- the whole run ----

  ghost function RunEntries(run: Run, prev: Statuses): map<EntryKey, Entry> {
    Entries(run, Delta(prev, Observations(run.results)))
  }

  lemma {:induction false} ObservationsPrefix(results: seq<TestData>, i: nat)
    requires i <= |results|
    ensures Observations(results[..i]) <= Observations(results)
  {
    if i < |results| {
      ObservationsPrefix(results[..|results| - 1], i);
      assert results[..|results| - 1][..i] == results[..i];
    } else {
      assert results[..i] == results;
    }
  }

  lemma EntriesAreRecords(run: Run, delta: Statuses)
    requires AllOneLine(delta)
    ensures forall k | k in delta ::
      KeyOf(run.id, k) in Entries(run, delta) && Records(run, k, delta[k], Entries(run, delta)[KeyOf(run.id, k)])
  {
    EntriesAreExact(run, delta);
    hide KeyOf;
  }

  lemma RunAddsExactly(run: Run, prev: Statuses, before: map<EntryKey, Entry>, store: map<EntryKey, Entry>)
    ensures var delta := Delta(prev, Observations(run.results));
      AllOneLine(prev) ==>
        && (OnlyAdds(run, before, store, delta) ==> Between(before, store, RunEntries(run, prev)))
        && (Adds(run, before, store, delta) ==>
              && store == before + RunEntries(run, prev)
              && forall k | k in delta ::
                   KeyOf(run.id, k) in store && Records(run, k, delta[k], store[KeyOf(run.id, k)]))
  {
    hide Delta, Observations, OnlyAdds, Adds, Between, Entries, Records, AllOneLine, KeyOf;
    if AllOneLine(prev) {
      DeltaIsOneLine(prev, run.results);
      AddsExactly(run, before, store, Delta(prev, Observations(run.results)));
      EntriesAreRecords(run, Delta(prev, Observations(run.results)));
    }
  }

  // A change found in a prefix of the report is final.
  lemma ChangeIsWritten(run: Run, prev: Statuses, done: seq<Observation>, o: Observation)
    requires done + [o] <= Observations(run.results)
    requires IsNews(prev, Changed(prev, done).Keys, o.key, o.status)
    ensures MayWrite(Delta(prev, Observations(run.results)), o.key, o.status)
  {
    ChangedStep(prev, done, o);
    ChangedIsFinal(prev, done + [o], Observations(run.results));
  }

  lemma TargetStep(before: map<EntryKey, Entry>, target: map<EntryKey, Entry>, run: Run, prev: Statuses, d: Statuses,
                   k: TestKey, status: string)
    requires Adds(run, before, target, d)
    ensures Adds(run, before, VisitTarget(target, run, IsNews(prev, d.Keys, k, status), k, status),
                 Visit(prev, d, k, status))
  {
    if IsNews(prev, d.Keys, k, status) {
      AddOneMore(run, before, target, d, k, status);
    }
  }

  // d and target describe the part of the report read so far.
  ghost predicate Tracks(run: Run, prev: Statuses, before: map<EntryKey, Entry>, done: seq<Observation>,
                         d: Statuses, target: map<EntryKey, Entry>, all: Statuses)
  {
    && done <= Observations(run.results) && d == Changed(prev, done)
    && Adds(run, before, target, d) && all == Delta(prev, Observations(run.results))
  }

  predicate MayWrite(all: Statuses, k: TestKey, status: string) {
    k in all && all[k] == status
  }

  lemma MayWriteIsEntry(run: Run, all: Statuses, k: TestKey, status: string)
    requires MayWrite(all, k, status)
    ensures IsEntry(run, all, KeyOf(run.id, k), EntryOf(run, k, status))
  {
    hide KeyOf;
    assert k in all && Records(run, k, all[k], EntryOf(run, k, status));
  }

  lemma ObserveStep(run: Run, prev: Statuses, before: map<EntryKey, Entry>, done: seq<Observation>, o: Observation,
                    d: Statuses, target: map<EntryKey, Entry>, all: Statuses)
    requires Tracks(run, prev, before, done, d, target, all) && done + [o] <= Observations(run.results)
    ensures var news := IsNews(prev, d.Keys, o.key, o.status);
      && Tracks(run, prev, before, done + [o], Visit(prev, d, o.key, o.status),
                VisitTarget(target, run, news, o.key, o.status), all)
      && (news ==> MayWrite(all, o.key, o.status))
  {
    ChangedStep(prev, done, o);
    TargetStep(before, target, run, prev, d, o.key, o.status);
    if IsNews(prev, d.Keys, o.key, o.status) {
      ChangeIsWritten(run, prev, done, o);
    }
  }

  lemma TestFollows(results: seq<TestData>, i: nat)
    requires i < |results|
    ensures Observations(results[..i + 1]) == Observations(results[..i]) + TestObservations(results[i])
    ensures Observations(results[..i]) + TestObservations(results[i]) <= Observations(results)
  {
    assert results[..i + 1][..i] == results[..i];
    ObservationsPrefix(results, i + 1);
  }

  lemma TestShape(t: TestData)
    ensures var mine := TestObservations(t);
      |mine| == |t.subtests| + 1 && mine[0] == Observation((Clean(t.test), ""), t.status)
  {
  }

  lemma SubtestShape(t: TestData, j: nat)
    requires j < |t.subtests|
    ensures var mine := TestObservations(t);
      && |mine| == |t.subtests| + 1
      && mine[j + 1] == Observation((Clean(t.test), SubtestName(t.subtests[j].name)), t.subtests[j].status)
  {
  }

  lemma OnePastPrefix(done: seq<Observation>, mine: seq<Observation>, j: nat, obs: seq<Observation>)
    requires done + mine <= obs && j < |mine|
    ensures done + mine[..j] + [mine[j]] <= obs
    ensures done + mine[..j] + [mine[j]] == done + mine[..j + 1]
    ensures done + mine[..0] == done
  {
  }

  // What has been read of the report once m statuses of its test i have been.
  ghost function ReadSoFar(results: seq<TestData>, i: nat, m: nat): seq<Observation>
    requires i < |results| && m <= |TestObservations(results[i])|
  {
    Observations(results[..i]) + TestObservations(results[i])[..m]
  }

  lemma ReadStarts(results: seq<TestData>, i: nat)
    requires i < |results|
    ensures ReadSoFar(results, i, 0) == Observations(results[..i])
    ensures ReadSoFar(results, i, |TestObservations(results[i])|) == Observations(results[..i + 1])
  {
    TestFollows(results, i);
    var mine := TestObservations(results[i]);
    assert mine[..|mine|] == mine;
  }

  lemma ReadStep(run: Run, prev: Statuses, before: map<EntryKey, Entry>, i: nat, m: nat,
                 d: Statuses, target: map<EntryKey, Entry>, all: Statuses)
    requires i < |run.results| && m < |TestObservations(run.results[i])|
    requires Tracks(run, prev, before, ReadSoFar(run.results, i, m), d, target, all)
    ensures var o := TestObservations(run.results[i])[m];
      var news := IsNews(prev, d.Keys, o.key, o.status);
      && Tracks(run, prev, before, ReadSoFar(run.results, i, m + 1), Visit(prev, d, o.key, o.status),
                VisitTarget(target, run, news, o.key, o.status), all)
      && (news ==> MayWrite(all, o.key, o.status))
  {
    var done, mine := Observations(run.results[..i]), TestObservations(run.results[i]);
    TestFollows(run.results, i);
    OnePastPrefix(done, mine, m, Observations(run.results));
    ObserveStep(run, prev, before, ReadSoFar(run.results, i, m), mine[m], d, target, all);
  }

  lemma Moved<T>(a: set<T>, b: set<T>, x: T)
    requires x in b && a !! b
    ensures a + {x} + (b - {x}) == a + b && a + {x} !! b - {x}
  {
  }

  ghost function Unseen(unseen: set<TestKey>, mine: seq<Observation>, m: nat): set<TestKey>
    requires m <= |mine|
  {
    unseen - Keys(mine[..m])
  }

  lemma StaysSameElsewhere(a: map<string, Statuses>, b: map<string, Statuses>, c: map<string, Statuses>,
                           browser: string)
    requires SameElsewhere(a, b, browser) && SameElsewhere(b, c, browser)
    ensures SameElsewhere(a, c, browser)
  {
  }

  lemma UnseenStep(unseen: set<TestKey>, mine: seq<Observation>, m: nat)
    requires m < |mine|
    ensures Unseen(unseen, mine, m + 1) == Unseen(unseen, mine, m) - {mine[m].key}
  {
    assert mine[..m + 1] == mine[..m] + [mine[m]];
  }

  lemma UnseenEnds(unseen: set<TestKey>, mine: seq<Observation>)
    ensures Unseen(unseen, mine, 0) == unseen
    ensures Unseen(unseen, mine, |mine|) == unseen - Keys(mine)
  {
    assert mine[..|mine|] == mine;
  }

  lemma UnseenAfterTest(unseen: set<TestKey>, results: seq<TestData>, i: nat)
    requires i < |results|
    ensures unseen - Keys(Observations(results[..i + 1]))
      == unseen - Keys(Observations(results[..i])) - Keys(TestObservations(results[i]))
  {
    TestFollows(results, i);
  }

  lemma ObservationsOfNone(unseen: set<TestKey>, results: seq<TestData>)
    ensures Observations(results[..0]) == [] && unseen - Keys([]) == unseen
    ensures results[..|results|] == results
  {
  }

  // ---- the missing tests ----

  // The entries once the tests in gone have been marked as well.
  function Marked(prev: Statuses, obs: seq<Observation>, gone: set<TestKey>): Statuses {
    Changed(prev, obs) + map k | k in gone && k in prev && prev[k] != MISSING :: MISSING
  }

  lemma MarkedStep(prev: Statuses, obs: seq<Observation>, gone: set<TestKey>, k: TestKey)
    requires k in prev && k !in Keys(obs) && k !in gone
    ensures Marked(prev, obs, gone + {k}) == Visit(prev, Marked(prev, obs, gone), k, MISSING)
  {
  }

  lemma MarkedAll(prev: Statuses, obs: seq<Observation>)
    ensures Marked(prev, obs, {}) == Changed(prev, obs)
    ensures Marked(prev, obs, prev.Keys - Keys(obs)) == Delta(prev, obs)
  {
    assert (map k | k in prev.Keys - Keys(obs) && k in prev && prev[k] != MISSING :: MISSING) == Vanished(prev, obs);
  }

  lemma MarkIsWritten(run: Run, prev: Statuses, k: TestKey)
    requires k in prev && k !in Keys(Observations(run.results)) && prev[k] != MISSING
    ensures MayWrite(Delta(prev, Observations(run.results)), k, MISSING)
  {
  }

  // d and target describe the whole report and the tests marked so far.
  ghost predicate TracksMarks(run: Run, prev: Statuses, before: map<EntryKey, Entry>, gone: set<TestKey>,
                              d: Statuses, target: map<EntryKey, Entry>, all: Statuses)
  {
    && d == Marked(prev, Observations(run.results), gone)
    && Adds(run, before, target, d) && all == Delta(prev, Observations(run.results))
  }

  lemma MarkStep(run: Run, prev: Statuses, before: map<EntryKey, Entry>, gone: set<TestKey>, k: TestKey,
                 d: Statuses, target: map<EntryKey, Entry>, all: Statuses)
    requires TracksMarks(run, prev, before, gone, d, target, all)
    requires k in prev && k !in Keys(Observations(run.results)) && k !in gone
    ensures var news := IsNews(prev, d.Keys, k, MISSING);
      && TracksMarks(run, prev, before, gone + {k}, Visit(prev, d, k, MISSING),
                     VisitTarget(target, run, news, k, MISSING), all)
      && (news ==> MayWrite(all, k, MISSING))
  {
    MarkedStep(prev, Observations(run.results), gone, k);
    TargetStep(before, target, run, prev, d, k, MISSING);
    if IsNews(prev, d.Keys, k, MISSING) {
      MarkIsWritten(run, prev, k);
    }
  }

  lemma TracksNothing(run: Run, prev: Statuses, before: map<EntryKey, Entry>)
    ensures Tracks(run, prev, before, [], map[], before, Delta(prev, Observations(run.results)))
  {
    hide Delta;
    assert Changed(prev, []) == map[];
    assert EntryKeys(run, map[]) == {};
  }

  lemma TracksReport(run: Run, prev: Statuses, before: map<EntryKey, Entry>, d: Statuses,
                     target: map<EntryKey, Entry>, all: Statuses)
    requires Tracks(run, prev, before, Observations(run.results), d, target, all)
    ensures TracksMarks(run, prev, before, {}, d, target, all)
  {
    MarkedAll(prev, Observations(run.results));
  }

  lemma TracksRun(run: Run, prev: Statuses, before: map<EntryKey, Entry>, d: Statuses,
                  target: map<EntryKey, Entry>, all: Statuses)
    requires TracksMarks(run, prev, before, prev.Keys - Keys(Observations(run.results)), d, target, all)
    ensures d == all == Delta(prev, Observations(run.results)) && Adds(run, before, target, all)
  {
    MarkedAll(prev, Observations(run.results));
  }

  lemma CacheIs(before: map<string, Statuses>, after: map<string, Statuses>, b: string, statuses: Statuses)
    requires SameElsewhere(before, after, b) && b in after && after[b] == statuses
    ensures after == before[b := statuses]
  {
  }

  // Only browser b's statuses may differ.
  ghost predicate SameElsewhere(was: map<string, Statuses>, now: map<string, Statuses>, b: string) {
    forall c | c != b :: (c in was <==> c in now) && (c in was ==> now[c] == was[c])
  }

  const BROWSERS := ["chrome", "edge", "firefox", "safari"]

  // The flushed statuses once those in memory of some browsers replace them.
  function Flushed(gcs: map<string, Statuses>, cache: map<string, Statuses>, browsers: set<string>)
    : map<string, Statuses>
  {
    gcs + map b | b in cache && b in browsers :: cache[b]
  }

  ghost function FirstBrowsers(i: nat): set<string>
    requires i <= |BROWSERS|
  {
    set b | b in BROWSERS[..i]
  }

  lemma FlushedNone(gcs: map<string, Statuses>, cache: map<string, Statuses>)
    ensures Flushed(gcs, cache, FirstBrowsers(0)) == gcs
  {
  }

  lemma FlushedStep(gcs: map<string, Statuses>, cache: map<string, Statuses>, i: nat)
    requires i < |BROWSERS|
    ensures var b, before := BROWSERS[i], Flushed(gcs, cache, FirstBrowsers(i));
      Flushed(gcs, cache, FirstBrowsers(i + 1)) == if b in cache then before[b := cache[b]] else before
  {
    hide BROWSERS;
    assert BROWSERS[..i + 1] == BROWSERS[..i] + [BROWSERS[i]];
    assert FirstBrowsers(i + 1) == FirstBrowsers(i) + {BROWSERS[i]};
  }

  lemma AllBrowsers()
    ensures FirstBrowsers(|BROWSERS|) == HistoryRestart.FLUSHED
  {
    var all := BROWSERS[..|BROWSERS|];
    assert all == BROWSERS;
    assert BROWSERS[0] == "chrome" && BROWSERS[1] == "edge" && BROWSERS[2] == "firefox" && BROWSERS[3] == "safari";
  }

  ghost predicate SameBut<K(!new), V>(was: map<K, V>, now: map<K, V>, keys: set<K>) {
    forall k | k !in keys :: (k in was <==> k in now) && (k in was ==> now[k] == was[k])
  }

  lemma FlushedIs(gcs: map<string, Statuses>, cache: map<string, Statuses>)
    ensures var now, browsers := Flushed(gcs, cache, HistoryRestart.FLUSHED), {"chrome", "edge", "firefox", "safari"};
      && (forall b | b in cache && b in browsers :: b in now && now[b] == cache[b])
      && SameBut(gcs, now, cache.Keys * browsers)
  {
  }

  class Job {
    // Module-level cache of the statuses of each browser.
    var cache: map<string, Statuses>
    // Datastore entities and the date entity.
    var store: map<EntryKey, Entry>
    var date: string
    // Cloud Storage: the flushed statuses.
    var gcs: map<string, Statuses>

    // The working state of process_single_run.
    var unique: set<TestKey>
    var notSeen: set<TestKey>
    var entitiesToWrite: seq<Stored>
    var totalWritten: nat

    // Entity writes the process still lives through.
    var writesLeft: nat

    constructor (store: map<EntryKey, Entry>, gcs: map<string, Statuses>, date: string, writesLeft: nat)
      ensures this.store == store && this.gcs == gcs && this.date == date && this.writesLeft == writesLeft
      ensures cache == map[]
    {
      this.store, this.gcs, this.date, this.writesLeft := store, gcs, date, writesLeft;
      cache, unique, notSeen, entitiesToWrite, totalWritten := map[], {}, {}, [], 0;
    }

    // The statuses and the keys of the run being processed, with entries d so far.
    ghost predicate Remembers(run: Run, prev: Statuses, d: Statuses)
      reads this`cache, this`unique
    {
      run.browser in cache && cache[run.browser] == prev + d && unique == d.Keys
    }

    // n entries are written or buffered, and writing the buffer out would turn
    // the store into target; all holds every change the run may write.
    ghost predicate Writing(run: Run, n: nat, before: map<EntryKey, Entry>, target: map<EntryKey, Entry>,
                            all: Statuses)
      reads this`entitiesToWrite, this`totalWritten, this`store
    {
      && |entitiesToWrite| < BATCH_SIZE
      && totalWritten + |entitiesToWrite| == n
      && PutAll(store, entitiesToWrite) == target
      && OnlyAdds(run, before, store, all)
      && BufferedFrom(run, entitiesToWrite, all)
    }

    lemma WritingOnlyAdds(
        run: Run, n: nat, before: map<EntryKey, Entry>, target: map<EntryKey, Entry>, all: Statuses)
      requires Writing(run, n, before, target, all)
      ensures OnlyAdds(run, before, store, all)
    {
    }

    // create_entity_if_needed.
    method CreateEntityIfNeeded(run: Run, k: TestKey, status: string, ghost prev: Statuses, ghost d: Statuses)
      returns (r: Result<Option<Stored>, KeyError>)
      requires Remembers(run, prev, d)
      modifies this`cache, this`unique
      ensures r.Ok? ==> Remembers(run, prev, Visit(prev, d, k, status))
      ensures r.Ok? ==> r.value == NewEntity(run, IsNews(prev, d.Keys, k, status), k, status)
      ensures r.Ok? && r.value.Some? ==>
        && r.value.value.key == KeyOf(run.id, k) == EntryKey(run.id, Sha256(k.0 + "\n" + k.1))
        && Records(run, k, status, r.value.value.entry)
      ensures r.Err? <==> IsNews(prev, d.Keys, k, status) && !KeyFits(run.id)
      ensures SameElsewhere(old(cache), cache, run.browser)
    {
      if k in unique {
        return Ok(None);
      }
      var statuses := cache[run.browser];
      if k !in statuses || statuses[k] != status {
        var name := EntryKeyName(run.id, k);
        if name.Err? {
          return Err(name.error);
        }
        NewKey(prev, d, k, status);
        unique := unique + {k};
        cache := cache[run.browser := statuses[k := status]];
        return Ok(Some(Stored(name.value, EntryOf(run, k, status))));
      }
      return Ok(None);
    }

    // ndb.put_multi: entity by entity, unless the process dies on the way.
    method PutMulti(ghost run: Run, ghost before: map<EntryKey, Entry>, ghost all: Statuses) returns (alive: bool)
      requires OnlyAdds(run, before, store, all) && BufferedFrom(run, entitiesToWrite, all)
      modifies this`store, this`writesLeft, this`entitiesToWrite, this`totalWritten
      ensures OnlyAdds(run, before, store, all)
      ensures alive ==> store == PutAll(old(store), old(entitiesToWrite)) && entitiesToWrite == []
      ensures alive ==> totalWritten == old(totalWritten) + |old(entitiesToWrite)|
    {
      hide OnlyAdds, BufferedFrom;
      for i := 0 to |entitiesToWrite|
        invariant entitiesToWrite == old(entitiesToWrite) && totalWritten == old(totalWritten)
        invariant store == PutAll(old(store), entitiesToWrite[..i])
        invariant OnlyAdds(run, before, store, all)
      {
        if writesLeft == 0 {
          return false;
        }
        writesLeft := writesLeft - 1;
        var s := entitiesToWrite[i];
        OneWritten(run, before, old(store), entitiesToWrite, i, all);
        store := store[s.key := s.entry];
      }
      assert entitiesToWrite[..|entitiesToWrite|] == entitiesToWrite;
      totalWritten := totalWritten + |entitiesToWrite|;
      entitiesToWrite := [];
      return true;
    }

    // Up to 499 entities stay in the buffer; the 500th is written with them.
    predicate Batches(was: seq<Stored>, more: Stored, alive: bool, now: seq<Stored>, nothingWritten: bool) {
      && (|was| < 499 ==> alive && now == was + [more] && nothingWritten)
      && (|was| >= 499 && alive ==> now == [])
    }

    // add_entity: buffers an entity, if there is one, and writes a full batch.
    method AddEntity(entity: Option<Stored>, ghost run: Run, ghost n: nat, ghost before: map<EntryKey, Entry>,
                     ghost target: map<EntryKey, Entry>, ghost all: Statuses)
      returns (alive: bool)
      requires Writing(run, n, before, target, all)
      requires entity.Some? ==> IsEntry(run, all, entity.value.key, entity.value.entry)
      modifies this`store, this`writesLeft, this`entitiesToWrite, this`totalWritten
      ensures OnlyAdds(run, before, store, all)
      ensures entity.Some? ==> Batches(old(entitiesToWrite), entity.value, alive, entitiesToWrite, old(store) == store)
      ensures alive && entity.None? ==> Writing(run, n, before, target, all)
      ensures alive && entity.Some? ==> Writing(run, n + 1, before, target[entity.value.key := entity.value.entry], all)
    {
      if entity.None? {
        return true;
      }
      assert (entitiesToWrite + [entity.value])[..|entitiesToWrite|] == entitiesToWrite;
      entitiesToWrite := entitiesToWrite + [entity.value];
      if |entitiesToWrite| >= BATCH_SIZE {
        alive := PutMulti(run, before, all);
      } else {
        alive := true;
      }
    }

    // One status of the report, or one missing test: create and buffer.
    method Record(run: Run, k: TestKey, status: string, ghost prev: Statuses, ghost d: Statuses,
                  ghost before: map<EntryKey, Entry>, ghost target: map<EntryKey, Entry>,
                  ghost all: Statuses)
      returns (outcome: Outcome)
      requires Remembers(run, prev, d) && Writing(run, |d|, before, target, all)
      requires IsNews(prev, d.Keys, k, status) ==> MayWrite(all, k, status)
      modifies this`cache, this`unique, this`store, this`writesLeft, this`entitiesToWrite, this`totalWritten
      ensures outcome == Finished ==> Remembers(run, prev, Visit(prev, d, k, status))
      ensures outcome == Finished ==> Writing(run, |Visit(prev, d, k, status)|, before,
        VisitTarget(target, run, IsNews(prev, d.Keys, k, status), k, status), all)
      ensures outcome == Raised ==> !KeyFits(run.id)
      ensures outcome != NoStatuses && OnlyAdds(run, before, store, all)
      ensures SameElsewhere(old(cache), cache, run.browser)
    {
      hide *;
      VisitCount(prev, d, k, status);
      VisitEntity(target, run, IsNews(prev, d.Keys, k, status), k, status);
      if IsNews(prev, d.Keys, k, status) {
        MayWriteIsEntry(run, all, k, status);
      }
      var entity := CreateEntityIfNeeded(run, k, status, prev, d);
      WritingOnlyAdds(run, |d|, before, target, all);
      if entity.Err? {
        return Raised;
      }
      var alive := AddEntity(entity.value, run, |d|, before, target, all);
      return if alive then Finished else Died;
    }

    // A subtest's name, cut to the length the Datastore can index.
    method ShortName(name: string) returns (subtestName: string)
      ensures subtestName == SubtestName(name)
    {
      subtestName := Clean(name);
      if |subtestName| > MAX_SUBTEST_NAME_LENGTH {
        subtestName := subtestName[..MAX_SUBTEST_NAME_LENGTH];
      }
    }

    // The first m statuses of test i of the report have been visited, and unseen
    // were the unseen tests before test i.
    ghost predicate Reading(run: Run, i: nat, m: nat, prev: Statuses, before: map<EntryKey, Entry>,
                            unseen: set<TestKey>, d: Statuses, target: map<EntryKey, Entry>, all: Statuses)
      reads this`cache, this`unique, this`entitiesToWrite, this`totalWritten, this`store, this`notSeen
    {
      && i < |run.results| && m <= |TestObservations(run.results[i])|
      && Tracks(run, prev, before, ReadSoFar(run.results, i, m), d, target, all)
      && Remembers(run, prev, d) && Writing(run, |d|, before, target, all)
      && notSeen == Unseen(unseen, TestObservations(run.results[i]), m)
    }

    // One status of the report.
    method Observe(run: Run, i: nat, key: TestKey, status: string, ghost m: nat, ghost prev: Statuses,
                   ghost before: map<EntryKey, Entry>, ghost unseen: set<TestKey>,
                   ghost d0: Statuses, ghost target0: map<EntryKey, Entry>, ghost all: Statuses)
      returns (outcome: Outcome, ghost d: Statuses, ghost target: map<EntryKey, Entry>)
      requires Reading(run, i, m, prev, before, unseen, d0, target0, all)
      requires m < |TestObservations(run.results[i])| && TestObservations(run.results[i])[m] == Observation(key, status)
      modifies this`cache, this`unique, this`store, this`writesLeft, this`entitiesToWrite, this`totalWritten
      modifies this`notSeen
      ensures outcome == Finished ==> Reading(run, i, m + 1, prev, before, unseen, d, target, all)
      ensures outcome == Raised ==> !KeyFits(run.id)
      ensures outcome != NoStatuses && OnlyAdds(run, before, store, all)
      ensures SameElsewhere(old(cache), cache, run.browser)
    {
      hide Tracks, Remembers, Writing, OnlyAdds, TestObservations, Visit, VisitTarget, IsNews, MayWrite, ReadSoFar,
        Unseen, SameElsewhere;
      ReadStep(run, prev, before, i, m, d0, target0, all);
      outcome := Record(run, key, status, prev, d0, before, target0, all);
      target := VisitTarget(target0, run, IsNews(prev, d0.Keys, key, status), key, status);
      d := Visit(prev, d0, key, status);
      if outcome == Finished {
        notSeen := notSeen - {key};
        UnseenStep(unseen, TestObservations(run.results[i]), m);
      }
    }

    // One test of the report, then its subtests.
    method ReadTest(run: Run, i: nat, ghost prev: Statuses, ghost before: map<EntryKey, Entry>,
                    ghost unseen: set<TestKey>, ghost d0: Statuses, ghost target0: map<EntryKey, Entry>,
                    ghost all: Statuses)
      returns (outcome: Outcome, ghost d: Statuses, ghost target: map<EntryKey, Entry>)
      requires i < |run.results| && Reading(run, i, 0, prev, before, unseen, d0, target0, all)
      modifies this`cache, this`unique, this`store, this`writesLeft, this`entitiesToWrite, this`totalWritten
      modifies this`notSeen
      ensures outcome == Finished ==>
        Reading(run, i, |TestObservations(run.results[i])|, prev, before, unseen, d, target, all)
      ensures outcome == Raised ==> !KeyFits(run.id)
      ensures outcome != NoStatuses && OnlyAdds(run, before, store, all)
      ensures SameElsewhere(old(cache), cache, run.browser)
    {
      hide *;
      var test := run.results[i];
      var testName := Clean(test.test);
      TestShape(test);
      outcome, d, target := Observe(run, i, (testName, ""), test.status, 0, prev, before, unseen, d0, target0, all);
      if outcome != Finished {
        return;
      }
      for j := 0 to |test.subtests|
        invariant outcome == Finished
        invariant Reading(run, i, j + 1, prev, before, unseen, d, target, all)
        invariant OnlyAdds(run, before, store, all) && SameElsewhere(old(cache), cache, run.browser)
      {
        var subtestName := ShortName(test.subtests[j].name);
        SubtestShape(test, j);
        ghost var cached := cache;
        outcome, d, target := Observe(run, i, (testName, subtestName), test.subtests[j].status, j + 1, prev, before,
                                      unseen, d, target, all);
        StaysSameElsewhere(old(cache), cached, cache, run.browser);
        if outcome != Finished {
          return;
        }
      }
    }

    // The loop over the report.
    method ReadReport(run: Run, ghost prev: Statuses, ghost before: map<EntryKey, Entry>,
                      ghost all: Statuses)
      returns (outcome: Outcome, ghost d: Statuses, ghost target: map<EntryKey, Entry>)
      requires Tracks(run, prev, before, [], map[], before, all)
      requires Remembers(run, prev, map[]) && Writing(run, 0, before, before, all) && OnlyAdds(run, before, store, all)
      modifies this`cache, this`unique, this`store, this`writesLeft, this`entitiesToWrite, this`totalWritten
      modifies this`notSeen
      ensures outcome == Finished ==> Tracks(run, prev, before, Observations(run.results), d, target, all)
      ensures outcome == Finished ==> Remembers(run, prev, d) && Writing(run, |d|, before, target, all)
      ensures outcome == Finished ==> notSeen == old(notSeen) - Keys(Observations(run.results))
      ensures outcome == Raised ==> !KeyFits(run.id)
      ensures outcome != NoStatuses && OnlyAdds(run, before, store, all)
      ensures SameElsewhere(old(cache), cache, run.browser)
    {
      hide Tracks, Remembers, Writing, OnlyAdds, TestObservations, Observations, ReadSoFar, Keys, Unseen;
      d, target := map[], before;
      ObservationsOfNone(notSeen, run.results);
      for i := 0 to |run.results|
        invariant Tracks(run, prev, before, Observations(run.results[..i]), d, target, all)
        invariant Remembers(run, prev, d) && Writing(run, |d|, before, target, all)
        invariant notSeen == old(notSeen) - Keys(Observations(run.results[..i]))
        invariant OnlyAdds(run, before, store, all) && SameElsewhere(old(cache), cache, run.browser)
      {
        ReadStarts(run.results, i);
        UnseenEnds(notSeen, TestObservations(run.results[i]));
        ghost var cached, unseen := cache, notSeen;
        outcome, d, target := ReadTest(run, i, prev, before, notSeen, d, target, all);
        StaysSameElsewhere(old(cache), cached, cache, run.browser);
        if outcome != Finished {
          return;
        }
        UnseenAfterTest(old(notSeen), run.results, i);
      }
      outcome := Finished;
    }

    // The loop over the tests the report did not mention.
    method MarkMissing(run: Run, ghost prev: Statuses, ghost before: map<EntryKey, Entry>,
                       ghost d0: Statuses, ghost target0: map<EntryKey, Entry>, ghost all: Statuses)
      returns (outcome: Outcome, ghost d: Statuses, ghost target: map<EntryKey, Entry>)
      requires TracksMarks(run, prev, before, {}, d0, target0, all)
      requires Remembers(run, prev, d0) && Writing(run, |d0|, before, target0, all) && OnlyAdds(run, before, store, all)
      requires notSeen == prev.Keys - Keys(Observations(run.results))
      modifies this`cache, this`unique, this`store, this`writesLeft, this`entitiesToWrite, this`totalWritten
      ensures outcome == Finished ==> TracksMarks(run, prev, before, notSeen, d, target, all)
      ensures outcome == Finished ==> Remembers(run, prev, d) && Writing(run, |d|, before, target, all)
      ensures outcome == Raised ==> !KeyFits(run.id)
      ensures outcome != NoStatuses && OnlyAdds(run, before, store, all)
      ensures SameElsewhere(old(cache), cache, run.browser)
    {
      hide TracksMarks, Remembers, Writing, OnlyAdds, VisitTarget, Visit;
      d, target := d0, target0;
      var todo := notSeen;
      ghost var gone: set<TestKey> := {};
      while todo != {}
        invariant gone + todo == notSeen && gone !! todo
        invariant TracksMarks(run, prev, before, gone, d, target, all)
        invariant Remembers(run, prev, d) && Writing(run, |d|, before, target, all)
        invariant OnlyAdds(run, before, store, all)
        invariant SameElsewhere(old(cache), cache, run.browser)
        decreases todo
      {
        var k :| k in todo;
        MarkStep(run, prev, before, gone, k, d, target, all);
        outcome := Record(run, k, MISSING, prev, d, before, target, all);
        if outcome != Finished {
          return;
        }
        target := VisitTarget(target, run, IsNews(prev, d.Keys, k, MISSING), k, MISSING);
        d := Visit(prev, d, k, MISSING);
        Moved(gone, todo, k);
        gone, todo := gone + {k}, todo - {k};
      }
      assert gone == notSeen;
      outcome := Finished;
    }

    // The statuses a run of browser b is compared with.
    function Previous(b: string): Option<Statuses>
      reads this`cache, this`gcs
    {
      if b in cache then Some(cache[b]) else if b in gcs then Some(gcs[b]) else None
    }

    // _populate_previous_statuses.
    method PopulatePreviousStatuses(b: string) returns (ok: bool)
      modifies this`cache
      ensures ok <==> old(Previous(b)).Some?
      ensures if ok then cache == old(cache)[b := old(Previous(b)).value] else cache == old(cache)
      ensures SameElsewhere(old(cache), cache, b)
    {
      if b in cache {
        assert cache[b := cache[b]] == cache;
        return true;
      }
      if b !in gcs {
        return false;
      }
      cache := cache[b := gcs[b]];
      return true;
    }

    lemma NothingRead(run: Run, prev: Statuses, all: Statuses)
      requires run.browser in cache && cache[run.browser] == prev
      requires unique == {} && entitiesToWrite == [] && totalWritten == 0
      ensures Remembers(run, prev, map[]) && Writing(run, 0, store, store, all) && OnlyAdds(run, store, store, all)
    {
      var none: Statuses := map[];
      assert prev + none == prev;
    }

    lemma AllRead(run: Run, prev: Statuses, was: map<string, Statuses>, before: map<EntryKey, Entry>, d: Statuses,
                  target: map<EntryKey, Entry>, all: Statuses)
      requires Remembers(run, prev, d) && Writing(run, |d|, before, target, all)
      requires SameElsewhere(was, cache, run.browser)
      requires TracksMarks(run, prev, before, prev.Keys - Keys(Observations(run.results)), d, target, all)
      ensures cache == was[run.browser := After(prev, Observations(run.results))]
      ensures Adds(run, before, PutAll(store, entitiesToWrite), all) && all == Delta(prev, Observations(run.results))
      ensures totalWritten + |entitiesToWrite| == |Delta(prev, Observations(run.results))|
      ensures OnlyAdds(run, before, store, all) && BufferedFrom(run, entitiesToWrite, all)
    {
      TracksRun(run, prev, before, d, target, all);
      hide Delta, TracksMarks, OnlyAdds, Adds, BufferedFrom, Keys, Observations;
      CacheIs(was, cache, run.browser, After(prev, Observations(run.results)));
    }

    // process_single_run. On one-line test names, which the job itself keeps to, the
    // entries are exactly those of the run.
    method ProcessSingleRun(run: Run) returns (outcome: Outcome)
      modifies this`cache, this`unique, this`store, this`writesLeft, this`entitiesToWrite, this`totalWritten
      modifies this`notSeen
      ensures outcome == NoStatuses <==> old(Previous(run.browser)).None?
      ensures outcome == NoStatuses ==> store == old(store) && cache == old(cache)
      ensures outcome == Raised ==> !KeyFits(run.id)
      ensures outcome != NoStatuses ==>
        var prev := old(Previous(run.browser)).value;
        && OnlyAdds(run, old(store), store, Delta(prev, Observations(run.results)))
        && (AllOneLine(prev) ==> Between(old(store), store, RunEntries(run, prev)))
      ensures outcome == Finished ==>
        var prev := old(Previous(run.browser)).value;
        var obs := Observations(run.results);
        && cache == old(cache)[run.browser := After(prev, obs)]
        && Adds(run, old(store), store, Delta(prev, obs))
        && (AllOneLine(prev) ==>
              && store == old(store) + RunEntries(run, prev)
              && forall k | k in Delta(prev, obs) ::
                   KeyOf(run.id, k) in store && Records(run, k, Delta(prev, obs)[k], store[KeyOf(run.id, k)]))
        && totalWritten == |Delta(prev, obs)| && entitiesToWrite == []
    {
      hide *;
      var b := run.browser;
      var ok := PopulatePreviousStatuses(b);
      if !ok {
        return NoStatuses;
      }
      ghost var prev, before, populated := cache[b], store, cache;
      ghost var all := Delta(prev, Observations(run.results));
      TracksNothing(run, prev, before);
      notSeen := cache[b].Keys;
      unique, entitiesToWrite, totalWritten := {}, [], 0;
      NothingRead(run, prev, all);

      ghost var d, target;
      outcome, d, target := ReadReport(run, prev, before, all);
      StaysSameElsewhere(old(cache), populated, cache, b);
      ghost var read := cache;
      if outcome == Finished {
        TracksReport(run, prev, before, d, target, all);
        outcome, d, target := MarkMissing(run, prev, before, d, target, all);
        StaysSameElsewhere(old(cache), read, cache, b);
      }
      if outcome == Finished {
        AllRead(run, prev, old(cache), before, d, target, all);
        var alive := PutMulti(run, before, all);
        outcome := if alive then Finished else Died;
      }
      RunAddsExactly(run, prev, before, store);
    }

    // flush_previous_statuses_to_gcs: the upload replaces the whole list, which
    // is read back as a dictionary.
    method FlushPreviousStatuses(b: string)
      modifies this`gcs
      ensures gcs == if b in cache then old(gcs)[b := cache[b]] else old(gcs)
    {
      if b !in cache {
        return;
      }
      var listed: seq<Observation> := [];
      var todo := cache[b].Keys;
      while todo != {}
        invariant todo <= cache[b].Keys
        invariant AsDictionary(listed) == map k | k in cache[b].Keys - todo :: cache[b][k]
        decreases todo
      {
        var k :| k in todo;
        var o := Observation(k, cache[b][k]);
        assert (listed + [o])[..|listed|] == listed;
        listed, todo := listed + [o], todo - {k};
      }
      assert AsDictionary(listed) == cache[b];
      gcs := gcs[b := AsDictionary(listed)];
    }

    // commit_checkpoint.
    method CommitCheckpoint(newDate: string)
      modifies this`date, this`gcs
      ensures date == newDate
      ensures gcs == Flushed(old(gcs), cache, HistoryRestart.FLUSHED)
      ensures forall b | b in cache && b in {"chrome", "edge", "firefox", "safari"} :: b in gcs && gcs[b] == cache[b]
      ensures SameBut(old(gcs), gcs, cache.Keys * {"chrome", "edge", "firefox", "safari"})
    {
      hide *;
      date := newDate;
      FlushedNone(gcs, cache);
      for i := 0 to |BROWSERS|
        invariant date == newDate && gcs == Flushed(old(gcs), cache, FirstBrowsers(i))
      {
        FlushedStep(old(gcs), cache, i);
        FlushPreviousStatuses(BROWSERS[i]);
      }
      AllBrowsers();
      FlushedIs(old(gcs), cache);
    }
  }

  // ---- the job is the machine of HistoryRestart ----

  lemma RunIsPending(w: HistoryRestart.World, s: HistoryRestart.State, b: string)
    requires w.job == HistoryRestart.HistoryJob() && HistoryRestart.Working(w, s, b)
    ensures HistoryRestart.Pending(w, s, b) == RunEntries(w.sets[s.pos][b], HistoryRestart.Loaded(s, b))
  {
    hide Entries, Delta, Observations;
  }

  // What ProcessSingleRun promises of a run cut short is one WriteSome step of
  // the machine.
  lemma CutShortIsAStep(w: HistoryRestart.World, s: HistoryRestart.State, b: string, store: map<EntryKey, Entry>)
    requires w.job == HistoryRestart.HistoryJob() && HistoryRestart.Working(w, s, b)
    requires Between(s.store, store, RunEntries(w.sets[s.pos][b], HistoryRestart.Loaded(s, b)))
    ensures exists part :: HistoryRestart.Step(w, s, HistoryRestart.WriteSome(b, part), s.(store := store))
  {
    hide RunEntries, Between, HistoryRestart.Pending, Entries, Delta, Observations, After;
    var entries := RunEntries(w.sets[s.pos][b], HistoryRestart.Loaded(s, b));
    RunIsPending(w, s, b);
    var part := Written(store, entries);
    BetweenIsPart(s.store, store, entries);
    assert HistoryRestart.Step(w, s, HistoryRestart.WriteSome(b, part), s.(store := store));
  }

  // What it promises of a finished run is a Finish step.
  lemma FinishedIsAStep(w: HistoryRestart.World, s: HistoryRestart.State, b: string)
    requires w.job == HistoryRestart.HistoryJob() && HistoryRestart.Working(w, s, b)
    ensures var run, prev := w.sets[s.pos][b], HistoryRestart.Loaded(s, b);
      HistoryRestart.Step(w, s, HistoryRestart.Finish(b), s.(
        store := s.store + RunEntries(run, prev),
        cache := s.cache[b := After(prev, Observations(run.results))],
        done := s.done + {b}))
  {
    hide RunEntries, HistoryRestart.Pending, Entries, Delta, Observations, After;
    RunIsPending(w, s, b);
  }

  ghost function Written(store: map<EntryKey, Entry>, entries: map<EntryKey, Entry>): map<EntryKey, Entry> {
    map e | e in store && e in entries && store[e] == entries[e] :: entries[e]
  }

  lemma BetweenIsPart(before: map<EntryKey, Entry>, store: map<EntryKey, Entry>, entries: map<EntryKey, Entry>)
    requires Between(before, store, entries)
    ensures HistoryRestart.Submap(Written(store, entries), entries) && store == before + Written(store, entries)
  {
  }
}
