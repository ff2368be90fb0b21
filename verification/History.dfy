// The delta-encoded test history: what one run adds to it, and what reading it
// back gives (scripts/process_test_history.py).
module History {
  import opened Wrappers

  // A test name and a subtest name; the overall status has subtest "".
  type TestKey = (string, string)

  type Statuses = map<TestKey, string>

  const MISSING := "MISSING"
  const MAX_KEY_NAME_LENGTH := 500
  const DIGEST_LENGTH := 64
  const MAX_SUBTEST_NAME_LENGTH := 1000

  datatype SubtestData = SubtestData(name: string, status: string)

  datatype TestData = TestData(test: string, status: string, subtests: seq<SubtestData>)

  datatype Run = Run(id: string, browser: string, date: string, results: seq<TestData>)

  datatype Observation = Observation(key: TestKey, status: string)

  // ---- names ----

  // \s of a Python text pattern.
  predicate IsSpace(c: char) {
    var n := c as int;
    || 9 <= n <= 13 || 28 <= n <= 32 || n == 0x85 || n == 0xa0 || n == 0x1680 || 0x2000 <= n <= 0x200a
    || n == 0x2028 || n == 0x2029 || n == 0x202f || n == 0x205f || n == 0x3000
  }

  function Clean(s: string): (r: string)
    ensures '\n' !in r
  {
    seq(|s|, i requires 0 <= i < |s| => if IsSpace(s[i]) then ' ' else s[i])
  }

  function SubtestName(s: string): string {
    var name := Clean(s);
    if |name| > MAX_SUBTEST_NAME_LENGTH then name[..MAX_SUBTEST_NAME_LENGTH] else name
  }

  // Cleaning changes nothing but whitespace, of which it leaves plain spaces only.
  lemma CleanKeepsText(s: string)
    ensures |Clean(s)| == |s| && Clean(Clean(s)) == Clean(s)
    ensures forall i | 0 <= i < |s| :: Clean(s)[i] == s[i] || (IsSpace(s[i]) && Clean(s)[i] == ' ')
    ensures forall c | c in Clean(s) :: (IsSpace(c) ==> c == ' ') && c !in "\t\n\r\U{00a0}\U{2028}"
    ensures (forall c | c in s :: '!' <= c <= '~' || c == ' ') ==> Clean(s) == s
  {
    assert forall i | 0 <= i < |s| && Clean(s)[i] != s[i] :: s[i] in s;
  }

  // A subtest's name is the start of its text, cut only if it is too long.
  lemma SubtestNameIsStart(s: string)
    ensures SubtestName(s) <= Clean(s) && |SubtestName(s)| == if |s| > 1000 then 1000 else |s|
  {
  }

  function SubtestObservations(test: string, subtests: seq<SubtestData>): seq<Observation> {
    seq(|subtests|, i requires 0 <= i < |subtests| =>
      Observation((test, SubtestName(subtests[i].name)), subtests[i].status))
  }

  function TestObservations(t: TestData): seq<Observation> {
    [Observation((Clean(t.test), ""), t.status)] + SubtestObservations(Clean(t.test), t.subtests)
  }

  // Every status of a report, in the order the job visits them.
  function Observations(results: seq<TestData>): seq<Observation> {
    if results == [] then []
    else Observations(results[..|results| - 1]) + TestObservations(results[|results| - 1])
  }

  // A report is read as the statuses of its tests, under an empty subtest name, and
  // of their subtests.
  lemma {:induction false} ObservedIff(results: seq<TestData>, o: Observation)
    ensures o in Observations(results) <==> exists i :: 0 <= i < |results| && Gives(results[i], o)
  {
    if results != [] {
      hide Gives, TestObservations;
      var front, last := results[..|results| - 1], results[|results| - 1];
      ObservedIff(front, o);
      GivesIff(last, o);
      GivenByOneMore(front, last, o);
      assert results == front + [last];
    }
  }

  lemma GivenByOneMore(front: seq<TestData>, last: TestData, o: Observation)
    ensures (exists i :: 0 <= i < |front + [last]| && Gives((front + [last])[i], o))
      <==> (exists i :: 0 <= i < |front| && Gives(front[i], o)) || Gives(last, o)
  {
    hide Gives;
    var all := front + [last];
    assert all[|front|] == last;
    if i :| 0 <= i < |front| && Gives(front[i], o) {
      assert Gives(all[i], o);
    }
  }

  predicate Gives(t: TestData, o: Observation) {
    || o == Observation((Clean(t.test), ""), t.status)
    || exists s :: s in t.subtests && o == Observation((Clean(t.test), SubtestName(s.name)), s.status)
  }

  lemma GivesIff(t: TestData, o: Observation)
    ensures o in TestObservations(t) <==> Gives(t, o)
  {
    var rest := SubtestObservations(Clean(t.test), t.subtests);
    if s :| s in t.subtests && o == Observation((Clean(t.test), SubtestName(s.name)), s.status) {
      var j :| 0 <= j < |t.subtests| && t.subtests[j] == s;
      assert rest[j] == o;
    }
    assert TestObservations(t)[0] == Observation((Clean(t.test), ""), t.status);
    assert o in TestObservations(t) <==> o == TestObservations(t)[0] || o in rest;
  }

  function Keys(obs: seq<Observation>): set<TestKey> {
    set o | o in obs :: o.key
  }

  // ---- what one run writes ----

  // The first observation of k that is news against the earlier statuses.
  function FirstChange(prev: Statuses, obs: seq<Observation>, k: TestKey): Option<string> {
    if obs == [] then None else
      var front, last := FirstChange(prev, obs[..|obs| - 1], k), obs[|obs| - 1];
      if front.Some? then front
      else if last.key == k && (k !in prev || prev[k] != last.status) then Some(last.status)
      else None
  }

  function Changed(prev: Statuses, obs: seq<Observation>): Statuses {
    map k | k in Keys(obs) && FirstChange(prev, obs, k).Some? :: FirstChange(prev, obs, k).value
  }

  function Vanished(prev: Statuses, obs: seq<Observation>): Statuses {
    map k | k in prev && k !in Keys(obs) && prev[k] != MISSING :: MISSING
  }

  function Delta(prev: Statuses, obs: seq<Observation>): Statuses {
    Changed(prev, obs) + Vanished(prev, obs)
  }

  function After(prev: Statuses, obs: seq<Observation>): Statuses {
    prev + Delta(prev, obs)
  }

  // ---- one run, read back ----

  ghost predicate NoRepeats(obs: seq<Observation>) {
    forall i, j :: 0 <= i < j < |obs| ==> obs[i].key != obs[j].key
  }

  ghost predicate Reports(obs: seq<Observation>, k: TestKey, status: string) {
    Observation(k, status) in obs
  }

  lemma {:induction false} FirstChangeSound(prev: Statuses, obs: seq<Observation>, k: TestKey)
    ensures FirstChange(prev, obs, k).Some? ==>
      var s := FirstChange(prev, obs, k).value; Reports(obs, k, s) && (k !in prev || prev[k] != s)
    ensures FirstChange(prev, obs, k).None? ==>
      forall s :: Reports(obs, k, s) ==> k in prev && prev[k] == s
  {
    if obs != [] {
      var front, last := obs[..|obs| - 1], obs[|obs| - 1];
      FirstChangeSound(prev, front, k);
      assert obs == front + [last];
      assert forall s :: Reports(obs, k, s) <==> Reports(front, k, s) || last == Observation(k, s);
    }
  }

  // Whatever the report repeats, the status kept for an observed test is one the
  // report gives it, and a test that is gone is marked missing.
  lemma AfterIsReported(prev: Statuses, obs: seq<Observation>, k: TestKey)
    ensures k in Keys(obs) ==> k in After(prev, obs) && Reports(obs, k, After(prev, obs)[k])
    ensures k !in Keys(obs) && k in prev ==> k in After(prev, obs) && After(prev, obs)[k] == MISSING
    ensures k !in Keys(obs) && k !in prev ==> k !in After(prev, obs)
  {
    FirstChangeSound(prev, obs, k);
    if k in Keys(obs) {
      var o :| o in obs && o.key == k;
      assert Reports(obs, k, o.status);
    }
  }

  // An entry is always news.
  lemma DeltaIsNews(prev: Statuses, obs: seq<Observation>, k: TestKey)
    requires k in Delta(prev, obs)
    ensures k !in prev || prev[k] != Delta(prev, obs)[k]
  {
    FirstChangeSound(prev, obs, k);
  }

  // Without repeats the statuses kept after a run are exactly the run's own,
  // and MISSING for everything else known before.
  lemma RunIsRecorded(prev: Statuses, obs: seq<Observation>)
    requires NoRepeats(obs)
    ensures After(prev, obs).Keys == prev.Keys + Keys(obs)
    ensures forall o | o in obs :: o.key in After(prev, obs) && After(prev, obs)[o.key] == o.status
    ensures forall k | k in prev && k !in Keys(obs) :: k in After(prev, obs) && After(prev, obs)[k] == MISSING
  {
    forall o | o in obs ensures o.key in After(prev, obs) && After(prev, obs)[o.key] == o.status {
      AfterIsReported(prev, obs, o.key);
      var i :| 0 <= i < |obs| && obs[i] == o;
      var j :| 0 <= j < |obs| && obs[j] == Observation(o.key, After(prev, obs)[o.key]);
      assert i < j || j < i || i == j;
    }
    forall k ensures k in After(prev, obs) <==> k in prev.Keys + Keys(obs) {
      AfterIsReported(prev, obs, k);
    }
    forall k | k in prev && k !in Keys(obs) ensures k in After(prev, obs) && After(prev, obs)[k] == MISSING {
      AfterIsReported(prev, obs, k);
    }
  }

  // ---- many runs ----

  function StatusesAfter(init: Statuses, runs: seq<seq<Observation>>): Statuses {
    if runs == [] then init else After(StatusesAfter(init, runs[..|runs| - 1]), runs[|runs| - 1])
  }

  // The entries written by each run.
  function Log(init: Statuses, runs: seq<seq<Observation>>): (log: seq<Statuses>)
    ensures |log| == |runs|
  {
    if runs == [] then [] else
      var front := runs[..|runs| - 1];
      Log(init, front) + [Delta(StatusesAfter(init, front), runs[|runs| - 1])]
  }

  // Reading the log: the latest entry for a key, or what the log started from.
  function Latest(init: Statuses, log: seq<Statuses>, k: TestKey): Option<string> {
    if log == [] then (if k in init then Some(init[k]) else None)
    else if k in log[|log| - 1] then Some(log[|log| - 1][k])
    else Latest(init, log[..|log| - 1], k)
  }

  lemma {:induction false} LogPrefix(init: Statuses, runs: seq<seq<Observation>>, r: nat)
    requires r <= |runs|
    ensures Log(init, runs)[..r] == Log(init, runs[..r])
  {
    if r < |runs| {
      var front := runs[..|runs| - 1];
      LogPrefix(init, front, r);
      assert front[..r] == runs[..r];
      assert Log(init, runs)[..r] == Log(init, front)[..r];
    } else {
      assert runs[..r] == runs;
    }
  }

  // The log and the job's own memory always agree.
  lemma {:induction false} LatestIsRemembered(init: Statuses, runs: seq<seq<Observation>>, k: TestKey)
    ensures var s := StatusesAfter(init, runs);
      Latest(init, Log(init, runs), k) == if k in s then Some(s[k]) else None
  {
    if runs != [] {
      var front := runs[..|runs| - 1];
      LatestIsRemembered(init, front, k);
      assert Log(init, runs)[..|runs| - 1] == Log(init, front);
    }
  }

  ghost predicate KnownBefore(init: Statuses, runs: seq<seq<Observation>>, r: nat, k: TestKey)
    requires r <= |runs|
  {
    k in init || exists j :: 0 <= j < r && k in Keys(runs[j])
  }

  lemma {:induction false} KnownKeys(init: Statuses, runs: seq<seq<Observation>>, k: TestKey)
    ensures k in StatusesAfter(init, runs) <==> KnownBefore(init, runs, |runs|, k)
  {
    hide Keys, Reports, After;
    if runs != [] {
      var n := |runs| - 1;
      KnownKeys(init, runs[..n], k);
      AfterIsReported(StatusesAfter(init, runs[..n]), runs[n], k);
      assert forall j :: 0 <= j < n ==> runs[..n][j] == runs[j];
      assert KnownBefore(init, runs, n, k) <==> KnownBefore(init, runs[..n], n, k);
    }
  }

  // Lossless: cutting the log after run r and taking the latest entry of a test
  // gives its status in run r, MISSING if it was known but absent, nothing if it
  // was never seen.
  lemma HistoryIsLossless(init: Statuses, runs: seq<seq<Observation>>, r: nat, k: TestKey)
    requires r < |runs| && NoRepeats(runs[r])
    ensures forall s | Reports(runs[r], k, s) :: Latest(init, Log(init, runs)[..r + 1], k) == Some(s)
    ensures k !in Keys(runs[r]) ==>
      Latest(init, Log(init, runs)[..r + 1], k) == if KnownBefore(init, runs, r, k) then Some(MISSING) else None
  {
    var upTo := runs[..r + 1];
    assert upTo[..r] == runs[..r];
    LogPrefix(init, runs, r + 1);
    LatestIsRemembered(init, upTo, k);
    var prev := StatusesAfter(init, runs[..r]);
    RunIsRecorded(prev, runs[r]);
    AfterIsReported(prev, runs[r], k);
    KnownKeys(init, runs[..r], k);
    assert forall j :: 0 <= j < r ==> runs[..r][j] == runs[j];
    assert KnownBefore(init, runs, r, k) <==> KnownBefore(init, runs[..r], r, k);
  }

  lemma {:induction false} LatestIsLast(init: Statuses, log: seq<Statuses>, i: nat, k: TestKey)
    requires i < |log| && k in log[i]
    requires forall m :: i < m < |log| ==> k !in log[m]
    ensures Latest(init, log, k) == Some(log[i][k])
  {
    if i < |log| - 1 {
      LatestIsLast(init, log[..|log| - 1], i, k);
    }
  }

  // Two successive entries of a key never carry the same status.
  lemma SuccessiveEntriesDiffer(init: Statuses, runs: seq<seq<Observation>>, i: nat, j: nat, k: TestKey)
    requires i < j < |runs| && k in Log(init, runs)[i] && k in Log(init, runs)[j]
    requires forall m :: i < m < j ==> k !in Log(init, runs)[m]
    ensures Log(init, runs)[i][k] != Log(init, runs)[j][k]
  {
    hide Delta, Latest, StatusesAfter;
    var log := Log(init, runs);
    LogPrefix(init, runs, j);
    LogPrefix(init, runs, j + 1);
    LatestIsLast(init, log[..j], i, k);
    LatestIsRemembered(init, runs[..j], k);
    assert runs[..j + 1][..j] == runs[..j];
    assert log[j] == log[..j + 1][j];
    DeltaIsNews(StatusesAfter(init, runs[..j]), runs[j], k);
  }

  // ---- stored entries ----

  // SHA-256 taken as injective: a digest is its text.
  datatype Digest = Sha256(text: string)

  datatype EntryKey = EntryKey(runId: string, digest: Digest)

  datatype Entry =
    Entry(runId: string, browser: string, date: string, test: string, subtest: string, status: string)

  datatype KeyError = KeyNameTooLong(length: nat)

  function KeyOf(runId: string, k: TestKey): EntryKey {
    EntryKey(runId, Sha256(k.0 + "\n" + k.1))
  }

  // An underscore and the 64 digits of a SHA-256 leave this much of 500.
  predicate KeyFits(runId: string) {
    |runId| <= 435
  }

  // _get_entry_key_name: run id, underscore, hexadecimal digest.
  function EntryKeyName(runId: string, k: TestKey): Result<EntryKey, KeyError> {
    if |runId| + 1 + DIGEST_LENGTH > MAX_KEY_NAME_LENGTH then Err(KeyNameTooLong(|runId| + 1 + DIGEST_LENGTH))
    else Ok(KeyOf(runId, k))
  }

  predicate OneLine(k: TestKey) {
    '\n' !in k.0
  }

  // Test names hold no newline, so a stored key names one test of one run.
  lemma KeysAreDistinct(runId: string, runId': string, k: TestKey, k': TestKey)
    requires OneLine(k) && OneLine(k')
    ensures KeyOf(runId, k) == KeyOf(runId', k') <==> runId == runId' && k == k'
  {
    var a, b := k.0 + "\n" + k.1, k'.0 + "\n" + k'.1;
    if a == b {
      assert a[|k.0|] == '\n' && b[|k'.0|] == '\n';
      assert forall i :: 0 <= i < |k.0| ==> a[i] == k.0[i];
      assert forall i :: 0 <= i < |k'.0| ==> b[i] == k'.0[i];
      assert k.0 == a[..|k.0|] && k'.0 == b[..|k'.0|];
      assert k.1 == a[|k.0| + 1..] && k'.1 == b[|k'.0| + 1..];
    }
  }

  function EntryOf(run: Run, k: TestKey, status: string): Entry {
    Entry(run.id, run.browser, run.date, k.0, k.1, status)
  }

  ghost predicate AllOneLine(s: Statuses) {
    forall k | k in s :: OneLine(k)
  }

  ghost predicate Writes(run: Run, delta: Statuses, e: EntryKey, k: TestKey) {
    k in delta && e == KeyOf(run.id, k)
  }

  ghost function EntryKeys(run: Run, delta: Statuses): set<EntryKey> {
    set k | k in delta :: KeyOf(run.id, k)
  }

  // The entries of a run, by key.
  ghost function Entries(run: Run, delta: Statuses): (entries: map<EntryKey, Entry>)
    ensures forall e | e in entries :: exists k :: Writes(run, delta, e, k) && entries[e] == EntryOf(run, k, delta[k])
    ensures forall k | k in delta :: KeyOf(run.id, k) in entries
  {
    map e | e in EntryKeys(run, delta) :: (var k :| Writes(run, delta, e, k); EntryOf(run, k, delta[k]))
  }

  // On one-line test names no two tests share an entry.
  lemma EntriesAreExact(run: Run, delta: Statuses)
    requires AllOneLine(delta)
    ensures forall k | k in delta :: Entries(run, delta)[KeyOf(run.id, k)] == EntryOf(run, k, delta[k])
  {
    forall k | k in delta ensures Entries(run, delta)[KeyOf(run.id, k)] == EntryOf(run, k, delta[k]) {
      var e := KeyOf(run.id, k);
      var k' :| Writes(run, delta, e, k') && Entries(run, delta)[e] == EntryOf(run, k', delta[k']);
      assert Writes(run, delta, e, k');
      assert k' in delta;
      KeysAreDistinct(run.id, run.id, k, k');
    }
  }

  // A stored entry tells exactly which test changed and to what.
  lemma EntriesReadBack(run: Run, delta: Statuses, k: TestKey)
    requires AllOneLine(delta) && OneLine(k)
    ensures KeyOf(run.id, k) in Entries(run, delta) <==> k in delta
    ensures k in delta ==> Entries(run, delta)[KeyOf(run.id, k)].status == delta[k]
  {
    EntriesAreExact(run, delta);
    if KeyOf(run.id, k) in Entries(run, delta) {
      var k' :| Writes(run, delta, KeyOf(run.id, k), k');
      KeysAreDistinct(run.id, run.id, k, k');
    }
  }

  // ---- the job keeps test names on one line ----

  lemma {:induction false} ObservationsAreOneLine(results: seq<TestData>)
    ensures forall k | k in Keys(Observations(results)) :: OneLine(k)
  {
    if results != [] {
      ObservationsAreOneLine(results[..|results| - 1]);
      var obs := Observations(results[..|results| - 1]);
      forall o | o in Observations(results) ensures OneLine(o.key) {
        if o in obs { assert o.key in Keys(obs); }
      }
    }
  }

  lemma DeltaIsOneLine(prev: Statuses, results: seq<TestData>)
    requires AllOneLine(prev)
    ensures AllOneLine(Delta(prev, Observations(results)))
    ensures AllOneLine(After(prev, Observations(results)))
  {
    ObservationsAreOneLine(results);
  }
}
