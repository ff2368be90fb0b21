// The stored history: what selecting entries by the fields they carry, and reading
// them run by run, gives back (scripts/process_test_history.py).
module HistoryStore {
  import opened Wrappers
  import opened Collections
  import opened History

  function Reports(runs: seq<Run>): seq<seq<Observation>> {
    seq(|runs|, i requires 0 <= i < |runs| => Observations(runs[i].results))
  }

  // What the job leaves in an empty store after some runs of one browser.
  ghost function StoreOf(init: Statuses, runs: seq<Run>): map<EntryKey, Entry> {
    if runs == [] then map[] else
      var front, last := runs[..|runs| - 1], runs[|runs| - 1];
      StoreOf(init, front)
      + Entries(last, Delta(StatusesAfter(init, Reports(front)), Observations(last.results)))
  }

  ghost predicate DistinctIds(runs: seq<Run>) {
    forall i, j | 0 <= i < j < |runs| :: runs[i].id != runs[j].id
  }

  // The entity carries the run's id, browser and date, and gives this test and
  // subtest this status.
  predicate Carries(entry: Entry, run: Run, test: string, subtest: string, status: string) {
    && entry.runId == run.id && entry.browser == run.browser && entry.date == run.date
    && entry.test == test && entry.subtest == subtest && entry.status == status
  }

  ghost predicate Tells(store: map<EntryKey, Entry>, run: Run, test: string, subtest: string, status: string) {
    exists e :: e in store && Carries(store[e], run, test, subtest, status)
  }

  // ---- one run ----

  lemma EntriesTell(run: Run, delta: Statuses, k: TestKey, status: string)
    requires AllOneLine(delta)
    ensures Tells(Entries(run, delta), run, k.0, k.1, status) <==> k in delta && delta[k] == status
  {
    EntriesAreExact(run, delta);
    var entries := Entries(run, delta);
    if k in delta && delta[k] == status {
      assert KeyOf(run.id, k) in entries;
    }
    if Tells(entries, run, k.0, k.1, status) {
      var e :| e in entries && Carries(entries[e], run, k.0, k.1, status);
      var k' :| Writes(run, delta, e, k') && entries[e] == EntryOf(run, k', delta[k']);
      assert k' == (k.0, k.1);
    }
  }

  // ---- all runs ----

  // Entries are stored under the id they carry.
  ghost predicate OwnIds(store: map<EntryKey, Entry>, runs: seq<Run>) {
    forall e | e in store :: store[e].runId == e.runId && exists i :: 0 <= i < |runs| && e.runId == runs[i].id
  }

  lemma {:induction false} StoreHasOwnIds(init: Statuses, runs: seq<Run>)
    ensures OwnIds(StoreOf(init, runs), runs)
  {
    if runs != [] {
      var front, last := runs[..|runs| - 1], runs[|runs| - 1];
      StoreHasOwnIds(init, front);
      var delta := Delta(StatusesAfter(init, Reports(front)), Observations(last.results));
      var store, entries := StoreOf(init, front), Entries(last, delta);
      forall e | e in StoreOf(init, runs)
        ensures StoreOf(init, runs)[e].runId == e.runId && exists i :: 0 <= i < |runs| && e.runId == runs[i].id
      {
        if e in entries {
          EntryHasOwnId(last, delta, e);
          assert e.runId == runs[|runs| - 1].id;
        } else {
          var i :| 0 <= i < |front| && e.runId == front[i].id;
          assert runs[i].id == e.runId;
        }
      }
    }
  }

  lemma EntryHasOwnId(run: Run, delta: Statuses, e: EntryKey)
    requires e in Entries(run, delta)
    ensures e.runId == run.id && Entries(run, delta)[e].runId == run.id
  {
    var k :| Writes(run, delta, e, k) && Entries(run, delta)[e] == EntryOf(run, k, delta[k]);
  }

  lemma TellsOfUnion(store: map<EntryKey, Entry>, entries: map<EntryKey, Entry>, run: Run, test: string,
                     subtest: string, status: string)
    requires forall e | e in entries :: e !in store
    ensures Tells(store + entries, run, test, subtest, status)
      <==> Tells(store, run, test, subtest, status) || Tells(entries, run, test, subtest, status)
  {
    if e :| e in store && Carries(store[e], run, test, subtest, status) {
      assert e in store + entries && (store + entries)[e] == store[e];
    }
    if e :| e in entries && Carries(entries[e], run, test, subtest, status) {
      assert e in store + entries && (store + entries)[e] == entries[e];
    }
  }

  // Later runs leave what the store tells of an earlier one.
  lemma TellsOfOther(store: map<EntryKey, Entry>, runs: seq<Run>, run: Run, delta: Statuses, other: Run,
                     test: string, subtest: string, status: string)
    requires OwnIds(store, runs) && forall r | r in runs :: r.id != run.id
    ensures other.id != run.id ==>
      (Tells(store + Entries(run, delta), other, test, subtest, status) <==> Tells(store, other, test, subtest, status))
    ensures Tells(store + Entries(run, delta), run, test, subtest, status)
      <==> Tells(Entries(run, delta), run, test, subtest, status)
  {
    var entries := Entries(run, delta);
    forall e | e in store ensures store[e].runId == e.runId != run.id {
      var i :| 0 <= i < |runs| && e.runId == runs[i].id;
      assert runs[i] in runs;
    }
    forall e | e in entries ensures e.runId == run.id && entries[e].runId == run.id {
      EntryHasOwnId(run, delta, e);
    }
    TellsOfUnion(store, entries, other, test, subtest, status);
    TellsOfUnion(store, entries, run, test, subtest, status);
  }

  lemma {:induction false} StatusesAreOneLine(init: Statuses, runs: seq<Run>)
    requires AllOneLine(init)
    ensures AllOneLine(StatusesAfter(init, Reports(runs)))
  {
    if runs != [] {
      var front := runs[..|runs| - 1];
      StatusesAreOneLine(init, front);
      assert Reports(runs)[..|runs| - 1] == Reports(front);
      DeltaIsOneLine(StatusesAfter(init, Reports(front)), runs[|runs| - 1].results);
    }
  }

  // The entries of run i are its log entry.
  lemma {:induction false} StoreTells(init: Statuses, runs: seq<Run>, i: nat, k: TestKey, status: string)
    requires AllOneLine(init) && DistinctIds(runs) && i < |runs|
    ensures Tells(StoreOf(init, runs), runs[i], k.0, k.1, status)
      <==> k in Log(init, Reports(runs))[i] && Log(init, Reports(runs))[i][k] == status
  {
    hide Entries, Delta, AllOneLine, Tells, Observations;
    var n := |runs| - 1;
    var front, last := runs[..n], runs[n];
    var prev := StatusesAfter(init, Reports(front));
    assert Reports(runs)[..n] == Reports(front);
    StoreHasOwnIds(init, front);
    assert forall r | r in front :: r.id != last.id;
    assert Log(init, Reports(runs)) == Log(init, Reports(front)) + [Delta(prev, Observations(last.results))];
    hide Log, StatusesAfter;
    TellsOfOther(StoreOf(init, front), front, last, Delta(prev, Observations(last.results)), runs[i], k.0, k.1, status);
    if i < n {
      StoreTells(init, front, i, k, status);
    } else {
      StatusesAreOneLine(init, front);
      NewsIsOneLine(prev, last);
      EntriesTell(last, Delta(prev, Observations(last.results)), k, status);
    }
  }

  lemma NewsIsOneLine(prev: Statuses, run: Run)
    requires AllOneLine(prev)
    ensures AllOneLine(Delta(prev, Observations(run.results)))
  {
    DeltaIsOneLine(prev, run.results);
  }

  // ---- reading the store ----

  // The status of the latest of these runs that the store tells of, or the one
  // known before.
  ghost function LastTold(init: Statuses, store: map<EntryKey, Entry>, runs: seq<Run>, test: string, subtest: string)
    : Option<string>
  {
    if runs == [] then Lookup(init, (test, subtest)) else
      var front, last := runs[..|runs| - 1], runs[|runs| - 1];
      if exists status :: Tells(store, last, test, subtest, status)
      then (var status :| Tells(store, last, test, subtest, status); Some(status))
      else LastTold(init, store, front, test, subtest)
  }

  lemma {:induction false} LastToldIsLatest(init: Statuses, runs: seq<Run>, r: nat, k: TestKey)
    requires AllOneLine(init) && DistinctIds(runs) && r <= |runs|
    ensures LastTold(init, StoreOf(init, runs), runs[..r], k.0, k.1) == Latest(init, Log(init, Reports(runs))[..r], k)
  {
    hide StoreOf, AllOneLine, Tells;
    var log, store := Log(init, Reports(runs)), StoreOf(init, runs);
    if r > 0 {
      LastToldIsLatest(init, runs, r - 1, k);
      assert runs[..r][..r - 1] == runs[..r - 1] && log[..r][..r - 1] == log[..r - 1];
      var last := runs[r - 1];
      forall status | Tells(store, last, k.0, k.1, status)
        ensures k in log[r - 1] && log[r - 1][k] == status
      {
        StoreTells(init, runs, r - 1, k, status);
      }
      if k in log[r - 1] {
        StoreTells(init, runs, r - 1, k, log[r - 1][k]);
      }
    }
  }

  // Lossless: among the entries that carry a test's names, the latest one up to
  // run r gives its status in that run, MISSING if it was known but absent, nothing
  // if it was never seen.
  lemma StoreIsLossless(init: Statuses, runs: seq<Run>, r: nat, test: string, subtest: string)
    requires AllOneLine(init) && DistinctIds(runs) && r < |runs| && NoRepeats(Observations(runs[r].results))
    ensures var obs := Observations(runs[r].results);
      var told := LastTold(init, StoreOf(init, runs), runs[..r + 1], test, subtest);
      && (forall s | Observation((test, subtest), s) in obs :: told == Some(s))
      && ((test, subtest) !in Keys(obs) ==>
            told == if KnownBefore(init, Reports(runs), r, (test, subtest)) then Some(MISSING) else None)
  {
    hide StoreOf, LastTold, Log, Latest, AllOneLine, KnownBefore, Observations, NoRepeats, Keys;
    var k := (test, subtest);
    LastToldIsLatest(init, runs, r + 1, k);
    HistoryIsLossless(init, Reports(runs), r, k);
    forall s | Observation((test, subtest), s) in Observations(runs[r].results)
      ensures LastTold(init, StoreOf(init, runs), runs[..r + 1], test, subtest) == Some(s)
    {
      assert History.Reports(Reports(runs)[r], k, s);
    }
  }
}
