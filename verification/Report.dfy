// Merging report chunks and summarising them (results-processor/wptreport.py).
module Report {
  import opened Wrappers
  import opened Strings
  import opened Collections
  import History

  // A JSON value of run_info; only null is told apart from the others.
  datatype Value = Null | Json(text: string)

  type RunInfo = map<string, Value>

  type TestResult = History.TestData

  const IGNORED_CONFLICTS := {"browser_build_id", "browser_changeset", "version", "os_build"}

  datatype Chunk = Chunk(
    results: seq<TestResult>, runInfo: Option<RunInfo>, timeStart: Option<int>, timeEnd: Option<int>)

  // The abstract value of a report.
  datatype Merged = Merged(results: seq<TestResult>, runInfo: RunInfo, timeStart: Option<int>, timeEnd: Option<int>)

  const EMPTY := Merged([], map[], None, None)

  datatype SummaryEntry = SummaryEntry(status: string, passes: nat, total: nat)

  type Summary = map<string, SummaryEntry>

  datatype ReportError = ConflictingData(keys: set<string>) | DuplicateTest(name: string)

  // ---- one chunk ----

  // The fields on which source and target differ.
  function Differing(target: RunInfo, source: RunInfo): set<string> {
    set k | k in source && k in target && source[k] != target[k]
  }

  function MergeInfo(target: RunInfo, source: RunInfo): RunInfo {
    map k | k in target.Keys + source.Keys ::
      if k !in source then target[k]
      else if k in target && target[k] != source[k] then Null
      else source[k]
  }

  function Earlier(a: Option<int>, b: Option<int>): Option<int> {
    if a.None? then b else if b.None? then a else if a.value <= b.value then a else b
  }

  function Later(a: Option<int>, b: Option<int>): Option<int> {
    if a.None? then b else if b.None? then a else if a.value >= b.value then a else b
  }

  function InfoOf(chunk: Chunk): RunInfo {
    chunk.runInfo.GetOr(map[])
  }

  // The keys a chunk raises for; they are found before the times are looked at.
  function Conflicts(m: Merged, chunk: Chunk): set<string> {
    Differing(m.runInfo, InfoOf(chunk)) - IGNORED_CONFLICTS
  }

  function Added(m: Merged, chunk: Chunk): Merged {
    var results, info := m.results + chunk.results, MergeInfo(m.runInfo, InfoOf(chunk));
    if Conflicts(m, chunk) != {} then Merged(results, info, m.timeStart, m.timeEnd)
    else Merged(results, info, Earlier(m.timeStart, chunk.timeStart), Later(m.timeEnd, chunk.timeEnd))
  }

  // ---- all chunks, in some order ----

  // Loading stops at the first chunk that raises.
  function Loaded(chunks: seq<Chunk>): Option<Merged> {
    if chunks == [] then Some(EMPTY) else
      var front, last := Loaded(chunks[..|chunks| - 1]), chunks[|chunks| - 1];
      if front.None? || Conflicts(front.value, last) != {} then None else Some(Added(front.value, last))
  }

  predicate Says(c: Chunk, k: string) {
    k in InfoOf(c)
  }

  function Said(c: Chunk, k: string): Value
    requires Says(c, k)
  {
    InfoOf(c)[k]
  }

  // Two chunks give different values for k.
  ghost predicate Disagree(chunks: seq<Chunk>, k: string) {
    exists c, c' :: c in chunks && c' in chunks && Says(c, k) && Says(c', k) && Said(c, k) != Said(c', k)
  }

  ghost predicate SaidBySome(chunks: seq<Chunk>, k: string) {
    exists c :: c in chunks && Says(c, k)
  }

  // What the merged field k is, whatever the order of the chunks.
  ghost predicate IsField(chunks: seq<Chunk>, k: string, info: RunInfo) {
    && (k in info <==> SaidBySome(chunks, k))
    && (Disagree(chunks, k) ==> info[k] == Null)
    && (!Disagree(chunks, k) ==> forall c | c in chunks && Says(c, k) :: info[k] == Said(c, k))
  }

  ghost predicate IsLeast(chunks: seq<Chunk>, time: Option<int>) {
    && (forall c | c in chunks && c.timeStart.Some? :: time.Some? && time.value <= c.timeStart.value)
    && (time.Some? ==> exists c :: c in chunks && c.timeStart == time)
  }

  ghost predicate IsGreatest(chunks: seq<Chunk>, time: Option<int>) {
    && (forall c | c in chunks && c.timeEnd.Some? :: time.Some? && time.value >= c.timeEnd.value)
    && (time.Some? ==> exists c :: c in chunks && c.timeEnd == time)
  }

  ghost predicate MustRaise(chunks: seq<Chunk>) {
    exists k :: k !in IGNORED_CONFLICTS && Disagree(chunks, k)
  }

  // ---- one more chunk ----

  lemma SaidOneMore(front: seq<Chunk>, last: Chunk, k: string)
    ensures SaidBySome(front + [last], k) <==> SaidBySome(front, k) || Says(last, k)
  {
    if Says(last, k) {
      assert last in front + [last];
    }
    if c :| c in front && Says(c, k) {
      assert c in front + [last];
    }
  }

  lemma DisagreeOneMore(front: seq<Chunk>, last: Chunk, k: string)
    ensures Disagree(front, k) ==> Disagree(front + [last], k)
    ensures Disagree(front + [last], k) <==>
      (Disagree(front, k) || (Says(last, k) && exists c :: c in front && Says(c, k) && Said(c, k) != Said(last, k)))
  {
    hide InfoOf;
    assert last in front + [last];
    assert forall c :: c in front + [last] <==> c in front || c == last;
  }

  lemma FieldOneMore(front: seq<Chunk>, last: Chunk, k: string, info: RunInfo)
    requires IsField(front, k, info)
    ensures IsField(front + [last], k, MergeInfo(info, InfoOf(last)))
  {
    hide InfoOf, Disagree, SaidBySome;
    var info' := MergeInfo(info, InfoOf(last));
    SaidOneMore(front, last, k);
    DisagreeOneMore(front, last, k);
    SomeoneSaid(front, k);
    if !Disagree(front + [last], k) {
      forall c | c in front + [last] && Says(c, k) ensures info'[k] == Said(c, k) {
        assert c in front || c == last;
      }
    }
  }

  lemma SomeoneSaid(front: seq<Chunk>, k: string)
    ensures SaidBySome(front, k) <==> exists c :: c in front && Says(c, k)
    ensures Disagree(front, k) ==> SaidBySome(front, k)
  {
  }

  // Chunk last conflicts with a report of the chunks before it exactly when it
  // makes the chunks disagree.
  lemma ConflictsOneMore(front: seq<Chunk>, last: Chunk, m: Merged, k: string)
    requires IsField(front, k, m.runInfo) && !Disagree(front, k)
    ensures k in Differing(m.runInfo, InfoOf(last)) <==> Disagree(front + [last], k)
  {
    hide InfoOf, Disagree;
    DisagreeOneMore(front, last, k);
  }

  lemma LeastOneMore(front: seq<Chunk>, last: Chunk, time: Option<int>)
    requires IsLeast(front, time)
    ensures IsLeast(front + [last], Earlier(time, last.timeStart))
  {
    assert last in front + [last];
    if c :| c in front && c.timeStart == time {
      assert c in front + [last];
    }
  }

  lemma GreatestOneMore(front: seq<Chunk>, last: Chunk, time: Option<int>)
    requires IsGreatest(front, time)
    ensures IsGreatest(front + [last], Later(time, last.timeEnd))
  {
    assert last in front + [last];
    if c :| c in front && c.timeEnd == time {
      assert c in front + [last];
    }
  }

  // ---- any number of chunks ----

  // Loading raises exactly when two chunks disagree on a field that matters.
  lemma {:induction false} RaisesIff(chunks: seq<Chunk>)
    ensures Loaded(chunks).None? <==> MustRaise(chunks)
    ensures Loaded(chunks).Some? ==> forall k :: IsField(chunks, k, Loaded(chunks).value.runInfo)
  {
    if chunks != [] {
      var front, last := chunks[..|chunks| - 1], chunks[|chunks| - 1];
      assert chunks == front + [last];
      RaisesIff(front);
      forall k ensures Disagree(front, k) ==> Disagree(chunks, k) {
        DisagreeOneMore(front, last, k);
      }
      if Loaded(front).Some? {
        var m := Loaded(front).value;
        ConflictsIff(front, last, m);
        forall k ensures IsField(chunks, k, MergeInfo(m.runInfo, InfoOf(last))) {
          FieldOneMore(front, last, k, m.runInfo);
        }
      }
    }
  }

  lemma ConflictsIff(front: seq<Chunk>, last: Chunk, m: Merged)
    requires !MustRaise(front) && forall k :: IsField(front, k, m.runInfo)
    ensures Conflicts(m, last) != {} <==> MustRaise(front + [last])
  {
    hide IsField, Disagree, Differing;
    forall k | k !in IGNORED_CONFLICTS ensures k in Conflicts(m, last) <==> Disagree(front + [last], k) {
      assert IsField(front, k, m.runInfo) && !Disagree(front, k);
      ConflictsOneMore(front, last, m, k);
    }
    assert forall k | k in Conflicts(m, last) :: k !in IGNORED_CONFLICTS;
  }

  lemma {:induction false} TimesAreExtreme(chunks: seq<Chunk>)
    requires Loaded(chunks).Some?
    ensures IsLeast(chunks, Loaded(chunks).value.timeStart)
    ensures IsGreatest(chunks, Loaded(chunks).value.timeEnd)
  {
    if chunks != [] {
      var front, last := chunks[..|chunks| - 1], chunks[|chunks| - 1];
      assert chunks == front + [last];
      TimesAreExtreme(front);
      LeastOneMore(front, last, Loaded(front).value.timeStart);
      GreatestOneMore(front, last, Loaded(front).value.timeEnd);
    }
  }

  ghost function AllResults(chunks: seq<Chunk>): multiset<TestResult> {
    if chunks == [] then multiset{} else
      AllResults(chunks[..|chunks| - 1]) + multiset(chunks[|chunks| - 1].results)
  }

  lemma {:induction false} ResultsAreAll(chunks: seq<Chunk>)
    requires Loaded(chunks).Some?
    ensures multiset(Loaded(chunks).value.results) == AllResults(chunks)
  {
    if chunks != [] {
      ResultsAreAll(chunks[..|chunks| - 1]);
    }
  }

  lemma {:induction false} ResultsOfAppend(a: seq<Chunk>, b: seq<Chunk>)
    ensures AllResults(a + b) == AllResults(a) + AllResults(b)
  {
    if b == [] {
      assert a + b == a;
    } else {
      var front, last := b[..|b| - 1], b[|b| - 1];
      ResultsOfAppend(a, front);
      var both := a + b;
      assert both[..|both| - 1] == a + front && both[|both| - 1] == last;
      assert AllResults(both) == AllResults(a + front) + multiset(last.results);
    }
  }

  lemma ResultsWithout(b: seq<Chunk>, i: nat)
    requires i < |b|
    ensures var rest := b[..i] + b[i + 1..];
      multiset(b) == multiset(rest) + multiset{b[i]} && AllResults(b) == AllResults(rest) + multiset(b[i].results)
  {
    assert b == b[..i] + ([b[i]] + b[i + 1..]);
    ResultsOfAppend(b[..i], [b[i]] + b[i + 1..]);
    ResultsOfAppend([b[i]], b[i + 1..]);
    ResultsOfAppend(b[..i], b[i + 1..]);
    ResultsOfOne(b[i]);
  }

  lemma {:induction false} ResultsOfPermuted(a: seq<Chunk>, b: seq<Chunk>)
    requires multiset(a) == multiset(b)
    ensures AllResults(a) == AllResults(b)
  {
    if a != [] {
      var last := a[|a| - 1];
      assert last in multiset(a) && last in b;
      var i :| 0 <= i < |b| && b[i] == last;
      var rest := b[..i] + b[i + 1..];
      assert a == a[..|a| - 1] + [last];
      ResultsWithout(b, i);
      assert multiset(a) == multiset(a[..|a| - 1]) + multiset{last};
      assert multiset(rest) == multiset(b) - multiset{last};
      assert multiset(a[..|a| - 1]) == multiset(a) - multiset{last};
      ResultsOfPermuted(a[..|a| - 1], rest);
    } else {
      assert |b| == |multiset(b)| == 0;
    }
  }

  lemma ResultsOfOne(c: Chunk)
    ensures AllResults([c]) == multiset(c.results)
  {
    assert [c][..0] == [];
  }

  // ---- order independence ----

  ghost predicate SameChunks(a: seq<Chunk>, b: seq<Chunk>) {
    forall c :: c in a <==> c in b
  }

  lemma SameFields(a: seq<Chunk>, b: seq<Chunk>, x: RunInfo, y: RunInfo)
    requires SameChunks(a, b)
    requires forall k :: IsField(a, k, x)
    requires forall k :: IsField(b, k, y)
    ensures x == y
  {
    forall k ensures k in x <==> k in y {
      assert IsField(a, k, x) && IsField(b, k, y);
    }
    forall k | k in x ensures x[k] == y[k] {
      assert IsField(a, k, x) && IsField(b, k, y);
      assert Disagree(a, k) <==> Disagree(b, k);
      var c :| c in a && Says(c, k);
    }
  }

  lemma SameTimes(a: seq<Chunk>, b: seq<Chunk>, x: Option<int>, y: Option<int>)
    requires SameChunks(a, b)
    ensures IsLeast(a, x) && IsLeast(b, y) ==> x == y
    ensures IsGreatest(a, x) && IsGreatest(b, y) ==> x == y
  {
  }

  // Loading the same chunks in another order raises too, or gives the same
  // report with its results in another order.
  lemma LoadingIsOrderIndependent(a: seq<Chunk>, b: seq<Chunk>)
    requires multiset(a) == multiset(b)
    ensures Loaded(a).None? <==> Loaded(b).None?
    ensures Loaded(a).Some? ==>
      var x, y := Loaded(a).value, Loaded(b).value;
      && multiset(x.results) == multiset(y.results)
      && x.runInfo == y.runInfo && x.timeStart == y.timeStart && x.timeEnd == y.timeEnd
  {
    assert forall c :: c in a <==> c in multiset(a);
    assert forall c :: c in b <==> c in multiset(b);
    RaisesIff(a);
    RaisesIff(b);
    SameRaises(a, b);
    if Loaded(a).Some? {
      var x, y := Loaded(a).value, Loaded(b).value;
      hide IsField, IsLeast, IsGreatest, Loaded;
      SameFields(a, b, x.runInfo, y.runInfo);
      TimesAreExtreme(a);
      TimesAreExtreme(b);
      SameTimes(a, b, x.timeStart, y.timeStart);
      SameTimes(a, b, x.timeEnd, y.timeEnd);
      ResultsAreAll(a);
      ResultsAreAll(b);
      ResultsOfPermuted(a, b);
    }
  }

  lemma SameRaises(a: seq<Chunk>, b: seq<Chunk>)
    requires SameChunks(a, b)
    ensures MustRaise(a) <==> MustRaise(b)
  {
    forall k ensures Disagree(a, k) <==> Disagree(b, k) {
    }
  }

  // ---- the report object ----

  // str.strip.
  function Strip(s: string): string {
    TrimRight(TrimLeft(s, History.IsSpace), History.IsSpace)
  }

  const ABBREVIATIONS: map<string, string> := map[
    "PASS" := "P", "OK" := "O", "FAIL" := "F", "SKIP" := "S", "ERROR" := "E", "NOTRUN" := "N", "CRASH" := "C",
    "TIMEOUT" := "T", "PRECONDITION_FAILED" := "PF"]

  function Abbreviated(status: string): string {
    if status in ABBREVIATIONS then ABBREVIATIONS[status] else status
  }

  // The letters the summary stands on.
  ghost predicate Abbreviates(short: string, status: string) {
    match status
    case "PASS" => short == "P"
    case "OK" => short == "O"
    case "FAIL" => short == "F"
    case "SKIP" => short == "S"
    case "ERROR" => short == "E"
    case "NOTRUN" => short == "N"
    case "CRASH" => short == "C"
    case "TIMEOUT" => short == "T"
    case "PRECONDITION_FAILED" => short == "PF"
    case _ => short == status
  }

  function Passes(subtests: seq<History.SubtestData>): nat {
    if subtests == [] then 0 else
      Passes(subtests[..|subtests| - 1]) + (if subtests[|subtests| - 1].status == "PASS" then 1 else 0)
  }

  function EntryOf(r: TestResult): SummaryEntry {
    SummaryEntry(Abbreviated(r.status), Passes(r.subtests), |r.subtests|)
  }

  predicate DistinctNames(results: seq<TestResult>) {
    forall i, j :: 0 <= i < j < |results| ==> Strip(results[i].test) != Strip(results[j].test)
  }

  lemma {:induction false} PassesAreCounted(subtests: seq<History.SubtestData>)
    ensures Passes(subtests) == |Places(subtests, HasPassed)|
  {
    if subtests != [] {
      var front, last := subtests[..|subtests| - 1], subtests[|subtests| - 1];
      assert subtests == front + [last];
      PassesAreCounted(front);
      PlacesOneMore(front, last, HasPassed);
    }
  }

  ghost predicate HasPassed(s: History.SubtestData) {
    s.status == "PASS"
  }

  // The entry tells the abbreviated status, how many subtests passed and how many
  // there are.
  ghost predicate Tells(entry: SummaryEntry, r: TestResult) {
    && Abbreviates(entry.status, r.status)
    && entry.passes == |Places(r.subtests, HasPassed)|
    && entry.total == |r.subtests|
  }

  lemma EntryTells(r: TestResult)
    ensures Tells(EntryOf(r), r)
  {
    hide Passes;
    PassesAreCounted(r.subtests);
  }

  // The name is the text without the white space around it.
  lemma StripIsExact(s: string)
    ensures Strip(s) != "" ==> !History.IsSpace(Strip(s)[0]) && !History.IsSpace(Strip(s)[|Strip(s)| - 1])
    ensures exists i: nat :: Surrounded(s, i, Strip(s), History.IsSpace)
  {
    TrimIsExact(s, History.IsSpace);
  }

  // The summary of results without repeated names.
  ghost predicate Summarizes(summary: Summary, results: seq<TestResult>) {
    && (forall i | 0 <= i < |results| :: Strip(results[i].test) in summary)
    && (forall name | name in summary :: HasEntry(summary, results, name))
  }

  ghost predicate HasEntry(summary: Summary, results: seq<TestResult>, name: string)
    requires name in summary
  {
    exists i :: 0 <= i < |results| && Strip(results[i].test) == name && Tells(summary[name], results[i])
  }

  // What a call that raised has left in the cache: the results before the first
  // one whose name is a repetition.
  ghost predicate LeftBy(summary: Summary, results: seq<TestResult>, n: nat, error: ReportError) {
    && 0 < n < |results| && Summarizes(summary, results[..n])
    && DistinctNames(results[..n]) && !DistinctNames(results[..n + 1])
    && error == DuplicateTest(Strip(results[n].test))
  }

  class WPTReport {
    var results: seq<TestResult>
    var runInfo: RunInfo
    var timeStart: Option<int>
    var timeEnd: Option<int>
    var summary: Summary

    constructor ()
      ensures Value() == EMPTY && summary == map[]
    {
      results, runInfo, timeStart, timeEnd, summary := [], map[], None, None, map[];
    }

    function Value(): Merged
      reads this`results, this`runInfo, this`timeStart, this`timeEnd
    {
      Merged(results, runInfo, timeStart, timeEnd)
    }

    // update_property on a run_info field, with conflicts set to null.
    method UpdateField(key: string, source: RunInfo) returns (conflict: bool)
      modifies this`runInfo
      ensures conflict <==> key in source && key in old(runInfo) && source[key] != old(runInfo)[key]
      ensures runInfo ==
        if key !in source then old(runInfo) else old(runInfo)[key := if conflict then Null else source[key]]
    {
      if key !in source {
        return false;
      }
      if key in runInfo && source[key] != runInfo[key] {
        runInfo := runInfo[key := Null];
        return true;
      }
      runInfo := runInfo[key := source[key]];
      return false;
    }

    // The loop over the fields of a chunk's run_info.
    method MergeRunInfo(source: RunInfo) returns (conflicts: set<string>)
      modifies this`runInfo
      ensures runInfo == MergeInfo(old(runInfo), source)
      ensures runInfo.Keys == old(runInfo).Keys + source.Keys
      ensures forall k | k in runInfo :: (runInfo[k] ==
        if k !in source then old(runInfo)[k]
        else if k in old(runInfo) && source[k] != old(runInfo)[k] then Null else source[k])
      ensures conflicts == Differing(old(runInfo), source) - IGNORED_CONFLICTS
      ensures forall k :: (k in conflicts <==>
        && k in source && k in old(runInfo) && source[k] != old(runInfo)[k]
        && k != "browser_build_id" && k != "browser_changeset" && k != "version" && k != "os_build")
    {
      conflicts := {};
      var todo := source.Keys;
      PartlyAll(runInfo, source);
      while todo != {}
        invariant todo <= source.Keys
        invariant runInfo == Partly(old(runInfo), source, source.Keys - todo)
        invariant conflicts == (Differing(old(runInfo), source) - IGNORED_CONFLICTS) * (source.Keys - todo)
        decreases todo
      {
        var key :| key in todo;
        var conflict := UpdateField(key, source);
        PartlyOneMore(old(runInfo), source, source.Keys - todo, key);
        if conflict && key !in IGNORED_CONFLICTS {
          conflicts := conflicts + {key};
        }
        assert source.Keys - (todo - {key}) == source.Keys - todo + {key};
        todo := todo - {key};
      }
      assert source.Keys - todo == source.Keys;
    }

    // _add_chunk. A chunk that raises leaves its results and fields behind, but
    // not its times.
    method AddChunk(chunk: Chunk) returns (err: Option<ReportError>)
      modifies this`results, this`runInfo, this`timeStart, this`timeEnd
      ensures Value() == Added(old(Value()), chunk)
      ensures results == old(results) + chunk.results
      ensures err.Some? ==> timeStart == old(timeStart) && timeEnd == old(timeEnd)
      ensures err == if Conflicts(old(Value()), chunk) == {} then None
        else Some(ConflictingData(Conflicts(old(Value()), chunk)))
    {
      hide MergeInfo, Differing;
      NothingMerged(runInfo);
      results := results + chunk.results;
      if chunk.runInfo.Some? {
        var conflicts := MergeRunInfo(chunk.runInfo.value);
        if conflicts != {} {
          return Some(ConflictingData(conflicts));
        }
      }
      if chunk.timeStart.Some? {
        timeStart := if timeStart.Some? && chunk.timeStart != timeStart
          then Some(Min(chunk.timeStart.value, timeStart.value)) else chunk.timeStart;
      }
      if chunk.timeEnd.Some? {
        timeEnd := if timeEnd.Some? && chunk.timeEnd != timeEnd
          then Some(Max(chunk.timeEnd.value, timeEnd.value)) else chunk.timeEnd;
      }
      return None;
    }

    // Loading files one after the other, until one raises.
    method Load(chunks: seq<Chunk>) returns (err: Option<ReportError>)
      requires Value() == EMPTY
      modifies this`results, this`runInfo, this`timeStart, this`timeEnd
      ensures err.None? <==> Loaded(chunks).Some?
      ensures err.None? ==> Value() == Loaded(chunks).value
    {
      err := None;
      for i := 0 to |chunks|
        invariant err.None? && Loaded(chunks[..i]) == Some(Value())
      {
        assert chunks[..i + 1][..i] == chunks[..i];
        err := AddChunk(chunks[i]);
        if err.Some? {
          RaisedEarly(chunks, i + 1);
          return;
        }
      }
      assert chunks[..|chunks|] == chunks;
    }

    // summarize. The summary is cached, even the unfinished one of a call that
    // raised: the next call returns it.
    method Summarize() returns (r: Result<Summary, ReportError>)
      modifies this`summary
      ensures old(summary) != map[] ==> r == Result.Ok(old(summary)) && summary == old(summary)
      ensures old(summary) == map[] ==> (r.Ok? <==> DistinctNames(results))
      ensures old(summary) == map[] && r.Ok? ==> r.value == summary && Summarizes(summary, results)
      ensures r.Err? ==> summary != map[] && exists n :: LeftBy(summary, results, n, r.error)
    {
      hide Strip, Summarizes, DistinctNames, Abbreviated, Passes, Tells;
      if summary != map[] {
        return Result.Ok(summary);
      }
      NothingSummarized(results);
      for i := 0 to |results|
        invariant Summarizes(summary, results[..i]) && DistinctNames(results[..i])
        invariant summary == map[] <==> i == 0
      {
        var name := Strip(results[i].test);
        assert results[..i + 1] == results[..i] + [results[i]];
        if name in summary {
          RepeatedName(summary, results[..i], results[i]);
          RepeatedInAll(results, i + 1);
          assert LeftBy(summary, results, i, DuplicateTest(name));
          return Err(DuplicateTest(name));
        }
        var passes := CountPasses(results[i].subtests);
        SummarizesOneMore(summary, results[..i], results[i]);
        summary := summary[name := SummaryEntry(Abbreviated(results[i].status), passes, |results[i].subtests|)];
      }
      return Result.Ok(summary);
    }

    method CountPasses(subtests: seq<History.SubtestData>) returns (passes: nat)
      ensures passes == Passes(subtests)
    {
      passes := 0;
      for j := 0 to |subtests|
        invariant passes == Passes(subtests[..j])
      {
        assert subtests[..j + 1][..j] == subtests[..j];
        if subtests[j].status == "PASS" {
          passes := passes + 1;
        }
      }
      assert subtests[..|subtests|] == subtests;
    }
  }

  lemma NothingSummarized(results: seq<TestResult>)
    ensures Summarizes(map[], results[..0]) && DistinctNames(results[..0]) && results[..|results|] == results
  {
  }

  lemma RepeatedName(summary: Summary, results: seq<TestResult>, r: TestResult)
    requires Summarizes(summary, results) && Strip(r.test) in summary
    ensures !DistinctNames(results + [r])
  {
    hide Strip, Tells;
    assert HasEntry(summary, results, Strip(r.test));
    var i :| 0 <= i < |results| && Strip(results[i].test) == Strip(r.test);
    var more := results + [r];
    assert more[i] == results[i] && more[|results|] == r;
  }

  lemma RepeatedInAll(results: seq<TestResult>, n: nat)
    requires n <= |results| && !DistinctNames(results[..n])
    ensures !DistinctNames(results)
  {
    hide Strip;
    var i, j :| 0 <= i < j < n && Strip(results[..n][i].test) == Strip(results[..n][j].test);
    assert results[i] == results[..n][i] && results[j] == results[..n][j];
  }

  function Min(a: int, b: int): int {
    if a <= b then a else b
  }

  function Max(a: int, b: int): int {
    if a >= b then a else b
  }

  // Fields in done are merged, the others are still the target's.
  ghost function Partly(target: RunInfo, source: RunInfo, done: set<string>): RunInfo {
    map k | k in target.Keys + (source.Keys * done) :: if k in done then MergeInfo(target, source)[k] else target[k]
  }

  lemma PartlyOneMore(target: RunInfo, source: RunInfo, done: set<string>, key: string)
    requires key in source && key !in done && done <= source.Keys
    ensures Partly(target, source, done + {key})
      == Partly(target, source, done)[key := MergeInfo(target, source)[key]]
    ensures key in Partly(target, source, done) <==> key in target
    ensures key in target ==> Partly(target, source, done)[key] == target[key]
  {
  }

  lemma PartlyAll(target: RunInfo, source: RunInfo)
    ensures Partly(target, source, source.Keys) == MergeInfo(target, source)
    ensures Partly(target, source, {}) == target
  {
  }

  lemma NothingMerged(target: RunInfo)
    ensures MergeInfo(target, map[]) == target && Differing(target, map[]) == {}
  {
  }

  lemma {:induction false} RaisedEarly(chunks: seq<Chunk>, n: nat)
    requires n <= |chunks| && Loaded(chunks[..n]).None?
    ensures Loaded(chunks).None?
  {
    if n < |chunks| {
      assert chunks[..|chunks| - 1][..n] == chunks[..n];
      RaisedEarly(chunks[..|chunks| - 1], n);
    } else {
      assert chunks[..n] == chunks;
    }
  }

  lemma SummarizesOneMore(summary: Summary, results: seq<TestResult>, r: TestResult)
    requires Summarizes(summary, results) && DistinctNames(results) && Strip(r.test) !in summary
    ensures Summarizes(summary[Strip(r.test) := EntryOf(r)], results + [r]) && DistinctNames(results + [r])
  {
    EntryTells(r);
    hide Strip, EntryOf, Tells;
    var more := results + [r];
    assert more[|results|] == r;
    var summary' := summary[Strip(r.test) := EntryOf(r)];
    forall name | name in summary' ensures HasEntry(summary', more, name) {
      if name in summary {
        assert HasEntry(summary, results, name);
        var i :| 0 <= i < |results| && Strip(results[i].test) == name && Tells(summary[name], results[i]);
        assert more[i] == results[i];
      }
    }
  }
}
