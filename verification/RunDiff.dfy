// Differences between two runs (shared/run_diff.go).
module RunDiff {
  import opened Wrappers
  import opened Strings
  import opened FiniteSums
  import opened Collections

  // [passing, total] counts of a test file.
  datatype Counts = Counts(passes: int, total: int)

  type Summary = map<string, Counts>

  // [newly passing, newly failing, change in the total].
  datatype Diff = Diff(passing: int, failing: int, delta: int)

  // The last flag is the one the source calls Unchanged.
  datatype Filter = Filter(added: bool, deleted: bool, changed: bool, unaltered: bool)

  datatype Status =
    | Unknown | Pass | Ok | Error | Timeout | NotRun | Fail | Crash | Skip | Assert | PreconditionFailed

  predicate IsPassOrOk(s: Status) {
    s == Status.Ok || s == Pass
  }

  // ---- counts against counts ----

  function NewTestDiff(before: Option<Counts>, after: Option<Counts>, filter: Filter): Option<Diff> {
    match (before, after)
    case (None, None) => None
    case (None, Some(a)) =>
      if !filter.added then None else Some(Diff(a.passes, a.total - a.passes, a.total))
    case (Some(b), None) =>
      if !filter.deleted then None else Some(Diff(0, 0, -b.total))
    case (Some(b), Some(a)) =>
      var changed := b.passes - a.passes != 0 || b.total != a.total;
      if (!changed && !filter.unaltered) || (changed && !filter.changed) then None else
        var improved := if a.passes - b.passes > 0 then a.passes - b.passes else 0;
        var worse := (a.total - a.passes) - (b.total - b.passes);
        Some(Diff(improved, if worse > 0 then worse else 0, a.total - b.total))
  }

  function DeltaOf(d: Option<Diff>): int {
    if d.Some? then d.value.delta else 0
  }

  function TotalOf(c: Option<Counts>): int {
    if c.Some? then c.value.total else 0
  }

  // An all-zero difference of a test on both sides means equal counts.
  lemma NoDifferenceMeansEqual(b: Counts, a: Counts, filter: Filter)
    requires NewTestDiff(Some(b), Some(a), filter).Some?
    ensures NewTestDiff(Some(b), Some(a), filter).value == Diff(0, 0, 0) <==> b == a
  {
  }

  predicate WholeFilter(filter: Filter) {
    filter.added && filter.deleted && filter.changed
  }

  lemma DeltaIsChangeInTotal(before: Option<Counts>, after: Option<Counts>, filter: Filter)
    requires WholeFilter(filter)
    ensures DeltaOf(NewTestDiff(before, after, filter)) == TotalOf(after) - TotalOf(before)
  {
  }

  // ---- status against status ----

  predicate WellFormedDiff(d: array<int>) {
    d.Length == 3
  }

  function DiffIn(d: array<int>): Diff
    requires WellFormedDiff(d)
    reads d
  {
    Diff(d[0], d[1], d[2])
  }

  function Plus(d: Diff, e: Diff): Diff {
    Diff(d.passing + e.passing, d.failing + e.failing, d.delta + e.delta)
  }

  function Appended(d: Diff, before: Status, after: Status, filter: Filter): Diff {
    if before == Unknown && after != Unknown && filter.added then
      if IsPassOrOk(after) then d.(passing := d.passing + 1) else d.(failing := d.failing + 1)
    else if before != Unknown && after == Unknown && filter.deleted then
      d.(delta := d.delta - 1)
    else if before != Unknown && after != Unknown && filter.changed && IsPassOrOk(before) != IsPassOrOk(after) then
      if IsPassOrOk(after) then d.(passing := d.passing + 1) else d.(failing := d.failing + 1)
    else d
  }

  method Append(d: array<int>, before: Status, after: Status, filter: Filter)
    requires WellFormedDiff(d)
    modifies d
    ensures DiffIn(d) == Appended(old(DiffIn(d)), before, after, filter)
  {
    if before == Unknown {
      if after == Unknown || !filter.added {
        return;
      }
      if IsPassOrOk(after) {
        d[0] := d[0] + 1;
      } else {
        d[1] := d[1] + 1;
      }
      return;
    }
    if after == Unknown {
      if filter.deleted {
        d[2] := d[2] - 1;
      }
      return;
    }
    var wasPassing, isPassing := IsPassOrOk(before), IsPassOrOk(after);
    if wasPassing == isPassing || !filter.changed {
      return;
    }
    if wasPassing {
      d[1] := d[1] + 1;
    } else {
      d[0] := d[0] + 1;
    }
  }

  method Add(d: array<int>, other: array<int>)
    requires WellFormedDiff(d) && WellFormedDiff(other)
    modifies d
    ensures DiffIn(d) == Plus(old(DiffIn(d)), old(DiffIn(other)))
  {
    d[0] := d[0] + other[0];
    d[1] := d[1] + other[1];
    d[2] := d[2] + other[2];
  }

  datatype Pair = Pair(before: Status, after: Status)

  function AppendAll(pairs: seq<Pair>, filter: Filter): Diff {
    if pairs == [] then Diff(0, 0, 0) else
      var last := pairs[|pairs| - 1];
      Appended(AppendAll(pairs[..|pairs| - 1], filter), last.before, last.after, filter)
  }

  function CountPairs(pairs: seq<Pair>, p: Pair -> bool): nat {
    if pairs == [] then 0 else
      CountPairs(pairs[..|pairs| - 1], p) + (if p(pairs[|pairs| - 1]) then 1 else 0)
  }

  predicate Failing(s: Status) {
    s != Unknown && !IsPassOrOk(s)
  }

  predicate PassesBefore(p: Pair) { IsPassOrOk(p.before) }

  predicate PassesAfter(p: Pair) { IsPassOrOk(p.after) }

  predicate ThereBefore(p: Pair) { p.before != Unknown }

  predicate ThereAfter(p: Pair) { p.after != Unknown }

  predicate StopsPassing(p: Pair) { PassesBefore(p) && !PassesAfter(p) }

  predicate StopsFailing(p: Pair) { Failing(p.before) && !Failing(p.after) }

  predicate IsNew(p: Pair) { !ThereBefore(p) && ThereAfter(p) }

  // The counts of each side: a subtest without a status is not there.
  function Before(pairs: seq<Pair>): Counts {
    Counts(CountPairs(pairs, PassesBefore), CountPairs(pairs, ThereBefore))
  }

  function After(pairs: seq<Pair>): Counts {
    Counts(CountPairs(pairs, PassesAfter), CountPairs(pairs, ThereAfter))
  }

  // What the folded difference is in terms of the counts.
  lemma {:induction false} AppendAllExplained(pairs: seq<Pair>, filter: Filter)
    requires WholeFilter(filter)
    ensures var d, b, a := AppendAll(pairs, filter), Before(pairs), After(pairs);
      && d.passing == a.passes - b.passes + CountPairs(pairs, StopsPassing)
      && d.failing == (a.total - a.passes) - (b.total - b.passes) + CountPairs(pairs, StopsFailing)
      && d.delta == a.total - b.total - CountPairs(pairs, IsNew)
      && d.passing >= 0 && d.failing >= 0
  {
    if pairs != [] {
      AppendAllExplained(pairs[..|pairs| - 1], filter);
    }
  }

  // The counts of a side; a side without any subtest may have no counts at all.
  predicate Counted(c: Option<Counts>, counts: Counts) {
    c == Some(counts) || (c == None && counts.total == 0)
  }

  lemma {:induction false} NoPassesWithoutSubtests(pairs: seq<Pair>)
    ensures 0 <= Before(pairs).passes <= Before(pairs).total
    ensures 0 <= After(pairs).passes <= After(pairs).total
  {
    if pairs != [] {
      NoPassesWithoutSubtests(pairs[..|pairs| - 1]);
    }
  }

  // The difference of the counts never overstates that of the statuses, and the
  // totals agree exactly when no subtest is new.
  lemma CountsNeverOverstate(pairs: seq<Pair>, before: Option<Counts>, after: Option<Counts>, filter: Filter)
    requires WholeFilter(filter) && Counted(before, Before(pairs)) && Counted(after, After(pairs))
    ensures var folded, counted := AppendAll(pairs, filter), NewTestDiff(before, after, filter).GetOr(Diff(0, 0, 0));
      && folded.passing >= counted.passing
      && folded.failing >= counted.failing
      && folded.delta == counted.delta - CountPairs(pairs, IsNew)
  {
    AppendAllExplained(pairs, filter);
    NoPassesWithoutSubtests(pairs);
  }

  // ---- the counts tell no less than any statuses behind them ----

  function Copies(p: Pair, n: nat): seq<Pair> {
    if n == 0 then [] else Copies(p, n - 1) + [p]
  }

  lemma {:induction false} MoreOf(pairs: seq<Pair>, p: Pair, n: nat, q: Pair -> bool)
    ensures CountPairs(pairs + Copies(p, n), q) == CountPairs(pairs, q) + (if q(p) then n else 0)
  {
    if n == 0 {
      assert pairs + Copies(p, 0) == pairs;
    } else {
      MoreOf(pairs, p, n - 1, q);
      var all := pairs + Copies(p, n);
      assert all[..|all| - 1] == pairs + Copies(p, n - 1) && all[|all| - 1] == p;
    }
  }

  // Pairs with given numbers on each side, and given numbers that stop passing
  // and stop failing.
  ghost predicate HasCounts(pairs: seq<Pair>, b: Counts, a: Counts, stopPassing: int, stopFailing: int) {
    && Before(pairs) == b && After(pairs) == a
    && CountPairs(pairs, StopsPassing) == stopPassing && CountPairs(pairs, StopsFailing) == stopFailing
  }

  function If(b: bool, n: nat): nat {
    if b then n else 0
  }

  lemma AddCopies(pairs: seq<Pair>, p: Pair, n: nat, b: Counts, a: Counts, sp: int, sf: int) returns (more: seq<Pair>)
    requires HasCounts(pairs, b, a, sp, sf)
    ensures HasCounts(more,
      Counts(b.passes + If(PassesBefore(p), n), b.total + If(ThereBefore(p), n)),
      Counts(a.passes + If(PassesAfter(p), n), a.total + If(ThereAfter(p), n)),
      sp + If(StopsPassing(p), n), sf + If(StopsFailing(p), n))
    ensures more == pairs + Copies(p, n)
  {
    more := pairs + Copies(p, n);
    MoreOf(pairs, p, n, PassesBefore);
    MoreOf(pairs, p, n, PassesAfter);
    MoreOf(pairs, p, n, ThereBefore);
    MoreOf(pairs, p, n, ThereAfter);
    MoreOf(pairs, p, n, StopsPassing);
    MoreOf(pairs, p, n, StopsFailing);
  }

  function Least(a: int, b: int): int {
    if a <= b then a else b
  }

  function Excess(a: int, b: int): nat {
    if a > b then a - b else 0
  }

  // Those on both sides that can stay as they are or take each other's place.
  lemma OnBothSides(b: Counts, a: Counts) returns (pairs: seq<Pair>)
    requires 0 <= b.passes <= b.total && 0 <= a.passes <= a.total
    ensures var p, f := Least(b.passes, a.passes), Least(b.total - b.passes, a.total - a.passes);
      var better, worse := Better(b, a), Better(a, b);
      HasCounts(pairs, Counts(p + worse, p + f + better + worse), Counts(p + better, p + f + better + worse),
                worse, better)
  {
    hide HasCounts, Better;
    var p, f := Least(b.passes, a.passes), Least(b.total - b.passes, a.total - a.passes);
    var better, worse := Better(b, a), Better(a, b);
    NoPairs();
    pairs := AddCopies([], Pair(Pass, Pass), p, Counts(0, 0), Counts(0, 0), 0, 0);
    pairs := AddCopies(pairs, Pair(Fail, Fail), f, Counts(p, p), Counts(p, p), 0, 0);
    pairs := AddCopies(pairs, Pair(Fail, Pass), better, Counts(p, p + f), Counts(p, p + f), 0, 0);
    pairs := AddCopies(pairs, Pair(Pass, Fail), worse,
      Counts(p, p + f + better), Counts(p + better, p + f + better), 0, better);
  }

  // How many may start to pass: no more than must, nor than must stop failing.
  function Better(b: Counts, a: Counts): nat {
    Least(Excess(a.passes, b.passes), Excess(b.total - b.passes, a.total - a.passes))
  }

  // Some statuses with given counts, of which as few as possible change.
  lemma FewestChanges(b: Counts, a: Counts) returns (pairs: seq<Pair>)
    requires 0 <= b.passes <= b.total && 0 <= a.passes <= a.total
    ensures HasCounts(pairs, b, a, Excess(b.passes, a.passes), Excess(b.total - b.passes, a.total - a.passes))
  {
    hide HasCounts;
    var up, down := Excess(a.passes, b.passes), Excess(b.passes, a.passes);
    var bf, af := b.total - b.passes, a.total - a.passes;
    var failUp, failDown := Excess(af, bf), Excess(bf, af);
    var better, worse := Better(b, a), Better(a, b);
    var p, f := Least(b.passes, a.passes), Least(bf, af);
    pairs := OnBothSides(b, a);
    pairs := AddCopies(pairs, Pair(Unknown, Pass), up - better,
      Counts(p + worse, p + f + better + worse), Counts(p + better, p + f + better + worse), worse, better);
    pairs := AddCopies(pairs, Pair(Unknown, Fail), failUp - worse,
      Counts(p + worse, p + f + better + worse), Counts(p + up, p + f + up + worse), worse, better);
    pairs := AddCopies(pairs, Pair(Pass, Unknown), down - worse,
      Counts(p + worse, p + f + better + worse), Counts(p + up, p + f + up + failUp), worse, better);
    pairs := AddCopies(pairs, Pair(Fail, Unknown), failDown - better,
      Counts(p + down, p + f + better + down), Counts(p + up, p + f + up + failUp), down, better);
  }

  lemma NoPairs()
    ensures HasCounts([], Counts(0, 0), Counts(0, 0), 0, 0)
  {
  }

  // The difference of the counts is the best that can be said of them: some
  // statuses with these counts have exactly these newly passing and failing ones.
  lemma CountsAreTight(b: Counts, a: Counts, filter: Filter) returns (pairs: seq<Pair>)
    requires WholeFilter(filter) && 0 <= b.passes <= b.total && 0 <= a.passes <= a.total
    ensures Before(pairs) == b && After(pairs) == a
    ensures var folded, counted := AppendAll(pairs, filter), NewTestDiff(Some(b), Some(a), filter).GetOr(Diff(0, 0, 0));
      folded.passing == counted.passing && folded.failing == counted.failing
  {
    pairs := FewestChanges(b, a);
    AppendAllExplained(pairs, filter);
  }

  // ---- a test on one side only ----

  // Folding subtests that are all new counts each once, as passing or failing, and
  // so does the difference of their counts, which has them in the total as well.
  lemma {:induction false} AddedIsExact(pairs: seq<Pair>, filter: Filter)
    requires filter.added && forall p | p in pairs :: p.before == Unknown && p.after != Unknown
    ensures var d := NewTestDiff(None, Some(After(pairs)), filter);
      && d.Some? && d.value.passing == AppendAll(pairs, filter).passing
      && d.value.failing == AppendAll(pairs, filter).failing
      && d.value.delta == d.value.passing + d.value.failing == |pairs| && AppendAll(pairs, filter).delta == 0
  {
    if pairs != [] {
      var front, last := pairs[..|pairs| - 1], pairs[|pairs| - 1];
      assert last in pairs && forall p | p in front :: p in pairs;
      AddedIsExact(front, filter);
    }
  }

  // When all are gone, the difference of the counts is the folded one: they only
  // leave the total.
  lemma {:induction false} DeletedIsExact(pairs: seq<Pair>, filter: Filter)
    requires filter.deleted && forall p | p in pairs :: p.before != Unknown && p.after == Unknown
    ensures NewTestDiff(Some(Before(pairs)), None, filter) == Some(AppendAll(pairs, filter))
    ensures AppendAll(pairs, filter) == Diff(0, 0, -|pairs|)
  {
    if pairs != [] {
      var front, last := pairs[..|pairs| - 1], pairs[|pairs| - 1];
      assert last in pairs && forall p | p in front :: p in pairs;
      DeletedIsExact(front, filter);
    }
  }

  // Any counts are those of some subtests that are all new, or all gone.
  lemma OneSidedExists(c: Counts) returns (added: seq<Pair>, deleted: seq<Pair>)
    requires 0 <= c.passes <= c.total
    ensures After(added) == c == Before(deleted)
    ensures forall p | p in added :: p.before == Unknown && p.after != Unknown
    ensures forall p | p in deleted :: p.before != Unknown && p.after == Unknown
  {
    hide HasCounts;
    var fails := c.total - c.passes;
    NoPairs();
    added := AddCopies([], Pair(Unknown, Pass), c.passes, Counts(0, 0), Counts(0, 0), 0, 0);
    added := AddCopies(added, Pair(Unknown, Fail), fails, Counts(0, 0), Counts(c.passes, c.passes), 0, 0);
    CountsOf(added, Counts(0, 0), c, 0, 0);
    deleted := AddCopies([], Pair(Pass, Unknown), c.passes, Counts(0, 0), Counts(0, 0), 0, 0);
    deleted := AddCopies(deleted, Pair(Fail, Unknown), fails, Counts(c.passes, c.passes), Counts(0, 0), c.passes, 0);
    CountsOf(deleted, c, Counts(0, 0), c.passes, fails);
    CopiesOnly(Pair(Unknown, Pass), c.passes);
    CopiesOnly(Pair(Unknown, Fail), fails);
    CopiesOnly(Pair(Pass, Unknown), c.passes);
    CopiesOnly(Pair(Fail, Unknown), fails);
    hide Copies, Before, After;
  }

  lemma CountsOf(pairs: seq<Pair>, b: Counts, a: Counts, stopPassing: int, stopFailing: int)
    requires HasCounts(pairs, b, a, stopPassing, stopFailing)
    ensures Before(pairs) == b && After(pairs) == a
  {
  }

  lemma {:induction false} CopiesOnly(p: Pair, n: nat)
    ensures forall x | x in Copies(p, n) :: x == p
  {
    if n > 0 {
      CopiesOnly(p, n - 1);
    }
  }

  // ---- the filter ----

  predicate StartsPassing(p: Pair) { ThereBefore(p) && !PassesBefore(p) && PassesAfter(p) }

  predicate StartsFailing(p: Pair) { PassesBefore(p) && ThereAfter(p) && !PassesAfter(p) }

  predicate NewPassing(p: Pair) { IsNew(p) && PassesAfter(p) }

  predicate NewFailing(p: Pair) { IsNew(p) && !PassesAfter(p) }

  predicate IsGone(p: Pair) { ThereBefore(p) && !ThereAfter(p) }

  // What each flag lets through.
  lemma {:induction false} AppendAllFiltered(pairs: seq<Pair>, filter: Filter)
    ensures var d := AppendAll(pairs, filter);
      && d.passing == (if filter.added then CountPairs(pairs, NewPassing) else 0)
                      + (if filter.changed then CountPairs(pairs, StartsPassing) else 0)
      && d.failing == (if filter.added then CountPairs(pairs, NewFailing) else 0)
                      + (if filter.changed then CountPairs(pairs, StartsFailing) else 0)
      && d.delta == -(if filter.deleted then CountPairs(pairs, IsGone) else 0)
  {
    if pairs != [] {
      AppendAllFiltered(pairs[..|pairs| - 1], filter);
    }
  }

  lemma TestDiffIff(before: Option<Counts>, after: Option<Counts>, filter: Filter)
    ensures NewTestDiff(before, after, filter).Some? <==>
      || (before.None? && after.Some? && filter.added)
      || (before.Some? && after.None? && filter.deleted)
      || (before.Some? && after.Some? && before != after && filter.changed)
      || (before.Some? && before == after && filter.unaltered)
  {
  }

  // ---- whole summaries ----

  predicate AnyPathMatches(paths: Option<set<string>>, test: string) {
    paths.None? || exists p :: p in paths.value && HasPrefix(test, p)
  }

  function Target(renames: map<string, string>, test: string): string {
    if test in renames then renames[test] else test
  }

  // What the loop over the before tests computes for a test and its new name.
  function Compared(before: Summary, after: Summary, filter: Filter, test: string, name: string): Option<Diff>
    requires test in before
  {
    if filter.deleted || filter.changed
    then NewTestDiff(Some(before[test]), Lookup(after, name), filter)
    else None
  }

  predicate IsTarget(renames: map<string, string>, name: string) {
    exists s :: s in renames && renames[s] == name
  }

  // What the loop over the after tests computes.
  function Added(before: Summary, after: Summary, filter: Filter, renames: map<string, string>, name: string)
    : Option<Diff>
  {
    if filter.added && name in after && !IsTarget(renames, name) && name !in before
    then NewTestDiff(None, Some(after[name]), filter)
    else None
  }

  ghost predicate ComparedTo(before: Summary, after: Summary, filter: Filter, renames: map<string, string>,
                             done: set<string>, name: string, d: Diff)
  {
    exists t :: t in done && t in before && Target(renames, t) == name
      && Compared(before, after, filter, t, name) == Some(d)
  }

  // d is the difference reported for name, in some order of the loops.
  ghost predicate Reported(before: Summary, after: Summary, filter: Filter, paths: Option<set<string>>,
                           renames: map<string, string>, name: string, d: Diff)
  {
    && AnyPathMatches(paths, name)
    && (|| ComparedTo(before, after, filter, renames, before.Keys, name, d)
        || Added(before, after, filter, renames, name) == Some(d))
  }

  ghost predicate IsDiff(before: Summary, after: Summary, filter: Filter, paths: Option<set<string>>,
                         renames: map<string, string>, diff: map<string, Diff>)
  {
    && (forall name | name in diff :: Reported(before, after, filter, paths, renames, name, diff[name]))
    && (forall name, d | Reported(before, after, filter, paths, renames, name, d) :: name in diff)
  }

  // Without renames: which tests are reported, and with what numbers.
  lemma DiffWithoutRenames(before: Summary, after: Summary, filter: Filter, paths: Option<set<string>>,
                           diff: map<string, Diff>, name: string)
    requires IsDiff(before, after, filter, paths, map[], diff)
    ensures name in diff <==>
      && (paths.None? || exists p :: p in paths.value && p <= name)
      && (|| (name !in before && name in after && filter.added)
          || (name in before && name !in after && filter.deleted)
          || (name in before && name in after && before[name] != after[name] && filter.changed)
          || (name in before && name in after && before[name] == after[name] && filter.unaltered
                && (filter.deleted || filter.changed)))
    ensures name in diff ==> var d := diff[name];
      && (name !in before ==> d.passing == after[name].passes && d.failing == after[name].total - after[name].passes)
      && (name !in before ==> d.delta == after[name].total)
      && (name !in after ==> d == Diff(0, 0, -before[name].total))
      && (name in before && name in after ==>
            var b, a := before[name], after[name];
            && d.passing == (if a.passes > b.passes then a.passes - b.passes else 0)
            && d.failing == (if a.total - a.passes > b.total - b.passes
                               then (a.total - a.passes) - (b.total - b.passes) else 0)
            && d.delta == a.total - b.total)
  {
    forall d ensures Reported(before, after, filter, paths, map[], name, d) <==>
      AnyPathMatches(paths, name) && (
        || (name in before && Compared(before, after, filter, name, name) == Some(d))
        || Added(before, after, filter, map[], name) == Some(d))
    {
      if name in before && Compared(before, after, filter, name, name) == Some(d) {
        assert Target(map[], name) == name;
        assert ComparedTo(before, after, filter, map[], before.Keys, name, d);
      }
    }
    IsDiffAt(before, after, filter, paths, map[], diff, name);
    var found := if name in before then Compared(before, after, filter, name, name)
      else Added(before, after, filter, map[], name);
    assert found.Some? && AnyPathMatches(paths, name) ==>
      Reported(before, after, filter, paths, map[], name, found.value);
    hide IsDiff, Reported;
  }

  lemma IsDiffAt(before: Summary, after: Summary, filter: Filter, paths: Option<set<string>>,
                 renames: map<string, string>, diff: map<string, Diff>, name: string)
    requires IsDiff(before, after, filter, paths, renames, diff)
    ensures name in diff ==> Reported(before, after, filter, paths, renames, name, diff[name])
    ensures forall d | Reported(before, after, filter, paths, renames, name, d) :: name in diff
  {
  }

  method GetResultsDiff(before: Summary, after: Summary, filter: Filter, paths: Option<set<string>>,
                        renames: map<string, string>) returns (diff: map<string, Diff>)
    ensures IsDiff(before, after, filter, paths, renames, diff)
  {
    hide *;
    diff := map[];
    NothingCompared(before, after, filter, paths, renames);
    if filter.deleted || filter.changed {
      var todo := before.Keys;
      AllDone(before.Keys);
      while todo != {}
        invariant todo <= before.Keys
        invariant ComparedSoFar(before, after, filter, paths, renames, before.Keys - todo, diff)
        decreases todo
      {
        var test :| test in todo;
        var name := Target(renames, test);
        ghost var was := diff;
        var testDiff := NewTestDiff(Some(before[test]), Lookup(after, name), filter);
        if AnyPathMatches(paths, name) && testDiff.Some? {
          diff := diff[name := testDiff.value];
        }
        ComparedOneMore(before, after, filter, paths, renames, before.Keys - todo, test, was, diff);
        OneLessToDo(before.Keys, todo, test);
        todo := todo - {test};
      }
      AllDone(before.Keys);
    }
    if filter.added {
      ghost var compared := diff;
      var todo := after.Keys;
      AllDone(after.Keys);
      NothingAdded(before, after, filter, paths, renames, compared);
      while todo != {}
        invariant todo <= after.Keys
        invariant AddedSoFar(before, after, filter, paths, renames, after.Keys - todo, compared, diff)
        decreases todo
      {
        var name :| name in todo;
        ghost var was := diff;
        if name !in renames.Values && name !in before && AnyPathMatches(paths, name) {
          var testDiff := NewTestDiff(None, Some(after[name]), filter);
          if testDiff.Some? {
            diff := diff[name := testDiff.value];
          }
        }
        AddedOneMore(before, after, filter, paths, renames, after.Keys - todo, name, compared, was, diff);
        OneLessToDo(after.Keys, todo, name);
        todo := todo - {name};
      }
      AllDone(after.Keys);
      AllReported(before, after, filter, paths, renames, compared, diff);
    } else {
      NoneAdded(before, after, filter, paths, renames, diff);
    }
  }

  // diff holds what the tests in done give, for some order of looking at them.
  ghost predicate ComparedSoFar(before: Summary, after: Summary, filter: Filter, paths: Option<set<string>>,
                                renames: map<string, string>, done: set<string>, diff: map<string, Diff>)
  {
    && (forall name | name in diff ::
          AnyPathMatches(paths, name) && ComparedTo(before, after, filter, renames, done, name, diff[name]))
    && (forall name, d | AnyPathMatches(paths, name) && ComparedTo(before, after, filter, renames, done, name, d) ::
          name in diff)
  }

  lemma NothingCompared(before: Summary, after: Summary, filter: Filter, paths: Option<set<string>>,
                        renames: map<string, string>)
    ensures ComparedSoFar(before, after, filter, paths, renames, before.Keys - before.Keys, map[])
    ensures !filter.deleted && !filter.changed ==>
      ComparedSoFar(before, after, filter, paths, renames, before.Keys, map[])
  {
  }

  lemma ComparedOneMore(before: Summary, after: Summary, filter: Filter, paths: Option<set<string>>,
                        renames: map<string, string>, done: set<string>, test: string,
                        was: map<string, Diff>, diff: map<string, Diff>)
    requires ComparedSoFar(before, after, filter, paths, renames, done, was) && test in before
    requires filter.deleted || filter.changed
    requires var name := Target(renames, test);
      var d := NewTestDiff(Some(before[test]), Lookup(after, name), filter);
      diff == if AnyPathMatches(paths, name) && d.Some? then was[name := d.value] else was
    ensures ComparedSoFar(before, after, filter, paths, renames, done + {test}, diff)
  {
    forall name, d
      ensures ComparedTo(before, after, filter, renames, done + {test}, name, d) <==>
        || ComparedTo(before, after, filter, renames, done, name, d)
        || (Target(renames, test) == name && Compared(before, after, filter, test, name) == Some(d))
    {
    }
  }

  ghost predicate AddedSoFar(before: Summary, after: Summary, filter: Filter, paths: Option<set<string>>,
                             renames: map<string, string>, done: set<string>, compared: map<string, Diff>,
                             diff: map<string, Diff>)
  {
    && (forall name | name in compared :: name in diff && diff[name] == compared[name])
    && (forall name | name in diff && name !in compared :: name in done && AnyPathMatches(paths, name)
          && Added(before, after, filter, renames, name) == Some(diff[name]))
    && (forall name | name in done && AnyPathMatches(paths, name)
          && Added(before, after, filter, renames, name).Some? :: name in diff)
  }

  lemma NothingAdded(before: Summary, after: Summary, filter: Filter, paths: Option<set<string>>,
                     renames: map<string, string>, compared: map<string, Diff>)
    ensures AddedSoFar(before, after, filter, paths, renames, after.Keys - after.Keys, compared, compared)
  {
  }

  lemma AddedOneMore(before: Summary, after: Summary, filter: Filter, paths: Option<set<string>>,
                     renames: map<string, string>, done: set<string>, name: string,
                     compared: map<string, Diff>, was: map<string, Diff>, diff: map<string, Diff>)
    requires AddedSoFar(before, after, filter, paths, renames, done, compared, was) && name in after && filter.added
    requires ComparedSoFar(before, after, filter, paths, renames, before.Keys, compared)
    requires var d := NewTestDiff(None, Some(after[name]), filter);
      diff == if name !in renames.Values && name !in before && AnyPathMatches(paths, name) && d.Some?
        then was[name := d.value] else was
    ensures AddedSoFar(before, after, filter, paths, renames, done + {name}, compared, diff)
  {
    assert name in compared ==> IsTarget(renames, name) || name in before by {
      hide NewTestDiff, AnyPathMatches;
      if name in compared {
        NotBoth(before, after, filter, renames, name, compared[name]);
      }
    }
    hide NewTestDiff, AnyPathMatches, ComparedSoFar, ComparedTo;
    assert name in renames.Values <==> IsTarget(renames, name);
  }

  // A name is either compared or new.
  lemma NotBoth(before: Summary, after: Summary, filter: Filter, renames: map<string, string>, name: string, d: Diff)
    requires ComparedTo(before, after, filter, renames, before.Keys, name, d)
    ensures IsTarget(renames, name) || name in before
  {
  }

  lemma AllReported(before: Summary, after: Summary, filter: Filter, paths: Option<set<string>>,
                    renames: map<string, string>, compared: map<string, Diff>, diff: map<string, Diff>)
    requires ComparedSoFar(before, after, filter, paths, renames, before.Keys, compared)
    requires AddedSoFar(before, after, filter, paths, renames, after.Keys, compared, diff)
    ensures IsDiff(before, after, filter, paths, renames, diff)
  {
    hide Compared, ComparedTo, AnyPathMatches;
  }

  lemma NoneAdded(before: Summary, after: Summary, filter: Filter, paths: Option<set<string>>,
                  renames: map<string, string>, diff: map<string, Diff>)
    requires ComparedSoFar(before, after, filter, paths, renames, before.Keys, diff) && !filter.added
    ensures IsDiff(before, after, filter, paths, renames, diff)
  {
    hide Compared, ComparedTo, AnyPathMatches;
  }

  // ---- renames ----

  // Renames are one to one, their sources are tests that disappeared, and their
  // targets are not tests of the earlier run.
  ghost predicate CleanRenames(before: Summary, after: Summary, renames: map<string, string>) {
    && (forall s, t | s in renames && t in renames && renames[s] == renames[t] :: s == t)
    && (forall s | s in renames :: s in before && s !in after && renames[s] !in before)
  }

  // The earlier summary under the new names.
  ghost function Relabelled(before: Summary, after: Summary, renames: map<string, string>): Summary
    requires CleanRenames(before, after, renames)
  {
    map t | t in before :: Target(renames, t) := before[t]
  }

  lemma RelabelledCompares(before: Summary, after: Summary, filter: Filter, renames: map<string, string>,
                           name: string, d: Diff)
    requires CleanRenames(before, after, renames)
    ensures ComparedTo(before, after, filter, renames, before.Keys, name, d)
      <==> (var relabelled := Relabelled(before, after, renames);
            ComparedTo(relabelled, after, filter, map[], relabelled.Keys, name, d))
  {
    hide NewTestDiff;
    var relabelled := Relabelled(before, after, renames);
    if t :| t in before && Target(renames, t) == name {
      assert name in relabelled && relabelled[name] == before[t] && Target(map[], name) == name;
    }
  }

  lemma RelabelledAdds(before: Summary, after: Summary, filter: Filter, renames: map<string, string>, name: string)
    requires CleanRenames(before, after, renames)
    ensures Added(before, after, filter, renames, name)
      == Added(Relabelled(before, after, renames), after, filter, map[], name)
  {
    hide NewTestDiff;
    var relabelled := Relabelled(before, after, renames);
    if s :| s in renames && renames[s] == name {
      assert s in before && Target(renames, s) == name && name in relabelled;
    }
    if name in before {
      assert Target(renames, name) == name || name !in after;
      assert name in renames || name in relabelled;
    }
  }

  lemma RelabelledReports(before: Summary, after: Summary, filter: Filter, paths: Option<set<string>>,
                          renames: map<string, string>, name: string, d: Diff)
    requires CleanRenames(before, after, renames)
    ensures Reported(before, after, filter, paths, renames, name, d)
      <==> Reported(Relabelled(before, after, renames), after, filter, paths, map[], name, d)
  {
    hide ComparedTo, Added, Relabelled;
    RelabelledCompares(before, after, filter, renames, name, d);
    RelabelledAdds(before, after, filter, renames, name);
  }

  // Clean renames commute with diffing.
  lemma RenamesCommute(before: Summary, after: Summary, filter: Filter, paths: Option<set<string>>,
                       renames: map<string, string>, diff: map<string, Diff>)
    requires CleanRenames(before, after, renames)
    ensures IsDiff(before, after, filter, paths, renames, diff)
      <==> IsDiff(Relabelled(before, after, renames), after, filter, paths, map[], diff)
  {
    hide Reported, Relabelled;
    forall name, d
      ensures Reported(before, after, filter, paths, renames, name, d)
        <==> Reported(Relabelled(before, after, renames), after, filter, paths, map[], name, d)
    {
      hide *;
      RelabelledReports(before, after, filter, paths, renames, name, d);
    }
  }

  // ---- no renames ----

  lemma PlainReport(before: Summary, after: Summary, filter: Filter, paths: Option<set<string>>, name: string, d: Diff)
    requires !filter.unaltered || filter.deleted || filter.changed
    ensures Reported(before, after, filter, paths, map[], name, d)
      <==> AnyPathMatches(paths, name) && NewTestDiff(Lookup(before, name), Lookup(after, name), filter) == Some(d)
  {
    if name in before {
      assert Target(map[], name) == name;
    }
  }

  // Two results for the same summaries are the same result.
  lemma PlainDiffIsUnique(before: Summary, after: Summary, filter: Filter, paths: Option<set<string>>,
                          diff: map<string, Diff>, name: string)
    requires !filter.unaltered || filter.deleted || filter.changed
    requires IsDiff(before, after, filter, paths, map[], diff)
    ensures Lookup(diff, name) == if AnyPathMatches(paths, name)
      then NewTestDiff(Lookup(before, name), Lookup(after, name), filter) else None
  {
    var d := NewTestDiff(Lookup(before, name), Lookup(after, name), filter);
    if name in diff {
      PlainReport(before, after, filter, paths, name, diff[name]);
    } else if AnyPathMatches(paths, name) && d.Some? {
      PlainReport(before, after, filter, paths, name, d.value);
    }
  }

  // Filters drawn from Added, Deleted and Changed can be applied one at a time.
  lemma FiltersAreIndependent(
      before: Summary, after: Summary, filter: Filter, paths: Option<set<string>>, diff: map<string, Diff>,
      added: map<string, Diff>, deleted: map<string, Diff>, changed: map<string, Diff>)
    requires !filter.unaltered && IsDiff(before, after, filter, paths, map[], diff)
    requires IsDiff(before, after, Filter(filter.added, false, false, false), paths, map[], added)
    requires IsDiff(before, after, Filter(false, filter.deleted, false, false), paths, map[], deleted)
    requires IsDiff(before, after, Filter(false, false, filter.changed, false), paths, map[], changed)
    ensures added.Keys !! deleted.Keys !! changed.Keys
    ensures diff == added + deleted + changed
  {
    forall name
      ensures Lookup(diff, name) == Lookup(added + deleted + changed, name)
      ensures name in added ==> name !in deleted && name !in changed
      ensures name in deleted ==> name !in changed
    {
      PlainDiffIsUnique(before, after, filter, paths, diff, name);
      PlainDiffIsUnique(before, after, Filter(filter.added, false, false, false), paths, added, name);
      PlainDiffIsUnique(before, after, Filter(false, filter.deleted, false, false), paths, deleted, name);
      PlainDiffIsUnique(before, after, Filter(false, false, filter.changed, false), paths, changed, name);
    }
    SameLookups(diff, added + deleted + changed);
  }

  lemma SameLookups(a: map<string, Diff>, b: map<string, Diff>)
    requires forall name :: Lookup(a, name) == Lookup(b, name)
    ensures a == b
  {
    forall name ensures name in a <==> name in b {
      assert Lookup(a, name) == Lookup(b, name);
    }
    forall name | name in a ensures a[name] == b[name] {
      assert Lookup(a, name) == Lookup(b, name);
    }
  }

  ghost function Deltas(diff: map<string, Diff>): string -> int {
    name => DeltaOf(Lookup(diff, name))
  }

  ghost function Totals(summary: Summary): string -> int {
    name => TotalOf(Lookup(summary, name))
  }

  // The changes in the totals add up to the change of the grand total.
  lemma DeltasConserveTotals(before: Summary, after: Summary, filter: Filter, diff: map<string, Diff>)
    requires WholeFilter(filter) && IsDiff(before, after, filter, None, map[], diff)
    ensures Sum(diff.Keys, Deltas(diff)) == Sum(after.Keys, Totals(after)) - Sum(before.Keys, Totals(before))
  {
    var all := before.Keys + after.Keys;
    forall name ensures Deltas(diff)(name) == Totals(after)(name) - Totals(before)(name)
      && (name in diff ==> name in all)
    {
      PlainDiffIsUnique(before, after, filter, None, diff, name);
      DeltaIsChangeInTotal(Lookup(before, name), Lookup(after, name), filter);
    }
    SumPlus(all, Totals(after), Deltas(diff), Totals(before));
    SumOver(diff.Keys, all, Deltas(diff));
    SumOver(after.Keys, all, Totals(after));
    SumOver(before.Keys, all, Totals(before));
  }

  lemma RelabelledTotals(before: Summary, after: Summary, renames: map<string, string>)
    requires CleanRenames(before, after, renames)
    ensures var relabelled := Relabelled(before, after, renames);
      Sum(relabelled.Keys, Totals(relabelled)) == Sum(before.Keys, Totals(before))
  {
    var relabelled := Relabelled(before, after, renames);
    var rename := (t: string) => Target(renames, t);
    SumRenamed(before.Keys, relabelled.Keys, Totals(before), Totals(relabelled), rename);
  }

  // Clean renames lose no test from the totals either.
  lemma RenamedDeltasConserveTotals(before: Summary, after: Summary, filter: Filter, renames: map<string, string>,
                                    diff: map<string, Diff>)
    requires WholeFilter(filter) && CleanRenames(before, after, renames)
    requires IsDiff(before, after, filter, None, renames, diff)
    ensures Sum(diff.Keys, Deltas(diff)) == Sum(after.Keys, Totals(after)) - Sum(before.Keys, Totals(before))
  {
    RenamesCommute(before, after, filter, None, renames, diff);
    RelabelledTotals(before, after, renames);
    DeltasConserveTotals(Relabelled(before, after, renames), after, filter, diff);
  }

  // ---- when the order of the maps shows ----

  predicate DistinctTargets(tests: set<string>, renames: map<string, string>) {
    forall s, t | s in tests && t in tests && Target(renames, s) == Target(renames, t) :: s == t
  }

  lemma NamedOnce(before: Summary, after: Summary, filter: Filter, paths: Option<set<string>>,
                  renames: map<string, string>, name: string, d: Diff, e: Diff)
    requires DistinctTargets(before.Keys, renames)
    requires Reported(before, after, filter, paths, renames, name, d)
    requires Reported(before, after, filter, paths, renames, name, e)
    ensures d == e
  {
    hide Compared, AnyPathMatches;
    if ComparedTo(before, after, filter, renames, before.Keys, name, d) {
      NotBoth(before, after, filter, renames, name, d);
    }
    if ComparedTo(before, after, filter, renames, before.Keys, name, e) {
      NotBoth(before, after, filter, renames, name, e);
    }
  }

  lemma DiffIsUnique(before: Summary, after: Summary, filter: Filter, paths: Option<set<string>>,
                     renames: map<string, string>, one: map<string, Diff>, other: map<string, Diff>)
    requires DistinctTargets(before.Keys, renames)
    requires IsDiff(before, after, filter, paths, renames, one)
    requires IsDiff(before, after, filter, paths, renames, other)
    ensures one == other
  {
    hide Reported;
    forall name | name in one ensures name in other && one[name] == other[name] {
      assert Reported(before, after, filter, paths, renames, name, one[name]);
      NamedOnce(before, after, filter, paths, renames, name, one[name], other[name]);
    }
    assert forall name | name in other :: Reported(before, after, filter, paths, renames, name, other[name]);
  }

  const DELETED := Filter(false, true, false, false)

  lemma DeletedReports(before: Summary, renames: map<string, string>, name: string, d: Diff)
    ensures Reported(before, map[], DELETED, None, renames, name, d)
      <==> exists t :: t in before && Target(renames, t) == name && d == Diff(0, 0, -before[t].total)
  {
  }

  function TotalsFor(tests: set<string>, s: string): Summary {
    map t | t in tests :: Counts(0, if t == s then 1 else 2)
  }

  ghost function TargetsOf(tests: set<string>, renames: map<string, string>): set<string> {
    set t | t in tests :: Target(renames, t)
  }

  ghost function DeltasFor(tests: set<string>, renames: map<string, string>, s: string, delta: int): map<string, Diff> {
    map name | name in TargetsOf(tests, renames) :: Diff(0, 0, if name == Target(renames, s) then delta else -2)
  }

  // Two tests with one target: the diff may be that of either.
  lemma EitherMayShow(tests: set<string>, renames: map<string, string>, s: string, t: string)
    requires s in tests && t in tests && s != t && Target(renames, s) == Target(renames, t)
    ensures IsDiff(TotalsFor(tests, s), map[], DELETED, None, renames, DeltasFor(tests, renames, s, -1))
    ensures IsDiff(TotalsFor(tests, s), map[], DELETED, None, renames, DeltasFor(tests, renames, s, -2))
    ensures DeltasFor(tests, renames, s, -1) != DeltasFor(tests, renames, s, -2)
  {
    hide Reported, Target;
    var before := TotalsFor(tests, s);
    forall name, d ensures Reported(before, map[], DELETED, None, renames, name, d)
      <==> exists u :: u in before && Target(renames, u) == name && d == Diff(0, 0, -before[u].total)
    {
      DeletedReports(before, renames, name, d);
    }
    assert before[s].total == 1 && before[t].total == 2;
    assert Target(renames, s) in TargetsOf(tests, renames);
    assert DeltasFor(tests, renames, s, -1)[Target(renames, s)] != DeltasFor(tests, renames, s, -2)[Target(renames, s)];
  }

  ghost predicate OrderIndependent(tests: set<string>, renames: map<string, string>) {
    forall before: Summary, after: Summary, filter, paths, one, other |
      && before.Keys == tests
      && IsDiff(before, after, filter, paths, renames, one)
      && IsDiff(before, after, filter, paths, renames, other) :: one == other
  }

  // Whatever the counts, filters and paths, the order of the maps does not show,
  // exactly when no two earlier tests have the same target.
  lemma OrderIndependentIff(tests: set<string>, renames: map<string, string>)
    ensures OrderIndependent(tests, renames) <==> DistinctTargets(tests, renames)
  {
    hide IsDiff, Target;
    if DistinctTargets(tests, renames) {
      forall before: Summary, after: Summary, filter, paths, one, other |
        && before.Keys == tests
        && IsDiff(before, after, filter, paths, renames, one)
        && IsDiff(before, after, filter, paths, renames, other)
        ensures one == other
      {
        DiffIsUnique(before, after, filter, paths, renames, one, other);
      }
    } else {
      var s, t :| s in tests && t in tests && Target(renames, s) == Target(renames, t) && s != t;
      EitherMayShow(tests, renames, s, t);
      assert TotalsFor(tests, s).Keys == tests;
    }
  }
}
