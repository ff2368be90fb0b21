// The BindToRuns methods themselves, with the loops and early exits of the
// source, and the query that the search cache finally runs.
module QueryBinder {
  import opened Wrappers
  import opened Products
  import opened Query
  import opened QueryBinding

  method BindToRuns(q: AbstractQuery, runs: seq<TestRun>, f: Fetcher) returns (c: ConcreteQuery)
    ensures c == Bind(q, runs, f)
    decreases q, 1
  {
    match q
    case ATrue => c := CTrue;
    case AFalse => c := CFalse;
    case ALeaf(leaf) => c := CLeaf(leaf);
    case ALink(pattern) => c := CLink(pattern, f.links(runs));
    case ATriaged(p) => c := BindTriaged(p, runs, f);
    case AStatusEq(p, status) => c := BindStatus(p, status, true, runs);
    case AStatusNeq(p, status) => c := BindStatus(p, status, false, runs);
    case AExists(args) => c := BindExists(args, runs, f);
    case AAll(args) => c := BindAll(args, runs, f);
    case ANone(args) => var e := BindExists(args, runs, f); c := CNot(e);
    case ASequential(args) => c := BindSequential(args, runs, f);
    case ACount(count, condition) => var byRun := BindCount(condition, runs, f); c := CCount(count, byRun);
    case AMoreThan(count, condition) => var byRun := BindCount(condition, runs, f); c := CMoreThan(count, byRun);
    case ALessThan(count, condition) => var byRun := BindCount(condition, runs, f); c := CLessThan(count, byRun);
    case ANot(arg) => var sub := BindToRuns(arg, runs, f); c := CNot(sub);
    case AOr(args) => c := BindOr(args, runs, f);
    case AAnd(args) => c := BindAnd(args, runs, f);
  }

  method BindStatus(p: Option<ProductSpec>, status: int, equal: bool, runs: seq<TestRun>)
    returns (c: ConcreteQuery)
    ensures c == StatusPlan(MatchingIds(p, runs), status, equal)
  {
    var ids := [];
    for i := 0 to |runs|
      invariant ids == MatchingIds(p, runs[..i])
    {
      assert runs[..i + 1][..i] == runs[..i];
      if Wanted(p, runs[i]) {
        ids := ids + [runs[i].id];
      }
    }
    assert runs[..|runs|] == runs;
    if |ids| == 0 {
      return CFalse;
    }
    if |ids| == 1 {
      return if equal then CStatusEq(ids[0], status) else CStatusNeq(ids[0], status);
    }
    var args := [];
    for i := 0 to |ids|
      invariant |args| == i
      invariant forall j :: 0 <= j < i ==>
        args[j] == if equal then CStatusEq(ids[j], status) else CStatusNeq(ids[j], status)
    {
      args := args + [if equal then CStatusEq(ids[i], status) else CStatusNeq(ids[i], status)];
    }
    return COr(args);
  }

  method BindTriaged(p: Option<ProductSpec>, runs: seq<TestRun>, f: Fetcher) returns (c: ConcreteQuery)
    ensures c == TriagedPlan(TriagedAtoms(p, runs, f))
  {
    var cq := [];
    for i := 0 to |runs|
      invariant cq == TriagedAtoms(p, runs[..i], f)
    {
      assert runs[..i + 1][..i] == runs[..i];
      if Wanted(p, runs[i]) {
        var metadata := TriageOf(p, runs[i], f);
        if |metadata| > 0 {
          cq := cq + [CTriaged(runs[i].id, metadata)];
        }
      }
    }
    assert runs[..|runs|] == runs;
    if |cq| == 0 {
      return CFalse;
    }
    return COr(cq);
  }

  // The plans of one query, run by run, without those equal to `dropped`.
  method BindByRun(q: AbstractQuery, runs: seq<TestRun>, dropped: ConcreteQuery, f: Fetcher)
    returns (byRun: seq<ConcreteQuery>)
    ensures byRun == Without(ByRun(q, runs, f), dropped)
    decreases q, 2
  {
    ghost var all := ByRun(q, runs, f);
    byRun := [];
    for i := 0 to |runs|
      invariant byRun == Without(all[..i], dropped)
    {
      assert all[..i + 1][..i] == all[..i];
      var bound := BindToRuns(q, [runs[i]], f);
      if bound != dropped {
        byRun := byRun + [bound];
      }
    }
    assert all[..|runs|] == all;
  }

  method BindExists(args: seq<AbstractQuery>, runs: seq<TestRun>, f: Fetcher) returns (c: ConcreteQuery)
    ensures c == Bind(AExists(args), runs, f)
    decreases args, 0
  {
    if |args| == 1 {
      c := BindToRuns(args[0], runs, f);
      return;
    }
    var queries := [];
    for i := 0 to |args|
      invariant |queries| == i
      invariant forall j :: 0 <= j < i ==> queries[j] == ExistsParts(args, runs, f)[j]
    {
      var byRun := BindByRun(args[i], runs, CFalse, f);
      queries := queries + [COr(byRun)];
    }
    assert queries == ExistsParts(args, runs, f);
    return CAnd(queries);
  }

  method BindAll(args: seq<AbstractQuery>, runs: seq<TestRun>, f: Fetcher) returns (c: ConcreteQuery)
    ensures c == CAnd(AllParts(args, runs, f))
    decreases args, 0
  {
    var queries := [];
    for i := 0 to |args|
      invariant |queries| == i
      invariant forall j :: 0 <= j < i ==> queries[j] == AllParts(args, runs, f)[j]
    {
      var byRun := BindByRun(args[i], runs, CTrue, f);
      queries := queries + [CAnd(byRun)];
    }
    assert queries == AllParts(args, runs, f);
    return CAnd(queries);
  }

  method BindSequential(args: seq<AbstractQuery>, runs: seq<TestRun>, f: Fetcher) returns (c: ConcreteQuery)
    ensures c == COr(Windows(args, runs, f))
    decreases args, 0
  {
    var numSeqQueries := |args|;
    var byRuns := [];
    var i := 0;
    while i + numSeqQueries - 1 < |runs|
      invariant 0 <= i == |byRuns| <= |Windows(args, runs, f)|
      invariant forall k :: 0 <= k < i ==> byRuns[k] == Windows(args, runs, f)[k]
    {
      var all := [];
      for j := 0 to |args|
        invariant |all| == j
        invariant forall k :: 0 <= k < j ==> all[k] == Window(args, runs, i, f)[k]
      {
        var bound := BindToRuns(args[j], [runs[i + j]], f);
        all := all + [bound];
      }
      assert all == Window(args, runs, i, f);
      byRuns := byRuns + [CAnd(all)];
      i := i + 1;
    }
    assert byRuns == Windows(args, runs, f);
    return COr(byRuns);
  }

  method BindCount(condition: AbstractQuery, runs: seq<TestRun>, f: Fetcher) returns (byRun: seq<ConcreteQuery>)
    ensures byRun == ByRun(condition, runs, f)
    decreases condition, 2
  {
    byRun := [];
    for i := 0 to |runs|
      invariant |byRun| == i
      invariant forall j :: 0 <= j < i ==> byRun[j] == ByRun(condition, runs, f)[j]
    {
      var bound := BindToRuns(condition, [runs[i]], f);
      byRun := byRun + [bound];
    }
  }

  method BindOr(args: seq<AbstractQuery>, runs: seq<TestRun>, f: Fetcher) returns (c: ConcreteQuery)
    ensures c == SimplifyOr(BindEach(args, runs, f))
    decreases args, 0
  {
    ghost var subs := BindEach(args, runs, f);
    var kept := [];
    for i := 0 to |args|
      invariant kept == Without(subs[..i], CFalse)
      invariant CTrue !in subs[..i]
    {
      assert subs[..i + 1][..i] == subs[..i];
      var sub := BindToRuns(args[i], runs, f);
      assert sub == subs[i];
      if sub.CTrue? {
        return sub;
      }
      if sub.CFalse? {
        continue;
      }
      kept := kept + [sub];
    }
    assert subs[..|args|] == subs;
    if |kept| == 0 {
      return CFalse;
    }
    if |kept| == 1 {
      return kept[0];
    }
    return COr(kept);
  }

  method BindAnd(args: seq<AbstractQuery>, runs: seq<TestRun>, f: Fetcher) returns (c: ConcreteQuery)
    ensures c == SimplifyAnd(BindEach(args, runs, f))
    decreases args, 0
  {
    ghost var subs := BindEach(args, runs, f);
    var kept := [];
    for i := 0 to |args|
      invariant kept == Without(subs[..i], CTrue)
      invariant CFalse !in subs[..i]
    {
      assert subs[..i + 1][..i] == subs[..i];
      var sub := BindToRuns(args[i], runs, f);
      assert sub == subs[i];
      if sub.CFalse? {
        return CFalse;
      }
      if sub.CTrue? {
        continue;
      }
      kept := kept + [sub];
    }
    assert subs[..|args|] == subs;
    if |kept| == 0 {
      return CFalse;
    }
    if |kept| == 1 {
      return kept[0];
    }
    return CAnd(kept);
  }

  // ---- what the search cache runs ----

  const STATUS_UNKNOWN := 0

  function KnownSomewhere(ids: seq<int>): ConcreteQuery {
    COr(seq(|ids|, i requires 0 <= i < |ids| => CStatusNeq(ids[i], STATUS_UNKNOWN)))
  }

  // Restricts a plan to the tests that some run reports.
  function PrepareUserQuery(ids: seq<int>, q: ConcreteQuery): ConcreteQuery {
    if q.CAnd? then CAnd([KnownSomewhere(ids)] + q.args) else CAnd([KnownSomewhere(ids), q])
  }

  lemma KnownSomewhereMeaning(ids: seq<int>, w: World, t: int)
    ensures Eval(KnownSomewhere(ids), w, t) <==> exists id | id in ids :: w.result(id, t) != STATUS_UNKNOWN
  {
    var args := KnownSomewhere(ids).args;
    forall id | id in ids && w.result(id, t) != STATUS_UNKNOWN ensures Eval(COr(args), w, t) {
      var i :| 0 <= i < |ids| && ids[i] == id;
      assert args[i] in args;
    }
  }

  // End to end: a test is listed exactly when some run knows it and the client's
  // query, True when there is none, holds of it.
  lemma SearchListsExactly(ids: seq<int>, q: AbstractQuery, runs: seq<TestRun>, w: World, t: int)
    requires Buildable(q) || q.ATrue?
    ensures Eval(PrepareUserQuery(ids, Bind(q, runs, w.fetch)), w, t)
      <==> (exists id | id in ids :: w.result(id, t) != STATUS_UNKNOWN) && Holds(q, runs, w, t)
  {
    var plan := Bind(q, runs, w.fetch);
    BindKeepsMeaning(q, runs, w, t);
    KnownSomewhereMeaning(ids, w, t);
    var base := KnownSomewhere(ids);
    var prepared := PrepareUserQuery(ids, plan);
    assert prepared.args[0] == base;
    if plan.CAnd? {
      assert forall a :: a in prepared.args <==> a == base || a in plan.args;
    } else {
      assert forall a :: a in prepared.args <==> a == base || a == plan;
    }
  }

  // The same for a status atom, said of the runs themselves: some run of the
  // product's browser, revision and version, with all its labels, has the status.
  lemma StatusSearchListsExactly(ids: seq<int>, p: ProductSpec, status: int, runs: seq<TestRun>, w: World, t: int)
    ensures Eval(PrepareUserQuery(ids, Bind(AStatusEq(Some(p), status), runs, w.fetch)), w, t)
      <==> (exists id | id in ids :: w.result(id, t) != 0)
             && exists r | r in runs :: Asked(p, r) && w.result(r.id, t) == status
    ensures Eval(PrepareUserQuery(ids, Bind(AStatusNeq(Some(p), status), runs, w.fetch)), w, t)
      <==> (exists id | id in ids :: w.result(id, t) != 0)
             && exists r | r in runs :: Asked(p, r) && w.result(r.id, t) != status
  {
    SearchListsExactly(ids, AStatusEq(Some(p), status), runs, w, t);
    SearchListsExactly(ids, AStatusNeq(Some(p), status), runs, w, t);
    hide Bind, PrepareUserQuery, Eval, Holds, Asked;
    StatusHoldsIff(p, status, runs, w, t);
  }

  lemma StatusHoldsIff(p: ProductSpec, status: int, runs: seq<TestRun>, w: World, t: int)
    ensures Holds(AStatusEq(Some(p), status), runs, w, t)
      <==> exists r | r in runs :: Asked(p, r) && w.result(r.id, t) == status
    ensures Holds(AStatusNeq(Some(p), status), runs, w, t)
      <==> exists r | r in runs :: Asked(p, r) && w.result(r.id, t) != status
  {
    forall r | r in runs ensures Wanted(Some(p), r) <==> Asked(p, r) {
      RunMatchesIff(p, r);
    }
    hide Matches, Asked;
  }

  predicate Asked(p: ProductSpec, r: TestRun) {
    && r.at.product.browserName == p.at.product.browserName
    && (p.at.revision in {"", "latest", r.at.revision} || p.at.revision <= r.at.fullRevisionHash)
    && (p.at.product.browserVersion in {"", r.at.product.browserVersion}
          || p.at.product.browserVersion + "." <= r.at.product.browserVersion)
    && (p.labels.None? || forall l | l in p.labels.value :: l in r.labels)
  }

  // A status atom is bound to the ids of those runs and no others.
  lemma BoundToAskedRuns(p: ProductSpec, runs: seq<TestRun>, id: int)
    ensures id in MatchingIds(Some(p), runs) <==> exists r :: r in runs && Asked(p, r) && r.id == id
  {
    forall r | r in runs ensures Wanted(Some(p), r) <==> Asked(p, r) {
      RunMatchesIff(p, r);
    }
    hide Matches, Asked;
  }

  // A triage atom asks for the triage of each such run, and without a product for
  // that of the tests themselves, if there are runs at all.
  lemma TriagedHoldsIff(p: Option<ProductSpec>, runs: seq<TestRun>, w: World, t: int)
    ensures Eval(Bind(ATriaged(p), runs, w.fetch), w, t) <==>
      exists r | r in runs ::
        var triage := if p.Some? then w.fetch.triaged(Some(r)) else w.fetch.triaged(None);
        (p.Some? ==> Asked(p.value, r)) && triage != map[] && w.triaged(triage, t)
  {
    BindKeepsMeaning(ATriaged(p), runs, w, t);
    forall r | r in runs && p.Some? ensures Wanted(p, r) <==> Asked(p.value, r) {
      RunMatchesIff(p.value, r);
    }
    hide Bind, Eval, Matches, Asked;
  }
}
