// Search queries: the abstract tree, its binding to runs, and what the bound
// plan means and costs (api/query/atoms.go, api/query/concrete_query.go,
// api/query/cache/index/filter.go).
module Query {
  import opened Wrappers
  import opened Products

  datatype MetadataQuality = Unknown | Different | Tentative | Optional

  // Atoms whose binding does not look at the runs.
  datatype Leaf =
    | TestNamePattern(pattern: string)
    | SubtestNamePattern(subtest: string)
    | TestPath(path: string)
    | Quality(quality: MetadataQuality)
    | TestLabel(name: string)
    | TestWebFeature(feature: string)

  datatype AbstractQuery =
    | ATrue
    | AFalse
    | ALeaf(leaf: Leaf)
    | ALink(pattern: string)
    | ATriaged(product: Option<ProductSpec>)
    | AStatusEq(product: Option<ProductSpec>, status: int)
    | AStatusNeq(product: Option<ProductSpec>, status: int)
    | AExists(args: seq<AbstractQuery>)
    | AAll(args: seq<AbstractQuery>)
    | ANone(args: seq<AbstractQuery>)
    | ASequential(args: seq<AbstractQuery>)
    | ACount(count: int, condition: AbstractQuery)
    | AMoreThan(count: int, condition: AbstractQuery)
    | ALessThan(count: int, condition: AbstractQuery)
    | ANot(arg: AbstractQuery)
    | AOr(args: seq<AbstractQuery>)
    | AAnd(args: seq<AbstractQuery>)

  // URLs by test name, as fetched for a set of runs.
  type Metadata = map<string, seq<string>>

  datatype ConcreteQuery =
    | CTrue
    | CFalse
    | CLeaf(leaf: Leaf)
    | CLink(pattern: string, metadata: Metadata)
    | CTriaged(run: int, metadata: Metadata)
    | CStatusEq(run: int, status: int)
    | CStatusNeq(run: int, status: int)
    | CCount(count: int, args: seq<ConcreteQuery>)
    | CMoreThan(count: int, args: seq<ConcreteQuery>)
    | CLessThan(count: int, args: seq<ConcreteQuery>)
    | CNot(arg: ConcreteQuery)
    | COr(args: seq<ConcreteQuery>)
    | CAnd(args: seq<ConcreteQuery>)

  // The metadata service: links for a list of runs, triage for one run or for
  // the tests themselves.
  datatype Fetcher = Fetcher(links: seq<TestRun> -> Metadata, triaged: Option<TestRun> -> Metadata)

  // The in-memory index: the result of a test in a run, and the string and
  // metadata matches of the leaves, which stay uninterpreted.
  datatype World = World(
    fetch: Fetcher,
    result: (int, int) -> int,
    leaf: (Leaf, int) -> bool,
    link: (string, Metadata, int) -> bool,
    triaged: (Metadata, int) -> bool)

  // Queries without arguments.
  predicate Atom(q: AbstractQuery) {
    q.ATrue? || q.AFalse? || q.ALeaf? || q.ALink? || q.ATriaged? || q.AStatusEq? || q.AStatusNeq?
  }

  // ---- meaning of a plan ----

  // A lookup in empty triage metadata never succeeds.
  predicate Eval(q: ConcreteQuery, w: World, t: int)
    decreases q, 1
  {
    match q
    case CTrue => true
    case CFalse => false
    case CLeaf(leaf) => w.leaf(leaf, t)
    case CLink(pattern, metadata) => w.link(pattern, metadata, t)
    case CTriaged(_, metadata) => metadata != map[] && w.triaged(metadata, t)
    case CStatusEq(run, status) => w.result(run, t) == status
    case CStatusNeq(run, status) => w.result(run, t) != status
    case CCount(count, args) => Satisfied(args, w, t) == count
    case CMoreThan(count, args) => Satisfied(args, w, t) > count
    case CLessThan(count, args) => Satisfied(args, w, t) < count
    case CNot(arg) => !Eval(arg, w, t)
    case COr(args) => exists a | a in args :: Eval(a, w, t)
    case CAnd(args) => forall a | a in args :: Eval(a, w, t)
  }

  function Satisfied(args: seq<ConcreteQuery>, w: World, t: int): nat
    decreases args, 0
  {
    if args == [] then 0 else (if Eval(args[0], w, t) then 1 else 0) + Satisfied(args[1..], w, t)
  }

  // ---- meaning of a query over runs ----

  predicate Wanted(product: Option<ProductSpec>, run: TestRun) {
    product.None? || Matches(product.value, run)
  }

  // Test-level metadata for a bare triage atom, the run's own otherwise.
  function TriageOf(product: Option<ProductSpec>, run: TestRun, f: Fetcher): Metadata {
    f.triaged(if product.None? then None else Some(run))
  }

  predicate Triaged(p: Option<ProductSpec>, r: TestRun, w: World, t: int) {
    Wanted(p, r) && TriageOf(p, r, w.fetch) != map[] && w.triaged(TriageOf(p, r, w.fetch), t)
  }

  // Exists with a single argument stands for that argument over all the runs;
  // with several, each must hold of some single run.
  predicate Holds(q: AbstractQuery, runs: seq<TestRun>, w: World, t: int)
    decreases q, 0
  {
    match q
    case ATrue => true
    case AFalse => false
    case ALeaf(leaf) => w.leaf(leaf, t)
    case ALink(pattern) => w.link(pattern, w.fetch.links(runs), t)
    case ATriaged(p) => exists r | r in runs :: Triaged(p, r, w, t)
    case AStatusEq(p, status) => exists r | r in runs :: Wanted(p, r) && w.result(r.id, t) == status
    case AStatusNeq(p, status) => exists r | r in runs :: Wanted(p, r) && w.result(r.id, t) != status
    case AExists(args) =>
      if |args| == 1 then Holds(args[0], runs, w, t)
      else forall a | a in args :: exists r | r in runs :: Holds(a, [r], w, t)
    case AAll(args) => forall a | a in args :: forall r | r in runs :: Holds(a, [r], w, t)
    case ANone(args) =>
      if |args| == 1 then !Holds(args[0], runs, w, t)
      else exists a | a in args :: forall r | r in runs :: !Holds(a, [r], w, t)
    case ASequential(args) =>
      exists i: nat | i + |args| <= |runs| :: HoldsFrom(args, runs, i, w, t)
    case ACount(count, condition) => HoldingRuns(condition, runs, w, t) == count
    case AMoreThan(count, condition) => HoldingRuns(condition, runs, w, t) > count
    case ALessThan(count, condition) => HoldingRuns(condition, runs, w, t) < count
    case ANot(arg) => !Holds(arg, runs, w, t)
    case AOr(args) => exists a | a in args :: Holds(a, runs, w, t)
    case AAnd(args) => forall a | a in args :: Holds(a, runs, w, t)
  }

  // Each argument holds of its own run, in sequence from position i.
  predicate HoldsFrom(args: seq<AbstractQuery>, runs: seq<TestRun>, i: nat, w: World, t: int)
    requires i + |args| <= |runs|
    decreases args, 0
  {
    forall j | 0 <= j < |args| :: Holds(args[j], [runs[i + j]], w, t)
  }

  function HoldingRuns(q: AbstractQuery, runs: seq<TestRun>, w: World, t: int): nat
    decreases q, 1, |runs|
  {
    if runs == [] then 0 else
      (if Holds(q, [runs[0]], w, t) then 1 else 0) + HoldingRuns(q, runs[1..], w, t)
  }

  // ---- binding ----

  function Without(qs: seq<ConcreteQuery>, c: ConcreteQuery): (kept: seq<ConcreteQuery>)
    ensures forall q :: q in kept <==> q in qs && q != c
  {
    if qs == [] then [] else
      var front, last := Without(qs[..|qs| - 1], c), qs[|qs| - 1];
      if last == c then front else front + [last]
  }

  function SimplifyOr(subs: seq<ConcreteQuery>): ConcreteQuery {
    var kept := Without(subs, CFalse);
    if CTrue in subs then CTrue
    else if |kept| == 0 then CFalse
    else if |kept| == 1 then kept[0]
    else COr(kept)
  }

  // False when nothing is kept, even though nothing kept means nothing failed.
  function SimplifyAnd(subs: seq<ConcreteQuery>): ConcreteQuery {
    var kept := Without(subs, CTrue);
    if CFalse in subs then CFalse
    else if |kept| == 0 then CFalse
    else if |kept| == 1 then kept[0]
    else CAnd(kept)
  }

  function MatchingIds(product: Option<ProductSpec>, runs: seq<TestRun>): (ids: seq<int>)
    ensures |ids| <= |runs|
    ensures forall id :: id in ids <==> exists r :: r in runs && Wanted(product, r) && r.id == id
  {
    if runs == [] then [] else
      var front, last := MatchingIds(product, runs[..|runs| - 1]), runs[|runs| - 1];
      if Wanted(product, last) then front + [last.id] else front
  }

  function StatusPlan(ids: seq<int>, status: int, equal: bool): ConcreteQuery {
    var atoms := seq(|ids|, i requires 0 <= i < |ids| =>
      if equal then CStatusEq(ids[i], status) else CStatusNeq(ids[i], status));
    if |ids| == 0 then CFalse else if |ids| == 1 then atoms[0] else COr(atoms)
  }

  function TriagedAtoms(p: Option<ProductSpec>, runs: seq<TestRun>, f: Fetcher): (atoms: seq<ConcreteQuery>)
    ensures |atoms| <= |runs|
    ensures forall a :: a in atoms <==>
      exists r :: r in runs && Wanted(p, r) && TriageOf(p, r, f) != map[] && a == CTriaged(r.id, TriageOf(p, r, f))
  {
    if runs == [] then [] else
      var front, last := TriagedAtoms(p, runs[..|runs| - 1], f), runs[|runs| - 1];
      if Wanted(p, last) && TriageOf(p, last, f) != map[]
      then front + [CTriaged(last.id, TriageOf(p, last, f))] else front
  }

  function TriagedPlan(atoms: seq<ConcreteQuery>): ConcreteQuery {
    if atoms == [] then CFalse else COr(atoms)
  }

  function Bind(q: AbstractQuery, runs: seq<TestRun>, f: Fetcher): ConcreteQuery
    decreases q, 1
  {
    match q
    case ATrue => CTrue
    case AFalse => CFalse
    case ALeaf(leaf) => CLeaf(leaf)
    case ALink(pattern) => CLink(pattern, f.links(runs))
    case ATriaged(p) => TriagedPlan(TriagedAtoms(p, runs, f))
    case AStatusEq(p, status) => StatusPlan(MatchingIds(p, runs), status, true)
    case AStatusNeq(p, status) => StatusPlan(MatchingIds(p, runs), status, false)
    case AExists(args) => if |args| == 1 then Bind(args[0], runs, f) else CAnd(ExistsParts(args, runs, f))
    case AAll(args) => CAnd(AllParts(args, runs, f))
    case ANone(args) => CNot(if |args| == 1 then Bind(args[0], runs, f) else CAnd(ExistsParts(args, runs, f)))
    case ASequential(args) => COr(Windows(args, runs, f))
    case ACount(count, condition) => CCount(count, ByRun(condition, runs, f))
    case AMoreThan(count, condition) => CMoreThan(count, ByRun(condition, runs, f))
    case ALessThan(count, condition) => CLessThan(count, ByRun(condition, runs, f))
    case ANot(arg) => CNot(Bind(arg, runs, f))
    case AOr(args) => SimplifyOr(BindEach(args, runs, f))
    case AAnd(args) => SimplifyAnd(BindEach(args, runs, f))
  }

  function BindEach(args: seq<AbstractQuery>, runs: seq<TestRun>, f: Fetcher): seq<ConcreteQuery>
    decreases args, 0
  {
    seq(|args|, i requires 0 <= i < |args| => Bind(args[i], runs, f))
  }

  function ByRun(q: AbstractQuery, runs: seq<TestRun>, f: Fetcher): seq<ConcreteQuery>
    decreases q, 2
  {
    seq(|runs|, i requires 0 <= i < |runs| => Bind(q, [runs[i]], f))
  }

  function ExistsParts(args: seq<AbstractQuery>, runs: seq<TestRun>, f: Fetcher): seq<ConcreteQuery>
    decreases args, 0
  {
    seq(|args|, i requires 0 <= i < |args| => COr(Without(ByRun(args[i], runs, f), CFalse)))
  }

  function AllParts(args: seq<AbstractQuery>, runs: seq<TestRun>, f: Fetcher): seq<ConcreteQuery>
    decreases args, 0
  {
    seq(|args|, i requires 0 <= i < |args| => CAnd(Without(ByRun(args[i], runs, f), CTrue)))
  }

  function Window(args: seq<AbstractQuery>, runs: seq<TestRun>, i: nat, f: Fetcher): seq<ConcreteQuery>
    requires i + |args| <= |runs|
    decreases args, 0
  {
    seq(|args|, j requires 0 <= j < |args| => Bind(args[j], [runs[i + j]], f))
  }

  function Windows(args: seq<AbstractQuery>, runs: seq<TestRun>, f: Fetcher): seq<ConcreteQuery>
    decreases args, 1
  {
    var n := if |args| <= |runs| then |runs| - |args| + 1 else 0;
    seq(n, i requires 0 <= i < n => CAnd(Window(args, runs, i, f)))
  }

  // ---- the queries unmarshalQ can build ----

  predicate Buildable(q: AbstractQuery) {
    match q
    case ATrue => false
    case AFalse => false
    case ALeaf(_) => true
    case ALink(_) => true
    case ATriaged(_) => true
    case AStatusEq(_, _) => true
    case AStatusNeq(_, _) => true
    case AExists(args) => args != [] && forall a | a in args :: Buildable(a)
    case AAll(args) => args != [] && forall a | a in args :: Buildable(a)
    case ANone(args) => args != [] && forall a | a in args :: Buildable(a)
    case ASequential(args) => args != [] && forall a | a in args :: Buildable(a)
    case ACount(_, condition) => Buildable(condition)
    case AMoreThan(_, condition) => Buildable(condition)
    case ALessThan(_, condition) => Buildable(condition)
    case ANot(arg) => Buildable(arg)
    case AOr(args) => args != [] && forall a | a in args :: Buildable(a)
    case AAnd(args) => args != [] && forall a | a in args :: Buildable(a)
  }
}
