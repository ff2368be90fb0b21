// The cost of a bound plan is linear in the number of runs.
module QuerySize {
  import opened Wrappers
  import opened Products
  import opened Query

  const AVERAGE_NUMBER_OF_SUBTESTS := 1655263 / 34236

  function LeafSize(leaf: Leaf): nat {
    match leaf
    case SubtestNamePattern(_) => AVERAGE_NUMBER_OF_SUBTESTS
    case _ => 1
  }

  function Size(q: ConcreteQuery): nat
    decreases q, 1
  {
    match q
    case CTrue => 0
    case CFalse => 0
    case CLeaf(leaf) => LeafSize(leaf)
    case CLink(_, _) => 1
    case CTriaged(_, _) => 1
    case CStatusEq(_, _) => 1
    case CStatusNeq(_, _) => 1
    case CCount(_, args) => Sizes(args)
    case CMoreThan(_, args) => Sizes(args)
    case CLessThan(_, args) => Sizes(args)
    case CNot(arg) => 1 + Size(arg)
    case COr(args) => Sizes(args)
    case CAnd(args) => Sizes(args)
  }

  function Sizes(args: seq<ConcreteQuery>): nat
    decreases args, 0
  {
    if args == [] then 0 else Sizes(args[..|args| - 1]) + Size(args[|args| - 1])
  }

  // The summing loop of size(); Size itself recurses through it.
  method SumSizes(qs: seq<ConcreteQuery>) returns (s: nat)
    ensures s == Sizes(qs)
  {
    s := 0;
    for i := 0 to |qs|
      invariant s == Sizes(qs[..i])
    {
      assert qs[..i + 1][..i] == qs[..i];
      s := s + Size(qs[i]);
    }
    assert qs[..|qs|] == qs;
  }

  // One unit per atom, its own size for a leaf, one per negation.
  function Weight(q: AbstractQuery): nat
    decreases q, 1
  {
    match q
    case ATrue => 0
    case AFalse => 0
    case ALeaf(leaf) => LeafSize(leaf)
    case ALink(_) => 1
    case ATriaged(_) => 1
    case AStatusEq(_, _) => 1
    case AStatusNeq(_, _) => 1
    case AExists(args) => Weights(args)
    case AAll(args) => Weights(args)
    case ANone(args) => 1 + Weights(args)
    case ASequential(args) => Weights(args)
    case ACount(_, condition) => Weight(condition)
    case AMoreThan(_, condition) => Weight(condition)
    case ALessThan(_, condition) => Weight(condition)
    case ANot(arg) => 1 + Weight(arg)
    case AOr(args) => Weights(args)
    case AAnd(args) => Weights(args)
  }

  function Weights(args: seq<AbstractQuery>): nat
    decreases args, 0
  {
    if args == [] then 0 else Weights(args[..|args| - 1]) + Weight(args[|args| - 1])
  }

  function Factor(runs: seq<TestRun>): nat {
    if runs == [] then 1 else |runs|
  }

  // ---- sums ----

  lemma Distribute(a: nat, b: nat, m: nat)
    ensures (a + b) * m == a * m + b * m
  {
  }

  lemma MulMono(a: nat, b: nat, c: nat)
    requires a <= b
    ensures a * c <= c * b
  {
    assert c * b == a * c + (b - a) * c;
  }

  lemma {:induction false} SizesUniform(qs: seq<ConcreteQuery>, bound: nat)
    requires forall q | q in qs :: Size(q) <= bound
    ensures Sizes(qs) <= |qs| * bound
  {
    if qs != [] {
      var front := qs[..|qs| - 1];
      SizesUniform(front, bound);
      assert qs[|qs| - 1] in qs;
      assert |qs| * bound == |front| * bound + bound;
    }
  }

  lemma {:induction false} SizesByWeight(qs: seq<ConcreteQuery>, args: seq<AbstractQuery>, m: nat)
    requires |qs| == |args|
    requires forall i :: 0 <= i < |qs| ==> Size(qs[i]) <= Weight(args[i]) * m
    ensures Sizes(qs) <= Weights(args) * m
  {
    if qs != [] {
      var n := |qs| - 1;
      SizesByWeight(qs[..n], args[..n], m);
      Distribute(Weights(args[..n]), Weight(args[n]), m);
    }
  }

  lemma {:induction false} SizesWithout(qs: seq<ConcreteQuery>, c: ConcreteQuery)
    ensures Sizes(Without(qs, c)) <= Sizes(qs)
  {
    if qs != [] {
      var front, last := qs[..|qs| - 1], qs[|qs| - 1];
      SizesWithout(front, c);
      assert (Without(front, c) + [last])[..|Without(front, c)|] == Without(front, c);
    }
  }

  lemma SizeOfOne(qs: seq<ConcreteQuery>)
    requires |qs| == 1
    ensures Sizes(qs) == Size(qs[0])
  {
    assert qs[..0] == [];
  }

  lemma SimplifiedOrSize(subs: seq<ConcreteQuery>)
    ensures Size(SimplifyOr(subs)) <= Sizes(subs)
  {
    var kept := Without(subs, CFalse);
    SizesWithout(subs, CFalse);
    if |kept| == 1 { SizeOfOne(kept); }
  }

  lemma SimplifiedAndSize(subs: seq<ConcreteQuery>)
    ensures Size(SimplifyAnd(subs)) <= Sizes(subs)
  {
    var kept := Without(subs, CTrue);
    SizesWithout(subs, CTrue);
    if |kept| == 1 { SizeOfOne(kept); }
  }

  lemma StatusPlanSize(ids: seq<int>, status: int, equal: bool)
    ensures Size(StatusPlan(ids, status, equal)) <= |ids|
  {
    if |ids| > 1 {
      SizesUniform(StatusPlan(ids, status, equal).args, 1);
    }
  }

  lemma TriagedPlanSize(p: Option<ProductSpec>, runs: seq<TestRun>, f: Fetcher)
    ensures Size(TriagedPlan(TriagedAtoms(p, runs, f))) <= |runs|
  {
    SizesUniform(TriagedAtoms(p, runs, f), 1);
  }

  // ---- the bound ----

  ghost predicate BoundByRun(a: AbstractQuery, runs: seq<TestRun>, f: Fetcher) {
    forall r | r in runs :: Size(Bind(a, [r], f)) <= Weight(a)
  }

  lemma ByRunSize(a: AbstractQuery, runs: seq<TestRun>, f: Fetcher)
    requires BoundByRun(a, runs, f)
    ensures Sizes(ByRun(a, runs, f)) <= Weight(a) * |runs|
  {
    SizesUniform(ByRun(a, runs, f), Weight(a));
    assert |runs| * Weight(a) == Weight(a) * |runs|;
  }

  lemma PartSize(a: AbstractQuery, runs: seq<TestRun>, f: Fetcher)
    requires BoundByRun(a, runs, f)
    ensures Sizes(Without(ByRun(a, runs, f), CFalse)) <= Weight(a) * |runs|
    ensures Sizes(Without(ByRun(a, runs, f), CTrue)) <= Weight(a) * |runs|
  {
    ByRunSize(a, runs, f);
    SizesWithout(ByRun(a, runs, f), CFalse);
    SizesWithout(ByRun(a, runs, f), CTrue);
  }

  lemma PartsSize(args: seq<AbstractQuery>, runs: seq<TestRun>, f: Fetcher)
    requires forall a | a in args :: BoundByRun(a, runs, f)
    ensures Sizes(ExistsParts(args, runs, f)) <= Weights(args) * |runs|
    ensures Sizes(AllParts(args, runs, f)) <= Weights(args) * |runs|
  {
    hide ByRun, Without, Sizes, Weight, Bind, BoundByRun;
    forall i | 0 <= i < |args|
      ensures Size(ExistsParts(args, runs, f)[i]) <= Weight(args[i]) * |runs|
      ensures Size(AllParts(args, runs, f)[i]) <= Weight(args[i]) * |runs|
    {
      assert args[i] in args;
      PartSize(args[i], runs, f);
    }
    SizesByWeight(ExistsParts(args, runs, f), args, |runs|);
    SizesByWeight(AllParts(args, runs, f), args, |runs|);
  }

  // Each window costs at most the arguments once, and there are at most as many
  // windows as runs.
  lemma WindowsSize(args: seq<AbstractQuery>, runs: seq<TestRun>, f: Fetcher)
    requires forall a | a in args :: BoundByRun(a, runs, f)
    ensures Sizes(Windows(args, runs, f)) <= Weights(args) * |runs|
  {
    var windows := Windows(args, runs, f);
    forall p | p in windows ensures Size(p) <= Weights(args) {
      var i :| 0 <= i < |windows| && windows[i] == p;
      var window := Window(args, runs, i, f);
      forall j | 0 <= j < |args| ensures Size(window[j]) <= Weight(args[j]) * 1 {
        assert args[j] in args && runs[i + j] in runs;
      }
      SizesByWeight(window, args, 1);
    }
    SizesUniform(windows, Weights(args));
    if args == [] {
      assert Weights(args) == 0;
    } else {
      MulMono(|windows|, |runs|, Weights(args));
    }
  }

  lemma WithinFactor(weight: nat, runs: seq<TestRun>)
    ensures weight * |runs| <= weight * Factor(runs)
    ensures weight <= weight * Factor(runs)
  {
    MulMono(|runs|, Factor(runs), weight);
    MulMono(1, Factor(runs), weight);
    assert |runs| * weight == weight * |runs|;
  }

  lemma AloneIsOne(weight: nat, r: TestRun)
    ensures weight * Factor([r]) == weight
  {
  }

  lemma AtomIsLinear(q: AbstractQuery, runs: seq<TestRun>, f: Fetcher)
    requires Atom(q)
    ensures Size(Bind(q, runs, f)) <= Weight(q) * Factor(runs)
  {
    match q
    case ALeaf(_) => WithinFactor(Weight(q), runs);
    case ATriaged(p) => TriagedPlanSize(p, runs, f);
    case AStatusEq(p, status) => StatusPlanSize(MatchingIds(p, runs), status, true);
    case AStatusNeq(p, status) => StatusPlanSize(MatchingIds(p, runs), status, false);
    case _ =>
  }

  // Size(bind(q, runs)) is at most weight(q) * max(1, |runs|), for every tree.
  lemma {:induction false} PlanIsLinear(q: AbstractQuery, runs: seq<TestRun>, f: Fetcher)
    ensures Size(Bind(q, runs, f)) <= Weight(q) * Factor(runs)
    decreases q, 3
  {
    match q
    case AExists(args) => ExistsIsLinear(q, args, runs, f);
    case ANone(args) => NoneIsLinear(q, args, runs, f);
    case AAll(args) => AllIsLinear(q, args, runs, f);
    case ASequential(args) => SequentialIsLinear(q, args, runs, f);
    case ACount(_, c) => CountIsLinear(q, c, runs, f);
    case AMoreThan(_, c) => CountIsLinear(q, c, runs, f);
    case ALessThan(_, c) => CountIsLinear(q, c, runs, f);
    case ANot(arg) => NotIsLinear(q, arg, runs, f);
    case AOr(args) => OrIsLinear(q, args, runs, f);
    case AAnd(args) => AndIsLinear(q, args, runs, f);
    case _ => AtomIsLinear(q, runs, f);
  }

  lemma {:induction false} NoneIsLinear(q: AbstractQuery, args: seq<AbstractQuery>, runs: seq<TestRun>, f: Fetcher)
    requires q == ANone(args)
    ensures Size(Bind(q, runs, f)) <= Weight(q) * Factor(runs)
    decreases q, 2, 1
  {
    ExistsIsLinear(q, args, runs, f);
    Negated(Weights(args), runs);
  }

  lemma {:induction false} NotIsLinear(q: AbstractQuery, arg: AbstractQuery, runs: seq<TestRun>, f: Fetcher)
    requires q == ANot(arg)
    ensures Size(Bind(q, runs, f)) <= Weight(q) * Factor(runs)
    decreases q, 2
  {
    PlanIsLinear(arg, runs, f);
    Negated(Weight(arg), runs);
  }

  lemma {:induction false} OrIsLinear(q: AbstractQuery, args: seq<AbstractQuery>, runs: seq<TestRun>, f: Fetcher)
    requires q == AOr(args)
    ensures Size(Bind(q, runs, f)) <= Weight(q) * Factor(runs)
    decreases q, 2
  {
    EachIsLinear(q, args, runs, f);
    SimplifiedOrSize(BindEach(args, runs, f));
  }

  lemma {:induction false} AndIsLinear(q: AbstractQuery, args: seq<AbstractQuery>, runs: seq<TestRun>, f: Fetcher)
    requires q == AAnd(args)
    ensures Size(Bind(q, runs, f)) <= Weight(q) * Factor(runs)
    decreases q, 2
  {
    EachIsLinear(q, args, runs, f);
    SimplifiedAndSize(BindEach(args, runs, f));
  }

  lemma Negated(weight: nat, runs: seq<TestRun>)
    ensures 1 + weight * Factor(runs) <= (1 + weight) * Factor(runs)
  {
    Distribute(1, weight, Factor(runs));
  }

  lemma {:induction false} CountIsLinear(q: AbstractQuery, c: AbstractQuery, runs: seq<TestRun>, f: Fetcher)
    requires c < q
    ensures Sizes(ByRun(c, runs, f)) <= Weight(c) * Factor(runs)
    decreases q, 2
  {
    hide Bind, ByRun, Size, Sizes, Weight;
    forall r | r in runs ensures Size(Bind(c, [r], f)) <= Weight(c) {
      PlanIsLinear(c, [r], f);
      AloneIsOne(Weight(c), r);
    }
    ByRunSize(c, runs, f);
    WithinFactor(Weight(c), runs);
  }

  lemma {:induction false} AllIsLinear(
      q: AbstractQuery, args: seq<AbstractQuery>, runs: seq<TestRun>, f: Fetcher)
    requires forall a | a in args :: a < q
    ensures Sizes(AllParts(args, runs, f)) <= Weights(args) * Factor(runs)
    decreases q, 2
  {
    EachRunBound(q, args, runs, f);
    PartsSize(args, runs, f);
    WithinFactor(Weights(args), runs);
  }

  lemma {:induction false} SequentialIsLinear(
      q: AbstractQuery, args: seq<AbstractQuery>, runs: seq<TestRun>, f: Fetcher)
    requires forall a | a in args :: a < q
    ensures Sizes(Windows(args, runs, f)) <= Weights(args) * Factor(runs)
    decreases q, 2
  {
    EachRunBound(q, args, runs, f);
    WindowsSize(args, runs, f);
    WithinFactor(Weights(args), runs);
  }

  lemma {:induction false} EachRunBound(
      q: AbstractQuery, args: seq<AbstractQuery>, runs: seq<TestRun>, f: Fetcher)
    requires forall a | a in args :: a < q
    ensures forall a | a in args :: BoundByRun(a, runs, f)
    decreases q, 1
  {
    hide Bind, Size, Weight;
    forall a, r | a in args && r in runs ensures Size(Bind(a, [r], f)) <= Weight(a) {
      PlanIsLinear(a, [r], f);
      AloneIsOne(Weight(a), r);
    }
  }

  lemma {:induction false} EachIsLinear(
      q: AbstractQuery, args: seq<AbstractQuery>, runs: seq<TestRun>, f: Fetcher)
    requires forall a | a in args :: a < q
    ensures Sizes(BindEach(args, runs, f)) <= Weights(args) * Factor(runs)
    decreases q, 1
  {
    forall i | 0 <= i < |args| ensures Size(BindEach(args, runs, f)[i]) <= Weight(args[i]) * Factor(runs) {
      assert args[i] in args;
      PlanIsLinear(args[i], runs, f);
    }
    SizesByWeight(BindEach(args, runs, f), args, Factor(runs));
  }

  lemma {:induction false} ExistsIsLinear(
      q: AbstractQuery, args: seq<AbstractQuery>, runs: seq<TestRun>, f: Fetcher)
    requires forall a | a in args :: a < q
    ensures Size(Bind(AExists(args), runs, f)) <= Weights(args) * Factor(runs)
    decreases q, 2, 0
  {
    if |args| == 1 {
      assert args[0] in args;
      PlanIsLinear(args[0], runs, f);
      assert args[..0] == [];
    } else {
      EachRunBound(q, args, runs, f);
      PartsSize(args, runs, f);
      WithinFactor(Weights(args), runs);
    }
  }
}
