// Binding keeps the meaning of every query a client can send, and its plan
// stays linear in the number of runs.
module QueryBinding {
  import opened Wrappers
  import opened Products
  import opened Query

  // ---- a client's query never binds to True ----

  lemma {:induction false} NeverTrue(q: AbstractQuery, runs: seq<TestRun>, f: Fetcher)
    requires Buildable(q)
    ensures Bind(q, runs, f) != CTrue
    decreases q
  {
    match q
    case AExists(args) => if |args| == 1 { NeverTrue(args[0], runs, f); }
    case AOr(args) => EachNeverTrue(args, runs, f, q);
    case AAnd(args) => EachNeverTrue(args, runs, f, q);
    case _ =>
  }

  lemma {:induction false} EachNeverTrue(args: seq<AbstractQuery>, runs: seq<TestRun>, f: Fetcher, q: AbstractQuery)
    requires forall a | a in args :: Buildable(a) && a < q
    ensures CTrue !in BindEach(args, runs, f)
    ensures args != [] ==> exists s | s in BindEach(args, runs, f) :: s != CTrue
    decreases q, 0
  {
    assert args != [] ==> BindEach(args, runs, f)[0] in BindEach(args, runs, f);
    forall i | 0 <= i < |args| ensures Bind(args[i], runs, f) != CTrue {
      assert args[i] in args;
      NeverTrue(args[i], runs, f);
    }
  }

  // ---- the simplifications ----

  // Disjunction may drop False, stop at True and collapse a single argument.
  lemma OrKeepsMeaning(subs: seq<ConcreteQuery>, w: World, t: int)
    ensures Eval(SimplifyOr(subs), w, t) == Eval(COr(subs), w, t)
  {
    var kept := Without(subs, CFalse);
    if CTrue in subs {
      assert Eval(CTrue, w, t);
    } else {
      assert forall s :: s in subs && Eval(s, w, t) ==> s in kept;
      assert forall s :: s in kept ==> s in subs;
      if |kept| == 1 {
        assert forall s :: s in kept ==> s == kept[0];
        assert kept[0] in kept;
      }
    }
  }

  // Conjunction may do the same unless every argument was True: then nothing is
  // kept and the result is False although the conjunction holds.
  lemma AndKeepsMeaningIff(subs: seq<ConcreteQuery>, w: World, t: int)
    ensures Eval(SimplifyAnd(subs), w, t) == Eval(CAnd(subs), w, t)
      <==> exists s | s in subs :: s != CTrue
  {
    var kept := Without(subs, CTrue);
    if CFalse in subs {
      assert !Eval(CFalse, w, t);
    } else if |kept| == 0 {
      forall s | s in subs ensures s == CTrue {
        assert s != CTrue ==> s in kept;
      }
    } else {
      assert kept[0] in kept;
      assert forall s :: s in subs && !Eval(s, w, t) ==> s in kept;
      assert forall s :: s in kept ==> s in subs;
      if |kept| == 1 {
        assert forall s :: s in kept ==> s == kept[0];
      }
    }
  }

  lemma StatusPlanMeaning(ids: seq<int>, status: int, equal: bool, w: World, t: int)
    ensures Eval(StatusPlan(ids, status, equal), w, t)
      == exists id | id in ids :: (w.result(id, t) == status) == equal
  {
    var plan := StatusPlan(ids, status, equal);
    if |ids| == 1 {
      assert ids[0] in ids;
    } else if |ids| > 1 {
      forall i | 0 <= i < |ids| ensures Eval(plan.args[i], w, t) == ((w.result(ids[i], t) == status) == equal) {
      }
      assert forall a :: a in plan.args ==> exists i :: 0 <= i < |ids| && plan.args[i] == a;
      forall id | id in ids && (w.result(id, t) == status) == equal ensures Eval(plan, w, t) {
        var i :| 0 <= i < |ids| && ids[i] == id;
        assert plan.args[i] in plan.args;
      }
    }
  }

  lemma TriagedMeaning(p: Option<ProductSpec>, runs: seq<TestRun>, w: World, t: int)
    ensures Eval(TriagedPlan(TriagedAtoms(p, runs, w.fetch)), w, t) == Holds(ATriaged(p), runs, w, t)
  {
    var atoms := TriagedAtoms(p, runs, w.fetch);
    forall r | r in runs && Triaged(p, r, w, t) ensures Eval(COr(atoms), w, t) {
      var atom := CTriaged(r.id, TriageOf(p, r, w.fetch));
      assert atom in atoms && Eval(atom, w, t);
    }
    forall a | a in atoms && Eval(a, w, t) ensures exists r :: r in runs && Triaged(p, r, w, t) {
      var r :| r in runs && Wanted(p, r) && TriageOf(p, r, w.fetch) != map[]
        && a == CTriaged(r.id, TriageOf(p, r, w.fetch));
      assert Triaged(p, r, w, t);
    }
  }

  // ---- quantifiers over runs ----

  lemma SomeRunMeaning(plans: seq<ConcreteQuery>, w: World, t: int)
    ensures Eval(COr(Without(plans, CFalse)), w, t) == exists i | 0 <= i < |plans| :: Eval(plans[i], w, t)
  {
    var kept := Without(plans, CFalse);
    forall i | 0 <= i < |plans| && Eval(plans[i], w, t) ensures plans[i] in kept {
      assert plans[i] in plans;
    }
    assert forall p :: p in kept ==> p in plans;
  }

  lemma EveryRunMeaning(plans: seq<ConcreteQuery>, w: World, t: int)
    ensures Eval(CAnd(Without(plans, CTrue)), w, t) == forall i | 0 <= i < |plans| :: Eval(plans[i], w, t)
  {
    var kept := Without(plans, CTrue);
    forall i | 0 <= i < |plans| && !Eval(plans[i], w, t) ensures plans[i] in kept {
      assert plans[i] in plans;
    }
    assert forall p :: p in kept ==> p in plans;
  }

  lemma {:induction false} CountMeaning(
      plans: seq<ConcreteQuery>, q: AbstractQuery, runs: seq<TestRun>, w: World, t: int)
    requires |plans| == |runs|
    requires forall i :: 0 <= i < |runs| ==> Eval(plans[i], w, t) == Holds(q, [runs[i]], w, t)
    ensures Satisfied(plans, w, t) == HoldingRuns(q, runs, w, t)
  {
    if runs != [] {
      CountMeaning(plans[1..], q, runs[1..], w, t);
    }
  }

  lemma ExistsMeaning(args: seq<AbstractQuery>, runs: seq<TestRun>, w: World, t: int)
    requires forall a | a in args :: forall r | r in runs ::
      Eval(Bind(a, [r], w.fetch), w, t) == Holds(a, [r], w, t)
    ensures Eval(CAnd(ExistsParts(args, runs, w.fetch)), w, t)
      == forall a | a in args :: exists r | r in runs :: Holds(a, [r], w, t)
  {
    var parts := ExistsParts(args, runs, w.fetch);
    forall k | 0 <= k < |args|
      ensures Eval(parts[k], w, t) == exists r | r in runs :: Holds(args[k], [r], w, t)
    {
      var plans := ByRun(args[k], runs, w.fetch);
      SomeRunMeaning(plans, w, t);
      assert args[k] in args;
      forall i | 0 <= i < |runs| ensures Eval(plans[i], w, t) == Holds(args[k], [runs[i]], w, t) {
        assert runs[i] in runs;
      }
    }
    PartsConjoin(parts, args, w, t, a => exists r | r in runs :: Holds(a, [r], w, t));
  }

  lemma AllMeaning(args: seq<AbstractQuery>, runs: seq<TestRun>, w: World, t: int)
    requires forall a | a in args :: forall r | r in runs ::
      Eval(Bind(a, [r], w.fetch), w, t) == Holds(a, [r], w, t)
    ensures Eval(CAnd(AllParts(args, runs, w.fetch)), w, t) == Holds(AAll(args), runs, w, t)
  {
    AllPartsMeaning(args, runs, w, t);
    hide Bind, Eval;
  }

  lemma AllPartsMeaning(args: seq<AbstractQuery>, runs: seq<TestRun>, w: World, t: int)
    requires forall a | a in args :: forall r | r in runs ::
      Eval(Bind(a, [r], w.fetch), w, t) == Holds(a, [r], w, t)
    ensures Eval(CAnd(AllParts(args, runs, w.fetch)), w, t)
      == forall a | a in args :: forall r | r in runs :: Holds(a, [r], w, t)
  {
    hide Bind, Holds, Eval;
    var parts := AllParts(args, runs, w.fetch);
    forall k | 0 <= k < |args|
      ensures Eval(parts[k], w, t) == forall r | r in runs :: Holds(args[k], [r], w, t)
    {
      assert args[k] in args;
      AllPartMeaning(args[k], runs, w, t);
    }
    PartsConjoin(parts, args, w, t, a => forall r | r in runs :: Holds(a, [r], w, t));
  }

  lemma AllPartMeaning(arg: AbstractQuery, runs: seq<TestRun>, w: World, t: int)
    requires forall r | r in runs :: Eval(Bind(arg, [r], w.fetch), w, t) == Holds(arg, [r], w, t)
    ensures Eval(CAnd(Without(ByRun(arg, runs, w.fetch), CTrue)), w, t)
      == forall r | r in runs :: Holds(arg, [r], w, t)
  {
    hide Bind, Holds, Eval;
    var plans := ByRun(arg, runs, w.fetch);
    EveryRunMeaning(plans, w, t);
    forall i | 0 <= i < |runs| ensures Eval(plans[i], w, t) == Holds(arg, [runs[i]], w, t) {
      assert runs[i] in runs;
    }
  }

  lemma PartsConjoin(
      parts: seq<ConcreteQuery>, args: seq<AbstractQuery>, w: World, t: int, meaning: AbstractQuery -> bool)
    requires |parts| == |args|
    requires forall k :: 0 <= k < |args| ==> Eval(parts[k], w, t) == meaning(args[k])
    ensures Eval(CAnd(parts), w, t) == forall a | a in args :: meaning(a)
  {
    if Eval(CAnd(parts), w, t) {
      forall a | a in args ensures meaning(a) {
        var k :| 0 <= k < |args| && args[k] == a;
        assert parts[k] in parts;
      }
    }
    if forall a | a in args :: meaning(a) {
      forall p | p in parts ensures Eval(p, w, t) {
        var k :| 0 <= k < |parts| && parts[k] == p;
        assert args[k] in args;
      }
    }
  }

  lemma PartsDisjoin(
      parts: seq<ConcreteQuery>, args: seq<AbstractQuery>, w: World, t: int, meaning: AbstractQuery -> bool)
    requires |parts| == |args|
    requires forall k :: 0 <= k < |args| ==> Eval(parts[k], w, t) == meaning(args[k])
    ensures Eval(COr(parts), w, t) == exists a | a in args :: meaning(a)
  {
    if p :| p in parts && Eval(p, w, t) {
      var k :| 0 <= k < |parts| && parts[k] == p;
      assert args[k] in args;
    }
    if a :| a in args && meaning(a) {
      var k :| 0 <= k < |args| && args[k] == a;
      assert parts[k] in parts;
    }
  }

  lemma SequentialMeaning(args: seq<AbstractQuery>, runs: seq<TestRun>, w: World, t: int)
    requires forall a | a in args :: forall r | r in runs ::
      Eval(Bind(a, [r], w.fetch), w, t) == Holds(a, [r], w, t)
    ensures Eval(COr(Windows(args, runs, w.fetch)), w, t) == Holds(ASequential(args), runs, w, t)
  {
    var windows := Windows(args, runs, w.fetch);
    forall i | 0 <= i < |windows| ensures Eval(windows[i], w, t) == HoldsFrom(args, runs, i, w, t) {
      WindowMeaning(args, runs, i, w, t);
    }
    forall i: nat | i + |args| <= |runs| && HoldsFrom(args, runs, i, w, t) ensures Eval(COr(windows), w, t) {
      assert windows[i] in windows;
    }
    forall p | p in windows && Eval(p, w, t) ensures Holds(ASequential(args), runs, w, t) {
      var i :| 0 <= i < |windows| && windows[i] == p;
      assert HoldsFrom(args, runs, i, w, t);
    }
  }

  lemma WindowMeaning(args: seq<AbstractQuery>, runs: seq<TestRun>, i: nat, w: World, t: int)
    requires i + |args| <= |runs|
    requires forall a | a in args :: forall r | r in runs ::
      Eval(Bind(a, [r], w.fetch), w, t) == Holds(a, [r], w, t)
    ensures Eval(CAnd(Window(args, runs, i, w.fetch)), w, t) == HoldsFrom(args, runs, i, w, t)
  {
    hide Bind, Holds;
    var window := Window(args, runs, i, w.fetch);
    forall j | 0 <= j < |args| ensures Eval(window[j], w, t) == Holds(args[j], [runs[i + j]], w, t) {
      assert args[j] in args && runs[i + j] in runs;
    }
    if Eval(CAnd(window), w, t) {
      forall j | 0 <= j < |args| ensures Holds(args[j], [runs[i + j]], w, t) {
        assert window[j] in window;
      }
    }
  }

  lemma AtomKeepsMeaning(q: AbstractQuery, runs: seq<TestRun>, w: World, t: int)
    requires Atom(q)
    ensures Eval(Bind(q, runs, w.fetch), w, t) == Holds(q, runs, w, t)
  {
    match q
    case ATriaged(p) => TriagedMeaning(p, runs, w, t);
    case AStatusEq(p, status) => StatusPlanMeaning(MatchingIds(p, runs), status, true, w, t);
    case AStatusNeq(p, status) => StatusPlanMeaning(MatchingIds(p, runs), status, false, w, t);
    case _ =>
  }

  // ---- the main theorem ----

  // For every query a client can send, and True for a request without one, every
  // list of runs, every results table and every test, the bound plan is true
  // exactly when the query holds.
  lemma {:induction false} BindKeepsMeaning(q: AbstractQuery, runs: seq<TestRun>, w: World, t: int)
    requires Buildable(q) || q.ATrue?
    ensures Eval(Bind(q, runs, w.fetch), w, t) == Holds(q, runs, w, t)
    decreases q, 3
  {
    hide Eval, Bind, Holds;
    match q
    case AExists(args) => ExistsNode(q, args, runs, w, t);
    case ANone(args) => ExistsNode(q, args, runs, w, t);
    case AAll(args) => AllNode(q, args, runs, w, t);
    case ASequential(args) => SequentialNode(q, args, runs, w, t);
    case ACount(count, condition) => CountNode(q, count, condition, runs, w, t);
    case AMoreThan(count, condition) => CountNode(q, count, condition, runs, w, t);
    case ALessThan(count, condition) => CountNode(q, count, condition, runs, w, t);
    case ANot(arg) => BindKeepsMeaning(arg, runs, w, t); NotMeaning(arg, runs, w, t);
    case AOr(args) => OrNode(q, args, runs, w, t);
    case AAnd(args) => AndNode(q, args, runs, w, t);
    case _ => AtomKeepsMeaning(q, runs, w, t);
  }

  lemma NotMeaning(arg: AbstractQuery, runs: seq<TestRun>, w: World, t: int)
    requires Eval(Bind(arg, runs, w.fetch), w, t) == Holds(arg, runs, w, t)
    ensures Eval(Bind(ANot(arg), runs, w.fetch), w, t) == Holds(ANot(arg), runs, w, t)
  {
  }

  ghost predicate ArgsOf(q: AbstractQuery, args: seq<AbstractQuery>) {
    args != [] && forall a | a in args :: a < q && Buildable(a)
  }

  lemma {:induction false} EachByRun(
      q: AbstractQuery, args: seq<AbstractQuery>, runs: seq<TestRun>, w: World, t: int)
    requires ArgsOf(q, args)
    ensures forall a | a in args :: forall r | r in runs ::
      Eval(Bind(a, [r], w.fetch), w, t) == Holds(a, [r], w, t)
    decreases q, 1
  {
    forall a, r | a in args && r in runs ensures Eval(Bind(a, [r], w.fetch), w, t) == Holds(a, [r], w, t) {
      BindKeepsMeaning(a, [r], w, t);
    }
  }

  lemma LonePlan(arg: AbstractQuery, runs: seq<TestRun>, w: World, t: int)
    requires Eval(Bind(arg, runs, w.fetch), w, t) == Holds(arg, runs, w, t)
    ensures Eval(Bind(AExists([arg]), runs, w.fetch), w, t) == Holds(AExists([arg]), runs, w, t)
    ensures Eval(Bind(ANone([arg]), runs, w.fetch), w, t) == Holds(ANone([arg]), runs, w, t)
  {
  }

  lemma ManyPlan(args: seq<AbstractQuery>, runs: seq<TestRun>, w: World, t: int)
    requires |args| != 1
    requires Eval(CAnd(ExistsParts(args, runs, w.fetch)), w, t)
      == forall a | a in args :: exists r | r in runs :: Holds(a, [r], w, t)
    ensures Eval(Bind(AExists(args), runs, w.fetch), w, t) == Holds(AExists(args), runs, w, t)
    ensures Eval(Bind(ANone(args), runs, w.fetch), w, t) == Holds(ANone(args), runs, w, t)
  {
    hide ExistsParts;
  }

  lemma {:induction false} ExistsNode(
      q: AbstractQuery, args: seq<AbstractQuery>, runs: seq<TestRun>, w: World, t: int)
    requires ArgsOf(q, args)
    ensures Eval(Bind(AExists(args), runs, w.fetch), w, t) == Holds(AExists(args), runs, w, t)
    ensures Eval(Bind(ANone(args), runs, w.fetch), w, t) == Holds(ANone(args), runs, w, t)
    decreases q, 2
  {
    hide Eval, Bind, Holds, ExistsParts;
    assert args[0] in args;
    if |args| == 1 {
      assert args == [args[0]];
      BindKeepsMeaning(args[0], runs, w, t);
      LonePlan(args[0], runs, w, t);
    } else {
      EachByRun(q, args, runs, w, t);
      ExistsMeaning(args, runs, w, t);
      ManyPlan(args, runs, w, t);
    }
  }

  lemma {:induction false} AllNode(
      q: AbstractQuery, args: seq<AbstractQuery>, runs: seq<TestRun>, w: World, t: int)
    requires ArgsOf(q, args)
    ensures Eval(Bind(AAll(args), runs, w.fetch), w, t) == Holds(AAll(args), runs, w, t)
    decreases q, 2
  {
    EachByRun(q, args, runs, w, t);
    AllMeaning(args, runs, w, t);
  }

  lemma {:induction false} SequentialNode(
      q: AbstractQuery, args: seq<AbstractQuery>, runs: seq<TestRun>, w: World, t: int)
    requires ArgsOf(q, args)
    ensures Eval(Bind(ASequential(args), runs, w.fetch), w, t) == Holds(ASequential(args), runs, w, t)
    decreases q, 2
  {
    EachByRun(q, args, runs, w, t);
    SequentialMeaning(args, runs, w, t);
  }

  lemma CountPlan(count: int, condition: AbstractQuery, runs: seq<TestRun>, w: World, t: int)
    requires Satisfied(ByRun(condition, runs, w.fetch), w, t) == HoldingRuns(condition, runs, w, t)
    ensures Eval(Bind(ACount(count, condition), runs, w.fetch), w, t) == Holds(ACount(count, condition), runs, w, t)
    ensures Eval(Bind(AMoreThan(count, condition), runs, w.fetch), w, t)
      == Holds(AMoreThan(count, condition), runs, w, t)
    ensures Eval(Bind(ALessThan(count, condition), runs, w.fetch), w, t)
      == Holds(ALessThan(count, condition), runs, w, t)
  {
    hide ByRun, Satisfied, HoldingRuns;
  }

  lemma {:induction false} CountNode(
      q: AbstractQuery, count: int, condition: AbstractQuery, runs: seq<TestRun>, w: World, t: int)
    requires condition < q && Buildable(condition)
    ensures Eval(Bind(ACount(count, condition), runs, w.fetch), w, t) == Holds(ACount(count, condition), runs, w, t)
    ensures Eval(Bind(AMoreThan(count, condition), runs, w.fetch), w, t)
      == Holds(AMoreThan(count, condition), runs, w, t)
    ensures Eval(Bind(ALessThan(count, condition), runs, w.fetch), w, t)
      == Holds(ALessThan(count, condition), runs, w, t)
    decreases q, 2
  {
    hide Eval, Bind, Holds, Satisfied, HoldingRuns;
    forall i | 0 <= i < |runs|
      ensures Eval(ByRun(condition, runs, w.fetch)[i], w, t) == Holds(condition, [runs[i]], w, t)
    {
      BindKeepsMeaning(condition, [runs[i]], w, t);
    }
    CountMeaning(ByRun(condition, runs, w.fetch), condition, runs, w, t);
    CountPlan(count, condition, runs, w, t);
  }

  lemma {:induction false} EachMeaning(
      q: AbstractQuery, args: seq<AbstractQuery>, runs: seq<TestRun>, w: World, t: int)
    requires ArgsOf(q, args)
    ensures forall i :: 0 <= i < |args| ==>
      Eval(BindEach(args, runs, w.fetch)[i], w, t) == Holds(args[i], runs, w, t)
    decreases q, 1
  {
    forall i | 0 <= i < |args|
      ensures Eval(BindEach(args, runs, w.fetch)[i], w, t) == Holds(args[i], runs, w, t)
    {
      assert args[i] in args;
      BindKeepsMeaning(args[i], runs, w, t);
    }
  }

  lemma OrPlan(args: seq<AbstractQuery>, runs: seq<TestRun>, w: World, t: int)
    requires forall i :: 0 <= i < |args| ==>
      Eval(BindEach(args, runs, w.fetch)[i], w, t) == Holds(args[i], runs, w, t)
    ensures Eval(Bind(AOr(args), runs, w.fetch), w, t) == Holds(AOr(args), runs, w, t)
  {
    var subs := BindEach(args, runs, w.fetch);
    OrKeepsMeaning(subs, w, t);
    PartsDisjoin(subs, args, w, t, a => Holds(a, runs, w, t));
  }

  lemma {:induction false} OrNode(
      q: AbstractQuery, args: seq<AbstractQuery>, runs: seq<TestRun>, w: World, t: int)
    requires ArgsOf(q, args)
    ensures Eval(Bind(AOr(args), runs, w.fetch), w, t) == Holds(AOr(args), runs, w, t)
    decreases q, 2
  {
    hide *;
    EachMeaning(q, args, runs, w, t);
    OrPlan(args, runs, w, t);
  }

  lemma AndBinds(args: seq<AbstractQuery>, runs: seq<TestRun>, f: Fetcher)
    ensures Bind(AAnd(args), runs, f) == SimplifyAnd(BindEach(args, runs, f)) && |BindEach(args, runs, f)| == |args|
  {
    hide SimplifyAnd;
  }

  lemma AndPlan(args: seq<AbstractQuery>, runs: seq<TestRun>, w: World, t: int)
    requires forall i :: 0 <= i < |args| ==>
      Eval(BindEach(args, runs, w.fetch)[i], w, t) == Holds(args[i], runs, w, t)
    requires exists s | s in BindEach(args, runs, w.fetch) :: s != CTrue
    ensures Eval(Bind(AAnd(args), runs, w.fetch), w, t) == Holds(AAnd(args), runs, w, t)
  {
    hide SimplifyAnd, BindEach;
    var subs := BindEach(args, runs, w.fetch);
    AndBinds(args, runs, w.fetch);
    AndKeepsMeaningIff(subs, w, t);
    hide Bind;
    PartsConjoin(subs, args, w, t, a => Holds(a, runs, w, t));
  }

  lemma {:induction false} AndNode(
      q: AbstractQuery, args: seq<AbstractQuery>, runs: seq<TestRun>, w: World, t: int)
    requires ArgsOf(q, args)
    ensures Eval(Bind(AAnd(args), runs, w.fetch), w, t) == Holds(AAnd(args), runs, w, t)
    decreases q, 2
  {
    hide Eval, Bind, Holds, BindEach, Buildable;
    EachMeaning(q, args, runs, w, t);
    EachNeverTrue(args, runs, w.fetch, q);
    AndPlan(args, runs, w, t);
  }
}
