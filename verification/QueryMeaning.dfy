// What the documentation says a query means, and when the bound plan means it:
// exists and none with a single argument are bound to all the runs at once
// (api/query/atoms.go).
module QueryMeaning {
  import opened Wrappers
  import opened Products
  import opened Query
  import opened QueryBinding

  // ---- the documented meaning ----

  // Every argument of exists holds of some single run, however many there are,
  // and none is not exists.
  predicate Means(q: AbstractQuery, runs: seq<TestRun>, w: World, t: int)
    decreases q, 0
  {
    match q
    case AExists(args) => forall a | a in args :: exists r | r in runs :: Means(a, [r], w, t)
    case ANone(args) => !forall a | a in args :: exists r | r in runs :: Means(a, [r], w, t)
    case AAll(args) => forall a | a in args :: forall r | r in runs :: Means(a, [r], w, t)
    case ASequential(args) => exists i: nat | i + |args| <= |runs| :: MeansFrom(args, runs, i, w, t)
    case ACount(count, condition) => MeaningRuns(condition, runs, w, t) == count
    case AMoreThan(count, condition) => MeaningRuns(condition, runs, w, t) > count
    case ALessThan(count, condition) => MeaningRuns(condition, runs, w, t) < count
    case ANot(arg) => !Means(arg, runs, w, t)
    case AOr(args) => exists a | a in args :: Means(a, runs, w, t)
    case AAnd(args) => forall a | a in args :: Means(a, runs, w, t)
    case _ => Holds(q, runs, w, t)
  }

  predicate MeansFrom(args: seq<AbstractQuery>, runs: seq<TestRun>, i: nat, w: World, t: int)
    requires i + |args| <= |runs|
    decreases args, 0
  {
    forall j | 0 <= j < |args| :: Means(args[j], [runs[i + j]], w, t)
  }

  function MeaningRuns(q: AbstractQuery, runs: seq<TestRun>, w: World, t: int): nat
    decreases q, 1, |runs|
  {
    if runs == [] then 0 else
      (if Means(q, [runs[0]], w, t) then 1 else 0) + MeaningRuns(q, runs[1..], w, t)
  }

  // Of some single run.
  predicate MeansOfSome(q: AbstractQuery, runs: seq<TestRun>, w: World, t: int) {
    exists r | r in runs :: Means(q, [r], w, t)
  }

  // ---- one run ----

  lemma {:induction false} SameCount(q: AbstractQuery, runs: seq<TestRun>, w: World, t: int)
    requires forall r | r in runs :: Means(q, [r], w, t) == Holds(q, [r], w, t)
    ensures MeaningRuns(q, runs, w, t) == HoldingRuns(q, runs, w, t)
  {
    hide Means, Holds;
    if runs != [] {
      assert runs[0] in runs && forall r | r in runs[1..] :: r in runs;
      SameCount(q, runs[1..], w, t);
    }
  }

  lemma ThatRun(r: TestRun)
    ensures r in [r] && forall x | x in [r] :: x == r
  {
    assert [r][0] == r;
  }

  lemma LoneArgument(args: seq<AbstractQuery>)
    ensures |args| == 1 ==> args[0] in args && forall a | a in args :: a == args[0]
  {
  }

  lemma AtomMeans(q: AbstractQuery, runs: seq<TestRun>, w: World, t: int)
    requires Atom(q)
    ensures Means(q, runs, w, t) == Holds(q, runs, w, t)
  {
  }

  lemma NotMeans(arg: AbstractQuery, runs: seq<TestRun>, w: World, t: int)
    requires Means(arg, runs, w, t) == Holds(arg, runs, w, t)
    ensures Means(ANot(arg), runs, w, t) == Holds(ANot(arg), runs, w, t)
  {
  }

  lemma CountMeans(count: int, condition: AbstractQuery, runs: seq<TestRun>, w: World, t: int)
    requires forall r | r in runs :: Means(condition, [r], w, t) == Holds(condition, [r], w, t)
    ensures Means(ACount(count, condition), runs, w, t) == Holds(ACount(count, condition), runs, w, t)
    ensures Means(AMoreThan(count, condition), runs, w, t) == Holds(AMoreThan(count, condition), runs, w, t)
    ensures Means(ALessThan(count, condition), runs, w, t) == Holds(ALessThan(count, condition), runs, w, t)
  {
    SameCount(condition, runs, w, t);
  }

  lemma AllMeans(args: seq<AbstractQuery>, runs: seq<TestRun>, w: World, t: int)
    requires forall a | a in args :: forall r | r in runs :: Means(a, [r], w, t) == Holds(a, [r], w, t)
    ensures Means(AAll(args), runs, w, t) == Holds(AAll(args), runs, w, t)
  {
  }

  lemma PartsMean(args: seq<AbstractQuery>, runs: seq<TestRun>, w: World, t: int)
    requires forall a | a in args :: Means(a, runs, w, t) == Holds(a, runs, w, t)
    ensures Means(AOr(args), runs, w, t) == Holds(AOr(args), runs, w, t)
    ensures Means(AAnd(args), runs, w, t) == Holds(AAnd(args), runs, w, t)
  {
  }

  // With several arguments exists is bound run by run, as documented.
  lemma ManyMeans(args: seq<AbstractQuery>, runs: seq<TestRun>, w: World, t: int)
    requires |args| != 1
    requires forall a | a in args :: forall r | r in runs :: Means(a, [r], w, t) == Holds(a, [r], w, t)
    ensures Means(AExists(args), runs, w, t) == Holds(AExists(args), runs, w, t)
    ensures Means(ANone(args), runs, w, t) == Holds(ANone(args), runs, w, t)
  {
  }

  lemma LoneMeans(arg: AbstractQuery, runs: seq<TestRun>, w: World, t: int)
    requires Means(arg, runs, w, t) == Holds(arg, runs, w, t)
    requires Means(arg, runs, w, t) == MeansOfSome(arg, runs, w, t)
    ensures Means(AExists([arg]), runs, w, t) == Holds(AExists([arg]), runs, w, t)
    ensures Means(ANone([arg]), runs, w, t) == Holds(ANone([arg]), runs, w, t)
  {
    LoneArgument([arg]);
  }

  // On a single run there is nothing to mix.
  lemma {:induction false} OneRunMeansWhatHolds(q: AbstractQuery, r: TestRun, w: World, t: int)
    ensures Means(q, [r], w, t) == Holds(q, [r], w, t)
    decreases q, 1
  {
    hide Means, Holds;
    ThatRun(r);
    match q
    case AExists(args) => ExistsOnThatRun(q, args, r, w, t);
    case ANone(args) => ExistsOnThatRun(q, args, r, w, t);
    case AAll(args) => ArgsMeanWhatHolds(q, args, [r], w, t); AllMeans(args, [r], w, t);
    case ASequential(args) => ArgsMeanWhatHolds(q, args, [r], w, t); SameWindows(args, [r], w, t);
    case ACount(count, condition) => OneRunMeansWhatHolds(condition, r, w, t); CountMeans(count, condition, [r], w, t);
    case AMoreThan(count, condition) =>
      OneRunMeansWhatHolds(condition, r, w, t);
      CountMeans(count, condition, [r], w, t);
    case ALessThan(count, condition) =>
      OneRunMeansWhatHolds(condition, r, w, t);
      CountMeans(count, condition, [r], w, t);
    case ANot(arg) => OneRunMeansWhatHolds(arg, r, w, t); NotMeans(arg, [r], w, t);
    case AOr(args) => ArgsMeanWhatHolds(q, args, [r], w, t); PartsMean(args, [r], w, t);
    case AAnd(args) => ArgsMeanWhatHolds(q, args, [r], w, t); PartsMean(args, [r], w, t);
    case _ => AtomMeans(q, [r], w, t);
  }

  lemma {:induction false} ExistsOnThatRun(q: AbstractQuery, args: seq<AbstractQuery>, r: TestRun, w: World, t: int)
    requires forall a | a in args :: a < q
    ensures Means(AExists(args), [r], w, t) == Holds(AExists(args), [r], w, t)
    ensures Means(ANone(args), [r], w, t) == Holds(ANone(args), [r], w, t)
    decreases q, 0, 1
  {
    hide Means, Holds;
    ThatRun(r);
    LoneArgument(args);
    if |args| == 1 {
      assert args == [args[0]];
      OneRunMeansWhatHolds(args[0], r, w, t);
      LoneMeans(args[0], [r], w, t);
    } else {
      ArgsMeanWhatHolds(q, args, [r], w, t);
      ManyMeans(args, [r], w, t);
    }
  }

  lemma {:induction false} ArgsMeanWhatHolds(
      q: AbstractQuery, args: seq<AbstractQuery>, runs: seq<TestRun>, w: World, t: int)
    requires forall a | a in args :: a < q
    ensures forall a | a in args :: forall r | r in runs :: Means(a, [r], w, t) == Holds(a, [r], w, t)
    decreases q, 0, 0
  {
    forall a, r | a in args && r in runs ensures Means(a, [r], w, t) == Holds(a, [r], w, t) {
      OneRunMeansWhatHolds(a, r, w, t);
    }
  }

  lemma SameWindows(args: seq<AbstractQuery>, runs: seq<TestRun>, w: World, t: int)
    requires forall a | a in args :: forall r | r in runs :: Means(a, [r], w, t) == Holds(a, [r], w, t)
    ensures Means(ASequential(args), runs, w, t) == Holds(ASequential(args), runs, w, t)
  {
    forall i: nat | i + |args| <= |runs| ensures MeansFrom(args, runs, i, w, t) == HoldsFrom(args, runs, i, w, t) {
      forall j | 0 <= j < |args| ensures Means(args[j], [runs[i + j]], w, t) == Holds(args[j], [runs[i + j]], w, t) {
        assert args[j] in args && runs[i + j] in runs;
      }
    }
  }

  // ---- queries that a single run decides ----

  // Queries that do not look at the runs at all.
  predicate RunFree(q: AbstractQuery) {
    match q
    case ATrue => true
    case AFalse => true
    case ALeaf(_) => true
    case ANot(arg) => RunFree(arg)
    case AOr(args) => forall a | a in args :: RunFree(a)
    case AAnd(args) => forall a | a in args :: RunFree(a)
    case _ => false
  }

  predicate OnlyOneLooks(args: seq<AbstractQuery>) {
    forall i, j | 0 <= i < j < |args| :: RunFree(args[i]) || RunFree(args[j])
  }

  // Queries that hold of several runs exactly when they hold of one of them.
  predicate Tied(q: AbstractQuery) {
    match q
    case AStatusEq(_, _) => true
    case AStatusNeq(_, _) => true
    case ATriaged(_) => true
    case AExists(args) => OnlyOneLooks(args)
    case ASequential(args) => |args| == 1
    case AMoreThan(count, _) => count <= 0
    case AOr(args) => forall a | a in args :: Tied(a)
    case AAnd(args) => OnlyOneLooks(args) && forall a | a in args :: Tied(a)
    case _ => RunFree(q)
  }

  lemma {:induction false} RunFreeIgnoresRuns(
      q: AbstractQuery, runs: seq<TestRun>, runs': seq<TestRun>, w: World, t: int)
    requires RunFree(q)
    ensures Means(q, runs, w, t) == Means(q, runs', w, t)
    decreases q
  {
    match q
    case ANot(arg) => RunFreeIgnoresRuns(arg, runs, runs', w, t);
    case AOr(args) =>
      forall a | a in args ensures Means(a, runs, w, t) == Means(a, runs', w, t) {
        RunFreeIgnoresRuns(a, runs, runs', w, t);
      }
    case AAnd(args) =>
      forall a | a in args ensures Means(a, runs, w, t) == Means(a, runs', w, t) {
        RunFreeIgnoresRuns(a, runs, runs', w, t);
      }
    case _ =>
  }

  // Conditions of which only one looks at the run can be met by one run.
  lemma OneRunForAll(args: seq<AbstractQuery>, runs: seq<TestRun>, w: World, t: int)
    requires OnlyOneLooks(args) && runs != []
    ensures (forall a | a in args :: MeansOfSome(a, runs, w, t))
      <==> exists r | r in runs :: forall a | a in args :: Means(a, [r], w, t)
  {
    hide Means, RunFree;
    if forall a | a in args :: MeansOfSome(a, runs, w, t) {
      if k :| 0 <= k < |args| && !RunFree(args[k]) {
        assert args[k] in args;
        var r :| r in runs && Means(args[k], [r], w, t);
        forall a | a in args ensures Means(a, [r], w, t) {
          var i :| 0 <= i < |args| && args[i] == a;
          if i != k {
            RunFreeOnOne(a, runs, r, w, t);
          }
        }
      } else {
        assert runs[0] in runs;
        forall a | a in args ensures Means(a, [runs[0]], w, t) {
          var i :| 0 <= i < |args| && args[i] == a;
          RunFreeOnOne(a, runs, runs[0], w, t);
        }
      }
    }
  }

  lemma RunFreeOnOne(a: AbstractQuery, runs: seq<TestRun>, r: TestRun, w: World, t: int)
    requires RunFree(a) && MeansOfSome(a, runs, w, t)
    ensures Means(a, [r], w, t)
  {
    var x :| x in runs && Means(a, [x], w, t);
    RunFreeIgnoresRuns(a, [x], [r], w, t);
  }

  lemma {:induction false} SomeRunCounts(q: AbstractQuery, runs: seq<TestRun>, w: World, t: int)
    ensures MeaningRuns(q, runs, w, t) > 0 <==> MeansOfSome(q, runs, w, t)
  {
    if runs != [] {
      SomeRunCounts(q, runs[1..], w, t);
      assert forall r :: r in runs <==> r == runs[0] || r in runs[1..];
    }
  }

  lemma TiedOr(args: seq<AbstractQuery>, runs: seq<TestRun>, w: World, t: int)
    requires forall a | a in args :: Means(a, runs, w, t) <==> MeansOfSome(a, runs, w, t)
    ensures Means(AOr(args), runs, w, t) <==> MeansOfSome(AOr(args), runs, w, t)
  {
    if r :| r in runs && Means(AOr(args), [r], w, t) {
      var a :| a in args && Means(a, [r], w, t);
      assert MeansOfSome(a, runs, w, t);
    }
    if a :| a in args && MeansOfSome(a, runs, w, t) {
      var r :| r in runs && Means(a, [r], w, t);
      assert Means(AOr(args), [r], w, t);
    }
  }

  lemma TiedAnd(args: seq<AbstractQuery>, runs: seq<TestRun>, w: World, t: int)
    requires OnlyOneLooks(args) && runs != []
    requires forall a | a in args :: Means(a, runs, w, t) <==> MeansOfSome(a, runs, w, t)
    ensures Means(AAnd(args), runs, w, t) <==> MeansOfSome(AAnd(args), runs, w, t)
  {
    OneRunForAll(args, runs, w, t);
    hide MeansOfSome;
    assert Means(AAnd(args), runs, w, t) <==> forall a | a in args :: MeansOfSome(a, runs, w, t);
    AndOfSome(args, runs, w, t);
  }

  lemma AndOfSome(args: seq<AbstractQuery>, runs: seq<TestRun>, w: World, t: int)
    ensures MeansOfSome(AAnd(args), runs, w, t)
      <==> exists r | r in runs :: forall a | a in args :: Means(a, [r], w, t)
  {
  }

  lemma TiedAtom(q: AbstractQuery, runs: seq<TestRun>, w: World, t: int)
    requires q.AStatusEq? || q.AStatusNeq? || q.ATriaged?
    ensures Means(q, runs, w, t) <==> MeansOfSome(q, runs, w, t)
  {
    forall r | r in runs ensures r in [r] && forall x | x in [r] :: x == r {
      ThatRun(r);
    }
  }

  lemma TiedRunFree(q: AbstractQuery, runs: seq<TestRun>, w: World, t: int)
    requires RunFree(q) && runs != []
    ensures Means(q, runs, w, t) <==> MeansOfSome(q, runs, w, t)
  {
    hide Means, RunFree;
    assert runs[0] in runs;
    forall r | r in runs ensures Means(q, [r], w, t) == Means(q, runs, w, t) {
      RunFreeIgnoresRuns(q, [r], runs, w, t);
    }
  }

  // Tied queries hold of several runs exactly when they hold of one.
  lemma {:induction false} TiedIsOfSome(q: AbstractQuery, runs: seq<TestRun>, w: World, t: int)
    requires Tied(q) && runs != []
    ensures Means(q, runs, w, t) <==> MeansOfSome(q, runs, w, t)
    decreases q
  {
    hide Means, MeansOfSome, OnlyOneLooks;
    match q
    case AStatusEq(_, _) => TiedAtom(q, runs, w, t);
    case AStatusNeq(_, _) => TiedAtom(q, runs, w, t);
    case ATriaged(_) => TiedAtom(q, runs, w, t);
    case AExists(args) => ExistsOfOne(args, runs, w, t);
    case ASequential(args) => OneStep(args, runs, w, t);
    case AMoreThan(count, condition) => MoreThanNone(count, condition, runs, w, t);
    case AOr(args) =>
      forall a | a in args ensures Means(a, runs, w, t) <==> MeansOfSome(a, runs, w, t) {
        TiedIsOfSome(a, runs, w, t);
      }
      TiedOr(args, runs, w, t);
    case AAnd(args) =>
      forall a | a in args ensures Means(a, runs, w, t) <==> MeansOfSome(a, runs, w, t) {
        TiedIsOfSome(a, runs, w, t);
      }
      TiedAnd(args, runs, w, t);
    case _ => TiedRunFree(q, runs, w, t);
  }

  lemma ExistsOnOne(args: seq<AbstractQuery>, r: TestRun, w: World, t: int)
    ensures Means(AExists(args), [r], w, t) <==> forall a | a in args :: Means(a, [r], w, t)
  {
    ThatRun(r);
  }

  lemma ExistsOfOne(args: seq<AbstractQuery>, runs: seq<TestRun>, w: World, t: int)
    requires OnlyOneLooks(args) && runs != []
    ensures Means(AExists(args), runs, w, t) <==> MeansOfSome(AExists(args), runs, w, t)
  {
    OneRunForAll(args, runs, w, t);
    assert Means(AExists(args), runs, w, t) <==> forall a | a in args :: MeansOfSome(a, runs, w, t);
    hide Means;
    forall r | r in runs
      ensures Means(AExists(args), [r], w, t) <==> forall a | a in args :: Means(a, [r], w, t)
    {
      ExistsOnOne(args, r, w, t);
    }
  }

  lemma StepFrom(args: seq<AbstractQuery>, runs: seq<TestRun>, w: World, t: int)
    requires |args| == 1
    ensures Means(ASequential(args), runs, w, t) <==> MeansOfSome(args[0], runs, w, t)
  {
    hide Holds, Wanted;
    var arg := args[0];
    forall i: nat | i + 1 <= |runs| ensures MeansFrom(args, runs, i, w, t) <==> Means(arg, [runs[i]], w, t) {
    }
    if MeansOfSome(arg, runs, w, t) {
      var r :| r in runs && Means(arg, [r], w, t);
      var i: nat :| i < |runs| && runs[i] == r;
      assert MeansFrom(args, runs, i, w, t);
    }
  }

  lemma OneStep(args: seq<AbstractQuery>, runs: seq<TestRun>, w: World, t: int)
    requires |args| == 1
    ensures Means(ASequential(args), runs, w, t) <==> MeansOfSome(ASequential(args), runs, w, t)
  {
    hide Means;
    StepFrom(args, runs, w, t);
    forall r | r in runs ensures Means(ASequential(args), [r], w, t) <==> Means(args[0], [r], w, t) {
      StepFrom(args, [r], w, t);
      ThatRun(r);
    }
  }

  lemma MoreThanNone(count: int, condition: AbstractQuery, runs: seq<TestRun>, w: World, t: int)
    requires count <= 0 && runs != []
    ensures Means(AMoreThan(count, condition), runs, w, t) <==> MeansOfSome(AMoreThan(count, condition), runs, w, t)
  {
    SomeRunCounts(condition, runs, w, t);
    assert runs[0] in runs;
    forall r | r in runs ensures MeaningRuns(condition, [r], w, t) > 0 <==> Means(condition, [r], w, t) {
      ThatRun(r);
      SomeRunCounts(condition, [r], w, t);
    }
  }

  // ---- queries that mean what the documentation says ----

  // Every lone argument of exists or none that all the runs are bound to at once
  // is decided by a single run.
  predicate ReadsAsDocumented(q: AbstractQuery) {
    match q
    case AExists(args) => |args| == 1 ==> Tied(args[0]) && ReadsAsDocumented(args[0])
    case ANone(args) => |args| == 1 ==> Tied(args[0]) && ReadsAsDocumented(args[0])
    case ANot(arg) => ReadsAsDocumented(arg)
    case AOr(args) => forall a | a in args :: ReadsAsDocumented(a)
    case AAnd(args) => forall a | a in args :: ReadsAsDocumented(a)
    case _ => true
  }

  lemma {:induction false} HoldsAsDocumented(q: AbstractQuery, runs: seq<TestRun>, w: World, t: int)
    requires ReadsAsDocumented(q) && runs != []
    ensures Means(q, runs, w, t) == Holds(q, runs, w, t)
    decreases q, 1
  {
    hide Means, Holds;
    match q
    case AExists(args) => ExistsAsDocumented(q, args, runs, w, t);
    case ANone(args) => ExistsAsDocumented(q, args, runs, w, t);
    case AAll(args) => ArgsMeanWhatHolds(q, args, runs, w, t); AllMeans(args, runs, w, t);
    case ASequential(args) => ArgsMeanWhatHolds(q, args, runs, w, t); SameWindows(args, runs, w, t);
    case ACount(count, condition) => CountAsDocumented(count, condition, runs, w, t);
    case AMoreThan(count, condition) => CountAsDocumented(count, condition, runs, w, t);
    case ALessThan(count, condition) => CountAsDocumented(count, condition, runs, w, t);
    case ANot(arg) => HoldsAsDocumented(arg, runs, w, t); NotMeans(arg, runs, w, t);
    case AOr(args) => PartsAsDocumented(q, args, runs, w, t);
    case AAnd(args) => PartsAsDocumented(q, args, runs, w, t);
    case _ => AtomMeans(q, runs, w, t);
  }

  lemma {:induction false} PartsAsDocumented(
      q: AbstractQuery, args: seq<AbstractQuery>, runs: seq<TestRun>, w: World, t: int)
    requires (forall a | a in args :: a < q && ReadsAsDocumented(a)) && runs != []
    ensures Means(AOr(args), runs, w, t) == Holds(AOr(args), runs, w, t)
    ensures Means(AAnd(args), runs, w, t) == Holds(AAnd(args), runs, w, t)
    decreases q, 0
  {
    forall a | a in args ensures Means(a, runs, w, t) == Holds(a, runs, w, t) {
      HoldsAsDocumented(a, runs, w, t);
    }
    PartsMean(args, runs, w, t);
  }

  lemma CountAsDocumented(count: int, condition: AbstractQuery, runs: seq<TestRun>, w: World, t: int)
    ensures Means(ACount(count, condition), runs, w, t) == Holds(ACount(count, condition), runs, w, t)
    ensures Means(AMoreThan(count, condition), runs, w, t) == Holds(AMoreThan(count, condition), runs, w, t)
    ensures Means(ALessThan(count, condition), runs, w, t) == Holds(ALessThan(count, condition), runs, w, t)
  {
    forall r | r in runs ensures Means(condition, [r], w, t) == Holds(condition, [r], w, t) {
      OneRunMeansWhatHolds(condition, r, w, t);
    }
    CountMeans(count, condition, runs, w, t);
  }

  lemma {:induction false} ExistsAsDocumented(
      q: AbstractQuery, args: seq<AbstractQuery>, runs: seq<TestRun>, w: World, t: int)
    requires (forall a | a in args :: a < q) && runs != []
    requires |args| == 1 ==> Tied(args[0]) && ReadsAsDocumented(args[0])
    ensures Means(AExists(args), runs, w, t) == Holds(AExists(args), runs, w, t)
    ensures Means(ANone(args), runs, w, t) == Holds(ANone(args), runs, w, t)
    decreases q, 0
  {
    hide Means, Holds;
    LoneArgument(args);
    if |args| == 1 {
      assert args == [args[0]];
      HoldsAsDocumented(args[0], runs, w, t);
      TiedIsOfSome(args[0], runs, w, t);
      LoneMeans(args[0], runs, w, t);
    } else {
      ArgsMeanWhatHolds(q, args, runs, w, t);
      ManyMeans(args, runs, w, t);
    }
  }

  // The bound plan means what the documentation says: on a single run always, on
  // several for every query whose lone arguments a single run decides.
  lemma BindMeansAsDocumented(q: AbstractQuery, runs: seq<TestRun>, w: World, t: int)
    requires Buildable(q) || q.ATrue?
    requires |runs| == 1 || (runs != [] && ReadsAsDocumented(q))
    ensures Eval(Bind(q, runs, w.fetch), w, t) == Means(q, runs, w, t)
  {
    BindKeepsMeaning(q, runs, w, t);
    if |runs| == 1 {
      assert runs == [runs[0]];
      OneRunMeansWhatHolds(q, runs[0], w, t);
    } else {
      HoldsAsDocumented(q, runs, w, t);
    }
  }

  // ---- conjunctions of status atoms ----

  predicate IsStatus(a: AbstractQuery) {
    a.AStatusEq? || a.AStatusNeq?
  }

  predicate Asks(a: AbstractQuery, r: TestRun)
    requires IsStatus(a)
  {
    Wanted(a.product, r)
  }

  predicate Accepts(a: AbstractQuery, result: int)
    requires IsStatus(a)
  {
    a.AStatusEq? <==> result == a.status
  }

  predicate AllStatus(atoms: seq<AbstractQuery>) {
    forall a | a in atoms :: IsStatus(a)
  }

  // A run for each atom with a result it accepts, the same result for the same run.
  ghost predicate Picks(atoms: seq<AbstractQuery>, runs: seq<TestRun>, picks: seq<TestRun>, results: seq<int>)
    requires AllStatus(atoms)
  {
    && |picks| == |results| == |atoms|
    && (forall i | 0 <= i < |atoms| :: picks[i] in runs && Asks(atoms[i], picks[i]) && Accepts(atoms[i], results[i]))
    && (forall i, j | 0 <= i < |atoms| && 0 <= j < |atoms| && picks[i].id == picks[j].id :: results[i] == results[j])
  }

  // One of the picked runs meets all the atoms.
  ghost predicate OneMeetsAll(atoms: seq<AbstractQuery>, runs: seq<TestRun>, picks: seq<TestRun>, results: seq<int>)
    requires AllStatus(atoms)
  {
    && |picks| == |results|
    && exists r, k :: (r in runs && 0 <= k < |picks| && picks[k].id == r.id
         && forall a | a in atoms :: Asks(a, r) && Accepts(a, results[k]))
  }

  // However the atoms are met by several runs, one run meets them all.
  ghost predicate MetTogether(atoms: seq<AbstractQuery>, runs: seq<TestRun>)
    requires AllStatus(atoms)
  {
    forall picks: seq<TestRun>, results: seq<int> | Picks(atoms, runs, picks, results) ::
      OneMeetsAll(atoms, runs, picks, results)
  }

  lemma AtomHolds(a: AbstractQuery, runs: seq<TestRun>, w: World, t: int)
    requires IsStatus(a)
    ensures Holds(a, runs, w, t) <==> exists r | r in runs :: Asks(a, r) && Accepts(a, w.result(r.id, t))
  {
    if a.AStatusEq? {
      if r :| r in runs && Wanted(a.product, r) && w.result(r.id, t) == a.status {
        assert Asks(a, r) && Accepts(a, w.result(r.id, t));
      }
    } else {
      if r :| r in runs && Wanted(a.product, r) && w.result(r.id, t) != a.status {
        assert Asks(a, r) && Accepts(a, w.result(r.id, t));
      }
    }
  }

  ghost predicate Meets(a: AbstractQuery, r: TestRun, w: World, t: int)
    requires IsStatus(a)
  {
    Asks(a, r) && Accepts(a, w.result(r.id, t))
  }

  ghost predicate MetBySome(a: AbstractQuery, runs: seq<TestRun>, w: World, t: int)
    requires IsStatus(a)
  {
    exists r :: r in runs && Meets(a, r, w, t)
  }

  lemma AllAtOnceMeans(atoms: seq<AbstractQuery>, runs: seq<TestRun>, w: World, t: int)
    requires AllStatus(atoms)
    ensures Holds(AExists([AAnd(atoms)]), runs, w, t) <==> forall a | a in atoms :: MetBySome(a, runs, w, t)
  {
    assert Holds(AExists([AAnd(atoms)]), runs, w, t) == Holds([AAnd(atoms)][0], runs, w, t);
    forall a | a in atoms ensures Holds(a, runs, w, t) <==> MetBySome(a, runs, w, t) {
      AtomHolds(a, runs, w, t);
    }
  }

  lemma OneMeetsMeans(atoms: seq<AbstractQuery>, r: TestRun, w: World, t: int)
    requires AllStatus(atoms)
    ensures Means(AAnd(atoms), [r], w, t) <==> forall a | a in atoms :: Meets(a, r, w, t)
  {
    ThatRun(r);
    forall a | a in atoms ensures Means(a, [r], w, t) <==> Meets(a, r, w, t) {
      AtomHolds(a, [r], w, t);
    }
  }

  lemma OneRunMeans(atoms: seq<AbstractQuery>, runs: seq<TestRun>, w: World, t: int)
    requires AllStatus(atoms)
    ensures Means(AExists([AAnd(atoms)]), runs, w, t)
      <==> exists r :: r in runs && forall a | a in atoms :: Meets(a, r, w, t)
  {
    LoneArgument([AAnd(atoms)]);
    forall r | r in runs ensures Means(AAnd(atoms), [r], w, t) <==> forall a | a in atoms :: Meets(a, r, w, t) {
      OneMeetsMeans(atoms, r, w, t);
    }
  }

  // The documented meaning, for every results table.
  ghost predicate AsDocumented(q: AbstractQuery, runs: seq<TestRun>) {
    forall w, t :: Holds(q, runs, w, t) == Means(q, runs, w, t)
  }

  // A results table made of picks: other is the result of every run not picked.
  function ResultOf(picks: seq<TestRun>, results: seq<int>, other: int, id: int): int
    requires |picks| == |results|
  {
    if picks == [] then other
    else if picks[|picks| - 1].id == id then results[|picks| - 1]
    else ResultOf(picks[..|picks| - 1], results[..|picks| - 1], other, id)
  }

  lemma {:induction false} ResultIsPicked(picks: seq<TestRun>, results: seq<int>, other: int, id: int)
    requires |picks| == |results|
    ensures ResultOf(picks, results, other, id) == other
      || exists k :: 0 <= k < |picks| && picks[k].id == id && results[k] == ResultOf(picks, results, other, id)
    ensures (exists k :: 0 <= k < |picks| && picks[k].id == id) ==>
      exists k :: 0 <= k < |picks| && picks[k].id == id && results[k] == ResultOf(picks, results, other, id)
  {
    if picks != [] && picks[|picks| - 1].id != id {
      ResultIsPicked(picks[..|picks| - 1], results[..|picks| - 1], other, id);
    }
  }

  function WorldOf(picks: seq<TestRun>, results: seq<int>, other: int): World
    requires |picks| == |results|
  {
    World(Fetcher(runs => map[], run => map[]), (id, t) => ResultOf(picks, results, other, id),
          (leaf, t) => false, (pattern, metadata, t) => false, (metadata, t) => false)
  }

  function Refused(a: AbstractQuery): int
    requires IsStatus(a)
  {
    if a.AStatusEq? then a.status + 1 else a.status
  }

  lemma WorldHasResults(picks: seq<TestRun>, results: seq<int>, other: int, id: int)
    requires |picks| == |results|
    ensures WorldOf(picks, results, other).result(id, 0) == ResultOf(picks, results, other, id)
  {
  }

  // Picks make a results table in which every atom is met.
  lemma PicksMeet(atoms: seq<AbstractQuery>, runs: seq<TestRun>, picks: seq<TestRun>, results: seq<int>, other: int,
                  a: AbstractQuery)
    requires AllStatus(atoms) && Picks(atoms, runs, picks, results) && a in atoms
    ensures |picks| == |results| && MetBySome(a, runs, WorldOf(picks, results, other), 0)
  {
    hide WorldOf, ResultOf, Asks, Accepts;
    var i :| 0 <= i < |atoms| && atoms[i] == a;
    ResultIsPicked(picks, results, other, picks[i].id);
    WorldHasResults(picks, results, other, picks[i].id);
    assert Meets(a, picks[i], WorldOf(picks, results, other), 0);
  }

  // If one run then meets them all, it is a picked one.
  lemma MeetsAllIsPicked(
      atoms: seq<AbstractQuery>, runs: seq<TestRun>, picks: seq<TestRun>, results: seq<int>, r: TestRun)
    requires AllStatus(atoms) && atoms != [] && |picks| == |results| && r in runs
    requires forall a | a in atoms :: Meets(a, r, WorldOf(picks, results, Refused(atoms[0])), 0)
    ensures OneMeetsAll(atoms, runs, picks, results)
  {
    hide WorldOf, ResultOf, Asks;
    var other := Refused(atoms[0]);
    ResultIsPicked(picks, results, other, r.id);
    WorldHasResults(picks, results, other, r.id);
    assert atoms[0] in atoms && !Accepts(atoms[0], other);
    var k :| 0 <= k < |picks| && picks[k].id == r.id && results[k] == ResultOf(picks, results, other, r.id);
    assert forall a | a in atoms :: Asks(a, r) && Accepts(a, results[k]);
  }

  lemma PicksMeetAll(atoms: seq<AbstractQuery>, runs: seq<TestRun>, picks: seq<TestRun>, results: seq<int>)
    requires AllStatus(atoms) && atoms != [] && Picks(atoms, runs, picks, results)
    ensures var w := WorldOf(picks, results, Refused(atoms[0]));
      && (forall a | a in atoms :: MetBySome(a, runs, w, 0))
      && ((exists r :: r in runs && forall a | a in atoms :: Meets(a, r, w, 0)) ==>
            OneMeetsAll(atoms, runs, picks, results))
  {
    hide WorldOf, Meets, MetBySome, OneMeetsAll, Refused;
    var w := WorldOf(picks, results, Refused(atoms[0]));
    forall a | a in atoms ensures MetBySome(a, runs, w, 0) {
      PicksMeet(atoms, runs, picks, results, Refused(atoms[0]), a);
    }
    if r :| r in runs && forall a | a in atoms :: Meets(a, r, w, 0) {
      MeetsAllIsPicked(atoms, runs, picks, results, r);
    }
  }

  // The runs that meet the atoms one by one are picks.
  lemma {:induction false} MetArePicks(atoms: seq<AbstractQuery>, runs: seq<TestRun>, w: World, t: int)
    returns (picks: seq<TestRun>)
    requires AllStatus(atoms) && forall a | a in atoms :: MetBySome(a, runs, w, t)
    ensures |picks| == |atoms|
    ensures forall i | 0 <= i < |atoms| :: picks[i] in runs && Meets(atoms[i], picks[i], w, t)
  {
    picks := [];
    if atoms != [] {
      var front, last := atoms[..|atoms| - 1], atoms[|atoms| - 1];
      assert forall a | a in front :: a in atoms;
      assert last in atoms && MetBySome(last, runs, w, t);
      var r :| r in runs && Meets(last, r, w, t);
      picks := MetArePicks(front, runs, w, t);
      picks := picks + [r];
    }
  }

  lemma MetByOne(atoms: seq<AbstractQuery>, runs: seq<TestRun>, w: World, t: int)
    requires AllStatus(atoms) && MetTogether(atoms, runs) && forall a | a in atoms :: MetBySome(a, runs, w, t)
    ensures exists r :: r in runs && forall a | a in atoms :: Meets(a, r, w, t)
  {
    var picks := MetArePicks(atoms, runs, w, t);
    var results := seq(|picks|, i requires 0 <= i < |picks| => w.result(picks[i].id, t));
    assert Picks(atoms, runs, picks, results);
    assert OneMeetsAll(atoms, runs, picks, results);
    var r, k :| r in runs && 0 <= k < |picks| && picks[k].id == r.id
      && forall a | a in atoms :: Asks(a, r) && Accepts(a, results[k]);
    assert forall a | a in atoms :: Meets(a, r, w, t);
  }

  lemma NoneAsExists(args: seq<AbstractQuery>, runs: seq<TestRun>)
    ensures AsDocumented(ANone(args), runs) <==> AsDocumented(AExists(args), runs)
  {
    hide Holds, Means;
    forall w: World, t: int
      ensures Holds(ANone(args), runs, w, t) == !Holds(AExists(args), runs, w, t)
      ensures Means(ANone(args), runs, w, t) == !Means(AExists(args), runs, w, t)
    {
      NoneIsNotExists(args, runs, w, t);
    }
  }

  lemma NoneIsNotExists(args: seq<AbstractQuery>, runs: seq<TestRun>, w: World, t: int)
    ensures Holds(ANone(args), runs, w, t) == !Holds(AExists(args), runs, w, t)
    ensures Means(ANone(args), runs, w, t) == !Means(AExists(args), runs, w, t)
  {
  }

  lemma MetTogetherIsDocumented(atoms: seq<AbstractQuery>, runs: seq<TestRun>, w: World, t: int)
    requires AllStatus(atoms) && MetTogether(atoms, runs)
    ensures Holds(AExists([AAnd(atoms)]), runs, w, t) == Means(AExists([AAnd(atoms)]), runs, w, t)
  {
    hide Holds, Means, MetTogether, Meets, MetBySome, IsStatus;
    AllAtOnceMeans(atoms, runs, w, t);
    OneRunMeans(atoms, runs, w, t);
    MeetsIsMet(atoms, runs, w, t);
    if forall a | a in atoms :: MetBySome(a, runs, w, t) {
      MetByOne(atoms, runs, w, t);
    }
  }

  lemma Documented(q: AbstractQuery, runs: seq<TestRun>, w: World, t: int)
    requires AsDocumented(q, runs)
    ensures Holds(q, runs, w, t) == Means(q, runs, w, t)
  {
  }

  lemma DocumentedMetTogether(
      atoms: seq<AbstractQuery>, runs: seq<TestRun>, picks: seq<TestRun>, results: seq<int>)
    requires AllStatus(atoms) && atoms != [] && AsDocumented(AExists([AAnd(atoms)]), runs)
    requires Picks(atoms, runs, picks, results)
    ensures OneMeetsAll(atoms, runs, picks, results)
  {
    hide Holds, Means, WorldOf, OneMeetsAll, AsDocumented, Meets, MetBySome, Refused;
    var w := WorldOf(picks, results, Refused(atoms[0]));
    PicksMeetAll(atoms, runs, picks, results);
    AllAtOnceMeans(atoms, runs, w, 0);
    OneRunMeans(atoms, runs, w, 0);
    Documented(AExists([AAnd(atoms)]), runs, w, 0);
  }

  lemma DocumentedIffMetTogether(atoms: seq<AbstractQuery>, runs: seq<TestRun>)
    requires AllStatus(atoms) && atoms != []
    ensures AsDocumented(AExists([AAnd(atoms)]), runs) <==> MetTogether(atoms, runs)
  {
    hide Holds, Means, OneMeetsAll, Picks;
    if MetTogether(atoms, runs) {
      forall w: World, t: int
        ensures Holds(AExists([AAnd(atoms)]), runs, w, t) == Means(AExists([AAnd(atoms)]), runs, w, t)
      {
        MetTogetherIsDocumented(atoms, runs, w, t);
      }
    }
    if AsDocumented(AExists([AAnd(atoms)]), runs) {
      forall picks, results | Picks(atoms, runs, picks, results) ensures OneMeetsAll(atoms, runs, picks, results) {
        DocumentedMetTogether(atoms, runs, picks, results);
      }
    }
  }

  lemma MeetsIsMet(atoms: seq<AbstractQuery>, runs: seq<TestRun>, w: World, t: int)
    requires AllStatus(atoms)
    ensures (exists r :: r in runs && forall a | a in atoms :: Meets(a, r, w, t)) ==>
      forall a | a in atoms :: MetBySome(a, runs, w, t)
  {
  }

  // ---- which runs and atoms can mix ----

  // Some result is accepted by both.
  predicate Compatible(a: AbstractQuery, b: AbstractQuery)
    requires IsStatus(a) && IsStatus(b)
  {
    if a.AStatusEq? && b.AStatusEq? then a.status == b.status
    else (a.AStatusNeq? && b.AStatusNeq?) || a.status != b.status
  }

  // Every result that a accepts is accepted by b.
  predicate Implies(a: AbstractQuery, b: AbstractQuery)
    requires IsStatus(a) && IsStatus(b)
  {
    if a.AStatusEq? then Accepts(b, a.status) else b.AStatusNeq? && a.status == b.status
  }

  lemma CompatibleAccepts(a: AbstractQuery, b: AbstractQuery, result: int)
    requires IsStatus(a) && IsStatus(b) && Accepts(a, result)
    ensures Accepts(b, result) ==> Compatible(a, b)
    ensures Implies(a, b) ==> Accepts(b, result)
    ensures a.AStatusEq? && Compatible(a, b) ==> Accepts(b, result)
    ensures a.AStatusEq? && Accepts(b, result) ==> Implies(a, b)
  {
  }

  // A run for each atom, and no two atoms for one run that no result meets both.
  ghost predicate Chosen(atoms: seq<AbstractQuery>, runs: seq<TestRun>, picks: seq<TestRun>)
    requires AllStatus(atoms)
  {
    && |picks| == |atoms|
    && (forall i | 0 <= i < |atoms| :: picks[i] in runs && Asks(atoms[i], picks[i]))
    && (forall i, j | 0 <= i < |atoms| && 0 <= j < |atoms| && picks[i].id == picks[j].id ::
          Compatible(atoms[i], atoms[j]))
  }

  // What was picked for this id implies the atom.
  ghost predicate Settled(atoms: seq<AbstractQuery>, picks: seq<TestRun>, id: int, a: AbstractQuery)
    requires AllStatus(atoms) && IsStatus(a)
  {
    exists i :: 0 <= i < |atoms| && i < |picks| && picks[i].id == id && Implies(atoms[i], a)
  }

  // A picked run answers all the atoms, and what was picked for it implies them.
  ghost predicate OneSettlesAll(atoms: seq<AbstractQuery>, runs: seq<TestRun>, picks: seq<TestRun>)
    requires AllStatus(atoms)
  {
    exists r :: r in runs && forall a | a in atoms :: Asks(a, r) && Settled(atoms, picks, r.id, a)
  }

  // Whichever runs are picked for the atoms, one of them settles them all.
  ghost predicate NeverMixes(atoms: seq<AbstractQuery>, runs: seq<TestRun>)
    requires AllStatus(atoms)
  {
    forall picks: seq<TestRun> | Chosen(atoms, runs, picks) :: OneSettlesAll(atoms, runs, picks)
  }

  lemma PicksAreChosen(atoms: seq<AbstractQuery>, runs: seq<TestRun>, picks: seq<TestRun>, results: seq<int>)
    requires AllStatus(atoms) && Picks(atoms, runs, picks, results)
    ensures Chosen(atoms, runs, picks)
  {
    forall i, j | 0 <= i < |atoms| && 0 <= j < |atoms| && picks[i].id == picks[j].id
      ensures Compatible(atoms[i], atoms[j])
    {
      CompatibleAccepts(atoms[i], atoms[j], results[i]);
    }
  }

  lemma SettlingMeets(atoms: seq<AbstractQuery>, runs: seq<TestRun>, picks: seq<TestRun>, results: seq<int>)
    requires AllStatus(atoms) && atoms != [] && Picks(atoms, runs, picks, results) && OneSettlesAll(atoms, runs, picks)
    ensures OneMeetsAll(atoms, runs, picks, results)
  {
    hide Asks, Implies, Accepts, Compatible;
    var r :| r in runs && forall a | a in atoms :: Asks(a, r) && Settled(atoms, picks, r.id, a);
    assert Settled(atoms, picks, r.id, atoms[0]);
    var k :| 0 <= k < |picks| && picks[k].id == r.id;
    forall a | a in atoms ensures Asks(a, r) && Accepts(a, results[k]) {
      assert Settled(atoms, picks, r.id, a);
      var i :| 0 <= i < |atoms| && picks[i].id == r.id && Implies(atoms[i], a);
      CompatibleAccepts(atoms[i], a, results[i]);
    }
  }

  // A result that no atom asks for.
  function Fresh(atoms: seq<AbstractQuery>): (result: int)
    requires AllStatus(atoms)
    ensures forall a | a in atoms :: a.status < result
  {
    if atoms == [] then 0 else
      var front, last := Fresh(atoms[..|atoms| - 1]), atoms[|atoms| - 1];
      assert last in atoms;
      if last.status < front then front else last.status + 1
  }

  // A result for this id that the atoms picked for it accept, and that some atom
  // does not accept if they can leave one unmet.
  ghost predicate Adverse(atoms: seq<AbstractQuery>, picks: seq<TestRun>, id: int, result: int)
    requires AllStatus(atoms)
  {
    && (forall i | 0 <= i < |atoms| && i < |picks| && picks[i].id == id :: Accepts(atoms[i], result))
    && ((forall a | a in atoms :: Accepts(a, result)) ==> forall a | a in atoms :: Settled(atoms, picks, id, a))
  }

  lemma AdverseExists(atoms: seq<AbstractQuery>, runs: seq<TestRun>, picks: seq<TestRun>, id: int)
    requires AllStatus(atoms) && Chosen(atoms, runs, picks)
    ensures exists result :: Adverse(atoms, picks, id, result)
  {
    if i :| 0 <= i < |atoms| && picks[i].id == id && atoms[i].AStatusEq? {
      AdverseAtEquality(atoms, runs, picks, i);
    } else if a :| a in atoms && !Settled(atoms, picks, id, a) && a.AStatusNeq? {
      AdverseAtInequality(atoms, picks, id, a);
    } else {
      AdverseElsewhere(atoms, picks, id);
    }
  }

  lemma AdverseElsewhere(atoms: seq<AbstractQuery>, picks: seq<TestRun>, id: int)
    requires AllStatus(atoms) && |picks| == |atoms|
    requires forall i | 0 <= i < |atoms| && picks[i].id == id :: atoms[i].AStatusNeq?
    requires forall a | a in atoms && a.AStatusNeq? :: Settled(atoms, picks, id, a)
    ensures Adverse(atoms, picks, id, Fresh(atoms))
  {
    hide Settled, Fresh;
    assert forall i | 0 <= i < |atoms| :: atoms[i] in atoms && atoms[i].status != Fresh(atoms);
  }

  lemma AdverseAtEquality(atoms: seq<AbstractQuery>, runs: seq<TestRun>, picks: seq<TestRun>, i: nat)
    requires AllStatus(atoms) && Chosen(atoms, runs, picks) && i < |atoms| && atoms[i].AStatusEq?
    ensures Adverse(atoms, picks, picks[i].id, atoms[i].status)
  {
    hide Asks, Implies;
    var result := atoms[i].status;
    assert Accepts(atoms[i], result);
    forall j | 0 <= j < |atoms| && picks[j].id == picks[i].id ensures Accepts(atoms[j], result) {
      CompatibleAccepts(atoms[i], atoms[j], result);
    }
    forall a | a in atoms && Accepts(a, result) ensures Settled(atoms, picks, picks[i].id, a) {
      CompatibleAccepts(atoms[i], a, result);
    }
  }

  lemma AdverseAtInequality(atoms: seq<AbstractQuery>, picks: seq<TestRun>, id: int, a: AbstractQuery)
    requires AllStatus(atoms) && |picks| == |atoms|
    requires forall i | 0 <= i < |atoms| && picks[i].id == id :: atoms[i].AStatusNeq?
    requires a in atoms && a.AStatusNeq? && !Settled(atoms, picks, id, a)
    ensures Adverse(atoms, picks, id, a.status)
  {
    forall i | 0 <= i < |atoms| && picks[i].id == id ensures Accepts(atoms[i], a.status) {
      assert !Implies(atoms[i], a);
    }
    assert !Accepts(a, a.status);
  }

  ghost function AdverseResult(atoms: seq<AbstractQuery>, runs: seq<TestRun>, picks: seq<TestRun>, id: int)
    : (result: int)
    requires AllStatus(atoms) && Chosen(atoms, runs, picks)
    ensures Adverse(atoms, picks, id, result)
  {
    AdverseExists(atoms, runs, picks, id);
    var result :| Adverse(atoms, picks, id, result);
    result
  }

  lemma AdversePicks(atoms: seq<AbstractQuery>, runs: seq<TestRun>, picks: seq<TestRun>)
    returns (results: seq<int>)
    requires AllStatus(atoms) && Chosen(atoms, runs, picks)
    ensures Picks(atoms, runs, picks, results)
    ensures forall i | 0 <= i < |atoms| :: Adverse(atoms, picks, picks[i].id, results[i])
  {
    hide Asks, Accepts, Compatible, Adverse;
    results := seq(|picks|, i requires 0 <= i < |picks| => AdverseResult(atoms, runs, picks, picks[i].id));
    forall i | 0 <= i < |atoms|
      ensures Adverse(atoms, picks, picks[i].id, results[i]) && Accepts(atoms[i], results[i])
    {
      AdverseIsAccepted(atoms, picks, i, results[i]);
    }
  }

  lemma AdverseIsAccepted(atoms: seq<AbstractQuery>, picks: seq<TestRun>, i: nat, result: int)
    requires AllStatus(atoms) && i < |atoms| == |picks| && Adverse(atoms, picks, picks[i].id, result)
    ensures Accepts(atoms[i], result)
  {
    hide Accepts, Settled;
  }

  lemma AdverseMeetsSettle(
      atoms: seq<AbstractQuery>, runs: seq<TestRun>, picks: seq<TestRun>, results: seq<int>)
    requires AllStatus(atoms) && OneMeetsAll(atoms, runs, picks, results)
    requires forall i | 0 <= i < |picks| :: Adverse(atoms, picks, picks[i].id, results[i])
    ensures OneSettlesAll(atoms, runs, picks)
  {
    hide Asks, Accepts, Settled, IsStatus;
    var r, k :| r in runs && 0 <= k < |picks| && picks[k].id == r.id
      && forall a | a in atoms :: Asks(a, r) && Accepts(a, results[k]);
    assert Adverse(atoms, picks, r.id, results[k]);
  }

  lemma PicksMatch(atoms: seq<AbstractQuery>, runs: seq<TestRun>, picks: seq<TestRun>, results: seq<int>)
    requires AllStatus(atoms) && Picks(atoms, runs, picks, results)
    ensures |picks| == |results| == |atoms|
  {
  }

  // Without looking at results.
  lemma MetTogetherIff(atoms: seq<AbstractQuery>, runs: seq<TestRun>)
    requires AllStatus(atoms) && atoms != []
    ensures MetTogether(atoms, runs) <==> NeverMixes(atoms, runs)
  {
    hide Picks, Chosen, OneMeetsAll, OneSettlesAll, Adverse;
    if NeverMixes(atoms, runs) {
      forall picks, results | Picks(atoms, runs, picks, results) ensures OneMeetsAll(atoms, runs, picks, results) {
        PicksAreChosen(atoms, runs, picks, results);
        SettlingMeets(atoms, runs, picks, results);
      }
    }
    if MetTogether(atoms, runs) {
      forall picks | Chosen(atoms, runs, picks) ensures OneSettlesAll(atoms, runs, picks) {
        var results := AdversePicks(atoms, runs, picks);
        assert OneMeetsAll(atoms, runs, picks, results);
        PicksMatch(atoms, runs, picks, results);
        AdverseMeetsSettle(atoms, runs, picks, results);
      }
    }
  }

  // A lone conjunction of status atoms means what the documentation says, for
  // every results table, exactly when whichever runs are picked for its atoms, one
  // of the runs answers and settles them all.
  lemma ConjunctionDocumentedIff(atoms: seq<AbstractQuery>, runs: seq<TestRun>)
    requires AllStatus(atoms) && atoms != []
    ensures AsDocumented(AExists([AAnd(atoms)]), runs) <==> NeverMixes(atoms, runs)
    ensures AsDocumented(ANone([AAnd(atoms)]), runs) <==> NeverMixes(atoms, runs)
  {
    hide AsDocumented, MetTogether, NeverMixes;
    NoneAsExists([AAnd(atoms)], runs);
    DocumentedIffMetTogether(atoms, runs);
    MetTogetherIff(atoms, runs);
  }

  // ---- two status atoms ----

  ghost predicate AnswersBoth(a: AbstractQuery, b: AbstractQuery, runs: seq<TestRun>, id: int)
    requires IsStatus(a) && IsStatus(b)
  {
    exists r :: r in runs && r.id == id && Asks(a, r) && Asks(b, r)
  }

  // Runs x and y, picked for a and b, leave no way but that one run meets both.
  ghost predicate MeetBoth(a: AbstractQuery, b: AbstractQuery, runs: seq<TestRun>, x: TestRun, y: TestRun)
    requires IsStatus(a) && IsStatus(b)
  {
    if x.id == y.id then Compatible(a, b) ==> AnswersBoth(a, b, runs, x.id)
    else (Implies(a, b) && AnswersBoth(a, b, runs, x.id)) || (Implies(b, a) && AnswersBoth(a, b, runs, y.id))
  }

  lemma ImpliesItself(a: AbstractQuery, b: AbstractQuery)
    requires IsStatus(a) && IsStatus(b)
    ensures Implies(a, a) && Compatible(a, a) && (Compatible(a, b) <==> Compatible(b, a))
  {
  }

  lemma SettledByTwo(a: AbstractQuery, b: AbstractQuery, x: TestRun, y: TestRun, id: int, c: AbstractQuery)
    requires IsStatus(a) && IsStatus(b) && IsStatus(c)
    ensures Settled([a, b], [x, y], id, c) <==> (x.id == id && Implies(a, c)) || (y.id == id && Implies(b, c))
  {
    hide Implies;
    var atoms, picks := [a, b], [x, y];
    assert x.id == id && Implies(a, c) ==> picks[0].id == id && Implies(atoms[0], c);
    assert y.id == id && Implies(b, c) ==> picks[1].id == id && Implies(atoms[1], c);
  }

  lemma TwoAreChosen(a: AbstractQuery, b: AbstractQuery, runs: seq<TestRun>, x: TestRun, y: TestRun)
    requires IsStatus(a) && IsStatus(b) && x in runs && y in runs && Asks(a, x) && Asks(b, y)
    ensures Chosen([a, b], runs, [x, y]) <==> (x.id == y.id ==> Compatible(a, b))
  {
    ImpliesItself(a, b);
    ImpliesItself(b, a);
    hide Asks, Compatible;
    var atoms, picks := [a, b], [x, y];
    assert atoms[0] == a && atoms[1] == b && picks[0] == x && picks[1] == y;
  }

  lemma OneSettlesTwo(a: AbstractQuery, b: AbstractQuery, runs: seq<TestRun>, x: TestRun, y: TestRun)
    requires IsStatus(a) && IsStatus(b)
    ensures OneSettlesAll([a, b], runs, [x, y]) <==>
      || (AnswersBoth(a, b, runs, x.id) && (Implies(a, b) || x.id == y.id))
      || (AnswersBoth(a, b, runs, y.id) && (Implies(b, a) || x.id == y.id))
  {
    ImpliesItself(a, b);
    ImpliesItself(b, a);
    hide Asks, Implies, Settled;
    var atoms := [a, b];
    assert atoms[0] == a && atoms[1] == b && a in atoms && b in atoms && forall c | c in atoms :: c == a || c == b;
    forall id, c | c in atoms
      ensures Settled([a, b], [x, y], id, c) <==> (x.id == id && Implies(a, c)) || (y.id == id && Implies(b, c))
    {
      SettledByTwo(a, b, x, y, id, c);
    }
  }

  lemma TwoSettle(a: AbstractQuery, b: AbstractQuery, runs: seq<TestRun>, x: TestRun, y: TestRun)
    requires IsStatus(a) && IsStatus(b) && x in runs && y in runs && Asks(a, x) && Asks(b, y)
    ensures (Chosen([a, b], runs, [x, y]) ==> OneSettlesAll([a, b], runs, [x, y])) <==> MeetBoth(a, b, runs, x, y)
  {
    hide Asks, Implies, Compatible, AnswersBoth, Chosen, OneSettlesAll;
    TwoAreChosen(a, b, runs, x, y);
    OneSettlesTwo(a, b, runs, x, y);
  }

  // For two atoms, equal to a status or not: exactly when any two runs they ask
  // about leave no way to meet them but by one run.
  lemma TwoStatusesDocumentedIff(a: AbstractQuery, b: AbstractQuery, runs: seq<TestRun>)
    requires IsStatus(a) && IsStatus(b)
    ensures AsDocumented(AExists([AAnd([a, b])]), runs)
      <==> forall x, y | x in runs && y in runs && Asks(a, x) && Asks(b, y) :: MeetBoth(a, b, runs, x, y)
  {
    assert AllStatus([a, b]);
    hide *;
    ConjunctionDocumentedIff([a, b], runs);
    if NeverMixes([a, b], runs) {
      forall x, y | x in runs && y in runs && Asks(a, x) && Asks(b, y) ensures MeetBoth(a, b, runs, x, y) {
        TwoNeverMix(a, b, runs, x, y);
      }
    }
    if forall x, y | x in runs && y in runs && Asks(a, x) && Asks(b, y) :: MeetBoth(a, b, runs, x, y) {
      NeverMixTwo(a, b, runs);
    }
  }

  lemma TwoNeverMix(a: AbstractQuery, b: AbstractQuery, runs: seq<TestRun>, x: TestRun, y: TestRun)
    requires IsStatus(a) && IsStatus(b) && x in runs && y in runs && Asks(a, x) && Asks(b, y)
    requires NeverMixes([a, b], runs)
    ensures MeetBoth(a, b, runs, x, y)
  {
    hide Asks, MeetBoth, OneSettlesAll, Chosen;
    TwoSettle(a, b, runs, x, y);
  }

  lemma NeverMixTwo(a: AbstractQuery, b: AbstractQuery, runs: seq<TestRun>)
    requires IsStatus(a) && IsStatus(b)
    requires forall x, y | x in runs && y in runs && Asks(a, x) && Asks(b, y) :: MeetBoth(a, b, runs, x, y)
    ensures NeverMixes([a, b], runs)
  {
    hide Asks, MeetBoth, OneSettlesAll, Chosen;
    forall picks | Chosen([a, b], runs, picks) ensures OneSettlesAll([a, b], runs, picks) {
      ChosenOfTwo(a, b, runs, picks);
      TwoSettle(a, b, runs, picks[0], picks[1]);
    }
  }

  lemma ChosenOfTwo(a: AbstractQuery, b: AbstractQuery, runs: seq<TestRun>, picks: seq<TestRun>)
    requires IsStatus(a) && IsStatus(b) && Chosen([a, b], runs, picks)
    ensures |picks| == 2 && picks == [picks[0], picks[1]]
    ensures picks[0] in runs && picks[1] in runs && Asks(a, picks[0]) && Asks(b, picks[1])
  {
    assert [a, b][0] == a && [a, b][1] == b;
  }

  // So two runs can satisfy together what neither satisfies.
  lemma LoneExistsMixesRuns(x: TestRun, y: TestRun, s: int, s': int)
    requires x.id != y.id && s != s'
    ensures !AsDocumented(AExists([AAnd([AStatusEq(None, s), AStatusEq(None, s')])]), [x, y])
  {
    var a, b, runs := AStatusEq(None, s), AStatusEq(None, s'), [x, y];
    TwoStatusesDocumentedIff(a, b, runs);
    hide AsDocumented;
    assert runs[0] in runs && runs[1] in runs && Asks(a, x) && Asks(b, y) && !MeetBoth(a, b, runs, x, y);
  }
}
