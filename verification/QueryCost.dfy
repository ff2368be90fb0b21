// What the size of a bound plan counts.
module QueryCost {
  import opened Query
  import opened QuerySize
  import opened Collections

  // A plan and all plans within it.
  ghost function Nodes(q: ConcreteQuery): seq<ConcreteQuery>
    decreases q, 1
  {
    [q] + match q
          case CCount(_, args) => AllNodes(args)
          case CMoreThan(_, args) => AllNodes(args)
          case CLessThan(_, args) => AllNodes(args)
          case CNot(arg) => Nodes(arg)
          case COr(args) => AllNodes(args)
          case CAnd(args) => AllNodes(args)
          case _ => []
  }

  ghost function AllNodes(args: seq<ConcreteQuery>): seq<ConcreteQuery>
    decreases args, 0
  {
    if args == [] then [] else AllNodes(args[..|args| - 1]) + Nodes(args[|args| - 1])
  }

  ghost predicate IsUnit(q: ConcreteQuery) {
    || q.CLink? || q.CTriaged? || q.CStatusEq? || q.CStatusNeq? || q.CNot?
    || (q.CLeaf? && !q.leaf.SubtestNamePattern?)
  }

  ghost predicate MatchesSubtests(q: ConcreteQuery) {
    q.CLeaf? && q.leaf.SubtestNamePattern?
  }

  ghost function Cost(nodes: seq<ConcreteQuery>): nat {
    |Places(nodes, IsUnit)| + 48 * |Places(nodes, MatchesSubtests)|
  }

  lemma CostAppend(a: seq<ConcreteQuery>, b: seq<ConcreteQuery>)
    ensures Cost(a + b) == Cost(a) + Cost(b)
  {
    PlacesAppend(a, b, IsUnit);
    PlacesAppend(a, b, MatchesSubtests);
  }

  lemma CostOfOne(q: ConcreteQuery)
    ensures Cost([q]) == (if IsUnit(q) then 1 else 0) + (if MatchesSubtests(q) then 48 else 0)
  {
    assert [] + [q] == [q];
    PlacesOneMore([], q, IsUnit);
    PlacesOneMore([], q, MatchesSubtests);
    assert Places([], IsUnit) == {} && Places([], MatchesSubtests) == {};
  }

  // A plan costs one for each atom and each negation anywhere in it, and 48 for
  // each subtest pattern.
  lemma {:induction false} SizeIsCost(q: ConcreteQuery)
    ensures Size(q) == Cost(Nodes(q))
    decreases q, 1
  {
    hide Cost;
    CostOfOne(q);
    CostAppend([q], Nodes(q)[1..]);
    assert Nodes(q) == [q] + Nodes(q)[1..];
    NoCost();
    match q
    case CCount(_, args) => SizesAreCost(args);
    case CMoreThan(_, args) => SizesAreCost(args);
    case CLessThan(_, args) => SizesAreCost(args);
    case CNot(arg) => SizeIsCost(arg);
    case COr(args) => SizesAreCost(args);
    case CAnd(args) => SizesAreCost(args);
    case _ =>
  }

  lemma {:induction false} SizesAreCost(args: seq<ConcreteQuery>)
    ensures Sizes(args) == Cost(AllNodes(args))
    decreases args, 0
  {
    hide Cost;
    NoCost();
    if args != [] {
      SizesAreCost(args[..|args| - 1]);
      SizeIsCost(args[|args| - 1]);
      CostAppend(AllNodes(args[..|args| - 1]), Nodes(args[|args| - 1]));
    }
  }

  lemma NoCost()
    ensures Cost([]) == 0
  {
    assert Places([], IsUnit) == {} && Places([], MatchesSubtests) == {};
  }
}
