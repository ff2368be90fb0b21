// Lexicographic string order and sort.Strings, enough to make a set of labels
// print in exactly one way.
module StringOrder {
  import opened Collections

  predicate Le(a: string, b: string) {
    a == "" || (b != "" && (a[0] < b[0] || (a[0] == b[0] && Le(a[1..], b[1..]))))
  }

  lemma {:induction false} LeTotal(a: string, b: string)
    ensures Le(a, b) || Le(b, a)
    ensures Le(a, b) && Le(b, a) ==> a == b
  {
    if a != "" && b != "" && a[0] == b[0] {
      LeTotal(a[1..], b[1..]);
      assert a == [a[0]] + a[1..] && b == [b[0]] + b[1..];
    }
  }

  lemma {:induction false} LeTransitive(a: string, b: string, c: string)
    requires Le(a, b) && Le(b, c)
    ensures Le(a, c)
  {
    if a != "" && a[0] == b[0] == c[0] {
      LeTransitive(a[1..], b[1..], c[1..]);
    }
  }

  ghost predicate Sorted(items: seq<string>) {
    forall i, j :: 0 <= i < j < |items| ==> Le(items[i], items[j])
  }

  ghost predicate IsLeast(m: string, s: set<string>) {
    m in s && forall x | x in s :: Le(m, x)
  }

  lemma {:induction false} LeastExists(s: set<string>)
    requires s != {}
    ensures exists m :: IsLeast(m, s)
    decreases |s|
  {
    var x :| x in s;
    LeTotal(x, x);
    if s == {x} {
      assert IsLeast(x, s);
    } else {
      assert s - {x} != {} by { assert !(s <= {x}); }
      LeastExists(s - {x});
      var m' :| IsLeast(m', s - {x});
      LeTotal(x, m');
      var m := if Le(x, m') then x else m';
      forall y | y in s ensures Le(m, y) {
        if y != x && m == x { LeTransitive(x, m', y); }
      }
      assert IsLeast(m, s);
    }
  }

  // The one ascending listing of a set.
  ghost function Arrange(s: set<string>): (items: seq<string>)
    ensures |items| == |s|
    ensures forall x :: x in items <==> x in s
    decreases |s|
  {
    if s == {} then [] else
      LeastExists(s);
      var m :| IsLeast(m, s);
      [m] + Arrange(s - {m})
  }

  ghost predicate Lists(items: seq<string>, s: set<string>) {
    |items| == |s| && forall x :: x in items <==> x in s
  }

  lemma LeastUnique(m: string, n: string, s: set<string>)
    requires IsLeast(m, s) && IsLeast(n, s)
    ensures m == n
  {
    LeTotal(m, n);
  }

  lemma ArrangeStep(s: set<string>) returns (m: string)
    requires s != {}
    ensures IsLeast(m, s) && Arrange(s) == [m] + Arrange(s - {m})
  {
    LeastExists(s);
    m :| IsLeast(m, s) && Arrange(s) == [m] + Arrange(s - {m});
  }

  lemma HeadIsLeast(items: seq<string>, s: set<string>)
    requires Sorted(items) && Lists(items, s) && items != []
    ensures IsLeast(items[0], s)
  {
    forall x | x in s ensures Le(items[0], x) {
      LeTotal(x, x);
      var i :| 0 <= i < |items| && items[i] == x;
    }
  }

  lemma {:induction false} ArrangeUnique(items: seq<string>, s: set<string>)
    requires Sorted(items) && Lists(items, s)
    ensures items == Arrange(s)
    decreases |s|
  {
    if items == [] {
      assert s == {};
    } else {
      HeadIsLeast(items, s);
      var m := ArrangeStep(s);
      LeastUnique(items[0], m, s);
      HeadOnce(items, s);
      ArrangeUnique(items[1..], s - {m});
    }
  }

  lemma HeadOnce(items: seq<string>, s: set<string>)
    requires Lists(items, s) && items != []
    ensures Lists(items[1..], s - {items[0]})
  {
    var rest := SetOf(items[1..]);
    SetOfSize(items[1..]);
    assert items == [items[0]] + items[1..];
    assert s == rest + {items[0]};
    var x := items[0];
    assert x in rest ==> rest + {x} == rest;
    assert s - {items[0]} == rest;
  }

  // sort.Strings, by insertion.
  method SortStrings(items: seq<string>) returns (sorted: seq<string>)
    ensures Sorted(sorted)
    ensures multiset(sorted) == multiset(items)
  {
    sorted := [];
    for i := 0 to |items|
      invariant Sorted(sorted)
      invariant multiset(sorted) == multiset(items[..i])
    {
      assert items[..i + 1] == items[..i] + [items[i]];
      sorted := Insert(sorted, items[i]);
    }
    assert items[..|items|] == items;
  }

  method Insert(sorted: seq<string>, x: string) returns (r: seq<string>)
    requires Sorted(sorted)
    ensures Sorted(r)
    ensures multiset(r) == multiset(sorted) + multiset{x}
  {
    hide Le;
    var k := 0;
    while k < |sorted| && Le(sorted[k], x)
      invariant 0 <= k <= |sorted|
      invariant forall j :: 0 <= j < k ==> Le(sorted[j], x)
    {
      k := k + 1;
    }
    r := sorted[..k] + [x] + sorted[k..];
    InsertedAt(sorted, x, k);
  }

  lemma InsertedAt(sorted: seq<string>, x: string, k: nat)
    requires Sorted(sorted) && k <= |sorted|
    requires forall j :: 0 <= j < k ==> Le(sorted[j], x)
    requires k < |sorted| ==> !Le(sorted[k], x)
    ensures Sorted(sorted[..k] + [x] + sorted[k..])
    ensures multiset(sorted[..k] + [x] + sorted[k..]) == multiset(sorted) + multiset{x}
  {
    hide Le;
    assert sorted == sorted[..k] + sorted[k..];
    forall j | k <= j < |sorted| ensures Le(x, sorted[j]) {
      LeTotal(x, sorted[k]);
      if k < j { LeTransitive(x, sorted[k], sorted[j]); }
    }
  }
}
