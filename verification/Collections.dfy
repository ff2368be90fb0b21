// Sets, lists and maps: what the other modules share.
module Collections {
  import opened Wrappers

  function Lookup<K, V>(m: map<K, V>, k: K): Option<V> {
    if k in m then Some(m[k]) else None
  }

  // ---- the elements of a list ----

  function SetOf<T>(items: seq<T>): set<T> {
    set x | x in items
  }

  lemma SetOfOneMore<T>(items: seq<T>, i: nat)
    requires i < |items|
    ensures SetOf(items[..i + 1]) == SetOf(items[..i]) + {items[i]}
    ensures items[i] in items
  {
    assert items[..i + 1] == items[..i] + [items[i]];
  }

  lemma {:induction false} SetOfSize<T>(items: seq<T>)
    ensures |SetOf(items)| <= |items|
  {
    if items != [] {
      SetOfSize(items[..|items| - 1]);
      SetOfOneMore(items, |items| - 1);
      assert items[..|items| - 1 + 1] == items;
    }
  }

  lemma SetOfEnds<T>(items: seq<T>)
    ensures SetOf(items[..0]) == {} && items[..|items|] == items
    ensures |SetOf(items)| <= |items|
  {
    SetOfSize(items);
  }

  lemma SameElements<T>(a: seq<T>, b: seq<T>)
    requires multiset(a) == multiset(b)
    ensures SetOf(a) == SetOf(b) && |a| == |b|
    ensures forall x :: x in a <==> x in b
  {
    assert forall x :: x in a <==> x in multiset(a);
    assert forall x :: x in b <==> x in multiset(b);
    assert |a| == |multiset(a)|;
  }

  // ---- how many elements there are of some kind ----

  ghost function Places<T>(items: seq<T>, p: T -> bool): set<int> {
    set i | 0 <= i < |items| && p(items[i])
  }

  lemma PlacesOneMore<T>(items: seq<T>, x: T, p: T -> bool)
    ensures |Places(items + [x], p)| == |Places(items, p)| + (if p(x) then 1 else 0)
  {
    var n := |items|;
    if p(x) {
      assert Places(items + [x], p) == Places(items, p) + {n};
    } else {
      assert Places(items + [x], p) == Places(items, p);
    }
  }

  lemma {:induction false} PlacesAppend<T>(a: seq<T>, b: seq<T>, p: T -> bool)
    ensures |Places(a + b, p)| == |Places(a, p)| + |Places(b, p)|
  {
    if b == [] {
      assert a + b == a;
    } else {
      var front, last := b[..|b| - 1], b[|b| - 1];
      assert b == front + [last] && a + b == (a + front) + [last];
      PlacesAppend(a, front, p);
      PlacesOneMore(a + front, last, p);
      PlacesOneMore(front, last, p);
    }
  }

  // Ranging over a set yields every element once, in no particular order.
  method ListSet<T(==)>(s: set<T>) returns (items: seq<T>)
    ensures SetOf(items) == s && multiset(items) == multiset(s) && |items| == |s|
  {
    items := [];
    var todo := s;
    while todo != {}
      invariant todo <= s && SetOf(items) == s - todo && |items| == |s| - |todo|
      invariant multiset(items) == multiset(s - todo)
      decreases todo
    {
      var x :| x in todo;
      assert s - (todo - {x}) == s - todo + {x};
      assert multiset(s - todo + {x}) == multiset(s - todo) + multiset{x};
      items, todo := items + [x], todo - {x};
    }
    assert s - todo == s;
  }

  lemma SubsetSize<T>(a: set<T>, b: set<T>)
    requires a <= b
    ensures |a| <= |b|
    ensures |a| == |b| ==> a == b
  {
    assert b == a + (b - a);
  }

  // ---- loops over all keys ----

  // Done is all without what is still to do.
  lemma OneLessToDo<T>(all: set<T>, todo: set<T>, x: T)
    requires x in todo && todo <= all
    ensures all - todo + {x} == all - (todo - {x})
  {
  }

  lemma AllDone<T>(all: set<T>)
    ensures all - {} == all && all - all == {}
  {
  }
}
