// Sums over finite sets.
module FiniteSums {
  ghost function Sum<T>(s: set<T>, f: T -> int): int {
    if s == {} then 0 else
      var x :| x in s;
      f(x) + Sum(s - {x}, f)
  }

  // The order of summation does not matter.
  lemma {:induction false} SumWithout<T>(s: set<T>, f: T -> int, x: T)
    requires x in s
    ensures Sum(s, f) == f(x) + Sum(s - {x}, f)
  {
    var y :| y in s && Sum(s, f) == f(y) + Sum(s - {y}, f);
    if y != x {
      SumWithout(s - {y}, f, x);
      SumWithout(s - {x}, f, y);
      assert s - {y} - {x} == s - {x} - {y};
    }
  }

  lemma SumWith<T>(s: set<T>, f: T -> int, x: T)
    requires x !in s
    ensures Sum(s + {x}, f) == Sum(s, f) + f(x)
  {
    assert s + {x} - {x} == s;
    SumWithout(s + {x}, f, x);
  }

  lemma {:induction false} SumEqual<T>(s: set<T>, f: T -> int, g: T -> int)
    requires forall x | x in s :: f(x) == g(x)
    ensures Sum(s, f) == Sum(s, g)
  {
    if s != {} {
      var x :| x in s;
      SumWithout(s, f, x);
      SumWithout(s, g, x);
      SumEqual(s - {x}, f, g);
    }
  }

  lemma {:induction false} SumPlus<T>(s: set<T>, f: T -> int, g: T -> int, h: T -> int)
    requires forall x | x in s :: f(x) == g(x) + h(x)
    ensures Sum(s, f) == Sum(s, g) + Sum(s, h)
  {
    if s != {} {
      var x :| x in s;
      SumWithout(s, f, x);
      SumWithout(s, g, x);
      SumWithout(s, h, x);
      SumPlus(s - {x}, f, g, h);
    }
  }

  // Elements that count for nothing may be added to the set.
  lemma {:induction false} SumOver<T>(s: set<T>, t: set<T>, f: T -> int)
    requires s <= t && forall x | x in t - s :: f(x) == 0
    ensures Sum(s, f) == Sum(t, f)
  {
    if t - s != {} {
      var x :| x in t - s;
      SumWithout(t, f, x);
      SumOver(s, t - {x}, f);
    } else {
      assert forall x | x in t :: x !in t - s;
      assert s == t;
    }
  }

  // Renaming the elements one to one leaves the sum.
  lemma {:induction false} SumRenamed<T, U>(s: set<T>, t: set<U>, f: T -> int, g: U -> int, rename: T -> U)
    requires forall x, y | x in s && y in s :: rename(x) == rename(y) ==> x == y
    requires forall x | x in s :: rename(x) in t && f(x) == g(rename(x))
    requires forall y | y in t :: exists x :: x in s && rename(x) == y
    ensures Sum(s, f) == Sum(t, g)
  {
    if s != {} {
      var x :| x in s;
      SumWithout(s, f, x);
      SumWithout(t, g, rename(x));
      SumRenamed(s - {x}, t - {rename(x)}, f, g, rename);
    } else {
      assert t == {};
    }
  }

  lemma {:induction false} SumOfZeros<T>(s: set<T>, f: T -> int)
    requires forall x | x in s :: f(x) == 0
    ensures Sum(s, f) == 0
  {
    SumOver({}, s, f);
  }

  ghost function Part<T, U>(s: set<T>, group: T -> U, g: U): set<T> {
    set x | x in s && group(x) == g
  }

  lemma PartWithout<T, U>(s: set<T>, group: T -> U, g: U, x: T)
    requires x in s
    ensures Part(s - {x}, group, g) == if group(x) == g then Part(s, group, g) - {x} else Part(s, group, g)
  {
  }

  // Summing group by group is summing over everything.
  lemma {:induction false} SumInGroups<T, U>(s: set<T>, f: T -> int, group: T -> U, groups: set<U>, sums: U -> int)
    requires forall x | x in s :: group(x) in groups
    requires forall g | g in groups :: sums(g) == Sum(Part(s, group, g), f)
    ensures Sum(groups, sums) == Sum(s, f)
  {
    if s == {} {
      forall g | g in groups ensures sums(g) == 0 {
        assert Part(s, group, g) == {};
      }
      SumOfZeros(groups, sums);
    } else {
      var x :| x in s;
      var fewer := (g: U) => sums(g) - (if g == group(x) then f(x) else 0);
      forall g | g in groups ensures fewer(g) == Sum(Part(s - {x}, group, g), f) {
        PartWithout(s, group, g, x);
        if g == group(x) {
          SumWithout(Part(s, group, g), f, x);
        }
      }
      SumInGroups(s - {x}, f, group, groups, fewer);
      SumWithout(s, f, x);
      SumEqual(groups - {group(x)}, fewer, sums);
      SumWithout(groups, fewer, group(x));
      SumWithout(groups, sums, group(x));
    }
  }
}
