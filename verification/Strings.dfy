// The fragment of Go's strings package that the parsers and printers use.
module Strings {

  predicate HasPrefix(s: string, p: string) {
    p <= s
  }

  predicate HasSuffix(s: string, suffix: string) {
    |suffix| <= |s| && s[|s| - |suffix|..] == suffix
  }

  // Index of the first c in s.
  function IndexOf(s: string, c: char): (i: nat)
    requires c in s
    ensures i < |s| && s[i] == c && c !in s[..i]
  {
    if s[0] == c then 0 else
      var rest := IndexOf(s[1..], c);
      assert s[..1 + rest] == [s[0]] + s[1..][..rest];
      1 + rest
  }

  // strings.Split with a one-character separator.
  function Split(s: string, c: char): (parts: seq<string>)
    ensures |parts| >= 1
    decreases |s|
  {
    if c !in s then [s] else
      var i := IndexOf(s, c);
      [s[..i]] + Split(s[i + 1..], c)
  }

  // strings.Join.
  function Join(parts: seq<string>, sep: string): string {
    if |parts| == 0 then ""
    else if |parts| == 1 then parts[0]
    else parts[0] + sep + Join(parts[1..], sep)
  }

  function TrimLeft(s: string, drop: char -> bool): string {
    if s != "" && drop(s[0]) then TrimLeft(s[1..], drop) else s
  }

  function TrimRight(s: string, drop: char -> bool): string {
    if s != "" && drop(s[|s| - 1]) then TrimRight(s[..|s| - 1], drop) else s
  }

  // Only characters to drop are taken from the ends, and none is left there.
  lemma {:induction false} TrimIsExact(s: string, drop: char -> bool)
    ensures var kept := TrimRight(TrimLeft(s, drop), drop);
      && (kept != "" ==> !drop(kept[0]) && !drop(kept[|kept| - 1]))
      && exists i: nat :: Surrounded(s, i, kept, drop)
  {
    hide TrimLeft, TrimRight;
    TrimsLeft(s, drop);
    var rest := TrimLeft(s, drop);
    TrimsRight(rest, drop);
    var i, kept := |s| - |rest|, TrimRight(rest, drop);
    assert s[i + |kept|..] == rest[|kept|..];
    assert s[i..i + |kept|] == rest[..|kept|] == kept;
    assert Surrounded(s, i, kept, drop);
  }

  // kept stands at i in s, with only characters to drop before and after it.
  ghost predicate Surrounded(s: string, i: nat, kept: string, drop: char -> bool) {
    && i + |kept| <= |s| && s[i..i + |kept|] == kept
    && (forall c | c in s[..i] :: drop(c)) && (forall c | c in s[i + |kept|..] :: drop(c))
  }

  lemma {:induction false} TrimsLeft(s: string, drop: char -> bool)
    ensures var rest := TrimLeft(s, drop);
      && |rest| <= |s| && s == s[..|s| - |rest|] + rest
      && (rest != "" ==> !drop(rest[0])) && forall c | c in s[..|s| - |rest|] :: drop(c)
  {
    if s != "" && drop(s[0]) {
      TrimsLeft(s[1..], drop);
      var rest := TrimLeft(s, drop);
      assert s[..|s| - |rest|] == [s[0]] + s[1..][..|s| - 1 - |rest|];
    }
  }

  lemma {:induction false} TrimsRight(s: string, drop: char -> bool)
    ensures var rest := TrimRight(s, drop);
      && |rest| <= |s| && s == rest + s[|rest|..]
      && (rest != "" ==> rest[0] == s[0] && !drop(rest[|rest| - 1])) && forall c | c in s[|rest|..] :: drop(c)
  {
    if s != "" && drop(s[|s| - 1]) {
      TrimsRight(s[..|s| - 1], drop);
      var rest := TrimRight(s, drop);
      assert s[|rest|..] == s[..|s| - 1][|rest|..] + [s[|s| - 1]];
    }
  }

  function Count(s: string, c: char): nat {
    if s == "" then 0 else (if s[0] == c then 1 else 0) + Count(s[1..], c)
  }

  predicate Without(parts: seq<string>, c: char) {
    forall p | p in parts :: c !in p
  }

  lemma SplitCons(a: string, c: char, b: string)
    requires c !in a
    ensures Split(a + [c] + b, c) == [a] + Split(b, c)
  {
    var s := a + [c] + b;
    assert s[|a|] == c;
    var i := IndexOf(s, c);
    assert s[..|a|] == a;
    assert forall k :: 0 <= k < i ==> s[k] in s[..i];
    assert s[..i] == a && s[i + 1..] == b;
  }

  lemma SplitRooted(s: string, c: char)
    requires HasPrefix(s, [c])
    ensures Split(s, c) == [""] + Split(s[1..], c)
  {
    assert s == "" + [c] + s[1..];
    SplitCons("", c, s[1..]);
  }

  lemma SplitOne(s: string, c: char)
    ensures |Split(s, c)| == 1 <==> c !in s
    ensures |Split(s, c)| == 1 ==> Split(s, c) == [s]
  {
  }

  // Text without separators glues onto the first piece.
  lemma SplitPrefix(w: string, s: string, c: char)
    requires c !in w
    ensures Split(w + s, c) == [w + Split(s, c)[0]] + Split(s, c)[1..]
  {
    if c in s {
      var i := IndexOf(s, c);
      assert w + s == (w + s[..i]) + [c] + s[i + 1..];
      SplitCons(w + s[..i], c, s[i + 1..]);
    }
  }

  lemma {:induction false} SplitJoin(parts: seq<string>, c: char)
    requires parts != [] && Without(parts, c)
    ensures Split(Join(parts, [c]), c) == parts
  {
    if |parts| > 1 {
      SplitJoin(parts[1..], c);
      assert Join(parts, [c]) == parts[0] + [c] + Join(parts[1..], [c]);
      SplitCons(parts[0], c, Join(parts[1..], [c]));
    }
  }

  lemma {:induction false} JoinSplit(s: string, c: char)
    ensures Join(Split(s, c), [c]) == s
    ensures Without(Split(s, c), c)
    decreases |s|
  {
    if c in s {
      var i := IndexOf(s, c);
      var rest := s[i + 1..];
      JoinSplit(rest, c);
      assert s == s[..i] + [c] + rest;
      assert Split(s, c) == [s[..i]] + Split(rest, c);
    }
  }

  lemma {:induction false} CountAppend(a: string, b: string, c: char)
    ensures Count(a + b, c) == Count(a, c) + Count(b, c)
  {
    if a == "" {
      assert a + b == b;
    } else {
      CountAppend(a[1..], b, c);
      assert (a + b)[1..] == a[1..] + b;
    }
  }

  lemma {:induction false} CountZero(s: string, c: char)
    ensures Count(s, c) == 0 <==> c !in s
  {
    if s != "" {
      CountZero(s[1..], c);
    }
  }

  lemma {:induction false} SplitCount(s: string, c: char)
    ensures |Split(s, c)| == Count(s, c) + 1
    decreases |s|
  {
    CountZero(s, c);
    if c in s {
      var i := IndexOf(s, c);
      assert s == s[..i] + ([c] + s[i + 1..]);
      CountAppend(s[..i], [c] + s[i + 1..], c);
      CountZero(s[..i], c);
      SplitCount(s[i + 1..], c);
    }
  }

  // Join over a concatenation of two non-empty lists.
  lemma {:induction false} JoinAppend(a: seq<string>, b: seq<string>, sep: string)
    requires a != [] && b != []
    ensures Join(a + b, sep) == Join(a, sep) + sep + Join(b, sep)
  {
    if |a| == 1 {
      assert (a + b)[1..] == b;
    } else {
      JoinAppend(a[1..], b, sep);
      assert (a + b)[1..] == a[1..] + b;
      assert (a + b)[0] == a[0];
    }
  }
}
