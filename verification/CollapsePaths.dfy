// Collapsing a tree of test paths into fewer folders (api/checks/update.go) and
// the counts kept for each of them (api/checks/summaries/regressed.go).
module CollapsePaths {
  import opened Wrappers
  import opened Strings
  import opened FiniteSums
  import opened RunDiff
  import opened Collections

  const PASSES := 10

  // ---- one path ----

  // The segments of a path, without the empty one after a final slash.
  function Segments(path: string): seq<string> {
    var parts := Split(path, '/');
    if parts[|parts| - 1] == "" then parts[..|parts| - 1] else parts
  }

  predicate Rooted(path: string) {
    HasPrefix(path, "/")
  }

  // The folder a path is in.
  function Parent(path: string): string
    requires Segments(path) != []
  {
    var parts := Segments(path);
    Join(parts[..|parts| - 1], "/") + "/"
  }

  // The first segments of a list, joined and closed, are a prefix of all of it joined.
  lemma FirstSegments(parts: seq<string>, n: nat)
    requires 0 < n < |parts|
    ensures HasPrefix(Join(parts, "/"), Join(parts[..n], "/") + "/")
  {
    assert parts == parts[..n] + parts[n..];
    JoinAppend(parts[..n], parts[n..], "/");
  }

  // Which folders are above their path: an unrooted path of one segment goes to
  // "/", which is not a prefix of it.
  lemma ParentIsPrefixIff(path: string)
    requires Segments(path) != []
    ensures HasPrefix(path, Parent(path)) <==> |Segments(path)| > 1 || Rooted(path)
  {
    hide Split;
    var parts, n := Split(path, '/'), |Segments(path)| - 1;
    JoinSplit(path, '/');
    if n > 0 {
      hide Join;
      FirstSegments(parts, n);
      assert Segments(path)[..n] == parts[..n];
    }
  }

  // One segment without a slash before it.
  predicate Lone(path: string) {
    |Segments(path)| == 1 && !Rooted(path)
  }

  // Such a path is lost to "/".
  lemma LoneSegment(path: string)
    requires Segments(path) != [] && !HasPrefix(path, Parent(path))
    ensures Lone(path) && Parent(path) == "/"
  {
    ParentIsPrefixIff(path);
  }

  // The folder of a path has one segment less, down to "/".
  lemma ParentSegments(path: string)
    requires Segments(path) != []
    ensures |Segments(Parent(path))| == if |Segments(path)| > 1 then |Segments(path)| - 1 else 1
  {
    var parts, n := Segments(path), |Segments(path)| - 1;
    JoinSplit(path, '/');
    if n > 0 {
      JoinAppend(parts[..n], [""], "/");
      assert Join([""], "/") == "" && Parent(path) == Join(parts[..n] + [""], "/");
      SplitJoin(parts[..n] + [""], '/');
      assert (parts[..n] + [""])[..n] == parts[..n];
    } else {
      assert Parent(path) == "/";
      SplitRooted("/", '/');
    }
  }

  // The folder r that path k is in, said without computing it.
  predicate FolderOf(r: string, k: string) {
    if |Segments(k)| <= 1 then r == "/"
    else r <= k && r != "" && r[|r| - 1] == '/' && |Segments(r)| == |Segments(k)| - 1
  }

  lemma ParentIsFolder(path: string)
    requires Segments(path) != []
    ensures FolderOf(Parent(path), path)
  {
    ParentIsPrefixIff(path);
    ParentSegments(path);
  }

  lemma ParentHasSlash(path: string)
    requires Segments(path) != []
    ensures '/' in Parent(path)
  {
    assert Parent(path)[|Parent(path)| - 1] == '/';
  }

  lemma PrefixTransitive(a: string, b: string, c: string)
    requires HasPrefix(a, b) && HasPrefix(b, c)
    ensures HasPrefix(a, c)
  {
  }

  // ---- the sort ----

  predicate Deeper(a: string, b: string) {
    |Split(a, '/')| > |Split(b, '/')|
  }

  predicate ByDepth(keys: seq<string>) {
    forall i, j :: 0 <= i < j < |keys| ==> !Deeper(keys[j], keys[i])
  }

  // In depth order but for the key at hole, which may belong further left.
  predicate ByDepthBut(keys: seq<string>, hole: int) {
    forall i, j :: 0 <= i < j < |keys| && j != hole ==> !Deeper(keys[j], keys[i])
  }

  lemma SwapSteps(keys: seq<string>, j: nat)
    requires 0 < j < |keys| && ByDepthBut(keys, j) && Deeper(keys[j], keys[j - 1])
    ensures var swapped := keys[j - 1 := keys[j]][j := keys[j - 1]];
      ByDepthBut(swapped, j - 1) && multiset(swapped) == multiset(keys)
  {
    hide Split;
    assert keys == keys[..j - 1] + [keys[j - 1], keys[j]] + keys[j + 1..];
    var swapped := keys[j - 1 := keys[j]][j := keys[j - 1]];
    assert swapped == keys[..j - 1] + [keys[j], keys[j - 1]] + keys[j + 1..];
  }

  lemma SunkIsSorted(keys: seq<string>, j: nat)
    requires j < |keys| && ByDepthBut(keys, j) && (j == 0 || !Deeper(keys[j], keys[j - 1]))
    ensures ByDepth(keys)
  {
    hide Split;
  }

  method Sink(keys: array<string>, i: nat)
    requires i < keys.Length && ByDepth(keys[..i])
    modifies keys
    ensures ByDepth(keys[..i + 1])
    ensures multiset(keys[..]) == multiset(old(keys[..]))
  {
    hide Deeper;
    var j := i;
    while j > 0 && Deeper(keys[j], keys[j - 1])
      invariant 0 <= j <= i
      invariant ByDepthBut(keys[..i + 1], j)
      invariant multiset(keys[..i + 1]) == multiset(old(keys[..i + 1])) && keys[i + 1..] == old(keys[i + 1..])
    {
      ghost var was := keys[..i + 1];
      SwapSteps(was, j);
      keys[j - 1], keys[j] := keys[j], keys[j - 1];
      assert keys[..i + 1] == was[j - 1 := was[j]][j := was[j - 1]];
      j := j - 1;
    }
    SunkIsSorted(keys[..i + 1], j);
    assert keys[..] == keys[..i + 1] + keys[i + 1..];
    assert old(keys[..]) == old(keys[..i + 1]) + old(keys[i + 1..]);
  }

  // sort.Sort(pathKeys(keys)).
  method SortByDepth(keys: array<string>)
    modifies keys
    ensures ByDepth(keys[..])
    ensures multiset(keys[..]) == multiset(old(keys[..]))
  {
    for i := 0 to keys.Length
      invariant ByDepth(keys[..i])
      invariant multiset(keys[..]) == multiset(old(keys[..]))
    {
      Sink(keys, i);
    }
    assert keys[..keys.Length] == keys[..];
  }

  // ---- collapsing ----

  ghost predicate Below(paths: set<string>, k: string) {
    exists p :: p in paths && HasPrefix(k, p)
  }

  ghost predicate Above(keys: set<string>, p: string) {
    exists k :: k in keys && HasPrefix(k, p)
  }

  // Every key is below some path, except that lone ones may be lost to "/".
  ghost predicate Covers(strict: bool, paths: set<string>, keys: set<string>) {
    forall k | k in keys :: Below(paths, k) || (!strict && Lone(k) && "/" in paths)
  }

  // Every path has some key below it, except that "/" may stand for lone ones.
  ghost predicate DrawnFrom(strict: bool, paths: set<string>, keys: set<string>) {
    forall p | p in paths :: Above(keys, p) || (!strict && p == "/" && exists k :: k in keys && Lone(k))
  }

  ghost predicate Collapses(strict: bool, paths: set<string>, keys: set<string>) {
    Covers(strict, paths, keys) && DrawnFrom(strict, paths, keys)
  }

  ghost predicate NoneLone(keys: set<string>) {
    forall k | k in keys :: !Lone(k)
  }

  // Some key has two slashes.
  ghost predicate Deep(keys: set<string>) {
    exists k :: k in keys && |Split(k, '/')| >= 3
  }

  // One pass loses no key.
  ghost predicate Safe(keys: set<string>) {
    NoneLone(keys) || Deep(keys)
  }

  // The empty key has no folder, and a pass that begins with it panics.
  predicate NeverFirst(keys: set<string>) {
    "" in keys ==> exists k :: k in keys && '/' in k
  }

  lemma CollapseNothing(keys: set<string>)
    ensures Collapses(true, keys, keys) && Collapses(true, {}, {})
  {
    forall k | k in keys ensures Below(keys, k) && Above(keys, k) {
      SelfPrefix(k);
    }
  }

  lemma BelowOneMore(paths: set<string>, p: string, k: string)
    ensures Below(paths, k) ==> Below(paths + {p}, k)
    ensures HasPrefix(k, p) ==> Below(paths + {p}, k)
  {
    hide HasPrefix;
    assert p in paths + {p};
  }

  lemma AboveOneMore(keys: set<string>, k: string, p: string)
    ensures Above(keys, p) ==> Above(keys + {k}, p)
    ensures HasPrefix(k, p) ==> Above(keys + {k}, p)
  {
    hide HasPrefix;
    assert k in keys + {k};
  }

  lemma CollapseOneMore(strict: bool, paths: set<string>, keys: set<string>, p: string, k: string)
    requires Collapses(strict, paths, keys)
    requires HasPrefix(k, p) || (!strict && Lone(k) && p == "/")
    ensures Collapses(strict, paths + {p}, keys + {k})
  {
    hide HasPrefix, Lone, Below, Above;
    forall k' | k' in keys + {k} ensures Below(paths + {p}, k') || (!strict && Lone(k') && "/" in paths + {p}) {
      BelowOneMore(paths, p, k');
    }
    forall p' | p' in paths + {p}
      ensures Above(keys + {k}, p') || (!strict && p' == "/" && exists k' :: k' in keys + {k} && Lone(k'))
    {
      AboveOneMore(keys, k, p');
      assert k in keys + {k};
      if p' in paths && !Above(keys, p') {
        var k' :| k' in keys && Lone(k');
        assert k' in keys + {k};
      }
    }
  }

  lemma BelowAgain(paths: set<string>, folders: set<string>, k: string, p: string)
    requires Covers(true, folders, paths) && p in paths && HasPrefix(k, p)
    ensures Below(folders, k)
  {
    hide HasPrefix;
    assert Below(folders, p);
    var f :| f in folders && HasPrefix(p, f);
    PrefixTransitive(k, p, f);
  }

  lemma AboveAgain(keys: set<string>, p: string, f: string)
    requires Above(keys, p) && HasPrefix(p, f)
    ensures Above(keys, f)
  {
    hide HasPrefix;
    var k :| k in keys && HasPrefix(k, p);
    PrefixTransitive(k, p, f);
  }

  // What begins "/" begins nothing else that is empty or "/".
  lemma OfSlash(f: string, k: string)
    requires HasPrefix("/", f)
    ensures f == "/" || (f == "" && HasPrefix(k, f))
  {
    assert f == "/"[..|f|];
  }

  lemma CoversAgain(strict: bool, paths: set<string>, folders: set<string>, keys: set<string>, k: string)
    requires Collapses(strict, paths, keys) && Collapses(true, folders, paths) && k in keys
    ensures Below(folders, k) || (!strict && Lone(k) && "/" in folders)
  {
    hide HasPrefix, Lone, Above, DrawnFrom;
    if Below(paths, k) {
      var p :| p in paths && HasPrefix(k, p);
      BelowAgain(paths, folders, k, p);
    } else {
      assert Below(folders, "/");
      var f :| f in folders && HasPrefix("/", f);
      OfSlash(f, k);
    }
  }

  lemma DrawnAgain(strict: bool, paths: set<string>, folders: set<string>, keys: set<string>, f: string)
    requires Collapses(strict, paths, keys) && Collapses(true, folders, paths) && f in folders
    ensures Above(keys, f) || (!strict && f == "/" && exists k :: k in keys && Lone(k))
  {
    hide HasPrefix, Lone, Below, Covers;
    assert Above(paths, f);
    var p :| p in paths && HasPrefix(p, f);
    if Above(keys, p) {
      AboveAgain(keys, p, f);
    } else {
      var k :| k in keys && Lone(k);
      OfSlash(f, k);
    }
  }

  lemma CollapseAgain(strict: bool, paths: set<string>, folders: set<string>, keys: set<string>)
    requires Collapses(strict, paths, keys) && Collapses(true, folders, paths)
    ensures Collapses(strict, folders, keys)
  {
    hide HasPrefix, Lone, Below, Above;
    forall k | k in keys ensures Below(folders, k) || (!strict && Lone(k) && "/" in folders) {
      CoversAgain(strict, paths, folders, keys, k);
    }
    forall f | f in folders
      ensures Above(keys, f) || (!strict && f == "/" && exists k :: k in keys && Lone(k))
    {
      DrawnAgain(strict, paths, folders, keys, f);
    }
  }

  lemma StrictIsEnough(strict: bool, paths: set<string>, keys: set<string>)
    requires Collapses(true, paths, keys)
    ensures Collapses(strict, paths, keys)
  {
  }

  // ---- one pass ----

  // The first of the sorted keys is one of the deepest.
  lemma FirstIsDeepest(keys: seq<string>)
    requires ByDepth(keys) && keys != [] && NeverFirst(SetOf(keys))
    ensures keys[0] in keys && Segments(keys[0]) != []
    ensures Deep(SetOf(keys)) ==> |Segments(keys[0])| >= 2
  {
    hide Split, Parent;
    if Deep(SetOf(keys)) {
      var k :| k in SetOf(keys) && |Split(k, '/')| >= 3;
      var i :| 0 <= i < |keys| && keys[i] == k;
      assert !Deeper(keys[i], keys[0]);
    } else if "" in keys {
      var k :| k in SetOf(keys) && '/' in k;
      var i :| 0 <= i < |keys| && keys[i] == k;
      assert !Deeper(keys[i], keys[0]);
      SplitOne(k, '/');
    }
    NoSegments(keys[0]);
    SplitOne("", '/');
  }

  lemma NoSegments(path: string)
    ensures Segments(path) == [] <==> path == ""
    ensures |Split(path, '/')| - 1 <= |Segments(path)| <= |Split(path, '/')|
  {
    SplitOne(path, '/');
  }

  // A key that is moved to its folder is below it, unless keys may be lost.
  lemma MovedIsBelow(keys: seq<string>, k: string, depth: int)
    requires ByDepth(keys) && k in keys && NeverFirst(SetOf(keys))
    requires k == keys[0] || depth >= |Segments(keys[0])|
    requires |Segments(k)| >= depth
    ensures Segments(k) != [] && '/' in Parent(k)
    ensures HasPrefix(k, Parent(k)) || (!Safe(SetOf(keys)) && Lone(k) && Parent(k) == "/")
    ensures |Segments(k)| >= 3 ==> Deep(SetOf(keys))
  {
    hide Split, Segments, Parent, Lone, HasPrefix;
    FirstIsDeepest(keys);
    NoSegments(k);
    ParentHasSlash(k);
    ParentIsPrefixIff(k);
    if !HasPrefix(k, Parent(k)) {
      LoneSegment(k);
    }
    assert k in SetOf(keys);
  }

  ghost predicate Moved(k: string, paths: set<string>) {
    exists r :: r in paths && FolderOf(r, k)
  }

  ghost predicate Origin(keys: seq<string>, i: nat, r: string)
    requires i <= |keys|
  {
    exists j :: 0 <= j < i && (r == keys[j] || FolderOf(r, keys[j]))
  }

  // No path has more than n segments.
  ghost predicate AtMost(paths: set<string>, n: int) {
    forall p | p in paths :: |Segments(p)| <= n
  }

  // No path has more than two slashes.
  ghost predicate Shallow(paths: set<string>) {
    forall p | p in paths :: |Split(p, '/')| <= 3
  }

  // One pass: every path is kept or gives way to its folder, all the deepest give
  // way, and those that are shallower by two segments or more are kept.
  ghost predicate OnePass(finer: set<string>, coarser: set<string>) {
    && (forall q | q in finer :: q in coarser || Moved(q, coarser))
    && (forall r | r in coarser :: r in finer || exists q :: q in finer && FolderOf(r, q))
    && (forall n: int | n >= 2 && AtMost(finer, n) :: AtMost(coarser, n - 1))
    && (forall q, f | q in finer && f in finer && |Split(f, '/')| > |Segments(q)| + 1 :: q in coarser)
  }

  // What a pass keeps after i keys.
  ghost predicate Passing(keys: seq<string>, i: nat, collapsed: set<string>, depth: int)
    requires i <= |keys|
  {
    && (forall j | 0 <= j < i :: keys[j] in collapsed || Moved(keys[j], collapsed))
    && (forall r | r in collapsed :: Origin(keys, i, r))
    && (forall r | r in collapsed :: |Segments(r)| < depth || |Segments(r)| <= 1)
    && (i == 0 ==> depth == -1 && collapsed == {})
    && (i > 0 ==> |Segments(keys[0])| <= depth && exists j :: 0 <= j < i && |Segments(keys[j])| == depth)
    && (forall j | 0 <= j < i && |Segments(keys[j])| < |Segments(keys[0])| :: keys[j] in collapsed)
  }

  lemma MovedStill(k: string, paths: set<string>, p: string)
    ensures Moved(k, paths) ==> Moved(k, paths + {p})
    ensures FolderOf(p, k) ==> Moved(k, paths + {p})
  {
    hide FolderOf;
    assert p in paths + {p};
  }

  lemma OriginStill(keys: seq<string>, i: nat, r: string)
    requires i < |keys|
    ensures Origin(keys, i, r) ==> Origin(keys, i + 1, r)
    ensures r == keys[i] || FolderOf(r, keys[i]) ==> Origin(keys, i + 1, r)
  {
    hide FolderOf;
  }

  // The next key is kept.
  lemma PassKeeps(keys: seq<string>, i: nat, collapsed: set<string>, depth: int)
    requires i < |keys| && Passing(keys, i, collapsed, depth)
    requires keys[i] in collapsed || |Segments(keys[i])| < depth
    ensures Passing(keys, i + 1, collapsed + {keys[i]}, depth)
  {
    hide Moved, Origin, Segments;
    forall j | 0 <= j < i + 1
      ensures keys[j] in collapsed + {keys[i]} || Moved(keys[j], collapsed + {keys[i]})
    {
      MovedStill(keys[j], collapsed, keys[i]);
    }
    forall r | r in collapsed + {keys[i]} ensures Origin(keys, i + 1, r) {
      OriginStill(keys, i, r);
    }
  }

  // The next key gives way to its folder.
  lemma PassMoves(keys: seq<string>, i: nat, collapsed: set<string>, depth: int)
    requires i < |keys| && Passing(keys, i, collapsed, depth)
    requires Segments(keys[i]) != [] && |Segments(keys[i])| >= depth
    ensures Passing(keys, i + 1, collapsed + {Parent(keys[i])}, |Segments(keys[i])|)
  {
    hide Moved, Origin, Segments, FolderOf, Parent;
    var p := Parent(keys[i]);
    ParentIsFolder(keys[i]);
    ParentSegments(keys[i]);
    forall j | 0 <= j < i + 1 ensures keys[j] in collapsed + {p} || Moved(keys[j], collapsed + {p}) {
      MovedStill(keys[j], collapsed, p);
    }
    forall r | r in collapsed + {p} ensures Origin(keys, i + 1, r) {
      OriginStill(keys, i, r);
    }
  }

  lemma PassIsDone(keys: seq<string>, collapsed: set<string>, depth: int)
    requires ByDepth(keys) && Passing(keys, |keys|, collapsed, depth)
    ensures OnePass(SetOf(keys), collapsed)
    ensures depth < 3 ==> Shallow(SetOf(keys))
  {
    hide Split, Segments, FolderOf, Moved;
    forall q | q in keys ensures q in collapsed || Moved(q, collapsed) {
      var j :| 0 <= j < |keys| && keys[j] == q;
    }
    forall r | r in collapsed ensures exists q :: q in SetOf(keys) && (r == q || FolderOf(r, q)) {
      assert Origin(keys, |keys|, r);
      var j :| 0 <= j < |keys| && (r == keys[j] || FolderOf(r, keys[j]));
      assert keys[j] in SetOf(keys);
    }
    forall n: int | n >= 2 && AtMost(SetOf(keys), n) ensures AtMost(collapsed, n - 1) {
      if keys != [] {
        var j :| 0 <= j < |keys| && |Segments(keys[j])| == depth;
        assert keys[j] in SetOf(keys);
      }
    }
    forall f | f in keys ensures |Split(f, '/')| <= |Segments(keys[0])| + 1 {
      var j :| 0 <= j < |keys| && keys[j] == f;
      assert !Deeper(keys[j], keys[0]) || j == 0;
      NoSegments(keys[0]);
    }
    forall q, f | q in keys && f in keys && |Split(f, '/')| > |Segments(q)| + 1 ensures q in collapsed {
      var j :| 0 <= j < |keys| && keys[j] == q;
    }
  }

  // One pass of collapsePaths over the sorted keys; depth is that of the last
  // key moved to its folder.
  method CollapseOnce(keys: seq<string>) returns (collapsed: set<string>, depth: int)
    requires ByDepth(keys) && NeverFirst(SetOf(keys))
    ensures Collapses(Safe(SetOf(keys)), collapsed, SetOf(keys)) && |collapsed| <= |keys|
    ensures depth >= 3 ==> Deep(SetOf(keys))
    ensures NeverFirst(collapsed)
    ensures OnePass(SetOf(keys), collapsed)
    ensures depth < 3 ==> Shallow(SetOf(keys))
  {
    hide *;
    collapsed, depth := {}, -1;
    ghost var safe := Safe(SetOf(keys));
    SetOfEnds(keys);
    CollapseNothing({});
    StrictIsEnough(safe, {}, {});
    PassStarts(keys);
    for i := 0 to |keys|
      invariant Passing(keys, i, collapsed, depth)
      invariant Collapses(safe, collapsed, SetOf(keys[..i])) && |collapsed| <= i
      invariant i == 0 ==> depth == -1
      invariant i > 0 ==> depth >= |Segments(keys[0])| && exists p :: p in collapsed && '/' in p
      invariant depth >= 3 ==> Deep(SetOf(keys))
    {
      var k := keys[i];
      SetOfOneMore(keys, i);
      SelfPrefix(k);
      if k in collapsed {
        assert collapsed + {k} == collapsed;
        PassKeeps(keys, i, collapsed, depth);
        CollapseOneMore(safe, collapsed, SetOf(keys[..i]), k, k);
        continue;
      }
      if |Segments(k)| < depth {
        CollapseOneMore(safe, collapsed, SetOf(keys[..i]), k, k);
        StaysSlashed(collapsed, k);
        PassKeeps(keys, i, collapsed, depth);
        collapsed := collapsed + {k};
        continue;
      }
      MovedIsBelow(keys, k, depth);
      CollapseOneMore(safe, collapsed, SetOf(keys[..i]), Parent(k), k);
      assert Parent(k) in collapsed + {Parent(k)};
      PassMoves(keys, i, collapsed, depth);
      collapsed := collapsed + {Parent(k)};
      depth := |Segments(k)|;
    }
    EndsSlashed(collapsed, |keys|);
    PassIsDone(keys, collapsed, depth);
  }

  lemma PassStarts(keys: seq<string>)
    ensures Passing(keys, 0, {}, -1)
  {
  }

  lemma StaysSlashed(paths: set<string>, k: string)
    requires exists p :: p in paths && '/' in p
    ensures exists p :: p in paths + {k} && '/' in p
  {
    var p :| p in paths && '/' in p;
    assert p in paths + {k};
  }

  lemma EndsSlashed(paths: set<string>, n: nat)
    requires n > 0 ==> exists p :: p in paths && '/' in p
    requires |paths| <= n
    ensures NeverFirst(paths)
  {
    assert n == 0 ==> paths == {};
  }

  lemma SelfPrefix(k: string)
    ensures HasPrefix(k, k)
  {
  }

  // shared.ToStringSlice of a set: any order.
  method ToStringSlice(s: set<string>) returns (a: array<string>)
    ensures fresh(a) && SetOf(a[..]) == s && multiset(a[..]) == multiset(s) && a.Length == |s|
  {
    var listed := ListSet(s);
    a := new string[|listed|](i requires 0 <= i < |listed| => listed[i]);
    assert a[..] == listed;
  }

  // What the source asks of the keys: no pass may begin with the empty one.
  predicate Collapsible(keys: set<string>, limit: int) {
    |keys| <= limit || NeverFirst(keys)
  }

  // No key is lost at least when nothing is collapsed, or no key is lone, or some
  // key is so deep that a lone one is not moved.
  ghost predicate Lossless(keys: set<string>, limit: int) {
    |keys| <= limit || Safe(keys)
  }

  // One more pass: a later one that is kept was deep, and lost nothing.
  lemma OneMorePass(keys: set<string>, limit: int, i: nat, result: set<string>, collapsed: set<string>, depth: int)
    requires Collapses(Lossless(keys, limit), result, keys) && (i == 0 ==> result == keys && |keys| > limit)
    requires Collapses(Safe(result), collapsed, result)
    requires depth >= 3 ==> Deep(result)
    requires i == 0 || depth >= 3
    ensures Collapses(Lossless(keys, limit), collapsed, keys)
  {
    hide Collapses, Deep, NoneLone;
    if i > 0 {
      CollapseAgain(Lossless(keys, limit), result, collapsed, keys);
    }
  }

  // Passes are made as long as there are too many paths, ten at most, and until the
  // paths are shallow after the first.
  ghost predicate Collapsing(keys: set<string>, limit: int, steps: seq<set<string>>) {
    && 1 <= |steps| <= 11 && steps[0] == keys
    && (forall i | 0 <= i < |steps| - 1 :: |steps[i]| > limit && OnePass(steps[i], steps[i + 1]))
    && (|| |steps[|steps| - 1]| <= limit || |steps| == 11
        || (|steps| >= 2 && Shallow(steps[|steps| - 1])))
  }

  // So with few enough keys nothing is collapsed; otherwise the deepest path loses
  // a segment in each pass, and if there are still too many, it has lost ten or all
  // paths are shallow.
  lemma CollapsingGoesDeep(keys: set<string>, limit: int, steps: seq<set<string>>, n: int)
    requires Collapsing(keys, limit, steps) && n >= 2 && AtMost(keys, n)
    ensures var result := steps[|steps| - 1];
      && (|keys| <= limit ==> result == keys)
      && (|keys| > limit ==> AtMost(result, n - 1))
      && (|result| > limit ==> Shallow(result) || AtMost(result, if n > 10 then n - 10 else 1))
  {
    DeepestShrinks(steps, n, |steps| - 1);
    hide OnePass;
    assert |keys| <= limit ==> |steps| == 1;
  }

  lemma {:induction false} DeepestShrinks(steps: seq<set<string>>, n: int, i: nat)
    requires i < |steps| && n >= 2 && AtMost(steps[0], n)
    requires forall j | 0 <= j < |steps| - 1 :: OnePass(steps[j], steps[j + 1])
    ensures AtMost(steps[i], if n - i >= 1 then n - i else 1)
  {
    hide OnePass, AtMost;
    if i > 0 {
      var j := i - 1;
      DeepestShrinks(steps, n, j);
      assert OnePass(steps[j], steps[j + 1]);
      PassShrinks(steps[j], steps[i], if n - j >= 2 then n - j else 2);
    }
  }

  lemma PassShrinks(finer: set<string>, coarser: set<string>, n: int)
    requires OnePass(finer, coarser) && n >= 2 && (AtMost(finer, n) || AtMost(finer, 1))
    ensures AtMost(coarser, n - 1)
  {
    hide Segments, Moved, FolderOf, Split;
    assert AtMost(finer, n);
  }

  // collapsePaths: whatever the ties in the sort and the order of the sets, every
  // key is still below some path, unless the keys are shallow and some lone.
  // The caller's slice is left sorted.
  method CollapsePaths(keys: array<string>, limit: int) returns (result: set<string>, ghost steps: seq<set<string>>)
    requires Collapsible(SetOf(keys[..]), limit)
    modifies keys
    ensures Collapsing(SetOf(old(keys[..])), limit, steps) && steps[|steps| - 1] == result
    ensures multiset(keys[..]) == multiset(old(keys[..]))
    ensures Collapses(Lossless(SetOf(old(keys[..])), limit), result, SetOf(old(keys[..]))) && |result| <= keys.Length
  {
    hide *;
    result := SetOf(keys[..]);
    ghost var all := result;
    steps := [all];
    StartsStepping(all, limit);
    CollapseNothing(all);
    StrictIsEnough(Lossless(all, limit), all, all);
    SetOfEnds(keys[..]);
    CollapsibleIsSafe(all, limit);
    var slice := keys;
    var i := 0;
    while i < PASSES && |result| > limit
      invariant slice == keys || fresh(slice)
      invariant multiset(keys[..]) == multiset(old(keys[..]))
      invariant Collapses(Lossless(all, limit), result, all) && |result| <= keys.Length
      invariant SetOf(slice[..]) == result && slice.Length <= keys.Length
      invariant i == 0 ==> result == all
      invariant |result| > limit ==> NeverFirst(result)
      invariant |steps| == i + 1 <= 11 && Stepping(all, limit, steps, result)
      decreases PASSES - i
    {
      ghost var was := slice[..];
      SortByDepth(slice);
      SameElements(was, slice[..]);
      var collapsed, depth := CollapseOnce(slice[..]);
      if i > 0 && depth < 3 {
        StopsShallow(all, limit, steps, result);
        return;
      }
      StepsOneMore(all, limit, steps, result, collapsed);
      steps := steps + [collapsed];
      OneMorePass(all, limit, i, result, collapsed, depth);
      slice := ToStringSlice(collapsed);
      result := collapsed;
      i := i + 1;
    }
    StopsHere(all, limit, steps, result);
  }

  ghost predicate Stepping(keys: set<string>, limit: int, steps: seq<set<string>>, result: set<string>) {
    && steps != [] && steps[0] == keys && steps[|steps| - 1] == result
    && forall i | 0 <= i < |steps| - 1 :: |steps[i]| > limit && OnePass(steps[i], steps[i + 1])
  }

  lemma StopsShallow(keys: set<string>, limit: int, steps: seq<set<string>>, result: set<string>)
    requires Stepping(keys, limit, steps, result) && 2 <= |steps| <= 11 && Shallow(result)
    ensures Collapsing(keys, limit, steps) && steps[|steps| - 1] == result
  {
    hide OnePass;
  }

  lemma StopsHere(keys: set<string>, limit: int, steps: seq<set<string>>, result: set<string>)
    requires Stepping(keys, limit, steps, result) && |steps| <= 11 && (|result| <= limit || |steps| == 11)
    ensures Collapsing(keys, limit, steps) && steps[|steps| - 1] == result
  {
    hide OnePass;
  }

  lemma StepsOneMore(
      keys: set<string>, limit: int, steps: seq<set<string>>, result: set<string>, collapsed: set<string>)
    requires Stepping(keys, limit, steps, result) && |result| > limit && OnePass(result, collapsed)
    ensures Stepping(keys, limit, steps + [collapsed], collapsed)
  {
    hide OnePass;
  }

  lemma StartsStepping(keys: set<string>, limit: int)
    ensures Stepping(keys, limit, [keys], keys) && PASSES == 10
  {
  }

  lemma CollapsibleIsSafe(keys: set<string>, limit: int)
    requires Collapsible(keys, limit)
    ensures |keys| > limit ==> NeverFirst(keys)
  {
  }

  // ---- the counts of each folder ----

  datatype BeforeAndAfter = BeforeAndAfter(passingBefore: int, passingAfter: int, totalBefore: int, totalAfter: int)

  // Adding the counts of one key; a missing side adds nothing.
  function AddCounts(sum: BeforeAndAfter, before: Option<Counts>, after: Option<Counts>): BeforeAndAfter {
    var b, a := before.GetOr(Counts(0, 0)), after.GetOr(Counts(0, 0));
    BeforeAndAfter(sum.passingBefore + b.passes, sum.passingAfter + a.passes,
                   sum.totalBefore + b.total, sum.totalAfter + a.total)
  }

  const NOTHING := BeforeAndAfter(0, 0, 0, 0)

  // The four numbers kept, one at a time.
  datatype Column = PassingBefore | PassingAfter | TotalBefore | TotalAfter

  function Cell(sum: BeforeAndAfter, c: Column): int {
    match c
    case PassingBefore => sum.passingBefore
    case PassingAfter => sum.passingAfter
    case TotalBefore => sum.totalBefore
    case TotalAfter => sum.totalAfter
  }

  ghost function KeyCells(before: Summary, after: Summary, c: Column): string -> int {
    k => Cell(AddCounts(NOTHING, Lookup(before, k), Lookup(after, k)), c)
  }

  ghost function PathCells(result: map<string, BeforeAndAfter>, c: Column): string -> int {
    p => if p in result then Cell(result[p], c) else 0
  }

  // The keys counted under path p.
  ghost function Bucket(bucket: map<string, string>, p: string): set<string> {
    set k | k in bucket && bucket[k] == p
  }

  // Every key so far is counted, once, under a path above it, and every path
  // holds the sums of its keys.
  ghost predicate Bucketed(before: Summary, after: Summary, keys: set<string>, bucket: map<string, string>,
                           result: map<string, BeforeAndAfter>)
  {
    && bucket.Keys == keys
    && (forall k | k in keys :: HasPrefix(k, bucket[k]) && bucket[k] in result)
    && (forall p | p in result :: Bucket(bucket, p) != {})
    && (forall p, c | p in result :: Cell(result[p], c) == Sum(Bucket(bucket, p), KeyCells(before, after, c)))
  }

  lemma BucketOneMore(before: Summary, after: Summary, keys: set<string>, bucket: map<string, string>,
                      result: map<string, BeforeAndAfter>, k: string, p: string)
    requires Bucketed(before, after, keys, bucket, result) && k !in keys && HasPrefix(k, p)
    ensures var sum := if p in result then result[p] else NOTHING;
      Bucketed(before, after, keys + {k}, bucket[k := p],
               result[p := AddCounts(sum, Lookup(before, k), Lookup(after, k))])
  {
    hide HasPrefix, KeyCells;
    var sum := if p in result then result[p] else NOTHING;
    var result' := result[p := AddCounts(sum, Lookup(before, k), Lookup(after, k))];
    BucketGrows(bucket, k, p);
    forall q, c | q in result'
      ensures Cell(result'[q], c) == Sum(Bucket(bucket[k := p], q), KeyCells(before, after, c))
    {
      if q == p {
        AddCell(before, after, sum, k, c);
        SumWith(Bucket(bucket, p), KeyCells(before, after, c), k);
      }
    }
  }

  lemma BucketGrows(bucket: map<string, string>, k: string, p: string)
    requires k !in bucket
    ensures Bucket(bucket[k := p], p) == Bucket(bucket, p) + {k} && k !in Bucket(bucket, p)
    ensures forall q | q != p :: Bucket(bucket[k := p], q) == Bucket(bucket, q)
  {
  }

  lemma AddCell(before: Summary, after: Summary, sum: BeforeAndAfter, k: string, c: Column)
    ensures Cell(AddCounts(sum, Lookup(before, k), Lookup(after, k)), c) == Cell(sum, c) + KeyCells(before, after, c)(k)
    ensures Cell(NOTHING, c) == 0
  {
  }

  lemma NothingBucketed(before: Summary, after: Summary, strict: bool, paths: set<string>)
    ensures Bucketed(before, after, {}, map[], map[])
    ensures OnlyLost(strict, {}, {}, paths)
  {
  }

  // A key with no path above it may be lost.
  lemma NoPathAbove(strict: bool, collapsed: set<string>, keys: seq<string>, paths: seq<string>, k: string)
    requires Collapses(strict, collapsed, SetOf(keys)) && SetOf(paths) == collapsed && k in keys
    requires forall p | p in paths :: !HasPrefix(k, p)
    ensures !strict && Lone(k) && !Below(collapsed, k)
  {
    hide HasPrefix, Lone;
    assert k in SetOf(keys);
    assert forall p | p in collapsed :: p in SetOf(paths) && p in paths;
  }

  lemma KeysAreDistinct(all: set<string>, listed: seq<string>, i: nat)
    requires multiset(listed) == multiset(all) && i < |listed|
    ensures listed[i] !in SetOf(listed[..i])
  {
    var k := listed[i];
    assert listed == listed[..i] + ([k] + listed[i + 1..]);
    assert multiset(listed) == multiset(listed[..i]) + multiset([k] + listed[i + 1..]);
    assert multiset(listed)[k] <= 1;
    assert k in multiset([k] + listed[i + 1..]);
  }

  // The keys that are not counted are lone, and no path is above them.
  ghost predicate OnlyLost(strict: bool, keys: set<string>, counted: set<string>, paths: set<string>) {
    counted <= keys && forall k | k in keys - counted :: !strict && Lone(k) && !Below(paths, k)
  }

  lemma SeenOneMore(strict: bool, seen: set<string>, counted: set<string>, paths: set<string>, k: string)
    requires OnlyLost(strict, seen, counted, paths)
    ensures OnlyLost(strict, seen + {k}, counted + {k}, paths)
    ensures !strict && Lone(k) && !Below(paths, k) ==> OnlyLost(strict, seen + {k}, counted, paths)
  {
  }

  lemma BelowMore(fewer: set<string>, paths: set<string>, k: string)
    requires fewer <= paths
    ensures Below(fewer, k) ==> Below(paths, k)
  {
    hide HasPrefix;
  }

  // Nothing is lost under fewer paths that was not lost under all of them.
  lemma LostUnder(strict: bool, keys: set<string>, counted: set<string>, paths: set<string>, used: set<string>)
    requires OnlyLost(strict, keys, counted, paths) && used <= paths
    ensures OnlyLost(strict, keys, counted, used)
    ensures strict ==> counted == keys
  {
    forall k | k in keys - counted ensures !Below(used, k) {
      BelowMore(used, paths, k);
    }
    assert strict ==> keys - counted == {};
    assert keys == counted + (keys - counted);
  }

  // The first path above k, if any.
  method FirstAbove(k: string, paths: array<string>) returns (j: nat)
    ensures j <= paths.Length && (j < paths.Length ==> HasPrefix(k, paths[j]))
    ensures j == paths.Length ==> forall p | p in paths[..] :: !HasPrefix(k, p)
  {
    hide HasPrefix;
    j := 0;
    while j < paths.Length && !HasPrefix(k, paths[j])
      invariant 0 <= j <= paths.Length
      invariant forall n | 0 <= n < j :: !HasPrefix(k, paths[n])
    {
      j := j + 1;
    }
  }

  // What the loop of collapseSummary keeps after i keys.
  ghost predicate Summarised(before: Summary, after: Summary, strict: bool, paths: set<string>, keys: seq<string>,
                             i: nat, bucket: map<string, string>, result: map<string, BeforeAndAfter>)
    requires i <= |keys|
  {
    && Bucketed(before, after, bucket.Keys, bucket, result) && result.Keys <= paths
    && OnlyLost(strict, SetOf(keys[..i]), bucket.Keys, paths)
  }

  lemma CountOneMore(before: Summary, after: Summary, strict: bool, paths: set<string>, keys: seq<string>, i: nat,
                     bucket: map<string, string>, result: map<string, BeforeAndAfter>, p: string)
    requires i < |keys| && Summarised(before, after, strict, paths, keys, i, bucket, result)
    requires keys[i] !in SetOf(keys[..i]) && p in paths && HasPrefix(keys[i], p)
    ensures Summarised(before, after, strict, paths, keys, i + 1, bucket[keys[i] := p],
                       result[p := Adding(before, after, result, p, keys[i])])
  {
    hide Bucketed, HasPrefix, Below, Lone, AddCounts;
    var k := keys[i];
    SetOfOneMore(keys, i);
    SeenOneMore(strict, SetOf(keys[..i]), bucket.Keys, paths, k);
    assert k !in bucket.Keys && bucket[k := p].Keys == bucket.Keys + {k};
    BucketOneMore(before, after, bucket.Keys, bucket, result, k, p);
  }

  lemma LoseOneMore(before: Summary, after: Summary, strict: bool, paths: set<string>, keys: seq<string>, i: nat,
                    bucket: map<string, string>, result: map<string, BeforeAndAfter>)
    requires i < |keys| && Summarised(before, after, strict, paths, keys, i, bucket, result)
    requires !strict && Lone(keys[i]) && !Below(paths, keys[i])
    ensures Summarised(before, after, strict, paths, keys, i + 1, bucket, result)
  {
    hide Bucketed, Below, Lone;
    SetOfOneMore(keys, i);
    SeenOneMore(strict, SetOf(keys[..i]), bucket.Keys, paths, keys[i]);
  }

  lemma NothingSummarised(before: Summary, after: Summary, strict: bool, paths: set<string>, keys: seq<string>)
    ensures Summarised(before, after, strict, paths, keys, 0, map[], map[])
  {
    var bucket: map<string, string> := map[];
    assert bucket.Keys == {};
    NothingBucketed(before, after, strict, paths);
  }

  lemma AllSummarised(before: Summary, after: Summary, strict: bool, paths: set<string>, keys: seq<string>,
                      all: set<string>, bucket: map<string, string>, result: map<string, BeforeAndAfter>)
    requires Summarised(before, after, strict, paths, keys, |keys|, bucket, result) && SetOf(keys) == all
    ensures Bucketed(before, after, bucket.Keys, bucket, result) && OnlyLost(strict, all, bucket.Keys, result.Keys)
    ensures strict ==> bucket.Keys == all
    ensures |result| <= |paths| && result.Keys <= paths
  {
    hide Bucketed, OnlyLost;
    SetOfEnds(keys);
    LostUnder(strict, all, bucket.Keys, paths, result.Keys);
    SubsetSize(result.Keys, paths);
    assert |result| == |result.Keys|;
  }

  function Adding(before: Summary, after: Summary, result: map<string, BeforeAndAfter>, p: string, k: string)
    : BeforeAndAfter
  {
    AddCounts(if p in result then result[p] else NOTHING, Lookup(before, k), Lookup(after, k))
  }

  // collapseSummary: bucket tells where each key is counted.
  method CollapseSummary(before: Summary, after: Summary, limit: int)
    returns (result: map<string, BeforeAndAfter>, ghost bucket: map<string, string>, ghost steps: seq<set<string>>)
    requires Collapsible(before.Keys + after.Keys, limit)
    ensures Collapsing(before.Keys + after.Keys, limit, steps) && result.Keys <= steps[|steps| - 1]
    ensures Bucketed(before, after, bucket.Keys, bucket, result)
    ensures OnlyLost(Lossless(before.Keys + after.Keys, limit), before.Keys + after.Keys, bucket.Keys, result.Keys)
    ensures Lossless(before.Keys + after.Keys, limit) ==> bucket.Keys == before.Keys + after.Keys
    ensures |result| <= |before.Keys + after.Keys|
  {
    hide *;
    ghost var all := before.Keys + after.Keys;
    ghost var strict := Lossless(all, limit);
    var keys := ToStringSlice(before.Keys + after.Keys);
    ghost var listed := keys[..];
    var collapsed;
    collapsed, steps := CollapsePaths(keys, limit);
    ghost var sorted := keys[..];
    SameElements(listed, sorted);
    var paths := ToStringSlice(collapsed);
    ghost var above := paths[..];
    result, bucket := map[], map[];
    NothingSummarised(before, after, strict, collapsed, sorted);
    for i := 0 to keys.Length
      invariant keys[..] == sorted && paths[..] == above
      invariant Summarised(before, after, strict, collapsed, sorted, i, bucket, result)
    {
      var k := keys[i];
      var j := FirstAbove(k, paths);
      if j < paths.Length {
        var p := paths[j];
        IsElement(above, j);
        KeysAreDistinct(all, sorted, i);
        CountOneMore(before, after, strict, collapsed, sorted, i, bucket, result, p);
        result := result[p := Adding(before, after, result, p, k)];
        bucket := bucket[k := p];
      } else {
        NoPathAbove(strict, collapsed, sorted, above, k);
        LoseOneMore(before, after, strict, collapsed, sorted, i, bucket, result);
      }
    }
    AllSummarised(before, after, strict, collapsed, sorted, all, bucket, result);
  }

  lemma IsElement(paths: seq<string>, j: nat)
    requires j < |paths|
    ensures paths[j] in SetOf(paths)
  {
  }

  // Collapsing conserves the grand totals of the keys counted.
  lemma TotalsConserved(before: Summary, after: Summary, result: map<string, BeforeAndAfter>,
                        bucket: map<string, string>, c: Column)
    requires Bucketed(before, after, bucket.Keys, bucket, result)
    ensures Sum(result.Keys, PathCells(result, c)) == Sum(bucket.Keys, KeyCells(before, after, c))
  {
    hide KeyCells, HasPrefix;
    var group := (k: string) => if k in bucket then bucket[k] else "";
    forall p | p in result.Keys
      ensures PathCells(result, c)(p) == Sum(Part(bucket.Keys, group, p), KeyCells(before, after, c))
    {
      assert Part(bucket.Keys, group, p) == Bucket(bucket, p);
    }
    SumInGroups(bucket.Keys, KeyCells(before, after, c), group, result.Keys, PathCells(result, c));
  }

  // The column of a side, straight from its summary.
  ghost function SideCells(before: Summary, after: Summary, c: Column): string -> int {
    match c
    case PassingBefore => k => if k in before then before[k].passes else 0
    case PassingAfter => k => if k in after then after[k].passes else 0
    case TotalBefore => k => if k in before then before[k].total else 0
    case TotalAfter => k => if k in after then after[k].total else 0
  }

  function SideOf(before: Summary, after: Summary, c: Column): Summary {
    if c.PassingBefore? || c.TotalBefore? then before else after
  }

  // Each column adds up to what its own summary adds up to: all of it when no key
  // is lost.
  lemma SidesConserved(before: Summary, after: Summary, result: map<string, BeforeAndAfter>,
                       bucket: map<string, string>, c: Column)
    requires Bucketed(before, after, bucket.Keys, bucket, result)
    ensures var side := SideOf(before, after, c).Keys;
      && Sum(result.Keys, PathCells(result, c)) == Sum(side * bucket.Keys, SideCells(before, after, c))
      && (bucket.Keys == before.Keys + after.Keys ==> side * bucket.Keys == side)
  {
    hide Bucketed, PathCells, KeyCells, SideCells;
    var keys, side := bucket.Keys, SideOf(before, after, c).Keys;
    assert side <= before.Keys + after.Keys;
    TotalsConserved(before, after, result, bucket, c);
    forall k ensures KeyCells(before, after, c)(k) == SideCells(before, after, c)(k) {
      CellOfSide(before, after, k, c);
    }
    SumEqual(keys, KeyCells(before, after, c), SideCells(before, after, c));
    forall k | k in keys - side * keys ensures SideCells(before, after, c)(k) == 0 {
      NotOnSide(before, after, k, c);
    }
    SumOver(side * keys, keys, SideCells(before, after, c));
  }

  lemma CellOfSide(before: Summary, after: Summary, k: string, c: Column)
    ensures KeyCells(before, after, c)(k) == SideCells(before, after, c)(k)
  {
    match c
    case PassingBefore =>
    case PassingAfter =>
    case TotalBefore =>
    case TotalAfter =>
  }

  lemma NotOnSide(before: Summary, after: Summary, k: string, c: Column)
    requires k !in SideOf(before, after, c)
    ensures SideCells(before, after, c)(k) == 0
  {
    match c
    case PassingBefore =>
    case PassingAfter =>
    case TotalBefore =>
    case TotalAfter =>
  }
}
