// Names of generated tests and the files they come from (shared/manifest.go).
module TestNames {
  import opened Strings

  // ---- suffixes ----

  // Suffixes that differ in the character k places from the end.
  predicate DifferAt(a: string, b: string, k: nat) {
    k < |a| && k < |b| && a[|a| - 1 - k] != b[|b| - 1 - k]
  }

  lemma SuffixDiffers(x: string, a: string, b: string, k: nat)
    requires DifferAt(a, b, k)
    ensures !HasSuffix(x + a, b)
  {
    var s := x + a;
    assert s[|s| - 1 - k] == a[|a| - 1 - k];
    assert |b| <= |s| ==> s[|s| - |b|..][|b| - 1 - k] == s[|s| - 1 - k];
  }

  lemma SuffixSplits(x: string, a: string, b: string)
    ensures HasSuffix(x + b, a + b) <==> HasSuffix(x, a)
  {
    var s := x + b;
    if HasSuffix(s, a + b) {
      assert s[|s| - |a + b|..][..|a|] == (a + b)[..|a|] == a;
      assert s[|s| - |a + b|..][..|a|] == x[|x| - |a|..];
    }
    if HasSuffix(x, a) {
      assert s[|s| - |a + b|..] == x[|x| - |a|..] + b;
    }
  }

  lemma EndsWith(x: string, a: string)
    ensures HasSuffix(x + a, a) && (x + a)[..|x + a| - |a|] == x
  {
  }

  function TrimSuffix(s: string, suffix: string): string {
    if HasSuffix(s, suffix) then s[..|s| - |suffix|] else s
  }

  // ---- from files to tests ----

  const ANY_TESTS := [".any.html", ".any.worker.html", ".any.serviceworker.html", ".any.sharedworker.html"]

  function WithSuffixes(prefix: string, suffixes: seq<string>): seq<string> {
    seq(|suffixes|, i requires 0 <= i < |suffixes| => prefix + suffixes[i])
  }

  // The source ranges over a map; no file name has two of its suffixes.
  function ExplodePossibleFilenames(file: string): seq<string> {
    if HasSuffix(file, ".window.js") then WithSuffixes(TrimSuffix(file, ".window.js"), [".window.html"])
    else if HasSuffix(file, ".worker.js") then WithSuffixes(TrimSuffix(file, ".worker.js"), [".worker.html"])
    else if HasSuffix(file, ".any.js") then WithSuffixes(TrimSuffix(file, ".any.js"), ANY_TESTS)
    else []
  }

  // What each kind of file generates, and that nothing else does.
  lemma ExplodesExactly(x: string)
    ensures ExplodePossibleFilenames(x + ".window.js") == [x + ".window.html"]
    ensures ExplodePossibleFilenames(x + ".worker.js") == [x + ".worker.html"]
    ensures ExplodePossibleFilenames(x + ".any.js")
      == [x + ".any.html", x + ".any.worker.html", x + ".any.serviceworker.html", x + ".any.sharedworker.html"]
    ensures ExplodePossibleFilenames(x) != []
      ==> HasSuffix(x, ".window.js") || HasSuffix(x, ".worker.js") || HasSuffix(x, ".any.js")
  {
    hide HasSuffix;
    EndsWith(x, ".window.js");
    EndsWith(x, ".worker.js");
    EndsWith(x, ".any.js");
    SuffixesExclude(x + ".window.js");
    SuffixesExclude(x + ".worker.js");
    SuffixesExclude(x + ".any.js");
    assert WithSuffixes(x, [".window.html"]) == [x + ".window.html"];
    assert WithSuffixes(x, [".worker.html"]) == [x + ".worker.html"];
  }

  lemma SuffixesExclude(file: string)
    ensures !(HasSuffix(file, ".window.js") && HasSuffix(file, ".worker.js"))
    ensures !(HasSuffix(file, ".window.js") && HasSuffix(file, ".any.js"))
    ensures !(HasSuffix(file, ".worker.js") && HasSuffix(file, ".any.js"))
  {
    if HasSuffix(file, ".window.js") {
      Rejoin(file, ".window.js");
      SuffixDiffers(TrimSuffix(file, ".window.js"), ".window.js", ".worker.js", 3);
      SuffixDiffers(TrimSuffix(file, ".window.js"), ".window.js", ".any.js", 3);
    }
    if HasSuffix(file, ".worker.js") {
      Rejoin(file, ".worker.js");
      SuffixDiffers(TrimSuffix(file, ".worker.js"), ".worker.js", ".any.js", 3);
    }
  }

  lemma Rejoin(s: string, suffix: string)
    requires HasSuffix(s, suffix)
    ensures s == TrimSuffix(s, suffix) + suffix
  {
  }

  // ---- from tests to files ----

  // In this order: the .any. suffixes end in others.
  const IMPLOSIONS: seq<(string, string)> := [
    (".any.html", ".any.js"),
    (".any.worker.html", ".any.js"),
    (".any.serviceworker.html", ".any.js"),
    (".any.sharedworker.html", ".any.js"),
    (".window.html", ".window.js"),
    (".worker.html", ".worker.js")]

  // The first implosion whose test suffix fits.
  function Imploded(path: string, rules: seq<(string, string)>): string {
    if rules == [] then path
    else if HasSuffix(path, rules[0].0) then TrimSuffix(path, rules[0].0) + rules[0].1
    else Imploded(path, rules[1..])
  }

  function BeforeQuery(url: string): string {
    if '?' in url then url[..IndexOf(url, '?')] else url
  }

  function QueryOf(url: string): string {
    if '?' in url then url[IndexOf(url, '?')..] else ""
  }

  method ParseTestURL(testURL: string) returns (filePath: string, query: string)
    ensures filePath == Imploded(BeforeQuery(testURL), IMPLOSIONS) && query == QueryOf(testURL)
    ensures testURL == BeforeQuery(testURL) + query && '?' !in BeforeQuery(testURL)
    ensures query == "" || query[0] == '?'
  {
    filePath, query := testURL, "";
    if '?' in testURL {
      var qPos := IndexOf(testURL, '?');
      filePath, query := testURL[..qPos], testURL[qPos..];
    }
    ghost var path := filePath;
    for i := 0 to |IMPLOSIONS|
      invariant filePath == path && Imploded(path, IMPLOSIONS) == Imploded(path, IMPLOSIONS[i..])
    {
      var (testSuffix, fileSuffix) := IMPLOSIONS[i];
      assert IMPLOSIONS[i..][1..] == IMPLOSIONS[i + 1..];
      if HasSuffix(filePath, testSuffix) {
        filePath := TrimSuffix(filePath, testSuffix) + fileSuffix;
        break;
      }
    }
  }

  // Whether a test's name gives back its file.
  predicate ParsesBack(test: string, file: string) {
    Imploded(BeforeQuery(test), IMPLOSIONS) == file && QueryOf(test) == ""
  }

  // The n-th rule fits and no earlier one does.
  lemma {:induction false} ImplodedBy(x: string, suffix: string, n: nat, rules: seq<(string, string)>)
    requires n < |rules| && rules[n].0 == suffix
    requires forall m :: 0 <= m < n ==> !HasSuffix(x + suffix, rules[m].0)
    ensures Imploded(x + suffix, rules) == x + rules[n].1
  {
    if n == 0 {
      EndsWith(x, suffix);
    } else {
      assert rules[1..][n - 1] == rules[n];
      assert forall m :: 0 <= m < n - 1 ==> rules[1..][m] == rules[m + 1];
      ImplodedBy(x, suffix, n - 1, rules[1..]);
    }
  }

  lemma AnyImplodes(x: string, i: nat)
    requires i < |ANY_TESTS|
    ensures Imploded(x + ANY_TESTS[i], IMPLOSIONS) == x + ".any.js"
  {
    hide HasSuffix, Imploded;
    if i > 0 {
      SuffixDiffers(x, ANY_TESTS[i], ".any.html", 5);
    }
    if i > 1 {
      SuffixDiffers(x, ANY_TESTS[i], ".any.worker.html", 11);
    }
    if i > 2 {
      SuffixDiffers(x, ANY_TESTS[i], ".any.serviceworker.html", 11);
    }
    ImplodedBy(x, ANY_TESTS[i], i, IMPLOSIONS);
  }

  lemma WindowImplodes(x: string)
    ensures Imploded(x + ".window.html", IMPLOSIONS) == x + ".window.js"
  {
    hide HasSuffix, Imploded;
    SuffixDiffers(x, ".window.html", ".any.html", 5);
    SuffixDiffers(x, ".window.html", ".any.worker.html", 5);
    SuffixDiffers(x, ".window.html", ".any.serviceworker.html", 5);
    SuffixDiffers(x, ".window.html", ".any.sharedworker.html", 5);
    ImplodedBy(x, ".window.html", 4, IMPLOSIONS);
  }

  lemma AnyWorkerJoins()
    ensures ".any" + ".worker.html" == ".any.worker.html" == ANY_TESTS[1]
  {
    var joined := ".any" + ".worker.html";
    assert |joined| == 16;
    assert joined[..4] == ".any" && joined[4..] == ".worker.html";
    assert ".any.worker.html"[..4] == ".any" && ".any.worker.html"[4..] == ".worker.html";
  }

  lemma WorkerImplodes(x: string)
    requires !HasSuffix(x, ".any")
    ensures Imploded(x + ".worker.html", IMPLOSIONS) == x + ".worker.js"
  {
    AnyWorkerJoins();
    SuffixSplits(x, ".any", ".worker.html");
    hide HasSuffix, Imploded;
    SuffixDiffers(x, ".worker.html", ".any.html", 5);
    SuffixDiffers(x, ".worker.html", ".any.serviceworker.html", 11);
    SuffixDiffers(x, ".worker.html", ".any.sharedworker.html", 11);
    SuffixDiffers(x, ".worker.html", ".window.html", 5);
    ImplodedBy(x, ".worker.html", 5, IMPLOSIONS);
  }

  // The file each kind of test is generated from, and that any other test is its
  // own file.
  lemma ImplodesExactly(x: string)
    ensures Imploded(x + ".any.html", IMPLOSIONS) == x + ".any.js"
    ensures Imploded(x + ".any.worker.html", IMPLOSIONS) == x + ".any.js"
    ensures Imploded(x + ".any.serviceworker.html", IMPLOSIONS) == x + ".any.js"
    ensures Imploded(x + ".any.sharedworker.html", IMPLOSIONS) == x + ".any.js"
    ensures Imploded(x + ".window.html", IMPLOSIONS) == x + ".window.js"
    ensures !HasSuffix(x, ".any") ==> Imploded(x + ".worker.html", IMPLOSIONS) == x + ".worker.js"
    ensures Imploded(x, IMPLOSIONS) != x ==>
      || HasSuffix(x, ".any.html") || HasSuffix(x, ".any.serviceworker.html") || HasSuffix(x, ".any.sharedworker.html")
      || HasSuffix(x, ".window.html") || HasSuffix(x, ".worker.html")
  {
    hide HasSuffix, Imploded;
    forall i: nat | i < 4 ensures Imploded(x + ANY_TESTS[i], IMPLOSIONS) == x + ".any.js" {
      AnyImplodes(x, i);
    }
    assert ANY_TESTS[0] == ".any.html" && ANY_TESTS[1] == ".any.worker.html"
      && ANY_TESTS[2] == ".any.serviceworker.html" && ANY_TESTS[3] == ".any.sharedworker.html";
    WindowImplodes(x);
    if !HasSuffix(x, ".any") {
      WorkerImplodes(x);
    }
    if forall m :: 0 <= m < |IMPLOSIONS| ==> !HasSuffix(x, IMPLOSIONS[m].0) {
      NothingImplodes(x, IMPLOSIONS);
    } else if HasSuffix(x, ".any.worker.html") {
      AnyWorkerIsWorker(x);
    } else {
      var m :| 0 <= m < |IMPLOSIONS| && HasSuffix(x, IMPLOSIONS[m].0);
      assert m == 0 || m == 2 || m == 3 || m == 4 || m == 5;
    }
  }

  lemma AnyWorkerIsWorker(x: string)
    requires HasSuffix(x, ".any.worker.html")
    ensures HasSuffix(x, ".worker.html")
  {
    AnyWorkerJoins();
  }

  lemma {:induction false} NothingImplodes(x: string, rules: seq<(string, string)>)
    requires forall m :: 0 <= m < |rules| ==> !HasSuffix(x, rules[m].0)
    ensures Imploded(x, rules) == x
  {
    if rules != [] {
      assert forall m :: 0 <= m < |rules| - 1 ==> rules[1..][m] == rules[m + 1];
      NothingImplodes(x, rules[1..]);
    }
  }

  lemma NoQuery(x: string, suffix: string)
    requires '?' !in suffix
    ensures '?' in x <==> '?' in x + suffix
    ensures '?' in x <==> QueryOf(x + suffix) != ""
    ensures '?' !in x ==> BeforeQuery(x + suffix) == x + suffix
  {
    assert forall c :: c in x + suffix <==> c in x || c in suffix;
  }

  lemma AnyParsesBack(file: string, i: nat)
    requires HasSuffix(file, ".any.js") && i < |ANY_TESTS|
    ensures !HasSuffix(file, ".any.worker.js")
    ensures ParsesBack(TrimSuffix(file, ".any.js") + ANY_TESTS[i], file) <==> '?' !in file
  {
    hide HasSuffix, Imploded, TrimSuffix;
    var x := TrimSuffix(file, ".any.js");
    Rejoin(file, ".any.js");
    SuffixDiffers(x, ".any.js", ".any.worker.js", 3);
    AnyImplodes(x, i);
    NoQuery(x, ".any.js");
    NoQuery(x, ANY_TESTS[i]);
  }

  lemma WindowParsesBack(file: string)
    requires HasSuffix(file, ".window.js")
    ensures !HasSuffix(file, ".any.worker.js")
    ensures ParsesBack(TrimSuffix(file, ".window.js") + ".window.html", file) <==> '?' !in file
  {
    hide HasSuffix, Imploded, TrimSuffix;
    var x := TrimSuffix(file, ".window.js");
    Rejoin(file, ".window.js");
    SuffixDiffers(x, ".window.js", ".any.worker.js", 3);
    WindowImplodes(x);
    NoQuery(x, ".window.js");
    NoQuery(x, ".window.html");
  }

  // "x.any.worker.js" becomes "x.any.worker.html", which comes back as "x.any.js".
  lemma AnyWorkerParsesElsewhere(x: string)
    requires HasSuffix(x, ".any")
    ensures Imploded(x + ".worker.html", IMPLOSIONS) != x + ".worker.js"
  {
    hide HasSuffix, Imploded, TrimSuffix;
    var y := TrimSuffix(x, ".any");
    Rejoin(x, ".any");
    AnyImplodes(y, 1);
    var both := ".any" + ".worker.html";
    AnyWorkerJoins();
    assert y + both == x + ".worker.html";
    assert |Imploded(y + both, IMPLOSIONS)| == |y| + 7 && |x| == |y| + 4;
  }

  lemma WorkerParsesBack(file: string)
    requires HasSuffix(file, ".worker.js")
    ensures ParsesBack(TrimSuffix(file, ".worker.js") + ".worker.html", file)
      <==> '?' !in file && !HasSuffix(file, ".any.worker.js")
  {
    var x := TrimSuffix(file, ".worker.js");
    Rejoin(file, ".worker.js");
    hide HasSuffix, Imploded, TrimSuffix, BeforeQuery, QueryOf;
    assert ".any.worker.js" == ".any" + ".worker.js";
    SuffixSplits(x, ".any", ".worker.js");
    NoQuery(x, ".worker.js");
    NoQuery(x, ".worker.html");
    if HasSuffix(x, ".any") {
      AnyWorkerParsesElsewhere(x);
    } else {
      WorkerImplodes(x);
    }
  }

  // A generated test's name gives back its file exactly when the name of the
  // file has no query mark and does not end in ".any.worker.js".
  lemma ExplodedParsesBackIff(file: string, i: nat)
    requires i < |ExplodePossibleFilenames(file)|
    ensures ParsesBack(ExplodePossibleFilenames(file)[i], file)
      <==> '?' !in file && !HasSuffix(file, ".any.worker.js")
  {
    hide HasSuffix, Imploded, TrimSuffix, ParsesBack;
    SuffixesExclude(file);
    if HasSuffix(file, ".window.js") {
      WindowParsesBack(file);
    } else if HasSuffix(file, ".worker.js") {
      WorkerParsesBack(file);
    } else {
      AnyParsesBack(file, i);
    }
  }
}
