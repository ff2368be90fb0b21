// Answering a metadata query from the metadata files (shared/metadata.go), and
// what of the triaged metadata such an answer shows.
module MetadataResponse {
  import opened Wrappers
  import opened Strings
  import opened Products
  import opened Metadata
  import opened FiniteSums
  import Triage

  // ---- what one result contributes ----

  // addResponseLink's new link: the test path is the key it is filed under.
  function ResponseLink(link: Link, r: TestFilter): Link {
    link.(results := if r.subtest.Some? || r.status.Some? then [TestFilter("", r.subtest, r.status)] else [])
  }

  predicate MatchesAny(link: Link, specs: seq<ProductSpec>) {
    exists i :: 0 <= i < |specs| && MatchesProductSpec(link.product, specs[i])
  }

  predicate IsTestLevel(link: Link) {
    link.product.at.product.browserName == ""
  }

  // Once as test-level metadata, once for the products asked for.
  function Copies(link: Link, r: TestFilter, specs: seq<ProductSpec>, includeTestLevel: bool): Links {
    (if IsTestLevel(link) && includeTestLevel then [ResponseLink(link, r)] else [])
    + (if MatchesAny(link, specs) then [ResponseLink(link, r)] else [])
  }

  // What the first n results of a link, the first n links of a folder, contribute
  // to the answer for a test.
  function LinkAnswer(folder: string, link: Link, n: nat, specs: seq<ProductSpec>, includeTestLevel: bool, test: string)
    : Links
    requires n <= |link.results|
  {
    if n == 0 then [] else
      LinkAnswer(folder, link, n - 1, specs, includeTestLevel, test)
      + (if GetWPTTestPath(folder, link.results[n - 1].testPath) == test
         then Copies(link, link.results[n - 1], specs, includeTestLevel) else [])
  }

  function FolderAnswer(folder: string, links: Links, n: nat, specs: seq<ProductSpec>, includeTestLevel: bool,
                        test: string)
    : Links
    requires n <= |links|
  {
    if n == 0 then [] else
      FolderAnswer(folder, links, n - 1, specs, includeTestLevel, test)
      + LinkAnswer(folder, links[n - 1], |links[n - 1].results|, specs, includeTestLevel, test)
  }

  lemma CopiesHave(link: Link, r: TestFilter, specs: seq<ProductSpec>, includeTestLevel: bool)
    requires MatchesAny(link, specs)
    ensures ResponseLink(link, r) in Copies(link, r, specs, includeTestLevel)
  {
  }

  // A result's copies are in the answer for its test.
  lemma {:induction false} LinkAnswerHas(
      folder: string, link: Link, n: nat, specs: seq<ProductSpec>, includeTestLevel: bool, test: string, k: nat)
    requires k < n <= |link.results| && GetWPTTestPath(folder, link.results[k].testPath) == test
    requires MatchesAny(link, specs)
    ensures ResponseLink(link, link.results[k]) in LinkAnswer(folder, link, n, specs, includeTestLevel, test)
  {
    hide GetWPTTestPath, ResponseLink, MatchesAny, Copies;
    CopiesHave(link, link.results[k], specs, includeTestLevel);
    if k < n - 1 {
      LinkAnswerHas(folder, link, n - 1, specs, includeTestLevel, test, k);
    }
  }

  lemma {:induction false} FolderAnswerHas(
      folder: string, links: Links, n: nat, specs: seq<ProductSpec>, includeTestLevel: bool, test: string,
      i: nat, k: nat)
    requires i < n <= |links| && k < |links[i].results|
    requires GetWPTTestPath(folder, links[i].results[k].testPath) == test && MatchesAny(links[i], specs)
    ensures ResponseLink(links[i], links[i].results[k]) in FolderAnswer(folder, links, n, specs, includeTestLevel, test)
  {
    hide GetWPTTestPath, ResponseLink, MatchesAny, LinkAnswer;
    if i < n - 1 {
      FolderAnswerHas(folder, links, n - 1, specs, includeTestLevel, test, i, k);
    } else {
      LinkAnswerHas(folder, links[i], |links[i].results|, specs, includeTestLevel, test, k);
    }
  }

  // x is what result k of link i says of the test, for a product asked for.
  ghost predicate SaidAt(folder: string, links: Links, i: nat, k: nat, specs: seq<ProductSpec>, includeTestLevel: bool,
                         test: string, x: Link)
  {
    && i < |links| && k < |links[i].results| && ResponseLink(links[i], links[i].results[k]) == x
    && GetWPTTestPath(folder, links[i].results[k].testPath) == test
    && (MatchesAny(links[i], specs) || (IsTestLevel(links[i]) && includeTestLevel))
  }

  // Nothing is answered that no link says of the test and a matching product.
  ghost predicate SaidBy(
      folder: string, links: Links, specs: seq<ProductSpec>, includeTestLevel: bool, test: string, x: Link)
  {
    exists i: nat, k: nat :: SaidAt(folder, links, i, k, specs, includeTestLevel, test, x)
  }

  lemma {:induction false} LinkAnswerSound(
      folder: string, links: Links, i: nat, n: nat, specs: seq<ProductSpec>, includeTestLevel: bool, test: string,
      x: Link)
    requires i < |links| && n <= |links[i].results|
    requires x in LinkAnswer(folder, links[i], n, specs, includeTestLevel, test)
    ensures SaidBy(folder, links, specs, includeTestLevel, test, x)
  {
    hide GetWPTTestPath, ResponseLink, MatchesAny, IsTestLevel;
    if n > 0 {
      if x in LinkAnswer(folder, links[i], n - 1, specs, includeTestLevel, test) {
        LinkAnswerSound(folder, links, i, n - 1, specs, includeTestLevel, test, x);
      } else {
        assert x in Copies(links[i], links[i].results[n - 1], specs, includeTestLevel);
        assert SaidAt(folder, links, i, n - 1, specs, includeTestLevel, test, x);
      }
    }
  }

  lemma {:induction false} FolderAnswerSound(
      folder: string, links: Links, n: nat, specs: seq<ProductSpec>, includeTestLevel: bool, test: string, x: Link)
    requires n <= |links| && x in FolderAnswer(folder, links, n, specs, includeTestLevel, test)
    ensures SaidBy(folder, links, specs, includeTestLevel, test, x)
  {
    hide SaidBy, LinkAnswer;
    if n > 0 {
      if x in FolderAnswer(folder, links, n - 1, specs, includeTestLevel, test) {
        FolderAnswerSound(folder, links, n - 1, specs, includeTestLevel, test, x);
      } else {
        LinkAnswerSound(folder, links, n - 1, |links[n - 1].results|, specs, includeTestLevel, test, x);
      }
    }
  }

  // ---- the whole answer ----

  // x repeats a result under its link, the test path left out; a result for every
  // subtest and status needs no repeating.
  ghost predicate Repeats(x: Link, link: Link, r: TestFilter) {
    && x.product == link.product && x.url == link.url && x.linkLabel == link.linkLabel
    && x.results == if r.subtest == None && r.status == None then [] else [TestFilter("", r.subtest, r.status)]
  }

  // Result k of link i is about the test, and repeated by x.
  ghost predicate RepeatedAt(folder: string, links: Links, i: nat, k: nat, test: string, x: Link)
    requires i < |links| && k < |links[i].results|
  {
    && (if folder == "" then "/" + links[i].results[k].testPath else "/" + folder + "/" + links[i].results[k].testPath)
      == test
    && Repeats(x, links[i], links[i].results[k])
  }

  ghost predicate IsBefore(i: nat, k: nat, n: nat, m: nat) {
    i < n || (i == n && k < m)
  }

  // The marked results before the m-th of link n.
  ghost function Marked(links: Links, n: nat, m: nat, mark: (nat, nat) -> bool): set<(nat, nat)> {
    set i: nat, k: nat | i < |links| && k < |links[i].results| && IsBefore(i, k, n, m) && mark(i, k) :: (i, k)
  }

  lemma OneMoreMarked(links: Links, n: nat, m: nat, mark: (nat, nat) -> bool)
    requires n < |links| && m < |links[n].results|
    ensures |Marked(links, n, m + 1, mark)| == |Marked(links, n, m, mark)| + (if mark(n, m) then 1 else 0)
  {
    forall i: nat, k: nat ensures IsBefore(i, k, n, m + 1) <==> IsBefore(i, k, n, m) || (i == n && k == m) {
    }
    assert !IsBefore(n, m, n, m);
    hide IsBefore;
    var was, now := Marked(links, n, m, mark), Marked(links, n, m + 1, mark);
    assert (n, m) !in was;
    if mark(n, m) {
      assert now == was + {(n, m)};
    } else {
      assert now == was;
    }
  }

  lemma NextLinkMarked(links: Links, n: nat, mark: (nat, nat) -> bool)
    requires n < |links|
    ensures Marked(links, n + 1, 0, mark) == Marked(links, n, |links[n].results|, mark)
  {
  }

  // The results that x repeats at test level, as the product of their link names
  // no browser.
  ghost function AtTestLevel(folder: string, links: Links, includeTestLevel: bool, test: string, x: Link)
    : (nat, nat) -> bool
  {
    (i: nat, k: nat) =>
      && i < |links| && k < |links[i].results| && RepeatedAt(folder, links, i, k, test, x)
      && includeTestLevel && links[i].product.at.product.browserName == ""
  }

  // Those that x repeats as the product of their link matches one asked for.
  ghost function ForProducts(folder: string, links: Links, specs: seq<ProductSpec>, test: string, x: Link)
    : (nat, nat) -> bool
  {
    (i: nat, k: nat) =>
      && i < |links| && k < |links[i].results| && RepeatedAt(folder, links, i, k, test, x)
      && MatchesAny(links[i], specs)
  }

  // How often x answers for the test: once for each of either.
  ghost function Due(folder: string, links: Links, n: nat, m: nat, specs: seq<ProductSpec>, includeTestLevel: bool,
                     test: string, x: Link): nat
  {
    |Marked(links, n, m, AtTestLevel(folder, links, includeTestLevel, test, x))|
    + |Marked(links, n, m, ForProducts(folder, links, specs, test, x))|
  }

  lemma OneMoreDue(folder: string, links: Links, n: nat, m: nat, specs: seq<ProductSpec>, includeTestLevel: bool,
                   test: string, x: Link)
    requires n < |links| && m < |links[n].results|
    ensures Due(folder, links, n, m + 1, specs, includeTestLevel, test, x)
      == Due(folder, links, n, m, specs, includeTestLevel, test, x)
         + (if RepeatedAt(folder, links, n, m, test, x)
            then (if includeTestLevel && links[n].product.at.product.browserName == "" then 1 else 0)
              + (if MatchesAny(links[n], specs) then 1 else 0)
            else 0)
  {
    hide RepeatedAt, MatchesAny, Marked;
    OneMoreMarked(links, n, m, AtTestLevel(folder, links, includeTestLevel, test, x));
    OneMoreMarked(links, n, m, ForProducts(folder, links, specs, test, x));
  }

  lemma NextLinkDue(folder: string, links: Links, n: nat, specs: seq<ProductSpec>, includeTestLevel: bool,
                    test: string, x: Link)
    requires n < |links|
    ensures Due(folder, links, n + 1, 0, specs, includeTestLevel, test, x)
      == Due(folder, links, n, |links[n].results|, specs, includeTestLevel, test, x)
  {
    hide Marked, AtTestLevel, ForProducts;
    NextLinkMarked(links, n, AtTestLevel(folder, links, includeTestLevel, test, x));
    NextLinkMarked(links, n, ForProducts(folder, links, specs, test, x));
  }

  lemma NothingDue(folder: string, links: Links, specs: seq<ProductSpec>, includeTestLevel: bool, test: string, x: Link)
    ensures Due(folder, links, 0, 0, specs, includeTestLevel, test, x) == 0
  {
    hide AtTestLevel, ForProducts;
    assert Marked(links, 0, 0, AtTestLevel(folder, links, includeTestLevel, test, x)) == {};
    assert Marked(links, 0, 0, ForProducts(folder, links, specs, test, x)) == {};
  }

  lemma CopiesDue(folder: string, links: Links, n: nat, m: nat, specs: seq<ProductSpec>, includeTestLevel: bool,
                  test: string, x: Link)
    requires n < |links| && m < |links[n].results|
    ensures multiset(if GetWPTTestPath(folder, links[n].results[m].testPath) == test
                     then Copies(links[n], links[n].results[m], specs, includeTestLevel) else [])[x]
      == if RepeatedAt(folder, links, n, m, test, x)
         then (if includeTestLevel && links[n].product.at.product.browserName == "" then 1 else 0)
           + (if MatchesAny(links[n], specs) then 1 else 0)
         else 0
  {
    hide MatchesAny;
    assert Repeats(x, links[n], links[n].results[m]) <==> x == ResponseLink(links[n], links[n].results[m]);
  }

  lemma {:induction false} LinkAnswerIsDue(
      folder: string, links: Links, n: nat, m: nat, specs: seq<ProductSpec>, includeTestLevel: bool, test: string,
      x: Link)
    requires n < |links| && m <= |links[n].results|
    ensures Due(folder, links, n, m, specs, includeTestLevel, test, x)
      == Due(folder, links, n, 0, specs, includeTestLevel, test, x)
         + multiset(LinkAnswer(folder, links[n], m, specs, includeTestLevel, test))[x]
  {
    hide Due, RepeatedAt, MatchesAny, GetWPTTestPath, Copies;
    if m > 0 {
      LinkAnswerIsDue(folder, links, n, m - 1, specs, includeTestLevel, test, x);
      OneMoreDue(folder, links, n, m - 1, specs, includeTestLevel, test, x);
      CopiesDue(folder, links, n, m - 1, specs, includeTestLevel, test, x);
    }
  }

  // A folder answers x for a test once for each of its results about the test that
  // x repeats at test level, and once for each that it repeats for the products
  // asked for: no less and no more.
  lemma {:induction false} FolderAnswerIsDue(
      folder: string, links: Links, n: nat, specs: seq<ProductSpec>, includeTestLevel: bool, test: string, x: Link)
    requires n <= |links|
    ensures multiset(FolderAnswer(folder, links, n, specs, includeTestLevel, test))[x]
      == Due(folder, links, n, 0, specs, includeTestLevel, test, x)
  {
    hide LinkAnswer, Due;
    if n > 0 {
      FolderAnswerIsDue(folder, links, n - 1, specs, includeTestLevel, test, x);
      LinkAnswerIsDue(folder, links, n - 1, |links[n - 1].results|, specs, includeTestLevel, test, x);
      NextLinkDue(folder, links, n - 1, specs, includeTestLevel, test, x);
    } else {
      NothingDue(folder, links, specs, includeTestLevel, test, x);
    }
  }

  ghost function FolderCount(metadata: Files, specs: seq<ProductSpec>, includeTestLevel: bool, test: string, x: Link)
    : string -> int
  {
    folder =>
      if folder in metadata
      then Due(folder, metadata[folder], |metadata[folder]|, 0, specs, includeTestLevel, test, x)
      else 0
  }

  // The answer holds, for each test, what is due from the folders in done.
  ghost predicate Collected(
      metadata: Files, specs: seq<ProductSpec>, includeTestLevel: bool, done: set<string>, res: Files)
  {
    forall test, x :: multiset(LinksAt(res, test))[x]
      == Sum(done, FolderCount(metadata, specs, includeTestLevel, test, x))
  }

  // addResponseLink.
  method AddResponseLink(test: string, link: Link, r: TestFilter, outMap: Files) returns (res: Files)
    ensures forall t :: LinksAt(res, t) == LinksAt(outMap, t) + (if t == test then [ResponseLink(link, r)] else [])
  {
    var newLink := Link(link.product, link.url, link.linkLabel, []);
    if r.subtest.Some? || r.status.Some? {
      newLink := newLink.(results := [TestFilter("", r.subtest, r.status)]);
    }
    if test !in outMap {
      return outMap[test := [newLink]];
    }
    return outMap[test := outMap[test] + [newLink]];
  }

  // The body of the loop over a link's results.
  method AnswerResult(folder: string, link: Link, r: TestFilter, specs: seq<ProductSpec>, includeTestLevel: bool,
                      was: Files)
    returns (res: Files)
    ensures forall t :: (LinksAt(res, t) == LinksAt(was, t)
      + (if GetWPTTestPath(folder, r.testPath) == t then Copies(link, r, specs, includeTestLevel) else []))
  {
    var fullTestName := GetWPTTestPath(folder, r.testPath);
    res := was;
    if link.product.at.product.browserName == "" && includeTestLevel {
      res := AddResponseLink(fullTestName, link, r, res);
    }
    ghost var before := res;
    var i := 0;
    while i < |specs| && !MatchesProductSpec(link.product, specs[i])
      invariant i <= |specs| && forall j :: 0 <= j < i ==> !MatchesProductSpec(link.product, specs[j])
    {
      i := i + 1;
    }
    if i < |specs| {
      res := AddResponseLink(fullTestName, link, r, res);
    }
  }

  // The loops over the links of a folder and their results.
  method AnswerFolder(folder: string, links: Links, specs: seq<ProductSpec>, includeTestLevel: bool, was: Files)
    returns (res: Files)
    ensures forall t :: (LinksAt(res, t)
      == LinksAt(was, t) + FolderAnswer(folder, links, |links|, specs, includeTestLevel, t))
  {
    hide LinksAt, Copies, GetWPTTestPath;
    res := was;
    for n := 0 to |links|
      invariant forall t ::
        LinksAt(res, t) == LinksAt(was, t) + FolderAnswer(folder, links, n, specs, includeTestLevel, t)
    {
      ghost var before := res;
      for m := 0 to |links[n].results|
        invariant forall t :: (LinksAt(res, t)
          == LinksAt(before, t) + LinkAnswer(folder, links[n], m, specs, includeTestLevel, t))
      {
        ghost var last := res;
        res := AnswerResult(folder, links[n], links[n].results[m], specs, includeTestLevel, res);
      }
    }
  }

  lemma CollectedOneMore(metadata: Files, specs: seq<ProductSpec>, includeTestLevel: bool, done: set<string>,
                         was: Files, res: Files, folder: string)
    requires Collected(metadata, specs, includeTestLevel, done, was) && folder in metadata && folder !in done
    requires forall t :: (LinksAt(res, t) == LinksAt(was, t)
      + FolderAnswer(folder, metadata[folder], |metadata[folder]|, specs, includeTestLevel, t))
    ensures Collected(metadata, specs, includeTestLevel, done + {folder}, res)
  {
    hide LinksAt, FolderAnswer, Due;
    forall test, x ensures multiset(LinksAt(res, test))[x]
      == Sum(done + {folder}, FolderCount(metadata, specs, includeTestLevel, test, x))
    {
      SumWith(done, FolderCount(metadata, specs, includeTestLevel, test, x), folder);
      FolderAnswerIsDue(folder, metadata[folder], |metadata[folder]|, specs, includeTestLevel, test, x);
      assert multiset(LinksAt(was, test))[x] == Sum(done, FolderCount(metadata, specs, includeTestLevel, test, x));
    }
  }

  // constructMetadataResponse, whatever the order of the files.
  method ConstructMetadataResponse(specs: seq<ProductSpec>, includeTestLevel: bool, metadata: Files)
    returns (res: Files)
    ensures Collected(metadata, specs, includeTestLevel, metadata.Keys, res)
  {
    hide Collected, FolderAnswer;
    res := map[];
    var todo := metadata.Keys;
    NothingCollected(metadata, specs, includeTestLevel);
    assert metadata.Keys - todo == {};
    while todo != {}
      invariant todo <= metadata.Keys
      invariant Collected(metadata, specs, includeTestLevel, metadata.Keys - todo, res)
      decreases todo
    {
      var folder :| folder in todo;
      ghost var was := res;
      res := AnswerFolder(folder, metadata[folder], specs, includeTestLevel, res);
      CollectedOneMore(metadata, specs, includeTestLevel, metadata.Keys - todo, was, res, folder);
      assert metadata.Keys - todo + {folder} == metadata.Keys - (todo - {folder});
      todo := todo - {folder};
    }
    assert metadata.Keys - todo == metadata.Keys;
  }

  lemma NothingCollected(metadata: Files, specs: seq<ProductSpec>, includeTestLevel: bool)
    ensures Collected(metadata, specs, includeTestLevel, {}, map[])
  {
  }

  // ---- triage and answer together ----

  // Every result triaged for a test names that test again when its file is read.
  lemma TriagedNamesItsTest(metadata: Files, test: string, j: nat, k: nat)
    requires test in metadata && j < |metadata[test]| && HasPrefix(test, "/") && !EmptyFolder(test)
    requires k < |Triage.NewLinks(metadata, test)[j].results|
    ensures GetWPTTestPath(Triage.FolderOf(test), Triage.NewLinks(metadata, test)[j].results[k].testPath) == test
    ensures |Triage.NewLinks(metadata, test)[j].results| >= 1
  {
    SplitRebuildsIff(test);
  }

  // A triaged result is answered for every product spec that the link it landed
  // under matches.
  lemma TriagedIsAnswered(metadata: Files, files: Files, test: string, j: nat, k: nat, spec: ProductSpec,
                          i: nat, from: nat, to: nat)
    requires test in metadata && j < |metadata[test]| && HasPrefix(test, "/") && !EmptyFolder(test)
    requires Triage.FolderOf(test) in files
    requires var link := Triage.NewLinks(metadata, test)[j];
      Triage.LandsAt(files[Triage.FolderOf(test)], link, i, from, to) && k < |link.results|
    requires MatchesProductSpec(files[Triage.FolderOf(test)][i].product, spec)
    ensures var folder, link := Triage.FolderOf(test), Triage.NewLinks(metadata, test)[j];
      ResponseLink(files[folder][i], link.results[k])
        in FolderAnswer(folder, files[folder], |files[folder]|, [spec], false, test)
  {
    var folder, link := Triage.FolderOf(test), Triage.NewLinks(metadata, test)[j];
    TriagedNamesItsTest(metadata, test, j, k);
    assert files[folder][i].results[from + k] == files[folder][i].results[from..to][k] == link.results[k];
    assert MatchesProductSpec(files[folder][i].product, [spec][0]);
    FolderAnswerHas(folder, files[folder], |files[folder]|, [spec], false, test, i, from + k);
  }

  // An answer says the same after further links are merged in.
  lemma AnswerStays(folder: string, before: Links, after: Links, i: nat, k: nat, spec: ProductSpec, test: string)
    requires Triage.Kept(before, after) && i < |before| && k < |before[i].results|
    requires GetWPTTestPath(folder, before[i].results[k].testPath) == test
    requires MatchesProductSpec(before[i].product, spec)
    ensures ResponseLink(before[i], before[i].results[k]) in FolderAnswer(folder, after, |after|, [spec], false, test)
  {
    hide GetWPTTestPath, MatchesProductSpec, FolderAnswer;
    assert Triage.Grown(before[i], after[i]) && after[i].results[k] == before[i].results[k];
    assert MatchesProductSpec(after[i].product, [spec][0]);
    FolderAnswerHas(folder, after, |after|, [spec], false, test, i, k);
  }

  // ---- which products a triaged link is answered for ----

  // A spec that matches another matches whatever that one matches: the other has
  // no full hash, like every spec that was parsed from text.
  lemma MatchIsTransitive(a: ProductSpec, b: ProductSpec, c: ProductSpec)
    requires MatchesProductSpec(a, b) && MatchesProductSpec(b, c) && b.at.fullRevisionHash == ""
    ensures MatchesProductSpec(a, c)
  {
    VersionsMatch(a.at.product.browserVersion, b.at.product.browserVersion, c.at.product.browserVersion);
  }

  lemma VersionsMatch(a: string, b: string, c: string)
    requires MatchesVersion(a, b) && MatchesVersion(b, c)
    ensures MatchesVersion(a, c)
  {
    assert a != "" && b == "" ==> |a + "."| > |b + "."|;
  }

  // Where the results of a triaged link land.
  function Home(links: Links, link: Link): (i: nat)
    ensures i <= |links|
    ensures i < |links| ==> Triage.TakesIn(links[i], link)
    ensures forall k :: 0 <= k < i ==> !Triage.TakesIn(links[k], link)
  {
    if links == [] || Triage.TakesIn(links[0], link) then 0 else
      var i := Home(links[1..], link);
      assert forall k :: 0 < k < i + 1 ==> links[k] == links[1..][k - 1];
      i + 1
  }

  // The link they land under, and where among its results.
  lemma MergedAtHome(links: Links, link: Link)
    ensures var i, merged := Home(links, link), Triage.Merged(links, link);
      && i < |merged|
      && merged[i].product == (if i < |links| then links[i].product else link.product)
      && merged[i].results == (if i < |links| then links[i].results else []) + link.results
      && merged[i].url == link.url && merged[i].linkLabel == link.linkLabel
  {
    var i := Home(links, link);
    if i < |links| {
      Triage.MergedAt(links, link, i);
    } else {
      Triage.MergedLast(links, link);
      assert [] + link.results == link.results;
    }
  }

  // What is to be answered for the k-th result of a triaged link.
  function AnswerFor(links: Links, link: Link, k: nat): Link
    requires k < |link.results|
  {
    var i := Home(links, link);
    ResponseLink(if i < |links| then links[i] else link, link.results[k])
  }

  ghost predicate IsAnswered(folder: string, links: Links, link: Link, k: nat, spec: ProductSpec, test: string)
    requires k < |link.results|
  {
    var merged := Triage.Merged(links, link);
    AnswerFor(links, link, k) in FolderAnswer(folder, merged, |merged|, [spec], false, test)
  }

  // One result, one product: answered exactly when the link it lands under, or
  // would have landed under, matches that product.
  lemma AnsweredForOne(folder: string, links: Links, link: Link, k: nat, spec: ProductSpec, test: string)
    requires k < |link.results| && GetWPTTestPath(folder, link.results[k].testPath) == test
    ensures IsAnswered(folder, links, link, k, spec, test) <==>
      MatchesProductSpec(if Home(links, link) < |links| then links[Home(links, link)].product else link.product, spec)
  {
    var i, merged := Home(links, link), Triage.Merged(links, link);
    MergedAtHome(links, link);
    hide GetWPTTestPath, MatchesProductSpec, FolderAnswer, Home, Triage.Merged;
    var at := |merged[i].results| - |link.results| + k;
    assert merged[i].results[at] == link.results[k];
    var x := AnswerFor(links, link, k);
    assert ResponseLink(merged[i], merged[i].results[at]) == x;
    if MatchesProductSpec(merged[i].product, spec) {
      assert MatchesProductSpec(merged[i].product, [spec][0]);
      FolderAnswerHas(folder, merged, |merged|, [spec], false, test, i, at);
    } else if x in FolderAnswer(folder, merged, |merged|, [spec], false, test) {
      FolderAnswerSound(folder, merged, |merged|, [spec], false, test, x);
      SaidOfProduct(folder, merged, spec, test, x);
    }
  }

  lemma SaidOfProduct(folder: string, links: Links, spec: ProductSpec, test: string, x: Link)
    requires SaidBy(folder, links, [spec], false, test, x)
    ensures MatchesProductSpec(x.product, spec)
  {
    hide GetWPTTestPath, MatchesProductSpec;
    var i: nat, k: nat :| SaidAt(folder, links, i, k, [spec], false, test, x);
  }

  // A triaged link is answered, for every one of its results, for every product it
  // was triaged for, exactly when no existing link takes it in or the first that
  // does is for a product that matches the triaged one.
  lemma TriagedIsAnsweredIff(folder: string, links: Links, link: Link, test: string)
    requires link.results != [] && link.product.at.fullRevisionHash == ""
    requires forall r | r in link.results :: GetWPTTestPath(folder, r.testPath) == test
    ensures (forall spec, k: nat | MatchesProductSpec(link.product, spec) && k < |link.results| ::
               IsAnswered(folder, links, link, k, spec, test))
      <==> Home(links, link) == |links| || MatchesProductSpec(links[Home(links, link)].product, link.product)
  {
    hide MatchesProductSpec, IsAnswered, GetWPTTestPath;
    var i := Home(links, link);
    forall spec, k: nat | k < |link.results|
      ensures IsAnswered(folder, links, link, k, spec, test)
        <==> MatchesProductSpec(if i < |links| then links[i].product else link.product, spec)
    {
      AnsweredForOne(folder, links, link, k, spec, test);
    }
    MatchesItself(link.product);
    AnsweredForOne(folder, links, link, 0, link.product, test);
    if i < |links| && MatchesProductSpec(links[i].product, link.product) {
      forall spec | MatchesProductSpec(link.product, spec) ensures MatchesProductSpec(links[i].product, spec) {
        MatchIsTransitive(links[i].product, link.product, spec);
      }
    }
  }

  function SpecOf(browser: string, version: string): ProductSpec {
    ProductSpec(ProductAtRevision(Product(browser, version, "", ""), "", ""), None)
  }

  lemma OtherVersion()
    ensures !MatchesVersion("60", "61")
  {
    assert ("61" + ".")[1] == '1' && ("60" + ".")[1] == '0';
    assert !HasPrefix("61" + ".", "60" + ".");
  }

  lemma NarrowerHides(folder: string, existing: Link, link: Link, spec: ProductSpec, test: string)
    requires link.results != [] && GetWPTTestPath(folder, link.results[0].testPath) == test
    requires Triage.TakesIn(existing, link) && !MatchesProductSpec(existing.product, spec)
    ensures !IsAnswered(folder, [existing], link, 0, spec, test)
  {
    assert Triage.TakesIn([existing][0], link);
    hide IsAnswered, MatchesProductSpec, GetWPTTestPath;
    AnsweredForOne(folder, [existing], link, 0, spec, test);
  }

  // For one, a link triaged for a browser that lands under one of its versions
  // is not answered for the other versions.
  lemma TriagedUnderNarrowerProduct(url: string, first: TestFilter, second: TestFilter, folder: string, test: string)
    requires GetWPTTestPath(folder, second.testPath) == test
    ensures var existing := Link(SpecOf("chrome", "60"), url, "", [first]);
      var link := Link(SpecOf("chrome", ""), url, "", [second]);
      && MatchesProductSpec(link.product, SpecOf("chrome", "61"))
      && !IsAnswered(folder, [existing], link, 0, SpecOf("chrome", "61"), test)
  {
    var existing, link := Link(SpecOf("chrome", "60"), url, "", [first]), Link(SpecOf("chrome", ""), url, "", [second]);
    OtherVersion();
    NarrowerHides(folder, existing, link, SpecOf("chrome", "61"), test);
  }
}
