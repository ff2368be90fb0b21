// Merging triaged metadata into the metadata files (shared/triage_metadata.go).
module Triage {
  import opened Wrappers
  import opened Products
  import opened Metadata
  import opened FiniteSums

  // ---- filling in test names ----

  function FilledLink(link: Link, name: string): Link {
    link.(results :=
      if link.results == [] then [TestFilter(name, None, None)]
      else seq(|link.results|, i requires 0 <= i < |link.results| => link.results[i].(testPath := name)))
  }

  function Filled(links: Links, name: string): Links {
    seq(|links|, i requires 0 <= i < |links| => FilledLink(links[i], name))
  }

  // Every result is about the test called name and otherwise unchanged; a link
  // without results gets one, for every subtest and status.
  ghost predicate Named(link: Link, name: string, named: Link) {
    && named.product == link.product && named.url == link.url && named.linkLabel == link.linkLabel
    && |named.results| == (if link.results == [] then 1 else |link.results|)
    && (forall k | 0 <= k < |named.results| :: named.results[k].testPath == name)
    && (link.results == [] ==> named.results[0].subtest == None && named.results[0].status == None)
    && (forall k | 0 <= k < |link.results| ::
          named.results[k].subtest == link.results[k].subtest && named.results[k].status == link.results[k].status)
  }

  // appendTestName, on the links of one test.
  method AppendTestName(links: Links, name: string) returns (filled: Links)
    ensures filled == Filled(links, name)
    ensures |filled| == |links| && forall i | 0 <= i < |links| :: Named(links[i], name, filled[i])
  {
    filled := links;
    for i := 0 to |links|
      invariant |filled| == |links|
      invariant forall k :: 0 <= k < |links| ==> filled[k] == if k < i then FilledLink(links[k], name) else links[k]
    {
      if |links[i].results| == 0 {
        filled := filled[i := links[i].(results := [TestFilter(name, None, None)])];
        continue;
      }
      var results := links[i].results;
      for j := 0 to |results|
        invariant |results| == |links[i].results|
        invariant forall k :: 0 <= k < |results| ==>
          results[k] == if k < j then links[i].results[k].(testPath := name) else links[i].results[k]
      {
        results := results[j := results[j].(testPath := name)];
      }
      filled := filled[i := links[i].(results := results)];
    }
  }

  // ---- one link into the links of a folder ----

  predicate TakesIn(existing: Link, link: Link) {
    && link.url == existing.url && MatchesProductSpec(link.product, existing.product)
    && link.linkLabel == existing.linkLabel
  }

  // The first link that takes it in gets the results; otherwise it goes last.
  function Merged(links: Links, link: Link): Links {
    if links == [] then [link]
    else if TakesIn(links[0], link) then [links[0].(results := links[0].results + link.results)] + links[1..]
    else [links[0]] + Merged(links[1..], link)
  }

  function MergedAll(links: Links, more: Links): Links {
    if more == [] then links else Merged(MergedAll(links, more[..|more| - 1]), more[|more| - 1])
  }

  lemma {:induction false} MergedAt(links: Links, link: Link, i: nat)
    requires i < |links| && forall k :: 0 <= k < i ==> !TakesIn(links[k], link)
    requires TakesIn(links[i], link)
    ensures Merged(links, link) == links[i := links[i].(results := links[i].results + link.results)]
  {
    if i > 0 {
      MergedAt(links[1..], link, i - 1);
      assert links == [links[0]] + links[1..];
    } else {
      assert links == [links[0]] + links[1..];
    }
  }

  lemma {:induction false} MergedLast(links: Links, link: Link)
    requires forall k :: 0 <= k < |links| ==> !TakesIn(links[k], link)
    ensures Merged(links, link) == links + [link]
  {
    if links != [] {
      MergedLast(links[1..], link);
      assert links == [links[0]] + links[1..];
    }
  }

  // The loop over the existing links.
  method MergeLink(links: Links, link: Link) returns (merged: Links)
    ensures merged == Merged(links, link)
  {
    hide Merged, TakesIn;
    for index := 0 to |links|
      invariant forall k :: 0 <= k < index ==> !TakesIn(links[k], link)
    {
      if TakesIn(links[index], link) {
        MergedAt(links, link, index);
        return links[index := links[index].(results := links[index].results + link.results)];
      }
    }
    MergedLast(links, link);
    return links + [link];
  }

  // The first existing link for the same URL and label whose product the new one
  // matches gets its results, at the end; only if there is none there is one link
  // more.
  lemma MergedIsExact(links: Links, link: Link)
    ensures forall i: nat |
      && i < |links| && links[i].url == link.url && links[i].linkLabel == link.linkLabel
      && MatchesProductSpec(link.product, links[i].product)
      && (forall k | 0 <= k < i :: !(links[k].url == link.url && links[k].linkLabel == link.linkLabel
                                     && MatchesProductSpec(link.product, links[k].product))) ::
      (Merged(links, link) == links[i := Link(links[i].product, link.url, link.linkLabel,
                                              links[i].results + link.results)])
    ensures (forall i | 0 <= i < |links| :: !(links[i].url == link.url && links[i].linkLabel == link.linkLabel
                                              && MatchesProductSpec(link.product, links[i].product)))
      ==> Merged(links, link) == links + [link]
  {
    hide Merged, MatchesProductSpec;
    forall i: nat |
      && i < |links| && links[i].url == link.url && links[i].linkLabel == link.linkLabel
      && MatchesProductSpec(link.product, links[i].product)
      && (forall k | 0 <= k < i :: !(links[k].url == link.url && links[k].linkLabel == link.linkLabel
                                     && MatchesProductSpec(link.product, links[k].product)))
      ensures Merged(links, link) == links[i := Link(links[i].product, link.url, link.linkLabel,
                                                     links[i].results + link.results)]
    {
      MergedAt(links, link, i);
    }
    if forall i | 0 <= i < |links| :: !TakesIn(links[i], link) {
      MergedLast(links, link);
    }
  }

  // Of the links from the n-th on, none could have been merged into an earlier one.
  ghost predicate Settled(links: Links, n: nat) {
    forall i, j | 0 <= i < j && n <= j < |links| ::
      !(links[i].url == links[j].url && links[i].linkLabel == links[j].linkLabel
        && MatchesProductSpec(links[j].product, links[i].product))
  }

  lemma MergedIsSettled(links: Links, link: Link, n: nat)
    requires Settled(links, n)
    ensures Settled(Merged(links, link), n)
  {
    hide Merged, MatchesProductSpec;
    if i: nat :| i < |links| && TakesIn(links[i], link) && forall k | 0 <= k < i :: !TakesIn(links[k], link) {
      MergedAt(links, link, i);
    } else {
      NoneTakes(links, link, |links|);
      MergedLast(links, link);
    }
  }

  lemma {:induction false} NoneTakes(links: Links, link: Link, n: nat)
    requires n <= |links|
    requires !exists i: nat ::
               i < |links| && TakesIn(links[i], link) && forall k | 0 <= k < i :: !TakesIn(links[k], link)
    ensures forall k | 0 <= k < n :: !TakesIn(links[k], link)
  {
    hide TakesIn;
    if n > 0 {
      NoneTakes(links, link, n - 1);
    }
  }

  lemma {:induction false} MergedAllIsSettled(links: Links, more: Links, n: nat)
    requires Settled(links, n)
    ensures Settled(MergedAll(links, more), n)
  {
    hide Settled;
    if more != [] {
      MergedAllIsSettled(links, more[..|more| - 1], n);
      MergedIsSettled(MergedAll(links, more[..|more| - 1]), more[|more| - 1], n);
    }
  }

  // ---- what merging keeps ----

  ghost predicate Grown(was: Link, now: Link) {
    && now.product == was.product && now.url == was.url && now.linkLabel == was.linkLabel
    && was.results <= now.results
  }

  // Links stay where they are and only gain results at the end.
  ghost predicate Kept(before: Links, after: Links) {
    |before| <= |after| && forall i :: 0 <= i < |before| ==> Grown(before[i], after[i])
  }

  lemma KeptAgain(a: Links, b: Links, c: Links)
    requires Kept(a, b) && Kept(b, c)
    ensures Kept(a, c)
  {
    forall i | 0 <= i < |a| ensures Grown(a[i], c[i]) {
      assert Grown(a[i], b[i]) && Grown(b[i], c[i]);
    }
  }

  lemma {:induction false} MergedKeeps(links: Links, link: Link)
    ensures Kept(links, Merged(links, link))
  {
    if links != [] && !TakesIn(links[0], link) {
      MergedKeeps(links[1..], link);
      var rest := Merged(links[1..], link);
      forall i | 0 <= i < |links| ensures Grown(links[i], ([links[0]] + rest)[i]) {
        assert i > 0 ==> Grown(links[1..][i - 1], rest[i - 1]);
      }
    }
  }

  lemma {:induction false} MergedAllKeeps(links: Links, more: Links)
    ensures Kept(links, MergedAll(links, more))
  {
    if more != [] {
      var front := MergedAll(links, more[..|more| - 1]);
      MergedAllKeeps(links, more[..|more| - 1]);
      MergedKeeps(front, more[|more| - 1]);
      KeptAgain(links, front, MergedAll(links, more));
    }
  }

  // All of link's results stand together under one link with the same URL and
  // label, for a product that link matches.
  ghost predicate LandsAt(links: Links, link: Link, i: nat, from: nat, to: nat) {
    && i < |links| && links[i].url == link.url && links[i].linkLabel == link.linkLabel
    && MatchesProductSpec(link.product, links[i].product)
    && from <= to <= |links[i].results| && links[i].results[from..to] == link.results
  }

  ghost predicate Lands(links: Links, link: Link) {
    exists i: nat, from: nat, to: nat :: LandsAt(links, link, i, from, to)
  }

  lemma LandsStill(before: Links, after: Links, link: Link)
    requires Lands(before, link) && Kept(before, after)
    ensures Lands(after, link)
  {
    hide MatchesProductSpec;
    var i: nat, from: nat, to: nat :| LandsAt(before, link, i, from, to);
    assert Grown(before[i], after[i]);
    assert after[i].results[from..to] == before[i].results[from..to];
    assert LandsAt(after, link, i, from, to);
  }

  lemma OneLinkLands(links: Links, link: Link, i: nat)
    requires i < |links| && links[i] == link
    ensures Lands(links, link)
  {
    assert LandsAt(links, link, i, 0, |link.results|);
  }

  lemma {:induction false} MergedLands(links: Links, link: Link)
    ensures Lands(Merged(links, link), link)
  {
    if links == [] {
      OneLinkLands([link], link, 0);
    } else if TakesIn(links[0], link) {
      var n := |links[0].results|;
      assert (links[0].results + link.results)[n..n + |link.results|] == link.results;
      assert LandsAt(Merged(links, link), link, 0, n, n + |link.results|);
    } else {
      MergedLands(links[1..], link);
      var rest := Merged(links[1..], link);
      var i: nat, from: nat, to: nat :| LandsAt(rest, link, i, from, to);
      assert ([links[0]] + rest)[i + 1] == rest[i];
      assert LandsAt([links[0]] + rest, link, i + 1, from, to);
    }
  }

  lemma {:induction false} MergedAllLands(links: Links, more: Links, j: nat)
    requires j < |more|
    ensures Lands(MergedAll(links, more), more[j])
  {
    var front := more[..|more| - 1];
    if j < |more| - 1 {
      MergedAllLands(links, front, j);
      MergedKeeps(MergedAll(links, front), more[|more| - 1]);
      LandsStill(MergedAll(links, front), MergedAll(links, more), more[j]);
    } else {
      MergedLands(MergedAll(links, front), more[j]);
    }
  }

  // ---- counting results ----

  // A result under a URL and a label.
  datatype Item = Item(url: string, linkLabel: string, result: TestFilter)

  // How often item x stands among the results of a link or of a list of links.
  ghost function CountResults(results: seq<TestFilter>, r: TestFilter): nat {
    multiset(results)[r]
  }

  ghost function CountIn(link: Link, x: Item): nat {
    if link.url == x.url && link.linkLabel == x.linkLabel then CountResults(link.results, x.result) else 0
  }

  ghost function CountItems(links: Links, x: Item): nat {
    if links == [] then 0 else CountIn(links[0], x) + CountItems(links[1..], x)
  }

  lemma {:induction false} MergedCounts(links: Links, link: Link, x: Item)
    ensures CountItems(Merged(links, link), x) == CountItems(links, x) + CountIn(link, x)
  {
    if links == [] {
      assert [link][1..] == [];
    } else if TakesIn(links[0], link) {
      var first := links[0].(results := links[0].results + link.results);
      assert ([first] + links[1..])[1..] == links[1..];
    } else {
      MergedCounts(links[1..], link, x);
      assert ([links[0]] + Merged(links[1..], link))[1..] == Merged(links[1..], link);
    }
  }

  lemma {:induction false} CountAppend(a: Links, b: Links, x: Item)
    ensures CountItems(a + b, x) == CountItems(a, x) + CountItems(b, x)
  {
    if a == [] {
      assert a + b == b;
    } else {
      CountAppend(a[1..], b, x);
      assert (a + b)[1..] == a[1..] + b;
    }
  }

  lemma {:induction false} MergedAllCounts(links: Links, more: Links, x: Item)
    ensures CountItems(MergedAll(links, more), x) == CountItems(links, x) + CountItems(more, x)
  {
    if more != [] {
      var front, last := more[..|more| - 1], more[|more| - 1];
      MergedAllCounts(links, front, x);
      MergedCounts(MergedAll(links, front), last, x);
      CountAppend(front, [last], x);
      assert more == front + [last] && [last][1..] == [];
    }
  }

  // ---- one test into the files ----

  // The links of a folder once those of one more test are in it. In a new folder
  // they are not merged with one another.
  function Absorbed(files: Files, folder: string, links: Links): Links {
    if folder in files then MergedAll(files[folder], links) else links
  }

  lemma AbsorbedKeeps(files: Files, folder: string, links: Links)
    ensures Kept(LinksAt(files, folder), Absorbed(files, folder, links))
  {
    if folder in files {
      MergedAllKeeps(files[folder], links);
    }
  }

  lemma AbsorbedLands(files: Files, folder: string, links: Links, j: nat)
    requires j < |links|
    ensures Lands(Absorbed(files, folder, links), links[j])
  {
    if folder in files {
      MergedAllLands(files[folder], links, j);
    } else {
      OneLinkLands(links, links[j], j);
    }
  }

  lemma AbsorbedCounts(files: Files, folder: string, links: Links, x: Item)
    ensures CountItems(Absorbed(files, folder, links), x)
      == CountItems(LinksAt(files, folder), x) + CountItems(links, x)
  {
    if folder in files {
      MergedAllCounts(files[folder], links, x);
    }
  }

  lemma AbsorbedIsSettled(files: Files, folder: string, links: Links, n: nat)
    requires folder in files && Settled(files[folder], n)
    ensures Settled(Absorbed(files, folder, links), n)
  {
    MergedAllIsSettled(files[folder], links, n);
  }

  function FolderOf(test: string): string {
    SplitWPTTestPath(test).0
  }

  function NewLinks(metadata: Files, test: string): Links
    requires test in metadata
  {
    Filled(metadata[test], SplitWPTTestPath(test).1)
  }

  // What a test adds of item x to a folder.
  ghost function Share(metadata: Files, folder: string, x: Item): string -> int {
    test => if test in metadata && FolderOf(test) == folder then CountItems(NewLinks(metadata, test), x) else 0
  }

  // The files once the tests in done are merged into them.
  ghost predicate MergedInto(metadata: Files, before: Files, done: set<string>, after: Files) {
    && (forall folder | folder in before :: folder in after)
    && (forall folder | folder in after && folder !in before :: exists t :: t in done && FolderOf(t) == folder)
    && (forall folder :: FolderMerged(metadata, before, done, after, folder))
    && (forall t | t in done && t in metadata :: TestLanded(metadata, after, t))
  }

  // Nothing of a folder is lost, moved or repeated, and a folder that had a file
  // gets a link more only for what none of its links takes in.
  ghost predicate FolderMerged(metadata: Files, before: Files, done: set<string>, after: Files, folder: string) {
    && Kept(LinksAt(before, folder), LinksAt(after, folder))
    && (forall x :: CountItems(LinksAt(after, folder), x)
          == CountItems(LinksAt(before, folder), x) + Sum(done, Share(metadata, folder, x)))
    && ((forall t | t in done :: FolderOf(t) != folder) ==> LinksAt(after, folder) == LinksAt(before, folder))
    && (folder in before ==> folder in after && Settled(after[folder], |before[folder]|))
  }

  ghost predicate TestLanded(metadata: Files, after: Files, test: string)
    requires test in metadata
  {
    && FolderOf(test) in after
    && forall j | 0 <= j < |metadata[test]| :: Lands(after[FolderOf(test)], NewLinks(metadata, test)[j])
  }

  lemma FolderOneMore(metadata: Files, before: Files, done: set<string>, files: Files, test: string, folder: string)
    requires test in metadata && test !in done && FolderMerged(metadata, before, done, files, folder)
    ensures var after := files[FolderOf(test) := Absorbed(files, FolderOf(test), NewLinks(metadata, test))];
      FolderMerged(metadata, before, done + {test}, after, folder)
  {
    hide Kept, Absorbed, CountItems, NewLinks, FolderOf, Settled;
    var home := FolderOf(test);
    var after := files[home := Absorbed(files, home, NewLinks(metadata, test))];
    forall x ensures CountItems(LinksAt(after, folder), x)
      == CountItems(LinksAt(before, folder), x) + Sum(done + {test}, Share(metadata, folder, x))
    {
      SumWith(done, Share(metadata, folder, x), test);
      AbsorbedCounts(files, home, NewLinks(metadata, test), x);
    }
    if folder == home {
      AbsorbedKeeps(files, home, NewLinks(metadata, test));
      KeptAgain(LinksAt(before, folder), LinksAt(files, folder), LinksAt(after, folder));
      if folder in before {
        AbsorbedIsSettled(files, home, NewLinks(metadata, test), |before[folder]|);
      }
    }
    assert test in done + {test};
  }

  lemma TestStays(metadata: Files, files: Files, test: string, other: string)
    requires test in metadata && other in metadata && TestLanded(metadata, files, other)
    ensures var after := files[FolderOf(test) := Absorbed(files, FolderOf(test), NewLinks(metadata, test))];
      TestLanded(metadata, after, other)
  {
    hide Lands, Absorbed, Filled, SplitWPTTestPath;
    var home := FolderOf(test);
    var after := files[home := Absorbed(files, home, NewLinks(metadata, test))];
    if FolderOf(other) == home {
      AbsorbedKeeps(files, home, NewLinks(metadata, test));
      NewLinksLength(metadata, other);
      forall j | 0 <= j < |metadata[other]| ensures Lands(after[home], NewLinks(metadata, other)[j]) {
        LandsStill(files[home], after[home], NewLinks(metadata, other)[j]);
      }
    }
  }

  lemma NewLinksLength(metadata: Files, test: string)
    requires test in metadata
    ensures |NewLinks(metadata, test)| == |metadata[test]|
  {
  }

  lemma TestLands(metadata: Files, files: Files, test: string)
    requires test in metadata
    ensures var after := files[FolderOf(test) := Absorbed(files, FolderOf(test), NewLinks(metadata, test))];
      TestLanded(metadata, after, test)
  {
    hide Lands, Absorbed, Filled, SplitWPTTestPath;
    NewLinksLength(metadata, test);
    forall j | 0 <= j < |metadata[test]|
      ensures Lands(Absorbed(files, FolderOf(test), NewLinks(metadata, test)), NewLinks(metadata, test)[j])
    {
      AbsorbedLands(files, FolderOf(test), NewLinks(metadata, test), j);
    }
  }

  lemma MergedOneMore(metadata: Files, before: Files, done: set<string>, files: Files, test: string)
    requires test in metadata && test !in done && MergedInto(metadata, before, done, files)
    ensures MergedInto(metadata, before, done + {test},
                       files[FolderOf(test) := Absorbed(files, FolderOf(test), NewLinks(metadata, test))])
  {
    hide FolderMerged, TestLanded, Absorbed, FolderOf, NewLinks;
    var after := files[FolderOf(test) := Absorbed(files, FolderOf(test), NewLinks(metadata, test))];
    forall folder ensures FolderMerged(metadata, before, done + {test}, after, folder) {
      FolderOneMore(metadata, before, done, files, test, folder);
    }
    forall t | t in done + {test} && t in metadata ensures TestLanded(metadata, after, t) {
      if t == test {
        TestLands(metadata, files, test);
      } else {
        TestStays(metadata, files, test, t);
      }
    }
    assert test in done + {test};
  }

  lemma NothingMerged(metadata: Files, before: Files)
    ensures MergedInto(metadata, before, {}, before)
  {
  }

  ghost predicate HasTest(tests: set<string>, folder: string) {
    exists t :: t in tests && FolderOf(t) == folder
  }

  // The files of the folders that have one of the tests.
  ghost function FilesOf(files: Files, tests: set<string>): Files {
    map folder | folder in files && HasTest(tests, folder) :: files[folder]
  }

  lemma FilesOfOneMore(files: Files, tests: set<string>, test: string)
    requires FolderOf(test) in files
    ensures FilesOf(files, tests + {test}) == FilesOf(files, tests)[FolderOf(test) := files[FolderOf(test)]]
  {
    hide FolderOf;
    assert test in tests + {test};
    forall folder ensures HasTest(tests + {test}, folder) <==> HasTest(tests, folder) || folder == FolderOf(test) {
      if t :| t in tests && FolderOf(t) == folder {
        assert t in tests + {test};
      }
    }
  }

  lemma AllHome(metadata: Files, before: Files, files: Files)
    requires MergedInto(metadata, before, metadata.Keys, files)
    ensures FilesOf(files, {}) == map[]
    ensures forall t | t in metadata :: FolderOf(t) in files
  {
    hide FolderMerged, FolderOf;
    forall t | t in metadata ensures FolderOf(t) in files {
      assert TestLanded(metadata, files, t);
    }
  }

  // The links of one test into its folder.
  method AddTest(metadata: Files, files: Files, test: string) returns (links: Links)
    requires test in metadata
    ensures links == Absorbed(files, FolderOf(test), NewLinks(metadata, test))
  {
    hide Filled, Merged, SplitWPTTestPath;
    var (folder, name) := SplitWPTTestPath(test);
    var filled := AppendTestName(metadata[test], name);
    if folder !in files {
      return filled;
    }
    links := files[folder];
    for i := 0 to |filled|
      invariant links == MergedAll(files[folder], filled[..i])
    {
      assert filled[..i + 1][..i] == filled[..i];
      links := MergeLink(links, filled[i]);
    }
    assert filled[..|filled|] == filled;
  }

  // addToFiles, before the files are written out as text: the files, and of them
  // the modified ones.
  method AddToFiles(metadata: Files, filesMap: Files) returns (files: Files, modified: Files)
    ensures MergedInto(metadata, filesMap, metadata.Keys, files)
    ensures modified == FilesOf(files, metadata.Keys)
  {
    hide *;
    files := filesMap;
    NothingMerged(metadata, filesMap);
    var todo := metadata.Keys;
    assert metadata.Keys - todo == {};
    while todo != {}
      invariant todo <= metadata.Keys
      invariant MergedInto(metadata, filesMap, metadata.Keys - todo, files)
      decreases todo
    {
      var test :| test in todo;
      var links := AddTest(metadata, files, test);
      MergedOneMore(metadata, filesMap, metadata.Keys - todo, files, test);
      files := files[FolderOf(test) := links];
      assert metadata.Keys - todo + {test} == metadata.Keys - (todo - {test});
      todo := todo - {test};
    }
    assert metadata.Keys - todo == metadata.Keys;
    modified := map[];
    todo := metadata.Keys;
    AllHome(metadata, filesMap, files);
    assert metadata.Keys - todo == {};
    while todo != {}
      invariant todo <= metadata.Keys
      invariant modified == FilesOf(files, metadata.Keys - todo)
      decreases todo
    {
      var test :| test in todo;
      FilesOfOneMore(files, metadata.Keys - todo, test);
      modified := modified[FolderOf(test) := files[FolderOf(test)]];
      assert metadata.Keys - todo + {test} == metadata.Keys - (todo - {test});
      todo := todo - {test};
    }
    assert metadata.Keys - todo == metadata.Keys;
  }
}
