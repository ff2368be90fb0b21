// Test metadata: links from tests to issues, kept in one file for each folder
// (shared/metadata.go).
module Metadata {
  import opened Wrappers
  import opened Strings
  import opened Products
  import opened Collections

  // A filter on the results a link is about.
  datatype TestFilter = TestFilter(testPath: string, subtest: Option<string>, status: Option<int>)

  datatype Link = Link(product: ProductSpec, url: string, linkLabel: string, results: seq<TestFilter>)

  type Links = seq<Link>

  // The files by folder, and the flattened form by test path.
  type Files = map<string, Links>

  function LinksAt(files: Files, key: string): Links {
    Lookup(files, key).GetOr([])
  }

  // ---- paths ----

  function GetWPTTestPath(folder: string, name: string): string {
    if folder == "" then "/" + name else "/" + folder + "/" + name
  }

  function SplitWPTTestPath(path: string): (string, string) {
    if !HasPrefix(path, "/") then ("", "") else
      var parts := Split(path, '/')[1..];
      if |parts| == 0 then ("", "")
      else if |parts| == 1 then ("", parts[0])
      else (Join(parts[..|parts| - 1], "/"), parts[|parts| - 1])
  }

  lemma JoinIsEmpty(parts: seq<string>)
    ensures Join(parts, "/") == "" <==> parts == [] || parts == [""]
  {
  }

  // A rooted path whose only folder has an empty name: "//name".
  predicate EmptyFolder(path: string) {
    HasPrefix(path, "//") && '/' !in path[2..]
  }

  lemma TwoPieces(rest: string)
    ensures |Split(rest, '/')| == 2 && Split(rest, '/')[0] == "" <==> HasPrefix(rest, "/") && '/' !in rest[1..]
  {
    if HasPrefix(rest, "/") {
      assert rest == "" + ['/'] + rest[1..];
      SplitCons("", '/', rest[1..]);
      SplitOne(rest[1..], '/');
    } else if '/' in rest {
      var i := IndexOf(rest, '/');
      assert rest == rest[..i] + ['/'] + rest[i + 1..];
      SplitCons(rest[..i], '/', rest[i + 1..]);
    }
  }

  lemma EmptyFolderRest(rest: string)
    ensures EmptyFolder("/" + rest) <==> HasPrefix(rest, "/") && '/' !in rest[1..]
  {
    var path := "/" + rest;
    if rest != "" {
      assert path[2..] == rest[1..];
      assert path[1] == rest[0];
    }
  }

  lemma RebuildRooted(rest: string)
    ensures var (folder, name) := SplitWPTTestPath("/" + rest);
      GetWPTTestPath(folder, name) == "/" + rest <==> !(|Split(rest, '/')| == 2 && Split(rest, '/')[0] == "")
  {
    hide Split, Join, GetWPTTestPath;
    var path, parts := "/" + rest, Split(rest, '/');
    SplitRooted(path, '/');
    assert path[1..] == rest;
    JoinSplit(rest, '/');
    if |parts| > 1 {
      var front, last := parts[..|parts| - 1], parts[|parts| - 1];
      assert parts == front + [last];
      JoinAppend(front, [last], "/");
      JoinOne(last);
      JoinIsEmpty(front);
      RebuildMany(path, rest, front, last);
    } else {
      JoinOne(parts[0]);
      assert parts == [parts[0]];
      RebuildOne(rest);
    }
  }

  lemma RebuildOne(name: string)
    ensures GetWPTTestPath("", name) == "/" + name
  {
  }

  lemma JoinOne(part: string)
    ensures Join([part], "/") == part
  {
  }

  // The name is what follows the last slash, and the folder what stands between
  // that and the first one.
  lemma SplitIsExact(folder: string, name: string)
    requires '/' !in name
    ensures SplitWPTTestPath("/" + name) == ("", name)
    ensures SplitWPTTestPath("/" + folder + "/" + name) == (folder, name)
  {
    hide Split, Join;
    SplitRooted("/" + name, '/');
    SplitOne(name, '/');
    assert ("/" + name)[1..] == name;
    var path, parts := "/" + folder + "/" + name, Split(folder, '/') + [name];
    SplitRooted(path, '/');
    assert path[1..] == folder + "/" + name;
    JoinSplit(folder, '/');
    JoinAppend(Split(folder, '/'), [name], "/");
    JoinOne(name);
    SplitJoin(parts, '/');
    assert Split(path, '/')[1..] == parts;
    assert parts[..|parts| - 1] == Split(folder, '/');
  }

  // Folder and name rebuild exactly the rooted paths without such a folder.
  lemma SplitRebuildsIff(path: string)
    ensures var (folder, name) := SplitWPTTestPath(path);
      GetWPTTestPath(folder, name) == path <==> HasPrefix(path, "/") && !EmptyFolder(path)
  {
    if HasPrefix(path, "/") {
      hide SplitWPTTestPath, GetWPTTestPath, Split;
      assert path == "/" + path[1..];
      RebuildRooted(path[1..]);
      TwoPieces(path[1..]);
      EmptyFolderRest(path[1..]);
    }
  }

  // The path that is rebuilt from "//name" is "/name".
  lemma DoubleSlashIsLost(name: string)
    requires '/' !in name
    ensures var (folder, rest) := SplitWPTTestPath("//" + name);
      GetWPTTestPath(folder, rest) == "/" + name
  {
    assert "//" + name == "" + ['/'] + ("/" + name);
    SplitCons("", '/', "/" + name);
    assert "/" + name == "" + ['/'] + name;
    SplitCons("", '/', name);
    SplitOne(name, '/');
  }

  lemma RebuildMany(path: string, rest: string, front: seq<string>, last: string)
    requires path == "/" + rest && rest == Join(front, "/") + "/" + last
    ensures GetWPTTestPath(Join(front, "/"), last) == path <==> Join(front, "/") != ""
  {
    hide Join;
    if Join(front, "/") == "" {
      assert |path| == |last| + 2;
    } else {
      assert path == "/" + Join(front, "/") + "/" + last;
    }
  }
}
