// Printing a product spec and parsing it back.
module ProductRoundTrip {
  import opened Wrappers
  import opened Strings
  import opened StringOrder
  import opened Products
  import opened ProductParser
  import VersionRoundTrip

  // ---- the browser name and the other fields ----

  predicate NameChar(c: char) {
    'a' <= c <= 'z' || c == '.' || c == '_'
  }

  predicate PlainName(s: string) {
    s != "" && forall c | c in s :: NameChar(c)
  }

  lemma {:induction false} ListedIn(name: string, names: seq<string>)
    ensures Listed(name, names) <==> name in names
  {
    if names != [] {
      ListedIn(name, names[1..]);
    }
  }

  lemma DefaultBrowsersArePlain()
    ensures forall b | b in DEFAULT_BROWSERS :: PlainName(b)
  {
  }

  lemma FirstExtrasArePlain()
    ensures forall i | 0 <= i < 8 :: PlainName(EXTRA_BROWSERS[i])
  {
  }

  lemma LastExtrasArePlain()
    ensures forall i | 8 <= i < |EXTRA_BROWSERS| :: PlainName(EXTRA_BROWSERS[i])
  {
  }

  lemma ExtraBrowsersArePlain()
    ensures forall b | b in EXTRA_BROWSERS :: PlainName(b)
  {
    FirstExtrasArePlain();
    LastExtrasArePlain();
    hide EXTRA_BROWSERS, PlainName;
  }

  lemma KnownBrowserIsPlain(b: string)
    requires IsStableBrowserName(b)
    ensures PlainName(b)
  {
    ListedIn(b, DEFAULT_BROWSERS);
    ListedIn(b, EXTRA_BROWSERS);
    DefaultBrowsersArePlain();
    ExtraBrowsersArePlain();
  }

  lemma PlainNameIsLower(b: string)
    requires PlainName(b)
    ensures ToLower(b) == b
  {
    forall i | 0 <= i < |b| ensures Lower(b[i]) == b[i] {
      assert b[i] in b;
    }
  }

  lemma PlainNameHasNoSuffix(b: string)
    requires PlainName(b)
    ensures !HasSuffix(b, "-experimental")
  {
    assert "-experimental"[0] == '-';
    assert HasSuffix(b, "-experimental") ==> '-' in b;
  }

  // A field that the separators of the grammar cannot cut.
  predicate PlainField(s: string) {
    '-' !in s && '[' !in s
  }

  ghost predicate FieldsOk(p: Product) {
    && (p.browserVersion != "" ==> VersionOf(p.browserVersion).Ok?)
    && (p.osName != "" ==> p.browserVersion != "")
    && (p.osVersion != "" ==> p.osName != "" && VersionOf(p.osVersion).Ok?)
  }

  ghost predicate PlainProduct(p: Product) {
    && IsStableBrowserName(p.browserName)
    && PlainField(p.browserVersion) && PlainField(p.osName) && PlainField(p.osVersion)
  }

  ghost predicate WellFormedProduct(p: Product) {
    PlainProduct(p) && FieldsOk(p)
  }

  function Fields(p: Product): seq<string> {
    [p.browserName]
    + (if p.browserVersion != "" then [p.browserVersion] else [])
    + (if p.osName != "" then [p.osName] + (if p.osVersion != "" then [p.osVersion] else []) else [])
  }

  lemma ShowProductJoins(p: Product)
    ensures ShowProduct(p) == Join(Fields(p), "-")
  {
    if p.osName != "" {
      var os := [p.osName] + (if p.osVersion != "" then [p.osVersion] else []);
      assert Join(os, "-") == p.osName + (if p.osVersion != "" then "-" + p.osVersion else "") by {
        if p.osVersion != "" { assert os[1..] == [p.osVersion]; }
      }
      if p.browserVersion != "" {
        JoinAppend([p.browserVersion], os, "-");
        JoinAppend([p.browserName], [p.browserVersion] + os, "-");
        assert [p.browserName] + ([p.browserVersion] + os) == Fields(p);
      } else {
        JoinAppend([p.browserName], os, "-");
        assert [p.browserName] + os == Fields(p);
      }
    } else if p.browserVersion != "" {
      assert Fields(p)[1..] == [p.browserVersion];
    }
  }

  lemma FieldsParse(p: Product)
    requires p.osName != "" ==> p.browserVersion != ""
    requires p.osVersion != "" ==> p.osName != ""
    requires ToLower(p.browserName) == p.browserName && IsBrowserName(p.browserName)
    ensures ProductFrom(Fields(p), true, true) == Ok(p)
  {
  }

  lemma FieldsValid(p: Product)
    requires FieldsOk(p)
    ensures ValidAt(Fields(p), 1) && ValidAt(Fields(p), 3)
  {
    assert |Fields(p)| > 1 ==> Fields(p)[1] == p.browserVersion;
    assert |Fields(p)| > 3 ==> Fields(p)[3] == p.osVersion;
  }

  lemma {:induction false} JoinWithout(parts: seq<string>, sep: string, c: char)
    requires Without(parts, c) && c !in sep
    ensures c !in Join(parts, sep)
  {
    if |parts| > 1 {
      JoinWithout(parts[1..], sep, c);
    }
  }

  lemma FieldsArePlain(p: Product)
    requires PlainProduct(p)
    ensures Without(Fields(p), '-') && Without(Fields(p), '[')
  {
    KnownBrowserIsPlain(p.browserName);
  }

  lemma ProductSplitsBack(p: Product)
    requires PlainProduct(p)
    ensures Split(ShowProduct(p), '-') == Fields(p)
    ensures '[' !in ShowProduct(p)
  {
    FieldsArePlain(p);
    ShowProductJoins(p);
    SplitJoin(Fields(p), '-');
    JoinWithout(Fields(p), "-", '[');
  }

  lemma ProductPrintsBack(p: Product)
    requires WellFormedProduct(p)
    ensures ProductOf(ShowProduct(p)) == Ok(p)
  {
    KnownBrowserIsPlain(p.browserName);
    PlainNameIsLower(p.browserName);
    PlainNameHasNoSuffix(p.browserName);
    ProductSplitsBack(p);
    FieldsValid(p);
    FieldsParse(p);
  }

  // ---- labels ----

  predicate PlainLabel(l: string) {
    ',' !in l && '[' !in l && ']' !in l
  }

  function Normal(labels: Option<set<string>>): Option<set<string>> {
    if LabelSet(labels) - {""} == {} then None else Some(LabelSet(labels) - {""})
  }

  lemma LabelBlockParses(name: string, listed: seq<string>)
    requires '[' !in name && listed != []
    requires forall l | l in listed :: PlainLabel(l)
    ensures LabelsOf(name + "[" + Join(listed, ",") + "]") == Ok((name, Some(NonEmpty(listed))))
  {
    var joined := Join(listed, ",");
    var inner := joined + "]";
    assert name + "[" + joined + "]" == name + ['['] + inner;
    SplitCons(name, '[', inner);
    JoinWithout(listed, ",", '[');
    JoinWithout(listed, ",", ']');
    SplitOne(inner, '[');
    assert inner[..|inner| - 1] == joined;
    SplitJoin(listed, ',');
  }

  lemma LabelsPrintBack(name: string, labels: set<string>)
    requires '[' !in name
    requires forall l | l in labels :: PlainLabel(l)
    ensures LabelsOf(name + ShowLabels(labels)) == Ok((name, Normal(Some(labels))))
  {
    hide Split, Join, PlainLabel;
    var kept := labels - {""};
    if kept == {} {
      assert name + ShowLabels(labels) == name;
      SplitOne(name, '[');
    } else {
      hide LabelsOf;
      var listed := Arrange(kept);
      LabelBlockParses(name, listed);
      assert name + ShowLabels(labels) == name + "[" + Join(listed, ",") + "]";
      assert NonEmpty(listed) == kept;
    }
  }

  // ---- the revision ----

  // Every "@" before the revision opens an "@main", and there is at most one of
  // them unless a revision follows.
  ghost predicate AtSignsOk(front: string, pinned: bool) {
    && (forall i :: 0 <= i < |front| && front[i] == '@' ==> MainAt(front, i))
    && (Count(front, '@') <= 1 || pinned)
  }

  lemma MainAtExtends(name: string, more: string, i: nat)
    ensures MainAt(name, i) ==> MainAt(name + more, i)
  {
    if MainAt(name, i) {
      assert (name + more)[i..i + 5] == name[i..i + 5];
    }
  }

  lemma MainAtHead(s: string, i: nat)
    ensures MainAt(s, i) ==> i + 1 < |s| && s[i] == '@' && s[i + 1] == 'm'
  {
    if MainAt(s, i) {
      assert s[i] == s[i..i + 5][0] && s[i + 1] == s[i..i + 5][1];
    }
  }

  lemma UnpinnedAtPieces(front: string)
    requires AtSignsOk(front, false)
    ensures AtPieces(front) == [front]
  {
    CountZero(front, '@');
    if '@' in front {
      var i := IndexOf(front, '@');
      assert MainAt(front, i);
    } else {
      forall i: nat ensures !MainAt(front, i) { MainAtHead(front, i); }
    }
  }

  lemma ShaHasNoAt(sha: string)
    requires IsSha(sha)
    ensures '@' !in sha && sha[0] != 'm'
  {
    assert sha[0] in sha;
  }

  lemma BareBeforeSha(front: string, sha: string)
    requires IsSha(sha)
    ensures BareAt(front + ['@'] + sha, |front|)
  {
    ShaHasNoAt(sha);
    hide IsSha;
    MainAtHead(front + ['@'] + sha, |front|);
  }

  lemma NoBareInside(front: string, rest: string, i: nat)
    requires AtSignsOk(front, true) && i < |front|
    ensures !BareAt(front + rest, i)
  {
    MainAtExtends(front, rest, i);
  }

  lemma FirstBareIs(s: string, k: nat)
    requires BareAt(s, k) && forall i: nat | i < k :: !BareAt(s, i)
    ensures FirstBareAt(s, 0) == Some(k)
  {
    assert k < |s|;
    hide BareAt;
  }

  // In front + "@" + sha the only "@" that opens no "@main" is the last.
  lemma PinnedBareAt(front: string, sha: string)
    requires AtSignsOk(front, true) && IsSha(sha)
    ensures FirstBareAt(front + ['@'] + sha, 0) == Some(|front|)
  {
    hide *;
    var s := front + ['@'] + sha;
    BareBeforeSha(front, sha);
    assert s == front + (['@'] + sha);
    forall i: nat | i < |front| ensures !BareAt(s, i) {
      NoBareInside(front, ['@'] + sha, i);
    }
    FirstBareIs(s, |front|);
  }

  lemma PinnedAtPieces(front: string, sha: string)
    requires AtSignsOk(front, true) && IsSha(sha)
    ensures AtPieces(front + ['@'] + sha) == [front, sha]
  {
    var s := front + ['@'] + sha;
    ShaHasNoAt(sha);
    SplitOne(sha, '@');
    if '@' in front {
      var i := IndexOf(front, '@');
      MainAtExtends(front, ['@'] + sha, i);
      assert s == front + (['@'] + sha);
      assert MainAt(s, i) && i < |front|;
      PinnedCount(front, sha);
      PinnedBareAt(front, sha);
      assert s[..|front|] == front && s[|front| + 1..] == sha;
    } else {
      forall i: nat ensures !MainAt(s, i) { MainAtHead(s, i); }
      SplitCons(front, '@', sha);
    }
  }

  lemma PinnedCount(front: string, sha: string)
    requires '@' in front
    ensures Count(front + ['@'] + sha, '@') >= 2
  {
    CountAppend(front + ['@'], sha, '@');
    CountAppend(front, ['@'], '@');
    CountZero(front, '@');
  }

  // ---- the round trip ----

  ghost predicate PlainTail(p: ProductSpec) {
    && (forall l | l in LabelSet(p.labels) :: PlainLabel(l))
    && (IsLatest(p.at.revision) || IsSha(p.at.revision))
  }

  // The specs that print back.
  ghost predicate WellFormed(p: ProductSpec) {
    WellFormedProduct(p.at.product) && PlainTail(p) && AtSignsOk(Front(p), !IsLatest(p.at.revision))
  }

  // What printing keeps: "" and "latest" are one revision, nil and {""} one
  // empty label set, and the full hash is never printed.
  function NormalForm(p: ProductSpec): ProductSpec {
    ProductSpec(ProductAtRevision(p.at.product, if IsLatest(p.at.revision) then "latest" else p.at.revision, ""),
                Normal(p.labels))
  }

  function Name(p: ProductSpec): string {
    ShowProduct(p.at.product)
  }

  ghost function Front(p: ProductSpec): string {
    Name(p) + ShowLabels(LabelSet(p.labels))
  }

  lemma FrontPrintsBack(p: ProductSpec)
    requires PlainProduct(p.at.product) && PlainTail(p)
    ensures LabelsOf(Front(p)) == Ok((Name(p), Normal(p.labels)))
  {
    ProductSplitsBack(p.at.product);
    LabelsPrintBack(Name(p), LabelSet(p.labels));
  }

  lemma PiecesPrintBack(p: ProductSpec)
    requires PlainTail(p) && AtSignsOk(Front(p), !IsLatest(p.at.revision))
    ensures AtPieces(ShowSpec(p)) == if IsLatest(p.at.revision) then [ShowSpec(p)] else [Front(p), p.at.revision]
  {
    ShowsFront(p);
    if IsLatest(p.at.revision) {
      UnpinnedAtPieces(Front(p));
    } else {
      PinnedAtPieces(Front(p), p.at.revision);
    }
  }

  lemma ShowsFront(p: ProductSpec)
    ensures ShowSpec(p) == if IsLatest(p.at.revision) then Front(p) else Front(p) + ['@'] + p.at.revision
  {
  }

  lemma PrintThenParse(p: ProductSpec)
    requires WellFormed(p)
    ensures SpecOf(ShowSpec(p)) == Ok(NormalForm(p))
  {
    ProductPrintsBack(p.at.product);
    FrontPrintsBack(p);
    PiecesPrintBack(p);
    ShowsFront(p);
    SpecFromParts(ShowSpec(p), Front(p), Name(p), p);
  }

  // Once the revision and the labels are cut off, the parts assemble.
  lemma SpecFromParts(s: string, front: string, name: string, p: ProductSpec)
    requires AtPieces(s) == if IsLatest(p.at.revision) then [s] else [front, p.at.revision]
    requires IsLatest(p.at.revision) || IsSha(p.at.revision)
    requires IsLatest(p.at.revision) ==> s == front
    requires LabelsOf(front) == Ok((name, Normal(p.labels)))
    requires ProductOf(name) == Ok(p.at.product)
    ensures SpecOf(s) == Ok(NormalForm(p))
  {
  }

  // ---- and no other spec prints back ----

  lemma ParsedProductFits(n: string, p: Product)
    requires ProductOf(n) == Ok(p)
    ensures |ShowProduct(p)| <= |n|
  {
    var pieces := Split(n, '-');
    JoinSplit(n, '-');
    var j1, j2, j3 := Join(pieces[1..], "-"), 0, 0;
    if |pieces| > 1 { assert n == pieces[0] + "-" + j1; }
    if |pieces| > 2 {
      assert j1 == pieces[1] + "-" + Join(pieces[1..][1..], "-");
      if |pieces| > 3 {
        assert Join(pieces[1..][1..], "-") == pieces[2] + "-" + Join(pieces[1..][1..][1..], "-");
      }
    }
  }

  lemma LabelledNameFits(front: string, name: string, labels: Option<set<string>>)
    requires LabelsOf(front) == Ok((name, labels))
    ensures |name| <= |front|
  {
    JoinSplit(front, '[');
  }

  ghost predicate OnlyMainsBefore(s: string, upTo: nat) {
    forall i :: 0 <= i < upTo && i < |s| && s[i] == '@' ==> MainAt(s, i)
  }

  // A cut of AtPieces that leaves two pieces is at an "@", and every "@" before
  // it opens an "@main".
  lemma CutIsAt(s: string)
    requires |AtPieces(s)| == 2
    ensures var k := |AtPieces(s)[0]|;
      k < |s| && s[k] == '@' && OnlyMainsBefore(s, k)
  {
    var bare := FirstBareAt(s, 0);
    if AtPieces(s) == Split(s, '@') {
      SplitOne(s, '@');
      var i := IndexOf(s, '@');
      assert |Split(s, '@')[0]| == i;
      forall j | 0 <= j < i ensures s[j] != '@' { assert s[j] in s[..i]; }
    } else {
      assert |AtPieces(s)[0]| == bare.value;
      forall i | 0 <= i < bare.value && s[i] == '@' ensures MainAt(s, i) { assert !BareAt(s, i); }
    }
  }

  lemma SinglePieceAt(s: string)
    requires |AtPieces(s)| == 1
    ensures AtPieces(s) == [s] && Count(s, '@') <= 1
    ensures OnlyMainsBefore(s, |s|)
  {
    CountZero(s, '@');
    SplitOne(s, '@');
    SplitCount(s, '@');
    var main := FirstMainAt(s, 0);
    if main.Some? && Count(s, '@') == 1 {
      MainAtHead(s, main.value);
      OnlyAt(s, main.value);
    }
  }

  lemma OnlyAt(s: string, m: nat)
    requires m < |s| && s[m] == '@' && Count(s, '@') == 1
    ensures forall i :: 0 <= i < |s| && s[i] == '@' ==> i == m
  {
    assert s == s[..m] + ['@'] + s[m + 1..];
    CountAppend(s[..m] + ['@'], s[m + 1..], '@');
    CountAppend(s[..m], ['@'], '@');
    CountZero(s[..m], '@');
    CountZero(s[m + 1..], '@');
    forall i | 0 <= i < |s| && i != m ensures s[i] != '@' {
      assert if i < m then s[i] in s[..m] else s[i] in s[m + 1..];
    }
  }

  // What follows begins with "@", so no "@main" straddles it.
  lemma MainAtStaysInside(name: string, rest: string, i: nat)
    requires rest == "" || rest[0] == '@'
    requires i < |name| && MainAt(name + rest, i)
    ensures MainAt(name, i)
  {
    var s := name + rest;
    var word := s[i..i + 5];
    assert word[1] == 'm' && word[2] == 'a' && word[3] == 'i' && word[4] == 'n';
    assert s[i + 1] == word[1] && s[i + 2] == word[2] && s[i + 3] == word[3] && s[i + 4] == word[4];
    assert rest != "" ==> s[|name|] == rest[0];
    assert name[i..i + 5] == word;
  }

  // The parts a spec was parsed from.
  lemma SpecComesApart(s: string, p: ProductSpec)
    requires SpecOf(s) == Ok(p)
    ensures 1 <= |AtPieces(s)| <= 2 && (|AtPieces(s)| == 1 ==> p.at.revision == "latest")
    ensures |AtPieces(s)| == 2 ==> ShaOf(AtPieces(s)[1]) == Ok(p.at.revision)
    ensures var labelled := LabelsOf(if |AtPieces(s)| == 2 then AtPieces(s)[0] else s);
      labelled.Ok? && ProductOf(labelled.value.0) == Ok(p.at.product) && labelled.value.1 == p.labels
  {
    assert |AtPieces(s)| >= 1;
    hide AtPieces, LabelsOf, ProductOf, ShaOf;
  }

  lemma TwoPiecesJoin(s: string)
    requires |AtPieces(s)| == 2
    ensures s == AtPieces(s)[0] + ['@'] + AtPieces(s)[1]
  {
    hide Split, Join, Count, FirstMainAt;
    if AtPieces(s) == Split(s, '@') {
      TwoSplitJoin(s);
    } else {
      var k := FirstBareAt(s, 0).value;
      SplitOne(s[k + 1..], '@');
      assert s == s[..k] + ['@'] + s[k + 1..];
    }
  }

  lemma TwoSplitJoin(s: string)
    requires |Split(s, '@')| == 2
    ensures s == Split(s, '@')[0] + ['@'] + Split(s, '@')[1]
  {
    JoinSplit(s, '@');
    hide Split;
    assert Split(s, '@')[1..] == [Split(s, '@')[1]];
  }

  // Whatever is parsed back was parsed from the printed front and revision.
  lemma FrontComesApart(p: ProductSpec)
    requires SpecOf(ShowSpec(p)) == Ok(NormalForm(p))
    ensures IsLatest(p.at.revision) || IsSha(p.at.revision)
    ensures LabelsOf(Front(p)).Ok? && ProductOf(LabelsOf(Front(p)).value.0) == Ok(p.at.product)
    ensures LabelsOf(Front(p)).value.1 == Normal(p.labels)
    ensures AtPieces(ShowSpec(p)) == if IsLatest(p.at.revision) then [ShowSpec(p)] else [Front(p), p.at.revision]
  {
    hide SpecOf, AtPieces, LabelsOf, ProductOf, ShowSpec, Front;
    var s := ShowSpec(p);
    ShowsFront(p);
    SpecComesApart(s, NormalForm(p));
    if |AtPieces(s)| == 2 {
      TwoPiecesJoin(s);
      if IsLatest(p.at.revision) {
        NothingToCut(p, AtPieces(s)[0], AtPieces(s)[1]);
      } else {
        var front, revision := AtPieces(s)[0], AtPieces(s)[1];
        assert revision == p.at.revision;
        assert front == s[..|s| - |revision| - 1] == Front(p);
        assert AtPieces(s) == [front, revision];
      }
    } else {
      SinglePieceAt(s);
    }
  }

  // Without a revision nothing is cut off: the labels end in "]", and the product
  // does not fit in less than its own text.
  lemma NothingToCut(p: ProductSpec, front: string, revision: string)
    requires ShaOf(revision) == Ok("latest")
    requires LabelsOf(front).Ok? && ProductOf(LabelsOf(front).value.0) == Ok(p.at.product)
    ensures Front(p) != front + ['@'] + revision
  {
    LabelledNameFits(front, LabelsOf(front).value.0, LabelsOf(front).value.1);
    ParsedProductFits(LabelsOf(front).value.0, p.at.product);
    hide LabelsOf, ProductOf;
    LatestIsLatest(revision);
    var s := front + ['@'] + revision;
    assert s[|s| - 1] == if revision == "" then '@' else revision[|revision| - 1];
    LabelsEnd(Name(p), LabelSet(p.labels));
  }

  lemma LatestIsLatest(revision: string)
    requires ShaOf(revision) == Ok("latest")
    ensures revision == "" || revision[|revision| - 1] == 't'
  {
    assert "latest"[0] in "latest" && !HexDigit("latest"[0]);
    assert "latest"[5] == 't';
  }

  lemma LabelsEnd(name: string, labels: set<string>)
    ensures var s := name + ShowLabels(labels); s == name || (|s| > 0 && s[|s| - 1] == ']')
  {
  }

  lemma {:induction false} JoinHolds(parts: seq<string>, sep: string, part: string, c: char)
    requires part in parts && c in part
    ensures c in Join(parts, sep)
  {
    if |parts| > 1 && part != parts[0] {
      assert part in parts[1..];
      JoinHolds(parts[1..], sep, part, c);
    }
  }

  // The labels that come back hold none of the characters that cut them.
  lemma LabelsComeApart(name: string, labels: set<string>, n: string)
    requires LabelsOf(name + ShowLabels(labels)) == Ok((n, Normal(Some(labels)))) && |name| <= |n|
    ensures n == name && '[' !in name
    ensures forall l | l in labels :: PlainLabel(l)
  {
    var front, kept := name + ShowLabels(labels), labels - {""};
    BeforeBracket(front, n, Normal(Some(labels)));
    assert name == n[..|name|];
    assert '[' !in name;
    if kept == {} {
      assert front == name;
    } else {
      var joined := Join(Arrange(kept), ",");
      BlockComesApart(name, joined, n, kept);
      forall l | l in kept ensures PlainLabel(l) {
        assert l in Arrange(kept);
        if '[' in l { JoinHolds(Arrange(kept), ",", l, '['); }
        if ']' in l { JoinHolds(Arrange(kept), ",", l, ']'); }
      }
      assert forall l | l in labels :: l in kept || l == "";
    }
  }

  lemma BeforeBracket(front: string, n: string, labels: Option<set<string>>)
    requires LabelsOf(front) == Ok((n, labels))
    ensures n <= front && '[' !in n
  {
    SplitOne(front, '[');
    if '[' in front {
      var i := IndexOf(front, '[');
      assert n == front[..i];
    }
  }

  lemma BlockComesApart(name: string, joined: string, n: string, kept: set<string>)
    requires '[' !in name && LabelsOf(name + ("[" + joined + "]")) == Ok((n, Some(kept)))
    ensures n == name && '[' !in joined && ']' !in joined
    ensures forall l | l in kept :: ',' !in l
  {
    var inner := joined + "]";
    assert name + ("[" + joined + "]") == name + ['['] + inner;
    SplitCons(name, '[', inner);
    SplitOne(inner, '[');
    assert inner[..|inner| - 1] == joined;
    assert forall c :: c in joined ==> c in inner;
    JoinSplit(joined, ',');
  }

  // A product that prints back has sound fields.
  lemma ProductComesApart(p: Product)
    requires ProductOf(ShowProduct(p)) == Ok(p) && '[' !in ShowProduct(p)
    ensures WellFormedProduct(p)
  {
    hide Split, Join, ShowProduct, Fields, FieldsOk, IsStableBrowserName, ProductFrom, ValidAt;
    FieldsHaveNoDash(p);
    DashlessFields(p);
    ShowProductJoins(p);
    SplitJoin(Fields(p), '-');
    FieldsComeApart(p);
    OsHasVersion(p);
    FieldsInside(p);
  }

  lemma DashlessFields(p: Product)
    requires IsStableBrowserName(p.browserName)
    requires '-' !in p.browserVersion && '-' !in p.osName && '-' !in p.osVersion
    ensures Without(Fields(p), '-') && Fields(p) != []
  {
    KnownBrowserIsPlain(p.browserName);
  }

  lemma OsHasVersion(p: Product)
    requires FieldsOk(p)
    ensures (p.osName != "" ==> p.browserVersion != "") && (p.osVersion != "" ==> p.osName != "")
  {
  }

  lemma FieldsComeApart(p: Product)
    requires ProductFrom(Fields(p), ValidAt(Fields(p), 1), ValidAt(Fields(p), 3)) == Ok(p)
    ensures FieldsOk(p)
  {
    hide VersionOf, IsBrowserName, ToLower;
  }

  lemma FieldsHaveNoDash(p: Product)
    requires ProductOf(ShowProduct(p)) == Ok(p)
    ensures IsStableBrowserName(p.browserName)
    ensures '-' !in p.browserVersion && '-' !in p.osName && '-' !in p.osVersion
  {
    var pieces := Split(ShowProduct(p), '-');
    JoinSplit(ShowProduct(p), '-');
    assert forall i | 0 <= i < |pieces| :: pieces[i] in pieces;
    LowerHasNoDash(pieces[0]);
    assert "-experimental"[0] == '-';
    assert HasSuffix(p.browserName, "-experimental") ==> '-' in p.browserName;
  }

  lemma LowerHasNoDash(s: string)
    requires '-' !in s
    ensures '-' !in ToLower(s)
  {
    forall i | 0 <= i < |s| ensures Lower(s[i]) != '-' {
      assert s[i] in s;
    }
  }

  lemma FieldsInside(p: Product)
    requires '[' !in ShowProduct(p)
    requires (p.osName != "" ==> p.browserVersion != "") && (p.osVersion != "" ==> p.osName != "")
    ensures '[' !in p.browserVersion && '[' !in p.osName && '[' !in p.osVersion
  {
    ShowProductJoins(p);
    forall part | part in Fields(p) ensures '[' !in part {
      if '[' in part { JoinHolds(Fields(p), "-", part, '['); }
    }
    assert p.browserVersion != "" ==> Fields(p)[1] == p.browserVersion;
    assert p.osName != "" ==> Fields(p)[2] == p.osName;
    assert p.osVersion != "" ==> Fields(p)[3] == p.osVersion;
  }

  lemma AtSignsComeApart(p: ProductSpec)
    requires AtPieces(ShowSpec(p)) == if IsLatest(p.at.revision) then [ShowSpec(p)] else [Front(p), p.at.revision]
    ensures AtSignsOk(Front(p), !IsLatest(p.at.revision))
  {
    var s := ShowSpec(p);
    ShowsFront(p);
    if IsLatest(p.at.revision) {
      SinglePieceAt(s);
    } else {
      CutIsAt(s);
      forall i | 0 <= i < |Front(p)| && Front(p)[i] == '@' ensures MainAt(Front(p), i) {
        assert s == Front(p) + (['@'] + p.at.revision);
        MainAtStaysInside(Front(p), ['@'] + p.at.revision, i);
      }
    }
  }

  // For every spec: it survives printing, up to its normal form, exactly when its
  // fields and labels hold none of the characters that cut them, its versions
  // parse and none is skipped, its revision is a hash or "latest", and its only
  // "@"s open "@main"s, at most one of them when no revision is printed.
  lemma PrintsBackIff(p: ProductSpec)
    ensures SpecOf(ShowSpec(p)) == Ok(NormalForm(p)) <==> WellFormed(p)
  {
    if WellFormed(p) {
      PrintThenParse(p);
    } else if SpecOf(ShowSpec(p)) == Ok(NormalForm(p)) {
      FrontComesApart(p);
      AtSignsComeApart(p);
      var n := LabelsOf(Front(p)).value.0;
      ParsedProductFits(n, p.at.product);
      LabelsComeApart(Name(p), LabelSet(p.labels), n);
      ProductComesApart(p.at.product);
    }
  }

  // So a printed spec identifies the spec it came from.
  lemma PrintIsInjective(p: ProductSpec, q: ProductSpec)
    requires WellFormed(p) && WellFormed(q)
    ensures ShowSpec(p) == ShowSpec(q) ==> NormalForm(p) == NormalForm(q)
  {
    PrintThenParse(p);
    PrintThenParse(q);
  }

  // A spec that was parsed has no full hash.
  lemma ParsedHasNoFullHash(s: string)
    ensures SpecOf(s).Ok? ==> SpecOf(s).value.at.fullRevisionHash == ""
  {
    hide AtPieces, LabelsOf, ProductOf, ShaOf;
  }

  // An "@" that opens no "@main" and is not before a revision is not printed back,
  // though a parser takes such a version.
  lemma StrayAtDoesNotPrintBack()
    ensures var p := ProductSpec(ProductAtRevision(Product("chrome", "1 a@b", "", ""), "", ""), None);
      WellFormedProduct(p.at.product) && PlainTail(p) && SpecOf(ShowSpec(p)) != Ok(NormalForm(p))
  {
    var p := ProductSpec(ProductAtRevision(Product("chrome", "1 a@b", "", ""), "", ""), None);
    StrayProduct();
    StrayName(p);
    hide AtSignsOk, VersionOf, SpecOf, ShowSpec, WellFormedProduct, NormalForm, Front;
    PrintsBackIff(p);
  }

  lemma StrayProduct()
    ensures WellFormedProduct(Product("chrome", "1 a@b", "", ""))
  {
    StrayVersion();
    ChromeIsStable();
    hide VersionOf, IsStableBrowserName;
  }

  lemma ChromeIsStable()
    ensures IsStableBrowserName("chrome")
  {
  }

  lemma StrayVersion()
    ensures VersionOf("1 a@b").Ok?
  {
    var version := Version(1, None, None, None, " a@b");
    assert VersionRoundTrip.ShowVersion(version) == "1 a@b";
    VersionRoundTrip.PrintedParses(version);
  }

  lemma StrayName(p: ProductSpec)
    requires p.at.product == Product("chrome", "1 a@b", "", "") && p.labels == None
    ensures !AtSignsOk(Front(p), false)
  {
    var name := "chrome" + ("-" + "1 a@b") + "";
    assert Front(p) == name;
    assert name[10] == '@' && name[11] == 'b';
  }
}
