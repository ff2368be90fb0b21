// Products, product specs and test runs: matching and printing
// (shared/models.go, shared/product_spec.go, shared/browsers.go).
module Products {
  import opened Wrappers
  import opened Strings
  import opened StringOrder
  import opened Collections

  datatype Product = Product(browserName: string, browserVersion: string, osName: string, osVersion: string)

  datatype ProductAtRevision =
    ProductAtRevision(product: Product, revision: string, fullRevisionHash: string)

  // Labels is a nilable set in the source.
  datatype ProductSpec = ProductSpec(at: ProductAtRevision, labels: Option<set<string>>)

  datatype TestRun = TestRun(id: int, at: ProductAtRevision, labels: seq<string>)

  const DEFAULT_BROWSERS := ["chrome", "edge", "firefox", "safari"]

  const EXTRA_BROWSERS := [
    "android_webview", "blitz", "chrome_android", "chrome_ios", "chromium", "deno", "epiphany",
    "firefox_android", "flow", "ladybird", "node.js", "servo", "uc", "wktr", "webkitgtk", "wpewebkit"]

  predicate Listed(name: string, names: seq<string>) {
    names != [] && (name == names[0] || Listed(name, names[1..]))
  }

  predicate IsStableBrowserName(name: string) {
    Listed(name, DEFAULT_BROWSERS) || Listed(name, EXTRA_BROWSERS)
  }

  predicate IsLatest(sha: string) {
    sha == "" || sha == "latest"
  }

  function LabelSet(labels: Option<set<string>>): set<string> {
    match labels case None => {} case Some(s) => s
  }

  // ---- matching ----

  predicate MatchesLabels(p: ProductSpec, labels: Option<set<string>>) {
    p.labels.Some? && p.labels.value != {} ==> labels.Some? && p.labels.value <= labels.value
  }

  predicate MatchesRevision(p: ProductSpec, at: ProductAtRevision) {
    IsLatest(p.at.revision) || p.at.revision == at.revision || HasPrefix(at.fullRevisionHash, p.at.revision)
  }

  // "6" must not match "60.123", so both sides get a trailing dot.
  predicate MatchesVersion(wanted: string, version: string) {
    wanted != "" ==> HasPrefix(version + ".", wanted + ".")
  }

  predicate MatchesProductAtRevision(p: ProductSpec, at: ProductAtRevision) {
    && at.product.browserName == p.at.product.browserName
    && MatchesRevision(p, at)
    && MatchesVersion(p.at.product.browserVersion, at.product.browserVersion)
  }

  predicate MatchesProductSpec(p: ProductSpec, other: ProductSpec) {
    MatchesLabels(p, other.labels) && MatchesProductAtRevision(p, other.at)
  }

  predicate Matches(p: ProductSpec, run: TestRun) {
    MatchesLabels(p, Some(set l | l in run.labels)) && MatchesProductAtRevision(p, run.at)
  }

  // A spec's version is matched component by component: the run's version is
  // the wanted one, or continues it after a dot.
  lemma VersionMatchIsDotted(wanted: string, version: string)
    ensures MatchesVersion(wanted, version)
      <==> wanted == "" || version == wanted || HasPrefix(version, wanted + ".")
  {
    var v, w := version + ".", wanted + ".";
    if w <= v && |wanted| < |version| {
      assert version == v[..|version|];
      assert w == version[..|w|];
    } else if w <= v {
      assert wanted == v[..|wanted|];
    }
    if w <= version {
      assert version[..|w|] == v[..|w|];
    }
  }

  // A spec matches what is of its browser, of its revision, short or the start of the
  // full hash, unless that is the latest, of its version or one below it, and has
  // all its labels; nothing is asked of the operating system.
  lemma SpecMatchesIff(p: ProductSpec, other: ProductSpec)
    ensures MatchesProductSpec(p, other) <==>
      && other.at.product.browserName == p.at.product.browserName
      && (p.at.revision in {"", "latest", other.at.revision} || p.at.revision <= other.at.fullRevisionHash)
      && (p.at.product.browserVersion in {"", other.at.product.browserVersion}
            || p.at.product.browserVersion + "." <= other.at.product.browserVersion)
      && (p.labels.None? || forall l | l in p.labels.value :: other.labels.Some? && l in other.labels.value)
  {
    VersionMatchIsDotted(p.at.product.browserVersion, other.at.product.browserVersion);
    if p.labels.Some? && p.labels.value != {} {
      var l :| l in p.labels.value;
    }
  }

  lemma RunMatchesIff(p: ProductSpec, run: TestRun)
    ensures Matches(p, run) <==>
      && run.at.product.browserName == p.at.product.browserName
      && (p.at.revision in {"", "latest", run.at.revision} || p.at.revision <= run.at.fullRevisionHash)
      && (p.at.product.browserVersion in {"", run.at.product.browserVersion}
            || p.at.product.browserVersion + "." <= run.at.product.browserVersion)
      && (p.labels.None? || forall l | l in p.labels.value :: l in run.labels)
  {
    SpecMatchesIff(p, ProductSpec(run.at, Some(set l | l in run.labels)));
  }

  // Labels are asked for one by one, and what lacks one of them never matches.
  lemma LabelsMatchOneByOne(p: ProductSpec, run: TestRun)
    requires p.labels.Some?
    ensures Matches(p, run) <==>
      Matches(p.(labels := None), run) && forall l | l in p.labels.value :: Matches(p.(labels := Some({l})), run)
    ensures forall l | l in p.labels.value && l !in run.labels :: !Matches(p, run)
  {
    RunMatchesIff(p, run);
    RunMatchesIff(p.(labels := None), run);
    forall l | l in p.labels.value
      ensures Matches(p.(labels := Some({l})), run) <==> Matches(p.(labels := None), run) && l in run.labels
    {
      RunMatchesIff(p.(labels := Some({l})), run);
    }
  }

  // The spec made of a run's own fields matches it, on whatever operating system,
  // and still does when the version is cut at a dot, the revision is cut or not
  // asked for, or labels are left out.
  lemma OwnSpecMatches(run: TestRun, p: ProductSpec)
    requires p.at.product.browserName == run.at.product.browserName
    requires p.at.product.browserVersion in {"", run.at.product.browserVersion}
      || p.at.product.browserVersion + "." <= run.at.product.browserVersion
    requires p.at.revision in {"", "latest", run.at.revision, run.at.fullRevisionHash}
      || p.at.revision <= run.at.fullRevisionHash
    requires p.labels.None? || forall l | l in p.labels.value :: l in run.labels
    ensures Matches(p, run)
  {
    RunMatchesIff(p, run);
  }

  // Every spec matches itself, so a link can always stand under its own product.
  lemma MatchesItself(p: ProductSpec)
    ensures MatchesProductSpec(p, p)
  {
  }

  // ---- printing ----

  function ShowProduct(p: Product): string {
    p.browserName
    + (if p.browserVersion != "" then "-" + p.browserVersion else "")
    + (if p.osName != "" then "-" + p.osName + (if p.osVersion != "" then "-" + p.osVersion else "") else "")
  }

  ghost function ShowLabels(labels: set<string>): string {
    if labels - {""} == {} then "" else "[" + Join(Arrange(labels - {""}), ",") + "]"
  }

  function ShowRevision(revision: string): string {
    if IsLatest(revision) then "" else "@" + revision
  }

  ghost function ShowSpec(p: ProductSpec): string {
    ShowProduct(p.at.product) + ShowLabels(LabelSet(p.labels)) + ShowRevision(p.at.revision)
  }

  // ProductSpec.String: drops the empty label from the caller's set, then lists
  // the labels in whatever order the set yields them and sorts the list.
  method SpecString(p: ProductSpec) returns (s: string, labelsLeft: Option<set<string>>)
    ensures s == ShowSpec(p)
    ensures labelsLeft == (if p.labels.None? then None else Some(p.labels.value - {""}))
  {
    LabelsShown(p.labels);
    hide ShowProduct, ShowRevision, ShowLabels, Join, Arrange;
    s := ShowProduct(p.at.product);
    labelsLeft := p.labels;
    if p.labels.Some? {
      labelsLeft := Some(p.labels.value - {""});
      var all := labelsLeft.value;
      if |all| > 0 {
        var sorted := SortedLabels(all);
        s := s + "[" + Join(sorted, ",") + "]";
      }
    }
    s := s + ShowRevision(p.at.revision);
  }

  lemma LabelsShown(labels: Option<set<string>>)
    ensures labels.None? ==> ShowLabels(LabelSet(labels)) == ""
    ensures labels.Some? ==>
      var all := labels.value - {""};
      && (|all| > 0 ==> ShowLabels(LabelSet(labels)) == "[" + Join(Arrange(all), ",") + "]")
      && (|all| == 0 ==> ShowLabels(LabelSet(labels)) == "")
  {
    hide Join, Arrange;
  }

  method SortedLabels(all: set<string>) returns (sorted: seq<string>)
    ensures sorted == Arrange(all)
  {
    hide Arrange;
    var labels := ListSet(all);
    sorted := SortStrings(labels);
    SameElements(sorted, labels);
    ArrangeUnique(sorted, all);
  }
}
