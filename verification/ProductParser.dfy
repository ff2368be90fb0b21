// Parsing of product specs (shared/params.go). Every parser is a method proved
// against a function; the functions carry the round-trip theorems.
module ProductParser {
  import opened Wrappers
  import opened Strings
  import opened Products

  // The error messages of the parsers, without the text they quote.
  datatype ParseError =
    | InvalidSha | InvalidVersion | InvalidProduct | InvalidBrowserName
    | InvalidBrowserVersion | InvalidOsVersion | InvalidLabels | InvalidProductSpec

  // ---- the "@main" split ----

  predicate MainAt(s: string, i: nat) {
    i + 5 <= |s| && s[i..i + 5] == "@main"
  }

  predicate BareAt(s: string, i: nat) {
    i < |s| && s[i] == '@' && !MainAt(s, i)
  }

  // First "@" at or after i that does not open an "@main".
  function FirstBareAt(s: string, i: nat): (r: Option<nat>)
    ensures r.None? ==> forall j :: i <= j < |s| ==> !BareAt(s, j)
    ensures r.Some? ==> i <= r.value && BareAt(s, r.value) && forall j :: i <= j < r.value ==> !BareAt(s, j)
    decreases |s| - i
  {
    if i >= |s| then None else if BareAt(s, i) then Some(i) else FirstBareAt(s, i + 1)
  }

  // strings.Index(s[i:], "@main").
  function FirstMainAt(s: string, i: nat): (r: Option<nat>)
    ensures r.None? ==> forall j :: i <= j ==> !MainAt(s, j)
    ensures r.Some? ==> i <= r.value && MainAt(s, r.value) && forall j :: i <= j < r.value ==> !MainAt(s, j)
    decreases |s| - i
  {
    if i >= |s| then None else if MainAt(s, i) then Some(i) else FirstMainAt(s, i + 1)
  }

  function AtPieces(s: string): seq<string> {
    var main := FirstMainAt(s, 0);
    if main.None? then Split(s, '@')
    else if Count(s, '@') == 1 then [s]
    else
      var bare := FirstBareAt(s, 0);
      if bare.None? || main.value > bare.value then Split(s, '@')
      else [s[..bare.value]] + Split(s[bare.value + 1..], '@')
  }

  method SplitAtNonMainAt(s: string) returns (pieces: seq<string>)
    ensures pieces == AtPieces(s)
  {
    var firstMain := FirstMainAt(s, 0);
    if firstMain.None? {
      return Split(s, '@');
    }
    if Count(s, '@') == 1 {
      return [s];
    }
    var posFirstAtNoMain := FindBareAt(s);
    if posFirstAtNoMain == -1 || firstMain.value > posFirstAtNoMain {
      return Split(s, '@');
    }
    return [s[..posFirstAtNoMain]] + Split(s[posFirstAtNoMain + 1..], '@');
  }

  // The scan of splitAtNonMainAt: the position of the first "@" that does not
  // open an "@main", or -1.
  method FindBareAt(s: string) returns (pos: int)
    ensures FirstBareAt(s, 0) == if pos == -1 then None else Some(pos)
    ensures -1 <= pos < |s|
  {
    pos := -1;
    var i := 0;
    while i < |s|
      invariant 0 <= i <= |s|
      invariant pos == -1
      invariant forall j :: 0 <= j < i ==> !BareAt(s, j)
    {
      if s[i] == '@' && !MainAt(s, i) {
        assert BareAt(s, i);
        return i;
      }
      i := i + 1;
    }
  }

  // ---- SHAs ----

  predicate HexDigit(c: char) {
    '0' <= c <= '9' || 'a' <= c <= 'f' || 'A' <= c <= 'F'
  }

  // ^[0-9a-fA-F]{7,40}$
  predicate IsSha(s: string) {
    7 <= |s| <= 40 && forall c | c in s :: HexDigit(c)
  }

  function ShaOf(s: string): Result<string, ParseError> {
    if IsLatest(s) then Ok("latest")
    else if IsSha(s) then Ok(s)
    else Err(InvalidSha)
  }

  // ---- versions ----

  datatype Version =
    Version(major: int, minor: Option<int>, build: Option<int>, revision: Option<int>, channel: string)

  predicate Digit(c: char) {
    '0' <= c <= '9'
  }

  predicate AllDigits(s: string) {
    s == "" || (Digit(s[|s| - 1]) && AllDigits(s[..|s| - 1]))
  }

  function DigitsValue(s: string): nat
    requires AllDigits(s)
  {
    if s == "" then 0 else
      DigitsValue(s[..|s| - 1]) * 10 + (s[|s| - 1] as int - '0' as int)
  }

  // strconv.ParseInt(s, 10, 0): an optional sign, then digits, within int64.
  function IntOf(s: string): Option<int> {
    var digits := if s != "" && (s[0] == '+' || s[0] == '-') then s[1..] else s;
    if digits == "" || !AllDigits(digits) then None else
      var n: int := DigitsValue(digits);
      var v := if s[0] == '-' then -n else n;
      if -0x8000_0000_0000_0000 <= v <= 0x7fff_ffff_ffff_ffff then Some(v) else None
  }

  function TrailingDigits(s: string): (n: nat)
    ensures n <= |s|
  {
    if s == "" || !Digit(s[|s| - 1]) then 0 else 1 + TrailingDigits(s[..|s| - 1])
  }

  // The capture of ^.*([ab]\d+)$, or "" when the pattern does not match.
  function NightlySuffix(s: string): (suffix: string)
    ensures |suffix| <= |s|
  {
    var d := TrailingDigits(s);
    var i := |s| - d - 1;
    if d > 0 && i >= 0 && (s[i] == 'a' || s[i] == 'b') && '\n' !in s[..i] then s[i..] else ""
  }

  function NumberedVersion(numbers: seq<int>, channel: string): Version
    requires 1 <= |numbers| <= 4
  {
    Version(numbers[0],
            if |numbers| > 1 then Some(numbers[1]) else None,
            if |numbers| > 2 then Some(numbers[2]) else None,
            if |numbers| > 3 then Some(numbers[3]) else None,
            channel)
  }

  // All the pieces as integers, or None when one is not.
  function Numbers(pieces: seq<string>): (r: Option<seq<int>>)
    ensures r.Some? ==> |r.value| == |pieces|
  {
    if pieces == [] then Some([]) else
      var front, n := Numbers(pieces[..|pieces| - 1]), IntOf(pieces[|pieces| - 1]);
      if front.None? || n.None? then None else Some(front.value + [n.value])
  }

  lemma {:induction false} NumbersNone(pieces: seq<string>, i: nat)
    requires i < |pieces| && IntOf(pieces[i]).None?
    ensures Numbers(pieces).None?
  {
    if i < |pieces| - 1 {
      NumbersNone(pieces[..|pieces| - 1], i);
    }
  }

  // The numbered part, with a nightly suffix taking precedence over the channel.
  function NumberedOf(word: string, channel: string): Result<Version, ParseError> {
    var suffix := NightlySuffix(word);
    var pieces := Split(word[..|word| - |suffix|], '.');
    var numbers := Numbers(pieces);
    if |pieces| > 4 || numbers.None? then Err(InvalidVersion)
    else Ok(NumberedVersion(numbers.value, if suffix != "" then suffix else channel))
  }

  function VersionOf(version: string): Result<Version, ParseError> {
    var words := Split(version, ' ');
    if |words| > 2 then Err(InvalidVersion)
    else NumberedOf(words[0], if |words| == 2 then " " + words[1] else "")
  }

  method ParseNumbers(pieces: seq<string>) returns (r: Option<seq<int>>)
    ensures r == Numbers(pieces)
  {
    var numbers := [];
    for i := 0 to |pieces|
      invariant Numbers(pieces[..i]) == Some(numbers)
    {
      var n := IntOf(pieces[i]);
      if n.None? {
        NumbersNone(pieces, i);
        return None;
      }
      assert pieces[..i + 1][..i] == pieces[..i];
      numbers := numbers + [n.value];
    }
    assert pieces[..|pieces|] == pieces;
    return Some(numbers);
  }

  method ParseVersion(input: string) returns (r: Result<Version, ParseError>)
    ensures r == VersionOf(input)
  {
    var version := input;
    var pieces := Split(version, ' ');
    var channel := "";
    if |pieces| > 2 {
      return Err(InvalidVersion);
    } else if |pieces| > 1 {
      channel := " " + pieces[1];
      version := pieces[0];
    }
    SplitOne(input, ' ');
    assert VersionOf(input) == NumberedOf(version, channel);
    r := ParseNumbered(version, channel);
  }

  method ParseNumbered(word: string, wordChannel: string) returns (r: Result<Version, ParseError>)
    ensures r == NumberedOf(word, wordChannel)
  {
    var version, channel := word, wordChannel;
    var suffix := NightlySuffix(version);
    if suffix != "" {
      channel := suffix;
      version := version[..|version| - |suffix|];
    }
    assert version == word[..|word| - |suffix|];
    var pieces := Split(version, '.');
    if |pieces| > 4 {
      return Err(InvalidVersion);
    }
    var numbers := ParseNumbers(pieces);
    if numbers.None? {
      return Err(InvalidVersion);
    }
    return Ok(NumberedVersion(numbers.value, channel));
  }

  // ---- products ----

  function Lower(c: char): char {
    if 'A' <= c <= 'Z' then (c as int + 32) as char else c
  }

  function ToLower(s: string): string {
    seq(|s|, i requires 0 <= i < |s| => Lower(s[i]))
  }

  predicate IsBrowserName(name: string) {
    var stable := if HasSuffix(name, "-experimental") then name[..|name| - |"-experimental"|] else name;
    IsStableBrowserName(stable)
  }

  predicate ValidAt(pieces: seq<string>, i: nat) {
    i < |pieces| ==> VersionOf(pieces[i]).Ok?
  }

  function ProductFrom(pieces: seq<string>, versionOk: bool, osVersionOk: bool): Result<Product, ParseError>
    requires pieces != []
  {
    if |pieces| > 4 then Err(InvalidProduct)
    else if !IsBrowserName(ToLower(pieces[0])) then Err(InvalidBrowserName)
    else if !versionOk then Err(InvalidBrowserVersion)
    else if !osVersionOk then Err(InvalidOsVersion)
    else Ok(Product(ToLower(pieces[0]),
                    if |pieces| > 1 then pieces[1] else "",
                    if |pieces| > 2 then pieces[2] else "",
                    if |pieces| > 3 then pieces[3] else ""))
  }

  function ProductOf(s: string): Result<Product, ParseError> {
    var pieces := Split(s, '-');
    ProductFrom(pieces, ValidAt(pieces, 1), ValidAt(pieces, 3))
  }

  method ParseProduct(s: string) returns (r: Result<Product, ParseError>)
    ensures r == ProductOf(s)
  {
    var pieces := Split(s, '-');
    if |pieces| > 4 {
      return Err(InvalidProduct);
    }
    var result := Product(ToLower(pieces[0]), "", "", "");
    if !IsBrowserName(result.browserName) {
      return Err(InvalidBrowserName);
    }
    if |pieces| > 1 {
      var v := ParseVersion(pieces[1]);
      if v.Err? {
        return Err(InvalidBrowserVersion);
      }
      result := result.(browserVersion := pieces[1]);
    }
    if |pieces| > 2 {
      result := result.(osName := pieces[2]);
    }
    if |pieces| > 3 {
      var v := ParseVersion(pieces[3]);
      if v.Err? {
        return Err(InvalidOsVersion);
      }
      result := result.(osVersion := pieces[3]);
    }
    return Ok(result);
  }

  // ---- product specs ----

  function NonEmpty(labels: seq<string>): set<string> {
    set l | l in labels && l != ""
  }

  // The text before a "[...]" block, and the labels inside it.
  function LabelsOf(name: string): Result<(string, Option<set<string>>), ParseError> {
    var parts := Split(name, '[');
    if |parts| > 2 then Err(InvalidLabels)
    else if |parts| == 1 then Ok((name, None))
    else
      var inner := parts[1];
      if inner == "" || inner[|inner| - 1] != ']' || ']' in inner[..|inner| - 1] then Err(InvalidLabels)
      else Ok((parts[0], Some(NonEmpty(Split(inner[..|inner| - 1], ',')))))
  }

  method ParseLabels(spec: string) returns (r: Result<(string, Option<set<string>>), ParseError>)
    ensures r == LabelsOf(spec)
  {
    var labelPieces := Split(spec, '[');
    if |labelPieces| > 2 {
      return Err(InvalidLabels);
    } else if |labelPieces| == 1 {
      return Ok((spec, None));
    }
    var inner := labelPieces[1];
    if inner == "" || inner[|inner| - 1] != ']' || IndexOf(inner, ']') < |inner| - 1 {
      return Err(InvalidLabels);
    }
    assert ']' !in inner[..|inner| - 1];
    var all := Split(inner[..|inner| - 1], ',');
    var found := {};
    for i := 0 to |all|
      invariant found == NonEmpty(all[..i])
    {
      assert all[..i + 1] == all[..i] + [all[i]];
      if all[i] != "" {
        found := found + {all[i]};
      }
    }
    assert all[..|all|] == all;
    return Ok((labelPieces[0], Some(found)));
  }

  function SpecOf(spec: string): Result<ProductSpec, ParseError> {
    var invalid := Err(InvalidProductSpec);
    var pieces := AtPieces(spec);
    if |pieces| > 2 then invalid else
      var revision := if |pieces| == 2 then ShaOf(pieces[1]) else Ok("latest");
      if revision.Err? then invalid else
        var labelled := LabelsOf(if |pieces| == 2 then pieces[0] else spec);
        if labelled.Err? then invalid else
          var product := ProductOf(labelled.value.0);
          if product.Err? then Err(product.error)
          else Ok(ProductSpec(ProductAtRevision(product.value, revision.value, ""), labelled.value.1))
  }

  method ParseProductSpec(spec: string) returns (r: Result<ProductSpec, ParseError>)
    ensures r == SpecOf(spec)
  {
    var revision := "latest";
    var name := spec;
    var atPieces := SplitAtNonMainAt(spec);
    if |atPieces| > 2 {
      return Err(InvalidProductSpec);
    } else if |atPieces| == 2 {
      name := atPieces[0];
      var sha := ShaOf(atPieces[1]);
      if sha.Err? {
        return Err(InvalidProductSpec);
      }
      revision := sha.value;
    }
    var labelled := ParseLabels(name);
    if labelled.Err? {
      return Err(InvalidProductSpec);
    }
    var product := ParseProduct(labelled.value.0);
    if product.Err? {
      return Err(product.error);
    }
    return Ok(ProductSpec(ProductAtRevision(product.value, revision, ""), labelled.value.1));
  }
}
