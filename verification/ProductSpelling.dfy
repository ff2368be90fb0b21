// How an accepted text spells what it is parsed to: nothing of it is ignored
// (shared/params.go).
module ProductSpelling {
  import opened Wrappers
  import opened Strings
  import opened Products
  import opened ProductParser

  // ---- products ----

  function PieceAt(pieces: seq<string>, i: nat): string {
    if i < |pieces| then pieces[i] else ""
  }

  // One to four pieces between dashes: a known browser in any case, a version, an
  // operating system and its version.
  ghost predicate PiecesSpell(pieces: seq<string>, text: string, p: Product) {
    && 1 <= |pieces| <= 4 && Without(pieces, '-') && text == Join(pieces, "-")
    && p == Product(ToLower(pieces[0]), PieceAt(pieces, 1), PieceAt(pieces, 2), PieceAt(pieces, 3))
    && IsBrowserName(p.browserName)
    && (|pieces| > 1 ==> VersionOf(p.browserVersion).Ok?)
    && (|pieces| > 3 ==> VersionOf(p.osVersion).Ok?)
  }

  ghost predicate SpellsProduct(text: string, p: Product) {
    exists pieces :: PiecesSpell(pieces, text, p)
  }

  // A text is parsed to a product exactly when it spells it.
  lemma ProductIsSpelledIff(text: string, p: Product)
    ensures ProductOf(text) == Ok(p) <==> SpellsProduct(text, p)
  {
    hide Split, Join, IsBrowserName, VersionOf;
    JoinSplit(text, '-');
    if ProductOf(text) == Ok(p) {
      assert PiecesSpell(Split(text, '-'), text, p);
    }
    if pieces :| PiecesSpell(pieces, text, p) {
      SplitJoin(pieces, '-');
    }
  }

  // ---- versions ----

  // An "a" or "b" and digits.
  predicate IsNightly(suffix: string) {
    |suffix| > 1 && (suffix[0] == 'a' || suffix[0] == 'b') && forall c | c in suffix[1..] :: Digit(c)
  }

  predicate Agree(number: Option<int>, pieces: seq<string>, i: nat) {
    number == if i < |pieces| then IntOf(pieces[i]) else None
  }

  // One to four integers between dots, perhaps a nightly suffix and perhaps a
  // second word; the channel is the suffix, or without one the word and its space.
  ghost predicate PartsSpell(pieces: seq<string>, suffix: string, word: string, text: string, v: Version) {
    && 1 <= |pieces| <= 4 && Without(pieces, '.') && text == Join(pieces, ".") + suffix + word
    && (forall piece | piece in pieces :: IntOf(piece).Some?)
    && Agree(Some(v.major), pieces, 0) && Agree(v.minor, pieces, 1)
    && Agree(v.build, pieces, 2) && Agree(v.revision, pieces, 3)
    && (suffix == "" || IsNightly(suffix))
    && (word == "" || (word[0] == ' ' && ' ' !in word[1..]))
    && v.channel == if suffix != "" then suffix else word
  }

  ghost predicate SpellsVersion(text: string, v: Version) {
    exists pieces, suffix, word :: PartsSpell(pieces, suffix, word, text, v)
  }

  lemma {:induction false} NumbersAgree(pieces: seq<string>)
    requires Numbers(pieces).Some?
    ensures forall i | 0 <= i < |pieces| :: IntOf(pieces[i]) == Some(Numbers(pieces).value[i])
  {
    if pieces != [] {
      NumbersAgree(pieces[..|pieces| - 1]);
    }
  }

  lemma {:induction false} TrailingAreDigits(s: string)
    ensures forall c | c in s[|s| - TrailingDigits(s)..] :: Digit(c)
  {
    if s != "" && Digit(s[|s| - 1]) {
      var front := s[..|s| - 1];
      TrailingAreDigits(front);
      var d := TrailingDigits(front);
      assert TrailingDigits(s) == d + 1 && s == front + [s[|s| - 1]];
      assert s[|s| - (d + 1)..] == front[|front| - d..] + [s[|s| - 1]];
    }
  }

  lemma SuffixIsNightly(word: string)
    ensures var suffix := NightlySuffix(word);
      (suffix == "" || IsNightly(suffix)) && word == word[..|word| - |suffix|] + suffix
  {
    TrailingAreDigits(word);
    var suffix, d := NightlySuffix(word), TrailingDigits(word);
    hide TrailingDigits;
    if suffix != "" {
      assert suffix == word[|word| - d - 1..] && suffix[1..] == word[|word| - d..];
    }
  }

  lemma NumberedIsSpelled(first: string, word: string, v: Version)
    requires NumberedOf(first, word) == Ok(v) && (word == "" || (word[0] == ' ' && ' ' !in word[1..]))
    ensures SpellsVersion(first + word, v)
  {
    hide Split, Join, Numbers, NightlySuffix, IntOf;
    var suffix := NightlySuffix(first);
    var numbered := first[..|first| - |suffix|];
    var pieces := Split(numbered, '.');
    SuffixIsNightly(first);
    JoinSplit(numbered, '.');
    NumbersAgree(pieces);
    assert PartsSpell(pieces, suffix, word, first + word, v);
  }

  lemma VersionIsSpelled(text: string, v: Version)
    requires VersionOf(text) == Ok(v)
    ensures SpellsVersion(text, v)
  {
    hide Split, NumberedOf, SpellsVersion;
    var words := Split(text, ' ');
    JoinSplit(text, ' ');
    if |words| == 1 {
      assert words == [words[0]] && text == words[0] + "";
      NumberedIsSpelled(words[0], "", v);
    } else {
      JoinTwo(words, " ");
      NumberedIsSpelled(words[0], " " + words[1], v);
    }
  }

  lemma JoinTwo(parts: seq<string>, sep: string)
    requires |parts| == 2
    ensures Join(parts, sep) == parts[0] + (sep + parts[1])
  {
    assert Join(parts[1..], sep) == parts[1];
  }

  // ---- specs ----

  // Nothing, or labels between brackets and commas; empty ones do not count.
  ghost predicate SpellsLabels(block: string, labels: Option<set<string>>) {
    if labels.None? then block == "" else
      && |block| >= 2 && block[0] == '[' && block[|block| - 1] == ']'
      && SpellsList(block[1..|block| - 1], labels.value)
  }

  ghost predicate SpellsList(list: string, labels: set<string>) {
    && '[' !in list && ']' !in list
    && labels == set l | l in Split(list, ',') && l != ""
  }

  // Nothing, or an "@" and a revision.
  ghost predicate SpellsRevision(tail: string, revision: string) {
    || (tail == "" && revision == "latest")
    || ((tail == "@" || tail == "@latest") && revision == "latest")
    || (tail == "@" + revision && 7 <= |revision| <= 40 && forall c | c in revision :: HexDigit(c))
  }

  ghost predicate PartsSpellSpec(name: string, block: string, tail: string, text: string, p: ProductSpec) {
    && text == name + block + tail
    && SpellsProduct(name, p.at.product) && SpellsLabels(block, p.labels) && SpellsRevision(tail, p.at.revision)
    && p.at.fullRevisionHash == ""
  }

  lemma LabelsAreSpelled(text: string)
    requires LabelsOf(text).Ok?
    ensures var (name, labels) := LabelsOf(text).value;
      name <= text && SpellsLabels(text[|name|..], labels)
  {
    var parts := Split(text, '[');
    JoinSplit(text, '[');
    if |parts| == 2 {
      JoinTwo(parts, "[");
      var block, inner := "[" + parts[1], parts[1];
      assert text[|parts[0]|..] == block;
      assert block[1..|block| - 1] == inner[..|inner| - 1];
    }
  }

  lemma AtPiecesJoin(s: string)
    ensures |AtPieces(s)| == 2 ==> s == AtPieces(s)[0] + ("@" + AtPieces(s)[1])
  {
    hide Split, Join, FirstMainAt, Count;
    var pieces := Split(s, '@');
    JoinSplit(s, '@');
    if |pieces| == 2 {
      JoinTwo(pieces, "@");
    }
    var bare := FirstBareAt(s, 0);
    hide FirstBareAt;
    if bare.Some? {
      var front, rest := s[..bare.value], s[bare.value + 1..];
      SplitOne(rest, '@');
      assert BareAt(s, bare.value) && s == front + ("@" + rest);
    }
  }

  lemma RevisionIsSpelled(text: string)
    requires ShaOf(text).Ok?
    ensures SpellsRevision("@" + text, ShaOf(text).value)
  {
  }

  lemma SpecComesApart(text: string, p: ProductSpec) returns (front: string, tail: string)
    requires SpecOf(text) == Ok(p)
    ensures text == front + tail && SpellsRevision(tail, p.at.revision) && p.at.fullRevisionHash == ""
    ensures LabelsOf(front).Ok? && LabelsOf(front).value.1 == p.labels
    ensures ProductOf(LabelsOf(front).value.0) == Ok(p.at.product)
  {
    hide AtPieces, LabelsOf, ProductOf, SpellsRevision, ShaOf, IsLatest;
    var pieces := AtPieces(text);
    if |pieces| == 2 {
      AtPiecesJoin(text);
      front, tail := pieces[0], "@" + pieces[1];
      RevisionIsSpelled(pieces[1]);
    } else {
      front, tail := text, "";
      NoRevision();
    }
  }

  lemma NoRevision()
    ensures SpellsRevision("", "latest")
  {
  }

  // An accepted text spells the spec it is parsed to, from its first character to
  // its last: a product, labels, a revision.
  lemma SpecIsSpelled(text: string, p: ProductSpec)
    requires SpecOf(text) == Ok(p)
    ensures exists name, block, tail :: PartsSpellSpec(name, block, tail, text, p)
  {
    hide SpecOf, LabelsOf, ProductOf, SpellsProduct, SpellsLabels, SpellsRevision;
    var front, tail := SpecComesApart(text, p);
    LabelsAreSpelled(front);
    var name := LabelsOf(front).value.0;
    ProductIsSpelledIff(name, p.at.product);
    assert front == name + front[|name|..];
    assert PartsSpellSpec(name, front[|name|..], tail, text, p);
  }
}
