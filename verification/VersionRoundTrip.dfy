// Version strings: printing and parsing back (shared/models.go, shared/params.go).
module VersionRoundTrip {
  import opened Wrappers
  import opened Strings
  import opened ProductParser

  // ---- numbers ----

  function DigitOf(n: nat): char
    requires n < 10
  {
    '0' + n as char
  }

  function ShowNat(n: nat): string {
    if n < 10 then [DigitOf(n)] else ShowNat(n / 10) + [DigitOf(n % 10)]
  }

  function ShowInt(n: int): string {
    if n < 0 then "-" + ShowNat(-n) else ShowNat(n)
  }

  predicate InRange(n: int) {
    -0x8000_0000_0000_0000 <= n <= 0x7fff_ffff_ffff_ffff
  }

  lemma {:induction false} ShownNat(n: nat)
    ensures ShowNat(n) != "" && AllDigits(ShowNat(n)) && DigitsValue(ShowNat(n)) == n
  {
    if n >= 10 {
      ShownNat(n / 10);
      var shown := ShowNat(n);
      assert shown[..|shown| - 1] == ShowNat(n / 10);
    } else {
      assert ShowNat(n)[..0] == "";
    }
  }

  lemma {:induction false} DigitsOnly(s: string)
    requires AllDigits(s)
    ensures forall c | c in s :: Digit(c)
  {
    if s != "" {
      DigitsOnly(s[..|s| - 1]);
      assert s == s[..|s| - 1] + [s[|s| - 1]];
    }
  }

  predicate NumberChar(c: char) {
    Digit(c) || c == '-'
  }

  lemma ShownIntParses(n: int)
    ensures IntOf(ShowInt(n)) == if InRange(n) then Some(n) else None
    ensures forall c | c in ShowInt(n) :: NumberChar(c)
  {
    var m := if n < 0 then -n else n;
    ShownNat(m);
    DigitsOnly(ShowNat(m));
    assert Digit(ShowNat(m)[0]);
    if n < 0 {
      assert ("-" + ShowNat(m))[1..] == ShowNat(m);
    }
  }

  // ---- versions ----

  // Version.String.
  function ShowVersion(v: Version): string {
    ShowInt(v.major)
    + (if v.minor.Some? then "." + ShowInt(v.minor.value) else "")
    + (if v.build.Some? then "." + ShowInt(v.build.value) else "")
    + (if v.revision.Some? then "." + ShowInt(v.revision.value) else "")
    + v.channel
  }

  predicate IsNightly(channel: string) {
    |channel| > 1 && (channel[0] == 'a' || channel[0] == 'b') && AllDigits(channel[1..])
  }

  predicate IsChannel(channel: string) {
    channel == "" || IsNightly(channel) || (channel[0] == ' ' && ' ' !in channel[1..])
  }

  predicate Fits(n: Option<int>) {
    n.Some? ==> InRange(n.value)
  }

  // No number after a missing one, every number within 64 bits, and a channel
  // that is one word or a nightly suffix.
  predicate WellFormedVersion(v: Version) {
    && InRange(v.major) && Fits(v.minor) && Fits(v.build) && Fits(v.revision)
    && (v.revision.Some? ==> v.build.Some?) && (v.build.Some? ==> v.minor.Some?)
    && IsChannel(v.channel)
  }

  // ---- what parsing yields ----

  lemma {:induction false} NumbersInRange(pieces: seq<string>)
    requires Numbers(pieces).Some?
    ensures forall n | n in Numbers(pieces).value :: InRange(n)
  {
    if pieces != [] {
      NumbersInRange(pieces[..|pieces| - 1]);
    }
  }

  lemma {:induction false} TrailingAreDigits(s: string)
    ensures AllDigits(s[|s| - TrailingDigits(s)..])
  {
    if TrailingDigits(s) > 0 {
      var front, d := s[..|s| - 1], TrailingDigits(s);
      TrailingAreDigits(front);
      var tail := s[|s| - d..];
      assert tail[..|tail| - 1] == front[|front| - (d - 1)..];
    }
  }

  lemma SuffixIsNightly(s: string)
    ensures NightlySuffix(s) == "" || IsNightly(NightlySuffix(s))
  {
    TrailingAreDigits(s);
    var d := TrailingDigits(s);
    if NightlySuffix(s) != "" {
      assert s[|s| - d - 1..][1..] == s[|s| - d..];
    }
  }

  lemma NumberedIsWellFormed(word: string, channel: string)
    requires NumberedOf(word, channel).Ok? && IsChannel(channel)
    ensures WellFormedVersion(NumberedOf(word, channel).value)
  {
    var suffix := NightlySuffix(word);
    var numbers := Numbers(Split(word[..|word| - |suffix|], '.')).value;
    SuffixIsNightly(word);
    NumbersInRange(Split(word[..|word| - |suffix|], '.'));
    assert forall i | 0 <= i < |numbers| :: numbers[i] in numbers;
  }

  lemma ParsedIsWellFormed(s: string)
    requires VersionOf(s).Ok?
    ensures WellFormedVersion(VersionOf(s).value)
  {
    hide NumberedOf, WellFormedVersion;
    var words := Split(s, ' ');
    JoinSplit(s, ' ');
    var channel := if |words| == 2 then " " + words[1] else "";
    assert |words| == 2 ==> words[1] in words && channel[1..] == words[1];
    NumberedIsWellFormed(words[0], channel);
  }

  // ---- printing and parsing back ----

  function NumbersOf(v: Version): seq<int> {
    if v.minor.None? then [v.major]
    else if v.build.None? then [v.major, v.minor.value]
    else if v.revision.None? then [v.major, v.minor.value, v.build.value]
    else [v.major, v.minor.value, v.build.value, v.revision.value]
  }

  function ShowAll(numbers: seq<int>): seq<string> {
    if numbers == [] then [] else ShowAll(numbers[..|numbers| - 1]) + [ShowInt(numbers[|numbers| - 1])]
  }

  lemma {:induction false} ShownNumbers(numbers: seq<int>)
    requires forall n | n in numbers :: InRange(n)
    ensures |ShowAll(numbers)| == |numbers| && Numbers(ShowAll(numbers)) == Some(numbers)
    ensures forall s | s in ShowAll(numbers) :: forall c | c in s :: NumberChar(c)
  {
    if numbers != [] {
      var front, last := numbers[..|numbers| - 1], numbers[|numbers| - 1];
      assert numbers == front + [last] && last in numbers;
      ShownNumbers(front);
      ShownIntParses(last);
      assert ShowAll(numbers) == ShowAll(front) + [ShowInt(last)];
      assert ShowAll(numbers)[..|ShowAll(numbers)| - 1] == ShowAll(front);
      assert forall s :: s in ShowAll(numbers) <==> s in ShowAll(front) || s == ShowInt(last);
    }
  }

  predicate Dotted(c: char) {
    NumberChar(c) || c == '.'
  }

  lemma {:induction false} JoinIsDotted(parts: seq<string>)
    requires forall s | s in parts :: forall c | c in s :: NumberChar(c)
    ensures forall c | c in Join(parts, ".") :: Dotted(c)
  {
    assert forall i :: 0 <= i < |parts| ==> parts[i] in parts;
    if |parts| > 1 {
      assert forall s | s in parts[1..] :: s in parts;
      JoinIsDotted(parts[1..]);
    }
  }

  lemma {:induction false} ShowIsJoin(v: Version)
    requires (v.revision.Some? ==> v.build.Some?) && (v.build.Some? ==> v.minor.Some?)
    ensures ShowVersion(v) == Join(ShowAll(NumbersOf(v)), ".") + v.channel
  {
    hide ShowInt;
    var a, b, c, d := v.major, v.minor.GetOr(0), v.build.GetOr(0), v.revision.GetOr(0);
    ShowFour(a, b, c, d);
    if v.minor.None? {
      assert ShowInt(a) + "" + "" + "" == ShowInt(a);
    } else if v.build.None? {
      assert ShowInt(a) + ("." + ShowInt(b)) + "" + "" == ShowInt(a) + "." + ShowInt(b);
    } else if v.revision.None? {
      assert ShowInt(a) + ("." + ShowInt(b)) + ("." + ShowInt(c)) + ""
        == ShowInt(a) + "." + (ShowInt(b) + "." + ShowInt(c));
    } else {
      assert ShowInt(a) + ("." + ShowInt(b)) + ("." + ShowInt(c)) + ("." + ShowInt(d))
        == ShowInt(a) + "." + (ShowInt(b) + "." + (ShowInt(c) + "." + ShowInt(d)));
    }
  }

  lemma ShowFour(a: int, b: int, c: int, d: int)
    ensures Join(ShowAll([a]), ".") == ShowInt(a)
    ensures Join(ShowAll([a, b]), ".") == ShowInt(a) + "." + ShowInt(b)
    ensures Join(ShowAll([a, b, c]), ".") == ShowInt(a) + "." + (ShowInt(b) + "." + ShowInt(c))
    ensures Join(ShowAll([a, b, c, d]), ".") == ShowInt(a) + "." + (ShowInt(b) + "." + (ShowInt(c) + "." + ShowInt(d)))
  {
    hide ShowInt;
    var w, x, y, z := ShowInt(a), ShowInt(b), ShowInt(c), ShowInt(d);
    assert [a][..0] == [] && [a, b][..1] == [a] && [a, b, c][..2] == [a, b] && [a, b, c, d][..3] == [a, b, c];
    assert ShowAll([a]) == [w] && ShowAll([a, b]) == [w, x];
    assert ShowAll([a, b, c]) == [w, x, y] && ShowAll([a, b, c, d]) == [w, x, y, z];
    JoinCons(w, [x, y, z]);
    JoinCons(x, [y, z]);
    JoinCons(y, [z]);
    JoinCons(w, [x, y]);
    JoinCons(x, [y]);
    JoinCons(w, [x]);
  }

  lemma JoinCons(head: string, tail: seq<string>)
    requires tail != []
    ensures Join([head] + tail, ".") == head + "." + Join(tail, ".")
  {
    assert ([head] + tail)[1..] == tail;
  }

  // The digits at the end of a dotted number followed by a nightly suffix.
  lemma {:induction false} TrailingOfSuffix(word: string, mark: char, digits: string)
    requires AllDigits(digits) && !Digit(mark)
    ensures TrailingDigits(word + [mark] + digits) == |digits|
  {
    var s := word + [mark] + digits;
    if digits == "" {
      assert s[|s| - 1] == mark;
    } else {
      TrailingOfSuffix(word, mark, digits[..|digits| - 1]);
      assert s[..|s| - 1] == word + [mark] + digits[..|digits| - 1];
    }
  }

  lemma SuffixFound(word: string, channel: string)
    requires IsNightly(channel) && '\n' !in word
    ensures NightlySuffix(word + channel) == channel
  {
    var s := word + channel;
    assert s == word + [channel[0]] + channel[1..];
    TrailingOfSuffix(word, channel[0], channel[1..]);
    assert s[..|word|] == word && s[|word|..] == channel;
  }

  lemma NoSuffixInNumbers(word: string)
    requires forall c | c in word :: Dotted(c)
    ensures NightlySuffix(word) == ""
  {
    var i := |word| - TrailingDigits(word) - 1;
    if i >= 0 {
      assert word[i] in word;
    }
  }

  lemma DottedSplits(parts: seq<string>)
    requires parts != [] && forall s | s in parts :: forall c | c in s :: NumberChar(c)
    ensures Split(Join(parts, "."), '.') == parts
    ensures NightlySuffix(Join(parts, ".")) == "" && '\n' !in Join(parts, ".")
  {
    JoinIsDotted(parts);
    SplitJoin(parts, '.');
    NoSuffixInNumbers(Join(parts, "."));
  }

  // The numbered part, followed by nothing or by a nightly suffix.
  lemma NumbersParse(parts: seq<string>, numbers: seq<int>, suffix: string, channel: string)
    requires 1 <= |parts| == |numbers| <= 4 && Numbers(parts) == Some(numbers)
    requires forall s | s in parts :: forall c | c in s :: NumberChar(c)
    requires suffix == "" || IsNightly(suffix)
    ensures NumberedOf(Join(parts, ".") + suffix, channel)
      == Ok(NumberedVersion(numbers, if suffix == "" then channel else suffix))
  {
    hide Split, Join, NightlySuffix, Numbers, IsNightly, NumberChar;
    var word := Join(parts, ".");
    DottedSplits(parts);
    if suffix == "" {
      assert word + suffix == word;
    } else {
      SuffixFound(word, suffix);
    }
    assert (word + suffix)[..|word + suffix| - |suffix|] == word;
  }

  lemma VersionOfNumbers(v: Version)
    requires (v.revision.Some? ==> v.build.Some?) && (v.build.Some? ==> v.minor.Some?)
    ensures 1 <= |NumbersOf(v)| <= 4 && NumberedVersion(NumbersOf(v), v.channel) == v
  {
  }

  lemma NoSpace(word: string, channel: string)
    requires forall c | c in word :: Dotted(c)
    ensures ' ' !in word
    ensures IsNightly(channel) ==> ' ' !in word + channel
  {
    if IsNightly(channel) {
      DigitsOnly(channel[1..]);
      assert channel == [channel[0]] + channel[1..];
    }
  }

  // A dotted number, then a channel.
  lemma PrintedWords(word: string, channel: string)
    requires (forall c | c in word :: Dotted(c)) && IsChannel(channel)
    ensures VersionOf(word + channel)
      == if channel != "" && channel[0] == ' ' then NumberedOf(word, channel) else NumberedOf(word + channel, "")
  {
    NoSpace(word, channel);
    hide NumberedOf, Dotted, Split;
    if channel != "" && channel[0] == ' ' {
      assert channel == [' '] + channel[1..];
      assert word + channel == word + [' '] + channel[1..];
      SplitCons(word, ' ', channel[1..]);
      SplitOne(channel[1..], ' ');
    } else {
      assert channel == "" ==> word + channel == word;
      SplitOne(word + channel, ' ');
    }
  }

  lemma PrintedParses(v: Version)
    requires WellFormedVersion(v)
    ensures VersionOf(ShowVersion(v)) == Ok(v)
  {
    hide ShowVersion, ShowAll, ShowInt, Join, Numbers, NumberedOf, VersionOf, NumberedVersion, Dotted, NumberChar;
    var numbers := NumbersOf(v);
    var parts := ShowAll(numbers);
    var word := Join(parts, ".");
    ShowIsJoin(v);
    ShownNumbers(numbers);
    JoinIsDotted(parts);
    VersionOfNumbers(v);
    PrintedWords(word, v.channel);
    if v.channel != "" && v.channel[0] == ' ' {
      NumbersParse(parts, numbers, "", v.channel);
      assert word + "" == word;
    } else {
      NumbersParse(parts, numbers, v.channel, "");
    }
  }

  // A version prints back exactly when it is well-formed.
  lemma VersionPrintsBackIff(v: Version)
    ensures VersionOf(ShowVersion(v)) == Ok(v) <==> WellFormedVersion(v)
  {
    if WellFormedVersion(v) {
      PrintedParses(v);
    } else if VersionOf(ShowVersion(v)) == Ok(v) {
      ParsedIsWellFormed(ShowVersion(v));
    }
  }

  // So parsing any text, printing and parsing again changes nothing.
  lemma ReparsingIsStable(s: string)
    requires VersionOf(s).Ok?
    ensures VersionOf(ShowVersion(VersionOf(s).value)) == VersionOf(s)
  {
    ParsedIsWellFormed(s);
    PrintedParses(VersionOf(s).value);
  }
}
