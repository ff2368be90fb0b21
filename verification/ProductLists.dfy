// The "products" parameter: commas inside label blocks are hidden behind a
// placeholder, the list is cut at the commas left, and the placeholder is
// undone (shared/params.go).
module ProductLists {
  import opened Wrappers
  import opened Strings
  import opened StringOrder
  import opened Products
  import opened ProductParser
  import opened ProductRoundTrip

  const PLACEHOLDER := "%COMMA%"

  // ---- what hiding nested commas means ----

  // Whether an unclosed "[" is open after reading c.
  function Next(c: char, inside: bool): bool {
    if c == '[' then true else if c == ']' then false else inside
  }

  function InsideAfter(s: string, inside: bool): bool {
    if s == "" then inside else InsideAfter(s[1..], Next(s[0], inside))
  }

  function MaskChar(c: char, inside: bool): string {
    if c == ',' && inside then PLACEHOLDER else [c]
  }

  // Every comma inside a bracket becomes the placeholder.
  function Mask(s: string, inside: bool): string {
    if s == "" then "" else MaskChar(s[0], inside) + Mask(s[1..], Next(s[0], inside))
  }

  // ---- the regular expression (\[[^\]]*), ----

  // Last comma before the next "]".
  function LastNested(s: string): Option<nat> {
    if s == "" || s[0] == ']' then None else
      match LastNested(s[1..])
      case Some(c) => Some(c + 1)
      case None => if s[0] == ',' then Some(0) else None
  }

  // The comma ending the leftmost, longest match.
  function FirstMatch(s: string): Option<nat> {
    if s == "" then None
    else if s[0] == '[' && LastNested(s[1..]).Some? then Some(LastNested(s[1..]).value + 1)
    else match FirstMatch(s[1..]) case Some(c) => Some(c + 1) case None => None
  }

  lemma {:induction false} LastNestedIsNested(s: string)
    requires LastNested(s).Some?
    ensures LastNested(s).value < |s| && s[LastNested(s).value] == ','
    ensures InsideAfter(s[..LastNested(s).value], true)
  {
    if LastNested(s[1..]).Some? {
      LastNestedIsNested(s[1..]);
      var c := LastNested(s[1..]).value;
      assert s[..c + 1][1..] == s[1..][..c];
    }
  }

  lemma {:induction false} MatchIsNested(s: string, inside: bool)
    requires FirstMatch(s).Some?
    ensures FirstMatch(s).value < |s| && s[FirstMatch(s).value] == ','
    ensures InsideAfter(s[..FirstMatch(s).value], inside)
  {
    var c := FirstMatch(s).value;
    if s[0] == '[' && LastNested(s[1..]).Some? {
      LastNestedIsNested(s[1..]);
      assert s[..c][1..] == s[1..][..c - 1];
    } else {
      MatchIsNested(s[1..], Next(s[0], inside));
      assert s[..c][1..] == s[1..][..c - 1];
    }
  }

  // ReplaceAllString(s, "$1%COMMA%").
  function ReplaceAll(s: string): string
    decreases |s|
  {
    if FirstMatch(s).None? then s else
      MatchIsNested(s, false);
      var c := FirstMatch(s).value;
      s[..c] + PLACEHOLDER + ReplaceAll(s[c + 1..])
  }

  // ---- the loop computes the mask, whatever the brackets ----

  lemma {:induction false} InsideAppend(a: string, b: string, inside: bool)
    ensures InsideAfter(a + b, inside) == InsideAfter(b, InsideAfter(a, inside))
  {
    if a == "" {
      assert a + b == b;
    } else {
      assert (a + b)[1..] == a[1..] + b;
      InsideAppend(a[1..], b, Next(a[0], inside));
    }
  }

  lemma {:induction false} MaskAppend(a: string, b: string, inside: bool)
    ensures Mask(a + b, inside) == Mask(a, inside) + Mask(b, InsideAfter(a, inside))
  {
    hide MaskChar, Next;
    if a == "" {
      assert a + b == b;
    } else {
      assert (a + b)[1..] == a[1..] + b;
      MaskAppend(a[1..], b, Next(a[0], inside));
      var x, y := Mask(a[1..], Next(a[0], inside)), Mask(b, InsideAfter(a, inside));
      assert MaskChar(a[0], inside) + (x + y) == (MaskChar(a[0], inside) + x) + y;
    }
  }

  predicate Unbracketed(s: string) {
    '[' !in s && ']' !in s
  }

  lemma {:induction false} MaskUnbracketed(s: string, inside: bool)
    requires Unbracketed(s)
    ensures InsideAfter(s, inside) == inside
    ensures ',' !in s || !inside ==> Mask(s, inside) == s
    ensures inside ==> ',' !in Mask(s, inside)
  {
    if s != "" {
      MaskUnbracketed(s[1..], inside);
      assert s == [s[0]] + s[1..];
      assert ',' !in PLACEHOLDER;
    }
  }

  lemma MaskPlaceholder()
    ensures Mask(PLACEHOLDER, true) == PLACEHOLDER && InsideAfter(PLACEHOLDER, true)
  {
    assert Unbracketed(PLACEHOLDER) && ',' !in PLACEHOLDER;
    MaskUnbracketed(PLACEHOLDER, true);
  }

  // Replacing one nested comma by the placeholder does not change the mask.
  lemma MaskReplaced(before: string, after: string, after': string, inside: bool)
    requires InsideAfter(before, inside) && Mask(after, true) == Mask(after', true)
    ensures Mask(before + (PLACEHOLDER + after'), inside) == Mask(before + ([','] + after), inside)
  {
    MaskAppend(before, PLACEHOLDER + after', inside);
    MaskAppend(PLACEHOLDER, after', true);
    MaskPlaceholder();
    MaskAppend(before, [','] + after, inside);
    assert ([','] + after)[1..] == after;
  }

  lemma {:induction false} ReplaceAllKeepsMask(s: string, inside: bool)
    ensures Mask(ReplaceAll(s), inside) == Mask(s, inside)
    decreases |s|
  {
    hide Mask, InsideAfter, FirstMatch;
    if FirstMatch(s).Some? {
      MatchIsNested(s, inside);
      var c := FirstMatch(s).value;
      var before, after := s[..c], s[c + 1..];
      ReplaceAllKeepsMask(after, true);
      MaskReplaced(before, after, ReplaceAll(after), inside);
      assert s == before + ([','] + after);
      assert ReplaceAll(s) == before + (PLACEHOLDER + ReplaceAll(after));
    }
  }

  lemma {:induction false} ReplaceAllRemovesCommas(s: string)
    ensures Count(ReplaceAll(s), ',') <= Count(s, ',')
    ensures FirstMatch(s).Some? ==> Count(ReplaceAll(s), ',') < Count(s, ',')
    decreases |s|
  {
    if FirstMatch(s).Some? {
      MatchIsNested(s, false);
      var c := FirstMatch(s).value;
      var before, after := s[..c], s[c + 1..];
      ReplaceAllRemovesCommas(after);
      CountAppend(before + PLACEHOLDER, ReplaceAll(after), ',');
      CountAppend(before, PLACEHOLDER, ',');
      CountZero(PLACEHOLDER, ',');
      assert s == before + [','] + after;
      CountAppend(before + [','], after, ',');
      CountAppend(before, [','], ',');
    }
  }

  lemma {:induction false} NoMatchNoMask(s: string, inside: bool)
    requires FirstMatch(s).None? && (inside ==> LastNested(s).None?)
    ensures Mask(s, inside) == s
  {
    if s != "" {
      NoMatchNoMask(s[1..], Next(s[0], inside));
    }
  }

  // The loop of ParseProductsParam: each pass removes at least one comma, and
  // at the end exactly the nested commas have been replaced.
  method HideNestedCommas(input: string) returns (s: string)
    ensures s == Mask(input, false)
  {
    s := input;
    while FirstMatch(s).Some?
      invariant Mask(s, false) == Mask(input, false)
      decreases Count(s, ',')
    {
      ReplaceAllKeepsMask(s, false);
      ReplaceAllRemovesCommas(s);
      s := ReplaceAll(s);
    }
    NoMatchNoMask(s, false);
  }

  // ---- undoing the placeholder ----

  // strings.Replace(s, "%COMMA%", ",", -1).
  function Unmask(s: string): string
    decreases |s|
  {
    if s == "" then ""
    else if PLACEHOLDER <= s then "," + Unmask(s[|PLACEHOLDER|..])
    else [s[0]] + Unmask(s[1..])
  }

  // A literal placeholder, or its first six characters before a nested comma,
  // would be read as a placeholder starting here.
  predicate Hazard(s: string, inside: bool) {
    HasPrefix(s, "%COMMA%") || (inside && HasPrefix(s, "%COMMA,"))
  }

  predicate HazardFree(s: string, inside: bool) {
    s == "" || (!Hazard(s, inside) && HazardFree(s[1..], Next(s[0], inside)))
  }

  predicate Letters(w: string) {
    forall c | c in w :: 'A' <= c <= 'Z'
  }

  lemma {:induction false} MaskedWord(w: string, s: string, inside: bool)
    requires Letters(w)
    ensures (w + "%" <= Mask(s, inside))
      <==> (w <= s && |w| < |s| && (s[|w|] == '%' || (s[|w|] == ',' && inside)))
  {
    var m := Mask(s, inside);
    if w == "" {
      assert w + "%" == "%";
      assert s != "" ==> m[0] == if s[0] == ',' && inside then '%' else s[0];
      assert "%" <= m <==> m != "" && m[0] == '%';
    } else {
      assert w[0] in w && forall c | c in w[1..] :: c in w;
      assert w + "%" == [w[0]] + (w[1..] + "%");
      if s != "" && s[0] == w[0] {
        MaskedWord(w[1..], s[1..], inside);
        assert m == [s[0]] + Mask(s[1..], inside);
        assert w == [w[0]] + w[1..] && s == [s[0]] + s[1..];
        PrefixCons(w[0], w[1..] + "%", Mask(s[1..], inside));
        PrefixCons(w[0], w[1..], s[1..]);
      } else {
        assert s != "" ==> m[0] != w[0];
      }
    }
  }

  lemma PrefixCons(c: char, a: string, b: string)
    ensures [c] + a <= [c] + b <==> a <= b
  {
    if [c] + a <= [c] + b {
      assert a == ([c] + a)[1..] && b == ([c] + b)[1..];
      assert forall i :: 0 <= i < |a| ==> a[i] == ([c] + a)[i + 1] == ([c] + b)[i + 1] == b[i];
    }
  }

  lemma MaskedHazard(s: string, inside: bool)
    requires s != "" && !(s[0] == ',' && inside)
    ensures PLACEHOLDER <= Mask(s, inside) <==> Hazard(s, inside)
  {
    var rest := Mask(s[1..], Next(s[0], inside));
    var w := "COMMA";
    assert Mask(s, inside) == [s[0]] + rest;
    if s[0] == '%' {
      assert s == ['%'] + s[1..];
      assert PLACEHOLDER == ['%'] + (w + "%");
      PrefixCons('%', w + "%", rest);
      MaskedWord(w, s[1..], inside);
      HazardWord(s, "%COMMA%", '%');
      HazardWord(s, "%COMMA,", ',');
    } else {
      assert PLACEHOLDER[0] == '%';
      assert "%COMMA%"[0] == '%' && "%COMMA,"[0] == '%';
    }
  }

  lemma HazardWord(s: string, word: string, last: char)
    requires s != "" && s[0] == '%' && word == ['%'] + "COMMA" + [last]
    ensures word <= s <==> "COMMA" <= s[1..] && |s| > 6 && s[1..][5] == last
  {
    if "COMMA" <= s[1..] && |s| > 6 && s[1..][5] == last {
      assert forall i :: 0 <= i < 5 ==> s[i + 1] == s[1..][i];
      assert forall i :: 0 <= i < 7 ==> word[i] == s[i];
    }
    if word <= s {
      assert forall i :: 0 <= i < 5 ==> s[1..][i] == word[i + 1];
    }
  }

  // Hiding the nested commas and undoing it gives the text back exactly when
  // nothing in it can be mistaken for a placeholder.
  lemma {:induction false} UnmaskMaskIff(s: string, inside: bool)
    ensures Unmask(Mask(s, inside)) == s <==> HazardFree(s, inside)
  {
    if s != "" {
      var m, rest := Mask(s, inside), Mask(s[1..], Next(s[0], inside));
      UnmaskMaskIff(s[1..], Next(s[0], inside));
      assert s == [s[0]] + s[1..];
      if s[0] == ',' && inside {
        assert m == PLACEHOLDER + rest;
        assert m[|PLACEHOLDER|..] == rest;
        assert Unmask(m) == [','] + Unmask(rest);
        assert !Hazard(s, inside) by { assert "%COMMA%"[0] == '%' && "%COMMA,"[0] == '%'; }
        TailEqual(',', Unmask(rest), s[1..]);
      } else {
        assert m == [s[0]] + rest;
        MaskedHazard(s, inside);
        if Hazard(s, inside) {
          assert m[0] == PLACEHOLDER[0];
          assert Unmask(m)[0] == ',';
        } else {
          assert m[1..] == rest;
          TailEqual(s[0], Unmask(rest), s[1..]);
        }
      }
    }
  }

  lemma TailEqual(c: char, a: string, b: string)
    ensures [c] + a == [c] + b <==> a == b
  {
    assert ([c] + a)[1..] == a && ([c] + b)[1..] == b;
  }

  // Excluding the literal placeholder is not enough: here a label ends in
  // "%COMMA" and the comma after it completes a placeholder too early.
  lemma LiteralPlaceholderIsNotTheOnlyHazard()
    ensures var s := "uc[%COMMA,z]"; Unmask(Mask(s, false)) != s
    ensures forall i :: 0 <= i <= |"uc[%COMMA,z]"| ==> !HasPrefix("uc[%COMMA,z]"[i..], PLACEHOLDER)
  {
    var s := "uc[%COMMA,z]";
    UnmaskMaskIff(s, false);
    assert s[1..][1..][1..] == "%COMMA,z]";
    assert Hazard(s[1..][1..][1..], true);
    assert !HazardFree(s[1..][1..][1..], true);
    assert !HazardFree(s[1..][1..], false);
    forall i | 0 <= i <= |s| ensures !HasPrefix(s[i..], PLACEHOLDER) {
      if i + 7 <= |s| { assert s[i..][6] == s[i + 6]; assert s[i..][0] == s[i]; }
    }
  }

  // ---- parsing the parameter ----

  // Values in order, without the empty ones and without repeats.
  function Distinct(values: seq<string>): seq<string> {
    if values == [] then [] else
      var front, last := Distinct(values[..|values| - 1]), values[|values| - 1];
      if last == "" || last in values[..|values| - 1] then front else front + [last]
  }

  ghost predicate IsFirst(values: seq<string>, n: nat, v: string) {
    n < |values| && values[n] == v && v !in values[..n]
  }

  // The same values but the empty one, none of them twice, in the order of their
  // first occurrences.
  lemma {:induction false} DistinctIsExact(values: seq<string>)
    ensures forall v :: v in Distinct(values) <==> v in values && v != ""
    ensures forall i, j | 0 <= i < j < |Distinct(values)| :: Distinct(values)[i] != Distinct(values)[j]
    ensures forall i, j, m: nat, n: nat |
      && 0 <= i < j < |Distinct(values)|
      && IsFirst(values, m, Distinct(values)[i]) && IsFirst(values, n, Distinct(values)[j]) :: m < n
  {
    if values != [] {
      var front, last := values[..|values| - 1], values[|values| - 1];
      DistinctIsExact(front);
      assert values == front + [last];
      forall n: nat, v | IsFirst(values, n, v) && v in front ensures IsFirst(front, n, v) {
        FirstIsBefore(values, n, v);
      }
    }
  }

  lemma FirstIsBefore(values: seq<string>, n: nat, v: string)
    requires IsFirst(values, n, v) && v in values[..|values| - 1]
    ensures n < |values| - 1 && IsFirst(values[..|values| - 1], n, v)
  {
    if n < |values| - 1 {
      assert values[..|values| - 1][..n] == values[..n];
    }
  }

  function RepeatedValues(repeatedParam: seq<string>, pluralParam: string): seq<string> {
    Distinct(repeatedParam + (if pluralParam != "" then Split(pluralParam, ',') else []))
  }

  method ParseRepeatedParamValues(repeatedParam: seq<string>, pluralParam: string) returns (params: seq<string>)
    ensures params == RepeatedValues(repeatedParam, pluralParam)
  {
    var allValues := repeatedParam;
    if pluralParam != "" {
      allValues := allValues + Split(pluralParam, ',');
    }
    assert allValues == repeatedParam + (if pluralParam != "" then Split(pluralParam, ',') else []);
    var seen: set<string> := {};
    params := [];
    for i := 0 to |allValues|
      invariant params == Distinct(allValues[..i])
      invariant forall v :: v in seen <==> v != "" && v in allValues[..i]
    {
      assert allValues[..i + 1][..i] == allValues[..i];
      var value := allValues[i];
      if value != "" && value !in seen {
        params := params + [value];
        seen := seen + {value};
      }
    }
    assert allValues[..|allValues|] == allValues;
  }

  // All the values, or the first error.
  function AllOk<T, E>(results: seq<Result<T, E>>): Result<seq<T>, E> {
    if results == [] then Ok([]) else
      var front, last := AllOk(results[..|results| - 1]), results[|results| - 1];
      if front.Err? then front else if last.Err? then Err(last.error) else Ok(front.value + [last.value])
  }

  // Result i is an error, and none before it is.
  ghost predicate FailsFirst<T(!new), E(!new)>(results: seq<Result<T, E>>, i: int, error: E) {
    0 <= i < |results| && results[i] == Err(error) && forall j | 0 <= j < i :: results[j].Ok?
  }

  lemma {:induction false} AllOkIsExact<T(!new), E(!new)>(results: seq<Result<T, E>>)
    ensures var all := AllOk(results);
      && (all.Ok? ==> |all.value| == |results| && forall i | 0 <= i < |results| :: results[i] == Ok(all.value[i]))
      && (all.Err? ==> exists i :: FailsFirst(results, i, all.error))
  {
    if results != [] {
      var n := |results| - 1;
      AllOkIsExact(results[..n]);
      if AllOk(results[..n]).Err? {
        var i :| FailsFirst(results[..n], i, AllOk(results[..n]).error);
        assert FailsFirst(results, i, AllOk(results).error);
      } else if results[n].Err? {
        assert FailsFirst(results, n, AllOk(results).error);
      }
    }
  }

  lemma {:induction false} FirstError<T, E>(results: seq<Result<T, E>>, i: nat)
    requires i < |results| && AllOk(results[..i]).Ok? && results[i].Err?
    ensures AllOk(results) == Err(results[i].error)
  {
    if i < |results| - 1 {
      assert results[..|results| - 1][..i] == results[..i];
      FirstError(results[..|results| - 1], i);
    }
  }

  lemma AllOkStep<T, E>(results: seq<Result<T, E>>, i: nat, front: seq<T>)
    requires i < |results| && AllOk(results[..i]) == Ok(front)
    ensures results[i].Ok? ==> AllOk(results[..i + 1]) == Ok(front + [results[i].value])
    ensures results[i].Err? ==> AllOk(results) == Err(results[i].error)
  {
    assert results[..i + 1][..i] == results[..i];
    if results[i].Err? {
      FirstError(results, i);
    }
  }

  function ParsedSpecs(texts: seq<string>): seq<Result<ProductSpec, ParseError>> {
    seq(|texts|, i requires 0 <= i < |texts| => SpecOf(texts[i]))
  }

  method ParseProductSpecs(texts: seq<string>) returns (r: Result<seq<ProductSpec>, ParseError>)
    ensures r == AllOk(ParsedSpecs(texts))
  {
    ghost var results := ParsedSpecs(texts);
    var products := [];
    for i := 0 to |texts|
      invariant AllOk(results[..i]) == Ok(products)
    {
      AllOkStep(results, i, products);
      var product := ParseProductSpec(texts[i]);
      assert product == results[i];
      if product.Err? {
        return Err(product.error);
      }
      products := products + [product.value];
    }
    assert results[..|texts|] == results;
    return Ok(products);
  }

  function UnmaskAll(values: seq<string>): seq<string> {
    seq(|values|, i requires 0 <= i < |values| => Unmask(values[i]))
  }

  // No parameter at all gives no list, which is not the empty list.
  function ProductsOf(repeated: seq<string>, plural: string): Result<Option<seq<ProductSpec>>, ParseError> {
    var params := RepeatedValues(repeated, Mask(plural, false));
    if params == [] then Ok(None) else
      match AllOk(ParsedSpecs(UnmaskAll(params)))
      case Ok(specs) => Ok(Some(specs))
      case Err(e) => Err(e)
  }

  method ParseProductsParam(repeated: seq<string>, plural: string)
    returns (r: Result<Option<seq<ProductSpec>>, ParseError>)
    ensures r == ProductsOf(repeated, plural)
  {
    var pluralParam := HideNestedCommas(plural);
    var params := ParseRepeatedParamValues(repeated, pluralParam);
    if params == [] {
      return Ok(None);
    }
    var texts := params;
    for i := 0 to |params|
      invariant |texts| == |params|
      invariant forall j :: 0 <= j < i ==> texts[j] == Unmask(params[j])
      invariant forall j :: i <= j < |params| ==> texts[j] == params[j]
    {
      texts := texts[i := Unmask(texts[i])];
    }
    assert texts == UnmaskAll(params);
    var specs := ParseProductSpecs(texts);
    return match specs case Ok(list) => Ok(Some(list)) case Err(e) => Err(e);
  }

  // ---- a printed list parses back ----

  function Masks(texts: seq<string>): seq<string> {
    seq(|texts|, i requires 0 <= i < |texts| => Mask(texts[i], false))
  }

  // Cutting at exactly the commas that no open bracket encloses.
  function OutsideSplit(s: string, inside: bool): (pieces: seq<string>)
    ensures pieces != []
  {
    if s == "" then [""] else
      var rest := OutsideSplit(s[1..], Next(s[0], inside));
      if s[0] == ',' && !inside then [""] + rest else [[s[0]] + rest[0]] + rest[1..]
  }

  function MaskPieces(pieces: seq<string>, inside: bool): seq<string>
    requires pieces != []
  {
    [Mask(pieces[0], inside)] + Masks(pieces[1..])
  }

  // For any text, balanced or not, the list is cut at the outside commas, and
  // the pieces are masked one by one.
  lemma {:induction false} CutsAtOutsideCommas(s: string, inside: bool)
    ensures Split(Mask(s, inside), ',') == MaskPieces(OutsideSplit(s, inside), inside)
  {
    if s != "" {
      var rest := OutsideSplit(s[1..], Next(s[0], inside));
      CutsAtOutsideCommas(s[1..], Next(s[0], inside));
      if s[0] == ',' && !inside {
        SplitCons("", ',', Mask(s[1..], false));
        assert Mask(s, inside) == "" + [','] + Mask(s[1..], false);
        CutHere(rest);
      } else {
        SplitPrefix(MaskChar(s[0], inside), Mask(s[1..], Next(s[0], inside)), ',');
        CutLater(s[0], rest, inside);
      }
    }
  }

  lemma CutHere(rest: seq<string>)
    requires rest != []
    ensures MaskPieces([""] + rest, false) == [""] + MaskPieces(rest, false)
  {
    assert ([""] + rest)[1..] == rest;
  }

  lemma CutLater(c: char, rest: seq<string>, inside: bool)
    requires rest != []
    ensures var masked := MaskPieces(rest, Next(c, inside));
      MaskPieces([[c] + rest[0]] + rest[1..], inside) == [MaskChar(c, inside) + masked[0]] + masked[1..]
  {
    assert ([c] + rest[0])[1..] == rest[0];
    assert ([[c] + rest[0]] + rest[1..])[1..] == rest[1..];
  }

  // Texts whose brackets close, so that the commas between them stay outside.
  ghost predicate Closed(texts: seq<string>) {
    forall t | t in texts :: !InsideAfter(t, false)
  }

  lemma {:induction false} MaskJoin(texts: seq<string>)
    requires Closed(texts)
    ensures Mask(Join(texts, ","), false) == Join(Masks(texts), ",")
  {
    if |texts| == 1 {
      assert Join(Masks(texts), ",") == Masks(texts)[0];
    } else if |texts| > 1 {
      MaskJoin(texts[1..]);
      assert Masks(texts)[1..] == Masks(texts[1..]);
      var tail := Join(texts[1..], ",");
      assert Join(texts, ",") == texts[0] + ([','] + tail);
      MaskAppend(texts[0], [','] + tail, false);
      assert ([','] + tail)[1..] == tail;
      assert texts[0] in texts;
    }
  }

  ghost predicate Listable(t: string) {
    t != "" && !InsideAfter(t, false) && ',' !in Mask(t, false) && HazardFree(t, false)
  }

  ghost predicate AllDistinct(texts: seq<string>) {
    forall i, j :: 0 <= i < j < |texts| ==> texts[i] != texts[j]
  }

  lemma MaskedListable(t: string)
    requires Listable(t)
    ensures Unmask(Mask(t, false)) == t && Mask(t, false) != ""
  {
    UnmaskMaskIff(t, false);
  }

  lemma MasksUnmask(texts: seq<string>)
    requires forall t | t in texts :: Listable(t)
    ensures UnmaskAll(Masks(texts)) == texts
    ensures forall m | m in Masks(texts) :: m != "" && ',' !in m
    ensures AllDistinct(texts) ==> AllDistinct(Masks(texts))
  {
    var masks := Masks(texts);
    forall i | 0 <= i < |texts| ensures Unmask(masks[i]) == texts[i] && masks[i] != "" && ',' !in masks[i] {
      assert texts[i] in texts;
      MaskedListable(texts[i]);
    }
  }

  // The general form: closed texts without outside commas or hazards come back
  // whole and in order, once each.
  lemma ListSplitsBack(texts: seq<string>)
    requires texts != [] && AllDistinct(texts)
    requires forall t | t in texts :: Listable(t)
    ensures RepeatedValues([], Mask(Join(texts, ","), false)) == Masks(texts)
    ensures UnmaskAll(Masks(texts)) == texts
  {
    var masks := Masks(texts);
    MasksUnmask(texts);
    MaskJoin(texts);
    SplitJoin(masks, ',');
    JoinNotEmpty(masks);
    assert [] + masks == masks;
    DistinctAlready(masks);
  }

  lemma JoinNotEmpty(parts: seq<string>)
    requires parts != [] && parts[0] != ""
    ensures Join(parts, ",") != ""
  {
  }

  lemma {:induction false} DistinctAlready(values: seq<string>)
    requires forall i :: 0 <= i < |values| ==> values[i] != ""
    requires AllDistinct(values)
    ensures Distinct(values) == values
  {
    if values != [] {
      DistinctAlready(values[..|values| - 1]);
    }
  }

  lemma ShownIsClosed(p: ProductSpec)
    requires PlainProduct(p.at.product) && PlainTail(p) && ',' !in Name(p)
    ensures !InsideAfter(ShowSpec(p), false) && ',' !in Mask(ShowSpec(p), false)
  {
    var shown, tail := ShowLabels(LabelSet(p.labels)), ShowRevision(p.at.revision);
    assert ShowSpec(p) == (Name(p) + shown) + tail;
    ProductSplitsBack(p.at.product);
    NoBlockOpens(Name(p));
    LabelsAreClosed(LabelSet(p.labels));
    TailIsPlain(p.at.revision);
    NoBlockOpens(tail);
    InsideAppend(Name(p) + shown, tail, false);
    InsideAppend(Name(p), shown, false);
    MaskAppend(Name(p) + shown, tail, false);
    MaskAppend(Name(p), shown, false);
  }

  lemma TailIsPlain(revision: string)
    requires IsLatest(revision) || IsSha(revision)
    ensures ',' !in ShowRevision(revision) && '[' !in ShowRevision(revision)
  {
  }

  lemma {:induction false} NoBlockOpens(s: string)
    requires '[' !in s
    ensures !InsideAfter(s, false) && Mask(s, false) == s
  {
    if s != "" {
      NoBlockOpens(s[1..]);
      assert s == [s[0]] + s[1..];
    }
  }

  lemma BlockIsClosed(joined: string)
    requires '[' !in joined && ']' !in joined
    ensures !InsideAfter("[" + joined + "]", false) && ',' !in Mask("[" + joined + "]", false)
  {
    MaskUnbracketed(joined, true);
    var rest := joined + [']'];
    assert "[" + joined + "]" == ['['] + rest;
    assert (['['] + rest)[1..] == rest;
    InsideAppend(joined, [']'], true);
    MaskAppend(joined, [']'], true);
  }

  lemma LabelsAreClosed(labels: set<string>)
    requires forall l | l in labels :: PlainLabel(l)
    ensures !InsideAfter(ShowLabels(labels), false) && ',' !in Mask(ShowLabels(labels), false)
  {
    if labels - {""} != {} {
      hide InsideAfter, Mask, Arrange, Join;
      var listed := Arrange(labels - {""});
      var joined := Join(listed, ",");
      JoinWithout(listed, ",", '[');
      JoinWithout(listed, ",", ']');
      assert ShowLabels(labels) == "[" + joined + "]";
      BlockIsClosed(joined);
    }
  }

  ghost function ShowAll(specs: seq<ProductSpec>): seq<string> {
    seq(|specs|, i requires 0 <= i < |specs| => ShowSpec(specs[i]))
  }

  ghost function NormalForms(specs: seq<ProductSpec>): seq<ProductSpec> {
    seq(|specs|, i requires 0 <= i < |specs| => NormalForm(specs[i]))
  }

  function Oks<T, E>(values: seq<T>): seq<Result<T, E>> {
    seq(|values|, i requires 0 <= i < |values| => Ok(values[i]))
  }

  lemma {:induction false} AllOkOks<T, E>(values: seq<T>)
    ensures AllOk<T, E>(Oks(values)) == Ok(values)
  {
    if values != [] {
      AllOkOks<T, E>(values[..|values| - 1]);
      assert Oks<T, E>(values)[..|values| - 1] == Oks<T, E>(values[..|values| - 1]);
      assert values == values[..|values| - 1] + [values[|values| - 1]];
    }
  }

  ghost predicate ListableSpec(p: ProductSpec) {
    WellFormed(p) && ',' !in Name(p) && HazardFree(ShowSpec(p), false)
  }

  lemma ShownIsListable(p: ProductSpec)
    requires ListableSpec(p)
    ensures Listable(ShowSpec(p)) && SpecOf(ShowSpec(p)) == Ok(NormalForm(p))
  {
    ShownIsClosed(p);
    ShownNotEmpty(p);
    PrintThenParse(p);
  }

  lemma ShownNotEmpty(p: ProductSpec)
    requires IsStableBrowserName(p.at.product.browserName)
    ensures ShowSpec(p) != ""
  {
    KnownBrowserIsPlain(p.at.product.browserName);
    assert |ShowSpec(p)| >= |p.at.product.browserName| > 0;
  }

  // Distinct well-formed specs, printed and joined with commas, parse back in
  // order, provided no product holds a comma and no text holds a hazard.
  lemma ProductListPrintsBack(specs: seq<ProductSpec>)
    requires specs != []
    requires forall i :: 0 <= i < |specs| ==> ListableSpec(specs[i])
    requires forall i, j :: 0 <= i < j < |specs| ==> NormalForm(specs[i]) != NormalForm(specs[j])
    ensures ProductsOf([], Join(ShowAll(specs), ",")) == Ok(Some(NormalForms(specs)))
  {
    hide ListableSpec, Listable, ShowSpec, SpecOf, NormalForm, Join, AllOk, Mask, RepeatedValues, UnmaskAll;
    var texts := ShowAll(specs);
    forall i | 0 <= i < |specs| ensures Listable(texts[i]) && SpecOf(texts[i]) == Ok(NormalForm(specs[i])) {
      ShownIsListable(specs[i]);
    }
    ListSplitsBack(texts);
    assert ParsedSpecs(texts) == Oks(NormalForms(specs));
    AllOkOks<ProductSpec, ParseError>(NormalForms(specs));
  }
}
