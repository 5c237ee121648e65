/**
 * Price strings as `clean_price_text` and `extract_price_unit` read them
 * (src/scraper/utils.py): an optional range of two numbers, otherwise the first
 * number, and a unit label standardised through a synonym table.
 */
module Prices {
  import opened Wrappers
  import opened Text
  import opened Numerals
  import opened Patterns

  /** The fixed currency code of the marketplace. */
  const Currency: string := "INR"

  /** The dictionary that `clean_price_text` returns; `minPrice`/`maxPrice` are absent keys unless a range was read. */
  datatype PriceInfo = PriceInfo(
    rawPrice: string,
    numericPrice: Option<real>,
    minPrice: Option<real>,
    maxPrice: Option<real>,
    currency: string,
    unit: string,
    isRange: bool)

  /** The unit synonym table of `extract_price_unit`. */
  const UnitMapping: map<string, string> := map[
    "pc" := "piece", "pcs" := "piece", "piece" := "piece",
    "kg" := "kilogram", "kilogram" := "kilogram",
    "gram" := "gram", "gm" := "gram",
    "ton" := "ton", "tonne" := "ton",
    "meter" := "meter", "metre" := "meter", "m" := "meter",
    "feet" := "feet", "foot" := "feet", "ft" := "feet",
    "litre" := "liter", "liter" := "liter", "l" := "liter",
    "dozen" := "dozen", "pair" := "pair", "set" := "set"
  ]

  /** `unit_mapping.get(unit, unit)`: a key is replaced by its standard label, anything else is kept. */
  function MapUnit(u: string): (r: string)
    ensures u in UnitMapping ==> r == UnitMapping[u]
    ensures u !in UnitMapping ==> r == u
  {
    if u in UnitMapping then UnitMapping[u] else u
  }

  /** Every standard label maps to itself, so standardising a label a second time changes nothing. */
  lemma MapUnitIdempotent(u: string)
    ensures MapUnit(MapUnit(u)) == MapUnit(u)
  {
    if u in UnitMapping {
      var v := UnitMapping[u];
      assert v in {"piece", "kilogram", "gram", "ton", "meter", "feet", "liter", "dozen", "pair", "set"};
    }
  }

  /** The raw unit token of the lowercased text: `per <word>` first, then `/<word>`, then a trailing word. */
  function UnitToken(low: string): (w: Option<string>)
    ensures w.Some? ==> w.value != [] && AllWordChars(w.value)
  {
    if FindWord(PerWord, low).Some? then FindWord(PerWord, low)
    else if FindWord(SlashWord, low).Some? then FindWord(SlashWord, low)
    else FindWord(TrailingWord, low)
  }

  /** `extract_price_unit`. */
  function ExtractPriceUnit(priceText: string): (unit: string)
    ensures priceText == "" ==> unit == ""
    ensures priceText != "" ==> (unit == "" <==> UnitToken(Lower(priceText)).None?)
    ensures priceText != "" && UnitToken(Lower(priceText)).Some? ==> unit == MapUnit(UnitToken(Lower(priceText)).value)
  {
    if priceText == "" then ""
    else
      match UnitToken(Lower(priceText))
      case Some(w) => MapUnit(w)
      case None => ""
  }

  /** The number range of `s`, from the first match of the range pattern. */
  function FindRange(s: string): (r: Option<(real, real)>)
  {
    match Find(RangePrice, s)
    case Some(g) => Some((NumberValue(s, g.first), NumberValue(s, g.second)))
    case None => None
  }

  /** The arithmetic mean of the two ends of a range. */
  function Mean(lo: real, hi: real): real {
    (lo + hi) / 2.0
  }

  /** `clean_price_text`. */
  function CleanPriceText(priceText: string): (r: PriceInfo)
    ensures r.currency == Currency
    ensures priceText == "" ==> r == PriceInfo("", None, None, None, Currency, "", false)
    ensures priceText != "" ==> r.rawPrice == Strip(priceText) && r.unit == ExtractPriceUnit(Strip(priceText))
    ensures r.isRange <==> priceText != "" && FindRange(Strip(priceText)).Some?
    ensures r.isRange ==>
              var range := FindRange(Strip(priceText)).value;
              r.minPrice == Some(range.0) && r.maxPrice == Some(range.1) && r.numericPrice == Some(Mean(range.0, range.1))
    ensures !r.isRange ==> r.minPrice.None? && r.maxPrice.None?
    ensures !r.isRange && priceText != "" ==>
              var t := Strip(priceText);
              r.numericPrice == if HasDigit(t) then Some(NumberValue(t, FirstDigit(t))) else None
  {
    if priceText == "" then PriceInfo("", None, None, None, Currency, "", false)
    else
      var t := Strip(priceText);
      var range := FindRange(t);
      if range.Some? then
        var lo, hi := range.value.0, range.value.1;
        PriceInfo(t, Some(Mean(lo, hi)), Some(lo), Some(hi), Currency, ExtractPriceUnit(t), true)
      else
        SinglePriceIsFirstNumber(t);
        PriceInfo(t, FindNumber(SinglePrice, t), None, None, Currency, ExtractPriceUnit(t), false)
  }

  // ----- properties of particular price strings -----

  /** `"<a> - <b>"` for two digit strings is read as the range from `a` to `b`, priced at its mean. */
  lemma RangeOfTwoNumbers(a: string, b: string)
    requires a != [] && b != [] && AllDigits(a) && AllDigits(b)
    ensures var r := CleanPriceText(a + " - " + b);
      && r.isRange
      && r.minPrice == Some(DigitsValue(a) as real)
      && r.maxPrice == Some(DigitsValue(b) as real)
      && r.numericPrice == Some(Mean(DigitsValue(a) as real, DigitsValue(b) as real))
  {
    var s := a + " - " + b;
    DigitsThenDigits(a, " - ", b);
    RangeOfTwoNumbersFound(s, |a|);
    CleanStripped(s);
  }

  /** The layout facts of `a + sep + b` that the lemmas below rely on. */
  lemma DigitsThenDigits(a: string, sep: string, b: string)
    requires a != [] && b != [] && AllDigits(a) && AllDigits(b)
    ensures var s := a + sep + b;
      && s[0..|a|] == a && s[|a|..|a| + |sep|] == sep && s[|a| + |sep|..] == b
      && NoEdgeSpace(s)
  {
    var s := a + sep + b;
    assert s[0] == a[0] && s[|s| - 1] == b[|b| - 1];
  }

  /** On text without edge whitespace, `clean_price_text` works on the text itself. */
  lemma CleanStripped(t: string)
    requires t != [] && NoEdgeSpace(t)
    ensures var r := CleanPriceText(t);
      && r.rawPrice == t
      && r.unit == ExtractPriceUnit(t)
      && (r.isRange <==> FindRange(t).Some?)
      && (r.isRange ==> r.minPrice == Some(FindRange(t).value.0) && r.maxPrice == Some(FindRange(t).value.1))
      && (!r.isRange ==> r.numericPrice == if HasDigit(t) then Some(NumberValue(t, FirstDigit(t))) else None)
  {
    StripFixed(t);
  }

  lemma RangeOfTwoNumbersFound(s: string, n: nat)
    requires 0 < n && n + 3 < |s| && AllDigits(s[0..n]) && s[n..n + 3] == " - " && AllDigits(s[n + 3..])
    ensures FindRange(s) == Some((DigitsValue(s[0..n]) as real, DigitsValue(s[n + 3..]) as real))
  {
    assert s[n] == s[n..n + 3][0] == ' ' && s[n + 1] == s[n..n + 3][1] == '-' && s[n + 2] == s[n..n + 3][2] == ' ';
    assert IsDigit(s[0..n][0]) && IsDigit(s[n + 3..][0]);
    PlainDigitsToken(s, 0, n);
    assert s[n + 3..] == s[n + 3..|s|];
    PlainDigitsToken(s, n + 3, |s|);
    RangeAtStart(s, n);
    SearchFirstAt(RangePrice, s, 0);
  }

  lemma RangeAtStart(s: string, n: nat)
    requires 0 < n && n + 3 < |s| && IsDigit(s[0]) && IsDigit(s[n + 3]) && NumberEnd(s, 0) == n
    requires s[n] == ' ' && s[n + 1] == '-' && s[n + 2] == ' '
    ensures MatchAt(RangePrice, s, 0) == Some(Groups(0, n + 3))
  {
    assert NumberAfterRupee(s, 0) == Some(0);
    assert SkipSpaces(s, n) == n + 1;
    assert SkipSpaces(s, n + 2) == n + 3;
    assert NumberAfterRupee(s, n + 3) == Some(n + 3);
  }

  /**
   * The separator is the single-character class `[-to]`, so the word "to" does
   * not make a range: `"<a> to <b>"` is priced at `a`.
   */
  lemma WordToIsNotASeparator(a: string, b: string)
    requires a != [] && b != [] && AllDigits(a) && AllDigits(b)
    ensures var r := CleanPriceText(a + " to " + b);
      && !r.isRange
      && r.numericPrice == Some(DigitsValue(a) as real)
  {
    var s := a + " to " + b;
    DigitsThenDigits(a, " to ", b);
    WordToNoRange(s, |a|);
    CleanStripped(s);
  }

  lemma WordToNoRange(s: string, n: nat)
    requires 0 < n && n + 4 < |s| && AllDigits(s[0..n]) && s[n..n + 4] == " to " && AllDigits(s[n + 4..])
    ensures FindRange(s).None? && HasDigit(s) && FirstDigit(s) == 0
    ensures NumberValue(s, 0) == DigitsValue(s[0..n]) as real
  {
    forall q | 0 <= q <= |s| ensures MatchAt(RangePrice, s, q).None? {
      WordToNoRangeAt(s, n, q);
    }
    SearchNone(RangePrice, s);
    assert IsDigit(s[0..n][0]);
    assert s[n] == s[n..n + 4][0];
    PlainDigitsToken(s, 0, n);
  }

  lemma WordToNoRangeAt(s: string, n: nat, q: nat)
    requires 0 < n && n + 4 < |s| && AllDigits(s[0..n]) && s[n..n + 4] == " to " && AllDigits(s[n + 4..])
    requires q <= |s|
    ensures MatchAt(RangePrice, s, q).None?
  {
    if q < n {
      WordToNoRangeInFirst(s, n, q);
    } else if n + 3 <= q < |s| {
      WordToNoRangeInSecond(s, n, q);
    } else if q < n + 3 {
      assert s[n] == s[n..n + 4][0] == ' ' && s[n + 1] == s[n..n + 4][1] == 't' && s[n + 2] == s[n..n + 4][2] == 'o';
      NoRangeInsideWordTo(s, n, q);
    }
  }

  lemma NoRangeInsideWordTo(s: string, n: nat, q: nat)
    requires n <= q < n + 3 && n + 3 < |s|
    requires s[n] == ' ' && s[n + 1] == 't' && s[n + 2] == 'o'
    ensures MatchAt(RangePrice, s, q).None?
  {
    assert SkipSpaces(s, q) == n + 1 || SkipSpaces(s, q) == n + 2;
    assert NumberAfterRupee(s, q).None?;
  }

  lemma WordToNoRangeInFirst(s: string, n: nat, q: nat)
    requires 0 < n && n + 4 < |s| && AllDigits(s[0..n]) && s[n..n + 4] == " to "
    requires q < n
    ensures MatchAt(RangePrice, s, q).None?
  {
    assert s[n] == s[n..n + 4][0] == ' ' && s[n + 1] == s[n..n + 4][1] == 't';
    assert s[n + 2] == s[n..n + 4][2] == 'o';
    assert IsDigit(s[0..n][q]);
    AllDigitsSlice(s, 0, q, n);
    PlainDigitsToken(s, q, n);
    NoRangeAfterSeparator(s, q, n);
  }

  lemma WordToNoRangeInSecond(s: string, n: nat, q: nat)
    requires 0 < n && n + 4 < |s| && s[n..n + 4] == " to " && AllDigits(s[n + 4..])
    requires n + 3 <= q < |s|
    ensures MatchAt(RangePrice, s, q).None?
  {
    assert s[n + 3] == s[n..n + 4][3] == ' ';
    var d := if q == n + 3 then n + 4 else q;
    assert IsDigit(s[n + 4..][d - n - 4]);
    assert s[n + 4..] == s[n + 4..|s|];
    AllDigitsSlice(s, n + 4, d, |s|);
    PlainDigitsToken(s, d, |s|);
    NoRangeAtLastNumber(s, q, d);
  }

  /** A number at `q` that ends at `n`, followed by a separator that is followed by a letter, starts no range. */
  lemma NoRangeAfterSeparator(s: string, q: nat, n: nat)
    requires q < n && n + 2 < |s| && IsDigit(s[q]) && NumberEnd(s, q) == n
    requires s[n] == ' ' && IsRangeSeparator(s[n + 1]) && !IsSpace(s[n + 2]) && !IsDigit(s[n + 2]) && s[n + 2] != Rupee
    ensures MatchAt(RangePrice, s, q).None?
  {
    assert NumberAfterRupee(s, q) == Some(q);
    assert SkipSpaces(s, n) == n + 1;
    assert SkipSpaces(s, n + 2) == n + 2;
    assert NumberAfterRupee(s, n + 2).None?;
  }

  /** The number that ends the text starts no range. */
  lemma NoRangeAtLastNumber(s: string, q: nat, d: nat)
    requires q <= d < |s| && IsDigit(s[d]) && NumberEnd(s, d) == |s|
    requires SkipSpaces(s, q) == d
    ensures MatchAt(RangePrice, s, q).None?
  {
    assert NumberAfterRupee(s, q) == Some(d);
  }

  /** `"₹<d>"` for a digit string is priced at `d`, not a range, and its unit is the trailing word `d` itself. */
  lemma RupeeAndDigits(d: string)
    requires d != [] && AllDigits(d)
    ensures var r := CleanPriceText([Rupee] + d);
      && !r.isRange
      && r.numericPrice == Some(DigitsValue(d) as real)
      && r.unit == d
  {
    var s := [Rupee] + d;
    assert s[0] == Rupee && s[1..] == d;
    RupeeNoRange(s);
    RupeeUnit(s);
    CleanStripped(s);
  }

  lemma RupeeNoRange(s: string)
    requires 1 < |s| && s[0] == Rupee && AllDigits(s[1..])
    ensures NoEdgeSpace(s)
    ensures FindRange(s).None? && HasDigit(s) && FirstDigit(s) == 1
    ensures NumberValue(s, 1) == DigitsValue(s[1..]) as real
  {
    assert s[|s| - 1] == s[1..][|s| - 2];
    forall q | 0 <= q <= |s| ensures MatchAt(RangePrice, s, q).None? {
      RupeeNoRangeAt(s, q);
    }
    SearchNone(RangePrice, s);
    assert IsDigit(s[1..][0]);
    assert s[1..] == s[1..|s|];
    PlainDigitsToken(s, 1, |s|);
  }

  lemma RupeeNoRangeAt(s: string, q: nat)
    requires 1 < |s| && s[0] == Rupee && AllDigits(s[1..])
    requires q <= |s|
    ensures MatchAt(RangePrice, s, q).None?
  {
    if q < |s| {
      var p := if q == 0 then 1 else q;
      assert s[1..] == s[1..|s|];
      AllDigitsSlice(s, 1, p, |s|);
      PlainDigitsToken(s, p, |s|);
      assert NumberAfterRupee(s, q) == Some(p);
    }
  }

  lemma RupeeUnit(s: string)
    requires 1 < |s| && s[0] == Rupee && AllDigits(s[1..])
    ensures ExtractPriceUnit(s) == s[1..]
  {
    assert forall k :: 1 <= k < |s| ==> IsDigit(s[k]) by {
      forall k | 1 <= k < |s| ensures IsDigit(s[k]) { assert s[k] == s[1..][k - 1]; }
    }
    assert Lower(s) == s;
    forall q | 0 <= q <= |s| ensures MatchAt(PerWord, s, q).None? && MatchAt(SlashWord, s, q).None? {
      if q < |s| {
        assert s[q] == Rupee || IsDigit(s[q]);
      }
    }
    SearchNone(PerWord, s);
    SearchNone(SlashWord, s);
    WordRunFrom(s, 1);
    assert MatchAt(TrailingWord, s, 0).None?;
    assert MatchAt(TrailingWord, s, 1) == Some(Groups(1, 0));
    SearchFirstAt(TrailingWord, s, 1);
    assert s[1..WordEnd(s, 1)] == s[1..];
    assert FindWord(TrailingWord, s) == Some(s[1..]);
    assert UnitToken(s) == Some(s[1..]);
    UnitKeysStartWithLetter();
    assert IsDigit(s[1..][0]);
  }

  /** Every key of the unit table starts with a lower-case letter, so no run of digits is a key. */
  lemma UnitKeysStartWithLetter()
    ensures forall u :: u in UnitMapping ==> u != [] && IsLowerLetter(u[0])
  {
  }

  lemma {:induction false} WordRunFrom(s: string, p: nat)
    requires p <= |s| && forall k :: p <= k < |s| ==> IsDigit(s[k])
    ensures WordEnd(s, p) == |s|
    decreases |s| - p
  {
    if p < |s| {
      WordRunFrom(s, p + 1);
    }
  }
}
