/**
 * The regular expressions of the price and unit parsers, each written as a
 * scanner: `MatchAt` says whether the pattern matches starting at one position
 * and where its groups start, `Search` is `re.search` (the leftmost start
 * position that matches).
 *
 * With these patterns, a greedy quantifier never gains anything by giving
 * characters back (the character after a shortened run can never continue the
 * pattern), so each pattern matches at a position in exactly one way: the one
 * the scanners below compute.
 */
module Patterns {
  import opened Wrappers
  import opened Text
  import opened Numerals

  const Rupee: char := '\U{20B9}'

  /**
   * The scraper's price pattern begins with the three characters U+00E2, U+201A
   * and U+00B9 (the UTF-8 bytes of the rupee sign read as Windows-1252); the `?`
   * applies to the third one only.
   */
  const MojibakeA: char := '\U{E2}'
  const MojibakeB: char := '\U{201A}'
  const MojibakeC: char := '\U{B9}'

  datatype Pattern =
    | RangePrice    // ₹?\s*(N)\s*[-to]\s*₹?\s*(N) with re.I, where N is \d+(?:,\d+)*(?:\.\d+)?
    | SinglePrice   // ₹?\s*(N)
    | PerWord       // per\s+(\w+)
    | SlashWord     // /(\w+)
    | TrailingWord  // (\w+)\s*$
    | ScraperPrice  // â‚¹?\s*(N), the three mojibake characters above
    | ScraperUnit   // per\s+(\w+)|/(\w+)

  /** Where the (one or two) capturing groups of a match start. */
  datatype Groups = Groups(first: nat, second: nat)

  predicate IsNumberPattern(pat: Pattern) {
    pat.RangePrice? || pat.SinglePrice? || pat.ScraperPrice?
  }

  /** The class `[-to]` under `re.I`: one character, never the word "to". */
  predicate IsRangeSeparator(c: char) {
    c == '-' || c == 't' || c == 'o' || c == 'T' || c == 'O'
  }

  function OptionalChar(s: string, p: nat, c: char): (q: nat)
    requires p <= |s|
    ensures q == p || (p < |s| && q == p + 1 && s[p] == c)
  {
    if p < |s| && s[p] == c then p + 1 else p
  }

  /** `₹?\s*` followed by the first digit of a number: where that digit is. */
  function NumberAfterRupee(s: string, p: nat): (a: Option<nat>)
    requires p <= |s|
    ensures a.Some? ==> p <= a.value < |s| && IsDigit(s[a.value])
  {
    var a := SkipSpaces(s, OptionalChar(s, p, Rupee));
    if a < |s| && IsDigit(s[a]) then Some(a) else None
  }

  /** Does `pat` match starting exactly at `p`, and where do its groups start? */
  function MatchAt(pat: Pattern, s: string, p: nat): (m: Option<Groups>)
    requires p <= |s|
    ensures m.Some? && IsNumberPattern(pat) ==> m.value.first < |s| && IsDigit(s[m.value.first])
    ensures m.Some? && pat.RangePrice? ==> m.value.second < |s| && IsDigit(s[m.value.second])
    ensures m.Some? && !IsNumberPattern(pat) ==> m.value.first < |s| && IsWordChar(s[m.value.first])
  {
    match pat
    case SinglePrice =>
      (match NumberAfterRupee(s, p)
       case Some(a) => Some(Groups(a, 0))
       case None => None)
    case RangePrice =>
      (match NumberAfterRupee(s, p)
       case None => None
       case Some(a) =>
         var sep := SkipSpaces(s, NumberEnd(s, a));
         if sep < |s| && IsRangeSeparator(s[sep]) then
           (match NumberAfterRupee(s, SkipSpaces(s, sep + 1))
            case Some(b) => Some(Groups(a, b))
            case None => None)
         else None)
    case ScraperPrice =>
      if p + 1 < |s| && s[p] == MojibakeA && s[p + 1] == MojibakeB then
        var a := SkipSpaces(s, OptionalChar(s, p + 2, MojibakeC));
        if a < |s| && IsDigit(s[a]) then Some(Groups(a, 0)) else None
      else None
    case PerWord => PerWordAt(s, p)
    case SlashWord => SlashWordAt(s, p)
    case TrailingWord =>
      if p < |s| && IsWordChar(s[p]) && AllSpaces(s[WordEnd(s, p)..]) then Some(Groups(p, 0)) else None
    case ScraperUnit =>
      if PerWordAt(s, p).Some? then PerWordAt(s, p) else SlashWordAt(s, p)
  }

  /** `per\s+(\w+)` at `p`. */
  function PerWordAt(s: string, p: nat): (m: Option<Groups>)
    requires p <= |s|
    ensures m.Some? ==> m.value.first < |s| && IsWordChar(s[m.value.first])
  {
    if p + 3 < |s| && s[p..p + 3] == "per" && IsSpace(s[p + 3]) then
      var a := SkipSpaces(s, p + 3);
      if a < |s| && IsWordChar(s[a]) then Some(Groups(a, 0)) else None
    else None
  }

  /** `/(\w+)` at `p`. */
  function SlashWordAt(s: string, p: nat): (m: Option<Groups>)
    requires p <= |s|
    ensures m.Some? ==> m.value.first < |s| && IsWordChar(s[m.value.first])
  {
    if p + 1 < |s| && s[p] == '/' && IsWordChar(s[p + 1]) then Some(Groups(p + 1, 0)) else None
  }

  /** For each start position `0..|s|`, whether `pat` matches there. */
  function MatchMask(pat: Pattern, s: string): (mask: seq<bool>)
    ensures |mask| == |s| + 1
    ensures forall q :: 0 <= q <= |s| ==> (mask[q] <==> MatchAt(pat, s, q).Some?)
  {
    seq(|s| + 1, q requires 0 <= q <= |s| => MatchAt(pat, s, q).Some?)
  }

  /** The first index at or after `p` that holds `true`. */
  function FirstTrue(mask: seq<bool>, p: nat): (r: Option<nat>)
    requires p <= |mask|
    ensures r.Some? ==> p <= r.value < |mask| && mask[r.value]
    ensures r.Some? ==> forall q :: p <= q < r.value ==> !mask[q]
    ensures r.None? ==> forall q :: p <= q < |mask| ==> !mask[q]
    decreases |mask| - p
  {
    if p == |mask| then None
    else if mask[p] then Some(p)
    else FirstTrue(mask, p + 1)
  }

  /** `re.search`: the leftmost position at or after `p` where `pat` matches. */
  function Search(pat: Pattern, s: string, p: nat): (r: Option<nat>)
    requires p <= |s|
  {
    FirstTrue(MatchMask(pat, s), p)
  }

  /** `Search` finds a match, and no position before it matches; when it finds none, no position matches. */
  lemma SearchIsLeftmost(pat: Pattern, s: string, p: nat)
    requires p <= |s|
    ensures var r := Search(pat, s, p);
      && (r.Some? ==> p <= r.value <= |s| && MatchAt(pat, s, r.value).Some?)
      && (r.Some? ==> forall q :: p <= q < r.value ==> MatchAt(pat, s, q).None?)
      && (r.None? ==> forall q :: p <= q <= |s| ==> MatchAt(pat, s, q).None?)
  {
    var mask := MatchMask(pat, s);
    var r := FirstTrue(mask, p);
    if r.Some? {
      assert mask[r.value];
      forall q | p <= q < r.value ensures MatchAt(pat, s, q).None? {
        assert !mask[q];
      }
    } else {
      forall q | p <= q <= |s| ensures MatchAt(pat, s, q).None? {
        assert !mask[q];
      }
    }
  }

  /** A pattern that matches nowhere is not found. */
  lemma SearchNone(pat: Pattern, s: string)
    requires forall q :: 0 <= q <= |s| ==> MatchAt(pat, s, q).None?
    ensures Search(pat, s, 0).None? && Find(pat, s).None?
  {
    SearchIsLeftmost(pat, s, 0);
  }

  /** A pattern whose first matching position is `p` is found there. */
  lemma SearchFirstAt(pat: Pattern, s: string, p: nat)
    requires p <= |s| && MatchAt(pat, s, p).Some?
    requires forall q :: 0 <= q < p ==> MatchAt(pat, s, q).None?
    ensures Search(pat, s, 0) == Some(p) && Find(pat, s) == MatchAt(pat, s, p)
  {
    SearchIsLeftmost(pat, s, 0);
  }

  /** The groups of the first match of `pat` in `s`, if any. */
  function Find(pat: Pattern, s: string): (m: Option<Groups>)
  {
    match Search(pat, s, 0)
    case Some(q) => (SearchIsLeftmost(pat, s, 0); MatchAt(pat, s, q))
    case None => None
  }

  /** The text of a `(\w+)` group that starts at `a`. */
  function WordGroup(s: string, a: nat): (w: string)
    requires a < |s| && IsWordChar(s[a])
    ensures w != [] && AllWordChars(w)
  {
    s[a..WordEnd(s, a)]
  }

  /** The first `(\w+)` group found by a word pattern. */
  function FindWord(pat: Pattern, s: string): (w: Option<string>)
    requires !IsNumberPattern(pat)
    ensures w.Some? ==> w.value != [] && AllWordChars(w.value)
  {
    match Find(pat, s)
    case Some(g) => Some(WordGroup(s, g.first))
    case None => None
  }

  /** The value of the first number group found by a number pattern. */
  function FindNumber(pat: Pattern, s: string): (v: Option<real>)
    requires IsNumberPattern(pat)
  {
    match Find(pat, s)
    case Some(g) => Some(NumberValue(s, g.first))
    case None => None
  }

  // ----- facts about particular patterns -----

  predicate HasDigit(s: string) {
    exists k :: 0 <= k < |s| && IsDigit(s[k])
  }

  /** Index of the first digit of `s`. */
  function FirstDigit(s: string): (d: nat)
    requires HasDigit(s)
    ensures d < |s| && IsDigit(s[d])
    ensures forall k :: 0 <= k < d ==> !IsDigit(s[k])
  {
    if IsDigit(s[0]) then 0
    else
      assert HasDigit(s[1..]) by {
        var k :| 0 <= k < |s| && IsDigit(s[k]);
        assert s[1..][k - 1] == s[k];
      }
      1 + FirstDigit(s[1..])
  }

  /** Wherever `₹?\s*` reaches a digit, it is the first digit at or after the start position. */
  lemma NumberAfterRupeeIsNextDigit(s: string, p: nat, d: nat)
    requires p <= d < |s| && IsDigit(s[d])
    requires forall k :: p <= k < d ==> !IsDigit(s[k])
    ensures NumberAfterRupee(s, p).Some? ==> NumberAfterRupee(s, p).value == d
    ensures p == d ==> NumberAfterRupee(s, p) == Some(d)
  {
  }

  /**
   * The single-price pattern finds the number that starts at the first digit of
   * the text, whatever precedes it; without a digit it finds nothing.
   */
  lemma SinglePriceIsFirstNumber(s: string)
    ensures FindNumber(SinglePrice, s) == if HasDigit(s) then Some(NumberValue(s, FirstDigit(s))) else None
  {
    if HasDigit(s) {
      var d := FirstDigit(s);
      NumberAfterRupeeIsNextDigit(s, d, d);
      assert MatchAt(SinglePrice, s, d).Some?;
      SearchIsLeftmost(SinglePrice, s, 0);
      var q := Search(SinglePrice, s, 0).value;
      NumberAfterRupeeIsNextDigit(s, d, d);
      assert q <= d;
      NumberAfterRupeeIsNextDigit(s, q, d);
    } else {
      SearchIsLeftmost(SinglePrice, s, 0);
      assert Search(SinglePrice, s, 0).None?;
    }
  }
}
