/**
 * The number token `\d+(?:,\d+)*(?:\.\d+)?` that both price parsers search for,
 * and its value `float(token.replace(',', ''))`, computed exactly on reals.
 */
module Numerals {
  import opened Text

  /** End of the maximal run of digits that starts at `p`. */
  function DigitRunEnd(s: string, p: nat): (e: nat)
    requires p <= |s|
    ensures p <= e <= |s|
    ensures forall k :: p <= k < e ==> IsDigit(s[k])
    ensures e == |s| || !IsDigit(s[e])
    decreases |s| - p
  {
    if p < |s| && IsDigit(s[p]) then DigitRunEnd(s, p + 1) else p
  }

  /** Greedy `(?:,\d+)*` after an integer part that ends at `e`. */
  function GroupsEnd(s: string, e: nat): (g: nat)
    requires e <= |s|
    ensures e <= g <= |s|
    ensures forall k :: e <= k < g ==> IsDigit(s[k]) || s[k] == ','
    ensures g == e || IsDigit(s[g - 1])
    ensures !(g + 1 < |s| && s[g] == ',' && IsDigit(s[g + 1]))
    ensures g == |s| || !IsDigit(s[g]) || g == e
    decreases |s| - e
  {
    if e + 1 < |s| && s[e] == ',' && IsDigit(s[e + 1]) then GroupsEnd(s, DigitRunEnd(s, e + 1)) else e
  }

  /** Greedy `(?:\.\d+)?` after the integer part that ends at `g`. */
  function FractionEnd(s: string, g: nat): (f: nat)
    requires g <= |s|
    ensures g <= f <= |s|
    ensures f == g || (s[g] == '.' && f > g + 1 && forall k :: g + 1 <= k < f ==> IsDigit(s[k]))
  {
    if g + 1 < |s| && s[g] == '.' && IsDigit(s[g + 1]) then DigitRunEnd(s, g + 1) else g
  }

  /** Where the integer part (digits and thousands separators) of the token at `p` ends. */
  function IntegerEnd(s: string, p: nat): (g: nat)
    requires p < |s| && IsDigit(s[p])
    ensures p < g <= |s|
    ensures forall k :: p <= k < g ==> IsDigit(s[k]) || s[k] == ','
  {
    GroupsEnd(s, DigitRunEnd(s, p))
  }

  /** End of the greedy token `\d+(?:,\d+)*(?:\.\d+)?` that starts at the digit `s[p]`. */
  function NumberEnd(s: string, p: nat): (e: nat)
    requires p < |s| && IsDigit(s[p])
    ensures p < e <= |s|
  {
    FractionEnd(s, IntegerEnd(s, p))
  }

  /** The matched text, as the regex group returns it. */
  function NumberToken(s: string, p: nat): string
    requires p < |s| && IsDigit(s[p])
  {
    s[p..NumberEnd(s, p)]
  }

  function Pow10(n: nat): (r: real)
    ensures r >= 1.0
  {
    if n == 0 then 1.0 else 10.0 * Pow10(n - 1)
  }

  lemma RemoveCommasDigits(t: string)
    requires forall k :: 0 <= k < |t| ==> IsDigit(t[k]) || t[k] == ','
    ensures AllDigits(RemoveCommas(t))
  {
  }

  /** `float(token.replace(',', ''))` for the token at `p`: integer digits plus the fraction. */
  function NumberValue(s: string, p: nat): (v: real)
    requires p < |s| && IsDigit(s[p])
    ensures v >= 0.0
  {
    var g := IntegerEnd(s, p);
    var f := FractionEnd(s, g);
    RemoveCommasDigits(s[p..g]);
    var whole := DigitsValue(RemoveCommas(s[p..g])) as real;
    if f == g then whole else whole + DigitsValue(s[g + 1..f]) as real / Pow10(f - g - 1)
  }

  /** A plain run of digits that is not followed by another digit, a separator or a fraction is the whole token. */
  lemma PlainDigitsToken(s: string, p: nat, q: nat)
    requires p < q <= |s| && AllDigits(s[p..q])
    requires q == |s| || !(IsDigit(s[q]) || s[q] == ',' || s[q] == '.')
    ensures NumberEnd(s, p) == q
    ensures NumberValue(s, p) == DigitsValue(s[p..q]) as real
  {
    assert IsDigit(s[p..q][0]);
    DigitRunFrom(s, p, q);
    NoCommas(s[p..q]);
  }

  lemma {:induction false} DigitRunFrom(s: string, p: nat, q: nat)
    requires p <= q <= |s| && AllDigits(s[p..q])
    requires q == |s| || !IsDigit(s[q])
    ensures DigitRunEnd(s, p) == q
    decreases q - p
  {
    if p < q {
      assert IsDigit(s[p..q][0]);
      assert s[p + 1..q] == s[p..q][1..];
      DigitRunFrom(s, p + 1, q);
    }
  }

  lemma NoCommas(t: string)
    requires AllDigits(t)
    ensures RemoveCommas(t) == t
  {
    if t != [] {
      NoCommas(t[1..]);
    }
  }
}
