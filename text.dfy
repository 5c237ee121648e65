/**
 * String primitives that the scraper and the cleaner share: Python's character
 * classes, `lower()`, `strip()`, `split()`, `title()`, the regex substitution
 * `\s+` -> `' '`, substring tests and decimal digits.
 */
module Text {

  /** Python's `str.isspace()`; for a str pattern the regex class `\s` matches the same characters. */
  predicate IsSpace(c: char) {
    || ('\t' <= c <= '\r')
    || ('\U{1C}' <= c <= '\U{1F}')
    || c == ' ' || c == '\U{85}' || c == '\U{A0}' || c == '\U{1680}'
    || ('\U{2000}' <= c <= '\U{200A}')
    || c == '\U{2028}' || c == '\U{2029}' || c == '\U{202F}' || c == '\U{205F}' || c == '\U{3000}'
  }

  predicate IsDigit(c: char) { '0' <= c <= '9' }
  predicate IsUpper(c: char) { 'A' <= c <= 'Z' }
  predicate IsLowerLetter(c: char) { 'a' <= c <= 'z' }
  predicate IsLetter(c: char) { IsUpper(c) || IsLowerLetter(c) }

  /** The regex class `\w` (letters, digits, underscore), on ASCII. */
  predicate IsWordChar(c: char) { IsLetter(c) || IsDigit(c) || c == '_' }

  predicate AllDigits(s: string) { forall i :: 0 <= i < |s| ==> IsDigit(s[i]) }
  predicate AllWordChars(s: string) { forall i :: 0 <= i < |s| ==> IsWordChar(s[i]) }
  predicate AllSpaces(s: string) { forall i :: 0 <= i < |s| ==> IsSpace(s[i]) }
  predicate NoSpaces(s: string) { forall i :: 0 <= i < |s| ==> !IsSpace(s[i]) }

  /** A slice of an all-digit slice is all digits. */
  lemma AllDigitsSlice(s: string, i: nat, k: nat, j: nat)
    requires i <= k <= j <= |s| && AllDigits(s[i..j])
    ensures AllDigits(s[k..j])
  {
    forall m | 0 <= m < j - k ensures IsDigit(s[k..j][m]) {
      assert s[k..j][m] == s[i..j][m + k - i];
    }
  }

  function ToLowerChar(c: char): char { if IsUpper(c) then (c as int + 32) as char else c }
  function ToUpperChar(c: char): char { if IsLowerLetter(c) then (c as int - 32) as char else c }

  /** `s.lower()`. */
  function Lower(s: string): (r: string)
    ensures |r| == |s|
    ensures forall i :: 0 <= i < |s| ==> r[i] == ToLowerChar(s[i])
  {
    seq(|s|, i requires 0 <= i < |s| => ToLowerChar(s[i]))
  }

  lemma LowerIdempotent(s: string)
    ensures Lower(Lower(s)) == Lower(s)
  {
  }

  lemma LowerKeepsSpaces(s: string)
    ensures forall i :: 0 <= i < |s| ==> (IsSpace(Lower(s)[i]) <==> IsSpace(s[i]))
  {
  }

  lemma LowerConcat(a: string, b: string)
    ensures Lower(a + b) == Lower(a) + Lower(b)
  {
  }

  // ----- strip() -----

  function TrimLeft(s: string): (r: string)
    ensures |r| <= |s| && r == s[|s| - |r|..]
    ensures r == [] || !IsSpace(r[0])
    ensures forall i :: 0 <= i < |s| - |r| ==> IsSpace(s[i])
  {
    if s != [] && IsSpace(s[0]) then TrimLeft(s[1..]) else s
  }

  function TrimRight(s: string): (r: string)
    ensures |r| <= |s| && r == s[..|r|]
    ensures r == [] || !IsSpace(r[|r| - 1])
    ensures forall i :: |r| <= i < |s| ==> IsSpace(s[i])
  {
    if s != [] && IsSpace(s[|s| - 1]) then TrimRight(s[..|s| - 1]) else s
  }

  /** `s.strip()`. */
  function Strip(s: string): (r: string)
    ensures NoEdgeSpace(r)
  {
    TrimRight(TrimLeft(s))
  }

  predicate NoEdgeSpace(t: string) {
    t == [] || (!IsSpace(t[0]) && !IsSpace(t[|t| - 1]))
  }

  /** Every whitespace character is a plain space, and no two of them are adjacent. */
  predicate SingleSpaced(t: string) {
    forall i :: 0 <= i < |t| && IsSpace(t[i]) ==> t[i] == ' ' && (i + 1 < |t| ==> !IsSpace(t[i + 1]))
  }

  /** What `re.sub(r'\s+', ' ', s.strip())` can produce. */
  predicate Squashed(t: string) {
    NoEdgeSpace(t) && SingleSpaced(t)
  }

  lemma {:induction false} TrimLeftFixed(t: string)
    requires t == [] || !IsSpace(t[0])
    ensures TrimLeft(t) == t
  {
  }

  lemma {:induction false} StripFixed(t: string)
    requires NoEdgeSpace(t)
    ensures Strip(t) == t
  {
    TrimLeftFixed(t);
  }

  lemma StripOfAllSpaces(s: string)
    ensures Strip(s) == [] <==> AllSpaces(s)
  {
    var l := TrimLeft(s);
    if Strip(s) == [] {
      assert |l| == 0;
    } else {
      var k := |s| - |l|;
      assert !IsSpace(s[k]);
    }
  }

  // ----- re.sub(r'\s+', ' ', s) -----

  /** Replaces every maximal run of whitespace by one space, as `re.sub(r'\s+', ' ', s)` does. */
  function Collapse(s: string): (r: string)
    decreases |s|
  {
    if s == [] then []
    else if IsSpace(s[0]) then [' '] + Collapse(TrimLeft(s[1..]))
    else [s[0]] + Collapse(s[1..])
  }

  lemma CollapseStep(s: string)
    requires s != []
    ensures IsSpace(s[0]) ==> Collapse(s) == [' '] + Collapse(TrimLeft(s[1..]))
    ensures !IsSpace(s[0]) ==> Collapse(s) == [s[0]] + Collapse(s[1..])
  {
  }

  /** The output is empty exactly when the input is, and it starts with whitespace exactly when the input does. */
  lemma CollapseFirst(s: string)
    ensures |Collapse(s)| == 0 <==> |s| == 0
    ensures s != [] ==> (IsSpace(Collapse(s)[0]) <==> IsSpace(s[0]))
  {
    if s != [] {
      CollapseStep(s);
    }
  }

  lemma SpaceBeforeSingleSpaced(c: string)
    requires SingleSpaced(c) && (c == [] || !IsSpace(c[0]))
    ensures SingleSpaced([' '] + c)
  {
    var r := [' '] + c;
    forall i | 0 <= i < |r| && IsSpace(r[i]) ensures r[i] == ' ' && (i + 1 < |r| ==> !IsSpace(r[i + 1])) {
      if i > 0 {
        assert r[i] == c[i - 1];
      }
      if i + 1 < |r| {
        assert r[i + 1] == c[i];
      }
    }
  }

  lemma NonSpaceBeforeSingleSpaced(x: char, c: string)
    requires SingleSpaced(c) && !IsSpace(x)
    ensures SingleSpaced([x] + c)
  {
    var r := [x] + c;
    forall i | 0 <= i < |r| && IsSpace(r[i]) ensures r[i] == ' ' && (i + 1 < |r| ==> !IsSpace(r[i + 1])) {
      assert r[i] == c[i - 1];
      if i + 1 < |r| {
        assert r[i + 1] == c[i];
      }
    }
  }

  /** No whitespace character of the output but a plain space, and no two of them in a row. */
  lemma {:induction false} CollapseSingleSpaced(s: string)
    ensures SingleSpaced(Collapse(s))
    decreases |s|
  {
    if s != [] {
      CollapseStep(s);
      if IsSpace(s[0]) {
        var rest := TrimLeft(s[1..]);
        CollapseSingleSpaced(rest);
        CollapseFirst(rest);
        SpaceBeforeSingleSpaced(Collapse(rest));
      } else {
        CollapseSingleSpaced(s[1..]);
        NonSpaceBeforeSingleSpaced(s[0], Collapse(s[1..]));
      }
    }
  }

  lemma LastOfCons(x: char, c: string)
    requires c != []
    ensures ([x] + c)[|c|] == c[|c| - 1]
  {
  }

  /** A non-empty suffix ends where the whole does. */
  lemma SuffixLast(s: string, t: string)
    requires t != [] && |t| <= |s| && t == s[|s| - |t|..]
    ensures t[|t| - 1] == s[|s| - 1]
  {
  }

  /** A tail of whitespace only ends the whole in whitespace. */
  lemma SpacesTailLast(s: string)
    requires s != [] && IsSpace(s[0]) && AllSpaces(s[1..])
    ensures IsSpace(s[|s| - 1])
  {
    if |s| > 1 {
      assert s[|s| - 1] == s[1..][|s| - 2];
    }
  }

  /** The output ends with whitespace exactly when the input does. */
  lemma {:induction false} CollapseLast(s: string)
    requires s != []
    ensures Collapse(s) != [] && (IsSpace(Collapse(s)[|Collapse(s)| - 1]) <==> IsSpace(s[|s| - 1]))
    decreases |s|
  {
    CollapseStep(s);
    if IsSpace(s[0]) {
      var rest := TrimLeft(s[1..]);
      if rest == [] {
        assert AllSpaces(s[1..]);
        SpacesTailLast(s);
      } else {
        CollapseLast(rest);
        LastOfCons(' ', Collapse(rest));
        SuffixLast(s[1..], rest);
        SuffixLast(s, s[1..]);
      }
    } else if |s| == 1 {
      assert Collapse(s) == [s[0]];
    } else {
      CollapseLast(s[1..]);
      LastOfCons(s[0], Collapse(s[1..]));
      SuffixLast(s, s[1..]);
    }
  }

  lemma {:induction false} CollapseFixed(t: string)
    requires SingleSpaced(t)
    ensures Collapse(t) == t
    decreases |t|
  {
    if t != [] {
      assert SingleSpaced(t[1..]);
      if IsSpace(t[0]) {
        TrimLeftFixed(t[1..]);
      }
      CollapseFixed(t[1..]);
    }
  }

  /** `re.sub(r'\s+', ' ', s.strip())`. */
  function Squash(s: string): (r: string)
  {
    Collapse(Strip(s))
  }

  lemma SquashShape(s: string)
    ensures Squashed(Squash(s))
    ensures Squash(s) == [] <==> AllSpaces(s)
  {
    CollapseSingleSpaced(Strip(s));
    CollapseFirst(Strip(s));
    if Strip(s) != [] {
      CollapseLast(Strip(s));
    }
    StripOfAllSpaces(s);
  }

  lemma SquashFixed(t: string)
    requires Squashed(t)
    ensures Squash(t) == t
  {
    StripFixed(t);
    CollapseFixed(t);
  }

  lemma SquashIdempotent(s: string)
    ensures Squash(Squash(s)) == Squash(s)
  {
    SquashShape(s);
    SquashFixed(Squash(s));
  }

  // ----- split() -----

  function TakeWord(s: string): (w: string)
    ensures |w| <= |s| && w == s[..|w|]
    ensures NoSpaces(w)
    ensures |w| == |s| || IsSpace(s[|w|])
    ensures s != [] && !IsSpace(s[0]) ==> w != []
  {
    if s != [] && !IsSpace(s[0]) then [s[0]] + TakeWord(s[1..]) else []
  }

  /** A token that `split()` can produce. */
  predicate IsWord(w: string) {
    w != [] && NoSpaces(w)
  }

  /** `s.split()`: the maximal runs of non-whitespace characters, in order. */
  function Split(s: string): (words: seq<string>)
    decreases |s|
  {
    var t := TrimLeft(s);
    if t == [] then []
    else
      var w := TakeWord(t);
      [w] + Split(t[|w|..])
  }

  lemma FirstWordIsWord(s: string)
    requires TrimLeft(s) != []
    ensures IsWord(TakeWord(TrimLeft(s)))
  {
  }

  /** One step of `split()`: the first word, then the words of what follows it. */
  lemma SplitStep(s: string)
    requires TrimLeft(s) != []
    ensures var t := TrimLeft(s);
      Split(s) == [TakeWord(t)] + Split(t[|TakeWord(t)|..])
  {
  }

  lemma ConsWords(w: string, rest: seq<string>)
    requires IsWord(w)
    requires forall k :: 0 <= k < |rest| ==> IsWord(rest[k])
    ensures forall k :: 0 <= k < |[w] + rest| ==> IsWord(([w] + rest)[k])
  {
    forall k | 0 <= k < |[w] + rest| ensures IsWord(([w] + rest)[k]) {
      if k > 0 {
        assert ([w] + rest)[k] == rest[k - 1];
      }
    }
  }

  lemma {:induction false} SplitWords(s: string)
    ensures forall k :: 0 <= k < |Split(s)| ==> IsWord(Split(s)[k])
    decreases |s|
  {
    var t := TrimLeft(s);
    if t != [] {
      var w := TakeWord(t);
      var u := t[|w|..];
      SplitWords(u);
      FirstWordIsWord(s);
      SplitStep(s);
      ConsWords(w, Split(u));
    }
  }

  /** Every character of `a` occurs in `s`. */
  predicate CharsIn(a: string, s: string) {
    forall c :: c in a ==> c in s
  }

  lemma CharsInTrans(a: string, b: string, s: string)
    requires CharsIn(a, b) && CharsIn(b, s)
    ensures CharsIn(a, s)
  {
  }

  lemma ConsChars(w: string, rest: seq<string>, u: string, s: string)
    requires CharsIn(w, s) && CharsIn(u, s)
    requires forall k :: 0 <= k < |rest| ==> CharsIn(rest[k], u)
    ensures forall k :: 0 <= k < |[w] + rest| ==> CharsIn(([w] + rest)[k], s)
  {
    forall k | 0 <= k < |[w] + rest| ensures CharsIn(([w] + rest)[k], s) {
      if k > 0 {
        assert ([w] + rest)[k] == rest[k - 1];
        CharsInTrans(rest[k - 1], u, s);
      }
    }
  }

  /** Every character of every word of `split()` is a character of the input. */
  lemma {:induction false} SplitChars(s: string)
    ensures forall k :: 0 <= k < |Split(s)| ==> CharsIn(Split(s)[k], s)
    decreases |s|
  {
    var t := TrimLeft(s);
    if t != [] {
      var w := TakeWord(t);
      var u := t[|w|..];
      SplitChars(u);
      FirstWordChars(s);
      SplitStep(s);
      ConsChars(w, Split(u), u, s);
    }
  }

  lemma SliceCharsIn(s: string, a: nat, b: nat)
    requires a <= b <= |s|
    ensures CharsIn(s[a..b], s)
  {
    forall c | c in s[a..b] ensures c in s {
      var i :| 0 <= i < b - a && s[a..b][i] == c;
      assert s[a + i] == c;
    }
  }

  /** Both pieces of a cut of a suffix hold only characters of the whole. */
  lemma SuffixPiecesChars(s: string, t: string, n: nat)
    requires |t| <= |s| && t == s[|s| - |t|..] && n <= |t|
    ensures CharsIn(t[..n], s) && CharsIn(t[n..], s)
  {
    var d := |s| - |t|;
    assert t[..n] == s[d..d + n];
    assert t[n..] == s[d + n..];
    SliceCharsIn(s, d, d + n);
    SliceCharsIn(s, d + n, |s|);
  }

  /** The first word and the text after it hold only characters of the input. */
  lemma FirstWordChars(s: string)
    requires TrimLeft(s) != []
    ensures var t := TrimLeft(s);
      var w := TakeWord(t);
      CharsIn(w, s) && CharsIn(t[|w|..], s)
  {
    var t := TrimLeft(s);
    SuffixPiecesChars(s, t, |TakeWord(t)|);
  }

  lemma SplitEmpty(s: string)
    ensures Split(s) == [] <==> AllSpaces(s)
  {
    var t := TrimLeft(s);
    if t != [] {
      assert !IsSpace(s[|s| - |t|]);
    }
  }

  // ----- scanning helpers for the hand-written regex scanners -----

  /** Greedy `\s*` from `p`: the first position at or after `p` that is not whitespace. */
  function SkipSpaces(s: string, p: nat): (q: nat)
    requires p <= |s|
    ensures p <= q <= |s|
    ensures forall k :: p <= k < q ==> IsSpace(s[k])
    ensures q == |s| || !IsSpace(s[q])
    decreases |s| - p
  {
    if p < |s| && IsSpace(s[p]) then SkipSpaces(s, p + 1) else p
  }

  /** Greedy `\w+` from `p`: the end of the run of word characters that starts at `p`. */
  function WordEnd(s: string, p: nat): (q: nat)
    requires p <= |s|
    ensures p <= q <= |s|
    ensures forall k :: p <= k < q ==> IsWordChar(s[k])
    ensures q == |s| || !IsWordChar(s[q])
    decreases |s| - p
  {
    if p < |s| && IsWordChar(s[p]) then WordEnd(s, p + 1) else p
  }

  // ----- substring tests -----

  /** Python's `k in s` for strings. */
  predicate Contains(s: string, k: string) {
    exists i | 0 <= i <= |s| - |k| :: OccursAt(s, k, i)
  }

  predicate OccursAt(s: string, k: string, i: nat) {
    i + |k| <= |s| && s[i..i + |k|] == k
  }

  /** `s.startswith(p)`. */
  predicate StartsWith(s: string, p: string) {
    |p| <= |s| && s[..|p|] == p
  }

  // ----- title() -----

  /** `s.title()`: a letter is upper-cased when the character before it is not a letter, lower-cased otherwise. */
  function TitleCase(s: string): string {
    TitleFrom(s, false)
  }

  function TitleFrom(s: string, afterLetter: bool): (r: string)
    ensures |r| == |s|
  {
    if s == [] then []
    else if IsLetter(s[0]) then
      [if afterLetter then ToLowerChar(s[0]) else ToUpperChar(s[0])] + TitleFrom(s[1..], true)
    else [s[0]] + TitleFrom(s[1..], false)
  }

  // ----- decimal digits -----

  function DigitValue(c: char): nat
    requires IsDigit(c)
  {
    c as int - '0' as int
  }

  function DigitChar(d: nat): (c: char)
    requires d < 10
    ensures IsDigit(c) && DigitValue(c) == d
  {
    ('0' as int + d) as char
  }

  /** The value of a run of decimal digits, most significant first. */
  function DigitsValue(s: string): nat
    requires AllDigits(s)
  {
    if s == [] then 0 else DigitsValue(s[..|s| - 1]) * 10 + DigitValue(s[|s| - 1])
  }

  /** `str(n)` for a non-negative integer. */
  function NatToString(n: nat): (r: string)
    ensures r != [] && AllDigits(r)
  {
    if n < 10 then [DigitChar(n)] else NatToString(n / 10) + [DigitChar(n % 10)]
  }

  /** Reading back the digits of `str(n)` gives `n`, so `str` is injective on naturals. */
  lemma {:induction false} NatToStringRoundTrip(n: nat)
    ensures DigitsValue(NatToString(n)) == n
  {
    if n >= 10 {
      NatToStringRoundTrip(n / 10);
      var s := NatToString(n);
      assert s[..|s| - 1] == NatToString(n / 10);
    }
  }

  lemma NatToStringInjective(m: nat, n: nat)
    requires NatToString(m) == NatToString(n)
    ensures m == n
  {
    NatToStringRoundTrip(m);
    NatToStringRoundTrip(n);
  }

  /** `s.replace(',', '')`. */
  function RemoveCommas(s: string): (r: string)
    ensures |r| <= |s|
    ensures forall i :: 0 <= i < |r| ==> r[i] != ','
    ensures forall c :: c in r ==> c in s
  {
    if s == [] then []
    else if s[0] == ',' then RemoveCommas(s[1..])
    else [s[0]] + RemoveCommas(s[1..])
  }
}
