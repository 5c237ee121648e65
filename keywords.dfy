/**
 * `extract_keywords_from_title` (src/scraper/utils.py): the lowercased title
 * with punctuation turned into spaces, split into words, keeping the words that
 * are long enough and are not stop words.
 */
module Keywords {
  import opened Text
  import opened Seqs

  const StopWords: set<string> := {
    "and", "or", "the", "a", "an", "in", "on", "at", "to", "for",
    "of", "with", "by", "from", "as", "is", "are", "was", "were",
    "be", "been", "have", "has", "had", "do", "does", "did", "will",
    "would", "could", "should", "can", "may", "might", "must", "shall"
  }

  /** `re.sub(r'[^\w\s]', ' ', s)`: every character that is neither a word character nor whitespace becomes a space. */
  function ReplacePunctuation(s: string): (r: string)
    ensures |r| == |s|
  {
    seq(|s|, i requires 0 <= i < |s| => if IsWordChar(s[i]) || IsSpace(s[i]) then s[i] else ' ')
  }

  /** Only word characters and whitespace remain, and those are kept where they were. */
  lemma ReplacePunctuationKeeps(s: string)
    ensures forall c :: c in ReplacePunctuation(s) ==> IsWordChar(c) || IsSpace(c)
    ensures forall i :: 0 <= i < |s| && (IsWordChar(s[i]) || IsSpace(s[i])) ==> ReplacePunctuation(s)[i] == s[i]
  {
  }

  /** The filter of the list comprehension. */
  predicate IsKeyword(w: string, minLength: int) {
    |w| >= minLength && w !in StopWords
  }

  function KeepKeywords(words: seq<string>, minLength: int): seq<string>
  {
    if words == [] then []
    else if IsKeyword(words[0], minLength) then [words[0]] + KeepKeywords(words[1..], minLength)
    else KeepKeywords(words[1..], minLength)
  }

  /** Every kept word passes the filter. */
  lemma {:induction false} KeepKeywordsSound(words: seq<string>, minLength: int)
    ensures forall k :: 0 <= k < |KeepKeywords(words, minLength)| ==> IsKeyword(KeepKeywords(words, minLength)[k], minLength)
    decreases |words|
  {
    if words != [] {
      KeepKeywordsSound(words[1..], minLength);
      var rest := KeepKeywords(words[1..], minLength);
      if IsKeyword(words[0], minLength) {
        forall k | 0 <= k < |rest| + 1 ensures IsKeyword(([words[0]] + rest)[k], minLength) {
          if k > 0 { assert ([words[0]] + rest)[k] == rest[k - 1]; }
        }
      }
    }
  }

  /** The kept words are an order-preserving subsequence of the words. */
  lemma {:induction false} KeepKeywordsIsSubsequence(words: seq<string>, minLength: int)
    ensures IsSubsequence(KeepKeywords(words, minLength), words)
    decreases |words|
  {
    if words != [] {
      KeepKeywordsIsSubsequence(words[1..], minLength);
      var rest := KeepKeywords(words[1..], minLength);
      if IsKeyword(words[0], minLength) {
        assert ([words[0]] + rest)[1..] == rest;
      } else {
        KeepKeywordsSound(words[1..], minLength);
      }
    }
  }

  /** Each word is kept as often as it occurs when it passes the filter, and never otherwise. */
  lemma {:induction false} KeepKeywordsCounts(words: seq<string>, minLength: int)
    ensures forall w :: multiset(KeepKeywords(words, minLength))[w] == if IsKeyword(w, minLength) then multiset(words)[w] else 0
    decreases |words|
  {
    if words != [] {
      KeepKeywordsCounts(words[1..], minLength);
      assert words == [words[0]] + words[1..];
    }
  }

  /** `extract_keywords_from_title`. */
  function ExtractKeywords(title: string, minLength: int): (keywords: seq<string>)
  {
    if title == "" then [] else KeepKeywords(Split(ReplacePunctuation(Lower(title))), minLength)
  }

  /** The words of the cleaned title, which the keywords are drawn from. */
  function TitleWords(title: string): seq<string> {
    Split(ReplacePunctuation(Lower(title)))
  }

  /**
   * The keywords are, in order, exactly the words of the cleaned title that pass
   * the filter: a subsequence, with every passing word kept as often as it occurs.
   */
  lemma ExtractKeywordsSpec(title: string, minLength: int)
    ensures title == "" ==> ExtractKeywords(title, minLength) == []
    ensures title != "" ==> IsSubsequence(ExtractKeywords(title, minLength), TitleWords(title))
    ensures title != "" ==> forall w :: (multiset(ExtractKeywords(title, minLength))[w] ==
              if IsKeyword(w, minLength) then multiset(TitleWords(title))[w] else 0)
  {
    if title != "" {
      KeepKeywordsIsSubsequence(TitleWords(title), minLength);
      KeepKeywordsCounts(TitleWords(title), minLength);
    }
  }

  /** A character of the cleaned title that is not whitespace is a lower-case word character. */
  lemma CleanedChar(title: string, c: char)
    requires c in ReplacePunctuation(Lower(title)) && !IsSpace(c)
    ensures IsWordChar(c) && !IsUpper(c)
  {
    var s := Lower(title);
    var i :| 0 <= i < |s| && ReplacePunctuation(s)[i] == c;
    assert c == s[i];
  }

  /** A word of the cleaned title is a non-empty run of lower-case word characters. */
  lemma TitleWordShape(title: string, w: string)
    requires w in TitleWords(title)
    ensures w != [] && forall c :: c in w ==> IsWordChar(c) && !IsUpper(c)
  {
    var cleaned := ReplacePunctuation(Lower(title));
    var words := Split(cleaned);
    var j :| 0 <= j < |words| && words[j] == w;
    SplitWords(cleaned);
    SplitChars(cleaned);
    assert IsWord(w) && CharsIn(w, cleaned);
    forall c | c in w ensures IsWordChar(c) && !IsUpper(c) {
      var i :| 0 <= i < |w| && w[i] == c;
      assert !IsSpace(c);
      CleanedChar(title, c);
    }
  }

  /** Every keyword passes the filter and is a non-empty run of lower-case word characters. */
  lemma ExtractKeywordsShape(title: string, minLength: int)
    ensures forall k :: 0 <= k < |ExtractKeywords(title, minLength)| ==>
              var w := ExtractKeywords(title, minLength)[k];
              IsKeyword(w, minLength) && w != [] && forall c :: c in w ==> IsWordChar(c) && !IsUpper(c)
  {
    if title != "" {
      var words := TitleWords(title);
      var keywords := ExtractKeywords(title, minLength);
      KeepKeywordsCounts(words, minLength);
      forall k | 0 <= k < |keywords|
        ensures var w := keywords[k]; IsKeyword(w, minLength) && w != [] && forall c :: c in w ==> IsWordChar(c) && !IsUpper(c)
      {
        var w := keywords[k];
        assert w in multiset(keywords);
        assert IsKeyword(w, minLength) && w in multiset(words);
        TitleWordShape(title, w);
      }
    }
  }
}
