/**
 * `calculate_text_similarity` (src/scraper/utils.py): the Jaccard index of the
 * sets of lowercased whitespace-separated words of two texts.
 */
module Similarity {
  import opened Text
  import opened Seqs

  /** `set(text.lower().split())`. */
  function WordSet(text: string): set<string> {
    Elements(Split(Lower(text)))
  }

  /** A subset has at most as many elements as its superset. */
  lemma {:induction false} SubsetCardinality<T>(a: set<T>, b: set<T>)
    requires a <= b
    ensures |a| <= |b|
    decreases |a|
  {
    if a != {} {
      var x :| x in a;
      SubsetCardinality(a - {x}, b - {x});
    }
  }

  /** Size of the intersection over size of the union, or 0 when the union is empty. */
  function Jaccard(a: set<string>, b: set<string>): (r: real)
    ensures 0.0 <= r <= 1.0
  {
    SubsetCardinality(a * b, a + b);
    if |a + b| > 0 then |a * b| as real / |a + b| as real else 0.0
  }

  /** `calculate_text_similarity`: an empty text is similar to nothing. */
  function TextSimilarity(text1: string, text2: string): (r: real)
    ensures 0.0 <= r <= 1.0
    ensures text1 == "" || text2 == "" ==> r == 0.0
  {
    if text1 == "" || text2 == "" then 0.0 else Jaccard(WordSet(text1), WordSet(text2))
  }

  lemma JaccardSymmetric(a: set<string>, b: set<string>)
    ensures Jaccard(a, b) == Jaccard(b, a)
  {
    assert a * b == b * a && a + b == b + a;
  }

  lemma JaccardSelf(a: set<string>)
    requires a != {}
    ensures Jaccard(a, a) == 1.0
  {
    assert a * a == a && a + a == a;
  }

  lemma JaccardEmpty(a: set<string>, b: set<string>)
    requires a == {}
    ensures Jaccard(a, b) == 0.0
  {
    assert a * b == {};
  }

  lemma TextSimilaritySymmetric(text1: string, text2: string)
    ensures TextSimilarity(text1, text2) == TextSimilarity(text2, text1)
  {
    JaccardSymmetric(WordSet(text1), WordSet(text2));
  }

  /** Lowercasing keeps whitespace where it is, so a text has a word exactly when its lowercased form has one. */
  lemma WordSetEmpty(text: string)
    ensures WordSet(text) == {} <==> AllSpaces(text)
  {
    var low := Lower(text);
    LowerKeepsSpaces(text);
    SplitEmpty(low);
    if !AllSpaces(text) {
      var i :| 0 <= i < |text| && !IsSpace(text[i]);
      assert !IsSpace(low[i]);
      assert Split(low)[0] in WordSet(text);
    }
  }

  /** A text with at least one word is fully similar to itself. */
  lemma SelfSimilarity(text: string)
    requires !AllSpaces(text)
    ensures TextSimilarity(text, text) == 1.0
  {
    WordSetEmpty(text);
    JaccardSelf(WordSet(text));
  }

  /** A text made only of whitespace has no words, so it is similar to nothing. */
  lemma WhitespaceOnlySimilarity(text1: string, text2: string)
    requires AllSpaces(text1)
    ensures TextSimilarity(text1, text2) == 0.0 && TextSimilarity(text2, text1) == 0.0
  {
    WordSetEmpty(text1);
    JaccardEmpty(WordSet(text1), WordSet(text2));
    JaccardSymmetric(WordSet(text1), WordSet(text2));
  }
}
