/**
 * `detect_duplicate_products` (src/scraper/utils.py): within each supplier, a
 * later row is flagged when an earlier row of that supplier that is not itself
 * flagged is similar enough to it.
 *
 * The source walks the suppliers, and inside each supplier compares every
 * unflagged row `i` with every later unflagged row `j`, setting the flag of `j`
 * in place. `Flagged` below states the outcome without that walk: a row is
 * flagged exactly when some earlier unflagged row of the same supplier scores at
 * least the threshold against it.
 */
module Duplicates {
  import opened Wrappers
  import opened Seqs
  import opened Similarity
  import opened Frames

  /** The exceptions the source can raise: a missing column (KeyError), or slicing a null title for the log line (TypeError). */
  datatype DupError = MissingColumn(column: Column) | TitleNotText

  /** `str(title)`: a null cell prints as "nan". */
  function TitleText(title: Option<string>): string {
    title.GetOr("nan")
  }

  /** `1 - |p1 - p2| / mean`, at least 0, when both prices are present and positive; 0 otherwise. */
  function PriceSimilarity(p1: Option<real>, p2: Option<real>): (r: real)
    ensures 0.0 <= r <= 1.0
  {
    if p1.Some? && p2.Some? && p1.value > 0.0 && p2.value > 0.0 then
      var diff := if p1.value >= p2.value then p1.value - p2.value else p2.value - p1.value;
      var mean := (p1.value + p2.value) / 2.0;
      assert diff / mean >= 0.0;
      var sim := 1.0 - diff / mean;
      if sim > 0.0 then sim else 0.0
    else 0.0
  }

  lemma PriceSimilaritySymmetric(p1: Option<real>, p2: Option<real>)
    ensures PriceSimilarity(p1, p2) == PriceSimilarity(p2, p1)
  {
  }

  /** Two equal positive prices are fully similar. */
  lemma PriceSimilarityEqual(p: real)
    requires p > 0.0
    ensures PriceSimilarity(Some(p), Some(p)) == 1.0
  {
  }

  /** `title_sim * 0.8 + price_sim * 0.2`. */
  function Score(a: Row, b: Row): (r: real)
    ensures 0.0 <= r <= 1.0
  {
    TextSimilarity(TitleText(a.title), TitleText(b.title)) * 0.8 + PriceSimilarity(a.numericPrice, b.numericPrice) * 0.2
  }

  /** Both rows have the same supplier, which is not null. */
  predicate SameSupplier(a: Row, b: Row) {
    a.supplierName.Some? && a.supplierName == b.supplierName
  }

  /** Row `j` is flagged. */
  predicate Flagged(rows: seq<Row>, threshold: real, j: nat)
    requires j < |rows|
    decreases j, 1
  {
    exists i: nat | i < j :: FlaggedBy(rows, threshold, i, j)
  }

  /** The unflagged row `i` of the same supplier flags the later row `j`. */
  predicate FlaggedBy(rows: seq<Row>, threshold: real, i: nat, j: nat)
    requires i < j < |rows|
    decreases j, 0
  {
    SameSupplier(rows[i], rows[j]) && !Flagged(rows, threshold, i) && Score(rows[i], rows[j]) >= threshold
  }

  /** The row that flags `j` first: the smallest `i` that flags it. */
  function FirstFlagger(rows: seq<Row>, threshold: real, j: nat): (i: nat)
    requires j < |rows| && Flagged(rows, threshold, j)
    ensures i < j && FlaggedBy(rows, threshold, i, j)
    ensures forall k: nat :: k < i ==> !FlaggedBy(rows, threshold, k, j)
  {
    var flags := (k: nat) => k < j && FlaggedBy(rows, threshold, k, j);
    FlagsWitness(rows, threshold, j, flags);
    LeastFrom(flags, 0, j)
  }

  lemma FlagsWitness(rows: seq<Row>, threshold: real, j: nat, flags: nat -> bool)
    requires j < |rows| && Flagged(rows, threshold, j)
    requires forall k: nat :: flags(k) == (k < j && FlaggedBy(rows, threshold, k, j))
    ensures exists k: nat | k < j :: flags(k)
  {
    var w: nat :| w < j && FlaggedBy(rows, threshold, w, j);
    assert flags(w);
  }

  /** The least `k` in `[lo, hi)` at which `p` holds, when there is one. */
  function LeastFrom(p: nat -> bool, lo: nat, hi: nat): (i: nat)
    requires exists k: nat | lo <= k < hi :: p(k)
    ensures lo <= i < hi && p(i)
    ensures forall k: nat :: lo <= k < i ==> !p(k)
    decreases hi - lo
  {
    if p(lo) then lo else LeastFrom(p, lo + 1, hi)
  }

  /** Flagging `j` writes a log line that slices both titles; a null title there raises. */
  predicate BadLog(rows: seq<Row>, threshold: real, j: nat)
    requires j < |rows|
  {
    Flagged(rows, threshold, j)
    && (rows[j].title.None? || rows[FirstFlagger(rows, threshold, j)].title.None?)
  }

  /** Some supplier has at least two rows, so at least one pair is compared. */
  predicate HasPair(rows: seq<Row>) {
    exists i: nat, j: nat :: i < j < |rows| && SameSupplier(rows[i], rows[j])
  }

  /** What `detect_duplicate_products` produces for rows with the given columns: the flags, or the exception it raises first. */
  function DetectSpec(rows: seq<Row>, threshold: real, hasSupplier: bool, hasTitle: bool, hasPrice: bool): (r: Result<seq<bool>, DupError>)
    ensures r.Success? ==> |r.value| == |rows|
  {
    if |rows| >= 2 && !hasSupplier then Failure(MissingColumn(SupplierName))
    else if !hasTitle && HasPair(rows) then Failure(MissingColumn(Title))
    else if !hasPrice && HasPair(rows) then Failure(MissingColumn(NumericPrice))
    else if exists k: nat | k < |rows| :: BadLog(rows, threshold, k) then Failure(TitleNotText)
    else Success(seq(|rows|, k requires 0 <= k < |rows| => Flagged(rows, threshold, k)))
  }

  // ----- properties of the flags -----

  /** A flagged row has an earlier row of the same supplier. */
  lemma FlaggedHasEarlierPartner(rows: seq<Row>, threshold: real, j: nat)
    requires j < |rows| && Flagged(rows, threshold, j)
    ensures exists i: nat :: i < j && SameSupplier(rows[i], rows[j])
  {
    var i: nat :| i < j && FlaggedBy(rows, threshold, i, j);
  }

  /** Rows with a null supplier, the first row of each supplier, and every row of a table with fewer than two rows are never flagged. */
  lemma NeverFlagged(rows: seq<Row>, threshold: real, j: nat)
    requires j < |rows|
    requires rows[j].supplierName.None? || |rows| < 2 || forall i: nat :: i < j ==> rows[i].supplierName != rows[j].supplierName
    ensures !Flagged(rows, threshold, j)
  {
    if Flagged(rows, threshold, j) {
      FlaggedHasEarlierPartner(rows, threshold, j);
    }
  }

  /** Two unflagged rows of the same supplier always score below the threshold, the earlier against the later. */
  lemma UnflaggedPairsAreDissimilar(rows: seq<Row>, threshold: real, i: nat, j: nat)
    requires i < j < |rows| && SameSupplier(rows[i], rows[j])
    requires !Flagged(rows, threshold, i) && !Flagged(rows, threshold, j)
    ensures Score(rows[i], rows[j]) < threshold
  {
    assert !FlaggedBy(rows, threshold, i, j);
  }

  /** A flagged row is flagged by an earlier unflagged row of its supplier whose score reaches the threshold. */
  lemma FlaggedHasWitness(rows: seq<Row>, threshold: real, j: nat)
    requires j < |rows| && Flagged(rows, threshold, j)
    ensures exists i: nat :: i < j && SameSupplier(rows[i], rows[j]) && !Flagged(rows, threshold, i)
                             && Score(rows[i], rows[j]) >= threshold
  {
    var i := FirstFlagger(rows, threshold, j);
  }

  // ----- the walk of the source -----

  /** The positions of the rows of one supplier, in order (`df[df['supplier_name'] == supplier]`). */
  function GroupOf(rows: seq<Row>, s: string): (g: seq<nat>)
    ensures forall x: nat :: x in g <==> x < |rows| && rows[x].supplierName == Some(s)
    ensures forall p :: 0 <= p < |g| ==> g[p] < |rows| && rows[g[p]].supplierName == Some(s)
    ensures Ascending(g)
  {
    GroupFrom(rows, s, 0)
  }

  function GroupFrom(rows: seq<Row>, s: string, from: nat): (g: seq<nat>)
    requires from <= |rows|
    ensures forall x: nat :: x in g <==> from <= x < |rows| && rows[x].supplierName == Some(s)
    ensures forall p :: 0 <= p < |g| ==> g[p] < |rows| && rows[g[p]].supplierName == Some(s)
    ensures Ascending(g)
    ensures forall p :: 0 <= p < |g| ==> from <= g[p]
    decreases |rows| - from
  {
    if from == |rows| then []
    else if rows[from].supplierName == Some(s) then [from] + GroupFrom(rows, s, from + 1)
    else GroupFrom(rows, s, from + 1)
  }

  predicate Ascending(g: seq<nat>) {
    forall p, q :: 0 <= p < q < |g| ==> g[p] < g[q]
  }

  /** In an ascending sequence, the elements below `g[a]` all come before position `a`. */
  lemma AscendingPrefix(g: seq<nat>, a: nat, x: nat)
    requires Ascending(g) && a <= |g| && x in g
    requires a == |g| || x < g[a]
    ensures x in g[..a]
  {
    var p :| 0 <= p < |g| && g[p] == x;
    assert forall q :: a <= q < |g| ==> g[a] <= g[q];
    assert g[..a][p] == x;
  }

  /** A supplier with at most one row: no other row has that supplier. */
  lemma SmallGroup(rows: seq<Row>, s: string, x: nat, y: nat)
    requires |GroupOf(rows, s)| < 2
    requires x < |rows| && y < |rows| && x != y && rows[y].supplierName == Some(s)
    ensures rows[x].supplierName != Some(s)
  {
    var g := GroupOf(rows, s);
    assert y in g;
    assert |g| == 1 && g[0] == y;
  }

  /** Some earlier row among `xs` flags `k`. */
  predicate FlaggedByAny(rows: seq<Row>, threshold: real, k: nat, xs: seq<nat>)
    requires k < |rows|
  {
    exists x: nat :: x in xs && x < k && FlaggedBy(rows, threshold, x, k)
  }

  /** Before the walk reaches row `g[a]`, the rows already walked hold every row that can flag a row not yet passed. */
  lemma GroupPrefixFlags(rows: seq<Row>, threshold: real, s: string, g: seq<nat>, a: nat, k: nat)
    requires g == GroupOf(rows, s) && a <= |g|
    requires k < |rows| && rows[k].supplierName == Some(s)
    requires a == |g| || k <= g[a]
    ensures FlaggedByAny(rows, threshold, k, g[..a]) == Flagged(rows, threshold, k)
  {
    if Flagged(rows, threshold, k) {
      var i := FirstFlagger(rows, threshold, k);
      assert i in g;
      AscendingPrefix(g, a, i);
    }
  }

  /** The rows of supplier `s` hold the flags that the rows `g[..a]` of the walk set, and none of them is a bad log line. */
  predicate GroupFlags(rows: seq<Row>, threshold: real, s: string, g: seq<nat>, flags: seq<bool>, a: nat)
    requires |flags| == |rows| && a <= |g|
  {
    forall k :: 0 <= k < |rows| && rows[k].supplierName == Some(s) ==>
      flags[k] == FlaggedByAny(rows, threshold, k, g[..a]) && (flags[k] ==> !BadLog(rows, threshold, k))
  }

  /** One supplier's pass of the nested loops over the flags array. */
  method FlagGroup(rows: seq<Row>, threshold: real, hasTitle: bool, hasPrice: bool, flags: array<bool>, s: string)
    returns (err: Option<DupError>)
    requires flags.Length == |rows|
    requires forall k :: 0 <= k < |rows| && rows[k].supplierName == Some(s) ==> !flags[k]
    modifies flags
    ensures forall k :: 0 <= k < |rows| && rows[k].supplierName != Some(s) ==> flags[k] == old(flags[k])
    ensures err.None? ==> forall k :: 0 <= k < |rows| && rows[k].supplierName == Some(s) ==>
              flags[k] == Flagged(rows, threshold, k) && !BadLog(rows, threshold, k)
    ensures err.None? && !(hasTitle && hasPrice) ==> |GroupOf(rows, s)| < 2
    ensures err.Some? ==> |GroupOf(rows, s)| >= 2
    ensures err == Some(MissingColumn(Title)) ==> !hasTitle
    ensures err == Some(MissingColumn(NumericPrice)) ==> hasTitle && !hasPrice
    ensures err == Some(TitleNotText) ==> hasTitle && hasPrice && exists k: nat | k < |rows| :: BadLog(rows, threshold, k)
    ensures err.Some? ==> err.value in {MissingColumn(Title), MissingColumn(NumericPrice), TitleNotText}
  {
    err := None;
    var g := GroupOf(rows, s);
    if |g| < 2 {
      forall k | 0 <= k < |rows| && rows[k].supplierName == Some(s)
        ensures !Flagged(rows, threshold, k)
      {
        forall i: nat | i < k ensures rows[i].supplierName != rows[k].supplierName {
          SmallGroup(rows, s, i, k);
        }
        NeverFlagged(rows, threshold, k);
      }
      return None;
    }
    var a := 0;
    while a < |g|
      invariant 0 <= a <= |g|
      invariant forall k :: 0 <= k < |rows| && rows[k].supplierName != Some(s) ==> flags[k] == old(flags[k])
      invariant GroupFlags(rows, threshold, s, g, flags[..], a)
      invariant a > 0 ==> hasTitle && hasPrice
      invariant err.None?
    {
      var i := g[a];
      GroupPrefixFlags(rows, threshold, s, g, a, i);
      if flags[i] {
        SkipFlaggedRow(rows, threshold, s, g, flags[..], a);
        a := a + 1;
        continue;
      }
      err := CompareLater(rows, threshold, hasTitle, hasPrice, flags, s, g, a);
      if err.Some? {
        return;
      }
      a := a + 1;
    }
    forall k | 0 <= k < |rows| && rows[k].supplierName == Some(s)
      ensures flags[k] == Flagged(rows, threshold, k)
    {
      GroupPrefixFlags(rows, threshold, s, g, |g|, k);
    }
  }

  /** A row that is already flagged when the walk reaches it flags nothing. */
  lemma SkipFlaggedRow(rows: seq<Row>, threshold: real, s: string, g: seq<nat>, flags: seq<bool>, a: nat)
    requires g == GroupOf(rows, s) && a < |g| && |flags| == |rows|
    requires GroupFlags(rows, threshold, s, g, flags, a) && flags[g[a]]
    ensures GroupFlags(rows, threshold, s, g, flags, a + 1)
  {
    var i := g[a];
    GroupPrefixFlags(rows, threshold, s, g, a, i);
    assert Flagged(rows, threshold, i);
    PrefixSnoc(g, a);
    forall k | 0 <= k < |rows| && rows[k].supplierName == Some(s)
      ensures FlaggedByAny(rows, threshold, k, g[..a + 1]) == FlaggedByAny(rows, threshold, k, g[..a])
    {
      PrefixExtend(rows, threshold, k, g[..a], g[..a + 1], i);
    }
  }

  /** Adding one more row to the walked prefix adds exactly what that row flags. */
  lemma PrefixExtend(rows: seq<Row>, threshold: real, k: nat, xs: seq<nat>, ys: seq<nat>, x: nat)
    requires k < |rows|
    requires forall y :: y in ys <==> y in xs || y == x
    ensures FlaggedByAny(rows, threshold, k, ys) == (FlaggedByAny(rows, threshold, k, xs) || (x < k && FlaggedBy(rows, threshold, x, k)))
  {
    if x < k && FlaggedBy(rows, threshold, x, k) {
      assert x in ys;
    }
    if FlaggedByAny(rows, threshold, k, ys) {
      var y: nat :| y in ys && y < k && FlaggedBy(rows, threshold, y, k);
      if y != x {
        assert y in xs;
      }
    }
  }

  /** The inner loop: the unflagged row `g[a]` against every later unflagged row of its supplier. */
  method CompareLater(rows: seq<Row>, threshold: real, hasTitle: bool, hasPrice: bool, flags: array<bool>, s: string, g: seq<nat>, a: nat)
    returns (err: Option<DupError>)
    requires g == GroupOf(rows, s) && 2 <= |g| && a < |g| && flags.Length == |rows|
    requires GroupFlags(rows, threshold, s, g, flags[..], a)
    requires !flags[g[a]] && !Flagged(rows, threshold, g[a])
    requires a > 0 ==> hasTitle && hasPrice
    modifies flags
    ensures forall k :: 0 <= k < |rows| && rows[k].supplierName != Some(s) ==> flags[k] == old(flags[k])
    ensures err.None? ==> GroupFlags(rows, threshold, s, g, flags[..], a + 1) && hasTitle && hasPrice
    ensures err == Some(MissingColumn(Title)) ==> !hasTitle
    ensures err == Some(MissingColumn(NumericPrice)) ==> hasTitle && !hasPrice
    ensures err == Some(TitleNotText) ==> hasTitle && hasPrice && exists k: nat | k < |rows| :: BadLog(rows, threshold, k)
    ensures err.Some? ==> err.value in {MissingColumn(Title), MissingColumn(NumericPrice), TitleNotText}
  {
    err := None;
    var i := g[a];
    InnerStart(rows, threshold, s, g, flags[..], a);
    var b := 0;
    while b < |g|
      invariant 0 <= b <= |g|
      invariant !flags[i]
      invariant forall k :: 0 <= k < |rows| && rows[k].supplierName != Some(s) ==> flags[k] == old(flags[k])
      invariant InnerFlags(rows, threshold, s, g, flags[..], a, b)
      invariant a > 0 || b > 1 ==> hasTitle && hasPrice
    {
      var j := g[b];
      if a == 0 && b == 1 {
        InnerFirstPair(rows, threshold, s, g, flags[..]);
      }
      if i >= j || flags[j] {
        InnerSkip(rows, threshold, s, g, flags[..], a, b);
        b := b + 1;
        continue;
      }
      if !hasTitle {
        return Some(MissingColumn(Title));
      }
      if !hasPrice {
        return Some(MissingColumn(NumericPrice));
      }
      if Score(rows[i], rows[j]) >= threshold {
        ghost var before := flags[..];
        InnerFlag(rows, threshold, s, g, before, a, b);
        flags[j] := true;
        assert flags[..] == before[j := true];
        if rows[i].title.None? || rows[j].title.None? {
          assert BadLog(rows, threshold, j);
          return Some(TitleNotText);
        }
      } else {
        InnerSkip(rows, threshold, s, g, flags[..], a, b);
      }
      b := b + 1;
    }
    InnerDone(rows, threshold, s, g, flags[..], a);
  }

  /** The flags while row `g[a]` is compared with the rows `g[..b]`. */
  predicate InnerFlags(rows: seq<Row>, threshold: real, s: string, g: seq<nat>, flags: seq<bool>, a: nat, b: nat)
    requires |flags| == |rows| && a < |g| && b <= |g|
  {
    forall k :: 0 <= k < |rows| && rows[k].supplierName == Some(s) ==> InnerFlagAt(rows, threshold, g, flags, a, b, k)
  }

  /** The inner-walk flag of one row `k`. */
  predicate InnerFlagAt(rows: seq<Row>, threshold: real, g: seq<nat>, flags: seq<bool>, a: nat, b: nat, k: nat)
    requires |flags| == |rows| && a < |g| && b <= |g| && k < |rows|
  {
    flags[k] == (FlaggedByAny(rows, threshold, k, g[..a]) || (k in g[..b] && g[a] < k && FlaggedBy(rows, threshold, g[a], k)))
    && (flags[k] ==> !BadLog(rows, threshold, k))
  }

  lemma InnerStart(rows: seq<Row>, threshold: real, s: string, g: seq<nat>, flags: seq<bool>, a: nat)
    requires |flags| == |rows| && a < |g|
    requires GroupFlags(rows, threshold, s, g, flags, a)
    ensures InnerFlags(rows, threshold, s, g, flags, a, 0)
  {
  }

  /** The first comparison of the walk, `g[0]` against `g[1]`, always happens. */
  lemma InnerFirstPair(rows: seq<Row>, threshold: real, s: string, g: seq<nat>, flags: seq<bool>)
    requires g == GroupOf(rows, s) && 2 <= |g| && |flags| == |rows| && InnerFlags(rows, threshold, s, g, flags, 0, 1)
    ensures g[0] < g[1] && !flags[g[1]]
  {
    assert g[..1] == [g[0]];
    assert g[..0] == [];
  }

  /** A row the walk does not flag: skipped (not later, or already flagged) or scored below the threshold. */
  lemma InnerSkip(rows: seq<Row>, threshold: real, s: string, g: seq<nat>, flags: seq<bool>, a: nat, b: nat)
    requires |flags| == |rows| && a < |g| && b < |g| && g[b] < |rows|
    requires InnerFlags(rows, threshold, s, g, flags, a, b)
    requires g[a] >= g[b] || flags[g[b]] || !FlaggedBy(rows, threshold, g[a], g[b])
    ensures InnerFlags(rows, threshold, s, g, flags, a, b + 1)
  {
    PrefixSnoc(g, b);
    forall k | 0 <= k < |rows| && rows[k].supplierName == Some(s)
      ensures InnerFlagAt(rows, threshold, g, flags, a, b + 1, k)
    {
      InnerSkipAt(rows, threshold, g, flags, a, b, k);
    }
  }

  lemma InnerSkipAt(rows: seq<Row>, threshold: real, g: seq<nat>, flags: seq<bool>, a: nat, b: nat, k: nat)
    requires |flags| == |rows| && a < |g| && b < |g| && g[b] < |rows| && k < |rows|
    requires InnerFlagAt(rows, threshold, g, flags, a, b, k)
    requires g[a] >= g[b] || flags[g[b]] || !FlaggedBy(rows, threshold, g[a], g[b])
    requires forall x :: x in g[..b + 1] <==> x in g[..b] || x == g[b]
    ensures InnerFlagAt(rows, threshold, g, flags, a, b + 1, k)
  {
  }

  /** The prefix of length `b + 1` holds the prefix of length `b` and `g[b]`. */
  lemma PrefixSnoc(g: seq<nat>, b: nat)
    requires b < |g|
    ensures forall x :: x in g[..b + 1] <==> x in g[..b] || x == g[b]
  {
    assert g[..b + 1] == g[..b] + [g[b]];
  }

  /** A row the walk flags: `g[a]` is the first row to flag it. */
  lemma InnerFlag(rows: seq<Row>, threshold: real, s: string, g: seq<nat>, flags: seq<bool>, a: nat, b: nat)
    requires g == GroupOf(rows, s) && |flags| == |rows| && a < |g| && b < |g|
    requires InnerFlags(rows, threshold, s, g, flags, a, b)
    requires g[a] < g[b] && !flags[g[b]] && !Flagged(rows, threshold, g[a])
    requires Score(rows[g[a]], rows[g[b]]) >= threshold
    ensures Flagged(rows, threshold, g[b]) && FirstFlagger(rows, threshold, g[b]) == g[a]
    ensures rows[g[a]].title.Some? && rows[g[b]].title.Some? ==> InnerFlags(rows, threshold, s, g, flags[g[b] := true], a, b + 1)
  {
    var i, j := g[a], g[b];
    assert FlaggedBy(rows, threshold, i, j);
    assert !FlaggedByAny(rows, threshold, j, g[..a]);
    FirstFlaggerOfGroupRow(rows, threshold, s, g, a, i, j);
    PrefixSnoc(g, b);
  }

  /** After the inner loop, row `g[a]` counts as walked. */
  lemma InnerDone(rows: seq<Row>, threshold: real, s: string, g: seq<nat>, flags: seq<bool>, a: nat)
    requires g == GroupOf(rows, s) && |flags| == |rows| && a < |g|
    requires InnerFlags(rows, threshold, s, g, flags, a, |g|)
    ensures GroupFlags(rows, threshold, s, g, flags, a + 1)
  {
    assert g[..|g|] == g;
    PrefixSnoc(g, a);
    forall k | 0 <= k < |rows| && rows[k].supplierName == Some(s)
      ensures FlaggedByAny(rows, threshold, k, g[..a + 1]) == (FlaggedByAny(rows, threshold, k, g[..a]) || (g[a] < k && FlaggedBy(rows, threshold, g[a], k)))
    {
      PrefixExtend(rows, threshold, k, g[..a], g[..a + 1], g[a]);
    }
  }

  /** When the walk first compares the unflagged `g[a]` with a `j` that nothing walked so far has flagged, `g[a]` is the first row to flag `j`. */
  lemma FirstFlaggerOfGroupRow(rows: seq<Row>, threshold: real, s: string, g: seq<nat>, a: nat, i: nat, j: nat)
    requires g == GroupOf(rows, s) && a < |g| && i == g[a]
    requires i < j < |rows| && rows[j].supplierName == Some(s)
    requires !FlaggedByAny(rows, threshold, j, g[..a]) && FlaggedBy(rows, threshold, i, j)
    ensures Flagged(rows, threshold, j) && FirstFlagger(rows, threshold, j) == i
  {
    forall i': nat | i' < i ensures !FlaggedBy(rows, threshold, i', j) {
      if SameSupplier(rows[i'], rows[j]) {
        assert i' in g;
        AscendingPrefix(g, a, i');
      }
    }
    var f := FirstFlagger(rows, threshold, j);
    assert !(f < i) && !(i < f);
  }

  /** The supplier walk of `detect_duplicate_products` over a flags array, after the check for fewer than two rows. */
  method DuplicateFlags(rows: seq<Row>, threshold: real, hasSupplier: bool, hasTitle: bool, hasPrice: bool)
    returns (r: Result<seq<bool>, DupError>)
    ensures r == DetectSpec(rows, threshold, hasSupplier, hasTitle, hasPrice)
  {
    var n := |rows|;
    if n < 2 {
      SmallTable(rows, threshold, hasSupplier, hasTitle, hasPrice);
      return Success(seq(n, k requires 0 <= k < n => false));
    }
    if !hasSupplier {
      return Failure(MissingColumn(SupplierName));
    }
    var flags := new bool[n](_ => false);
    var column := seq(n, k requires 0 <= k < n => rows[k].supplierName);
    var suppliers := Unique(column);
    var u := 0;
    while u < |suppliers|
      invariant 0 <= u <= |suppliers|
      invariant forall k :: 0 <= k < n ==> flags[k] == (rows[k].supplierName in suppliers[..u] && Flagged(rows, threshold, k))
      invariant forall k :: 0 <= k < n && flags[k] ==> !BadLog(rows, threshold, k)
      invariant !(hasTitle && hasPrice) ==> forall s :: Some(s) in suppliers[..u] ==> |GroupOf(rows, s)| < 2
    {
      var supplier := suppliers[u];
      assert suppliers[..u + 1] == suppliers[..u] + [supplier];
      if supplier.None? {
        forall k | 0 <= k < n && rows[k].supplierName.None? ensures !Flagged(rows, threshold, k) {
          NeverFlagged(rows, threshold, k);
        }
        u := u + 1;
        continue;
      }
      assert supplier !in suppliers[..u];
      var err := FlagGroup(rows, threshold, hasTitle, hasPrice, flags, supplier.value);
      if err.Some? {
        PairInGroup(rows, supplier.value);
        return Failure(err.value);
      }
      u := u + 1;
    }
    forall k | 0 <= k < n ensures rows[k].supplierName in suppliers {
      assert column[k] == rows[k].supplierName;
    }
    AllGroupsWalked(rows, threshold, hasTitle, hasPrice, flags[..], suppliers);
    r := Success(flags[..]);
  }

  /** Two identical rows with a supplier, a title with a word and a positive price: only the second is flagged. */
  lemma TwoIdenticalRows(r: Row, threshold: real)
    requires r.supplierName.Some? && r.title.Some? && !Text.AllSpaces(r.title.value)
    requires r.numericPrice.Some? && r.numericPrice.value > 0.0
    requires threshold <= 1.0
    ensures DetectSpec([r, r], threshold, true, true, true) == Success([false, true])
  {
    var rows := [r, r];
    SelfSimilarity(r.title.value);
    PriceSimilarityEqual(r.numericPrice.value);
    NeverFlagged(rows, threshold, 0);
    assert FlaggedBy(rows, threshold, 0, 1);
    assert FirstFlagger(rows, threshold, 1) == 0;
    assert !BadLog(rows, threshold, 0) && !BadLog(rows, threshold, 1);
    assert forall k: nat | k < |rows| :: !BadLog(rows, threshold, k);
    assert seq(|rows|, k requires 0 <= k < |rows| => Flagged(rows, threshold, k)) == [false, true];
  }

  /** Fewer than two rows: nothing is compared. */
  lemma SmallTable(rows: seq<Row>, threshold: real, hasSupplier: bool, hasTitle: bool, hasPrice: bool)
    requires |rows| < 2
    ensures DetectSpec(rows, threshold, hasSupplier, hasTitle, hasPrice) == Success(seq(|rows|, k requires 0 <= k < |rows| => false))
  {
    forall k | 0 <= k < |rows| ensures !Flagged(rows, threshold, k) && !BadLog(rows, threshold, k) {
      NeverFlagged(rows, threshold, k);
    }
    assert !HasPair(rows);
    assert seq(|rows|, k requires 0 <= k < |rows| => Flagged(rows, threshold, k)) == seq(|rows|, k requires 0 <= k < |rows| => false);
  }

  /** Once every supplier has been walked without an exception, the flags are the specified ones. */
  lemma AllGroupsWalked(rows: seq<Row>, threshold: real, hasTitle: bool, hasPrice: bool, flags: seq<bool>, suppliers: seq<Option<string>>)
    requires |rows| >= 2 && |flags| == |rows|
    requires forall k :: 0 <= k < |rows| ==> rows[k].supplierName in suppliers
    requires forall k :: 0 <= k < |rows| ==> flags[k] == (rows[k].supplierName in suppliers && Flagged(rows, threshold, k))
    requires forall k :: 0 <= k < |rows| && flags[k] ==> !BadLog(rows, threshold, k)
    requires !(hasTitle && hasPrice) ==> forall s :: Some(s) in suppliers ==> |GroupOf(rows, s)| < 2
    ensures DetectSpec(rows, threshold, true, hasTitle, hasPrice) == Success(flags)
  {
    assert suppliers[..|suppliers|] == suppliers;
    if !(hasTitle && hasPrice) && HasPair(rows) {
      var i: nat, j: nat :| i < j < |rows| && SameSupplier(rows[i], rows[j]);
      SmallGroup(rows, rows[i].supplierName.value, i, j);
    }
    assert !(exists k: nat | k < |rows| :: BadLog(rows, threshold, k));
    assert flags == seq(|rows|, k requires 0 <= k < |rows| => Flagged(rows, threshold, k));
  }

  /** A supplier with two rows makes a pair. */
  lemma PairInGroup(rows: seq<Row>, s: string)
    ensures |GroupOf(rows, s)| >= 2 ==> HasPair(rows)
  {
    var g := GroupOf(rows, s);
    if |g| >= 2 {
      assert SameSupplier(rows[g[0]], rows[g[1]]);
    }
  }

  /**
   * `detect_duplicate_products` on a frame. With fewer than two rows it adds the
   * column to the frame it was given and returns that same frame; otherwise it
   * flags a copy.
   */
  method DetectDuplicateProducts(df: Frame, threshold: real) returns (r: Result<Frame, DupError>)
    modifies df
    ensures |old(df.rows)| < 2 ==>
              && r == Success(df) && df.columns == old(df.columns) + {IsDuplicate}
              && df.rows == seq(|old(df.rows)|, k requires 0 <= k < |old(df.rows)| => old(df.rows)[k].(isDuplicate := false))
    ensures |old(df.rows)| >= 2 ==> df.columns == old(df.columns) && df.rows == old(df.rows)
    ensures |old(df.rows)| >= 2 ==>
              var rows := df.rows;
              var spec := DetectSpec(rows, threshold, SupplierName in df.columns, Title in df.columns, NumericPrice in df.columns);
              && r.Success? == spec.Success?
              && (r.Failure? ==> r.error == spec.error)
              && (r.Success? ==> fresh(r.value) && r.value.columns == df.columns + {IsDuplicate}
                                 && r.value.rows == seq(|rows|, k requires 0 <= k < |rows| => rows[k].(isDuplicate := spec.value[k])))
  {
    var rows := df.rows;
    if |rows| < 2 {
      df.columns := df.columns + {IsDuplicate};
      df.rows := seq(|rows|, k requires 0 <= k < |rows| => rows[k].(isDuplicate := false));
      return Success(df);
    }
    var flags := DuplicateFlags(rows, threshold, SupplierName in df.columns, Title in df.columns, NumericPrice in df.columns);
    if flags.Failure? {
      return Failure(flags.error);
    }
    var out := new Frame(df.columns + {IsDuplicate}, seq(|rows|, k requires 0 <= k < |rows| => rows[k].(isDuplicate := flags.value[k])));
    return Success(out);
  }
}
