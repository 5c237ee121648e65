/**
 * `DataCleaner` (src/data_processing/cleaner.py). The class keeps no state of
 * its own (only a logger), so its stages are methods on the frame they
 * update: each stage changes the frame it is given, except
 * `remove_duplicates`, which also returns a new, filtered frame.
 *
 * Each stage is specified by a function of the columns and rows it starts
 * from (`TextStage`, `PriceStage`, `LocationStage`, `DedupStage`); the lemmas
 * say what those functions guarantee.
 */
module Cleaner {
  import opened Wrappers
  import opened Text
  import opened Seqs
  import opened Frames

  /** A column that `remove_duplicates` reads is missing (KeyError). */
  datatype CleanError = MissingKey(column: Column)

  // ===== clean_text_columns =====

  const TextColumns: seq<Column> := [Title, SupplierName, Location, Description]

  /** The three strings that the stage turns into a null. */
  predicate IsSentinel(t: string) {
    t == "nan" || t == "None" || t == ""
  }

  /** One cell: `str()` (a null prints as "nan"), strip, collapse whitespace runs to one space, then a sentinel becomes null. */
  function CleanCell(v: Option<string>): Option<string> {
    var t := Squash(v.GetOr("nan"));
    if IsSentinel(t) then None else Some(t)
  }

  /** A cell that stays present is stripped, single-spaced and not a sentinel. */
  lemma CleanCellShape(v: Option<string>)
    ensures CleanCell(v).Some? ==> Squashed(CleanCell(v).value) && !IsSentinel(CleanCell(v).value)
  {
    var t := Squash(v.GetOr("nan"));
    SquashShape(v.GetOr("nan"));
    assert Squashed(t);
  }

  /** A null stays null (through "nan"). */
  lemma CleanCellNull()
    ensures CleanCell(None) == None
  {
    assert "nan"[0] == 'n' && "nan"[1] == 'a' && "nan"[2] == 'n';
    assert Squashed("nan");
    SquashFixed("nan");
  }

  /** A second pass leaves a cleaned cell as it is. */
  lemma CleanCellIdempotent(v: Option<string>)
    ensures CleanCell(CleanCell(v)) == CleanCell(v)
  {
    var c := CleanCell(v);
    if c.None? {
      CleanCellNull();
    } else {
      CleanCellShape(v);
      SquashFixed(c.value);
    }
  }

  function CleanField(r: Row, c: Column): Row {
    match c
    case Title => r.(title := CleanCell(r.title))
    case SupplierName => r.(supplierName := CleanCell(r.supplierName))
    case Location => r.(location := CleanCell(r.location))
    case Description => r.(description := CleanCell(r.description))
    case _ => r
  }

  /** `df[col] = ...` for one text column. */
  function CleanColumn(rows: seq<Row>, c: Column): (r: seq<Row>)
    ensures |r| == |rows|
  {
    seq(|rows|, k requires 0 <= k < |rows| => CleanField(rows[k], c))
  }

  /** The loop over `cs`, cleaning each column that the frame has. */
  function CleanColumnsIn(columns: set<Column>, cs: seq<Column>, rows: seq<Row>): (r: seq<Row>)
    ensures |r| == |rows|
    decreases |cs|
  {
    if cs == [] then rows
    else CleanColumnsIn(columns, cs[1..], if cs[0] in columns then CleanColumn(rows, cs[0]) else rows)
  }

  /** The frame after `clean_text_columns`. */
  function TextStage(columns: set<Column>, rows: seq<Row>): seq<Row> {
    CleanColumnsIn(columns, TextColumns, rows)
  }

  /** `clean_text_columns`. */
  method CleanTextColumns(df: Frame)
    modifies df
    ensures df.columns == old(df.columns)
    ensures df.rows == TextStage(old(df.columns), old(df.rows))
  {
    var i := 0;
    while i < |TextColumns|
      invariant 0 <= i <= |TextColumns|
      invariant df.columns == old(df.columns)
      invariant CleanColumnsIn(df.columns, TextColumns[i..], df.rows) == TextStage(old(df.columns), old(df.rows))
    {
      var col := TextColumns[i];
      assert TextColumns[i..][1..] == TextColumns[i + 1..];
      if col in df.columns {
        df.rows := CleanColumn(df.rows, col);
      }
      i := i + 1;
    }
  }

  /** One cell of a text column: cleaned when the frame has that column, untouched otherwise. */
  function CellAfter(columns: set<Column>, c: Column, v: Option<string>): Option<string> {
    if c in columns then CleanCell(v) else v
  }

  /** What the stage does to one row, stated field by field. */
  function CleanRow(columns: set<Column>, r: Row): Row {
    r.(title := CellAfter(columns, Title, r.title),
       supplierName := CellAfter(columns, SupplierName, r.supplierName),
       location := CellAfter(columns, Location, r.location),
       description := CellAfter(columns, Description, r.description))
  }

  /** One row through the loop over `cs`. */
  function CleanRowIn(columns: set<Column>, cs: seq<Column>, r: Row): Row
    decreases |cs|
  {
    if cs == [] then r
    else CleanRowIn(columns, cs[1..], if cs[0] in columns then CleanField(r, cs[0]) else r)
  }

  /** The loop over the columns acts on each row on its own. */
  lemma {:induction false} CleanColumnsInRows(columns: set<Column>, cs: seq<Column>, rows: seq<Row>)
    ensures forall k :: 0 <= k < |rows| ==> CleanColumnsIn(columns, cs, rows)[k] == CleanRowIn(columns, cs, rows[k])
    decreases |cs|
  {
    if cs != [] {
      var next := if cs[0] in columns then CleanColumn(rows, cs[0]) else rows;
      CleanColumnsInRows(columns, cs[1..], next);
    }
  }

  lemma CleanRowInStep(columns: set<Column>, cs: seq<Column>, r: Row)
    requires cs != []
    ensures CleanRowIn(columns, cs, r) == CleanRowIn(columns, cs[1..], if cs[0] in columns then CleanField(r, cs[0]) else r)
  {
  }

  /** Cleaning one text column, when the frame has it, is an update of that one cell. */
  lemma CleanFieldAfter(columns: set<Column>, r: Row)
    ensures (if Title in columns then CleanField(r, Title) else r) == r.(title := CellAfter(columns, Title, r.title))
    ensures (if SupplierName in columns then CleanField(r, SupplierName) else r)
         == r.(supplierName := CellAfter(columns, SupplierName, r.supplierName))
    ensures (if Location in columns then CleanField(r, Location) else r) == r.(location := CellAfter(columns, Location, r.location))
    ensures (if Description in columns then CleanField(r, Description) else r)
         == r.(description := CellAfter(columns, Description, r.description))
  {
  }

  lemma CleanRowInText(columns: set<Column>, r: Row)
    ensures CleanRowIn(columns, TextColumns, r) == CleanRow(columns, r)
  {
    var r1 := r.(title := CellAfter(columns, Title, r.title));
    var r2 := r1.(supplierName := CellAfter(columns, SupplierName, r1.supplierName));
    var r3 := r2.(location := CellAfter(columns, Location, r2.location));
    var r4 := r3.(description := CellAfter(columns, Description, r3.description));
    var cs := TextColumns;
    CleanFieldAfter(columns, r);
    CleanRowInStep(columns, cs, r);
    assert cs[1..] == [SupplierName, Location, Description];
    CleanFieldAfter(columns, r1);
    CleanRowInStep(columns, cs[1..], r1);
    assert cs[1..][1..] == [Location, Description];
    CleanFieldAfter(columns, r2);
    CleanRowInStep(columns, cs[1..][1..], r2);
    assert cs[1..][1..][1..] == [Description];
    CleanFieldAfter(columns, r3);
    CleanRowInStep(columns, cs[1..][1..][1..], r3);
    assert cs[1..][1..][1..][1..] == [];
    assert CleanRowIn(columns, TextColumns, r) == r4;
  }

  /** The text stage cleans each present text column cell by cell and changes nothing else. */
  lemma TextStageCells(columns: set<Column>, rows: seq<Row>)
    ensures |TextStage(columns, rows)| == |rows|
    ensures forall k :: 0 <= k < |rows| ==> TextStage(columns, rows)[k] == CleanRow(columns, rows[k])
  {
    CleanColumnsInRows(columns, TextColumns, rows);
    forall k | 0 <= k < |rows| ensures TextStage(columns, rows)[k] == CleanRow(columns, rows[k]) {
      CleanRowInText(columns, rows[k]);
    }
  }

  /** Every text cell the stage writes is null or a stripped, single-spaced string other than "nan", "None" and "". */
  lemma TextStageShape(columns: set<Column>, rows: seq<Row>, k: nat)
    requires k < |rows|
    ensures var r := TextStage(columns, rows)[k];
      && (Title in columns && r.title.Some? ==> Squashed(r.title.value) && !IsSentinel(r.title.value))
      && (SupplierName in columns && r.supplierName.Some? ==> Squashed(r.supplierName.value) && !IsSentinel(r.supplierName.value))
      && (Location in columns && r.location.Some? ==> Squashed(r.location.value) && !IsSentinel(r.location.value))
      && (Description in columns && r.description.Some? ==> Squashed(r.description.value) && !IsSentinel(r.description.value))
  {
    TextStageCells(columns, rows);
    CleanCellShape(rows[k].title);
    CleanCellShape(rows[k].supplierName);
    CleanCellShape(rows[k].location);
    CleanCellShape(rows[k].description);
  }

  /** Cleaning the text columns twice is the same as cleaning them once. */
  lemma TextStageIdempotent(columns: set<Column>, rows: seq<Row>)
    ensures TextStage(columns, TextStage(columns, rows)) == TextStage(columns, rows)
  {
    var once := TextStage(columns, rows);
    var twice := TextStage(columns, once);
    TextStageCells(columns, rows);
    TextStageCells(columns, once);
    forall k | 0 <= k < |rows| ensures twice[k] == once[k] {
      CleanCellIdempotent(rows[k].title);
      CleanCellIdempotent(rows[k].supplierName);
      CleanCellIdempotent(rows[k].location);
      CleanCellIdempotent(rows[k].description);
    }
  }

  // ===== standardize_prices =====

  /** The `unit_mapping` of `standardize_prices`, which differs from the parser's table. */
  const CleanerUnitMapping: map<string, string> := map[
    "piece" := "piece", "pieces" := "piece", "pc" := "piece", "pcs" := "piece", "unit" := "piece",
    "kg" := "kilogram", "kilogram" := "kilogram",
    "gram" := "gram",
    "ton" := "ton", "tonne" := "ton",
    "meter" := "meter", "metre" := "meter", "m" := "meter",
    "feet" := "feet", "foot" := "feet",
    "inch" := "inch",
    "litre" := "liter", "liter" := "liter", "l" := "liter"
  ]

  /** `.map(unit_mapping).fillna(price_unit)`: the mapped label, or the unit itself when it has none. */
  function StandardUnit(u: string): string {
    if u in CleanerUnitMapping then CleanerUnitMapping[u] else u
  }

  /** The labels the mapping produces are fixed points, so standardising twice changes nothing. */
  lemma StandardUnitIdempotent(u: string)
    ensures StandardUnit(StandardUnit(u)) == StandardUnit(u)
    ensures u in CleanerUnitMapping ==> StandardUnit(u) in {"piece", "kilogram", "gram", "ton", "meter", "feet", "inch", "liter"}
  {
  }

  /** `(price < q1) | (price > q99)`: a comparison with a null (NaN) price or quantile is false. */
  predicate IsOutlier(p: Option<real>, q1: Option<real>, q99: Option<real>) {
    p.Some? && ((q1.Some? && p.value < q1.value) || (q99.Some? && p.value > q99.value))
  }

  function PriceRow(r: Row, q1: Option<real>, q99: Option<real>, hasUnit: bool): Row {
    var flagged := r.(priceOutlier := IsOutlier(r.numericPrice, q1, q99));
    if !hasUnit then flagged
    else
      match r.priceUnit
      case None => flagged.(standardizedUnit := None)
      case Some(u) => flagged.(priceUnit := Some(Lower(u)), standardizedUnit := Some(StandardUnit(Lower(u))))
  }

  /**
   * The columns and rows after `standardize_prices`. The quantiles `q1` and
   * `q99` of the price column are parameters (`None` when every price is null).
   */
  function PriceStage(columns: set<Column>, rows: seq<Row>, q1: Option<real>, q99: Option<real>): (set<Column>, seq<Row>) {
    if NumericPrice !in columns then (columns, rows)
    else
      var hasUnit := PriceUnit in columns;
      (columns + {PriceOutlier} + (if hasUnit then {StandardizedUnit} else {}), PriceRows(rows, q1, q99, hasUnit))
  }

  function PriceRows(rows: seq<Row>, q1: Option<real>, q99: Option<real>, hasUnit: bool): (out: seq<Row>)
    ensures |out| == |rows|
  {
    seq(|rows|, k requires 0 <= k < |rows| => PriceRow(rows[k], q1, q99, hasUnit))
  }

  /** `standardize_prices`. */
  method StandardizePrices(df: Frame, q1: Option<real>, q99: Option<real>)
    modifies df
    ensures (df.columns, df.rows) == PriceStage(old(df.columns), old(df.rows), q1, q99)
  {
    if NumericPrice !in df.columns {
      return;
    }
    var hasUnit := PriceUnit in df.columns;
    df.rows := PriceRows(df.rows, q1, q99, hasUnit);
    df.columns := df.columns + {PriceOutlier};
    if hasUnit {
      df.columns := df.columns + {StandardizedUnit};
    }
    assert df.columns == PriceStage(old(df.columns), old(df.rows), q1, q99).0;
  }

  /** What the price stage does to one row, stated against the quantile interval. */
  lemma PriceStageRows(columns: set<Column>, rows: seq<Row>, q1: Option<real>, q99: Option<real>)
    ensures var out := PriceStage(columns, rows, q1, q99);
      && |out.1| == |rows|
      && (NumericPrice !in columns ==> out == (columns, rows))
      && (NumericPrice in columns ==> forall k :: 0 <= k < |rows| ==>
            var r, o := rows[k], out.1[k];
            && (o.priceOutlier ==> r.numericPrice.Some?)
            && (q1.Some? && q99.Some? ==> (o.priceOutlier <==> r.numericPrice.Some? && !(q1.value <= r.numericPrice.value <= q99.value)))
            && (PriceUnit in columns ==> (o.standardizedUnit.None? <==> r.priceUnit.None?))
            && (PriceUnit in columns && r.priceUnit.Some? ==>
                  o.priceUnit == Some(Lower(r.priceUnit.value)) && o.standardizedUnit == Some(StandardUnit(Lower(r.priceUnit.value))))
            && o.(priceOutlier := r.priceOutlier, priceUnit := r.priceUnit, standardizedUnit := r.standardizedUnit) == r)
  {
  }

  // ===== standardize_locations =====

  /** The `indian_states` set of `standardize_locations`. */
  const CleanerStates: set<string> := {
    "maharashtra", "uttar pradesh", "up", "karnataka", "tamil nadu", "tn",
    "gujarat", "rajasthan", "west bengal", "wb", "madhya pradesh", "mp",
    "andhra pradesh", "ap", "odisha", "orissa", "telangana", "kerala",
    "punjab", "haryana", "jharkhand", "bihar", "chhattisgarh", "uttarakhand",
    "himachal pradesh", "hp", "assam", "jammu and kashmir", "j&k",
    "delhi", "new delhi", "mumbai", "bangalore", "chennai", "kolkata",
    "hyderabad", "pune", "ahmedabad", "surat", "jaipur", "lucknow",
    "kanpur", "nagpur", "visakhapatnam", "indore", "thane", "bhopal"
  }

  /** `order` is an iteration order of the set: every key once. Python fixes no particular one. */
  ghost predicate StateOrder(order: seq<string>) {
    Distinct(order) && forall k :: k in order <==> k in CleanerStates
  }

  /** The first key of `order` that occurs in `low`. */
  function FirstContained(order: seq<string>, low: string): (r: Option<string>)
    ensures r.Some? ==> r.value in order && Contains(low, r.value)
    ensures r.None? <==> forall k :: k in order ==> !Contains(low, k)
  {
    if order == [] then None
    else if Contains(low, order[0]) then Some(order[0])
    else FirstContained(order[1..], low)
  }

  /** `extract_state`: null for a null location, otherwise the title-cased first key found in the lowercased text. */
  function ExtractState(order: seq<string>, location: Option<string>): Option<string> {
    match location
    case None => None
    case Some(t) =>
      match FirstContained(order, Lower(t))
      case Some(key) => Some(TitleCase(key))
      case None => None
  }

  /** Whatever the iteration order, the result is the title case of some key occurring in the text, and null exactly when none does. */
  lemma ExtractStateSpec(order: seq<string>, location: Option<string>)
    requires StateOrder(order)
    ensures location.None? ==> ExtractState(order, location).None?
    ensures location.Some? ==>
              (ExtractState(order, location).None? <==> forall k :: k in CleanerStates ==> !Contains(Lower(location.value), k))
    ensures ExtractState(order, location).Some? ==>
              exists k :: k in CleanerStates && Contains(Lower(location.value), k) && ExtractState(order, location).value == TitleCase(k)
  {
  }

  /** The columns and rows after `standardize_locations`. */
  function LocationStage(columns: set<Column>, rows: seq<Row>, order: seq<string>): (set<Column>, seq<Row>) {
    if Location !in columns then (columns, rows)
    else (columns + {ExtractedState}, seq(|rows|, k requires 0 <= k < |rows| => rows[k].(extractedState := ExtractState(order, rows[k].location))))
  }

  /** `standardize_locations`; `order` is the iteration order of the state set. */
  method StandardizeLocations(df: Frame, order: seq<string>)
    requires StateOrder(order)
    modifies df
    ensures (df.columns, df.rows) == LocationStage(old(df.columns), old(df.rows), order)
  {
    if Location !in df.columns {
      return;
    }
    var rows := df.rows;
    df.columns := df.columns + {ExtractedState};
    df.rows := seq(|rows|, k requires 0 <= k < |rows| => rows[k].(extractedState := ExtractState(order, rows[k].location)));
  }

  // ===== remove_duplicates =====

  /** `title.fillna('').lower() + '_' + supplier_name.fillna('').lower()`. */
  function DedupKeyOf(r: Row): string {
    Lower(r.title.GetOr("")) + "_" + Lower(r.supplierName.GetOr(""))
  }

  ghost function KeySet(rows: seq<Row>): set<string> {
    set k | 0 <= k < |rows| :: DedupKeyOf(rows[k])
  }

  predicate DistinctKeys(rows: seq<Row>) {
    forall i, j :: 0 <= i < j < |rows| ==> DedupKeyOf(rows[i]) != DedupKeyOf(rows[j])
  }

  /** `drop_duplicates(keep='first')` after the keys in `seen` have been taken. */
  function DedupAfter(rows: seq<Row>, seen: set<string>): seq<Row>
    decreases |rows|
  {
    if rows == [] then []
    else if DedupKeyOf(rows[0]) in seen then DedupAfter(rows[1..], seen)
    else [rows[0]] + DedupAfter(rows[1..], seen + {DedupKeyOf(rows[0])})
  }

  function Dedup(rows: seq<Row>): seq<Row> {
    DedupAfter(rows, {})
  }

  /** Dropping the temporary key column. */
  function ClearKeys(rows: seq<Row>): (r: seq<Row>)
    ensures |r| == |rows|
  {
    seq(|rows|, k requires 0 <= k < |rows| => rows[k].(dedupKey := None))
  }

  /** `df['dedup_key'] = ...` on the input frame. */
  function WithKeys(rows: seq<Row>): seq<Row> {
    seq(|rows|, k requires 0 <= k < |rows| => rows[k].(dedupKey := Some(DedupKeyOf(rows[k]))))
  }

  /** The filtered frame `remove_duplicates` returns, or the KeyError it raises. */
  function DedupStage(columns: set<Column>, rows: seq<Row>): Result<(set<Column>, seq<Row>), CleanError> {
    if Title !in columns then Failure(MissingKey(Title))
    else if SupplierName !in columns then Failure(MissingKey(SupplierName))
    else Success((columns - {DedupKey}, Dedup(ClearKeys(rows))))
  }

  /** `remove_duplicates`: keys the input frame, then returns a new frame with the first row of each key. */
  method RemoveDuplicates(df: Frame) returns (r: Result<Frame, CleanError>)
    modifies df
    ensures var spec := DedupStage(old(df.columns), old(df.rows));
      && r.Success? == spec.Success?
      && (r.Failure? ==> r.error == spec.error && df.columns == old(df.columns) && df.rows == old(df.rows))
      && (r.Success? ==> fresh(r.value) && (r.value.columns, r.value.rows) == spec.value
                         && df.columns == old(df.columns) + {DedupKey} && df.rows == WithKeys(old(df.rows)))
  {
    if Title !in df.columns {
      return Failure(MissingKey(Title));
    }
    if SupplierName !in df.columns {
      return Failure(MissingKey(SupplierName));
    }
    var rows := ClearKeys(df.rows);
    var columns := df.columns;
    df.rows := WithKeys(df.rows);
    df.columns := df.columns + {DedupKey};
    var kept: seq<Row> := [];
    var seen: set<string> := {};
    var i := 0;
    while i < |rows|
      invariant 0 <= i <= |rows|
      invariant kept + DedupAfter(rows[i..], seen) == Dedup(rows)
    {
      assert rows[i..][1..] == rows[i + 1..];
      var key := DedupKeyOf(rows[i]);
      if key !in seen {
        kept := kept + [rows[i]];
        seen := seen + {key};
      }
      i := i + 1;
    }
    assert rows[i..] == [];
    assert kept == DedupStage(old(df.columns), old(df.rows)).value.1;
    var out := new Frame(columns - {DedupKey}, kept);
    return Success(out);
  }

  /** The kept rows appear in the input in the same order, and there are no more of them. */
  lemma {:induction false} DedupIsSubsequence(rows: seq<Row>, seen: set<string>)
    ensures IsSubsequence(DedupAfter(rows, seen), rows)
    ensures |DedupAfter(rows, seen)| <= |rows|
    decreases |rows|
  {
    if rows != [] {
      DedupIsSubsequence(rows[1..], seen);
      DedupIsSubsequence(rows[1..], seen + {DedupKeyOf(rows[0])});
      if DedupKeyOf(rows[0]) in seen {
        SubsequenceOfTail(DedupAfter(rows[1..], seen), rows);
      } else {
        var d := DedupAfter(rows, seen);
        assert d[0] == rows[0] && d[1..] == DedupAfter(rows[1..], seen + {DedupKeyOf(rows[0])});
      }
    }
  }

  /** A subsequence of the tail is a subsequence of the whole. */
  lemma {:induction false} SubsequenceOfTail(xs: seq<Row>, ys: seq<Row>)
    requires ys != [] && IsSubsequence(xs, ys[1..])
    ensures IsSubsequence(xs, ys)
    decreases |ys|, |xs|
  {
    if xs != [] && xs[0] == ys[0] {
      SubsequenceDropHead(xs, ys[1..]);
    }
  }

  /** Removing the head of a subsequence keeps it a subsequence. */
  lemma {:induction false} SubsequenceDropHead(xs: seq<Row>, ys: seq<Row>)
    requires xs != [] && IsSubsequence(xs, ys)
    ensures IsSubsequence(xs[1..], ys)
    decreases |ys|, |xs|
  {
    assert ys != [];
    if xs[0] == ys[0] {
      SubsequenceOfTail(xs[1..], ys);
    } else {
      SubsequenceDropHead(xs, ys[1..]);
      SubsequenceOfTail(xs[1..], ys);
    }
  }

  /** The kept keys are pairwise different, none was seen before, and every key of the input is kept or was seen. */
  lemma {:induction false} DedupKeys(rows: seq<Row>, seen: set<string>)
    ensures DistinctKeys(DedupAfter(rows, seen))
    ensures forall k :: 0 <= k < |DedupAfter(rows, seen)| ==> DedupKeyOf(DedupAfter(rows, seen)[k]) !in seen
    ensures forall k :: 0 <= k < |rows| ==> DedupKeyOf(rows[k]) in seen || DedupKeyOf(rows[k]) in KeySet(DedupAfter(rows, seen))
    decreases |rows|
  {
    if rows != [] {
      var key := DedupKeyOf(rows[0]);
      var d := DedupAfter(rows, seen);
      if key in seen {
        DedupKeys(rows[1..], seen);
        forall k | 0 <= k < |rows| ensures DedupKeyOf(rows[k]) in seen || DedupKeyOf(rows[k]) in KeySet(d) {
          if k > 0 {
            assert rows[k] == rows[1..][k - 1];
          }
        }
      } else {
        var rest := DedupAfter(rows[1..], seen + {key});
        DedupKeys(rows[1..], seen + {key});
        assert d == [rows[0]] + rest;
        forall i, j | 0 <= i < j < |d| ensures DedupKeyOf(d[i]) != DedupKeyOf(d[j]) {
          if i > 0 {
            assert d[i] == rest[i - 1] && d[j] == rest[j - 1];
          } else {
            assert d[j] == rest[j - 1];
          }
        }
        forall k | 0 <= k < |d| ensures DedupKeyOf(d[k]) !in seen {
          if k > 0 {
            assert d[k] == rest[k - 1];
          }
        }
        forall k | 0 <= k < |rows| ensures DedupKeyOf(rows[k]) in seen || DedupKeyOf(rows[k]) in KeySet(d) {
          if k == 0 {
            assert d[0] == rows[0];
          } else {
            assert rows[k] == rows[1..][k - 1];
            assert d[0] == rows[0];
            if DedupKeyOf(rows[k]) in KeySet(rest) {
              var m :| 0 <= m < |rest| && DedupKeyOf(rest[m]) == DedupKeyOf(rows[k]);
              assert d[m + 1] == rest[m];
            }
          }
        }
      }
    }
  }

  /** Each row whose key has not occurred before (in `seen` or earlier in `rows`) is kept. */
  lemma {:induction false} DedupKeepsFirst(rows: seq<Row>, seen: set<string>, i: nat)
    requires i < |rows| && DedupKeyOf(rows[i]) !in seen
    requires forall j :: 0 <= j < i ==> DedupKeyOf(rows[j]) != DedupKeyOf(rows[i])
    ensures rows[i] in DedupAfter(rows, seen)
    decreases |rows|
  {
    if i == 0 {
      assert DedupAfter(rows, seen)[0] == rows[0];
    } else {
      var next := if DedupKeyOf(rows[0]) in seen then seen else seen + {DedupKeyOf(rows[0])};
      forall j | 0 <= j < i - 1 ensures DedupKeyOf(rows[1..][j]) != DedupKeyOf(rows[1..][i - 1]) {
        assert rows[1..][j] == rows[j + 1];
      }
      DedupKeepsFirst(rows[1..], next, i - 1);
    }
  }

  /** Input rows whose keys are already pairwise different are all kept. */
  lemma {:induction false} DedupOfDistinct(rows: seq<Row>, seen: set<string>)
    requires DistinctKeys(rows)
    requires forall k :: 0 <= k < |rows| ==> DedupKeyOf(rows[k]) !in seen
    ensures DedupAfter(rows, seen) == rows
    decreases |rows|
  {
    if rows != [] {
      var key := DedupKeyOf(rows[0]);
      forall k | 0 <= k < |rows[1..]| ensures DedupKeyOf(rows[1..][k]) !in seen + {key} {
        assert rows[1..][k] == rows[k + 1];
      }
      forall i, j | 0 <= i < j < |rows[1..]| ensures DedupKeyOf(rows[1..][i]) != DedupKeyOf(rows[1..][j]) {
        assert rows[1..][i] == rows[i + 1] && rows[1..][j] == rows[j + 1];
      }
      DedupOfDistinct(rows[1..], seen + {key});
    }
  }

  /** `remove_duplicates` on its own output keeps every row: it is idempotent. */
  lemma DedupIdempotent(rows: seq<Row>)
    ensures Dedup(Dedup(rows)) == Dedup(rows)
  {
    DedupKeys(rows, {});
    DedupOfDistinct(Dedup(rows), {});
  }

  /** The kept rows carry every key of the input, and no other. */
  lemma DedupKeySet(rows: seq<Row>)
    ensures KeySet(Dedup(rows)) == KeySet(rows)
  {
    var out := Dedup(rows);
    DedupKeys(rows, {});
    DedupIsSubsequence(rows, {});
    SubsequenceElements(out, rows);
    forall x | x in KeySet(out) ensures x in KeySet(rows) {
      var m :| 0 <= m < |out| && DedupKeyOf(out[m]) == x;
      assert out[m] in rows;
      var k :| 0 <= k < |rows| && rows[k] == out[m];
    }
  }

  /** Dropping the key column changes no key and leaves every key cell null. */
  lemma ClearKeysSpec(rows: seq<Row>)
    ensures KeySet(ClearKeys(rows)) == KeySet(rows)
    ensures forall x :: x in ClearKeys(rows) ==> x.dedupKey.None?
  {
    var cleared := ClearKeys(rows);
    forall x | x in KeySet(rows) ensures x in KeySet(cleared) {
      var k :| 0 <= k < |rows| && DedupKeyOf(rows[k]) == x;
      assert DedupKeyOf(cleared[k]) == x;
    }
  }

  /** The dedup stage: a subsequence of the unkeyed input with pairwise different keys, keeping every key. */
  lemma DedupStageSpec(columns: set<Column>, rows: seq<Row>)
    requires Title in columns && SupplierName in columns
    ensures var out := DedupStage(columns, rows).value.1;
      && IsSubsequence(out, ClearKeys(rows))
      && DistinctKeys(out)
      && |out| <= |rows|
      && KeySet(out) == KeySet(rows)
      && forall x :: x in out ==> x.dedupKey.None?
  {
    var cleared := ClearKeys(rows);
    var out := Dedup(cleared);
    DedupIsSubsequence(cleared, {});
    DedupKeys(cleared, {});
    DedupKeySet(cleared);
    ClearKeysSpec(rows);
    SubsequenceElements(out, cleared);
  }

  /** The dedup stage keeps the first row of each key (`keep='first'`). */
  lemma DedupStageKeepsFirst(columns: set<Column>, rows: seq<Row>, i: nat)
    requires Title in columns && SupplierName in columns
    requires i < |rows| && forall j :: 0 <= j < i ==> DedupKeyOf(rows[j]) != DedupKeyOf(rows[i])
    ensures rows[i].(dedupKey := None) in DedupStage(columns, rows).value.1
  {
    var cleared := ClearKeys(rows);
    assert forall j :: 0 <= j < i ==> DedupKeyOf(cleared[j]) != DedupKeyOf(cleared[i]);
    DedupKeepsFirst(cleared, {}, i);
  }

  /** Every element of a subsequence is an element of the sequence. */
  lemma {:induction false} SubsequenceElements(xs: seq<Row>, ys: seq<Row>)
    requires IsSubsequence(xs, ys)
    ensures forall x :: x in xs ==> x in ys
    decreases |ys|
  {
    if xs != [] {
      if xs[0] == ys[0] {
        SubsequenceElements(xs[1..], ys[1..]);
        forall x | x in xs ensures x in ys {
          if x != xs[0] {
            assert x in xs[1..];
          }
        }
      } else {
        SubsequenceElements(xs, ys[1..]);
      }
    }
  }

  // ===== validate_data_quality (the counting parts) =====

  datatype PriceStatistics = PriceStatistics(count: nat, min: real, max: real)

  datatype QualityReport = QualityReport(
    totalRecords: nat,
    columns: set<Column>,
    missingValues: map<Column, nat>,
    productsWithTitle: Option<nat>,
    priceStatistics: Option<PriceStatistics>,
    uniqueSuppliers: Option<nat>,
    uniqueLocations: Option<nat>,
    categoryDistribution: Option<map<string, nat>>)

  /** `isnull()` of one cell; the boolean columns are never null. */
  predicate IsNullCell(r: Row, c: Column) {
    match c
    case Title => r.title.None?
    case SupplierName => r.supplierName.None?
    case Location => r.location.None?
    case Description => r.description.None?
    case NumericPrice => r.numericPrice.None?
    case PriceUnit => r.priceUnit.None?
    case Category => r.category.None?
    case PriceOutlier => false
    case StandardizedUnit => r.standardizedUnit.None?
    case ExtractedState => r.extractedState.None?
    case DedupKey => r.dedupKey.None?
    case IsDuplicate => false
  }

  function CountNull(rows: seq<Row>, c: Column): nat {
    if rows == [] then 0
    else CountNull(rows[..|rows| - 1], c) + (if IsNullCell(rows[|rows| - 1], c) then 1 else 0)
  }

  /** The non-null cells of the price column (`dropna()`). */
  function PresentPrices(rows: seq<Row>): seq<real> {
    if rows == [] then []
    else PresentPrices(rows[..|rows| - 1]) + (match rows[|rows| - 1].numericPrice case Some(p) => [p] case None => [])
  }

  function MinOf(xs: seq<real>): (m: real)
    requires xs != []
    ensures m in xs && forall x :: x in xs ==> m <= x
  {
    if |xs| == 1 then xs[0]
    else
      var rest := MinOf(xs[1..]);
      assert forall x :: x in xs ==> x == xs[0] || x in xs[1..];
      if xs[0] <= rest then xs[0] else rest
  }

  function MaxOf(xs: seq<real>): (m: real)
    requires xs != []
    ensures m in xs && forall x :: x in xs ==> x <= m
  {
    if |xs| == 1 then xs[0]
    else
      var rest := MaxOf(xs[1..]);
      assert forall x :: x in xs ==> x == xs[0] || x in xs[1..];
      if xs[0] >= rest then xs[0] else rest
  }

  /** The distinct non-null values of a column (`nunique` counts them). */
  function NonNullValues(xs: seq<Option<string>>): set<string> {
    if xs == [] then {}
    else NonNullValues(xs[..|xs| - 1]) + (match xs[|xs| - 1] case Some(v) => {v} case None => {})
  }

  function CountValue(xs: seq<Option<string>>, v: string): nat {
    if xs == [] then 0
    else CountValue(xs[..|xs| - 1], v) + (if xs[|xs| - 1] == Some(v) then 1 else 0)
  }

  function SupplierColumn(rows: seq<Row>): seq<Option<string>> {
    seq(|rows|, k requires 0 <= k < |rows| => rows[k].supplierName)
  }

  function LocationColumn(rows: seq<Row>): seq<Option<string>> {
    seq(|rows|, k requires 0 <= k < |rows| => rows[k].location)
  }

  function CategoryColumn(rows: seq<Row>): seq<Option<string>> {
    seq(|rows|, k requires 0 <= k < |rows| => rows[k].category)
  }

  /** `price_statistics`: count, minimum and maximum of the non-null prices, absent when there are none. */
  function PriceStats(rows: seq<Row>): (st: Option<PriceStatistics>)
    ensures st.Some? <==> exists k :: 0 <= k < |rows| && rows[k].numericPrice.Some?
    ensures st.Some? ==>
              && 1 <= st.value.count <= |rows| && st.value.count + CountNull(rows, NumericPrice) == |rows|
              && (forall k :: 0 <= k < |rows| && rows[k].numericPrice.Some? ==> st.value.min <= rows[k].numericPrice.value <= st.value.max)
              && (exists k :: 0 <= k < |rows| && rows[k].numericPrice == Some(st.value.min))
              && (exists k :: 0 <= k < |rows| && rows[k].numericPrice == Some(st.value.max))
  {
    var prices := PresentPrices(rows);
    PresentPricesExact(rows);
    PricesListed(rows);
    if |prices| == 0 then None
    else Some(PriceStatistics(|prices|, MinOf(prices), MaxOf(prices)))
  }

  lemma PricesListed(rows: seq<Row>)
    ensures forall k :: 0 <= k < |rows| && rows[k].numericPrice.Some? ==> rows[k].numericPrice.value in PresentPrices(rows)
  {
    PresentPricesExact(rows);
    forall k | 0 <= k < |rows| && rows[k].numericPrice.Some? ensures rows[k].numericPrice.value in PresentPrices(rows) {
      var x := rows[k].numericPrice.value;
      assert rows[k].numericPrice == Some(x);
    }
  }

  /** `nunique()` of a text column: the number of distinct non-null values. */
  function UniqueCount(xs: seq<Option<string>>): (n: nat)
    ensures n + CountNone(xs) <= |xs|
  {
    NonNullValuesBounded(xs);
    |NonNullValues(xs)|
  }

  /** `value_counts()` of the category column. */
  function CategoryDistribution(rows: seq<Row>): (m: map<string, nat>)
    ensures forall v :: v in m <==> exists k :: 0 <= k < |rows| && rows[k].category == Some(v)
    ensures forall v :: v in m ==> 1 <= m[v] <= |rows|
  {
    CategoryCounts(rows);
    map v | v in NonNullValues(CategoryColumn(rows)) :: CountValue(CategoryColumn(rows), v)
  }

  /** `isnull().sum()` for every column. */
  function MissingValues(columns: set<Column>, rows: seq<Row>): (m: map<Column, nat>)
    ensures m.Keys == columns
    ensures forall c :: c in columns ==> m[c] == CountNull(rows, c) <= |rows|
  {
    assert forall c :: CountNull(rows, c) <= |rows| by {
      forall c ensures CountNull(rows, c) <= |rows| {
        CountNullBounded(rows, c);
      }
    }
    map c | c in columns :: CountNull(rows, c)
  }

  /** The count parts of `validate_data_quality`: each entry is present exactly when its column is. */
  function ValidateDataQuality(columns: set<Column>, rows: seq<Row>): (r: QualityReport)
    ensures r.totalRecords == |rows| && r.columns == columns
    ensures r.missingValues.Keys == columns
    ensures forall c :: c in columns ==> r.missingValues[c] <= |rows|
    ensures r.productsWithTitle.Some? <==> Title in columns
    ensures r.productsWithTitle.Some? ==> r.productsWithTitle.value + r.missingValues[Title] == |rows|
    ensures r.priceStatistics.Some? <==> NumericPrice in columns && exists k :: 0 <= k < |rows| && rows[k].numericPrice.Some?
    ensures r.priceStatistics.Some? ==> r.priceStatistics.value.count + r.missingValues[NumericPrice] == |rows|
    ensures r.uniqueSuppliers.Some? <==> SupplierName in columns
    ensures r.uniqueSuppliers.Some? ==> r.uniqueSuppliers.value + r.missingValues[SupplierName] <= |rows|
    ensures r.uniqueLocations.Some? <==> Location in columns
    ensures r.uniqueLocations.Some? ==> r.uniqueLocations.value + r.missingValues[Location] <= |rows|
    ensures r.categoryDistribution.Some? <==> Category in columns
  {
    var missing := MissingValues(columns, rows);
    NullColumn(rows, SupplierName);
    NullColumn(rows, Location);
    CountNullBounded(rows, Title);
    QualityReport(
      |rows|,
      columns,
      missing,
      if Title in columns then Some(|rows| - CountNull(rows, Title)) else None,
      if NumericPrice in columns then PriceStats(rows) else None,
      if SupplierName in columns then Some(UniqueCount(SupplierColumn(rows))) else None,
      if Location in columns then Some(UniqueCount(LocationColumn(rows))) else None,
      if Category in columns then Some(CategoryDistribution(rows)) else None)
  }

  lemma {:induction false} CountNullBounded(rows: seq<Row>, c: Column)
    ensures CountNull(rows, c) <= |rows|
  {
    if rows != [] {
      CountNullBounded(rows[..|rows| - 1], c);
    }
  }

  ghost function NullIndices(rows: seq<Row>, c: Column): set<nat> {
    set k: nat | k < |rows| && IsNullCell(rows[k], c)
  }

  lemma NullIndicesSnoc(rows: seq<Row>, c: Column)
    requires rows != []
    ensures var n := |rows| - 1;
      NullIndices(rows, c) == NullIndices(rows[..n], c) + (if IsNullCell(rows[n], c) then {n} else {})
    ensures |rows| - 1 !in NullIndices(rows[..|rows| - 1], c)
  {
    var n := |rows| - 1;
    var p := rows[..n];
    var extra: set<nat> := if IsNullCell(rows[n], c) then {n} else {};
    forall k: nat ensures k in NullIndices(rows, c) <==> k in NullIndices(p, c) + extra {
      if k < n {
        assert p[k] == rows[k];
      }
    }
  }

  /** The number of null cells is the size of the set of rows whose cell is null. */
  lemma {:induction false} CountNullIsCardinality(rows: seq<Row>, c: Column)
    ensures CountNull(rows, c) == |NullIndices(rows, c)|
  {
    if rows == [] {
      assert NullIndices(rows, c) == {};
    } else {
      CountNullIsCardinality(rows[..|rows| - 1], c);
      NullIndicesSnoc(rows, c);
    }
  }

  lemma {:induction false} PresentPricesCount(rows: seq<Row>)
    ensures |PresentPrices(rows)| + CountNull(rows, NumericPrice) == |rows|
  {
    if rows != [] {
      PresentPricesCount(rows[..|rows| - 1]);
    }
  }

  /** Some row holds the price `x`. */
  predicate PriceListed(rows: seq<Row>, x: real) {
    exists k :: 0 <= k < |rows| && rows[k].numericPrice == Some(x)
  }

  lemma PriceListedSnoc(rows: seq<Row>, x: real)
    requires rows != []
    ensures PriceListed(rows, x) <==> PriceListed(rows[..|rows| - 1], x) || rows[|rows| - 1].numericPrice == Some(x)
  {
    var n := |rows| - 1;
    var p := rows[..n];
    if PriceListed(p, x) {
      var k :| 0 <= k < |p| && p[k].numericPrice == Some(x);
      assert rows[k] == p[k];
    }
    if PriceListed(rows, x) {
      var k :| 0 <= k < |rows| && rows[k].numericPrice == Some(x);
      if k < n {
        assert p[k] == rows[k];
      }
    }
  }

  lemma {:induction false} PresentPricesMembers(rows: seq<Row>)
    ensures forall x :: x in PresentPrices(rows) <==> PriceListed(rows, x)
  {
    if rows != [] {
      PresentPricesMembers(rows[..|rows| - 1]);
      forall x ensures x in PresentPrices(rows) <==> PriceListed(rows, x) {
        PriceListedSnoc(rows, x);
      }
    }
  }

  /** The present prices are the non-null price cells, and there are as many as the non-null count says. */
  lemma PresentPricesExact(rows: seq<Row>)
    ensures |PresentPrices(rows)| + CountNull(rows, NumericPrice) == |rows|
    ensures forall x :: x in PresentPrices(rows) <==> exists k :: 0 <= k < |rows| && rows[k].numericPrice == Some(x)
  {
    PresentPricesCount(rows);
    PresentPricesMembers(rows);
  }

  /** The null count of a column equals the count of `None` in its values. */
  lemma {:induction false} NullColumn(rows: seq<Row>, c: Column)
    requires c == SupplierName || c == Location
    ensures var xs := if c == SupplierName then SupplierColumn(rows) else LocationColumn(rows);
      CountNull(rows, c) == CountNone(xs)
  {
    if rows != [] {
      var n := |rows| - 1;
      NullColumn(rows[..n], c);
      var xs := if c == SupplierName then SupplierColumn(rows) else LocationColumn(rows);
      var ps := if c == SupplierName then SupplierColumn(rows[..n]) else LocationColumn(rows[..n]);
      assert xs[..n] == ps;
    }
  }

  function CountNone(xs: seq<Option<string>>): nat {
    if xs == [] then 0
    else CountNone(xs[..|xs| - 1]) + (if xs[|xs| - 1].None? then 1 else 0)
  }

  /** `nunique` is at most the number of non-null cells, and counts exactly the values that occur. */
  lemma {:induction false} NonNullValuesBounded(xs: seq<Option<string>>)
    ensures |NonNullValues(xs)| + CountNone(xs) <= |xs|
    ensures forall v :: v in NonNullValues(xs) <==> exists k :: 0 <= k < |xs| && xs[k] == Some(v)
  {
    if xs != [] {
      var n := |xs| - 1;
      var p := xs[..n];
      NonNullValuesBounded(p);
      forall v ensures v in NonNullValues(xs) <==> exists k :: 0 <= k < |xs| && xs[k] == Some(v) {
        if v in NonNullValues(p) {
          var k :| 0 <= k < |p| && p[k] == Some(v);
          assert xs[k] == p[k];
        }
        if exists k :: 0 <= k < |xs| && xs[k] == Some(v) {
          var k :| 0 <= k < |xs| && xs[k] == Some(v);
          if k < n {
            assert p[k] == xs[k];
          }
        }
      }
    }
  }

  /** Each value of `value_counts` is the positive number of rows holding that category. */
  lemma CategoryCounts(rows: seq<Row>)
    ensures var xs := CategoryColumn(rows);
      forall v :: v in NonNullValues(xs) ==> 1 <= CountValue(xs, v) <= |rows|
    ensures forall v :: v in NonNullValues(CategoryColumn(rows)) <==> exists k :: 0 <= k < |rows| && rows[k].category == Some(v)
  {
    var xs := CategoryColumn(rows);
    NonNullValuesBounded(xs);
    forall v | v in NonNullValues(xs) ensures 1 <= CountValue(xs, v) <= |rows| {
      CountValuePositive(xs, v);
    }
    forall v ensures v in NonNullValues(xs) <==> exists k :: 0 <= k < |rows| && rows[k].category == Some(v) {
      if exists k :: 0 <= k < |rows| && rows[k].category == Some(v) {
        var k :| 0 <= k < |rows| && rows[k].category == Some(v);
        assert xs[k] == Some(v);
      }
    }
  }

  lemma {:induction false} CountValuePositive(xs: seq<Option<string>>, v: string)
    ensures CountValue(xs, v) <= |xs|
    ensures (exists k :: 0 <= k < |xs| && xs[k] == Some(v)) ==> CountValue(xs, v) >= 1
  {
    if xs != [] {
      var n := |xs| - 1;
      var p := xs[..n];
      CountValuePositive(p, v);
      if exists k :: 0 <= k < |xs| && xs[k] == Some(v) {
        var k :| 0 <= k < |xs| && xs[k] == Some(v);
        if k < n {
          assert p[k] == xs[k];
        }
      }
    }
  }

  // ===== clean_dataset =====

  /** The columns and rows `clean_dataset` ends with, or the KeyError of its dedup stage. */
  /** The caller's frame after the text, price and location stages, before `remove_duplicates` keys it. */
  function LocatedFrame(columns: set<Column>, rows: seq<Row>, q1: Option<real>, q99: Option<real>, order: seq<string>): (set<Column>, seq<Row>) {
    var text := TextStage(columns, rows);
    var priced := PriceStage(columns, text, q1, q99);
    LocationStage(priced.0, priced.1, order)
  }

  function PipelineSpec(columns: set<Column>, rows: seq<Row>, q1: Option<real>, q99: Option<real>, order: seq<string>): Result<(set<Column>, seq<Row>), CleanError> {
    var located := LocatedFrame(columns, rows, q1, q99, order);
    DedupStage(located.0, located.1)
  }

  /** `clean_dataset`: the four stages in order on the same frame, then the report on the deduplicated frame. */
  method CleanDataset(df: Frame, q1: Option<real>, q99: Option<real>, order: seq<string>)
    returns (r: Result<(Frame, QualityReport), CleanError>)
    requires StateOrder(order)
    modifies df
    ensures var spec := PipelineSpec(old(df.columns), old(df.rows), q1, q99, order);
      && r.Success? == spec.Success?
      && (r.Failure? ==> r.error == spec.error)
      && (r.Success? ==> fresh(r.value.0) && (r.value.0.columns, r.value.0.rows) == spec.value
                         && r.value.1 == ValidateDataQuality(spec.value.0, spec.value.1))
    // The stages write the caller's frame in place: it keeps the cleaned columns, and gains `dedup_key` on success.
    ensures var located := LocatedFrame(old(df.columns), old(df.rows), q1, q99, order);
      && (r.Failure? ==> (df.columns, df.rows) == located)
      && (r.Success? ==> df.columns == located.0 + {DedupKey} && df.rows == WithKeys(located.1))
  {
    CleanTextColumns(df);
    StandardizePrices(df, q1, q99);
    StandardizeLocations(df, order);
    var deduped := RemoveDuplicates(df);
    if deduped.Failure? {
      return Failure(deduped.error);
    }
    var out := deduped.value;
    return Success((out, ValidateDataQuality(out.columns, out.rows)));
  }

  /** A cleaned dataset has no two rows with the same key, and no more rows than it started with. */
  lemma PipelineDeduplicated(columns: set<Column>, rows: seq<Row>, q1: Option<real>, q99: Option<real>, order: seq<string>)
    requires PipelineSpec(columns, rows, q1, q99, order).Success?
    ensures DistinctKeys(PipelineSpec(columns, rows, q1, q99, order).value.1)
    ensures |PipelineSpec(columns, rows, q1, q99, order).value.1| <= |rows|
  {
    var text := TextStage(columns, rows);
    var priced := PriceStage(columns, text, q1, q99);
    var located := LocationStage(priced.0, priced.1, order);
    TextStageCells(columns, rows);
    PriceStageRows(columns, text, q1, q99);
    DedupStageSpec(located.0, located.1);
  }
}
