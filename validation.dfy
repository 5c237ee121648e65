/**
 * `validate_scraped_data` (src/scraper/utils.py): checks a list of scraped
 * records for the two required fields, counts empty titles and non-positive
 * prices, and scores the result.
 */
module Validation {
  import opened Wrappers
  import opened Text

  /** A field of a record dictionary: the key is missing, it holds `None`, or it holds a string. */
  datatype FieldValue = Absent | Null | Text(s: string)

  /** A scraped record, reduced to the fields the validator reads. */
  datatype Record = Record(title: FieldValue, supplierName: FieldValue, numericPrice: Option<real>)

  datatype Field = TitleField | SupplierField

  /** An entry of `errors`: "Record i: Missing required field ...". */
  datatype Issue = MissingRequiredField(record: nat, field: Field)

  /** An entry of `warnings`. */
  datatype Warning = ManyEmptyTitles(count: nat) | ManyInvalidPrices(count: nat)

  datatype Summary = Summary(titlesEmpty: nat, pricesInvalid: nat, uniqueSuppliers: nat)

  datatype Report =
    | NoData   // {"valid": False, "errors": ["No data provided"]}
    | Checked(valid: bool, totalRecords: nat, errors: seq<Issue>, warnings: seq<Warning>, qualityScore: int, summary: Summary)

  /** `.strip()` on a `None` title raises AttributeError. */
  datatype ValidationError = NullTitle

  /** `record.get(field)` is truthy: a non-empty string. */
  predicate Truthy(v: FieldValue) {
    v.Text? && v.s != ""
  }

  function FieldOf(r: Record, f: Field): FieldValue {
    match f
    case TitleField => r.title
    case SupplierField => r.supplierName
  }

  /** The errors for record `i`, in the order of `required_fields`. */
  function RecordIssues(i: nat, r: Record): seq<Issue> {
    (if Truthy(r.title) then [] else [MissingRequiredField(i, TitleField)])
    + (if Truthy(r.supplierName) then [] else [MissingRequiredField(i, SupplierField)])
  }

  /** The `errors` list after the loop has seen `data`. */
  function Issues(data: seq<Record>): seq<Issue>
  {
    if data == [] then []
    else Issues(data[..|data| - 1]) + RecordIssues(|data| - 1, data[|data| - 1])
  }

  /** `record.get('title', '').strip()` is empty; a missing key reads as "". */
  predicate EmptyTitle(r: Record) {
    r.title.Absent? || (r.title.Text? && Strip(r.title.s) == "")
  }

  /** `numeric_price` is present and not positive. */
  predicate InvalidPrice(r: Record) {
    r.numericPrice.Some? && r.numericPrice.value <= 0.0
  }

  function CountEmptyTitles(data: seq<Record>): nat {
    if data == [] then 0
    else CountEmptyTitles(data[..|data| - 1]) + (if EmptyTitle(data[|data| - 1]) then 1 else 0)
  }

  function CountInvalidPrices(data: seq<Record>): nat {
    if data == [] then 0
    else CountInvalidPrices(data[..|data| - 1]) + (if InvalidPrice(data[|data| - 1]) then 1 else 0)
  }

  /** `record.get('supplier_name', '')`: a missing key reads as "", `None` stays `None`. */
  function SupplierKey(r: Record): Option<string> {
    match r.supplierName
    case Absent => Some("")
    case Null => None
    case Text(s) => Some(s)
  }

  function SupplierKeys(data: seq<Record>): set<Option<string>> {
    if data == [] then {}
    else SupplierKeys(data[..|data| - 1]) + {SupplierKey(data[|data| - 1])}
  }

  /**
   * The two warnings. `k > n * 0.1` and `k > n * 0.05` on floats agree with the
   * exact `10 * k > n` and `20 * k > n` at every count a list can have, since
   * the doubles nearest 0.1 and 0.05 lie just above those values.
   */
  function Warnings(n: nat, titlesEmpty: nat, pricesInvalid: nat): seq<Warning> {
    (if 10 * titlesEmpty > n then [ManyEmptyTitles(titlesEmpty)] else [])
    + (if 20 * pricesInvalid > n then [ManyInvalidPrices(pricesInvalid)] else [])
  }

  function QualityScore(errors: nat, warnings: nat): (score: int)
    ensures 0 <= score <= 100
    ensures score == 0 || score == 100 - 10 * errors - 2 * warnings
    ensures errors == 0 && warnings == 0 ==> score == 100
    ensures score >= 100 - 10 * errors - 2 * warnings
  {
    var s := 100 - 10 * errors - 2 * warnings;
    if s > 0 then s else 0
  }

  /** Some record holds a `None` title. */
  predicate HasNullTitle(data: seq<Record>) {
    exists i :: 0 <= i < |data| && data[i].title.Null?
  }

  /** What `validate_scraped_data` returns, or the exception it raises. */
  function ValidateSpec(data: seq<Record>): Result<Report, ValidationError> {
    if data == [] then Success(NoData)
    else if HasNullTitle(data) then Failure(NullTitle)
    else
      var errors := Issues(data);
      var te := CountEmptyTitles(data);
      var pi := CountInvalidPrices(data);
      var warnings := Warnings(|data|, te, pi);
      Success(Checked(errors == [], |data|, errors, warnings, QualityScore(|errors|, |warnings|),
                      Summary(te, pi, |SupplierKeys(data)|)))
  }

  /** `validate_scraped_data`: the errors loop, then the three counting passes. */
  method ValidateScrapedData(data: seq<Record>) returns (r: Result<Report, ValidationError>)
    ensures r == ValidateSpec(data)
  {
    if data == [] {
      return Success(NoData);
    }
    var errors: seq<Issue> := [];
    var i := 0;
    while i < |data|
      invariant 0 <= i <= |data|
      invariant errors == Issues(data[..i])
    {
      IssuesStep(data, i);
      if !Truthy(data[i].title) {
        errors := errors + [MissingRequiredField(i, TitleField)];
      }
      if !Truthy(data[i].supplierName) {
        errors := errors + [MissingRequiredField(i, SupplierField)];
      }
      i := i + 1;
    }
    var titlesEmpty := 0;
    var pricesInvalid := 0;
    var suppliers: set<Option<string>> := {};
    i := 0;
    while i < |data|
      invariant 0 <= i <= |data|
      invariant !HasNullTitle(data[..i])
      invariant titlesEmpty == CountEmptyTitles(data[..i])
      invariant pricesInvalid == CountInvalidPrices(data[..i])
      invariant suppliers == SupplierKeys(data[..i])
    {
      CountsStep(data, i);
      NullTitleStep(data, i);
      if data[i].title.Null? {
        return Failure(NullTitle);
      }
      titlesEmpty := titlesEmpty + (if EmptyTitle(data[i]) then 1 else 0);
      pricesInvalid := pricesInvalid + (if InvalidPrice(data[i]) then 1 else 0);
      suppliers := suppliers + {SupplierKey(data[i])};
      i := i + 1;
    }
    assert data[..|data|] == data;
    var warnings := Warnings(|data|, titlesEmpty, pricesInvalid);
    r := Success(Checked(errors == [], |data|, errors, warnings, QualityScore(|errors|, |warnings|),
                         Summary(titlesEmpty, pricesInvalid, |suppliers|)));
  }

  lemma IssuesStep(data: seq<Record>, i: nat)
    requires i < |data|
    ensures Issues(data[..i + 1]) == Issues(data[..i]) + RecordIssues(i, data[i])
  {
    assert data[..i + 1][..i] == data[..i];
  }

  lemma CountsStep(data: seq<Record>, i: nat)
    requires i < |data|
    ensures CountEmptyTitles(data[..i + 1]) == CountEmptyTitles(data[..i]) + (if EmptyTitle(data[i]) then 1 else 0)
    ensures CountInvalidPrices(data[..i + 1]) == CountInvalidPrices(data[..i]) + (if InvalidPrice(data[i]) then 1 else 0)
    ensures SupplierKeys(data[..i + 1]) == SupplierKeys(data[..i]) + {SupplierKey(data[i])}
  {
    var next := data[..i + 1];
    assert next[..i] == data[..i] && next[i] == data[i];
  }

  lemma NullTitleStep(data: seq<Record>, i: nat)
    requires i < |data|
    ensures HasNullTitle(data[..i + 1]) <==> HasNullTitle(data[..i]) || data[i].title.Null?
  {
    var next := data[..i + 1];
    assert next[..i] == data[..i] && next[i] == data[i];
    if HasNullTitle(next) && !data[i].title.Null? {
      var k :| 0 <= k < |next| && next[k].title.Null?;
      assert data[..i][k] == next[k];
    }
  }

  // ----- properties -----

  /** The errors of one record: one per required field it lacks. */
  lemma RecordIssuesExact(i: nat, r: Record)
    ensures forall e :: e in RecordIssues(i, r) <==> e.record == i && !Truthy(FieldOf(r, e.field))
  {
  }

  /** An error names a record and a required field missing from it, and each missing field has its error. */
  lemma {:induction false} IssuesExact(data: seq<Record>)
    ensures forall e :: e in Issues(data) <==> e.record < |data| && !Truthy(FieldOf(data[e.record], e.field))
  {
    if data != [] {
      var n := |data| - 1;
      var p := data[..n];
      IssuesExact(p);
      RecordIssuesExact(n, data[n]);
      forall e ensures e in Issues(data) <==> e.record < |data| && !Truthy(FieldOf(data[e.record], e.field)) {
        assert e in Issues(data) <==> e in Issues(p) || e in RecordIssues(n, data[n]);
        if e.record < n {
          assert p[e.record] == data[e.record];
        }
      }
    }
  }

  /** A non-empty list is valid exactly when every record has a non-empty title and supplier name. */
  lemma ValidIffAllFieldsPresent(data: seq<Record>)
    requires ValidateSpec(data).Success? && ValidateSpec(data).value.Checked?
    ensures ValidateSpec(data).value.valid <==>
              forall i :: 0 <= i < |data| ==> Truthy(data[i].title) && Truthy(data[i].supplierName)
  {
    IssuesExact(data);
    if !ValidateSpec(data).value.valid {
      var e := Issues(data)[0];
      assert e in Issues(data);
    }
    if exists i :: 0 <= i < |data| && !(Truthy(data[i].title) && Truthy(data[i].supplierName)) {
      var i :| 0 <= i < |data| && !(Truthy(data[i].title) && Truthy(data[i].supplierName));
      if !Truthy(data[i].title) {
        assert MissingRequiredField(i, TitleField) in Issues(data);
      } else {
        assert MissingRequiredField(i, SupplierField) in Issues(data);
      }
    }
  }

  /** The report's counts: one record per entry, and at most two errors per record. */
  lemma {:induction false} CountsBounded(data: seq<Record>)
    ensures CountEmptyTitles(data) <= |data| && CountInvalidPrices(data) <= |data|
    ensures |Issues(data)| <= 2 * |data|
    ensures |SupplierKeys(data)| <= |data|
    ensures data != [] ==> |SupplierKeys(data)| >= 1
  {
    if data != [] {
      var p := data[..|data| - 1];
      CountsBounded(p);
      assert SupplierKey(data[|data| - 1]) in SupplierKeys(data);
    }
  }

  /** The supplier count counts exactly the distinct `get('supplier_name', '')` values. */
  lemma {:induction false} SupplierKeysExact(data: seq<Record>)
    ensures forall x :: x in SupplierKeys(data) <==> exists i :: 0 <= i < |data| && SupplierKey(data[i]) == x
  {
    if data != [] {
      var p := data[..|data| - 1];
      SupplierKeysExact(p);
      forall x | x in SupplierKeys(data) ensures exists i :: 0 <= i < |data| && SupplierKey(data[i]) == x {
        if x in SupplierKeys(p) {
          var i :| 0 <= i < |p| && SupplierKey(p[i]) == x;
          assert data[i] == p[i];
        } else {
          assert SupplierKey(data[|data| - 1]) == x;
        }
      }
      forall x | exists i :: 0 <= i < |data| && SupplierKey(data[i]) == x ensures x in SupplierKeys(data) {
        var i :| 0 <= i < |data| && SupplierKey(data[i]) == x;
        if i < |p| {
          assert p[i] == data[i];
        }
      }
    }
  }

  /** A warning is raised exactly when its count is over the threshold. */
  lemma WarningsShape(n: nat, titlesEmpty: nat, pricesInvalid: nat)
    ensures var w := Warnings(n, titlesEmpty, pricesInvalid);
      && (ManyEmptyTitles(titlesEmpty) in w <==> 10 * titlesEmpty > n)
      && (ManyInvalidPrices(pricesInvalid) in w <==> 20 * pricesInvalid > n)
      && |w| <= 2
  {
  }

  /** The report of a non-empty list without a null title, field by field. */
  lemma ReportShape(data: seq<Record>)
    requires data != [] && forall i :: 0 <= i < |data| ==> !data[i].title.Null?
    ensures ValidateSpec(data).Success? && ValidateSpec(data).value.Checked?
    ensures var rep := ValidateSpec(data).value;
      && rep.totalRecords == |data|
      && 0 <= rep.qualityScore <= 100
      && rep.qualityScore == QualityScore(|rep.errors|, |rep.warnings|)
      && (ManyEmptyTitles(rep.summary.titlesEmpty) in rep.warnings <==> 10 * rep.summary.titlesEmpty > |data|)
      && (ManyInvalidPrices(rep.summary.pricesInvalid) in rep.warnings <==> 20 * rep.summary.pricesInvalid > |data|)
      && |rep.warnings| <= 2
      && rep.summary.titlesEmpty <= |data| && rep.summary.pricesInvalid <= |data|
      && 1 <= rep.summary.uniqueSuppliers <= |data|
  {
    CountsBounded(data);
    WarningsShape(|data|, CountEmptyTitles(data), CountInvalidPrices(data));
  }

  /** Empty data gives the "No data provided" report, and a null title raises. */
  lemma SpecialCases(data: seq<Record>)
    ensures data == [] ==> ValidateSpec(data) == Success(NoData)
    ensures (exists i :: 0 <= i < |data| && data[i].title.Null?) ==> ValidateSpec(data) == Failure(NullTitle)
  {
  }
}
