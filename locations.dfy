/**
 * `normalize_location` (src/scraper/utils.py): the state is looked up by
 * substring in a table of state names, abbreviations and large cities, and the
 * city is the text before the first comma.
 */
module Locations {
  import opened Wrappers
  import opened Text

  /** The dictionary that `normalize_location` returns. */
  datatype LocationInfo = LocationInfo(rawLocation: string, city: string, state: string, normalized: string)

  /**
   * The `indian_states` dictionary in its written order (a Python dict keeps
   * insertion order, and the lookup loop walks it in that order).
   */
  const StateTable: seq<(string, string)> := [
    ("andhra pradesh", "Andhra Pradesh"), ("ap", "Andhra Pradesh"),
    ("arunachal pradesh", "Arunachal Pradesh"),
    ("assam", "Assam"),
    ("bihar", "Bihar"),
    ("chhattisgarh", "Chhattisgarh"),
    ("goa", "Goa"),
    ("gujarat", "Gujarat"),
    ("haryana", "Haryana"),
    ("himachal pradesh", "Himachal Pradesh"), ("hp", "Himachal Pradesh"),
    ("jharkhand", "Jharkhand"),
    ("karnataka", "Karnataka"),
    ("kerala", "Kerala"),
    ("madhya pradesh", "Madhya Pradesh"), ("mp", "Madhya Pradesh"),
    ("maharashtra", "Maharashtra"),
    ("manipur", "Manipur"),
    ("meghalaya", "Meghalaya"),
    ("mizoram", "Mizoram"),
    ("nagaland", "Nagaland"),
    ("odisha", "Odisha"), ("orissa", "Odisha"),
    ("punjab", "Punjab"),
    ("rajasthan", "Rajasthan"),
    ("sikkim", "Sikkim"),
    ("tamil nadu", "Tamil Nadu"), ("tn", "Tamil Nadu"),
    ("telangana", "Telangana"),
    ("tripura", "Tripura"),
    ("uttar pradesh", "Uttar Pradesh"), ("up", "Uttar Pradesh"),
    ("uttarakhand", "Uttarakhand"),
    ("west bengal", "West Bengal"), ("wb", "West Bengal"),
    ("delhi", "Delhi"), ("new delhi", "Delhi"),
    ("mumbai", "Maharashtra"), ("bangalore", "Karnataka"),
    ("chennai", "Tamil Nadu"), ("kolkata", "West Bengal"),
    ("hyderabad", "Telangana"), ("pune", "Maharashtra"),
    ("ahmedabad", "Gujarat"), ("surat", "Gujarat"),
    ("jaipur", "Rajasthan"), ("lucknow", "Uttar Pradesh"),
    ("kanpur", "Uttar Pradesh"), ("nagpur", "Maharashtra")
  ]

  /** Entry `i` is the first entry of the table whose key occurs in `low`. */
  predicate FirstKeyAt(low: string, i: nat) {
    i < |StateTable| && Contains(low, StateTable[i].0)
    && forall j :: 0 <= j < i ==> !Contains(low, StateTable[j].0)
  }

  /** No key of the table occurs in `low`. */
  predicate NoKeyIn(low: string) {
    forall j :: 0 <= j < |StateTable| ==> !Contains(low, StateTable[j].0)
  }

  /** The text up to (not including) the first comma. */
  function BeforeComma(t: string): (r: string)
    ensures |r| <= |t| && r == t[..|r|]
    ensures ',' !in r
    ensures |r| == |t| || t[|r|] == ','
  {
    if t == [] || t[0] == ',' then [] else [t[0]] + BeforeComma(t[1..])
  }

  /** `re.match(r'^([^,]+)', t)`: at least one character that is not a comma, taken greedily. */
  function CityMatch(t: string): (m: Option<string>)
    ensures m.Some? ==> m.value != [] && ',' !in m.value && |m.value| <= |t| && m.value == t[..|m.value|]
    ensures m.Some? ==> |m.value| == |t| || t[|m.value|] == ','
    ensures m.None? <==> t == [] || t[0] == ','
  {
    if t != [] && t[0] != ',' then Some(BeforeComma(t)) else None
  }

  /** The city field: the stripped group of the match, or "" without a match. */
  function City(t: string): (c: string)
  {
    match CityMatch(t)
    case Some(g) => Strip(g)
    case None => ""
  }

  /** Both cases of the match agree: the city is the stripped text before the first comma. */
  lemma CityIsBeforeFirstComma(t: string)
    ensures City(t) == Strip(BeforeComma(t))
    ensures ',' !in City(t)
  {
    var b := BeforeComma(t);
    StripIsInside(b);
  }

  /** `strip()` keeps a contiguous part of its input. */
  lemma StripIsInside(s: string)
    ensures forall c :: c in Strip(s) ==> c in s
  {
    var l := TrimLeft(s);
    var r := TrimRight(l);
    forall c | c in r ensures c in s {
      var k :| 0 <= k < |r| && r[k] == c;
      assert l[k] == c;
      assert s[|s| - |l| + k] == c;
    }
  }

  /** The lookup loop of `normalize_location`: the state of the first key, in table order, that occurs in `low`. */
  method LookupState(low: string) returns (state: string)
    ensures NoKeyIn(low) ==> state == ""
    ensures !NoKeyIn(low) ==> exists i: nat :: FirstKeyAt(low, i) && state == StateTable[i].1
  {
    state := "";
    var i := 0;
    while i < |StateTable|
      invariant 0 <= i <= |StateTable|
      invariant forall j :: 0 <= j < i ==> !Contains(low, StateTable[j].0)
    {
      if Contains(low, StateTable[i].0) {
        state := StateTable[i].1;
        assert FirstKeyAt(low, i);
        return;
      }
      i := i + 1;
    }
  }

  /** `normalize_location`. */
  method NormalizeLocation(locationText: string) returns (info: LocationInfo)
    ensures locationText == "" ==> info == LocationInfo("", "", "", "")
    ensures locationText != "" ==>
      var t := Strip(locationText);
      && info.rawLocation == t
      && info.city == City(t)
      && (NoKeyIn(Lower(t)) ==> info.state == "")
      && (!NoKeyIn(Lower(t)) ==> exists i: nat :: FirstKeyAt(Lower(t), i) && info.state == StateTable[i].1)
      && info.normalized == if info.city != "" && info.state != "" then info.city + ", " + info.state else t
  {
    if locationText == "" {
      return LocationInfo("", "", "", "");
    }
    var t := Strip(locationText);
    var state := LookupState(Lower(t));
    var city := City(t);
    var normalized := if city != "" && state != "" then city + ", " + state else t;
    info := LocationInfo(t, city, state, normalized);
  }
}
