/**
 * The NFIRS 5.0 code classifiers of the cause analysis: property use to
 * housing type, heat source and area of origin to coarse categories, the
 * cause-of-ignition labels, the sprinkler and fire-spread labels, and the
 * per-field code lookup tables. A missing field (pandas NaN) is `None`.
 */
module NfirsCodes {
  import opened Wrappers
  import opened Text
  import opened Sequences

  // ---------------------------------------------------------------- housing type

  datatype HousingType = SingleFamily | Multifamily | OtherResidential | NonResidential | UnknownHousing

  function HousingLabel(h: HousingType): string {
    match h
    case SingleFamily => "Single-family"
    case Multifamily => "Multifamily"
    case OtherResidential => "Other residential"
    case NonResidential => "Non-residential"
    case UnknownHousing => "Unknown"
  }

  lemma HousingLabelInjective(g: HousingType, h: HousingType)
    ensures HousingLabel(g) == HousingLabel(h) ==> g == h
  {
    if HousingLabel(g) == HousingLabel(h) {
      assert HousingLabel(g)[0] == HousingLabel(h)[0];
      assert |HousingLabel(g)| == |HousingLabel(h)|;
    }
  }

  /** A 400-series property use (NFIRS "residential"). */
  predicate ResidentialCode(s: string) {
    StartsWith(Strip(s), "4")
  }

  /**
   * `get_housing_type`: missing or empty is Unknown; otherwise the stripped
   * code 419 is Single-family, 429 Multifamily, any other 4xx code Other
   * residential and everything else, blank text included, Non-residential.
   */
  function HousingTypeOf(propUse: Option<string>): (r: HousingType)
    ensures r == UnknownHousing <==> propUse == None || propUse == Some("")
    ensures propUse.Some? && propUse.value != "" ==>
      (r == SingleFamily <==> Strip(propUse.value) == "419") &&
      (r == Multifamily <==> Strip(propUse.value) == "429") &&
      (r != NonResidential <==> ResidentialCode(propUse.value))
  {
    match propUse
    case None => UnknownHousing
    case Some(s) =>
      if s == "" then UnknownHousing
      else
        var code := Strip(s);
        if code == "419" then SingleFamily
        else if code == "429" then Multifamily
        else if StartsWith(code, "4") then OtherResidential
        else NonResidential
  }

  /** Padding around a non-blank code does not change its housing type. */
  lemma HousingTypeIgnoresPadding(s: string)
    requires Strip(s) != ""
    ensures HousingTypeOf(Some(s)) == HousingTypeOf(Some(Strip(s)))
  {
    StripIdempotent(s);
  }

  /** Text made only of whitespace is present, so it is not Unknown: it is Non-residential. */
  lemma BlankPropertyUseIsNonResidential(s: string)
    requires s != "" && Strip(s) == ""
    ensures HousingTypeOf(Some(s)) == NonResidential
  {
  }

  // ---------------------------------------------------------------- heat source

  datatype HeatSource = Cooking | Heating | Electrical | Smoking | OpenFlame | OtherHeat | UnknownHeat

  function HeatSourceLabel(h: HeatSource): string {
    match h
    case Cooking => "Cooking"
    case Heating => "Heating"
    case Electrical => "Electrical"
    case Smoking => "Smoking"
    case OpenFlame => "Open flame"
    case OtherHeat => "Other"
    case UnknownHeat => "Unknown"
  }

  /** The raw values treated as "not recorded", compared before any stripping. */
  const UnrecordedCodes: set<string> := {"", "UU", "NN"}

  predicate Unrecorded(code: Option<string>) {
    code.None? || code.value in UnrecordedCodes
  }

  /** `str(code).strip()[:2]` */
  function HeatPrefix(s: string): (r: string)
    ensures |r| <= 2 && StartsWith(Strip(s), r)
    ensures |Strip(s)| >= 2 ==> |r| == 2
  {
    var t := Strip(s);
    if |t| <= 2 then t else t[..2]
  }

  /** The if/elif chain of `categorize_heat_source`, on the two-character prefix. */
  function HeatFamily(p: string): (r: HeatSource)
    ensures r != UnknownHeat
    ensures r == Cooking <==> p in {"12", "13", "14", "15"}
    ensures r == Heating <==> p in {"10", "11"}
    ensures r == Electrical <==> StartsWith(p, "4")
    ensures r == Smoking <==> p in {"61", "62", "63"}
    ensures r == OpenFlame <==> p in {"64", "65", "66"}
    ensures r == OtherHeat <==>
              p !in {"10", "11", "12", "13", "14", "15", "61", "62", "63", "64", "65", "66"} && !StartsWith(p, "4")
  {
    if p in {"12", "13", "14", "15"} then
      assert p[..1][0] == '1' by { assert p == "12" || p == "13" || p == "14" || p == "15"; }
      Cooking
    else if p in {"10", "11"} then
      assert p[..1][0] == '1' by { assert p == "10" || p == "11"; }
      Heating
    else if StartsWith(p, "4") then
      assert p[0] == '4' by { assert p[..1][0] == p[0]; }
      Electrical
    else if p in {"61", "62", "63"} then Smoking
    else if p in {"64", "65", "66"} then OpenFlame
    else OtherHeat
  }

  /**
   * `categorize_heat_source`: Unknown for a missing or unrecorded value,
   * otherwise decided by the first two characters of the stripped code.
   */
  function HeatSourceOf(code: Option<string>): (r: HeatSource)
    ensures r == UnknownHeat <==> Unrecorded(code)
    ensures !Unrecorded(code) ==> r == HeatFamily(HeatPrefix(code.value))
  {
    if Unrecorded(code) then UnknownHeat else HeatFamily(HeatPrefix(code.value))
  }

  /** Only the first two characters of a recorded code matter. */
  lemma HeatSourceByPrefix(s: string, t: string)
    requires s !in UnrecordedCodes && t !in UnrecordedCodes
    requires HeatPrefix(s) == HeatPrefix(t)
    ensures HeatSourceOf(Some(s)) == HeatSourceOf(Some(t))
  {
  }

  /** A sub-code refines its two-character heat-source family. */
  lemma HeatSourceOfSubcode(s: string, tail: string)
    requires |s| == 2 && s[0] !in Whitespace && s[1] !in Whitespace
    requires s !in UnrecordedCodes && s + tail !in UnrecordedCodes
    requires tail == "" || tail[|tail| - 1] !in Whitespace
    ensures HeatSourceOf(Some(s + tail)) == HeatSourceOf(Some(s))
  {
    var u := s + tail;
    assert TrimStartIn(u, Whitespace) == u;
    assert u[|u| - 1] !in Whitespace;
    assert Strip(u) == u;
    assert TrimStartIn(s, Whitespace) == s;
    assert Strip(s) == s;
    assert u[..2] == s;
  }

  /**
   * The unrecorded check looks at the raw value: a padded " UU" gets past it
   * and, once stripped, matches no family, so it is Other rather than Unknown.
   */
  lemma PaddedUnrecordedHeatIsOther(s: string)
    requires s !in UnrecordedCodes && Strip(s) in {"UU", "NN"}
    ensures HeatSourceOf(Some(s)) == OtherHeat
  {
    assert HeatPrefix(s) == Strip(s);
    assert !StartsWith(Strip(s), "4") by { assert Strip(s)[..1][0] == Strip(s)[0]; }
  }

  // ---------------------------------------------------------------- area of origin

  datatype AreaOfOrigin = Kitchen | LivingAreas | BathroomLaundry | Garage | MechanicalElectrical | Exterior | OtherArea | UnknownArea

  function AreaLabel(a: AreaOfOrigin): string {
    match a
    case Kitchen => "Kitchen"
    case LivingAreas => "Living areas"
    case BathroomLaundry => "Bathroom/Laundry"
    case Garage => "Garage"
    case MechanicalElectrical => "Mechanical/Electrical"
    case Exterior => "Exterior"
    case OtherArea => "Other"
    case UnknownArea => "Unknown"
  }

  /** The if/elif chain of `categorize_area`, on the whole stripped code. */
  function AreaOfCode(c: string): (r: AreaOfOrigin)
    ensures r != UnknownArea
    ensures r == Kitchen <==> c == "24"
    ensures r == LivingAreas <==> c in {"21", "22", "23"}
    ensures r == BathroomLaundry <==> c in {"25", "26"}
    ensures r == Garage <==> c == "27"
    ensures r == MechanicalElectrical <==> c in {"51", "52", "53"}
    ensures r == Exterior <==> StartsWith(c, "9") && c !in {"21", "22", "23", "24", "25", "26", "27", "51", "52", "53"}
  {
    if c == "24" then Kitchen
    else if c in {"21", "22", "23"} then LivingAreas
    else if c in {"25", "26"} then BathroomLaundry
    else if c == "27" then Garage
    else if c in {"51", "52", "53"} then MechanicalElectrical
    else if StartsWith(c, "9") then Exterior
    else OtherArea
  }

  /**
   * `categorize_area`: Unknown for a missing or unrecorded value, otherwise
   * decided by the whole stripped code.
   */
  function AreaOf(code: Option<string>): (r: AreaOfOrigin)
    ensures r == UnknownArea <==> Unrecorded(code)
    ensures !Unrecorded(code) ==> r == AreaOfCode(Strip(code.value))
  {
    if Unrecorded(code) then UnknownArea else AreaOfCode(Strip(code.value))
  }

  /** Padding around a recorded code does not change its area category. */
  lemma AreaIgnoresPadding(s: string)
    requires s !in UnrecordedCodes && Strip(s) !in UnrecordedCodes
    ensures AreaOf(Some(s)) == AreaOf(Some(Strip(s)))
  {
    StripIdempotent(s);
  }

  /**
   * The area classifier matches whole codes while the heat-source one matches
   * prefixes: "241" is Other as an area but Cooking as a heat source ("12x").
   */
  lemma AreaMatchesWholeCode()
    ensures AreaOf(Some("241")) == OtherArea
    ensures HeatSourceOf(Some("121")) == Cooking
  {
    StripDigits("241");
    StripDigits("121");
    assert "241" !in UnrecordedCodes && "121" !in UnrecordedCodes;
    assert HeatPrefix("121") == "12";
    assert AreaOfCode("241") == OtherArea;
  }

  // ---------------------------------------------------------------- cause of ignition

  /** `CAUSE_IGN_MAP`: NFIRS 5.0 cause-of-ignition codes. */
  const CauseIgnMap: map<string, string> := map[
    "0" := "Other",
    "1" := "Intentional",
    "2" := "Unintentional",
    "3" := "Equipment failure",
    "4" := "Act of nature",
    "5" := "Under investigation",
    "U" := "Undetermined"
  ]

  /** `map(CAUSE_IGN_MAP).fillna('Unknown')`: an exact lookup, Unknown otherwise. */
  function CauseLabel(code: Option<string>): (r: string)
    ensures code.Some? && code.value in CauseIgnMap ==> r == CauseIgnMap[code.value]
    ensures r == "Unknown" <==> code.None? || code.value !in CauseIgnMap
    ensures r in CauseIgnMap.Values || r == "Unknown"
  {
    match code
    case Some(c) => if c in CauseIgnMap then CauseIgnMap[c] else "Unknown"
    case None => "Unknown"
  }

  /** Intentional (arson) is exactly code "1": the lookup does not strip or pad. */
  lemma IntentionalIsCodeOne(code: Option<string>)
    ensures CauseLabel(code) == "Intentional" <==> code == Some("1")
  {
    if CauseLabel(code) == "Intentional" {
      assert code.Some? && code.value in CauseIgnMap;
      var c := code.value;
      assert c == "0" || c == "1" || c == "2" || c == "3" || c == "4" || c == "5" || c == "U";
    }
  }

  // ---------------------------------------------------------------- sprinklers and spread

  /** Sprinkler present: Y is Yes, N is No, anything else (missing included) Unknown. */
  function SprinklerPresence(aesPres: Option<string>): (r: string)
    ensures r == "Yes" <==> aesPres == Some("Y")
    ensures r == "No" <==> aesPres == Some("N")
    ensures r == "Unknown" <==> aesPres != Some("Y") && aesPres != Some("N")
  {
    if aesPres == Some("Y") then "Yes" else if aesPres == Some("N") then "No" else "Unknown"
  }

  /** Sprinkler operation, on the same Y / N / other pattern. */
  function SprinklerOperation(aesOper: Option<string>): (r: string)
    ensures r == "Operated" <==> aesOper == Some("Y")
    ensures r == "Did not operate" <==> aesOper == Some("N")
    ensures r == "Unknown" <==> aesOper != Some("Y") && aesOper != Some("N")
  {
    if aesOper == Some("Y") then "Operated" else if aesOper == Some("N") then "Did not operate" else "Unknown"
  }

  /** Presence and operation read the same code the same way. */
  lemma OperationMirrorsPresence(x: Option<string>)
    ensures SprinklerPresence(x) == "Yes" <==> SprinklerOperation(x) == "Operated"
    ensures SprinklerPresence(x) == "No" <==> SprinklerOperation(x) == "Did not operate"
    ensures SprinklerPresence(x) == "Unknown" <==> SprinklerOperation(x) == "Unknown"
  {
  }

  /** The NFIRS fire-spread codes and their labels. */
  const FireSpreadLabels: map<string, string> := map[
    "1" := "Confined to object",
    "2" := "Confined to room",
    "3" := "Confined to floor",
    "4" := "Confined to building",
    "5" := "Beyond building"
  ]

  /** Fire spread: the label of codes 1 to 5, Unknown for anything else or missing. */
  function FireSpread(fireSprd: Option<string>): (r: string)
    ensures fireSprd.Some? && fireSprd.value in FireSpreadLabels ==> r == FireSpreadLabels[fireSprd.value]
    ensures r == "Unknown" <==> fireSprd.None? || fireSprd.value !in FireSpreadLabels
  {
    if fireSprd.Some? && fireSprd.value in FireSpreadLabels then FireSpreadLabels[fireSprd.value] else "Unknown"
  }

  /** Distinct spread codes get distinct labels, so the label identifies the code. */
  lemma FireSpreadInjective(a: Option<string>, b: Option<string>)
    requires FireSpread(a) != "Unknown" && FireSpread(a) == FireSpread(b)
    ensures a == b
  {
    var x := a.value;
    var y := b.value;
    assert x == "1" || x == "2" || x == "3" || x == "4" || x == "5";
    assert y == "1" || y == "2" || y == "3" || y == "4" || y == "5";
  }

  // ---------------------------------------------------------------- code lookup tables

  /** One line of `codelookup.txt`: field id, code value, description. */
  datatype CodeRow = CodeRow(field: string, code: string, descr: string)

  function Fields(rows: seq<CodeRow>): (r: seq<string>)
    ensures |r| == |rows| && forall i :: 0 <= i < |rows| ==> r[i] == rows[i].field
  {
    seq(|rows|, i requires 0 <= i < |rows| => rows[i].field)
  }

  /** `dict(zip(code_value, code_descr))` over one field's rows: a later duplicate overrides. */
  function CodeTable(rows: seq<CodeRow>, field: string): map<string, string>
    decreases |rows|
  {
    if rows == [] then map[]
    else
      var m := CodeTable(rows[..|rows| - 1], field);
      var last := rows[|rows| - 1];
      if last.field == field then m[last.code := last.descr] else m
  }

  /** The row a table entry comes from: the last row of that field with that code. */
  ghost predicate LastEntry(rows: seq<CodeRow>, field: string, code: string, i: int) {
    0 <= i < |rows| && rows[i].field == field && rows[i].code == code &&
    forall j :: i < j < |rows| ==> !(rows[j].field == field && rows[j].code == code)
  }

  /**
   * A code is in a field's table exactly when some row of that field carries
   * it, and its description is the one on the last such row.
   */
  lemma {:induction false} CodeTableLastWins(rows: seq<CodeRow>, field: string, code: string)
    ensures code in CodeTable(rows, field) <==>
      exists i :: 0 <= i < |rows| && rows[i].field == field && rows[i].code == code
    ensures code in CodeTable(rows, field) ==>
      exists i :: LastEntry(rows, field, code, i) && rows[i].descr == CodeTable(rows, field)[code]
    decreases |rows|
  {
    if rows != [] {
      var init := rows[..|rows| - 1];
      var last := rows[|rows| - 1];
      CodeTableLastWins(init, field, code);
      assert forall i :: 0 <= i < |init| ==> init[i] == rows[i];
      if last.field == field && last.code == code {
        assert LastEntry(rows, field, code, |rows| - 1);
      } else if code in CodeTable(rows, field) {
        var i :| LastEntry(init, field, code, i) && init[i].descr == CodeTable(init, field)[code];
        assert LastEntry(rows, field, code, i);
      }
    }
  }

  /**
   * `load_codelookup`: one table per field id, each built from that field's
   * rows. The description of a duplicated code is that of its last row.
   */
  method LoadCodeLookup(rows: seq<CodeRow>) returns (lookups: map<string, map<string, string>>)
    ensures lookups.Keys == set i | 0 <= i < |rows| :: rows[i].field
    ensures forall f :: f in lookups ==> lookups[f] == CodeTable(rows, f)
  {
    var ids := Unique(Fields(rows));
    lookups := map[];
    var k := 0;
    while k < |ids|
      invariant 0 <= k <= |ids|
      invariant lookups.Keys == set j | 0 <= j < k :: ids[j]
      invariant forall f :: f in lookups ==> lookups[f] == CodeTable(rows, f)
    {
      lookups := lookups[ids[k] := CodeTable(rows, ids[k])];
      k := k + 1;
    }
    assert forall f :: f in lookups.Keys <==> f in set i | 0 <= i < |rows| :: rows[i].field;
  }
}
