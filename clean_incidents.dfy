/**
 * Cleaning of the raw fire-incident table: column-name normalisation,
 * coordinate extraction from the "(a, b)" location text, fire-type keyword
 * flags and their priority category, the AFD jurisdiction filter and
 * deduplication by incident number.
 */
module CleanIncidents {
  import opened Wrappers
  import opened Text
  import opened Columns
  import opened Frames
  import opened Sequences

  // ---------------------------------------------------------------- column names

  /** `name.lower().replace(' ', '_').replace('-', '_')` */
  function NormalizeName(name: string): (r: string)
    ensures |r| == |name|
    ensures forall i :: 0 <= i < |r| ==> r[i] != ' ' && r[i] != '-' && !('A' <= r[i] <= 'Z')
    ensures forall i :: 0 <= i < |r| ==> r[i] == LowerChar(name[i]) || (r[i] == '_' && (name[i] == ' ' || name[i] == '-'))
  {
    ReplaceChar(ReplaceChar(Lower(name), ' ', '_'), '-', '_')
  }

  /** A normalised name is a fixed point of the normalisation. */
  lemma NormalizeNameIdempotent(name: string)
    ensures NormalizeName(NormalizeName(name)) == NormalizeName(name)
  {
    var n := NormalizeName(name);
    var nn := NormalizeName(n);
    forall i | 0 <= i < |n| ensures nn[i] == n[i] {
      assert !('A' <= n[i] <= 'Z');
    }
  }

  function NormalizeNames(names: seq<string>): (r: seq<string>)
    ensures |r| == |names|
    ensures forall i :: 0 <= i < |names| ==> r[i] == NormalizeName(names[i])
  {
    seq(|names|, i requires 0 <= i < |names| => NormalizeName(names[i]))
  }

  /** `standardize_columns`: renames every column, leaves every cell where it was. */
  function StandardizeColumns(t: Table): (u: Table)
    ensures u.rows == t.rows && |u.columns| == |t.columns|
    ensures forall k :: 0 <= k < |t.columns| ==> u.columns[k] == NormalizeName(t.columns[k])
    ensures Rectangular(t) ==> Rectangular(u)
  {
    Table(NormalizeNames(t.columns), t.rows)
  }

  lemma StandardizeIdempotent(t: Table)
    ensures StandardizeColumns(StandardizeColumns(t)) == StandardizeColumns(t)
  {
    var once := StandardizeColumns(t).columns;
    var twice := StandardizeColumns(StandardizeColumns(t)).columns;
    forall k | 0 <= k < |once| ensures twice[k] == once[k] {
      NormalizeNameIdempotent(t.columns[k]);
    }
  }

  // ---------------------------------------------------------------- locations

  /**
   * A match of `\(([^,]+),\s*([^)]+)\)` beginning exactly at index `i`, as
   * Python's backtracking engine finds it: group 1 runs from after the '(' to
   * the first comma; `\s*` takes all following whitespace; group 2 runs to the
   * next ')'. When that ')' comes right after the whitespace, `\s*` gives its
   * last character back to group 2.
   */
  function MatchAt(s: string, i: nat): (r: Option<(string, string)>)
    requires i <= |s|
    ensures r.Some? ==> |r.value.0| > 0 && ',' !in r.value.0
    ensures r.Some? ==> |r.value.1| > 0 && ')' !in r.value.1
  {
    if i == |s| || s[i] != '(' then None
    else
      var j := IndexOfFrom(s, ',', i + 1);
      if j == |s| || j == i + 1 then None
      else
        var k := SkipSpaces(s, j + 1);
        var m := IndexOfFrom(s, ')', k);
        if m == |s| then None
        else if m > k then Some((s[i + 1..j], s[k..m]))
        else if k > j + 1 then
          assert IsSpace(s[k - 1]);
          Some((s[i + 1..j], s[k - 1..k]))
        else None
  }

  /** `re.search`: the match at the leftmost index where there is one. */
  function SearchFrom(s: string, i: nat): (r: Option<(string, string)>)
    requires i <= |s|
    ensures r.Some? ==> exists p :: i <= p <= |s| && MatchAt(s, p) == r
    ensures r.None? ==> forall p :: i <= p <= |s| ==> MatchAt(s, p).None?
    decreases |s| - i
  {
    if MatchAt(s, i).Some? then MatchAt(s, i)
    else if i == |s| then None
    else SearchFrom(s, i + 1)
  }

  /** `df['location'].str.extract(...)`: the two coordinate texts, or None (NaN). */
  function CoordinateTexts(location: Cell): Option<(string, string)> {
    if location.Str? then SearchFrom(location.s, 0) else None
  }

  /** The canonical rendering "(a, b)". */
  function PairText(a: string, b: string): string {
    "(" + a + ", " + b + ")"
  }

  /** A field that the pattern captures whole when written in the canonical rendering. */
  predicate PlainField(a: string) {
    |a| > 0 && ',' !in a && ')' !in a && !IsSpace(a[0])
  }

  /** Reading "(a, b)" back gives exactly the two fields. */
  lemma PairTextMatches(a: string, b: string)
    requires PlainField(a) && PlainField(b)
    ensures CoordinateTexts(Str(PairText(a, b))) == Some((a, b))
  {
    var s := PairText(a, b);
    var comma := 1 + |a|;
    var close := 3 + |a| + |b|;
    assert forall t :: 1 <= t < comma ==> s[t] == a[t - 1];
    assert forall t :: comma + 2 <= t < close ==> s[t] == b[t - comma - 2];
    assert s[comma] == ',' && s[comma + 1] == ' ' && s[close] == ')';
    var j := IndexOfFrom(s, ',', 1);
    assert j == comma;
    var k := SkipSpaces(s, j + 1);
    assert s[comma + 2] == b[0];
    assert k == comma + 2;
    var m := IndexOfFrom(s, ')', k);
    assert m == close;
    assert s[1..comma] == a;
    assert s[k..m] == b;
    assert MatchAt(s, 0) == Some((a, b));
  }

  datatype Coordinates = Coordinates(latitude: real, longitude: real)

  /** Austin's bounding box: latitude in [29, 32], longitude in [-99, -96], both inclusive. */
  predicate InAustin(lat: real, lon: real) {
    29.0 <= lat <= 32.0 && -99.0 <= lon <= -96.0
  }

  /** A negative first number is the longitude; otherwise (also when it is NaN) it is the latitude. */
  function AssignAxes(c1: Option<real>, c2: Option<real>): (r: (Option<real>, Option<real>))
    ensures c1.Some? && c1.value < 0.0 ==> r == (c2, c1)
    ensures !(c1.Some? && c1.value < 0.0) ==> r == (c1, c2)
  {
    if c1.Some? && c1.value < 0.0 then (c2, c1) else (c1, c2)
  }

  /** `parse_location` for one row: both coordinates, or neither. */
  function LocatePoint(location: Cell): (r: Option<Coordinates>)
    ensures r.Some? ==> InAustin(r.value.latitude, r.value.longitude)
    ensures r.Some? ==> CoordinateTexts(location).Some?
  {
    match CoordinateTexts(location)
    case None => None
    case Some((t1, t2)) =>
      var (lat, lon) := AssignAxes(ParseNumber(t1), ParseNumber(t2));
      if lat.Some? && lon.Some? && InAustin(lat.value, lon.value)
      then Some(Coordinates(lat.value, lon.value))
      else None
  }

  /** Either order of a (longitude, latitude) pair with longitude < 0 <= latitude reads as the same point. */
  lemma LocateEitherOrder(lonText: string, latText: string, lon: real, lat: real)
    requires PlainField(lonText) && PlainField(latText)
    requires ParseNumber(lonText) == Some(lon) && ParseNumber(latText) == Some(lat)
    requires lon < 0.0 <= lat
    ensures LocatePoint(Str(PairText(lonText, latText))) == LocatePoint(Str(PairText(latText, lonText)))
    ensures LocatePoint(Str(PairText(lonText, latText))) ==
            (if InAustin(lat, lon) then Some(Coordinates(lat, lon)) else None)
  {
    PairTextMatches(lonText, latText);
    PairTextMatches(latText, lonText);
  }

  function LatitudeCell(p: Option<Coordinates>): Cell {
    if p.Some? then Num(p.value.latitude) else Null
  }

  function LongitudeCell(p: Option<Coordinates>): Cell {
    if p.Some? then Num(p.value.longitude) else Null
  }

  function NumberCell(x: Option<real>): (c: Cell)
    ensures NumberOf(c) == x
  {
    if x.Some? then Num(x.value) else Null
  }

  /** The (latitude, longitude) numbers before the range check. */
  function RawAxes(location: Cell): (Option<real>, Option<real>) {
    match CoordinateTexts(location)
    case None => (None, None)
    case Some((t1, t2)) => AssignAxes(ParseNumber(t1), ParseNumber(t2))
  }

  function RawLatitude(location: Cell): Cell { NumberCell(RawAxes(location).0) }
  function RawLongitude(location: Cell): Cell { NumberCell(RawAxes(location).1) }

  /** `valid_lat & valid_lon` for one row: NaN fails both comparisons. */
  predicate InBox(columns: seq<string>, r: Row) {
    var lat := Lookup(columns, r, "latitude");
    var lon := Lookup(columns, r, "longitude");
    lat.Num? && lon.Num? && InAustin(lat.x, lon.x)
  }

  /** `df.loc[~(valid_lat & valid_lon), ['latitude', 'longitude']] = None` for one row. */
  function NullIfOutside(columns: seq<string>, r: Row): Row
    requires |r| == |columns|
  {
    if InBox(columns, r) then r
    else
      var r1 := Put(columns, r, "latitude", Null);
      Put(WithColumn(columns, "latitude"), r1, "longitude", Null)
  }

  /** The step that writes the unchecked coordinates. */
  function WriteRawAxes(t: Table): (u: Table)
    requires Rectangular(t)
    ensures Rectangular(u) && |u.rows| == |t.rows|
    ensures "longitude" in u.columns && "latitude" in u.columns
  {
    var t1 := Derive(t, "longitude", "location", RawLongitude);
    Derive(t1, "latitude", "location", RawLatitude)
  }

  /** The step that clears the points outside the box. */
  function ClearOutside(t: Table): (u: Table)
    requires Rectangular(t) && "longitude" in t.columns && "latitude" in t.columns
    ensures u.columns == t.columns && |u.rows| == |t.rows| && Rectangular(u)
  {
    Table(t.columns, seq(|t.rows|, i requires 0 <= i < |t.rows| => NullIfOutside(t.columns, t.rows[i])))
  }

  /**
   * `parse_location`: without a "location" column the frame is returned as it
   * is; otherwise "longitude" and "latitude" are written, then cleared on the
   * rows whose point falls outside the box.
   */
  function ParseLocation(t: Table): (u: Table)
    requires Rectangular(t)
    ensures Rectangular(u) && |u.rows| == |t.rows|
    ensures "location" !in t.columns ==> u == t
    ensures "location" in t.columns ==> u.columns == WithColumn(WithColumn(t.columns, "longitude"), "latitude")
  {
    if "location" !in t.columns then t else ClearOutside(WriteRawAxes(t))
  }

  /** Each parsed row carries exactly the point LocatePoint reads from its location text. */
  lemma ParsedRow(t: Table, i: int)
    requires Rectangular(t) && "location" in t.columns && 0 <= i < |t.rows|
    ensures var u := ParseLocation(t);
            var p := LocatePoint(Lookup(t.columns, t.rows[i], "location"));
            Lookup(u.columns, u.rows[i], "latitude") == LatitudeCell(p) &&
            Lookup(u.columns, u.rows[i], "longitude") == LongitudeCell(p)
  {
    var loc := Lookup(t.columns, t.rows[i], "location");
    var t1 := Derive(t, "longitude", "location", RawLongitude);
    var t2 := Derive(t1, "latitude", "location", RawLatitude);
    assert t2 == WriteRawAxes(t);
    assert Lookup(t1.columns, t1.rows[i], "location") == loc;
    assert Lookup(t2.columns, t2.rows[i], "longitude") == RawLongitude(loc);
    assert Lookup(t2.columns, t2.rows[i], "latitude") == RawLatitude(loc);
    var r := t2.rows[i];
    var u := ClearOutside(t2);
    assert u.rows[i] == NullIfOutside(t2.columns, r);
    if !InBox(t2.columns, r) {
      var r1 := Put(t2.columns, r, "latitude", Null);
      assert WithColumn(t2.columns, "latitude") == t2.columns;
      assert Lookup(t2.columns, r1, "latitude") == Null;
      assert Lookup(t2.columns, u.rows[i], "latitude") == Null;
    }
  }

  /** Parsing only adds the two coordinate columns: every other column keeps its cells. */
  lemma ParseKeepsOthers(t: Table, i: int, other: string)
    requires Rectangular(t) && 0 <= i < |t.rows| && other != "latitude" && other != "longitude"
    ensures var u := ParseLocation(t);
            Get(u.columns, u.rows[i], other) == Get(t.columns, t.rows[i], other)
  {
    if "location" in t.columns {
      var t1 := Derive(t, "longitude", "location", RawLongitude);
      var t2 := Derive(t1, "latitude", "location", RawLatitude);
      assert t2 == WriteRawAxes(t);
      var r := t2.rows[i];
      var u := ClearOutside(t2);
      assert u.rows[i] == NullIfOutside(t2.columns, r);
      if !InBox(t2.columns, r) {
        assert WithColumn(t2.columns, "latitude") == t2.columns;
      }
    }
  }

  /** After parsing, a row has a latitude exactly when it has a longitude, and then it lies in the box. */
  lemma ParsedPointsInBox(t: Table, i: int)
    requires Rectangular(t) && "location" in t.columns && 0 <= i < |t.rows|
    ensures var u := ParseLocation(t);
            var lat := Lookup(u.columns, u.rows[i], "latitude");
            var lon := Lookup(u.columns, u.rows[i], "longitude");
            (lat.Null? <==> lon.Null?) && (lat.Num? ==> lon.Num? && InAustin(lat.x, lon.x))
  {
    ParsedRow(t, i);
  }

  // ---------------------------------------------------------------- fire types

  const StructureKeywords: seq<string> :=
    ["STRUCTURE", "BOX", "APARTMENT", "HOUSE", "RESIDENTIAL", "COMMERCIAL", "BUILDING", "HIGHRISE", "HIGH RISE"]
  const VehicleKeywords: seq<string> := ["VEHICLE", "AUTO", "CAR", "TRUCK"]
  const OutdoorKeywords: seq<string> := ["GRASS", "BRUSH", "WILDLAND", "OUTSIDE"]
  const TrashKeywords: seq<string> := ["TRASH", "DUMP", "RUBBISH"]

  /** `problem.str.upper().fillna('')`: a missing or non-text problem reads as "". */
  function ProblemText(problem: Cell): (r: string)
    ensures !problem.Str? ==> r == ""
    ensures problem.Str? ==> r == Upper(problem.s)
  {
    if problem.Str? then Upper(problem.s) else ""
  }

  /** `text.str.contains('K1|K2|...')`: some keyword is a substring. */
  predicate MentionsAny(text: string, keywords: seq<string>) {
    exists w :: w in keywords && Contains(text, w)
  }

  datatype FireFlags = FireFlags(structure: bool, vehicle: bool, outdoor: bool, trash: bool)

  function FlagsOf(problem: Cell): (f: FireFlags)
    ensures f.structure == MentionsAny(ProblemText(problem), StructureKeywords)
    ensures f.vehicle == MentionsAny(ProblemText(problem), VehicleKeywords)
    ensures f.outdoor == MentionsAny(ProblemText(problem), OutdoorKeywords)
    ensures f.trash == MentionsAny(ProblemText(problem), TrashKeywords)
  {
    var text := ProblemText(problem);
    FireFlags(MentionsAny(text, StructureKeywords), MentionsAny(text, VehicleKeywords),
              MentionsAny(text, OutdoorKeywords), MentionsAny(text, TrashKeywords))
  }

  /** The empty text contains no keyword. */
  lemma NoKeywordInEmpty(keywords: seq<string>)
    requires forall w :: w in keywords ==> |w| > 0
    ensures !MentionsAny("", keywords)
  {
    forall w | w in keywords ensures !Contains("", w) {
    }
  }

  /** A missing (or non-text) problem raises no flag. */
  lemma MissingProblemNoFlags(problem: Cell)
    requires !problem.Str?
    ensures FlagsOf(problem) == FireFlags(false, false, false, false)
  {
    NoKeywordInEmpty(StructureKeywords);
    NoKeywordInEmpty(VehicleKeywords);
    NoKeywordInEmpty(OutdoorKeywords);
    NoKeywordInEmpty(TrashKeywords);
  }

  /** The flags do not depend on letter case. */
  lemma FlagsIgnoreCase(s: string)
    ensures FlagsOf(Str(Lower(s))) == FlagsOf(Str(s))
  {
    var a := Upper(Lower(s));
    var b := Upper(s);
    assert |a| == |b|;
    forall i | 0 <= i < |a| ensures a[i] == b[i] {
    }
    assert a == b;
  }

  datatype Category = StructureFire | VehicleFire | OutdoorFire | TrashFire | OtherIncident

  /** `categorize`: the first raised flag in the order structure, vehicle, outdoor, trash. */
  function Categorize(f: FireFlags): Category {
    if f.structure then StructureFire
    else if f.vehicle then VehicleFire
    else if f.outdoor then OutdoorFire
    else if f.trash then TrashFire
    else OtherIncident
  }

  function CategoryLabel(c: Category): string {
    match c
    case StructureFire => "Structure Fire"
    case VehicleFire => "Vehicle Fire"
    case OutdoorFire => "Outdoor/Vegetation Fire"
    case TrashFire => "Trash/Dumpster Fire"
    case OtherIncident => "Other"
  }

  /** The category of a problem text, in terms of the keyword lists and their priority. */
  lemma CategoryOfProblem(problem: Cell)
    ensures var c := Categorize(FlagsOf(problem));
            var text := ProblemText(problem);
            (c == StructureFire <==> MentionsAny(text, StructureKeywords)) &&
            (c == VehicleFire <==> !MentionsAny(text, StructureKeywords) && MentionsAny(text, VehicleKeywords)) &&
            (c == OutdoorFire <==> !MentionsAny(text, StructureKeywords) && !MentionsAny(text, VehicleKeywords) &&
                                   MentionsAny(text, OutdoorKeywords)) &&
            (c == TrashFire <==> !MentionsAny(text, StructureKeywords) && !MentionsAny(text, VehicleKeywords) &&
                                 !MentionsAny(text, OutdoorKeywords) && MentionsAny(text, TrashKeywords)) &&
            (c == OtherIncident <==> !MentionsAny(text, StructureKeywords) && !MentionsAny(text, VehicleKeywords) &&
                                     !MentionsAny(text, OutdoorKeywords) && !MentionsAny(text, TrashKeywords))
  {
  }

  /** The labels are distinct, so the category column determines the category. */
  lemma CategoryLabelsDistinct(c: Category, d: Category)
    ensures CategoryLabel(c) == CategoryLabel(d) ==> c == d
  {
  }

  const ProblemColumns: seq<string> := ["problem", "Problem", "call_type", "Call_Type"]

  const FlagColumns: seq<string> := ["is_structure_fire", "is_vehicle_fire", "is_outdoor_fire", "is_trash_fire"]

  function StructureCell(problem: Cell): Cell { Flag(FlagsOf(problem).structure) }
  function VehicleCell(problem: Cell): Cell { Flag(FlagsOf(problem).vehicle) }
  function OutdoorCell(problem: Cell): Cell { Flag(FlagsOf(problem).outdoor) }
  function TrashCell(problem: Cell): Cell { Flag(FlagsOf(problem).trash) }
  function CategoryCell(problem: Cell): Cell { Str(CategoryLabel(Categorize(FlagsOf(problem)))) }

  /** The four flag columns and the category column, derived from column `col`. */
  function ClassifyBy(t: Table, col: string): (u: Table)
    requires Rectangular(t)
    ensures Rectangular(u) && |u.rows| == |t.rows|
    ensures forall c :: c in t.columns ==> c in u.columns
  {
    var t1 := Derive(t, "is_structure_fire", col, StructureCell);
    var t2 := Derive(t1, "is_vehicle_fire", col, VehicleCell);
    var t3 := Derive(t2, "is_outdoor_fire", col, OutdoorCell);
    var t4 := Derive(t3, "is_trash_fire", col, TrashCell);
    Derive(t4, "incident_category", col, CategoryCell)
  }

  /**
   * `classify_incident_type`: without a problem column the frame is returned
   * as it is; otherwise the flags and the category are derived from the first
   * problem column present.
   */
  function ClassifyIncidentType(t: Table): (u: Table)
    requires Rectangular(t)
    ensures Rectangular(u) && |u.rows| == |t.rows|
    ensures FirstPresent(ProblemColumns, t.columns).None? ==> u == t
    ensures forall c :: c in t.columns ==> c in u.columns
  {
    match FirstPresent(ProblemColumns, t.columns)
    case None => t
    case Some(col) => ClassifyBy(t, col)
  }

  /** The problem column is none of the derived columns: their names all begin with `i`. */
  lemma ProblemColumnNotDerived(columns: seq<string>)
    requires FirstPresent(ProblemColumns, columns).Some?
    ensures var col := FirstPresent(ProblemColumns, columns).value;
            col != "is_structure_fire" && col != "is_vehicle_fire" && col != "is_outdoor_fire" &&
            col != "is_trash_fire" && col != "incident_category"
  {
    var col := FirstPresent(ProblemColumns, columns).value;
    var k :| 0 <= k < |ProblemColumns| && ProblemColumns[k] == col;
    assert col[0] != 'i';
  }

  /** The five derived column names are pairwise distinct. */
  lemma DerivedNamesDistinct()
    ensures "is_structure_fire" != "is_vehicle_fire" && "is_structure_fire" != "is_outdoor_fire"
    ensures "is_structure_fire" != "is_trash_fire" && "is_vehicle_fire" != "is_outdoor_fire"
    ensures "is_vehicle_fire" != "is_trash_fire" && "is_outdoor_fire" != "is_trash_fire"
    ensures "incident_category" != "is_structure_fire" && "incident_category" != "is_vehicle_fire"
    ensures "incident_category" != "is_outdoor_fire" && "incident_category" != "is_trash_fire"
  {
    assert "is_structure_fire"[3] == 's' && "is_vehicle_fire"[3] == 'v';
    assert "is_outdoor_fire"[3] == 'o' && "is_trash_fire"[3] == 't';
    assert "incident_category"[1] == 'n' && "is_structure_fire"[1] == 's' && "is_vehicle_fire"[1] == 's';
    assert "is_outdoor_fire"[1] == 's' && "is_trash_fire"[1] == 's';
  }

  /** Each row's flags and category come from that row's problem text. */
  lemma ClassifiedRow(t: Table, i: int)
    requires Rectangular(t) && 0 <= i < |t.rows| && FirstPresent(ProblemColumns, t.columns).Some?
    ensures var u := ClassifyIncidentType(t);
            var f := FlagsOf(Lookup(t.columns, t.rows[i], FirstPresent(ProblemColumns, t.columns).value));
            Lookup(u.columns, u.rows[i], "is_structure_fire") == Flag(f.structure) &&
            Lookup(u.columns, u.rows[i], "is_vehicle_fire") == Flag(f.vehicle) &&
            Lookup(u.columns, u.rows[i], "is_outdoor_fire") == Flag(f.outdoor) &&
            Lookup(u.columns, u.rows[i], "is_trash_fire") == Flag(f.trash) &&
            Lookup(u.columns, u.rows[i], "incident_category") == Str(CategoryLabel(Categorize(f)))
  {
    var col := FirstPresent(ProblemColumns, t.columns).value;
    ProblemColumnNotDerived(t.columns);
    DerivedNamesDistinct();
    var p := Lookup(t.columns, t.rows[i], col);
    var t1 := Derive(t, "is_structure_fire", col, StructureCell);
    var t2 := Derive(t1, "is_vehicle_fire", col, VehicleCell);
    var t3 := Derive(t2, "is_outdoor_fire", col, OutdoorCell);
    var t4 := Derive(t3, "is_trash_fire", col, TrashCell);
    var u := Derive(t4, "incident_category", col, CategoryCell);
    assert u == ClassifyIncidentType(t);
    assert Lookup(t1.columns, t1.rows[i], col) == p;
    assert Lookup(t2.columns, t2.rows[i], col) == p;
    assert Lookup(t3.columns, t3.rows[i], col) == p;
    assert Lookup(t4.columns, t4.rows[i], col) == p;
    assert Lookup(t1.columns, t1.rows[i], "is_structure_fire") == StructureCell(p);
    assert Lookup(t2.columns, t2.rows[i], "is_structure_fire") == StructureCell(p);
    assert Lookup(t3.columns, t3.rows[i], "is_structure_fire") == StructureCell(p);
    assert Lookup(t4.columns, t4.rows[i], "is_structure_fire") == StructureCell(p);
    assert Lookup(t2.columns, t2.rows[i], "is_vehicle_fire") == VehicleCell(p);
    assert Lookup(t3.columns, t3.rows[i], "is_vehicle_fire") == VehicleCell(p);
    assert Lookup(t4.columns, t4.rows[i], "is_vehicle_fire") == VehicleCell(p);
    assert Lookup(t3.columns, t3.rows[i], "is_outdoor_fire") == OutdoorCell(p);
    assert Lookup(t4.columns, t4.rows[i], "is_outdoor_fire") == OutdoorCell(p);
    assert Lookup(t4.columns, t4.rows[i], "is_trash_fire") == TrashCell(p);
  }

  /** Classification leaves every other column of every row as it was. */
  lemma ClassifyKeepsOthers(t: Table, i: int, other: string)
    requires Rectangular(t) && 0 <= i < |t.rows|
    requires other !in FlagColumns && other != "incident_category"
    ensures var u := ClassifyIncidentType(t);
            Get(u.columns, u.rows[i], other) == Get(t.columns, t.rows[i], other)
  {
    if FirstPresent(ProblemColumns, t.columns).Some? {
      var col := FirstPresent(ProblemColumns, t.columns).value;
      assert ClassifyIncidentType(t) == ClassifyBy(t, col);
      NotFlagColumn(other);
      ClassifyByKeeps(t, col, i, other);
    }
  }

  /** Proof step of ClassifyKeepsOthers: a name outside the flag list is none of the four flag names. */
  lemma NotFlagColumn(other: string)
    requires other !in FlagColumns
    ensures other != "is_structure_fire" && other != "is_vehicle_fire"
    ensures other != "is_outdoor_fire" && other != "is_trash_fire"
  {
    assert FlagColumns[0] == "is_structure_fire" && FlagColumns[1] == "is_vehicle_fire";
    assert FlagColumns[2] == "is_outdoor_fire" && FlagColumns[3] == "is_trash_fire";
  }

  /** Deriving the flags and the category leaves every other column as it was. */
  lemma ClassifyByKeeps(t: Table, col: string, i: int, other: string)
    requires Rectangular(t) && 0 <= i < |t.rows|
    requires other != "is_structure_fire" && other != "is_vehicle_fire" && other != "is_outdoor_fire"
    requires other != "is_trash_fire" && other != "incident_category"
    ensures var u := ClassifyBy(t, col);
            Get(u.columns, u.rows[i], other) == Get(t.columns, t.rows[i], other)
  {
    var t1 := Derive(t, "is_structure_fire", col, StructureCell);
    var t2 := Derive(t1, "is_vehicle_fire", col, VehicleCell);
    var t3 := Derive(t2, "is_outdoor_fire", col, OutdoorCell);
    var t4 := Derive(t3, "is_trash_fire", col, TrashCell);
    DeriveKeeps(t, "is_structure_fire", col, StructureCell, i, other);
    DeriveKeeps(t1, "is_vehicle_fire", col, VehicleCell, i, other);
    DeriveKeeps(t2, "is_outdoor_fire", col, OutdoorCell, i, other);
    DeriveKeeps(t3, "is_trash_fire", col, TrashCell, i, other);
    DeriveKeeps(t4, "incident_category", col, CategoryCell, i, other);
  }

  // ---------------------------------------------------------------- row selection

  const JurisdictionColumns: seq<string> := ["jurisdiction", "Jurisdiction"]

  const IncidentNumberColumns: seq<string> :=
    ["incident_number", "Incident_Number", "masterincidentnumber", "MasterIncidentNumber"]

  /** `jurisdiction.str.upper() == 'AFD'`; a missing jurisdiction compares unequal. */
  predicate IsAfd(c: Cell) {
    c.Str? && Upper(c.s) == "AFD"
  }

  function AfdMask(columns: seq<string>, col: string): Row -> bool {
    r => IsAfd(Lookup(columns, r, col))
  }

  /** `df = df[df[jurisdiction_col].str.upper() == 'AFD']`, when a jurisdiction column exists. */
  function KeepAfd(t: Table): (u: Table)
    requires Rectangular(t)
    ensures u.columns == t.columns && Rectangular(u)
    ensures FirstPresent(JurisdictionColumns, t.columns).None? ==> u == t
  {
    match FirstPresent(JurisdictionColumns, t.columns)
    case None => t
    case Some(col) =>
      var kept := Filter(t.rows, AfdMask(t.columns, col));
      assert forall i :: 0 <= i < |kept| ==> kept[i] in t.rows;
      Table(t.columns, kept)
  }

  /**
   * With a jurisdiction column, the filter keeps exactly the AFD rows, in order:
   * every kept row is AFD, every AFD row is kept, the result is a subsequence
   * of the input, and the filter is applied element by element.
   */
  lemma KeepAfdExactly(t: Table, col: string)
    requires Rectangular(t) && FirstPresent(JurisdictionColumns, t.columns) == Some(col)
    ensures forall r :: r in KeepAfd(t).rows ==> IsAfd(Lookup(t.columns, r, col))
    ensures forall i :: 0 <= i < |t.rows| && IsAfd(Lookup(t.columns, t.rows[i], col)) ==> t.rows[i] in KeepAfd(t).rows
    ensures Subseq(KeepAfd(t).rows, t.rows)
    ensures forall a, b :: t.rows == a + b ==>
              KeepAfd(t).rows == Filter(a, AfdMask(t.columns, col)) + Filter(b, AfdMask(t.columns, col))
  {
    var p := AfdMask(t.columns, col);
    FilterKeepsAll(t.rows, p);
    FilterSubseq(t.rows, p);
    forall a, b | t.rows == a + b
      ensures Filter(t.rows, p) == Filter(a, p) + Filter(b, p)
    {
      FilterAppend(a, b, p);
    }
  }

  lemma KeepAfdIdempotent(t: Table)
    requires Rectangular(t)
    ensures KeepAfd(KeepAfd(t)) == KeepAfd(t)
  {
    match FirstPresent(JurisdictionColumns, t.columns)
    case None =>
    case Some(col) => FilterIdempotent(t.rows, AfdMask(t.columns, col));
  }

  function IncidentKey(columns: seq<string>, col: string): Row -> Cell {
    r => Lookup(columns, r, col)
  }

  /** `df.drop_duplicates(subset=[incident_col], keep='first')`, when an incident-number column exists. */
  function DropDuplicates(t: Table): (u: Table)
    requires Rectangular(t)
    ensures u.columns == t.columns && Rectangular(u) && |u.rows| <= |t.rows|
    ensures FirstPresent(IncidentNumberColumns, t.columns).None? ==> u == t
  {
    match FirstPresent(IncidentNumberColumns, t.columns)
    case None => t
    case Some(col) =>
      var d := Dedup(t.rows, IncidentKey(t.columns, col));
      DedupSubseqMembers(t.rows, IncidentKey(t.columns, col));
      assert forall i :: 0 <= i < |d| ==> d[i] in t.rows;
      Table(t.columns, d)
  }

  /** Deduplicated rows are rows of the input. */
  lemma DedupSubseqMembers(rows: seq<Row>, key: Row -> Cell)
    ensures forall r :: r in Dedup(rows, key) ==> r in rows
    ensures |Dedup(rows, key)| <= |rows|
  {
    DedupSubseq(rows, key);
    SubseqMembers(Dedup(rows, key), rows);
  }

  /**
   * With an incident-number column: the incident numbers of the result are
   * distinct, the result is a subsequence of the input with the same set of
   * incident numbers, and each kept row is the first row of the input with its
   * number.
   */
  lemma DropDuplicatesSpec(t: Table, col: string)
    requires Rectangular(t) && FirstPresent(IncidentNumberColumns, t.columns) == Some(col)
    ensures var u := DropDuplicates(t).rows;
            forall i, j :: 0 <= i < j < |u| ==> Lookup(t.columns, u[i], col) != Lookup(t.columns, u[j], col)
    ensures Subseq(DropDuplicates(t).rows, t.rows)
    ensures KeySet(DropDuplicates(t).rows, IncidentKey(t.columns, col)) == KeySet(t.rows, IncidentKey(t.columns, col))
    ensures var u := DropDuplicates(t).rows;
            forall j :: 0 <= j < |u| ==>
              u[j] == FirstWithKey(t.rows, IncidentKey(t.columns, col), Lookup(t.columns, u[j], col))
  {
    DropDuplicatesDistinct(t, col);
    DropDuplicatesCovers(t, col);
    DropDuplicatesFirsts(t, col);
  }

  lemma DropDuplicatesDistinct(t: Table, col: string)
    requires Rectangular(t) && FirstPresent(IncidentNumberColumns, t.columns) == Some(col)
    ensures var u := DropDuplicates(t).rows;
            forall i, j :: 0 <= i < j < |u| ==> Lookup(t.columns, u[i], col) != Lookup(t.columns, u[j], col)
    ensures Subseq(DropDuplicates(t).rows, t.rows)
  {
    DropDuplicatesRows(t, col);
    DedupUnique(t.rows, IncidentKey(t.columns, col));
    DedupSubseq(t.rows, IncidentKey(t.columns, col));
  }

  lemma DropDuplicatesCovers(t: Table, col: string)
    requires Rectangular(t) && FirstPresent(IncidentNumberColumns, t.columns) == Some(col)
    ensures KeySet(DropDuplicates(t).rows, IncidentKey(t.columns, col)) == KeySet(t.rows, IncidentKey(t.columns, col))
  {
    DropDuplicatesRows(t, col);
  }

  lemma DropDuplicatesFirsts(t: Table, col: string)
    requires Rectangular(t) && FirstPresent(IncidentNumberColumns, t.columns) == Some(col)
    ensures var u := DropDuplicates(t).rows;
            forall j :: 0 <= j < |u| ==>
              u[j] == FirstWithKey(t.rows, IncidentKey(t.columns, col), Lookup(t.columns, u[j], col))
  {
    DropDuplicatesRows(t, col);
    DedupKeepsFirst(t.rows, IncidentKey(t.columns, col));
  }

  lemma DropDuplicatesRows(t: Table, col: string)
    requires Rectangular(t) && FirstPresent(IncidentNumberColumns, t.columns) == Some(col)
    ensures DropDuplicates(t).rows == Dedup(t.rows, IncidentKey(t.columns, col))
  {
  }

  lemma DropDuplicatesIdempotent(t: Table)
    requires Rectangular(t)
    ensures DropDuplicates(DropDuplicates(t)) == DropDuplicates(t)
  {
    match FirstPresent(IncidentNumberColumns, t.columns)
    case None =>
    case Some(col) => DedupIdempotent(t.rows, IncidentKey(t.columns, col));
  }

  // ---------------------------------------------------------------- combining the two extracts

  /** The names of `b` that `a` lacks, in order. */
  function MissingFrom(a: seq<string>, b: seq<string>): (r: seq<string>)
    ensures forall c :: c in r <==> c in b && c !in a
    decreases |b|
  {
    if b == [] then []
    else if b[0] in a then MissingFrom(a, b[1..])
    else [b[0]] + MissingFrom(a, b[1..])
  }

  /** A row of a frame with columns `from`, laid out for columns `to`; absent columns are missing. */
  function Realign(from: seq<string>, row: Row, to: seq<string>): (r: Row)
    ensures |r| == |to|
  {
    seq(|to|, k requires 0 <= k < |to| => Lookup(from, row, to[k]))
  }

  lemma RealignLookup(from: seq<string>, row: Row, to: seq<string>, name: string)
    requires name in from ==> name in to
    ensures Lookup(to, Realign(from, row, to), name) == Lookup(from, row, name)
  {
  }

  /** `pd.concat([a, b], ignore_index=True)`: the rows of `a`, then those of `b`, over the union of columns. */
  function Concat(a: Table, b: Table): (u: Table)
    ensures Rectangular(u) && |u.rows| == |a.rows| + |b.rows|
    ensures forall c :: c in u.columns <==> c in a.columns || c in b.columns
    ensures forall i, name :: 0 <= i < |a.rows| ==>
              Lookup(u.columns, u.rows[i], name) == Lookup(a.columns, a.rows[i], name)
    ensures forall i, name :: |a.rows| <= i < |u.rows| ==>
              Lookup(u.columns, u.rows[i], name) == Lookup(b.columns, b.rows[i - |a.rows|], name)
  {
    var cols := a.columns + MissingFrom(a.columns, b.columns);
    var rows := seq(|a.rows| + |b.rows|, i requires 0 <= i < |a.rows| + |b.rows| =>
                  if i < |a.rows| then Realign(a.columns, a.rows[i], cols)
                  else Realign(b.columns, b.rows[i - |a.rows|], cols));
    forall i | 0 <= i < |rows| ensures |rows[i]| == |cols| {
      if i < |a.rows| {
        assert rows[i] == Realign(a.columns, a.rows[i], cols);
      } else {
        assert rows[i] == Realign(b.columns, b.rows[i - |a.rows|], cols);
      }
    }
    forall i, name | 0 <= i < |rows|
      ensures Lookup(cols, rows[i], name) ==
              (if i < |a.rows| then Lookup(a.columns, a.rows[i], name)
               else Lookup(b.columns, b.rows[i - |a.rows|], name))
    {
      if i < |a.rows| {
        RealignLookup(a.columns, a.rows[i], cols, name);
      } else {
        RealignLookup(b.columns, b.rows[i - |a.rows|], cols, name);
      }
    }
    Table(cols, rows)
  }

  // ---------------------------------------------------------------- the cleaning step

  /** The frame after the columns are standardised and the two extracts combined. */
  function Combined(recent: Table, historical: Option<Table>): (t: Table)
    requires Rectangular(recent) && (historical.Some? ==> Rectangular(historical.value))
    ensures Rectangular(t)
  {
    if historical.Some?
    then Concat(StandardizeColumns(recent), StandardizeColumns(historical.value))
    else StandardizeColumns(recent)
  }

  /**
   * `main` of the cleaning step, up to the saved table. None where the script
   * stops with a KeyError: no "latitude" column after `parse_location`, or no
   * "incident_category" column after `classify_incident_type`.
   */
  function CleanIncidents(recent: Table, historical: Option<Table>): (r: Option<Table>)
    requires Rectangular(recent) && (historical.Some? ==> Rectangular(historical.value))
    ensures r.Some? ==> Rectangular(r.value) && "incident_category" in r.value.columns && "latitude" in r.value.columns
  {
    var located := ParseLocation(Combined(recent, historical));
    if "latitude" !in located.columns then None
    else
      var classified := ClassifyIncidentType(DropDuplicates(KeepAfd(located)));
      if "incident_category" !in classified.columns then None
      else Some(classified)
  }

  /** A frame with a location column and a problem column is cleaned without error. */
  lemma CleanSucceeds(recent: Table, historical: Option<Table>)
    requires Rectangular(recent) && (historical.Some? ==> Rectangular(historical.value))
    requires "location" in Combined(recent, historical).columns
    requires FirstPresent(ProblemColumns, Combined(recent, historical).columns).Some?
    ensures CleanIncidents(recent, historical).Some?
  {
    var c := Combined(recent, historical);
    var located := ParseLocation(c);
    var deduped := DropDuplicates(KeepAfd(located));
    assert "latitude" in located.columns;
    assert forall x :: x in c.columns ==> x in located.columns;
    assert ProblemColumns[0] in c.columns || ProblemColumns[1] in c.columns ||
           ProblemColumns[2] in c.columns || ProblemColumns[3] in c.columns;
    assert FirstPresent(ProblemColumns, deduped.columns).Some?;
    var col := FirstPresent(ProblemColumns, deduped.columns).value;
    var t1 := Derive(deduped, "is_structure_fire", col, StructureCell);
    var t2 := Derive(t1, "is_vehicle_fire", col, VehicleCell);
    var t3 := Derive(t2, "is_outdoor_fire", col, OutdoorCell);
    var t4 := Derive(t3, "is_trash_fire", col, TrashCell);
    assert ClassifyIncidentType(deduped) == Derive(t4, "incident_category", col, CategoryCell);
  }

  /** The cleaned frame as the script mutates it. */
  class IncidentFrame {
    var columns: seq<string>
    var rows: seq<Row>

    ghost predicate Valid()
      reads this
    {
      Rectangular(Table(columns, rows))
    }

    function Snapshot(): Table
      reads this
    {
      Table(columns, rows)
    }

    constructor (t: Table)
      requires Rectangular(t)
      ensures Valid() && Snapshot() == t
    {
      columns := t.columns;
      rows := t.rows;
    }

    /** `standardize_columns(df)`: `df.columns = ...` */
    method Standardize()
      requires Valid()
      modifies this
      ensures Valid() && Snapshot() == StandardizeColumns(old(Snapshot()))
    {
      columns := NormalizeNames(columns);
    }

    /** `parse_location(df)`: writes both coordinates, then clears those outside the box. */
    method Locate()
      requires Valid()
      modifies this
      ensures Valid() && Snapshot() == ParseLocation(old(Snapshot()))
    {
      if "location" in columns {
        var raw := WriteRawAxes(Snapshot());
        columns, rows := raw.columns, raw.rows;
        rows := ClearOutside(raw).rows;
      }
    }

    /** `classify_incident_type(df)`: adds the four flag columns, then the category. */
    method Classify()
      requires Valid()
      modifies this
      ensures Valid() && Snapshot() == ClassifyIncidentType(old(Snapshot()))
    {
      var problem := FindFirstPresent(ProblemColumns, columns);
      if problem.Some? {
        var col := problem.value;
        var t := Derive(Snapshot(), "is_structure_fire", col, StructureCell);
        t := Derive(t, "is_vehicle_fire", col, VehicleCell);
        t := Derive(t, "is_outdoor_fire", col, OutdoorCell);
        t := Derive(t, "is_trash_fire", col, TrashCell);
        t := Derive(t, "incident_category", col, CategoryCell);
        columns, rows := t.columns, t.rows;
      }
    }

    /** `df = df[...]` and `df = df.drop_duplicates(...)`: the frame is replaced by a row selection. */
    method SelectRows()
      requires Valid()
      modifies this
      ensures Valid() && Snapshot() == DropDuplicates(KeepAfd(old(Snapshot())))
    {
      var jurisdiction := FindFirstPresent(JurisdictionColumns, columns);
      if jurisdiction.Some? {
        rows := KeepAfd(Snapshot()).rows;
      }
      var incident := FindFirstPresent(IncidentNumberColumns, columns);
      if incident.Some? {
        rows := DropDuplicates(Snapshot()).rows;
      }
    }
  }

  /** `main` of the cleaning step, statement by statement. */
  method Clean(recent: Table, historical: Option<Table>) returns (r: Option<Table>)
    requires Rectangular(recent) && (historical.Some? ==> Rectangular(historical.value))
    ensures r == CleanIncidents(recent, historical)
  {
    var df := new IncidentFrame(recent);
    df.Standardize();
    if historical.Some? {
      var old_df := new IncidentFrame(historical.value);
      old_df.Standardize();
      df := new IncidentFrame(Concat(df.Snapshot(), old_df.Snapshot()));
    }
    df.Locate();
    if "latitude" !in df.columns {
      return None;
    }
    df.SelectRows();
    df.Classify();
    if "incident_category" !in df.columns {
      return None;
    }
    return Some(df.Snapshot());
  }
}
