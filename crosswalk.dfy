/**
 * The areal-weighted crosswalk between census tracts and fire response areas
 * (`create_crosswalk`), and the reallocation of tract counts to response areas
 * (`allocate_demographics`): every count of a tract is split among the areas
 * that overlap it in proportion to the overlapping area, summed per area, and
 * turned into percentages, a population density and a density class.
 *
 * The polygon overlay is an input: one `Piece` per intersection polygon, naming
 * the tract row, the response-area row and the area of the intersection.
 */
module Crosswalk {
  import opened Wrappers
  import opened Numeric
  import opened Text
  import opened Columns
  import opened Frames
  import opened Sequences
  import opened Joins
  import opened Grouping
  import opened Census

  // ---------------------------------------------------------------- tract ids

  /** The tract id columns tried, in order. */
  const TractIdCandidates: seq<string> := ["GEOID", "GEOID20", "GEOID10", "TRACTCE", "TRACTCE20"]

  /** State 48 (Texas) and county 453 (Travis), put in front of a bare tract code. */
  const CountyPrefix: string := "48453"

  /** `.str.len().max()`: the length of the longest string cell, None (NaN) when no cell is a string. */
  function MaxTextLength(cells: seq<Cell>): (r: Option<nat>)
    ensures r.Some? ==> exists i :: 0 <= i < |cells| && cells[i].Str? && |cells[i].s| == r.value
    ensures r.Some? ==> forall i :: 0 <= i < |cells| && cells[i].Str? ==> |cells[i].s| <= r.value
    ensures r.None? <==> forall i :: 0 <= i < |cells| ==> !cells[i].Str?
    decreases |cells|
  {
    if cells == [] then None
    else
      var init := cells[..|cells| - 1];
      var last := cells[|cells| - 1];
      var m := MaxTextLength(init);
      assert forall i :: 0 <= i < |init| ==> init[i] == cells[i];
      if !last.Str? then m
      else if m.Some? && m.value >= |last.s| then m
      else Some(|last.s|)
  }

  /**
   * The `.str` accessor exists only on a column of strings; a column without a
   * single string cell has a numeric dtype and `.str.len()` raises.
   */
  predicate StringColumn(cells: seq<Cell>) {
    cells == [] || exists i :: 0 <= i < |cells| && cells[i].Str?
  }

  /** A bare tract code made a full GEOID. */
  function PrefixedId(c: Cell): string {
    CountyPrefix + ZFill(CellText(c), 6)
  }

  /**
   * The tract ids as the allocation compares them (`astype(str)`): when the
   * longest code has 6 characters every code is a bare tract code and gets the
   * county prefix; otherwise the codes are kept. None: `.str` raised.
   */
  function TractIds(cells: seq<Cell>): (r: Option<seq<string>>)
    ensures r.None? <==> !StringColumn(cells)
    ensures r.Some? ==> |r.value| == |cells|
  {
    if !StringColumn(cells) then None
    else if MaxTextLength(cells) == Some(6) then
      Some(seq(|cells|, i requires 0 <= i < |cells| => PrefixedId(cells[i])))
    else
      Some(seq(|cells|, i requires 0 <= i < |cells| => CellText(cells[i])))
  }

  /**
   * When the longest code has 6 characters, every string code becomes the
   * 11-character GEOID "48453" + the code padded to 6; otherwise every string
   * code is kept as it is.
   */
  lemma TractIdsPrefix(cells: seq<Cell>)
    requires StringColumn(cells)
    ensures MaxTextLength(cells) == Some(6) ==>
              forall i :: 0 <= i < |cells| && cells[i].Str? ==>
                var id := TractIds(cells).value[i];
                |id| == 11 && id[..5] == CountyPrefix && id[5..] == ZFill(cells[i].s, 6)
    ensures MaxTextLength(cells) != Some(6) ==>
              forall i :: 0 <= i < |cells| && cells[i].Str? ==> TractIds(cells).value[i] == cells[i].s
  {
    if MaxTextLength(cells) == Some(6) {
      forall i | 0 <= i < |cells| && cells[i].Str?
        ensures |TractIds(cells).value[i]| == 11
      {
        ZFillLength(cells[i].s, 6);
      }
    }
  }

  /** A prefixed tract code is the GEOID the census side builds for Travis County. */
  lemma PrefixedIdIsGeoId(tract: string)
    ensures PrefixedId(Str(tract)) == GeoId("48", "453", tract)
  {
  }

  // ------------------------------------------------------- response-area id

  /** The dtypes the id column test distinguishes. */
  datatype ColumnKind = ObjectColumn | Int64Column | OtherColumn

  /** A column of the response-area layer: its name and dtype. */
  datatype LayerColumn = LayerColumn(name: string, kind: ColumnKind)

  /** The name mentions "response", or mentions "area" without "id" (lower-cased). */
  predicate NamesArea(name: string) {
    Contains(Lower(name), "response") || (Contains(Lower(name), "area") && !Contains(Lower(name), "id"))
  }

  /** A column that can serve as the response-area id: a telling name and an object or int64 dtype. */
  predicate IsAreaIdColumn(c: LayerColumn) {
    NamesArea(c.name) && (c.kind.ObjectColumn? || c.kind.Int64Column?)
  }

  predicate NotGeometry(c: LayerColumn) {
    c.name != "geometry"
  }

  /**
   * The response-area id column: the first qualifying column, else the first
   * column that is not the geometry; None is the IndexError of an empty list.
   */
  function AreaIdColumn(cols: seq<LayerColumn>): (r: Option<string>)
    ensures r.Some? ==> exists k :: 0 <= k < |cols| && cols[k].name == r.value
    ensures (exists k :: 0 <= k < |cols| && IsAreaIdColumn(cols[k])) ==>
              exists k :: 0 <= k < |cols| && r == Some(cols[k].name) && IsAreaIdColumn(cols[k]) &&
                forall j :: 0 <= j < k ==> !IsAreaIdColumn(cols[j])
    ensures (forall k :: 0 <= k < |cols| ==> !IsAreaIdColumn(cols[k])) ==>
              (r.None? <==> forall k :: 0 <= k < |cols| ==> cols[k].name == "geometry")
  {
    match FirstWhere(cols, IsAreaIdColumn)
    case Some(k) => Some(cols[k].name)
    case None =>
      match FirstWhere(cols, NotGeometry)
      case Some(k) => Some(cols[k].name)
      case None => None
  }

  /** The scan with `break`, then the fallback, as `create_crosswalk` writes them. */
  method ChooseAreaIdColumn(cols: seq<LayerColumn>) returns (r: Option<string>)
    ensures r == AreaIdColumn(cols)
  {
    r := None;
    var i := 0;
    while i < |cols|
      invariant 0 <= i <= |cols|
      invariant r.None?
      invariant forall j :: 0 <= j < i ==> !IsAreaIdColumn(cols[j])
    {
      if NamesArea(cols[i].name) {
        if cols[i].kind.ObjectColumn? || cols[i].kind.Int64Column? {
          r := Some(cols[i].name);
          break;
        }
      }
      i := i + 1;
    }
    if r.None? {
      var fallback := FindFirstWhere(cols, NotGeometry);
      if fallback.Some? {
        r := Some(cols[fallback.value].name);
      }
    }
  }

  // ------------------------------------------------------------- crosswalk

  /** One intersection polygon of the overlay: tract row, response-area row, its area in m². */
  datatype Piece = Piece(tract: nat, area: nat, intersectArea: real)

  /** One crosswalk row. */
  datatype CrosswalkRow = CrosswalkRow(geoid: string, areaId: Cell, weight: Float, tractArea: real, intersectArea: real)

  function RowGeoId(c: CrosswalkRow): string { c.geoid }
  function AreaOf(c: CrosswalkRow): Cell { c.areaId }

  /** The share of the tract that lies in the response area (`intersect_area / tract_area`). */
  function Weight(intersectArea: real, tractArea: real): (w: Float)
    ensures tractArea != 0.0 ==> w == Finite(intersectArea / tractArea)
    ensures tractArea == 0.0 ==> !w.Finite?
  {
    Div(Finite(intersectArea), Finite(tractArea))
  }

  /** A piece no larger than its tract has a weight between 0 and 1. */
  lemma WeightInUnitRange(intersectArea: real, tractArea: real)
    requires 0.0 <= intersectArea <= tractArea && tractArea > 0.0
    ensures Weight(intersectArea, tractArea).Finite?
    ensures 0.0 <= Weight(intersectArea, tractArea).value <= 1.0
  {
    var q := intersectArea / tractArea;
    assert q * tractArea == intersectArea;
  }

  predicate PiecesIn(pieces: seq<Piece>, tracts: nat, areas: nat) {
    forall i :: 0 <= i < |pieces| ==> pieces[i].tract < tracts && pieces[i].area < areas
  }

  /**
   * `create_crosswalk`: the tract ids, the response-area id column and one row
   * per overlay piece. None is a KeyError (no tract id column), an
   * AttributeError (`.str` on a numeric id column) or an IndexError (no column
   * but the geometry).
   */
  function MakeCrosswalk(tracts: Table, tractAreas: seq<real>, areas: Table, kinds: seq<ColumnKind>, pieces: seq<Piece>)
    : (r: Option<(seq<CrosswalkRow>, string)>)
    requires |tractAreas| == |tracts.rows| && |kinds| == |areas.columns|
    requires PiecesIn(pieces, |tracts.rows|, |areas.rows|)
    ensures r.Some? ==> |r.value.0| == |pieces|
    ensures r.Some? ==> forall i :: 0 <= i < |pieces| ==>
              r.value.0[i].weight == Weight(pieces[i].intersectArea, tractAreas[pieces[i].tract]) &&
              r.value.0[i].areaId == Lookup(areas.columns, areas.rows[pieces[i].area], r.value.1)
  {
    match FirstPresent(TractIdCandidates, tracts.columns)
    case None => None
    case Some(idCol) =>
      var ids := TractIds(ColumnCells(tracts, idCol));
      var idColumn := AreaIdColumn(LayerColumns(areas.columns, kinds));
      if ids.None? || idColumn.None? then None
      else
        Some((seq(|pieces|, i requires 0 <= i < |pieces| =>
                CrosswalkRow(ids.value[pieces[i].tract],
                             Lookup(areas.columns, areas.rows[pieces[i].area], idColumn.value),
                             Weight(pieces[i].intersectArea, tractAreas[pieces[i].tract]),
                             tractAreas[pieces[i].tract], pieces[i].intersectArea)),
              idColumn.value))
  }

  function LayerColumns(names: seq<string>, kinds: seq<ColumnKind>): (r: seq<LayerColumn>)
    requires |names| == |kinds|
    ensures |r| == |names| && forall k :: 0 <= k < |names| ==> r[k] == LayerColumn(names[k], kinds[k])
  {
    seq(|names|, k requires 0 <= k < |names| => LayerColumn(names[k], kinds[k]))
  }

  /** `create_crosswalk` step by step: the two column scans, then the rows. */
  method CreateCrosswalk(tracts: Table, tractAreas: seq<real>, areas: Table, kinds: seq<ColumnKind>, pieces: seq<Piece>)
    returns (r: Option<(seq<CrosswalkRow>, string)>)
    requires |tractAreas| == |tracts.rows| && |kinds| == |areas.columns|
    requires PiecesIn(pieces, |tracts.rows|, |areas.rows|)
    ensures r == MakeCrosswalk(tracts, tractAreas, areas, kinds, pieces)
  {
    var idCol := FindFirstPresent(TractIdCandidates, tracts.columns);
    if idCol.None? {
      return None;
    }
    var ids := TractIds(ColumnCells(tracts, idCol.value));
    var idColumn := ChooseAreaIdColumn(LayerColumns(areas.columns, kinds));
    if ids.None? || idColumn.None? {
      return None;
    }
    var rows := seq(|pieces|, i requires 0 <= i < |pieces| =>
      CrosswalkRow(ids.value[pieces[i].tract],
                   Lookup(areas.columns, areas.rows[pieces[i].area], idColumn.value),
                   Weight(pieces[i].intersectArea, tractAreas[pieces[i].tract]),
                   tractAreas[pieces[i].tract], pieces[i].intersectArea));
    r := Some((rows, idColumn.value));
  }

  /** Every weight is a number: no tract of zero area. */
  predicate FiniteWeights(cw: seq<CrosswalkRow>) {
    forall i :: 0 <= i < |cw| ==> cw[i].weight.Finite?
  }

  function WeightValue(c: CrosswalkRow): real {
    if c.weight.Finite? then c.weight.value else 0.0
  }

  function IntersectAreaOf(c: CrosswalkRow): real { c.intersectArea }

  /** `crosswalk.groupby('GEOID')['weight'].sum()` at tract `g`. */
  function WeightSum(cw: seq<CrosswalkRow>, g: string): real {
    SumWhere(cw, HasKey(RowGeoId, g), WeightValue)
  }

  /**
   * A tract's weights sum to the part of its area the pieces cover: they sum
   * to 1 exactly when the pieces cover the whole tract.
   */
  lemma WeightSumCoverage(cw: seq<CrosswalkRow>, g: string, tractArea: real)
    requires tractArea > 0.0
    requires forall i :: 0 <= i < |cw| && cw[i].geoid == g ==>
               cw[i].weight == Weight(cw[i].intersectArea, tractArea)
    ensures SumWhere(cw, HasKey(RowGeoId, g), IntersectAreaOf) == tractArea * SumWhere(cw, HasKey(RowGeoId, g), WeightValue)
  {
    PiecesOfTract(cw, g, tractArea);
    ScaledAreas(cw, g, tractArea);
  }

  /** The weights of tract `g` sum to 1 exactly when its pieces cover all of it. */
  lemma FullCoverage(cw: seq<CrosswalkRow>, g: string, tractArea: real)
    requires tractArea > 0.0
    requires forall i :: 0 <= i < |cw| && cw[i].geoid == g ==>
               cw[i].weight == Weight(cw[i].intersectArea, tractArea)
    ensures WeightSum(cw, g) == 1.0 <==> SumWhere(cw, HasKey(RowGeoId, g), IntersectAreaOf) == tractArea
  {
    WeightSumCoverage(cw, g, tractArea);
    CoveredWhenUnit(cw, g, tractArea);
  }

  lemma CoveredWhenUnit(cw: seq<CrosswalkRow>, g: string, tractArea: real)
    requires tractArea > 0.0
    requires SumWhere(cw, HasKey(RowGeoId, g), IntersectAreaOf) == tractArea * SumWhere(cw, HasKey(RowGeoId, g), WeightValue)
    ensures WeightSum(cw, g) == 1.0 <==> SumWhere(cw, HasKey(RowGeoId, g), IntersectAreaOf) == tractArea
  {
    var ws := SumWhere(cw, HasKey(RowGeoId, g), WeightValue);
    assert WeightSum(cw, g) == ws;
    Cancel(tractArea, ws);
  }

  /** Arithmetic step of CoveredWhenUnit: cancelling a non-zero factor. */
  lemma Cancel(a: real, x: real)
    requires a > 0.0
    ensures a * x == a <==> x == 1.0
  {
  }

  lemma ScaledAreas(cw: seq<CrosswalkRow>, g: string, tractArea: real)
    requires forall i :: 0 <= i < |cw| && HasKey(RowGeoId, g)(cw[i]) ==>
               IntersectAreaOf(cw[i]) == tractArea * WeightValue(cw[i])
    ensures SumWhere(cw, HasKey(RowGeoId, g), IntersectAreaOf) == tractArea * SumWhere(cw, HasKey(RowGeoId, g), WeightValue)
  {
    SumWhereScale(cw, HasKey(RowGeoId, g), IntersectAreaOf, WeightValue, tractArea);
  }

  /** Each piece of a tract covers its weight times the tract's area. */
  lemma PiecesOfTract(cw: seq<CrosswalkRow>, g: string, tractArea: real)
    requires tractArea > 0.0
    requires forall i :: 0 <= i < |cw| && cw[i].geoid == g ==>
               cw[i].weight == Weight(cw[i].intersectArea, tractArea)
    ensures forall i :: 0 <= i < |cw| && HasKey(RowGeoId, g)(cw[i]) ==>
              IntersectAreaOf(cw[i]) == tractArea * WeightValue(cw[i])
  {
    forall i | 0 <= i < |cw| && HasKey(RowGeoId, g)(cw[i])
      ensures IntersectAreaOf(cw[i]) == tractArea * WeightValue(cw[i])
    {
      assert RowGeoId(cw[i]) == g;
      DivTimes(cw[i].intersectArea, tractArea);
    }
  }

  /** Arithmetic step: a quotient times its divisor. */
  lemma DivTimes(a: real, b: real)
    requires b != 0.0
    ensures b * (a / b) == a
  {
  }

  // ------------------------------------------------------------ allocation

  /** The census counts reallocated, in the order of `numeric_cols`. */
  datatype Measure =
    | Population | TotalUnits | SingleFamily | Duplex | SmallMultifamily | LargeMultifamily
    | Multifamily | MobileOther | YbTotal | Built2010Plus | Built1970To2009 | BuiltPre1970

  const AllMeasures: seq<Measure> := [Population, TotalUnits, SingleFamily, Duplex, SmallMultifamily,
    LargeMultifamily, Multifamily, MobileOther, YbTotal, Built2010Plus, Built1970To2009, BuiltPre1970]

  predicate IsAgeMeasure(m: Measure) {
    m.YbTotal? || m.Built2010Plus? || m.Built1970To2009? || m.BuiltPre1970?
  }

  /** The measure is a column of the merged table: the age columns exist only with year-built data. */
  predicate Present(m: Measure, hasAge: bool) {
    hasAge || !IsAgeMeasure(m)
  }

  /** One tract's value of a measure; missing when its side of the census merge was not matched. */
  function MeasureOf(t: Tract, m: Measure): Option<real> {
    match m
    case Population => t.population
    case TotalUnits => if t.housing.Some? then t.housing.value.totalUnits else None
    case SingleFamily => if t.housing.Some? then Some(t.housing.value.singleFamily) else None
    case Duplex => if t.housing.Some? then Some(t.housing.value.duplex) else None
    case SmallMultifamily => if t.housing.Some? then Some(t.housing.value.smallMultifamily) else None
    case LargeMultifamily => if t.housing.Some? then Some(t.housing.value.largeMultifamily) else None
    case Multifamily => if t.housing.Some? then Some(t.housing.value.multifamily) else None
    case MobileOther => if t.housing.Some? then Some(t.housing.value.mobileOther) else None
    case YbTotal => if t.age.Some? then t.age.value.ybTotal else None
    case Built2010Plus => if t.age.Some? then Some(t.age.value.built2010Plus) else None
    case Built1970To2009 => if t.age.Some? then Some(t.age.value.built1970To2009) else None
    case BuiltPre1970 => if t.age.Some? then Some(t.age.value.builtPre1970) else None
  }

  /** A row of `crosswalk.merge(census, on='GEOID', how='left')`. */
  type MergedRow = (CrosswalkRow, Option<Tract>)

  function Merge(cw: seq<CrosswalkRow>, census: CensusData): seq<MergedRow> {
    LeftJoin(cw, census.tracts, RowGeoId, TractKey)
  }

  function MergedValue(p: MergedRow, m: Measure): Option<real> {
    if p.1.Some? then MeasureOf(p.1.value, m) else None
  }

  /** `merged[col] * merged['weight']` in one row. */
  function WeightedValue(p: MergedRow, m: Measure): Float {
    Mul(FromOption(MergedValue(p, m)), p.0.weight)
  }

  /** The `{col}_weighted` column. */
  function WeightedColumn(merged: seq<MergedRow>, m: Measure): (r: seq<Float>)
    ensures |r| == |merged| && forall i :: 0 <= i < |merged| ==> r[i] == WeightedValue(merged[i], m)
  {
    seq(|merged|, i requires 0 <= i < |merged| => WeightedValue(merged[i], m))
  }

  /** The entries of `col` in the rows of response area `a`, in order: one group of the groupby. */
  function GroupValues(merged: seq<MergedRow>, col: seq<Float>, a: Cell): seq<Float>
    requires |col| == |merged|
    decreases |merged|
  {
    if merged == [] then []
    else
      var n := |merged| - 1;
      GroupValues(merged[..n], col[..n], a) + (if merged[n].0.areaId == a then [col[n]] else [])
  }

  /** `groupby('response_area_id')[col].sum()` at area `a` (NaN skipped). */
  function GroupSum(merged: seq<MergedRow>, col: seq<Float>, a: Cell): Float
    requires |col| == |merged|
  {
    NanSum(GroupValues(merged, col, a))
  }

  function Firsts(merged: seq<MergedRow>): (r: seq<CrosswalkRow>)
    ensures |r| == |merged| && forall i :: 0 <= i < |merged| ==> r[i] == merged[i].0
  {
    seq(|merged|, i requires 0 <= i < |merged| => merged[i].0)
  }

  /**
   * The groupby keys: the distinct response-area ids, missing ids dropped,
   * in order of first appearance.
   */
  function DistinctIds(cw: seq<CrosswalkRow>): (r: seq<Cell>)
    ensures Distinct(r)
    ensures forall k :: 0 <= k < |r| ==> r[k] != Null && exists i :: 0 <= i < |cw| && cw[i].areaId == r[k]
    ensures forall i :: 0 <= i < |cw| && cw[i].areaId != Null ==> cw[i].areaId in r
    decreases |cw|
  {
    if cw == [] then []
    else
      var init := cw[..|cw| - 1];
      var a := cw[|cw| - 1].areaId;
      var kept := DistinctIds(init);
      assert forall i :: 0 <= i < |init| ==> init[i] == cw[i];
      if a == Null || a in kept then kept
      else
        var r := kept + [a];
        assert forall k :: 0 <= k < |kept| ==> r[k] == kept[k];
        r
  }

  /** One row of `ra_demographics`: the reallocated sum of every measure present. */
  datatype AreaDemographics = AreaDemographics(areaId: Cell, sums: map<Measure, Float>)

  function DemoKey(d: AreaDemographics): Cell { d.areaId }

  /** The sums of one area over a table of weighted columns. */
  function SumsOf(merged: seq<MergedRow>, weighted: map<Measure, seq<Float>>, a: Cell): map<Measure, Float>
    requires forall m :: m in weighted ==> |weighted[m]| == |merged|
  {
    map m | m in weighted :: GroupSum(merged, weighted[m], a)
  }

  /** The weighted columns of the measures present. */
  function WeightedColumns(merged: seq<MergedRow>, hasAge: bool): (w: map<Measure, seq<Float>>)
    ensures forall m :: m in w ==> |w[m]| == |merged|
  {
    map m | m in AllMeasures && Present(m, hasAge) :: WeightedColumn(merged, m)
  }

  /** `allocate_demographics` up to the percentages: one row per response area of the crosswalk. */
  function Allocate(cw: seq<CrosswalkRow>, census: CensusData): (r: seq<AreaDemographics>)
    ensures |r| == |DistinctIds(Firsts(Merge(cw, census)))|
    ensures forall k :: 0 <= k < |r| ==> r[k].areaId == DistinctIds(Firsts(Merge(cw, census)))[k]
  {
    var merged := Merge(cw, census);
    var ids := DistinctIds(Firsts(merged));
    var weighted := WeightedColumns(merged, census.hasAge);
    seq(|ids|, k requires 0 <= k < |ids| => AreaDemographics(ids[k], SumsOf(merged, weighted, ids[k])))
  }

  /** The loop adding the `_weighted` columns, then the groupby. */
  method AllocateDemographics(cw: seq<CrosswalkRow>, census: CensusData) returns (demos: seq<AreaDemographics>)
    ensures demos == Allocate(cw, census)
  {
    var merged := Merge(cw, census);
    var weighted: map<Measure, seq<Float>> := map[];
    var i := 0;
    while i < |AllMeasures|
      invariant 0 <= i <= |AllMeasures|
      invariant forall m :: m in weighted <==> m in AllMeasures[..i] && Present(m, census.hasAge)
      invariant forall m :: m in weighted ==> weighted[m] == WeightedColumn(merged, m)
    {
      var m := AllMeasures[i];
      assert AllMeasures[..i + 1] == AllMeasures[..i] + [m];
      if Present(m, census.hasAge) {
        weighted := weighted[m := WeightedColumn(merged, m)];
      }
      i := i + 1;
    }
    assert AllMeasures[..i] == AllMeasures;
    assert weighted == WeightedColumns(merged, census.hasAge);
    var ids := DistinctIds(Firsts(merged));
    demos := seq(|ids|, k requires 0 <= k < |ids| => AreaDemographics(ids[k], SumsOf(merged, weighted, ids[k])));
  }

  // ------------------------------------------- the allocation on exact reals

  /** A tract valuation: the value of one measure for each GEOID. */
  function TractValues(tracts: seq<Tract>, m: Measure): string -> real {
    (g: string) => if g in KeySet(tracts, TractKey) then OrZero(MeasureOf(FirstWithKey(tracts, TractKey, g), m)) else 0.0
  }

  /** One crosswalk row's share of the tract value. */
  function Contribution(v: string -> real): CrosswalkRow -> real {
    (c: CrosswalkRow) => v(c.geoid) * WeightValue(c)
  }

  /** Σ (tract value × weight) over the crosswalk rows of each response area. */
  function AreaAllocation(cw: seq<CrosswalkRow>, v: string -> real): Cell -> real {
    GroupTotal(cw, AreaOf, Contribution(v))
  }

  /** What one tract hands out in all: its value times its weight sum. */
  function Handed(cw: seq<CrosswalkRow>, v: string -> real): string -> real {
    (g: string) => v(g) * WeightSum(cw, g)
  }

  /** Allocation is linear in the tract values. */
  lemma AllocationLinear(cw: seq<CrosswalkRow>, v1: string -> real, v2: string -> real, v3: string -> real,
                         x: real, y: real, a: Cell)
    requires forall i :: 0 <= i < |cw| ==> v3(cw[i].geoid) == x * v1(cw[i].geoid) + y * v2(cw[i].geoid)
    ensures AreaAllocation(cw, v3)(a) == x * AreaAllocation(cw, v1)(a) + y * AreaAllocation(cw, v2)(a)
  {
    ContributionsLinear(cw, v1, v2, v3, x, y);
    GroupTotalLinear(cw, AreaOf, Contribution(v1), Contribution(v2), Contribution(v3), x, y, a);
  }

  /** Each row's contribution is linear in the value of its tract. */
  lemma ContributionsLinear(cw: seq<CrosswalkRow>, v1: string -> real, v2: string -> real, v3: string -> real,
                            x: real, y: real)
    requires forall i :: 0 <= i < |cw| ==> v3(cw[i].geoid) == x * v1(cw[i].geoid) + y * v2(cw[i].geoid)
    ensures forall i :: 0 <= i < |cw| ==>
              Contribution(v3)(cw[i]) == x * Contribution(v1)(cw[i]) + y * Contribution(v2)(cw[i])
  {
    forall i | 0 <= i < |cw|
      ensures Contribution(v3)(cw[i]) == x * Contribution(v1)(cw[i]) + y * Contribution(v2)(cw[i])
    {
      ContributionLinear(cw[i], v1, v2, v3, x, y);
    }
  }

  lemma ContributionLinear(c: CrosswalkRow, v1: string -> real, v2: string -> real, v3: string -> real, x: real, y: real)
    requires v3(c.geoid) == x * v1(c.geoid) + y * v2(c.geoid)
    ensures Contribution(v3)(c) == x * Contribution(v1)(c) + y * Contribution(v2)(c)
  {
    var w := WeightValue(c);
    var g := c.geoid;
    calc {
      Contribution(v3)(c);
      (x * v1(g) + y * v2(g)) * w;
      x * (v1(g) * w) + y * (v2(g) * w);
    }
  }

  /** The value of a tract with no crosswalk row reaches no response area. */
  lemma AllocationIgnoresUnlisted(cw: seq<CrosswalkRow>, v1: string -> real, v2: string -> real, g0: string, a: Cell)
    requires forall i :: 0 <= i < |cw| ==> cw[i].geoid != g0
    requires forall i :: 0 <= i < |cw| && cw[i].geoid != g0 ==> v1(cw[i].geoid) == v2(cw[i].geoid)
    ensures AreaAllocation(cw, v1)(a) == AreaAllocation(cw, v2)(a)
  {
    forall i | 0 <= i < |cw| && HasKey(AreaOf, a)(cw[i])
      ensures Contribution(v1)(cw[i]) == Contribution(v2)(cw[i])
    {
    }
    SumWhereCongruent(cw, HasKey(AreaOf, a), Contribution(v1), Contribution(v2));
  }

  /**
   * Conservation: the allocations summed over the response areas equal what
   * the tracts hand out, each its value times its weight sum.
   */
  lemma AllocationConserved(cw: seq<CrosswalkRow>, v: string -> real, areaKeys: seq<Cell>, geoids: seq<string>)
    requires Distinct(areaKeys) && forall i :: 0 <= i < |cw| ==> cw[i].areaId in areaKeys
    requires Distinct(geoids) && forall i :: 0 <= i < |cw| ==> cw[i].geoid in geoids
    ensures SumOf(areaKeys, AreaAllocation(cw, v)) == SumOf(geoids, Handed(cw, v))
  {
    GroupedSum(cw, AreaOf, Contribution(v), areaKeys);
    GroupedSum(cw, RowGeoId, Contribution(v), geoids);
    forall k | 0 <= k < |geoids|
      ensures GroupTotal(cw, RowGeoId, Contribution(v))(geoids[k]) == Handed(cw, v)(geoids[k])
    {
      TractHandsOut(cw, v, geoids[k]);
    }
    SumOfCongruent(geoids, GroupTotal(cw, RowGeoId, Contribution(v)), Handed(cw, v));
  }

  /** The rows of one tract together hand out its value times its weight sum. */
  lemma TractHandsOut(cw: seq<CrosswalkRow>, v: string -> real, g: string)
    ensures GroupTotal(cw, RowGeoId, Contribution(v))(g) == Handed(cw, v)(g)
  {
    forall i | 0 <= i < |cw| && HasKey(RowGeoId, g)(cw[i])
      ensures Contribution(v)(cw[i]) == v(g) * WeightValue(cw[i])
    {
      assert RowGeoId(cw[i]) == g;
    }
    SumWhereScale(cw, HasKey(RowGeoId, g), Contribution(v), WeightValue, v(g));
  }

  /**
   * With non-negative tract values and every tract's weights summing to at
   * most 1, the areas receive at most the tracts' total.
   */
  lemma AllocationBounded(cw: seq<CrosswalkRow>, v: string -> real, areaKeys: seq<Cell>, geoids: seq<string>)
    requires Distinct(areaKeys) && forall i :: 0 <= i < |cw| ==> cw[i].areaId in areaKeys
    requires Distinct(geoids) && forall i :: 0 <= i < |cw| ==> cw[i].geoid in geoids
    requires forall k :: 0 <= k < |geoids| ==> v(geoids[k]) >= 0.0 && WeightSum(cw, geoids[k]) <= 1.0
    ensures SumOf(areaKeys, AreaAllocation(cw, v)) <= SumOf(geoids, v)
  {
    AllocationConserved(cw, v, areaKeys, geoids);
    HandedAtMost(cw, v, geoids);
    SumOfMonotone(geoids, Handed(cw, v), v);
  }

  /** A tract of non-negative value whose weights sum to at most 1 hands out at most its value. */
  lemma HandedAtMost(cw: seq<CrosswalkRow>, v: string -> real, geoids: seq<string>)
    requires forall k :: 0 <= k < |geoids| ==> v(geoids[k]) >= 0.0 && WeightSum(cw, geoids[k]) <= 1.0
    ensures forall k :: 0 <= k < |geoids| ==> Handed(cw, v)(geoids[k]) <= v(geoids[k])
  {
    forall k | 0 <= k < |geoids| ensures Handed(cw, v)(geoids[k]) <= v(geoids[k]) {
      var g := geoids[k];
      assert v(g) * WeightSum(cw, g) <= v(g) * 1.0;
    }
  }

  /** With every tract's weights summing to exactly 1, the areas receive exactly the tracts' total. */
  lemma AllocationExact(cw: seq<CrosswalkRow>, v: string -> real, areaKeys: seq<Cell>, geoids: seq<string>)
    requires Distinct(areaKeys) && forall i :: 0 <= i < |cw| ==> cw[i].areaId in areaKeys
    requires Distinct(geoids) && forall i :: 0 <= i < |cw| ==> cw[i].geoid in geoids
    requires forall k :: 0 <= k < |geoids| ==> WeightSum(cw, geoids[k]) == 1.0
    ensures SumOf(areaKeys, AreaAllocation(cw, v)) == SumOf(geoids, v)
  {
    AllocationConserved(cw, v, areaKeys, geoids);
    HandedWhole(cw, v, geoids);
    SumOfCongruent(geoids, Handed(cw, v), v);
  }

  /** A tract whose weights sum to 1 hands out exactly its value. */
  lemma HandedWhole(cw: seq<CrosswalkRow>, v: string -> real, geoids: seq<string>)
    requires forall k :: 0 <= k < |geoids| ==> WeightSum(cw, geoids[k]) == 1.0
    ensures forall k :: 0 <= k < |geoids| ==> Handed(cw, v)(geoids[k]) == v(geoids[k])
  {
  }

  // ----------------------------------- the float sums are the exact allocation

  /** A weighted entry is the exact contribution, or NaN standing for a contribution of 0. */
  predicate Agrees(x: Float, c: real) {
    x == Finite(c) || (x.NaN? && c == 0.0)
  }

  lemma {:induction false} GroupSumExact(merged: seq<MergedRow>, col: seq<Float>, cw: seq<CrosswalkRow>,
                                         f: CrosswalkRow -> real, a: Cell)
    requires |col| == |merged| == |cw|
    requires forall i :: 0 <= i < |cw| ==> merged[i].0 == cw[i] && Agrees(col[i], f(cw[i]))
    ensures GroupSum(merged, col, a) == Finite(SumWhere(cw, HasKey(AreaOf, a), f))
    decreases |cw|
  {
    if cw != [] {
      var n := |cw| - 1;
      assert forall i :: 0 <= i < n ==> merged[..n][i] == merged[i] && col[..n][i] == col[i] && cw[..n][i] == cw[i];
      GroupSumExact(merged[..n], col[..n], cw[..n], f, a);
      var g := GroupValues(merged[..n], col[..n], a);
      var prev := SumWhere(cw[..n], HasKey(AreaOf, a), f);
      assert NanSum(g) == Finite(prev);
      assert AreaOf(cw[n]) == merged[n].0.areaId;
      assert SumWhere(cw, HasKey(AreaOf, a), f) == prev + (if HasKey(AreaOf, a)(cw[n]) then f(cw[n]) else 0.0);
      if merged[n].0.areaId == a {
        var s := g + [col[n]];
        assert GroupValues(merged, col, a) == s;
        assert s[..|s| - 1] == g;
        assert HasKey(AreaOf, a)(cw[n]);
        assert Agrees(col[n], f(cw[n]));
      } else {
        assert GroupValues(merged, col, a) == g;
        assert !HasKey(AreaOf, a)(cw[n]);
      }
    }
  }

  /** In a merge on unique GEOIDs, a matched tract is the census tract with that GEOID. */
  lemma MergedTract(cw: seq<CrosswalkRow>, tracts: seq<Tract>, i: nat)
    requires UniqueKeys(tracts, TractKey) && i < |cw|
    ensures |LeftJoin(cw, tracts, RowGeoId, TractKey)| == |cw|
    ensures LeftJoin(cw, tracts, RowGeoId, TractKey)[i].0 == cw[i]
    ensures var t := LeftJoin(cw, tracts, RowGeoId, TractKey)[i].1;
            (t.Some? <==> cw[i].geoid in KeySet(tracts, TractKey)) &&
            (t.Some? ==> t.value == FirstWithKey(tracts, TractKey, cw[i].geoid))
  {
    LeftJoinUnique(cw, tracts, RowGeoId, TractKey);
    var p := LeftJoin(cw, tracts, RowGeoId, TractKey)[i];
    assert Paired(tracts, RowGeoId, TractKey, p);
    if p.1.Some? {
      var first := FirstWithKey(tracts, TractKey, cw[i].geoid);
      var j :| 0 <= j < |tracts| && tracts[j] == p.1.value;
      var k :| 0 <= k < |tracts| && tracts[k] == first && forall l :: 0 <= l < k ==> TractKey(tracts[l]) != cw[i].geoid;
      assert TractKey(tracts[j]) == TractKey(tracts[k]);
    }
  }

  /**
   * With one census row per GEOID and no tract of zero area, each area's
   * summed float column is exactly Σ (tract value × weight) over its rows.
   */
  lemma AreaSumIsAllocation(cw: seq<CrosswalkRow>, census: CensusData, m: Measure, a: Cell)
    requires UniqueKeys(census.tracts, TractKey) && FiniteWeights(cw)
    ensures |Merge(cw, census)| == |cw|
    ensures GroupSum(Merge(cw, census), WeightedColumn(Merge(cw, census), m), a) ==
            Finite(AreaAllocation(cw, TractValues(census.tracts, m))(a))
  {
    var merged := Merge(cw, census);
    LeftJoinUnique(cw, census.tracts, RowGeoId, TractKey);
    var col := WeightedColumn(merged, m);
    var v := TractValues(census.tracts, m);
    forall i | 0 <= i < |cw| ensures merged[i].0 == cw[i] && Agrees(col[i], Contribution(v)(cw[i])) {
      RowAgrees(cw, census, m, i);
    }
    GroupSumExact(merged, col, cw, Contribution(v), a);
  }

  /** One weighted entry of the merge agrees with the row's exact contribution. */
  lemma RowAgrees(cw: seq<CrosswalkRow>, census: CensusData, m: Measure, i: nat)
    requires UniqueKeys(census.tracts, TractKey) && FiniteWeights(cw) && i < |cw|
    ensures |Merge(cw, census)| == |cw|
    ensures Merge(cw, census)[i].0 == cw[i]
    ensures Agrees(WeightedValue(Merge(cw, census)[i], m), Contribution(TractValues(census.tracts, m))(cw[i]))
  {
    MergedTract(cw, census.tracts, i);
    PairAgrees(Merge(cw, census)[i], census.tracts, m);
  }

  lemma PairAgrees(p: MergedRow, tracts: seq<Tract>, m: Measure)
    requires p.1.Some? <==> p.0.geoid in KeySet(tracts, TractKey)
    requires p.1.Some? ==> p.1.value == FirstWithKey(tracts, TractKey, p.0.geoid)
    requires p.0.weight.Finite?
    ensures Agrees(WeightedValue(p, m), Contribution(TractValues(tracts, m))(p.0))
  {
    var x, w := MergedValue(p, m), WeightValue(p.0);
    var v := TractValues(tracts, m);
    MatchedValue(p, tracts, m);
    assert WeightedValue(p, m) == Mul(FromOption(x), Finite(w));
    assert Contribution(v)(p.0) == v(p.0.geoid) * w;
    WeightedAgrees(x, v(p.0.geoid), w);
  }

  /** A merged row's value is the tract valuation at its GEOID, missing read as 0. */
  lemma MatchedValue(p: MergedRow, tracts: seq<Tract>, m: Measure)
    requires p.1.Some? <==> p.0.geoid in KeySet(tracts, TractKey)
    requires p.1.Some? ==> p.1.value == FirstWithKey(tracts, TractKey, p.0.geoid)
    ensures OrZero(MergedValue(p, m)) == TractValues(tracts, m)(p.0.geoid)
  {
  }

  lemma WeightedAgrees(x: Option<real>, c: real, w: real)
    requires OrZero(x) == c
    ensures Agrees(Mul(FromOption(x), Finite(w)), c * w)
  {
  }

  /** Merging on unique GEOIDs keeps the crosswalk rows as they are. */
  lemma MergeKeepsCrosswalk(cw: seq<CrosswalkRow>, census: CensusData)
    requires UniqueKeys(census.tracts, TractKey)
    ensures Firsts(Merge(cw, census)) == cw
  {
    LeftJoinUnique(cw, census.tracts, RowGeoId, TractKey);
  }

  /**
   * With one census row per GEOID and finite weights, every reallocated sum
   * of a response area is exactly Σ (tract value × weight) over its rows.
   */
  lemma AllocatedExactly(cw: seq<CrosswalkRow>, census: CensusData, m: Measure, k: nat)
    requires UniqueKeys(census.tracts, TractKey) && FiniteWeights(cw)
    requires Present(m, census.hasAge) && k < |Allocate(cw, census)|
    ensures m in Allocate(cw, census)[k].sums
    ensures Allocate(cw, census)[k].sums[m] ==
            Finite(AreaAllocation(cw, TractValues(census.tracts, m))(Allocate(cw, census)[k].areaId))
  {
    var merged := Merge(cw, census);
    var ids := DistinctIds(Firsts(merged));
    var weighted := WeightedColumns(merged, census.hasAge);
    assert Allocate(cw, census)[k] == AreaDemographics(ids[k], SumsOf(merged, weighted, ids[k]));
    assert m in AllMeasures;
    assert weighted[m] == WeightedColumn(merged, m);
    AreaSumIsAllocation(cw, census, m, ids[k]);
  }

  /**
   * The response areas of the allocation are the crosswalk's distinct ids, and
   * with non-negative populations and every tract's weights summing to at most
   * 1 they together receive at most the population of the census tracts.
   */
  lemma AllocatedPopulationBounded(cw: seq<CrosswalkRow>, census: CensusData, geoids: seq<string>)
    requires UniqueKeys(census.tracts, TractKey)
    requires Distinct(geoids) && forall i :: 0 <= i < |cw| ==> cw[i].geoid in geoids
    requires forall k :: 0 <= k < |geoids| ==>
               TractValues(census.tracts, Population)(geoids[k]) >= 0.0 && WeightSum(cw, geoids[k]) <= 1.0
    ensures |Allocate(cw, census)| == |DistinctIds(cw)|
    ensures forall k :: 0 <= k < |DistinctIds(cw)| ==> Allocate(cw, census)[k].areaId == DistinctIds(cw)[k]
    ensures (forall i :: 0 <= i < |cw| ==> cw[i].areaId != Null) ==>
            SumOf(DistinctIds(cw), AreaAllocation(cw, TractValues(census.tracts, Population))) <=
            SumOf(geoids, TractValues(census.tracts, Population))
  {
    MergeKeepsCrosswalk(cw, census);
    if forall i :: 0 <= i < |cw| ==> cw[i].areaId != Null {
      AllocationBounded(cw, TractValues(census.tracts, Population), DistinctIds(cw), geoids);
    }
  }

  /** A census tract whose GEOID no crosswalk row names changes no response area's totals. */
  lemma AllocateIgnoresUnlisted(cw: seq<CrosswalkRow>, census: CensusData, t: Tract)
    requires t.geoid !in KeySet(cw, RowGeoId)
    ensures Allocate(cw, census.(tracts := census.tracts + [t])) == Allocate(cw, census)
  {
    LeftJoinIgnoresUnmatched(cw, census.tracts, RowGeoId, TractKey, t);
  }

  // ------------------------------------------------ percentages and density

  /** `(part / total * 100).fillna(0)`: 0/0 and a missing side become 0, x/0 stays infinite. */
  function Pct(part: Float, total: Float): Float {
    FillNa(Scale(Div(part, total), 100.0), 0.0)
  }

  lemma PctCases(p: real, t: real)
    ensures Pct(NaN, Finite(t)) == Finite(0.0) && Pct(Finite(p), NaN) == Finite(0.0)
    ensures t == 0.0 ==> Pct(Finite(p), Finite(t)) == (if p > 0.0 then PosInf else if p < 0.0 then NegInf else Finite(0.0))
    ensures t != 0.0 ==> Pct(Finite(p), Finite(t)) == Finite(p / t * 100.0)
    ensures 0.0 <= p <= t && t > 0.0 ==>
              Pct(Finite(p), Finite(t)).Finite? && 0.0 <= Pct(Finite(p), Finite(t)).value <= 100.0
  {
    if 0.0 <= p <= t && t > 0.0 {
      assert p / t <= 1.0;
    }
  }

  /** `pct_<part>` of one area; the age percentages exist only with year-built data. */
  function PctOf(d: AreaDemographics, part: Measure, total: Measure): Float
    requires part in d.sums && total in d.sums
  {
    Pct(d.sums[part], d.sums[total])
  }

  /** The density classes. */
  datatype UrbanClass = Unknown | UrbanCore | InnerSuburban | OuterSuburban

  function ClassLabel(c: UrbanClass): string {
    match c
    case Unknown => "unknown"
    case UrbanCore => "urban_core"
    case InnerSuburban => "inner_suburban"
    case OuterSuburban => "outer_suburban"
  }

  /** `classify`: people per square mile to a class. */
  function Classify(density: Float): UrbanClass {
    if density.NaN? || density == Finite(0.0) then Unknown
    else if AtLeast(density, 10000.0) then UrbanCore
    else if AtLeast(density, 3000.0) then InnerSuburban
    else OuterSuburban
  }

  /** The band of finite densities each class covers; both thresholds belong to the denser class. */
  predicate InBand(d: real, c: UrbanClass) {
    match c
    case Unknown => d == 0.0
    case UrbanCore => d >= 10000.0
    case InnerSuburban => 3000.0 <= d < 10000.0
    case OuterSuburban => d < 3000.0 && d != 0.0
  }

  /** A finite density gets exactly the class whose band holds it. */
  lemma ClassifyBands(d: real, c: UrbanClass)
    ensures Classify(Finite(d)) == c <==> InBand(d, c)
  {
  }

  /** Denser never classifies as less urban, among positive densities. */
  lemma ClassifyMonotone(d1: real, d2: real)
    requires 0.0 < d1 <= d2
    ensures Rank(Classify(Finite(d1))) <= Rank(Classify(Finite(d2)))
  {
  }

  function Rank(c: UrbanClass): nat {
    match c
    case Unknown => 0
    case OuterSuburban => 1
    case InnerSuburban => 2
    case UrbanCore => 3
  }

  const SquareMetersPerSquareMile: real := 2590000.0

  /** One response area after the merge with its demographics. */
  datatype AreaProfile = AreaProfile(
    areaId: Cell,
    demographics: Option<AreaDemographics>,
    areaSqMiles: real,
    density: Float,
    urbanClass: UrbanClass)

  /** A measure of a profile: NaN for an area the demographics did not match. */
  function ProfileMeasure(p: AreaProfile, m: Measure): Float {
    if p.demographics.Some? && m in p.demographics.value.sums then p.demographics.value.sums[m] else NaN
  }

  /** A percentage of a profile: NaN for an area the demographics did not match. */
  function ProfilePct(p: AreaProfile, part: Measure, total: Measure): Float {
    if p.demographics.Some? && part in p.demographics.value.sums && total in p.demographics.value.sums
    then PctOf(p.demographics.value, part, total) else NaN
  }

  function AreaKeyOf(a: (Cell, real)): Cell { a.0 }

  function ProfileOf(p: ((Cell, real), Option<AreaDemographics>)): (r: AreaProfile)
    ensures r.areaId == p.0.0 && r.demographics == p.1
    ensures p.1.None? ==> ProfileMeasure(r, Population).NaN? && r.density.NaN? && r.urbanClass == Unknown
  {
    var population := if p.1.Some? && Population in p.1.value.sums then p.1.value.sums[Population] else NaN;
    var sqMiles := p.0.1 / SquareMetersPerSquareMile;
    var density := Div(population, Finite(sqMiles));
    AreaProfile(p.0.0, p.1, sqMiles, density, Classify(density))
  }

  /**
   * The response areas, each given by its id and its area in m², merged with
   * their demographics (`how='left'`), with square miles, density and class.
   */
  function Profiles(demos: seq<AreaDemographics>, ids: seq<Cell>, squareMeters: seq<real>): (r: seq<AreaProfile>)
    requires |ids| == |squareMeters|
  {
    var areas := seq(|ids|, i requires 0 <= i < |ids| => (ids[i], squareMeters[i]));
    var j := LeftJoin(areas, demos, AreaKeyOf, DemoKey);
    seq(|j|, i requires 0 <= i < |j| => ProfileOf(j[i]))
  }

  /**
   * Merged with demographics of distinct ids, each response area appears
   * once, in order, with the demographics of its id when there are any; one
   * without has a missing population and the class "unknown".
   */
  lemma ProfileRows(demos: seq<AreaDemographics>, ids: seq<Cell>, squareMeters: seq<real>)
    requires |ids| == |squareMeters| && UniqueKeys(demos, DemoKey)
    ensures |Profiles(demos, ids, squareMeters)| == |ids|
    ensures forall i :: 0 <= i < |ids| ==>
              var p := Profiles(demos, ids, squareMeters)[i];
              p.areaId == ids[i] &&
              (p.demographics.None? <==> ids[i] !in KeySet(demos, DemoKey)) &&
              (p.demographics.Some? ==> p.demographics.value in demos && p.demographics.value.areaId == ids[i]) &&
              (p.demographics.None? ==> ProfileMeasure(p, Population).NaN? && p.urbanClass == Unknown)
  {
    var areas := seq(|ids|, i requires 0 <= i < |ids| => (ids[i], squareMeters[i]));
    LeftJoinUnique(areas, demos, AreaKeyOf, DemoKey);
  }

  /** The allocation has one row per key, and its keys are the distinct area ids of the merge. */
  lemma AllocationKeys(cw: seq<CrosswalkRow>, census: CensusData)
    ensures UniqueKeys(Allocate(cw, census), DemoKey)
    ensures forall a :: a in KeySet(Allocate(cw, census), DemoKey) <==> a in DistinctIds(Firsts(Merge(cw, census)))
  {
    KeyedByDistinct(Allocate(cw, census), DistinctIds(Firsts(Merge(cw, census))));
  }

  /** Rows keyed one to one by distinct ids have unique keys, and their keys are those ids. */
  lemma KeyedByDistinct(demos: seq<AreaDemographics>, keys: seq<Cell>)
    requires Distinct(keys) && |demos| == |keys|
    requires forall k :: 0 <= k < |demos| ==> demos[k].areaId == keys[k]
    ensures UniqueKeys(demos, DemoKey)
    ensures forall a :: a in KeySet(demos, DemoKey) <==> a in keys
  {
    forall k | 0 <= k < |keys| ensures keys[k] in KeySet(demos, DemoKey) {
      assert DemoKey(demos[k]) == keys[k];
    }
  }

  /**
   * Profiling the allocation: each response area appears once, in order; it
   * has demographics exactly when the crosswalk gives it an id, and one the
   * crosswalk does not reach (or with a missing id) has a missing population
   * and the class "unknown".
   */
  lemma ProfilesOfAllocation(cw: seq<CrosswalkRow>, census: CensusData, ids: seq<Cell>, squareMeters: seq<real>)
    requires |ids| == |squareMeters|
    ensures |Profiles(Allocate(cw, census), ids, squareMeters)| == |ids|
    ensures forall i :: 0 <= i < |ids| ==>
              var p := Profiles(Allocate(cw, census), ids, squareMeters)[i];
              p.areaId == ids[i] &&
              (p.demographics.None? <==> ids[i] !in DistinctIds(Firsts(Merge(cw, census))))
    ensures forall i :: 0 <= i < |ids| && (ids[i] == Null || forall j :: 0 <= j < |cw| ==> cw[j].areaId != ids[i]) ==>
              var p := Profiles(Allocate(cw, census), ids, squareMeters)[i];
              p.demographics.None? && ProfileMeasure(p, Population).NaN? && p.urbanClass == Unknown
  {
    AllocationKeys(cw, census);
    ProfileRows(Allocate(cw, census), ids, squareMeters);
    forall i | 0 <= i < |ids| && (ids[i] == Null || forall j :: 0 <= j < |cw| ==> cw[j].areaId != ids[i])
      ensures ids[i] !in DistinctIds(Firsts(Merge(cw, census)))
    {
      NotAKey(cw, census, ids[i]);
    }
  }

  /** A missing id, or one no crosswalk row carries, is not a key of the allocation. */
  lemma NotAKey(cw: seq<CrosswalkRow>, census: CensusData, a: Cell)
    requires a == Null || forall j :: 0 <= j < |cw| ==> cw[j].areaId != a
    ensures a !in DistinctIds(Firsts(Merge(cw, census)))
  {
    var merged := Merge(cw, census);
    var fs := Firsts(merged);
    var keys := DistinctIds(fs);
    forall k | 0 <= k < |keys| ensures keys[k] != a {
      var l :| 0 <= l < |fs| && fs[l].areaId == keys[k];
      assert fs[l] == merged[l].0 && merged[l].0 in cw;
    }
  }
}
