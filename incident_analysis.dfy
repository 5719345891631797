/**
 * The analysis step: incidents joined to response areas by the area field
 * they carry, counted per area and fire type, the counts merged into the
 * response areas with missing counts set to 0, and the per-1,000 rates,
 * undefined where the denominator is not positive, annualized by the number
 * of distinct years.
 */
module IncidentAnalysis {
  import opened Wrappers
  import opened Numeric
  import opened Text
  import opened Columns
  import opened Frames
  import opened Sequences
  import opened Joins
  import opened Grouping

  /** The join key written into both tables. */
  const AreaIdName: string := "response_area_id"

  const ResponseAreaWords: seq<string> := ["responsearea", "response_area"]
  const BoundaryWords: seq<string> := ["response", "area"]
  const YearWords: seq<string> := ["year"]

  const StructureFlag: string := "is_structure_fire"
  const VehicleFlag: string := "is_vehicle_fire"
  const OutdoorFlag: string := "is_outdoor_fire"
  const TrashFlag: string := "is_trash_fire"

  // ------------------------------------------------------------------ the join

  predicate NamesResponseArea(name: string) {
    Contains(Lower(name), "responsearea") || Contains(Lower(name), "response_area")
  }

  predicate NamesBoundary(name: string) {
    Contains(Lower(name), "response") || Contains(Lower(name), "area")
  }

  lemma MentionsEither(name: string, a: string, b: string)
    ensures Mentions(name, [a, b]) <==> Contains(Lower(name), a) || Contains(Lower(name), b)
  {
    if Contains(Lower(name), a) {
      assert a in [a, b];
    }
    if Contains(Lower(name), b) {
      assert b in [a, b];
    }
  }

  /**
   * The incident column naming the response area: the first whose lower-cased
   * name contains "responsearea" or "response_area"; None sends the script
   * down its spatial-join path.
   */
  function IncidentAreaColumn(columns: seq<string>): (r: Option<string>)
    ensures r.Some? ==> exists k :: 0 <= k < |columns| && columns[k] == r.value && NamesResponseArea(r.value) &&
                                  forall j :: 0 <= j < k ==> !NamesResponseArea(columns[j])
    ensures r.None? <==> forall k :: 0 <= k < |columns| ==> !NamesResponseArea(columns[k])
  {
    var r := FirstMentioning(columns, ResponseAreaWords);
    forall k | 0 <= k < |columns| ensures Mentions(columns[k], ResponseAreaWords) <==> NamesResponseArea(columns[k]) {
      MentionsEither(columns[k], "responsearea", "response_area");
    }
    if r.Some? then MentionsEither(r.value, "responsearea", "response_area"); r else r
  }

  /**
   * The id column of the response-area layer: `response_area_id` when present,
   * otherwise the first column whose lower-cased name contains "response" or
   * "area"; None when there is none (the script then fails with a KeyError).
   */
  function BoundaryIdColumn(columns: seq<string>): (r: Option<string>)
    ensures AreaIdName in columns ==> r == Some(AreaIdName)
    ensures AreaIdName !in columns && r.Some? ==>
              exists k :: 0 <= k < |columns| && columns[k] == r.value && NamesBoundary(r.value) &&
                          forall j :: 0 <= j < k ==> !NamesBoundary(columns[j])
    ensures AreaIdName !in columns ==> (r.None? <==> forall k :: 0 <= k < |columns| ==> !NamesBoundary(columns[k]))
  {
    if AreaIdName in columns then Some(AreaIdName)
    else
      var r := FirstMentioning(columns, BoundaryWords);
      forall k | 0 <= k < |columns| ensures Mentions(columns[k], BoundaryWords) <==> NamesBoundary(columns[k]) {
        MentionsEither(columns[k], "response", "area");
      }
      if r.Some? then MentionsEither(r.value, "response", "area"); r else r
  }

  /** `astype(str)` of a key cell. */
  function AsText(c: Cell): (r: Cell)
    ensures r.Str? && (c.Str? ==> r == c)
  {
    Str(CellText(c))
  }

  datatype JoinOutcome =
    | Joined(incidents: Table, areas: Table)
    | SpatialJoin    // no incident column names the area: the point-in-polygon path
    | MissingAreaId  // the layer has no id column to join on

  /**
   * `join_incidents_to_response_areas` on its attribute path: both tables get a
   * text `response_area_id`, copied from the detected columns.
   */
  function JoinIncidents(incidents: Table, areas: Table): (r: JoinOutcome)
    requires Rectangular(incidents) && Rectangular(areas)
    ensures r.SpatialJoin? <==> IncidentAreaColumn(incidents.columns).None?
    ensures r.MissingAreaId? <==> IncidentAreaColumn(incidents.columns).Some? && BoundaryIdColumn(areas.columns).None?
    ensures r.Joined? ==>
              Rectangular(r.incidents) && Rectangular(r.areas) &&
              |r.incidents.rows| == |incidents.rows| && |r.areas.rows| == |areas.rows|
    ensures r.Joined? ==> forall i :: 0 <= i < |incidents.rows| ==>
              Lookup(r.incidents.columns, r.incidents.rows[i], AreaIdName) ==
              AsText(Lookup(incidents.columns, incidents.rows[i], IncidentAreaColumn(incidents.columns).value))
    ensures r.Joined? ==> forall i :: 0 <= i < |areas.rows| ==>
              Lookup(r.areas.columns, r.areas.rows[i], AreaIdName) ==
              AsText(Lookup(areas.columns, areas.rows[i], BoundaryIdColumn(areas.columns).value))
    ensures r.Joined? ==> forall i, other :: 0 <= i < |incidents.rows| && other != AreaIdName ==>
              Get(r.incidents.columns, r.incidents.rows[i], other) == Get(incidents.columns, incidents.rows[i], other)
  {
    match IncidentAreaColumn(incidents.columns)
    case None => SpatialJoin
    case Some(source) =>
      match BoundaryIdColumn(areas.columns)
      case None => MissingAreaId
      case Some(idColumn) =>
        Joined(Derive(incidents, AreaIdName, source, AsText), Derive(areas, AreaIdName, idColumn, AsText))
  }

  /** The two column searches with `break`, then the two key columns written in place. */
  method JoinIncidentsToAreas(incidents: Table, areas: Table) returns (r: JoinOutcome)
    requires Rectangular(incidents) && Rectangular(areas)
    ensures r == JoinIncidents(incidents, areas)
  {
    var source := FindFirstMentioning(incidents.columns, ResponseAreaWords);
    var idColumn: Option<string> := Some(AreaIdName);
    if AreaIdName !in areas.columns {
      idColumn := FindFirstMentioning(areas.columns, BoundaryWords);
    }
    if source.None? {
      r := SpatialJoin;
    } else if idColumn.None? {
      r := MissingAreaId;
    } else {
      var joined := Derive(incidents, AreaIdName, source.value, AsText);
      r := Joined(joined, Derive(areas, AreaIdName, idColumn.value, AsText));
    }
  }

  /** After the join every incident has a (text) response-area key. */
  lemma JoinedKeysPresent(incidents: Table, areas: Table)
    requires Rectangular(incidents) && Rectangular(areas) && JoinIncidents(incidents, areas).Joined?
    ensures var t := JoinIncidents(incidents, areas).incidents;
            forall i :: 0 <= i < |t.rows| ==> ColumnCells(t, AreaIdName)[i].Str?
  {
  }

  // ------------------------------------------------------------ aggregation

  /** The response-area key of an incident row. */
  function AreaKey(columns: seq<string>): Row -> Cell {
    row => Lookup(columns, row, AreaIdName)
  }

  /** One per row: `size()`. */
  function Each(): Row -> real {
    row => 1.0
  }

  /** One per row that has a key; the rows `groupby` does not drop. */
  function Keyed(columns: seq<string>): Row -> real {
    row => if Lookup(columns, row, AreaIdName) != Null then 1.0 else 0.0
  }

  /** A flag cell as `sum()` adds it: True is 1, a number is itself, anything else is skipped. */
  function FlagValue(c: Cell): real {
    match c
    case Flag(b) => if b then 1.0 else 0.0
    case Num(x) => x
    case _ => 0.0
  }

  function FlagOf(columns: seq<string>, name: string): Row -> real {
    row => FlagValue(Lookup(columns, row, name))
  }

  function Nothing(): Row -> real {
    row => 0.0
  }

  /** `groupby('response_area_id').size()` at key `k`. */
  function GroupSize(t: Table, k: Cell): real {
    SumWhere(t.rows, HasKey(AreaKey(t.columns), k), Each())
  }

  /** `groupby('response_area_id')[name].sum()` at key `k`. */
  function FlagTotal(t: Table, name: string, k: Cell): real {
    SumWhere(t.rows, HasKey(AreaKey(t.columns), k), FlagOf(t.columns, name))
  }

  /** The groupby keys: the distinct present keys, in order of first appearance. */
  function GroupKeys(cells: seq<Cell>): (r: seq<Cell>)
    ensures Distinct(r)
    ensures forall k :: 0 <= k < |r| ==> r[k] != Null && r[k] in cells
    ensures forall i :: 0 <= i < |cells| && cells[i] != Null ==> cells[i] in r
    decreases |cells|
  {
    if cells == [] then []
    else
      var init := cells[..|cells| - 1];
      var c := cells[|cells| - 1];
      var kept := GroupKeys(init);
      assert forall i :: 0 <= i < |init| ==> init[i] == cells[i];
      if c == Null || c in kept then kept
      else
        var r := kept + [c];
        assert forall k :: 0 <= k < |kept| ==> r[k] == kept[k];
        r
  }

  /** `nunique()`: the number of distinct present values. */
  function NUnique(cells: seq<Cell>): nat {
    |set i | 0 <= i < |cells| && cells[i] != Null :: cells[i]|
  }

  /** Which flag columns the incident table has. */
  datatype CountColumns = CountColumns(structure: bool, vehicle: bool, outdoor: bool)

  /** One row of `total_counts`; a flag count is 0 where its column does not exist. */
  datatype AreaCounts = AreaCounts(areaId: Cell, total: real, structure: real, vehicle: real, outdoor: real)

  /** `total_counts`: its rows, its columns, and `years_of_data` when a year column exists. */
  datatype CountFrame = CountFrame(rows: seq<AreaCounts>, present: CountColumns, years: Option<nat>)

  function CountsAt(t: Table, p: CountColumns, k: Cell): AreaCounts {
    AreaCounts(k, GroupSize(t, k),
      if p.structure then FlagTotal(t, StructureFlag, k) else 0.0,
      if p.vehicle then FlagTotal(t, VehicleFlag, k) else 0.0,
      if p.outdoor then FlagTotal(t, OutdoorFlag, k) else 0.0)
  }

  function YearsOfData(t: Table): Option<nat> {
    match FirstMentioning(t.columns, YearWords)
    case Some(c) => Some(NUnique(ColumnCells(t, c)))
    case None => None
  }

  /** `aggregate_incidents_by_response_area` */
  function Aggregate(t: Table): (r: CountFrame)
    ensures |r.rows| == |GroupKeys(ColumnCells(t, AreaIdName))|
    ensures forall k :: 0 <= k < |r.rows| ==> r.rows[k].areaId == GroupKeys(ColumnCells(t, AreaIdName))[k]
  {
    var keys := GroupKeys(ColumnCells(t, AreaIdName));
    var p := CountColumns(StructureFlag in t.columns, VehicleFlag in t.columns, OutdoorFlag in t.columns);
    CountFrame(seq(|keys|, k requires 0 <= k < |keys| => CountsAt(t, p, keys[k])), p, YearsOfData(t))
  }

  /** The count rows hold, key by key, the counts of the flag columns merged so far. */
  ghost predicate CountsSoFar(t: Table, keys: seq<Cell>, rows: seq<AreaCounts>, p: CountColumns) {
    |rows| == |keys| && forall k :: 0 <= k < |keys| ==> rows[k] == CountsAt(t, p, keys[k])
  }

  /** One merge of a flag column's group sums into the count rows. */
  function MergeFlag(t: Table, rows: seq<AreaCounts>, name: string): (r: seq<AreaCounts>)
    ensures |r| == |rows|
    ensures forall k :: 0 <= k < |rows| ==>
              r[k] == (if name == StructureFlag then rows[k].(structure := FlagTotal(t, name, rows[k].areaId))
                       else if name == VehicleFlag then rows[k].(vehicle := FlagTotal(t, name, rows[k].areaId))
                       else rows[k].(outdoor := FlagTotal(t, name, rows[k].areaId)))
  {
    seq(|rows|, k requires 0 <= k < |rows| =>
      if name == StructureFlag then rows[k].(structure := FlagTotal(t, name, rows[k].areaId))
      else if name == VehicleFlag then rows[k].(vehicle := FlagTotal(t, name, rows[k].areaId))
      else rows[k].(outdoor := FlagTotal(t, name, rows[k].areaId)))
  }

  /** The sizes, then a merge per flag column present, then the year count. */
  method AggregateIncidents(t: Table) returns (r: CountFrame)
    ensures r == Aggregate(t)
  {
    var keys := GroupKeys(ColumnCells(t, AreaIdName));
    var rows := seq(|keys|, k requires 0 <= k < |keys| => AreaCounts(keys[k], GroupSize(t, keys[k]), 0.0, 0.0, 0.0));
    var p := CountColumns(false, false, false);
    assert CountsSoFar(t, keys, rows, p);
    var hasStructure := StructureFlag in t.columns;
    if hasStructure {
      rows := MergeFlag(t, rows, StructureFlag);
      p := p.(structure := true);
    }
    assert CountsSoFar(t, keys, rows, p);
    var hasVehicle := VehicleFlag in t.columns;
    if hasVehicle {
      rows := MergeFlag(t, rows, VehicleFlag);
      p := p.(vehicle := true);
    }
    assert CountsSoFar(t, keys, rows, p);
    var hasOutdoor := OutdoorFlag in t.columns;
    if hasOutdoor {
      rows := MergeFlag(t, rows, OutdoorFlag);
      p := p.(outdoor := true);
    }
    assert CountsSoFar(t, keys, rows, p);
    var yearColumn := FindFirstMentioning(t.columns, YearWords);
    var years: Option<nat> := None;
    if yearColumn.Some? {
      years := Some(NUnique(ColumnCells(t, yearColumn.value)));
    }
    assert p == CountColumns(hasStructure, hasVehicle, hasOutdoor);
    AggregateRows(t, rows);
    r := CountFrame(rows, p, years);
  }

  lemma AggregateRows(t: Table, rows: seq<AreaCounts>)
    requires CountsSoFar(t, GroupKeys(ColumnCells(t, AreaIdName)), rows,
                         CountColumns(StructureFlag in t.columns, VehicleFlag in t.columns, OutdoorFlag in t.columns))
    ensures rows == Aggregate(t).rows
  {
    var a := Aggregate(t).rows;
    assert |rows| == |a|;
    forall k | 0 <= k < |a| ensures rows[k] == a[k] { }
  }

  /**
   * Summed over the areas, `total_incidents` is the number of incidents that
   * have a key.
   */
  lemma TotalsConserved(t: Table)
    ensures SumOf(GroupKeys(ColumnCells(t, AreaIdName)), GroupTotal(t.rows, AreaKey(t.columns), Each())) ==
            SumOf(t.rows, Keyed(t.columns))
  {
    var keys := GroupKeys(ColumnCells(t, AreaIdName));
    var all := keys + [Null];
    var key := AreaKey(t.columns);
    forall i | 0 <= i < |t.rows| ensures key(t.rows[i]) in all {
      assert key(t.rows[i]) == ColumnCells(t, AreaIdName)[i];
    }
    GroupedSum(t.rows, key, Keyed(t.columns), all);
    assert all[..|all| - 1] == keys;
    SumWhereZero(t.rows, HasKey(key, Null), Keyed(t.columns));
    forall k | 0 <= k < |keys|
      ensures GroupTotal(t.rows, key, Keyed(t.columns))(keys[k]) == GroupTotal(t.rows, key, Each())(keys[k])
    {
      SumWhereCongruent(t.rows, HasKey(key, keys[k]), Keyed(t.columns), Each());
    }
    SumOfCongruent(keys, GroupTotal(t.rows, key, Keyed(t.columns)), GroupTotal(t.rows, key, Each()));
  }

  lemma {:induction false} SumOfOnes<T>(xs: seq<T>, f: T -> real)
    requires forall i :: 0 <= i < |xs| ==> f(xs[i]) == 1.0
    ensures SumOf(xs, f) == |xs| as real
    decreases |xs|
  {
    if xs != [] {
      SumOfOnes(xs[..|xs| - 1], f);
    }
  }

  /** On the attribute path every incident is counted in exactly one area. */
  lemma JoinedTotalsConserved(incidents: Table, areas: Table)
    requires Rectangular(incidents) && Rectangular(areas) && JoinIncidents(incidents, areas).Joined?
    ensures var t := JoinIncidents(incidents, areas).incidents;
            SumOf(GroupKeys(ColumnCells(t, AreaIdName)), GroupTotal(t.rows, AreaKey(t.columns), Each())) ==
            |incidents.rows| as real
  {
    var t := JoinIncidents(incidents, areas).incidents;
    TotalsConserved(t);
    forall i | 0 <= i < |t.rows| ensures Keyed(t.columns)(t.rows[i]) == 1.0 {
      assert ColumnCells(t, AreaIdName)[i].Str?;
    }
    SumOfOnes(t.rows, Keyed(t.columns));
  }

  /** A flag column holds booleans (or missing cells). */
  predicate BooleanColumn(t: Table, name: string) {
    forall i :: 0 <= i < |t.rows| ==> ColumnCells(t, name)[i].Flag? || ColumnCells(t, name)[i].Null?
  }

  /** The fires of one type in an area are between 0 and all of its incidents. */
  lemma FlagTotalBounded(t: Table, name: string, k: Cell)
    requires BooleanColumn(t, name)
    ensures 0.0 <= FlagTotal(t, name, k) <= GroupSize(t, k)
  {
    var p := HasKey(AreaKey(t.columns), k);
    forall i | 0 <= i < |t.rows| && p(t.rows[i])
      ensures Nothing()(t.rows[i]) <= FlagOf(t.columns, name)(t.rows[i]) <= Each()(t.rows[i])
    {
      assert ColumnCells(t, name)[i] == Lookup(t.columns, t.rows[i], name);
    }
    SumWhereMonotone(t.rows, p, FlagOf(t.columns, name), Each());
    SumWhereMonotone(t.rows, p, Nothing(), FlagOf(t.columns, name));
    SumWhereZero(t.rows, p, Nothing());
  }

  // ------------------------------------------------------------ the merge

  /** `astype(str)` of an area's id: the merge key on the area side. */
  function AreaRowKey(columns: seq<string>): Row -> Cell {
    row => AsText(Lookup(columns, row, AreaIdName))
  }

  /** The merge key on the count side. */
  function CountKey(c: AreaCounts): Cell {
    AsText(c.areaId)
  }

  /**
   * The incident columns of a merged row. A flag count is None where its column
   * does not exist; an area without incidents has NaN in every column the
   * counts brought.
   */
  datatype IncidentCounts = IncidentCounts(
    total: Float, structure: Option<Float>, vehicle: Option<Float>, outdoor: Option<Float>, years: Option<Float>)

  function CountCell(present: bool, matched: bool, x: real): Option<Float> {
    if !present then None else if matched then Some(Finite(x)) else Some(NaN)
  }

  /** The count columns a left-merge row receives: the matching count row, or NaN. */
  function MatchedCounts(f: CountFrame, m: Option<AreaCounts>): IncidentCounts {
    var c := m.GetOr(AreaCounts(Null, 0.0, 0.0, 0.0, 0.0));
    IncidentCounts(
      if m.Some? then Finite(c.total) else NaN,
      CountCell(f.present.structure, m.Some?, c.structure),
      CountCell(f.present.vehicle, m.Some?, c.vehicle),
      CountCell(f.present.outdoor, m.Some?, c.outdoor),
      if f.years.Some? then Some(if m.Some? then Finite(f.years.value as real) else NaN) else None)
  }

  datatype MergedArea = MergedArea(area: Row, counts: IncidentCounts)

  /** `response_areas_gdf.merge(incident_counts_df, on='response_area_id', how='left')` */
  function MergeCounts(areas: Table, f: CountFrame): (r: seq<MergedArea>)
    ensures |r| >= |areas.rows|
  {
    var j := LeftJoin(areas.rows, f.rows, AreaRowKey(areas.columns), CountKey);
    seq(|j|, i requires 0 <= i < |j| => MergedArea(j[i].0, MatchedCounts(f, j[i].1)))
  }

  /** The columns the zero-fill loop visits, in its order. */
  const IncidentColumns: seq<string> := ["total_incidents", "structure_fires", "vehicle_fires", "outdoor_fires"]

  function FillOptional(x: Option<Float>): Option<Float> {
    if x.Some? then Some(FillNa(x.value, 0.0)) else None
  }

  /** One iteration of the loop: `fillna(0)` of the named column when it exists. */
  function FillColumn(c: IncidentCounts, name: string): IncidentCounts {
    if name == "total_incidents" then c.(total := FillNa(c.total, 0.0))
    else if name == "structure_fires" then c.(structure := FillOptional(c.structure))
    else if name == "vehicle_fires" then c.(vehicle := FillOptional(c.vehicle))
    else if name == "outdoor_fires" then c.(outdoor := FillOptional(c.outdoor))
    else c
  }

  function FillColumns(c: IncidentCounts, names: seq<string>): IncidentCounts
    decreases |names|
  {
    if names == [] then c else FillColumn(FillColumns(c, names[..|names| - 1]), names[|names| - 1])
  }

  /** Every incident count with NaN replaced by 0; `years_of_data` is not among them. */
  function Filled(c: IncidentCounts): (r: IncidentCounts)
    ensures !r.total.NaN? && r.years == c.years
    ensures r.structure.Some? <==> c.structure.Some?
    ensures r.structure.Some? ==> !r.structure.value.NaN?
  {
    c.(total := FillNa(c.total, 0.0), structure := FillOptional(c.structure),
       vehicle := FillOptional(c.vehicle), outdoor := FillOptional(c.outdoor))
  }

  /** Filling the four columns one after the other fills each once. */
  lemma FillColumnsAll(c: IncidentCounts)
    ensures FillColumns(c, IncidentColumns) == Filled(c)
  {
    var names := IncidentColumns;
    assert names[..1] == ["total_incidents"] && names[..1][..0] == [];
    assert FillColumns(c, names[..1][..0]) == c;
    var c1 := FillColumns(c, names[..1]);
    assert c1 == FillColumn(c, "total_incidents");
    assert names[..2][..1] == names[..1];
    var c2 := FillColumns(c, names[..2]);
    assert c2 == FillColumn(c1, "structure_fires");
    assert names[..3][..2] == names[..2];
    var c3 := FillColumns(c, names[..3]);
    assert c3 == FillColumn(c2, "vehicle_fires");
    assert names[..4][..3] == names[..3] && names[..4] == names;
    assert FillColumns(c, names) == FillColumn(c3, "outdoor_fires");
  }

  function FilledCounts(merged: seq<MergedArea>): seq<MergedArea> {
    seq(|merged|, i requires 0 <= i < |merged| => merged[i].(counts := Filled(merged[i].counts)))
  }

  /** The `for col in incident_cols` loop over the merged frame. */
  method FillIncidentCounts(merged: seq<MergedArea>) returns (r: seq<MergedArea>)
    ensures r == FilledCounts(merged)
  {
    r := merged;
    var n := 0;
    while n < |IncidentColumns|
      invariant 0 <= n <= |IncidentColumns|
      invariant |r| == |merged|
      invariant forall i :: 0 <= i < |r| ==>
                  r[i] == merged[i].(counts := FillColumns(merged[i].counts, IncidentColumns[..n]))
    {
      var name := IncidentColumns[n];
      var prev := r;
      r := seq(|prev|, i requires 0 <= i < |prev| => prev[i].(counts := FillColumn(prev[i].counts, name)));
      assert IncidentColumns[..n + 1][..n] == IncidentColumns[..n];
      n := n + 1;
    }
    assert IncidentColumns[..n] == IncidentColumns;
    forall i | 0 <= i < |r| ensures r[i] == FilledCounts(merged)[i] {
      FillColumnsAll(merged[i].counts);
    }
  }

  /** Every incident key is text, as the join leaves it. */
  predicate TextKeys(t: Table) {
    forall i :: 0 <= i < |t.rows| ==> ColumnCells(t, AreaIdName)[i].Str?
  }

  /** With text keys the count rows have distinct merge keys. */
  lemma CountKeysUnique(t: Table)
    requires TextKeys(t)
    ensures UniqueKeys(Aggregate(t).rows, CountKey)
  {
    var keys := GroupKeys(ColumnCells(t, AreaIdName));
    forall k | 0 <= k < |keys| ensures keys[k].Str? {
      var i :| 0 <= i < |ColumnCells(t, AreaIdName)| && ColumnCells(t, AreaIdName)[i] == keys[k];
    }
  }

  /** An area key that no count row has is the key of no incident. */
  lemma UnmatchedKeyAbsent(t: Table, key: Cell)
    requires TextKeys(t) && key !in KeySet(Aggregate(t).rows, CountKey)
    ensures forall i :: 0 <= i < |t.rows| ==> !HasKey(AreaKey(t.columns), key)(t.rows[i])
  {
    var cells := ColumnCells(t, AreaIdName);
    var keys := GroupKeys(cells);
    var f := Aggregate(t);
    forall i | 0 <= i < |t.rows| ensures AreaKey(t.columns)(t.rows[i]) != key {
      assert AreaKey(t.columns)(t.rows[i]) == cells[i];
    }
  }

  /** The flag count of a merged (filled) row, for a column that may be absent. */
  predicate FlagCountIs(present: bool, x: Option<Float>, total: real) {
    if present then x == Some(Finite(total)) else x.None?
  }

  /** The zero-filled counts of one merged row are the incident counts of its key. */
  lemma PairCounts(t: Table, columns: seq<string>, p: (Row, Option<AreaCounts>))
    requires TextKeys(t) && Paired(Aggregate(t).rows, AreaRowKey(columns), CountKey, p)
    ensures var c := Filled(MatchedCounts(Aggregate(t), p.1));
            var key := AreaRowKey(columns)(p.0);
            c.total == Finite(GroupSize(t, key)) &&
            FlagCountIs(StructureFlag in t.columns, c.structure, FlagTotal(t, StructureFlag, key)) &&
            FlagCountIs(VehicleFlag in t.columns, c.vehicle, FlagTotal(t, VehicleFlag, key)) &&
            FlagCountIs(OutdoorFlag in t.columns, c.outdoor, FlagTotal(t, OutdoorFlag, key))
  {
    if p.1.Some? {
      MatchedPairCounts(t, columns, p);
    } else {
      UnmatchedPairCounts(t, columns, p);
    }
  }

  /** A merged row with counts carries the counts of its key. */
  lemma MatchedPairCounts(t: Table, columns: seq<string>, p: (Row, Option<AreaCounts>))
    requires TextKeys(t) && Paired(Aggregate(t).rows, AreaRowKey(columns), CountKey, p) && p.1.Some?
    ensures var c := Filled(MatchedCounts(Aggregate(t), p.1));
            var key := AreaRowKey(columns)(p.0);
            c.total == Finite(GroupSize(t, key)) &&
            FlagCountIs(StructureFlag in t.columns, c.structure, FlagTotal(t, StructureFlag, key)) &&
            FlagCountIs(VehicleFlag in t.columns, c.vehicle, FlagTotal(t, VehicleFlag, key)) &&
            FlagCountIs(OutdoorFlag in t.columns, c.outdoor, FlagTotal(t, OutdoorFlag, key))
  {
    var f := Aggregate(t);
    var keys := GroupKeys(ColumnCells(t, AreaIdName));
    var k :| 0 <= k < |f.rows| && f.rows[k] == p.1.value;
    assert keys[k] in ColumnCells(t, AreaIdName);
    assert CountKey(f.rows[k]) == keys[k];
  }

  /** A merged row without counts has a key no incident carries, so its zero counts are exact. */
  lemma UnmatchedPairCounts(t: Table, columns: seq<string>, p: (Row, Option<AreaCounts>))
    requires TextKeys(t) && Paired(Aggregate(t).rows, AreaRowKey(columns), CountKey, p) && p.1.None?
    ensures var c := Filled(MatchedCounts(Aggregate(t), p.1));
            var key := AreaRowKey(columns)(p.0);
            c.total == Finite(GroupSize(t, key)) &&
            FlagCountIs(StructureFlag in t.columns, c.structure, FlagTotal(t, StructureFlag, key)) &&
            FlagCountIs(VehicleFlag in t.columns, c.vehicle, FlagTotal(t, VehicleFlag, key)) &&
            FlagCountIs(OutdoorFlag in t.columns, c.outdoor, FlagTotal(t, OutdoorFlag, key))
  {
    var key := AreaRowKey(columns)(p.0);
    UnmatchedKeyAbsent(t, key);
    var q := HasKey(AreaKey(t.columns), key);
    SumWhereZero(t.rows, q, Each());
    SumWhereZero(t.rows, q, FlagOf(t.columns, StructureFlag));
    SumWhereZero(t.rows, q, FlagOf(t.columns, VehicleFlag));
    SumWhereZero(t.rows, q, FlagOf(t.columns, OutdoorFlag));
  }

  /**
   * `c` holds exactly the counts of the incidents carrying key `k`: their number
   * and, for each fire-type column the incidents have, the number flagged.
   */
  ghost predicate CountsOfKey(t: Table, k: Cell, c: IncidentCounts) {
    c.total == Finite(GroupSize(t, k)) &&
    FlagCountIs(StructureFlag in t.columns, c.structure, FlagTotal(t, StructureFlag, k)) &&
    FlagCountIs(VehicleFlag in t.columns, c.vehicle, FlagTotal(t, VehicleFlag, k)) &&
    FlagCountIs(OutdoorFlag in t.columns, c.outdoor, FlagTotal(t, OutdoorFlag, k))
  }

  /**
   * After the merge and `fillna(0)` there is one row per response area, in
   * order, and its counts are the numbers of incidents carrying its key, in
   * total and per fire type; an area without incidents gets 0.
   */
  lemma MergedCountsExact(t: Table, areas: Table)
    requires TextKeys(t)
    ensures var merged := FilledCounts(MergeCounts(areas, Aggregate(t)));
            |merged| == |areas.rows| &&
            forall i :: 0 <= i < |areas.rows| ==>
              merged[i].area == areas.rows[i] &&
              CountsOfKey(t, AreaRowKey(areas.columns)(areas.rows[i]), merged[i].counts)
  {
    var merged := FilledCounts(MergeCounts(areas, Aggregate(t)));
    MergedLength(t, areas);
    forall i | 0 <= i < |areas.rows|
      ensures merged[i].area == areas.rows[i] &&
              CountsOfKey(t, AreaRowKey(areas.columns)(areas.rows[i]), merged[i].counts)
    {
      MergedRowExact(t, areas, i);
    }
  }

  lemma MergedLength(t: Table, areas: Table)
    requires TextKeys(t)
    ensures |FilledCounts(MergeCounts(areas, Aggregate(t)))| == |areas.rows|
  {
    CountKeysUnique(t);
    LeftJoinUnique(areas.rows, Aggregate(t).rows, AreaRowKey(areas.columns), CountKey);
  }

  /** One merged row: its response area, and its counts from the incidents carrying its key. */
  lemma MergedRowExact(t: Table, areas: Table, i: nat)
    requires TextKeys(t) && i < |areas.rows|
    ensures var merged := FilledCounts(MergeCounts(areas, Aggregate(t)));
            |merged| == |areas.rows| &&
            merged[i].area == areas.rows[i] &&
            CountsOfKey(t, AreaRowKey(areas.columns)(areas.rows[i]), merged[i].counts)
  {
    var f := Aggregate(t);
    CountKeysUnique(t);
    LeftJoinUnique(areas.rows, f.rows, AreaRowKey(areas.columns), CountKey);
    var j := LeftJoin(areas.rows, f.rows, AreaRowKey(areas.columns), CountKey);
    PairCounts(t, areas.columns, j[i]);
    assert MergeCounts(areas, f)[i] == MergedArea(j[i].0, MatchedCounts(f, j[i].1));
  }

  // ------------------------------------------------------------ the rates

  /** A census cell read as a float; a cell that is not a number is NaN. */
  function NumberCell(c: Cell): Float {
    if c.Num? then Finite(c.x) else NaN
  }

  /** `np.where(den > 0, count / den * 1000, np.nan)` */
  function PerThousand(count: Float, denominator: Float): Float {
    if Above(denominator, 0.0) then Scale(Div(count, denominator), 1000.0) else NaN
  }

  /**
   * The guard: a finite count gives NaN exactly when the denominator is not
   * positive (missing, zero or negative), and never an infinity.
   */
  lemma PerThousandGuarded(count: Float, denominator: Float)
    requires count.Finite?
    ensures PerThousand(count, denominator).NaN? <==> !Above(denominator, 0.0)
    ensures !PerThousand(count, denominator).PosInf? && !PerThousand(count, denominator).NegInf?
    ensures denominator.Finite? && denominator.value > 0.0 ==>
              PerThousand(count, denominator) == Finite(count.value / denominator.value * 1000.0)
    ensures denominator.Finite? && denominator.value > 0.0 && count.value >= 0.0 ==>
              PerThousand(count, denominator).value >= 0.0
  {
    if denominator.Finite? && denominator.value > 0.0 && count.value >= 0.0 {
      assert count.value / denominator.value >= 0.0;
    }
  }

  /** A count per 1,000 of a positive denominator. */
  function Rate(count: real, denominator: real): real
    requires denominator > 0.0
  {
    count / denominator * 1000.0
  }

  /** `rate / years`. */
  function Annualize(rate: Float, years: Float): Float {
    Div(rate, years)
  }

  lemma AnnualizeProperties(rate: Float, n: nat)
    ensures Annualize(rate, Finite(1.0)) == rate
    ensures rate.Finite? && n > 0 ==> Annualize(rate, Finite(n as real)) == Finite(rate.value / n as real)
    ensures rate.NaN? ==> Annualize(rate, Finite(n as real)).NaN?
  {
  }

  /** The rate columns of one merged area; None where a column is not created. */
  datatype AreaRates = AreaRates(
    perThousandPop: Option<Float>, structurePerThousandPop: Option<Float>,
    perThousandUnits: Option<Float>, structurePerThousandUnits: Option<Float>,
    annualPerThousandPop: Option<Float>, annualPerThousandUnits: Option<Float>)

  const PopulationName: string := "population"
  const UnitsName: string := "total_units"

  function RatesOf(columns: seq<string>, area: Row, c: IncidentCounts, years: Option<Float>): AreaRates {
    var pop := NumberCell(Lookup(columns, area, PopulationName));
    var units := NumberCell(Lookup(columns, area, UnitsName));
    var perPop := if PopulationName in columns then Some(PerThousand(c.total, pop)) else None;
    var perUnits := if UnitsName in columns then Some(PerThousand(c.total, units)) else None;
    AreaRates(
      perPop,
      if PopulationName in columns && c.structure.Some? then Some(PerThousand(c.structure.value, pop)) else None,
      perUnits,
      if UnitsName in columns && c.structure.Some? then Some(PerThousand(c.structure.value, units)) else None,
      if years.Some? && perPop.Some? then Some(Annualize(perPop.value, years.value)) else None,
      if years.Some? && perUnits.Some? then Some(Annualize(perUnits.value, years.value)) else None)
  }

  datatype RatedArea = RatedArea(area: Row, counts: IncidentCounts, rates: AreaRates)

  function RateAll(columns: seq<string>, filled: seq<MergedArea>, years: Option<Float>): seq<RatedArea> {
    seq(|filled|, i requires 0 <= i < |filled| =>
      RatedArea(filled[i].area, filled[i].counts, RatesOf(columns, filled[i].area, filled[i].counts, years)))
  }

  /** Annualizing reads a rate column that is only created when its denominator column exists. */
  predicate MissingRateColumn(columns: seq<string>) {
    PopulationName !in columns || UnitsName !in columns
  }

  /** The number of years the counts cover, as the count table gives it. */
  function CorrectedYears(f: CountFrame): Option<Float> {
    if f.years.Some? then Some(Finite(f.years.value as real)) else None
  }

  /**
   * `merge_incidents_with_demographics`, annualizing by the count table's
   * number of years; None is the KeyError of annualizing without a rate column.
   */
  function MergeIncidents(areas: Table, f: CountFrame): (r: Option<seq<RatedArea>>)
    ensures r.None? <==> f.years.Some? && MissingRateColumn(areas.columns)
  {
    if f.years.Some? && MissingRateColumn(areas.columns) then None
    else Some(RateAll(areas.columns, FilledCounts(MergeCounts(areas, f)), CorrectedYears(f)))
  }

  /** The merge, the zero-fill loop, then the rate columns. */
  method MergeWithDemographics(areas: Table, f: CountFrame) returns (r: Option<seq<RatedArea>>)
    ensures r == MergeIncidents(areas, f)
  {
    var merged := MergeCounts(areas, f);
    var filled := FillIncidentCounts(merged);
    var years := CorrectedYears(f);
    if years.Some? && MissingRateColumn(areas.columns) {
      r := None;
    } else {
      r := Some(RateAll(areas.columns, filled, years));
    }
  }

  /**
   * Every rate of a merged area: NaN where the population (or the housing-unit
   * count) is not a positive number, the count per 1,000 otherwise, and the
   * annual rate that rate divided by the number of years.
   */
  lemma MergedRates(t: Table, areas: Table, i: nat)
    requires TextKeys(t) && !MissingRateColumn(areas.columns) && i < |areas.rows|
    ensures var r := MergeIncidents(areas, Aggregate(t));
            var key := AreaRowKey(areas.columns)(areas.rows[i]);
            var pop := Lookup(areas.columns, areas.rows[i], PopulationName);
            r.Some? && |r.value| == |areas.rows| &&
            r.value[i].area == areas.rows[i] &&
            (!(pop.Num? && pop.x > 0.0) <==> r.value[i].rates.perThousandPop == Some(NaN)) &&
            (pop.Num? && pop.x > 0.0 ==>
               r.value[i].rates.perThousandPop == Some(Finite(Rate(GroupSize(t, key), pop.x)))) &&
            (Aggregate(t).years.Some? <==> r.value[i].rates.annualPerThousandPop.Some?) &&
            (Aggregate(t).years.Some? ==>
               r.value[i].rates.annualPerThousandPop ==
               Some(Annualize(r.value[i].rates.perThousandPop.value, Finite(Aggregate(t).years.value as real))))
  {
    var filled := FilledCounts(MergeCounts(areas, Aggregate(t)));
    var key := AreaRowKey(areas.columns)(areas.rows[i]);
    MergedCountsAt(t, areas, i);
    RatesOfCounts(areas.columns, filled[i].area, filled[i].counts, CorrectedYears(Aggregate(t)), GroupSize(t, key));
    var r := MergeIncidents(areas, Aggregate(t));
    assert r.value[i] == RatedArea(filled[i].area, filled[i].counts,
                                   RatesOf(areas.columns, filled[i].area, filled[i].counts, CorrectedYears(Aggregate(t))));
  }

  lemma MergedCountsAt(t: Table, areas: Table, i: nat)
    requires TextKeys(t) && i < |areas.rows|
    ensures var merged := FilledCounts(MergeCounts(areas, Aggregate(t)));
            |merged| == |areas.rows| && merged[i].area == areas.rows[i] &&
            merged[i].counts.total == Finite(GroupSize(t, AreaRowKey(areas.columns)(areas.rows[i])))
  {
    MergedCountsExact(t, areas);
  }

  lemma RatesOfCounts(columns: seq<string>, area: Row, c: IncidentCounts, years: Option<Float>, total: real)
    requires PopulationName in columns && c.total == Finite(total)
    ensures var pop := Lookup(columns, area, PopulationName);
            var rates := RatesOf(columns, area, c, years);
            (!(pop.Num? && pop.x > 0.0) <==> rates.perThousandPop == Some(NaN)) &&
            (pop.Num? && pop.x > 0.0 ==> rates.perThousandPop == Some(Finite(Rate(total, pop.x)))) &&
            (years.Some? <==> rates.annualPerThousandPop.Some?) &&
            (years.Some? ==> rates.annualPerThousandPop == Some(Annualize(rates.perThousandPop.value, years.value)))
  {
    var pop := Lookup(columns, area, PopulationName);
    PerThousandGuarded(c.total, NumberCell(pop));
  }

  // ------------------------------------------------- years_of_data as written

  /** `merged['years_of_data'].iloc[0]`; None is the IndexError of an empty frame. */
  function FirstRowYears(filled: seq<MergedArea>): Option<Float> {
    if |filled| == 0 then None else filled[0].counts.years
  }

  /** The merge as the script writes it: annualized by the first merged row's `years_of_data`. */
  function MergeIncidentsAsWritten(areas: Table, f: CountFrame): (r: Option<seq<RatedArea>>)
    ensures f.years.None? ==> r == MergeIncidents(areas, f)
    ensures r.None? <==> f.years.Some? && (MissingRateColumn(areas.columns) || |areas.rows| == 0)
    ensures r.Some? ==> |r.value| >= |areas.rows|
  {
    var filled := FilledCounts(MergeCounts(areas, f));
    if f.years.None? then Some(RateAll(areas.columns, filled, None))
    else if MissingRateColumn(areas.columns) || |filled| == 0 then None
    else Some(RateAll(areas.columns, filled, FirstRowYears(filled)))
  }

  /**
   * `years_of_data` is not a fill column, so when the first response area has
   * no incidents the value read is NaN and every annual rate of every area is NaN.
   */
  lemma FirstAreaWithoutIncidentsLosesAnnualRates(t: Table, areas: Table)
    requires TextKeys(t) && Aggregate(t).years.Some? && !MissingRateColumn(areas.columns)
    requires |areas.rows| > 0 && AreaRowKey(areas.columns)(areas.rows[0]) !in KeySet(Aggregate(t).rows, CountKey)
    ensures var r := MergeIncidentsAsWritten(areas, Aggregate(t));
            r.Some? && |r.value| == |areas.rows| &&
            forall i :: 0 <= i < |r.value| ==>
              r.value[i].rates.annualPerThousandPop == Some(NaN) &&
              r.value[i].rates.annualPerThousandUnits == Some(NaN)
  {
    var f := Aggregate(t);
    CountKeysUnique(t);
    LeftJoinUnique(areas.rows, f.rows, AreaRowKey(areas.columns), CountKey);
    var filled := FilledCounts(MergeCounts(areas, f));
    assert FirstRowYears(filled) == Some(NaN);
  }

  /**
   * With the count table's number of years, an area's annual rate is its
   * per-1,000 rate over the years whatever the first area holds: finite when
   * the rate is finite and some incident has a year.
   */
  lemma CorrectedAnnualRates(t: Table, areas: Table, i: nat)
    requires TextKeys(t) && Aggregate(t).years.Some? && !MissingRateColumn(areas.columns) && i < |areas.rows|
    ensures var r := MergeIncidents(areas, Aggregate(t));
            var n := Aggregate(t).years.value;
            r.Some? && |r.value| == |areas.rows| &&
            (r.value[i].rates.perThousandPop.value.Finite? && n > 0 ==>
               r.value[i].rates.annualPerThousandPop ==
               Some(Finite(r.value[i].rates.perThousandPop.value.value / n as real)))
  {
    MergedCountsExact(t, areas);
    var r := MergeIncidents(areas, Aggregate(t));
    AnnualizeProperties(r.value[i].rates.perThousandPop.value, Aggregate(t).years.value);
  }
}
