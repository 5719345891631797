/**
 * The summaries of the merged response areas: by urban class, by the share of
 * single-family housing, by building age, by incident type, and the fire
 * station coverage. Each summary groups the valid areas, sums per group and
 * divides; every grouping lemma says that the groups split the valid rows
 * without loss or overlap.
 */
module IncidentSummaries {
  import opened Wrappers
  import opened Numeric
  import opened Text
  import opened Columns
  import opened Frames
  import opened Sequences
  import opened Joins
  import opened Grouping
  import opened IncidentAnalysis

  // ------------------------------------------------------------ urban classes

  datatype UrbanClass = UrbanCore | InnerSuburban | OuterSuburban

  function ClassLabel(c: UrbanClass): string {
    match c
    case UrbanCore => "urban_core"
    case InnerSuburban => "inner_suburban"
    case OuterSuburban => "outer_suburban"
  }

  /** The class a label names; any other cell (`unknown`, missing) names none. */
  function ClassOf(cell: Cell): (r: Option<UrbanClass>)
    ensures r.Some? ==> cell == Str(ClassLabel(r.value))
    ensures forall c: UrbanClass :: cell == Str(ClassLabel(c)) ==> r == Some(c)
  {
    if cell == Str("urban_core") then Some(UrbanCore)
    else if cell == Str("inner_suburban") then Some(InnerSuburban)
    else if cell == Str("outer_suburban") then Some(OuterSuburban)
    else None
  }

  const ClassName: string := "urban_class"
  const Unknown: Cell := Str("unknown")

  function ClassCell(columns: seq<string>, a: RatedArea): Cell {
    Lookup(columns, a.area, ClassName)
  }

  // ------------------------------------------------------ reading the merged frame

  /** A value as `sum()` adds it: NaN is skipped. */
  function Known(x: Float): real {
    if x.Finite? then x.value else 0.0
  }

  function CensusFloat(columns: seq<string>, a: RatedArea, name: string): Float {
    NumberCell(Lookup(columns, a.area, name))
  }

  function CensusValue(columns: seq<string>, name: string): RatedArea -> real {
    a => Known(CensusFloat(columns, a, name))
  }

  function Incidents(): RatedArea -> real {
    (a: RatedArea) => Known(a.counts.total)
  }

  function StructureFires(): RatedArea -> real {
    (a: RatedArea) => Known(a.counts.structure.GetOr(NaN))
  }

  function One<T>(): T -> real {
    x => 1.0
  }

  /** `(x / den) * k` without a guard: a zero denominator gives an infinity or NaN. */
  function Ratio(x: real, den: real, k: real): Float
    requires k > 0.0
  {
    Scale(Div(Finite(x), Finite(den)), k)
  }

  lemma RatioDefined(x: real, den: real, k: real)
    requires k > 0.0
    ensures den != 0.0 <==> Ratio(x, den, k).Finite?
    ensures den != 0.0 ==> Ratio(x, den, k) == Finite(x / den * k)
    ensures den == 0.0 && x == 0.0 ==> Ratio(x, den, k).NaN?
  {
  }

  /** The sums every summary takes over a group. */
  datatype GroupTotals = GroupTotals(population: real, totalUnits: real, incidents: real, structureFires: real, areas: real)

  function TotalsWhere(columns: seq<string>, rows: seq<RatedArea>, p: RatedArea -> bool): GroupTotals {
    GroupTotals(
      SumWhere(rows, p, CensusValue(columns, PopulationName)),
      SumWhere(rows, p, CensusValue(columns, UnitsName)),
      SumWhere(rows, p, Incidents()),
      SumWhere(rows, p, StructureFires()),
      SumWhere(rows, p, One()))
  }

  predicate HasColumns(columns: seq<string>, names: seq<string>) {
    forall k :: 0 <= k < |names| ==> names[k] in columns
  }

  lemma {:induction false} SumOfCons<K>(k: K, rest: seq<K>, g: K -> real)
    ensures SumOf([k] + rest, g) == g(k) + SumOf(rest, g)
  {
    SumOfAppend([k], rest, g);
    assert [k][..0] == [];
  }

  /** Over rows that all satisfy `p`, a sum of positive summands is positive. */
  lemma {:induction false} SumWherePositive<T>(xs: seq<T>, p: T -> bool, f: T -> real, i: nat)
    requires i < |xs| && p(xs[i])
    requires forall j :: 0 <= j < |xs| && p(xs[j]) ==> f(xs[j]) > 0.0
    ensures SumWhere(xs, p, f) > 0.0
    decreases |xs|
  {
    var init := xs[..|xs| - 1];
    if i == |xs| - 1 {
      SumWhereMonotone(init, p, Zero(), f);
      SumWhereZero(init, p, Zero());
    } else {
      assert init[i] == xs[i];
      SumWherePositive(init, p, f, i);
    }
  }

  function Zero<T>(): T -> real {
    x => 0.0
  }

  // ------------------------------------------------------ by urban class

  /** `(population > 0) & (urban_class != 'unknown')` */
  predicate ValidForClass(columns: seq<string>, a: RatedArea) {
    Above(CensusFloat(columns, a, PopulationName), 0.0) && ClassCell(columns, a) != Unknown
  }

  /** The group of a valid area; None when the filter or `groupby` drops it. */
  function ClassKey(columns: seq<string>): RatedArea -> Option<UrbanClass> {
    a => if ValidForClass(columns, a) then ClassOf(ClassCell(columns, a)) else None
  }

  function InClass(columns: seq<string>, c: UrbanClass): RatedArea -> bool {
    HasKey(ClassKey(columns), Some(c))
  }

  const ClassOrder: seq<UrbanClass> := [UrbanCore, InnerSuburban, OuterSuburban]

  /** The groups that occur among `rows`, in the order of `ks`. */
  function OccurringKeys<T, K(==)>(rows: seq<T>, key: T -> Option<K>, ks: seq<K>): (r: seq<K>)
    ensures forall k :: 0 <= k < |r| ==> r[k] in ks
    decreases |ks|
  {
    if ks == [] then []
    else
      var head := if exists i :: 0 <= i < |rows| && key(rows[i]) == Some(ks[0]) then [ks[0]] else [];
      var rest := OccurringKeys(rows, key, ks[1..]);
      assert forall k :: 0 <= k < |rest| ==> rest[k] in ks;
      head + rest
  }

  /** Each group listed has a row, and each group with a row is listed. */
  lemma {:induction false} OccurringExactly<T, K>(rows: seq<T>, key: T -> Option<K>, ks: seq<K>, g: K)
    ensures g in OccurringKeys(rows, key, ks) <==> g in ks && exists i :: 0 <= i < |rows| && key(rows[i]) == Some(g)
    decreases |ks|
  {
    if ks != [] {
      OccurringExactly(rows, key, ks[1..], g);
      if g == ks[0] && exists i :: 0 <= i < |rows| && key(rows[i]) == Some(g) {
        assert g in OccurringKeys(rows, key, ks)[..1];
      }
    }
  }

  datatype ClassSummary = ClassSummary(
    urbanClass: UrbanClass, totals: GroupTotals, singleFamily: real, multifamily: real, areaSqMiles: real,
    perThousandPop: Float, perThousandUnits: Float, structurePerThousandUnits: Float,
    popDensity: Float, pctSingleFamily: Float,
    annualPerThousandPop: Option<Float>, annualPerThousandUnits: Option<Float>)

  function SummaryOfClass(columns: seq<string>, rows: seq<RatedArea>, c: UrbanClass, years: Option<Float>): ClassSummary {
    var p := InClass(columns, c);
    var t := TotalsWhere(columns, rows, p);
    var sf := SumWhere(rows, p, CensusValue(columns, "single_family"));
    var sq := SumWhere(rows, p, CensusValue(columns, "area_sq_miles"));
    var perPop := Ratio(t.incidents, t.population, 1000.0);
    var perUnits := Ratio(t.incidents, t.totalUnits, 1000.0);
    ClassSummary(c, t, sf, SumWhere(rows, p, CensusValue(columns, "multifamily")), sq,
      perPop, perUnits, Ratio(t.structureFires, t.totalUnits, 1000.0),
      Div(Finite(t.population), Finite(sq)), Ratio(sf, t.totalUnits, 100.0),
      if years.Some? then Some(Annualize(perPop, years.value)) else None,
      if years.Some? then Some(Annualize(perUnits, years.value)) else None)
  }

  const ClassSummaryColumns: seq<string> :=
    ["population", "total_units", "single_family", "multifamily", "area_sq_miles", "urban_class"]

  /**
   * `analyze_by_urban_class` with the annual rates divided by `years` (None: no
   * annual columns). None is the KeyError of a missing column.
   */
  function UrbanSummary(columns: seq<string>, present: CountColumns, rows: seq<RatedArea>, years: Option<Float>)
    : (r: Option<seq<ClassSummary>>)
    ensures r.None? <==> !present.structure || !HasColumns(columns, ClassSummaryColumns)
    ensures r.Some? ==> forall k :: 0 <= k < |r.value| ==> r.value[k].urbanClass in ClassOrder
    ensures r.Some? ==> forall k :: 0 <= k < |r.value| ==>
              (r.value[k].annualPerThousandPop.Some? <==> years.Some?) &&
              (r.value[k].annualPerThousandUnits.Some? <==> years.Some?)
  {
    if !present.structure || !HasColumns(columns, ClassSummaryColumns) then None
    else
      var cs := OccurringKeys(rows, ClassKey(columns), ClassOrder);
      Some(seq(|cs|, k requires 0 <= k < |cs| => SummaryOfClass(columns, rows, cs[k], years)))
  }

  /**
   * `analyze_by_urban_class` over areas merged with the count table `f`, with the
   * annual rates divided by the number of years that table covers.
   */
  function SummarizeByUrbanClass(columns: seq<string>, present: CountColumns, rows: seq<RatedArea>, f: CountFrame)
    : (r: Option<seq<ClassSummary>>)
    ensures r.None? <==> !present.structure || !HasColumns(columns, ClassSummaryColumns)
    ensures r.Some? ==> forall k :: 0 <= k < |r.value| ==>
              r.value[k].urbanClass in ClassOrder &&
              (r.value[k].annualPerThousandPop.Some? <==> f.years.Some?) &&
              (f.years.Some? ==>
                 r.value[k].annualPerThousandPop == Some(Annualize(r.value[k].perThousandPop, Finite(f.years.value as real))) &&
                 r.value[k].annualPerThousandUnits == Some(Annualize(r.value[k].perThousandUnits, Finite(f.years.value as real))))
  {
    UrbanSummary(columns, present, rows, CorrectedYears(f))
  }

  /**
   * The summary as the script writes it: the years are `years_of_data` of the
   * first merged area; reading it from an empty frame raises IndexError (None).
   */
  function SummarizeByUrbanClassAsWritten(columns: seq<string>, present: CountColumns, rows: seq<RatedArea>, f: CountFrame)
    : (r: Option<seq<ClassSummary>>)
    ensures f.years.None? ==> r == SummarizeByUrbanClass(columns, present, rows, f)
    ensures r.None? <==> (f.years.Some? && |rows| == 0) || !present.structure || !HasColumns(columns, ClassSummaryColumns)
    ensures r.Some? ==> forall k :: 0 <= k < |r.value| ==> r.value[k].urbanClass in ClassOrder
  {
    if f.years.None? then UrbanSummary(columns, present, rows, None)
    else if |rows| == 0 then None
    else UrbanSummary(columns, present, rows, rows[0].counts.years)
  }

  /**
   * When the first response area has no incidents its `years_of_data` is NaN,
   * so every urban class's annual rates are NaN in the summary as written.
   */
  lemma FirstAreaWithoutIncidentsLosesClassAnnualRates(t: Table, areas: Table, present: CountColumns)
    requires TextKeys(t) && Aggregate(t).years.Some? && !MissingRateColumn(areas.columns)
    requires |areas.rows| > 0 && AreaRowKey(areas.columns)(areas.rows[0]) !in KeySet(Aggregate(t).rows, CountKey)
    ensures var rows := MergeIncidents(areas, Aggregate(t)).value;
            var r := SummarizeByUrbanClassAsWritten(areas.columns, present, rows, Aggregate(t));
            (r.Some? <==> present.structure && HasColumns(areas.columns, ClassSummaryColumns)) &&
            (r.Some? ==> forall k :: 0 <= k < |r.value| ==>
               r.value[k].annualPerThousandPop == Some(NaN) && r.value[k].annualPerThousandUnits == Some(NaN))
  {
    var rows := MergeIncidents(areas, Aggregate(t)).value;
    FirstMergedYearsNaN(t, areas);
    NaNYearsSummary(areas.columns, present, rows);
  }

  /** The first merged area without incidents carries a NaN `years_of_data`. */
  lemma FirstMergedYearsNaN(t: Table, areas: Table)
    requires TextKeys(t) && Aggregate(t).years.Some? && !MissingRateColumn(areas.columns)
    requires |areas.rows| > 0 && AreaRowKey(areas.columns)(areas.rows[0]) !in KeySet(Aggregate(t).rows, CountKey)
    ensures var rows := MergeIncidents(areas, Aggregate(t)).value;
            |rows| > 0 && rows[0].counts.years == Some(NaN)
  {
    var f := Aggregate(t);
    CountKeysUnique(t);
    LeftJoinUnique(areas.rows, f.rows, AreaRowKey(areas.columns), CountKey);
  }

  /** Dividing by a NaN number of years makes every annual rate NaN. */
  lemma NaNYearsSummary(columns: seq<string>, present: CountColumns, rows: seq<RatedArea>)
    ensures var r := UrbanSummary(columns, present, rows, Some(NaN));
            r.Some? ==> forall k :: 0 <= k < |r.value| ==>
              r.value[k].annualPerThousandPop == Some(NaN) && r.value[k].annualPerThousandUnits == Some(NaN)
  {
  }

  /** When the first area has incidents, the summary as written is the corrected one. */
  lemma UrbanSummaryAgreesWhenFirstMatched(columns: seq<string>, present: CountColumns, rows: seq<RatedArea>, f: CountFrame)
    requires f.years.None? || (|rows| > 0 && rows[0].counts.years == CorrectedYears(f))
    ensures SummarizeByUrbanClassAsWritten(columns, present, rows, f) == SummarizeByUrbanClass(columns, present, rows, f)
  {
  }

  /** The three classes and the dropped rows split every sum over the rows. */
  lemma ClassesPartition<T>(rows: seq<T>, key: T -> Option<UrbanClass>, f: T -> real)
    ensures SumWhere(rows, HasKey(key, Some(UrbanCore)), f) + SumWhere(rows, HasKey(key, Some(InnerSuburban)), f) +
            SumWhere(rows, HasKey(key, Some(OuterSuburban)), f) + SumWhere(rows, HasKey(key, None), f) ==
            SumOf(rows, f)
  {
    var keys := [None, Some(UrbanCore), Some(InnerSuburban), Some(OuterSuburban)];
    forall i | 0 <= i < |rows| ensures key(rows[i]) in keys {
      match key(rows[i])
      case None =>
      case Some(c) =>
        match c
        case UrbanCore =>
        case InnerSuburban =>
        case OuterSuburban =>
    }
    GroupedSum(rows, key, f, keys);
    var g := GroupTotal(rows, key, f);
    SumOfCons(None, keys[1..], g);
    SumOfCons(Some(UrbanCore), keys[2..], g);
    SumOfCons(Some(InnerSuburban), keys[3..], g);
    SumOfCons(Some(OuterSuburban), keys[4..], g);
    assert keys == [None] + keys[1..];
    assert keys[1..] == [Some(UrbanCore)] + keys[2..];
    assert keys[2..] == [Some(InnerSuburban)] + keys[3..];
    assert keys[3..] == [Some(OuterSuburban)] + keys[4..];
  }

  /**
   * Every class in the summary has a positive population, since only areas
   * with a positive population take part; its per-1,000 rate is therefore
   * always a number.
   */
  lemma ClassRatesDefined(columns: seq<string>, present: CountColumns, rows: seq<RatedArea>, years: Option<Float>)
    requires UrbanSummary(columns, present, rows, years).Some?
    ensures var s := UrbanSummary(columns, present, rows, years).value;
            forall k :: 0 <= k < |s| ==> PopulatedRate(s[k])
  {
    var s := UrbanSummary(columns, present, rows, years).value;
    var cs := OccurringKeys(rows, ClassKey(columns), ClassOrder);
    forall k | 0 <= k < |s| ensures PopulatedRate(s[k]) {
      OccurringExactly(rows, ClassKey(columns), ClassOrder, cs[k]);
      var i :| 0 <= i < |rows| && ClassKey(columns)(rows[i]) == Some(cs[k]);
      assert s[k] == SummaryOfClass(columns, rows, cs[k], years);
      OccurringClassRate(columns, rows, cs[k], years, i);
    }
  }

  /** A positive population and the rate it gives. */
  predicate PopulatedRate(s: ClassSummary) {
    s.totals.population > 0.0 &&
    s.perThousandPop == Finite(s.totals.incidents / s.totals.population * 1000.0)
  }

  lemma OccurringClassRate(columns: seq<string>, rows: seq<RatedArea>, c: UrbanClass, years: Option<Float>, i: nat)
    requires i < |rows| && InClass(columns, c)(rows[i])
    ensures PopulatedRate(SummaryOfClass(columns, rows, c, years))
  {
    var s := SummaryOfClass(columns, rows, c, years);
    ClassPopulationPositive(columns, rows, c, i);
    RatioDefined(s.totals.incidents, s.totals.population, 1000.0);
  }

  lemma ClassPopulationPositive(columns: seq<string>, rows: seq<RatedArea>, c: UrbanClass, i: nat)
    requires i < |rows| && InClass(columns, c)(rows[i])
    ensures SumWhere(rows, InClass(columns, c), CensusValue(columns, PopulationName)) > 0.0
  {
    SumWherePositive(rows, InClass(columns, c), CensusValue(columns, PopulationName), i);
  }

  // ------------------------------------------------------ by single-family share

  datatype SfBin = Below25 | From25To50 | From50To75 | Above75

  function SfLabel(b: SfBin): string {
    match b
    case Below25 => "<25% SF"
    case From25To50 => "25-50% SF"
    case From50To75 => "50-75% SF"
    case Above75 => ">75% SF"
  }

  function BinLow(b: SfBin): real {
    match b
    case Below25 => 0.0
    case From25To50 => 25.0
    case From50To75 => 50.0
    case Above75 => 75.0
  }

  const SfBins: seq<SfBin> := [Below25, From25To50, From50To75, Above75]

  /**
   * `pd.cut(pct, bins=[0, 25, 50, 75, 100], include_lowest=True)`: intervals
   * closed on the right, the first one also on the left.
   */
  function SfCategory(pct: Float): Option<SfBin> {
    if !pct.Finite? then None
    else
      var v := pct.value;
      if 0.0 <= v <= 25.0 then Some(Below25)
      else if 25.0 < v <= 50.0 then Some(From25To50)
      else if 50.0 < v <= 75.0 then Some(From50To75)
      else if 75.0 < v <= 100.0 then Some(Above75)
      else None
  }

  /** A share lands in a bin exactly when it lies in that bin's interval; outside [0, 100] in none. */
  lemma SfCategoryIntervals(pct: Float, b: SfBin)
    ensures SfCategory(pct) == Some(b) <==>
              pct.Finite? && (BinLow(b) < pct.value <= BinLow(b) + 25.0 || (b == Below25 && pct.value == 0.0))
    ensures SfCategory(pct).None? <==> !pct.Finite? || pct.value < 0.0 || pct.value > 100.0
  {
  }

  /** `(population > 0) & (total_units > 0) & pct_single_family.notna()` */
  predicate ValidForHousing(columns: seq<string>, a: RatedArea) {
    Above(CensusFloat(columns, a, PopulationName), 0.0) && Above(CensusFloat(columns, a, UnitsName), 0.0) &&
    !CensusFloat(columns, a, "pct_single_family").NaN?
  }

  function BinKey(columns: seq<string>): RatedArea -> Option<SfBin> {
    a => if ValidForHousing(columns, a) then SfCategory(CensusFloat(columns, a, "pct_single_family")) else None
  }

  function InBin(columns: seq<string>, b: SfBin): RatedArea -> bool {
    HasKey(BinKey(columns), Some(b))
  }

  datatype BinSummary = BinSummary(
    bin: SfBin, totals: GroupTotals, perThousandPop: Float, perThousandUnits: Float, structurePerThousandUnits: Float)

  function SummaryOfBin(columns: seq<string>, rows: seq<RatedArea>, b: SfBin): BinSummary {
    var t := TotalsWhere(columns, rows, InBin(columns, b));
    BinSummary(b, t, Ratio(t.incidents, t.population, 1000.0), Ratio(t.incidents, t.totalUnits, 1000.0),
      Ratio(t.structureFires, t.totalUnits, 1000.0))
  }

  const HousingSummaryColumns: seq<string> := ["population", "total_units", "pct_single_family"]

  /**
   * `analyze_by_housing_type`: one row per bin, in bin order, including the
   * empty ones (the categorical groupby keeps unobserved categories).
   */
  function SummarizeByHousingType(columns: seq<string>, present: CountColumns, rows: seq<RatedArea>)
    : (r: Option<seq<BinSummary>>)
    ensures r.None? <==> !present.structure || !HasColumns(columns, HousingSummaryColumns)
    ensures r.Some? ==> |r.value| == 4 && forall k :: 0 <= k < 4 ==> r.value[k].bin == SfBins[k]
  {
    if !present.structure || !HasColumns(columns, HousingSummaryColumns) then None
    else Some(seq(4, k requires 0 <= k < 4 => SummaryOfBin(columns, rows, SfBins[k])))
  }

  /** The four bins split the valid areas whose share lies in [0, 100]. */
  lemma BinsPartition(columns: seq<string>, rows: seq<RatedArea>, f: RatedArea -> real)
    ensures SumWhere(rows, InBin(columns, Below25), f) + SumWhere(rows, InBin(columns, From25To50), f) +
            SumWhere(rows, InBin(columns, From50To75), f) + SumWhere(rows, InBin(columns, Above75), f) +
            SumWhere(rows, HasKey(BinKey(columns), None), f) ==
            SumOf(rows, f)
  {
    BinKeysPartition(rows, BinKey(columns), f);
  }

  /** The four bins and the dropped rows split every sum over the rows. */
  lemma BinKeysPartition<T>(rows: seq<T>, key: T -> Option<SfBin>, f: T -> real)
    ensures SumWhere(rows, HasKey(key, Some(Below25)), f) + SumWhere(rows, HasKey(key, Some(From25To50)), f) +
            SumWhere(rows, HasKey(key, Some(From50To75)), f) + SumWhere(rows, HasKey(key, Some(Above75)), f) +
            SumWhere(rows, HasKey(key, None), f) ==
            SumOf(rows, f)
  {
    var keys := [None, Some(Below25), Some(From25To50), Some(From50To75), Some(Above75)];
    forall i | 0 <= i < |rows| ensures key(rows[i]) in keys {
      match key(rows[i])
      case None =>
      case Some(b) =>
        match b
        case Below25 =>
        case From25To50 =>
        case From50To75 =>
        case Above75 =>
    }
    GroupedSum(rows, key, f, keys);
    var g := GroupTotal(rows, key, f);
    SumOfCons(None, keys[1..], g);
    SumOfCons(Some(Below25), keys[2..], g);
    SumOfCons(Some(From25To50), keys[3..], g);
    SumOfCons(Some(From50To75), keys[4..], g);
    SumOfCons(Some(Above75), keys[5..], g);
    assert keys == [None] + keys[1..];
    assert keys[1..] == [Some(Below25)] + keys[2..];
    assert keys[2..] == [Some(From25To50)] + keys[3..];
    assert keys[3..] == [Some(From50To75)] + keys[4..];
    assert keys[4..] == [Some(Above75)] + keys[5..];
  }

  // ------------------------------------------------------ by building age

  datatype AgeClass = Newer | Older

  function AgeLabel(g: AgeClass): string {
    match g
    case Newer => "Newer (50%+ post-2010)"
    case Older => "Older (<50% post-2010)"
  }

  /** `np.where(pct_built_2010_plus >= 50, 'Newer …', 'Older …')` */
  function AgeOf(pct: Float): AgeClass {
    if AtLeast(pct, 50.0) then Newer else Older
  }

  const NewShareName: string := "pct_built_2010_plus"

  /** `(population > 0) & (urban_class != 'unknown') & pct_built_2010_plus.notna()` */
  predicate ValidForAge(columns: seq<string>, a: RatedArea) {
    Above(CensusFloat(columns, a, PopulationName), 0.0) && ClassCell(columns, a) != Unknown &&
    !CensusFloat(columns, a, NewShareName).NaN?
  }

  function AgeKey(columns: seq<string>): RatedArea -> Option<AgeClass> {
    a => if ValidForAge(columns, a) then Some(AgeOf(CensusFloat(columns, a, NewShareName))) else None
  }

  /** The class labels of the 2x2 matrix. */
  datatype Simple = SimpleUrbanCore | SimpleInnerSuburban | SimpleOuterSuburban

  function SimpleLabel(c: Simple): string {
    match c
    case SimpleUrbanCore => "Urban Core"
    case SimpleInnerSuburban => "Inner Suburban"
    case SimpleOuterSuburban => "Outer Suburban"
  }

  /** The nested `np.where`: every class other than the two inner ones is Outer Suburban. */
  function SimpleOf(cell: Cell): Simple {
    if cell == Str("urban_core") then SimpleUrbanCore
    else if cell == Str("inner_suburban") then SimpleInnerSuburban
    else SimpleOuterSuburban
  }

  function MatrixKey(columns: seq<string>): RatedArea -> Option<(Simple, AgeClass)> {
    a => if ValidForAge(columns, a)
         then Some((SimpleOf(ClassCell(columns, a)), AgeOf(CensusFloat(columns, a, NewShareName))))
         else None
  }

  /** `groupby` sorts by label: "Newer" before "Older". */
  const AgeOrder: seq<AgeClass> := [Newer, Older]

  /** `groupby(['urban_simple', 'building_age_class'])` sorts the label pairs. */
  const MatrixOrder: seq<(Simple, AgeClass)> := [
    (SimpleInnerSuburban, Newer), (SimpleInnerSuburban, Older),
    (SimpleOuterSuburban, Newer), (SimpleOuterSuburban, Older),
    (SimpleUrbanCore, Newer), (SimpleUrbanCore, Older)]

  datatype AgeSummary = AgeSummary(age: AgeClass, totals: GroupTotals, perThousandPop: Float, structurePerThousandUnits: Float)

  datatype MatrixCell = MatrixCell(
    urban: Simple, age: AgeClass, population: real, incidents: real, structureFires: real, perThousand: Float)

  datatype AgeAnalysis = AgeAnalysis(byAge: seq<AgeSummary>, matrix: seq<MatrixCell>)

  function SummaryOfAge(columns: seq<string>, rows: seq<RatedArea>, g: AgeClass): AgeSummary {
    var t := TotalsWhere(columns, rows, HasKey(AgeKey(columns), Some(g)));
    AgeSummary(g, t, Ratio(t.incidents, t.population, 1000.0), Ratio(t.structureFires, t.totalUnits, 1000.0))
  }

  function CellOf(columns: seq<string>, rows: seq<RatedArea>, k: (Simple, AgeClass)): MatrixCell {
    var p := HasKey(MatrixKey(columns), Some(k));
    var pop := SumWhere(rows, p, CensusValue(columns, PopulationName));
    var incidents := SumWhere(rows, p, Incidents());
    MatrixCell(k.0, k.1, pop, incidents, SumWhere(rows, p, StructureFires()), Ratio(incidents, pop, 1000.0))
  }

  const AgeSummaryColumns: seq<string> := ["population", "total_units", "urban_class"]

  /**
   * `analyze_by_building_age`: the summary by age class and the urban-class by
   * age matrix, each over the groups that occur. None when the building-age
   * column is absent (the function returns None) or on a KeyError.
   */
  function AnalyzeByBuildingAge(columns: seq<string>, present: CountColumns, rows: seq<RatedArea>): (r: Option<AgeAnalysis>)
    ensures r.None? <==> NewShareName !in columns || !present.structure || !HasColumns(columns, AgeSummaryColumns)
  {
    if NewShareName !in columns || !present.structure || !HasColumns(columns, AgeSummaryColumns) then None
    else
      var ages := OccurringKeys(rows, AgeKey(columns), AgeOrder);
      var cells := OccurringKeys(rows, MatrixKey(columns), MatrixOrder);
      Some(AgeAnalysis(
        seq(|ages|, k requires 0 <= k < |ages| => SummaryOfAge(columns, rows, ages[k])),
        seq(|cells|, k requires 0 <= k < |cells| => CellOf(columns, rows, cells[k]))))
  }

  /** Newer and Older split the valid areas: every sum over them is conserved. */
  lemma AgesPartition(columns: seq<string>, rows: seq<RatedArea>, f: RatedArea -> real)
    ensures SumWhere(rows, HasKey(AgeKey(columns), Some(Newer)), f) + SumWhere(rows, HasKey(AgeKey(columns), Some(Older)), f) +
            SumWhere(rows, HasKey(AgeKey(columns), None), f) ==
            SumOf(rows, f)
  {
    var keys := [None, Some(Newer), Some(Older)];
    forall i | 0 <= i < |rows| ensures AgeKey(columns)(rows[i]) in keys {
    }
    GroupedSum(rows, AgeKey(columns), f, keys);
    var g := GroupTotal(rows, AgeKey(columns), f);
    SumOfCons(None, keys[1..], g);
    SumOfCons(Some(Newer), keys[2..], g);
    SumOfCons(Some(Older), keys[3..], g);
    assert keys == [None] + keys[1..];
    assert keys[1..] == [Some(Newer)] + keys[2..];
    assert keys[2..] == [Some(Older)] + keys[3..];
  }

  /** The three matrix rows of an age class add up to that class's summary. */
  lemma {:induction false} MatrixRefinesAges(columns: seq<string>, rows: seq<RatedArea>, f: RatedArea -> real, g: AgeClass)
    ensures SumWhere(rows, HasKey(MatrixKey(columns), Some((SimpleInnerSuburban, g))), f) +
            SumWhere(rows, HasKey(MatrixKey(columns), Some((SimpleOuterSuburban, g))), f) +
            SumWhere(rows, HasKey(MatrixKey(columns), Some((SimpleUrbanCore, g))), f) ==
            SumWhere(rows, HasKey(AgeKey(columns), Some(g)), f)
    decreases |rows|
  {
    if rows != [] {
      MatrixRefinesAges(columns, rows[..|rows| - 1], f, g);
    }
  }

  /**
   * A valid area without a class label is left out of the urban-class summary
   * but counted as Outer Suburban in the matrix.
   */
  lemma MissingClassIsOuter(columns: seq<string>, a: RatedArea)
    requires ValidForAge(columns, a) && ClassCell(columns, a) == Null
    ensures ClassKey(columns)(a).None?
    ensures MatrixKey(columns)(a) == Some((SimpleOuterSuburban, AgeOf(CensusFloat(columns, a, NewShareName))))
  {
  }

  // ------------------------------------------------------ by incident type

  datatype FireType = StructureFire | VehicleFire | OutdoorFire | TrashFire | OtherFire

  const FireTypes: seq<FireType> := [StructureFire, VehicleFire, OutdoorFire, TrashFire, OtherFire]

  function IsFire(c: Cell): bool {
    c == Flag(true)
  }

  /** One for an incident none of whose four type flags is set. */
  function Unflagged(columns: seq<string>): Row -> real {
    row => if IsFire(Lookup(columns, row, StructureFlag)) || IsFire(Lookup(columns, row, VehicleFlag)) ||
              IsFire(Lookup(columns, row, OutdoorFlag)) || IsFire(Lookup(columns, row, TrashFlag))
           then 0.0 else 1.0
  }

  /** `size() - structure - vehicle - outdoor - trash`, as the script computes `other_fires`. */
  function OtherAsWritten(t: Table, k: Cell): (r: real)
    ensures r == SumWhere(t.rows, HasKey(AreaKey(t.columns), k), ResidualOf(t.columns))
  {
    ResidualByRows(t.rows, HasKey(AreaKey(t.columns), k), t.columns);
    GroupSize(t, k) - FlagTotal(t, StructureFlag, k) - FlagTotal(t, VehicleFlag, k) -
    FlagTotal(t, OutdoorFlag, k) - FlagTotal(t, TrashFlag, k)
  }

  /** `other_fires` as intended: the incidents of the area that carry none of the four types. */
  function OtherFires(t: Table, k: Cell): (r: real)
    ensures 0.0 <= r <= GroupSize(t, k)
  {
    var p := HasKey(AreaKey(t.columns), k);
    SumWhereMonotone(t.rows, p, Unflagged(t.columns), Each());
    SumWhereMonotone(t.rows, p, Nothing(), Unflagged(t.columns));
    SumWhereZero(t.rows, p, Nothing());
    SumWhere(t.rows, HasKey(AreaKey(t.columns), k), Unflagged(t.columns))
  }

  /** The residual of one incident, as the source's subtraction counts it. */
  function ResidualOf(columns: seq<string>): Row -> real {
    row => 1.0 - FlagValue(Lookup(columns, row, StructureFlag)) - FlagValue(Lookup(columns, row, VehicleFlag)) -
           FlagValue(Lookup(columns, row, OutdoorFlag)) - FlagValue(Lookup(columns, row, TrashFlag))
  }

  lemma {:induction false} ResidualByRows(rows: seq<Row>, p: Row -> bool, columns: seq<string>)
    ensures SumWhere(rows, p, Each()) - SumWhere(rows, p, FlagOf(columns, StructureFlag)) -
            SumWhere(rows, p, FlagOf(columns, VehicleFlag)) - SumWhere(rows, p, FlagOf(columns, OutdoorFlag)) -
            SumWhere(rows, p, FlagOf(columns, TrashFlag)) ==
            SumWhere(rows, p, ResidualOf(columns))
    decreases |rows|
  {
    if rows != [] {
      ResidualByRows(rows[..|rows| - 1], p, columns);
    }
  }

  /** The four type flags of every incident are booleans (or missing), at most one of them set. */
  predicate ExclusiveFlags(t: Table) {
    forall i :: 0 <= i < |t.rows| ==> ExclusiveRow(t.columns, t.rows[i])
  }

  predicate ExclusiveRow(columns: seq<string>, row: Row) {
    var s := Lookup(columns, row, StructureFlag);
    var v := Lookup(columns, row, VehicleFlag);
    var o := Lookup(columns, row, OutdoorFlag);
    var w := Lookup(columns, row, TrashFlag);
    (s.Flag? || s.Null?) && (v.Flag? || v.Null?) && (o.Flag? || o.Null?) && (w.Flag? || w.Null?) &&
    (IsFire(s) ==> !IsFire(v) && !IsFire(o) && !IsFire(w)) &&
    (IsFire(v) ==> !IsFire(o) && !IsFire(w)) &&
    (IsFire(o) ==> !IsFire(w))
  }

  /** When the types are exclusive the script's subtraction gives the intended count. */
  lemma OtherAsWrittenWhenExclusive(t: Table, k: Cell)
    requires ExclusiveFlags(t)
    ensures OtherAsWritten(t, k) == OtherFires(t, k)
  {
    var p := HasKey(AreaKey(t.columns), k);
    ResidualByRows(t.rows, p, t.columns);
    forall i | 0 <= i < |t.rows|
      ensures ResidualOf(t.columns)(t.rows[i]) == Unflagged(t.columns)(t.rows[i])
    {
      ResidualWhenExclusive(t.columns, t.rows[i]);
    }
    SumWhereCongruent(t.rows, p, ResidualOf(t.columns), Unflagged(t.columns));
  }

  /** An incident with at most one type flag set has residual one exactly when it has none. */
  lemma ResidualWhenExclusive(columns: seq<string>, row: Row)
    requires ExclusiveRow(columns, row)
    ensures ResidualOf(columns)(row) == Unflagged(columns)(row)
  {
  }

  /** One incident that is both a structure and a vehicle fire makes the script's `other_fires` negative. */
  lemma OverlappingFlagsGoNegative()
    ensures var t := Table([AreaIdName, StructureFlag, VehicleFlag, OutdoorFlag, TrashFlag],
                           [[Str("A"), Flag(true), Flag(true), Flag(false), Flag(false)]]);
            OtherAsWritten(t, Str("A")) == -1.0 && OtherFires(t, Str("A")) == 0.0
  {
    var columns := [AreaIdName, StructureFlag, VehicleFlag, OutdoorFlag, TrashFlag];
    var row := [Str("A"), Flag(true), Flag(true), Flag(false), Flag(false)];
    TypeColumnsDistinct();
    forall k | 0 <= k < |columns| ensures ColumnIndex(columns, columns[k]) == Some(k) {
      AddressedIndex(columns, k);
    }
    assert Lookup(columns, row, AreaIdName) == Str("A");
    assert Lookup(columns, row, StructureFlag) == Flag(true);
    assert Lookup(columns, row, VehicleFlag) == Flag(true);
    assert Lookup(columns, row, OutdoorFlag) == Flag(false);
    assert Lookup(columns, row, TrashFlag) == Flag(false);
    OverlappingRow(columns, row, Str("A"));
  }

  /** Proof step of OverlappingFlagsGoNegative: the area id and the four type flags are five different columns. */
  lemma TypeColumnsDistinct()
    ensures Distinct([AreaIdName, StructureFlag, VehicleFlag, OutdoorFlag, TrashFlag])
  {
    assert AreaIdName[0] == 'r' && StructureFlag[0] == 'i' && VehicleFlag[0] == 'i';
    assert OutdoorFlag[0] == 'i' && TrashFlag[0] == 'i';
    assert StructureFlag[3] == 's' && VehicleFlag[3] == 'v' && OutdoorFlag[3] == 'o' && TrashFlag[3] == 't';
  }

  /** A lone incident flagged as both a structure and a vehicle fire. */
  lemma OverlappingRow(columns: seq<string>, row: Row, k: Cell)
    requires Lookup(columns, row, AreaIdName) == k
    requires Lookup(columns, row, StructureFlag) == Flag(true) && Lookup(columns, row, VehicleFlag) == Flag(true)
    requires Lookup(columns, row, OutdoorFlag) == Flag(false) && Lookup(columns, row, TrashFlag) == Flag(false)
    ensures OtherAsWritten(Table(columns, [row]), k) == -1.0 && OtherFires(Table(columns, [row]), k) == 0.0
  {
    var p := HasKey(AreaKey(columns), k);
    assert p(row);
    SumWhereSingle(row, p, Each());
    SumWhereSingle(row, p, FlagOf(columns, StructureFlag));
    SumWhereSingle(row, p, FlagOf(columns, VehicleFlag));
    SumWhereSingle(row, p, FlagOf(columns, OutdoorFlag));
    SumWhereSingle(row, p, FlagOf(columns, TrashFlag));
    SumWhereSingle(row, p, Unflagged(columns));
    assert FlagOf(columns, StructureFlag)(row) == 1.0 && FlagOf(columns, VehicleFlag)(row) == 1.0;
    assert FlagOf(columns, OutdoorFlag)(row) == 0.0 && FlagOf(columns, TrashFlag)(row) == 0.0;
  }

  /** One row of `type_counts`, with the intended `other` count. */
  datatype TypeCounts = TypeCounts(areaId: Cell, structure: real, vehicle: real, outdoor: real, trash: real, other: real)

  function TypeCountsAt(t: Table, k: Cell): TypeCounts {
    TypeCounts(k, FlagTotal(t, StructureFlag, k), FlagTotal(t, VehicleFlag, k), FlagTotal(t, OutdoorFlag, k),
      FlagTotal(t, TrashFlag, k), OtherFires(t, k))
  }

  function TypeRows(t: Table): (r: seq<TypeCounts>)
    ensures |r| == |GroupKeys(ColumnCells(t, AreaIdName))|
    ensures forall k :: 0 <= k < |r| ==> r[k].areaId == GroupKeys(ColumnCells(t, AreaIdName))[k]
  {
    var keys := GroupKeys(ColumnCells(t, AreaIdName));
    seq(|keys|, k requires 0 <= k < |keys| => TypeCountsAt(t, keys[k]))
  }

  function TypeKey(c: TypeCounts): Cell {
    AsText(c.areaId)
  }

  function RatedAreaKey(columns: seq<string>): RatedArea -> Cell {
    (a: RatedArea) => AreaRowKey(columns)(a.area)
  }

  function Count(c: TypeCounts, kind: FireType): real {
    match kind
    case StructureFire => c.structure
    case VehicleFire => c.vehicle
    case OutdoorFire => c.outdoor
    case TrashFire => c.trash
    case OtherFire => c.other
  }

  /** `fillna(0)` of a cell. */
  function FillZero(c: Cell): Cell {
    if c.Null? then Num(0.0) else c
  }

  /** A row of the merged and zero-filled frame `df`. */
  datatype TypedArea = TypedArea(population: Float, urbanClass: Cell, counts: TypeCounts)

  function Typed(columns: seq<string>, a: RatedArea, m: Option<TypeCounts>): TypedArea {
    TypedArea(NumberCell(FillZero(Lookup(columns, a.area, PopulationName))), FillZero(ClassCell(columns, a)),
      m.GetOr(TypeCounts(RatedAreaKey(columns)(a), 0.0, 0.0, 0.0, 0.0, 0.0)))
  }

  /** `merged_gdf[...].merge(type_counts, how='left').fillna(0)` */
  function TypeMerge(columns: seq<string>, rows: seq<RatedArea>, t: Table): seq<TypedArea> {
    var j := LeftJoin(rows, TypeRows(t), RatedAreaKey(columns), TypeKey);
    seq(|j|, i requires 0 <= i < |j| => Typed(columns, j[i].0, j[i].1))
  }

  lemma TypeKeysUnique(t: Table)
    requires TextKeys(t)
    ensures UniqueKeys(TypeRows(t), TypeKey)
  {
    var keys := GroupKeys(ColumnCells(t, AreaIdName));
    forall k | 0 <= k < |keys| ensures keys[k].Str? {
      var i :| 0 <= i < |ColumnCells(t, AreaIdName)| && ColumnCells(t, AreaIdName)[i] == keys[k];
    }
  }

  lemma TypeKeyAbsent(t: Table, key: Cell)
    requires TextKeys(t) && key !in KeySet(TypeRows(t), TypeKey)
    ensures forall i :: 0 <= i < |t.rows| ==> !HasKey(AreaKey(t.columns), key)(t.rows[i])
  {
    var cells := ColumnCells(t, AreaIdName);
    var keys := GroupKeys(cells);
    var rows := TypeRows(t);
    forall i | 0 <= i < |t.rows| ensures AreaKey(t.columns)(t.rows[i]) in KeySet(rows, TypeKey) {
      assert AreaKey(t.columns)(t.rows[i]) == cells[i];
      assert cells[i].Str?;
      assert cells[i] in keys;
      var k :| 0 <= k < |keys| && keys[k] == cells[i];
      assert TypeKey(rows[k]) == cells[i];
    }
  }

  lemma TypePairCounts(t: Table, columns: seq<string>, p: (RatedArea, Option<TypeCounts>))
    requires TextKeys(t) && Paired(TypeRows(t), RatedAreaKey(columns), TypeKey, p)
    ensures Typed(columns, p.0, p.1).counts == TypeCountsAt(t, RatedAreaKey(columns)(p.0))
  {
    var key := RatedAreaKey(columns)(p.0);
    var rows := TypeRows(t);
    var keys := GroupKeys(ColumnCells(t, AreaIdName));
    if p.1.Some? {
      var k :| 0 <= k < |rows| && rows[k] == p.1.value;
      assert keys[k] in ColumnCells(t, AreaIdName);
      assert TypeKey(rows[k]) == keys[k];
    } else {
      TypeKeyAbsent(t, key);
      var q := HasKey(AreaKey(t.columns), key);
      SumWhereZero(t.rows, q, FlagOf(t.columns, StructureFlag));
      SumWhereZero(t.rows, q, FlagOf(t.columns, VehicleFlag));
      SumWhereZero(t.rows, q, FlagOf(t.columns, OutdoorFlag));
      SumWhereZero(t.rows, q, FlagOf(t.columns, TrashFlag));
      SumWhereZero(t.rows, q, Unflagged(t.columns));
    }
  }

  /**
   * After the merge and `fillna(0)` every response area, in order, carries the
   * type counts of the incidents with its key: 0 for an area without incidents.
   */
  lemma TypedCountsExact(t: Table, columns: seq<string>, rows: seq<RatedArea>)
    requires TextKeys(t)
    ensures var typed := TypeMerge(columns, rows, t);
            |typed| == |rows| &&
            forall i :: 0 <= i < |rows| ==> typed[i].counts == TypeCountsAt(t, RatedAreaKey(columns)(rows[i]))
  {
    TypeKeysUnique(t);
    LeftJoinUnique(rows, TypeRows(t), RatedAreaKey(columns), TypeKey);
    var j := LeftJoin(rows, TypeRows(t), RatedAreaKey(columns), TypeKey);
    forall i | 0 <= i < |rows|
      ensures Typed(columns, j[i].0, j[i].1).counts == TypeCountsAt(t, RatedAreaKey(columns)(rows[i]))
    {
      TypePairCounts(t, columns, j[i]);
    }
  }

  /** `(population > 0) & (urban_class != 'unknown')` on the filled frame, then the class. */
  function TypeClassKey(): TypedArea -> Option<UrbanClass> {
    (ta: TypedArea) => if Above(ta.population, 0.0) && ta.urbanClass != Unknown then ClassOf(ta.urbanClass) else None
  }

  function TypedPopulation(): TypedArea -> real {
    (ta: TypedArea) => Known(ta.population)
  }

  function TypedCount(kind: FireType): TypedArea -> real {
    (ta: TypedArea) => Count(ta.counts, kind)
  }

  /** Per class: population, then per fire type (in `FireTypes` order) the count, the rate and the annual rate. */
  datatype TypeSummary = TypeSummary(
    urbanClass: UrbanClass, population: real, counts: seq<real>, perThousand: seq<Float>, annualPerThousand: seq<Float>)

  function SummaryOfTypes(typed: seq<TypedArea>, c: UrbanClass, years: nat): TypeSummary {
    var p := HasKey(TypeClassKey(), Some(c));
    var pop := SumWhere(typed, p, TypedPopulation());
    var counts := seq(5, k requires 0 <= k < 5 => SumWhere(typed, p, TypedCount(FireTypes[k])));
    var rates := seq(5, k requires 0 <= k < 5 => Ratio(counts[k], pop, 1000.0));
    TypeSummary(c, pop, counts, rates, seq(5, k requires 0 <= k < 5 => Annualize(rates[k], Finite(years as real))))
  }

  /** `nunique()` of the first column naming a year, or 1 without one. */
  function YearsOrOne(t: Table): nat {
    match FirstMentioning(t.columns, YearWords)
    case Some(c) => NUnique(ColumnCells(t, c))
    case None => 1
  }

  const TypeFlags: seq<string> := [StructureFlag, VehicleFlag, OutdoorFlag, TrashFlag]

  /**
   * `analyze_by_incident_type` over the joined incidents and the merged areas,
   * with the intended `other` count; None is the KeyError of a missing column.
   */
  function AnalyzeByIncidentType(t: Table, columns: seq<string>, rows: seq<RatedArea>): (r: Option<seq<TypeSummary>>)
    ensures r.None? <==> !HasColumns(t.columns, TypeFlags) || !HasColumns(columns, [PopulationName, ClassName])
    ensures r.Some? ==> forall k :: 0 <= k < |r.value| ==>
              |r.value[k].counts| == 5 && |r.value[k].perThousand| == 5 && |r.value[k].annualPerThousand| == 5
  {
    if !HasColumns(t.columns, TypeFlags) || !HasColumns(columns, [PopulationName, ClassName]) then None
    else
      var typed := TypeMerge(columns, rows, t);
      var cs := OccurringKeys(typed, TypeClassKey(), ClassOrder);
      Some(seq(|cs|, k requires 0 <= k < |cs| => SummaryOfTypes(typed, cs[k], YearsOrOne(t))))
  }

  /** No fire-type count of a class summary is negative. */
  lemma TypeCountsNonNegative(t: Table, columns: seq<string>, rows: seq<RatedArea>, kind: FireType, c: UrbanClass)
    requires TextKeys(t) && BooleanColumn(t, StructureFlag) && BooleanColumn(t, VehicleFlag) &&
             BooleanColumn(t, OutdoorFlag) && BooleanColumn(t, TrashFlag)
    ensures SumWhere(TypeMerge(columns, rows, t), HasKey(TypeClassKey(), Some(c)), TypedCount(kind)) >= 0.0
  {
    var typed := TypeMerge(columns, rows, t);
    TypedCountsExact(t, columns, rows);
    forall i | 0 <= i < |typed| ensures Zero()(typed[i]) <= TypedCount(kind)(typed[i]) {
      var key := RatedAreaKey(columns)(rows[i]);
      FlagTotalBounded(t, StructureFlag, key);
      FlagTotalBounded(t, VehicleFlag, key);
      FlagTotalBounded(t, OutdoorFlag, key);
      FlagTotalBounded(t, TrashFlag, key);
    }
    var p := HasKey(TypeClassKey(), Some(c));
    SumWhereMonotone(typed, p, Zero(), TypedCount(kind));
    SumWhereZero(typed, p, Zero());
  }

  // ------------------------------------------------------ station coverage

  /** A fire station with its department and the class of the area it lies in (missing outside every area). */
  datatype Station = Station(department: Cell, areaClass: Cell)

  const AfdNames: seq<string> := ["AFD", "AUSTIN", "AUSTIN FIRE"]

  /** `str.upper().isin([...])` when there is a DEPARTMENT column; every station otherwise. */
  predicate IsAfd(hasDepartment: bool, s: Station) {
    !hasDepartment || (s.department.Str? && Upper(s.department.s) in AfdNames)
  }

  function StationKey(hasDepartment: bool): Station -> Option<UrbanClass> {
    s => if IsAfd(hasDepartment, s) then ClassOf(s.areaClass) else None
  }

  /** `merged_gdf[urban_class != 'unknown'].groupby('urban_class')` */
  function CoverageKey(columns: seq<string>): RatedArea -> Option<UrbanClass> {
    a => ClassOf(ClassCell(columns, a))
  }

  /** `groupby` sorts by label. */
  const CoverageOrder: seq<UrbanClass> := [InnerSuburban, OuterSuburban, UrbanCore]

  datatype Coverage = Coverage(
    urbanClass: UrbanClass, population: real, areaSqMiles: real, stations: real,
    popPerStation: Float, sqMilesPerStation: Float, stationsPer100k: Float)

  /** `x / n.replace(0, np.nan)` */
  function PerStation(x: real, n: real): Float {
    if n == 0.0 then NaN else Div(Finite(x), Finite(n))
  }

  function CoverageOf(columns: seq<string>, rows: seq<RatedArea>, hasDepartment: bool, stations: seq<Station>, c: UrbanClass)
    : Coverage
  {
    var p := HasKey(CoverageKey(columns), Some(c));
    var pop := SumWhere(rows, p, CensusValue(columns, PopulationName));
    var sq := SumWhere(rows, p, CensusValue(columns, "area_sq_miles"));
    var n := SumWhere(stations, HasKey(StationKey(hasDepartment), Some(c)), One());
    Coverage(c, pop, sq, n, PerStation(pop, n), PerStation(sq, n), Ratio(n, pop, 100000.0))
  }

  /**
   * `analyze_station_coverage` with the stations already placed in their
   * areas; None is the KeyError of a missing column.
   */
  function AnalyzeStationCoverage(columns: seq<string>, rows: seq<RatedArea>, hasDepartment: bool, stations: seq<Station>)
    : (r: Option<seq<Coverage>>)
    ensures r.None? <==> !HasColumns(columns, [PopulationName, "area_sq_miles", ClassName])
  {
    if !HasColumns(columns, [PopulationName, "area_sq_miles", ClassName]) then None
    else
      var cs := OccurringKeys(rows, CoverageKey(columns), CoverageOrder);
      Some(seq(|cs|, k requires 0 <= k < |cs| => CoverageOf(columns, rows, hasDepartment, stations, cs[k])))
  }

  /** Population per station is NaN exactly for a class without stations. */
  lemma PerStationGuarded(x: real, n: real)
    ensures PerStation(x, n).NaN? <==> n == 0.0
    ensures n != 0.0 ==> PerStation(x, n) == Finite(x / n)
  {
  }

  /**
   * Every AFD station inside a classified area is counted in exactly one
   * class; the rest are the stations outside every classified area or of
   * another department.
   */
  lemma StationsCounted(hasDepartment: bool, stations: seq<Station>)
    ensures SumWhere(stations, HasKey(StationKey(hasDepartment), Some(UrbanCore)), One()) +
            SumWhere(stations, HasKey(StationKey(hasDepartment), Some(InnerSuburban)), One()) +
            SumWhere(stations, HasKey(StationKey(hasDepartment), Some(OuterSuburban)), One()) +
            SumWhere(stations, HasKey(StationKey(hasDepartment), None), One()) ==
            |stations| as real
  {
    ClassesPartition(stations, StationKey(hasDepartment), One());
    SumOfOnes(stations, One());
  }
}
