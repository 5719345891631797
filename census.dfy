/**
 * `process_census_data`: the American Community Survey tables for total
 * population (B01003), units in structure (B25024) and year structure built
 * (B25034) become one record per census tract, keyed by an 11-character GEOID
 * (2-digit state, 3-digit county, 6-digit tract).
 */
module Census {
  import opened Wrappers
  import opened Numeric
  import opened Text
  import opened Frames
  import opened Sequences
  import opened Joins

  const PopulationCode := "B01003_001E"

  /** Units in structure: total, then 1 detached, 1 attached, 2, 3-4, 5-9, 10-19, 20-49, 50+, mobile home, boat/RV/van. */
  const HousingCodes: seq<string> :=
    ["B25024_001E", "B25024_002E", "B25024_003E", "B25024_004E", "B25024_005E", "B25024_006E",
     "B25024_007E", "B25024_008E", "B25024_009E", "B25024_010E", "B25024_011E"]

  /**
   * Year structure built: total, then 2020+, 2010-2019, 2000-2009, 1990-1999,
   * 1980-1989, 1970-1979, 1960-1969, 1950-1959, 1940-1949, 1939 or earlier.
   */
  const YearBuiltCodes: seq<string> :=
    ["B25034_001E", "B25034_002E", "B25034_003E", "B25034_004E", "B25034_005E", "B25034_006E",
     "B25034_007E", "B25034_008E", "B25034_009E", "B25034_010E", "B25034_011E"]

  /** `f'B25034_{str(i).zfill(3)}E'` */
  function YearBuiltCode(i: nat): string {
    "B25034_" + ZFill(NatText(i), 3) + "E"
  }

  /** The list is the one the f-string builds for `i` in `range(1, 12)`. */
  lemma YearBuiltCodesBuilt()
    ensures forall i :: 0 <= i < 11 ==> YearBuiltCodes[i] == YearBuiltCode(i + 1)
  {
    assert NatText(10) == "10" by {
      assert NatText(1) == "1" && NatText(0) == "0";
    }
    assert NatText(11) == "11" by {
      assert NatText(1) == "1";
    }
  }

  /**
   * The Census API puts the variable names in the first data row. When the
   * first cell is the expected variable name, that row becomes the header.
   * Reading the first cell of an empty table is an error (`None`).
   */
  function PromoteHeader(t: Table, marker: string): (r: Option<Table>)
    requires Rectangular(t)
    ensures r.Some? <==> |t.rows| > 0 && |t.columns| > 0
    ensures r.Some? ==> Rectangular(r.value)
    ensures r.Some? && t.rows[0][0] == Str(marker) ==>
              r.value.rows == t.rows[1..] && |r.value.columns| == |t.columns| &&
              forall k :: 0 <= k < |t.columns| ==> r.value.columns[k] == CellText(t.rows[0][k])
    ensures r.Some? && t.rows[0][0] != Str(marker) ==> r.value == t
  {
    if |t.rows| == 0 || |t.columns| == 0 then None
    else if t.rows[0][0] == Str(marker) then Some(Table(HeaderNames(t.rows[0]), t.rows[1..]))
    else Some(t)
  }

  /** `df.columns = df.iloc[0]`: the header row's cells as column names. */
  function HeaderNames(header: Row): (names: seq<string>)
    ensures |names| == |header| && forall k :: 0 <= k < |header| ==> names[k] == CellText(header[k])
  {
    seq(|header|, k requires 0 <= k < |header| => CellText(header[k]))
  }

  /** The tract GEOID: state padded to 2, county to 3 and tract to 6 characters. */
  function GeoId(state: string, county: string, tract: string): string {
    ZFill(state, 2) + ZFill(county, 3) + ZFill(tract, 6)
  }

  /** No part wider than its pad: 11 characters, each padded part at its fixed position. */
  lemma GeoIdLayout(state: string, county: string, tract: string)
    requires |state| <= 2 && |county| <= 3 && |tract| <= 6
    ensures |GeoId(state, county, tract)| == 11
    ensures GeoId(state, county, tract)[..2] == ZFill(state, 2)
    ensures GeoId(state, county, tract)[2..5] == ZFill(county, 3)
    ensures GeoId(state, county, tract)[5..] == ZFill(tract, 6)
  {
    ZFillLength(state, 2);
    ZFillLength(county, 3);
    ZFillLength(tract, 6);
    var g := GeoId(state, county, tract);
    assert g == ZFill(state, 2) + ZFill(county, 3) + ZFill(tract, 6);
  }

  /** Two digit strings of the same length and value are equal. */
  lemma {:induction false} DigitsDetermine(a: string, b: string)
    requires AllDigits(a) && AllDigits(b) && |a| == |b|
    requires DigitsValue(a) == DigitsValue(b)
    ensures a == b
    decreases |a|
  {
    if a != [] {
      var n := |a| - 1;
      var qa := DigitsValue(a[..n]);
      var qb := DigitsValue(b[..n]);
      var da := DigitValue(a[n]);
      var db := DigitValue(b[n]);
      assert qa * 10 + da == qb * 10 + db;
      assert da == db && qa == qb;
      DigitsDetermine(a[..n], b[..n]);
      assert a == a[..n] + [a[n]] && b == b[..n] + [b[n]];
      assert a[n] as int == da + '0' as int;
    }
  }

  /** A digit code of width at most `w` is determined, after padding, by its value. */
  lemma ZFillSameValue(a: string, b: string, w: nat)
    requires AllDigits(a) && AllDigits(b) && |a| <= w && |b| <= w
    ensures ZFill(a, w) == ZFill(b, w) <==> DigitsValue(a) == DigitsValue(b)
  {
    ZFillValue(a, w);
    ZFillValue(b, w);
    ZFillLength(a, w);
    ZFillLength(b, w);
    if DigitsValue(a) == DigitsValue(b) {
      DigitsDetermine(ZFill(a, w), ZFill(b, w));
    }
  }

  /** Concatenations of parts of matching lengths are equal exactly when the parts are. */
  lemma SameShapeParts(a1: string, b1: string, c1: string, a2: string, b2: string, c2: string)
    requires |a1| == |a2| && |b1| == |b2| && |c1| == |c2|
    ensures a1 + b1 + c1 == a2 + b2 + c2 <==> a1 == a2 && b1 == b2 && c1 == c2
  {
    if a1 + b1 + c1 == a2 + b2 + c2 {
      var g1 := a1 + b1 + c1;
      var g2 := a2 + b2 + c2;
      assert a1 == g1[..|a1|] && a2 == g2[..|a1|];
      assert b1 == g1[|a1|..|a1| + |b1|] && b2 == g2[|a1|..|a1| + |b1|];
      assert c1 == g1[|a1| + |b1|..] && c2 == g2[|a1| + |b1|..];
    }
  }

  /**
   * For digit codes within their widths, two GEOIDs are equal exactly when the
   * state, county and tract numbers are: the padding neither merges two tracts
   * nor splits one.
   */
  lemma {:induction false} GeoIdInjective(s1: string, c1: string, t1: string, s2: string, c2: string, t2: string)
    requires AllDigits(s1) && AllDigits(c1) && AllDigits(t1) && AllDigits(s2) && AllDigits(c2) && AllDigits(t2)
    requires |s1| <= 2 && |c1| <= 3 && |t1| <= 6 && |s2| <= 2 && |c2| <= 3 && |t2| <= 6
    ensures GeoId(s1, c1, t1) == GeoId(s2, c2, t2) <==>
              DigitsValue(s1) == DigitsValue(s2) && DigitsValue(c1) == DigitsValue(c2) &&
              DigitsValue(t1) == DigitsValue(t2)
  {
    ZFillSameValue(s1, s2, 2);
    ZFillSameValue(c1, c2, 3);
    ZFillSameValue(t1, t2, 6);
    ZFillLength(s1, 2);
    ZFillLength(s2, 2);
    ZFillLength(c1, 3);
    ZFillLength(c2, 3);
    ZFillLength(t1, 6);
    ZFillLength(t2, 6);
    SameShapeParts(ZFill(s1, 2), ZFill(c1, 3), ZFill(t1, 6), ZFill(s2, 2), ZFill(c2, 3), ZFill(t2, 6));
  }

  predicate HasGeoParts(columns: seq<string>) {
    "state" in columns && "county" in columns && "tract" in columns
  }

  /** The GEOID of one row, built from the `astype(str)` text of its state, county and tract cells. */
  function GeoIdOf(columns: seq<string>, row: Row): string {
    GeoId(CellText(Lookup(columns, row, "state")),
          CellText(Lookup(columns, row, "county")),
          CellText(Lookup(columns, row, "tract")))
  }

  /**
   * The merge key of one row. When the script builds the GEOID (`built`), it is
   * the padded state, county and tract of the row; otherwise the merge uses the
   * GEOID column the table already has.
   */
  function TractIdOf(columns: seq<string>, row: Row, built: bool): string {
    if built then GeoIdOf(columns, row) else CellText(Lookup(columns, row, "GEOID"))
  }

  /** Every one of `codes` is a column; the bucket formulas read them all. */
  predicate AllPresent(codes: seq<string>, columns: seq<string>) {
    forall k :: 0 <= k < |codes| ==> codes[k] in columns
  }

  /** The row's values under `codes`, as optional numbers. */
  function Raw(columns: seq<string>, row: Row, codes: seq<string>): (v: seq<Option<real>>)
    ensures |v| == |codes|
  {
    seq(|codes|, j requires 0 <= j < |codes| => NumberOf(Lookup(columns, row, codes[j])))
  }

  datatype HousingCounts = HousingCounts(
    totalUnits: Option<real>,
    singleFamily: real,
    duplex: real,
    smallMultifamily: real,
    largeMultifamily: real,
    multifamily: real,
    mobileOther: real)

  /**
   * The housing-type buckets from the eleven B25024 values: every bucket treats
   * a missing value as 0, but the total is kept as read and may be missing.
   */
  function HousingBuckets(v: seq<Option<real>>): (h: HousingCounts)
    requires |v| == 11
    ensures h.totalUnits == v[0]
    ensures h.singleFamily == SumSkipNa(v[1..3])
    ensures h.multifamily == h.duplex + h.smallMultifamily + h.largeMultifamily
    ensures h.multifamily == SumSkipNa(v[3..9])
    ensures h.mobileOther == SumSkipNa(v[9..11])
    ensures h.singleFamily + h.multifamily + h.mobileOther == SumSkipNa(v[1..11])
  {
    UnitBucketSums(v);
    var duplex := OrZero(v[3]);
    var small := OrZero(v[4]) + OrZero(v[5]) + OrZero(v[6]);
    var large := OrZero(v[7]) + OrZero(v[8]);
    HousingCounts(v[0], OrZero(v[1]) + OrZero(v[2]), duplex, small, large,
                  duplex + small + large, OrZero(v[9]) + OrZero(v[10]))
  }

  lemma UnitBucketSums(v: seq<Option<real>>)
    requires |v| == 11
    ensures SumSkipNa(v[1..3]) == OrZero(v[1]) + OrZero(v[2])
    ensures SumSkipNa(v[3..9]) == OrZero(v[3]) + OrZero(v[4]) + OrZero(v[5]) + OrZero(v[6]) + OrZero(v[7]) + OrZero(v[8])
    ensures SumSkipNa(v[9..11]) == OrZero(v[9]) + OrZero(v[10])
    ensures SumSkipNa(v[1..11]) == SumSkipNa(v[1..3]) + SumSkipNa(v[3..9]) + SumSkipNa(v[9..11])
  {
    SliceSums(v, 1, 3);
    SliceSums(v, 3, 9);
    SliceSums(v, 9, 11);
    assert v[1..11] == v[1..3] + v[3..9] + v[9..11];
    SumSkipNaAppend(v[1..3] + v[3..9], v[9..11]);
    SumSkipNaAppend(v[1..3], v[3..9]);
  }

  /** A short slice sums entry by entry. */
  lemma SliceSums(v: seq<Option<real>>, i: nat, j: nat)
    requires i <= j <= |v| && j - i <= 6
    ensures j - i == 2 ==> SumSkipNa(v[i..j]) == OrZero(v[i]) + OrZero(v[i + 1])
    ensures j - i == 4 ==> SumSkipNa(v[i..j]) == OrZero(v[i]) + OrZero(v[i + 1]) + OrZero(v[i + 2]) + OrZero(v[i + 3])
    ensures j - i == 6 ==>
              SumSkipNa(v[i..j]) == OrZero(v[i]) + OrZero(v[i + 1]) + OrZero(v[i + 2]) +
                                    OrZero(v[i + 3]) + OrZero(v[i + 4]) + OrZero(v[i + 5])
  {
    assert v[i..i] == [];
    var k := i;
    while k < j
      invariant i <= k <= j
      invariant k - i >= 1 ==> SumSkipNa(v[i..i + 1]) == OrZero(v[i])
      invariant k - i >= 2 ==> SumSkipNa(v[i..i + 2]) == SumSkipNa(v[i..i + 1]) + OrZero(v[i + 1])
      invariant k - i >= 3 ==> SumSkipNa(v[i..i + 3]) == SumSkipNa(v[i..i + 2]) + OrZero(v[i + 2])
      invariant k - i >= 4 ==> SumSkipNa(v[i..i + 4]) == SumSkipNa(v[i..i + 3]) + OrZero(v[i + 3])
      invariant k - i >= 5 ==> SumSkipNa(v[i..i + 5]) == SumSkipNa(v[i..i + 4]) + OrZero(v[i + 4])
      invariant k - i >= 6 ==> SumSkipNa(v[i..i + 6]) == SumSkipNa(v[i..i + 5]) + OrZero(v[i + 5])
    {
      SumSkipNaExtend(v, i, k);
      k := k + 1;
    }
  }

  datatype AgeCounts = AgeCounts(
    ybTotal: Option<real>,
    built2010Plus: real,
    built1970To2009: real,
    builtPre1970: real)

  /**
   * The building-age buckets from the eleven B25034 values, missing values
   * counted as 0: the three buckets partition the ten decade columns.
   */
  function AgeBuckets(v: seq<Option<real>>): (a: AgeCounts)
    requires |v| == 11
    ensures a.ybTotal == v[0]
    ensures a.built2010Plus == SumSkipNa(v[1..3])
    ensures a.built1970To2009 == SumSkipNa(v[3..7])
    ensures a.builtPre1970 == SumSkipNa(v[7..11])
    ensures a.built2010Plus + a.built1970To2009 + a.builtPre1970 == SumSkipNa(v[1..11])
  {
    DecadeBucketSums(v);
    AgeCounts(v[0], OrZero(v[1]) + OrZero(v[2]),
              OrZero(v[3]) + OrZero(v[4]) + OrZero(v[5]) + OrZero(v[6]),
              OrZero(v[7]) + OrZero(v[8]) + OrZero(v[9]) + OrZero(v[10]))
  }

  lemma DecadeBucketSums(v: seq<Option<real>>)
    requires |v| == 11
    ensures SumSkipNa(v[1..3]) == OrZero(v[1]) + OrZero(v[2])
    ensures SumSkipNa(v[3..7]) == OrZero(v[3]) + OrZero(v[4]) + OrZero(v[5]) + OrZero(v[6])
    ensures SumSkipNa(v[7..11]) == OrZero(v[7]) + OrZero(v[8]) + OrZero(v[9]) + OrZero(v[10])
    ensures SumSkipNa(v[1..11]) == SumSkipNa(v[1..3]) + SumSkipNa(v[3..7]) + SumSkipNa(v[7..11])
  {
    SliceSums(v, 1, 3);
    SliceSums(v, 3, 7);
    SliceSums(v, 7, 11);
    assert v[1..11] == v[1..3] + v[3..7] + v[7..11];
    SumSkipNaAppend(v[1..3] + v[3..7], v[7..11]);
    SumSkipNaAppend(v[1..3], v[3..7]);
  }

  datatype PopulationRow = PopulationRow(geoid: string, population: Option<real>)
  datatype HousingRow = HousingRow(geoid: string, counts: HousingCounts)
  datatype AgeRow = AgeRow(geoid: string, counts: AgeCounts)

  /** One merged census tract; a side the merge did not match is missing. */
  datatype Tract = Tract(
    geoid: string,
    population: Option<real>,
    housing: Option<HousingCounts>,
    age: Option<AgeCounts>)

  /** The merged census table; `hasAge` says whether the year-built columns exist at all. */
  datatype CensusData = CensusData(tracts: seq<Tract>, hasAge: bool)

  function PopulationKey(p: PopulationRow): string { p.geoid }
  function HousingKey(h: HousingRow): string { h.geoid }
  function AgeKey(a: AgeRow): string { a.geoid }
  function TractKey(t: Tract): string { t.geoid }

  /** `pop_df[['GEOID', 'population']]`, population read with `pd.to_numeric`. */
  function PopulationRows(t: Table, built: bool): (r: seq<PopulationRow>)
    ensures |r| == |t.rows|
  {
    seq(|t.rows|, i requires 0 <= i < |t.rows| =>
      PopulationRow(TractIdOf(t.columns, t.rows[i], built), NumberOf(ToNumericCell(Lookup(t.columns, t.rows[i], PopulationCode)))))
  }

  /** The housing buckets of every row of the converted housing table. */
  function HousingRows(t: Table, built: bool): (r: seq<HousingRow>)
    ensures |r| == |t.rows|
  {
    seq(|t.rows|, i requires 0 <= i < |t.rows| =>
      HousingRow(TractIdOf(t.columns, t.rows[i], built), HousingBuckets(Raw(t.columns, t.rows[i], HousingCodes))))
  }

  /** The age buckets of every row of the converted year-built table. */
  function AgeRows(t: Table, built: bool): (r: seq<AgeRow>)
    ensures |r| == |t.rows|
  {
    seq(|t.rows|, i requires 0 <= i < |t.rows| =>
      AgeRow(TractIdOf(t.columns, t.rows[i], built), AgeBuckets(Raw(t.columns, t.rows[i], YearBuiltCodes))))
  }

  function TractOf(p: (Option<PopulationRow>, Option<HousingRow>)): Tract
    requires p.0.Some? || p.1.Some?
  {
    Tract(if p.0.Some? then p.0.value.geoid else p.1.value.geoid,
          if p.0.Some? then p.0.value.population else None,
          if p.1.Some? then Some(p.1.value.counts) else None,
          None)
  }

  function TractsOfPairs(j: seq<(Option<PopulationRow>, Option<HousingRow>)>): (r: seq<Tract>)
    requires forall i :: 0 <= i < |j| ==> j[i].0.Some? || j[i].1.Some?
    ensures |r| == |j| && forall i :: 0 <= i < |j| ==> r[i] == TractOf(j[i])
  {
    seq(|j|, i requires 0 <= i < |j| => TractOf(j[i]))
  }

  /** The outer merge of population and housing on GEOID. */
  function MergeHousing(pops: seq<PopulationRow>, housing: seq<HousingRow>): seq<Tract> {
    TractsOfPairs(OuterJoin(pops, housing, PopulationKey, HousingKey))
  }

  function WithAge(p: (Tract, Option<AgeRow>)): Tract {
    p.0.(age := if p.1.Some? then Some(p.1.value.counts) else None)
  }

  /** The left merge of the census tracts with the year-built buckets on GEOID. */
  function AddAge(tracts: seq<Tract>, ages: seq<AgeRow>): seq<Tract> {
    WithAges(LeftJoin(tracts, ages, TractKey, AgeKey))
  }

  function WithAges(j: seq<(Tract, Option<AgeRow>)>): (r: seq<Tract>)
    ensures |r| == |j| && forall i :: 0 <= i < |j| ==> r[i] == WithAge(j[i])
  {
    seq(|j|, i requires 0 <= i < |j| => WithAge(j[i]))
  }

  /**
   * The whole of `process_census_data`. `None` is a Python exception: an empty
   * input table, or a column the formulas read that is not there. The GEOID is
   * built for both tables when the population table has state, county and
   * tract; otherwise both tables must already have a GEOID column.
   */
  function ProcessCensus(pop: Table, housing: Table, yearBuilt: Option<Table>): Option<CensusData>
    requires Rectangular(pop) && Rectangular(housing)
    requires yearBuilt.Some? ==> Rectangular(yearBuilt.value)
  {
    var popHeader := PromoteHeader(pop, PopulationCode);
    var housingHeader := PromoteHeader(housing, HousingCodes[0]);
    if popHeader.None? || housingHeader.None? then None
    else if !CensusColumns(popHeader.value, housingHeader.value) then None
    else
      var tracts := TractsOf(popHeader.value, housingHeader.value);
      if yearBuilt.None? then Some(CensusData(tracts, false))
      else YearBuiltMerge(tracts, yearBuilt.value)
  }

  /**
   * The columns the population and housing formulas read are all there: the
   * GEOID parts of the housing table when the population table has them
   * (`housing_df['state']` and so on), otherwise an existing GEOID on both sides.
   */
  predicate CensusColumns(p: Table, h: Table) {
    (if HasGeoParts(p.columns) then HasGeoParts(h.columns)
     else "GEOID" in p.columns && "GEOID" in h.columns) &&
    PopulationCode in p.columns && AllPresent(HousingCodes, h.columns)
  }

  /** Population and housing, converted, bucketed and outer-merged. */
  function TractsOf(p: Table, h: Table): seq<Tract>
    requires Rectangular(h)
  {
    var built := HasGeoParts(p.columns);
    MergeHousing(PopulationRows(p, built), HousingRows(NumericColumns(h, HousingCodes), built))
  }

  /**
   * The columns the year-built step reads: with a `state` column, the county and
   * tract that build the GEOID; without one, an existing GEOID.
   */
  predicate YearBuiltColumns(columns: seq<string>) {
    (if "state" in columns then HasGeoParts(columns) else "GEOID" in columns) &&
    AllPresent(YearBuiltCodes, columns)
  }

  /** The year-built table's header check, conversion, buckets and left merge. */
  function YearBuiltMerge(tracts: seq<Tract>, yb: Table): Option<CensusData>
    requires Rectangular(yb)
  {
    match PromoteHeader(yb, YearBuiltCodes[0])
    case None => None
    case Some(y) =>
      if !YearBuiltColumns(y.columns) then None
      else Some(CensusData(AddAge(tracts, AgeRows(NumericColumns(y, YearBuiltCodes), "state" in y.columns)), true))
  }

  /**
   * `process_census_data` step by step: the header checks, the column-by-column
   * numeric conversion loops, the bucket sums and the two merges.
   */
  method ProcessCensusData(pop: Table, housing: Table, yearBuilt: Option<Table>) returns (r: Option<CensusData>)
    requires Rectangular(pop) && Rectangular(housing)
    requires yearBuilt.Some? ==> Rectangular(yearBuilt.value)
    ensures r == ProcessCensus(pop, housing, yearBuilt)
  {
    var popHeader := PromoteHeader(pop, PopulationCode);
    var housingHeader := PromoteHeader(housing, HousingCodes[0]);
    if popHeader.None? || housingHeader.None? {
      return None;
    }
    var p := popHeader.value;
    var h := housingHeader.value;
    if !CensusColumns(p, h) {
      return None;
    }
    var built := HasGeoParts(p.columns);
    h := ConvertToNumeric(h, HousingCodes);
    var tracts := MergeHousing(PopulationRows(p, built), HousingRows(h, built));
    if yearBuilt.None? {
      return Some(CensusData(tracts, false));
    }
    var ybHeader := PromoteHeader(yearBuilt.value, YearBuiltCodes[0]);
    if ybHeader.None? {
      return None;
    }
    var y := ybHeader.value;
    if !YearBuiltColumns(y.columns) {
      return None;
    }
    var ybBuilt := "state" in y.columns;
    y := ConvertToNumeric(y, YearBuiltCodes);
    r := Some(CensusData(AddAge(tracts, AgeRows(y, ybBuilt)), true));
  }

  /**
   * The outer merge loses no tract: every population row and every housing row
   * gives a tract with its GEOID.
   */
  lemma MergeHousingCovers(pops: seq<PopulationRow>, housing: seq<HousingRow>)
    ensures forall p :: p in pops ==>
              exists i :: 0 <= i < |MergeHousing(pops, housing)| &&
                MergeHousing(pops, housing)[i].geoid == p.geoid &&
                MergeHousing(pops, housing)[i].population == p.population
    ensures forall h :: h in housing ==>
              exists i :: 0 <= i < |MergeHousing(pops, housing)| &&
                MergeHousing(pops, housing)[i].geoid == h.geoid &&
                MergeHousing(pops, housing)[i].housing == Some(h.counts)
  {
    MergeHousingKeepsPopulation(pops, housing);
    MergeHousingKeepsHousing(pops, housing);
  }

  lemma MergeHousingKeepsPopulation(pops: seq<PopulationRow>, housing: seq<HousingRow>)
    ensures forall p :: p in pops ==>
              exists i :: 0 <= i < |MergeHousing(pops, housing)| &&
                MergeHousing(pops, housing)[i].geoid == p.geoid &&
                MergeHousing(pops, housing)[i].population == p.population
  {
    var j := OuterJoin(pops, housing, PopulationKey, HousingKey);
    var m := MergeHousing(pops, housing);
    OuterJoinCoversLeft(pops, housing, PopulationKey, HousingKey);
    forall p | p in pops
      ensures exists i :: 0 <= i < |m| && m[i].geoid == p.geoid && m[i].population == p.population
    {
      var i :| 0 <= i < |j| && j[i].0 == Some(p);
      assert m[i] == TractOf(j[i]);
    }
  }

  lemma MergeHousingKeepsHousing(pops: seq<PopulationRow>, housing: seq<HousingRow>)
    ensures forall h :: h in housing ==>
              exists i :: 0 <= i < |MergeHousing(pops, housing)| &&
                MergeHousing(pops, housing)[i].geoid == h.geoid &&
                MergeHousing(pops, housing)[i].housing == Some(h.counts)
  {
    var j := OuterJoin(pops, housing, PopulationKey, HousingKey);
    var m := MergeHousing(pops, housing);
    OuterJoinCoversRight(pops, housing, PopulationKey, HousingKey);
    forall h | h in housing
      ensures exists i :: 0 <= i < |m| && m[i].geoid == h.geoid && m[i].housing == Some(h.counts)
    {
      var i :| 0 <= i < |j| && j[i].1 == Some(h);
      assert OuterPaired(pops, housing, PopulationKey, HousingKey, j[i]);
      assert m[i] == TractOf(j[i]);
    }
  }


  /** The tract's population and housing come from input rows with its GEOID, or are missing because no row has it. */
  ghost predicate TractFromSides(pops: seq<PopulationRow>, housing: seq<HousingRow>, t: Tract) {
    (t.housing.Some? ==> exists b :: 0 <= b < |housing| && housing[b].geoid == t.geoid && housing[b].counts == t.housing.value) &&
    (t.housing.None? ==> t.geoid !in KeySet(housing, HousingKey)) &&
    ((exists a :: 0 <= a < |pops| && pops[a].geoid == t.geoid && pops[a].population == t.population) ||
     (t.geoid !in KeySet(pops, PopulationKey) && t.population.None?))
  }

  /**
   * With both headers readable, the census step without year-built data fails
   * exactly when a column its formulas read is missing.
   */
  lemma ProcessCensusOutcome(pop: Table, housing: Table)
    requires Rectangular(pop) && Rectangular(housing)
    requires |pop.rows| > 0 && |pop.columns| > 0 && |housing.rows| > 0 && |housing.columns| > 0
    ensures ProcessCensus(pop, housing, None).Some? <==>
              CensusColumns(PromoteHeader(pop, PopulationCode).value, PromoteHeader(housing, HousingCodes[0]).value)
  {
  }

  /**
   * Tables that carry their own GEOID and no state, county and tract parts are
   * merged on that GEOID: every population and every housing row gives a tract
   * keyed by the text of its GEOID cell.
   */
  lemma ExistingGeoIdKeys(p: Table, h: Table)
    requires Rectangular(h) && !HasGeoParts(p.columns)
    ensures forall i :: 0 <= i < |p.rows| ==> HasTract(TractsOf(p, h), CellText(Lookup(p.columns, p.rows[i], "GEOID")))
    ensures forall i :: 0 <= i < |h.rows| ==> HasTract(TractsOf(p, h), CellText(Lookup(h.columns, h.rows[i], "GEOID")))
  {
    PopulationGeoIdKeys(p, h);
    HousingGeoIdKeys(p, h);
  }

  lemma PopulationGeoIdKeys(p: Table, h: Table)
    requires Rectangular(h) && !HasGeoParts(p.columns)
    ensures forall i :: 0 <= i < |p.rows| ==> HasTract(TractsOf(p, h), CellText(Lookup(p.columns, p.rows[i], "GEOID")))
  {
    var pops := PopulationRows(p, false);
    var hs := HousingRows(NumericColumns(h, HousingCodes), false);
    var m := TractsOf(p, h);
    assert m == MergeHousing(pops, hs);
    MergeHousingKeepsPopulation(pops, hs);
    forall i | 0 <= i < |p.rows|
      ensures HasTract(m, CellText(Lookup(p.columns, p.rows[i], "GEOID")))
    {
      assert pops[i] in pops;
      var k :| 0 <= k < |m| && m[k].geoid == pops[i].geoid && m[k].population == pops[i].population;
    }
  }

  lemma HousingGeoIdKeys(p: Table, h: Table)
    requires Rectangular(h) && !HasGeoParts(p.columns)
    ensures forall i :: 0 <= i < |h.rows| ==> HasTract(TractsOf(p, h), CellText(Lookup(h.columns, h.rows[i], "GEOID")))
  {
    var pops := PopulationRows(p, false);
    var hs := HousingRows(NumericColumns(h, HousingCodes), false);
    var m := TractsOf(p, h);
    assert m == MergeHousing(pops, hs);
    MergeHousingKeepsHousing(pops, hs);
    forall i | 0 <= i < |h.rows|
      ensures HasTract(m, CellText(Lookup(h.columns, h.rows[i], "GEOID")))
    {
      assert hs[i] in hs;
      var k :| 0 <= k < |m| && m[k].geoid == hs[i].geoid && m[k].housing == Some(hs[i].counts);
      NumericKeepsGeoId(h, i);
    }
  }

  /** Some tract has the GEOID `g`. */
  ghost predicate HasTract(tracts: seq<Tract>, g: string) {
    exists k :: 0 <= k < |tracts| && tracts[k].geoid == g
  }

  /** Converting the housing codes leaves the GEOID cell alone: it is not a housing code. */
  lemma NumericKeepsGeoId(h: Table, i: nat)
    requires Rectangular(h) && i < |h.rows|
    ensures CellText(Lookup(NumericColumns(h, HousingCodes).columns, NumericColumns(h, HousingCodes).rows[i], "GEOID")) ==
            CellText(Lookup(h.columns, h.rows[i], "GEOID"))
  {
    var u := NumericColumns(h, HousingCodes);
    GeoIdNotHousingCode();
    match ColumnIndex(h.columns, "GEOID")
    case None =>
    case Some(k) =>
      assert u.rows[i][k] == h.rows[i][k];
  }

  lemma GeoIdNotHousingCode()
    ensures "GEOID" !in HousingCodes
  {
    forall k | 0 <= k < |HousingCodes| ensures HousingCodes[k] != "GEOID" {
      assert HousingCodes[k][0] == 'B';
    }
  }

  /**
   * Each merged tract takes its population and housing from rows with its
   * GEOID; a side is missing exactly when that input has no row with the GEOID.
   */
  lemma MergeHousingSides(pops: seq<PopulationRow>, housing: seq<HousingRow>, i: nat)
    requires i < |MergeHousing(pops, housing)|
    ensures TractFromSides(pops, housing, MergeHousing(pops, housing)[i])
  {
    var j := OuterJoin(pops, housing, PopulationKey, HousingKey);
    var t := MergeHousing(pops, housing)[i];
    assert t == TractOf(j[i]);
    assert OuterPaired(pops, housing, PopulationKey, HousingKey, j[i]);
    if j[i].1.Some? {
      var b :| 0 <= b < |housing| && housing[b] == j[i].1.value;
    }
    if j[i].0.Some? {
      var a :| 0 <= a < |pops| && pops[a] == j[i].0.value;
    }
  }

  /**
   * With one year-built row per GEOID the left merge keeps every tract, in
   * order and otherwise unchanged, and attaches ages exactly to the tracts
   * whose GEOID has year-built data.
   */
  lemma AddAgeKeepsTracts(tracts: seq<Tract>, ages: seq<AgeRow>)
    requires UniqueKeys(ages, AgeKey)
    ensures |AddAge(tracts, ages)| == |tracts|
    ensures forall i :: 0 <= i < |tracts| ==>
              AddAge(tracts, ages)[i].(age := tracts[i].age) == tracts[i] &&
              (AddAge(tracts, ages)[i].age.Some? <==> tracts[i].geoid in KeySet(ages, AgeKey))
  {
    LeftJoinUnique(tracts, ages, TractKey, AgeKey);
  }
}
