/**
 * The earlier prototype helpers (analysis.py): a location-string parser, a
 * density classifier without an "unknown" class, the housing mix in which a
 * missing value propagates, the share bins without a closed lowest bin, and
 * the per-1,000 rate without a guard. Each one except the location parser is
 * set beside the later pipeline's version of the same step; the parser is
 * modelled on its own.
 */
module Prototype {
  import opened Wrappers
  import opened Numeric
  import opened Text
  import opened Columns
  import opened Frames
  import opened Sequences
  import Census
  import Crosswalk
  import IncidentAnalysis
  import Summaries = IncidentSummaries

  // ------------------------------------------------------ incident locations

  /** A point: `x` is the longitude and `y` the latitude. */
  datatype Point = Point(x: real, y: real)

  const Parens: set<char> := {'(', ')'}

  /** `loc_str.strip("()").split(",")` */
  function LocationFields(s: string): (fields: seq<string>)
    ensures |fields| >= 1
  {
    Split(StripIn(s, Parens), ',')
  }

  /**
   * `parse_loc` on a text cell: the first field is the longitude and the second
   * the latitude; fewer than two fields or a field that is not a number gives
   * no point, and fields after the second are ignored.
   */
  function ParseLoc(s: string): (r: Option<Point>)
    ensures r.Some? ==> |LocationFields(s)| >= 2
  {
    var fields := LocationFields(s);
    if |fields| < 2 then None
    else
      match (ParseNumber(fields[0]), ParseNumber(fields[1]))
      case (Some(lon), Some(lat)) => Some(Point(lon, lat))
      case _ => None
  }

  /** `parse_loc` on any cell: a missing cell, or one that is not text, has no point. */
  function ParseLocCell(c: Cell): (r: Option<Point>)
    ensures !c.Str? ==> r.None?
  {
    if c.Str? then ParseLoc(c.s) else None
  }

  /** Stripping parentheses from a parenthesized text whose ends are not parentheses gives the text back. */
  lemma StripParens(m: string)
    requires m != [] && m[0] !in Parens && m[|m| - 1] !in Parens
    ensures StripIn("(" + m + ")", Parens) == m
  {
    var s := "(" + m + ")";
    assert s[1..] == m + ")";
    assert TrimStartIn(s, Parens) == TrimStartIn(m + ")", Parens);
    assert TrimStartIn(m + ")", Parens) == m + ")";
    assert (m + ")")[..|m|] == m;
    assert TrimEndIn(m + ")", Parens) == TrimEndIn(m, Parens);
  }

  /** The first field of a text that has no comma before `rest`, where `rest` is empty or starts a new field. */
  lemma FirstFieldBeforeRest(b: string, rest: string)
    requires ',' !in b
    requires rest == [] || rest[0] == ','
    ensures Split(b + rest, ',')[0] == b
  {
    if rest == [] {
      assert b + rest == b;
      SplitWithoutSeparator(b, ',');
    } else {
      assert b + rest == b + [','] + rest[1..];
      SplitFirst(b, ',', rest[1..]);
    }
  }

  /** The fields of "(a,b...)": `a`, then `b`. */
  lemma LocationFieldsOf(a: string, b: string, rest: string)
    requires ',' !in a && ',' !in b
    requires a != [] && a[0] !in Parens
    requires rest == [] || rest[0] == ','
    requires b + rest != [] && (b + rest)[|b + rest| - 1] !in Parens
    ensures |LocationFields("(" + (a + "," + (b + rest)) + ")")| >= 2
    ensures LocationFields("(" + (a + "," + (b + rest)) + ")")[0] == a
    ensures LocationFields("(" + (a + "," + (b + rest)) + ")")[1] == b
  {
    var tail := b + rest;
    FieldsBetweenParens(a, tail);
    SplitFirst(a, ',', tail);
    FirstFieldBeforeRest(b, rest);
  }

  /** Stripping the parentheses from "(a,tail)" leaves "a,tail". */
  lemma FieldsBetweenParens(a: string, tail: string)
    requires a != [] && a[0] !in Parens
    requires tail != [] && tail[|tail| - 1] !in Parens
    ensures StripIn("(" + (a + "," + tail) + ")", Parens) == a + "," + tail
  {
    var m := a + "," + tail;
    assert m[0] == a[0];
    assert m[|m| - 1] == tail[|tail| - 1];
    StripParens(m);
  }

  /**
   * The format the source expects, "(lon, lat)", parses to the point with that
   * longitude and latitude; any further comma-separated fields are ignored,
   * and no range check is made.
   */
  lemma ParseLocRoundTrip(a: string, b: string, rest: string, lon: real, lat: real)
    requires ParseNumber(a) == Some(lon) && ParseNumber(b) == Some(lat)
    requires ',' !in a && ',' !in b
    requires a != [] && a[0] !in Parens
    requires rest == [] || rest[0] == ','
    requires b + rest != [] && (b + rest)[|b + rest| - 1] !in Parens
    ensures ParseLoc("(" + (a + "," + (b + rest)) + ")") == Some(Point(lon, lat))
  {
    LocationFieldsOf(a, b, rest);
  }

  /** A text without a comma has a single field, so it never parses. */
  lemma ParseLocNeedsComma(s: string)
    requires ',' !in s
    ensures ParseLoc(s) == None
  {
    var u := TrimStartIn(s, Parens);
    AbsentFromSuffix(s, ',', |s| - |u|);
    var t := TrimEndIn(u, Parens);
    AbsentFromPrefix(u, ',', |t|);
    SplitWithoutSeparator(t, ',');
  }

  /** A character absent from a text is absent from each of its suffixes. */
  lemma AbsentFromSuffix(s: string, c: char, i: nat)
    requires i <= |s| && c !in s
    ensures c !in s[i..]
  {
    forall k | 0 <= k < |s| - i ensures s[i..][k] != c {
      assert s[i..][k] == s[i + k];
    }
  }

  /** A character absent from a text is absent from each of its prefixes. */
  lemma AbsentFromPrefix(s: string, c: char, j: nat)
    requires j <= |s| && c !in s
    ensures c !in s[..j]
  {
    forall k | 0 <= k < j ensures s[..j][k] != c {
      assert s[..j][k] == s[k];
    }
  }

  /** The geometry of every incident, parsed from its own location cell. */
  function Geometries(t: Table, locationCol: string): (g: seq<Option<Point>>)
    ensures |g| == |t.rows|
    ensures forall i :: 0 <= i < |t.rows| ==> g[i] == ParseLocCell(Lookup(t.columns, t.rows[i], locationCol))
    ensures forall i :: 0 <= i < |t.rows| && g[i].Some? ==> Lookup(t.columns, t.rows[i], locationCol).Str?
  {
    seq(|t.rows|, i requires 0 <= i < |t.rows| => ParseLocCell(Lookup(t.columns, t.rows[i], locationCol)))
  }

  /** The incident frame `parse_incident_locations` writes its geometry column into. */
  class IncidentFrame {
    var table: Table
    /** The geometry column; None until it has been written. */
    var geometry: Option<seq<Option<Point>>>

    constructor (t: Table)
      ensures table == t && geometry.None?
    {
      table := t;
      geometry := None;
    }

    /** `df["geometry"] = df[location_col].apply(parse_loc)`; the other columns are kept. */
    method ParseIncidentLocations(locationCol: string)
      requires locationCol in table.columns
      modifies this
      ensures table == old(table)
      ensures geometry == Some(Geometries(old(table), locationCol))
    {
      geometry := Some(Geometries(table, locationCol));
    }
  }

  // ------------------------------------------------------ density classes

  /**
   * `classify`: at least 10,000 people per square mile is urban core, at least
   * 3,000 inner suburban, anything else (NaN included: every comparison with it
   * is false) outer suburban.
   */
  function ClassifyDensity(density: Float): Summaries.UrbanClass {
    if AtLeast(density, 10000.0) then Summaries.UrbanCore
    else if AtLeast(density, 3000.0) then Summaries.InnerSuburban
    else Summaries.OuterSuburban
  }

  /** The band of finite densities each class covers; there is no class for a missing density. */
  predicate InBand(d: real, c: Summaries.UrbanClass) {
    match c
    case UrbanCore => d >= 10000.0
    case InnerSuburban => 3000.0 <= d < 10000.0
    case OuterSuburban => d < 3000.0
  }

  /** A finite density gets exactly the class whose band holds it; NaN is outer suburban. */
  lemma ClassifyBands(d: real, c: Summaries.UrbanClass)
    ensures ClassifyDensity(Finite(d)) == c <==> InBand(d, c)
    ensures ClassifyDensity(NaN) == Summaries.OuterSuburban
  {
  }

  /**
   * Beside the crosswalk's classifier: the two give the same label except for a
   * missing or zero density, which the crosswalk calls "unknown" and the
   * prototype "outer_suburban".
   */
  lemma ClassifyVersusCrosswalk(density: Float)
    ensures !density.NaN? && density != Finite(0.0) ==>
              Crosswalk.ClassLabel(Crosswalk.Classify(density)) == Summaries.ClassLabel(ClassifyDensity(density))
    ensures density.NaN? || density == Finite(0.0) ==>
              Crosswalk.Classify(density) == Crosswalk.Unknown &&
              ClassifyDensity(density) == Summaries.OuterSuburban
  {
  }

  /** `gdf["urban_class"] = gdf[density_col].apply(classify)`: every row gets a class and nothing else changes. */
  function UrbanClassified(t: Table, densityCol: string): (u: Table)
    requires Rectangular(t)
    ensures u.columns == WithColumn(t.columns, Summaries.ClassName) && |u.rows| == |t.rows| && Rectangular(u)
    ensures forall i :: 0 <= i < |t.rows| ==>
              Summaries.ClassOf(Lookup(u.columns, u.rows[i], Summaries.ClassName)) ==
              Some(ClassifyDensity(IncidentAnalysis.NumberCell(Lookup(t.columns, t.rows[i], densityCol))))
    ensures forall i, other :: 0 <= i < |t.rows| && other != Summaries.ClassName ==>
              Get(u.columns, u.rows[i], other) == Get(t.columns, t.rows[i], other)
  {
    Derive(t, Summaries.ClassName, densityCol,
           (c: Cell) => Str(Summaries.ClassLabel(ClassifyDensity(IncidentAnalysis.NumberCell(c)))))
  }

  // ------------------------------------------------------ single-family share bins

  /**
   * `pd.cut(pct, bins=[0, 25, 50, 75, 100])` without `include_lowest`: every
   * interval is open on the left, so a share of exactly 0% lands in no bin.
   */
  function SfCategoryNoLowest(pct: Float): (r: Option<Summaries.SfBin>)
    ensures r.Some? ==> pct.Finite? &&
                        Summaries.BinLow(r.value) < pct.value <= Summaries.BinLow(r.value) + 25.0
    ensures r.None? ==> !pct.Finite? || pct.value <= 0.0 || pct.value > 100.0
  {
    if !pct.Finite? then None
    else
      var v := pct.value;
      if 0.0 < v <= 25.0 then Some(Summaries.Below25)
      else if 25.0 < v <= 50.0 then Some(Summaries.From25To50)
      else if 50.0 < v <= 75.0 then Some(Summaries.From50To75)
      else if 75.0 < v <= 100.0 then Some(Summaries.Above75)
      else None
  }

  /** Beside the later binning (`include_lowest=True`): the two differ only at exactly 0%. */
  lemma SfBinsDifferOnlyAtZero(pct: Float)
    ensures SfCategoryNoLowest(pct) == (if pct == Finite(0.0) then None else Summaries.SfCategory(pct))
    ensures Summaries.SfCategory(Finite(0.0)) == Some(Summaries.Below25)
  {
  }

  const SfCategoryName: string := "sf_category"
  const PctSingleFamilyName: string := "pct_single_family"

  /** The category cell: the bin's label, or missing. */
  function SfCell(b: Option<Summaries.SfBin>): Cell {
    if b.Some? then Str(Summaries.SfLabel(b.value)) else Null
  }

  /** `merged_gdf["sf_category"] = pd.cut(merged_gdf["pct_single_family"], ...)` */
  function SfCategorized(t: Table): (u: Table)
    requires Rectangular(t)
    ensures u.columns == WithColumn(t.columns, SfCategoryName) && |u.rows| == |t.rows| && Rectangular(u)
    ensures forall i :: 0 <= i < |t.rows| ==>
              Lookup(u.columns, u.rows[i], SfCategoryName) ==
              SfCell(SfCategoryNoLowest(IncidentAnalysis.NumberCell(Lookup(t.columns, t.rows[i], PctSingleFamilyName))))
    ensures forall i, other :: 0 <= i < |t.rows| && other != SfCategoryName ==>
              Get(u.columns, u.rows[i], other) == Get(t.columns, t.rows[i], other)
  {
    Derive(t, SfCategoryName, PctSingleFamilyName,
           (c: Cell) => SfCell(SfCategoryNoLowest(IncidentAnalysis.NumberCell(c))))
  }

  /** A row whose single-family share is exactly 0% is left without a category. */
  lemma ZeroShareUncategorized(t: Table, i: nat)
    requires Rectangular(t) && i < |t.rows|
    requires Lookup(t.columns, t.rows[i], PctSingleFamilyName) == Num(0.0)
    ensures Lookup(SfCategorized(t).columns, SfCategorized(t).rows[i], SfCategoryName) == Null
  {
  }

  /** The response-area frame the prototype's classifier and binning write their columns into. */
  class AreaFrame {
    var table: Table

    constructor (t: Table)
      ensures table == t
    {
      table := t;
    }

    /** `classify_urban_suburban(gdf, density_col)` */
    method ClassifyUrbanSuburban(densityCol: string)
      requires Rectangular(table)
      modifies this
      ensures table == UrbanClassified(old(table), densityCol)
    {
      table := UrbanClassified(table, densityCol);
    }

    /** The `sf_category` column `analyze_by_housing_type` adds to its argument. */
    method AssignSfCategories()
      requires Rectangular(table)
      modifies this
      ensures table == SfCategorized(old(table))
    {
      table := SfCategorized(table);
    }
  }

  // ------------------------------------------------------ housing mix

  /**
   * The columns `calculate_housing_typology_mix` adds, for one tract. Sums are
   * plain float additions, so a missing component makes the sum missing.
   */
  datatype HousingMix = HousingMix(
    singleFamily: Float, smallMultifamily: Float, mediumMultifamily: Float, largeMultifamily: Float,
    other: Float, totalUnits: Float, pctSingleFamily: Float, pctMultifamily: Float)

  /** `part / total * 100` */
  function Percent(part: Float, total: Float): Float {
    Scale(Div(part, total), 100.0)
  }

  /** Every value is a number or missing: no infinity, as after `pd.to_numeric` on census cells. */
  predicate NoInfinity(v: seq<Float>) {
    forall j :: 0 <= j < |v| ==> v[j].Finite? || v[j].NaN?
  }

  /** The mix from the eleven B25024 values (`v[0]` is 001E, the total). */
  function MixOf(v: seq<Float>): (m: HousingMix)
    requires |v| == 11
  {
    var sf := Add(v[1], v[2]);
    var small := Add(v[3], v[4]);
    var medium := Add(v[5], v[6]);
    var large := Add(v[7], v[8]);
    HousingMix(sf, small, medium, large, Add(v[9], v[10]), v[0],
               Percent(sf, v[0]), Percent(Add(Add(small, medium), large), v[0]))
  }

  /** A sum of two values is missing exactly when one of them is. */
  lemma AddMissing(a: Float, b: Float)
    requires (a.Finite? || a.NaN?) && (b.Finite? || b.NaN?)
    ensures Add(a, b).NaN? <==> a.NaN? || b.NaN?
    ensures Add(a, b).Finite? || Add(a, b).NaN?
  {
  }

  /**
   * A missing component makes its bucket missing, and a missing bucket or total
   * makes the share built on it missing too: nothing is zero-filled.
   */
  lemma MixPropagatesMissing(v: seq<Float>)
    requires |v| == 11 && NoInfinity(v)
    ensures MixOf(v).singleFamily.NaN? <==> v[1].NaN? || v[2].NaN?
    ensures MixOf(v).smallMultifamily.NaN? <==> v[3].NaN? || v[4].NaN?
    ensures MixOf(v).mediumMultifamily.NaN? <==> v[5].NaN? || v[6].NaN?
    ensures MixOf(v).largeMultifamily.NaN? <==> v[7].NaN? || v[8].NaN?
    ensures MixOf(v).other.NaN? <==> v[9].NaN? || v[10].NaN?
    ensures v[0].NaN? || v[1].NaN? || v[2].NaN? ==> MixOf(v).pctSingleFamily.NaN?
    ensures (v[0].NaN? || exists j :: 3 <= j < 9 && v[j].NaN?) ==> MixOf(v).pctMultifamily.NaN?
  {
    var m := MixOf(v);
    assert v[0].Finite? || v[0].NaN?;
    assert v[1].Finite? || v[1].NaN?;
    assert v[2].Finite? || v[2].NaN?;
    AddMissing(v[1], v[2]);
    AddMissing(v[3], v[4]);
    AddMissing(v[5], v[6]);
    AddMissing(v[7], v[8]);
    AddMissing(v[9], v[10]);
    AddMissing(m.smallMultifamily, m.mediumMultifamily);
    AddMissing(Add(m.smallMultifamily, m.mediumMultifamily), m.largeMultifamily);
    if exists j :: 3 <= j < 9 && v[j].NaN? {
      var j :| 3 <= j < 9 && v[j].NaN?;
      assert j == 3 || j == 4 || j == 5 || j == 6 || j == 7 || j == 8;
    }
  }

  /** Two shares of one positive total, whose parts do not exceed it, lie in [0, 100] together. */
  lemma SharesOfTotal(a: real, b: real, t: real)
    requires 0.0 <= a && 0.0 <= b && a + b <= t && 0.0 < t
    ensures 0.0 <= a / t * 100.0 && 0.0 <= b / t * 100.0
    ensures a / t * 100.0 + b / t * 100.0 <= 100.0
  {
    assert a / t + b / t == (a + b) / t;
    assert (a + b) / t <= 1.0;
  }

  /**
   * With every value present and a positive total, the shares are the bucket
   * sums over the total, times 100; when the total counts every unit, the
   * single-family and multifamily shares together stay within 100.
   */
  lemma MixShares(v: seq<Float>)
    requires |v| == 11 && forall j :: 0 <= j < 11 ==> v[j].Finite?
    requires v[0].value > 0.0
    ensures MixOf(v).pctSingleFamily == Finite((v[1].value + v[2].value) / v[0].value * 100.0)
    ensures MixOf(v).pctMultifamily ==
              Finite((v[3].value + v[4].value + v[5].value + v[6].value + v[7].value + v[8].value) / v[0].value * 100.0)
    ensures (forall j :: 1 <= j < 11 ==> v[j].value >= 0.0) &&
            v[0].value == v[1].value + v[2].value + v[3].value + v[4].value + v[5].value +
                          v[6].value + v[7].value + v[8].value + v[9].value + v[10].value ==>
              0.0 <= MixOf(v).pctSingleFamily.value &&
              0.0 <= MixOf(v).pctMultifamily.value &&
              MixOf(v).pctSingleFamily.value + MixOf(v).pctMultifamily.value <= 100.0
  {
    assert v[0].Finite? && v[1].Finite? && v[2].Finite? && v[3].Finite? && v[4].Finite? && v[5].Finite?;
    assert v[6].Finite? && v[7].Finite? && v[8].Finite? && v[9].Finite? && v[10].Finite?;
    var sf := v[1].value + v[2].value;
    var mf := v[3].value + v[4].value + v[5].value + v[6].value + v[7].value + v[8].value;
    if (forall j :: 1 <= j < 11 ==> v[j].value >= 0.0) &&
       v[0].value == v[1].value + v[2].value + v[3].value + v[4].value + v[5].value +
                     v[6].value + v[7].value + v[8].value + v[9].value + v[10].value {
      assert v[9].value >= 0.0 && v[10].value >= 0.0;
      assert v[1].value >= 0.0 && v[2].value >= 0.0 && v[3].value >= 0.0 && v[4].value >= 0.0;
      assert v[5].value >= 0.0 && v[6].value >= 0.0 && v[7].value >= 0.0 && v[8].value >= 0.0;
      SharesOfTotal(sf, mf, v[0].value);
    }
  }

  /**
   * There is no guard on the total: with zero units a positive single-family
   * count gives an infinite share, and a zero one gives NaN.
   */
  lemma MixZeroTotal(v: seq<Float>)
    requires |v| == 11 && v[0] == Finite(0.0) && v[1].Finite? && v[2].Finite?
    ensures v[1].value + v[2].value > 0.0 ==> MixOf(v).pctSingleFamily == PosInf
    ensures v[1].value + v[2].value == 0.0 ==> MixOf(v).pctSingleFamily.NaN?
  {
  }

  /** The values of an optional-number row as floats. */
  function AsFloats(v: seq<Option<real>>): (f: seq<Float>)
    ensures |f| == |v| && NoInfinity(f)
    ensures forall j :: 0 <= j < |v| ==> f[j] == FromOption(v[j])
  {
    seq(|v|, j requires 0 <= j < |v| => FromOption(v[j]))
  }

  /**
   * Beside the census step's buckets, which zero-fill: with every component
   * present the prototype's single-family, multifamily (small + medium + large)
   * and other sums agree with them; with a single-family component missing the
   * prototype's sum is missing where the census step's is a number.
   */
  lemma MixVersusCensus(v: seq<Option<real>>)
    requires |v| == 11
    ensures v[1].Some? && v[2].Some? ==>
              MixOf(AsFloats(v)).singleFamily == Finite(Census.HousingBuckets(v).singleFamily)
    ensures (forall j :: 3 <= j < 9 ==> v[j].Some?) ==>
              Add(Add(MixOf(AsFloats(v)).smallMultifamily, MixOf(AsFloats(v)).mediumMultifamily),
                  MixOf(AsFloats(v)).largeMultifamily) == Finite(Census.HousingBuckets(v).multifamily)
    ensures v[9].Some? && v[10].Some? ==>
              MixOf(AsFloats(v)).other == Finite(Census.HousingBuckets(v).mobileOther)
    ensures v[1].None? ==>
              MixOf(AsFloats(v)).singleFamily.NaN? && Census.HousingBuckets(v).singleFamily == OrZero(v[2])
  {
    var f := AsFloats(v);
    var h := Census.HousingBuckets(v);
    Census.UnitBucketSums(v);
    if forall j :: 3 <= j < 9 ==> v[j].Some? {
      assert v[3].Some? && v[4].Some? && v[5].Some? && v[6].Some? && v[7].Some? && v[8].Some?;
    }
  }

  /** The census columns `numeric_cols`: every column whose name starts with "B25024". */
  function B25024Columns(columns: seq<string>): (names: seq<string>)
    ensures forall c :: c in names ==> c in columns && StartsWith(c, "B25024")
  {
    Filter(columns, (c: string) => StartsWith(c, "B25024"))
  }

  /** The eleven B25024 values of a converted row, as floats. */
  function Components(columns: seq<string>, row: Row): (v: seq<Float>)
    ensures |v| == 11 && NoInfinity(v)
  {
    seq(11, j requires 0 <= j < 11 => IncidentAnalysis.NumberCell(Lookup(columns, row, Census.HousingCodes[j])))
  }

  /** The eleven B25024 values of a raw row, each as `pd.to_numeric(errors="coerce")` reads it. */
  function RawComponents(columns: seq<string>, row: Row): (v: seq<Float>)
    ensures |v| == 11 && NoInfinity(v)
  {
    seq(11, j requires 0 <= j < 11 =>
      IncidentAnalysis.NumberCell(ToNumericCell(Lookup(columns, row, Census.HousingCodes[j]))))
  }

  /** After converting `names`, a listed column present in the frame reads as its converted raw cell. */
  lemma ConvertedLookup(t: Table, names: seq<string>, name: string, i: nat)
    requires Rectangular(t) && i < |t.rows|
    requires name in names && name in t.columns
    ensures Lookup(NumericColumns(t, names).columns, NumericColumns(t, names).rows[i], name) ==
            ToNumericCell(Lookup(t.columns, t.rows[i], name))
  {
    var k := ColumnIndex(t.columns, name).value;
    assert Addressed(t.columns, k);
    assert Converted(t.columns, names, k);
  }

  /** Every housing code starts with the table prefix. */
  lemma HousingCodesPrefixed(j: nat)
    requires j < 11
    ensures StartsWith(Census.HousingCodes[j], "B25024")
  {
    assert Census.HousingCodes[j][..6] == "B25024";
  }

  /**
   * `calculate_housing_typology_mix`: convert every B25024 column of a copy by
   * a loop, then compute the mix of each tract from its converted values.
   */
  method CalculateHousingTypologyMix(census: Table) returns (df: Table, mix: seq<HousingMix>)
    requires Rectangular(census)
    requires Census.AllPresent(Census.HousingCodes, census.columns)
    ensures df == NumericColumns(census, B25024Columns(census.columns))
    ensures |mix| == |census.rows|
    ensures forall i :: 0 <= i < |census.rows| ==> mix[i] == MixOf(RawComponents(census.columns, census.rows[i]))
  {
    var names := B25024Columns(census.columns);
    df := ConvertToNumeric(census, names);
    mix := seq(|df.rows|, i requires 0 <= i < |df.rows| => MixOf(Components(df.columns, df.rows[i])));
    forall i | 0 <= i < |census.rows|
      ensures mix[i] == MixOf(RawComponents(census.columns, census.rows[i]))
    {
      forall j | 0 <= j < 11
        ensures Components(df.columns, df.rows[i])[j] == RawComponents(census.columns, census.rows[i])[j]
      {
        var code := Census.HousingCodes[j];
        assert code in census.columns;
        HousingCodesPrefixed(j);
        var k :| 0 <= k < |census.columns| && census.columns[k] == code;
        FilterKeepsAll(census.columns, (c: string) => StartsWith(c, "B25024"));
        ConvertedLookup(census, names, code, i);
      }
      assert Components(df.columns, df.rows[i]) == RawComponents(census.columns, census.rows[i]);
    }
  }

  // ------------------------------------------------------ rates

  /** `incident_count / population * 1000`, with no guard on the population. */
  function IncidentsPer1000(count: Float, population: Float): Float {
    Scale(Div(count, population), 1000.0)
  }

  /**
   * The unguarded rate: the plain quotient for a non-zero population, an
   * infinity (or NaN for no incidents) for a zero one, and NaN for a missing
   * population or a missing count (an area no incident fell in).
   */
  lemma UnguardedRate(count: Float, population: Float)
    ensures count.Finite? && population.Finite? && population.value != 0.0 ==>
              IncidentsPer1000(count, population) == Finite(count.value / population.value * 1000.0)
    ensures count.Finite? && population == Finite(0.0) ==>
              (IncidentsPer1000(count, population).PosInf? <==> count.value > 0.0) &&
              (IncidentsPer1000(count, population).NegInf? <==> count.value < 0.0) &&
              (IncidentsPer1000(count, population).NaN? <==> count.value == 0.0)
    ensures count.NaN? || population.NaN? ==> IncidentsPer1000(count, population).NaN?
  {
  }

  /**
   * Beside the later guarded rate: the two agree whenever the population is
   * positive; for a zero population with incidents the prototype gives an
   * infinity where the guard gives NaN, and for a negative one a finite rate.
   */
  lemma UnguardedVersusGuarded(count: real, population: Float)
    ensures Above(population, 0.0) ==>
              IncidentsPer1000(Finite(count), population) == IncidentAnalysis.PerThousand(Finite(count), population)
    ensures population == Finite(0.0) && count > 0.0 ==>
              IncidentsPer1000(Finite(count), population).PosInf? &&
              IncidentAnalysis.PerThousand(Finite(count), population).NaN?
    ensures population.Finite? && population.value < 0.0 ==>
              IncidentsPer1000(Finite(count), population).Finite? &&
              IncidentAnalysis.PerThousand(Finite(count), population).NaN?
  {
  }
}
