/**
 * The NFIRS cause analysis over incident records: extracting the Austin
 * (Texas, FDID WP801) records from each year's files, joining the Fire and
 * Basic modules on the incident key, adding the classifier columns in place,
 * the residential row-normalised percentage tables and the key-finding
 * shares. A record is one line of a pipe-delimited NFIRS file read as text;
 * a field that is absent or empty in the file (pandas NaN) is not in the map.
 */
module NfirsTables {
  import opened Wrappers
  import opened Text
  import opened Sequences
  import opened Joins
  import opened Grouping
  import opened NfirsCodes

  type Record = map<string, string>

  function Field(r: Record, name: string): Option<string> {
    if name in r then Some(r[name]) else None
  }

  // ---------------------------------------------------------------- extraction

  /** One year's module file: the year taken from its directory, and its records. */
  datatype NfirsFile = NfirsFile(year: string, records: seq<Record>)

  predicate IsAustin(r: Record) {
    Field(r, "STATE") == Some("TX") && Field(r, "FDID") == Some("WP801")
  }

  function Tagged(rs: seq<Record>, year: string): (r: seq<Record>)
    ensures |r| == |rs| && forall i :: 0 <= i < |rs| ==> r[i] == rs[i]["YEAR" := year]
  {
    seq(|rs|, i requires 0 <= i < |rs| => rs[i]["YEAR" := year])
  }

  /** One file's Austin records, each given the file's YEAR. */
  function AustinOf(f: NfirsFile): seq<Record> {
    Tagged(Filter(f.records, IsAustin), f.year)
  }

  /** `pd.concat` of every file's Austin records, in file order. */
  function AustinRecords(files: seq<NfirsFile>): seq<Record>
    decreases |files|
  {
    if files == [] then [] else AustinRecords(files[..|files| - 1]) + AustinOf(files[|files| - 1])
  }

  /** The record `r` of file `f`, as the extraction emits it. */
  ghost predicate ExtractedFrom(files: seq<NfirsFile>, x: Record, k: int, i: int) {
    0 <= k < |files| && 0 <= i < |files[k].records| &&
    IsAustin(files[k].records[i]) && x == files[k].records[i]["YEAR" := files[k].year]
  }

  /**
   * The extraction keeps exactly the records with STATE TX and FDID WP801,
   * each tagged with its file's year.
   */
  lemma {:induction false} AustinRecordsExactly(files: seq<NfirsFile>, x: Record)
    ensures x in AustinRecords(files) <==> exists k, i :: ExtractedFrom(files, x, k, i)
    decreases |files|
  {
    if files != [] {
      var init := files[..|files| - 1];
      var f := files[|files| - 1];
      AustinRecordsExactly(init, x);
      var kept := Filter(f.records, IsAustin);
      if x in AustinRecords(init) {
        var k, i :| ExtractedFrom(init, x, k, i);
        assert init[k] == files[k];
        assert ExtractedFrom(files, x, k, i);
      }
      if x in AustinOf(f) {
        var j :| 0 <= j < |kept| && AustinOf(f)[j] == x;
        assert kept[j] in kept;
        var i :| 0 <= i < |f.records| && f.records[i] == kept[j];
        assert ExtractedFrom(files, x, |files| - 1, i);
      }
      if exists k, i :: ExtractedFrom(files, x, k, i) {
        var k, i :| ExtractedFrom(files, x, k, i);
        if k < |files| - 1 {
          assert ExtractedFrom(init, x, k, i);
        } else {
          FilterKeepsAll(f.records, IsAustin);
          var r := f.records[i];
          assert r in kept;
          var j :| 0 <= j < |kept| && kept[j] == r;
          assert AustinOf(f)[j] == x;
        }
      }
    }
  }

  /** The loop over one module's yearly files, appending each file's Austin records. */
  method CollectAustin(files: seq<NfirsFile>) returns (rs: seq<Record>)
    ensures rs == AustinRecords(files)
  {
    rs := [];
    var k := 0;
    while k < |files|
      invariant 0 <= k <= |files|
      invariant rs == AustinRecords(files[..k])
    {
      assert files[..k + 1][..k] == files[..k];
      rs := rs + AustinOf(files[k]);
      k := k + 1;
    }
    assert files[..k] == files;
  }

  // ---------------------------------------------------------------- join

  /** The incident key: STATE, FDID, INC_DATE, INC_NO, EXP_NO. */
  function IncidentKey(r: Record): seq<Option<string>> {
    [Field(r, "STATE"), Field(r, "FDID"), Field(r, "INC_DATE"), Field(r, "INC_NO"), Field(r, "EXP_NO")]
  }

  const KeyColumns: set<string> := {"STATE", "FDID", "INC_DATE", "INC_NO", "EXP_NO"}

  /** The Fire-module columns kept: the key, YEAR, and the cause and protection fields. */
  const FireColumns: set<string> := KeyColumns + {
    "YEAR", "AREA_ORIG", "HEAT_SOURC", "FIRST_IGN", "CAUSE_IGN", "FACT_IGN_1", "HUM_FAC_1",
    "EQUIP_INV", "FIRE_SPRD", "AES_PRES", "AES_TYPE", "AES_OPER", "AES_FAIL",
    "DET_ALERT", "DET_TYPE", "DET_OPERAT", "DET_EFFECT"}

  /** The Basic-module columns kept: the key, incident type, property use and losses. */
  const BasicColumns: set<string> := KeyColumns + {"INC_TYPE", "PROP_USE", "PROP_LOSS", "CONT_LOSS"}

  function Select(r: Record, columns: set<string>): (s: Record)
    ensures forall c :: c in columns ==> Field(s, c) == Field(r, c)
    ensures forall c :: c !in columns ==> Field(s, c) == None
  {
    map c | c in r && c in columns :: r[c]
  }

  /** The merged row of a matching Fire and Basic record. */
  function Combine(fire: Record, basic: Record): Record {
    Select(fire, FireColumns) + Select(basic, BasicColumns)
  }

  /**
   * A merged row carries the shared key, the property use of the Basic
   * record, and the YEAR and cause and protection fields of the Fire record.
   */
  lemma CombineFields(fire: Record, basic: Record)
    requires IncidentKey(fire) == IncidentKey(basic)
    ensures Field(Combine(fire, basic), "STATE") == Field(fire, "STATE") == Field(basic, "STATE")
    ensures Field(Combine(fire, basic), "FDID") == Field(fire, "FDID") == Field(basic, "FDID")
    ensures Field(Combine(fire, basic), "PROP_USE") == Field(basic, "PROP_USE")
    ensures Field(Combine(fire, basic), "YEAR") == Field(fire, "YEAR")
    ensures Field(Combine(fire, basic), "CAUSE_IGN") == Field(fire, "CAUSE_IGN")
    ensures Field(Combine(fire, basic), "HEAT_SOURC") == Field(fire, "HEAT_SOURC")
    ensures Field(Combine(fire, basic), "AREA_ORIG") == Field(fire, "AREA_ORIG")
    ensures Field(Combine(fire, basic), "AES_PRES") == Field(fire, "AES_PRES")
  {
    CombineKeepsPlace(fire, basic);
    PropUseOnlyBasic();
    CombineBasicOnly(fire, basic, "PROP_USE");
    FireOnlyNotBasic("YEAR");
    CombineFireOnly(fire, basic, "YEAR");
    FireOnlyNotBasic("CAUSE_IGN");
    CombineFireOnly(fire, basic, "CAUSE_IGN");
    FireOnlyNotBasic("HEAT_SOURC");
    CombineFireOnly(fire, basic, "HEAT_SOURC");
    FireOnlyNotBasic("AREA_ORIG");
    CombineFireOnly(fire, basic, "AREA_ORIG");
    FireOnlyNotBasic("AES_PRES");
    CombineFireOnly(fire, basic, "AES_PRES");
  }

  /** The STATE and FDID of a merged row are those of both records. */
  lemma CombineKeepsPlace(fire: Record, basic: Record)
    requires IncidentKey(fire) == IncidentKey(basic)
    ensures Field(Combine(fire, basic), "STATE") == Field(fire, "STATE") == Field(basic, "STATE")
    ensures Field(Combine(fire, basic), "FDID") == Field(fire, "FDID") == Field(basic, "FDID")
  {
    assert IncidentKey(fire)[0] == IncidentKey(basic)[0];
    assert IncidentKey(fire)[1] == IncidentKey(basic)[1];
    assert "STATE" in KeyColumns && "FDID" in KeyColumns;
  }

  /** A column kept only from the Fire module comes from the Fire record. */
  lemma CombineFireOnly(fire: Record, basic: Record, c: string)
    requires c in FireColumns && c !in BasicColumns
    ensures Field(Combine(fire, basic), c) == Field(fire, c)
  {
  }

  /** A column kept only from the Basic module comes from the Basic record. */
  lemma CombineBasicOnly(fire: Record, basic: Record, c: string)
    requires c in BasicColumns && c !in FireColumns
    ensures Field(Combine(fire, basic), c) == Field(basic, c)
  {
  }

  /** PROP_USE is kept from the Basic module only: no Fire-module column starts with P. */
  lemma PropUseOnlyBasic()
    ensures "PROP_USE" in BasicColumns && "PROP_USE" !in FireColumns
  {
    assert "PROP_USE"[0] == 'P';
    assert forall c :: c in FireColumns ==> c[0] != 'P';
  }

  /** The cause and protection columns used downstream are kept from the Fire module only. */
  lemma FireOnlyNotBasic(c: string)
    requires c in {"YEAR", "CAUSE_IGN", "HEAT_SOURC", "AREA_ORIG", "AES_PRES"}
    ensures c in FireColumns && c !in BasicColumns
  {
    assert forall b :: b in BasicColumns ==> b[0] in {'S', 'F', 'I', 'E', 'P', 'C'};
    assert "CAUSE_IGN"[1] != "CONT_LOSS"[1];
  }

  /** `fire_df[fire_cols].merge(basic_df[basic_cols], on=key_cols, how='inner')` */
  function MergeModules(fire: seq<Record>, basic: seq<Record>): (r: seq<Record>)
    ensures |r| == |InnerJoin(fire, basic, IncidentKey, IncidentKey)|
  {
    var ps := InnerJoin(fire, basic, IncidentKey, IncidentKey);
    seq(|ps|, i requires 0 <= i < |ps| => Combine(ps[i].0, ps[i].1))
  }

  /** Each merged row combines a Fire record and a Basic record with the same key. */
  lemma MergedRowMatches(fire: seq<Record>, basic: seq<Record>, i: int)
    requires 0 <= i < |MergeModules(fire, basic)|
    ensures exists f, b ::
      (f in fire && b in basic && IncidentKey(f) == IncidentKey(b) && MergeModules(fire, basic)[i] == Combine(f, b))
  {
    var ps := InnerJoin(fire, basic, IncidentKey, IncidentKey);
    assert MergeModules(fire, basic)[i] == Combine(ps[i].0, ps[i].1);
  }

  /** Every Fire record and Basic record with the same key give a merged row. */
  lemma MatchingRecordsMerged(fire: seq<Record>, basic: seq<Record>, f: Record, b: Record)
    requires f in fire && b in basic && IncidentKey(f) == IncidentKey(b)
    ensures Combine(f, b) in MergeModules(fire, basic)
  {
    var ps := InnerJoin(fire, basic, IncidentKey, IncidentKey);
    InnerJoinExactly(fire, basic, IncidentKey, IncidentKey, f, b);
    var i :| 0 <= i < |ps| && ps[i] == (f, b);
    assert MergeModules(fire, basic)[i] == Combine(f, b);
  }

  /**
   * `extract_austin_nfirs`: nothing without Fire-module files (the error
   * return) or without Basic-module files (concatenating no frames fails);
   * otherwise the merged Austin records.
   */
  function ExtractAustin(fireFiles: seq<NfirsFile>, basicFiles: seq<NfirsFile>): (r: Option<seq<Record>>)
    ensures r.None? <==> fireFiles == [] || basicFiles == []
  {
    if fireFiles == [] || basicFiles == [] then None
    else Some(MergeModules(AustinRecords(fireFiles), AustinRecords(basicFiles)))
  }

  /** Every extracted record is an Austin record of both modules. */
  lemma ExtractedAreAustin(fireFiles: seq<NfirsFile>, basicFiles: seq<NfirsFile>, j: int)
    requires ExtractAustin(fireFiles, basicFiles).Some?
    requires 0 <= j < |ExtractAustin(fireFiles, basicFiles).value|
    ensures IsAustin(ExtractAustin(fireFiles, basicFiles).value[j])
  {
    var fire, basic := AustinRecords(fireFiles), AustinRecords(basicFiles);
    MergedRowMatches(fire, basic, j);
    var f, b :| f in fire && b in basic &&
      IncidentKey(f) == IncidentKey(b) && MergeModules(fire, basic)[j] == Combine(f, b);
    AustinRecordIsAustin(fireFiles, f);
    CombineKeepsPlace(f, b);
  }

  /** Every record the extraction emits is an Austin record. */
  lemma AustinRecordIsAustin(files: seq<NfirsFile>, x: Record)
    requires x in AustinRecords(files)
    ensures IsAustin(x)
  {
    AustinRecordsExactly(files, x);
    var k, i :| ExtractedFrom(files, x, k, i);
    TaggedAustin(files[k].records[i], files[k].year);
  }

  /** Tagging a record with its YEAR keeps its STATE and FDID. */
  lemma TaggedAustin(r: Record, year: string)
    requires IsAustin(r)
    ensures IsAustin(r["YEAR" := year])
  {
    assert "STATE"[0] != "YEAR"[0] && "FDID"[0] != "YEAR"[0];
  }

  method ExtractAustinNfirs(fireFiles: seq<NfirsFile>, basicFiles: seq<NfirsFile>) returns (r: Option<seq<Record>>)
    ensures r == ExtractAustin(fireFiles, basicFiles)
  {
    if fireFiles == [] {
      return None;
    }
    var fire := CollectAustin(fireFiles);
    if basicFiles == [] {
      return None;
    }
    var basic := CollectAustin(basicFiles);
    r := Some(MergeModules(fire, basic));
  }

  // ---------------------------------------------------------------- classification columns

  function WithHousingType(r: Record): Record {
    r["housing_type" := HousingLabel(HousingTypeOf(Field(r, "PROP_USE")))]
  }

  function WithCauseLabels(r: Record): Record {
    r["cause_label" := CauseLabel(Field(r, "CAUSE_IGN"))]
     ["heat_source_category" := HeatSourceLabel(HeatSourceOf(Field(r, "HEAT_SOURC")))]
     ["area_category" := AreaLabel(AreaOf(Field(r, "AREA_ORIG")))]
  }

  /** Every record with its housing type; no other field changes. */
  function HousingTyped(rs: seq<Record>): (r: seq<Record>)
    ensures |r| == |rs|
    ensures forall i :: 0 <= i < |rs| ==>
      Field(r[i], "housing_type") == Some(HousingLabel(HousingTypeOf(Field(rs[i], "PROP_USE"))))
    ensures forall i, c :: 0 <= i < |rs| && c != "housing_type" ==> Field(r[i], c) == Field(rs[i], c)
  {
    seq(|rs|, i requires 0 <= i < |rs| => WithHousingType(rs[i]))
  }

  /** Every record with its cause, heat-source and area labels; no other field changes. */
  function CauseLabelled(rs: seq<Record>): (r: seq<Record>)
    ensures |r| == |rs|
    ensures forall i :: 0 <= i < |rs| ==>
      Field(r[i], "cause_label") == Some(CauseLabel(Field(rs[i], "CAUSE_IGN"))) &&
      Field(r[i], "heat_source_category") == Some(HeatSourceLabel(HeatSourceOf(Field(rs[i], "HEAT_SOURC")))) &&
      Field(r[i], "area_category") == Some(AreaLabel(AreaOf(Field(rs[i], "AREA_ORIG"))))
    ensures forall i, c :: 0 <= i < |rs| && c !in {"cause_label", "heat_source_category", "area_category"} ==>
      Field(r[i], c) == Field(rs[i], c)
  {
    seq(|rs|, i requires 0 <= i < |rs| => WithCauseLabels(rs[i]))
  }

  /** The merged incident frame the analysis adds its columns to. */
  class IncidentFrame {
    var records: seq<Record>

    constructor (rs: seq<Record>)
      ensures records == rs
    {
      records := rs;
    }

    /** `classify_housing_type`: adds `housing_type` to every record. */
    method ClassifyHousingType()
      modifies this
      ensures records == HousingTyped(old(records))
    {
      records := HousingTyped(records);
    }

    /** `classify_cause`: adds `cause_label`, `heat_source_category` and `area_category`. */
    method ClassifyCause()
      modifies this
      ensures records == CauseLabelled(old(records))
    {
      records := CauseLabelled(records);
    }
  }

  /** The records after both classification steps. */
  function Classified(rs: seq<Record>): seq<Record> {
    CauseLabelled(HousingTyped(rs))
  }

  // ---------------------------------------------------------------- residential filter

  predicate IsResidential(r: Record) {
    Field(r, "housing_type") == Some("Single-family") || Field(r, "housing_type") == Some("Multifamily")
  }

  function Residential(rs: seq<Record>): seq<Record> {
    Filter(rs, IsResidential)
  }

  /**
   * After classification a record is residential exactly when its property
   * use is a single-family (419) or multifamily (429) code.
   */
  lemma ClassifiedResidential(rs: seq<Record>, i: int)
    requires 0 <= i < |rs|
    ensures IsResidential(Classified(rs)[i]) <==>
      HousingTypeOf(Field(rs[i], "PROP_USE")) in {SingleFamily, Multifamily}
  {
    var h := HousingTypeOf(Field(rs[i], "PROP_USE"));
    assert Field(Classified(rs)[i], "housing_type") == Some(HousingLabel(h));
    HousingLabelInjective(h, SingleFamily);
    HousingLabelInjective(h, Multifamily);
  }

  // ---------------------------------------------------------------- row-normalised percentages

  /** The (row label, column label) pairs a crosstab counts. */
  type Pair = (string, string)

  function RowLabel(p: Pair): string { p.0 }
  function ColLabel(p: Pair): string { p.1 }

  function RowHit(a: string): Pair -> real {
    (p: Pair) => if p.0 == a then 1.0 else 0.0
  }

  /** The number of pairs in row `a`. */
  function RowCount(ps: seq<Pair>, a: string): real {
    SumOf(ps, RowHit(a))
  }

  /** The number of pairs in row `a` and column `b`, as a function of `b`. */
  function CellCounts(ps: seq<Pair>, a: string): string -> real {
    GroupTotal(ps, ColLabel, RowHit(a))
  }

  /** The share of row `a` that falls in column `b`, in percent. */
  function PercentOf(ps: seq<Pair>, a: string): string -> real {
    (b: string) => if RowCount(ps, a) > 0.0 then 100.0 * CellCounts(ps, a)(b) / RowCount(ps, a) else 0.0
  }

  function RowLabels(ps: seq<Pair>): seq<string> {
    Unique(seq(|ps|, i requires 0 <= i < |ps| => ps[i].0))
  }

  function ColLabels(ps: seq<Pair>): seq<string> {
    Unique(seq(|ps|, i requires 0 <= i < |ps| => ps[i].1))
  }

  datatype Crosstab = Crosstab(rowLabels: seq<string>, colLabels: seq<string>, percent: seq<seq<real>>)

  predicate Shaped(t: Crosstab) {
    |t.percent| == |t.rowLabels| && forall i :: 0 <= i < |t.percent| ==> |t.percent[i]| == |t.colLabels|
  }

  function PercentRow(ps: seq<Pair>, a: string, cols: seq<string>): (r: seq<real>)
    ensures |r| == |cols|
  {
    seq(|cols|, j requires 0 <= j < |cols| => PercentOf(ps, a)(cols[j]))
  }

  /**
   * `pd.crosstab(rows, columns, normalize='index') * 100`: one row per row
   * label, one column per column label, each cell the percentage of the
   * row's pairs that carry the column label.
   */
  function NormalizeByRow(ps: seq<Pair>): (t: Crosstab)
    ensures Shaped(t)
    ensures forall i, j :: 0 <= i < j < |t.rowLabels| ==> t.rowLabels[i] != t.rowLabels[j]
    ensures forall i, j :: 0 <= i < j < |t.colLabels| ==> t.colLabels[i] != t.colLabels[j]
    ensures forall a :: a in t.rowLabels <==> exists i :: 0 <= i < |ps| && ps[i].0 == a
    ensures forall b :: b in t.colLabels <==> exists i :: 0 <= i < |ps| && ps[i].1 == b
    ensures forall i, j :: 0 <= i < |t.rowLabels| && 0 <= j < |t.colLabels| ==>
      t.percent[i][j] == PercentOf(ps, t.rowLabels[i])(t.colLabels[j])
  {
    var rows := RowLabels(ps);
    var cols := ColLabels(ps);
    var firsts := seq(|ps|, i requires 0 <= i < |ps| => ps[i].0);
    var seconds := seq(|ps|, i requires 0 <= i < |ps| => ps[i].1);
    assert forall a :: a in rows <==> exists i :: 0 <= i < |ps| && ps[i].0 == a by {
      forall a ensures a in rows <==> exists i :: 0 <= i < |ps| && ps[i].0 == a {
        if a in rows {
          var i :| 0 <= i < |firsts| && firsts[i] == a;
        }
        if exists i :: 0 <= i < |ps| && ps[i].0 == a {
          var i :| 0 <= i < |ps| && ps[i].0 == a;
          assert firsts[i] == a;
        }
      }
    }
    assert forall b :: b in cols <==> exists i :: 0 <= i < |ps| && ps[i].1 == b by {
      forall b ensures b in cols <==> exists i :: 0 <= i < |ps| && ps[i].1 == b {
        if b in cols {
          var i :| 0 <= i < |seconds| && seconds[i] == b;
        }
        if exists i :: 0 <= i < |ps| && ps[i].1 == b {
          var i :| 0 <= i < |ps| && ps[i].1 == b;
          assert seconds[i] == b;
        }
      }
    }
    Crosstab(rows, cols, seq(|rows|, i requires 0 <= i < |rows| => PercentRow(ps, rows[i], cols)))
  }

  /** The sum of a sequence of numbers. */
  function Total(xs: seq<real>): real
    decreases |xs|
  {
    if xs == [] then 0.0 else Total(xs[..|xs| - 1]) + xs[|xs| - 1]
  }

  lemma {:induction false} TotalOfPercentRow(ps: seq<Pair>, a: string, cols: seq<string>)
    ensures Total(PercentRow(ps, a, cols)) == SumOf(cols, PercentOf(ps, a))
    decreases |cols|
  {
    if cols != [] {
      var init := cols[..|cols| - 1];
      TotalOfPercentRow(ps, a, init);
      assert PercentRow(ps, a, cols)[..|cols| - 1] == PercentRow(ps, a, init);
    }
  }

  /** A row label has at least one pair. */
  lemma RowCountPositive(ps: seq<Pair>, a: string, k: int)
    requires 0 <= k < |ps| && ps[k].0 == a
    ensures RowCount(ps, a) >= 1.0
  {
    SumOfAtLeastOne(ps, RowHit(a), k);
  }

  /** A cell count lies between zero and its row's count. */
  lemma CellWithinRow(ps: seq<Pair>, a: string, b: string)
    ensures 0.0 <= CellCounts(ps, a)(b) <= RowCount(ps, a)
  {
    SumWhereWithinSumOf(ps, HasKey(ColLabel, b), RowHit(a));
  }

  /** Every percentage of the table is between 0 and 100. */
  lemma PercentBounded(ps: seq<Pair>, a: string, b: string)
    ensures 0.0 <= PercentOf(ps, a)(b) <= 100.0
  {
    CellWithinRow(ps, a, b);
    var n := RowCount(ps, a);
    if n > 0.0 {
      var c := CellCounts(ps, a)(b);
      assert 100.0 * c <= 100.0 * n;
      assert 100.0 * c / n <= 100.0 * n / n;
    }
  }

  /** The column counts of a row add up to the row's count. */
  lemma RowCountSplits(ps: seq<Pair>, a: string)
    ensures SumOf(ColLabels(ps), CellCounts(ps, a)) == RowCount(ps, a)
  {
    var cols := ColLabels(ps);
    var seconds := seq(|ps|, i requires 0 <= i < |ps| => ps[i].1);
    assert forall i :: 0 <= i < |ps| ==> ColLabel(ps[i]) in cols by {
      forall i | 0 <= i < |ps| ensures ColLabel(ps[i]) in cols {
        assert seconds[i] == ps[i].1;
      }
    }
    GroupedSum(ps, ColLabel, RowHit(a), cols);
  }

  /** Arithmetic step of the row percentages. */
  lemma PercentIsScaledCount(c: real, n: real)
    requires n > 0.0
    ensures 100.0 * c / n == 100.0 / n * c
  {
  }

  lemma PercentsAreScaledCounts(ps: seq<Pair>, a: string, cols: seq<string>)
    requires RowCount(ps, a) > 0.0
    ensures forall j :: 0 <= j < |cols| ==>
      PercentOf(ps, a)(cols[j]) == 100.0 / RowCount(ps, a) * CellCounts(ps, a)(cols[j])
  {
    forall j | 0 <= j < |cols|
      ensures PercentOf(ps, a)(cols[j]) == 100.0 / RowCount(ps, a) * CellCounts(ps, a)(cols[j])
    {
      PercentIsScaledCount(CellCounts(ps, a)(cols[j]), RowCount(ps, a));
    }
  }

  /** Percentages of counts that make up the row's count add up to 100. */
  lemma ScaledRowTotal(ps: seq<Pair>, a: string, cols: seq<string>)
    requires RowCount(ps, a) > 0.0
    requires SumOf(cols, CellCounts(ps, a)) == RowCount(ps, a)
    ensures Total(PercentRow(ps, a, cols)) == 100.0
  {
    TotalOfPercentRow(ps, a, cols);
    PercentsAreScaledCounts(ps, a, cols);
    ScaledSum(cols, PercentOf(ps, a), CellCounts(ps, a), RowCount(ps, a));
  }

  /** Summands scaled by 100 / n, over counts that add up to n, add up to 100. */
  lemma ScaledSum(cols: seq<string>, f: string -> real, g: string -> real, n: real)
    requires n > 0.0 && SumOf(cols, g) == n
    requires forall j :: 0 <= j < |cols| ==> f(cols[j]) == 100.0 / n * g(cols[j])
    ensures SumOf(cols, f) == 100.0
  {
    SumOfScale(cols, f, g, 100.0 / n);
    Cancel(SumOf(cols, f), SumOf(cols, g), n);
  }

  /** Arithmetic step of ScaledSum: shares over n summed, then scaled. */
  lemma Cancel(t: real, s: real, n: real)
    requires n > 0.0 && s == n && t == 100.0 / n * s
    ensures t == 100.0
  {
  }

  /** The percentages of a row that has pairs add up to 100. */
  lemma PercentRowSumsTo100(ps: seq<Pair>, a: string, k: int)
    requires 0 <= k < |ps| && ps[k].0 == a
    ensures Total(PercentRow(ps, a, ColLabels(ps))) == 100.0
  {
    RowCountPositive(ps, a, k);
    RowCountSplits(ps, a);
    ScaledRowTotal(ps, a, ColLabels(ps));
  }

  /** Each row of a row-normalised table adds up to 100. */
  lemma RowsSumTo100(ps: seq<Pair>, i: int)
    requires 0 <= i < |NormalizeByRow(ps).rowLabels|
    ensures Total(NormalizeByRow(ps).percent[i]) == 100.0
  {
    var t := NormalizeByRow(ps);
    var a := t.rowLabels[i];
    var k :| 0 <= k < |ps| && ps[k].0 == a;
    assert t.percent[i] == PercentRow(ps, a, t.colLabels);
    PercentRowSumsTo100(ps, a, k);
  }

  // ---------------------------------------------------------------- residential tables

  function HasBoth(rowName: string, colName: string): Record -> bool {
    (r: Record) => Field(r, rowName).Some? && Field(r, colName).Some?
  }

  /** The labelled pairs of the records that have both fields (crosstab drops missing values). */
  function Pairs(rs: seq<Record>, rowName: string, colName: string): (ps: seq<Pair>)
    ensures |ps| == |Filter(rs, HasBoth(rowName, colName))|
  {
    var kept := Filter(rs, HasBoth(rowName, colName));
    seq(|kept|, i requires 0 <= i < |kept| =>
      assert kept[i] in kept;
      (Field(kept[i], rowName).value, Field(kept[i], colName).value))
  }

  /** The percentages of `column` by housing type over the residential records; none without any. */
  function ResidentialTable(rs: seq<Record>, column: string): (r: Option<Crosstab>)
    ensures r.None? <==> Residential(rs) == []
  {
    var res := Residential(rs);
    if res == [] then None else Some(NormalizeByRow(Pairs(res, "housing_type", column)))
  }

  /**
   * Residential tables have a row only for Single-family and Multifamily,
   * and each of their rows adds up to 100.
   */
  lemma ResidentialTableRows(rs: seq<Record>, column: string)
    requires ResidentialTable(rs, column).Some?
    ensures forall i :: 0 <= i < |ResidentialTable(rs, column).value.rowLabels| ==>
      ResidentialTable(rs, column).value.rowLabels[i] in {"Single-family", "Multifamily"} &&
      Total(ResidentialTable(rs, column).value.percent[i]) == 100.0
  {
    var res := Residential(rs);
    var ps := Pairs(res, "housing_type", column);
    var t := NormalizeByRow(ps);
    forall i | 0 <= i < |t.rowLabels|
      ensures t.rowLabels[i] in {"Single-family", "Multifamily"} && Total(t.percent[i]) == 100.0
    {
      RowsSumTo100(ps, i);
      var k :| 0 <= k < |ps| && ps[k].0 == t.rowLabels[i];
      var kept := Filter(res, HasBoth("housing_type", column));
      assert kept[k] in kept;
      assert kept[k] in res;
    }
  }

  /** `analyze_cause_by_housing` */
  function CauseByHousing(rs: seq<Record>): Option<Crosstab> {
    ResidentialTable(rs, "cause_label")
  }

  /** `analyze_heat_source_by_housing` */
  function HeatSourceByHousing(rs: seq<Record>): Option<Crosstab> {
    ResidentialTable(rs, "heat_source_category")
  }

  /** `analyze_area_origin_by_housing` */
  function AreaOriginByHousing(rs: seq<Record>): Option<Crosstab> {
    ResidentialTable(rs, "area_category")
  }

  function WithSprinklerPresent(r: Record): Record {
    r["sprinkler_present" := SprinklerPresence(Field(r, "AES_PRES"))]
  }

  function SprinklerTagged(rs: seq<Record>): (r: seq<Record>)
    ensures |r| == |rs| && forall i :: 0 <= i < |rs| ==> r[i] == WithSprinklerPresent(rs[i])
  {
    seq(|rs|, i requires 0 <= i < |rs| => WithSprinklerPresent(rs[i]))
  }

  /** `analyze_sprinkler_effect`: sprinkler presence (Yes / No / Unknown) by housing type. */
  function SprinklerByHousing(rs: seq<Record>): (r: Option<Crosstab>)
    ensures r.None? <==> Residential(rs) == []
  {
    var res := Residential(rs);
    if res == [] then None else Some(NormalizeByRow(Pairs(SprinklerTagged(res), "housing_type", "sprinkler_present")))
  }

  function HasSprinkler(r: Record): bool {
    Field(r, "AES_PRES") == Some("Y")
  }

  function WithSprinklerOperated(r: Record): Record {
    r["sprinkler_operated" := SprinklerOperation(Field(r, "AES_OPER"))]
  }

  function OperationTagged(rs: seq<Record>): (r: seq<Record>)
    ensures |r| == |rs| && forall i :: 0 <= i < |rs| ==> r[i] == WithSprinklerOperated(rs[i])
  {
    seq(|rs|, i requires 0 <= i < |rs| => WithSprinklerOperated(rs[i]))
  }

  /** Sprinkler operation by housing type, over the residential records with a sprinkler present. */
  function OperationByHousing(rs: seq<Record>): (r: Option<Crosstab>)
    ensures r.None? <==> Filter(Residential(rs), HasSprinkler) == []
  {
    var present := Filter(Residential(rs), HasSprinkler);
    if present == [] then None else Some(NormalizeByRow(Pairs(OperationTagged(present), "housing_type", "sprinkler_operated")))
  }

  function SpreadPair(r: Record): Pair {
    ("", FireSpread(Field(r, "FIRE_SPRD")))
  }

  function SprinklerCodeIs(aesPres: string): Record -> bool {
    (r: Record) => Field(r, "AES_PRES") == Some(aesPres)
  }

  function SpreadPairs(group: seq<Record>): (ps: seq<Pair>)
    ensures |ps| == |group| && forall i :: 0 <= i < |group| ==> ps[i] == SpreadPair(group[i])
  {
    seq(|group|, i requires 0 <= i < |group| => SpreadPair(group[i]))
  }

  lemma SingleRowLabel(ps: seq<Pair>)
    requires ps != [] && forall i :: 0 <= i < |ps| ==> ps[i].0 == ""
    ensures RowLabels(ps) == [""]
  {
    var firsts := seq(|ps|, i requires 0 <= i < |ps| => ps[i].0);
    UniqueOfConstant(firsts, "");
  }

  /** A table whose pairs all share one row label has that single row, adding up to 100. */
  lemma SingleRowTable(ps: seq<Pair>)
    requires ps != [] && forall i :: 0 <= i < |ps| ==> ps[i].0 == ""
    ensures |NormalizeByRow(ps).rowLabels| == 1 && Total(NormalizeByRow(ps).percent[0]) == 100.0
  {
    SingleRowLabel(ps);
    assert NormalizeByRow(ps).rowLabels == [""];
    RowsSumTo100(ps, 0);
  }

  /**
   * `value_counts(normalize=True) * 100` of the fire-spread label over the
   * residential records whose AES_PRES is `aesPres` ("Y" with sprinklers,
   * "N" without): a table with a single row, none for an empty group.
   */
  function SpreadShares(rs: seq<Record>, aesPres: string): (r: Option<Crosstab>)
    ensures r.None? <==> Filter(Residential(rs), SprinklerCodeIs(aesPres)) == []
    ensures r.Some? ==> Shaped(r.value) && |r.value.rowLabels| == 1 && Total(r.value.percent[0]) == 100.0
  {
    var group := Filter(Residential(rs), SprinklerCodeIs(aesPres));
    if group == [] then None
    else
      var ps := SpreadPairs(group);
      SingleRowTable(ps);
      Some(NormalizeByRow(ps))
  }

  // ---------------------------------------------------------------- key findings

  function HousingHit(h: string): Record -> real {
    (r: Record) => if Field(r, "housing_type") == Some(h) then 1.0 else 0.0
  }

  function FieldIs(column: string, value: string): Record -> bool {
    (r: Record) => Field(r, column) == Some(value)
  }

  /** `len(residential[residential['housing_type'] == h])` */
  function TypeTotal(res: seq<Record>, h: string): real {
    SumOf(res, HousingHit(h))
  }

  /** The number of records of housing type `h` whose `column` is `value`. */
  function TypeCount(res: seq<Record>, h: string, column: string, value: string): real {
    SumWhere(res, FieldIs(column, value), HousingHit(h))
  }

  datatype HousingShares = HousingShares(singleFamily: real, multifamily: real)

  /**
   * The key-finding percentages: for each of single-family and multifamily,
   * the share of its residential records whose `column` is `value`,
   * computed only when both housing types have records.
   */
  function SharesOf(rs: seq<Record>, column: string, value: string): (r: Option<HousingShares>)
    ensures var res := Residential(rs);
      r.Some? <==> TypeTotal(res, "Single-family") > 0.0 && TypeTotal(res, "Multifamily") > 0.0
    ensures r.Some? ==> 0.0 <= r.value.singleFamily <= 100.0 && 0.0 <= r.value.multifamily <= 100.0
  {
    var res := Residential(rs);
    var sfTotal := TypeTotal(res, "Single-family");
    var mfTotal := TypeTotal(res, "Multifamily");
    if sfTotal > 0.0 && mfTotal > 0.0 then
      var sf := TypeCount(res, "Single-family", column, value);
      var mf := TypeCount(res, "Multifamily", column, value);
      ShareBounded(res, "Single-family", column, value);
      ShareBounded(res, "Multifamily", column, value);
      Some(HousingShares(sf / sfTotal * 100.0, mf / mfTotal * 100.0))
    else None
  }

  lemma ShareBounded(res: seq<Record>, h: string, column: string, value: string)
    requires TypeTotal(res, h) > 0.0
    ensures 0.0 <= TypeCount(res, h, column, value) / TypeTotal(res, h) * 100.0 <= 100.0
  {
    SumWhereWithinSumOf(res, FieldIs(column, value), HousingHit(h));
    var c := TypeCount(res, h, column, value);
    var n := TypeTotal(res, h);
    assert c / n <= n / n;
  }

  /** Intentional-fire (arson) shares of single-family and multifamily fires. */
  function IntentionalShares(rs: seq<Record>): Option<HousingShares> {
    SharesOf(rs, "cause_label", "Intentional")
  }

  /** Sprinkler-presence shares of single-family and multifamily fires. */
  function SprinklerShares(rs: seq<Record>): Option<HousingShares> {
    SharesOf(rs, "AES_PRES", "Y")
  }

  /** The pairs of records that all have both fields are those records' labels, in order. */
  lemma PairsOfComplete(rs: seq<Record>, rowName: string, colName: string)
    requires forall i :: 0 <= i < |rs| ==> Field(rs[i], rowName).Some? && Field(rs[i], colName).Some?
    ensures |Pairs(rs, rowName, colName)| == |rs|
    ensures forall i :: 0 <= i < |rs| ==>
      Pairs(rs, rowName, colName)[i] == (Field(rs[i], rowName).value, Field(rs[i], colName).value)
  {
    FilterKeepsEverything(rs, HasBoth(rowName, colName));
  }

  /** Counting records by housing type and field value is counting their pairs. */
  lemma CountsOfComplete(res: seq<Record>, column: string, value: string, h: string)
    requires forall i :: 0 <= i < |res| ==> Field(res[i], "housing_type").Some? && Field(res[i], column).Some?
    ensures TypeTotal(res, h) == RowCount(Pairs(res, "housing_type", column), h)
    ensures TypeCount(res, h, column, value) == CellCounts(Pairs(res, "housing_type", column), h)(value)
  {
    var ps := Pairs(res, "housing_type", column);
    PairsOfComplete(res, "housing_type", column);
    SumOfPointwise(res, ps, HousingHit(h), RowHit(h));
    SumWherePointwise(res, ps, FieldIs(column, value), HasKey(ColLabel, value), HousingHit(h), RowHit(h));
  }

  /** Arithmetic step of ShareIsTableEntry. */
  lemma ShareArithmetic(c: real, n: real)
    requires n > 0.0
    ensures c / n * 100.0 == 100.0 * c / n
  {
  }

  /**
   * When every residential record has `column`, the key-finding share of a
   * housing type is that type's entry in the residential percentage table.
   */
  lemma ShareIsTableEntry(rs: seq<Record>, column: string, value: string, h: string)
    requires forall i :: 0 <= i < |Residential(rs)| ==> Field(Residential(rs)[i], column).Some?
    requires TypeTotal(Residential(rs), h) > 0.0
    ensures TypeCount(Residential(rs), h, column, value) / TypeTotal(Residential(rs), h) * 100.0 ==
      PercentOf(Pairs(Residential(rs), "housing_type", column), h)(value)
  {
    var res := Residential(rs);
    forall i | 0 <= i < |res| ensures Field(res[i], "housing_type").Some? {
      assert res[i] in res;
    }
    CountsOfComplete(res, column, value, h);
    ShareArithmetic(TypeCount(res, h, column, value), TypeTotal(res, h));
  }

  /** After classification every record has a cause label, so the arson shares are table entries. */
  lemma IntentionalSharesMatchCauseTable(raw: seq<Record>, h: string)
    requires TypeTotal(Residential(Classified(raw)), h) > 0.0
    ensures var res := Residential(Classified(raw));
      TypeCount(res, h, "cause_label", "Intentional") / TypeTotal(res, h) * 100.0 ==
      PercentOf(Pairs(res, "housing_type", "cause_label"), h)("Intentional")
  {
    var rs := Classified(raw);
    var res := Residential(rs);
    forall i | 0 <= i < |res| ensures Field(res[i], "cause_label").Some? {
      assert res[i] in res;
      var k :| 0 <= k < |rs| && rs[k] == res[i];
    }
    ShareIsTableEntry(rs, "cause_label", "Intentional", h);
  }

  // ---------------------------------------------------------------- arson comparison

  datatype Comparison = NoComparison | TimesHigher(ratio: real) | ZeroDivision

  /**
   * The arson comparison as written: when the multifamily share exceeds
   * the single-family share, report their quotient. A single-family share of
   * zero makes that a division by zero.
   */
  function ArsonComparisonAsWritten(s: HousingShares): (r: Comparison)
    ensures r == ZeroDivision <==> s.multifamily > s.singleFamily == 0.0
    ensures r == NoComparison <==> s.multifamily <= s.singleFamily
    ensures r.TimesHigher? ==> r.ratio * s.singleFamily == s.multifamily
  {
    if s.multifamily > s.singleFamily then
      if s.singleFamily == 0.0 then ZeroDivision else TimesHigher(s.multifamily / s.singleFamily)
    else NoComparison
  }

  /**
   * The comparison as intended: a quotient is reported only when it is
   * defined, and it then says how many times higher the multifamily share is.
   */
  function ArsonComparison(s: HousingShares): (r: Comparison)
    ensures r != ZeroDivision
    ensures r.TimesHigher? <==> s.multifamily > s.singleFamily > 0.0
    ensures r.TimesHigher? ==> r.ratio > 1.0 && r.ratio * s.singleFamily == s.multifamily
  {
    if s.multifamily > s.singleFamily && s.singleFamily > 0.0 then
      var q := s.multifamily / s.singleFamily;
      assert q * s.singleFamily == s.multifamily;
      TimesHigher(q)
    else NoComparison
  }

  /** The two agree whenever the source does not divide by zero. */
  lemma ArsonComparisonAgrees(s: HousingShares)
    requires s.singleFamily >= 0.0
    requires ArsonComparisonAsWritten(s) != ZeroDivision
    ensures ArsonComparison(s) == ArsonComparisonAsWritten(s)
  {
  }

  /** A single-family fire of unintentional cause and an arson in a multifamily building. */
  const SingleFamilyAccident: Record := map["PROP_USE" := "419", "CAUSE_IGN" := "2"]
  const MultifamilyArson: Record := map["PROP_USE" := "429", "CAUSE_IGN" := "1"]

  lemma SumOfTwo<T>(xs: seq<T>, f: T -> real)
    requires |xs| == 2
    ensures SumOf(xs, f) == f(xs[0]) + f(xs[1])
  {
    var a := xs[..1];
    assert a[..0] == [] && a[0] == xs[0];
    assert SumOf(a, f) == SumOf(a[..0], f) + f(a[0]);
    assert xs[..|xs| - 1] == a;
  }

  lemma SumWhereTwo<T>(xs: seq<T>, p: T -> bool, f: T -> real)
    requires |xs| == 2
    ensures SumWhere(xs, p, f) == (if p(xs[0]) then f(xs[0]) else 0.0) + (if p(xs[1]) then f(xs[1]) else 0.0)
  {
    var a := xs[..1];
    assert a[..0] == [] && a[0] == xs[0];
    assert SumWhere(a, p, f) == SumWhere(a[..0], p, f) + (if p(a[0]) then f(a[0]) else 0.0);
    assert xs[..|xs| - 1] == a;
  }

  /** The housing type and cause label a record has after classification. */
  lemma ClassifiedFields(raw: seq<Record>, i: int)
    requires 0 <= i < |raw|
    ensures |Classified(raw)| == |raw|
    ensures Field(Classified(raw)[i], "housing_type") == Some(HousingLabel(HousingTypeOf(Field(raw[i], "PROP_USE"))))
    ensures Field(Classified(raw)[i], "cause_label") == Some(CauseLabel(Field(raw[i], "CAUSE_IGN")))
  {
    var typed := HousingTyped(raw);
    assert "housing_type" !in {"cause_label", "heat_source_category", "area_category"};
    assert Field(typed[i], "CAUSE_IGN") == Field(raw[i], "CAUSE_IGN");
  }

  /** Part of the example behind NoSingleFamilyArsonDividesByZero: the four codes it uses. */
  lemma ExampleCodes()
    ensures HousingTypeOf(Some("419")) == SingleFamily && HousingTypeOf(Some("429")) == Multifamily
    ensures CauseLabel(Some("2")) == "Unintentional" && CauseLabel(Some("1")) == "Intentional"
  {
    ExampleHousingCodes();
    ExampleCauseCodes();
  }

  lemma ExampleHousingCodes()
    ensures HousingTypeOf(Some("419")) == SingleFamily && HousingTypeOf(Some("429")) == Multifamily
  {
    StripDigits("419");
    StripDigits("429");
    assert "429" != "419" by { assert "429"[1] != "419"[1]; }
  }

  lemma ExampleCauseCodes()
    ensures CauseLabel(Some("2")) == "Unintentional" && CauseLabel(Some("1")) == "Intentional"
  {
    assert CauseIgnMap["2"] == "Unintentional" && CauseIgnMap["1"] == "Intentional";
  }

  /** The two example records after classification (the setting of NoSingleFamilyArsonDividesByZero). */
  lemma ExampleClassified()
    ensures var rs := Classified([SingleFamilyAccident, MultifamilyArson]);
      |rs| == 2 &&
      Field(rs[0], "housing_type") == Some("Single-family") && Field(rs[1], "housing_type") == Some("Multifamily") &&
      Field(rs[0], "cause_label") == Some("Unintentional") && Field(rs[1], "cause_label") == Some("Intentional")
  {
    var a, b := SingleFamilyAccident, MultifamilyArson;
    assert Field(a, "PROP_USE") == Some("419") && Field(b, "PROP_USE") == Some("429");
    assert Field(a, "CAUSE_IGN") == Some("2") && Field(b, "CAUSE_IGN") == Some("1");
    ClassifiedTwo(a, b);
  }

  /** A single-family accident followed by a multifamily arson, after classification. */
  lemma ClassifiedTwo(a: Record, b: Record)
    requires Field(a, "PROP_USE") == Some("419") && Field(b, "PROP_USE") == Some("429")
    requires Field(a, "CAUSE_IGN") == Some("2") && Field(b, "CAUSE_IGN") == Some("1")
    ensures var rs := Classified([a, b]);
      |rs| == 2 &&
      Field(rs[0], "housing_type") == Some("Single-family") && Field(rs[1], "housing_type") == Some("Multifamily") &&
      Field(rs[0], "cause_label") == Some("Unintentional") && Field(rs[1], "cause_label") == Some("Intentional")
  {
    var raw := [a, b];
    ExampleCodes();
    assert HousingLabel(SingleFamily) == "Single-family" && HousingLabel(Multifamily) == "Multifamily";
    ClassifiedAt(raw, 0, "Single-family", "Unintentional");
    ClassifiedAt(raw, 1, "Multifamily", "Intentional");
  }

  /** The labels of one record, from its property-use and cause codes. */
  lemma ClassifiedAt(raw: seq<Record>, i: int, housing: string, cause: string)
    requires 0 <= i < |raw|
    requires HousingLabel(HousingTypeOf(Field(raw[i], "PROP_USE"))) == housing
    requires CauseLabel(Field(raw[i], "CAUSE_IGN")) == cause
    ensures |Classified(raw)| == |raw|
    ensures Field(Classified(raw)[i], "housing_type") == Some(housing)
    ensures Field(Classified(raw)[i], "cause_label") == Some(cause)
  {
    ClassifiedFields(raw, i);
  }

  /**
   * With no single-family arson and some multifamily arson, the shares are
   * 0% and 100% and the comparison as written divides by zero.
   */
  lemma NoSingleFamilyArsonDividesByZero()
    ensures IntentionalShares(Classified([SingleFamilyAccident, MultifamilyArson])) == Some(HousingShares(0.0, 100.0))
    ensures ArsonComparisonAsWritten(HousingShares(0.0, 100.0)) == ZeroDivision
  {
    ExampleCounts();
    ZeroAndFullShares(Classified([SingleFamilyAccident, MultifamilyArson]));
  }

  /** One single-family record without arson and one multifamily arson record give 0% and 100%. */
  lemma ZeroAndFullShares(rs: seq<Record>)
    requires var res := Residential(rs);
      TypeTotal(res, "Single-family") == 1.0 && TypeTotal(res, "Multifamily") == 1.0 &&
      TypeCount(res, "Single-family", "cause_label", "Intentional") == 0.0 &&
      TypeCount(res, "Multifamily", "cause_label", "Intentional") == 1.0
    ensures IntentionalShares(rs) == Some(HousingShares(0.0, 100.0))
  {
    SharesFromCounts(rs, "cause_label", "Intentional");
    var res := Residential(rs);
    UnitShares(TypeCount(res, "Single-family", "cause_label", "Intentional"), TypeTotal(res, "Single-family"),
      TypeCount(res, "Multifamily", "cause_label", "Intentional"), TypeTotal(res, "Multifamily"));
  }

  /** Arithmetic step of the example behind NoSingleFamilyArsonDividesByZero. */
  lemma UnitShares(sfCount: real, sfTotal: real, mfCount: real, mfTotal: real)
    requires sfCount == 0.0 && sfTotal == 1.0 && mfCount == 1.0 && mfTotal == 1.0
    ensures sfCount / sfTotal * 100.0 == 0.0 && mfCount / mfTotal * 100.0 == 100.0
  {
  }

  /** The shares are the counts over the totals, when both totals are positive. */
  lemma SharesFromCounts(rs: seq<Record>, column: string, value: string)
    requires TypeTotal(Residential(rs), "Single-family") > 0.0 && TypeTotal(Residential(rs), "Multifamily") > 0.0
    ensures var res := Residential(rs);
      SharesOf(rs, column, value) == Some(HousingShares(
        TypeCount(res, "Single-family", column, value) / TypeTotal(res, "Single-family") * 100.0,
        TypeCount(res, "Multifamily", column, value) / TypeTotal(res, "Multifamily") * 100.0))
  {
  }

  /** The example of NoSingleFamilyArsonDividesByZero has one single-family and one multifamily record, and only the latter is arson. */
  lemma ExampleCounts()
    ensures var res := Residential(Classified([SingleFamilyAccident, MultifamilyArson]));
      TypeTotal(res, "Single-family") == 1.0 && TypeTotal(res, "Multifamily") == 1.0 &&
      TypeCount(res, "Single-family", "cause_label", "Intentional") == 0.0 &&
      TypeCount(res, "Multifamily", "cause_label", "Intentional") == 1.0
  {
    ExampleClassified();
    ResidentialTwoCounts(Classified([SingleFamilyAccident, MultifamilyArson]));
  }

  /** Both records of the pair are residential, so the counts are those of the pair. */
  lemma ResidentialTwoCounts(rs: seq<Record>)
    requires |rs| == 2
    requires Field(rs[0], "housing_type") == Some("Single-family") && Field(rs[1], "housing_type") == Some("Multifamily")
    requires Field(rs[0], "cause_label") == Some("Unintentional") && Field(rs[1], "cause_label") == Some("Intentional")
    ensures var res := Residential(rs);
      TypeTotal(res, "Single-family") == 1.0 && TypeTotal(res, "Multifamily") == 1.0 &&
      TypeCount(res, "Single-family", "cause_label", "Intentional") == 0.0 &&
      TypeCount(res, "Multifamily", "cause_label", "Intentional") == 1.0
  {
    assert IsResidential(rs[0]) && IsResidential(rs[1]);
    FilterKeepsEverything(rs, IsResidential);
    TwoRecordCounts(rs);
  }

  /** The counts of a single-family accident followed by a multifamily arson. */
  lemma TwoRecordCounts(rs: seq<Record>)
    requires |rs| == 2
    requires Field(rs[0], "housing_type") == Some("Single-family") && Field(rs[1], "housing_type") == Some("Multifamily")
    requires Field(rs[0], "cause_label") == Some("Unintentional") && Field(rs[1], "cause_label") == Some("Intentional")
    ensures TypeTotal(rs, "Single-family") == 1.0 && TypeTotal(rs, "Multifamily") == 1.0
    ensures TypeCount(rs, "Single-family", "cause_label", "Intentional") == 0.0
    ensures TypeCount(rs, "Multifamily", "cause_label", "Intentional") == 1.0
  {
    assert "Single-family" != "Multifamily" by { assert "Single-family"[0] != "Multifamily"[0]; }
    assert "Unintentional" != "Intentional" by { assert "Unintentional"[0] != "Intentional"[0]; }
    SumOfTwo(rs, HousingHit("Single-family"));
    SumOfTwo(rs, HousingHit("Multifamily"));
    SumWhereTwo(rs, FieldIs("cause_label", "Intentional"), HousingHit("Single-family"));
    SumWhereTwo(rs, FieldIs("cause_label", "Intentional"), HousingHit("Multifamily"));
  }
}
