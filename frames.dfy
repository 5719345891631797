/**
 * A data frame as the scripts use it: an ordered list of column names and
 * rows of cells, one cell per column. A column is addressed by name; when a
 * name occurs twice the first column of that name is the one read and written.
 */
module Frames {
  import opened Wrappers
  import opened Text
  import opened Columns

  /** One cell: missing (NaN/None), a string, a number or a boolean. */
  datatype Cell = Null | Str(s: string) | Num(x: real) | Flag(b: bool)

  type Row = seq<Cell>

  datatype Table = Table(columns: seq<string>, rows: seq<Row>)

  /** Every row has one cell per column. */
  predicate Rectangular(t: Table) {
    forall i :: 0 <= i < |t.rows| ==> |t.rows[i]| == |t.columns|
  }

  /** Position of the first column called `name`. */
  function ColumnIndex(columns: seq<string>, name: string): (r: Option<nat>)
    ensures r.Some? ==> r.value < |columns| && columns[r.value] == name
    ensures r.Some? ==> forall j :: 0 <= j < r.value ==> columns[j] != name
    ensures r.None? <==> name !in columns
  {
    FirstWhere(columns, c => c == name)
  }

  /** Column `k` is the first one carrying its name, so it is the one `df[name]` addresses. */
  predicate Addressed(columns: seq<string>, k: int)
    requires 0 <= k < |columns|
  {
    forall j :: 0 <= j < k ==> columns[j] != columns[k]
  }

  lemma AddressedIndex(columns: seq<string>, k: int)
    requires 0 <= k < |columns| && Addressed(columns, k)
    ensures ColumnIndex(columns, columns[k]) == Some(k)
  {
  }

  /** `row[name]`; None when the frame has no such column (pandas raises KeyError). */
  function Get(columns: seq<string>, row: Row, name: string): (r: Option<Cell>)
    ensures |row| == |columns| ==> (r.Some? <==> name in columns)
    ensures r.Some? ==> r.value in row
  {
    match ColumnIndex(columns, name)
    case Some(k) => if k < |row| then Some(row[k]) else None
    case None => None
  }

  /** The cell under `name`, missing when there is no such column. */
  function Lookup(columns: seq<string>, row: Row, name: string): Cell {
    Get(columns, row, name).GetOr(Null)
  }

  /** The cells of one column, top to bottom (all missing when there is no such column). */
  function ColumnCells(t: Table, name: string): (r: seq<Cell>)
    ensures |r| == |t.rows|
    ensures forall i :: 0 <= i < |t.rows| ==> r[i] == Lookup(t.columns, t.rows[i], name)
  {
    seq(|t.rows|, i requires 0 <= i < |t.rows| => Lookup(t.columns, t.rows[i], name))
  }

  /** `row[name] = v`: overwrites the addressed column, or appends a new one (see WithColumn). */
  function Put(columns: seq<string>, row: Row, name: string, v: Cell): (r: Row)
    requires |row| == |columns|
    ensures |r| == |WithColumn(columns, name)|
    ensures Get(WithColumn(columns, name), r, name) == Some(v)
    ensures forall other :: other != name ==>
              Get(WithColumn(columns, name), r, other) == Get(columns, row, other)
  {
    match ColumnIndex(columns, name)
    case Some(k) => row[k := v]
    case None =>
      var cols' := columns + [name];
      forall other | other != name
        ensures Get(cols', row + [v], other) == Get(columns, row, other)
      {
        PrefixIndex(columns, name, other);
      }
      row + [v]
  }

  lemma PrefixIndex(columns: seq<string>, name: string, other: string)
    requires other != name
    ensures ColumnIndex(columns + [name], other) == ColumnIndex(columns, other)
  {
    var b := ColumnIndex(columns, other);
    if b.Some? {
      AddressedIndex(columns + [name], b.value);
    }
  }

  /** `pd.to_numeric(value, errors='coerce')` on one cell. */
  function ToNumericCell(c: Cell): (r: Cell)
    ensures r.Null? || r.Num?
    ensures c.Num? ==> r == c
    ensures c.Null? ==> r.Null?
  {
    match c
    case Null => Null
    case Num(x) => Num(x)
    case Flag(b) => Num(if b then 1.0 else 0.0)
    case Str(s) =>
      match ParseNumber(s)
      case Some(x) => Num(x)
      case None => Null
  }

  /** The cell as an optional number: what arithmetic on the column sees. */
  function NumberOf(c: Cell): (r: Option<real>)
    ensures c.Num? <==> r.Some?
  {
    if c.Num? then Some(c.x) else None
  }

  /**
   * `astype(str)` of one cell. A missing cell renders as "nan"; a number that is
   * integral renders as an int64 column does. A non-integral number renders
   * with at most six decimals.
   */
  function CellText(c: Cell): string {
    match c
    case Null => "nan"
    case Str(s) => s
    case Flag(b) => if b then "True" else "False"
    case Num(x) => NumberText(x)
  }

  function NumberText(x: real): string {
    if x == x.Floor as real then IntText(x.Floor)
    else
      var ax := if x < 0.0 then -x else x;
      var d := ((ax - ax.Floor as real) * 1000000.0).Floor;
      var decimals := TrimEndIn(ZFill(NatText(d), 6), {'0'});
      (if x < 0.0 then "-" else "") + NatText(ax.Floor) + "." + (if decimals == "" then "0" else decimals)
  }

  /** A whole number survives `astype(str)` followed by `pd.to_numeric`. */
  lemma CellTextNumber(n: nat)
    ensures CellText(Num(n as real)) == NatText(n)
    ensures ToNumericCell(Str(CellText(Num(n as real)))) == Num(n as real)
  {
    assert (n as real).Floor == n;
    ParseNatText(n);
  }

  /** After the conversion loop cell `k` of a row has been converted iff this holds. */
  predicate Converted(columns: seq<string>, names: seq<string>, k: int)
    requires 0 <= k < |columns|
  {
    Addressed(columns, k) && columns[k] in names
  }

  /** The column addressed by `names[n]` is converted once the loop has passed `n`. */
  lemma ConvertedNow(columns: seq<string>, names: seq<string>, n: nat, k0: nat)
    requires n < |names| && ColumnIndex(columns, names[n]) == Some(k0)
    ensures Converted(columns, names[..n + 1], k0)
  {
    assert names[n] == names[..n + 1][n];
  }

  /** Any other column is converted after step `n` exactly when it was before. */
  lemma ConvertedUnchanged(columns: seq<string>, names: seq<string>, n: nat, k: nat)
    requires n < |names| && k < |columns| && ColumnIndex(columns, names[n]) != Some(k)
    ensures Converted(columns, names[..n + 1], k) == Converted(columns, names[..n], k)
  {
    assert names[..n + 1] == names[..n] + [names[n]];
    if Addressed(columns, k) && columns[k] == names[n] {
      AddressedIndex(columns, k);
    }
  }

  function NumericColumns(t: Table, names: seq<string>): (u: Table)
    requires Rectangular(t)
    ensures u.columns == t.columns && |u.rows| == |t.rows| && Rectangular(u)
    ensures forall i, k :: 0 <= i < |t.rows| && 0 <= k < |t.columns| ==>
              u.rows[i][k] == (if Converted(t.columns, names, k) then ToNumericCell(t.rows[i][k]) else t.rows[i][k])
  {
    Table(t.columns, seq(|t.rows|, i requires 0 <= i < |t.rows| =>
      seq(|t.columns|, k requires 0 <= k < |t.columns| =>
        if Converted(t.columns, names, k) then ToNumericCell(t.rows[i][k]) else t.rows[i][k])))
  }

  /**
   * `for col in names: if col in df.columns: df[col] = pd.to_numeric(df[col], errors='coerce')`
   */
  method ConvertToNumeric(t: Table, names: seq<string>) returns (u: Table)
    requires Rectangular(t)
    ensures u.columns == t.columns && |u.rows| == |t.rows| && Rectangular(u)
    ensures forall i, k :: 0 <= i < |t.rows| && 0 <= k < |t.columns| ==>
              u.rows[i][k] == (if Converted(t.columns, names, k) then ToNumericCell(t.rows[i][k]) else t.rows[i][k])
    ensures u == NumericColumns(t, names)
  {
    u := t;
    var n := 0;
    while n < |names|
      invariant 0 <= n <= |names|
      invariant u.columns == t.columns && |u.rows| == |t.rows| && Rectangular(u)
      invariant forall i, k :: 0 <= i < |t.rows| && 0 <= k < |t.columns| ==>
                  u.rows[i][k] == (if Converted(t.columns, names[..n], k) then ToNumericCell(t.rows[i][k]) else t.rows[i][k])
    {
      var col := names[n];
      var idx := ColumnIndex(u.columns, col);
      if idx.Some? {
        var k0 := idx.value;
        var prev := u.rows;
        u := Table(u.columns, seq(|prev|, i requires 0 <= i < |prev| => prev[i][k0 := ToNumericCell(prev[i][k0])]));
        forall i, k | 0 <= i < |t.rows| && 0 <= k < |t.columns|
          ensures u.rows[i][k] == (if Converted(t.columns, names[..n + 1], k) then ToNumericCell(t.rows[i][k]) else t.rows[i][k])
        {
          assert u.rows[i] == prev[i][k0 := ToNumericCell(prev[i][k0])];
          assert prev[i][k] == (if Converted(t.columns, names[..n], k) then ToNumericCell(t.rows[i][k]) else t.rows[i][k]);
          if k == k0 {
            ConvertedNow(t.columns, names, n, k0);
            assert ToNumericCell(ToNumericCell(t.rows[i][k])) == ToNumericCell(t.rows[i][k]);
          } else {
            ConvertedUnchanged(t.columns, names, n, k);
          }
        }
      } else {
        forall i, k | 0 <= i < |t.rows| && 0 <= k < |t.columns|
          ensures u.rows[i][k] == (if Converted(t.columns, names[..n + 1], k) then ToNumericCell(t.rows[i][k]) else t.rows[i][k])
        {
          ConvertedUnchanged(t.columns, names, n, k);
        }
      }
      n := n + 1;
    }
    assert names[..n] == names;
    var spec := NumericColumns(t, names);
    forall i | 0 <= i < |t.rows| ensures u.rows[i] == spec.rows[i] {
      assert |u.rows[i]| == |spec.rows[i]|;
    }
  }

  /** Replace a missing cell by a number (`fillna(d)`). */
  function FillCell(c: Cell, d: real): (r: Cell)
    ensures !r.Null?
    ensures !c.Null? ==> r == c
  {
    if c.Null? then Num(d) else c
  }

  function FilledColumns(t: Table, names: seq<string>, d: real): (u: Table)
    requires Rectangular(t)
    ensures u.columns == t.columns && |u.rows| == |t.rows| && Rectangular(u)
    ensures forall i, k :: 0 <= i < |t.rows| && 0 <= k < |t.columns| ==>
              u.rows[i][k] == (if Converted(t.columns, names, k) then FillCell(t.rows[i][k], d) else t.rows[i][k])
  {
    Table(t.columns, seq(|t.rows|, i requires 0 <= i < |t.rows| =>
      seq(|t.columns|, k requires 0 <= k < |t.columns| =>
        if Converted(t.columns, names, k) then FillCell(t.rows[i][k], d) else t.rows[i][k])))
  }

  /** `for col in names: if col in df.columns: df[col] = df[col].fillna(d)` */
  method FillMissing(t: Table, names: seq<string>, d: real) returns (u: Table)
    requires Rectangular(t)
    ensures u.columns == t.columns && |u.rows| == |t.rows| && Rectangular(u)
    ensures forall i, k :: 0 <= i < |t.rows| && 0 <= k < |t.columns| ==>
              u.rows[i][k] == (if Converted(t.columns, names, k) then FillCell(t.rows[i][k], d) else t.rows[i][k])
    ensures u == FilledColumns(t, names, d)
  {
    u := t;
    var n := 0;
    while n < |names|
      invariant 0 <= n <= |names|
      invariant u.columns == t.columns && |u.rows| == |t.rows| && Rectangular(u)
      invariant forall i, k :: 0 <= i < |t.rows| && 0 <= k < |t.columns| ==>
                  u.rows[i][k] == (if Converted(t.columns, names[..n], k) then FillCell(t.rows[i][k], d) else t.rows[i][k])
    {
      var col := names[n];
      var idx := ColumnIndex(u.columns, col);
      if idx.Some? {
        var k0 := idx.value;
        var prev := u.rows;
        u := Table(u.columns, seq(|prev|, i requires 0 <= i < |prev| => prev[i][k0 := FillCell(prev[i][k0], d)]));
        forall i, k | 0 <= i < |t.rows| && 0 <= k < |t.columns|
          ensures u.rows[i][k] == (if Converted(t.columns, names[..n + 1], k) then FillCell(t.rows[i][k], d) else t.rows[i][k])
        {
          assert names[..n + 1] == names[..n] + [col];
          assert u.rows[i] == prev[i][k0 := FillCell(prev[i][k0], d)];
          var before := prev[i][k];
          assert before == (if Converted(t.columns, names[..n], k) then FillCell(t.rows[i][k], d) else t.rows[i][k]);
          if k == k0 {
            assert Addressed(t.columns, k);
            assert col in names[..n + 1];
          } else {
            if t.columns[k] == col {
              assert !Addressed(t.columns, k) by { assert t.columns[k0] == t.columns[k]; }
            }
            assert Converted(t.columns, names[..n + 1], k) == Converted(t.columns, names[..n], k);
          }
        }
      } else {
        forall i, k | 0 <= i < |t.rows| && 0 <= k < |t.columns|
          ensures u.rows[i][k] == (if Converted(t.columns, names[..n + 1], k) then FillCell(t.rows[i][k], d) else t.rows[i][k])
        {
          assert names[..n + 1] == names[..n] + [col];
          assert t.columns[k] in t.columns;
          assert Converted(t.columns, names[..n + 1], k) == Converted(t.columns, names[..n], k);
        }
      }
      n := n + 1;
    }
    assert names[..n] == names;
    var spec := FilledColumns(t, names, d);
    forall i | 0 <= i < |t.rows| ensures u.rows[i] == spec.rows[i] {
      assert |u.rows[i]| == |spec.rows[i]|;
    }
  }

  /** `df[name] = f(row)` for every row. */
  function AddColumn(t: Table, name: string, f: Row -> Cell): (u: Table)
    requires Rectangular(t)
    ensures u.columns == WithColumn(t.columns, name) && |u.rows| == |t.rows| && Rectangular(u)
    ensures forall i :: 0 <= i < |t.rows| ==> Get(u.columns, u.rows[i], name) == Some(f(t.rows[i]))
    ensures forall i, other :: 0 <= i < |t.rows| && other != name ==>
              Get(u.columns, u.rows[i], other) == Get(t.columns, t.rows[i], other)
  {
    Table(WithColumn(t.columns, name),
          seq(|t.rows|, i requires 0 <= i < |t.rows| => Put(t.columns, t.rows[i], name, f(t.rows[i]))))
  }

  /** `df[name] = df[source].map(g)` */
  function Derive(t: Table, name: string, source: string, g: Cell -> Cell): (u: Table)
    requires Rectangular(t)
    ensures u.columns == WithColumn(t.columns, name) && |u.rows| == |t.rows| && Rectangular(u)
    ensures forall i :: 0 <= i < |t.rows| ==>
              Lookup(u.columns, u.rows[i], name) == g(Lookup(t.columns, t.rows[i], source))
    ensures forall i, other :: 0 <= i < |t.rows| && other != name ==>
              Get(u.columns, u.rows[i], other) == Get(t.columns, t.rows[i], other)
  {
    var cols := t.columns;
    AddColumn(t, name, r => g(Lookup(cols, r, source)))
  }

  /** Deriving one column leaves a given other column of a given row as it was. */
  lemma DeriveKeeps(t: Table, name: string, source: string, g: Cell -> Cell, i: int, other: string)
    requires Rectangular(t) && 0 <= i < |t.rows| && other != name
    ensures |Derive(t, name, source, g).rows| == |t.rows|
    ensures Get(Derive(t, name, source, g).columns, Derive(t, name, source, g).rows[i], other) ==
            Get(t.columns, t.rows[i], other)
  {
  }
}
