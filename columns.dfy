/**
 * Column detection. The scripts pick a column by scanning a list of names and
 * stopping at the first one that qualifies (`for col in ...: if ...: break`):
 * either the first of several candidate spellings that exists, or the first
 * column whose lower-cased name contains a given word.
 */
module Columns {
  import opened Wrappers
  import opened Text

  /** Index of the first element satisfying `p`, or None. */
  function FirstWhere<T>(xs: seq<T>, p: T -> bool): (r: Option<nat>)
    ensures r.Some? ==> r.value < |xs| && p(xs[r.value])
    ensures r.Some? ==> forall j :: 0 <= j < r.value ==> !p(xs[j])
    ensures r.None? ==> forall j :: 0 <= j < |xs| ==> !p(xs[j])
    decreases |xs|
  {
    if xs == [] then None
    else if p(xs[0]) then Some(0)
    else
      match FirstWhere(xs[1..], p)
      case Some(k) => Some(k + 1)
      case None => None
  }

  /** The scan with `break`, as the scripts write it. */
  method FindFirstWhere<T>(xs: seq<T>, p: T -> bool) returns (found: Option<nat>)
    ensures found == FirstWhere(xs, p)
  {
    found := None;
    var i := 0;
    while i < |xs|
      invariant 0 <= i <= |xs|
      invariant forall j :: 0 <= j < i ==> !p(xs[j])
    {
      if p(xs[i]) {
        found := Some(i);
        break;
      }
      i := i + 1;
    }
  }

  /** The first of `candidates` that is one of `columns`. */
  function FirstPresent(candidates: seq<string>, columns: seq<string>): (r: Option<string>)
    ensures r.Some? ==> r.value in columns
    ensures r.Some? ==> exists k :: 0 <= k < |candidates| && candidates[k] == r.value &&
                                  forall j :: 0 <= j < k ==> candidates[j] !in columns
    ensures r.None? <==> forall k :: 0 <= k < |candidates| ==> candidates[k] !in columns
  {
    match FirstWhere(candidates, c => c in columns)
    case Some(k) => Some(candidates[k])
    case None => None
  }

  /** `for col in candidates: if col in df.columns: found = col; break` */
  method FindFirstPresent(candidates: seq<string>, columns: seq<string>) returns (found: Option<string>)
    ensures found == FirstPresent(candidates, columns)
  {
    var k := FindFirstWhere(candidates, c => c in columns);
    found := if k.Some? then Some(candidates[k.value]) else None;
  }

  /** The lower-cased column name contains one of `words`. */
  predicate Mentions(name: string, words: seq<string>) {
    exists w :: w in words && Contains(Lower(name), w)
  }

  /** The first column whose lower-cased name contains one of `words`. */
  function FirstMentioning(columns: seq<string>, words: seq<string>): (r: Option<string>)
    ensures r.Some? ==> r.value in columns && Mentions(r.value, words)
    ensures r.Some? ==> exists k :: 0 <= k < |columns| && columns[k] == r.value &&
                                  forall j :: 0 <= j < k ==> !Mentions(columns[j], words)
    ensures r.None? <==> forall k :: 0 <= k < |columns| ==> !Mentions(columns[k], words)
  {
    match FirstWhere(columns, c => Mentions(c, words))
    case Some(k) => Some(columns[k])
    case None => None
  }

  /** `for col in df.columns: if 'word' in col.lower(): found = col; break` */
  method FindFirstMentioning(columns: seq<string>, words: seq<string>) returns (found: Option<string>)
    ensures found == FirstMentioning(columns, words)
  {
    var k := FindFirstWhere(columns, c => Mentions(c, words));
    found := if k.Some? then Some(columns[k.value]) else None;
  }

  /** A column added with `df[name] = ...`: overwritten in place if present, appended otherwise. */
  function WithColumn(columns: seq<string>, name: string): (r: seq<string>)
    ensures name in r
    ensures forall c :: c in columns ==> c in r
    ensures forall c :: c in r ==> c in columns || c == name
    ensures name in columns ==> r == columns
  {
    if name in columns then columns else columns + [name]
  }
}
