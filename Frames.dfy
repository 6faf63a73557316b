/** The part of a pandas DataFrame the box-score pipeline relies on: named
    columns of equal length, each holding Python values. */
module Frames {
  /** A cell: Python's None, a float NaN (what pandas puts where a row has no
      value for a column), an int, a float, or a str. */
  datatype Value = Absent | NaN | Int(i: int) | Num(x: real) | Str(s: string)

  predicate IsNumber(v: Value) { v.Int? || v.Num? }

  /** Column-major storage: `n` rows, each column a sequence of cells. */
  datatype Frame = Frame(n: nat, data: map<string, seq<Value>>)

  predicate Rect(f: Frame) { forall c :: c in f.data ==> |f.data[c]| == f.n }

  type Table = f: Frame | Rect(f) witness Frame(0, map[])

  /** `pd.DataFrame()`: no rows and no columns. */
  function Empty(): (t: Table)
    ensures t.n == 0 && t.data.Keys == {}
  {
    Frame(0, map[])
  }

  /** One column as `concat` sees it: the column itself, or NaN throughout
      when the frame does not have it. */
  function ColumnOrNaN(t: Table, c: string): (col: seq<Value>)
    ensures |col| == t.n
    ensures c in t.data ==> col == t.data[c]
    ensures c !in t.data ==> forall i :: 0 <= i < t.n ==> col[i] == NaN
  {
    if c in t.data then t.data[c] else seq(t.n, _ => NaN)
  }

  /** `pd.concat([a, b])`: the rows of `a` then the rows of `b`, over the
      union of their columns, NaN where a frame lacks a column. */
  function Concat(a: Table, b: Table): (r: Table)
    ensures r.n == a.n + b.n
    ensures r.data.Keys == a.data.Keys + b.data.Keys
    ensures forall c :: c in r.data ==>
      r.data[c][..a.n] == ColumnOrNaN(a, c) && r.data[c][a.n..] == ColumnOrNaN(b, c)
  {
    var data := map c | c in a.data.Keys + b.data.Keys :: ColumnOrNaN(a, c) + ColumnOrNaN(b, c);
    assert forall c :: c in data ==> data[c][..a.n] == ColumnOrNaN(a, c) && data[c][a.n..] == ColumnOrNaN(b, c);
    Frame(a.n + b.n, data)
  }

  /** `t[c] = col`: column `c` replaced, or added if it is new. */
  function SetColumn(t: Table, c: string, col: seq<Value>): (r: Table)
    requires |col| == t.n
    ensures r.n == t.n && r.data == t.data[c := col]
  {
    Frame(t.n, t.data[c := col])
  }

  /** `t[c] = v`: column `c` set to `v` on every row, added if it is new. */
  function Stamp(t: Table, c: string, v: Value): (r: Table)
    ensures r.n == t.n
    ensures r.data.Keys == t.data.Keys + {c}
    ensures forall i :: 0 <= i < r.n ==> r.data[c][i] == v
    ensures forall d :: d in t.data && d != c ==> r.data[d] == t.data[d]
  {
    SetColumn(t, c, seq(t.n, _ => v))
  }

  /** Every column of a concatenation, present or not, is the first frame's
      column followed by the second's. */
  lemma ConcatColumn(a: Table, b: Table, c: string)
    ensures ColumnOrNaN(Concat(a, b), c) == ColumnOrNaN(a, c) + ColumnOrNaN(b, c)
  {
    var r := Concat(a, b);
    if c in r.data {
      assert r.data[c] == r.data[c][..a.n] + r.data[c][a.n..];
    }
  }

  /** Concatenating onto the empty frame gives the frame back. */
  lemma ConcatEmpty(b: Table)
    ensures Concat(Empty(), b) == b
  {
    var r := Concat(Empty(), b);
    forall c | c in r.data ensures r.data[c] == b.data[c] {
      assert r.data[c] == r.data[c][..0] + r.data[c][0..];
    }
  }
}
