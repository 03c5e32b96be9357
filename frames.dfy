/** A row-oriented view of a pandas DataFrame: ordered column names and one map per row. */
module Frames {

  /** A cell: NaN/None, a number or a string. */
  datatype Cell = Missing | Num(x: real) | Text(s: string)

  type Row = map<string, Cell>

  datatype Frame = Frame(columns: seq<string>, rows: seq<Row>)

  predicate Distinct<T(==)>(s: seq<T>)
  {
    forall i, j :: 0 <= i < j < |s| ==> s[i] != s[j]
  }

  /** Distinct column names and every row holding exactly those columns. */
  predicate WellFormed(f: Frame)
  {
    && Distinct(f.columns)
    && forall r :: r in f.rows ==> r.Keys == set c | c in f.columns
  }

  /** `DataFrame.empty`: true when either axis has length zero. */
  predicate IsEmpty(f: Frame)
  {
    |f.columns| == 0 || |f.rows| == 0
  }

  /** `pd.DataFrame()`. */
  const EmptyFrame := Frame([], [])

  function CellOf(r: Row, name: string): Cell
  {
    if name in r then r[name] else Missing
  }

  /** `data[name]`, one cell per row. */
  function Column(f: Frame, name: string): (c: seq<Cell>)
    ensures |c| == |f.rows|
    ensures forall i :: 0 <= i < |f.rows| ==> c[i] == CellOf(f.rows[i], name)
  {
    seq(|f.rows|, i requires 0 <= i < |f.rows| => CellOf(f.rows[i], name))
  }

  /** `data[name] = value` with a scalar: the column is overwritten in place when it
      exists and appended after the others when it does not. */
  function SetColumn(f: Frame, name: string, value: Cell): (g: Frame)
    ensures |g.rows| == |f.rows|
    ensures g.columns == if name in f.columns then f.columns else f.columns + [name]
    ensures WellFormed(f) ==> WellFormed(g)
    ensures forall i :: 0 <= i < |g.rows| ==> CellOf(g.rows[i], name) == value
    ensures forall c :: c != name ==> Column(g, c) == Column(f, c)
  {
    var columns := if name in f.columns then f.columns else f.columns + [name];
    var rows := seq(|f.rows|, i requires 0 <= i < |f.rows| => f.rows[i][name := value]);
    var g := Frame(columns, rows);
    assert forall c :: c != name ==> Column(g, c) == Column(f, c) by {
      forall c | c != name ensures Column(g, c) == Column(f, c) {
        assert forall i :: 0 <= i < |f.rows| ==> CellOf(rows[i], c) == CellOf(f.rows[i], c);
      }
    }
    g
  }
}
