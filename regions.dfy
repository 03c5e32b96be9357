/** `aggregate_regional_data` of src/data_processor.py: one frame per distinct region value.
    A missing region (NaN) is kept by `unique()`, but `==` never matches NaN, so its group
    is empty. */
module Regions {
  import opened Wrappers
  import opened Frames

  /** `Series.unique()`: the distinct values in order of first appearance. */
  function Unique(s: seq<Cell>): (u: seq<Cell>)
    ensures Distinct(u)
    ensures forall x :: x in u <==> x in s
  {
    if s == [] then []
    else
      var init := s[..|s| - 1];
      var x := s[|s| - 1];
      var u := Unique(init);
      assert forall y :: y in s <==> y in init || y == x;
      if x in init then u else u + [x]
  }

  /** The position of the first occurrence of `x`. */
  function FirstIndex(s: seq<Cell>, x: Cell): (i: nat)
    requires x in s
    ensures i < |s| && s[i] == x && forall j :: 0 <= j < i ==> s[j] != x
  {
    if s[0] == x then 0 else 1 + FirstIndex(s[1..], x)
  }

  /** Appending a value does not move the first occurrence of an earlier one. */
  lemma FirstIndexExtend(init: seq<Cell>, x: Cell, y: Cell)
    requires y in init
    ensures FirstIndex(init + [x], y) == FirstIndex(init, y)
  {
    var s := init + [x];
    var k := FirstIndex(init, y);
    assert s[k] == y;
    assert forall j :: 0 <= j < k ==> s[j] == init[j];
  }

  /** The values of `u` come in the order of their first occurrence in `s`. */
  predicate OrderedByFirst(s: seq<Cell>, u: seq<Cell>)
    requires forall y :: y in u ==> y in s
  {
    forall i, j :: 0 <= i < j < |u| ==> FirstIndex(s, u[i]) < FirstIndex(s, u[j])
  }

  lemma OrderedExtend(init: seq<Cell>, x: Cell, u: seq<Cell>)
    requires forall y :: y in u ==> y in init
    requires OrderedByFirst(init, u)
    ensures OrderedByFirst(init + [x], u)
  {
    forall i | 0 <= i < |u|
      ensures FirstIndex(init + [x], u[i]) == FirstIndex(init, u[i])
    {
      FirstIndexExtend(init, x, u[i]);
    }
  }

  lemma OrderedAppendNew(init: seq<Cell>, x: Cell, u: seq<Cell>)
    requires forall y :: y in u ==> y in init
    requires x !in init
    requires OrderedByFirst(init + [x], u)
    ensures OrderedByFirst(init + [x], u + [x])
  {
    var s := init + [x];
    assert FirstIndex(s, x) == |init| by {
      assert forall j :: 0 <= j < |init| ==> s[j] == init[j];
    }
    forall i | 0 <= i < |u|
      ensures FirstIndex(s, u[i]) < |init|
    {
      FirstIndexExtend(init, x, u[i]);
    }
  }

  /** The values of `unique()` come in the order of their first appearance. */
  lemma {:induction false} UniqueInFirstAppearanceOrder(s: seq<Cell>)
    ensures OrderedByFirst(s, Unique(s))
  {
    if s != [] {
      var init := s[..|s| - 1];
      var x := s[|s| - 1];
      assert s == init + [x];
      UniqueInFirstAppearanceOrder(init);
      OrderedExtend(init, x, Unique(init));
      if x !in init {
        OrderedAppendNew(init, x, Unique(init));
      }
    }
  }

  /** `data[col] == key`: NaN never compares equal, not even to itself. */
  predicate SameRegion(c: Cell, key: Cell)
  {
    c == key && !key.Missing?
  }

  /** The rows of one region, in input order. */
  function GroupRows(rows: seq<Row>, col: string, key: Cell): (g: seq<Row>)
    ensures forall r :: r in g ==> r in rows && SameRegion(CellOf(r, col), key)
  {
    if rows == [] then []
    else
      var init := rows[..|rows| - 1];
      var row := rows[|rows| - 1];
      var g := GroupRows(init, col, key);
      if SameRegion(CellOf(row, col), key) then g + [row] else g
  }

  /** Grouping distributes over concatenation: each group keeps the input order. */
  lemma {:induction false} GroupRowsAppend(a: seq<Row>, b: seq<Row>, col: string, key: Cell)
    ensures GroupRows(a + b, col, key) == GroupRows(a, col, key) + GroupRows(b, col, key)
  {
    if b == [] {
      assert a + b == a;
    } else {
      var initB := b[..|b| - 1];
      assert (a + b)[..|a + b| - 1] == a + initB;
      GroupRowsAppend(a, initB, col, key);
    }
  }

  /** Every row with a region lands in the group of that region. */
  lemma {:induction false} RowInItsGroup(rows: seq<Row>, col: string, i: nat)
    requires i < |rows| && !CellOf(rows[i], col).Missing?
    ensures rows[i] in GroupRows(rows, col, CellOf(rows[i], col))
  {
    var key := CellOf(rows[i], col);
    var init := rows[..|rows| - 1];
    if i < |rows| - 1 {
      RowInItsGroup(init, col, i);
    }
  }

  /** The region column over plain rows. */
  function RegionColumn(rows: seq<Row>, col: string): (c: seq<Cell>)
    ensures |c| == |rows| && forall i :: 0 <= i < |rows| ==> c[i] == CellOf(rows[i], col)
  {
    seq(|rows|, i requires 0 <= i < |rows| => CellOf(rows[i], col))
  }

  function CountMissingRegion(rows: seq<Row>, col: string): nat
  {
    if rows == [] then 0
    else CountMissingRegion(rows[..|rows| - 1], col) + (if CellOf(rows[|rows| - 1], col).Missing? then 1 else 0)
  }

  /** The total size of the groups of the given keys. */
  function GroupSizes(rows: seq<Row>, col: string, keys: seq<Cell>): nat
  {
    if keys == [] then 0
    else GroupSizes(rows, col, keys[..|keys| - 1]) + |GroupRows(rows, col, keys[|keys| - 1])|
  }

  /** How many of the keys a region value matches. */
  function Hits(keys: seq<Cell>, c: Cell): nat
  {
    if keys == [] then 0
    else Hits(keys[..|keys| - 1], c) + (if SameRegion(c, keys[|keys| - 1]) then 1 else 0)
  }

  lemma {:induction false} GroupSizesStep(init: seq<Row>, row: Row, col: string, keys: seq<Cell>)
    ensures GroupSizes(init + [row], col, keys) == GroupSizes(init, col, keys) + Hits(keys, CellOf(row, col))
  {
    if keys != [] {
      GroupSizesStep(init, row, col, keys[..|keys| - 1]);
      assert (init + [row])[..|init + [row]| - 1] == init;
    }
  }

  lemma {:induction false} HitsCount(keys: seq<Cell>, c: Cell)
    requires Distinct(keys)
    ensures Hits(keys, c) == if c in keys && !c.Missing? then 1 else 0
  {
    if keys != [] {
      var init := keys[..|keys| - 1];
      assert Distinct(init);
      HitsCount(init, c);
      assert forall y :: y in keys <==> y in init || y == keys[|keys| - 1];
    }
  }

  lemma {:induction false} GroupOfAbsent(rows: seq<Row>, col: string, key: Cell)
    requires key !in RegionColumn(rows, col)
    ensures GroupRows(rows, col, key) == []
  {
    if rows != [] {
      var init := rows[..|rows| - 1];
      var c := RegionColumn(rows, col);
      assert c[|rows| - 1] == CellOf(rows[|rows| - 1], col);
      assert RegionColumn(init, col) == c[..|rows| - 1];
      GroupOfAbsent(init, col, key);
    }
  }

  /** The groups together hold every row whose region is present, each exactly once. */
  lemma {:induction false} GroupsCoverRows(rows: seq<Row>, col: string)
    ensures GroupSizes(rows, col, Unique(RegionColumn(rows, col))) + CountMissingRegion(rows, col) == |rows|
  {
    if rows != [] {
      var init := rows[..|rows| - 1];
      var row := rows[|rows| - 1];
      var x := CellOf(row, col);
      var s, sInit := RegionColumn(rows, col), RegionColumn(init, col);
      assert s[..|s| - 1] == sInit;
      assert rows == init + [row];
      GroupsCoverRows(init, col);
      var u := Unique(sInit);
      var u' := Unique(s);
      GroupSizesStep(init, row, col, u');
      HitsCount(u', x);
      if x !in sInit {
        assert u' == u + [x];
        assert u'[..|u'| - 1] == u;
        GroupOfAbsent(init, col, x);
      }
    }
  }

  /** The dictionary built by the loop: keys in `unique()` order and a frame per key. */
  datatype Grouping = Grouping(regions: seq<Cell>, groups: map<Cell, Frame>)

  datatype RegionError = ColumnMissing(column: string)   // KeyError on data[region_column]

  method AggregateRegionalData(data: Frame, col: string) returns (r: Result<Grouping, RegionError>)
    ensures r.Err? <==> col !in data.columns
    ensures r.Err? ==> r.error == ColumnMissing(col)
    ensures r.Ok? ==>
              && r.value.regions == Unique(RegionColumn(data.rows, col))
              && (forall k :: k in r.value.groups <==> k in r.value.regions)
              && forall k :: k in r.value.groups ==> r.value.groups[k] == Frame(data.columns, GroupRows(data.rows, col, k))
  {
    if col !in data.columns {
      return Err(ColumnMissing(col));
    }
    var regions := Unique(Column(data, col));
    assert Column(data, col) == RegionColumn(data.rows, col);
    var groups := map[];
    var i := 0;
    while i < |regions|
      invariant 0 <= i <= |regions|
      invariant forall k :: k in groups <==> k in regions[..i]
      invariant forall k :: k in groups ==> groups[k] == Frame(data.columns, GroupRows(data.rows, col, k))
    {
      var region := regions[i];
      groups := groups[region := Frame(data.columns, GroupRows(data.rows, col, region))];
      assert regions[..i + 1] == regions[..i] + [region];
      i := i + 1;
    }
    assert regions[..i] == regions;
    r := Ok(Grouping(regions, groups));
  }
}
