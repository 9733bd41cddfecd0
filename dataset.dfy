/**
 * Training rows, split paths and the column schema of ID3/id3.py.
 *
 * A row is one data line already split at its commas: the attribute tokens
 * followed by the class token. A path is the list of (column index, value)
 * constraints collected from the root of the tree down to a node; the rows in
 * scope at that node are the training rows that satisfy every constraint.
 */
module Dataset {
  import opened Contingency

  type Row = seq<string>

  type Path = seq<(nat, int)>

  /** Every cell is "0" or "1" and the row has the header's column count. */
  predicate WellFormedRow(row: Row, width: nat)
  {
    |row| == width && forall j :: 0 <= j < width ==> IsBit(row[j])
  }

  predicate WellFormed(rows: seq<Row>, width: nat)
  {
    forall row :: row in rows ==> WellFormedRow(row, width)
  }

  /** Every column index a path names lies inside the header. */
  predicate PathFits(path: Path, width: nat)
  {
    forall j :: 0 <= j < |path| ==> path[j].0 < width
  }

  /**
   * A row satisfies a path when, for every (index, value) in it, the row's cell
   * at that index, read as an integer, equals the value.
   */
  predicate Matches(row: Row, path: Path)
  {
    forall j :: 0 <= j < |path| ==> path[j].0 < |row| && IntOf(row[path[j].0]) == path[j].1
  }

  /** The rows of `data` that satisfy `path`, in their original order. */
  function Scope(data: seq<Row>, path: Path): (r: seq<Row>)
    ensures |r| <= |data|
    ensures forall row {:trigger row in r} :: row in r <==> row in data && Matches(row, path)
  {
    if |data| == 0 then []
    else
      var init, last := data[..|data| - 1], data[|data| - 1];
      assert data == init + [last];
      Scope(init, path) + (if Matches(last, path) then [last] else [])
  }

  /**
   * The counters of column `col` over `rows`: each row contributes the pair
   * (its cell at `col`, its class cell), in order.
   */
  function Tabulate(rows: seq<Row>, col: nat): Counts
    requires forall row :: row in rows ==> col < |row|
  {
    if |rows| == 0 then Empty
    else
      var last := rows[|rows| - 1];
      Accumulate(Tabulate(rows[..|rows| - 1], col), last[col], last[|last| - 1])
  }

  /** The empty path keeps every row. */
  lemma {:induction false} ScopeOfEmptyPath(data: seq<Row>)
    ensures Scope(data, []) == data
  {
    if |data| > 0 {
      ScopeOfEmptyPath(data[..|data| - 1]);
      assert data == data[..|data| - 1] + [data[|data| - 1]];
    }
  }

  /** A row satisfies a path extended by one constraint exactly when it satisfies both parts. */
  lemma MatchesExtend(row: Row, path: Path, k: nat, v: int)
    ensures Matches(row, path + [(k, v)]) <==> Matches(row, path) && Matches(row, [(k, v)])
  {
    var p := path + [(k, v)];
    if Matches(row, path) && Matches(row, [(k, v)]) {
      forall j | 0 <= j < |p| ensures p[j].0 < |row| && IntOf(row[p[j].0]) == p[j].1 {
        if j == |path| {
          assert p[j] == [(k, v)][0];
        } else {
          assert p[j] == path[j];
        }
      }
    }
    if Matches(row, p) {
      assert p[|path|] == (k, v);
      forall j | 0 <= j < |path| ensures path[j].0 < |row| && IntOf(row[path[j].0]) == path[j].1 {
        assert p[j] == path[j];
      }
    }
  }

  /**
   * Extending the path by (k, v) selects, among the rows in scope, those whose
   * cell k reads as v: the scope of a child node is a filter of its parent's.
   */
  lemma {:induction false} ScopeExtend(data: seq<Row>, path: Path, k: nat, v: int)
    ensures Scope(data, path + [(k, v)]) == Scope(Scope(data, path), [(k, v)])
  {
    if |data| > 0 {
      var init, last := data[..|data| - 1], data[|data| - 1];
      ScopeExtend(init, path, k, v);
      MatchesExtend(last, path, k, v);
      var s := Scope(init, path);
      if Matches(last, path) {
        assert (s + [last])[..|s|] == s;
      } else {
        assert s + [] == s;
      }
    }
  }

  /** Scope over a sequence with one more row at its end. */
  lemma ScopeSnoc(init: seq<Row>, last: Row, path: Path)
    ensures Scope(init + [last], path) == Scope(init, path) + (if Matches(last, path) then [last] else [])
  {
    assert (init + [last])[..|init|] == init;
  }

  /** The scope of one more prefix row: the loop step of FindBestGain's row loop. */
  lemma ScopePrefix(data: seq<Row>, r: nat, path: Path)
    requires r < |data|
    ensures Scope(data[..r + 1], path) == Scope(data[..r], path) + (if Matches(data[r], path) then [data[r]] else [])
  {
    assert data[..r + 1] == data[..r] + [data[r]];
    ScopeSnoc(data[..r], data[r], path);
  }

  /** Tabulate over a sequence with one more row at its end. */
  lemma TabulateSnoc(init: seq<Row>, last: Row, col: nat)
    requires forall row :: row in init ==> col < |row|
    requires col < |last|
    ensures Tabulate(init + [last], col) == Accumulate(Tabulate(init, col), last[col], last[|last| - 1])
  {
    assert (init + [last])[..|init|] == init;
  }

  lemma MatchesOne(row: Row, k: nat, v: int)
    ensures Matches(row, [(k, v)]) <==> k < |row| && IntOf(row[k]) == v
  {
    assert [(k, v)][0] == (k, v);
  }

  /** One well-formed observation increments exactly the counter its two tokens select. */
  lemma AccumulateBits(c: Counts, a: string, y: string)
    requires IsBit(a) && IsBit(y)
    ensures Accumulate(c, a, y).zeroZero == c.zeroZero + (if a == "0" && y == "0" then 1 else 0)
    ensures Accumulate(c, a, y).zeroOne == c.zeroOne + (if a == "0" && y == "1" then 1 else 0)
    ensures Accumulate(c, a, y).oneZero == c.oneZero + (if a == "1" && y == "0" then 1 else 0)
    ensures Accumulate(c, a, y).oneOne == c.oneOne + (if a == "1" && y == "1" then 1 else 0)
  {
    AccumulateCells(c, a, y);
    assert Cell(Accumulate(c, a, y), 0, 0) == Cell(c, 0, 0) + (if a == "0" && y == "0" then 1 else 0);
    assert Cell(Accumulate(c, a, y), 0, 1) == Cell(c, 0, 1) + (if a == "0" && y == "1" then 1 else 0);
    assert Cell(Accumulate(c, a, y), 1, 0) == Cell(c, 1, 0) + (if a == "1" && y == "0" then 1 else 0);
    assert Cell(Accumulate(c, a, y), 1, 1) == Cell(c, 1, 1) + (if a == "1" && y == "1" then 1 else 0);
  }

  /** One well-formed observation adds one to the class counters of the class it reads as. */
  lemma AccumulateClass(c: Counts, a: string, y: string)
    requires IsBit(a) && IsBit(y)
    ensures Accumulate(c, a, y).zeroZero + Accumulate(c, a, y).oneZero
         == c.zeroZero + c.oneZero + (if IntOf(y) == 0 then 1 else 0)
    ensures Accumulate(c, a, y).zeroOne + Accumulate(c, a, y).oneOne
         == c.zeroOne + c.oneOne + (if IntOf(y) == 1 then 1 else 0)
  {
    AccumulateBits(c, a, y);
  }

  /**
   * Over well-formed rows, the counters of a column count the rows: their sum
   * is the number of rows, the attribute=0 counters add up to the rows whose
   * cell is 0 and the attribute=1 counters to the rows whose cell is 1.
   */
  lemma BranchSizes(rows: seq<Row>, width: nat, col: nat)
    requires WellFormed(rows, width) && col < width
    ensures Total(Tabulate(rows, col)) == |rows|
    ensures |Scope(rows, [(col, 0)])| == Tabulate(rows, col).zeroZero + Tabulate(rows, col).zeroOne
    ensures |Scope(rows, [(col, 1)])| == Tabulate(rows, col).oneZero + Tabulate(rows, col).oneOne
  {
    TabulateCountsRows(rows, width, col);
    ZeroBranchSize(rows, width, col);
    OneBranchSize(rows, width, col);
  }

  /**
   * The last row of a non-empty well-formed sequence is well-formed, and the
   * counters of the whole are those of the rest plus that row's two tokens.
   */
  lemma LastRow(rows: seq<Row>, width: nat, col: nat)
    requires WellFormed(rows, width) && col < width && |rows| > 0
    ensures var init, last := rows[..|rows| - 1], rows[|rows| - 1];
      && WellFormed(init, width) && WellFormedRow(last, width)
      && IsBit(last[col]) && IsBit(last[width - 1])
      && Tabulate(rows, col) == Accumulate(Tabulate(init, col), last[col], last[width - 1])
  {
    assert WellFormedRow(rows[|rows| - 1], width);
  }

  /** The length of a one-constraint scope: that of all rows but the last, and the last if it matches. */
  lemma ScopeLast(rows: seq<Row>, k: nat, v: int)
    requires |rows| > 0 && k < |rows[|rows| - 1]|
    ensures |Scope(rows, [(k, v)])|
         == |Scope(rows[..|rows| - 1], [(k, v)])| + (if IntOf(rows[|rows| - 1][k]) == v then 1 else 0)
  {
    MatchesOne(rows[|rows| - 1], k, v);
  }

  /** Over well-formed rows, every column counts every row once. */
  lemma {:induction false} TabulateCountsRows(rows: seq<Row>, width: nat, col: nat)
    requires WellFormed(rows, width) && col < width
    ensures Total(Tabulate(rows, col)) == |rows|
  {
    if |rows| > 0 {
      var init, last := rows[..|rows| - 1], rows[|rows| - 1];
      LastRow(rows, width, col);
      TabulateCountsRows(init, width, col);
      AccumulateBits(Tabulate(init, col), last[col], last[width - 1]);
    }
  }

  lemma {:induction false} ZeroBranchSize(rows: seq<Row>, width: nat, col: nat)
    requires WellFormed(rows, width) && col < width
    ensures |Scope(rows, [(col, 0)])| == Tabulate(rows, col).zeroZero + Tabulate(rows, col).zeroOne
  {
    if |rows| > 0 {
      var init, last := rows[..|rows| - 1], rows[|rows| - 1];
      LastRow(rows, width, col);
      ZeroBranchSize(init, width, col);
      AccumulateBits(Tabulate(init, col), last[col], last[width - 1]);
      ScopeLast(rows, col, 0);
    }
  }

  lemma {:induction false} OneBranchSize(rows: seq<Row>, width: nat, col: nat)
    requires WellFormed(rows, width) && col < width
    ensures |Scope(rows, [(col, 1)])| == Tabulate(rows, col).oneZero + Tabulate(rows, col).oneOne
  {
    if |rows| > 0 {
      var init, last := rows[..|rows| - 1], rows[|rows| - 1];
      LastRow(rows, width, col);
      OneBranchSize(init, width, col);
      AccumulateBits(Tabulate(init, col), last[col], last[width - 1]);
      ScopeLast(rows, col, 1);
    }
  }

  /** A one-constraint scope is non-empty exactly when some row satisfies the constraint. */
  lemma ScopeNonEmpty(rows: seq<Row>, k: nat, v: int)
    ensures |Scope(rows, [(k, v)])| > 0 <==> exists row :: row in rows && k < |row| && IntOf(row[k]) == v
  {
    if |Scope(rows, [(k, v)])| > 0 {
      var row := Scope(rows, [(k, v)])[0];
      assert row in Scope(rows, [(k, v)]);
      MatchesOne(row, k, v);
    }
    if exists row :: row in rows && k < |row| && IntOf(row[k]) == v {
      var row :| row in rows && k < |row| && IntOf(row[k]) == v;
      MatchesOne(row, k, v);
      assert row in Scope(rows, [(k, v)]);
    }
  }

  /**
   * Over well-formed rows, the class=0 counters of any column add up to the
   * rows of class 0 and the class=1 counters to the rows of class 1.
   */
  lemma ClassSizes(rows: seq<Row>, width: nat, col: nat)
    requires WellFormed(rows, width) && col < width
    ensures |Scope(rows, [(width - 1, 0)])| == Tabulate(rows, col).zeroZero + Tabulate(rows, col).oneZero
    ensures |Scope(rows, [(width - 1, 1)])| == Tabulate(rows, col).zeroOne + Tabulate(rows, col).oneOne
  {
    ZeroClassSize(rows, width, col);
    OneClassSize(rows, width, col);
  }

  /**
   * Dropping the last row changes the number of rows of each class by as much
   * as it changes that class's counters of any column.
   */
  lemma ClassSizeStep(rows: seq<Row>, width: nat, col: nat)
    requires WellFormed(rows, width) && col < width && |rows| > 0
    ensures var init := rows[..|rows| - 1];
      var c, d := Tabulate(rows, col), Tabulate(init, col);
      && WellFormed(init, width)
      && |Scope(rows, [(width - 1, 0)])| + d.zeroZero + d.oneZero == |Scope(init, [(width - 1, 0)])| + c.zeroZero + c.oneZero
      && |Scope(rows, [(width - 1, 1)])| + d.zeroOne + d.oneOne == |Scope(init, [(width - 1, 1)])| + c.zeroOne + c.oneOne
  {
    hide Scope, Tabulate, Accumulate;
    var init, last := rows[..|rows| - 1], rows[|rows| - 1];
    LastRow(rows, width, col);
    AccumulateClass(Tabulate(init, col), last[col], last[width - 1]);
    ScopeLast(rows, width - 1, 0);
    ScopeLast(rows, width - 1, 1);
  }

  lemma {:induction false} ZeroClassSize(rows: seq<Row>, width: nat, col: nat)
    requires WellFormed(rows, width) && col < width
    ensures |Scope(rows, [(width - 1, 0)])| == Tabulate(rows, col).zeroZero + Tabulate(rows, col).oneZero
  {
    if |rows| > 0 {
      ClassSizeStep(rows, width, col);
      ZeroClassSize(rows[..|rows| - 1], width, col);
    }
  }

  lemma {:induction false} OneClassSize(rows: seq<Row>, width: nat, col: nat)
    requires WellFormed(rows, width) && col < width
    ensures |Scope(rows, [(width - 1, 1)])| == Tabulate(rows, col).zeroOne + Tabulate(rows, col).oneOne
  {
    if |rows| > 0 {
      ClassSizeStep(rows, width, col);
      OneClassSize(rows[..|rows| - 1], width, col);
    }
  }

  /**
   * The counters of the class column itself: a row's attribute value is its
   * class value, so only `zeroZero` (the class-0 rows) and `oneOne` (the
   * class-1 rows) can be non-zero.
   */
  lemma ClassColumn(rows: seq<Row>, width: nat)
    requires WellFormed(rows, width) && width > 0
    ensures Tabulate(rows, width - 1).zeroOne == 0 && Tabulate(rows, width - 1).oneZero == 0
    ensures Tabulate(rows, width - 1).zeroZero == |Scope(rows, [(width - 1, 0)])|
    ensures Tabulate(rows, width - 1).oneOne == |Scope(rows, [(width - 1, 1)])|
  {
    ClassColumnOffDiagonal(rows, width);
    BranchSizes(rows, width, width - 1);
  }

  /** No row in scope of a class constraint that no row meets. */
  lemma NoneOfClass(rows: seq<Row>, width: nat, u: int)
    requires WellFormed(rows, width) && width > 0
    requires forall row :: row in rows ==> IntOf(row[width - 1]) != u
    ensures |Scope(rows, [(width - 1, u)])| == 0
  {
    var s := Scope(rows, [(width - 1, u)]);
    if |s| > 0 {
      assert s[0] in s;
      MatchesOne(s[0], width - 1, u);
      assert false;
    }
  }

  /** The class-1 counter of the class column is non-zero exactly when some row has class 1. */
  lemma ClassPresent(rows: seq<Row>, width: nat)
    requires WellFormed(rows, width) && width > 0
    ensures Tabulate(rows, width - 1).oneOne > 0 <==> exists row :: row in rows && IntOf(row[width - 1]) == 1
  {
    ClassColumn(rows, width);
    ScopeNonEmpty(rows, width - 1, 1);
    if exists row :: row in rows && IntOf(row[width - 1]) == 1 {
      var row :| row in rows && IntOf(row[width - 1]) == 1;
      assert WellFormedRow(row, width);
    }
  }

  lemma {:induction false} ClassColumnOffDiagonal(rows: seq<Row>, width: nat)
    requires WellFormed(rows, width) && width > 0
    ensures Tabulate(rows, width - 1).zeroOne == 0 && Tabulate(rows, width - 1).oneZero == 0
  {
    if |rows| > 0 {
      var init, last := rows[..|rows| - 1], rows[|rows| - 1];
      LastRow(rows, width, width - 1);
      ClassColumnOffDiagonal(init, width);
      AccumulateBits(Tabulate(init, width - 1), last[width - 1], last[width - 1]);
    }
  }

  /**
   * The two maps that LoadAttributeDict builds from the header into one
   * dictionary, kept apart: column index to name and name to column index,
   * and the column count (`_attrib_cnt`).
   */
  datatype Schema = Schema(indexToName: map<nat, string>, nameToIndex: map<string, nat>, attribCnt: nat)

  /** Every column of the header has a name. */
  predicate Named(schema: Schema)
  {
    forall i: nat :: i < schema.attribCnt ==> i in schema.indexToName
  }

  /**
   * The two maps agree: every column's name leads back to that column, as
   * when the header names are distinct.
   */
  predicate Consistent(schema: Schema)
  {
    forall i: nat :: i < schema.attribCnt ==>
      i in schema.indexToName && schema.indexToName[i] in schema.nameToIndex
      && schema.nameToIndex[schema.indexToName[i]] == i
  }

  predicate Distinct(names: seq<string>)
  {
    forall i, j :: 0 <= i < j < |names| ==> names[i] != names[j]
  }

  /** `i` is the position of the last occurrence of `x` in `s`. */
  predicate IsLastIndexOf(s: seq<string>, x: string, i: nat)
  {
    i < |s| && s[i] == x && forall j :: i < j < |s| ==> s[j] != x
  }

  /**
   * The header loop of LoadAttributeDict: column i is named attributes[i];
   * a name maps to the last column carrying it, which is its own column when
   * the header names are distinct.
   */
  method LoadAttributeDict(attributes: seq<string>) returns (schema: Schema)
    ensures schema.attribCnt == |attributes| && Named(schema)
    ensures forall i: nat :: i in schema.indexToName <==> i < |attributes|
    ensures forall i :: 0 <= i < |attributes| ==> schema.indexToName[i] == attributes[i]
    ensures forall name :: name in schema.nameToIndex <==> name in attributes
    ensures forall name :: name in schema.nameToIndex ==> IsLastIndexOf(attributes, name, schema.nameToIndex[name])
    ensures Distinct(attributes) ==> forall i :: 0 <= i < |attributes| ==> schema.nameToIndex[attributes[i]] == i
    ensures Distinct(attributes) ==> Consistent(schema)
  {
    var toName: map<nat, string> := map[];
    var toIndex: map<string, nat> := map[];
    for i := 0 to |attributes|
      invariant forall k: nat :: k in toName <==> k < i
      invariant forall k :: 0 <= k < i ==> toName[k] == attributes[k]
      invariant forall name :: name in toIndex <==> name in attributes[..i]
      invariant forall name :: name in toIndex ==> IsLastIndexOf(attributes[..i], name, toIndex[name])
    {
      assert attributes[..i + 1] == attributes[..i] + [attributes[i]];
      toIndex := toIndex[attributes[i] := i];
      toName := toName[i := attributes[i]];
    }
    assert attributes[..|attributes|] == attributes;
    schema := Schema(toName, toIndex, |attributes|);
    if Distinct(attributes) {
      forall i | 0 <= i < |attributes| ensures schema.nameToIndex[attributes[i]] == i {
        var k := schema.nameToIndex[attributes[i]];
        assert IsLastIndexOf(attributes, attributes[i], k);
      }
    }
  }
}
