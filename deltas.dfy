/** `timeseries_deltas` (tokio/timeseries.py): turning a matrix of
    monotonically increasing counters into per-interval differences, column
    by column, bridging the gaps where a counter reads zero or drops. */
module Deltas {
  import opened Wrappers
  import opened Cells

  /** What the scan of one column remembers between rows: the last value
      it took as valid (`prev_nonzero`) and whether it is spanning a gap. */
  datatype Scan = Scan(prev: Option<Cell>, searching: bool)

  const Start := Scan(None, true)

  /** The scan at row `row` of `col`: the new state and the difference it
      writes at row `row - 1`, if any. */
  function Step(st: Scan, col: seq<Cell>, row: nat): (Scan, Option<Cell>)
    requires row < |col|
  {
    var x := col[row];
    if row == 0 then
      (if !IsZero(x) then st.(prev := Some(x)) else st, None)
    else if st.searching then
      if IsZero(x) then (st, None)
      else if st.prev.Some? then (Scan(Some(x), false), Some(Sub(x, st.prev.value)))
      else (st.(prev := Some(x)), None)
    else if Num(x) < Num(col[row - 1]) then (st.(searching := true), None)
    else (st.(prev := Some(x)), Some(Sub(x, col[row - 1])))
  }

  /** The scan's state before row `row`. */
  function ScanBefore(col: seq<Cell>, row: nat): Scan
    requires row <= |col|
  {
    if row == 0 then Start else Step(ScanBefore(col, row - 1), col, row - 1).0
  }

  /** The difference written at row `row - 1` while scanning row `row`. */
  function Emitted(col: seq<Cell>, row: nat): Option<Cell>
    requires row < |col|
  {
    Step(ScanBefore(col, row), col, row).1
  }

  /** Row `i` of the differenced column: what scanning row `i + 1` wrote,
      or the -0.0 the result matrix starts with. */
  function DeltaAt(col: seq<Cell>, i: nat): Cell
    requires i + 1 < |col|
  {
    match Emitted(col, i + 1)
    case Some(d) => d
    case None => Missing
  }

  /** The whole differenced column, one row shorter than `col`. */
  function ColumnDeltas(col: seq<Cell>): (d: seq<Cell>)
    requires |col| >= 1
    ensures |d| == |col| - 1
  {
    seq(|col| - 1, i requires 0 <= i < |col| - 1 => DeltaAt(col, i))
  }

  /** Column `c` of a matrix. */
  ghost function Column(data: array2<Cell>, c: nat): (col: seq<Cell>)
    requires c < data.Length1
    reads data
    ensures |col| == data.Length0 && forall r :: 0 <= r < data.Length0 ==> col[r] == data[r, c]
  {
    seq(data.Length0, r requires 0 <= r < data.Length0 reads data => data[r, c])
  }

  /** `timeseries_deltas(dataset)`: a matrix one row shorter whose every
      column is the differenced column of the input.  An empty input raises,
      as numpy refuses a matrix with -1 rows. */
  method TimeseriesDeltas(data: array2<Cell>) returns (r: Result<array2<Cell>>)
    ensures r.Ok? <==> data.Length0 >= 1
    ensures r.Ok? ==> fresh(r.value) && r.value.Length0 == data.Length0 - 1 && r.value.Length1 == data.Length1
    ensures r.Ok? ==> forall i, c :: 0 <= i < r.value.Length0 && 0 <= c < r.value.Length1 ==>
      r.value[i, c] == DeltaAt(Column(data, c), i)
  {
    if data.Length0 == 0 {
      return Err("negative dimensions are not allowed");
    }
    var rows, cols := data.Length0, data.Length1;
    var diff, prevNonzero, searching := NewScan(data);
    for irow := 0 to rows
      invariant forall c :: 0 <= c < cols ==> Scan(prevNonzero[c], searching[c]) == ScanBefore(Column(data, c), irow)
      invariant forall i, c :: 0 <= i < rows - 1 && 0 <= c < cols ==>
        diff[i, c] == if i + 1 < irow then DeltaAt(Column(data, c), i) else Missing
    {
      ScanRow(data, diff, prevNonzero, searching, irow);
    }
    return Ok(diff);
  }

  /** The output matrix, all missing, and every column's scan at its start. */
  method NewScan(data: array2<Cell>) returns (diff: array2<Cell>, prevNonzero: array<Option<Cell>>, searching: array<bool>)
    requires data.Length0 >= 1
    ensures fresh(diff) && fresh(prevNonzero) && fresh(searching)
    ensures diff.Length0 + 1 == data.Length0 && diff.Length1 == data.Length1
    ensures prevNonzero.Length == searching.Length == data.Length1
    ensures forall c :: 0 <= c < data.Length1 ==> Scan(prevNonzero[c], searching[c]) == ScanBefore(Column(data, c), 0)
    ensures forall i, c :: 0 <= i < diff.Length0 && 0 <= c < diff.Length1 ==> diff[i, c] == Missing
  {
    diff := new Cell[data.Length0 - 1, data.Length1]((_, _) => Missing);
    prevNonzero := new Option<Cell>[data.Length1](_ => None);
    searching := new bool[data.Length1](_ => true);
  }

  /** The inner loop: row `irow` of every column. */
  method ScanRow(data: array2<Cell>, diff: array2<Cell>, prevNonzero: array<Option<Cell>>, searching: array<bool>, irow: nat)
    requires data != diff && diff.Length0 + 1 == data.Length0 && diff.Length1 == data.Length1
    requires prevNonzero.Length == searching.Length == data.Length1
    requires irow < data.Length0
    requires forall c :: 0 <= c < data.Length1 ==> Scan(prevNonzero[c], searching[c]) == ScanBefore(Column(data, c), irow)
    requires forall i, c :: 0 <= i < diff.Length0 && 0 <= c < diff.Length1 ==>
      diff[i, c] == if i + 1 < irow then DeltaAt(Column(data, c), i) else Missing
    modifies diff, prevNonzero, searching
    ensures forall c :: 0 <= c < data.Length1 ==> Scan(prevNonzero[c], searching[c]) == ScanBefore(Column(data, c), irow + 1)
    ensures forall i, c :: 0 <= i < diff.Length0 && 0 <= c < diff.Length1 ==>
      diff[i, c] == if i + 1 < irow + 1 then DeltaAt(Column(data, c), i) else Missing
  {
    var cols := data.Length1;
    for icol := 0 to cols
      invariant forall c :: 0 <= c < icol ==> Scan(prevNonzero[c], searching[c]) == ScanBefore(Column(data, c), irow + 1)
      invariant forall c :: icol <= c < cols ==> Scan(prevNonzero[c], searching[c]) == ScanBefore(Column(data, c), irow)
      invariant forall i, c :: 0 <= i < diff.Length0 && 0 <= c < cols ==>
        diff[i, c] == if i + 1 < irow || (i + 1 == irow && c < icol) then DeltaAt(Column(data, c), i) else Missing
    {
      ScanCell(data, diff, prevNonzero, searching, irow, icol);
    }
  }

  /** The body of the nested loop: row `irow` of column `icol`. */
  method ScanCell(data: array2<Cell>, diff: array2<Cell>, prevNonzero: array<Option<Cell>>, searching: array<bool>, irow: nat, icol: nat)
    requires data != diff && diff.Length0 + 1 == data.Length0 && diff.Length1 == data.Length1
    requires prevNonzero.Length == searching.Length == data.Length1
    requires irow < data.Length0 && icol < data.Length1
    requires Scan(prevNonzero[icol], searching[icol]) == ScanBefore(Column(data, icol), irow)
    modifies diff, prevNonzero, searching
    ensures Scan(prevNonzero[icol], searching[icol]) == ScanBefore(Column(data, icol), irow + 1)
    ensures forall c :: 0 <= c < data.Length1 && c != icol ==> prevNonzero[c] == old(prevNonzero[c]) && searching[c] == old(searching[c])
    ensures forall i, c :: 0 <= i < diff.Length0 && 0 <= c < diff.Length1 && (i + 1 != irow || c != icol) ==> diff[i, c] == old(diff[i, c])
    ensures irow >= 1 ==> diff[irow - 1, icol] == match Emitted(Column(data, icol), irow) case Some(d) => d case None => old(diff[irow - 1, icol])
  {
    ghost var col := Column(data, icol);
    ghost var st := ScanBefore(col, irow);
    var x := data[irow, icol];
    ghost var emitted: Option<Cell> := None;
    if irow == 0 {
      if !IsZero(x) {
        prevNonzero[icol] := Some(x);
      }
    } else if searching[icol] {
      if !IsZero(x) {
        if prevNonzero[icol].Some? {
          diff[irow - 1, icol] := Sub(x, prevNonzero[icol].value);
          emitted := Some(Sub(x, prevNonzero[icol].value));
          searching[icol] := false;
        }
        prevNonzero[icol] := Some(x);
      }
    } else {
      if Num(x) < Num(data[irow - 1, icol]) {
        searching[icol] := true;
      } else {
        diff[irow - 1, icol] := Sub(x, data[irow - 1, icol]);
        emitted := Some(Sub(x, data[irow - 1, icol]));
        prevNonzero[icol] := Some(x);
      }
    }
    assert (Scan(prevNonzero[icol], searching[icol]), emitted) == Step(st, col, irow);
  }

  /** A column that never reads zero and never decreases: the scan keeps
      the previous row as its reference and leaves the gap state after the
      second row. */
  lemma {:induction false} MonotoneScan(col: seq<Cell>, row: nat)
    requires 1 <= row <= |col|
    requires forall k :: 0 <= k < |col| ==> !IsZero(col[k])
    requires forall k :: 0 <= k < |col| - 1 ==> Num(col[k]) <= Num(col[k + 1])
    ensures ScanBefore(col, row) == Scan(Some(col[row - 1]), row == 1)
  {
    if row > 1 {
      MonotoneScan(col, row - 1);
    }
  }

  /** For such a column the deltas are exactly the differences of
      consecutive rows. */
  lemma MonotoneDeltas(col: seq<Cell>)
    requires |col| >= 1
    requires forall k :: 0 <= k < |col| ==> !IsZero(col[k])
    requires forall k :: 0 <= k < |col| - 1 ==> Num(col[k]) <= Num(col[k + 1])
    ensures forall i :: 0 <= i < |col| - 1 ==> ColumnDeltas(col)[i] == Val(Num(col[i + 1]) - Num(col[i]))
  {
    forall i | 0 <= i < |col| - 1 ensures ColumnDeltas(col)[i] == Val(Num(col[i + 1]) - Num(col[i])) {
      MonotoneScan(col, i + 1);
    }
  }

  /** A column that only ever reads zero (of either sign) seeds nothing and
      differences to all -0.0. */
  lemma {:induction false} ZeroScan(col: seq<Cell>, row: nat)
    requires row <= |col|
    requires forall k :: 0 <= k < |col| ==> IsZero(col[k])
    ensures ScanBefore(col, row) == Start
  {
    if row > 0 {
      ZeroScan(col, row - 1);
    }
  }

  lemma ZeroDeltas(col: seq<Cell>)
    requires |col| >= 1
    requires forall k :: 0 <= k < |col| ==> IsZero(col[k])
    ensures forall i :: 0 <= i < |col| - 1 ==> ColumnDeltas(col)[i] == Missing
  {
    forall i | 0 <= i < |col| - 1 ensures ColumnDeltas(col)[i] == Missing {
      ZeroScan(col, i + 1);
    }
  }

  /** A counter that drops to zero for two samples and resumes below its
      last valid value: the gap rows stay -0.0 and the delta taken across
      the gap is negative. */
  lemma GapExample()
    ensures ColumnDeltas([Val(10), Val(20), Val(0), Val(0), Val(5), Val(15)]) == [Val(10), Missing, Missing, Val(-15), Val(10)]
  {
    var col := [Val(10), Val(20), Val(0), Val(0), Val(5), Val(15)];
    assert ScanBefore(col, 1) == Scan(Some(Val(10)), true);
    assert ScanBefore(col, 2) == Scan(Some(Val(20)), false);
    assert ScanBefore(col, 3) == Scan(Some(Val(20)), true);
    assert ScanBefore(col, 4) == Scan(Some(Val(20)), true);
    assert ScanBefore(col, 5) == Scan(Some(Val(5)), false);
  }
}
