/** The `TimeSeries` object of tokio/timeseries.py: a fixed-cadence
    timestamp axis, a rows x width matrix of cells, and the column names with
    the name -> index map kept beside them.  The persisted container it is
    attached to and committed into is an in-memory `Store` value. */
module TimeSeriesEngine {
  import opened Wrappers
  import opened Cells
  import opened Text
  import opened ColumnLayout
  import opened NaturalOrder
  import opened Deltas

  const TimestampKey := "timestamps"
  const ColumnNameKey := "columns"

  /** An attribute value of a group or dataset. */
  datatype Attr = IntAttr(i: int) | StrAttr(s: string) | NamesAttr(names: seq<string>)

  /** A stored two-dimensional dataset: its cells row by row, its shape
      and its attributes. */
  datatype StoredDataset = StoredDataset(cells: seq<seq<Cell>>, rows: nat, width: nat, attrs: map<string, Attr>)

  predicate Shaped(d: StoredDataset) {
    |d.cells| == d.rows && forall r :: 0 <= r < d.rows ==> |d.cells[r]| == d.width
  }

  /** A container: timestamp datasets and 2-D datasets by path, group
      attributes by group path. */
  datatype Store = Store(timestamps: map<string, seq<int>>, groupAttrs: map<string, map<string, Attr>>, datasets: map<string, StoredDataset>)

  /** `list(value)` of an attribute: a name list is itself, a string is its
      characters, an integer is not iterable. */
  function AttrAsList(a: Attr): (r: Result<seq<string>>)
    ensures a.NamesAttr? ==> r == Ok(a.names)
    ensures a.IntAttr? <==> r.Err?
    ensures a.StrAttr? ==> r.Ok? && |r.value| == |a.s| && forall k :: 0 <= k < |a.s| ==> r.value[k] == [a.s[k]]
  {
    match a
    case NamesAttr(ns) => Ok(ns)
    case StrAttr(s) => Ok(seq(|s|, k requires 0 <= k < |s| => [s[k]]))
    case IntAttr(_) => Err("object is not iterable")
  }

  /** The group a dataset path lives in: the path up to its last '/'. */
  function GroupName(path: string): (g: string)
    ensures '/' !in path ==> g == ""
    ensures '/' in path ==> g + "/" <= path
  {
    var parts := Split(path, '/');
    if |parts| == 1 then "" else
      var g := Join(parts[..|parts| - 1], '/');
      JoinPrefix(parts, '/');
      JoinSplit(path, '/');
      g
  }

  lemma {:induction false} JoinPrefix(parts: seq<string>, sep: char)
    requires |parts| >= 2
    ensures Join(parts[..|parts| - 1], sep) + [sep] <= Join(parts, sep)
  {
    if |parts| > 2 {
      JoinPrefix(parts[1..], sep);
      assert parts[1..][..|parts| - 2] == parts[..|parts| - 1][1..];
    }
  }

  /** The timestamps `init_group` lays out: `start`, `start + step`, ...
      while below `end`. */
  function Grid(start: int, end: int, step: int): seq<int>
    requires start < end ==> step > 0
    decreases if start < end then end - start else 0
  {
    if start < end then [start] + Grid(start + step, end, step) else []
  }

  /** `g` is `start, start + step, ...` and stops at the first point that
      would reach `end`. */
  ghost predicate IsGrid(g: seq<int>, start: int, end: int, step: int) {
    (forall k :: 0 <= k < |g| ==> g[k] == start + k * step && g[k] < end) &&
    start + |g| * step >= end && (start < end ==> |g| >= 1)
  }

  predicate StrictlyIncreasing(g: seq<int>) {
    forall a, b :: 0 <= a < b < |g| ==> g[a] < g[b]
  }

  /** The grid starts at `start`, advances by `step`, stays below `end`,
      and stops at the first point that would reach `end`. */
  lemma {:induction false} GridSpec(start: int, end: int, step: int)
    requires start < end ==> step > 0
    ensures IsGrid(Grid(start, end, step), start, end, step)
    decreases if start < end then end - start else 0
  {
    if start < end {
      GridSpec(start + step, end, step);
      var g := Grid(start, end, step);
      var rest := Grid(start + step, end, step);
      forall k | 0 <= k < |g| ensures g[k] == start + k * step {
        if k > 0 {
          assert g[k] == rest[k - 1];
        }
      }
    }
  }

  /** Every grid point is at least `start`. */
  lemma {:induction false} GridAbove(start: int, end: int, step: int)
    requires start < end ==> step > 0
    ensures forall x :: x in Grid(start, end, step) ==> x >= start
    decreases if start < end then end - start else 0
  {
    if start < end {
      GridAbove(start + step, end, step);
    }
  }

  /** The grid is strictly increasing. */
  lemma {:induction false} GridIncreasing(start: int, end: int, step: int)
    requires start < end ==> step > 0
    ensures StrictlyIncreasing(Grid(start, end, step))
    decreases if start < end then end - start else 0
  {
    if start < end {
      GridIncreasing(start + step, end, step);
      GridAbove(start + step, end, step);
      var g, rest := Grid(start, end, step), Grid(start + step, end, step);
      assert g == [start] + rest;
      forall a, b | 0 <= a < b < |g| ensures g[a] < g[b] {
        assert g[b] == rest[b - 1] && rest[b - 1] in rest;
        assert rest[b - 1] >= start + step;
        if a > 0 {
          assert g[a] == rest[a - 1];
        } else {
          assert g[a] == start;
          assert step > 0;
        }
        assert g[a] < g[b];
      }
    }
  }

  /** Its length is the ceiling of the range over the step, not the floor:
      one step short of the length would not reach `end`. */
  lemma GridLength(start: int, end: int, step: int)
    requires start < end && step > 0
    ensures (|Grid(start, end, step)| - 1) * step < end - start <= |Grid(start, end, step)| * step
  {
    GridSpec(start, end, step);
    var g := Grid(start, end, step);
    assert g[|g| - 1] == start + (|g| - 1) * step;
  }

  /** A range of 25 s at 10 s holds three timestamps. */
  lemma GridExample()
    ensures Grid(0, 25, 10) == [0, 10, 20]
  {
    assert Grid(20, 25, 10) == [20];
    assert Grid(10, 25, 10) == [10, 20];
  }

  /** The attributes of group `group` of the store, none if it has none. */
  function GroupAttrs(store: Store, group: string): map<string, Attr> {
    if group in store.groupAttrs then store.groupAttrs[group] else map[]
  }

  /** The attributes of dataset `name` of the store, none if it is absent. */
  function DatasetAttrs(store: Store, name: string): map<string, Attr> {
    if name in store.datasets then store.datasets[name].attrs else map[]
  }

  /** The column order a commit rearranges into: the stored dataset's
      `columns` attribute when it has one, else the names in natural order. */
  function CommitOrder(attrs: map<string, Attr>, columns: seq<string>, hex: bool): (r: Result<seq<string>>)
    ensures ColumnNameKey !in attrs ==> r == Ok(SortedNodenames(columns, hex))
    ensures ColumnNameKey in attrs ==> r == AttrAsList(attrs[ColumnNameKey])
  {
    if ColumnNameKey in attrs then AttrAsList(attrs[ColumnNameKey]) else Ok(SortedNodenames(columns, hex))
  }

  /** The store once a commit of dataset `name` (shape `rows` x `width`)
      has put its timestamps and group attributes in and made sure the
      dataset exists; `None` when the group already holds other timestamps. */
  function PrepareCommit(store: Store, name: string, key: string, timestamps: seq<int>, groupMetadata: map<string, Attr>,
                         rows: nat, width: nat): (r: Option<Store>)
    ensures var path := GroupName(name) + "/" + key;
      r.None? <==> path in store.timestamps && store.timestamps[path] != timestamps
    ensures r.Some? ==> var group := GroupName(name);
      r.value.timestamps == store.timestamps[group + "/" + key := timestamps] &&
      r.value.groupAttrs == store.groupAttrs[group := GroupAttrs(store, group) + groupMetadata] &&
      name in r.value.datasets && DatasetAttrs(r.value, name) == DatasetAttrs(store, name) &&
      (name in store.datasets ==> r.value.datasets == store.datasets) &&
      (name !in store.datasets ==>
        (r.value.datasets[name].rows == rows && r.value.datasets[name].width == width && Shaped(r.value.datasets[name]) &&
         forall i, j :: 0 <= i < rows && 0 <= j < width ==> r.value.datasets[name].cells[i][j] == Val(0)))
  {
    var group := GroupName(name);
    var path := group + "/" + key;
    if path in store.timestamps && store.timestamps[path] != timestamps then None
    else
      var zeros := seq(rows, _ => seq(width, _ => Val(0)));
      var datasets := if name in store.datasets then store.datasets
        else store.datasets[name := StoredDataset(zeros, rows, width, map[])];
      Some(Store(store.timestamps[path := timestamps], store.groupAttrs[group := GroupAttrs(store, group) + groupMetadata], datasets))
  }

  /** The cell an insertion leaves: the reducer is consulted only for a
      never-populated cell, any other cell is overwritten. */
  function NewCell(current: Cell, value: Cell, reducer: Option<(Cell, Cell) -> Cell>): Cell {
    if current == Missing && reducer.Some? then reducer.value(current, value) else value
  }

  /** Where `time0` and `timestep` came from, which decides how the bin
      division of `insert_element` behaves: unset (`None`, so the
      subtraction raises TypeError), Python integers from `init_group` (a
      zero step raises ZeroDivisionError), or numpy scalars read from the
      timestamp dataset by `attach_group` (numpy's integer division gives
      0 for a zero step). */
  datatype StepOrigin = Unset | PythonInts | NumpyInts

  class TimeSeries {
    var timestamps: seq<int>
    var time0: int
    var timestep: int
    var origin: StepOrigin
    var dataset: array2?<Cell>
    var datasetName: string
    var columns: seq<string>
    var numColumns: nat
    var columnMap: map<string, nat>
    var groupMetadata: map<string, Attr>
    var datasetMetadata: map<string, Attr>
    const timestampKey: string
    const sortHex: bool

    /** The names, their count and the map agree. */
    ghost predicate Valid()
      reads this`numColumns, this`columns, this`columnMap
    {
      numColumns == |columns| && MapConsistent(columns, columnMap)
    }

    /** The column layout of the current matrix, every data column in its
        own position. */
    ghost function CurrentLayout(): Layout
      requires dataset != null
      reads this`columns, this`columnMap, this`dataset
    {
      Layout(columns, columnMap, Identity(dataset.Length1))
    }

    /** The matrix as rows of cells. */
    ghost function Matrix(): (m: seq<seq<Cell>>)
      requires dataset != null
      reads this`dataset, dataset
      ensures |m| == dataset.Length0 && forall r :: 0 <= r < |m| ==> |m[r]| == dataset.Length1
    {
      var a := dataset;
      seq(a.Length0, r requires 0 <= r < a.Length0 reads a =>
        seq(a.Length1, c requires 0 <= c < a.Length1 reads a => a[r, c]))
    }

    /** `TimeSeries(group=...)` before `attach_group`: no timestamps, no
        matrix, no columns. */
    constructor Empty(timestampKey: string, sortHex: bool)
      ensures Valid() && dataset == null && timestamps == [] && columns == [] && origin == Unset
      ensures groupMetadata == map[] && datasetMetadata == map[]
      ensures this.timestampKey == timestampKey && this.sortHex == sortHex
    {
      timestamps := [];
      time0 := 0;
      timestep := 0;
      origin := Unset;
      dataset := null;
      datasetName := "";
      columns := [];
      numColumns := 0;
      columnMap := map[];
      groupMetadata := map[];
      datasetMetadata := map[];
      this.timestampKey := timestampKey;
      this.sortHex := sortHex;
    }

    /** `TimeSeries(start, end, timestep)`: an empty object laid out on the
        grid from `start` to `end`. */
    constructor FromRange(start: int, end: int, step: int, timestampKey: string, sortHex: bool)
      requires start < end ==> step > 0
      ensures Valid() && dataset == null && columns == []
      ensures timestamps == Grid(start, end, step) && time0 == start && timestep == step && origin == PythonInts
      ensures this.timestampKey == timestampKey && this.sortHex == sortHex
    {
      dataset := null;
      datasetName := "";
      columns := [];
      numColumns := 0;
      columnMap := map[];
      groupMetadata := map[];
      datasetMetadata := map[];
      this.timestampKey := timestampKey;
      this.sortHex := sortHex;
      new;
      InitGroup(start, end, step);
    }

    /** `init_group`: the timestamps step from `start` while below `end`.
        A non-positive step with `start < end` would never end, so it is
        excluded. */
    method InitGroup(start: int, end: int, step: int)
      requires start < end ==> step > 0
      modifies this
      ensures timestamps == Grid(start, end, step) && time0 == start && timestep == step && origin == PythonInts
      ensures dataset == old(dataset) && columns == old(columns) && numColumns == old(numColumns) && columnMap == old(columnMap)
      ensures groupMetadata == old(groupMetadata) && datasetMetadata == old(datasetMetadata) && datasetName == old(datasetName)
    {
      time0 := start;
      timestep := step;
      origin := PythonInts;
      var timeList: seq<int> := [];
      var t := start;
      while t < end
        invariant timeList + Grid(t, end, step) == Grid(start, end, step)
        invariant |timeList| > 0 ==> start < end
        invariant start < end ==> t - start == |timeList| * step
        decreases if t < end then end - t else 0
      {
        timeList := timeList + [t];
        t := t + step;
      }
      timestamps := timeList;
    }

    /** `attach_group`: take the timestamps and attributes of group
        `group` of the store.  No timestamp dataset raises before anything
        changes; fewer than two timestamps raise once the timestamps (and,
        for one, the start) were taken. */
    method AttachGroup(store: Store, group: string) returns (ok: bool)
      modifies this
      ensures var path := group + "/" + timestampKey;
        (path !in store.timestamps ==> !ok && timestamps == old(timestamps) && time0 == old(time0) && timestep == old(timestep)) &&
        (path in store.timestamps ==> timestamps == store.timestamps[path] && (ok <==> |timestamps| >= 2))
      ensures ok ==> time0 == timestamps[0] && timestep == timestamps[1] - timestamps[0] && origin == NumpyInts
      ensures !ok ==> origin == old(origin)
      ensures ok ==> groupMetadata == old(groupMetadata) + (if group in store.groupAttrs then store.groupAttrs[group] else map[])
      ensures !ok ==> groupMetadata == old(groupMetadata)
      ensures dataset == old(dataset) && columns == old(columns) && numColumns == old(numColumns) && columnMap == old(columnMap)
      ensures datasetMetadata == old(datasetMetadata) && datasetName == old(datasetName)
    {
      var path := group + "/" + timestampKey;
      if path !in store.timestamps {
        return false;
      }
      timestamps := store.timestamps[path];
      if |timestamps| == 0 {
        return false;
      }
      time0 := timestamps[0];
      if |timestamps| == 1 {
        return false;
      }
      timestep := timestamps[1] - timestamps[0];
      origin := NumpyInts;
      if group in store.groupAttrs {
        groupMetadata := groupMetadata + store.groupAttrs[group];
      }
      return true;
    }

    /** `update_column_map`: rebuild the map from the names, each name to
        its last position. */
    method UpdateColumnMap()
      modifies this`columnMap
      ensures columnMap == IndexMap(columns) && MapConsistent(columns, columnMap)
      ensures columns == old(columns) && numColumns == old(numColumns) && dataset == old(dataset) && timestamps == old(timestamps)
      ensures time0 == old(time0) && timestep == old(timestep) && datasetName == old(datasetName)
      ensures groupMetadata == old(groupMetadata) && datasetMetadata == old(datasetMetadata)
    {
      columnMap := map[];
      for index := 0 to |columns|
        modifies this`columnMap
        invariant columnMap == IndexMap(columns[..index])
      {
        assert columns[..index + 1][..index] == columns[..index];
        columnMap := columnMap[columns[index] := index];
      }
      assert columns[..|columns|] == columns;
      IndexMapConsistent(columns);
    }

    /** `set_columns`: replace the names and rebuild the map. */
    method SetColumns(names: seq<string>)
      modifies this
      ensures Valid() && columns == names && numColumns == |names| && columnMap == IndexMap(names)
      ensures dataset == old(dataset) && timestamps == old(timestamps)
    {
      columns := names;
      numColumns := |names|;
      UpdateColumnMap();
    }

    /** `add_column`: append a name and point the map at it, even when the
        name is already present; the new position is returned. */
    method AddColumn(name: string) returns (index: nat)
      requires Valid()
      modifies this`columns, this`numColumns, this`columnMap
      ensures Valid()
      ensures index == old(numColumns) && columns == old(columns) + [name] && numColumns == old(numColumns) + 1
      ensures columnMap == old(columnMap)[name := index]
      ensures dataset == old(dataset) && timestamps == old(timestamps) && time0 == old(time0) && timestep == old(timestep)
      ensures datasetName == old(datasetName) && groupMetadata == old(groupMetadata) && datasetMetadata == old(datasetMetadata)
    {
      index := numColumns;
      columnMap := columnMap[name := index];
      columns := columns + [name];
      numColumns := numColumns + 1;
      assert forall n :: n in old(columns) ==> n in columns;
    }

    /** `init_dataset2d`: a fresh matrix of `len(timestamps)` rows, every
        cell `default`, and no column names. */
    method InitDataset2d(name: string, width: nat, default: Cell)
      modifies this
      ensures Valid() && dataset != null && fresh(dataset)
      ensures dataset.Length0 == |timestamps| && dataset.Length1 == width
      ensures forall r, c :: 0 <= r < dataset.Length0 && 0 <= c < dataset.Length1 ==> dataset[r, c] == default
      ensures columns == [] && columnMap == map[] && datasetName == name
      ensures timestamps == old(timestamps) && time0 == old(time0) && timestep == old(timestep) && origin == old(origin)
      ensures groupMetadata == old(groupMetadata) && datasetMetadata == old(datasetMetadata)
    {
      datasetName := name;
      columns := [];
      numColumns := 0;
      dataset := new Cell[|timestamps|, width]((_, _) => default);
      UpdateColumnMap();
    }

    /** `attach_dataset2d`: copy a stored matrix in; its `columns`
        attribute, cut to the matrix width, is appended name by name; its
        attributes are merged into the dataset metadata.  An attribute
        that cannot be listed raises once the matrix was copied. */
    method AttachDataset2d(name: string, ds: StoredDataset) returns (ok: bool)
      requires Valid() && Shaped(ds)
      modifies this
      ensures Valid() && dataset != null && fresh(dataset) && datasetName == name
      ensures dataset.Length0 == ds.rows && dataset.Length1 == ds.width && Matrix() == ds.cells
      ensures ColumnNameKey !in ds.attrs ==> ok && columns == old(columns)
      ensures ColumnNameKey in ds.attrs ==> var names := AttrAsList(ds.attrs[ColumnNameKey]);
        (ok <==> names.Ok?) && (ok ==> columns == old(columns) + Slice(names.value, 0, ds.width))
      ensures ok ==> datasetMetadata == old(datasetMetadata) + ds.attrs
      ensures !ok ==> datasetMetadata == old(datasetMetadata) && columns == old(columns)
      ensures timestamps == old(timestamps) && time0 == old(time0) && timestep == old(timestep) && groupMetadata == old(groupMetadata)
    {
      datasetName := name;
      LoadMatrix(ds);
      var kept: seq<string> := [];
      if ColumnNameKey in ds.attrs {
        var names := AttrAsList(ds.attrs[ColumnNameKey]);
        if names.Err? {
          return false;
        }
        kept := Slice(names.value, 0, ds.width);
      }
      datasetMetadata := datasetMetadata + ds.attrs;
      ghost var a := dataset;
      for k := 0 to |kept|
        invariant Valid() && columns == old(columns) + kept[..k]
        invariant dataset == a && Matrix() == ds.cells
        invariant datasetName == name && datasetMetadata == old(datasetMetadata) + ds.attrs
        invariant timestamps == old(timestamps) && time0 == old(time0) && timestep == old(timestep) && groupMetadata == old(groupMetadata)
      {
        var _ := AddColumn(kept[k]);
        assert kept[..k + 1] == kept[..k] + [kept[k]];
      }
      assert kept[..|kept|] == kept;
      return true;
    }

    /** The stored cells copied into a new matrix. */
    method LoadMatrix(ds: StoredDataset)
      requires Shaped(ds)
      modifies this`dataset
      ensures dataset != null && fresh(dataset) && dataset.Length0 == ds.rows && dataset.Length1 == ds.width
      ensures Matrix() == ds.cells
    {
      dataset := new Cell[ds.rows, ds.width]((r, c) requires 0 <= r < ds.rows && 0 <= c < ds.width => ds.cells[r][c]);
      assert Matrix() == ds.cells by {
        forall r | 0 <= r < ds.rows ensures Matrix()[r] == ds.cells[r] {
        }
      }
    }

    /** `swap_columns(i, j)`: exchange two data columns and their names. */
    method SwapColumns(i: nat, j: nat) returns (ok: bool)
      requires Valid() && dataset != null
      modifies this`columns, this`columnMap, dataset
      ensures Valid() && dataset == old(dataset)
      ensures var p := SwapLayout(old(CurrentLayout()), i, j);
        ok == !p.failed && columns == p.layout.columns && columnMap == p.layout.columnMap &&
        Matrix() == Moved(old(Matrix()), p.layout.source)
      ensures timestamps == old(timestamps) && numColumns == old(numColumns) && datasetName == old(datasetName)
      ensures time0 == old(time0) && timestep == old(timestep)
      ensures groupMetadata == old(groupMetadata) && datasetMetadata == old(datasetMetadata)
    {
      var a := dataset;
      var w := a.Length1;
      if j >= w || j >= |columns| || i >= w {
        MovedIdentity(Matrix(), w);
        return false;
      }
      SwapDatasetColumns(i, j);
      if i >= |columns| {
        return false;
      }
      SwapKeepsConsistent(old(CurrentLayout()), i, j);
      var savedName := columns[j];
      columns := columns[j := columns[i]];
      columns := columns[i := savedName];
      columnMap := columnMap[columns[j] := j];
      columnMap := columnMap[columns[i] := i];
      return true;
    }

    /** The cell half of `swap_columns`: columns `i` and `j` of every row
        trade places. */
    method SwapDatasetColumns(i: nat, j: nat)
      requires dataset != null && i < dataset.Length1 && j < dataset.Length1
      modifies dataset
      ensures Matrix() == Moved(old(Matrix()), Swapped(Identity(dataset.Length1), i, j))
    {
      var a := dataset;
      var w := a.Length1;
      SwappedFrom(Identity(w), i, j);
      for r := 0 to a.Length0
        invariant forall r', c :: 0 <= r' < a.Length0 && 0 <= c < w ==>
          a[r', c] == old(a[r', if r' < r then Transposed(c, i, j) else c])
      {
        var saved := a[r, j];
        a[r, j] := a[r, i];
        a[r, i] := saved;
      }
      ghost var src := Swapped(Identity(w), i, j);
      assert Matrix() == Moved(old(Matrix()), src) by {
        var m, n := Matrix(), Moved(old(Matrix()), src);
        forall r | 0 <= r < a.Length0 ensures m[r] == n[r] {
        }
      }
    }

    /** `rearrange_columns(order)`: raise, changing nothing, if a name of
        `order` is not a column; otherwise swap each name of `order` into
        its position in turn, stopping at the first swap that raises. */
    method RearrangeColumns(order: seq<string>) returns (ok: bool)
      requires Valid() && dataset != null
      modifies this`columns, this`columnMap, dataset
      ensures Valid() && dataset == old(dataset)
      ensures var p := Rearrange(old(CurrentLayout()), order);
        ok == !p.failed && columns == p.layout.columns && columnMap == p.layout.columnMap &&
        Matrix() == Moved(old(Matrix()), p.layout.source)
      ensures timestamps == old(timestamps) && numColumns == old(numColumns) && datasetName == old(datasetName)
      ensures time0 == old(time0) && timestep == old(timestep)
      ensures groupMetadata == old(groupMetadata) && datasetMetadata == old(datasetMetadata)
    {
      ghost var l0 := CurrentLayout();
      ghost var orig := Matrix();
      MovedIdentity(orig, dataset.Length1);
      var present := AllColumns(order);
      if !present {
        assert exists k :: 0 <= k < |order| && order[k] !in l0.columns;
        return false;
      }
      assert Tracks(orig, l0);
      ok := WalkOrder(order, orig, l0);
    }

    /** The walk of `rearrange_columns` once every name is known to be a
        column, from layout `l0` over the matrix `orig`. */
    method WalkOrder(order: seq<string>, ghost orig: seq<seq<Cell>>, ghost l0: Layout) returns (ok: bool)
      requires Valid() && Tracks(orig, l0)
      requires forall m :: 0 <= m < |order| ==> order[m] in columns
      modifies this`columns, this`columnMap, dataset
      ensures Valid()
      ensures var p := RearrangeFrom(l0, order, 0);
        ok == !p.failed && Tracks(orig, p.layout)
    {
      ghost var cur := l0;
      for k := 0 to |order|
        invariant Valid() && Tracks(orig, cur)
        invariant RearrangeFrom(cur, order, k) == RearrangeFrom(l0, order, 0)
        invariant forall n :: n in columns <==> n in l0.columns
      {
        var name := order[k];
        assert name in l0.columns;
        assert name in columnMap;
        RearrangeFromStep(cur, order, k);
        ghost var next;
        ok, next := PlaceColumn(name, k, orig, cur);
        if !ok {
          return false;
        }
        cur := next;
      }
      return true;
    }

    /** Whether every name of `order` is a column. */
    method AllColumns(order: seq<string>) returns (present: bool)
      ensures present <==> forall m :: 0 <= m < |order| ==> order[m] in columns
    {
      for k := 0 to |order|
        invariant forall m :: 0 <= m < k ==> order[m] in columns
      {
        if order[k] !in columns {
          return false;
        }
      }
      return true;
    }

    /** The matrix is `orig` moved by the sources of `cur`, and `cur` has
        the current names and map. */
    ghost predicate Tracks(orig: seq<seq<Cell>>, cur: Layout)
      reads this, dataset
    {
      dataset != null && cur.columns == columns && cur.columnMap == columnMap &&
      |cur.source| == dataset.Length1 && InRange(cur.source) &&
      (forall r :: 0 <= r < |orig| ==> |orig[r]| == |cur.source|) &&
      Matrix() == Moved(orig, cur.source)
    }

    /** One step of `rearrange_columns`: swap the column named `name` into
        position `k`.  `cur` is the layout reached so far relative to the
        matrix `orig` the walk started from. */
    method PlaceColumn(name: string, k: nat, ghost orig: seq<seq<Cell>>, ghost cur: Layout) returns (ok: bool, ghost next: Layout)
      requires Valid() && name in columns && Tracks(orig, cur)
      modifies this`columns, this`columnMap, dataset
      ensures var p := SwapLayout(cur, cur.columnMap[name], k);
        ok == !p.failed && next == p.layout
      ensures Valid() && Tracks(orig, next)
      ensures ok ==> forall n :: n in columns <==> n in old(columns)
    {
      var oldIndex := columnMap[name];
      ghost var q := SwapLayout(CurrentLayout(), oldIndex, k).layout;
      ok := SwapColumns(oldIndex, k);
      next := SwapLayout(cur, oldIndex, k).layout;
      SwapComposes(cur, oldIndex, k);
      MovedTwice(orig, cur.source, q.source);
      if ok {
        SwapKeepsElements(cur.columns, oldIndex, k);
      }
    }

    /** `sort_columns`: rearrange into natural name order. */
    method SortColumns() returns (ok: bool)
      requires Valid() && dataset != null
      modifies this`columns, this`columnMap, dataset
      ensures Valid() && dataset == old(dataset)
      ensures var p := Rearrange(old(CurrentLayout()), SortedNodenames(old(columns), sortHex));
        ok == !p.failed && columns == p.layout.columns && columnMap == p.layout.columnMap &&
        Matrix() == Moved(old(Matrix()), p.layout.source)
      ensures timestamps == old(timestamps) && numColumns == old(numColumns) && datasetName == old(datasetName)
      ensures time0 == old(time0) && timestep == old(timestep)
      ensures groupMetadata == old(groupMetadata) && datasetMetadata == old(datasetMetadata)
    {
      ok := RearrangeColumns(SortedNodenames(columns, sortHex));
    }

    /** `commit_dataset2d`: write the object into the store.  The group's
        timestamps are created, or must equal the object's; the group
        attributes are merged in; a missing dataset is created zero-filled;
        the columns are rearranged to the stored `columns` attribute, or
        sorted when there is none; the matrix is copied over the stored one,
        which must have its shape; and the dataset metadata, with the
        current names and the commit time `now`, is merged into the stored
        attributes.  A step that raises leaves the store as the steps before
        it made it. */
    method CommitDataset2d(store: Store, now: int) returns (out: Store, ok: bool)
      requires Valid() && dataset != null
      modifies this`columns, this`columnMap, this`datasetMetadata, dataset
      ensures Valid() && dataset == old(dataset) && datasetName == old(datasetName)
      ensures PrepareCommit(store, datasetName, timestampKey, timestamps, groupMetadata, dataset.Length0, dataset.Length1).None? ==>
        !ok && out == store && columns == old(columns) && columnMap == old(columnMap) && Matrix() == old(Matrix()) &&
        datasetMetadata == old(datasetMetadata)
      ensures ok <==>
        PrepareCommit(store, datasetName, timestampKey, timestamps, groupMetadata, dataset.Length0, dataset.Length1).Some? &&
        var order := CommitOrder(DatasetAttrs(store, datasetName), old(columns), sortHex);
        order.Ok? && !Rearrange(old(CurrentLayout()), order.value).failed &&
        (datasetName in store.datasets ==>
          store.datasets[datasetName].rows == dataset.Length0 && store.datasets[datasetName].width == dataset.Length1)
      ensures ok ==>
        var p := Rearrange(old(CurrentLayout()), CommitOrder(DatasetAttrs(store, datasetName), old(columns), sortHex).value);
        var pre := PrepareCommit(store, datasetName, timestampKey, timestamps, groupMetadata, dataset.Length0, dataset.Length1).value;
        columns == p.layout.columns && columnMap == p.layout.columnMap && Matrix() == Moved(old(Matrix()), p.layout.source) &&
        datasetMetadata == old(datasetMetadata)[ColumnNameKey := NamesAttr(columns)]["updated" := IntAttr(now)] &&
        out == pre.(datasets := pre.datasets[datasetName := StoredDataset(Matrix(), dataset.Length0, dataset.Length1,
          DatasetAttrs(store, datasetName) + datasetMetadata)])
      ensures timestamps == old(timestamps) && numColumns == old(numColumns) && time0 == old(time0) && timestep == old(timestep)
      ensures groupMetadata == old(groupMetadata)
    {
      var pre := PrepareCommit(store, datasetName, timestampKey, timestamps, groupMetadata, dataset.Length0, dataset.Length1);
      if pre.None? {
        return store, false;
      }
      out := pre.value;
      var stored := out.datasets[datasetName];
      ok := ArrangeForCommit(stored.attrs);
      if !ok {
        return out, false;
      }
      if stored.rows != dataset.Length0 || stored.width != dataset.Length1 {
        return out, false;
      }
      out := RecordCommit(out, stored.attrs, now);
      return out, true;
    }

    /** The last step of a commit: the metadata gets the current names and
        the commit time, and the matrix is stored with the attributes. */
    method RecordCommit(store: Store, attrs: map<string, Attr>, now: int) returns (out: Store)
      requires dataset != null
      modifies this`datasetMetadata
      ensures datasetMetadata == old(datasetMetadata)[ColumnNameKey := NamesAttr(columns)]["updated" := IntAttr(now)]
      ensures out == store.(datasets := store.datasets[datasetName :=
        StoredDataset(Matrix(), dataset.Length0, dataset.Length1, attrs + datasetMetadata)])
    {
      var cells := Snapshot();
      datasetMetadata := datasetMetadata[ColumnNameKey := NamesAttr(columns)]["updated" := IntAttr(now)];
      out := store.(datasets := store.datasets[datasetName := StoredDataset(cells, dataset.Length0, dataset.Length1, attrs + datasetMetadata)]);
    }

    /** The reordering step of a commit: rearrange to the stored `columns`
        attribute, which must be listable, or sort when there is none. */
    method ArrangeForCommit(attrs: map<string, Attr>) returns (ok: bool)
      requires Valid() && dataset != null
      modifies this`columns, this`columnMap, dataset
      ensures Valid() && dataset == old(dataset)
      ensures var order := CommitOrder(attrs, old(columns), sortHex);
        (order.Err? ==> !ok && columns == old(columns) && columnMap == old(columnMap) && Matrix() == old(Matrix())) &&
        (order.Ok? ==>
          var p := Rearrange(old(CurrentLayout()), order.value);
          ok == !p.failed && columns == p.layout.columns && columnMap == p.layout.columnMap &&
          Matrix() == Moved(old(Matrix()), p.layout.source))
      ensures timestamps == old(timestamps) && numColumns == old(numColumns) && datasetName == old(datasetName)
      ensures time0 == old(time0) && timestep == old(timestep)
      ensures groupMetadata == old(groupMetadata) && datasetMetadata == old(datasetMetadata)
    {
      if ColumnNameKey in attrs {
        var names := AttrAsList(attrs[ColumnNameKey]);
        if names.Err? {
          return false;
        }
        ok := RearrangeColumns(names.value);
      } else {
        ok := SortColumns();
      }
    }

    /** The matrix copied out row by row. */
    method Snapshot() returns (m: seq<seq<Cell>>)
      requires dataset != null
      ensures m == Matrix()
    {
      var a := dataset;
      m := [];
      for r := 0 to a.Length0
        invariant |m| == r && forall i :: 0 <= i < r ==> m[i] == Matrix()[i]
      {
        var row: seq<Cell> := [];
        for c := 0 to a.Length1
          invariant |row| == c && forall j :: 0 <= j < c ==> row[j] == a[r, j]
        {
          row := row + [a[r, c]];
        }
        m := m + [row];
      }
    }

    /** The bin division `(epoch - time0) / timestep` of `insert_element`
        raises: `time0` is still `None`, or the step is a Python integer 0. */
    predicate BinRaises()
      reads this`origin, this`timestep
    {
      origin == Unset || (origin == PythonInts && timestep == 0)
    }

    /** `insert_element`: a division that raises (see `BinRaises`) changes
        nothing; otherwise the row is `(epoch - time0) div timestep`; a row
        at or past the end of the timestamps returns False and changes
        nothing.  Otherwise an unseen name gets a new column, then the
        cell is written (numpy indexing: a negative row counts from the
        end, and a row or column outside the matrix raises). */
    method InsertElement(epoch: int, name: string, value: Cell, reducer: Option<(Cell, Cell) -> Cell>) returns (r: Result<bool>)
      requires Valid() && dataset != null
      modifies this, dataset
      ensures Valid() && dataset == old(dataset)
      ensures BinRaises() ==>
        r.Err? && columns == old(columns) && columnMap == old(columnMap) &&
        forall i, c :: 0 <= i < dataset.Length0 && 0 <= c < dataset.Length1 ==> dataset[i, c] == old(dataset[i, c])
      ensures !BinRaises() && FloorDiv(epoch - time0, timestep) >= |timestamps| ==>
        r == Ok(false) && columns == old(columns) && columnMap == old(columnMap) &&
        forall i, c :: 0 <= i < dataset.Length0 && 0 <= c < dataset.Length1 ==> dataset[i, c] == old(dataset[i, c])
      ensures !BinRaises() && FloorDiv(epoch - time0, timestep) < |timestamps| ==>
        (name in old(columnMap) ==> columns == old(columns) && columnMap == old(columnMap)) &&
        (name !in old(columnMap) ==> columns == old(columns) + [name] && columnMap == old(columnMap)[name := |old(columns)|]) &&
        var row, col := NumpyIndex(FloorDiv(epoch - time0, timestep), dataset.Length0), NumpyIndex(columnMap[name], dataset.Length1);
        (row.None? || col.None? ==>
          r.Err? && forall i, c :: 0 <= i < dataset.Length0 && 0 <= c < dataset.Length1 ==> dataset[i, c] == old(dataset[i, c])) &&
        (row.Some? && col.Some? ==>
          r == Ok(true) && dataset[row.value, col.value] == NewCell(old(dataset[row.value, col.value]), value, reducer) &&
          forall i, c :: 0 <= i < dataset.Length0 && 0 <= c < dataset.Length1 && (i, c) != (row.value, col.value) ==> dataset[i, c] == old(dataset[i, c]))
      ensures timestamps == old(timestamps) && time0 == old(time0) && timestep == old(timestep) && origin == old(origin)
      ensures datasetName == old(datasetName) && groupMetadata == old(groupMetadata) && datasetMetadata == old(datasetMetadata)
    {
      if origin == Unset {
        return Err("TypeError: unsupported operand type(s) for -");
      }
      if origin == PythonInts && timestep == 0 {
        return Err("ZeroDivisionError: integer division or modulo by zero");
      }
      var tIndex := FloorDiv(epoch - time0, timestep);
      if tIndex >= |timestamps| {
        return Ok(false);
      }
      var cIndex: nat;
      if name in columnMap {
        cIndex := columnMap[name];
      } else {
        cIndex := AddColumn(name);
      }
      var row, col := NumpyIndex(tIndex, dataset.Length0), NumpyIndex(cIndex, dataset.Length1);
      if row.None? || col.None? {
        return Err("index out of bounds");
      }
      var oldValue := dataset[row.value, col.value];
      dataset[row.value, col.value] := NewCell(oldValue, value, reducer);
      return Ok(true);
    }

    /** `missing_matrix`: 1 exactly where a cell was never populated (or,
        with `inverse`, exactly where it was), 0 elsewhere. */
    function MissingMatrix(inverse: bool): (m: seq<seq<int>>)
      requires dataset != null
      reads this, dataset
      ensures |m| == dataset.Length0
      ensures forall r :: 0 <= r < |m| ==> |m[r]| == dataset.Length1
      ensures forall r, c :: 0 <= r < |m| && 0 <= c < dataset.Length1 ==>
        (m[r][c] == 1 <==> (dataset[r, c] == Missing) != inverse) && (m[r][c] == 0 || m[r][c] == 1)
    {
      var a := dataset;
      seq(a.Length0, r requires 0 <= r < a.Length0 reads a =>
        seq(a.Length1, c requires 0 <= c < a.Length1 reads a =>
          if (a[r, c] == Missing) != inverse then 1 else 0))
    }

    /** `convert_to_deltas`: the matrix becomes its deltas, one row shorter,
        and the last timestamp is dropped.  An empty matrix raises before
        anything changes. */
    method ConvertToDeltas() returns (ok: bool)
      requires dataset != null
      modifies this
      ensures ok <==> old(dataset.Length0) >= 1
      ensures !ok ==> dataset == old(dataset) && timestamps == old(timestamps)
      ensures ok ==> dataset != null && fresh(dataset) && dataset.Length0 == old(dataset.Length0) - 1 && dataset.Length1 == old(dataset.Length1)
      ensures ok ==> forall i, c :: 0 <= i < dataset.Length0 && 0 <= c < dataset.Length1 ==> dataset[i, c] == DeltaAt(Column(old(dataset), c), i)
      ensures ok ==> timestamps == Slice(old(timestamps), 0, -1)
      ensures ok && old(|timestamps| == dataset.Length0) ==> |timestamps| == dataset.Length0
      ensures columns == old(columns) && columnMap == old(columnMap) && numColumns == old(numColumns)
    {
      var r := TimeseriesDeltas(dataset);
      if r.Err? {
        return false;
      }
      dataset := r.value;
      timestamps := Slice(timestamps, 0, -1);
      return true;
    }

    /** `trim_rows(n)`: keep the rows and timestamps of the slice `[0:-n]`;
        `n == 0` keeps none. */
    method TrimRows(n: int)
      requires dataset != null
      modifies this
      ensures dataset != null && fresh(dataset) && dataset.Length1 == old(dataset.Length1)
      ensures dataset.Length0 == |Slice(Identity(old(dataset.Length0)), 0, -n)|
      ensures forall i, c :: 0 <= i < dataset.Length0 && 0 <= c < dataset.Length1 ==> dataset[i, c] == old(dataset[i, c])
      ensures timestamps == Slice(old(timestamps), 0, -n)
      ensures n == 0 ==> dataset.Length0 == 0 && timestamps == []
      ensures 0 < n <= old(dataset.Length0) ==> dataset.Length0 == old(dataset.Length0) - n
      ensures columns == old(columns) && columnMap == old(columnMap) && numColumns == old(numColumns)
    {
      var keep := |Slice(Identity(dataset.Length0), 0, -n)|;
      var src := dataset;
      dataset := new Cell[keep, src.Length1]((i, c) requires 0 <= i < keep && 0 <= c < src.Length1 reads src => src[i, c]);
      timestamps := Slice(timestamps, 0, -n);
    }
  }

  /** What a committed object left in the store: its timestamps under its
      group, its matrix and its names attribute under its dataset name. */
  ghost predicate StoredAs(out: Store, name: string, key: string, stamps: seq<int>, m: seq<seq<Cell>>, cols: seq<string>, width: nat) {
    name in out.datasets && Shaped(out.datasets[name]) && out.datasets[name].cells == m && out.datasets[name].width == width &&
    ColumnNameKey in out.datasets[name].attrs && out.datasets[name].attrs[ColumnNameKey] == NamesAttr(cols) &&
    GroupName(name) + "/" + key in out.timestamps && out.timestamps[GroupName(name) + "/" + key] == stamps
  }

  /** `commit_dataset2d`, summarised by what an attach reads back. */
  method CommitStored(ts: TimeSeries, store: Store, now: int) returns (out: Store, ok: bool)
    requires ts.Valid() && ts.dataset != null
    modifies ts`columns, ts`columnMap, ts`datasetMetadata, ts.dataset
    ensures ts.dataset != null
    ensures ok ==> StoredAs(out, ts.datasetName, ts.timestampKey, ts.timestamps, ts.Matrix(), ts.columns, ts.dataset.Length1)
  {
    out, ok := ts.CommitDataset2d(store, now);
    if ok {
      var stored := out.datasets[ts.datasetName];
      assert stored.cells == ts.Matrix() && Shaped(stored) && stored.width == ts.dataset.Length1;
      assert ColumnNameKey in stored.attrs && stored.attrs[ColumnNameKey] == NamesAttr(ts.columns);
    }
  }

  /** Committing an object and attaching a new one to the committed group
      and dataset: after a commit the attach raises exactly when there are
      fewer than two timestamps, and otherwise it reads back the object's
      timestamps, matrix, and names (cut to the matrix width). */
  method CommitThenAttach(ts: TimeSeries, store: Store, now: int) returns (committed: bool, attached: bool, back: TimeSeries)
    requires ts.Valid() && ts.dataset != null
    modifies ts, ts.dataset
    ensures attached ==> committed
    ensures committed ==> (attached <==> |ts.timestamps| >= 2)
    ensures attached ==> ts.dataset != null && back.dataset != null
    ensures attached ==> back.timestamps == ts.timestamps && back.Matrix() == ts.Matrix()
    ensures attached ==> back.columns == Slice(ts.columns, 0, ts.dataset.Length1)
    ensures attached ==> ColumnNameKey in back.datasetMetadata && back.datasetMetadata[ColumnNameKey] == NamesAttr(ts.columns)
  {
    var out;
    out, committed := CommitStored(ts, store, now);
    if !committed {
      back := new TimeSeries.Empty(ts.timestampKey, ts.sortHex);
      return committed, false, back;
    }
    attached, back := AttachStored(out, ts.datasetName, ts.timestampKey, ts.sortHex);
  }

  /** `TimeSeries(group=...)` followed by `attach_dataset2d` on a stored
      group and dataset whose names attribute is a list: the constructor
      raises unless the group has at least two timestamps, and otherwise
      the object holds the stored timestamps, cells, truncated names and
      attributes. */
  method AttachStored(out: Store, name: string, key: string, hex: bool) returns (ok: bool, back: TimeSeries)
    requires name in out.datasets && Shaped(out.datasets[name])
    requires ColumnNameKey in out.datasets[name].attrs && out.datasets[name].attrs[ColumnNameKey].NamesAttr?
    ensures back.timestampKey == key
    ensures ok <==> GroupName(name) + "/" + key in out.timestamps && |out.timestamps[GroupName(name) + "/" + key]| >= 2
    ensures ok ==> back.dataset != null && back.timestamps == out.timestamps[GroupName(name) + "/" + key]
    ensures ok ==> back.dataset != null && back.Matrix() == out.datasets[name].cells
    ensures ok ==> back.columns == Slice(out.datasets[name].attrs[ColumnNameKey].names, 0, out.datasets[name].width)
    ensures ok ==>
      ColumnNameKey in back.datasetMetadata && back.datasetMetadata[ColumnNameKey] == out.datasets[name].attrs[ColumnNameKey]
  {
    var stored := out.datasets[name];
    back := new TimeSeries.Empty(key, hex);
    ok := back.AttachGroup(out, GroupName(name));
    if !ok {
      return;
    }
    var attached := back.AttachDataset2d(name, stored);
    assert attached;
  }

  /** A grid built with a zero Python-integer step (`start == end`, so the
      constructor accepts it and there are no timestamps): the bin division
      comes before the bounds check, so inserting raises ZeroDivisionError. */
  method ZeroStepFromRangeRaises() returns (r: Result<bool>)
    ensures r.Err?
  {
    var ts := new TimeSeries.FromRange(5, 5, 0, "timestamps", false);
    ts.InitDataset2d("/g/d", 1, Missing);
    r := ts.InsertElement(9, "n0", Val(3), None);
  }

  /** A group whose stored timestamps repeat (`[5, 5, 7]`) attaches with a
      numpy step of 0; numpy's integer division by zero gives 0, so an
      insert lands in row 0. */
  method ZeroStepAttachedFillsFirstRow() returns (r: Result<bool>, first: Cell)
    ensures r == Ok(true) && first == Val(3)
  {
    var ts := new TimeSeries.Empty("timestamps", false);
    var store := Store(map["/g/timestamps" := [5, 5, 7]], map[], map[]);
    assert "/g" + "/" + "timestamps" == "/g/timestamps";
    var ok := ts.AttachGroup(store, "/g");
    ts.InitDataset2d("/g/d", 1, Missing);
    r := ts.InsertElement(9, "n0", Val(3), None);
    first := ts.dataset[0, 0];
  }

  /** A swap applied to a layout that already moved data columns moves the
      moved columns: its sources are the composition. */
  lemma SwapComposes(l: Layout, i: nat, j: nat)
    requires InRange(l.source)
    ensures var p, q := SwapLayout(l, i, j), SwapLayout(Layout(l.columns, l.columnMap, Identity(|l.source|)), i, j);
      p.failed == q.failed && p.layout.columns == q.layout.columns && p.layout.columnMap == q.layout.columnMap &&
      InRange(q.layout.source) && p.layout.source == Compose(l.source, q.layout.source)
  {
    var w := |l.source|;
    if j < w && i < w {
      SwappedFrom(l.source, i, j);
      SwappedFrom(Identity(w), i, j);
    }
  }

  /** `sort_columns` on duplicate-free names, in a matrix at least as
      wide: it never raises, the names end in natural order, and each keeps
      its data column. */
  lemma SortPermutes(l: Layout, hex: bool)
    requires Distinct(l.columns) && MapConsistent(l.columns, l.columnMap) && |l.columns| <= |l.source|
    ensures PermutedLayout(l, SortedNodenames(l.columns, hex), Rearrange(l, SortedNodenames(l.columns, hex)))
  {
    var order := SortedNodenames(l.columns, hex);
    PermutationOfDistinct(order, l.columns);
    RearrangePermutes(l, order);
  }
}
