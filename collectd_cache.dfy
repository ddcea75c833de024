/** bin/cache_collectdes_supplemental.py: collectd disk documents taken
    from ElasticSearch pages into two in-memory matrices (bytes read and
    written), one row per 10-second bin and one column per server, plus the
    column names recovered from the hostname -> column map.  Timestamps are
    integer epoch seconds. */
module CollectdCache {
  import opened Wrappers
  import opened Cells
  import TS = TimeSeriesEngine

  /** `COLLECTD_TIMESTEP`: the polling interval in seconds. */
  const CollectdTimestep := 10

  /** The server count `cache_collectdes` allocates for. */
  const NumServers := 288

  /** Python's `int(x / 10.0)`: truncation toward zero. */
  function TruncDiv(a: int, b: int): (q: int)
    requires b > 0
    ensures a >= 0 ==> q == a / b
    ensures a < 0 ==> q == -((-a) / b)
  {
    if a >= 0 then a / b else -((-a) / b)
  }

  /** `num_bins = int(date_range / COLLECTD_TIMESTEP)`. */
  function NumBins(start: int, end: int): int {
    TruncDiv(end - start, CollectdTimestep)
  }

  /** The cells of a matrix, row by row. */
  ghost function Matrix(a: array2<Cell>): (m: seq<seq<Cell>>)
    reads a
    ensures |m| == a.Length0 && forall r :: 0 <= r < |m| ==> |m[r]| == a.Length1
  {
    seq(a.Length0, r requires 0 <= r < a.Length0 reads a =>
      seq(a.Length1, c requires 0 <= c < a.Length1 reads a => a[r, c]))
  }

  /** `init_datasets(start_time, end_time, num_servers)`: a matrix of
      `int(range / 10)` rows, every cell -0.0, and the timestamps from
      `start` in steps of 10 while below `end`.  A negative bin count makes
      `numpy.full` raise. */
  method InitDatasets(start: int, end: int, numServers: nat) returns (ok: bool, rows: seq<int>, data: array2<Cell>)
    ensures ok <==> NumBins(start, end) >= 0
    ensures ok ==> fresh(data) && data.Length0 == NumBins(start, end) && data.Length1 == numServers
    ensures ok ==> forall r, c :: 0 <= r < data.Length0 && 0 <= c < data.Length1 ==> data[r, c] == Missing
    ensures ok ==> rows == TS.Grid(start, end, CollectdTimestep)
  {
    var bins := TruncDiv(end - start, CollectdTimestep);
    if bins < 0 {
      data := new Cell[0, 0];
      return false, [], data;
    }
    data := new Cell[bins, numServers]((r, c) => Missing);
    var timeList: seq<int> := [];
    var timestamp := start;
    while timestamp < end
      invariant TS.Grid(start, end, CollectdTimestep) == timeList + TS.Grid(timestamp, end, CollectdTimestep)
      decreases end - timestamp
    {
      timeList := timeList + [timestamp];
      timestamp := timestamp + CollectdTimestep;
    }
    return true, timeList, data;
  }

  /** There is one timestamp more than there are rows exactly when the
      range is not a whole number of 10-second steps. */
  lemma RowsVersusTimestamps(start: int, end: int)
    requires start < end
    ensures var g := TS.Grid(start, end, CollectdTimestep);
      |g| == NumBins(start, end) + (if (end - start) % CollectdTimestep == 0 then 0 else 1)
  {
    TS.GridSpec(start, end, CollectdTimestep);
    var g := TS.Grid(start, end, CollectdTimestep);
    var n := |g|;
    assert g[n - 1] == start + (n - 1) * CollectdTimestep && g[n - 1] < end;
    assert start + n * CollectdTimestep >= end;
  }

  // ---------------------------------------------------------------------
  // update_datasets

  /** The `_source` fields a disk document is read for. */
  datatype Source = Source(plugin: string, hostname: string, timestamp: int, read: Option<int>, write: Option<int>)

  /** An ElasticSearch hit, with or without `_source`. */
  datatype Document = Document(source: Option<Source>)

  /** The column map and both matrices, and the error that stopped the
      ingest, if one did. */
  datatype Ingested = Ingested(columnMap: map<string, nat>, read: seq<seq<Cell>>, write: seq<seq<Cell>>, err: Option<string>)

  /** `dataset[t, s] = v`: numpy wraps a negative row index once and raises
      past either end. */
  function Place(m: seq<seq<Cell>>, t: int, s: nat, v: int): (r: Option<seq<seq<Cell>>>)
    ensures r.Some? <==> NumpyIndex(t, |m|).Some? && s < |m[NumpyIndex(t, |m|).value]|
  {
    var row := NumpyIndex(t, |m|);
    if row.None? || s >= |m[row.value]| then None
    else Some(m[row.value := m[row.value][s := Val(v)]])
  }

  /** The column of a hostname: its entry, or the next free index, which
      is added to the map. */
  function Column(columnMap: map<string, nat>, host: string): (map<string, nat>, nat) {
    if host in columnMap then (columnMap, columnMap[host]) else (columnMap[host := |columnMap|], |columnMap|)
  }

  /** Whether a document is a disk reading that `update_datasets` stores. */
  predicate IsDiskReading(doc: Document) {
    doc.source.Some? && doc.source.value.plugin == "disk" && doc.source.value.read.Some?
  }

  /** The bin of a timestamp: `(timestamp - time0) / timestep` on numpy
      integers (floor division). */
  function Bin(timestamp: int, time0: int, step: int): int {
    FloorDiv(timestamp - time0, step)
  }

  /** One document of the loop as written: the bounds check guards only
      the upper end, so a negative bin reaches `Place` and numpy wraps it
      to a row counted from the end. */
  function IngestDocAsWritten(st: Ingested, doc: Document, time0: int, step: int): Ingested {
    if !IsDiskReading(doc) then st
    else
      var src := doc.source.value;
      var t := Bin(src.timestamp, time0, step);
      var (columnMap, s) := Column(st.columnMap, src.hostname);
      if t >= |st.read| || t >= |st.write| then st.(columnMap := columnMap)
      else
        var r := Place(st.read, t, s, src.read.value);
        if r.None? then st.(columnMap := columnMap, err := Some("index out of bounds"))
        else if src.write.None? then Ingested(columnMap, r.value, st.write, Some("KeyError: 'write'"))
        else
          var w := Place(st.write, t, s, src.write.value);
          if w.None? then Ingested(columnMap, r.value, st.write, Some("index out of bounds"))
          else Ingested(columnMap, r.value, w.value, None)
  }

  /** The documents in order, as the loop is written, stopping at the
      first that raises. */
  function IngestAsWritten(st: Ingested, docs: seq<Document>, time0: int, step: int): Ingested {
    if docs == [] then st
    else
      var prev := IngestAsWritten(st, docs[..|docs| - 1], time0, step);
      if prev.err.Some? then prev else IngestDocAsWritten(prev, docs[|docs| - 1], time0, step)
  }

  /** The corrected document step: the bounds check applied at both ends,
      so a sample outside the rows is skipped (after its host got a
      column), as the "(0:rows)" warning of the source means it to be. */
  function IngestDoc(st: Ingested, doc: Document, time0: int, step: int): Ingested {
    if !IsDiskReading(doc) then st
    else
      var src := doc.source.value;
      var t := Bin(src.timestamp, time0, step);
      var (columnMap, s) := Column(st.columnMap, src.hostname);
      if t < 0 || t >= |st.read| || t >= |st.write| then st.(columnMap := columnMap)
      else
        var r := Place(st.read, t, s, src.read.value);
        if r.None? then st.(columnMap := columnMap, err := Some("index out of bounds"))
        else if src.write.None? then Ingested(columnMap, r.value, st.write, Some("KeyError: 'write'"))
        else
          var w := Place(st.write, t, s, src.write.value);
          if w.None? then Ingested(columnMap, r.value, st.write, Some("index out of bounds"))
          else Ingested(columnMap, r.value, w.value, None)
  }

  /** The corrected loop: the documents in order with the corrected
      step, stopping at the first that raises. */
  function Ingest(st: Ingested, docs: seq<Document>, time0: int, step: int): Ingested {
    if docs == [] then st
    else
      var prev := Ingest(st, docs[..|docs| - 1], time0, step);
      if prev.err.Some? then prev else IngestDoc(prev, docs[|docs| - 1], time0, step)
  }

  function Flatten(pages: seq<seq<Document>>): seq<Document> {
    if pages == [] then [] else Flatten(pages[..|pages| - 1]) + pages[|pages| - 1]
  }

  /** `update_datasets(pages, rows, ...)`: the first two timestamps give the
      origin and the step; fewer than two raise. */
  function Update(st: Ingested, pages: seq<seq<Document>>, rows: seq<int>): Ingested {
    if |rows| < 2 then st.(err := Some("index out of bounds"))
    else IngestAsWritten(st, Flatten(pages), rows[0], rows[1] - rows[0])
  }

  // ---------------------------------------------------------------------
  // Properties of the ingest

  /** A column map whose indices are exactly `0 .. |m| - 1`, one host each:
      what handing out `len(column_map)` to every new host builds. */
  predicate Dense(m: map<string, nat>) {
    (forall h :: h in m ==> m[h] < |m|)
    && (forall h, k :: h in m && k in m && m[h] == m[k] ==> h == k)
    && (forall i :: 0 <= i < |m| ==> Taken(m, i))
  }

  /** Some host has column `i`. */
  predicate Taken(m: map<string, nat>, i: int) {
    exists h :: h in m && m[h] == i
  }

  /** Two matrices with the same rows of the same widths. */
  predicate SameShape(a: seq<seq<Cell>>, b: seq<seq<Cell>>) {
    |a| == |b| && forall r :: 0 <= r < |a| ==> |a[r]| == |b[r]|
  }

  /** The map only grows: every host keeps its column. */
  predicate Extends(m: map<string, nat>, m': map<string, nat>) {
    forall h :: h in m ==> h in m' && m'[h] == m[h]
  }

  /** What a document may leave behind in cell `(r, c)`: it is a disk
      reading of bin `r` from the host of column `c`. */
  predicate CellFrom(doc: Document, time0: int, step: int, m: map<string, nat>, r: int, c: int) {
    IsDiskReading(doc)
    && Bin(doc.source.value.timestamp, time0, step) == r
    && doc.source.value.hostname in m && m[doc.source.value.hostname] == c
  }

  /** Giving a host a column keeps the map dense and every other host's
      column, and the host's column is its entry afterwards. */
  lemma ColumnKeepsDense(m: map<string, nat>, host: string)
    requires Dense(m)
    ensures var (m', s) := Column(m, host);
      Dense(m') && Extends(m, m') && host in m' && m'[host] == s && s < |m'|
      && (host in m ==> m' == m) && (host !in m ==> m'.Keys == m.Keys + {host})
  {
    if host !in m {
      var m' := m[host := |m|];
      assert m'.Keys == m.Keys + {host};
      assert |m'| == |m| + 1;
      forall i | 0 <= i < |m'|
        ensures Taken(m', i)
      {
        if i < |m| {
          assert Taken(m, i);
          var h :| h in m && m[h] == i;
          assert h in m' && m'[h] == i;
        } else {
          assert host in m' && m'[host] == i;
        }
      }
    }
  }

  /** A numpy row that a non-negative in-range index selects is that index. */
  lemma PlaceInRange(m: seq<seq<Cell>>, t: int, s: nat, v: int)
    requires 0 <= t < |m|
    ensures var p := Place(m, t, s, v);
      p.Some? <==> s < |m[t]|
    ensures var p := Place(m, t, s, v);
      p.Some? ==> (SameShape(m, p.value)
        && forall r, c :: 0 <= r < |m| && 0 <= c < |m[r]| ==>
          p.value[r][c] == (if r == t && c == s then Val(v) else m[r][c]))
  {
  }

  /** One document keeps the column map dense and extends it, keeps both
      matrices' shapes, and changes no cell except one of its own bin and
      host column. */
  lemma IngestDocEffect(st: Ingested, doc: Document, time0: int, step: int)
    requires Dense(st.columnMap)
    ensures var st' := IngestDoc(st, doc, time0, step);
      Dense(st'.columnMap) && Extends(st.columnMap, st'.columnMap)
      && SameShape(st.read, st'.read) && SameShape(st.write, st'.write)
    ensures var st' := IngestDoc(st, doc, time0, step);
      forall r, c :: 0 <= r < |st.read| && 0 <= c < |st.read[r]| && st'.read[r][c] != st.read[r][c] ==>
        CellFrom(doc, time0, step, st'.columnMap, r, c)
    ensures var st' := IngestDoc(st, doc, time0, step);
      forall r, c :: 0 <= r < |st.write| && 0 <= c < |st.write[r]| && st'.write[r][c] != st.write[r][c] ==>
        CellFrom(doc, time0, step, st'.columnMap, r, c)
  {
    if IsDiskReading(doc) {
      var src := doc.source.value;
      ColumnKeepsDense(st.columnMap, src.hostname);
      IngestDocCells(st, doc, time0, step);
    }
  }

  /** A disk reading changes at most the cell of its bin and its host's
      column, in either matrix. */
  lemma IngestDocCells(st: Ingested, doc: Document, time0: int, step: int)
    requires IsDiskReading(doc)
    ensures var st' := IngestDoc(st, doc, time0, step);
      var t := Bin(doc.source.value.timestamp, time0, step);
      var s := Column(st.columnMap, doc.source.value.hostname).1;
      st'.columnMap == Column(st.columnMap, doc.source.value.hostname).0
      && SameShape(st.read, st'.read) && SameShape(st.write, st'.write)
      && (forall r, c :: 0 <= r < |st.read| && 0 <= c < |st.read[r]| && st'.read[r][c] != st.read[r][c] ==> r == t && c == s)
      && (forall r, c :: 0 <= r < |st.write| && 0 <= c < |st.write[r]| && st'.write[r][c] != st.write[r][c] ==> r == t && c == s)
  {
    var src := doc.source.value;
    var t := Bin(src.timestamp, time0, step);
    var s := Column(st.columnMap, src.hostname).1;
    if !(t < 0 || t >= |st.read| || t >= |st.write|) {
      PlaceInRange(st.read, t, s, src.read.value);
      if src.write.Some? {
        PlaceInRange(st.write, t, s, src.write.value);
      }
    }
  }

  /** Cell `(row, s)` exists for the numpy row index `t`. */
  predicate Writable(m: seq<seq<Cell>>, t: int, s: nat) {
    NumpyIndex(t, |m|).Some? && s < |m[NumpyIndex(t, |m|).value]|
  }

  /** A numpy cell write changes exactly the cell of the row the index
      selects, keeping the shape. */
  lemma PlaceWrapped(m: seq<seq<Cell>>, t: int, s: nat, v: int)
    ensures Place(m, t, s, v).Some? <==> Writable(m, t, s)
    ensures var p := Place(m, t, s, v);
      p.Some? ==> (SameShape(m, p.value)
        && forall r, c :: 0 <= r < |m| && 0 <= c < |m[r]| ==>
          p.value[r][c] == (if r == NumpyIndex(t, |m|).value && c == s then Val(v) else m[r][c]))
  {
  }

  /** A disk reading as the loop is written: a bin at or past the last row
      is skipped after its host got a column; otherwise it raises unless
      both cells exist for the numpy index (a negative bin counts from the
      end) and a `write` value is present, and when it does not raise it
      stores `read` and `write` in the cells of that row and its host's
      column. */
  lemma IngestDocStores(st: Ingested, doc: Document, time0: int, step: int)
    requires IsDiskReading(doc)
    ensures var st' := IngestDocAsWritten(st, doc, time0, step);
      var src := doc.source.value;
      var t := Bin(src.timestamp, time0, step);
      t >= |st.read| || t >= |st.write| ==> st' == st.(columnMap := Column(st.columnMap, src.hostname).0)
    ensures var st' := IngestDocAsWritten(st, doc, time0, step);
      var src := doc.source.value;
      var t := Bin(src.timestamp, time0, step);
      var s := Column(st.columnMap, src.hostname).1;
      t < |st.read| && t < |st.write| ==>
        (st'.err.None? <==> Writable(st.read, t, s) && src.write.Some? && Writable(st.write, t, s))
    ensures var st' := IngestDocAsWritten(st, doc, time0, step);
      var src := doc.source.value;
      var t := Bin(src.timestamp, time0, step);
      var s := Column(st.columnMap, src.hostname).1;
      t < |st.read| && t < |st.write| && st'.err.None? ==>
        src.hostname in st'.columnMap && st'.columnMap[src.hostname] == s && src.write.Some?
        && NumpyIndex(t, |st.read|).Some? && NumpyIndex(t, |st.write|).Some?
        && s < |st'.read[NumpyIndex(t, |st.read|).value]| && s < |st'.write[NumpyIndex(t, |st.write|).value]|
        && st'.read[NumpyIndex(t, |st.read|).value][s] == Val(src.read.value)
        && st'.write[NumpyIndex(t, |st.write|).value][s] == Val(src.write.value)
  {
    var src := doc.source.value;
    var t := Bin(src.timestamp, time0, step);
    var (columnMap, s) := Column(st.columnMap, src.hostname);
    assert src.hostname in columnMap && columnMap[src.hostname] == s;
    if t < |st.read| && t < |st.write| {
      PlaceWrapped(st.read, t, s, src.read.value);
      if src.write.Some? {
        PlaceWrapped(st.write, t, s, src.write.value);
      }
    }
  }

  /** What a document may leave behind in cell `(r, c)` of an `n`-row
      matrix as the loop is written: it is a disk reading whose bin, as a
      numpy index, selects row `r`, from the host of column `c`. */
  predicate CellFromWrapped(doc: Document, time0: int, step: int, m: map<string, nat>, n: nat, r: int, c: int) {
    IsDiskReading(doc)
    && NumpyIndex(Bin(doc.source.value.timestamp, time0, step), n) == Some(r)
    && doc.source.value.hostname in m && m[doc.source.value.hostname] == c
  }

  /** A disk reading as written changes at most the cell of the row its
      bin selects and its host's column, in either matrix. */
  lemma IngestDocAsWrittenCells(st: Ingested, doc: Document, time0: int, step: int)
    requires IsDiskReading(doc)
    ensures var st' := IngestDocAsWritten(st, doc, time0, step);
      var t := Bin(doc.source.value.timestamp, time0, step);
      var s := Column(st.columnMap, doc.source.value.hostname).1;
      st'.columnMap == Column(st.columnMap, doc.source.value.hostname).0
      && SameShape(st.read, st'.read) && SameShape(st.write, st'.write)
      && (forall r, c :: 0 <= r < |st.read| && 0 <= c < |st.read[r]| && st'.read[r][c] != st.read[r][c] ==>
            NumpyIndex(t, |st.read|) == Some(r) && c == s)
      && (forall r, c :: 0 <= r < |st.write| && 0 <= c < |st.write[r]| && st'.write[r][c] != st.write[r][c] ==>
            NumpyIndex(t, |st.write|) == Some(r) && c == s)
  {
    var src := doc.source.value;
    var t := Bin(src.timestamp, time0, step);
    var s := Column(st.columnMap, src.hostname).1;
    if t < |st.read| && t < |st.write| {
      PlaceWrapped(st.read, t, s, src.read.value);
      if src.write.Some? {
        PlaceWrapped(st.write, t, s, src.write.value);
      }
    }
  }

  /** One document as written keeps the column map dense and extends it,
      keeps both matrices' shapes, and changes no cell except one of the
      row its bin selects and of its host's column. */
  lemma IngestDocAsWrittenEffect(st: Ingested, doc: Document, time0: int, step: int)
    requires Dense(st.columnMap)
    ensures var st' := IngestDocAsWritten(st, doc, time0, step);
      Dense(st'.columnMap) && Extends(st.columnMap, st'.columnMap)
      && SameShape(st.read, st'.read) && SameShape(st.write, st'.write)
    ensures var st' := IngestDocAsWritten(st, doc, time0, step);
      forall r, c :: 0 <= r < |st.read| && 0 <= c < |st.read[r]| && st'.read[r][c] != st.read[r][c] ==>
        CellFromWrapped(doc, time0, step, st'.columnMap, |st.read|, r, c)
    ensures var st' := IngestDocAsWritten(st, doc, time0, step);
      forall r, c :: 0 <= r < |st.write| && 0 <= c < |st.write[r]| && st'.write[r][c] != st.write[r][c] ==>
        CellFromWrapped(doc, time0, step, st'.columnMap, |st.write|, r, c)
  {
    if IsDiskReading(doc) {
      ColumnKeepsDense(st.columnMap, doc.source.value.hostname);
      IngestDocAsWrittenCells(st, doc, time0, step);
    }
  }

  /** Once the loop has raised, no further document is looked at. */
  lemma {:induction false} IngestStopped(st: Ingested, docs: seq<Document>, time0: int, step: int)
    requires st.err.Some?
    ensures IngestAsWritten(st, docs, time0, step) == st
    decreases |docs|
  {
    if docs != [] {
      IngestStopped(st, docs[..|docs| - 1], time0, step);
    }
  }

  /** The documents of `a + b` are those of `a`, then those of `b`. */
  lemma {:induction false} IngestAppend(st: Ingested, a: seq<Document>, b: seq<Document>, time0: int, step: int)
    ensures IngestAsWritten(st, a + b, time0, step) == IngestAsWritten(IngestAsWritten(st, a, time0, step), b, time0, step)
    decreases |b|
  {
    if b == [] {
      assert a + b == a;
    } else {
      assert (a + b)[..|a + b| - 1] == a + b[..|b| - 1];
      assert (a + b)[|a + b| - 1] == b[|b| - 1];
      IngestAppend(st, a, b[..|b| - 1], time0, step);
    }
  }

  /** A loop that raised at document `k` ends in that state. */
  lemma {:induction false} IngestStopsAt(st: Ingested, docs: seq<Document>, k: nat, time0: int, step: int)
    requires k < |docs| && IngestAsWritten(st, docs[..k + 1], time0, step).err.Some?
    ensures IngestAsWritten(st, docs, time0, step) == IngestAsWritten(st, docs[..k + 1], time0, step)
  {
    assert docs == docs[..k + 1] + docs[k + 1..];
    IngestAppend(st, docs[..k + 1], docs[k + 1..], time0, step);
    IngestStopped(IngestAsWritten(st, docs[..k + 1], time0, step), docs[k + 1..], time0, step);
  }

  /** The whole loop as written keeps the map dense and growing and the
      shapes, and every cell it changed was left there by one of the
      documents, a disk reading whose bin selects that cell's row (counting
      from the end when negative) from the host of that cell's column. */
  lemma {:induction false} IngestAsWrittenEffect(st: Ingested, docs: seq<Document>, time0: int, step: int)
    requires Dense(st.columnMap)
    ensures var st' := IngestAsWritten(st, docs, time0, step);
      Dense(st'.columnMap) && Extends(st.columnMap, st'.columnMap)
      && SameShape(st.read, st'.read) && SameShape(st.write, st'.write)
    ensures var st' := IngestAsWritten(st, docs, time0, step);
      forall r, c :: 0 <= r < |st.read| && 0 <= c < |st.read[r]| && st'.read[r][c] != st.read[r][c] ==>
        exists i :: 0 <= i < |docs| && CellFromWrapped(docs[i], time0, step, st'.columnMap, |st.read|, r, c)
    ensures var st' := IngestAsWritten(st, docs, time0, step);
      forall r, c :: 0 <= r < |st.write| && 0 <= c < |st.write[r]| && st'.write[r][c] != st.write[r][c] ==>
        exists i :: 0 <= i < |docs| && CellFromWrapped(docs[i], time0, step, st'.columnMap, |st.write|, r, c)
    decreases |docs|
  {
    if docs != [] {
      var init := docs[..|docs| - 1];
      IngestAsWrittenEffect(st, init, time0, step);
      var prev := IngestAsWritten(st, init, time0, step);
      if prev.err.None? {
        var last := docs[|docs| - 1];
        IngestDocAsWrittenEffect(prev, last, time0, step);
        var st' := IngestDocAsWritten(prev, last, time0, step);
        assert st' == IngestAsWritten(st, docs, time0, step);
        forall r, c | 0 <= r < |st.read| && 0 <= c < |st.read[r]| && st'.read[r][c] != st.read[r][c]
          ensures exists i :: 0 <= i < |docs| && CellFromWrapped(docs[i], time0, step, st'.columnMap, |st.read|, r, c)
        {
          if prev.read[r][c] != st.read[r][c] {
            var i :| 0 <= i < |init| && CellFromWrapped(init[i], time0, step, prev.columnMap, |st.read|, r, c);
            assert docs[i] == init[i];
          } else {
            assert CellFromWrapped(docs[|docs| - 1], time0, step, st'.columnMap, |st.read|, r, c);
          }
        }
        forall r, c | 0 <= r < |st.write| && 0 <= c < |st.write[r]| && st'.write[r][c] != st.write[r][c]
          ensures exists i :: 0 <= i < |docs| && CellFromWrapped(docs[i], time0, step, st'.columnMap, |st.write|, r, c)
        {
          if prev.write[r][c] != st.write[r][c] {
            var i :| 0 <= i < |init| && CellFromWrapped(init[i], time0, step, prev.columnMap, |st.write|, r, c);
            assert docs[i] == init[i];
          } else {
            assert CellFromWrapped(docs[|docs| - 1], time0, step, st'.columnMap, |st.write|, r, c);
          }
        }
      } else {
        forall r, c | 0 <= r < |st.read| && 0 <= c < |st.read[r]| && prev.read[r][c] != st.read[r][c]
          ensures exists i :: 0 <= i < |docs| && CellFromWrapped(docs[i], time0, step, prev.columnMap, |st.read|, r, c)
        {
          var i :| 0 <= i < |init| && CellFromWrapped(init[i], time0, step, prev.columnMap, |st.read|, r, c);
          assert docs[i] == init[i];
        }
        forall r, c | 0 <= r < |st.write| && 0 <= c < |st.write[r]| && prev.write[r][c] != st.write[r][c]
          ensures exists i :: 0 <= i < |docs| && CellFromWrapped(docs[i], time0, step, prev.columnMap, |st.write|, r, c)
        {
          var i :| 0 <= i < |init| && CellFromWrapped(init[i], time0, step, prev.columnMap, |st.write|, r, c);
          assert docs[i] == init[i];
        }
      }
    }
  }

  /** The whole corrected loop keeps the map dense and growing and the
      shapes, and every cell it changed was left there by one of the
      documents, a disk reading of that cell's bin from the host of that
      cell's column. */
  lemma {:induction false} IngestEffect(st: Ingested, docs: seq<Document>, time0: int, step: int)
    requires Dense(st.columnMap)
    ensures var st' := Ingest(st, docs, time0, step);
      Dense(st'.columnMap) && Extends(st.columnMap, st'.columnMap)
      && SameShape(st.read, st'.read) && SameShape(st.write, st'.write)
    ensures var st' := Ingest(st, docs, time0, step);
      forall r, c :: 0 <= r < |st.read| && 0 <= c < |st.read[r]| && st'.read[r][c] != st.read[r][c] ==>
        exists i :: 0 <= i < |docs| && CellFrom(docs[i], time0, step, st'.columnMap, r, c)
    ensures var st' := Ingest(st, docs, time0, step);
      forall r, c :: 0 <= r < |st.write| && 0 <= c < |st.write[r]| && st'.write[r][c] != st.write[r][c] ==>
        exists i :: 0 <= i < |docs| && CellFrom(docs[i], time0, step, st'.columnMap, r, c)
    decreases |docs|
  {
    if docs != [] {
      var init := docs[..|docs| - 1];
      IngestEffect(st, init, time0, step);
      var prev := Ingest(st, init, time0, step);
      if prev.err.None? {
        var last := docs[|docs| - 1];
        IngestDocEffect(prev, last, time0, step);
        var st' := IngestDoc(prev, last, time0, step);
        assert st' == Ingest(st, docs, time0, step);
        forall r, c | 0 <= r < |st.read| && 0 <= c < |st.read[r]| && st'.read[r][c] != st.read[r][c]
          ensures exists i :: 0 <= i < |docs| && CellFrom(docs[i], time0, step, st'.columnMap, r, c)
        {
          if prev.read[r][c] != st.read[r][c] {
            var i :| 0 <= i < |init| && CellFrom(init[i], time0, step, prev.columnMap, r, c);
            assert docs[i] == init[i];
          } else {
            assert CellFrom(docs[|docs| - 1], time0, step, st'.columnMap, r, c);
          }
        }
        forall r, c | 0 <= r < |st.write| && 0 <= c < |st.write[r]| && st'.write[r][c] != st.write[r][c]
          ensures exists i :: 0 <= i < |docs| && CellFrom(docs[i], time0, step, st'.columnMap, r, c)
        {
          if prev.write[r][c] != st.write[r][c] {
            var i :| 0 <= i < |init| && CellFrom(init[i], time0, step, prev.columnMap, r, c);
            assert docs[i] == init[i];
          } else {
            assert CellFrom(docs[|docs| - 1], time0, step, st'.columnMap, r, c);
          }
        }
      } else {
        forall r, c | 0 <= r < |st.read| && 0 <= c < |st.read[r]| && prev.read[r][c] != st.read[r][c]
          ensures exists i :: 0 <= i < |docs| && CellFrom(docs[i], time0, step, prev.columnMap, r, c)
        {
          var i :| 0 <= i < |init| && CellFrom(init[i], time0, step, prev.columnMap, r, c);
          assert docs[i] == init[i];
        }
        forall r, c | 0 <= r < |st.write| && 0 <= c < |st.write[r]| && prev.write[r][c] != st.write[r][c]
          ensures exists i :: 0 <= i < |docs| && CellFrom(docs[i], time0, step, prev.columnMap, r, c)
        {
          var i :| 0 <= i < |init| && CellFrom(init[i], time0, step, prev.columnMap, r, c);
          assert docs[i] == init[i];
        }
      }
    }
  }

  /** A document whose bin is `r` has its timestamp in the `r`-th step
      after `time0`. */
  lemma BinBounds(timestamp: int, time0: int, step: int)
    requires step > 0
    ensures var r := Bin(timestamp, time0, step);
      time0 + r * step <= timestamp < time0 + (r + 1) * step
  {
  }

  /** Only the disk readings matter: dropping every other document gives
      the same result. */
  function DiskReadings(docs: seq<Document>): (r: seq<Document>)
    ensures |r| <= |docs|
    ensures forall i :: 0 <= i < |r| ==> IsDiskReading(r[i])
  {
    if docs == [] then []
    else
      var init := DiskReadings(docs[..|docs| - 1]);
      if IsDiskReading(docs[|docs| - 1]) then init + [docs[|docs| - 1]] else init
  }

  lemma {:induction false} OnlyDiskReadingsMatter(st: Ingested, docs: seq<Document>, time0: int, step: int)
    ensures IngestAsWritten(st, docs, time0, step) == IngestAsWritten(st, DiskReadings(docs), time0, step)
    decreases |docs|
  {
    if docs != [] {
      var init := docs[..|docs| - 1];
      var last := docs[|docs| - 1];
      OnlyDiskReadingsMatter(st, init, time0, step);
      if IsDiskReading(last) {
        var d := DiskReadings(init) + [last];
        assert d[..|d| - 1] == DiskReadings(init);
      } else {
        var prev := IngestAsWritten(st, init, time0, step);
        assert IngestDocAsWritten(prev, last, time0, step) == prev;
      }
    }
  }

  // ---------------------------------------------------------------------
  // The lower bound the source does not check

  /** A sample one step before `time0` on a two-row matrix: as written, it
      lands in the last row; with the lower bound checked it is skipped. */
  lemma EarlySampleWraps()
    ensures var st := Ingested(map[], [[Missing], [Missing]], [[Missing], [Missing]], None);
      var doc := Document(Some(Source("disk", "bb01", 90, Some(5), Some(7))));
      IngestDocAsWritten(st, doc, 100, 10).read == [[Missing], [Val(5)]]
      && IngestDocAsWritten(st, doc, 100, 10).write == [[Missing], [Val(7)]]
      && IngestDoc(st, doc, 100, 10) == st.(columnMap := map["bb01" := 0])
  {
    var st := Ingested(map[], [[Missing], [Missing]], [[Missing], [Missing]], None);
    assert Bin(90, 100, 10) == -1;
    assert Column(st.columnMap, "bb01") == (map["bb01" := 0], 0);
    assert NumpyIndex(-1, 2) == Some(1);
    var cells: seq<seq<Cell>> := [[Missing], [Missing]];
    assert cells[1][0 := Val(5)] == [Val(5)] && cells[1][0 := Val(7)] == [Val(7)];
    assert cells[1 := [Val(5)]] == [[Missing], [Val(5)]];
    assert cells[1 := [Val(7)]] == [[Missing], [Val(7)]];
    assert Place(cells, -1, 0, 5) == Some([[Missing], [Val(5)]]);
    assert Place(cells, -1, 0, 7) == Some([[Missing], [Val(7)]]);
  }

  /** The two agree on every document whose bin is not negative. */
  lemma AsWrittenAgreesFromStart(st: Ingested, doc: Document, time0: int, step: int)
    requires IsDiskReading(doc) ==> Bin(doc.source.value.timestamp, time0, step) >= 0
    ensures IngestDocAsWritten(st, doc, time0, step) == IngestDoc(st, doc, time0, step)
  {
    if IsDiskReading(doc) {
      var t := Bin(doc.source.value.timestamp, time0, step);
      assert !(t < 0);
    }
  }

  /** The loop as written and the corrected loop agree on documents whose
      disk readings all have a bin that is not negative. */
  lemma {:induction false} IngestAgreesFromStart(st: Ingested, docs: seq<Document>, time0: int, step: int)
    requires forall i :: 0 <= i < |docs| && IsDiskReading(docs[i]) ==> Bin(docs[i].source.value.timestamp, time0, step) >= 0
    ensures IngestAsWritten(st, docs, time0, step) == Ingest(st, docs, time0, step)
    decreases |docs|
  {
    if docs != [] {
      var init := docs[..|docs| - 1];
      assert forall i :: 0 <= i < |init| ==> init[i] == docs[i];
      IngestAgreesFromStart(st, init, time0, step);
      var prev := Ingest(st, init, time0, step);
      if prev.err.None? {
        AsWrittenAgreesFromStart(prev, docs[|docs| - 1], time0, step);
      }
    }
  }

  // ---------------------------------------------------------------------
  // The in-place loop

  /** The `column_map` dictionary `update_datasets` fills in. */
  class HostColumns {
    var columnMap: map<string, nat>

    constructor ()
      ensures columnMap == map[]
    {
      columnMap := map[];
    }
  }

  /** `dataset[t, s] = v` with numpy's indexing: a negative row index
      counts from the end, and a cell that does not exist raises. */
  method Store(a: array2<Cell>, t: int, s: nat, v: int) returns (ok: bool)
    modifies a
    ensures var p := Place(old(Matrix(a)), t, s, v);
      ok == p.Some? && Matrix(a) == (if ok then p.value else old(Matrix(a)))
  {
    var row := NumpyIndex(t, a.Length0);
    if row.None? || s >= a.Length1 {
      return false;
    }
    ghost var m := old(Matrix(a))[row.value := old(Matrix(a))[row.value][s := Val(v)]];
    a[row.value, s] := Val(v);
    assert forall r | 0 <= r < a.Length0 :: Matrix(a)[r] == m[r];
    return true;
  }

  /** The body of the inner loop for one document, as written: only a bin
      at or past the last row is skipped. */
  method IngestOne(doc: Document, time0: int, step: int, columns: HostColumns, read: array2<Cell>, write: array2<Cell>)
    returns (err: Option<string>)
    requires read != write
    modifies columns, read, write
    ensures Ingested(columns.columnMap, Matrix(read), Matrix(write), err)
      == IngestDocAsWritten(Ingested(old(columns.columnMap), old(Matrix(read)), old(Matrix(write)), None), doc, time0, step)
  {
    if !IsDiskReading(doc) {
      return None;
    }
    var src := doc.source.value;
    var t := FloorDiv(src.timestamp - time0, step);
    var s: nat;
    if src.hostname in columns.columnMap {
      s := columns.columnMap[src.hostname];
    } else {
      s := |columns.columnMap|;
      columns.columnMap := columns.columnMap[src.hostname := s];
    }
    if t >= read.Length0 || t >= write.Length0 {
      return None;
    }
    var ok := Store(read, t, s, src.read.value);
    if !ok {
      return Some("index out of bounds");
    }
    if src.write.None? {
      return Some("KeyError: 'write'");
    }
    ok := Store(write, t, s, src.write.value);
    if !ok {
      return Some("index out of bounds");
    }
    return None;
  }

  /** The inner loop over the documents of one page. */
  method IngestPage(page: seq<Document>, time0: int, step: int, columns: HostColumns, read: array2<Cell>, write: array2<Cell>)
    returns (err: Option<string>)
    requires read != write
    modifies columns, read, write
    ensures Ingested(columns.columnMap, Matrix(read), Matrix(write), err)
      == IngestAsWritten(Ingested(old(columns.columnMap), old(Matrix(read)), old(Matrix(write)), None), page, time0, step)
  {
    ghost var st0 := Ingested(columns.columnMap, Matrix(read), Matrix(write), None);
    var k := 0;
    while k < |page|
      invariant 0 <= k <= |page|
      invariant Ingested(columns.columnMap, Matrix(read), Matrix(write), None) == IngestAsWritten(st0, page[..k], time0, step)
    {
      assert page[..k + 1][..k] == page[..k];
      err := IngestOne(page[k], time0, step, columns, read, write);
      if err.Some? {
        IngestStopsAt(st0, page, k, time0, step);
        return;
      }
      k := k + 1;
    }
    assert page[..|page|] == page;
    return None;
  }

  lemma {:induction false} FlattenSplit(pages: seq<seq<Document>>, k: nat)
    requires k <= |pages|
    ensures Flatten(pages) == Flatten(pages[..k]) + Flatten(pages[k..])
    decreases |pages|
  {
    if |pages| == k {
      assert pages[..k] == pages && pages[k..] == [];
    } else {
      var n := |pages|;
      FlattenSplit(pages[..n - 1], k);
      assert pages[..n - 1][..k] == pages[..k];
      assert pages[k..][..|pages[k..]| - 1] == pages[..n - 1][k..];
      assert pages[k..][|pages[k..]| - 1] == pages[n - 1];
    }
  }

  /** `update_datasets(pages, rows, column_map, read_dataset, write_dataset)`. */
  method UpdateDatasets(pages: seq<seq<Document>>, rows: seq<int>, columns: HostColumns, read: array2<Cell>, write: array2<Cell>)
    returns (err: Option<string>)
    requires read != write
    modifies columns, read, write
    ensures Ingested(columns.columnMap, Matrix(read), Matrix(write), err)
      == Update(Ingested(old(columns.columnMap), old(Matrix(read)), old(Matrix(write)), None), pages, rows)
  {
    if |rows| < 2 {
      return Some("index out of bounds");
    }
    var time0 := rows[0];
    var step := rows[1] - rows[0];
    ghost var st0 := Ingested(columns.columnMap, Matrix(read), Matrix(write), None);
    var p := 0;
    while p < |pages|
      invariant 0 <= p <= |pages|
      invariant Ingested(columns.columnMap, Matrix(read), Matrix(write), None) == IngestAsWritten(st0, Flatten(pages[..p]), time0, step)
    {
      assert pages[..p + 1][..p] == pages[..p];
      IngestAppend(st0, Flatten(pages[..p]), pages[p], time0, step);
      err := IngestPage(pages[p], time0, step, columns, read, write);
      if err.Some? {
        FlattenSplit(pages, p + 1);
        IngestAppend(st0, Flatten(pages[..p + 1]), Flatten(pages[p + 1..]), time0, step);
        IngestStopped(IngestAsWritten(st0, Flatten(pages[..p + 1]), time0, step), Flatten(pages[p + 1..]), time0, step);
        return;
      }
      p := p + 1;
    }
    assert pages[..|pages|] == pages;
    return None;
  }

  // ---------------------------------------------------------------------
  // Column names

  /** A list of column names consistent with the map: as long as the map,
      every host's slot filled, and every filled slot naming a host of
      that column. */
  predicate Names(m: map<string, nat>, names: seq<Option<string>>) {
    |names| == |m|
    && (forall h :: h in m ==> m[h] < |names| && names[m[h]].Some?)
    && (forall i :: 0 <= i < |names| && names[i].Some? ==> names[i].value in m && m[names[i].value] == i)
  }

  /** Every slot names the one host of its column. */
  predicate Complete(m: map<string, nat>, names: seq<Option<string>>) {
    |names| == |m| && forall i :: 0 <= i < |names| ==> names[i].Some? && names[i].value in m && m[names[i].value] == i
  }

  /** Some host's index lies past the end of a list as long as the map. */
  predicate PastEnd(m: map<string, nat>) {
    exists h :: h in m && m[h] >= |m|
  }

  /** `columns = [None] * len(column_map)`, then `columns[index] = name`
      for each entry; an index past the end raises. */
  method ColumnNames(m: map<string, nat>) returns (r: Result<seq<Option<string>>>)
    ensures r.Err? <==> PastEnd(m)
    ensures r.Ok? ==> Names(m, r.value)
  {
    var columns: seq<Option<string>> := seq(|m|, _ => None);
    var rest := m.Keys;
    while rest != {}
      invariant rest <= m.Keys
      invariant Filled(m, m.Keys - rest, columns)
      decreases |rest|
    {
      var h :| h in rest;
      if m[h] >= |columns| {
        assert PastEnd(m) by { assert h in m && m[h] >= |m|; }
        return Err("list assignment index out of range");
      }
      FillStep(m, m.Keys - rest, columns, h);
      assert m.Keys - (rest - {h}) == (m.Keys - rest) + {h};
      columns := columns[m[h] := Some(h)];
      rest := rest - {h};
    }
    FilledNames(m, m.Keys - rest, columns);
    return Ok(columns);
  }

  /** The loop state of `ColumnNames`: the hosts done so far have their
      slots filled, and every filled slot names one of them. */
  predicate Filled(m: map<string, nat>, done: set<string>, columns: seq<Option<string>>) {
    |columns| == |m|
    && (forall h :: h in done ==> h in m && m[h] < |columns| && columns[m[h]].Some?)
    && (forall i :: 0 <= i < |columns| && columns[i].Some? ==> columns[i].value in done && columns[i].value in m && m[columns[i].value] == i)
  }

  lemma FillStep(m: map<string, nat>, done: set<string>, columns: seq<Option<string>>, h: string)
    requires Filled(m, done, columns) && h in m && m[h] < |columns|
    ensures Filled(m, done + {h}, columns[m[h] := Some(h)])
  {
  }

  lemma FilledNames(m: map<string, nat>, done: set<string>, columns: seq<Option<string>>)
    requires Filled(m, done, columns) && done == m.Keys
    ensures Names(m, columns) && !PastEnd(m)
  {
  }

  /** With a dense map the names are complete: every slot is filled. */
  lemma DenseNamesComplete(m: map<string, nat>, names: seq<Option<string>>)
    requires Dense(m) && Names(m, names)
    ensures Complete(m, names)
    ensures forall h :: h in m ==> names[m[h]] == Some(h)
  {
    forall i | 0 <= i < |names|
      ensures names[i].Some?
    {
      assert Taken(m, i);
      var h :| h in m && m[h] == i;
    }
  }

  // ---------------------------------------------------------------------
  // check_create_dataset

  /** The datasets of an HDF5 file, by name, with their shapes. */
  class H5File {
    var shapes: map<string, seq<nat>>

    constructor (shapes: map<string, seq<nat>>)
      ensures this.shapes == shapes
    {
      this.shapes := shapes;
    }

    /** Create `name` with `shape` unless it exists; an existing dataset
        of another shape raises. */
    method CheckCreateDataset(name: string, shape: seq<nat>) returns (err: Option<string>)
      modifies this
      ensures (shapes, err) == CheckedCreate(old(shapes), name, shape)
    {
      if name in shapes {
        if shapes[name] != shape {
          return Some("dataset already exists with another shape");
        }
        return None;
      }
      shapes := shapes[name := shape];
      return None;
    }
  }

  /** The file after `check_create_dataset`, and its error. */
  function CheckedCreate(shapes: map<string, seq<nat>>, name: string, shape: seq<nat>): (r: (map<string, seq<nat>>, Option<string>))
    ensures r.1.None? <==> name !in shapes || shapes[name] == shape
    ensures r.1.None? ==> name in r.0 && r.0[name] == shape
    ensures forall n :: n != name ==> (n in r.0 <==> n in shapes) && (n in shapes ==> r.0[n] == shapes[n])
  {
    if name in shapes then
      (shapes, if shapes[name] != shape then Some("dataset already exists with another shape") else None)
    else (shapes[name := shape], None)
  }

  /** Checking a dataset a second time with the same shape changes nothing
      and does not raise. */
  lemma CheckedCreateIdempotent(shapes: map<string, seq<nat>>, name: string, shape: seq<nat>)
    requires CheckedCreate(shapes, name, shape).1.None?
    ensures var once := CheckedCreate(shapes, name, shape).0;
      CheckedCreate(once, name, shape) == (once, None)
  {
  }

  // ---------------------------------------------------------------------
  // cache_collectdes

  /** A `num_bins` by `width` matrix of -0.0. */
  function Blank(n: nat, width: nat): (b: seq<seq<Cell>>)
    ensures |b| == n && forall r :: 0 <= r < n ==> |b[r]| == width && forall c :: 0 <= c < width ==> b[r][c] == Missing
  {
    seq(n, _ => seq(width, _ => Missing))
  }

  /** The input files in order: one that is not valid JSON (`None`) is
      skipped; the first that raises ends the run. */
  function Files(st: Ingested, files: seq<Option<seq<seq<Document>>>>, rows: seq<int>): Ingested {
    if files == [] then st
    else
      var prev := Files(st, files[..|files| - 1], rows);
      var f := files[|files| - 1];
      if prev.err.Some? || f.None? then prev else Update(prev, f.value, rows)
  }

  /** The timestamps and the final state `cache_collectdes` commits, or
      the exception that stopped it. */
  function Cache(start: int, end: int, files: seq<Option<seq<seq<Document>>>>): (r: Result<(seq<int>, Ingested)>)
    ensures start >= end ==> r.Err?
  {
    if start >= end then Err("t_start >= t_end")
    else
      var bins := NumBins(start, end);
      var rows := TS.Grid(start, end, CollectdTimestep);
      var st := Files(Ingested(map[], Blank(bins, NumServers), Blank(bins, NumServers), None), files, rows);
      if st.err.Some? then Err(st.err.value) else Ok((rows, st))
  }

  /** `update_datasets` keeps the column map dense. */
  lemma UpdateKeepsDense(st: Ingested, pages: seq<seq<Document>>, rows: seq<int>)
    requires Dense(st.columnMap)
    ensures Dense(Update(st, pages, rows).columnMap)
  {
    if |rows| >= 2 {
      IngestAsWrittenEffect(st, Flatten(pages), rows[0], rows[1] - rows[0]);
    }
  }

  /** The loop over the input files. */
  method UpdateFiles(files: seq<Option<seq<seq<Document>>>>, rows: seq<int>, columns: HostColumns, read: array2<Cell>, write: array2<Cell>)
    returns (err: Option<string>)
    requires read != write && Dense(columns.columnMap)
    modifies columns, read, write
    ensures Ingested(columns.columnMap, Matrix(read), Matrix(write), err)
      == Files(Ingested(old(columns.columnMap), old(Matrix(read)), old(Matrix(write)), None), files, rows)
    ensures Dense(columns.columnMap)
  {
    ghost var st0 := Ingested(columns.columnMap, Matrix(read), Matrix(write), None);
    var i := 0;
    while i < |files|
      invariant 0 <= i <= |files|
      invariant Ingested(columns.columnMap, Matrix(read), Matrix(write), None) == Files(st0, files[..i], rows)
      invariant Dense(columns.columnMap)
    {
      assert files[..i + 1][..i] == files[..i];
      if files[i].Some? {
        UpdateKeepsDense(Ingested(columns.columnMap, Matrix(read), Matrix(write), None), files[i].value, rows);
        err := UpdateDatasets(files[i].value, rows, columns, read, write);
        if err.Some? {
          FilesStopAt(st0, files, i, rows);
          return;
        }
      }
      i := i + 1;
    }
    assert files[..|files|] == files;
    return None;
  }

  /** The run over the input files, with the HDF5 output left out: the
      timestamps, the column names and both matrices. */
  method CacheCollectdes(start: int, end: int, files: seq<Option<seq<seq<Document>>>>)
    returns (err: Option<string>, rows: seq<int>, columns: seq<Option<string>>, read: array2<Cell>, write: array2<Cell>)
    ensures var c := Cache(start, end, files);
      (err.Some? <==> c.Err?) && (c.Err? ==> err == Some(c.msg))
    ensures var c := Cache(start, end, files);
      c.Ok? ==> (rows == c.value.0 && Matrix(read) == c.value.1.read && Matrix(write) == c.value.1.write
        && Complete(c.value.1.columnMap, columns))
  {
    if start >= end {
      read := new Cell[0, 0];
      write := new Cell[0, 0];
      return Some("t_start >= t_end"), [], [], read, write;
    }
    var ok;
    ok, rows, read := InitDatasets(start, end, NumServers);
    ok, rows, write := InitDatasets(start, end, NumServers);
    var bins := NumBins(start, end);
    BlankMatrix(read, bins, NumServers);
    BlankMatrix(write, bins, NumServers);
    var columnMap := new HostColumns();
    err := UpdateFiles(files, rows, columnMap, read, write);
    if err.Some? {
      return err, rows, [], read, write;
    }
    var names := ColumnNames(columnMap.columnMap);
    columns := names.value;
    DenseNamesComplete(columnMap.columnMap, columns);
    return None, rows, columns, read, write;
  }

  lemma BlankMatrix(a: array2<Cell>, n: nat, width: nat)
    requires a.Length0 == n && a.Length1 == width
    requires forall r, c :: 0 <= r < n && 0 <= c < width ==> a[r, c] == Missing
    ensures Matrix(a) == Blank(n, width)
  {
    var m := Matrix(a);
    var b := Blank(n, width);
    forall r | 0 <= r < n
      ensures m[r] == b[r]
    {
      assert forall c | 0 <= c < width :: m[r][c] == b[r][c];
    }
  }

  lemma {:induction false} FilesStopAt(st: Ingested, files: seq<Option<seq<seq<Document>>>>, k: nat, rows: seq<int>)
    requires k < |files| && Files(st, files[..k + 1], rows).err.Some?
    ensures Files(st, files, rows) == Files(st, files[..k + 1], rows)
    decreases |files|
  {
    if |files| > k + 1 {
      assert files[..|files| - 1][..k + 1] == files[..k + 1];
      FilesStopAt(st, files[..|files| - 1], k, rows);
    } else {
      assert files[..k + 1] == files;
    }
  }

  /** The file loop keeps the column map dense and the matrices' shapes. */
  lemma {:induction false} FilesEffect(st: Ingested, files: seq<Option<seq<seq<Document>>>>, rows: seq<int>)
    requires Dense(st.columnMap)
    ensures var st' := Files(st, files, rows);
      Dense(st'.columnMap) && SameShape(st.read, st'.read) && SameShape(st.write, st'.write)
    decreases |files|
  {
    if files != [] {
      FilesEffect(st, files[..|files| - 1], rows);
      var prev := Files(st, files[..|files| - 1], rows);
      var f := files[|files| - 1];
      if prev.err.None? && f.Some? {
        UpdateShape(prev, f.value, rows);
      }
    }
  }

  /** One file's update keeps the map dense and both shapes. */
  lemma UpdateShape(st: Ingested, pages: seq<seq<Document>>, rows: seq<int>)
    requires Dense(st.columnMap)
    ensures var st' := Update(st, pages, rows);
      Dense(st'.columnMap) && SameShape(st.read, st'.read) && SameShape(st.write, st'.write)
  {
    if |rows| >= 2 {
      IngestAsWrittenEffect(st, Flatten(pages), rows[0], rows[1] - rows[0]);
    }
  }

  /** A completed run has `num_bins` rows of 288 columns in each matrix, a
      dense column map, and one timestamp more than rows exactly when the
      range is not a whole number of steps. */
  lemma CacheShape(start: int, end: int, files: seq<Option<seq<seq<Document>>>>)
    requires Cache(start, end, files).Ok?
    ensures var (rows, st) := Cache(start, end, files).value;
      var bins := NumBins(start, end);
      Dense(st.columnMap)
      && SameShape(st.read, Blank(bins, NumServers)) && SameShape(st.write, Blank(bins, NumServers))
      && |rows| == bins + (if (end - start) % CollectdTimestep == 0 then 0 else 1)
  {
    var bins := NumBins(start, end);
    FilesEffect(Ingested(map[], Blank(bins, NumServers), Blank(bins, NumServers), None), files, TS.Grid(start, end, CollectdTimestep));
    RowsVersusTimestamps(start, end);
  }

  /** With fewer than two timestamps the first file that is valid JSON
      raises. */
  lemma {:induction false} FilesShortRows(st: Ingested, files: seq<Option<seq<seq<Document>>>>, rows: seq<int>, k: nat)
    requires |rows| < 2 && k < |files| && files[k].Some?
    ensures Files(st, files, rows).err.Some?
    decreases |files|
  {
    var prev := Files(st, files[..|files| - 1], rows);
    if k < |files| - 1 {
      assert files[..|files| - 1][k] == files[k];
      FilesShortRows(st, files[..|files| - 1], rows, k);
    }
  }

  /** A range of at most one step gives a single timestamp, so a run with
      any valid input file fails instead of caching anything. */
  lemma ShortRangeFails(start: int, end: int, files: seq<Option<seq<seq<Document>>>>, k: nat)
    requires start < end <= start + CollectdTimestep
    requires k < |files| && files[k].Some?
    ensures Cache(start, end, files).Err?
  {
    RowsVersusTimestamps(start, end);
    FilesShortRows(Ingested(map[], Blank(NumBins(start, end), NumServers), Blank(NumBins(start, end), NumServers), None),
      files, TS.Grid(start, end, CollectdTimestep), k);
  }
}
