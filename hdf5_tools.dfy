/** The multi-day range queries of tokio/tools/hdf5.py over a daily archive
    of H5LMT files.  A file is an abstract record: its first and last
    timestamps, its timestep, its `version` attribute, the name lists the
    metadata query reads, its datasets by group name, and its tables by
    group name.  The archive maps a day number to the file of that day;
    a day without a file is absent.  Times are epoch seconds and a day is
    the epoch second divided (downward) by 86400. */
module H5Tools {
  import opened Wrappers
  import opened Cells

  const SecondsPerDay := 86400

  /** The calendar day of epoch second `t`. */
  function DayOf(t: int): int {
    FloorDiv(t, SecondsPerDay)
  }

  /** One day later is the next calendar day. */
  lemma NextDay(t: int)
    ensures DayOf(t + SecondsPerDay) == DayOf(t) + 1
  {
  }

  /** A dataset of rank 1, 2 or 3, or just the rank of a larger one.  The
      sizes of each axis are kept explicitly so that an axis of length zero
      still has its neighbours' sizes. */
  datatype NdArray =
    | Arr1(v: seq<real>)
    | Arr2(rows: nat, cols: nat, m: seq<seq<real>>)
    | Arr3(d0: nat, d1: nat, d2: nat, c: seq<seq<seq<real>>>)
    | ArrN(rank: nat)

  predicate WellShaped(a: NdArray) {
    match a
    case Arr1(_) => true
    case Arr2(r, c, m) => |m| == r && forall i :: 0 <= i < r ==> |m[i]| == c
    case Arr3(d0, d1, d2, c) =>
      |c| == d0 && forall i :: 0 <= i < d0 ==> |c[i]| == d1 && forall j :: 0 <= j < d1 ==> |c[i][j]| == d2
    case ArrN(k) => k > 3
  }

  /** A timestep is positive. */
  type Step = x: int | x > 0 witness 1

  /** A table: rows of values indexed by timestamp. */
  type Frame = map<int, seq<real>>

  datatype H5File = H5File(first: Option<int>, last: Option<int>, step: Step, version: Option<int>,
                           opNames: Option<seq<string>>, ostNames: Option<seq<string>>,
                           groups: map<string, NdArray>, frames: map<string, Frame>)

  /** The files of one name, by day. */
  type Archive = map<int, H5File>

  /** Every dataset of every file has the shape it claims. */
  predicate Rectangular(archive: Archive) {
    forall d, g :: d in archive && g in archive[d].groups ==> WellShaped(archive[d].groups[g])
  }

  predicate StrictlyIncreasing(s: seq<int>) {
    forall a, b :: 0 <= a < b < |s| ==> s[a] < s[b]
  }

  // ---------------------------------------------------------------------
  // enumerate_h5lmts

  /** The days from `lo` to `hi` inclusive that have a file. */
  function DaysWithFiles(archive: Archive, lo: int, hi: int): (days: seq<int>)
    ensures forall d :: d in days ==> d in archive && lo <= d <= hi
    decreases if lo <= hi then hi - lo + 1 else 0
  {
    if lo > hi then []
    else (if lo in archive then [lo] else []) + DaysWithFiles(archive, lo + 1, hi)
  }

  /** The enumeration is ascending and holds exactly the days of the range
      that have a file. */
  lemma {:induction false} DaysWithFilesSpec(archive: Archive, lo: int, hi: int)
    ensures StrictlyIncreasing(DaysWithFiles(archive, lo, hi))
    ensures forall d :: d in DaysWithFiles(archive, lo, hi) <==> lo <= d <= hi && d in archive
    decreases if lo <= hi then hi - lo + 1 else 0
  {
    if lo <= hi {
      DaysWithFilesSpec(archive, lo + 1, hi);
      var rest := DaysWithFiles(archive, lo + 1, hi);
      var days := DaysWithFiles(archive, lo, hi);
      forall a, b | 0 <= a < b < |days| ensures days[a] < days[b] {
        if lo in archive {
          assert days == [lo] + rest;
          assert days[b] == rest[b - 1] && rest[b - 1] in rest;
          if a > 0 {
            assert days[a] == rest[a - 1];
          }
        }
      }
    }
  }

  /** `enumerate_h5lmts`: walk a day at a time from `start` while its day
      is not past the day of `end`, keeping the days whose file exists. */
  method EnumerateH5lmts(archive: Archive, start: int, end: int) returns (days: seq<int>)
    ensures days == DaysWithFiles(archive, DayOf(start), DayOf(end))
  {
    var today := start;
    days := [];
    while DayOf(today) <= DayOf(end)
      invariant days + DaysWithFiles(archive, DayOf(today), DayOf(end)) == DaysWithFiles(archive, DayOf(start), DayOf(end))
      decreases DayOf(end) - DayOf(today) + 1
    {
      ghost var rest := DaysWithFiles(archive, DayOf(today) + 1, DayOf(end));
      if DayOf(today) in archive {
        days := days + [DayOf(today)];
        assert DaysWithFiles(archive, DayOf(today), DayOf(end)) == [DayOf(today)] + rest;
      } else {
        assert DaysWithFiles(archive, DayOf(today), DayOf(end)) == rest;
      }
      NextDay(today);
      today := today + SecondsPerDay;
    }
  }

  // ---------------------------------------------------------------------
  // get_files_and_indices

  /** One element of the output: the day's file, the first row to read and
      the slice stop (`-1` meaning "all but the last row"). */
  datatype Entry = Entry(day: int, i0: int, iF: int)

  predicate Initialized(f: H5File) {
    f.first.Some? && f.last.Some?
  }

  /** `get_index(t)`: the row of time `t`. */
  function GetIndex(f: H5File, t: int): int
    requires f.first.Some?
  {
    FloorDiv(t - f.first.value, f.step)
  }

  /** The first row to read from `f`: the row of `start` if the file
      begins at or before it, else 0. */
  function StartIndex(f: H5File, start: int): int
    requires Initialized(f)
  {
    if f.first.value <= start then GetIndex(f, start) else 0
  }

  /** A file reaching `end` whose row of `end` is its first row holds
      nothing before `end` and is dropped. */
  predicate Dropped(f: H5File, end: int)
    requires Initialized(f)
  {
    f.last.value >= end && GetIndex(f, end) - 1 < 0
  }

  /** What one file contributes: an error, nothing, or an entry. */
  function FileEntry(day: int, f: H5File, start: int, end: int): Result<Option<Entry>> {
    if !Initialized(f) then Err("uninitialized tokio.hdf5 object")
    else
      var i0 := StartIndex(f, start);
      if f.last.value >= end then
        var iF := GetIndex(f, end) - 1;
        if iF < 0 then Ok(None) else Ok(Some(Entry(day, i0, iF)))
      else Ok(Some(Entry(day, i0, -1)))
  }

  /** The output of the loop over `days`, built in order. */
  function Collect(archive: Archive, days: seq<int>, start: int, end: int): Result<seq<Entry>>
    requires forall d :: d in days ==> d in archive
  {
    if days == [] then Ok([])
    else
      var day := days[|days| - 1];
      match Collect(archive, days[..|days| - 1], start, end)
      case Err(msg) => Err(msg)
      case Ok(out) =>
        match FileEntry(day, archive[day], start, end)
        case Err(msg) => Err(msg)
        case Ok(None) => Ok(out)
        case Ok(Some(e)) => Ok(out + [e])
  }

  /** One more day of the loop. */
  lemma CollectStep(archive: Archive, days: seq<int>, k: nat, start: int, end: int)
    requires forall d :: d in days ==> d in archive
    requires k < |days|
    ensures Collect(archive, days[..k + 1], start, end) ==
      match Collect(archive, days[..k], start, end)
      case Err(msg) => Err(msg)
      case Ok(out) =>
        match FileEntry(days[k], archive[days[k]], start, end)
        case Err(msg) => Err(msg)
        case Ok(None) => Ok(out)
        case Ok(Some(e)) => Ok(out + [e])
  {
    assert days[..k + 1][..k] == days[..k];
  }

  /** Once the loop has raised, the later days change nothing. */
  lemma {:induction false} CollectErrPersists(archive: Archive, days: seq<int>, j: nat, start: int, end: int)
    requires forall d :: d in days ==> d in archive
    requires j <= |days| && Collect(archive, days[..j], start, end).Err?
    ensures Collect(archive, days, start, end) == Collect(archive, days[..j], start, end)
  {
    if j < |days| {
      var init := days[..|days| - 1];
      assert init[..j] == days[..j];
      CollectErrPersists(archive, init, j, start, end);
    } else {
      assert days[..j] == days;
    }
  }

  /** The day of each entry, in order. */
  function EntryDays(es: seq<Entry>): (ds: seq<int>)
    ensures |ds| == |es| && forall k :: 0 <= k < |es| ==> ds[k] == es[k].day
  {
    seq(|es|, k requires 0 <= k < |es| => es[k].day)
  }

  /** The loop fails exactly when one of the files is uninitialized. */
  lemma {:induction false} CollectFails(archive: Archive, days: seq<int>, start: int, end: int)
    requires forall d :: d in days ==> d in archive
    ensures Collect(archive, days, start, end).Ok? <==> forall d :: d in days ==> Initialized(archive[d])
  {
    if days != [] {
      var init := days[..|days| - 1];
      assert days == init + [days[|days| - 1]];
      CollectFails(archive, init, start, end);
    }
  }

  /** Each entry is a day of `days`, with `i_0` by the start rule and `i_f`
      either `-1`, when the file ends before `end`, or the non-negative row
      before `end`. */
  ghost predicate GoodEntry(archive: Archive, days: seq<int>, start: int, end: int, e: Entry) {
    e.day in days && e.day in archive && Initialized(archive[e.day]) && e.i0 == StartIndex(archive[e.day], start) &&
    (e.iF == -1 <==> archive[e.day].last.value < end) &&
    (e.iF != -1 ==> e.iF == GetIndex(archive[e.day], end) - 1 >= 0)
  }

  lemma {:induction false} CollectEntries(archive: Archive, days: seq<int>, start: int, end: int)
    requires forall d :: d in days ==> d in archive
    ensures Collect(archive, days, start, end).Ok? ==>
      forall e :: e in Collect(archive, days, start, end).value ==> GoodEntry(archive, days, start, end, e)
  {
    if days != [] {
      var init := days[..|days| - 1];
      assert days == init + [days[|days| - 1]];
      CollectEntries(archive, init, start, end);
    }
  }

  /** A day of `days` has an entry exactly when its file is not dropped. */
  lemma {:induction false} CollectKeeps(archive: Archive, days: seq<int>, start: int, end: int)
    requires forall d :: d in days ==> d in archive
    requires Collect(archive, days, start, end).Ok?
    ensures forall d :: d in days ==>
      Initialized(archive[d]) && (d in EntryDays(Collect(archive, days, start, end).value) <==> !Dropped(archive[d], end))
  {
    CollectFails(archive, days, start, end);
    if days != [] {
      var init, day := days[..|days| - 1], days[|days| - 1];
      assert days == init + [day];
      CollectDaysStep(archive, days, start, end);
      CollectKeeps(archive, init, start, end);
      CollectDaysIn(archive, init, start, end);
      var out, r := EntryDays(Collect(archive, init, start, end).value), EntryDays(Collect(archive, days, start, end).value);
      forall d | d in days
        ensures d in r <==> !Dropped(archive[d], end)
      {
        if d in init {
          assert d in out <==> !Dropped(archive[d], end);
        } else {
          assert d == day && d !in out;
        }
      }
    }
  }

  /** The entry days are days of the loop. */
  lemma CollectDaysIn(archive: Archive, days: seq<int>, start: int, end: int)
    requires forall d :: d in days ==> d in archive
    requires Collect(archive, days, start, end).Ok?
    ensures forall d :: d in EntryDays(Collect(archive, days, start, end).value) ==> d in days
  {
    var es := Collect(archive, days, start, end).value;
    CollectEntries(archive, days, start, end);
    forall d | d in EntryDays(es) ensures d in days {
      var k :| 0 <= k < |es| && EntryDays(es)[k] == d;
      assert es[k] in es;
    }
  }

  /** The last day adds its own day to the entry days unless its file is
      dropped. */
  lemma CollectDaysStep(archive: Archive, days: seq<int>, start: int, end: int)
    requires forall d :: d in days ==> d in archive
    requires days != [] && Collect(archive, days, start, end).Ok?
    ensures var init, day := days[..|days| - 1], days[|days| - 1];
      Collect(archive, init, start, end).Ok? && Initialized(archive[day]) &&
      EntryDays(Collect(archive, days, start, end).value) ==
        EntryDays(Collect(archive, init, start, end).value) + (if Dropped(archive[day], end) then [] else [day])
  {
    var init, day := days[..|days| - 1], days[|days| - 1];
    var out := Collect(archive, init, start, end).value;
    var fe := FileEntry(day, archive[day], start, end);
    if fe.value.Some? {
      EntryDaysSnoc(out, fe.value.value);
    }
  }

  lemma EntryDaysSnoc(es: seq<Entry>, e: Entry)
    ensures EntryDays(es + [e]) == EntryDays(es) + [e.day]
  {
    assert forall k :: 0 <= k < |es| ==> (es + [e])[k] == es[k];
  }

  /** Over ascending days the entries are ascending by day. */
  lemma {:induction false} CollectOrdered(archive: Archive, days: seq<int>, start: int, end: int)
    requires forall d :: d in days ==> d in archive
    requires Collect(archive, days, start, end).Ok? && StrictlyIncreasing(days)
    ensures StrictlyIncreasing(EntryDays(Collect(archive, days, start, end).value))
  {
    CollectEntries(archive, days, start, end);
    if days != [] {
      var init, day := days[..|days| - 1], days[|days| - 1];
      assert days == init + [day];
      CollectOrdered(archive, init, start, end);
      CollectEntries(archive, init, start, end);
      var out, r := Collect(archive, init, start, end).value, Collect(archive, days, start, end).value;
      assert r == out || (r == out + [r[|r| - 1]] && r[|r| - 1].day == day);
      forall e | e in out ensures e.day < day {
        var k :| 0 <= k < |init| && init[k] == e.day;
        assert days[k] == e.day;
      }
      var ds := EntryDays(r);
      forall a, b | 0 <= a < b < |ds| ensures ds[a] < ds[b] {
        if b == |out| {
          assert r[a] in out;
        } else {
          assert EntryDays(out)[a] == ds[a] && EntryDays(out)[b] == ds[b];
        }
      }
    }
  }

  /** `get_files_and_indices(start, end)`: the entries of the days with a
      file from the day of `start` to the day of `end`. */
  method GetFilesAndIndices(archive: Archive, start: int, end: int) returns (r: Result<seq<Entry>>)
    ensures r == Collect(archive, DaysWithFiles(archive, DayOf(start), DayOf(end)), start, end)
  {
    var days := EnumerateH5lmts(archive, start, end);
    var output: seq<Entry> := [];
    for k := 0 to |days|
      invariant Collect(archive, days[..k], start, end) == Ok(output)
    {
      CollectStep(archive, days, k, start, end);
      var entry := FileEntry(days[k], archive[days[k]], start, end);
      if entry.Err? {
        CollectErrPersists(archive, days, k + 1, start, end);
        return Err(entry.msg);
      }
      if entry.value.Some? {
        output := output + [entry.value.value];
      }
    }
    assert days[..|days|] == days;
    return Ok(output);
  }

  // ---------------------------------------------------------------------
  // get_metadata_from_time_range

  /** The name lists gathered so far; `None` before the first file. */
  datatype Metadata = Metadata(opNames: Option<seq<string>>, ostNames: Option<seq<string>>)

  /** Fold one file into the gathered lists: a missing list raises, a list
      that differs from the one already gathered raises, the first file's
      lists are kept. */
  function MergeMetadata(acc: Metadata, f: H5File): Result<Metadata> {
    if f.opNames.None? then Err("KeyError: OpNames")
    else if acc.opNames.Some? && f.opNames.value != acc.opNames.value then Err("Inconsistent OpNames found across different H5LMT files")
    else if f.ostNames.None? then Err("KeyError: OSTNames")
    else if acc.ostNames.Some? && f.ostNames.value != acc.ostNames.value then Err("Inconsistent OSTNames found across different H5LMT files")
    else Ok(Metadata(Some(f.opNames.value), Some(f.ostNames.value)))
  }

  /** The gathered lists over the files of `entries`, in order. */
  function MetadataOf(archive: Archive, entries: seq<Entry>): Result<Metadata>
    requires forall e :: e in entries ==> e.day in archive
  {
    if entries == [] then Ok(Metadata(None, None))
    else
      match MetadataOf(archive, entries[..|entries| - 1])
      case Err(msg) => Err(msg)
      case Ok(acc) => MergeMetadata(acc, archive[entries[|entries| - 1].day])
  }

  /** Every file of `entries` has both lists, equal to those of `f`. */
  ghost predicate AllAgree(archive: Archive, entries: seq<Entry>, f: H5File)
    requires forall e :: e in entries ==> e.day in archive
  {
    forall e :: e in entries ==>
      archive[e.day].opNames.Some? && archive[e.day].ostNames.Some? &&
      archive[e.day].opNames == f.opNames && archive[e.day].ostNames == f.ostNames
  }

  /** The query succeeds exactly when every file touched has both lists and
      they agree with the first file's; it then returns the first file's
      lists, or nothing when no file was touched. */
  lemma {:induction false} MetadataConsistent(archive: Archive, entries: seq<Entry>)
    requires forall e :: e in entries ==> e.day in archive
    ensures entries == [] ==> MetadataOf(archive, entries) == Ok(Metadata(None, None))
    ensures entries != [] ==>
      var first := archive[entries[0].day];
      (MetadataOf(archive, entries).Ok? <==> AllAgree(archive, entries, first)) &&
      (MetadataOf(archive, entries).Ok? ==> MetadataOf(archive, entries).value == Metadata(first.opNames, first.ostNames))
  {
    if |entries| > 1 {
      var init, last := entries[..|entries| - 1], entries[|entries| - 1];
      assert entries == init + [last];
      assert init[0] == entries[0];
      MetadataConsistent(archive, init);
      var first := archive[entries[0].day];
      if MetadataOf(archive, init).Ok? && MergeMetadata(MetadataOf(archive, init).value, archive[last.day]).Ok? {
        forall e | e in entries
          ensures archive[e.day].opNames.Some? && archive[e.day].ostNames.Some? &&
            archive[e.day].opNames == first.opNames && archive[e.day].ostNames == first.ostNames
        {
          if e != last {
            assert e in init;
          }
        }
      }
      if AllAgree(archive, entries, first) {
        assert AllAgree(archive, init, first) by {
          forall e | e in init ensures e in entries {
          }
        }
        assert last in entries;
      }
    } else if |entries| == 1 {
      assert entries[..0] == [];
      assert forall e :: e in entries ==> e == entries[0];
    }
  }

  /** One more entry of the metadata loop. */
  lemma MetadataStep(archive: Archive, entries: seq<Entry>, k: nat)
    requires forall e :: e in entries ==> e.day in archive
    requires k < |entries|
    ensures MetadataOf(archive, entries[..k + 1]) ==
      match MetadataOf(archive, entries[..k])
      case Err(msg) => Err(msg)
      case Ok(acc) => MergeMetadata(acc, archive[entries[k].day])
  {
    assert entries[..k + 1][..k] == entries[..k];
  }

  lemma {:induction false} MetadataErrPersists(archive: Archive, entries: seq<Entry>, j: nat)
    requires forall e :: e in entries ==> e.day in archive
    requires j <= |entries| && MetadataOf(archive, entries[..j]).Err?
    ensures MetadataOf(archive, entries) == MetadataOf(archive, entries[..j])
  {
    if j < |entries| {
      var init := entries[..|entries| - 1];
      assert init[..j] == entries[..j];
      MetadataErrPersists(archive, init, j);
    } else {
      assert entries[..j] == entries;
    }
  }

  /** `get_metadata_from_time_range`: the name lists of the files of the
      range, checked for consistency file by file. */
  method GetMetadataFromTimeRange(archive: Archive, start: int, end: int) returns (r: Result<Metadata>)
    ensures var fi := Collect(archive, DaysWithFiles(archive, DayOf(start), DayOf(end)), start, end);
      (fi.Err? ==> r == Err(fi.msg)) &&
      (fi.Ok? ==> (forall e :: e in fi.value ==> e.day in archive) && r == MetadataOf(archive, fi.value))
  {
    var fi := GetFilesAndIndices(archive, start, end);
    if fi.Err? {
      return Err(fi.msg);
    }
    var entries := fi.value;
    CollectEntries(archive, DaysWithFiles(archive, DayOf(start), DayOf(end)), start, end);
    assert forall e :: e in entries ==> e.day in archive;
    var result := Metadata(None, None);
    for k := 0 to |entries|
      invariant forall e :: e in entries ==> e.day in archive
      invariant MetadataOf(archive, entries[..k]) == Ok(result)
    {
      MetadataStep(archive, entries, k);
      var f := archive[entries[k].day];
      if f.opNames.None? {
        MetadataErrPersists(archive, entries, k + 1);
        return Err("KeyError: OpNames");
      }
      if result.opNames.Some? {
        if f.opNames.value != result.opNames.value {
          MetadataErrPersists(archive, entries, k + 1);
          return Err("Inconsistent OpNames found across different H5LMT files");
        }
      } else {
        result := result.(opNames := Some(f.opNames.value));
      }
      if f.ostNames.None? {
        MetadataErrPersists(archive, entries, k + 1);
        return Err("KeyError: OSTNames");
      }
      if result.ostNames.Some? {
        if f.ostNames.value != result.ostNames.value {
          MetadataErrPersists(archive, entries, k + 1);
          return Err("Inconsistent OSTNames found across different H5LMT files");
        }
      } else {
        result := result.(ostNames := Some(f.ostNames.value));
      }
    }
    assert entries[..|entries|] == entries;
    return Ok(result);
  }

  // ---------------------------------------------------------------------
  // get_group_data_from_time_range

  /** The `version` attribute of the file root, 1 when absent. */
  function Version(f: H5File): int {
    if f.version.Some? then f.version.value else 1
  }

  function Rank(a: NdArray): nat {
    match a
    case Arr1(_) => 1
    case Arr2(_, _, _) => 2
    case Arr3(_, _, _, _) => 3
    case ArrN(k) => k
  }

  /** The size of axis `axis`. */
  function AxisLength(a: NdArray, axis: nat): nat {
    match a
    case Arr1(v) => if axis == 0 then |v| else 0
    case Arr2(r, c, _) => if axis == 0 then r else if axis == 1 then c else 0
    case Arr3(d0, d1, d2, _) => if axis == 0 then d0 else if axis == 1 then d1 else if axis == 2 then d2 else 0
    case ArrN(_) => 0
  }

  /** Every axis but `axis` has the same size in `a` and `b`. */
  predicate OtherAxesAgree(a: NdArray, b: NdArray, axis: nat) {
    forall x: nat :: x < Rank(a) && x != axis ==> AxisLength(a, x) == AxisLength(b, x)
  }

  /** The time axis of a dataset: axis 1 for a version-1 file of rank 2 or
      3 (stored column-major in time), else axis 0. */
  function TimeAxis(f: H5File, a: NdArray): nat {
    if !a.Arr1? && Version(f) == 1 then 1 else 0
  }

  /** The rows of one file the query reads, and the axis to join on. */
  datatype Piece = Piece(slice: NdArray, axis: nat)

  /** The slice `[i_0:i_f]` of dataset `group` of `f` along its time axis:
      it keeps the rank and every other axis, has the slice length on the
      time axis, and a dataset of rank above 3 or a missing one raises. */
  function GroupSlice(f: H5File, group: string, e: Entry): (r: Result<Piece>)
    requires group in f.groups ==> WellShaped(f.groups[group])
    ensures r.Ok? <==> group in f.groups && Rank(f.groups[group]) <= 3
    ensures r.Ok? ==> var a := f.groups[group];
      WellShaped(r.value.slice) && r.value.axis == TimeAxis(f, a) && Rank(r.value.slice) == Rank(a) &&
      AxisLength(r.value.slice, r.value.axis) == SliceLength(AxisLength(a, r.value.axis), e.i0, e.iF) &&
      OtherAxesAgree(r.value.slice, a, r.value.axis)
  {
    if group !in f.groups then Err("KeyError: " + group)
    else
      match f.groups[group]
      case Arr1(v) => Ok(Piece(Arr1(Slice(v, e.i0, e.iF)), 0))
      case Arr2(r, c, m) =>
        if Version(f) == 1 then
          Ok(Piece(Arr2(r, SliceLength(c, e.i0, e.iF), seq(r, i requires 0 <= i < r => Slice(m[i], e.i0, e.iF))), 1))
        else Ok(Piece(Arr2(SliceLength(r, e.i0, e.iF), c, Slice(m, e.i0, e.iF)), 0))
      case Arr3(d0, d1, d2, c) =>
        if Version(f) == 1 then
          Ok(Piece(Arr3(d0, SliceLength(d1, e.i0, e.iF), d2, seq(d0, i requires 0 <= i < d0 => Slice(c[i], e.i0, e.iF))), 1))
        else Ok(Piece(Arr3(SliceLength(d0, e.i0, e.iF), d1, d2, Slice(c, e.i0, e.iF)), 0))
      case ArrN(k) => Err("Dimensions of " + group + " are greater than 3")
  }

  /** `np.concatenate([a, b], axis)`: the ranks must agree, the axis must
      exist, and every other axis must have the same size; the joined axis
      is as long as both. */
  function Concat(a: NdArray, b: NdArray, axis: nat): (r: Result<NdArray>)
    requires WellShaped(a) && WellShaped(b)
    ensures r.Ok? <==> (Rank(a) == Rank(b) <= 3 && axis < Rank(a) && axis <= 1 && OtherAxesAgree(a, b, axis))
    ensures r.Ok? ==> (WellShaped(r.value) && Rank(r.value) == Rank(a) && OtherAxesAgree(r.value, a, axis) &&
      AxisLength(r.value, axis) == AxisLength(a, axis) + AxisLength(b, axis))
  {
    if a.Arr1? && b.Arr1? then
      if axis == 0 then Ok(Arr1(a.v + b.v)) else Err("axis out of bounds")
    else if a.Arr2? && b.Arr2? then Concat2(a, b, axis)
    else if a.Arr3? && b.Arr3? then Concat3(a, b, axis)
    else
      assert Rank(a) != Rank(b) || Rank(a) > 3;
      Err("all the input arrays must have same number of dimensions")
  }

  const Mismatch := "all the input array dimensions except for the concatenation axis must match exactly"

  function Concat2(a: NdArray, b: NdArray, axis: nat): (r: Result<NdArray>)
    requires a.Arr2? && b.Arr2? && WellShaped(a) && WellShaped(b)
    ensures r.Ok? <==> (axis <= 1 && OtherAxesAgree(a, b, axis))
    ensures r.Ok? ==> (r.value.Arr2? && WellShaped(r.value) && OtherAxesAgree(r.value, a, axis) &&
      AxisLength(r.value, axis) == AxisLength(a, axis) + AxisLength(b, axis))
  {
    if axis == 0 then
      if a.cols == b.cols then Ok(Arr2(a.rows + b.rows, a.cols, a.m + b.m))
      else assert AxisLength(a, 1) != AxisLength(b, 1); Err(Mismatch)
    else if axis == 1 then
      if a.rows == b.rows then Ok(Arr2(a.rows, a.cols + b.cols, seq(a.rows, i requires 0 <= i < a.rows => a.m[i] + b.m[i])))
      else assert AxisLength(a, 0) != AxisLength(b, 0); Err(Mismatch)
    else Err("axis out of bounds")
  }

  function Concat3(a: NdArray, b: NdArray, axis: nat): (r: Result<NdArray>)
    requires a.Arr3? && b.Arr3? && WellShaped(a) && WellShaped(b)
    ensures r.Ok? <==> (axis <= 1 && OtherAxesAgree(a, b, axis))
    ensures r.Ok? ==> (r.value.Arr3? && WellShaped(r.value) && OtherAxesAgree(r.value, a, axis) &&
      AxisLength(r.value, axis) == AxisLength(a, axis) + AxisLength(b, axis))
  {
    if axis == 0 then
      if a.d1 == b.d1 && a.d2 == b.d2 then Ok(Arr3(a.d0 + b.d0, a.d1, a.d2, a.c + b.c))
      else assert AxisLength(a, 1) != AxisLength(b, 1) || AxisLength(a, 2) != AxisLength(b, 2); Err(Mismatch)
    else if axis == 1 then
      if a.d0 == b.d0 && a.d2 == b.d2 then Ok(Arr3(a.d0, a.d1 + b.d1, a.d2, seq(a.d0, i requires 0 <= i < a.d0 => a.c[i] + b.c[i])))
      else assert AxisLength(a, 0) != AxisLength(b, 0) || AxisLength(a, 2) != AxisLength(b, 2); Err(Mismatch)
    else Err("axis out of bounds")
  }

  /** The joined data of the files of `entries`, in order; `None` when
      there are none. */
  function GroupDataOf(archive: Archive, group: string, entries: seq<Entry>): (r: Result<Option<NdArray>>)
    requires Rectangular(archive) && forall e :: e in entries ==> e.day in archive
    ensures r.Ok? && r.value.Some? ==> WellShaped(r.value.value)
  {
    if entries == [] then Ok(None)
    else
      var e := entries[|entries| - 1];
      match GroupDataOf(archive, group, entries[..|entries| - 1])
      case Err(msg) => Err(msg)
      case Ok(acc) =>
        match GroupSlice(archive[e.day], group, e)
        case Err(msg) => Err(msg)
        case Ok(p) =>
          if acc.None? then Ok(Some(p.slice))
          else
            match Concat(acc.value, p.slice, p.axis)
            case Err(msg) => Err(msg)
            case Ok(joined) => Ok(Some(joined))
  }

  /** The rows the files of `entries` contribute along axis `axis`. */
  function TotalSliced(archive: Archive, group: string, entries: seq<Entry>, axis: nat): nat
    requires forall e :: e in entries ==> e.day in archive
  {
    if entries == [] then 0
    else
      var e := entries[|entries| - 1];
      var f := archive[e.day];
      TotalSliced(archive, group, entries[..|entries| - 1], axis) +
        (if group in f.groups then SliceLength(AxisLength(f.groups[group], axis), e.i0, e.iF) else 0)
  }

  /** When every file joins on the same axis, the result is as long along
      that axis as all the slices together, and there is a result exactly
      when there was a file. */
  lemma {:induction false} GroupDataLength(archive: Archive, group: string, entries: seq<Entry>, axis: nat)
    requires Rectangular(archive) && forall e :: e in entries ==> e.day in archive
    requires forall e :: e in entries ==> group in archive[e.day].groups && TimeAxis(archive[e.day], archive[e.day].groups[group]) == axis
    requires GroupDataOf(archive, group, entries).Ok?
    ensures GroupDataOf(archive, group, entries).value.Some? <==> entries != []
    ensures entries != [] ==> AxisLength(GroupDataOf(archive, group, entries).value.value, axis) == TotalSliced(archive, group, entries, axis)
  {
    if entries != [] {
      var init, e := entries[..|entries| - 1], entries[|entries| - 1];
      assert entries == init + [e];
      GroupDataLength(archive, group, init, axis);
    }
  }

  /** A matrix with its rows and columns exchanged. */
  function Transposed(a: NdArray): (t: NdArray)
    requires a.Arr2? && WellShaped(a)
    ensures t.Arr2? && WellShaped(t) && t.rows == a.cols && t.cols == a.rows
    ensures forall i, j :: 0 <= i < a.cols && 0 <= j < a.rows ==> t.m[i][j] == a.m[j][i]
  {
    Arr2(a.cols, a.rows, seq(a.cols, j requires 0 <= j < a.cols => seq(a.rows, i requires 0 <= i < a.rows => a.m[i][j])))
  }

  /** A version-1 file stores a matrix transposed with respect to a later
      version: the same entry reads the transposed slice from it. */
  lemma VersionsTranspose(f1: H5File, f2: H5File, group: string, e: Entry)
    requires group in f1.groups && group in f2.groups
    requires f2.groups[group].Arr2? && WellShaped(f2.groups[group]) && Version(f1) == 1 && Version(f2) != 1
    requires f1.groups[group] == Transposed(f2.groups[group])
    ensures GroupSlice(f1, group, e).Ok? && GroupSlice(f2, group, e).Ok?
    ensures GroupSlice(f2, group, e).value.slice.Arr2?
    ensures GroupSlice(f1, group, e).value.slice == Transposed(GroupSlice(f2, group, e).value.slice)
  {
    var a := f2.groups[group];
    var t, u := GroupSlice(f1, group, e).value.slice, Transposed(GroupSlice(f2, group, e).value.slice);
    var lo := SliceBound(e.i0, a.rows);
    forall j | 0 <= j < a.cols ensures t.m[j] == u.m[j] {
      assert |t.m[j]| == |u.m[j]|;
      forall i | 0 <= i < |t.m[j]| ensures t.m[j][i] == u.m[j][i] {
        assert t.m[j][i] == a.m[lo + i][j];
      }
    }
  }

  /** Joining transposed matrices along axis 1 is transposing the join
      along axis 0: a query over version-1 files is the transpose of the
      same query over later files. */
  lemma ConcatTransposed(a: NdArray, b: NdArray)
    requires a.Arr2? && b.Arr2? && WellShaped(a) && WellShaped(b) && a.cols == b.cols
    ensures Concat(a, b, 0).Ok? && Concat(Transposed(a), Transposed(b), 1).Ok?
    ensures Concat(Transposed(a), Transposed(b), 1).value == Transposed(Concat(a, b, 0).value)
  {
    var l, r := Concat(Transposed(a), Transposed(b), 1).value, Transposed(Concat(a, b, 0).value);
    forall j | 0 <= j < a.cols ensures l.m[j] == r.m[j] {
    }
  }

  lemma GroupDataStep(archive: Archive, group: string, entries: seq<Entry>, k: nat)
    requires Rectangular(archive) && forall e :: e in entries ==> e.day in archive
    requires k < |entries|
    ensures GroupDataOf(archive, group, entries[..k + 1]) ==
      match GroupDataOf(archive, group, entries[..k])
      case Err(msg) => Err(msg)
      case Ok(acc) =>
        match GroupSlice(archive[entries[k].day], group, entries[k])
        case Err(msg) => Err(msg)
        case Ok(p) =>
          if acc.None? then Ok(Some(p.slice))
          else
            match Concat(acc.value, p.slice, p.axis)
            case Err(msg) => Err(msg)
            case Ok(joined) => Ok(Some(joined))
  {
    assert entries[..k + 1][..k] == entries[..k];
  }

  lemma {:induction false} GroupDataErrPersists(archive: Archive, group: string, entries: seq<Entry>, j: nat)
    requires Rectangular(archive) && forall e :: e in entries ==> e.day in archive
    requires j <= |entries| && GroupDataOf(archive, group, entries[..j]).Err?
    ensures GroupDataOf(archive, group, entries) == GroupDataOf(archive, group, entries[..j])
  {
    if j < |entries| {
      var init := entries[..|entries| - 1];
      assert init[..j] == entries[..j];
      GroupDataErrPersists(archive, group, init, j);
    } else {
      assert entries[..j] == entries;
    }
  }

  /** `get_group_data_from_time_range`: the slices of the files of the
      range joined in order; `None` when no file is in the range. */
  method GetGroupDataFromTimeRange(archive: Archive, group: string, start: int, end: int) returns (r: Result<Option<NdArray>>)
    requires Rectangular(archive)
    ensures var fi := Collect(archive, DaysWithFiles(archive, DayOf(start), DayOf(end)), start, end);
      (fi.Err? ==> r == Err(fi.msg)) &&
      (fi.Ok? ==> (forall e :: e in fi.value ==> e.day in archive) && r == GroupDataOf(archive, group, fi.value))
  {
    var fi := GetFilesAndIndices(archive, start, end);
    if fi.Err? {
      return Err(fi.msg);
    }
    var entries := fi.value;
    CollectEntries(archive, DaysWithFiles(archive, DayOf(start), DayOf(end)), start, end);
    assert forall e :: e in entries ==> e.day in archive;
    var result: Option<NdArray> := None;
    for k := 0 to |entries|
      invariant forall e :: e in entries ==> e.day in archive
      invariant GroupDataOf(archive, group, entries[..k]) == Ok(result)
    {
      GroupDataStep(archive, group, entries, k);
      var piece := GroupSlice(archive[entries[k].day], group, entries[k]);
      if piece.Err? {
        GroupDataErrPersists(archive, group, entries, k + 1);
        return Err(piece.msg);
      }
      if result.None? {
        result := Some(piece.value.slice);
      } else {
        var joined := Concat(result.value, piece.value.slice, piece.value.axis);
        if joined.Err? {
          GroupDataErrPersists(archive, group, entries, k + 1);
          return Err(joined.msg);
        }
        result := Some(joined.value);
      }
    }
    assert entries[..|entries|] == entries;
    return Ok(result);
  }

  // ---------------------------------------------------------------------
  // get_dataframe_from_time_range

  /** The rows of a table whose timestamp lies in `[start, end)`. */
  function Window(fr: Frame, start: int, end: int): Frame {
    map t | t in fr && start <= t < end :: fr[t]
  }

  /** The merged table of the files of `days`, in order: each file's
      window joins the index union and overwrites the rows it shares with
      the files before it.  `None` when there are no files. */
  function MergedOf(archive: Archive, group: string, days: seq<int>, start: int, end: int): Result<Option<Frame>>
    requires forall d :: d in days ==> d in archive
  {
    if days == [] then Ok(None)
    else
      var day := days[|days| - 1];
      assert day in days;
      var f := archive[day];
      match MergedOf(archive, group, days[..|days| - 1], start, end)
      case Err(msg) => Err(msg)
      case Ok(acc) =>
        if group !in f.frames then Err("KeyError: " + group)
        else
          var slice := Window(f.frames[group], start, end);
          Ok(Some(if acc.None? then slice else acc.value + slice))
  }

  /** Row `t` comes from day `days[k]`: that file's window holds `t` with
      this row and no later file's window holds `t`. */
  ghost predicate LatestSource(archive: Archive, group: string, days: seq<int>, start: int, end: int, t: int, row: seq<real>, k: int)
    requires forall d :: d in days ==> d in archive
  {
    0 <= k < |days| && days[k] in archive && group in archive[days[k]].frames &&
    t in Window(archive[days[k]].frames[group], start, end) && row == archive[days[k]].frames[group][t] &&
    forall k' :: k < k' < |days| && days[k'] in archive && group in archive[days[k']].frames ==>
      t !in Window(archive[days[k']].frames[group], start, end)
  }

  /** The merge fails exactly when a file lacks the table; its index is
      the union of the windows, and each row is the one the latest file
      holding that timestamp gives. */
  lemma {:induction false} MergeKeepsLatest(archive: Archive, group: string, days: seq<int>, start: int, end: int)
    requires forall d :: d in days ==> d in archive
    ensures MergedOf(archive, group, days, start, end).Ok? <==> forall d :: d in days ==> group in archive[d].frames
    ensures MergedOf(archive, group, days, start, end).Ok? ==>
      (MergedOf(archive, group, days, start, end).value.None? <==> days == [])
    ensures MergedOf(archive, group, days, start, end).Ok? && days != [] ==>
      var fr := MergedOf(archive, group, days, start, end).value.value;
      (forall t :: t in fr ==> start <= t < end) &&
      (forall t :: t in fr <==> InSomeWindow(archive, group, days, start, end, t)) &&
      FromLatest(archive, group, days, start, end, fr)
  {
    MergeFails(archive, group, days, start, end);
    if days != [] {
      var init, day := days[..|days| - 1], days[|days| - 1];
      assert days == init + [day];
      MergeKeepsLatest(archive, group, init, start, end);
      if MergedOf(archive, group, days, start, end).Ok? {
        LatestStep(archive, group, days, start, end);
        UnionStep(archive, group, days, start, end);
        WindowBounds(archive, group, days, start, end);
      }
    }
  }

  /** The merge fails exactly when a file lacks the table, and is `None`
      only over no days. */
  lemma {:induction false} MergeFails(archive: Archive, group: string, days: seq<int>, start: int, end: int)
    requires forall d :: d in days ==> d in archive
    ensures MergedOf(archive, group, days, start, end).Ok? <==> forall d :: d in days ==> group in archive[d].frames
    ensures MergedOf(archive, group, days, start, end).Ok? ==>
      (MergedOf(archive, group, days, start, end).value.None? <==> days == [])
  {
    if days != [] {
      var init, day := days[..|days| - 1], days[|days| - 1];
      assert days == init + [day];
      MergeFails(archive, group, init, start, end);
      MergeStepOk(archive, group, days, start, end);
      assert forall d :: d in days <==> d in init || d == day;
    }
  }

  /** One more day succeeds when the days before it did and its file has
      the table, and then gives a frame. */
  lemma MergeStepOk(archive: Archive, group: string, days: seq<int>, start: int, end: int)
    requires forall d :: d in days ==> d in archive
    requires days != []
    ensures var init, day := days[..|days| - 1], days[|days| - 1];
      (MergedOf(archive, group, days, start, end).Ok? <==>
         MergedOf(archive, group, init, start, end).Ok? && group in archive[day].frames) &&
      (MergedOf(archive, group, days, start, end).Ok? ==> MergedOf(archive, group, days, start, end).value.Some?)
  {
  }

  lemma WindowBounds(archive: Archive, group: string, days: seq<int>, start: int, end: int)
    requires forall d :: d in days ==> d in archive
    requires days != [] && MergedOf(archive, group, days, start, end).Ok?
    requires var init := days[..|days| - 1];
      MergedOf(archive, group, init, start, end).Ok? &&
      (init != [] ==>
         MergedOf(archive, group, init, start, end).value.Some? &&
         forall t :: t in MergedOf(archive, group, init, start, end).value.value ==> start <= t < end)
    ensures MergedOf(archive, group, days, start, end).value.Some?
    ensures forall t :: t in MergedOf(archive, group, days, start, end).value.value ==> start <= t < end
  {
    var init, day := days[..|days| - 1], days[|days| - 1];
    assert days == init + [day];
  }

  /** Every row of the merge comes from its latest source. */
  ghost predicate FromLatest(archive: Archive, group: string, days: seq<int>, start: int, end: int, fr: Frame)
    requires forall d :: d in days ==> d in archive
  {
    forall t :: t in fr ==> exists k :: LatestSource(archive, group, days, start, end, t, fr[t], k)
  }

  /** Some file's window holds `t`. */
  ghost predicate InSomeWindow(archive: Archive, group: string, days: seq<int>, start: int, end: int, t: int) {
    exists k :: 0 <= k < |days| && days[k] in archive && group in archive[days[k]].frames &&
      t in Window(archive[days[k]].frames[group], start, end)
  }

  lemma LatestStep(archive: Archive, group: string, days: seq<int>, start: int, end: int)
    requires forall d :: d in days ==> d in archive
    requires days != [] && MergedOf(archive, group, days, start, end).Ok?
    requires var init := days[..|days| - 1];
      MergedOf(archive, group, init, start, end).Ok? &&
      (init != [] ==> MergedOf(archive, group, init, start, end).value.Some? &&
                      FromLatest(archive, group, init, start, end, MergedOf(archive, group, init, start, end).value.value))
    ensures MergedOf(archive, group, days, start, end).value.Some?
    ensures FromLatest(archive, group, days, start, end, MergedOf(archive, group, days, start, end).value.value)
  {
    var init, day := days[..|days| - 1], days[|days| - 1];
    assert days == init + [day];
    var fr := MergedOf(archive, group, days, start, end).value.value;
    var slice := Window(archive[day].frames[group], start, end);
    forall t | t in fr ensures exists k :: LatestSource(archive, group, days, start, end, t, fr[t], k) {
      if t in slice {
        assert LatestSource(archive, group, days, start, end, t, fr[t], |days| - 1);
      } else {
        var acc := MergedOf(archive, group, init, start, end).value.value;
        assert t in acc && fr[t] == acc[t];
        var k :| LatestSource(archive, group, init, start, end, t, acc[t], k);
        assert LatestSource(archive, group, days, start, end, t, fr[t], k);
      }
    }
  }

  lemma UnionStep(archive: Archive, group: string, days: seq<int>, start: int, end: int)
    requires forall d :: d in days ==> d in archive
    requires days != [] && MergedOf(archive, group, days, start, end).Ok?
    requires var init := days[..|days| - 1];
      MergedOf(archive, group, init, start, end).Ok? &&
      (init != [] ==>
         MergedOf(archive, group, init, start, end).value.Some? &&
         forall t :: t in MergedOf(archive, group, init, start, end).value.value <==> InSomeWindow(archive, group, init, start, end, t))
    ensures MergedOf(archive, group, days, start, end).value.Some?
    ensures forall t :: t in MergedOf(archive, group, days, start, end).value.value <==> InSomeWindow(archive, group, days, start, end, t)
  {
    var init, day := days[..|days| - 1], days[|days| - 1];
    assert days == init + [day];
    var fr := MergedOf(archive, group, days, start, end).value.value;
    forall t | InSomeWindow(archive, group, days, start, end, t) ensures t in fr {
      var k :| 0 <= k < |days| && days[k] in archive && group in archive[days[k]].frames &&
        t in Window(archive[days[k]].frames[group], start, end);
      if k < |days| - 1 {
        assert days[k] == init[k];
      }
    }
    forall t | t in fr ensures InSomeWindow(archive, group, days, start, end, t) {
      if t !in Window(archive[day].frames[group], start, end) {
        var k :| 0 <= k < |init| && init[k] in archive && group in archive[init[k]].frames &&
          t in Window(archive[init[k]].frames[group], start, end);
        assert days[k] == init[k];
      } else {
        assert days[|days| - 1] == day;
      }
    }
  }

  /** The least element of a non-empty set. */
  function Least(s: set<int>): (m: int)
    requires s != {}
    ensures m in s && forall y :: y in s ==> m <= y
  {
    HasLeast(s);
    var m :| m in s && forall y :: y in s ==> m <= y;
    m
  }

  lemma HasLeast(s: set<int>)
    requires s != {}
    ensures exists m :: m in s && forall y :: y in s ==> m <= y
    decreases |s|
  {
    if forall y :: y !in s {
      assert false;
    }
    var x :| x in s;
    var rest := s - {x};
    if rest == {} {
      forall y | y in s ensures x <= y {
        assert y !in rest;
      }
    } else {
      HasLeast(rest);
      var m :| m in rest && forall y :: y in rest ==> m <= y;
      var least := if x < m then x else m;
      forall y | y in s ensures least <= y {
        if y != x {
          assert y in rest;
        }
      }
      assert least in s;
    }
  }

  /** The elements of `s` in ascending order. */
  function SortedKeys(s: set<int>): (r: seq<int>)
    ensures StrictlyIncreasing(r) && |r| == |s| && forall x :: x in r <==> x in s
    decreases |s|
  {
    if s == {} then []
    else
      var m := Least(s);
      var rest := SortedKeys(s - {m});
      assert forall k :: 0 <= k < |rest| ==> rest[k] in s - {m};
      [m] + rest
  }

  /** `sort_index()`: the rows of a table in ascending timestamp order. */
  function SortIndex(fr: Frame): (rows: seq<(int, seq<real>)>)
    ensures |rows| == |fr.Keys|
    ensures forall a, b :: 0 <= a < b < |rows| ==> rows[a].0 < rows[b].0
    ensures forall k :: 0 <= k < |rows| ==> rows[k].0 in fr && rows[k].1 == fr[rows[k].0]
    ensures forall t :: t in fr ==> exists k :: 0 <= k < |rows| && rows[k].0 == t
  {
    var keys := SortedKeys(fr.Keys);
    assert forall k :: 0 <= k < |keys| ==> keys[k] in fr by {
      forall k | 0 <= k < |keys| ensures keys[k] in fr { assert keys[k] in keys; }
    }
    RowsCover(fr, keys);
    RowsOf(fr, keys)
  }

  /** The rows of a table at the given timestamps, in their order. */
  function RowsOf(fr: Frame, keys: seq<int>): (rows: seq<(int, seq<real>)>)
    requires forall k :: 0 <= k < |keys| ==> keys[k] in fr
    ensures |rows| == |keys| && forall k :: 0 <= k < |rows| ==> rows[k] == (keys[k], fr[keys[k]])
  {
    seq(|keys|, k requires 0 <= k < |keys| => (keys[k], fr[keys[k]]))
  }

  lemma RowsCover(fr: Frame, keys: seq<int>)
    requires forall k :: 0 <= k < |keys| ==> keys[k] in fr
    requires forall x :: x in fr ==> x in keys
    ensures forall t :: t in fr ==> exists k :: 0 <= k < |RowsOf(fr, keys)| && RowsOf(fr, keys)[k].0 == t
  {
    var rows := RowsOf(fr, keys);
    forall t | t in fr ensures exists k :: 0 <= k < |rows| && rows[k].0 == t {
      var k :| 0 <= k < |keys| && keys[k] == t;
      assert rows[k].0 == t;
    }
  }

  lemma MergedStep(archive: Archive, group: string, days: seq<int>, k: nat, start: int, end: int)
    requires forall d :: d in days ==> d in archive
    requires k < |days|
    ensures MergedOf(archive, group, days[..k + 1], start, end) ==
      var f := archive[days[k]];
      match MergedOf(archive, group, days[..k], start, end)
      case Err(msg) => Err(msg)
      case Ok(acc) =>
        if group !in f.frames then Err("KeyError: " + group)
        else
          var slice := Window(f.frames[group], start, end);
          Ok(Some(if acc.None? then slice else acc.value + slice))
  {
    assert days[..k + 1][..k] == days[..k];
  }

  lemma {:induction false} MergedErrPersists(archive: Archive, group: string, days: seq<int>, j: nat, start: int, end: int)
    requires forall d :: d in days ==> d in archive
    requires j <= |days| && MergedOf(archive, group, days[..j], start, end).Err?
    ensures MergedOf(archive, group, days, start, end) == MergedOf(archive, group, days[..j], start, end)
  {
    if j < |days| {
      var init := days[..|days| - 1];
      assert init[..j] == days[..j];
      MergedErrPersists(archive, group, init, j, start, end);
    } else {
      assert days[..j] == days;
    }
  }

  /** `get_dataframe_from_time_range`: the index computation runs first and
      its errors propagate (its emptiness test can never fire); then the
      table windows of every file of the range, including those the index
      computation drops, are merged in order and sorted.  No file at all
      raises, since there is no table to sort. */
  method GetDataframeFromTimeRange(archive: Archive, group: string, start: int, end: int) returns (r: Result<seq<(int, seq<real>)>>)
    ensures var days := DaysWithFiles(archive, DayOf(start), DayOf(end));
      var fi := Collect(archive, days, start, end);
      (fi.Err? ==> r == Err(fi.msg)) &&
      (fi.Ok? ==>
        match MergedOf(archive, group, days, start, end)
        case Err(msg) => r == Err(msg)
        case Ok(None) => r.Err?
        case Ok(Some(fr)) => r == Ok(SortIndex(fr)))
  {
    var fi := GetFilesAndIndices(archive, start, end);
    if fi.Err? {
      return Err(fi.msg);
    }
    var days := EnumerateH5lmts(archive, start, end);
    var result: Option<Frame> := None;
    for k := 0 to |days|
      invariant MergedOf(archive, group, days[..k], start, end) == Ok(result)
    {
      MergedStep(archive, group, days, k, start, end);
      var f := archive[days[k]];
      if group !in f.frames {
        MergedErrPersists(archive, group, days, k + 1, start, end);
        return Err("KeyError: " + group);
      }
      var slice := Window(f.frames[group], start, end);
      if result.None? {
        result := Some(slice);
      } else {
        result := Some(result.value + slice);
      }
    }
    assert days[..|days|] == days;
    if result.None? {
      return Err("'NoneType' object has no attribute 'sort_index'");
    }
    return Ok(SortIndex(result.value));
  }
}
