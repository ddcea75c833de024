/** The Darshan half of bin/summarize_job.py: which mounted file system a
    path lives on, merging result dicts, and the most used API and file
    system of a job.  A Python dict is modelled by what its loops see: its
    (key, value) pairs in iteration order. */
module JobSummary {
  import opened Wrappers
  import opened Text
  import D = DarshanConnector

  /** A dict as iterated: its entries in iteration order. */
  type Assoc<V> = seq<(string, V)>

  predicate DistinctKeys<V>(a: Assoc<V>) {
    forall i, j :: 0 <= i < j < |a| ==> a[i].0 != a[j].0
  }

  /** `d[key]`: the value of the entry for `key`, if any. */
  function Find<V>(a: Assoc<V>, key: string): (r: Option<V>)
    ensures r.None? <==> forall i :: 0 <= i < |a| ==> a[i].0 != key
    ensures r.Some? ==> exists i :: 0 <= i < |a| && a[i] == (key, r.value)
  {
    if a == [] then None
    else if a[0].0 == key then Some(a[0].1)
    else
      var r := Find(a[1..], key);
      assert forall i :: 1 <= i < |a| ==> a[i] == a[1..][i - 1];
      r
  }

  // ---------------------------------------------------------------------
  // _identify_fs_from_path

  /** `path.startswith(mount) and len(mount) > max_match` can hold for the
      first match only when the mount is not empty, since `max_match`
      starts at 0. */
  predicate Covers(mount: string, path: string) {
    |mount| > 0 && StartsWith(path, mount)
  }

  /** Mount `i` covers the path, no mount covering it is longer, and no
      earlier one is as long. */
  predicate BestMount(path: string, mounts: seq<string>, i: int) {
    0 <= i < |mounts| && Covers(mounts[i], path) &&
    (forall k :: 0 <= k < |mounts| && Covers(mounts[k], path) ==> |mounts[k]| <= |mounts[i]|) &&
    (forall k :: 0 <= k < i && Covers(mounts[k], path) ==> |mounts[k]| < |mounts[i]|)
  }

  /** The mount the scan settles on: a strictly longer covering mount
      replaces the one found so far. */
  function LongestMount(path: string, mounts: seq<string>): (m: Option<string>)
    ensures m.Some? ==> Covers(m.value, path)
  {
    if mounts == [] then None
    else
      var n := |mounts| - 1;
      var prev := LongestMount(path, mounts[..n]);
      var last := mounts[n];
      if Covers(last, path) && |last| > (if prev.Some? then |prev.value| else 0) then Some(last) else prev
  }

  /** The scan finds nothing exactly when no non-empty mount is a prefix
      of the path, and otherwise the longest, earliest among equals. */
  lemma {:induction false} LongestMountIsBest(path: string, mounts: seq<string>)
    ensures var m := LongestMount(path, mounts);
      (m.None? <==> forall k :: 0 <= k < |mounts| ==> !Covers(mounts[k], path)) &&
      (m.Some? ==> exists i :: BestMount(path, mounts, i) && mounts[i] == m.value)
  {
    if mounts != [] {
      var n := |mounts| - 1;
      var pre := mounts[..n];
      LongestMountIsBest(path, pre);
      var prev := LongestMount(path, pre);
      var last := mounts[n];
      if Covers(last, path) && |last| > (if prev.Some? then |prev.value| else 0) {
        assert BestMount(path, mounts, n);
      } else if prev.Some? {
        var i :| BestMount(path, pre, i) && pre[i] == prev.value;
        assert BestMount(path, mounts, i);
      }
    }
  }

  /** `_identify_fs_from_path(path, mounts)`. */
  method IdentifyFsFromPath(path: string, mounts: seq<string>) returns (m: Option<string>)
    ensures m == LongestMount(path, mounts)
  {
    var maxMatch := 0;
    m := None;
    for k := 0 to |mounts|
      invariant m == LongestMount(path, mounts[..k])
      invariant maxMatch == if m.Some? then |m.value| else 0
    {
      assert mounts[..k + 1][..k] == mounts[..k];
      if StartsWith(path, mounts[k]) && |mounts[k]| > maxMatch {
        maxMatch := |mounts[k]|;
        m := Some(mounts[k]);
      }
    }
    assert mounts[..|mounts|] == mounts;
  }

  // ---------------------------------------------------------------------
  // merge_dicts

  function NewKey(prefix: Option<string>, key: string): string {
    if prefix.Some? then prefix.value + key else key
  }

  /** The merge after the first entries of `dict2`: the dict so far, and the
      duplicate key that raised, if one did. */
  function Merged<V>(d: map<string, V>, items: Assoc<V>, assertion: bool, prefix: Option<string>): (map<string, V>, Option<string>)
  {
    if items == [] then (d, None)
    else
      var n := |items| - 1;
      var prev := Merged(d, items[..n], assertion, prefix);
      if prev.1.Some? then prev
      else
        var k := NewKey(prefix, items[n].0);
        if assertion && k in prev.0 then (prev.0, Some(k))
        else (prev.0[k := items[n].1], None)
  }

  /** A dict whose entries the script updates in place. */
  class Dict<V> {
    var items: map<string, V>

    constructor (items: map<string, V>)
      ensures this.items == items
    {
      this.items := items;
    }
  }

  /** `merge_dicts(dict1, dict2, assertion, prefix)`: the entries of
      `dict2` (in iteration order) go into `dict1` under `prefix + key`; a
      duplicate raises when `assertion` is set, after the earlier entries
      went in. */
  method MergeDicts<V>(dict1: Dict<V>, dict2: Assoc<V>, assertion: bool, prefix: Option<string>)
    returns (err: Option<string>)
    modifies dict1
    ensures (dict1.items, err) == Merged(old(dict1.items), dict2, assertion, prefix)
  {
    err := None;
    for k := 0 to |dict2|
      invariant (dict1.items, None) == Merged(old(dict1.items), dict2[..k], assertion, prefix)
    {
      assert dict2[..k + 1][..k] == dict2[..k];
      var newKey := if prefix.Some? then prefix.value + dict2[k].0 else dict2[k].0;
      if assertion && newKey in dict1.items {
        err := Some(newKey);
        MergedStops(old(dict1.items), dict2, assertion, prefix, k + 1);
        return;
      }
      dict1.items := dict1.items[newKey := dict2[k].1];
    }
    assert dict2[..|dict2|] == dict2;
  }

  lemma {:induction false} MergedStops<V>(d: map<string, V>, items: Assoc<V>, assertion: bool, prefix: Option<string>, k: nat)
    requires k <= |items| && Merged(d, items[..k], assertion, prefix).1.Some?
    ensures Merged(d, items, assertion, prefix) == Merged(d, items[..k], assertion, prefix)
    decreases |items| - k
  {
    if k < |items| {
      assert items[..k + 1][..k] == items[..k];
      MergedStops(d, items, assertion, prefix, k + 1);
    } else {
      assert items[..k] == items;
    }
  }

  /** Index of the first entry whose new key clashes with `d`, or the
      number of entries. */
  function FirstClash<V>(d: map<string, V>, items: Assoc<V>, prefix: Option<string>): (j: nat)
    ensures j <= |items|
    ensures forall i :: 0 <= i < j ==> NewKey(prefix, items[i].0) !in d
    ensures j < |items| ==> NewKey(prefix, items[j].0) in d
  {
    if items == [] then 0
    else
      var n := |items| - 1;
      var j := FirstClash(d, items[..n], prefix);
      if j < n then j
      else if NewKey(prefix, items[n].0) in d then n
      else n + 1
  }

  lemma NewKeyInjective(prefix: Option<string>, a: string, b: string)
    requires a != b
    ensures NewKey(prefix, a) != NewKey(prefix, b)
  {
    if prefix.Some? {
      var p := prefix.value;
      assert (p + a)[|p|..] == a && (p + b)[|p|..] == b;
    }
  }

  /** `dict1` after the entries went in with no duplicate check. */
  function Inserted<V>(d: map<string, V>, items: Assoc<V>, prefix: Option<string>): map<string, V> {
    if items == [] then d
    else
      var n := |items| - 1;
      Inserted(d, items[..n], prefix)[NewKey(prefix, items[n].0) := items[n].1]
  }

  /** The keys of `Inserted`: the old keys and the new ones. */
  lemma {:induction false} InsertedKeys<V>(d: map<string, V>, items: Assoc<V>, prefix: Option<string>)
    ensures forall k :: k in Inserted(d, items, prefix) <==>
                        k in d || exists i :: 0 <= i < |items| && k == NewKey(prefix, items[i].0)
  {
    if items != [] {
      var n := |items| - 1;
      InsertedKeys(d, items[..n], prefix);
      assert forall i :: 0 <= i < n ==> items[..n][i] == items[i];
    }
  }

  /** A key no entry produces keeps its old value. */
  lemma {:induction false} InsertedKeeps<V>(d: map<string, V>, items: Assoc<V>, prefix: Option<string>, k: string)
    requires k in d && forall i :: 0 <= i < |items| ==> k != NewKey(prefix, items[i].0)
    ensures k in Inserted(d, items, prefix) && Inserted(d, items, prefix)[k] == d[k]
  {
    if items != [] {
      var n := |items| - 1;
      assert forall i :: 0 <= i < n ==> items[..n][i] == items[i];
      InsertedKeeps(d, items[..n], prefix, k);
    }
  }

  /** Over the entries of a dict (distinct keys), each new key holds its
      entry's value. */
  lemma {:induction false} InsertedValues<V>(d: map<string, V>, items: Assoc<V>, prefix: Option<string>, i: nat)
    requires DistinctKeys(items) && i < |items|
    ensures NewKey(prefix, items[i].0) in Inserted(d, items, prefix)
    ensures Inserted(d, items, prefix)[NewKey(prefix, items[i].0)] == items[i].1
  {
    var n := |items| - 1;
    if i < n {
      assert DistinctKeys(items[..n]) && items[..n][i] == items[i];
      InsertedValues(d, items[..n], prefix, i);
      NewKeyInjective(prefix, items[i].0, items[n].0);
    }
  }

  /** Without `assertion` nothing raises and every entry goes in. */
  lemma {:induction false} MergedOverwrites<V>(d: map<string, V>, items: Assoc<V>, prefix: Option<string>)
    ensures Merged(d, items, false, prefix) == (Inserted(d, items, prefix), None)
  {
    if items != [] {
      MergedOverwrites(d, items[..|items| - 1], prefix);
    }
  }

  /** With `assertion`, over the entries of a dict (distinct keys), the
      merge raises exactly at the first entry whose new key was already in
      `dict1`, and the entries before it have gone in. */
  lemma {:induction false} MergedRaisesAtClash<V>(d: map<string, V>, items: Assoc<V>, prefix: Option<string>)
    requires DistinctKeys(items)
    ensures var j := FirstClash(d, items, prefix);
      Merged(d, items, true, prefix) ==
        (Inserted(d, items[..j], prefix), if j < |items| then Some(NewKey(prefix, items[j].0)) else None)
  {
    if items == [] {
      return;
    }
    var n := |items| - 1;
    var pre := items[..n];
    assert DistinctKeys(pre);
    MergedRaisesAtClash(d, pre, prefix);
    var jp := FirstClash(d, pre, prefix);
    assert pre[..jp] == items[..jp];
    if jp == n {
      LastKeyFresh(d, items, prefix);
      assert items[..n + 1] == items;
    } else {
      assert pre[jp] == items[jp];
    }
  }

  /** Over distinct keys, the last entry's new key is in the dict built
      from the others exactly when it was in `dict1`. */
  lemma LastKeyFresh<V>(d: map<string, V>, items: Assoc<V>, prefix: Option<string>)
    requires DistinctKeys(items) && items != []
    ensures var n := |items| - 1; var k := NewKey(prefix, items[n].0);
      k in Inserted(d, items[..n], prefix) <==> k in d
  {
    var n := |items| - 1;
    var pre := items[..n];
    var k := NewKey(prefix, items[n].0);
    InsertedKeys(d, pre, prefix);
    forall i | 0 <= i < n ensures NewKey(prefix, pre[i].0) != k {
      NewKeyInjective(prefix, items[i].0, items[n].0);
    }
  }

  // ---------------------------------------------------------------------
  // get_biggest_api and get_biggest_fs

  /** One rank's counters of a file record. */
  type Counters = map<string, int>
  /** A file's records by rank. */
  type Ranks = Assoc<Counters>
  /** An API's file records by path. */
  type Files = Assoc<Ranks>
  /** The `counters` entry: file records by API. */
  type Apis = Assoc<Files>

  const BytesRead := "BYTES_READ"
  const BytesWritten := "BYTES_WRITTEN"

  /** `record.get(counter)`, an absent counter adding nothing. */
  function Amount(rec: Counters, counter: string): int {
    if counter in rec then rec[counter] else 0
  }

  /** The `_perf` and `_total` entries are not file records. */
  predicate Skipped(path: string) {
    path == "_perf" || path == "_total"
  }

  function RanksSum(ranks: Ranks, counter: string): int {
    if ranks == [] then 0
    else RanksSum(ranks[..|ranks| - 1], counter) + Amount(ranks[|ranks| - 1].1, counter)
  }

  /** The bytes of an API's file records, `_perf` and `_total` left out. */
  function FilesSum(files: Files, counter: string): int {
    if files == [] then 0
    else
      var n := |files| - 1;
      FilesSum(files[..n], counter) + (if Skipped(files[n].0) then 0 else RanksSum(files[n].1, counter))
  }

  /** Read and write totals by API, in the order of `counters`. */
  function ApiTotals(apis: Apis): (t: Assoc<(int, int)>)
    ensures |t| == |apis|
  {
    seq(|apis|, i requires 0 <= i < |apis| => (apis[i].0, (FilesSum(apis[i].1, BytesRead), FilesSum(apis[i].1, BytesWritten))))
  }

  function Reads(t: Assoc<(int, int)>): (r: seq<int>)
    ensures |r| == |t| && forall i :: 0 <= i < |t| ==> r[i] == t[i].1.0
  {
    seq(|t|, i requires 0 <= i < |t| => t[i].1.0)
  }

  function Writes(t: Assoc<(int, int)>): (r: seq<int>)
    ensures |r| == |t| && forall i :: 0 <= i < |t| ==> r[i] == t[i].1.1
  {
    seq(|t|, i requires 0 <= i < |t| => t[i].1.1)
  }

  /** `max(..., key=...)` picks the first entry of greatest value. */
  predicate IsFirstMax(vals: seq<int>, i: int) {
    0 <= i < |vals| &&
    (forall k :: 0 <= k < |vals| ==> vals[k] <= vals[i]) &&
    (forall k :: 0 <= k < i ==> vals[k] < vals[i])
  }

  function FirstMaxIndex(vals: seq<int>): (i: nat)
    requires |vals| > 0
    ensures IsFirstMax(vals, i)
  {
    var n := |vals| - 1;
    if n == 0 then 0
    else
      var j := FirstMaxIndex(vals[..n]);
      if vals[n] > vals[j] then n else j
  }

  /** The biggest read and write entries and their byte counts. */
  datatype Biggest = Biggest(readName: string, readBytes: int, writeName: string, writeBytes: int)

  /** The `results` of `max` over the totals, read and write alike. */
  function Pick(t: Assoc<(int, int)>): (b: Biggest)
    requires |t| > 0
    ensures exists i :: IsFirstMax(Reads(t), i) && b.readName == t[i].0 && b.readBytes == t[i].1.0
    ensures exists i :: IsFirstMax(Writes(t), i) && b.writeName == t[i].0 && b.writeBytes == t[i].1.1
  {
    var r := FirstMaxIndex(Reads(t));
    var w := FirstMaxIndex(Writes(t));
    Biggest(t[r].0, t[r].1.0, t[w].0, t[w].1.1)
  }

  /** `get_biggest_api`: `{}` without counters; `max` of an empty dict
      raises. */
  function BiggestApi(counters: Option<Apis>): (r: Result<Option<Biggest>>)
    ensures r == Ok(None) <==> counters.None?
    ensures r.Err? <==> counters == Some([])
  {
    if counters.None? then Ok(None)
    else if counters.value == [] then Err("max() arg is an empty sequence")
    else Ok(Some(Pick(ApiTotals(counters.value))))
  }

  /** The API with the most bytes read has at least the bytes of every
      other API and more than every API before it; likewise for writes. */
  lemma BiggestApiIsMax(apis: Apis)
    requires BiggestApi(Some(apis)).Ok?
    ensures var b := BiggestApi(Some(apis)).value.value;
      (exists i :: 0 <= i < |apis| && apis[i].0 == b.readName && b.readBytes == FilesSum(apis[i].1, BytesRead) &&
         (forall k :: 0 <= k < |apis| ==> FilesSum(apis[k].1, BytesRead) <= b.readBytes) &&
         (forall k :: 0 <= k < i ==> FilesSum(apis[k].1, BytesRead) < b.readBytes)) &&
      (exists i :: 0 <= i < |apis| && apis[i].0 == b.writeName && b.writeBytes == FilesSum(apis[i].1, BytesWritten) &&
         (forall k :: 0 <= k < |apis| ==> FilesSum(apis[k].1, BytesWritten) <= b.writeBytes) &&
         (forall k :: 0 <= k < i ==> FilesSum(apis[k].1, BytesWritten) < b.writeBytes))
  {
    BiggestReadIsMax(apis);
    BiggestWriteIsMax(apis);
  }

  lemma BiggestReadIsMax(apis: Apis)
    requires BiggestApi(Some(apis)).Ok?
    ensures var b := BiggestApi(Some(apis)).value.value;
      exists i :: 0 <= i < |apis| && apis[i].0 == b.readName && b.readBytes == FilesSum(apis[i].1, BytesRead) &&
        (forall k :: 0 <= k < |apis| ==> FilesSum(apis[k].1, BytesRead) <= b.readBytes) &&
        (forall k :: 0 <= k < i ==> FilesSum(apis[k].1, BytesRead) < b.readBytes)
  {
    var t := ApiTotals(apis);
    var b := Pick(t);
    var r :| IsFirstMax(Reads(t), r) && b.readName == t[r].0 && b.readBytes == t[r].1.0;
    assert forall k :: 0 <= k < |apis| ==> Reads(t)[k] == FilesSum(apis[k].1, BytesRead);
  }

  lemma BiggestWriteIsMax(apis: Apis)
    requires BiggestApi(Some(apis)).Ok?
    ensures var b := BiggestApi(Some(apis)).value.value;
      exists i :: 0 <= i < |apis| && apis[i].0 == b.writeName && b.writeBytes == FilesSum(apis[i].1, BytesWritten) &&
        (forall k :: 0 <= k < |apis| ==> FilesSum(apis[k].1, BytesWritten) <= b.writeBytes) &&
        (forall k :: 0 <= k < i ==> FilesSum(apis[k].1, BytesWritten) < b.writeBytes)
  {
    var t := ApiTotals(apis);
    var b := Pick(t);
    var w :| IsFirstMax(Writes(t), w) && b.writeName == t[w].0 && b.writeBytes == t[w].1.1;
    assert forall k :: 0 <= k < |apis| ==> Writes(t)[k] == FilesSum(apis[k].1, BytesWritten);
  }

  /** `max` over the values: the first index of the greatest one. */
  method ArgMax(vals: seq<int>) returns (best: nat)
    requires |vals| > 0
    ensures best == FirstMaxIndex(vals)
  {
    best := 0;
    for k := 1 to |vals|
      invariant best == FirstMaxIndex(vals[..k])
    {
      assert vals[..k + 1][..k] == vals[..k];
      if vals[k] > vals[best] {
        best := k;
      }
    }
    assert vals[..|vals|] == vals;
  }

  /** The innermost loop: the bytes of one file's rank records. */
  method SumRanks(ranks: Ranks) returns (read: int, written: int)
    ensures read == RanksSum(ranks, BytesRead) && written == RanksSum(ranks, BytesWritten)
  {
    read, written := 0, 0;
    for k := 0 to |ranks|
      invariant read == RanksSum(ranks[..k], BytesRead) && written == RanksSum(ranks[..k], BytesWritten)
    {
      assert ranks[..k + 1][..k] == ranks[..k];
      var record := ranks[k].1;
      if BytesRead in record {
        read := read + record[BytesRead];
      }
      if BytesWritten in record {
        written := written + record[BytesWritten];
      }
    }
    assert ranks[..|ranks|] == ranks;
  }

  /** The loop over one API's file records. */
  method SumFiles(files: Files) returns (read: int, written: int)
    ensures read == FilesSum(files, BytesRead) && written == FilesSum(files, BytesWritten)
  {
    read, written := 0, 0;
    for k := 0 to |files|
      invariant read == FilesSum(files[..k], BytesRead) && written == FilesSum(files[..k], BytesWritten)
    {
      assert files[..k + 1][..k] == files[..k];
      if files[k].0 == "_perf" || files[k].0 == "_total" {
        continue;
      }
      var r, w := SumRanks(files[k].1);
      read, written := read + r, written + w;
    }
    assert files[..|files|] == files;
  }

  /** `get_biggest_api(darshan_data)`. */
  method GetBiggestApi(counters: Option<Apis>) returns (r: Result<Option<Biggest>>)
    ensures r == BiggestApi(counters)
  {
    if counters.None? {
      return Ok(None);
    }
    var apis := counters.value;
    var totals: Assoc<(int, int)> := [];
    for i := 0 to |apis|
      invariant totals == ApiTotals(apis)[..i]
    {
      var read, written := SumFiles(apis[i].1);
      totals := totals + [(apis[i].0, (read, written))];
    }
    assert totals == ApiTotals(apis);
    if |totals| == 0 {
      return Err("max() arg is an empty sequence");
    }
    var ri := ArgMax(Reads(totals));
    var wi := ArgMax(Writes(totals));
    return Ok(Some(Biggest(totals[ri].0, totals[ri].1.0, totals[wi].0, totals[wi].1.1)));
  }

  /** The file system a record is counted under: its path's mount, or
      `_unknown` (for records such as STDIO's). */
  function FsKey(path: string, mounts: seq<string>): string {
    var m := LongestMount(path, mounts);
    if m.Some? then m.value else "_unknown"
  }

  /** `biggest_fs[key]['read'] += read` and the same for writes, the entry
      created at zero first when `key` is new. */
  function Tally(acc: Assoc<(int, int)>, key: string, read: int, written: int): Assoc<(int, int)> {
    if acc == [] then [(key, (read, written))]
    else if acc[0].0 == key then [(key, (acc[0].1.0 + read, acc[0].1.1 + written))] + acc[1..]
    else [acc[0]] + Tally(acc[1..], key, read, written)
  }

  /** The records of one file, all counted under `key`. */
  function TallyRanks(acc: Assoc<(int, int)>, key: string, ranks: Ranks): Assoc<(int, int)> {
    if ranks == [] then acc
    else
      var n := |ranks| - 1;
      Tally(TallyRanks(acc, key, ranks[..n]), key, Amount(ranks[n].1, BytesRead), Amount(ranks[n].1, BytesWritten))
  }

  /** The file records of one API, `_perf` and `_total` left out. */
  function TallyFiles(acc: Assoc<(int, int)>, files: Files, mounts: seq<string>): Assoc<(int, int)> {
    if files == [] then acc
    else
      var n := |files| - 1;
      var prev := TallyFiles(acc, files[..n], mounts);
      if Skipped(files[n].0) then prev else TallyRanks(prev, FsKey(files[n].0, mounts), files[n].1)
  }

  /** The totals by file system over the biggest read API's records, then
      the biggest write API's: the same API twice is counted twice. */
  function FsTotals(apis: Apis, readApi: string, writeApi: string, mounts: seq<string>): Result<Assoc<(int, int)>> {
    var rf := Find(apis, readApi);
    if rf.None? then Err("KeyError: " + readApi)
    else
      var wf := Find(apis, writeApi);
      if wf.None? then Err("KeyError: " + writeApi)
      else Ok(TallyFiles(TallyFiles([], rf.value, mounts), wf.value, mounts))
  }

  /** The parts of a Darshan object the summary reads: the header and
      mount entries, the counters, and the biggest APIs if a previous
      summary stored them. */
  datatype DarshanData = DarshanData(
    header: Option<map<string, D.Value>>,
    mounts: Option<seq<string>>,
    counters: Option<Apis>,
    biggestReadApi: Option<string>,
    biggestWriteApi: Option<string>)

  /** The APIs `get_biggest_fs` looks at: the stored ones when both are
      there, else those `get_biggest_api` picks. */
  function ChosenApis(data: DarshanData): Result<(string, string)>
    requires data.counters.Some?
  {
    if data.biggestReadApi.None? || data.biggestWriteApi.None? then
      var b := BiggestApi(data.counters);
      if b.Err? then Err(b.msg) else Ok((b.value.value.readName, b.value.value.writeName))
    else Ok((data.biggestReadApi.value, data.biggestWriteApi.value))
  }

  /** `get_biggest_fs`. */
  function BiggestFs(data: DarshanData): (r: Result<Option<Biggest>>)
    ensures r == Ok(None) <==> data.counters.None?
  {
    if data.counters.None? then Ok(None)
    else
      var names :- ChosenApis(data);
      if data.mounts.None? then Err("KeyError: mounts")
      else
        var t :- FsTotals(data.counters.value, names.0, names.1, data.mounts.value);
        if t == [] then Err("max() arg is an empty sequence") else Ok(Some(Pick(t)))
  }

  function SumReads(t: Assoc<(int, int)>): int {
    if t == [] then 0 else t[0].1.0 + SumReads(t[1..])
  }

  function SumWrites(t: Assoc<(int, int)>): int {
    if t == [] then 0 else t[0].1.1 + SumWrites(t[1..])
  }

  /** Every key is a mount or `_unknown`. */
  predicate FsKeys(t: Assoc<(int, int)>, mounts: seq<string>) {
    forall i :: 0 <= i < |t| ==> t[i].0 == "_unknown" || t[i].0 in mounts
  }

  /** One addition: the key is there once, the totals grow by the amounts,
      and no key but `key` appears. */
  lemma {:induction false} TallyAdds(acc: Assoc<(int, int)>, key: string, read: int, written: int)
    requires DistinctKeys(acc)
    ensures var t := Tally(acc, key, read, written);
      DistinctKeys(t) &&
      SumReads(t) == SumReads(acc) + read && SumWrites(t) == SumWrites(acc) + written &&
      (forall i :: 0 <= i < |t| ==> t[i].0 == key || exists j :: 0 <= j < |acc| && acc[j].0 == t[i].0)
  {
    if acc != [] && acc[0].0 != key {
      var rest := acc[1..];
      assert DistinctKeys(rest);
      TallyAdds(rest, key, read, written);
      var t := Tally(acc, key, read, written);
      assert t == [acc[0]] + Tally(rest, key, read, written);
      assert t[1..] == Tally(rest, key, read, written);
      forall i | 0 <= i < |t|
        ensures t[i].0 == key || exists j :: 0 <= j < |acc| && acc[j].0 == t[i].0
      {
        if i > 0 && t[i].0 != key {
          var j :| 0 <= j < |rest| && rest[j].0 == t[i].0;
          assert acc[j + 1].0 == t[i].0;
        }
      }
      forall i, j | 0 <= i < j < |t| ensures t[i].0 != t[j].0 {
        if i == 0 && t[j].0 != key {
          var q :| 0 <= q < |rest| && rest[q].0 == t[j].0;
          assert acc[q + 1].0 == t[j].0;
        }
      }
    } else if acc != [] {
      var t := Tally(acc, key, read, written);
      assert t[1..] == acc[1..];
      forall i | 0 <= i < |t|
        ensures t[i].0 == key || exists j :: 0 <= j < |acc| && acc[j].0 == t[i].0
      {
        if i > 0 {
          assert acc[i].0 == t[i].0;
        }
      }
    }
  }

  lemma TallyKeys(acc: Assoc<(int, int)>, key: string, read: int, written: int, mounts: seq<string>)
    requires DistinctKeys(acc) && FsKeys(acc, mounts) && (key == "_unknown" || key in mounts)
    ensures FsKeys(Tally(acc, key, read, written), mounts)
  {
    TallyAdds(acc, key, read, written);
  }

  lemma FsKeyIsMount(path: string, mounts: seq<string>)
    ensures FsKey(path, mounts) == "_unknown" || FsKey(path, mounts) in mounts
  {
    LongestMountIsBest(path, mounts);
  }

  /** A file's records add their bytes under one key. */
  lemma {:induction false} TallyRanksAdds(acc: Assoc<(int, int)>, key: string, ranks: Ranks, mounts: seq<string>)
    requires DistinctKeys(acc) && FsKeys(acc, mounts) && (key == "_unknown" || key in mounts)
    ensures var t := TallyRanks(acc, key, ranks);
      DistinctKeys(t) && FsKeys(t, mounts) &&
      SumReads(t) == SumReads(acc) + RanksSum(ranks, BytesRead) &&
      SumWrites(t) == SumWrites(acc) + RanksSum(ranks, BytesWritten)
  {
    if ranks != [] {
      var n := |ranks| - 1;
      TallyRanksAdds(acc, key, ranks[..n], mounts);
      var prev := TallyRanks(acc, key, ranks[..n]);
      TallyAdds(prev, key, Amount(ranks[n].1, BytesRead), Amount(ranks[n].1, BytesWritten));
      TallyKeys(prev, key, Amount(ranks[n].1, BytesRead), Amount(ranks[n].1, BytesWritten), mounts);
    }
  }

  /** An API's file records add all their bytes, each under a mount or
      `_unknown`: nothing is lost or counted twice within one pass. */
  lemma {:induction false} TallyFilesAdds(acc: Assoc<(int, int)>, files: Files, mounts: seq<string>)
    requires DistinctKeys(acc) && FsKeys(acc, mounts)
    ensures var t := TallyFiles(acc, files, mounts);
      DistinctKeys(t) && FsKeys(t, mounts) &&
      SumReads(t) == SumReads(acc) + FilesSum(files, BytesRead) &&
      SumWrites(t) == SumWrites(acc) + FilesSum(files, BytesWritten)
  {
    if files != [] {
      var n := |files| - 1;
      TallyFilesAdds(acc, files[..n], mounts);
      if !Skipped(files[n].0) {
        FsKeyIsMount(files[n].0, mounts);
        TallyRanksAdds(TallyFiles(acc, files[..n], mounts), FsKey(files[n].0, mounts), files[n].1, mounts);
      }
    }
  }

  /** The file-system totals hold, key by distinct key, exactly the bytes
      of the read API's records plus those of the write API's. */
  lemma FsTotalsAdd(apis: Apis, readApi: string, writeApi: string, mounts: seq<string>)
    requires FsTotals(apis, readApi, writeApi, mounts).Ok?
    ensures var t := FsTotals(apis, readApi, writeApi, mounts).value;
      var rf, wf := Find(apis, readApi).value, Find(apis, writeApi).value;
      DistinctKeys(t) && FsKeys(t, mounts) &&
      SumReads(t) == FilesSum(rf, BytesRead) + FilesSum(wf, BytesRead) &&
      SumWrites(t) == FilesSum(rf, BytesWritten) + FilesSum(wf, BytesWritten)
  {
    var rf, wf := Find(apis, readApi).value, Find(apis, writeApi).value;
    TallyFilesAdds([], rf, mounts);
    TallyFilesAdds(TallyFiles([], rf, mounts), wf, mounts);
  }

  /** When one API is biggest for both reads and writes, its records are
      counted twice. */
  lemma SameApiCountedTwice(apis: Apis, api: string, mounts: seq<string>)
    requires FsTotals(apis, api, api, mounts).Ok?
    ensures var t := FsTotals(apis, api, api, mounts).value;
      SumReads(t) == 2 * FilesSum(Find(apis, api).value, BytesRead) &&
      SumWrites(t) == 2 * FilesSum(Find(apis, api).value, BytesWritten)
  {
    FsTotalsAdd(apis, api, api, mounts);
  }

  /** One file's records, each counted under the file's file system. */
  method TallyRecords(acc: Assoc<(int, int)>, path: string, ranks: Ranks, mounts: seq<string>)
    returns (t: Assoc<(int, int)>)
    ensures t == TallyRanks(acc, FsKey(path, mounts), ranks)
  {
    t := acc;
    for k := 0 to |ranks|
      invariant t == TallyRanks(acc, FsKey(path, mounts), ranks[..k])
    {
      assert ranks[..k + 1][..k] == ranks[..k];
      var m := IdentifyFsFromPath(path, mounts);
      var key := if m.Some? then m.value else "_unknown";
      var record := ranks[k].1;
      var read := if BytesRead in record then record[BytesRead] else 0;
      var written := if BytesWritten in record then record[BytesWritten] else 0;
      t := Tally(t, key, read, written);
    }
    assert ranks[..|ranks|] == ranks;
  }

  /** The loop over one API's file records. */
  method TallyApi(acc: Assoc<(int, int)>, files: Files, mounts: seq<string>) returns (t: Assoc<(int, int)>)
    ensures t == TallyFiles(acc, files, mounts)
  {
    t := acc;
    for k := 0 to |files|
      invariant t == TallyFiles(acc, files[..k], mounts)
    {
      assert files[..k + 1][..k] == files[..k];
      if files[k].0 == "_perf" || files[k].0 == "_total" {
        continue;
      }
      t := TallyRecords(t, files[k].0, files[k].1, mounts);
    }
    assert files[..|files|] == files;
  }

  /** `get_biggest_fs(darshan_data)`. */
  method GetBiggestFs(data: DarshanData) returns (r: Result<Option<Biggest>>)
    ensures r == BiggestFs(data)
  {
    if data.counters.None? {
      return Ok(None);
    }
    var readApi, writeApi;
    if data.biggestReadApi.None? || data.biggestWriteApi.None? {
      var b := GetBiggestApi(data.counters);
      if b.Err? {
        return Err(b.msg);
      }
      readApi, writeApi := b.value.value.readName, b.value.value.writeName;
    } else {
      readApi, writeApi := data.biggestReadApi.value, data.biggestWriteApi.value;
    }
    if data.mounts.None? {
      return Err("KeyError: mounts");
    }
    var mounts := data.mounts.value;
    var t: Assoc<(int, int)> := [];
    var readFiles := Find(data.counters.value, readApi);
    if readFiles.None? {
      return Err("KeyError: " + readApi);
    }
    t := TallyApi(t, readFiles.value, mounts);
    var writeFiles := Find(data.counters.value, writeApi);
    if writeFiles.None? {
      return Err("KeyError: " + writeApi);
    }
    t := TallyApi(t, writeFiles.value, mounts);
    if |t| == 0 {
      return Err("max() arg is an empty sequence");
    }
    var ri := ArgMax(Reads(t));
    var wi := ArgMax(Writes(t));
    return Ok(Some(Biggest(t[ri].0, t[ri].1.0, t[wi].0, t[wi].1.1)));
  }

  // ---------------------------------------------------------------------
  // summarize_darshan

  /** The header part of the summary: four header entries (absent ones are
      None) and the application, the first `exe` token. */
  datatype HeaderSummary = HeaderSummary(
    walltime: Option<D.Value>, endTime: Option<D.Value>, startTime: Option<D.Value>,
    jobid: Option<D.Value>, app: Option<D.Value>)

  function Entry(h: map<string, D.Value>, key: string): Option<D.Value> {
    if key in h then Some(h[key]) else None
  }

  /** `d_header['exe'][0]`: the first item of a list, the first character
      of a text; an empty one, or a number, raises. */
  function First(v: D.Value): Result<D.Value> {
    match v
    case HList(items) => if items == [] then Err("list index out of range") else Ok(items[0])
    case HText(t) => if t == [] then Err("string index out of range") else Ok(D.HText([t[0]]))
    case HInt(_) => Err("object has no attribute '__getitem__'")
  }

  function SummarizeHeader(h: map<string, D.Value>): (r: Result<HeaderSummary>)
    ensures r.Err? <==> "exe" in h && First(h["exe"]).Err?
    ensures r.Ok? ==> r.value.walltime == Entry(h, "walltime") && r.value.endTime == Entry(h, "end_time") &&
                      r.value.startTime == Entry(h, "start_time") && r.value.jobid == Entry(h, "jobid")
    ensures r.Ok? ==> (r.value.app.None? <==> "exe" !in h)
  {
    var app :- if "exe" in h then (var f :- First(h["exe"]); Ok(Some(f))) else Ok(None);
    Ok(HeaderSummary(Entry(h, "walltime"), Entry(h, "end_time"), Entry(h, "start_time"), Entry(h, "jobid"), app))
  }

  /** The application of a job whose log has the line `# exe: <path> ...`
      is the path as written. */
  lemma AppIsExePath(line: string)
    requires StartsWith(line, "# exe:") && |Fields(line)| >= 3
    ensures var v := D.ParseHeader(line).value.value.1;
      SummarizeHeader(map["exe" := v]).Ok? &&
      SummarizeHeader(map["exe" := v]).value.app == Some(D.HText(Fields(line)[2]))
  {
    D.ExeTokens(line);
  }

  /** The summary `summarize_darshan` builds, the floating-point POSIX
      part aside. */
  datatype Summary = Summary(header: Option<HeaderSummary>, api: Option<Biggest>, fs: Option<Biggest>)

  function SummaryOf(data: DarshanData): Result<Summary> {
    var header :- if data.header.Some? then (var h :- SummarizeHeader(data.header.value); Ok(Some(h))) else Ok(None);
    var api :- BiggestApi(data.counters);
    var fs :- BiggestFs(data);
    Ok(Summary(header, api, fs))
  }

  /** `summarize_darshan(darshan_data)`, the POSIX performance part left
      out. */
  method SummarizeDarshan(data: DarshanData) returns (r: Result<Summary>)
    ensures r == SummaryOf(data)
  {
    var header: Option<HeaderSummary> := None;
    if data.header.Some? {
      var h := data.header.value;
      var app: Option<D.Value> := None;
      if "exe" in h {
        var first := First(h["exe"]);
        if first.Err? {
          return Err(first.msg);
        }
        app := Some(first.value);
      }
      header := Some(HeaderSummary(Entry(h, "walltime"), Entry(h, "end_time"), Entry(h, "start_time"), Entry(h, "jobid"), app));
    }
    var api := GetBiggestApi(data.counters);
    if api.Err? {
      return Err(api.msg);
    }
    var fs := GetBiggestFs(data);
    if fs.Err? {
      return Err(fs.msg);
    }
    return Ok(Summary(header, api.value, fs.value));
  }
}
