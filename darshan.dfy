/** The darshan-parser text reader of `tokio/connectors/darshan.py`: the
    pure line classifiers, the forward-only section state machine, the
    module-section tracking and the nested counter store with prefix
    stripping and duplicate detection. */
module DarshanConnector {
  import opened Wrappers
  import opened Text

  // ---------------------------------------------------------------------
  // Values the parser stores

  /** A header value: a string, an integer or a list (the `exe` tokens and
      the accumulated `metadata` lines). */
  datatype Value = HText(text: string) | HInt(n: int) | HList(items: seq<Value>)

  /** A counter value: integers are exact; a value holding a `.` is kept as
      its text (floating point is not modelled). */
  datatype Num = IntVal(i: int) | FloatVal(text: string)

  /** The entry under a file name: a counter, or (keyed by rank) a map of
      counters. */
  datatype Node = Leaf(value: Num) | Ranked(counters: map<string, Num>)

  /** counters[module][file name][counter or rank] */
  type FileRecord = map<string, Node>
  type CounterStore = map<string, map<string, FileRecord>>

  function Get<K, V>(m: Option<map<K, V>>): map<K, V> {
    if m.Some? then m.value else map[]
  }

  // ---------------------------------------------------------------------
  // Header lines

  const HeaderPrefixes: seq<string> := [
    "# darshan log version:", "# compression method:", "# exe:", "# uid:",
    "# jobid:", "# start_time:", "# start_time_asci:", "# end_time:",
    "# end_time_asci:", "# nprocs:", "# run time:", "# metadata:"]

  /** The key each prefix of `HeaderPrefixes` is stored under. */
  const HeaderKeys: seq<string> := [
    "version", "compression", "exe", "uid",
    "jobid", "start_time", "start_time_string", "end_time",
    "end_time_string", "nprocs", "walltime", "metadata"]

  /** `line.split()[i]`, or the IndexError. */
  function WordAt(line: string, i: nat): Result<string> {
    var w := Fields(line);
    if i < |w| then Ok(w[i]) else Err("list index out of range")
  }

  /** `line.split()[-1]`, or the IndexError. */
  function LastWord(line: string): Result<string> {
    var w := Fields(line);
    if w != [] then Ok(w[|w| - 1]) else Err("list index out of range")
  }

  /** `line.split(None, 2)[-1].strip()`, or the IndexError. */
  function Remainder(line: string): Result<string> {
    var w := FieldsMax(line, 2);
    if w != [] then Ok(Strip(w[|w| - 1])) else Err("list index out of range")
  }

  function IntOf(word: Result<string>): Result<int> {
    var s :- word;
    ParseInt(s)
  }

  function Texts(words: seq<string>): (r: seq<Value>)
    ensures |r| == |words| && forall i :: 0 <= i < |r| ==> r[i] == HText(words[i])
  {
    seq(|words|, i requires 0 <= i < |words| => HText(words[i]))
  }

  function Tagged<T>(key: string, v: Result<T>, wrap: T -> Value): Result<Option<(string, Value)>> {
    var x :- v;
    Ok(Some((key, wrap(x))))
  }

  /** The first header prefix the line starts with (`|HeaderPrefixes|` if
      none): the `if`/`elif` chain of `_parse_header`. */
  function HeaderIndex(line: string, from: nat := 0): (j: nat)
    requires from <= |HeaderPrefixes|
    ensures from <= j <= |HeaderPrefixes|
    ensures j < |HeaderPrefixes| ==> StartsWith(line, HeaderPrefixes[j])
    ensures forall i :: from <= i < j ==> !StartsWith(line, HeaderPrefixes[i])
    decreases |HeaderPrefixes| - from
  {
    if from == |HeaderPrefixes| || StartsWith(line, HeaderPrefixes[from]) then from
    else HeaderIndex(line, from + 1)
  }

  /** `line.split()[2:]`. */
  function ExeWords(line: string): seq<string> {
    var w := Fields(line);
    if |w| >= 2 then w[2..] else []
  }

  /** The value stored for the `j`th header prefix: the last word, an
      integer of the last or the third word, the word list after `# exe:`,
      or the stripped text after the second word. */
  function HeaderValue(j: nat, line: string): (r: Result<Option<(string, Value)>>)
    requires j < |HeaderKeys|
    ensures r.Ok? ==> r.value.Some? && r.value.value.0 == HeaderKeys[j]
  {
    var key := HeaderKeys[j];
    if j == 0 || j == 1 || j == 4 then Tagged(key, LastWord(line), s => HText(s))
    else if j == 2 then Ok(Some((key, HList(Texts(ExeWords(line))))))
    else if j == 3 || j == 9 || j == 10 then Tagged(key, IntOf(LastWord(line)), n => HInt(n))
    else if j == 5 || j == 7 then Tagged(key, IntOf(WordAt(line, 2)), n => HInt(n))
    else Tagged(key, Remainder(line), s => HText(s))
  }

  /** `_parse_header`: the key and value of a header line, `None` for any
      other line, or the error `split`, `int` or `long` raises. */
  function ParseHeader(line: string): (r: Result<Option<(string, Value)>>)
    ensures (r.Ok? && r.value.None?) <==>
              forall j :: 0 <= j < |HeaderPrefixes| ==> !StartsWith(line, HeaderPrefixes[j])
    ensures r.Ok? && r.value.Some? ==>
              var j := HeaderIndex(line);
              j < |HeaderKeys| && StartsWith(line, HeaderPrefixes[j]) && r.value.value.0 == HeaderKeys[j]
  {
    var j := HeaderIndex(line);
    if j == |HeaderPrefixes| then Ok(None) else HeaderValue(j, line)
  }

  // ---------------------------------------------------------------------
  // Mount, base-counter, total-counter and perf-counter lines

  const MountPrefix: string := "# mount entry:\t"

  /** `split` on a line that starts with a separator-terminated prefix. */
  lemma SplitAfterPrefix(s: string, p: string, sep: char)
    requires p != [] && p <= s && p[|p| - 1] == sep && sep !in p[..|p| - 1]
    ensures Split(s, sep) == [p[..|p| - 1]] + Split(s[|p|..], sep)
  {
    var a, b := p[..|p| - 1], s[|p|..];
    assert s == a + [sep] + b by { assert s == p + b; assert p == a + [sep]; }
    SplitCons(a, b, sep);
  }

  lemma MountSplit(line: string)
    requires StartsWith(line, MountPrefix)
    ensures Split(line, '\t') == ["# mount entry:"] + Split(line[|MountPrefix|..], '\t')
  {
    SplitAfterPrefix(line, MountPrefix, '\t');
    assert MountPrefix[..|MountPrefix| - 1] == "# mount entry:";
  }

  /** The first piece of a split, with the separator after it, starts the
      string. */
  lemma FirstPiecePrefix(rest: string, sep: char)
    requires sep in rest
    ensures Split(rest, sep)[0] + [sep] <= rest && sep !in Split(rest, sep)[0]
  {
    SplitHead(rest, sep);
    var k := IndexOf(rest, sep);
    assert rest[..k + 1] == rest[..k] + [sep];
  }

  lemma PrefixConcat(p: string, a: string, b: string)
    requires a <= b
    ensures p + a <= p + b
  {
    assert (p + b)[..|p| + |a|] == p + a;
  }

  /** The second field of a mount line is the text between its first two
      tabs. */
  lemma MountEntry(line: string)
    requires StartsWith(line, MountPrefix) && |Split(line, '\t')| >= 3
    ensures var parts := Split(line, '\t');
            MountPrefix + parts[1] + "\t" <= line && '\t' !in parts[1] && '\t' !in Strip(parts[2])
  {
    var parts := Split(line, '\t');
    MountSplit(line);
    var rest := line[|MountPrefix|..];
    assert parts[1] == Split(rest, '\t')[0];
    MountKeyPrefix(line, rest);
    StripInside(parts[2], '\t');
  }

  lemma MountKeyPrefix(line: string, rest: string)
    requires StartsWith(line, MountPrefix) && rest == line[|MountPrefix|..] && |Split(rest, '\t')| >= 2
    ensures var key := Split(rest, '\t')[0];
            MountPrefix + key + "\t" <= line && '\t' !in key
  {
    var key := Split(rest, '\t')[0];
    FirstPiecePrefix(rest, '\t');
    assert line == MountPrefix + rest;
    PrefixConcat(MountPrefix, key + "\t", rest);
    assert MountPrefix + (key + "\t") == MountPrefix + key + "\t";
  }

  /** `_parse_mounts`: the mount point and the stripped file-system name of
      a mount-table line, `None` for other lines, or the unpacking error of
      a line with nothing after its second field. */
  function ParseMounts(line: string): (r: Result<Option<(string, string)>>)
    ensures (r.Ok? && r.value.None?) <==> !StartsWith(line, MountPrefix)
    ensures r.Err? <==> StartsWith(line, MountPrefix) && '\t' !in line[|MountPrefix|..]
    ensures r.Ok? && r.value.Some? ==>
              var (key, val) := r.value.value;
              MountPrefix + key + "\t" <= line && '\t' !in key && '\t' !in val &&
              (val == [] || (!IsSpace(val[0]) && !IsSpace(val[|val| - 1])))
  {
    if StartsWith(line, MountPrefix) then
      var parts := Split(line, '\t');
      MountSplit(line);
      if |parts| < 3 then Err("need more than 1 value to unpack")
      else
        MountEntry(line);
        Ok(Some((parts[1], Strip(parts[2]))))
    else Ok(None)
  }

  /** `strip` only removes characters. */
  lemma StripInside(s: string, c: char)
    requires c !in s
    ensures c !in Strip(s)
  {
    var t := TrimRight(s);
    assert forall x :: x in t ==> x in s;
    assert forall x :: x in TrimLeft(t) ==> x in t;
  }

  /** `_parse_base_counters`: the eight tab-separated fields of a counter
      line that does not start with `#`. */
  function ParseBaseCounters(line: string): (r: Option<seq<string>>)
    ensures r.Some? <==> !StartsWith(line, "#") && |Split(line, '\t')| == 8
    ensures r.Some? ==> |r.value| == 8 && Join(r.value, '\t') == line &&
                        forall i :: 0 <= i < 8 ==> '\t' !in r.value[i]
  {
    if !StartsWith(line, "#") then
      var args := Split(line, '\t');
      JoinSplit(line, '\t');
      if |args| == 8 then Some(args) else None
    else None
  }

  /** `_parse_total_counters`: the stripped name and value of a
      `name: value` line that does not start with `#`. */
  function ParseTotalCounters(line: string): (r: Option<(string, string)>)
    ensures r.Some? <==> !StartsWith(line, "#") && |Split(line, ':')| == 2
    ensures r.Some? ==> exists a, b :: line == a + ":" + b && ':' !in a && ':' !in b &&
                                       r.value == (Strip(a), Strip(b))
  {
    if !StartsWith(line, "#") then
      var args := Split(line, ':');
      JoinSplit(line, ':');
      if |args| == 2 then
        assert args[1..] == [args[1]];
        assert line == args[0] + ":" + args[1];
        Some((Strip(args[0]), Strip(args[1])))
      else None
    else None
  }

  predicate IsPerfTotal(line: string) {
    StartsWith(line, "# total_bytes:") || StartsWith(line, "# agg_perf_by")
  }

  predicate IsPerfSplit(line: string) {
    StartsWith(line, "# unique files:") || StartsWith(line, "# shared files:")
  }

  /** `_parse_perf_counters`: `# total_bytes:` and `# agg_perf_by*` lines
      keep their own key; `# unique files: X: v` and `# shared files: X: v`
      become `X_unique_files` and `X_shared_files`; any other line is
      `None`; a line with the wrong number of colons raises. */
  function ParsePerfCounters(line: string): (r: Result<Option<(string, string)>>)
    ensures (r.Ok? && r.value.None?) <==> !IsPerfTotal(line) && !IsPerfSplit(line)
    ensures r.Err? <==> (IsPerfTotal(line) && |Split(line[2..], ':')| != 2) ||
                        (!IsPerfTotal(line) && IsPerfSplit(line) && |Split(line[2..], ':')| != 3)
  {
    if IsPerfTotal(line) then
      var parts := Split(line[2..], ':');
      if |parts| != 2 then Err("wrong number of values to unpack")
      else Ok(Some((Strip(parts[0]), Strip(parts[1]))))
    else if IsPerfSplit(line) then
      var parts := Split(line[2..], ':');
      if |parts| != 3 then Err("wrong number of values to unpack")
      else
        var key := parts[1] + "_" + ReplaceChar(parts[0], ' ', '_');
        Ok(Some((Strip(key), Strip(parts[2]))))
    else Ok(None)
  }

  lemma TotalBytesSplit(value: string)
    requires ':' !in value
    ensures Split(("# total_bytes:" + value)[2..], ':') == ["total_bytes", value]
  {
    JoinPair("total_bytes", value, ':');
    assert ("# total_bytes:" + value)[2..] == "total_bytes" + ":" + value;
    SplitJoin(["total_bytes", value], ':');
  }

  /** A `total_bytes` line keeps its key and strips its value. */
  lemma PerfTotalBytes(value: string)
    requires ':' !in value
    ensures ParsePerfCounters("# total_bytes:" + value) == Ok(Some(("total_bytes", Strip(value))))
  {
    var line := "# total_bytes:" + value;
    assert IsPerfTotal(line) by { assert line[..14] == "# total_bytes:"; }
    TotalBytesSplit(value);
    StripNoSpace("total_bytes");
  }

  lemma KindSplit(kind: string, name: string, value: string)
    requires ':' !in kind && ':' !in name && ':' !in value
    ensures Split(("# " + kind + ":" + name + ":" + value)[2..], ':') == [kind, name, value]
  {
    JoinTriple(kind, name, value, ':');
    assert ("# " + kind + ":" + name + ":" + value)[2..] == kind + ":" + name + ":" + value;
    SplitJoin([kind, name, value], ':');
  }

  lemma PrefixOfConcat(p: string, rest: string)
    ensures StartsWith(p + rest, p)
  {
    assert (p + rest)[..|p|] == p;
  }

  lemma NotPrefixAt(line: string, p: string, i: nat)
    requires i < |p| && i < |line| && line[i] != p[i]
    ensures !StartsWith(line, p)
  {
  }

  lemma KindClass(kind: string, name: string, value: string)
    requires kind == "unique files" || kind == "shared files"
    ensures var line := "# " + kind + ":" + name + ":" + value;
      !IsPerfTotal(line) && IsPerfSplit(line)
  {
    var head, rest := "# " + kind + ":", name + ":" + value;
    KindHead(kind);
    assert "# " + kind + ":" + name + ":" + value == head + rest;
    SplitHeadClass(head, rest);
  }

  lemma KindHead(kind: string)
    requires kind == "unique files" || kind == "shared files"
    ensures "# " + kind + ":" == "# unique files:" || "# " + kind + ":" == "# shared files:"
  {
  }

  lemma SplitHeadClass(head: string, rest: string)
    requires head == "# unique files:" || head == "# shared files:"
    ensures !IsPerfTotal(head + rest) && IsPerfSplit(head + rest)
  {
    PrefixOfConcat(head, rest);
    assert (head + rest)[2] == head[2];
    NotPrefixAt(head + rest, "# total_bytes:", 2);
    NotPrefixAt(head + rest, "# agg_perf_by", 2);
  }

  lemma KindNoColon(kind: string)
    requires kind == "unique files" || kind == "shared files"
    ensures ':' !in kind
  {
    assert kind[6] == ' ' && |kind| == 12;
  }

  lemma KeyStrip(name: string, suffix: string)
    requires suffix != [] && !IsSpace(suffix[0]) && !IsSpace(suffix[|suffix| - 1])
    ensures Strip(name + suffix) == TrimLeft(name) + suffix
  {
    assert TrimRight(name + suffix) == name + suffix;
    TrimLeftConcat(name, suffix);
  }

  lemma PerfSplitOf(line: string, parts: seq<string>)
    requires !IsPerfTotal(line) && IsPerfSplit(line)
    requires Split(line[2..], ':') == parts && |parts| == 3
    ensures ParsePerfCounters(line) ==
            Ok(Some((Strip(parts[1] + "_" + ReplaceChar(parts[0], ' ', '_')), Strip(parts[2]))))
  {
  }

  /** A `unique files` or `shared files` line puts the kind, spaces turned to
      underscores, behind the counter name. */
  lemma PerfSplitKey(kind: string, name: string, value: string)
    requires kind == "unique files" || kind == "shared files"
    requires ':' !in name && ':' !in value
    ensures ParsePerfCounters("# " + kind + ":" + name + ":" + value) ==
            Ok(Some((TrimLeft(name) + "_" + ReplaceChar(kind, ' ', '_'), Strip(value))))
  {
    PerfSplitRaw(kind, name, value);
    KeySuffix(kind);
    KeyStripAssoc(name, ReplaceChar(kind, ' ', '_'));
  }

  lemma PerfSplitRaw(kind: string, name: string, value: string)
    requires kind == "unique files" || kind == "shared files"
    requires ':' !in name && ':' !in value
    ensures ParsePerfCounters("# " + kind + ":" + name + ":" + value) ==
            Ok(Some((Strip(name + "_" + ReplaceChar(kind, ' ', '_')), Strip(value))))
  {
    KindNoColon(kind);
    KindSplit(kind, name, value);
    KindClass(kind, name, value);
    PerfSplitOf("# " + kind + ":" + name + ":" + value, [kind, name, value]);
  }

  lemma KeyStripAssoc(name: string, r: string)
    requires var suffix := "_" + r; !IsSpace(suffix[|suffix| - 1])
    ensures Strip(name + "_" + r) == TrimLeft(name) + "_" + r
  {
    ConcatAssoc(name, "_", r);
    ConcatAssoc(TrimLeft(name), "_", r);
    KeyStrip(name, "_" + r);
  }

  lemma ConcatAssoc(a: string, b: string, c: string)
    ensures a + b + c == a + (b + c)
  {
  }

  lemma KeySuffix(kind: string)
    requires kind == "unique files" || kind == "shared files"
    ensures var suffix := "_" + ReplaceChar(kind, ' ', '_');
      suffix != [] && !IsSpace(suffix[0]) && !IsSpace(suffix[|suffix| - 1])
  {
    var suffix := "_" + ReplaceChar(kind, ' ', '_');
    assert suffix[|suffix| - 1] == 's';
  }

  lemma SlowestRankLine(value: string)
    ensures "# " + "unique files" + ":" + " slowest_rank_io_time" + ":" + value ==
            "# unique files: slowest_rank_io_time:" + value
  {
    assert "# " + "unique files" + ":" == "# unique files:";
    assert "# unique files:" + " slowest_rank_io_time" + ":" == "# unique files: slowest_rank_io_time:";
  }

  lemma SlowestRankKey()
    ensures TrimLeft(" slowest_rank_io_time") + "_" + ReplaceChar("unique files", ' ', '_') ==
            "slowest_rank_io_time_unique_files"
  {
    TrimSlowest();
    ReplaceUnique();
    assert "slowest_rank_io_time" + "_" + "unique_files" == "slowest_rank_io_time_unique_files";
  }

  lemma TrimSlowest()
    ensures TrimLeft(" slowest_rank_io_time") == "slowest_rank_io_time"
  {
    var name := " slowest_rank_io_time";
    assert name[1..] == "slowest_rank_io_time";
    assert TrimLeft(name[1..]) == name[1..];
  }

  lemma ReplaceUnique()
    ensures ReplaceChar("unique files", ' ', '_') == "unique_files"
  {
  }

  /** The perf key the job summary reads. */
  lemma PerfSlowestRank(value: string)
    requires ':' !in value
    ensures ParsePerfCounters("# unique files: slowest_rank_io_time:" + value) ==
            Ok(Some(("slowest_rank_io_time_unique_files", Strip(value))))
  {
    PerfSplitKey("unique files", " slowest_rank_io_time", value);
    SlowestRankLine(value);
    SlowestRankKey();
  }

  // ---------------------------------------------------------------------
  // Module headings: `^# ([A-Z\-0-9/]+) module data\s*$`

  predicate IsModuleChar(c: char) {
    'A' <= c <= 'Z' || c == '-' || '0' <= c <= '9' || c == '/'
  }

  predicate AllSpace(s: string) {
    forall i :: 0 <= i < |s| ==> IsSpace(s[i])
  }

  const ModuleTail: string := " module data"

  /** Length of the run of module-name characters at the front of `s`. */
  function ModuleRun(s: string): (n: nat)
    ensures n <= |s| && forall i :: 0 <= i < n ==> IsModuleChar(s[i])
    ensures n < |s| ==> !IsModuleChar(s[n])
  {
    if s != [] && IsModuleChar(s[0]) then 1 + ModuleRun(s[1..]) else 0
  }

  /** The module name a heading line announces. The character class does
      not hold a space, so the greedy run is the only candidate match. */
  function MatchModule(line: string): (r: Option<string>)
    ensures r.Some? ==>
              r.value != [] && (forall i :: 0 <= i < |r.value| ==> IsModuleChar(r.value[i])) &&
              "# " + r.value + ModuleTail <= line && AllSpace(line[|r.value| + 14..])
  {
    if StartsWith(line, "# ") then
      var rest := line[2..];
      var n := ModuleRun(rest);
      if n > 0 && StartsWith(rest[n..], ModuleTail) && AllSpace(rest[n + |ModuleTail|..]) then
        assert line == "# " + rest;
        assert rest[..n + |ModuleTail|] == rest[..n] + ModuleTail;
        Some(rest[..n])
      else None
    else None
  }

  lemma {:induction false} ModuleRunConcat(name: string, tail: string)
    requires forall i :: 0 <= i < |name| ==> IsModuleChar(name[i])
    requires tail != [] && !IsModuleChar(tail[0])
    ensures ModuleRun(name + tail) == |name|
  {
    if name != [] {
      assert (name + tail)[1..] == name[1..] + tail;
      ModuleRunConcat(name[1..], tail);
    }
  }

  /** Every heading line matches, with the announced name. */
  lemma MatchModuleOf(name: string, ws: string)
    requires name != [] && forall i :: 0 <= i < |name| ==> IsModuleChar(name[i])
    requires AllSpace(ws)
    ensures MatchModule("# " + name + ModuleTail + ws) == Some(name)
  {
    var line := "# " + name + ModuleTail + ws;
    var rest := line[2..];
    assert rest == name + (ModuleTail + ws);
    ModuleRunConcat(name, ModuleTail + ws);
    assert rest[|name|..] == ModuleTail + ws;
    assert rest[|name| + |ModuleTail|..] == ws;
  }

  /** The module key: `-` and `/` removed (`MPI-IO` and `MPIIO`, `BG/Q` and
      `BGQ` name the same module). */
  function ModuleKey(heading: string): (k: string)
    ensures '-' !in k && '/' !in k
  {
    Remove(Remove(heading, '-'), '/')
  }

  // ---------------------------------------------------------------------
  // insert_record

  function ParseValue(value: string): Result<Num> {
    if '.' in value then Ok(FloatVal(value))
    else
      var n :- ParseInt(value);
      Ok(IntVal(n))
  }

  /** The counter name once the module prefix is cut off. */
  function Unprefixed(counter: string, prefix: Option<string>): string {
    if prefix.Some? && StartsWith(counter, prefix.value) then counter[|prefix.value|..] else counter
  }

  /** The insertion fails before it touches the store. */
  predicate Rejected(modName: Option<string>, counter: string, prefix: Option<string>) {
    modName.None? || (prefix.Some? && !StartsWith(counter, prefix.value))
  }

  /** The counter at a rank (or directly, without one) in a file's record. */
  function LookupRec(rec: FileRecord, rank: Option<string>, counter: string): Option<Num> {
    match rank
    case None => if counter in rec && rec[counter].Leaf? then Some(rec[counter].value) else None
    case Some(r) =>
      if r in rec && rec[r].Ranked? && counter in rec[r].counters then Some(rec[r].counters[counter]) else None
  }

  /** The counter at a module/file/rank path. */
  function Lookup(store: CounterStore, modName: string, file: string, rank: Option<string>, counter: string): Option<Num> {
    if modName in store && file in store[modName] then LookupRec(store[modName][file], rank, counter)
    else None
  }

  /** The path is taken: by the counter itself, or (under a rank) by a
      counter stored where the rank's map should be. */
  predicate Blocked(store: CounterStore, modName: string, file: string, rank: Option<string>, counter: string) {
    modName in store && file in store[modName] &&
    var rec := store[modName][file];
    match rank
    case None => counter in rec
    case Some(r) => r in rec && (rec[r].Leaf? || counter in rec[r].counters)
  }

  datatype Inserted = Inserted(store: CounterStore, err: Option<string>)

  /** `insert_record` into `self['counters']`: the containers along the
      path are created first, so a duplicate or an unparsable value leaves
      them behind. */
  function InsertRecord(store: CounterStore, modName: Option<string>, file: string, rank: Option<string>,
                        counter: string, value: string, prefix: Option<string>): (r: Inserted)
    ensures r.err.None? <==>
              !Rejected(modName, counter, prefix) &&
              !Blocked(store, Lower(modName.value), file, rank, Unprefixed(counter, prefix)) &&
              ParseValue(value).Ok?
    ensures Rejected(modName, counter, prefix) ==> r.store == store
  {
    if Rejected(modName, counter, prefix) then
      Inserted(store, Some(if modName.None? then "module section not identified" else "counter does not start with prefix"))
    else
      var m := Lower(modName.value);
      var name := Unprefixed(counter, prefix);
      var files := if m in store then store[m] else map[];
      var rec := if file in files then files[file] else map[];
      match rank
      case None =>
        var created := store[m := files[file := rec]];
        if name in rec then Inserted(created, Some("duplicate counter"))
        else if ParseValue(value).Err? then Inserted(created, Some(ParseValue(value).msg))
        else Inserted(store[m := files[file := rec[name := Leaf(ParseValue(value).value)]]], None)
      case Some(rk) =>
        var base := if rk in rec then rec[rk] else Ranked(map[]);
        var created := store[m := files[file := rec[rk := base]]];
        if base.Leaf? then Inserted(created, Some("argument of type 'float' is not iterable"))
        else if name in base.counters then Inserted(created, Some("duplicate counter"))
        else if ParseValue(value).Err? then Inserted(created, Some(ParseValue(value).msg))
        else Inserted(store[m := files[file := rec[rk := Ranked(base.counters[name := ParseValue(value).value])]]], None)
  }

  /** After a successful insertion the path holds the parsed value. */
  lemma InsertRecordStores(store: CounterStore, modName: Option<string>, file: string, rank: Option<string>,
                           counter: string, value: string, prefix: Option<string>)
    requires InsertRecord(store, modName, file, rank, counter, value, prefix).err.None?
    ensures Lookup(InsertRecord(store, modName, file, rank, counter, value, prefix).store,
                   Lower(modName.value), file, rank, Unprefixed(counter, prefix)) == Some(ParseValue(value).value)
  {
    var mm := Lower(modName.value);
    var name := Unprefixed(counter, prefix);
    var rec := RecordAt(store, mm, file);
    var v := ParseValue(value).value;
    match rank
    case None =>
      LookupUpdate(store, mm, file, rec[name := Leaf(v)], mm, file, rank, name);
    case Some(rr) =>
      var base := if rr in rec then rec[rr] else Ranked(map[]);
      LookupUpdate(store, mm, file, rec[rr := Ranked(base.counters[name := v])], mm, file, rank, name);
  }

  /** Storing a record at one module/file path changes lookups only there. */
  lemma LookupUpdate(store: CounterStore, mm: string, file: string, rec: FileRecord,
                     m: string, f: string, rk: Option<string>, c: string)
    ensures Lookup(store[mm := (if mm in store then store[mm] else map[])[file := rec]], m, f, rk, c) ==
            if m == mm && f == file then LookupRec(rec, rk, c) else Lookup(store, m, f, rk, c)
  {
  }

  /** The record a path starts from: the stored one, or a new empty one. */
  function RecordAt(store: CounterStore, mm: string, file: string): FileRecord {
    var files := if mm in store then store[mm] else map[];
    if file in files then files[file] else map[]
  }

  lemma RecordAtLookup(store: CounterStore, mm: string, file: string, rk: Option<string>, c: string)
    ensures LookupRec(RecordAt(store, mm, file), rk, c) == Lookup(store, mm, file, rk, c)
  {
  }

  /** Creating the (possibly empty) map for a rank changes no lookup. */
  lemma CreateRankKeepsLookups(rec: FileRecord, r: string, rk: Option<string>, c: string)
    ensures LookupRec(rec[r := if r in rec then rec[r] else Ranked(map[])], rk, c) == LookupRec(rec, rk, c)
  {
  }

  /** Setting one counter changes only its own lookup. */
  lemma SetLeafLookups(rec: FileRecord, name: string, v: Num, rk: Option<string>, c: string)
    requires name !in rec
    ensures LookupRec(rec[name := Leaf(v)], rk, c) != LookupRec(rec, rk, c) ==> rk == None && c == name
  {
  }

  lemma SetRankedLookups(rec: FileRecord, r: string, counters: map<string, Num>, name: string, v: Num,
                         rk: Option<string>, c: string)
    requires (if r in rec then rec[r] else Ranked(map[])) == Ranked(counters)
    requires name !in counters
    ensures LookupRec(rec[r := Ranked(counters[name := v])], rk, c) != LookupRec(rec, rk, c) ==>
              rk == Some(r) && c == name
  {
  }

  /** An insertion changes no other path, and a failed one changes none. */
  lemma InsertRecordFrame(store: CounterStore, modName: Option<string>, file: string, rank: Option<string>,
                          counter: string, value: string, prefix: Option<string>,
                          m: string, f: string, rk: Option<string>, c: string)
    requires Lookup(InsertRecord(store, modName, file, rank, counter, value, prefix).store, m, f, rk, c) !=
             Lookup(store, m, f, rk, c)
    ensures InsertRecord(store, modName, file, rank, counter, value, prefix).err.None?
    ensures m == Lower(modName.value) && f == file && rk == rank && c == Unprefixed(counter, prefix)
  {
    if Rejected(modName, counter, prefix) {
      assert false;
    }
    var mm := Lower(modName.value);
    var name := Unprefixed(counter, prefix);
    var rec := RecordAt(store, mm, file);
    if m == mm && f == file {
      RecordAtLookup(store, mm, file, rk, c);
    }
    match rank
    case None =>
      if name in rec || ParseValue(value).Err? {
        LookupUpdate(store, mm, file, rec, m, f, rk, c);
        assert false;
      }
      LookupUpdate(store, mm, file, rec[name := Leaf(ParseValue(value).value)], m, f, rk, c);
      SetLeafLookups(rec, name, ParseValue(value).value, rk, c);
    case Some(rr) =>
      var base := if rr in rec then rec[rr] else Ranked(map[]);
      if base.Leaf? || name in base.counters || ParseValue(value).Err? {
        LookupUpdate(store, mm, file, rec[rr := base], m, f, rk, c);
        CreateRankKeepsLookups(rec, rr, rk, c);
        assert false;
      }
      LookupUpdate(store, mm, file, rec[rr := Ranked(base.counters[name := ParseValue(value).value])], m, f, rk, c);
      SetRankedLookups(rec, rr, base.counters, name, ParseValue(value).value, rk, c);
  }

  /** A counter inserted once cannot be inserted again at the same path. */
  lemma InsertTwiceRaises(store: CounterStore, modName: Option<string>, file: string, rank: Option<string>,
                          counter: string, value: string, value2: string, prefix: Option<string>)
    requires InsertRecord(store, modName, file, rank, counter, value, prefix).err.None?
    ensures InsertRecord(InsertRecord(store, modName, file, rank, counter, value, prefix).store,
                         modName, file, rank, counter, value2, prefix).err.Some?
  {
    var s := InsertRecord(store, modName, file, rank, counter, value, prefix).store;
    InsertRecordStores(store, modName, file, rank, counter, value, prefix);
    LookupBlocked(s, Lower(modName.value), file, rank, Unprefixed(counter, prefix));
  }

  /** A path that holds a counter is taken. */
  lemma LookupBlocked(store: CounterStore, modName: string, file: string, rank: Option<string>, counter: string)
    requires Lookup(store, modName, file, rank, counter).Some?
    ensures Blocked(store, modName, file, rank, counter)
  {
  }

  // ---------------------------------------------------------------------
  // The section state machine

  datatype Section = NoSection | HeaderSection | MountsSection | CountersSection

  /** The parser mode: `--base`, `--total`, `--perf`, or any other mode,
      under which counter lines are skipped. */
  datatype Mode = Base | Total | Perf | Unparsed

  function ModeOf(parserMode: Option<string>): Mode {
    if parserMode == Some("BASE") then Base
    else if parserMode == Some("TOTAL") then Total
    else if parserMode == Some("PERF") then Perf
    else Unparsed
  }

  /** The parsed document: the `header`, `mounts` and `counters` entries. */
  datatype Doc = Doc(header: Option<map<string, Value>>, mounts: Option<map<string, string>>,
                     counters: Option<CounterStore>)

  datatype ParseState = ParseState(section: Section, moduleSection: Option<string>, doc: Doc)

  /** The state after a line, and the error it raised, if any. */
  datatype Stepped = Stepped(state: ParseState, err: Option<string>)

  function Rank(s: Section): nat {
    match s
    case NoSection => 0
    case HeaderSection => 1
    case MountsSection => 2
    case CountersSection => 3
  }

  /** The line that opens a section. */
  function Marker(s: Section): string {
    match s
    case NoSection => ""
    case HeaderSection => "# darshan log version:"
    case MountsSection => "# mounted file systems"
    case CountersSection => "# **********************"
  }

  function Advance(s: Section, line: string): Section {
    if s == NoSection && StartsWith(line, Marker(HeaderSection)) then HeaderSection
    else if s == HeaderSection && StartsWith(line, Marker(MountsSection)) then MountsSection
    else if s == MountsSection && StartsWith(line, Marker(CountersSection)) then CountersSection
    else s
  }

  /** Entering a section creates its (empty) entry unless one is there. */
  function Enter(doc: Doc, s: Section): Doc {
    match s
    case NoSection => doc
    case HeaderSection => if doc.header.None? then doc.(header := Some(map[])) else doc
    case MountsSection => if doc.mounts.None? then doc.(mounts := Some(map[])) else doc
    case CountersSection => if doc.counters.None? then doc.(counters := Some(map[])) else doc
  }

  /** `is_valid_counter` on a line without a counter: a module heading
      switches the module section; nothing is inserted. */
  function ModuleCheck(st: ParseState, line: string): (r: Stepped)
    ensures r.state.section == st.section && r.state.doc == st.doc && r.err.None?
  {
    match MatchModule(line)
    case Some(g) => Stepped(st.(moduleSection := Some(ModuleKey(g))), None)
    case None => Stepped(st, None)
  }

  function HeaderLine(st: ParseState, line: string): (r: Stepped)
    ensures r.state.section == st.section
  {
    match ParseHeader(line)
    case Err(e) => Stepped(st, Some(e))
    case Ok(None) => ModuleCheck(st, line)
    case Ok(Some(kv)) =>
      var h := Get(st.doc.header);
      if kv.0 == "metadata" then
        var items := if kv.0 in h then h[kv.0] else HList([]);
        if items.HList? then
          ModuleCheck(st.(doc := st.doc.(header := Some(h[kv.0 := HList(items.items + [kv.1])]))), line)
        else Stepped(st, Some("object has no attribute 'append'"))
      else ModuleCheck(st.(doc := st.doc.(header := Some(h[kv.0 := kv.1]))), line)
  }

  function MountsLine(st: ParseState, line: string): (r: Stepped)
    ensures r.state.section == st.section
  {
    match ParseMounts(line)
    case Err(e) => Stepped(st, Some(e))
    case Ok(None) => ModuleCheck(st, line)
    case Ok(Some(kv)) => ModuleCheck(st.(doc := st.doc.(mounts := Some(Get(st.doc.mounts)[kv.0 := kv.1]))), line)
  }

  /** A counter line of the current mode, ready for `insert_record`. */
  datatype Record = Record(file: string, rank: Option<string>, counter: string, value: string, prefix: Option<string>)

  function Prefixed(lead: string, moduleSection: Option<string>): Option<string> {
    if moduleSection.Some? then Some(lead + moduleSection.value + "_") else None
  }

  function CounterRecord(line: string, mode: Mode, moduleSection: Option<string>): Result<Option<Record>> {
    match mode
    case Base =>
      var f := ParseBaseCounters(line);
      if f.None? then Ok(None)
      else Ok(Some(Record(f.value[5], Some(f.value[1]), f.value[3], f.value[4], Prefixed("", moduleSection))))
    case Total =>
      var p := ParseTotalCounters(line);
      if p.None? then Ok(None)
      else Ok(Some(Record("_total", None, p.value.0, p.value.1, Prefixed("total_", moduleSection))))
    case Perf =>
      var p :- ParsePerfCounters(line);
      if p.None? then Ok(None)
      else Ok(Some(Record("_perf", None, p.value.0, p.value.1, None)))
    case Unparsed => Ok(None)
  }

  function InsertInto(st: ParseState, rec: Record): (r: Stepped)
    ensures r.state.section == st.section && r.state.moduleSection == st.moduleSection
  {
    var r := InsertRecord(Get(st.doc.counters), st.moduleSection, rec.file, rec.rank, rec.counter, rec.value, rec.prefix);
    if Rejected(st.moduleSection, rec.counter, rec.prefix) then Stepped(st, r.err)
    else Stepped(st.(doc := st.doc.(counters := Some(r.store))), r.err)
  }

  function CountersLine(st: ParseState, line: string, mode: Mode): (r: Stepped)
    ensures r.state.section == st.section
  {
    if mode == Unparsed then Stepped(st, None)
    else
      match CounterRecord(line, mode, st.moduleSection)
      case Err(e) => Stepped(st, Some(e))
      case Ok(None) => ModuleCheck(st, line)
      case Ok(Some(rec)) => InsertInto(st, rec)
  }

  /** One line of `_parse_darshan_parser`. */
  function StepLine(st: ParseState, line: string, mode: Mode): (r: Stepped)
    ensures r.state.section == Advance(st.section, line)
  {
    var s := Advance(st.section, line);
    var doc := if s != st.section then Enter(st.doc, s) else st.doc;
    var st1 := ParseState(s, st.moduleSection, doc);
    match s
    case NoSection => ModuleCheck(st1, line)
    case HeaderSection => HeaderLine(st1, line)
    case MountsSection => MountsLine(st1, line)
    case CountersSection => CountersLine(st1, line, mode)
  }

  /** The lines in order, stopping at the first that raises. */
  function Run(st: ParseState, lines: seq<string>, mode: Mode): Stepped {
    if lines == [] then Stepped(st, None)
    else
      var prev := Run(st, lines[..|lines| - 1], mode);
      if prev.err.Some? then prev else StepLine(prev.state, lines[|lines| - 1], mode)
  }

  lemma RunStep(st: ParseState, lines: seq<string>, k: nat, mode: Mode)
    requires k < |lines| && Run(st, lines[..k], mode).err.None?
    ensures Run(st, lines[..k + 1], mode) == StepLine(Run(st, lines[..k], mode).state, lines[k], mode)
  {
    assert lines[..k + 1][..k] == lines[..k];
  }

  lemma {:induction false} RunErrPersists(st: ParseState, lines: seq<string>, k: nat, mode: Mode)
    requires k <= |lines| && Run(st, lines[..k], mode).err.Some?
    ensures Run(st, lines, mode) == Run(st, lines[..k], mode)
    decreases |lines| - k
  {
    if k < |lines| {
      assert lines[..k + 1][..k] == lines[..k];
      RunErrPersists(st, lines, k + 1, mode);
    } else {
      assert lines[..k] == lines;
    }
  }

  /** A line either keeps the section or opens the next one with its own
      marker line. */
  lemma StepSection(st: ParseState, line: string, mode: Mode)
    ensures var s := StepLine(st, line, mode).state.section;
            s == st.section || (Rank(s) == Rank(st.section) + 1 && StartsWith(line, Marker(s)))
  {
    var s := Advance(st.section, line);
    assert s == st.section || (Rank(s) == Rank(st.section) + 1 && StartsWith(line, Marker(s)));
  }

  /** The section never goes back, whatever the lines. */
  lemma {:induction false} RunForward(st: ParseState, lines: seq<string>, mode: Mode)
    ensures Rank(Run(st, lines, mode).state.section) >= Rank(st.section)
  {
    if lines != [] {
      var prev := Run(st, lines[..|lines| - 1], mode);
      RunForward(st, lines[..|lines| - 1], mode);
      if prev.err.None? {
        StepSection(prev.state, lines[|lines| - 1], mode);
      }
    }
  }

  /** Every header prefix has a lower-case letter where a module heading
      has its name. */
  lemma HeaderPrefixesLowercase()
    ensures forall j :: 0 <= j < |HeaderPrefixes| ==> |HeaderPrefixes[j]| > 2 && 'a' <= HeaderPrefixes[j][2] <= 'z'
  {
  }

  lemma HeaderLineNoModule(line: string)
    requires HeaderIndex(line) < |HeaderPrefixes|
    ensures MatchModule(line).None?
  {
    HeaderPrefixesLowercase();
    var j := HeaderIndex(line);
    assert line[2] == HeaderPrefixes[j][2];
  }

  /** Under the header, a `metadata` line appends to the list; any other
      header key overwrites its value and leaves the other keys alone. */
  lemma HeaderAccumulates(st: ParseState, line: string, mode: Mode, key: string, v: Value)
    requires st.section == HeaderSection && st.doc.header.Some?
    requires !StartsWith(line, Marker(MountsSection))
    requires ParseHeader(line) == Ok(Some((key, v)))
    requires key == "metadata" ==> key !in st.doc.header.value || st.doc.header.value[key].HList?
    ensures var h := st.doc.header.value;
            var h' := StepLine(st, line, mode).state.doc.header;
            StepLine(st, line, mode).err.None? && h'.Some? && key in h'.value &&
            (key == "metadata" ==>
               h'.value[key].items == (if key in h then h[key].items else []) + [v]) &&
            (key != "metadata" ==> h'.value[key] == v) &&
            forall other :: other != key ==>
              ((other in h <==> other in h'.value) && (other in h ==> h'.value[other] == h[other]))
  {
    HeaderLineNoModule(line);
    assert Advance(st.section, line) == HeaderSection;
    assert StepLine(st, line, mode) == HeaderLine(st, line);
  }

  /** A module heading has a module character where every marker and
      every parsed `#` line has a lower-case letter, a space or a `*`. */
  lemma ModuleHeadingChar(line: string)
    requires MatchModule(line).Some?
    ensures |line| > 2 && line[0] == '#' && IsModuleChar(line[2])
  {
    var g := MatchModule(line).value;
    assert ("# " + g + ModuleTail)[2] == g[0];
  }

  lemma ModuleLineNoHeader(line: string)
    requires MatchModule(line).Some?
    ensures ParseHeader(line) == Ok(None)
  {
    ModuleHeadingChar(line);
    HeaderPrefixesLowercase();
    forall j | 0 <= j < |HeaderPrefixes| ensures !StartsWith(line, HeaderPrefixes[j]) {
      NotPrefixAt(line, HeaderPrefixes[j], 2);
    }
  }

  lemma ModuleLineNoMount(line: string)
    requires MatchModule(line).Some?
    ensures ParseMounts(line) == Ok(None)
  {
    ModuleHeadingChar(line);
    NotPrefixAt(line, MountPrefix, 2);
  }

  lemma ModuleLineNoCounter(line: string, mode: Mode, moduleSection: Option<string>)
    requires MatchModule(line).Some?
    ensures CounterRecord(line, mode, moduleSection) == Ok(None)
  {
    ModuleHeadingChar(line);
    assert line[..1] == "#";
    NotPrefixAt(line, "# total_bytes:", 2);
    NotPrefixAt(line, "# agg_perf_by", 2);
    NotPrefixAt(line, "# unique files:", 2);
    NotPrefixAt(line, "# shared files:", 2);
  }

  lemma ModuleLineKeepsSection(s: Section, line: string)
    requires MatchModule(line).Some?
    ensures Advance(s, line) == s
  {
    ModuleHeadingChar(line);
    NotPrefixAt(line, Marker(HeaderSection), 2);
    NotPrefixAt(line, Marker(MountsSection), 2);
    NotPrefixAt(line, Marker(CountersSection), 2);
  }

  /** A module heading only switches the module section: no section change
      and nothing stored. */
  lemma ModuleLineStoresNothing(st: ParseState, line: string, mode: Mode)
    requires MatchModule(line).Some?
    requires st.section == CountersSection ==> mode != Unparsed
    ensures StepLine(st, line, mode) ==
            Stepped(st.(moduleSection := Some(ModuleKey(MatchModule(line).value))), None)
  {
    ModuleLineKeepsSection(st.section, line);
    assert ParseState(st.section, st.moduleSection, st.doc) == st;
    match st.section
    case NoSection =>
    case HeaderSection => ModuleLineNoHeader(line);
    case MountsSection => ModuleLineNoMount(line);
    case CountersSection => ModuleLineNoCounter(line, mode, st.moduleSection);
  }

  // ---------------------------------------------------------------------
  // The connector object

  lemma LowerModeNames()
    ensures "--" + Lower("BASE") == "--base" && "--" + Lower("TOTAL") == "--total" && "--" + Lower("PERF") == "--perf"
  {
    assert Lower("BASE") == "base";
    assert Lower("TOTAL") == "total";
    assert Lower("PERF") == "perf";
    assert "--" + "base" == "--base";
    assert "--" + "total" == "--total";
    assert "--" + "perf" == "--perf";
  }

  class Darshan {
    var logFile: Option<string>
    var parserMode: Option<string>
    var header: Option<map<string, Value>>
    var mounts: Option<map<string, string>>
    var counters: Option<CounterStore>

    function Parsed(): Doc
      reads this
    {
      Doc(header, mounts, counters)
    }

    /** A connector for one log: no mode chosen and nothing parsed yet. */
    constructor (logFile: string)
      ensures this.logFile == Some(logFile) && parserMode.None?
      ensures Parsed() == Doc(None, None, None)
    {
      this.logFile := Some(logFile);
      parserMode := None;
      header, mounts, counters := None, None, None;
    }

    /** `_darshan_parser`: the darshan-parser arguments for the current
        mode; an unknown mode falls back to BASE with an empty flag. With
        no log file nothing happens. */
    method DarshanParser() returns (args: Option<seq<string>>)
      modifies this`parserMode
      ensures logFile.None? ==> args.None? && parserMode == old(parserMode)
      ensures logFile.Some? && old(ModeOf(parserMode)) != Unparsed ==>
                parserMode == old(parserMode) &&
                args == Some(["--" + Lower(parserMode.value), logFile.value])
      ensures logFile.Some? && old(ModeOf(parserMode)) == Unparsed ==>
                parserMode == Some("BASE") && args == Some(["", logFile.value])
    {
      if logFile.None? {
        return None;
      }
      var flag: string;
      if parserMode == Some("BASE") || parserMode == Some("TOTAL") || parserMode == Some("PERF") {
        flag := "--" + Lower(parserMode.value);
      } else {
        parserMode := Some("BASE");
        flag := "";
      }
      args := Some([flag, logFile.value]);
    }

    /** `darshan_parser_base`, `_total` and `_perf`: fix the mode, then
        build the arguments. */
    method DarshanParserMode(mode: Mode) returns (args: Option<seq<string>>)
      requires mode != Unparsed
      modifies this`parserMode
      ensures parserMode == Some(match mode case Base => "BASE" case Total => "TOTAL" case _ => "PERF")
      ensures logFile.Some? ==> args == Some([match mode case Base => "--base" case Total => "--total" case _ => "--perf",
                                              logFile.value])
      ensures logFile.None? ==> args.None?
    {
      parserMode := Some(match mode case Base => "BASE" case Total => "TOTAL" case _ => "PERF");
      LowerModeNames();
      args := DarshanParser();
    }

    /** `_parse_darshan_parser`: feed the lines of the darshan-parser output
        through the state machine; an error stops the parse with whatever
        was stored before it. */
    method ParseDarshanParser(output: string) returns (err: Option<string>)
      modifies this`header, this`mounts, this`counters
      ensures var r := Run(ParseState(NoSection, None, old(Parsed())), Lines(output), ModeOf(parserMode));
              Parsed() == r.state.doc && err == r.err
    {
      var lines := Lines(output);
      var mode := ModeOf(parserMode);
      ghost var init := ParseState(NoSection, None, Parsed());
      var section := NoSection;
      var moduleSection: Option<string> := None;
      err := None;
      var k := 0;
      while k < |lines|
        invariant 0 <= k <= |lines|
        invariant Run(init, lines[..k], mode) == Stepped(ParseState(section, moduleSection, Parsed()), None)
        invariant err.None?
      {
        RunStep(init, lines, k, mode);
        section, moduleSection, err := ParseLine(lines[k], section, moduleSection, mode);
        if err.Some? {
          RunErrPersists(init, lines, k + 1, mode);
          return;
        }
        k := k + 1;
      }
      assert lines[..k] == lines;
    }

    /** The body of the line loop: move to the next section on its marker
        line, then hand the line to that section's parser. */
    method ParseLine(line: string, section: Section, moduleSection: Option<string>, mode: Mode)
      returns (section': Section, moduleSection': Option<string>, err: Option<string>)
      modifies this`header, this`mounts, this`counters
      ensures var s := StepLine(ParseState(section, moduleSection, old(Parsed())), line, mode);
              Parsed() == s.state.doc && section' == s.state.section &&
              moduleSection' == s.state.moduleSection && err == s.err
    {
      section' := Advance(section, line);
      if section' != section {
        EnterSection(section');
      }
      match section' {
        case NoSection =>
          moduleSection' := NextModule(line, moduleSection);
          err := None;
        case HeaderSection =>
          moduleSection', err := HeaderStep(line, moduleSection);
        case MountsSection =>
          moduleSection', err := MountsStep(line, moduleSection);
        case CountersSection =>
          moduleSection', err := CountersStep(line, moduleSection, mode);
      }
    }

    /** A section's entry is created on entering it unless it is there. */
    method EnterSection(s: Section)
      modifies this`header, this`mounts, this`counters
      ensures Parsed() == Enter(old(Parsed()), s)
    {
      match s {
        case NoSection =>
        case HeaderSection => if header.None? { header := Some(map[]); }
        case MountsSection => if mounts.None? { mounts := Some(map[]); }
        case CountersSection => if counters.None? { counters := Some(map[]); }
      }
    }

    /** `is_valid_counter` on a line without a counter. */
    static method NextModule(line: string, moduleSection: Option<string>) returns (moduleSection': Option<string>)
      ensures moduleSection' == (if MatchModule(line).Some? then Some(ModuleKey(MatchModule(line).value)) else moduleSection)
    {
      moduleSection' := moduleSection;
      var g := MatchModule(line);
      if g.Some? {
        moduleSection' := Some(ModuleKey(g.value));
      }
    }

    method HeaderStep(line: string, moduleSection: Option<string>) returns (moduleSection': Option<string>, err: Option<string>)
      modifies this`header
      ensures var s := HeaderLine(ParseState(HeaderSection, moduleSection, old(Parsed())), line);
              Parsed() == s.state.doc && moduleSection' == s.state.moduleSection && err == s.err
    {
      moduleSection' := moduleSection;
      var parsed := ParseHeader(line);
      if parsed.Err? {
        return moduleSection, Some(parsed.msg);
      }
      if parsed.value.Some? {
        var (key, v) := parsed.value.value;
        var h := Get(header);
        if key == "metadata" {
          var items := if key in h then h[key] else HList([]);
          if !items.HList? {
            return moduleSection, Some("object has no attribute 'append'");
          }
          header := Some(h[key := HList(items.items + [v])]);
        } else {
          header := Some(h[key := v]);
        }
      }
      moduleSection' := NextModule(line, moduleSection);
      err := None;
    }

    method MountsStep(line: string, moduleSection: Option<string>) returns (moduleSection': Option<string>, err: Option<string>)
      modifies this`mounts
      ensures var s := MountsLine(ParseState(MountsSection, moduleSection, old(Parsed())), line);
              Parsed() == s.state.doc && moduleSection' == s.state.moduleSection && err == s.err
    {
      var parsed := ParseMounts(line);
      if parsed.Err? {
        return moduleSection, Some(parsed.msg);
      }
      if parsed.value.Some? {
        mounts := Some(Get(mounts)[parsed.value.value.0 := parsed.value.value.1]);
      }
      moduleSection' := NextModule(line, moduleSection);
      err := None;
    }

    method CountersStep(line: string, moduleSection: Option<string>, mode: Mode)
      returns (moduleSection': Option<string>, err: Option<string>)
      modifies this`counters
      ensures var s := CountersLine(ParseState(CountersSection, moduleSection, old(Parsed())), line, mode);
              Parsed() == s.state.doc && moduleSection' == s.state.moduleSection && err == s.err
    {
      if mode == Unparsed {
        return moduleSection, None;
      }
      var parsed := CounterRecord(line, mode, moduleSection);
      if parsed.Err? {
        return moduleSection, Some(parsed.msg);
      }
      if parsed.value.None? {
        moduleSection' := NextModule(line, moduleSection);
        return moduleSection', None;
      }
      var rec := parsed.value.value;
      var r := InsertRecord(Get(counters), moduleSection, rec.file, rec.rank, rec.counter, rec.value, rec.prefix);
      if !Rejected(moduleSection, rec.counter, rec.prefix) {
        counters := Some(r.store);
      }
      moduleSection', err := moduleSection, r.err;
    }
  }

  lemma VersionJoin(v: string)
    ensures Join(["#", "darshan", "log", "version:", v], ' ') == "# darshan log version: " + v
  {
    var words := ["#", "darshan", "log", "version:", v];
    JoinPair("version:", v, ' ');
    assert words[3..] == ["version:", v];
    assert words[1..][1..] == words[2..];
    assert words[2..][1..] == words[3..];
    assert Join(words[2..], ' ') == "log" + " " + Join(words[3..], ' ');
    assert Join(words[1..], ' ') == "darshan" + " " + Join(words[2..], ' ');
    assert Join(words, ' ') == "#" + " " + Join(words[1..], ' ');
    assert "#" + " " + ("darshan" + " " + ("log" + " " + ("version:" + " " + v))) == "# darshan log version: " + v;
  }

  lemma VersionFields(v: string)
    requires IsWord(v)
    ensures Fields("# darshan log version: " + v) == ["#", "darshan", "log", "version:", v]
  {
    var words := ["#", "darshan", "log", "version:", v];
    VersionJoin(v);
    VersionWords();
    assert forall i :: 0 <= i < |words| ==> IsWord(words[i]);
    FieldsJoin(words);
  }

  lemma VersionWords()
    ensures IsWord("#") && IsWord("darshan") && IsWord("log") && IsWord("version:")
  {
  }

  /** The version written after its prefix is read back. */
  lemma VersionRoundTrip(v: string)
    requires IsWord(v)
    ensures ParseHeader("# darshan log version: " + v) == Ok(Some(("version", HText(v))))
  {
    var line := "# darshan log version: " + v;
    VersionFields(v);
    VersionIndex(v);
    ParseAtIndex(line);
    VersionValue(line);
  }

  lemma VersionIndex(v: string)
    ensures HeaderIndex("# darshan log version: " + v) == 0
  {
    PrefixOfConcat("# darshan log version: ", v);
    assert HeaderPrefixes[0] == "# darshan log version:";
    assert StartsWith("# darshan log version: " + v, HeaderPrefixes[0]);
  }

  lemma VersionValue(line: string)
    ensures HeaderValue(0, line) == Tagged("version", LastWord(line), s => HText(s))
  {
    assert HeaderKeys[0] == "version";
  }

  lemma ExeIndex(line: string)
    requires StartsWith(line, "# exe:")
    ensures HeaderIndex(line) == 2
  {
    ExeLineChars(line);
    assert !(HeaderPrefixes[0] <= line) by { assert HeaderPrefixes[0][2] != line[2]; }
    assert !(HeaderPrefixes[1] <= line) by { assert HeaderPrefixes[1][2] != line[2]; }
    assert HeaderPrefixes[2] <= line;
  }

  lemma HashWord(rest: string)
    requires rest != [] && rest[0] == ' '
    ensures Fields("#" + rest) == ["#"] + Fields(rest)
  {
    FieldsCons("#", rest);
  }

  lemma SpaceThenWord(rest: string)
    requires |rest| > 1 && rest[0] == ' ' && !IsSpace(rest[1])
    ensures Fields(rest) != []
  {
    FieldsSpace(rest);
    assert Fields(rest[1..]) != [];
  }

  lemma ExeWordCount(line: string)
    requires StartsWith(line, "# exe:")
    ensures |Fields(line)| >= 2
  {
    ExeLineChars(line);
    var rest := line[1..];
    assert line == "#" + rest;
    HashWord(rest);
    SpaceThenWord(rest);
  }

  lemma ExeLineChars(line: string)
    requires StartsWith(line, "# exe:")
    ensures |line| >= 6 && line[0] == '#' && line[1] == ' ' && line[2] == 'e'
  {
    assert line[..6] == "# exe:";
  }

  lemma ParseAtIndex(line: string)
    requires HeaderIndex(line) < |HeaderPrefixes|
    ensures ParseHeader(line) == HeaderValue(HeaderIndex(line), line)
  {
  }

  lemma ExeValue(line: string)
    requires |Fields(line)| >= 2
    ensures HeaderValue(2, line) == Ok(Some(("exe", HList(Texts(Fields(line)[2..])))))
  {
    ExeKey();
    ExeValueAt(line);
    assert ExeWords(line) == Fields(line)[2..];
  }

  lemma ExeKey()
    ensures HeaderKeys[2] == "exe"
  {
  }

  lemma ExeValueAt(line: string)
    ensures HeaderValue(2, line) == Ok(Some((HeaderKeys[2], HList(Texts(ExeWords(line))))))
  {
  }

  /** The `exe` entry is the list of words after `# exe:`. */
  lemma ExeTokens(line: string)
    requires StartsWith(line, "# exe:")
    ensures |Fields(line)| >= 2
    ensures ParseHeader(line) == Ok(Some(("exe", HList(Texts(Fields(line)[2..])))))
  {
    ExeIndex(line);
    ExeWordCount(line);
    ParseAtIndex(line);
    ExeValue(line);
  }
}
