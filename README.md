# pytokio core in Dafny

This project models the core of pytokio, the I/O telemetry toolkit. It covers five parts:

- **The fixed-cadence time-series engine** (`TimeSeries` in `tokio/timeseries.py`). It has an integer timestamp grid, a rows × columns matrix whose "never populated" cells are IEEE negative zero, and a column list with its name→index map. It also covers column swapping, rearranging and natural-order sorting, bounds-checked element insertion with a first-write reducer, the missing-data mask, gap-aware counter differencing, row trimming, and the commit/attach reconciliation against a persisted container.
- **The multi-day H5LMT range query** (`tokio/tools/hdf5.py`). It enumerates the daily files of a range, computes per-file slice bounds, checks metadata consistency, concatenates group slices along the version-dependent time axis, and merges windowed tables key by key.
- **The darshan-parser text parser** (`tokio/connectors/darshan.py`). It has per-line classifiers, a forward-only section state machine, module-section tracking, and nested counter insertion with prefix stripping and duplicate detection.
- **Job-summary aggregation** (`bin/summarize_job.py`). It covers longest-prefix mount matching, dictionary merging with duplicate detection, per-API and per-file-system byte totals with arg-max, and the header summary.
- **collectd ingestion** (`bin/cache_collectdes_supplemental.py`). It initialises the grid, ingests disk readings into the read and write matrices through a hostname→column map, builds the column list, and creates datasets only after a shape check. The ingest is modelled as written, so a sample before the first bin wraps to a row counted from the end; the intended check is a separate definition (see Findings).

How the model is built:

- **Cells.** A matrix cell is `Missing` (negative zero) or `Val(n)`. Values are integers.
- **Containers.** An HDF5 container is an in-memory value: a `Store` of timestamps, group attributes and datasets in `timeseries.dfy`, an `Archive` of daily files in `hdf5_tools.dfy`, and a map of dataset shapes in `collectd_cache.dfy`.
- **Imperative code.** Code that mutates state in the source is written as classes and methods whose loops are proved against specification functions:
  - `TimeSeries`, `Darshan`, `Dict`, `HostColumns` and `H5File` are classes;
  - the dataset and the collectd matrices are `array2`.
- **Pure code.** Line parsers, natural ordering and the specification functions are written as functions with lemmas.

Files:

- `wrappers.dfy`: Option and Result.
- `cells.dfy`: cells, numpy floor division, indexing and slicing.
- `text.dfy`: Python string splitting, stripping and integer parsing.
- `natural_order.dfy`: `sorted_nodenames`.
- `column_layout.dfy`: the column list, the name→index map and column moves.
- `deltas.dfy`: `timeseries_deltas`.
- `timeseries.dfy`: the `TimeSeries` class.
- `hdf5_tools.dfy`: the range queries.
- `darshan.dfy`: the darshan parser.
- `summarize_job.dfy`: job summarisation.
- `collectd_cache.dfy`: the collectd cache builder.

## Model

| member | source | states |
|---|---|---|
| Cells.Sub | tokio/timeseries.py:392-399 | the IEEE difference of two cells: its value is the numeric difference, and it is negative zero exactly when negative zero minus positive zero is taken |
| Cells.FloorDiv | tokio/timeseries.py:272 | integer floor division as numpy int64 scalars perform it: for a positive divisor the quotient is the floor (`b*q <= a < b*q + b`), for a negative one the mirrored bound, and 0 for a zero divisor. A Python-integer zero divisor raises instead; `TimeSeries.InsertElement` handles that case before it divides |
| Cells.NumpyIndex | tokio/timeseries.py:282-288 | a numpy index is accepted exactly when `-n <= i < n`, and it then names `i` or `n + i` |
| Cells.SliceBound | tokio/timeseries.py:318-319 | a Python slice bound is clamped into `0..n`, a negative bound counting from the end |
| Cells.Slice | tokio/timeseries.py:318-319 | a Python slice `s[start:stop]` has the clamped length and holds the elements from the clamped start on |
| NaturalOrder.RunLength | tokio/timeseries.py:342 | the length of the leading run of digit (or hex) or non-digit characters: every character in it is of the run's class and the next one is not |
| NaturalOrder.Runs | tokio/timeseries.py:342 | the maximal-run tokenisation of a name: the runs concatenate back to the name, none is empty, each is uniform, and neighbours alternate class |
| NaturalOrder.Tokens | tokio/timeseries.py:326-350 | one token per run; a run becomes a word exactly when it is not numeric, and a word keeps the run's text |
| NaturalOrder.LexAntisymmetric | tokio/timeseries.py:357 | lexicographic comparison of token lists is antisymmetric and is zero only on equal lists |
| NaturalOrder.LexTransitive | tokio/timeseries.py:357 | lexicographic comparison of token lists is transitive |
| NaturalOrder.LexTotalOrder | tokio/timeseries.py:357 | the lexicographic order is a total order whenever the token order is |
| NaturalOrder.TokenOrderIsTotal | tokio/timeseries.py:352-364 | the Python 2 `cmp` on tokens (integers before strings, integers numerically, strings by characters) is a total order |
| NaturalOrder.CompareNamesAntisymmetric | tokio/timeseries.py:352-364 | comparing two names in natural order gives opposite results in the two directions |
| NaturalOrder.CompareNamesTransitive | tokio/timeseries.py:352-364 | natural order of names is transitive |
| NaturalOrder.NamesTotalPreorder | tokio/timeseries.py:352-369 | natural name comparison is a total preorder, so sorting by it is well defined |
| NaturalOrder.Insert | tokio/timeseries.py:366-369 | insertion into a sorted list adds exactly one copy of the element |
| NaturalOrder.InsertSorted | tokio/timeseries.py:366-369 | insertion into a sorted list keeps it sorted |
| NaturalOrder.SortBy | tokio/timeseries.py:366-369 | the sort returns a permutation of its input that is sorted by the comparison |
| NaturalOrder.InsertTies | tokio/timeseries.py:366-369 | inserting into a sorted list puts the new item after every item it ties with |
| NaturalOrder.SortByStable | tokio/timeseries.py:366-369 | the sort is stable, as Python's `sorted` is: for every `x`, the items that compare equal to `x` come out in their input order |
| NaturalOrder.SortedNodenames | tokio/timeseries.py:321-369 | `sorted_nodenames` returns a permutation of the names in which every earlier name compares at most equal to every later one |
| NaturalOrder.SortedNodenamesStable | tokio/timeseries.py:366-369 | names that tie in the natural order keep their input order, so the result is the one `sorted` returns |
| NaturalOrder.TiedNamesKeepOrder | tokio/timeseries.py:338-369 | "bb01" and "bb1" tokenise alike, so either input order comes back unchanged |
| NaturalOrder.TokensOf | tokio/timeseries.py:342 | a non-digit prefix followed by digits tokenises to one word and one number |
| NaturalOrder.NodenamesCompareExample | tokio/timeseries.py:352-357 | `bb2` sorts before `bb10`, and `bb1` before `bb2` |
| NaturalOrder.NodenamesExample | tokio/timeseries.py:321-369 | `["bb10","bb2","bb1"]` sorts to `["bb1","bb2","bb10"]` |
| ColumnLayout.IndexMap | tokio/timeseries.py:78-84 | the map rebuilt from the column list points only at positions in the list |
| ColumnLayout.IndexMapConsistent | tokio/timeseries.py:78-84 | the rebuilt map sends every listed name to a position holding it, and to its last occurrence |
| ColumnLayout.ConsistentMapIsInverse | tokio/timeseries.py:78-84 | for a duplicate-free column list, a consistent map is its inverse: `column_map[columns[k]] == k` |
| ColumnLayout.Identity | tokio/timeseries.py:243-261 | the identity column permutation of width `n` |
| ColumnLayout.Swapped | tokio/timeseries.py:254-258 | swapping two entries exchanges them and leaves every other entry alone |
| ColumnLayout.SwappedFrom | tokio/timeseries.py:254-258 | entry `c` of the swapped list is the original entry at the transposed position |
| ColumnLayout.SwapKeepsDistinct | tokio/timeseries.py:254-258 | swapping keeps a duplicate-free list duplicate-free |
| ColumnLayout.SwapKeepsElements | tokio/timeseries.py:254-258 | swapping keeps the set of names |
| ColumnLayout.SwapLayout | tokio/timeseries.py:243-261 | a swap keeps the number of columns and the data-column sources within range |
| ColumnLayout.SwapKeepsConsistent | tokio/timeseries.py:259-261 | after `swap_columns` the map still sends every name to a position holding it |
| ColumnLayout.RearrangeFrom | tokio/timeseries.py:232-241 | each step of the rearrange loop keeps the width and keeps the sources in range |
| ColumnLayout.Rearrange | tokio/timeseries.py:220-241 | `rearrange_columns` fails and changes nothing if any requested name is not a current column; otherwise it keeps the width |
| ColumnLayout.WalkStep | tokio/timeseries.py:232-241 | one loop step finds the requested name at or after the current position and keeps the walk invariant |
| ColumnLayout.StepPrefix | tokio/timeseries.py:232-241 | after step `k` the first `k+1` columns are the first `k+1` requested names |
| ColumnLayout.StepSources | tokio/timeseries.py:243-261 | every swap keeps each name attached to its original data column |
| ColumnLayout.WalkPicksLater | tokio/timeseries.py:232-241 | the requested name is never found among the columns already placed |
| ColumnLayout.WalkCompletes | tokio/timeseries.py:232-241 | the loop runs to the end without failing when the request is a duplicate-free list of current names |
| ColumnLayout.RearrangePermutes | tokio/timeseries.py:220-241 | for a duplicate-free permutation of the columns, the rearrangement ends with `columns == new_order`, a consistent map, and each name still over its original data |
| ColumnLayout.WalkStarts | tokio/timeseries.py:232 | the walk invariant holds before the first step |
| ColumnLayout.WalkEnds | tokio/timeseries.py:232-241 | the invariant at the end of the walk is the permutation property |
| ColumnLayout.PermutationOfDistinct | tokio/timeseries.py:220-241 | a multiset-equal copy of a duplicate-free list is duplicate-free, equally long and holds the same names |
| ColumnLayout.DistinctCountsOnce | tokio/timeseries.py:220-241 | a duplicate-free list holds each name at most once |
| ColumnLayout.Moved | tokio/timeseries.py:254-258 | moving data columns keeps the matrix shape |
| ColumnLayout.Compose | tokio/timeseries.py:232-241 | composing two column moves gives a move within range |
| ColumnLayout.MovedTwice | tokio/timeseries.py:232-241 | two successive column moves equal one move by their composition |
| ColumnLayout.MovedIdentity | tokio/timeseries.py:243-261 | the identity move leaves the matrix unchanged |
| Deltas.ColumnDeltas | tokio/timeseries.py:371-402 | the delta column of a column with `n >= 1` rows has `n-1` rows |
| Deltas.Column | tokio/timeseries.py:384 | the column view of a matrix holds cell `[r, c]` at position `r` |
| Deltas.TimeseriesDeltas | tokio/timeseries.py:371-402 | `timeseries_deltas` fails exactly on an empty dataset; otherwise it returns a fresh `(rows-1) × cols` matrix whose every cell is the column's gap-aware delta |
| Deltas.ScanCell | tokio/timeseries.py:384-400 | one cell of the nested loop advances that column's `prev_nonzero`/`searching` state by one row, writes at most `diff[irow-1, icol]`, and leaves all other state alone |
| Deltas.MonotoneScan | tokio/timeseries.py:386-400 | on a non-zero, non-decreasing column the scan is never searching after row 0 and always remembers the previous value |
| Deltas.MonotoneDeltas | tokio/timeseries.py:371-402 | on a non-zero, non-decreasing column every delta is `col[i+1] - col[i]` |
| Deltas.ZeroScan | tokio/timeseries.py:386-394 | on an all-zero column the scan never leaves its starting state |
| Deltas.ZeroDeltas | tokio/timeseries.py:378-394 | an all-zero column yields only missing deltas |
| Deltas.GapExample | tokio/timeseries.py:389-399 | `[10,20,0,0,5,15]` yields `[10, -0, -0, -15, 10]`: the delta after a gap is taken from the last non-zero value with no sign check |
| TimeSeriesEngine.AttrAsList | tokio/timeseries.py:118-126 | a name-list attribute is returned as is, a string attribute becomes its characters, and an integer attribute is an error |
| TimeSeriesEngine.GroupName | tokio/timeseries.py:144 | the group of a dataset path is the part before its last `/`, and is empty when there is none |
| TimeSeriesEngine.JoinPrefix | tokio/timeseries.py:144 | joining all but the last path part gives a prefix of the path that is followed by the separator |
| TimeSeriesEngine.GridSpec | tokio/timeseries.py:67-76 | the timestamp grid is `start, start+step, …`, every entry below `end`, and the next step would reach `end` |
| TimeSeriesEngine.GridAbove | tokio/timeseries.py:67-76 | every grid timestamp is at least `start` |
| TimeSeriesEngine.GridIncreasing | tokio/timeseries.py:67-76 | the grid is strictly increasing |
| TimeSeriesEngine.GridLength | tokio/timeseries.py:67-76 | the grid has `ceil((end - start)/step)` entries |
| TimeSeriesEngine.GridExample | tokio/timeseries.py:67-76 | `start=0, end=25, step=10` gives `[0, 10, 20]` |
| TimeSeriesEngine.CommitOrder | tokio/timeseries.py:175-178 | a commit reorders to the stored `columns` attribute when there is one, and otherwise sorts the columns in natural order |
| TimeSeriesEngine.PrepareCommit | tokio/timeseries.py:143-171 | a commit fails exactly when stored timestamps differ from the in-memory ones; otherwise it stores the timestamps, merges the group attributes, and creates a zero-filled dataset of the right shape only if the name is new |
| TimeSeriesEngine.TimeSeries.Matrix | tokio/timeseries.py:98-106 | the dataset seen as a rows × columns matrix |
| TimeSeriesEngine.TimeSeries.Empty | tokio/timeseries.py:23-38 | a new series has no dataset, no timestamps, no columns, empty metadata, and `time0` and the step unset (`None`) |
| TimeSeriesEngine.TimeSeries.FromRange | tokio/timeseries.py:23-45 | constructing with a range initialises the grid, and sets `time0` and the step as Python integers |
| TimeSeriesEngine.TimeSeries.InitGroup | tokio/timeseries.py:61-76 | `init_group` sets the timestamps to the grid from `start` below `end`, and sets `time0` and the step as Python integers; nothing else changes |
| TimeSeriesEngine.TimeSeries.AttachGroup | tokio/timeseries.py:47-59 | `attach_group` fails when the group has no timestamps, and otherwise loads them. It succeeds exactly when there are at least two. It then takes `time0` and the step from the first two, as numpy scalars, and merges the group attributes |
| TimeSeriesEngine.TimeSeries.UpdateColumnMap | tokio/timeseries.py:78-84 | `update_column_map` rebuilds the map from the columns, consistently, changing nothing else |
| TimeSeriesEngine.TimeSeries.SetColumns | tokio/timeseries.py:191-197 | `set_columns` installs the names, their count and their index map |
| TimeSeriesEngine.TimeSeries.AddColumn | tokio/timeseries.py:199-212 | `add_column` returns the old column count, appends the name, counts it, and points the map at the new index, even for a duplicate name |
| TimeSeriesEngine.TimeSeries.InitDataset2d | tokio/timeseries.py:98-106 | `init_dataset2d` creates a fresh `len(timestamps) × width` dataset filled with the default, and empties the columns |
| TimeSeriesEngine.TimeSeries.AttachDataset2d | tokio/timeseries.py:108-131 | `attach_dataset2d` loads the stored matrix; it appends the stored `columns` attribute truncated to the dataset width, and fails on an attribute that is not a list |
| TimeSeriesEngine.TimeSeries.SwapColumns | tokio/timeseries.py:243-261 | `swap_columns` exchanges the names and the data columns at `i` and `j` as the swap specification says; the map and every other column are unchanged |
| TimeSeriesEngine.TimeSeries.SwapDatasetColumns | tokio/timeseries.py:254-258 | the in-place loop swaps exactly data columns `i` and `j` of every row |
| TimeSeriesEngine.TimeSeries.RearrangeColumns | tokio/timeseries.py:220-241 | `rearrange_columns` performs exactly the specified rearrangement on names, map and data, and fails on an unknown name |
| TimeSeriesEngine.TimeSeries.PlaceColumn | tokio/timeseries.py:232-241 | one loop step swaps the requested name into position `k`, and the data stays the original moved by the updated sources |
| TimeSeriesEngine.TimeSeries.WalkOrder | tokio/timeseries.py:232-241 | the placement loop over the whole requested order ends in the layout the rearrangement specification gives, fails exactly when it does, and keeps the data equal to the original moved by the final sources |
| TimeSeriesEngine.TimeSeries.SortColumns | tokio/timeseries.py:214-218 | `sort_columns` rearranges into natural order of the names |
| TimeSeriesEngine.TimeSeries.CommitDataset2d | tokio/timeseries.py:139-189 | `commit_dataset2d` fails without changes on a timestamp mismatch; otherwise it reorders the columns as the commit order says, stamps `columns` and `updated`, and writes the matrix and attributes into the store |
| TimeSeriesEngine.TimeSeries.RecordCommit | tokio/timeseries.py:180-189 | the metadata gains the current column names and the commit time, and the store holds the matrix with the stored attributes overlaid by the metadata |
| TimeSeriesEngine.TimeSeries.LoadMatrix | tokio/timeseries.py:113 | the in-memory dataset is a fresh copy with the stored shape and the stored cells |
| TimeSeriesEngine.TimeSeries.ArrangeForCommit | tokio/timeseries.py:175-178 | before writing, the columns are reordered to the stored order if it exists, else sorted; an unusable stored attribute fails without change |
| TimeSeriesEngine.TimeSeries.Snapshot | tokio/timeseries.py:181 | the copied matrix equals the dataset |
| TimeSeriesEngine.TimeSeries.InsertElement | tokio/timeseries.py:263-289 | `insert_element` raises, changing nothing, when the bin division raises: `time0` is unset, or the step is a Python integer 0 (a numpy step of 0 gives bin 0). Otherwise it returns False and changes nothing when the floor bin is past the last row. Otherwise it adds a column for an unseen name and writes the numpy-indexed cell, using the reducer only on a missing cell, and changes no other cell. A negative bin wraps, and an out-of-range index is an error |
| TimeSeriesEngine.ZeroStepFromRangeRaises | tokio/timeseries.py:60-75 | an object built from a range with `start == end` and a zero Python-integer step has no timestamps, yet inserting into it raises, because the bin division at line 272 comes before the bounds check |
| TimeSeriesEngine.ZeroStepAttachedFillsFirstRow | tokio/timeseries.py:47-57 | an attached group whose timestamps repeat (`[5, 5, 7]`) has a numpy step of 0, so numpy's division by zero gives bin 0 and the insert writes row 0 |
| TimeSeriesEngine.TimeSeries.MissingMatrix | tokio/timeseries.py:291-302 | `missing_matrix` has the dataset's shape and is 1 exactly at missing cells, with `inverse` giving the complement |
| TimeSeriesEngine.TimeSeries.ConvertToDeltas | tokio/timeseries.py:304-312 | `convert_to_deltas` replaces the dataset by its gap-aware deltas and drops the last timestamp, so equal row and timestamp counts stay equal |
| TimeSeriesEngine.TimeSeries.TrimRows | tokio/timeseries.py:314-319 | `trim_rows(n)` keeps the rows of the slice `[0:-n]` of dataset and timestamps; `n == 0` empties both |
| TimeSeriesEngine.CommitThenAttach | tokio/timeseries.py:47-189 | after a successful commit, attaching a new object to it raises exactly when there are fewer than two timestamps. Otherwise it gives back the timestamps, the matrix, the columns truncated to the width, and the `columns` attribute |
| TimeSeriesEngine.AttachStored | tokio/timeseries.py:47-131 | constructing on a stored group raises exactly when it has fewer than two timestamps. Otherwise, with `attach_dataset2d`, it loads the timestamps, the cells, the truncated columns and the attributes |
| TimeSeriesEngine.SwapComposes | tokio/timeseries.py:243-261 | a swap on any layout is the same swap on the identity layout, composed with the layout's sources |
| TimeSeriesEngine.SortPermutes | tokio/timeseries.py:214-218 | sorting a duplicate-free column list permutes names and data together |
| H5Tools.NextDay | tokio/tools/hdf5.py:42 | adding a day of seconds advances the calendar day by one |
| H5Tools.DaysWithFiles | tokio/tools/hdf5.py:35-44 | only days of the range that have a file are listed |
| H5Tools.DaysWithFilesSpec | tokio/tools/hdf5.py:35-44 | the listed days are exactly the days from the start day to the end day, inclusive, that have a file, in ascending order |
| H5Tools.EnumerateH5lmts | tokio/tools/hdf5.py:22-44 | the `enumerate_h5lmts` loop returns exactly that list |
| H5Tools.CollectStep | tokio/tools/hdf5.py:61-84 | each file either raises, is dropped, or appends its entry |
| H5Tools.CollectErrPersists | tokio/tools/hdf5.py:63-64 | once a file raises, later files do not change the outcome |
| H5Tools.EntryDays | tokio/tools/hdf5.py:84 | the days of the collected entries, in order |
| H5Tools.CollectFails | tokio/tools/hdf5.py:63-64 | `get_files_and_indices` raises exactly when some file of the range lacks its first or last timestamp |
| H5Tools.CollectEntries | tokio/tools/hdf5.py:66-84 | every entry has `i_0 = get_index(start)` if the file starts at or before `start` (else 0), and `i_f = get_index(end) - 1` if it ends at or after `end` (else -1) |
| H5Tools.CollectKeeps | tokio/tools/hdf5.py:72-84 | a file is left out exactly when its end index would be negative |
| H5Tools.CollectOrdered | tokio/tools/hdf5.py:61-84 | entries follow the ascending order of the days |
| H5Tools.GetFilesAndIndices | tokio/tools/hdf5.py:47-86 | the loop computes exactly the collected entries of the enumerated days |
| H5Tools.MetadataConsistent | tokio/tools/hdf5.py:97-115 | no file gives empty metadata; otherwise the query succeeds exactly when every file's `OpNames` and `OSTNames` agree with the first file's, and then returns the first file's lists |
| H5Tools.MetadataStep | tokio/tools/hdf5.py:97-113 | each file either raises on a mismatch or keeps the accumulated lists |
| H5Tools.MetadataErrPersists | tokio/tools/hdf5.py:101-111 | once an inconsistency is found, later files do not change the outcome |
| H5Tools.GetMetadataFromTimeRange | tokio/tools/hdf5.py:88-115 | index errors propagate, and otherwise the loop returns the specified metadata |
| H5Tools.GroupSlice | tokio/tools/hdf5.py:128-148 | a group of rank at most 3 is sliced along its version-dependent time axis to `i_0:i_f`, with the other axes untouched; a missing group or a higher rank fails |
| H5Tools.Concat | tokio/tools/hdf5.py:153 | concatenation succeeds exactly for equal ranks with agreeing other axes, and the result's axis length is the sum |
| H5Tools.Concat2 | tokio/tools/hdf5.py:153 | 2-D concatenation adds the axis lengths and keeps the other axis |
| H5Tools.Concat3 | tokio/tools/hdf5.py:153 | 3-D concatenation adds the axis lengths and keeps the other axes |
| H5Tools.GroupDataOf | tokio/tools/hdf5.py:126-156 | the accumulated group data is well shaped |
| H5Tools.GroupDataLength | tokio/tools/hdf5.py:126-156 | with a common time axis the result is None exactly without files, and its time-axis length is the sum of the slice lengths |
| H5Tools.Transposed | tokio/tools/hdf5.py:133-137 | transposition swaps the axes of a 2-D array |
| H5Tools.VersionsTranspose | tokio/tools/hdf5.py:132-138 | a version-1 file holding the transpose of a version-2 file gives the transposed slice |
| H5Tools.ConcatTransposed | tokio/tools/hdf5.py:132-153 | concatenating transposes on axis 1 is the transpose of concatenating on axis 0 |
| H5Tools.GroupDataStep | tokio/tools/hdf5.py:126-153 | each file either fails or is concatenated onto the result |
| H5Tools.GroupDataErrPersists | tokio/tools/hdf5.py:148 | once a file fails, later files do not change the outcome |
| H5Tools.GetGroupDataFromTimeRange | tokio/tools/hdf5.py:117-156 | index errors propagate, and otherwise the loop returns the specified concatenation |
| H5Tools.MergeKeepsLatest | tokio/tools/hdf5.py:169-182 | the merge fails exactly when a file lacks the group; it is None exactly without files; it holds exactly the keys `start <= t < end` of all files, each with a value from a file that has it |
| H5Tools.Least | tokio/tools/hdf5.py:184 | the least element of a non-empty key set |
| H5Tools.HasLeast | tokio/tools/hdf5.py:184 | every non-empty key set has a least element |
| H5Tools.SortedKeys | tokio/tools/hdf5.py:184 | the keys in strictly ascending order, each exactly once |
| H5Tools.SortIndex | tokio/tools/hdf5.py:184 | `sort_index` lists every key of the table once, ascending, with its row |
| H5Tools.MergedStep | tokio/tools/hdf5.py:169-182 | each file's window overwrites the accumulated table |
| H5Tools.MergedErrPersists | tokio/tools/hdf5.py:171 | once a file lacks the group, later files do not change the outcome |
| H5Tools.GetDataframeFromTimeRange | tokio/tools/hdf5.py:158-184 | index errors propagate; then the windows of all enumerated files are merged and sorted; a range without files fails |
| DarshanConnector.Texts | tokio/connectors/darshan.py:234 | each word of a token list as a text value |
| DarshanConnector.HeaderIndex | tokio/connectors/darshan.py:229-251 | the first header prefix the line starts with |
| DarshanConnector.HeaderValue | tokio/connectors/darshan.py:229-252 | a recognised header line yields its fixed key |
| DarshanConnector.ParseHeader | tokio/connectors/darshan.py:229-253 | `_parse_header` yields nothing exactly when no known prefix starts the line; otherwise the key belongs to the first matching prefix |
| DarshanConnector.SplitAfterPrefix | tokio/connectors/darshan.py:264 | splitting a line that starts with a separator-terminated prefix splits off that prefix first |
| DarshanConnector.MountSplit | tokio/connectors/darshan.py:263-264 | a mount line splits into `# mount entry:` and the fields after its tab |
| DarshanConnector.MountEntry | tokio/connectors/darshan.py:263-265 | the mount key and value are the second and third tab fields |
| DarshanConnector.ParseMounts | tokio/connectors/darshan.py:263-266 | `_parse_mounts` yields nothing exactly without the `# mount entry:\t` prefix, and fails when no second tab follows. Otherwise the key is the tab-free field after the prefix and the value is stripped |
| DarshanConnector.StripInside | tokio/connectors/darshan.py:265 | stripping adds no characters |
| DarshanConnector.ParseBaseCounters | tokio/connectors/darshan.py:275-279 | `_parse_base_counters` yields the fields exactly for non-`#` lines with 8 tab fields, and the fields join back to the line |
| DarshanConnector.ParseTotalCounters | tokio/connectors/darshan.py:289-293 | `_parse_total_counters` yields a pair exactly for non-`#` lines with 2 colon parts, and the pair is those parts stripped |
| DarshanConnector.ParsePerfCounters | tokio/connectors/darshan.py:306-314 | `_parse_perf_counters` yields nothing exactly for lines of neither perf form, and fails exactly when the colon count is wrong for the form |
| DarshanConnector.TotalBytesSplit | tokio/connectors/darshan.py:307 | a `# total_bytes:` line splits into key and value |
| DarshanConnector.PerfTotalBytes | tokio/connectors/darshan.py:306-307 | `# total_bytes: v` keeps its own key with the stripped value |
| DarshanConnector.KindSplit | tokio/connectors/darshan.py:309 | a three-part perf line splits into kind, name and value |
| DarshanConnector.PerfSplitKey | tokio/connectors/darshan.py:308-314 | `# unique files: X: v` and `# shared files: X: v` give key `X_unique_files` or `X_shared_files` |
| DarshanConnector.PerfSplitRaw | tokio/connectors/darshan.py:308-314 | the key is the stripped name with the underscored kind appended |
| DarshanConnector.PerfSlowestRank | tokio/connectors/darshan.py:308-314 | the slowest-rank line gives the key `slowest_rank_io_time_unique_files` read by the job summary |
| DarshanConnector.ModuleRun | tokio/connectors/darshan.py:148 | the leading run of module-name characters `[A-Z-0-9/]` |
| DarshanConnector.MatchModule | tokio/connectors/darshan.py:148 | a match is a non-empty module name in `# NAME module data` followed only by whitespace |
| DarshanConnector.MatchModuleOf | tokio/connectors/darshan.py:148 | every such heading matches, with its name |
| DarshanConnector.ModuleKey | tokio/connectors/darshan.py:97-98 | the module key has no `-` or `/` |
| DarshanConnector.InsertRecord | tokio/connectors/darshan.py:105-142 | `insert_record` succeeds exactly with a module section, a counter carrying its prefix, no counter already at the path, and a parsable value; a prefix mismatch changes nothing |
| DarshanConnector.InsertRecordStores | tokio/connectors/darshan.py:112-142 | after success the lowercased module, file, rank and unprefixed counter hold the parsed value |
| DarshanConnector.InsertRecordFrame | tokio/connectors/darshan.py:122-142 | only the inserted path can change, and only on success |
| DarshanConnector.InsertTwiceRaises | tokio/connectors/darshan.py:135-136 | inserting the same counter twice raises |
| DarshanConnector.ModuleCheck | tokio/connectors/darshan.py:204-209 | a non-counter line only updates the module section |
| DarshanConnector.HeaderLine | tokio/connectors/darshan.py:169-178 | a header line keeps the section |
| DarshanConnector.MountsLine | tokio/connectors/darshan.py:179-182 | a mount line keeps the section |
| DarshanConnector.InsertInto | tokio/connectors/darshan.py:211-217 | inserting keeps section and module section |
| DarshanConnector.CountersLine | tokio/connectors/darshan.py:184-217 | a counter line keeps the section |
| DarshanConnector.StepLine | tokio/connectors/darshan.py:150-217 | the section after a line is the forward-only advance on its marker |
| DarshanConnector.RunStep | tokio/connectors/darshan.py:150 | the parse of one more line is one more step |
| DarshanConnector.RunErrPersists | tokio/connectors/darshan.py:150-217 | once a line raises, later lines do not change the outcome |
| DarshanConnector.StepSection | tokio/connectors/darshan.py:153-166 | a line keeps the section or advances it by exactly one on that section's marker |
| DarshanConnector.RunForward | tokio/connectors/darshan.py:153-166 | sections never go back: None, header, mounts, counters |
| DarshanConnector.HeaderPrefixesLowercase | tokio/connectors/darshan.py:229-251 | every header prefix has a lower-case letter after `# ` |
| DarshanConnector.HeaderLineNoModule | tokio/connectors/darshan.py:148 | a header line is never a module heading |
| DarshanConnector.HeaderAccumulates | tokio/connectors/darshan.py:169-178 | in the header section, `metadata` values are appended in order and other keys overwrite; no other key changes |
| DarshanConnector.ModuleHeadingChar | tokio/connectors/darshan.py:148 | a module heading starts `# ` and a module character |
| DarshanConnector.ModuleLineNoHeader | tokio/connectors/darshan.py:229-253 | a module heading is no header line |
| DarshanConnector.ModuleLineNoMount | tokio/connectors/darshan.py:263-266 | a module heading is no mount line |
| DarshanConnector.ModuleLineNoCounter | tokio/connectors/darshan.py:184-200 | a module heading is no counter line in any mode |
| DarshanConnector.ModuleLineKeepsSection | tokio/connectors/darshan.py:153-166 | a module heading does not change the section |
| DarshanConnector.ModuleLineStoresNothing | tokio/connectors/darshan.py:93-99 | a module heading only sets the module section, without `-` and `/`, and stores nothing |
| DarshanConnector.LowerModeNames | tokio/connectors/darshan.py:58-59 | the lower-cased modes give `--base`, `--total` and `--perf` |
| DarshanConnector.Darshan.constructor | tokio/connectors/darshan.py:20-26 | a parser for a log file starts with no mode and nothing parsed |
| DarshanConnector.Darshan.DarshanParser | tokio/connectors/darshan.py:51-68 | without a log file nothing happens; a known mode gives `--mode`; any other mode is reset to BASE with an empty flag |
| DarshanConnector.Darshan.DarshanParserMode | tokio/connectors/darshan.py:39-49 | `darshan_parser_base/total/perf` set the mode and pass its flag |
| DarshanConnector.Darshan.ParseDarshanParser | tokio/connectors/darshan.py:84-218 | the line loop leaves exactly the specified document and error |
| DarshanConnector.Darshan.ParseLine | tokio/connectors/darshan.py:150-217 | one iteration performs exactly the specified line step |
| DarshanConnector.Darshan.EnterSection | tokio/connectors/darshan.py:153-166 | entering a section creates its empty table if absent |
| DarshanConnector.Darshan.HeaderStep | tokio/connectors/darshan.py:169-178 | one header line updates the header as specified |
| DarshanConnector.Darshan.MountsStep | tokio/connectors/darshan.py:179-182 | one mount line updates the mount table as specified |
| DarshanConnector.Darshan.CountersStep | tokio/connectors/darshan.py:184-217 | one counter line inserts as specified |
| DarshanConnector.VersionJoin | tokio/connectors/darshan.py:229-230 | the version line is its words joined by spaces |
| DarshanConnector.VersionFields | tokio/connectors/darshan.py:230 | the version line splits into five words |
| DarshanConnector.VersionRoundTrip | tokio/connectors/darshan.py:229-230 | the header line written for a version parses back to that version |
| DarshanConnector.ExeIndex | tokio/connectors/darshan.py:233 | an `# exe:` line matches the exe prefix |
| DarshanConnector.HashWord | tokio/connectors/darshan.py:234 | `#` followed by a space is a word of its own |
| DarshanConnector.SpaceThenWord | tokio/connectors/darshan.py:234 | a space then a word gives at least one field |
| DarshanConnector.ExeWordCount | tokio/connectors/darshan.py:234 | an exe line has at least two fields |
| DarshanConnector.ParseAtIndex | tokio/connectors/darshan.py:229-252 | a recognised line is parsed by its prefix's rule |
| DarshanConnector.ExeValue | tokio/connectors/darshan.py:233-234 | the exe value is the field list from the third field on |
| DarshanConnector.ExeTokens | tokio/connectors/darshan.py:233-234 | `exe` is the whitespace token list after `# exe:` |
| JobSummary.Find | bin/summarize_job.py:63-77 | a dictionary lookup finds nothing exactly when no entry has the key, and otherwise returns an entry's value |
| JobSummary.LongestMount | bin/summarize_job.py:28-34 | a returned mount is a prefix of the path |
| JobSummary.LongestMountIsBest | bin/summarize_job.py:28-34 | nothing is returned exactly when no mount is a prefix; otherwise the result is the longest matching mount, the earliest among equals |
| JobSummary.IdentifyFsFromPath | bin/summarize_job.py:22-34 | the loop computes that mount |
| JobSummary.Dict.constructor | bin/summarize_job.py:200 | a dictionary holds the given items |
| JobSummary.MergeDicts | bin/summarize_job.py:200-215 | `merge_dicts` updates `dict1` in place exactly as the merge specification says, and reports the clashing key |
| JobSummary.MergedStops | bin/summarize_job.py:213-214 | after a raise, later items are not merged |
| JobSummary.FirstClash | bin/summarize_job.py:212-214 | the first item whose prefixed key is already in `dict1` |
| JobSummary.NewKeyInjective | bin/summarize_job.py:208-211 | prefixing keeps distinct keys distinct |
| JobSummary.InsertedKeys | bin/summarize_job.py:207-215 | the merged keys are the old keys plus every prefixed new key |
| JobSummary.InsertedKeeps | bin/summarize_job.py:207-215 | keys not overwritten keep their values |
| JobSummary.InsertedValues | bin/summarize_job.py:215 | every prefixed key holds its new value |
| JobSummary.MergedOverwrites | bin/summarize_job.py:207-215 | without assertion every item is merged and overwrites |
| JobSummary.MergedRaisesAtClash | bin/summarize_job.py:212-215 | with assertion, items before the first clash are merged, and the merge raises at the clash if there is one |
| JobSummary.ApiTotals | bin/summarize_job.py:62-77 | one total per API |
| JobSummary.Reads | bin/summarize_job.py:80-83 | the read totals in order |
| JobSummary.Writes | bin/summarize_job.py:80-83 | the write totals in order |
| JobSummary.FirstMaxIndex | bin/summarize_job.py:82 | Python `max` picks the first position holding the maximum |
| JobSummary.Pick | bin/summarize_job.py:80-83 | the biggest read and write names are at first-maximal positions, with their byte counts |
| JobSummary.BiggestApi | bin/summarize_job.py:55-85 | `get_biggest_api` gives `{}` exactly without counters, and raises exactly on an empty counter table |
| JobSummary.BiggestApiIsMax | bin/summarize_job.py:63-83 | each biggest API has the largest sum of `BYTES_READ` (or `BYTES_WRITTEN`) over its file records, `_perf`/`_total` excluded, and is the first such API |
| JobSummary.ArgMax | bin/summarize_job.py:82 | the loop finds the first maximal position |
| JobSummary.SumRanks | bin/summarize_job.py:71-77 | the loop sums a file's records, ignoring absent counters |
| JobSummary.SumFiles | bin/summarize_job.py:68-77 | the loop sums an API's file records, skipping `_perf` and `_total` |
| JobSummary.GetBiggestApi | bin/summarize_job.py:55-85 | the loops compute `get_biggest_api` |
| JobSummary.BiggestFs | bin/summarize_job.py:87-127 | `get_biggest_fs` gives `{}` exactly without counters |
| JobSummary.TallyAdds | bin/summarize_job.py:112-119 | adding a record keeps keys distinct and raises both totals by its bytes |
| JobSummary.TallyKeys | bin/summarize_job.py:109-113 | totals are kept only under mounts and `_unknown` |
| JobSummary.FsKeyIsMount | bin/summarize_job.py:109-111 | a record's key is a mount or `_unknown` |
| JobSummary.TallyRanksAdds | bin/summarize_job.py:108-119 | a file's records raise the totals by their sums |
| JobSummary.TallyFilesAdds | bin/summarize_job.py:105-119 | an API's files raise the totals by their sums |
| JobSummary.FsTotalsAdd | bin/summarize_job.py:104-119 | the file-system totals add up the read API's and the write API's bytes |
| JobSummary.SameApiCountedTwice | bin/summarize_job.py:104 | when the read and write APIs coincide, its bytes are counted twice |
| JobSummary.TallyRecords | bin/summarize_job.py:108-119 | the loop tallies a file's records under its mount |
| JobSummary.TallyApi | bin/summarize_job.py:105-119 | the loop tallies an API's files |
| JobSummary.GetBiggestFs | bin/summarize_job.py:87-127 | the loops compute `get_biggest_fs`, reusing precomputed biggest APIs |
| JobSummary.SummarizeHeader | bin/summarize_job.py:138-145 | the summary copies `walltime`, `end_time`, `start_time` and `jobid`; `app` is None exactly without `exe`, and an empty `exe` raises |
| JobSummary.AppIsExePath | bin/summarize_job.py:142-143 | for a parsed `# exe:` line, `app` is the first token after `# exe:` |
| JobSummary.SummarizeDarshan | bin/summarize_job.py:129-151 | the summary is the header part, the biggest APIs and the biggest file systems |
| CollectdCache.TruncDiv | bin/cache_collectdes_supplemental.py:161 | `int(a / b)` truncates toward zero |
| CollectdCache.Matrix | bin/cache_collectdes_supplemental.py:162 | a matrix as rows of cells |
| CollectdCache.InitDatasets | bin/cache_collectdes_supplemental.py:152-170 | `init_datasets` fails exactly on a negative bin count; otherwise it gives a fresh all-missing `int(range/10) × num_servers` matrix and the timestamps `start, start+10, …` below `end` |
| CollectdCache.RowsVersusTimestamps | bin/cache_collectdes_supplemental.py:160-168 | there are as many timestamps as bins when the range is a multiple of 10 seconds, and one more otherwise |
| CollectdCache.Place | bin/cache_collectdes_supplemental.py:204-205 | a numpy cell write succeeds exactly for a valid row index and a column inside the width, and then sets that cell alone |
| CollectdCache.PlaceWrapped | bin/cache_collectdes_supplemental.py:204-205 | a numpy cell write changes exactly the cell of the row the index selects, and keeps the shape |
| CollectdCache.ColumnKeepsDense | bin/cache_collectdes_supplemental.py:194-198 | giving an unseen host `len(column_map)` keeps the map's values exactly `0..n-1` |
| CollectdCache.PlaceInRange | bin/cache_collectdes_supplemental.py:200-205 | a write at a row in range and a column inside the width succeeds |
| CollectdCache.IngestDocEffect | bin/cache_collectdes_supplemental.py:193-205 | for the corrected step (the corrected half of the finding below), one document keeps the map dense, only grows it, keeps the shapes, and changes only the cell of its own bin and host |
| CollectdCache.IngestDocStores | bin/cache_collectdes_supplemental.py:185-205 | for a disk reading as written, a bin at or past the last row only gives the host a column. Otherwise the document raises exactly when a cell does not exist for the numpy row index (a negative bin counts from the end) or `write` is absent. If it does not raise, `read` and `write` are stored in that row at the host's column |
| CollectdCache.IngestDocAsWrittenEffect | bin/cache_collectdes_supplemental.py:182-205 | one document as written keeps the map dense, only grows it, keeps the shapes, and changes only the cell of its host in the row its bin selects (counting from the end when negative) |
| CollectdCache.IngestStopped | bin/cache_collectdes_supplemental.py:182-205 | after an error, later documents change nothing |
| CollectdCache.IngestAppend | bin/cache_collectdes_supplemental.py:182-183 | ingesting two lists in turn is ingesting their concatenation |
| CollectdCache.IngestStopsAt | bin/cache_collectdes_supplemental.py:182-205 | once a prefix raises, the whole list ends in that state |
| CollectdCache.IngestEffect | bin/cache_collectdes_supplemental.py:172-205 | for the corrected ingest (the corrected half of the finding below), a whole ingest keeps the map dense and the shapes, and every changed cell comes from some document with that cell's bin and host |
| CollectdCache.IngestAsWrittenEffect | bin/cache_collectdes_supplemental.py:172-205 | the ingest as written keeps the map dense and the shapes, and every changed cell comes from some disk reading of that cell's host whose bin selects that cell's row as a numpy index |
| CollectdCache.BinBounds | bin/cache_collectdes_supplemental.py:193 | the bin of a timestamp covers it: `time0 + r*step <= ts < time0 + (r+1)*step` |
| CollectdCache.DiskReadings | bin/cache_collectdes_supplemental.py:185-191 | the documents that are disk readings with `read` |
| CollectdCache.OnlyDiskReadingsMatter | bin/cache_collectdes_supplemental.py:185-191 | skipped documents have no effect at all |
| CollectdCache.EarlySampleWraps | bin/cache_collectdes_supplemental.py:193-205 | as written, a sample before `time0` is written into the last row |
| CollectdCache.AsWrittenAgreesFromStart | bin/cache_collectdes_supplemental.py:200-205 | for samples at or after `time0`, the as-written ingest and the corrected one agree |
| CollectdCache.IngestAgreesFromStart | bin/cache_collectdes_supplemental.py:182-205 | when no disk reading has a negative bin, the whole ingest as written equals the corrected one |
| CollectdCache.HostColumns.constructor | bin/cache_collectdes_supplemental.py:69 | the column map starts empty |
| CollectdCache.Store | bin/cache_collectdes_supplemental.py:204-205 | the array write performs exactly the numpy cell write, including the wrap of a negative row index and the raise outside the matrix |
| CollectdCache.IngestOne | bin/cache_collectdes_supplemental.py:184-205 | one document updates map and matrices as the step as written says: only a bin at or past the last row is skipped, and a negative bin wraps or raises |
| CollectdCache.IngestPage | bin/cache_collectdes_supplemental.py:183-205 | the inner loop ingests a page as the ingest as written says |
| CollectdCache.FlattenSplit | bin/cache_collectdes_supplemental.py:182-183 | the documents of `k+1` pages are those of `k` pages then page `k` |
| CollectdCache.UpdateDatasets | bin/cache_collectdes_supplemental.py:172-205 | `update_datasets` fails on fewer than two rows. Otherwise it ingests every page as written, from `time0 = rows[0]` with step `rows[1]-rows[0]` |
| CollectdCache.ColumnNames | bin/cache_collectdes_supplemental.py:89-91 | the column list fails exactly when some index is out of range; otherwise `columns[column_map[h]] == h` for every host |
| CollectdCache.DenseNamesComplete | bin/cache_collectdes_supplemental.py:89-91 | for a dense map the list is complete and is the inverse of the map |
| CollectdCache.H5File.constructor | bin/cache_collectdes_supplemental.py:102 | a file holds the given dataset shapes |
| CollectdCache.H5File.CheckCreateDataset | bin/cache_collectdes_supplemental.py:134-149 | `check_create_dataset` performs exactly the checked creation |
| CollectdCache.CheckedCreate | bin/cache_collectdes_supplemental.py:139-149 | it creates a missing dataset, accepts an existing one of the same shape, raises on a different shape, and touches no other dataset |
| CollectdCache.CheckedCreateIdempotent | bin/cache_collectdes_supplemental.py:139-149 | creating twice is creating once |
| CollectdCache.Blank | bin/cache_collectdes_supplemental.py:162 | the all-missing matrix of a shape |
| CollectdCache.Cache | bin/cache_collectdes_supplemental.py:55-91 | `t_start >= t_end` raises |
| CollectdCache.UpdateKeepsDense | bin/cache_collectdes_supplemental.py:172-205 | one file's update keeps the map dense and the shapes |
| CollectdCache.UpdateFiles | bin/cache_collectdes_supplemental.py:72-86 | the file loop skips unreadable files and updates with each readable one, as written |
| CollectdCache.CacheCollectdes | bin/cache_collectdes_supplemental.py:36-91 | `cache_collectdes` fails exactly when the run as written (`Cache`) does. Otherwise it returns the grid, both matrices and a column list that is the inverse of the map |
| CollectdCache.BlankMatrix | bin/cache_collectdes_supplemental.py:162 | a fresh all-missing array is the blank matrix |
| CollectdCache.FilesStopAt | bin/cache_collectdes_supplemental.py:72-86 | once a file raises, later files change nothing |
| CollectdCache.FilesEffect | bin/cache_collectdes_supplemental.py:72-86 | the file loop keeps the map dense and the shapes |
| CollectdCache.CacheShape | bin/cache_collectdes_supplemental.py:55-91 | a successful run returns `bins × 288` matrices, a dense map, and the grid |
| CollectdCache.FilesShortRows | bin/cache_collectdes_supplemental.py:178-179 | with fewer than two timestamps the first readable file raises |
| CollectdCache.ShortRangeFails | bin/cache_collectdes_supplemental.py:55-86 | a range of at most 10 seconds with a readable file raises, because `rows[1]` does not exist |

## Left out

- I/O and subprocesses: running `darshan-parser` and `_load_subprocess`; the JSON branch of `load_str` and the constructor's `load()` path without a log file; reading and gunzipping collectd page files (an unreadable JSON file is a `None` entry); `commit_datasets` writing arrays and attributes into HDF5; `connectors.HDF5` and `to_dataframe`. Containers are in-memory values.
- Clocks and calendars: `time.mktime`, `datetime`, `dateutil` parsing and local-time conversion. Timestamps are integer epoch seconds, days are `t div 86400`, and `get_index` is the floor of `(t - first) / step` for a positive step. The `updated` stamp of a commit is a parameter `now`. `connectors.HDF5` is not part of this model.
- H5Tools.GetFilesAndIndices: `end = None` is not modelled; every query takes an end time.
- Floating point: values are integers. Negative zero is the `Missing` cell and `+0.0` is `Val(0)`. Darshan counters containing `.` are kept as their text (`FloatVal`), so a value that `float()` rejects, such as `1.2.3`, is kept too where the source raises ValueError. `long()` does not accept a trailing `L`. `summarize_darshan_posix`, the `/2.0**30` conversions, `data_volume`, `summarize_byterate_df`, `summarize_cpu_df`, `summarize_missing_df` and `serialize_datetime` are numeric reporting and are not modelled.
- Dictionary iteration order: Python 2 dictionaries are sequences of pairs in iteration order. This fixes which API or file system `max` picks among equal totals, and the order in which `merge_dicts` visits keys.
- DarshanConnector.Darshan: the parsed document is three optional tables, not an aliasable nested dictionary. The job-summary input (`DarshanData`) is its own value and is not derived from that document.
- JobSummary.SummarizeDarshan: only the header part, `get_biggest_api` and `get_biggest_fs` are modelled; the POSIX performance part is floating point.
- CollectdCache.UpdateDatasets: the read and write matrices are distinct arrays. The source never passes the same one twice.
- CollectdCache.IngestDocEffect: states the corrected document step of the finding below, not the step as written; the step as written is stated by `IngestDocAsWrittenEffect` and `IngestDocStores`, and every operation runs the step as written.
- CollectdCache: `source['plugin']`, `hostname` and `@timestamp` are taken to be present, so no `KeyError` on them is modelled. The `_id` in the warning text and `str()` of a column name are not modelled.
- Error messages: exceptions are `Err` values or error strings, with text close to the source's but not identical.
- Not part of this model: `repack_h5lmt` (external tools), `tokio/connectors/collectd_es.py` (an Elasticsearch client), `bin/cache_nersc_jobsdb.py`, the `retrieve_*` functions and the `summarize_job()` command line. They are configuration, network and file-system plumbing.

## Findings

| source | as written | input that shows it | evidently intended | confidence | as-written member | corrected member |
|---|---|---|---|---|---|---|
| bin/cache_collectdes_supplemental.py:200-205 | only `t_index >= rows` is rejected; a sample before `time0` has a negative bin, which numpy indexing wraps to the end of the matrix | a 2-row matrix with `time0 = 100`, step 10, and a disk reading at timestamp 90 (bin -1) is written into row 1 | such a sample is skipped like any other out-of-range one, as the warning "out of bounds (0:%d)" implies | not executed | CollectdCache.EarlySampleWraps | CollectdCache.IngestEffect |
