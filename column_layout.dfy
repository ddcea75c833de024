/** The column bookkeeping of a `TimeSeries` (tokio/timeseries.py): the
    ordered column names, the name -> index map kept beside them, and which
    of the matrix's original data columns sits at each position.  These are
    the specification functions the class's methods are proved against. */
module ColumnLayout {

  predicate Distinct<T(==)>(s: seq<T>) {
    forall i, j :: 0 <= i < j < |s| ==> s[i] != s[j]
  }

  /** `column_map` is a right inverse of `columns`: it holds exactly the
      listed names, and each points at a position holding that name. */
  ghost predicate MapConsistent(cols: seq<string>, m: map<string, nat>) {
    (forall n :: n in m <==> n in cols) &&
    (forall n :: n in m ==> m[n] < |cols| && cols[m[n]] == n)
  }

  /** The map `update_column_map` builds: every name to its LAST position. */
  function IndexMap(cols: seq<string>): (m: map<string, nat>)
    ensures forall n :: n in m ==> m[n] < |cols|
  {
    if cols == [] then map[]
    else IndexMap(cols[..|cols| - 1])[cols[|cols| - 1] := |cols| - 1]
  }

  /** The map built from any list is consistent with it, and the position it
      records for a name is that name's last one. */
  lemma {:induction false} IndexMapConsistent(cols: seq<string>)
    ensures MapConsistent(cols, IndexMap(cols))
    ensures forall n :: n in IndexMap(cols) ==> forall k :: IndexMap(cols)[n] < k < |cols| ==> cols[k] != n
  {
    if cols != [] {
      var last := |cols| - 1;
      var init := cols[..last];
      IndexMapConsistent(init);
      var m := IndexMap(cols);
      assert m == IndexMap(init)[cols[last] := last];
      forall n ensures n in m <==> n in cols {
        if n in cols && n != cols[last] {
          var k :| 0 <= k < |cols| && cols[k] == n;
          assert init[k] == n;
        }
      }
    }
  }

  /** For distinct names the map is the exact inverse of the list. */
  lemma {:induction false} ConsistentMapIsInverse(cols: seq<string>, m: map<string, nat>)
    requires Distinct(cols) && MapConsistent(cols, m)
    ensures forall k :: 0 <= k < |cols| ==> cols[k] in m && m[cols[k]] == k
  {
    forall k | 0 <= k < |cols| ensures cols[k] in m && m[cols[k]] == k {
      assert cols[k] in cols;
      var j := m[cols[k]];
      assert cols[j] == cols[k];
    }
  }

  /** The columns in order, the map beside them, and for each matrix
      position the original data column now stored there. */
  datatype Layout = Layout(columns: seq<string>, columnMap: map<string, nat>, source: seq<nat>)

  /** A layout after some steps, and whether the last step raised. */
  datatype Progress = Progress(layout: Layout, failed: bool)

  function Identity(n: nat): (s: seq<nat>)
    ensures |s| == n && InRange(s) && forall k :: 0 <= k < n ==> s[k] == k
  {
    seq(n, k requires 0 <= k < n => k)
  }

  /** Every data column a position names exists. */
  predicate InRange(source: seq<nat>) {
    forall c :: 0 <= c < |source| ==> source[c] < |source|
  }

  /** `s` with the entries at `i` and `j` exchanged. */
  function Swapped<T>(s: seq<T>, i: nat, j: nat): (t: seq<T>)
    requires i < |s| && j < |s|
    ensures |t| == |s| && t[i] == s[j] && t[j] == s[i]
    ensures forall c :: 0 <= c < |s| && c != i && c != j ==> t[c] == s[c]
  {
    s[j := s[i]][i := s[j]]
  }

  /** The position an entry of `Swapped(s, i, j)` came from. */
  function Transposed(c: nat, i: nat, j: nat): nat {
    if c == i then j else if c == j then i else c
  }

  lemma SwappedFrom<T>(s: seq<T>, i: nat, j: nat)
    requires i < |s| && j < |s|
    ensures forall c :: 0 <= c < |s| ==> Transposed(c, i, j) < |s| && Swapped(s, i, j)[c] == s[Transposed(c, i, j)]
  {
  }

  lemma SwapKeepsDistinct<T>(s: seq<T>, i: nat, j: nat)
    requires i < |s| && j < |s| && Distinct(s)
    ensures Distinct(Swapped(s, i, j))
  {
    var t := Swapped(s, i, j);
    SwappedFrom(s, i, j);
    forall a, b | 0 <= a < b < |t| ensures t[a] != t[b] {
      assert Transposed(a, i, j) != Transposed(b, i, j);
    }
  }

  lemma SwapKeepsElements<T>(s: seq<T>, i: nat, j: nat)
    requires i < |s| && j < |s|
    ensures forall x :: x in Swapped(s, i, j) <==> x in s
  {
    var t := Swapped(s, i, j);
    SwappedFrom(s, i, j);
    forall x ensures x in t <==> x in s {
      if x in t {
        var c :| 0 <= c < |t| && t[c] == x;
        assert s[Transposed(c, i, j)] == x;
      }
      if x in s {
        var c :| 0 <= c < |s| && s[c] == x;
        assert t[Transposed(c, i, j)] == x;
      }
    }
  }

  /** `swap_columns(i, j)` on a matrix `|l.source|` columns wide.  Reading
      column `j` of the matrix or of the name list, or column `i` of the
      matrix, out of range raises before anything changes; reading name `i`
      out of range raises after the data columns were already swapped. */
  function SwapLayout(l: Layout, i: nat, j: nat): (p: Progress)
    ensures |p.layout.source| == |l.source| && |p.layout.columns| == |l.columns|
    ensures InRange(l.source) ==> InRange(p.layout.source)
  {
    if j >= |l.source| || j >= |l.columns| || i >= |l.source| then Progress(l, true)
    else if i >= |l.columns| then Progress(l.(source := Swapped(l.source, i, j)), true)
    else
      var cols := Swapped(l.columns, i, j);
      Progress(Layout(cols, l.columnMap[cols[j] := j][cols[i] := i], Swapped(l.source, i, j)), false)
  }

  /** `swap_columns` keeps the map a right inverse of the names. */
  lemma SwapKeepsConsistent(l: Layout, i: nat, j: nat)
    requires MapConsistent(l.columns, l.columnMap)
    ensures MapConsistent(SwapLayout(l, i, j).layout.columns, SwapLayout(l, i, j).layout.columnMap)
  {
    var p := SwapLayout(l, i, j);
    if !p.failed {
      var cols, m := p.layout.columns, p.layout.columnMap;
      SwapKeepsElements(l.columns, i, j);
      forall n | n in m ensures m[n] < |cols| && cols[m[n]] == n {
        if n != cols[i] && n != cols[j] {
          var k := l.columnMap[n];
          assert l.columns[k] == n;
          assert k != i && k != j;
        }
      }
    }
  }

  /** The `rearrange_columns` walk from position `k` on: for each later name,
      swap the column the map names into place `k`; the first swap that
      raises ends it. */
  function RearrangeFrom(l: Layout, order: seq<string>, k: nat): (p: Progress)
    ensures |p.layout.source| == |l.source| && |p.layout.columns| == |l.columns|
    ensures InRange(l.source) ==> InRange(p.layout.source)
    decreases |order| - k
  {
    if k >= |order| then Progress(l, false)
    else if order[k] !in l.columnMap then Progress(l, true)
    else
      var p := SwapLayout(l, l.columnMap[order[k]], k);
      if p.failed then p else RearrangeFrom(p.layout, order, k + 1)
  }

  /** One step of the walk over a name that has a column. */
  lemma RearrangeFromStep(l: Layout, order: seq<string>, k: nat)
    requires k < |order| && order[k] in l.columnMap
    ensures RearrangeFrom(l, order, k) ==
      var p := SwapLayout(l, l.columnMap[order[k]], k);
      if p.failed then p else RearrangeFrom(p.layout, order, k + 1)
  {
  }

  /** `rearrange_columns(new_order)`: raises, changing nothing, when a name
      of `new_order` is not a current column; otherwise walks the order. */
  function Rearrange(l: Layout, order: seq<string>): (p: Progress)
    ensures (exists k :: 0 <= k < |order| && order[k] !in l.columns) ==> p == Progress(l, true)
    ensures |p.layout.source| == |l.source| && |p.layout.columns| == |l.columns|
    ensures InRange(l.source) ==> InRange(p.layout.source)
  {
    if exists k :: 0 <= k < |order| && order[k] !in l.columns then Progress(l, true)
    else RearrangeFrom(l, order, 0)
  }

  /** What holds of the walk after the first `k` names of `order` were put
      in place, starting from layout `l0`. */
  ghost predicate WalkInvariant(l0: Layout, l: Layout, order: seq<string>, k: nat) {
    MapConsistent(l0.columns, l0.columnMap) && |l0.columns| <= |l0.source| &&
    |l.columns| == |l0.columns| && |l.source| == |l0.source| &&
    Distinct(l.columns) && MapConsistent(l.columns, l.columnMap) &&
    k <= |order| && k <= |l.columns| && l.columns[..k] == order[..k] &&
    (forall n :: n in l.columns <==> n in l0.columns) &&
    Carries(l0, l)
  }

  lemma WalkStep(l0: Layout, l: Layout, order: seq<string>, k: nat)
    requires WalkInvariant(l0, l, order, k) && k < |order| && Distinct(order)
    requires order[k] in l0.columns && |l.columns| <= |l.source| && |order| <= |l.columns|
    ensures order[k] in l.columnMap
    ensures var p := SwapLayout(l, l.columnMap[order[k]], k);
      !p.failed && WalkInvariant(l0, p.layout, order, k + 1)
  {
    var i := l.columnMap[order[k]];
    WalkPicksLater(l0, l, order, k);
    var p := SwapLayout(l, i, k);
    SwapKeepsConsistent(l, i, k);
    SwapKeepsDistinct(l.columns, i, k);
    SwapKeepsElements(l.columns, i, k);
    StepPrefix(l, order, k, i);
    StepSources(l0, l, i, k);
  }

  lemma StepPrefix(l: Layout, order: seq<string>, k: nat, i: nat)
    requires k < |order| && k <= i < |l.columns| && |l.columns| <= |l.source|
    requires l.columns[..k] == order[..k] && l.columns[i] == order[k]
    ensures SwapLayout(l, i, k).layout.columns[..k + 1] == order[..k + 1]
  {
    var cols := SwapLayout(l, i, k).layout.columns;
    forall c | 0 <= c < k + 1 ensures cols[c] == order[c] {
      if c < k {
        assert l.columns[..k][c] == order[..k][c];
      }
    }
  }

  /** Every name of `l` carries the data column it had in `l0`, and the
      positions beyond the names hold what they held in `l0`. */
  ghost predicate Carries(l0: Layout, l: Layout) {
    |l.columns| <= |l.source| == |l0.source| &&
    (forall c :: 0 <= c < |l.columns| ==> l.columns[c] in l0.columnMap && l0.columnMap[l.columns[c]] < |l0.source| && l.source[c] == l0.source[l0.columnMap[l.columns[c]]]) &&
    (forall c :: |l.columns| <= c < |l.source| ==> l.source[c] == l0.source[c])
  }

  lemma StepSources(l0: Layout, l: Layout, i: nat, k: nat)
    requires i < |l.columns| && k < |l.columns| && |l.columns| <= |l.source|
    requires Carries(l0, l)
    ensures Carries(l0, SwapLayout(l, i, k).layout)
  {
    var q := SwapLayout(l, i, k).layout;
    assert q.columns == Swapped(l.columns, i, k) && q.source == Swapped(l.source, i, k);
    forall c | 0 <= c < |q.columns|
      ensures q.columns[c] in l0.columnMap && l0.columnMap[q.columns[c]] < |l0.source| && q.source[c] == l0.source[l0.columnMap[q.columns[c]]]
    {
      var t := Transposed(c, i, k);
      assert q.columns[c] == l.columns[t] && q.source[c] == l.source[t];
    }
    forall c | |q.columns| <= c < |q.source| ensures q.source[c] == l0.source[c] {
      assert q.source[c] == l.source[c];
    }
  }

  /** The name placed at step `k` is found at or after position `k`. */
  lemma WalkPicksLater(l0: Layout, l: Layout, order: seq<string>, k: nat)
    requires WalkInvariant(l0, l, order, k) && k < |order| && Distinct(order) && order[k] in l.columnMap
    ensures k <= l.columnMap[order[k]]
  {
    forall c | 0 <= c < k ensures l.columns[c] == order[c] {
      assert l.columns[..k][c] == order[..k][c];
    }
  }

  lemma {:induction false} WalkCompletes(l0: Layout, l: Layout, order: seq<string>, k: nat)
    requires WalkInvariant(l0, l, order, k) && Distinct(order)
    requires forall n :: n in order ==> n in l0.columns
    requires |l.columns| <= |l.source| && |order| == |l.columns|
    ensures var p := RearrangeFrom(l, order, k); !p.failed && WalkInvariant(l0, p.layout, order, |order|)
    decreases |order| - k
  {
    if k < |order| {
      WalkStep(l0, l, order, k);
      var p := SwapLayout(l, l.columnMap[order[k]], k);
      WalkCompletes(l0, p.layout, order, k + 1);
    }
  }

  /** `rearrange_columns` with a duplicate-free permutation of the
      duplicate-free columns, on a matrix at least as wide as the name list:
      it does not raise, the names end in the new order, the map is their
      inverse, every name still carries its own data column, and columns
      beyond the names are untouched. */
  lemma RearrangePermutes(l: Layout, order: seq<string>)
    requires Distinct(l.columns) && MapConsistent(l.columns, l.columnMap) && |l.columns| <= |l.source|
    requires Distinct(order) && |order| == |l.columns| && forall n :: n in order <==> n in l.columns
    ensures PermutedLayout(l, order, Rearrange(l, order))
  {
    assert !exists k :: 0 <= k < |order| && order[k] !in l.columns by {
      forall k | 0 <= k < |order| ensures order[k] in l.columns {
        assert order[k] in order;
      }
    }
    WalkStarts(l, order);
    WalkCompletes(l, l, order, 0);
    WalkEnds(l, RearrangeFrom(l, order, 0).layout, order);
  }

  lemma WalkStarts(l: Layout, order: seq<string>)
    requires Distinct(l.columns) && MapConsistent(l.columns, l.columnMap) && |l.columns| <= |l.source|
    requires |order| == |l.columns|
    ensures WalkInvariant(l, l, order, 0)
  {
    ConsistentMapIsInverse(l.columns, l.columnMap);
  }

  lemma WalkEnds(l0: Layout, l: Layout, order: seq<string>)
    requires WalkInvariant(l0, l, order, |order|) && |order| == |l0.columns|
    ensures PermutedLayout(l0, order, Progress(l, false))
  {
    assert l.columns == l.columns[..|order|];
    ConsistentMapIsInverse(l.columns, l.columnMap);
  }

  /** The outcome `RearrangePermutes` promises. */
  ghost predicate PermutedLayout(l: Layout, order: seq<string>, p: Progress)
    requires MapConsistent(l.columns, l.columnMap) && |l.columns| <= |l.source|
  {
    |order| <= |l.source| && !p.failed && p.layout.columns == order && |p.layout.source| == |l.source| &&
    MapConsistent(order, p.layout.columnMap) &&
    (forall k :: 0 <= k < |order| ==> p.layout.columnMap[order[k]] == k) &&
    (forall k :: 0 <= k < |order| ==> order[k] in l.columnMap && p.layout.source[k] == l.source[l.columnMap[order[k]]]) &&
    (forall k :: |order| <= k < |l.source| ==> p.layout.source[k] == l.source[k])
  }

  /** Two lists with the same multiset, one of them duplicate-free: the other
      is duplicate-free too and lists the same names. */
  lemma PermutationOfDistinct(a: seq<string>, b: seq<string>)
    requires multiset(a) == multiset(b) && Distinct(b)
    ensures Distinct(a) && |a| == |b| && forall n :: n in a <==> n in b
  {
    assert |a| == |multiset(a)| == |multiset(b)| == |b|;
    forall n ensures n in a <==> n in b {
      assert n in a <==> n in multiset(a);
      assert n in b <==> n in multiset(b);
    }
    forall i, j | 0 <= i < j < |a| ensures a[i] != a[j] {
      if a[i] == a[j] {
        var x := a[i];
        assert a == a[..i] + [x] + a[i + 1..j] + [x] + a[j + 1..];
        assert multiset(a)[x] >= 2;
        DistinctCountsOnce(b, x);
      }
    }
  }

  lemma {:induction false} DistinctCountsOnce(b: seq<string>, x: string)
    requires Distinct(b)
    ensures multiset(b)[x] <= 1
  {
    if b != [] {
      assert b == [b[0]] + b[1..];
      assert Distinct(b[1..]);
      DistinctCountsOnce(b[1..], x);
      if b[0] == x {
        assert x !in b[1..];
      }
    }
  }

  /** The matrix `m` with its columns rearranged so that position `c`
      holds what column `src[c]` held. */
  function Moved<T>(m: seq<seq<T>>, src: seq<nat>): (n: seq<seq<T>>)
    requires InRange(src) && forall r :: 0 <= r < |m| ==> |m[r]| == |src|
    ensures |n| == |m| && forall r :: 0 <= r < |n| ==> |n[r]| == |src|
  {
    seq(|m|, r requires 0 <= r < |m| => seq(|src|, c requires 0 <= c < |src| => m[r][src[c]]))
  }

  /** Rearranging by `s1` and then by `s2` is rearranging by their
      composition. */
  function Compose(s1: seq<nat>, s2: seq<nat>): (s: seq<nat>)
    requires InRange(s1) && InRange(s2) && |s1| == |s2|
    ensures |s| == |s2| && InRange(s)
  {
    seq(|s2|, c requires 0 <= c < |s2| => s1[s2[c]])
  }

  lemma MovedTwice<T>(m: seq<seq<T>>, s1: seq<nat>, s2: seq<nat>)
    requires InRange(s1) && InRange(s2) && |s1| == |s2| && forall r :: 0 <= r < |m| ==> |m[r]| == |s1|
    ensures Moved(Moved(m, s1), s2) == Moved(m, Compose(s1, s2))
  {
    var a, b := Moved(Moved(m, s1), s2), Moved(m, Compose(s1, s2));
    forall r | 0 <= r < |m| ensures a[r] == b[r] {
    }
  }

  lemma MovedIdentity<T>(m: seq<seq<T>>, w: nat)
    requires forall r :: 0 <= r < |m| ==> |m[r]| == w
    ensures Moved(m, Identity(w)) == m
  {
    var a := Moved(m, Identity(w));
    forall r | 0 <= r < |m| ensures a[r] == m[r] {
    }
  }
}
