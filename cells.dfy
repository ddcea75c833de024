/** The numbers stored in a time-series matrix and the numpy/Python index
    arithmetic applied to them.

    Every cell of a matrix is an IEEE double.  The engine reserves negative
    zero to mean "never populated"; positive zero is a measured zero.  The
    model keeps exactly that distinction and no other floating-point detail:
    a cell is `Missing` (-0.0) or `Val(v)` with an integer value (`Val(0)` is
    +0.0). */
module Cells {
  import opened Wrappers

  datatype Cell = Missing | Val(v: int)

  /** The numeric value of a cell: negative zero compares equal to 0. */
  function Num(c: Cell): int {
    match c
    case Missing => 0
    case Val(v) => v
  }

  /** The test `x != 0.0` fails for both zeros. */
  predicate IsZero(c: Cell) {
    Num(c) == 0
  }

  /** IEEE subtraction `a - b` as far as the sign of a zero result goes:
      only (-0.0) - (+0.0) is negative zero; any other zero result is +0.0. */
  function Sub(a: Cell, b: Cell): (r: Cell)
    ensures Num(r) == Num(a) - Num(b)
    ensures r == Missing <==> a == Missing && b == Val(0)
  {
    if a == Missing && b == Val(0) then Missing else Val(Num(a) - Num(b))
  }

  /** Integer division of numpy int64 values (and of Python 2 longs): the
      quotient is rounded toward negative infinity; numpy yields 0 for a
      zero divisor instead of raising. */
  function FloorDiv(a: int, b: int): (q: int)
    ensures b > 0 ==> b * q <= a < b * q + b
    ensures b < 0 ==> b * q >= a > b * q + b
    ensures b == 0 ==> q == 0
  {
    if b > 0 then a / b
    else if b < 0 then (-a) / (-b)
    else 0
  }

  /** The row a numpy index `i` selects in an axis of length `n`: negative
      indices count from the end; anything outside `[-n, n)` raises IndexError. */
  function NumpyIndex(i: int, n: nat): (r: Option<nat>)
    ensures r.Some? <==> 0 <= i + n && i < n
    ensures r.Some? ==> r.value < n && (r.value == i || r.value == n + i)
  {
    if 0 <= i < n then Some(i)
    else if 0 <= i + n && i < 0 then Some(n + i)
    else None
  }

  /** One bound of a Python slice: a negative bound counts from the end and
      the result is clamped to `[0, n]`. */
  function SliceBound(b: int, n: nat): (r: nat)
    ensures r <= n
    ensures 0 <= b <= n ==> r == b
    ensures b < 0 <= b + n ==> r == n + b
    ensures b > n ==> r == n
    ensures b + n < 0 ==> r == 0
  {
    if b < 0 then (if b + n < 0 then 0 else b + n)
    else if b > n then n
    else b
  }

  /** The length of the slice `[start:stop]` of an axis of length `n`. */
  function SliceLength(n: nat, start: int, stop: int): nat {
    var lo, hi := SliceBound(start, n), SliceBound(stop, n);
    if lo < hi then hi - lo else 0
  }

  /** `s[start:stop]` with Python's slice rules: the run of `s` from the
      clamped start, as long as the clamped bounds allow. */
  function Slice<T>(s: seq<T>, start: int, stop: int): (r: seq<T>)
    ensures |r| == SliceLength(|s|, start, stop) <= |s|
    ensures forall k :: 0 <= k < |r| ==> SliceBound(start, |s|) + k < |s| && r[k] == s[SliceBound(start, |s|) + k]
  {
    var lo, hi := SliceBound(start, |s|), SliceBound(stop, |s|);
    if lo < hi then s[lo..hi] else []
  }
}
