/** Natural ordering of node names (`sorted_nodenames`, tokio/timeseries.py).

    A name is cut into maximal runs of digits and of non-digits (in hex mode:
    of hexadecimal digits and of everything else).  Digit runs become integer
    tokens, the other runs stay strings, and names compare by their token
    lists, element by element, the way Python 2's `cmp` compares lists: the
    first unequal pair decides, a proper prefix comes first, and an integer is
    smaller than any string.  So "bb2" sorts before "bb10". */
module NaturalOrder {
  import opened Text

  datatype Token = Number(n: nat) | Word(s: string)

  predicate IsHexDigit(c: char) {
    IsDigit(c) || 'a' <= c <= 'f' || 'A' <= c <= 'F'
  }

  /** Whether `c` belongs to a numeric run. */
  predicate Numeric(c: char, hex: bool) {
    if hex then IsHexDigit(c) else IsDigit(c)
  }

  /** Length of the longest prefix of `s` whose characters are all numeric
      (`numeric`) or all non-numeric (`!numeric`). */
  function RunLength(s: string, hex: bool, numeric: bool): (n: nat)
    ensures n <= |s|
    ensures forall i :: 0 <= i < n ==> Numeric(s[i], hex) == numeric
    ensures n < |s| ==> Numeric(s[n], hex) != numeric
  {
    if s == [] || Numeric(s[0], hex) != numeric then 0 else 1 + RunLength(s[1..], hex, numeric)
  }

  function Concat(runs: seq<string>): string {
    if runs == [] then [] else runs[0] + Concat(runs[1..])
  }

  /** The runs `re.findall(r'(\d+|\D+)', s)` returns (hex mode:
      `([0-9a-fA-F]+|[^0-9a-fA-F]+)`): non-empty, each of one kind, two
      neighbours never of the same kind, and together exactly `s`. */
  function Runs(s: string, hex: bool): (runs: seq<string>)
    ensures Concat(runs) == s
    ensures forall i :: 0 <= i < |runs| ==> runs[i] != []
    ensures forall i, k :: 0 <= i < |runs| && 0 <= k < |runs[i]| ==> Numeric(runs[i][k], hex) == Numeric(runs[i][0], hex)
    ensures forall i :: 0 < i < |runs| ==> Numeric(runs[i][0], hex) != Numeric(runs[i - 1][0], hex)
    decreases |s|
  {
    if s == [] then []
    else
      var n := RunLength(s, hex, Numeric(s[0], hex));
      var rest := Runs(s[n..], hex);
      assert s == s[..n] + s[n..];
      [s[..n]] + rest
  }

  /** Value of a run of decimal (or hexadecimal) digits, as `int(run)` (or
      `int(run, 16)`) computes it. */
  function RunValue(run: string, hex: bool): nat
    requires forall k :: 0 <= k < |run| ==> Numeric(run[k], hex)
  {
    if run == [] then 0
    else
      var c := run[|run| - 1];
      assert Numeric(c, hex);
      var d := if IsDigit(c) then c as int - '0' as int
               else if 'a' <= c <= 'f' then c as int - 'a' as int + 10
               else c as int - 'A' as int + 10;
      (if hex then 16 else 10) * RunValue(run[..|run| - 1], hex) + d
  }

  /** The token list of a name (`natural_compare` / `natural_hex_compare`). */
  function Tokens(name: string, hex: bool): (tokens: seq<Token>)
    ensures |tokens| == |Runs(name, hex)|
    ensures forall i :: 0 <= i < |tokens| ==>
              (tokens[i].Word? <==> !Numeric(Runs(name, hex)[i][0], hex)) &&
              (tokens[i].Word? ==> tokens[i].s == Runs(name, hex)[i])
  {
    var runs := Runs(name, hex);
    seq(|runs|, i requires 0 <= i < |runs| =>
      if Numeric(runs[i][0], hex) then Number(RunValue(runs[i], hex)) else Word(runs[i]))
  }

  /** A three-way comparison: negative, zero or positive. */
  type Comparison = c: int | -1 <= c <= 1

  /** A comparison that is a total order on `T`. */
  ghost predicate TotalOrder<T(!new)>(cmp: (T, T) -> Comparison) {
    (forall a, b :: cmp(a, b) == -cmp(b, a)) &&
    (forall a, b :: cmp(a, b) == 0 <==> a == b) &&
    (forall a, b, c :: cmp(a, b) <= 0 && cmp(b, c) <= 0 ==> cmp(a, c) <= 0)
  }

  /** Python 2's comparison of two lists (or strings) element by element. */
  function Lex<T(==)>(x: seq<T>, y: seq<T>, cmp: (T, T) -> Comparison): Comparison {
    if x == [] && y == [] then 0
    else if x == [] then -1
    else if y == [] then 1
    else if x[0] != y[0] then cmp(x[0], y[0])
    else Lex(x[1..], y[1..], cmp)
  }

  lemma {:induction false} LexAntisymmetric<T(!new)>(x: seq<T>, y: seq<T>, cmp: (T, T) -> Comparison)
    requires TotalOrder(cmp)
    ensures Lex(x, y, cmp) == -Lex(y, x, cmp)
    ensures Lex(x, y, cmp) == 0 <==> x == y
  {
    if x != [] && y != [] && x[0] == y[0] {
      LexAntisymmetric(x[1..], y[1..], cmp);
      if x[1..] == y[1..] {
        assert x == [x[0]] + x[1..] && y == [y[0]] + y[1..];
      }
    }
  }

  lemma {:induction false} LexTransitive<T(!new)>(x: seq<T>, y: seq<T>, z: seq<T>, cmp: (T, T) -> Comparison)
    requires TotalOrder(cmp)
    requires Lex(x, y, cmp) <= 0 && Lex(y, z, cmp) <= 0
    ensures Lex(x, z, cmp) <= 0
  {
    if x != [] && y != [] && z != [] && x[0] == y[0] && y[0] == z[0] {
      LexTransitive(x[1..], y[1..], z[1..], cmp);
    } else if x != [] && y != [] && z != [] && x[0] == y[0] {
      assert cmp(y[0], z[0]) <= 0;
    } else if x != [] && y != [] && z != [] && y[0] == z[0] {
      assert cmp(x[0], y[0]) <= 0;
    }
  }

  lemma LexTotalOrder<T(!new)>(cmp: (T, T) -> Comparison)
    requires TotalOrder(cmp)
    ensures TotalOrder((x: seq<T>, y: seq<T>) => Lex(x, y, cmp))
  {
    forall x: seq<T>, y: seq<T> ensures Lex(x, y, cmp) == -Lex(y, x, cmp) && (Lex(x, y, cmp) == 0 <==> x == y) {
      LexAntisymmetric(x, y, cmp);
    }
    forall x: seq<T>, y: seq<T>, z: seq<T> | Lex(x, y, cmp) <= 0 && Lex(y, z, cmp) <= 0
      ensures Lex(x, z, cmp) <= 0
    {
      LexTransitive(x, y, z, cmp);
    }
  }

  function CompareChar(a: char, b: char): Comparison {
    if a < b then -1 else if a == b then 0 else 1
  }

  /** Comparison of two tokens: integers by value, strings byte-wise, and
      an integer before any string. */
  function CompareToken(a: Token, b: Token): Comparison {
    match (a, b)
    case (Number(m), Number(n)) => if m < n then -1 else if m == n then 0 else 1
    case (Number(_), Word(_)) => -1
    case (Word(_), Number(_)) => 1
    case (Word(s), Word(t)) => Lex(s, t, CompareChar)
  }

  lemma TokenOrderIsTotal()
    ensures TotalOrder(CompareToken)
  {
    LexTotalOrder(CompareChar);
    forall a: Token, b: Token ensures CompareToken(a, b) == -CompareToken(b, a) && (CompareToken(a, b) == 0 <==> a == b) {
      if a.Word? && b.Word? {
        LexAntisymmetric(a.s, b.s, CompareChar);
      }
    }
    forall a: Token, b: Token, c: Token | CompareToken(a, b) <= 0 && CompareToken(b, c) <= 0
      ensures CompareToken(a, c) <= 0
    {
      if a.Word? && b.Word? && c.Word? {
        LexTransitive(a.s, b.s, c.s, CompareChar);
      }
    }
  }

  /** `natural_comp` / `natural_hex_comp`: the order `sorted_nodenames` uses. */
  function CompareNames(a: string, b: string, hex: bool): Comparison {
    Lex(Tokens(a, hex), Tokens(b, hex), CompareToken)
  }

  lemma CompareNamesAntisymmetric(a: string, b: string, hex: bool)
    ensures CompareNames(a, b, hex) == -CompareNames(b, a, hex)
  {
    TokenOrderIsTotal();
    LexAntisymmetric(Tokens(a, hex), Tokens(b, hex), CompareToken);
  }

  lemma CompareNamesTransitive(a: string, b: string, c: string, hex: bool)
    requires CompareNames(a, b, hex) <= 0 && CompareNames(b, c, hex) <= 0
    ensures CompareNames(a, c, hex) <= 0
  {
    TokenOrderIsTotal();
    LexTransitive(Tokens(a, hex), Tokens(b, hex), Tokens(c, hex), CompareToken);
  }

  /** A comparison that orders all of `T`, possibly with ties. */
  ghost predicate TotalPreorder<T(!new)>(cmp: (T, T) -> Comparison) {
    (forall a, b :: cmp(a, b) == -cmp(b, a)) &&
    (forall a, b, c :: cmp(a, b) <= 0 && cmp(b, c) <= 0 ==> cmp(a, c) <= 0)
  }

  lemma NamesTotalPreorder(hex: bool)
    ensures TotalPreorder((a: string, b: string) => CompareNames(a, b, hex))
  {
    forall a: string, b: string ensures CompareNames(a, b, hex) == -CompareNames(b, a, hex) {
      CompareNamesAntisymmetric(a, b, hex);
    }
    forall a: string, b: string, c: string | CompareNames(a, b, hex) <= 0 && CompareNames(b, c, hex) <= 0
      ensures CompareNames(a, c, hex) <= 0
    {
      CompareNamesTransitive(a, b, c, hex);
    }
  }

  ghost predicate SortedBy<T>(s: seq<T>, cmp: (T, T) -> Comparison) {
    forall i, j :: 0 <= i < j < |s| ==> cmp(s[i], s[j]) <= 0
  }

  /** Puts `x` after every entry of `sorted` that does not compare greater. */
  function Insert<T>(x: T, sorted: seq<T>, cmp: (T, T) -> Comparison): (r: seq<T>)
    ensures multiset(r) == multiset(sorted) + multiset{x}
  {
    if sorted == [] then [x]
    else if cmp(x, sorted[0]) < 0 then [x] + sorted
    else
      assert sorted == [sorted[0]] + sorted[1..];
      [sorted[0]] + Insert(x, sorted[1..], cmp)
  }

  lemma PrependSorted<T>(h: T, rest: seq<T>, cmp: (T, T) -> Comparison)
    requires SortedBy(rest, cmp)
    requires forall j :: 0 <= j < |rest| ==> cmp(h, rest[j]) <= 0
    ensures SortedBy([h] + rest, cmp)
  {
    var r := [h] + rest;
    forall i, j | 0 <= i < j < |r| ensures cmp(r[i], r[j]) <= 0 {
      if i > 0 {
        assert r[i] == rest[i - 1] && r[j] == rest[j - 1];
      } else {
        assert r[j] == rest[j - 1];
      }
    }
  }

  /** Every item of `s` that is not `x` comes from `t`, given the multisets. */
  lemma MemberOfRest<T>(s: seq<T>, t: seq<T>, x: T, j: nat)
    requires multiset(s) == multiset(t) + multiset{x}
    requires j < |s| && s[j] != x
    ensures exists k :: 0 <= k < |t| && t[k] == s[j]
  {
    assert s[j] in multiset(s);
    assert s[j] in multiset(t);
  }

  lemma {:induction false} InsertSorted<T(!new)>(x: T, sorted: seq<T>, cmp: (T, T) -> Comparison)
    requires TotalPreorder(cmp) && SortedBy(sorted, cmp)
    ensures SortedBy(Insert(x, sorted, cmp), cmp)
  {
    if sorted == [] {
    } else if cmp(x, sorted[0]) < 0 {
      forall j | 0 <= j < |sorted| ensures cmp(x, sorted[j]) <= 0 {
        if j > 0 {
          assert cmp(sorted[0], sorted[j]) <= 0;
        }
      }
      PrependSorted(x, sorted, cmp);
    } else {
      var rest := Insert(x, sorted[1..], cmp);
      InsertSorted(x, sorted[1..], cmp);
      assert cmp(sorted[0], x) <= 0;
      forall j | 0 <= j < |rest| ensures cmp(sorted[0], rest[j]) <= 0 {
        if rest[j] != x {
          MemberOfRest(rest, sorted[1..], x, j);
          var k :| 0 <= k < |sorted[1..]| && sorted[1..][k] == rest[j];
          assert sorted[k + 1] == rest[j];
        }
      }
      PrependSorted(sorted[0], rest, cmp);
    }
  }

  /** Insertion sort taking the items left to right: stable, like Python's
      `sorted`. */
  function SortBy<T(!new)>(s: seq<T>, cmp: (T, T) -> Comparison): (r: seq<T>)
    requires TotalPreorder(cmp)
    ensures multiset(r) == multiset(s)
    ensures SortedBy(r, cmp)
  {
    if s == [] then []
    else
      var last := |s| - 1;
      assert s == s[..last] + [s[last]];
      var sortedPrefix := SortBy(s[..last], cmp);
      InsertSorted(s[last], sortedPrefix, cmp);
      Insert(s[last], sortedPrefix, cmp)
  }

  /** The items of `s` that compare equal to `x`, in their order in `s`. */
  function Ties<T>(s: seq<T>, x: T, cmp: (T, T) -> Comparison): (r: seq<T>)
    ensures |r| <= |s|
  {
    if s == [] then []
    else (if cmp(s[0], x) == 0 then [s[0]] else []) + Ties(s[1..], x, cmp)
  }

  lemma {:induction false} TiesAppend<T>(a: seq<T>, b: seq<T>, x: T, cmp: (T, T) -> Comparison)
    ensures Ties(a + b, x, cmp) == Ties(a, x, cmp) + Ties(b, x, cmp)
  {
    if a != [] {
      var c := if cmp(a[0], x) == 0 then [a[0]] else [];
      assert (a + b)[0] == a[0] && (a + b)[1..] == a[1..] + b;
      assert Ties(a + b, x, cmp) == c + Ties(a[1..] + b, x, cmp);
      TiesAppend(a[1..], b, x, cmp);
    } else {
      assert a + b == b;
    }
  }

  /** An item that compares below every entry of `s` and equal to `x`
      leaves no entry of `s` tied with `x`. */
  lemma {:induction false} NoTiesAbove<T(!new)>(e: T, s: seq<T>, x: T, cmp: (T, T) -> Comparison)
    requires TotalPreorder(cmp) && cmp(e, x) == 0
    requires forall j :: 0 <= j < |s| ==> cmp(e, s[j]) < 0
    ensures Ties(s, x, cmp) == []
  {
    if s != [] {
      var h := s[0];
      assert cmp(x, e) == 0 && cmp(h, e) > 0;
      assert cmp(h, x) <= 0 ==> cmp(h, e) <= 0;
      NoTiesAbove(e, s[1..], x, cmp);
    }
  }

  /** Inserting into a sorted list puts the new item after every item it
      ties with. */
  lemma {:induction false} InsertTies<T(!new)>(e: T, sorted: seq<T>, x: T, cmp: (T, T) -> Comparison)
    requires TotalPreorder(cmp) && SortedBy(sorted, cmp)
    ensures Ties(Insert(e, sorted, cmp), x, cmp) == Ties(sorted, x, cmp) + Ties([e], x, cmp)
  {
    if sorted == [] {
      assert Insert(e, sorted, cmp) == [e];
    } else if cmp(e, sorted[0]) < 0 {
      InsertTiesFront(e, sorted, x, cmp);
    } else {
      SortedTail(sorted, cmp);
      InsertTies(e, sorted[1..], x, cmp);
      InsertTiesSkip(e, sorted, x, cmp);
    }
  }

  /** An item inserted past the head of `sorted` keeps the head's ties in
      front of the ties of the rest. */
  lemma InsertTiesSkip<T>(e: T, sorted: seq<T>, x: T, cmp: (T, T) -> Comparison)
    requires sorted != [] && cmp(e, sorted[0]) >= 0
    requires Ties(Insert(e, sorted[1..], cmp), x, cmp) == Ties(sorted[1..], x, cmp) + Ties([e], x, cmp)
    ensures Ties(Insert(e, sorted, cmp), x, cmp) == Ties(sorted, x, cmp) + Ties([e], x, cmp)
  {
    var h, tail := [sorted[0]], sorted[1..];
    var rest := Insert(e, tail, cmp);
    InsertPastHead(e, sorted, cmp);
    TiesAppend(h, rest, x, cmp);
    assert h + tail == sorted;
    TiesAppend(h, tail, x, cmp);
    var a, b, c := Ties(h, x, cmp), Ties(tail, x, cmp), Ties([e], x, cmp);
    assert a + (b + c) == (a + b) + c;
  }

  lemma InsertPastHead<T>(e: T, sorted: seq<T>, cmp: (T, T) -> Comparison)
    requires sorted != [] && cmp(e, sorted[0]) >= 0
    ensures Insert(e, sorted, cmp) == [sorted[0]] + Insert(e, sorted[1..], cmp)
  {
  }

  lemma SortedTail<T>(s: seq<T>, cmp: (T, T) -> Comparison)
    requires s != [] && SortedBy(s, cmp)
    ensures SortedBy(s[1..], cmp)
  {
    forall i, j | 0 <= i < j < |s| - 1 ensures cmp(s[1..][i], s[1..][j]) <= 0 {
      assert s[1..][i] == s[i + 1] && s[1..][j] == s[j + 1];
    }
  }

  /** An item placed in front of a sorted list it is below ties with
      nothing in it. */
  lemma InsertTiesFront<T(!new)>(e: T, sorted: seq<T>, x: T, cmp: (T, T) -> Comparison)
    requires TotalPreorder(cmp) && SortedBy(sorted, cmp)
    requires sorted != [] && cmp(e, sorted[0]) < 0
    ensures Ties([e] + sorted, x, cmp) == Ties(sorted, x, cmp) + Ties([e], x, cmp)
  {
    TiesAppend([e], sorted, x, cmp);
    if cmp(e, x) == 0 {
      forall j | 0 <= j < |sorted| ensures cmp(e, sorted[j]) < 0 {
        assert cmp(sorted[0], sorted[j]) <= 0 || j == 0;
        assert cmp(e, sorted[j]) <= 0;
      }
      NoTiesAbove(e, sorted, x, cmp);
    }
  }

  /** The sort is stable: the items tied with any `x` come out in the
      order they went in. */
  lemma {:induction false} SortByStable<T(!new)>(s: seq<T>, x: T, cmp: (T, T) -> Comparison)
    requires TotalPreorder(cmp)
    ensures Ties(SortBy(s, cmp), x, cmp) == Ties(s, x, cmp)
  {
    if s != [] {
      var last := |s| - 1;
      SortByStable(s[..last], x, cmp);
      InsertTies(s[last], SortBy(s[..last], cmp), x, cmp);
      assert s == s[..last] + [s[last]];
      TiesAppend(s[..last], [s[last]], x, cmp);
    }
  }

  /** The comparison `sorted_nodenames` sorts with. */
  function NameOrder(hex: bool): (string, string) -> Comparison {
    (a: string, b: string) => CompareNames(a, b, hex)
  }

  /** `sorted_nodenames(nodenames, sort_hex)`: the names rearranged so that
      each compares no greater than every later one in the natural order. */
  function SortedNodenames(names: seq<string>, hex: bool): (r: seq<string>)
    ensures multiset(r) == multiset(names)
    ensures forall i, j :: 0 <= i < j < |r| ==> CompareNames(r[i], r[j], hex) <= 0
  {
    NamesTotalPreorder(hex);
    SortBy(names, NameOrder(hex))
  }

  /** Names that compare equal in the natural order, such as "bb01" and
      "bb1", keep their input order, as Python's stable `sorted` keeps it. */
  lemma SortedNodenamesStable(names: seq<string>, hex: bool, x: string)
    ensures Ties(SortedNodenames(names, hex), x, NameOrder(hex)) == Ties(names, x, NameOrder(hex))
  {
    NamesTotalPreorder(hex);
    SortByStable(names, x, NameOrder(hex));
  }

  lemma TokensOf(prefix: string, digits: string, value: nat)
    requires prefix != [] && digits != []
    requires forall k :: 0 <= k < |prefix| ==> !IsDigit(prefix[k])
    requires AllDigits(digits) && RunValue(digits, false) == value
    ensures Tokens(prefix + digits, false) == [Word(prefix), Number(value)]
  {
    var s := prefix + digits;
    assert !Numeric(s[0], false);
    var n := RunLength(s, false, false);
    assert n <= |prefix| by {
      if n > |prefix| { assert Numeric(s[|prefix|], false); }
    }
    assert s[..n] == prefix && s[n..] == digits;
    assert Numeric(digits[0], false);
    var m := RunLength(digits, false, true);
    assert digits[..m] == digits && digits[m..] == [];
    assert Runs(digits, false) == [digits];
    assert Runs(s, false) == [prefix, digits];
  }

  /** Digit runs compare as numbers: "bb1" < "bb2" < "bb10". */
  lemma NodenamesCompareExample()
    ensures CompareNames("bb2", "bb10", false) == -1 && CompareNames("bb1", "bb2", false) == -1
  {
    Bb10Tokens();
    Bb2Tokens();
    Bb1Tokens();
    LexNumbers(2, 10);
    LexNumbers(1, 2);
  }

  lemma Bb10Tokens()
    ensures Tokens("bb10", false) == [Word("bb"), Number(10)]
  {
    assert RunValue("10", false) == 10;
    assert "bb" + "10" == "bb10";
    TokensOf("bb", "10", 10);
  }

  lemma Bb2Tokens()
    ensures Tokens("bb2", false) == [Word("bb"), Number(2)]
  {
    assert "bb" + "2" == "bb2";
    TokensOf("bb", "2", 2);
  }

  lemma Bb1Tokens()
    ensures Tokens("bb1", false) == [Word("bb"), Number(1)]
  {
    assert "bb" + "1" == "bb1";
    TokensOf("bb", "1", 1);
  }

  lemma LexNumbers(x: nat, y: nat)
    requires x < y
    ensures Lex([Word("bb"), Number(x)], [Word("bb"), Number(y)], CompareToken) == -1
  {
    var t, u := [Word("bb"), Number(x)], [Word("bb"), Number(y)];
    assert t[1..] == [Number(x)] && u[1..] == [Number(y)];
    assert Lex(t[1..], u[1..], CompareToken) == -1;
  }

  /** "bb01" and "bb1" tie, so sorting leaves them in the order given. */
  lemma TiedNamesKeepOrder()
    ensures SortedNodenames(["bb01", "bb1"], false) == ["bb01", "bb1"]
    ensures SortedNodenames(["bb1", "bb01"], false) == ["bb1", "bb01"]
  {
    Bb01Ties();
    NamesTotalPreorder(false);
    SortTiedTwo("bb01", "bb1", NameOrder(false));
    SortTiedTwo("bb1", "bb01", NameOrder(false));
  }

  lemma Bb01Ties()
    ensures NameOrder(false)("bb01", "bb1") == 0 && NameOrder(false)("bb1", "bb01") == 0
  {
    Bb1Tokens();
    assert RunValue("01", false) == 1;
    assert "bb" + "01" == "bb01";
    TokensOf("bb", "01", 1);
    LexSelf([Word("bb"), Number(1)], CompareToken);
  }

  lemma {:induction false} LexSelf<T>(t: seq<T>, cmp: (T, T) -> Comparison)
    ensures Lex(t, t, cmp) == 0
  {
    if t != [] {
      LexSelf(t[1..], cmp);
    }
  }

  /** Sorting two tied items keeps them as they are. */
  lemma SortTiedTwo<T(!new)>(a: T, b: T, cmp: (T, T) -> Comparison)
    requires TotalPreorder(cmp) && cmp(b, a) == 0
    ensures SortBy([a, b], cmp) == [a, b]
  {
    assert [a][..0] == [];
    SortByLast([a], cmp);
    assert [a, b][..1] == [a];
    SortByLast([a, b], cmp);
  }

  /** "bb1", "bb2", "bb10" listed backwards come out in numeric order. */
  lemma NodenamesExample()
    ensures SortedNodenames(["bb10", "bb2", "bb1"], false) == ["bb1", "bb2", "bb10"]
  {
    NodenamesCompareExample();
    var cmp := (a: string, b: string) => CompareNames(a, b, false);
    NamesTotalPreorder(false);
    assert cmp("bb2", "bb10") == -1 && cmp("bb1", "bb2") == -1;
    SortReversedThree("bb10", "bb2", "bb1", cmp);
  }

  /** Sorting three items given in strictly decreasing order reverses them. */
  lemma SortReversedThree<T(!new)>(a: T, b: T, c: T, cmp: (T, T) -> Comparison)
    requires TotalPreorder(cmp)
    requires cmp(b, a) < 0 && cmp(c, b) < 0
    ensures SortBy([a, b, c], cmp) == [c, b, a]
  {
    SortReversedTwo(a, b, cmp);
    assert [a, b, c][..2] == [a, b];
    SortByLast([a, b, c], cmp);
    InsertFront(c, [b, a], cmp);
  }

  lemma SortReversedTwo<T(!new)>(a: T, b: T, cmp: (T, T) -> Comparison)
    requires TotalPreorder(cmp) && cmp(b, a) < 0
    ensures SortBy([a, b], cmp) == [b, a]
  {
    assert [a][..0] == [];
    SortByLast([a], cmp);
    assert [a, b][..1] == [a];
    SortByLast([a, b], cmp);
    InsertFront(b, [a], cmp);
  }

  lemma SortByLast<T(!new)>(s: seq<T>, cmp: (T, T) -> Comparison)
    requires TotalPreorder(cmp) && s != []
    ensures SortBy(s, cmp) == Insert(s[|s| - 1], SortBy(s[..|s| - 1], cmp), cmp)
  {
  }

  lemma InsertFront<T>(x: T, s: seq<T>, cmp: (T, T) -> Comparison)
    requires s != [] && cmp(x, s[0]) < 0
    ensures Insert(x, s, cmp) == [x] + s
  {
  }
}
