/**
 * The order `Array.prototype.sort` puts object keys in when it is given no
 * comparator: strings compared as sequences of UTF-16 code units.
 *
 * A Dafny `char` is a Unicode scalar value, so the order is stated per
 * character by a rank: characters below U+D800 keep their value, characters
 * outside the Basic Multilingual Plane (encoded as a surrogate pair, whose
 * first unit lies in D800-DBFF) come next, and the characters E000-FFFF come
 * last, above every surrogate.
 */
module CodeUnitOrder {

  function Rank(c: char): int
  {
    var n := c as int;
    if n < 0xD800 then n
    else if n < 0x1_0000 then n + 0x10_0000
    else n - 0x1_0000 + 0xD800
  }

  /** The UTF-16 encoding of one character. */
  function Utf16(c: char): seq<int>
  {
    var n := c as int;
    if n < 0x1_0000 then [n]
    else [0xD800 + (n - 0x1_0000) / 0x400, 0xDC00 + (n - 0x1_0000) % 0x400]
  }

  /** Lexicographic order on code-unit sequences (a proper prefix comes first). */
  predicate UnitsBelow(a: seq<int>, b: seq<int>)
  {
    if a == [] then b != []
    else if b == [] then false
    else if a[0] == b[0] then UnitsBelow(a[1..], b[1..])
    else a[0] < b[0]
  }

  /** Ranks order characters exactly as their UTF-16 encodings are ordered. */
  lemma RankIsUtf16Order(c: char, d: char)
    ensures Rank(c) < Rank(d) <==> UnitsBelow(Utf16(c), Utf16(d))
    ensures Rank(c) == Rank(d) <==> c == d
  {
    var n, m := c as int, d as int;
    if n >= 0x1_0000 && m >= 0x1_0000 {
      var p, q := n - 0x1_0000, m - 0x1_0000;
      assert p == 0x400 * (p / 0x400) + p % 0x400;
      assert q == 0x400 * (q / 0x400) + q % 0x400;
      var u, w := Utf16(c), Utf16(d);
      if p / 0x400 == q / 0x400 {
        assert u[0] == w[0];
        assert u[1..] == [0xDC00 + p % 0x400] && w[1..] == [0xDC00 + q % 0x400];
        assert UnitsBelow(u, w) == UnitsBelow(u[1..], w[1..]);
        assert UnitsBelow(u[1..], w[1..]) == (p % 0x400 < q % 0x400);
      } else {
        assert u[0] != w[0];
        assert UnitsBelow(u, w) == (p / 0x400 < q / 0x400);
      }
    }
  }

  /** `a < b` in code-unit order. */
  predicate Below(a: string, b: string)
  {
    if a == [] then b != []
    else if b == [] then false
    else if a[0] == b[0] then Below(a[1..], b[1..])
    else Rank(a[0]) < Rank(b[0])
  }

  lemma {:induction false} BelowIrreflexive(a: string)
    ensures !Below(a, a)
  {
    if a != [] {
      BelowIrreflexive(a[1..]);
    }
  }

  lemma {:induction false} BelowAsymmetric(a: string, b: string)
    requires Below(a, b)
    ensures !Below(b, a)
  {
    if a != [] && b != [] && a[0] == b[0] {
      BelowAsymmetric(a[1..], b[1..]);
    }
  }

  lemma {:induction false} BelowTransitive(a: string, b: string, c: string)
    requires Below(a, b) && Below(b, c)
    ensures Below(a, c)
  {
    if a != [] && a[0] == b[0] && b[0] == c[0] {
      BelowTransitive(a[1..], b[1..], c[1..]);
    }
  }

  lemma {:induction false} BelowTotal(a: string, b: string)
    requires a != b
    ensures Below(a, b) || Below(b, a)
  {
    if a != [] && b != [] {
      if a[0] == b[0] {
        assert a == [a[0]] + a[1..] && b == [b[0]] + b[1..];
        BelowTotal(a[1..], b[1..]);
      } else {
        RankIsUtf16Order(a[0], b[0]);
      }
    }
  }

  /** The UTF-16 encoding of a string: the encodings of its characters, in order. */
  function Utf16s(s: string): seq<int>
  {
    if s == [] then [] else Utf16(s[0]) + Utf16s(s[1..])
  }

  /** A common prefix does not decide a comparison. */
  lemma {:induction false} UnitsBelowCommonPrefix(p: seq<int>, x: seq<int>, y: seq<int>)
    ensures UnitsBelow(p + x, p + y) == UnitsBelow(x, y)
  {
    if p != [] {
      assert (p + x)[1..] == p[1..] + x;
      assert (p + y)[1..] == p[1..] + y;
      UnitsBelowCommonPrefix(p[1..], x, y);
    } else {
      assert p + x == x && p + y == y;
    }
  }

  /**
   * Two unit sequences that first differ at a position inside both compare
   * as their units there, whatever is appended to either.
   */
  lemma {:induction false} UnitsBelowAtDifference(p: seq<int>, q: seq<int>, x: seq<int>, y: seq<int>, i: nat)
    requires i < |p| && i < |q| && p[i] != q[i] && p[..i] == q[..i]
    ensures UnitsBelow(p + x, q + y) == (p[i] < q[i])
    ensures UnitsBelow(p, q) == (p[i] < q[i])
  {
    if i > 0 {
      assert p[0] == p[..i][0] == q[..i][0] == q[0];
      assert (p + x)[1..] == p[1..] + x;
      assert (q + y)[1..] == q[1..] + y;
      assert p[1..][..i - 1] == p[..i][1..] == q[..i][1..] == q[1..][..i - 1];
      UnitsBelowAtDifference(p[1..], q[1..], x, y, i - 1);
    }
  }

  /**
   * UTF-16 is prefix-free: the encodings of two different characters first
   * differ inside both, so what follows them never decides their order.
   */
  lemma Utf16Decides(c: char, d: char, x: seq<int>, y: seq<int>)
    requires c != d
    ensures UnitsBelow(Utf16(c) + x, Utf16(d) + y) == UnitsBelow(Utf16(c), Utf16(d))
  {
    var u, w := Utf16(c), Utf16(d);
    if u[0] != w[0] {
      UnitsBelowAtDifference(u, w, x, y, 0);
    } else {
      var n, m := c as int, d as int;
      assert n >= 0x1_0000 && m >= 0x1_0000;
      var p, q := n - 0x1_0000, m - 0x1_0000;
      assert p == 0x400 * (p / 0x400) + p % 0x400;
      assert q == 0x400 * (q / 0x400) + q % 0x400;
      assert u[1] != w[1];
      assert u[..1] == w[..1];
      UnitsBelowAtDifference(u, w, x, y, 1);
    }
  }

  /** The order `Below` is exactly the code-unit comparison of the strings' UTF-16 encodings. */
  lemma {:induction false} BelowIsUtf16Order(a: string, b: string)
    ensures Below(a, b) <==> UnitsBelow(Utf16s(a), Utf16s(b))
  {
    if a != [] && b != [] {
      if a[0] == b[0] {
        UnitsBelowCommonPrefix(Utf16(a[0]), Utf16s(a[1..]), Utf16s(b[1..]));
        BelowIsUtf16Order(a[1..], b[1..]);
      } else {
        Utf16Decides(a[0], b[0], Utf16s(a[1..]), Utf16s(b[1..]));
        RankIsUtf16Order(a[0], b[0]);
      }
    }
  }

  /** Ascending, equal neighbours allowed. */
  predicate Sorted(ks: seq<string>)
  {
    forall i, j :: 0 <= i < j < |ks| ==> !Below(ks[j], ks[i])
  }

  predicate StrictlySorted(ks: seq<string>)
  {
    forall i, j :: 0 <= i < j < |ks| ==> Below(ks[i], ks[j])
  }

  predicate Distinct(ks: seq<string>)
  {
    forall i, j :: 0 <= i < j < |ks| ==> ks[i] != ks[j]
  }

  function Insert(k: string, ks: seq<string>): (r: seq<string>)
    ensures multiset(r) == multiset(ks) + multiset{k}
  {
    if ks == [] then [k]
    else if Below(ks[0], k) then
      assert ks == [ks[0]] + ks[1..];
      [ks[0]] + Insert(k, ks[1..])
    else [k] + ks
  }

  /** `keys.sort()` with the default comparator. */
  function SortKeys(ks: seq<string>): (r: seq<string>)
    ensures multiset(r) == multiset(ks)
  {
    if ks == [] then []
    else
      assert ks == [ks[0]] + ks[1..];
      Insert(ks[0], SortKeys(ks[1..]))
  }

  lemma {:induction false} InsertSorted(k: string, ks: seq<string>)
    requires Sorted(ks)
    ensures Sorted(Insert(k, ks))
  {
    var r := Insert(k, ks);
    if ks != [] {
      if Below(ks[0], k) {
        InsertSorted(k, ks[1..]);
        var t := Insert(k, ks[1..]);
        assert r == [ks[0]] + t;
        forall j | 0 < j < |r|
          ensures !Below(r[j], r[0])
        {
          assert r[j] in multiset(t);
          if r[j] == k {
            BelowAsymmetric(ks[0], k);
          } else {
            assert r[j] in multiset(ks[1..]);
            var m :| 0 <= m < |ks[1..]| && ks[1..][m] == r[j];
            assert ks[m + 1] == r[j];
          }
        }
      } else {
        forall j | 0 < j < |r|
          ensures !Below(r[j], r[0])
        {
          assert r[j] == ks[j - 1];
          if j - 1 > 0 && ks[j - 1] != ks[0] {
            BelowTotal(ks[j - 1], ks[0]);
            if Below(ks[j - 1], k) {
              BelowTransitive(ks[0], ks[j - 1], k);
            }
          }
        }
      }
    }
  }

  lemma {:induction false} SortKeysSorted(ks: seq<string>)
    ensures Sorted(SortKeys(ks))
  {
    if ks != [] {
      SortKeysSorted(ks[1..]);
      InsertSorted(ks[0], SortKeys(ks[1..]));
    }
  }

  lemma {:induction false} SortKeysDistinct(ks: seq<string>)
    requires Distinct(ks)
    ensures Distinct(SortKeys(ks))
  {
    if ks != [] {
      var t := SortKeys(ks[1..]);
      SortKeysDistinct(ks[1..]);
      assert ks[0] !in multiset(ks[1..]);
      InsertDistinct(ks[0], t);
    }
  }

  lemma {:induction false} InsertDistinct(k: string, ks: seq<string>)
    requires Distinct(ks) && k !in multiset(ks)
    ensures Distinct(Insert(k, ks))
  {
    var r := Insert(k, ks);
    if ks != [] && Below(ks[0], k) {
      InsertDistinct(k, ks[1..]);
      forall j | 0 < j < |r|
        ensures r[j] != r[0]
      {
        assert r[j] in multiset(Insert(k, ks[1..]));
        if r[j] != k {
          assert r[j] in multiset(ks[1..]);
          var m :| 0 <= m < |ks[1..]| && ks[1..][m] == r[j];
          assert ks[m + 1] == r[j];
        }
      }
    } else if ks != [] {
      forall j | 0 < j < |r|
        ensures r[j] != r[0]
      {
        assert r[j] == ks[j - 1];
        assert r[j] in multiset(ks);
      }
    }
  }

  lemma SortedDistinctIsStrict(ks: seq<string>)
    requires Sorted(ks) && Distinct(ks)
    ensures StrictlySorted(ks)
  {
    forall i, j | 0 <= i < j < |ks|
      ensures Below(ks[i], ks[j])
    {
      BelowTotal(ks[i], ks[j]);
    }
  }

  /** Sorting distinct keys gives them in strictly ascending code-unit order. */
  lemma SortKeysStrict(ks: seq<string>)
    requires Distinct(ks)
    ensures StrictlySorted(SortKeys(ks))
  {
    SortKeysSorted(ks);
    SortKeysDistinct(ks);
    SortedDistinctIsStrict(SortKeys(ks));
  }

  /** The head of a strictly ascending sequence is below every other element. */
  lemma HeadBelow(a: seq<string>, x: string)
    requires StrictlySorted(a) && x in a && x != a[0]
    ensures Below(a[0], x)
  {
    var i :| 0 <= i < |a| && a[i] == x;
  }

  /** A finite collection of strings has exactly one strictly ascending listing. */
  lemma {:induction false} StrictlySortedUnique(a: seq<string>, b: seq<string>)
    requires StrictlySorted(a) && StrictlySorted(b)
    requires multiset(a) == multiset(b)
    ensures a == b
  {
    if a != [] {
      assert a[0] in multiset(b);
      assert b[0] in multiset(a);
      if a[0] != b[0] {
        HeadBelow(a, b[0]);
        HeadBelow(b, a[0]);
        BelowAsymmetric(a[0], b[0]);
      } else {
        var x := a[0];
        assert a == [x] + a[1..] && b == [x] + b[1..];
        assert multiset(a[1..]) == multiset(a) - multiset{x};
        assert multiset(b[1..]) == multiset(b) - multiset{x};
        StrictlySortedUnique(a[1..], b[1..]);
      }
    }
  }
}
