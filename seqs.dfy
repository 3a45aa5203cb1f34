/**
 * Generic sequence operations that stand for the SQL the core relies on:
 * WHERE (Filter), LIMIT 1 / rows[0] (Find), ORDER BY key LIMIT n (SelectTop),
 * COUNT(*) (Count), and decimal printing of numbers.
 */
module Seqs {
  import opened Wrappers

  function Min(a: int, b: int): int { if a <= b then a else b }

  /** The rows of `s` that satisfy `p`, in their original order (SQL WHERE). */
  function Filter<T(!new)>(s: seq<T>, p: T -> bool): (r: seq<T>)
    ensures |r| <= |s|
    ensures forall x :: x in r <==> x in s && p(x)
  {
    if s == [] then []
    else
      assert s == [s[0]] + s[1..];
      if p(s[0]) then [s[0]] + Filter(s[1..], p) else Filter(s[1..], p)
  }

  /** Filtering a list with a head decides the head, then filters the rest. */
  lemma FilterCons<T(!new)>(x: T, s: seq<T>, p: T -> bool)
    ensures Filter([x] + s, p) == if p(x) then [x] + Filter(s, p) else Filter(s, p)
  {
    assert ([x] + s)[0] == x && ([x] + s)[1..] == s;
  }

  /** Filtering a three-element list keeps the survivors in their order. */
  lemma FilterThree<T(!new)>(a: T, b: T, c: T, p: T -> bool)
    ensures Filter([a, b, c], p) == (if p(a) then [a] else []) + (if p(b) then [b] else []) + (if p(c) then [c] else [])
  {
    assert [a, b, c] == [a] + ([b] + [c]);
    assert [c] == [c] + [];
    FilterCons(c, [], p);
    FilterCons(b, [c], p);
    FilterCons(a, [b] + [c], p);
  }

  /** Number of rows satisfying `p` (SQL COUNT(*) ... WHERE). */
  function Count<T(!new)>(s: seq<T>, p: T -> bool): (n: nat)
    ensures n <= |s|
    ensures n == 0 <==> forall x :: x in s ==> !p(x)
  {
    if s == [] then 0 else (if p(s[0]) then 1 else 0) + Count(s[1..], p)
  }

  /** Counting the rows that satisfy `p` is taking the length of their filter. */
  lemma {:induction false} CountIsFilter<T(!new)>(s: seq<T>, p: T -> bool)
    ensures Count(s, p) == |Filter(s, p)|
  {
    if s != [] {
      CountIsFilter(s[1..], p);
    }
  }

  /** The first row satisfying `p` (`rows[0]` of a query, or a primary-key lookup). */
  function Find<T(!new)>(s: seq<T>, p: T -> bool): (r: Option<T>)
    ensures r.Some? ==> r.value in s && p(r.value)
    ensures r.None? <==> forall x :: x in s ==> !p(x)
  {
    if s == [] then None else if p(s[0]) then Some(s[0]) else Find(s[1..], p)
  }

  /** No two rows share a key (a UNIQUE constraint). */
  ghost predicate UniqueBy<T, K>(s: seq<T>, key: T -> K) {
    forall i, j :: 0 <= i < j < |s| ==> key(s[i]) != key(s[j])
  }

  /** Deleting rows keeps a UNIQUE constraint. */
  lemma {:induction false} FilterKeepsUnique<T(!new), K>(s: seq<T>, p: T -> bool, key: T -> K)
    requires UniqueBy(s, key)
    ensures UniqueBy(Filter(s, p), key)
  {
    if s != [] {
      var tail := s[1..];
      assert UniqueBy(tail, key) by {
        forall i, j | 0 <= i < j < |tail| ensures key(tail[i]) != key(tail[j]) {
          assert tail[i] == s[i + 1] && tail[j] == s[j + 1];
        }
      }
      FilterKeepsUnique(tail, p, key);
      var rest := Filter(tail, p);
      if p(s[0]) {
        var r := [s[0]] + rest;
        forall i, j | 0 <= i < j < |r| ensures key(r[i]) != key(r[j]) {
          if i == 0 {
            assert r[j] == rest[j - 1] && r[j] in tail;
            var k :| 0 <= k < |tail| && tail[k] == r[j];
            assert s[k + 1] == r[j];
          } else {
            assert r[i] == rest[i - 1] && r[j] == rest[j - 1];
          }
        }
      }
    }
  }

  ghost predicate SortedBy<T>(s: seq<T>, key: T -> int) {
    forall i, j :: 0 <= i < j < |s| ==> key(s[i]) <= key(s[j])
  }

  /** Inserts `x` before the first element whose key is not smaller (keeps ties stable). */
  function Insert<T(!new)>(x: T, s: seq<T>, key: T -> int): (r: seq<T>)
    requires SortedBy(s, key)
    ensures |r| == |s| + 1
    ensures SortedBy(r, key)
    ensures multiset(r) == multiset(s) + multiset{x}
  {
    if s == [] then [x]
    else if key(x) <= key(s[0]) then [x] + s
    else
      var rest := Insert(x, s[1..], key);
      InsertHead(x, s, rest, key);
      [s[0]] + rest
  }

  lemma InsertHead<T(!new)>(x: T, s: seq<T>, rest: seq<T>, key: T -> int)
    requires s != [] && SortedBy(s, key) && key(s[0]) < key(x)
    requires SortedBy(rest, key) && multiset(rest) == multiset(s[1..]) + multiset{x}
    ensures SortedBy([s[0]] + rest, key)
    ensures multiset([s[0]] + rest) == multiset(s) + multiset{x}
  {
    assert s == [s[0]] + s[1..];
    forall j | 0 <= j < |rest| ensures key(s[0]) <= key(rest[j]) {
      assert rest[j] in multiset(rest);
      if rest[j] != x {
        assert rest[j] in multiset(s[1..]);
        var i :| 0 <= i < |s[1..]| && s[1..][i] == rest[j];
        assert s[i + 1] == rest[j];
      }
    }
    var r := [s[0]] + rest;
    forall i, j | 0 <= i < j < |r| ensures key(r[i]) <= key(r[j]) {
      if i > 0 { assert r[i] == rest[i - 1] && r[j] == rest[j - 1]; }
      else { assert r[j] == rest[j - 1]; }
    }
  }

  /** A stable sort on an integer key (SQL ORDER BY key ASC). */
  function SortByKey<T(!new)>(s: seq<T>, key: T -> int): (r: seq<T>)
    ensures |r| == |s|
    ensures SortedBy(r, key)
    ensures multiset(r) == multiset(s)
  {
    if s == [] then []
    else
      assert s == [s[0]] + s[1..];
      Insert(s[0], SortByKey(s[1..], key), key)
  }

  /** A prefix of a permutation of `s` is drawn from `s`. */
  lemma PrefixDrawn<T>(s: seq<T>, sorted: seq<T>, k: nat)
    requires multiset(sorted) == multiset(s) && k <= |sorted|
    ensures multiset(sorted[..k]) <= multiset(s)
    ensures forall x :: x in sorted[..k] ==> x in s
  {
    assert sorted == sorted[..k] + sorted[k..];
    forall x | x in sorted[..k] ensures x in s {
      assert x in multiset(sorted);
    }
  }

  /** A prefix of a sorted permutation of `s` holds its smallest keys. */
  lemma {:induction false} PrefixBound<T(!new)>(s: seq<T>, sorted: seq<T>, key: T -> int, k: nat)
    requires SortedBy(sorted, key) && multiset(sorted) == multiset(s) && k <= |sorted|
    ensures forall y, x :: y in sorted[..k] && x in multiset(s) - multiset(sorted[..k]) ==> key(y) <= key(x)
  {
    var p := sorted[..k];
    assert sorted == p + sorted[k..];
    assert multiset(s) - multiset(p) == multiset(sorted[k..]);
    forall y, x | y in p && x in multiset(s) - multiset(p)
      ensures key(y) <= key(x)
    {
      assert x in sorted[k..];
      var i :| 0 <= i < k && p[i] == y;
      var j :| 0 <= j < |sorted| - k && sorted[k..][j] == x;
      assert sorted[i] == y && sorted[k + j] == x;
    }
  }

  /**
   * `ORDER BY key ASC LIMIT n`: the `n` rows of `s` with the smallest keys, in
   * ascending key order. Rows with equal keys keep their order in `s`, which
   * stands for the database's unspecified tie-break.
   */
  function SelectTop<T(!new)>(s: seq<T>, key: T -> int, n: nat): (r: seq<T>)
    ensures |r| == Min(n, |s|)
    ensures SortedBy(r, key)
    ensures multiset(r) <= multiset(s)
    ensures forall x :: x in r ==> x in s
    ensures forall y, x :: y in r && x in multiset(s) - multiset(r) ==> key(y) <= key(x)
  {
    var sorted := SortByKey(s, key);
    PrefixDrawn(s, sorted, Min(n, |s|));
    PrefixBound(s, sorted, key, Min(n, |s|));
    sorted[..Min(n, |s|)]
  }

  /** Position `i * n + j` of an `m` by `n` table laid out row by row is inside it. */
  lemma {:induction false} RowMajor(i: int, j: int, m: nat, n: nat)
    requires 0 <= i < m && 0 <= j < n
    ensures 0 <= i * n + j < m * n
    ensures i > 0 ==> i * n + j == n + ((i - 1) * n + j)
    decreases m
  {
    assert m * n == (m - 1) * n + n;
    if i < m - 1 {
      RowMajor(i, j, m - 1, n);
    }
  }

  function Digit(d: nat): (c: char)
    requires d < 10
    ensures '0' <= c <= '9' && (c as int) - ('0' as int) == d
  {
    ('0' as int + d) as char
  }

  ghost predicate AllDigits(s: string) {
    forall i :: 0 <= i < |s| ==> '0' <= s[i] <= '9'
  }

  /** JavaScript's decimal rendering of a non-negative integer (no leading zeros). */
  function DecimalString(n: nat): (r: string)
    ensures |r| >= 1 && AllDigits(r)
    decreases n
  {
    if n < 10 then [Digit(n)] else DecimalString(n / 10) + [Digit(n % 10)]
  }

  /** Reads a run of decimal digits back as a number. */
  function ParseDecimal(s: string): nat
    requires AllDigits(s)
  {
    if s == [] then 0
    else ParseDecimal(s[..|s| - 1]) * 10 + ((s[|s| - 1] as int) - ('0' as int))
  }

  lemma {:induction false} DecimalRoundTrip(n: nat)
    ensures ParseDecimal(DecimalString(n)) == n
    decreases n
  {
    if n >= 10 {
      DecimalRoundTrip(n / 10);
      var s := DecimalString(n);
      assert s[..|s| - 1] == DecimalString(n / 10);
    }
  }

  /** The longest prefix of `s` made of decimal digits. */
  function LeadingDigits(s: string): (r: string)
    ensures AllDigits(r) && |r| <= |s| && r == s[..|r|]
  {
    if s != [] && '0' <= s[0] <= '9' then [s[0]] + LeadingDigits(s[1..]) else []
  }

  lemma {:induction false} LeadingDigitsOf(d: string, rest: string)
    requires AllDigits(d)
    requires rest != [] && !('0' <= rest[0] <= '9')
    ensures LeadingDigits(d + rest) == d
  {
    if d != [] {
      assert (d + rest)[1..] == d[1..] + rest;
      LeadingDigitsOf(d[1..], rest);
    } else {
      assert d + rest == rest;
    }
  }
}
