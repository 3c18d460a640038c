/** Orderings used by `ORDER BY`, `sorted(...)` and `DISTINCT`: strings are
    compared code point by code point (SQLite's BINARY collation on UTF-8 and
    Python's `str` comparison agree on this order). */
module Ordering {

  /** `a < b` for strings, lexicographically. */
  predicate LexLess(a: string, b: string)
    decreases |a|
  {
    if |a| == 0 then |b| > 0
    else if |b| == 0 then false
    else if a[0] != b[0] then a[0] < b[0]
    else LexLess(a[1..], b[1..])
  }

  lemma {:induction false} LexLessIrreflexive(a: string)
    ensures !LexLess(a, a)
    decreases |a|
  {
    if |a| > 0 { LexLessIrreflexive(a[1..]); }
  }

  lemma {:induction false} LexLessTrichotomy(a: string, b: string)
    ensures a == b || LexLess(a, b) || LexLess(b, a)
    decreases |a|
  {
    if |a| > 0 && |b| > 0 && a[0] == b[0] {
      LexLessTrichotomy(a[1..], b[1..]);
      if a[1..] == b[1..] {
        assert a == [a[0]] + a[1..] && b == [b[0]] + b[1..];
      }
    }
  }

  lemma {:induction false} LexLessAsymmetric(a: string, b: string)
    requires LexLess(a, b)
    ensures !LexLess(b, a)
    decreases |a|
  {
    if |a| > 0 && |b| > 0 && a[0] == b[0] { LexLessAsymmetric(a[1..], b[1..]); }
  }

  lemma {:induction false} LexLessTransitive(a: string, b: string, c: string)
    requires LexLess(a, b) && LexLess(b, c)
    ensures LexLess(a, c)
    decreases |a|
  {
    if |a| > 0 && |b| > 0 && |c| > 0 && a[0] == b[0] && b[0] == c[0] {
      LexLessTransitive(a[1..], b[1..], c[1..]);
    }
  }

  /** Strictly ascending, hence also free of duplicates. */
  predicate StrictlySorted(s: seq<string>)
  {
    forall i, j :: 0 <= i < j < |s| ==> LexLess(s[i], s[j])
  }

  /** Insert `x` into a strictly sorted sequence unless it is already there. */
  function InsertDistinct(x: string, s: seq<string>): (r: seq<string>)
    requires StrictlySorted(s)
    ensures StrictlySorted(r)
    ensures forall y :: y in r <==> y == x || y in s
  {
    if |s| == 0 then [x]
    else if x == s[0] then s
    else if LexLess(x, s[0]) then
      assert forall j :: 0 < j < |s| ==> LexLess(x, s[j]) by {
        forall j | 0 < j < |s| ensures LexLess(x, s[j]) { LexLessTransitive(x, s[0], s[j]); }
      }
      [x] + s
    else
      LexLessTrichotomy(x, s[0]);
      var t := InsertDistinct(x, s[1..]);
      assert forall j :: 0 <= j < |t| ==> LexLess(s[0], t[j]) by {
        forall j | 0 <= j < |t| ensures LexLess(s[0], t[j]) {
          assert t[j] == x || t[j] in s[1..];
          if t[j] != x {
            var k :| 0 <= k < |s[1..]| && s[1..][k] == t[j];
            assert s[k + 1] == t[j];
          }
        }
      }
      [s[0]] + t
  }

  /** The distinct elements of `s` in ascending order: what
      `SELECT DISTINCT … ORDER BY …` and `sorted(set(s))` produce. */
  function SortedDistinct(s: seq<string>): (r: seq<string>)
    ensures StrictlySorted(r)
    ensures forall x :: x in r <==> x in s
  {
    if |s| == 0 then []
    else
      var r := InsertDistinct(s[|s| - 1], SortedDistinct(s[..|s| - 1]));
      assert forall x :: x in s <==> x in s[..|s| - 1] || x == s[|s| - 1] by {
        assert s == s[..|s| - 1] + [s[|s| - 1]];
      }
      r
  }

  /** A strictly sorted sequence has no repeated element. */
  lemma StrictlySortedDistinct(s: seq<string>, i: nat, j: nat)
    requires StrictlySorted(s) && i < j < |s|
    ensures s[i] != s[j]
  {
    LexLessIrreflexive(s[i]);
  }

  /** Non-decreasing by an integer key. */
  predicate SortedByKey<T>(s: seq<T>, key: T -> int)
  {
    forall i, j :: 0 <= i < j < |s| ==> key(s[i]) <= key(s[j])
  }

  /** Insert `x` before the first element whose key is at least `key(x)`. */
  function InsertByKey<T>(x: T, s: seq<T>, key: T -> int): (r: seq<T>)
    ensures multiset(r) == multiset(s) + multiset{x}
    ensures |r| == |s| + 1
  {
    if |s| == 0 then [x]
    else if key(x) <= key(s[0]) then [x] + s
    else
      assert s == [s[0]] + s[1..];
      [s[0]] + InsertByKey(x, s[1..], key)
  }

  lemma {:induction false} InsertByKeySorted<T>(x: T, s: seq<T>, key: T -> int)
    requires SortedByKey(s, key)
    ensures SortedByKey(InsertByKey(x, s, key), key)
  {
    if |s| == 0 {
    } else if key(x) <= key(s[0]) {
      assert InsertByKey(x, s, key) == [x] + s;
    } else {
      var t := InsertByKey(x, s[1..], key);
      InsertByKeySorted(x, s[1..], key);
      assert s == [s[0]] + s[1..];
      forall j | 0 <= j < |t| ensures key(s[0]) <= key(t[j]) {
        assert t[j] in multiset(s[1..]) + multiset{x} by { assert t[j] in multiset(t); }
        if t[j] != x {
          assert t[j] in s[1..];
          var k :| 0 <= k < |s[1..]| && s[1..][k] == t[j];
          assert s[k + 1] == t[j];
        }
      }
      assert InsertByKey(x, s, key) == [s[0]] + t;
    }
  }

  /** Python's `sorted(s, key=key)`: a stable sort. */
  function SortByKey<T>(s: seq<T>, key: T -> int): (r: seq<T>)
    ensures SortedByKey(r, key)
    ensures multiset(r) == multiset(s)
    ensures |r| == |s|
  {
    if |s| == 0 then []
    else
      assert s == [s[0]] + s[1..];
      var t := SortByKey(s[1..], key);
      InsertByKeySorted(s[0], t, key);
      InsertByKey(s[0], t, key)
  }

  /** `a <= b` in code-point order. */
  predicate LexLessEq(a: string, b: string)
  {
    !LexLess(b, a)
  }

  lemma LexLessEqTransitive(a: string, b: string, c: string)
    requires LexLessEq(a, b) && LexLessEq(b, c)
    ensures LexLessEq(a, c)
  {
    if LexLess(c, a) {
      LexLessTrichotomy(a, b);
      if LexLess(a, b) { LexLessTransitive(c, a, b); }
    }
  }

  /** Non-decreasing by a text key (SQLite's `ORDER BY` on TEXT). */
  predicate SortedByText<T>(s: seq<T>, key: T -> string)
  {
    forall i, j :: 0 <= i < j < |s| ==> LexLessEq(key(s[i]), key(s[j]))
  }

  /** Insert `x` before the first element whose key is not below `key(x)`. */
  function InsertByText<T>(x: T, s: seq<T>, key: T -> string): (r: seq<T>)
    ensures multiset(r) == multiset(s) + multiset{x}
    ensures |r| == |s| + 1
  {
    if |s| == 0 then [x]
    else if LexLessEq(key(x), key(s[0])) then [x] + s
    else
      assert s == [s[0]] + s[1..];
      [s[0]] + InsertByText(x, s[1..], key)
  }

  lemma {:induction false} InsertByTextSorted<T>(x: T, s: seq<T>, key: T -> string)
    requires SortedByText(s, key)
    ensures SortedByText(InsertByText(x, s, key), key)
  {
    if |s| == 0 {
    } else if LexLessEq(key(x), key(s[0])) {
      forall j | 0 <= j < |s| ensures LexLessEq(key(x), key(s[j])) {
        if j > 0 { LexLessEqTransitive(key(x), key(s[0]), key(s[j])); }
      }
      assert InsertByText(x, s, key) == [x] + s;
    } else {
      var t := InsertByText(x, s[1..], key);
      InsertByTextSorted(x, s[1..], key);
      assert s == [s[0]] + s[1..];
      LexLessTrichotomy(key(x), key(s[0]));
      forall j | 0 <= j < |t| ensures LexLessEq(key(s[0]), key(t[j])) {
        assert t[j] in multiset(s[1..]) + multiset{x} by { assert t[j] in multiset(t); }
        if t[j] != x {
          assert t[j] in s[1..];
          var k :| 0 <= k < |s[1..]| && s[1..][k] == t[j];
          assert s[k + 1] == t[j];
        } else {
          LexLessAsymmetric(key(s[0]), key(x));
        }
      }
      assert InsertByText(x, s, key) == [s[0]] + t;
    }
  }

  /** Stable `sorted(s, key=key)` over a text key. */
  function SortByText<T>(s: seq<T>, key: T -> string): (r: seq<T>)
    ensures SortedByText(r, key)
    ensures multiset(r) == multiset(s)
    ensures |r| == |s|
  {
    if |s| == 0 then []
    else
      assert s == [s[0]] + s[1..];
      var t := SortByText(s[1..], key);
      InsertByTextSorted(s[0], t, key);
      InsertByText(s[0], t, key)
  }

  /** The smallest key in a non-empty sequence. */
  function MinKey<T>(s: seq<T>, key: T -> int): (m: int)
    requires |s| > 0
    ensures forall i :: 0 <= i < |s| ==> m <= key(s[i])
    ensures exists i :: 0 <= i < |s| && m == key(s[i])
  {
    if |s| == 1 then key(s[0])
    else
      var m := MinKey(s[1..], key);
      assert forall i :: 1 <= i < |s| ==> s[i] == s[1..][i - 1];
      if key(s[0]) <= m then key(s[0]) else m
  }

  /** The index of the first element whose key is the smallest. */
  function FirstMinIndex<T>(s: seq<T>, key: T -> int): (k: nat)
    requires |s| > 0
    ensures k < |s| && key(s[k]) == MinKey(s, key)
    ensures forall i :: 0 <= i < k ==> key(s[i]) > key(s[k])
  {
    if |s| == 1 || key(s[0]) <= MinKey(s[1..], key) then 0
    else
      var k := FirstMinIndex(s[1..], key);
      assert forall i :: 1 <= i <= k ==> s[i] == s[1..][i - 1];
      1 + k
  }

  /** Stability at the head: the first element of the stable sort is the
      first element of the input whose key is minimal. */
  lemma {:induction false} SortByKeyHead<T>(s: seq<T>, key: T -> int)
    requires |s| > 0
    ensures SortByKey(s, key)[0] == s[FirstMinIndex(s, key)]
  {
    if |s| > 1 {
      var t := SortByKey(s[1..], key);
      SortByKeyHead(s[1..], key);
      assert t[0] in multiset(s[1..]) by { assert t[0] in multiset(t); }
      forall i | 0 <= i < |s[1..]| ensures key(t[0]) <= key(s[1..][i]) {
        assert s[1..][i] in multiset(t);
        var j :| 0 <= j < |t| && t[j] == s[1..][i];
      }
      assert key(t[0]) == MinKey(s[1..], key);
    }
  }

  /** `list(s)`: the elements of a set, each once, in whatever order the
      set yields them. */
  method ListOf<T>(s: set<T>) returns (items: seq<T>)
    ensures |items| == |s| && forall x :: x in items <==> x in s
  {
    var rest := s;
    items := [];
    while rest != {}
      invariant rest <= s && |items| + |rest| == |s|
      invariant forall x :: x in items <==> x in s && x !in rest
      decreases |rest|
    {
      var x :| x in rest;
      items := items + [x];
      rest := rest - {x};
    }
  }

  /** `sorted(s)` for a set of strings: its elements, ascending. */
  method SortedSet(s: set<string>) returns (r: seq<string>)
    ensures StrictlySorted(r) && forall a :: a in r <==> a in s
  {
    var items := ListOf(s);
    r := SortedDistinct(items);
  }
}
