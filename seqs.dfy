/** Sequence helpers: filtering, counting and maxima. */
module Seqs {
  import opened Wrappers

  /** The elements of `s` that satisfy `keep`, in order. */
  function Filter<T(!new)>(s: seq<T>, keep: T -> bool): (r: seq<T>)
    ensures |r| <= |s|
    ensures forall x :: x in r <==> x in s && keep(x)
  {
    if |s| == 0 then []
    else
      var t := Filter(s[1..], keep);
      assert forall x :: x in s <==> x == s[0] || x in s[1..];
      if keep(s[0]) then [s[0]] + t else t
  }

  /** How many elements of `s` satisfy `p`. */
  function Count<T>(s: seq<T>, p: T -> bool): (n: nat)
    ensures n <= |s|
  {
    if |s| == 0 then 0 else (if p(s[0]) then 1 else 0) + Count(s[1..], p)
  }

  /** Keeping the elements that fail `p` drops exactly `Count(s, p)`. */
  lemma {:induction false} FilterOutCount<T(!new)>(s: seq<T>, keep: T -> bool, p: T -> bool)
    requires forall x :: keep(x) == !p(x)
    ensures |Filter(s, keep)| == |s| - Count(s, p)
  {
    if |s| > 0 { FilterOutCount(s[1..], keep, p); }
  }

  lemma {:induction false} CountAppend<T>(a: seq<T>, b: seq<T>, p: T -> bool)
    ensures Count(a + b, p) == Count(a, p) + Count(b, p)
  {
    if |a| == 0 {
      assert a + b == b;
    } else {
      assert (a + b)[1..] == a[1..] + b;
      CountAppend(a[1..], b, p);
    }
  }

  /** `max(s)`, or `None` for an empty sequence. */
  function MaxOpt(s: seq<int>): (r: Option<int>)
    ensures r.None? <==> |s| == 0
    ensures r.Some? ==> r.value in s && forall x :: x in s ==> x <= r.value
  {
    if |s| == 0 then None
    else
      var m := MaxOpt(s[1..]);
      assert forall x :: x in s <==> x == s[0] || x in s[1..];
      if m.None? || s[0] >= m.value then Some(s[0]) else m
  }

  /** Filtering twice keeps what both filters keep. */
  lemma {:induction false} FilterFilter<T(!new)>(s: seq<T>, a: T -> bool, b: T -> bool, both: T -> bool)
    requires forall x :: both(x) == (a(x) && b(x))
    ensures Filter(Filter(s, a), b) == Filter(s, both)
  {
    if |s| > 0 {
      FilterFilter(s[1..], a, b, both);
      if a(s[0]) {
        assert Filter(s, a) == [s[0]] + Filter(s[1..], a);
        assert ([s[0]] + Filter(s[1..], a))[1..] == Filter(s[1..], a);
      }
    }
  }

  /** Dropping what `p` selects and then what `q` selects from the rest
      drops, in all, what either selects. */
  lemma {:induction false} CountAfterFilter<T(!new)>(s: seq<T>, p: T -> bool, keep: T -> bool, q: T -> bool, either: T -> bool)
    requires forall x :: keep(x) == !p(x)
    requires forall x :: either(x) == (p(x) || q(x))
    ensures Count(s, p) + Count(Filter(s, keep), q) == Count(s, either)
  {
    if |s| > 0 {
      CountAfterFilter(s[1..], p, keep, q, either);
      if keep(s[0]) {
        assert Filter(s, keep) == [s[0]] + Filter(s[1..], keep);
        assert ([s[0]] + Filter(s[1..], keep))[1..] == Filter(s[1..], keep);
      }
    }
  }

  /** `order` lists each element of `s` exactly once: an iteration order of
      the set. */
  predicate Enumerates<T(==)>(order: seq<T>, s: set<T>)
  {
    && (forall i, j :: 0 <= i < j < |order| ==> order[i] != order[j])
    && (forall x :: x in order ==> x in s)
    && (forall x :: x in s ==> x in order)
  }

  /** A filter that keeps everything changes nothing. */
  lemma {:induction false} FilterAll<T(!new)>(s: seq<T>, keep: T -> bool)
    requires forall x :: keep(x)
    ensures Filter(s, keep) == s
  {
    if |s| > 0 {
      FilterAll(s[1..], keep);
      assert s == [s[0]] + s[1..];
    }
  }

  /** Nothing satisfies a predicate that is false everywhere. */
  lemma {:induction false} CountNone<T>(s: seq<T>, p: T -> bool)
    requires forall x :: !p(x)
    ensures Count(s, p) == 0
  {
    if |s| > 0 { CountNone(s[1..], p); }
  }

  /** `a` is `b` with some elements left out, the rest in order. */
  predicate Subsequence<T(==)>(a: seq<T>, b: seq<T>)
    decreases |b|
  {
    if |a| == 0 then true
    else if |b| == 0 then false
    else (a[0] == b[0] && Subsequence(a[1..], b[1..])) || Subsequence(a, b[1..])
  }
}
