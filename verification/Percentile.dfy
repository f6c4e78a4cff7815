/** Counting, and the 95th percentile of internal/evaluation/evaluation.go. */
module Percentile {
  import opened Sorting

  function Count<T>(s: seq<T>, p: T -> bool): (n: nat)
    ensures n <= |s|
  {
    if s == [] then 0 else Count(s[..|s| - 1], p) + if p(s[|s| - 1]) then 1 else 0
  }

  lemma {:induction false} CountSplits<T>(s: seq<T>, p: T -> bool, q: T -> bool, r: T -> bool)
    requires forall i | 0 <= i < |s| :: (r(s[i]) <==> p(s[i]) || q(s[i])) && !(p(s[i]) && q(s[i]))
    ensures Count(s, p) + Count(s, q) == Count(s, r)
  {
    if s != [] {
      CountSplits(s[..|s| - 1], p, q, r);
    }
  }

  lemma {:induction false} CountAll<T>(s: seq<T>, p: T -> bool)
    ensures Count(s, p) == |s| <==> forall i | 0 <= i < |s| :: p(s[i])
  {
    if s != [] {
      CountAll(s[..|s| - 1], p);
    }
  }

  lemma {:induction false} CountLess<T>(s: seq<T>, p: T -> bool, q: T -> bool)
    requires forall i | 0 <= i < |s| :: p(s[i]) ==> q(s[i])
    ensures Count(s, p) <= Count(s, q)
  {
    if s != [] {
      CountLess(s[..|s| - 1], p, q);
    }
  }

  /** Counting images instead of originals. */
  lemma {:induction false} CountMapped<T, U>(s: seq<T>, t: seq<U>, p: T -> bool, q: U -> bool)
    requires |s| == |t| && forall i | 0 <= i < |s| :: p(s[i]) <==> q(t[i])
    ensures Count(s, p) == Count(t, q)
  {
    if s != [] {
      CountMapped(s[..|s| - 1], t[..|t| - 1], p, q);
    }
  }

  lemma {:induction false} CountConcat<T>(a: seq<T>, b: seq<T>, p: T -> bool)
    ensures Count(a + b, p) == Count(a, p) + Count(b, p)
  {
    if b == [] {
      assert a + b == a;
    } else {
      assert (a + b)[..|a + b| - 1] == a + b[..|b| - 1];
      CountConcat(a, b[..|b| - 1], p);
    }
  }

  /** Taking one element out of the middle. */
  lemma CountMiddle<T>(a: seq<T>, x: T, b: seq<T>, p: T -> bool)
    ensures Count(a + ([x] + b), p) == Count(a + b, p) + if p(x) then 1 else 0
  {
    CountConcat(a, [x] + b, p);
    CountConcat([x], b, p);
    CountConcat(a, b, p);
    assert [x][..0] == [];
  }

  lemma Without<T>(s: seq<T>, k: nat)
    requires k < |s|
    ensures s == s[..k] + ([s[k]] + s[k + 1..])
    ensures multiset(s[..k] + s[k + 1..]) == multiset(s) - multiset{s[k]}
  {
    assert s == s[..k] + ([s[k]] + s[k + 1..]);
  }

  lemma WithoutLast<T>(s: seq<T>)
    requires s != []
    ensures multiset(s[..|s| - 1]) == multiset(s) - multiset{s[|s| - 1]}
  {
    assert s == s[..|s| - 1] + [s[|s| - 1]];
  }

  lemma Locate<T>(s: seq<T>, m: multiset<T>, x: T) returns (k: nat)
    requires multiset(s) == m && x in m
    ensures k < |s| && s[k] == x
  {
    k :| 0 <= k < |s| && s[k] == x;
  }

  /** Rearranging a list does not change a count. */
  lemma {:induction false} CountOfMultiset<T>(a: seq<T>, b: seq<T>, p: T -> bool)
    requires multiset(a) == multiset(b)
    ensures Count(a, p) == Count(b, p)
  {
    if a == [] {
      assert |multiset(b)| == |b|;
    } else {
      assert a[|a| - 1] in multiset(a);
      var x := a[|a| - 1];
      WithoutLast(a);
      var k := Locate(b, multiset(a), x);
      Without(b, k);
      CountMiddle(b[..k], x, b[k + 1..], p);
      CountOfMultiset(a[..|a| - 1], b[..k] + b[k + 1..], p);
    }
  }

  lemma {:induction false} NoneCounted<T>(s: seq<T>, p: T -> bool)
    requires forall i | 0 <= i < |s| :: !p(s[i])
    ensures Count(s, p) == 0
  {
    if s != [] {
      NoneCounted(s[..|s| - 1], p);
    }
  }

  lemma {:induction false} SomeCounted<T>(s: seq<T>, p: T -> bool, i: nat)
    requires i < |s| && p(s[i])
    ensures Count(s, p) > 0
  {
    if i < |s| - 1 {
      SomeCounted(s[..|s| - 1], p, i);
    }
  }

  lemma {:induction false} CountEqual<T>(s: seq<T>, p: T -> bool, q: T -> bool)
    requires forall i | 0 <= i < |s| :: p(s[i]) ==> q(s[i])
    ensures Count(s, p) == Count(s, q) <==> forall i | 0 <= i < |s| :: q(s[i]) ==> p(s[i])
  {
    if s != [] {
      var front := s[..|s| - 1];
      CountLess(front, p, q);
      CountEqual(front, p, q);
    }
  }

  /* ------------------------------------------------------------------ */
  /* The 95th percentile                                                */
  /* ------------------------------------------------------------------ */

  predicate RealLE(x: real, y: real) { x <= y }

  /** `max(0, ceil(.95 * n) - 1)` in exact arithmetic. */
  function Rank(n: nat): (r: nat)
    ensures n > 0 ==> r < n && 100 * r < 95 * n <= 100 * (r + 1)
  {
    var ceiling := (95 * n + 99) / 100;
    if ceiling > 0 then ceiling - 1 else 0
  }

  function PercentileOf(durations: seq<real>): real {
    if durations == [] then 0.0
    else
      var sorted := Sort(durations, RealLE);
      assert |multiset(sorted)| == |sorted| && |multiset(durations)| == |durations|;
      sorted[Rank(|durations|)]
  }

  function AtMost(limit: real): real -> bool { (d: real) => d <= limit }

  lemma {:induction false} CountBelow(s: seq<real>, limit: real, k: nat)
    requires Sorted(s, RealLE) && k <= |s|
    requires k < |s| ==> limit < s[k]
    ensures Count(s, AtMost(limit)) <= k
  {
    if k < |s| {
      var front := s[..|s| - 1];
      assert RealLE(s[k], s[|s| - 1]) || k == |s| - 1;
      CountBelow(front, limit, k);
    }
  }

  lemma {:induction false} CountFrom(s: seq<real>, limit: real, k: nat)
    requires Sorted(s, RealLE) && k < |s| && s[k] <= limit
    ensures Count(s, AtMost(limit)) >= k + 1
  {
    var front := s[..k + 1];
    assert s == front + s[k + 1..];
    CountConcat(front, s[k + 1..], AtMost(limit));
    forall i | 0 <= i < |front|
      ensures AtMost(limit)(front[i])
    {
      assert i < k ==> RealLE(s[i], s[k]);
    }
    CountAll(front, AtMost(limit));
  }

  /** The percentile is the smallest recorded duration with at least 95% of all durations at or below it. */
  lemma PercentileMeaning(durations: seq<real>)
    requires durations != []
    ensures PercentileOf(durations) in durations
    ensures 100 * Count(durations, AtMost(PercentileOf(durations))) >= 95 * |durations|
    ensures forall d | d in durations && d < PercentileOf(durations) ::
        100 * Count(durations, AtMost(d)) < 95 * |durations|
  {
    var sorted, k := Sort(durations, RealLE), Rank(|durations|);
    assert |multiset(sorted)| == |sorted| && |multiset(durations)| == |durations|;
    SameElements(durations, multiset(sorted), sorted[k]);
    CountFrom(sorted, sorted[k], k);
    CountOfMultiset(sorted, durations, AtMost(sorted[k]));
    forall d | d in durations && d < PercentileOf(durations)
      ensures 100 * Count(durations, AtMost(d)) < 95 * |durations|
    {
      CountBelow(sorted, d, k);
      CountOfMultiset(sorted, durations, AtMost(d));
    }
  }
}
