/**
 Sorting and duplicate removal as the standard libraries of both languages provide them: Go's
 `slices.Sort`, Python's `sorted` and `list(dict.fromkeys(...))`.
 */
module Sorting {

  type Order<!T> = (T, T) -> bool

  ghost predicate TotalOrder<T(!new)>(le: Order<T>) {
    && (forall x, y :: le(x, y) || le(y, x))
    && (forall x, y :: le(x, y) && le(y, x) ==> x == y)
    && (forall x, y, z :: le(x, y) && le(y, z) ==> le(x, z))
  }

  ghost predicate Sorted<T>(s: seq<T>, le: Order<T>) {
    forall i, j | 0 <= i < j < |s| :: le(s[i], s[j])
  }

  function Insert<T>(x: T, s: seq<T>, le: Order<T>): (r: seq<T>)
    ensures multiset(r) == multiset(s) + multiset{x}
  {
    if s == [] || le(x, s[0]) then [x] + s
    else
      assert s == [s[0]] + s[1..];
      [s[0]] + Insert(x, s[1..], le)
  }

  lemma SameElements<T>(s: seq<T>, m: multiset<T>, x: T)
    requires multiset(s) == m
    ensures x in s <==> x in m
  {
  }

  /** A least element in front of a sorted list leaves it sorted. */
  lemma Prepend<T(!new)>(x: T, s: seq<T>, le: Order<T>)
    requires Sorted(s, le) && forall y | y in s :: le(x, y)
    ensures Sorted([x] + s, le)
  {
  }

  lemma {:induction false} InsertSorted<T(!new)>(x: T, s: seq<T>, le: Order<T>)
    requires TotalOrder(le) && Sorted(s, le)
    ensures Sorted(Insert(x, s, le), le)
  {
    if s == [] {
    } else if le(x, s[0]) {
      forall y | y in s
        ensures le(x, y)
      {
        LeastFirst(s, y, le);
      }
      Prepend(x, s, le);
    } else {
      var rest := Insert(x, s[1..], le);
      InsertSorted(x, s[1..], le);
      forall y | y in rest
        ensures le(s[0], y)
      {
        SameElements(rest, multiset(s[1..]) + multiset{x}, y);
        assert y == x || y in s[1..];
      }
      Prepend(s[0], rest, le);
    }
  }

  function Sort<T(!new)>(s: seq<T>, le: Order<T>): (r: seq<T>)
    requires TotalOrder(le)
    ensures multiset(r) == multiset(s) && Sorted(r, le)
  {
    if s == [] then []
    else
      assert s == [s[0]] + s[1..];
      InsertSorted(s[0], Sort(s[1..], le), le);
      Insert(s[0], Sort(s[1..], le), le)
  }

  lemma LeastFirst<T(!new)>(a: seq<T>, x: T, le: Order<T>)
    requires TotalOrder(le) && Sorted(a, le) && x in a
    ensures le(a[0], x)
  {
  }

  lemma Tail<T>(s: seq<T>)
    requires s != []
    ensures multiset(s[1..]) == multiset(s) - multiset{s[0]} && s == [s[0]] + s[1..]
  {
    assert s == [s[0]] + s[1..];
  }

  /** Only one arrangement of a multiset is sorted. */
  lemma {:induction false} SortedIsUnique<T(!new)>(a: seq<T>, b: seq<T>, le: Order<T>)
    requires TotalOrder(le) && Sorted(a, le) && Sorted(b, le) && multiset(a) == multiset(b)
    ensures a == b
  {
    assert |multiset(a)| == |a| && |multiset(b)| == |b|;
    if a != [] {
      SameElements(a, multiset(b), b[0]);
      SameElements(b, multiset(a), a[0]);
      LeastFirst(a, b[0], le);
      LeastFirst(b, a[0], le);
      assert a[0] == b[0];
      Tail(a);
      Tail(b);
      SortedIsUnique(a[1..], b[1..], le);
    }
  }

  /** Sorted copies are equal exactly when the originals hold the same elements equally often. */
  lemma SortsAgree<T(!new)>(a: seq<T>, b: seq<T>, le: Order<T>)
    requires TotalOrder(le)
    ensures Sort(a, le) == Sort(b, le) <==> multiset(a) == multiset(b)
  {
    if multiset(a) == multiset(b) {
      SortedIsUnique(Sort(a, le), Sort(b, le), le);
    }
  }

  /* ------------------------------------------------------------------ */
  /* Orders                                                             */
  /* ------------------------------------------------------------------ */

  /** Strings compare character by character, a proper prefix first. */
  predicate StringLE(a: string, b: string) {
    a == [] || (b != [] && (a[0] < b[0] || (a[0] == b[0] && StringLE(a[1..], b[1..]))))
  }

  lemma {:induction false} StringLETotal(a: string, b: string)
    ensures StringLE(a, b) || StringLE(b, a)
    ensures StringLE(a, b) && StringLE(b, a) ==> a == b
  {
    if a != [] && b != [] && a[0] == b[0] {
      StringLETotal(a[1..], b[1..]);
      assert a == [a[0]] + a[1..] && b == [b[0]] + b[1..];
    }
  }

  lemma {:induction false} StringLETransitive(a: string, b: string, c: string)
    requires StringLE(a, b) && StringLE(b, c)
    ensures StringLE(a, c)
  {
    if a != [] && a[0] == b[0] && b[0] == c[0] {
      StringLETransitive(a[1..], b[1..], c[1..]);
    }
  }

  lemma StringOrder()
    ensures TotalOrder(StringLE)
  {
    forall x: string, y: string
      ensures StringLE(x, y) || StringLE(y, x)
      ensures StringLE(x, y) && StringLE(y, x) ==> x == y
    {
      StringLETotal(x, y);
    }
    forall x: string, y: string, z: string | StringLE(x, y) && StringLE(y, z)
      ensures StringLE(x, z)
    {
      StringLETransitive(x, y, z);
    }
  }

  /* ------------------------------------------------------------------ */
  /* Removing duplicates                                                */
  /* ------------------------------------------------------------------ */

  predicate Distinct<T(==)>(s: seq<T>) {
    forall i, j | 0 <= i < j < |s| :: s[i] != s[j]
  }

  /** The first occurrence of every element, in order. */
  function Dedup<T(==)>(s: seq<T>): (r: seq<T>)
    ensures Distinct(r)
    ensures forall x | x in r :: x in s
    ensures forall x | x in s :: x in r
  {
    if s == [] then []
    else
      var rest := Dedup(s[..|s| - 1]);
      var x := s[|s| - 1];
      assert s == s[..|s| - 1] + [x];
      if x in rest then rest else rest + [x]
  }

  /** Elements of the result stand in the order of their first occurrences. */
  lemma {:induction false} DedupOrder<T>(s: seq<T>, a: nat, b: nat) returns (i: nat, j: nat)
    requires a < b < |Dedup(s)|
    ensures i < j < |s| && s[i] == Dedup(s)[a] && s[j] == Dedup(s)[b]
    ensures Dedup(s)[a] !in s[..i] && Dedup(s)[b] !in s[..j]
  {
    var front := s[..|s| - 1];
    if b < |Dedup(front)| {
      i, j := DedupOrder(front, a, b);
    } else {
      assert Dedup(s)[a] in front;
      j := |s| - 1;
      i := FirstIndex(front, Dedup(s)[a]);
      assert s[..i] == front[..i];
    }
    assert s[..i] == front[..i] && s[..j] == front[..j];
  }

  lemma {:induction false} FirstIndex<T>(s: seq<T>, x: T) returns (i: nat)
    requires x in s
    ensures i < |s| && s[i] == x && x !in s[..i]
  {
    if s[0] == x {
      i := 0;
    } else {
      var k := FirstIndex(s[1..], x);
      i := k + 1;
      assert s[..i] == [s[0]] + s[1..][..k];
    }
  }

  /** Where the first occurrences are in order, so are the results. */
  lemma {:induction false} DedupFollows<T>(s: seq<T>, i: nat, j: nat) returns (a: nat, b: nat)
    requires i < j < |s| && s[i] !in s[..i] && s[j] !in s[..j]
    ensures a < b < |Dedup(s)| && Dedup(s)[a] == s[i] && Dedup(s)[b] == s[j]
  {
    var front := s[..|s| - 1];
    if j < |s| - 1 {
      assert front[..i] == s[..i] && front[..j] == s[..j];
      a, b := DedupFollows(front, i, j);
    } else {
      assert front[i] == s[i];
      assert s[i] in Dedup(front) && s[j] !in Dedup(front);
      a :| 0 <= a < |Dedup(front)| && Dedup(front)[a] == s[i];
      b := |Dedup(front)|;
    }
  }

  /** Two duplicate-free lists of the same elements are rearrangements of each other. */
  lemma DistinctLists<T>(a: seq<T>, b: seq<T>)
    requires Distinct(a) && Distinct(b)
    ensures multiset(a) == multiset(b) <==> (forall x :: x in a <==> x in b)
  {
    CountOfDistinct(a);
    CountOfDistinct(b);
    if multiset(a) == multiset(b) {
      forall x
        ensures x in a <==> x in b
      {
        assert x in a <==> x in multiset(a);
        assert x in b <==> x in multiset(b);
      }
    }
  }

  lemma {:induction false} CountOfDistinct<T>(s: seq<T>)
    requires Distinct(s)
    ensures forall x :: multiset(s)[x] == if x in s then 1 else 0
  {
    if s != [] {
      var front, last := s[..|s| - 1], s[|s| - 1];
      assert s == front + [last];
      CountOfDistinct(front);
    }
  }
}
