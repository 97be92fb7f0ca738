/** The outcome of Collections.sort and Arrays.sort with a Comparator: a
    stable sort, written as an insertion sort. For a comparator that is
    consistent (see Consistent) the result is sorted and a permutation of
    the input. Consistent does not rule out two elements that each compare
    below the other, and a sequence holding such a pair may be put in
    another order by another stable algorithm. */
module Sorting {

  /** A comparator that orders its domain: an element compared with a
      second one is "not after" it whenever the reverse comparison is not
      negative, and "not after" is transitive. */
  ghost predicate Consistent<T(!new)>(cmp: (T, T) -> int)
  {
    && (forall a: T, b: T :: cmp(a, b) >= 0 ==> cmp(b, a) <= 0)
    && (forall a: T, b: T, c: T :: cmp(a, b) <= 0 && cmp(b, c) <= 0 ==> cmp(a, c) <= 0)
  }

  ghost predicate SortedBy<T>(s: seq<T>, cmp: (T, T) -> int)
  {
    forall i, j :: 0 <= i < j < |s| ==> cmp(s[i], s[j]) <= 0
  }

  /** Inserts x after every element it does not sort before. */
  function Insert<T>(x: T, s: seq<T>, cmp: (T, T) -> int): (r: seq<T>)
    ensures multiset(r) == multiset(s) + multiset{x}
    ensures |r| == |s| + 1
  {
    if s == [] then [x]
    else if cmp(x, s[0]) < 0 then [x] + s
    else
      assert s == [s[0]] + s[1..];
      [s[0]] + Insert(x, s[1..], cmp)
  }

  /** The stably sorted sequence. */
  function SortBy<T>(s: seq<T>, cmp: (T, T) -> int): (r: seq<T>)
    ensures multiset(r) == multiset(s)
    ensures |r| == |s|
  {
    if s == [] then []
    else
      assert s == s[..|s| - 1] + [s[|s| - 1]];
      Insert(s[|s| - 1], SortBy(s[..|s| - 1], cmp), cmp)
  }

  /** An element not after the head of a sorted sequence is not after any of it. */
  lemma HeadBound<T(!new)>(y: T, s: seq<T>, cmp: (T, T) -> int)
    requires Consistent(cmp) && SortedBy(s, cmp) && s != [] && cmp(y, s[0]) <= 0
    ensures forall j :: 0 <= j < |s| ==> cmp(y, s[j]) <= 0
  {
    forall j | 0 <= j < |s|
      ensures cmp(y, s[j]) <= 0
    {
      if j > 0 {
        assert cmp(s[0], s[j]) <= 0;
      }
    }
  }

  /** Every element of Insert(x, s) is x or an element of s. */
  lemma {:induction false} InsertElements<T>(x: T, s: seq<T>, cmp: (T, T) -> int)
    ensures forall j :: 0 <= j < |Insert(x, s, cmp)| ==> Insert(x, s, cmp)[j] == x || Insert(x, s, cmp)[j] in s
    decreases |s|
  {
    if s != [] && cmp(x, s[0]) >= 0 {
      InsertElements(x, s[1..], cmp);
    }
  }

  /** An element not after any element of a sorted sequence may be put in front of it. */
  lemma PrependSorted<T>(y: T, t: seq<T>, cmp: (T, T) -> int)
    requires SortedBy(t, cmp)
    requires forall j :: 0 <= j < |t| ==> cmp(y, t[j]) <= 0
    ensures SortedBy([y] + t, cmp)
  {
    var r := [y] + t;
    forall i, j | 0 <= i < j < |r|
      ensures cmp(r[i], r[j]) <= 0
    {
      assert r[j] == t[j - 1];
      if i > 0 {
        assert r[i] == t[i - 1];
      }
    }
  }

  lemma {:induction false} InsertSorted<T(!new)>(x: T, s: seq<T>, cmp: (T, T) -> int)
    requires Consistent(cmp) && SortedBy(s, cmp)
    ensures SortedBy(Insert(x, s, cmp), cmp)
    decreases |s|
  {
    if s == [] {
    } else if cmp(x, s[0]) < 0 {
      HeadBound(x, s, cmp);
      PrependSorted(x, s, cmp);
    } else {
      var rest := s[1..];
      assert SortedBy(rest, cmp) by {
        forall i, j | 0 <= i < j < |rest|
          ensures cmp(rest[i], rest[j]) <= 0
        {
          assert rest[i] == s[i + 1] && rest[j] == s[j + 1];
        }
      }
      InsertSorted(x, rest, cmp);
      InsertElements(x, rest, cmp);
      var t := Insert(x, rest, cmp);
      assert cmp(s[0], x) <= 0;
      forall j | 0 <= j < |t|
        ensures cmp(s[0], t[j]) <= 0
      {
        if t[j] != x {
          var k :| 0 <= k < |rest| && rest[k] == t[j];
          assert s[k + 1] == t[j];
        }
      }
      PrependSorted(s[0], t, cmp);
    }
  }

  /** With a consistent comparator the result is sorted. */
  lemma {:induction false} SortBySorted<T(!new)>(s: seq<T>, cmp: (T, T) -> int)
    requires Consistent(cmp)
    ensures SortedBy(SortBy(s, cmp), cmp)
    decreases |s|
  {
    if s != [] {
      SortBySorted(s[..|s| - 1], cmp);
      InsertSorted(s[|s| - 1], SortBy(s[..|s| - 1], cmp), cmp);
    }
  }
}
