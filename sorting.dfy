/** The stable sort behind Java's `List.sort` and `Stream.sorted`, modelled as
    an insertion sort driven by a comparator: `le(a, b)` holds when the
    comparator allows `a` before `b` (`compare(a, b) <= 0`). */
module Sorting {

  /** The comparator is total and transitive, as `Comparator` requires. */
  ghost predicate TotalPreorder<T(!new)>(le: (T, T) -> bool)
  {
    && (forall a, b :: le(a, b) || le(b, a))
    && (forall a, b, c :: le(a, b) && le(b, c) ==> le(a, c))
  }

  predicate SortedBy<T>(s: seq<T>, le: (T, T) -> bool)
  {
    forall i, j :: 0 <= i < j < |s| ==> le(s[i], s[j])
  }

  /** Inserts `x` after every element that may precede it, so that among
      equal elements the earlier input stays first. */
  function Insert<T>(s: seq<T>, x: T, le: (T, T) -> bool): (r: seq<T>)
    ensures |r| == |s| + 1
    ensures multiset(r) == multiset(s) + multiset{x}
  {
    if |s| == 0 then [x]
    else if !le(s[0], x) then [x] + s
    else
      assert s == [s[0]] + s[1..];
      [s[0]] + Insert(s[1..], x, le)
  }

  /** Inserting adds `x` and keeps every other element. */
  lemma InsertElements<T>(s: seq<T>, x: T, le: (T, T) -> bool)
    ensures forall y :: y in Insert(s, x, le) <==> y in s || y == x
  {
    forall y ensures y in Insert(s, x, le) <==> y in s || y == x {
      assert y in Insert(s, x, le) <==> y in multiset(Insert(s, x, le));
      assert y in s <==> y in multiset(s);
    }
  }

  /** An element that may precede every element of a sorted sequence can be
      put in front of it. */
  lemma SortedCons<T>(y: T, s: seq<T>, le: (T, T) -> bool)
    requires SortedBy(s, le)
    requires forall j :: 0 <= j < |s| ==> le(y, s[j])
    ensures SortedBy([y] + s, le)
  {
    var r := [y] + s;
    forall i, j | 0 <= i < j < |r| ensures le(r[i], r[j]) {
      assert r[j] == s[j - 1];
      if i > 0 {
        assert r[i] == s[i - 1];
      }
    }
  }

  /** Inserting into a sorted sequence keeps it sorted. */
  lemma {:induction false} InsertSorted<T(!new)>(s: seq<T>, x: T, le: (T, T) -> bool)
    requires TotalPreorder(le) && SortedBy(s, le)
    ensures SortedBy(Insert(s, x, le), le)
  {
    if |s| != 0 {
      var tail := s[1..];
      if le(s[0], x) {
        var rest := Insert(tail, x, le);
        InsertSorted(tail, x, le);
        InsertElements(tail, x, le);
        forall j | 0 <= j < |rest| ensures le(s[0], rest[j]) {
          if rest[j] != x {
            assert rest[j] in rest;
            var k :| 0 <= k < |tail| && tail[k] == rest[j];
            assert s[k + 1] == rest[j];
          }
        }
        assert Insert(s, x, le) == [s[0]] + rest;
        SortedCons(s[0], rest, le);
      } else {
        assert le(x, s[0]);
        forall j | 0 <= j < |s| ensures le(x, s[j]) {
          if j > 0 {
            assert le(s[0], s[j]);
          }
        }
        SortedCons(x, s, le);
      }
    }
  }

  /** The input sorted by `le`, a permutation of it. */
  function Sort<T(!new)>(s: seq<T>, le: (T, T) -> bool): (r: seq<T>)
    requires TotalPreorder(le)
    ensures SortedBy(r, le)
    ensures multiset(r) == multiset(s)
    ensures |r| == |s|
  {
    if |s| == 0 then []
    else
      var sorted := Sort(s[..|s| - 1], le);
      InsertSorted(sorted, s[|s| - 1], le);
      assert s == s[..|s| - 1] + [s[|s| - 1]];
      Insert(sorted, s[|s| - 1], le)
  }

  /** No element occurs twice. */
  predicate Distinct<T(==)>(s: seq<T>)
  {
    forall i, j :: 0 <= i < j < |s| ==> s[i] != s[j]
  }

  lemma {:induction false} DistinctOccursOnce<T>(s: seq<T>, x: T)
    requires Distinct(s)
    ensures multiset(s)[x] <= 1
  {
    if |s| != 0 {
      var prefix := s[..|s| - 1];
      assert s == prefix + [s[|s| - 1]];
      DistinctOccursOnce(prefix, x);
      if x == s[|s| - 1] {
        assert x !in prefix;
      }
    }
  }

  lemma RepeatOccursTwice<T>(s: seq<T>, i: int, j: int)
    requires 0 <= i < j < |s| && s[i] == s[j]
    ensures multiset(s)[s[i]] >= 2
  {
    assert s == s[..j] + [s[j]] + s[j + 1..];
    assert s[i] in s[..j];
  }

  /** Sorting, or any other permutation, keeps a sequence free of repeats. */
  lemma PermutationKeepsDistinct<T>(s: seq<T>, t: seq<T>)
    requires Distinct(s) && multiset(s) == multiset(t)
    ensures Distinct(t)
  {
    forall i, j | 0 <= i < j < |t| ensures t[i] != t[j] {
      if t[i] == t[j] {
        RepeatOccursTwice(t, i, j);
        DistinctOccursOnce(s, t[i]);
      }
    }
  }
}
