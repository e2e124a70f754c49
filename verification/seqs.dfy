/** Collection operations the queries and collection pipelines are built from. */
module Seqs {

  /** The elements of `s` that satisfy `p`, in their original order (a `where`, a `reject`). */
  function Filter<T(!new)>(s: seq<T>, p: T -> bool): (r: seq<T>)
    ensures |r| <= |s|
    ensures forall x :: x in r <==> x in s && p(x)
    ensures forall i :: 0 <= i < |r| ==> p(r[i])
  {
    if s == [] then []
    else (if p(s[0]) then [s[0]] else []) + Filter(s[1..], p)
  }

  /** Filtering twice is filtering once by the conjunction. */
  lemma {:induction false} FilterFilter<T(!new)>(s: seq<T>, p: T -> bool, q: T -> bool, pq: T -> bool)
    requires forall x :: pq(x) == (p(x) && q(x))
    ensures Filter(Filter(s, p), q) == Filter(s, pq)
  {
    if s != [] {
      FilterFilter(s[1..], p, q, pq);
      var t := Filter(s[1..], p);
      if p(s[0]) {
        assert Filter(s, p) == [s[0]] + t;
        assert ([s[0]] + t)[1..] == t;
      } else {
        assert Filter(s, p) == t;
      }
    }
  }

  /** Two predicates that agree on the elements of `s` filter it identically. */
  lemma {:induction false} FilterAgree<T(!new)>(s: seq<T>, p: T -> bool, q: T -> bool)
    requires forall x :: x in s ==> p(x) == q(x)
    ensures Filter(s, p) == Filter(s, q)
  {
    if s != [] {
      FilterAgree(s[1..], p, q);
    }
  }

  /** A predicate that holds of every element keeps the whole sequence. */
  lemma {:induction false} FilterAll<T(!new)>(s: seq<T>, p: T -> bool)
    requires forall x :: x in s ==> p(x)
    ensures Filter(s, p) == s
  {
    if s != [] {
      FilterAll(s[1..], p);
    }
  }

  /** A predicate that holds of no element keeps nothing. */
  lemma {:induction false} FilterNone<T(!new)>(s: seq<T>, p: T -> bool)
    requires forall x :: x in s ==> !p(x)
    ensures Filter(s, p) == []
  {
    if s != [] {
      FilterNone(s[1..], p);
    }
  }

  predicate NoDuplicates<T(==)>(s: seq<T>)
  {
    forall i, j :: 0 <= i < j < |s| ==> s[i] != s[j]
  }

  lemma {:induction false} FilterNoDuplicates<T(!new)>(s: seq<T>, p: T -> bool)
    requires NoDuplicates(s)
    ensures NoDuplicates(Filter(s, p))
  {
    if s != [] {
      FilterNoDuplicates(s[1..], p);
      assert s[0] !in s[1..];
    }
  }

  /** A duplicate-free sequence is no longer than any set that holds all its elements. */
  lemma {:induction false} NoDuplicatesBound<T>(s: seq<T>, bound: set<T>)
    requires NoDuplicates(s)
    requires forall x :: x in s ==> x in bound
    ensures |s| <= |bound|
  {
    if s != [] {
      assert s[0] !in s[1..];
      NoDuplicatesBound(s[1..], bound - {s[0]});
    }
  }

  /** No two elements of `s` share a key. */
  ghost predicate UniqueKeys<T, K>(s: seq<T>, key: T -> K)
  {
    forall i, j :: 0 <= i < j < |s| ==> key(s[i]) != key(s[j])
  }

  lemma {:induction false} FilterUniqueKeys<T(!new), K>(s: seq<T>, p: T -> bool, key: T -> K)
    requires UniqueKeys(s, key)
    ensures UniqueKeys(Filter(s, p), key)
  {
    if s != [] {
      FilterUniqueKeys(s[1..], p, key);
      var t := Filter(s[1..], p);
      forall x | x in t ensures key(x) != key(s[0]) {
        var j :| 0 <= j < |s[1..]| && s[1..][j] == x;
        assert s[j + 1] == x;
      }
      if p(s[0]) {
        assert Filter(s, p) == [s[0]] + t;
        forall i, j | 0 <= i < j < |Filter(s, p)| ensures key(Filter(s, p)[i]) != key(Filter(s, p)[j]) {
          if i == 0 {
            assert Filter(s, p)[j] == t[j - 1] && t[j - 1] in t;
          } else {
            assert Filter(s, p)[i] == t[i - 1] && Filter(s, p)[j] == t[j - 1];
          }
        }
      }
    }
  }

  /** Elements with pairwise distinct keys, all drawn from `bound`, number at most `|bound|`. */
  lemma {:induction false} UniqueKeysBound<T, K>(s: seq<T>, key: T -> K, bound: set<K>)
    requires UniqueKeys(s, key)
    requires forall x :: x in s ==> key(x) in bound
    ensures |s| <= |bound|
  {
    if s != [] {
      forall x | x in s[1..] ensures key(x) in bound - {key(s[0])} {
        var j :| 0 <= j < |s[1..]| && s[1..][j] == x;
        assert s[j + 1] == x;
      }
      UniqueKeysBound(s[1..], key, bound - {key(s[0])});
    }
  }

  /** Sequences with the same elements, counted with multiplicity, have the same length. */
  lemma PermutationKeepsLength<T>(s: seq<T>, t: seq<T>)
    requires multiset(s) == multiset(t)
    ensures |s| == |t|
  {
    assert |multiset(s)| == |s| && |multiset(t)| == |t|;
  }

  // ---------------------------------------------------------------- ordering

  ghost predicate TotalPreorder<T(!new)>(le: (T, T) -> bool)
  {
    && (forall a, b :: le(a, b) || le(b, a))
    && (forall a, b, c :: le(a, b) && le(b, c) ==> le(a, c))
  }

  ghost predicate SortedBy<T>(s: seq<T>, le: (T, T) -> bool)
  {
    forall i, j :: 0 <= i < j < |s| ==> le(s[i], s[j])
  }

  /** Inserts `x` before the first element it may precede. */
  function InsertBy<T(!new)>(x: T, s: seq<T>, le: (T, T) -> bool): (r: seq<T>)
    requires TotalPreorder(le)
    requires SortedBy(s, le)
    ensures multiset(r) == multiset(s) + multiset{x}
    ensures SortedBy(r, le)
  {
    if s == [] || le(x, s[0]) then [x] + s
    else
      var rest := InsertBy(x, s[1..], le);
      InsertedTailFollowsHead(x, s, rest, le);
      assert s == [s[0]] + s[1..];
      [s[0]] + rest
  }

  lemma InsertedTailFollowsHead<T(!new)>(x: T, s: seq<T>, rest: seq<T>, le: (T, T) -> bool)
    requires TotalPreorder(le)
    requires SortedBy(s, le) && s != [] && !le(x, s[0])
    requires multiset(rest) == multiset(s[1..]) + multiset{x}
    requires SortedBy(rest, le)
    ensures SortedBy([s[0]] + rest, le)
  {
    forall k | 0 <= k < |rest|
      ensures le(s[0], rest[k])
    {
      assert rest[k] in multiset(rest);
      if rest[k] != x {
        assert rest[k] in s[1..];
      }
    }
  }

  /** Two sequences with the same multiset hold the same elements. */
  lemma SameMultisetSameMembers<T>(s: seq<T>, t: seq<T>)
    requires multiset(s) == multiset(t)
    ensures forall x :: x in s <==> x in t
  {
    forall x
      ensures x in s <==> x in t
    {
      assert x in s <==> x in multiset(s);
      assert x in t <==> x in multiset(t);
    }
  }

  /** `orderBy`: a sorted permutation of `s` (ties keep no particular order). */
  function SortBy<T(!new)>(s: seq<T>, le: (T, T) -> bool): (r: seq<T>)
    requires TotalPreorder(le)
    ensures multiset(r) == multiset(s)
    ensures SortedBy(r, le)
  {
    if s == [] then []
    else
      assert s == [s[0]] + s[1..];
      InsertBy(s[0], SortBy(s[1..], le), le)
  }

  // ---------------------------------------------------------------- unique

  /** Position of the first occurrence of `x` in `s`. */
  function FirstIndex<T(==)>(s: seq<T>, x: T): (i: nat)
    requires x in s
    ensures i < |s| && s[i] == x
    ensures forall k :: 0 <= k < i ==> s[k] != x
  {
    if s[0] == x then 0 else 1 + FirstIndex(s[1..], x)
  }

  /** `unique()`: keeps the first occurrence of every value, in input order. */
  function Distinct<T(==,!new)>(s: seq<T>): (r: seq<T>)
    ensures NoDuplicates(r)
    ensures forall x :: x in r <==> x in s
  {
    if s == [] then []
    else
      var prefix := s[..|s| - 1];
      var last := s[|s| - 1];
      assert s == prefix + [last];
      var u := Distinct(prefix);
      if last in u then u else u + [last]
  }

  lemma FirstIndexExtend<T>(p: seq<T>, y: T, x: T)
    requires x in p
    ensures FirstIndex(p + [y], x) == FirstIndex(p, x)
  {
    var i, i' := FirstIndex(p + [y], x), FirstIndex(p, x);
    assert (p + [y])[i'] == x;
    assert forall k :: 0 <= k < |p| ==> (p + [y])[k] == p[k];
  }

  /** Distinct lists values in the order of their first occurrence in the input. */
  lemma {:induction false} DistinctFirstOccurrenceOrder<T(!new)>(s: seq<T>, i: nat, j: nat)
    requires i < j < |Distinct(s)|
    ensures FirstIndex(s, Distinct(s)[i]) < FirstIndex(s, Distinct(s)[j])
  {
    var prefix, last := s[..|s| - 1], s[|s| - 1];
    assert s == prefix + [last];
    var u := Distinct(prefix);
    var r := Distinct(s);
    assert r[i] in prefix by { assert r[i] in u; }
    FirstIndexExtend(prefix, last, r[i]);
    if j < |u| {
      assert r[j] == u[j] && r[i] == u[i];
      FirstIndexExtend(prefix, last, r[j]);
      DistinctFirstOccurrenceOrder(prefix, i, j);
    } else {
      assert r[j] == last && last !in prefix;
    }
  }

  /** Every element of `r` occurs in `base`, and `r` lists them in order of first occurrence there. */
  ghost predicate InFirstOccurrenceOrder<T>(r: seq<T>, base: seq<T>)
  {
    && (forall x :: x in r ==> x in base)
    && (forall i, j :: 0 <= i < j < |r| && r[i] in base && r[j] in base ==> FirstIndex(base, r[i]) < FirstIndex(base, r[j]))
  }

  lemma DistinctInFirstOccurrenceOrder<T(!new)>(s: seq<T>)
    ensures InFirstOccurrenceOrder(Distinct(s), s)
  {
    forall i, j | 0 <= i < j < |Distinct(s)|
      ensures FirstIndex(s, Distinct(s)[i]) < FirstIndex(s, Distinct(s)[j])
    {
      DistinctFirstOccurrenceOrder(s, i, j);
    }
  }

  lemma TailInFirstOccurrenceOrder<T>(s: seq<T>, base: seq<T>)
    requires s != [] && InFirstOccurrenceOrder(s, base)
    ensures InFirstOccurrenceOrder(s[1..], base)
    ensures forall x :: x in s[1..] ==> FirstIndex(base, s[0]) < FirstIndex(base, x)
  {
    forall i, j | 0 <= i < j < |s[1..]| ensures FirstIndex(base, s[1..][i]) < FirstIndex(base, s[1..][j]) {
      assert s[1..][i] == s[i + 1] && s[1..][j] == s[j + 1];
    }
    forall x | x in s[1..] ensures FirstIndex(base, s[0]) < FirstIndex(base, x) {
      var k :| 0 <= k < |s[1..]| && s[1..][k] == x;
      assert s[k + 1] == x;
    }
  }

  lemma ConsInFirstOccurrenceOrder<T>(x: T, t: seq<T>, base: seq<T>)
    requires x in base && InFirstOccurrenceOrder(t, base)
    requires forall y :: y in t ==> FirstIndex(base, x) < FirstIndex(base, y)
    ensures InFirstOccurrenceOrder([x] + t, base)
  {
    var r := [x] + t;
    forall i, j | 0 <= i < j < |r| ensures FirstIndex(base, r[i]) < FirstIndex(base, r[j]) {
      assert r[j] == t[j - 1] && t[j - 1] in t;
      if i > 0 {
        assert r[i] == t[i - 1];
      }
    }
  }

  /** Filtering keeps the order of what it keeps. */
  lemma {:induction false} FilterKeepsFirstOccurrenceOrder<T(!new)>(s: seq<T>, p: T -> bool, base: seq<T>)
    requires InFirstOccurrenceOrder(s, base)
    ensures InFirstOccurrenceOrder(Filter(s, p), base)
  {
    if s != [] {
      TailInFirstOccurrenceOrder(s, base);
      FilterKeepsFirstOccurrenceOrder(s[1..], p, base);
      var t := Filter(s[1..], p);
      if p(s[0]) {
        assert Filter(s, p) == [s[0]] + t;
        ConsInFirstOccurrenceOrder(s[0], t, base);
      } else {
        assert Filter(s, p) == t;
      }
    }
  }
}
