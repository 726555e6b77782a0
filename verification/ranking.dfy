/** Python's `sorted(xs, key=..., reverse=True)`: a stable sort in
    descending order of a key, here a pair compared lexicographically (the
    key tuples the program builds are (int, number) pairs). Elements with
    equal keys keep their input order. */
module Ranking {

  datatype Rank = Rank(major: int, minor: real)

  /** Tuple comparison a < b. */
  predicate Below(a: Rank, b: Rank) {
    a.major < b.major || (a.major == b.major && a.minor < b.minor)
  }

  /** Non-increasing by rank. */
  ghost predicate SortedDesc<T>(s: seq<T>, rank: T -> Rank) {
    forall i, j :: 0 <= i < j < |s| ==> !Below(rank(s[i]), rank(s[j]))
  }

  /** Insert x after every element whose rank is not below x's. */
  function InsertDesc<T>(s: seq<T>, x: T, rank: T -> Rank): seq<T>
    decreases |s|
  {
    if s == [] then [x]
    else if Below(rank(s[0]), rank(x)) then [x] + s
    else [s[0]] + InsertDesc(s[1..], x, rank)
  }

  /** Insertion sort taking the input from left to right. */
  function SortDesc<T>(s: seq<T>, rank: T -> Rank): seq<T>
    decreases |s|
  {
    if s == [] then [] else InsertDesc(SortDesc(s[..|s| - 1], rank), s[|s| - 1], rank)
  }

  /** The elements of s whose rank is c, in order. */
  function WithRank<T>(s: seq<T>, c: Rank, rank: T -> Rank): seq<T>
    decreases |s|
  {
    if s == [] then []
    else (if rank(s[0]) == c then [s[0]] else []) + WithRank(s[1..], c, rank)
  }

  lemma {:induction false} WithRankConcat<T>(a: seq<T>, b: seq<T>, c: Rank, rank: T -> Rank)
    ensures WithRank(a + b, c, rank) == WithRank(a, c, rank) + WithRank(b, c, rank)
    decreases |a|
  {
    if a == [] {
      assert a + b == b;
    } else {
      assert (a + b)[1..] == a[1..] + b;
      WithRankConcat(a[1..], b, c, rank);
    }
  }

  lemma {:induction false} WithRankNone<T>(s: seq<T>, c: Rank, rank: T -> Rank)
    requires forall i :: 0 <= i < |s| ==> rank(s[i]) != c
    ensures WithRank(s, c, rank) == []
    decreases |s|
  {
    if s != [] {
      WithRankNone(s[1..], c, rank);
    }
  }

  /** b <= a < c gives b < c. */
  lemma BelowAfterNotBelow(a: Rank, b: Rank, c: Rank)
    requires !Below(a, b) && Below(a, c)
    ensures Below(b, c) && !Below(c, b)
  {
  }

  lemma {:induction false} InsertDescPerm<T>(s: seq<T>, x: T, rank: T -> Rank)
    ensures multiset(InsertDesc(s, x, rank)) == multiset(s) + multiset{x}
    decreases |s|
  {
    if s != [] && !Below(rank(s[0]), rank(x)) {
      InsertDescPerm(s[1..], x, rank);
      assert s == [s[0]] + s[1..];
    }
  }

  lemma {:induction false} InsertDescSorted<T>(s: seq<T>, x: T, rank: T -> Rank)
    requires SortedDesc(s, rank)
    ensures SortedDesc(InsertDesc(s, x, rank), rank)
    decreases |s|
  {
    if s == [] {
    } else if Below(rank(s[0]), rank(x)) {
      var r := [x] + s;
      forall i, j | 0 <= i < j < |r| ensures !Below(rank(r[i]), rank(r[j])) {
        if i == 0 {
          if j > 1 {
            BelowAfterNotBelow(rank(s[0]), rank(s[j - 1]), rank(x));
          }
        } else {
          assert r[i] == s[i - 1] && r[j] == s[j - 1];
        }
      }
    } else {
      var t := s[1..];
      InsertDescSorted(t, x, rank);
      InsertDescPerm(t, x, rank);
      var r := InsertDesc(t, x, rank);
      forall k | 0 <= k < |r| ensures !Below(rank(s[0]), rank(r[k])) {
        assert r[k] in multiset(t) + multiset{x};
        if r[k] in t {
          var m :| 0 <= m < |t| && t[m] == r[k];
          assert s[m + 1] == r[k];
        }
      }
    }
  }

  lemma {:induction false} InsertDescWithRank<T>(s: seq<T>, x: T, c: Rank, rank: T -> Rank)
    requires SortedDesc(s, rank)
    ensures WithRank(InsertDesc(s, x, rank), c, rank)
         == WithRank(s, c, rank) + (if rank(x) == c then [x] else [])
    decreases |s|
  {
    if s == [] {
    } else if Below(rank(s[0]), rank(x)) {
      if rank(x) == c {
        forall i | 0 <= i < |s| ensures rank(s[i]) != c {
          assert i == 0 || !Below(rank(s[0]), rank(s[i]));
        }
        WithRankNone(s, c, rank);
      }
      WithRankConcat([x], s, c, rank);
    } else {
      InsertDescWithRank(s[1..], x, c, rank);
      WithRankConcat([s[0]], InsertDesc(s[1..], x, rank), c, rank);
      WithRankConcat([s[0]], s[1..], c, rank);
      assert [s[0]] + s[1..] == s;
    }
  }

  /** SortDesc orders by rank, keeps every element, and is stable: the
      elements of any one rank come out in their input order. */
  lemma {:induction false} SortDescSpec<T>(s: seq<T>, rank: T -> Rank)
    ensures SortedDesc(SortDesc(s, rank), rank)
    ensures multiset(SortDesc(s, rank)) == multiset(s)
    ensures forall c :: WithRank(SortDesc(s, rank), c, rank) == WithRank(s, c, rank)
    decreases |s|
  {
    if s != [] {
      var p, x := s[..|s| - 1], s[|s| - 1];
      SortDescSpec(p, rank);
      InsertDescSorted(SortDesc(p, rank), x, rank);
      InsertDescPerm(SortDesc(p, rank), x, rank);
      assert s == p + [x];
      forall c ensures WithRank(SortDesc(s, rank), c, rank) == WithRank(s, c, rank) {
        InsertDescWithRank(SortDesc(p, rank), x, c, rank);
        WithRankConcat(p, [x], c, rank);
      }
    }
  }
}
