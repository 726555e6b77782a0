/** "Keep the first element of each key": the loop shape the program uses
    four times (a `seen` set beside an output list) to drop duplicate URLs,
    duplicate format labels and duplicate resolutions. */
module Dedup {

  function KeySet<T, K>(s: seq<T>, key: T -> K): set<K> {
    set i | 0 <= i < |s| :: key(s[i])
  }

  /** The elements of s whose key was not seen earlier, in input order. */
  function FirstByKey<T, K(==)>(s: seq<T>, key: T -> K): seq<T>
    decreases |s|
  {
    if s == [] then []
    else
      var r := FirstByKey(s[..|s| - 1], key);
      if key(s[|s| - 1]) in KeySet(r, key) then r else r + [s[|s| - 1]]
  }

  /** Index of the first element of s with key k. */
  ghost function FirstIndex<T, K>(s: seq<T>, k: K, key: T -> K): (i: nat)
    requires k in KeySet(s, key)
    ensures i < |s| && key(s[i]) == k
    ensures forall j :: 0 <= j < i ==> key(s[j]) != k
    decreases |s|
  {
    var p := s[..|s| - 1];
    if k in KeySet(p, key) then FirstIndex(p, k, key) else
      assert forall j :: 0 <= j < |p| ==> key(s[j]) != k by {
        forall j | 0 <= j < |p| ensures key(s[j]) != k { assert key(p[j]) in KeySet(p, key); }
      }
      |s| - 1
  }

  ghost predicate DistinctKeys<T, K>(r: seq<T>, key: T -> K) {
    forall i, j :: 0 <= i < j < |r| ==> key(r[i]) != key(r[j])
  }

  lemma KeySetAppend<T, K>(s: seq<T>, x: T, key: T -> K)
    ensures KeySet(s + [x], key) == KeySet(s, key) + {key(x)}
  {
    var t := s + [x];
    forall k | k in KeySet(t, key) ensures k in KeySet(s, key) + {key(x)} {
      var i :| 0 <= i < |t| && key(t[i]) == k;
      if i < |s| { assert key(s[i]) == k; }
    }
    forall k | k in KeySet(s, key) ensures k in KeySet(t, key) {
      var i :| 0 <= i < |s| && key(s[i]) == k;
      assert key(t[i]) == k;
    }
    assert key(t[|s|]) == key(x);
  }

  /** One step of the `seen` loop: x is kept exactly when its key is new. */
  lemma FirstByKeySnoc<T, K>(s: seq<T>, x: T, key: T -> K)
    ensures FirstByKey(s + [x], key)
         == if key(x) in KeySet(FirstByKey(s, key), key) then FirstByKey(s, key) else FirstByKey(s, key) + [x]
  {
    assert (s + [x])[..|s|] == s;
  }

  lemma {:induction false} FirstByKeyKeys<T, K>(s: seq<T>, key: T -> K)
    ensures KeySet(FirstByKey(s, key), key) == KeySet(s, key)
    decreases |s|
  {
    if s != [] {
      var p, x := s[..|s| - 1], s[|s| - 1];
      assert s == p + [x];
      FirstByKeyKeys(p, key);
      KeySetAppend(p, x, key);
      if key(x) !in KeySet(FirstByKey(p, key), key) {
        KeySetAppend(FirstByKey(p, key), x, key);
      }
    }
  }

  /** No two kept elements share a key. */
  lemma {:induction false} FirstByKeyDistinct<T, K>(s: seq<T>, key: T -> K)
    ensures DistinctKeys(FirstByKey(s, key), key)
    decreases |s|
  {
    if s != [] {
      var p, x := s[..|s| - 1], s[|s| - 1];
      FirstByKeyDistinct(p, key);
      var rp := FirstByKey(p, key);
      if key(x) !in KeySet(rp, key) {
        forall i | 0 <= i < |rp| ensures key(rp[i]) != key(x) {
          assert key(rp[i]) in KeySet(rp, key);
        }
      }
    }
  }

  /** Each kept element is the first element of s with its key. */
  lemma {:induction false} FirstByKeyFirst<T, K>(s: seq<T>, key: T -> K)
    ensures var r := FirstByKey(s, key);
      forall i :: 0 <= i < |r| ==> key(r[i]) in KeySet(s, key)
    ensures var r := FirstByKey(s, key);
      forall i :: 0 <= i < |r| ==> r[i] == s[FirstIndex(s, key(r[i]), key)]
    decreases |s|
  {
    if s != [] {
      var p, x := s[..|s| - 1], s[|s| - 1];
      assert s == p + [x];
      FirstByKeyFirst(p, key);
      FirstByKeyKeys(p, key);
      KeySetAppend(p, x, key);
      var rp := FirstByKey(p, key);
      forall i | 0 <= i < |rp|
        ensures key(rp[i]) in KeySet(s, key)
        ensures FirstIndex(s, key(rp[i]), key) == FirstIndex(p, key(rp[i]), key)
      {
        assert key(rp[i]) in KeySet(rp, key);
      }
    }
  }

  /** Kept elements appear in the order in which their keys first appear. */
  lemma {:induction false} FirstByKeyOrder<T, K>(s: seq<T>, key: T -> K)
    ensures var r := FirstByKey(s, key);
      forall i, j :: 0 <= i < j < |r| ==>
        key(r[i]) in KeySet(s, key) && key(r[j]) in KeySet(s, key) &&
        FirstIndex(s, key(r[i]), key) < FirstIndex(s, key(r[j]), key)
    decreases |s|
  {
    if s != [] {
      var p, x := s[..|s| - 1], s[|s| - 1];
      assert s == p + [x];
      FirstByKeyOrder(p, key);
      FirstByKeyKeys(p, key);
      KeySetAppend(p, x, key);
      var rp := FirstByKey(p, key);
      forall i | 0 <= i < |rp|
        ensures key(rp[i]) in KeySet(s, key)
        ensures FirstIndex(s, key(rp[i]), key) == FirstIndex(p, key(rp[i]), key) < |p|
      {
        assert key(rp[i]) in KeySet(rp, key);
      }
    }
  }

  /** Corollary: every kept element is an element of the input. */
  lemma FirstByKeyFromInput<T, K>(s: seq<T>, key: T -> K, i: nat)
    requires i < |FirstByKey(s, key)|
    ensures FirstByKey(s, key)[i] in s
  {
    FirstByKeyFirst(s, key);
  }

  /** Corollary: nothing is kept exactly when the input is empty. */
  lemma FirstByKeyEmpty<T, K>(s: seq<T>, key: T -> K)
    ensures FirstByKey(s, key) == [] <==> s == []
  {
    FirstByKeyKeys(s, key);
    if s != [] {
      assert key(s[0]) in KeySet(s, key);
    }
  }

  // -------------------------------------------------------------------
  // Keeping the elements that pass a test (a list comprehension's `if`)

  /** The elements of s that satisfy p, in order. */
  function Select<T>(s: seq<T>, p: T -> bool): seq<T>
    decreases |s|
  {
    if s == [] then []
    else Select(s[..|s| - 1], p) + (if p(s[|s| - 1]) then [s[|s| - 1]] else [])
  }

  /** One more element: it is kept exactly when it passes. */
  lemma SelectSnoc<T>(s: seq<T>, x: T, p: T -> bool)
    ensures Select(s + [x], p) == Select(s, p) + (if p(x) then [x] else [])
  {
    assert (s + [x])[..|s|] == s;
  }

  /** x is kept exactly when it occurs in s and passes. */
  lemma {:induction false} SelectMembers<T>(s: seq<T>, p: T -> bool)
    ensures forall x :: x in Select(s, p) <==> x in s && p(x)
    decreases |s|
  {
    if s != [] {
      var q := s[..|s| - 1];
      SelectMembers(q, p);
      assert s == q + [s[|s| - 1]];
    }
  }

  /** Nothing is kept exactly when nothing passes. */
  lemma SelectEmpty<T>(s: seq<T>, p: T -> bool)
    ensures Select(s, p) == [] <==> forall i :: 0 <= i < |s| ==> !p(s[i])
  {
    SelectMembers(s, p);
    if Select(s, p) != [] {
      assert Select(s, p)[0] in Select(s, p);
    }
    forall i | 0 <= i < |s| && p(s[i]) ensures Select(s, p) != [] {
      assert s[i] in Select(s, p);
    }
  }

  /** A property every element of s has, every kept element has. */
  lemma {:induction false} SelectKeeps<T>(s: seq<T>, p: T -> bool, prop: T -> bool)
    requires forall i :: 0 <= i < |s| ==> prop(s[i])
    ensures forall i :: 0 <= i < |Select(s, p)| ==> prop(Select(s, p)[i])
    decreases |s|
  {
    if s != [] {
      SelectKeeps(s[..|s| - 1], p, prop);
    }
  }

  /** A property every element of s has, every kept element has. */
  lemma {:induction false} FirstByKeyKeeps<T, K>(s: seq<T>, key: T -> K, prop: T -> bool)
    requires forall i :: 0 <= i < |s| ==> prop(s[i])
    ensures forall i :: 0 <= i < |FirstByKey(s, key)| ==> prop(FirstByKey(s, key)[i])
    decreases |s|
  {
    if s != [] {
      FirstByKeyKeeps(s[..|s| - 1], key, prop);
    }
  }

  /** Keeping from a prefix keeps a prefix. */
  lemma {:induction false} SelectPrefix<T>(t: seq<T>, u: seq<T>, p: T -> bool)
    requires t <= u
    ensures Select(t, p) <= Select(u, p)
    decreases |u|
  {
    if |t| < |u| {
      var w := u[..|u| - 1];
      assert t <= w;
      SelectPrefix(t, w, p);
    } else {
      assert t == u;
    }
  }

  /** Deduplicating a prefix gives a prefix. */
  lemma {:induction false} FirstByKeyPrefix<T, K>(t: seq<T>, u: seq<T>, key: T -> K)
    requires t <= u
    ensures FirstByKey(t, key) <= FirstByKey(u, key)
    decreases |u|
  {
    if |t| < |u| {
      var w := u[..|u| - 1];
      assert t <= w;
      FirstByKeyPrefix(t, w, key);
    } else {
      assert t == u;
    }
  }

  /** s[i] is the first element of s with its key. */
  ghost predicate FirstOfKey<T, K>(s: seq<T>, i: int, key: T -> K) {
    0 <= i < |s| && forall j :: 0 <= j < i ==> key(s[j]) != key(s[i])
  }

  /** x is the first element of s with its key. */
  ghost predicate IsFirstOfKey<T, K>(s: seq<T>, x: T, key: T -> K) {
    exists i :: FirstOfKey(s, i, key) && x == s[i]
  }

  lemma FirstByKeyOriginAt<T, K>(s: seq<T>, key: T -> K, a: nat)
    requires a < |FirstByKey(s, key)|
    ensures IsFirstOfKey(s, FirstByKey(s, key)[a], key)
  {
    FirstByKeyFirst(s, key);
    assert key(FirstByKey(s, key)[a]) in KeySet(s, key);
    var i := FirstIndex(s, key(FirstByKey(s, key)[a]), key);
    assert FirstOfKey(s, i, key);
  }

  /** Each kept element is the first of s with its key. */
  lemma FirstByKeyOrigin<T, K>(s: seq<T>, key: T -> K)
    ensures var r := FirstByKey(s, key);
      forall a :: 0 <= a < |r| ==> IsFirstOfKey(s, r[a], key)
  {
    var r := FirstByKey(s, key);
    forall a | 0 <= a < |r| ensures IsFirstOfKey(s, r[a], key) {
      FirstByKeyOriginAt(s, key, a);
    }
  }

  /** Every key of s is the key of a kept element. */
  lemma FirstByKeyCovers<T, K>(s: seq<T>, key: T -> K)
    ensures var r := FirstByKey(s, key);
      forall x :: x in s ==> exists a :: 0 <= a < |r| && key(r[a]) == key(x)
  {
    var r := FirstByKey(s, key);
    FirstByKeyKeys(s, key);
    forall x | x in s ensures exists a :: 0 <= a < |r| && key(r[a]) == key(x) {
      var i :| 0 <= i < |s| && s[i] == x;
      assert key(x) in KeySet(s, key);
    }
  }
}
