/** Sequence utilities shared by several source files: order-preserving
    de-duplication (a `seen` set plus an output list) and the stable sort that
    Python's `sorted(..., key=...)` and `list.sort(key=...)` perform. */
module Collections {
  import opened Wrappers

  function Id<T>(x: T): T { x }

  /** The set of keys of the elements of `s`. */
  function KeySet<T, K>(s: seq<T>, key: T -> K): set<K> {
    set i | 0 <= i < |s| :: key(s[i])
  }

  lemma KeySetSnoc<T, K>(s: seq<T>, x: T, key: T -> K)
    ensures KeySet(s + [x], key) == KeySet(s, key) + {key(x)}
  {
    var l, r := KeySet(s + [x], key), KeySet(s, key) + {key(x)};
    forall k | k in l ensures k in r {
      var i :| 0 <= i < |s| + 1 && key((s + [x])[i]) == k;
      if i < |s| { assert key(s[i]) == k; }
    }
    forall k | k in r ensures k in l {
      if k == key(x) {
        assert key((s + [x])[|s|]) == k;
      } else {
        var i :| 0 <= i < |s| && key(s[i]) == k;
        assert key((s + [x])[i]) == k;
      }
    }
  }

  /** The elements of `s` whose key has not occurred before, in order: what a
      loop keeping a `seen` set of keys and appending unseen elements builds. */
  function UniqueBy<T, K(==)>(s: seq<T>, key: T -> K): seq<T>
    decreases |s|
  {
    if s == [] then []
    else
      var init := s[..|s| - 1];
      var u := UniqueBy(init, key);
      if key(s[|s| - 1]) in KeySet(init, key) then u else u + [s[|s| - 1]]
  }

  /** `UniqueBy` with each element as its own key. */
  function Unique<T(==)>(s: seq<T>): seq<T> {
    UniqueBy(s, Id)
  }

  /** Position `j` holds the first element of `s` with its key. */
  predicate IsFirst<T, K(==)>(s: seq<T>, j: int, key: T -> K)
    requires 0 <= j < |s|
  {
    key(s[j]) !in KeySet(s[..j], key)
  }

  /** The positions of first occurrences, in increasing order. */
  function FirstIndices<T, K(==)>(s: seq<T>, key: T -> K): seq<nat>
    decreases |s|
  {
    if s == [] then []
    else FirstIndices(s[..|s| - 1], key) + (if IsFirst(s, |s| - 1, key) then [|s| - 1] else [])
  }

  lemma IsFirstOfPrefix<T, K>(s: seq<T>, n: int, j: int, key: T -> K)
    requires 0 <= j < n <= |s|
    ensures IsFirst(s[..n], j, key) == IsFirst(s, j, key)
  {
    assert s[..n][..j] == s[..j];
  }

  /** The first-occurrence positions are strictly increasing, in range, and
      are exactly the positions whose key has not been seen before. */
  lemma {:induction false} FirstIndicesExact<T, K>(s: seq<T>, key: T -> K)
    ensures forall i :: 0 <= i < |FirstIndices(s, key)| ==> FirstIndices(s, key)[i] < |s|
    ensures forall i, j :: 0 <= i < j < |FirstIndices(s, key)| ==> FirstIndices(s, key)[i] < FirstIndices(s, key)[j]
    ensures forall j :: 0 <= j < |s| ==> (j in FirstIndices(s, key) <==> IsFirst(s, j, key))
    decreases |s|
  {
    if s != [] {
      var init := s[..|s| - 1];
      FirstIndicesExact(init, key);
      forall j | 0 <= j < |init| {
        IsFirstOfPrefix(s, |s| - 1, j, key);
      }
    }
  }

  /** The de-duplicated sequence is `s` read at its first-occurrence positions. */
  lemma {:induction false} UniqueBySelectsFirsts<T, K>(s: seq<T>, key: T -> K)
    ensures |UniqueBy(s, key)| == |FirstIndices(s, key)|
    ensures forall i :: 0 <= i < |UniqueBy(s, key)| ==>
      FirstIndices(s, key)[i] < |s| && UniqueBy(s, key)[i] == s[FirstIndices(s, key)[i]]
    decreases |s|
  {
    if s != [] {
      var init := s[..|s| - 1];
      UniqueBySelectsFirsts(init, key);
      FirstIndicesExact(init, key);
    }
  }

  /** No two elements of the result share a key, the result has the same key
      set as the input, and it is no longer than the input. */
  lemma {:induction false} UniqueByDistinct<T, K>(s: seq<T>, key: T -> K)
    ensures forall i, j :: 0 <= i < j < |UniqueBy(s, key)| ==> key(UniqueBy(s, key)[i]) != key(UniqueBy(s, key)[j])
    ensures KeySet(UniqueBy(s, key), key) == KeySet(s, key)
    ensures |UniqueBy(s, key)| <= |s|
    decreases |s|
  {
    if s != [] {
      var init, x := s[..|s| - 1], s[|s| - 1];
      UniqueByDistinct(init, key);
      assert s == init + [x];
      KeySetSnoc(init, x, key);
      var u := UniqueBy(init, key);
      if key(x) !in KeySet(init, key) {
        KeySetSnoc(u, x, key);
        forall i | 0 <= i < |u| ensures key(u[i]) != key(x) {
          assert key(u[i]) in KeySet(u, key);
        }
      }
    }
  }

  /** `Unique` keeps each distinct element once: no repeats, the same elements
      as the input, at the positions where they first occur. */
  lemma UniqueSpec<T>(s: seq<T>)
    ensures forall i, j :: 0 <= i < j < |Unique(s)| ==> Unique(s)[i] != Unique(s)[j]
    ensures forall x :: x in Unique(s) <==> x in s
    ensures |Unique(s)| <= |s|
    ensures |Unique(s)| == |FirstIndices(s, Id)|
    ensures forall i :: 0 <= i < |Unique(s)| ==> FirstIndices(s, Id)[i] < |s| && Unique(s)[i] == s[FirstIndices(s, Id)[i]]
  {
    UniqueByDistinct(s, Id);
    UniqueBySelectsFirsts(s, Id);
    forall x ensures x in Unique(s) <==> x in s {
      if x in s {
        var i :| 0 <= i < |s| && s[i] == x;
        assert Id(s[i]) in KeySet(s, Id);
        var j :| 0 <= j < |Unique(s)| && Id(Unique(s)[j]) == Id(s[i]);
      }
      if x in Unique(s) {
        var j :| 0 <= j < |Unique(s)| && Unique(s)[j] == x;
        assert Id(Unique(s)[j]) in KeySet(Unique(s), Id);
        var i :| 0 <= i < |s| && Id(s[i]) == Id(x);
      }
    }
  }

  /** A sequence without repeats is its own de-duplication. */
  lemma {:induction false} UniqueOfDistinct<T>(s: seq<T>)
    requires forall i, j :: 0 <= i < j < |s| ==> s[i] != s[j]
    ensures Unique(s) == s
    decreases |s|
  {
    if s != [] {
      var init := s[..|s| - 1];
      UniqueOfDistinct(init);
      assert s[|s| - 1] !in KeySet(init, Id);
      assert init + [s[|s| - 1]] == s;
    }
  }

  /** `[x for x in s if p(x)]`: the elements that satisfy `p`, in order. */
  function Filter<T>(s: seq<T>, p: T -> bool): (r: seq<T>)
    ensures |r| <= |s|
    ensures forall i :: 0 <= i < |r| ==> r[i] in s && p(r[i])
    ensures forall i :: 0 <= i < |s| && p(s[i]) ==> s[i] in r
    decreases |s|
  {
    if s == [] then [] else (if p(s[0]) then [s[0]] else []) + Filter(s[1..], p)
  }

  /** Filtering distributes over concatenation, so the kept elements stay in
      their input order. */
  lemma {:induction false} FilterAppend<T>(a: seq<T>, b: seq<T>, p: T -> bool)
    ensures Filter(a + b, p) == Filter(a, p) + Filter(b, p)
    decreases |a|
  {
    if a != [] {
      assert (a + b)[0] == a[0] && (a + b)[1..] == a[1..] + b;
      FilterAppend(a[1..], b, p);
    } else {
      assert a + b == b;
    }
  }

  /** A filter that keeps everything keeps the sequence. */
  lemma {:induction false} FilterAll<T>(s: seq<T>, p: T -> bool)
    requires forall i :: 0 <= i < |s| ==> p(s[i])
    ensures Filter(s, p) == s
  {
    if s != [] {
      FilterAll(s[1..], p);
    }
  }

  /** The values `f` gives, in order, for the elements it does not reject:
      what a loop appending `f(x)` for every accepted `x` builds. */
  function FilterMap<T, U>(s: seq<T>, f: T -> Option<U>): seq<U>
    decreases |s|
  {
    if s == [] then []
    else
      var init := FilterMap(s[..|s| - 1], f);
      match f(s[|s| - 1])
      case None => init
      case Some(y) => init + [y]
  }

  /** The result holds exactly the values `f` gives, and is no longer than the input. */
  lemma {:induction false} FilterMapMembers<T, U>(s: seq<T>, f: T -> Option<U>)
    ensures forall y :: y in FilterMap(s, f) <==> exists i :: 0 <= i < |s| && f(s[i]) == Some(y)
    ensures |FilterMap(s, f)| <= |s|
    decreases |s|
  {
    if s != [] {
      var init := s[..|s| - 1];
      FilterMapMembers(init, f);
      forall y ensures y in FilterMap(s, f) <==> exists i :: 0 <= i < |s| && f(s[i]) == Some(y) {
        if i :| 0 <= i < |init| && f(init[i]) == Some(y) {
          assert s[i] == init[i];
        }
        if i :| 0 <= i < |s| && f(s[i]) == Some(y) {
          if i < |init| {
            assert init[i] == s[i];
          }
        }
      }
    }
  }

  /** One more element is one more step of the loop. */
  lemma FilterMapSnoc<T, U>(s: seq<T>, i: int, f: T -> Option<U>)
    requires 0 <= i < |s|
    ensures FilterMap(s[..i + 1], f) == match f(s[i]) case None => FilterMap(s[..i], f) case Some(y) => FilterMap(s[..i], f) + [y]
  {
    assert s[..i + 1][..i] == s[..i];
  }

  /** No two elements of `s` share a key. */
  predicate DistinctKeys<T, K(==)>(s: seq<T>, key: T -> K) {
    forall i, j :: 0 <= i < j < |s| ==> key(s[i]) != key(s[j])
  }

  /** With distinct keys, no element occurs twice. */
  lemma {:induction false} DistinctKeysOccurOnce<T, K>(s: seq<T>, key: T -> K, x: T)
    requires DistinctKeys(s, key)
    ensures multiset(s)[x] <= 1
    decreases |s|
  {
    if s != [] {
      var t := s[1..];
      assert s == [s[0]] + t;
      forall i, j | 0 <= i < j < |t| ensures key(t[i]) != key(t[j]) {
        assert t[i] == s[i + 1] && t[j] == s[j + 1];
      }
      DistinctKeysOccurOnce(t, key, x);
    }
  }

  /** Reordering keeps keys distinct. */
  lemma DistinctKeysPermutation<T, K>(a: seq<T>, b: seq<T>, key: T -> K)
    requires multiset(a) == multiset(b)
    requires DistinctKeys(a, key)
    ensures DistinctKeys(b, key)
  {
    forall i, j | 0 <= i < j < |b| ensures key(b[i]) != key(b[j]) {
      assert b[i] in multiset(a) && b[j] in multiset(a);
      if b[i] == b[j] {
        var x := b[i];
        assert b == b[..j] + b[j..];
        assert b[..j][i] == x && b[j..][0] == x;
        assert multiset(b)[x] == multiset(b[..j])[x] + multiset(b[j..])[x];
        DistinctKeysOccurOnce(a, key, x);
      } else {
        var p :| 0 <= p < |a| && a[p] == b[i];
        var q :| 0 <= q < |a| && a[q] == b[j];
        assert p != q;
      }
    }
  }

  /** Reordering keeps the set of keys. */
  lemma KeySetPermutation<T, K>(a: seq<T>, b: seq<T>, key: T -> K)
    requires multiset(a) == multiset(b)
    ensures KeySet(a, key) == KeySet(b, key)
  {
    forall k | k in KeySet(a, key) ensures k in KeySet(b, key) {
      var i :| 0 <= i < |a| && key(a[i]) == k;
      assert a[i] in multiset(b);
      var j :| 0 <= j < |b| && b[j] == a[i];
    }
    forall k | k in KeySet(b, key) ensures k in KeySet(a, key) {
      var i :| 0 <= i < |b| && key(b[i]) == k;
      assert b[i] in multiset(a);
      var j :| 0 <= j < |a| && a[j] == b[i];
    }
  }

  // ----- stable sort by key -----

  /** `le` is a total preorder on keys, as `<`-comparison gives for ints and strings. */
  ghost predicate TotalPreorder<K(!new)>(le: (K, K) -> bool) {
    (forall a, b :: le(a, b) || le(b, a))
    && (forall a, b, c :: le(a, b) && le(b, c) ==> le(a, c))
  }

  predicate SortedBy<T, K>(s: seq<T>, key: T -> K, le: (K, K) -> bool) {
    forall i, j :: 0 <= i < j < |s| ==> le(key(s[i]), key(s[j]))
  }

  /** The elements of `s` whose key is `k`, in order. */
  function WithKey<T, K(==)>(s: seq<T>, key: T -> K, k: K): seq<T>
    decreases |s|
  {
    if s == [] then []
    else (if key(s[0]) == k then [s[0]] else []) + WithKey(s[1..], key, k)
  }

  /** Inserts `x` before the first element whose key is not smaller than its own. */
  function Insert<T, K>(x: T, s: seq<T>, key: T -> K, le: (K, K) -> bool): seq<T>
    decreases |s|
  {
    if s == [] || le(key(x), key(s[0])) then [x] + s
    else [s[0]] + Insert(x, s[1..], key, le)
  }

  /** Stable insertion sort: equal keys keep their input order. */
  function SortBy<T, K>(s: seq<T>, key: T -> K, le: (K, K) -> bool): seq<T>
    decreases |s|
  {
    if s == [] then [] else Insert(s[0], SortBy(s[1..], key, le), key, le)
  }

  lemma {:induction false} InsertPermutes<T, K>(x: T, s: seq<T>, key: T -> K, le: (K, K) -> bool)
    ensures multiset(Insert(x, s, key, le)) == multiset(s) + multiset{x}
    decreases |s|
  {
    if !(s == [] || le(key(x), key(s[0]))) {
      InsertPermutes(x, s[1..], key, le);
      assert s == [s[0]] + s[1..];
    }
  }

  /** The sort is a permutation of its input. */
  lemma {:induction false} SortByPermutes<T, K>(s: seq<T>, key: T -> K, le: (K, K) -> bool)
    ensures multiset(SortBy(s, key, le)) == multiset(s)
    decreases |s|
  {
    if s != [] {
      SortByPermutes(s[1..], key, le);
      InsertPermutes(s[0], SortBy(s[1..], key, le), key, le);
      assert s == [s[0]] + s[1..];
    }
  }

  /** The sort keeps exactly the elements of its input. */
  lemma SortByMembers<T, K>(s: seq<T>, key: T -> K, le: (K, K) -> bool)
    ensures forall x :: x in SortBy(s, key, le) <==> x in s
  {
    SortByPermutes(s, key, le);
    forall x ensures x in SortBy(s, key, le) <==> x in s {
      assert x in SortBy(s, key, le) <==> x in multiset(SortBy(s, key, le));
      assert x in s <==> x in multiset(s);
    }
  }

  lemma {:induction false} InsertSorted<T, K(!new)>(x: T, s: seq<T>, key: T -> K, le: (K, K) -> bool)
    requires TotalPreorder(le)
    requires SortedBy(s, key, le)
    ensures SortedBy(Insert(x, s, key, le), key, le)
    decreases |s|
  {
    if s == [] || le(key(x), key(s[0])) {
      var r := [x] + s;
      forall i, j | 0 <= i < j < |r| ensures le(key(r[i]), key(r[j])) {
        if i == 0 && j > 1 {
          assert le(key(s[0]), key(s[j - 1]));
        }
      }
    } else {
      var t := Insert(x, s[1..], key, le);
      InsertSorted(x, s[1..], key, le);
      InsertPermutes(x, s[1..], key, le);
      var r := [s[0]] + t;
      forall j | 0 <= j < |t| ensures le(key(s[0]), key(t[j])) {
        assert t[j] in multiset(t);
        if t[j] != x {
          assert t[j] in multiset(s[1..]);
          var m :| 0 <= m < |s[1..]| && s[1..][m] == t[j];
          assert s[m + 1] == t[j];
        }
      }
      forall i, j | 0 <= i < j < |r| ensures le(key(r[i]), key(r[j])) {
        if i > 0 {
          assert r[i] == t[i - 1] && r[j] == t[j - 1];
        } else {
          assert r[j] == t[j - 1];
        }
      }
    }
  }

  /** The sort orders its output by key. */
  lemma {:induction false} SortBySorted<T, K(!new)>(s: seq<T>, key: T -> K, le: (K, K) -> bool)
    requires TotalPreorder(le)
    ensures SortedBy(SortBy(s, key, le), key, le)
    decreases |s|
  {
    if s != [] {
      SortBySorted(s[1..], key, le);
      InsertSorted(s[0], SortBy(s[1..], key, le), key, le);
    }
  }

  lemma WithKeyCons<T, K>(x: T, s: seq<T>, key: T -> K, k: K)
    ensures WithKey([x] + s, key, k) == (if key(x) == k then [x] else []) + WithKey(s, key, k)
  {
    assert ([x] + s)[1..] == s;
  }

  lemma {:induction false} InsertWithKey<T, K(!new)>(x: T, s: seq<T>, key: T -> K, le: (K, K) -> bool, k: K)
    requires TotalPreorder(le)
    ensures WithKey(Insert(x, s, key, le), key, k) == (if key(x) == k then [x] else []) + WithKey(s, key, k)
    decreases |s|
  {
    if s == [] || le(key(x), key(s[0])) {
      WithKeyCons(x, s, key, k);
    } else {
      assert le(key(x), key(x));
      InsertWithKey(x, s[1..], key, le, k);
      WithKeyCons(s[0], Insert(x, s[1..], key, le), key, k);
      WithKeyCons(s[0], s[1..], key, k);
      assert [s[0]] + s[1..] == s;
    }
  }

  /** The sort is stable: for every key, the elements with that key appear in
      the output in the same order as in the input. */
  lemma {:induction false} SortByStable<T, K(!new)>(s: seq<T>, key: T -> K, le: (K, K) -> bool, k: K)
    requires TotalPreorder(le)
    ensures WithKey(SortBy(s, key, le), key, k) == WithKey(s, key, k)
    decreases |s|
  {
    if s != [] {
      SortByStable(s[1..], key, le, k);
      InsertWithKey(s[0], SortBy(s[1..], key, le), key, le, k);
    }
  }
}
