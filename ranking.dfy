/** Ordering primitives of the source: `Array.prototype.sort` with a
    descending numeric comparator `(a, b) => key(b) - key(a)`, which is stable
    (section 23.1.3.30 of ECMA-262, 2023 edition), and `slice(0, end)`. */
module Ranking {

  /** Non-increasing by `key`. */
  ghost predicate SortedDesc<T>(s: seq<T>, key: T -> real)
  {
    forall i, j :: 0 <= i < j < |s| ==> key(s[i]) >= key(s[j])
  }

  /** The elements of `s` whose key is `v`, in their order in `s`. A sort is
      stable when it leaves every such subsequence as it was. */
  function WithKey<T>(s: seq<T>, key: T -> real, v: real): seq<T>
  {
    if s == [] then []
    else (if key(s[0]) == v then [s[0]] else []) + WithKey(s[1..], key, v)
  }

  /** Place `x` in front of the first element whose key is not greater than its own. */
  function Insert<T>(x: T, s: seq<T>, key: T -> real): (r: seq<T>)
    ensures |r| == |s| + 1
  {
    if s == [] || key(x) >= key(s[0]) then [x] + s
    else [s[0]] + Insert(x, s[1..], key)
  }

  /** The stable descending sort, as an insertion sort: each element goes in
      front of the equal-keyed elements that come after it in the input. */
  function SortDesc<T>(s: seq<T>, key: T -> real): (r: seq<T>)
    ensures |r| == |s|
  {
    if s == [] then [] else Insert(s[0], SortDesc(s[1..], key), key)
  }

  lemma {:induction false} WithKeyMember<T>(s: seq<T>, key: T -> real, v: real, x: T)
    ensures x in WithKey(s, key, v) <==> x in s && key(x) == v
  {
    if s != [] {
      WithKeyMember(s[1..], key, v, x);
      assert s == [s[0]] + s[1..];
    }
  }

  lemma {:induction false} InsertPermutes<T>(x: T, s: seq<T>, key: T -> real)
    ensures multiset(Insert(x, s, key)) == multiset(s) + multiset{x}
    decreases |s|
  {
    if s != [] && key(x) < key(s[0]) {
      InsertPermutes(x, s[1..], key);
      assert s == [s[0]] + s[1..];
    }
  }

  lemma {:induction false} InsertSorted<T>(x: T, s: seq<T>, key: T -> real)
    requires SortedDesc(s, key)
    ensures SortedDesc(Insert(x, s, key), key)
    decreases |s|
  {
    if s != [] && key(x) < key(s[0]) {
      var t := Insert(x, s[1..], key);
      InsertSorted(x, s[1..], key);
      InsertPermutes(x, s[1..], key);
      forall j | 0 <= j < |t| ensures key(t[j]) <= key(s[0]) {
        assert t[j] in multiset(t);
        if t[j] != x {
          assert t[j] in multiset(s[1..]);
          var k :| 0 <= k < |s[1..]| && s[1..][k] == t[j];
          assert s[k + 1] == t[j];
        }
      }
      assert Insert(x, s, key) == [s[0]] + t;
    }
  }

  /** `WithKey` of a sequence with a known first element. */
  lemma WithKeyCons<T>(y: T, t: seq<T>, key: T -> real, v: real)
    ensures WithKey([y] + t, key, v) == (if key(y) == v then [y] else []) + WithKey(t, key, v)
  {
    assert ([y] + t)[0] == y && ([y] + t)[1..] == t;
  }

  lemma {:induction false} InsertGroups<T>(x: T, s: seq<T>, key: T -> real, v: real)
    ensures WithKey(Insert(x, s, key), key, v) == (if key(x) == v then [x] else []) + WithKey(s, key, v)
    decreases |s|
  {
    if s == [] || key(x) >= key(s[0]) {
      WithKeyCons(x, s, key, v);
    } else {
      var t := Insert(x, s[1..], key);
      InsertGroups(x, s[1..], key, v);
      WithKeyCons(s[0], t, key, v);
      WithKeyCons(s[0], s[1..], key, v);
      assert s == [s[0]] + s[1..];
    }
  }

  lemma {:induction false} SortDescPermutes<T>(s: seq<T>, key: T -> real)
    ensures multiset(SortDesc(s, key)) == multiset(s)
  {
    if s != [] {
      SortDescPermutes(s[1..], key);
      InsertPermutes(s[0], SortDesc(s[1..], key), key);
      assert s == [s[0]] + s[1..];
    }
  }

  lemma {:induction false} SortDescSorted<T>(s: seq<T>, key: T -> real)
    ensures SortedDesc(SortDesc(s, key), key)
  {
    if s != [] {
      SortDescSorted(s[1..], key);
      InsertSorted(s[0], SortDesc(s[1..], key), key);
    }
  }

  lemma {:induction false} SortDescStable<T>(s: seq<T>, key: T -> real, v: real)
    ensures WithKey(SortDesc(s, key), key, v) == WithKey(s, key, v)
  {
    if s != [] {
      SortDescStable(s[1..], key, v);
      InsertGroups(s[0], SortDesc(s[1..], key), key, v);
    }
  }

  /** SortDesc is a permutation, is sorted, and is stable. */
  lemma SortDescCorrect<T>(s: seq<T>, key: T -> real)
    ensures multiset(SortDesc(s, key)) == multiset(s)
    ensures SortedDesc(SortDesc(s, key), key)
    ensures forall v :: WithKey(SortDesc(s, key), key, v) == WithKey(s, key, v)
  {
    SortDescPermutes(s, key);
    SortDescSorted(s, key);
    forall v ensures WithKey(SortDesc(s, key), key, v) == WithKey(s, key, v) {
      SortDescStable(s, key, v);
    }
  }

  /** A sorted sequence is determined by its equal-key subsequences: so any
      stable descending sort, whatever its algorithm, returns SortDesc. */
  lemma {:induction false} StableSortIsUnique<T>(s: seq<T>, r: seq<T>, key: T -> real)
    requires SortedDesc(r, key)
    requires forall v :: WithKey(r, key, v) == WithKey(s, key, v)
    ensures r == SortDesc(s, key)
  {
    SortDescCorrect(s, key);
    SortedSameGroupsEqual(r, SortDesc(s, key), key);
  }

  lemma {:induction false} SortedSameGroupsEqual<T>(r1: seq<T>, r2: seq<T>, key: T -> real)
    requires SortedDesc(r1, key) && SortedDesc(r2, key)
    requires forall v :: WithKey(r1, key, v) == WithKey(r2, key, v)
    ensures r1 == r2
    decreases |r1| + |r2|
  {
    if r1 == [] || r2 == [] {
      if r1 != [] {
        WithKeyMember(r1, key, key(r1[0]), r1[0]);
        WithKeyMember(r2, key, key(r1[0]), r1[0]);
      } else if r2 != [] {
        WithKeyMember(r1, key, key(r2[0]), r2[0]);
        WithKeyMember(r2, key, key(r2[0]), r2[0]);
      }
    } else {
      var a, b := r1[0], r2[0];
      WithKeyMember(r1, key, key(b), b);
      WithKeyMember(r2, key, key(b), b);
      WithKeyMember(r1, key, key(a), a);
      WithKeyMember(r2, key, key(a), a);
      assert key(a) == key(b);
      assert WithKey(r1, key, key(a)) == WithKey(r2, key, key(a));
      assert WithKey(r1, key, key(a)) == [a] + WithKey(r1[1..], key, key(a));
      assert WithKey(r2, key, key(a)) == [b] + WithKey(r2[1..], key, key(a));
      assert a == WithKey(r1, key, key(a))[0] == b;
      forall v ensures WithKey(r1[1..], key, v) == WithKey(r2[1..], key, v) {
        var p := if key(a) == v then [a] else [];
        assert WithKey(r1, key, v) == p + WithKey(r1[1..], key, v);
        assert WithKey(r2, key, v) == p + WithKey(r2[1..], key, v);
        assert WithKey(r1, key, v) == WithKey(r2, key, v);
        assert WithKey(r1[1..], key, v) == WithKey(r1, key, v)[|p|..];
        assert WithKey(r2[1..], key, v) == WithKey(r2, key, v)[|p|..];
      }
      SortedSameGroupsEqual(r1[1..], r2[1..], key);
      assert r1 == [a] + r1[1..] && r2 == [b] + r2[1..];
    }
  }

  /** The end index `slice(0, end)` uses on a sequence of length `n`: a
      negative `end` counts from the back. */
  function SliceEnd(n: nat, end: int): (k: nat)
    ensures k <= n
    ensures 0 <= end ==> k == (if end < n then end else n)
    ensures end < 0 ==> k == (if n + end < 0 then 0 else n + end)
  {
    if end < 0 then (if n + end < 0 then 0 else n + end)
    else if end < n then end
    else n
  }

  /** `s.slice(0, end)`. */
  function Take<T>(s: seq<T>, end: int): seq<T>
  {
    s[..SliceEnd(|s|, end)]
  }

  lemma {:induction false} WithKeyPrefix<T>(s: seq<T>, k: nat, key: T -> real, v: real)
    requires k <= |s|
    ensures WithKey(s[..k], key, v) <= WithKey(s, key, v)
  {
    if k > 0 {
      WithKeyPrefix(s[1..], k - 1, key, v);
      assert s[..k][1..] == s[1..][..k - 1];
    }
  }

  /** A prefix of a sorted sequence is sorted, keeps the leading part of
      every equal-key group, and holds elements at least as large as every
      element left out. */
  lemma TakeOfSorted<T>(s: seq<T>, end: int, key: T -> real)
    requires SortedDesc(s, key)
    ensures SortedDesc(Take(s, end), key)
    ensures forall v :: WithKey(Take(s, end), key, v) <= WithKey(s, key, v)
    ensures forall x, i :: x in multiset(s) && x !in Take(s, end) && 0 <= i < |Take(s, end)| ==>
              key(x) <= key(Take(s, end)[i])
  {
    var k := SliceEnd(|s|, end);
    forall v ensures WithKey(Take(s, end), key, v) <= WithKey(s, key, v) {
      WithKeyPrefix(s, k, key, v);
    }
    forall x, i | x in multiset(s) && x !in Take(s, end) && 0 <= i < |Take(s, end)|
      ensures key(x) <= key(Take(s, end)[i])
    {
      LeftOutIsSmaller(s, k, key, x, i);
    }
  }

  lemma LeftOutIsSmaller<T>(s: seq<T>, k: nat, key: T -> real, x: T, i: nat)
    requires SortedDesc(s, key) && k <= |s|
    requires x in multiset(s) && x !in s[..k] && i < k
    ensures key(x) <= key(s[i])
  {
    var m :| 0 <= m < |s| && s[m] == x;
  }

  /** No element occurs twice. */
  ghost predicate Distinct<T>(s: seq<T>)
  {
    forall i, j :: 0 <= i < j < |s| ==> s[i] != s[j]
  }

  lemma {:induction false} DistinctAtMostOnce<T>(s: seq<T>, x: T)
    requires Distinct(s)
    ensures multiset(s)[x] <= 1
  {
    if s != [] {
      DistinctAtMostOnce(s[1..], x);
      assert s == [s[0]] + s[1..];
      if s[0] == x {
        assert x !in s[1..];
      }
    }
  }

  /** A permutation of a sequence without repeats has no repeats. */
  lemma DistinctPermutation<T>(a: seq<T>, b: seq<T>)
    requires Distinct(a) && multiset(a) == multiset(b)
    ensures Distinct(b)
  {
    forall i, j | 0 <= i < j < |b| ensures b[i] != b[j] {
      if b[i] == b[j] {
        assert b == b[..j] + b[j..];
        assert b[i] in b[..j];
        assert b[j] in b[j..];
        assert multiset(b)[b[i]] == multiset(b[..j])[b[i]] + multiset(b[j..])[b[i]];
        DistinctAtMostOnce(a, b[i]);
      }
    }
  }
}
