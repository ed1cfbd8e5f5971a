/**
 * `Array.prototype.sort` with a comparator of the form `key(a) - key(b)`:
 * a stable sort (required of every engine since ECMAScript 2019) by an
 * integer key, written as insertion sort.
 */
module Sorting {

  predicate SortedBy<T>(s: seq<T>, key: T -> int)
  {
    forall i, j :: 0 <= i < j < |s| ==> key(s[i]) <= key(s[j])
  }

  /** Insert `x` after every element whose key is not greater than its own. */
  function Insert<T>(x: T, t: seq<T>, key: T -> int): (r: seq<T>)
    ensures multiset(r) == multiset(t) + multiset{x}
    ensures |r| == |t| + 1
  {
    if t == [] then [x]
    else if key(x) < key(t[0]) then [x] + t
    else
      assert t == [t[0]] + t[1..];
      [t[0]] + Insert(x, t[1..], key)
  }

  /** The elements of `s` whose key is `v`, in their original order. */
  function WithKey<T>(s: seq<T>, key: T -> int, v: int): (r: seq<T>)
    ensures |r| <= |s|
    ensures forall x :: x in r ==> x in s && key(x) == v
  {
    if s == [] then []
    else
      var rest := WithKey(s[..|s| - 1], key, v);
      if key(s[|s| - 1]) == v then rest + [s[|s| - 1]] else rest
  }

  /** The sort: each element in turn is inserted into the sorted prefix. */
  function SortBy<T>(s: seq<T>, key: T -> int): seq<T>
  {
    if s == [] then [] else Insert(s[|s| - 1], SortBy(s[..|s| - 1], key), key)
  }

  /** A lower bound on every key of `t` and on the key of `x` bounds every key after insertion. */
  lemma {:induction false} InsertLower<T>(x: T, t: seq<T>, key: T -> int, lo: int)
    requires lo <= key(x)
    requires forall i :: 0 <= i < |t| ==> lo <= key(t[i])
    ensures forall i :: 0 <= i < |t| + 1 ==> lo <= key(Insert(x, t, key)[i])
  {
    if t != [] && key(x) >= key(t[0]) {
      InsertLower(x, t[1..], key, lo);
      var r := Insert(x, t, key);
      var tail := Insert(x, t[1..], key);
      assert r == [t[0]] + tail;
      forall i | 0 < i < |t| + 1 ensures lo <= key(r[i]) {
        assert r[i] == tail[i - 1];
      }
    }
  }

  lemma {:induction false} InsertSorted<T>(x: T, t: seq<T>, key: T -> int)
    requires SortedBy(t, key)
    ensures SortedBy(Insert(x, t, key), key)
  {
    if t != [] {
      var r := Insert(x, t, key);
      SortedTail(t, key);
      if key(x) >= key(t[0]) {
        InsertSorted(x, t[1..], key);
        var tail := Insert(x, t[1..], key);
        assert r == [t[0]] + tail;
        forall i | 0 <= i < |t[1..]| ensures key(t[0]) <= key(t[1..][i]) {
          assert t[1..][i] == t[i + 1];
        }
        InsertLower(x, t[1..], key, key(t[0]));
        forall i, j | 0 <= i < j < |r| ensures key(r[i]) <= key(r[j]) {
          assert r[j] == tail[j - 1];
          if i > 0 {
            assert r[i] == tail[i - 1];
          }
        }
      } else {
        assert r == [x] + t;
        forall i, j | 0 <= i < j < |r| ensures key(r[i]) <= key(r[j]) {
          assert r[j] == t[j - 1];
          if i > 0 {
            assert r[i] == t[i - 1];
          }
        }
      }
    }
  }

  /** The sorted copy is ordered by key. */
  lemma {:induction false} SortBySorted<T>(s: seq<T>, key: T -> int)
    ensures SortedBy(SortBy(s, key), key)
  {
    if s != [] {
      SortBySorted(s[..|s| - 1], key);
      InsertSorted(s[|s| - 1], SortBy(s[..|s| - 1], key), key);
    }
  }

  /** The sorted copy holds the same elements, each as often. */
  lemma {:induction false} SortByPermutation<T>(s: seq<T>, key: T -> int)
    ensures multiset(SortBy(s, key)) == multiset(s)
  {
    if s != [] {
      SortByPermutation(s[..|s| - 1], key);
      assert s == s[..|s| - 1] + [s[|s| - 1]];
    }
  }

  lemma {:induction false} WithKeyAppend<T>(a: seq<T>, b: seq<T>, key: T -> int, v: int)
    ensures WithKey(a + b, key, v) == WithKey(a, key, v) + WithKey(b, key, v)
    decreases |b|
  {
    if b == [] {
      assert a + b == a;
    } else {
      var b' := b[..|b| - 1];
      assert (a + b)[..|a + b| - 1] == a + b';
      WithKeyAppend(a, b', key, v);
    }
  }

  lemma {:induction false} WithKeyCons<T>(x: T, t: seq<T>, key: T -> int, v: int)
    ensures WithKey([x] + t, key, v) == (if key(x) == v then [x] else []) + WithKey(t, key, v)
  {
    WithKeyAppend([x], t, key, v);
    assert WithKey([x], key, v) == WithKey([], key, v) + (if key(x) == v then [x] else []);
  }

  lemma SortedTail<T>(t: seq<T>, key: T -> int)
    requires t != [] && SortedBy(t, key)
    ensures SortedBy(t[1..], key)
    ensures forall y :: y in t ==> key(t[0]) <= key(y)
  {
    forall i, j | 0 <= i < j < |t| - 1 ensures key(t[1..][i]) <= key(t[1..][j]) {
      assert t[1..][i] == t[i + 1] && t[1..][j] == t[j + 1];
    }
    forall y | y in t ensures key(t[0]) <= key(y) {
      var j :| 0 <= j < |t| && t[j] == y;
      assert j == 0 || key(t[0]) <= key(t[j]);
    }
  }

  lemma ConcatAssoc<T>(a: seq<T>, b: seq<T>, c: seq<T>)
    ensures a + (b + c) == (a + b) + c
  {
  }

  /** Inserting `x` places it after every element of its own key, so each key class keeps its order. */
  lemma {:induction false} InsertStable<T>(x: T, t: seq<T>, key: T -> int, v: int)
    requires SortedBy(t, key)
    ensures WithKey(Insert(x, t, key), key, v) == WithKey(t, key, v) + (if key(x) == v then [x] else [])
  {
    var own := if key(x) == v then [x] else [];
    if t == [] {
      WithKeyCons(x, [], key, v);
      assert [x] + [] == [x];
    } else if key(x) < key(t[0]) {
      WithKeyCons(x, t, key, v);
      if key(x) == v {
        SortedTail(t, key);
        WithKeyNone(t, key, v);
      }
    } else {
      SortedTail(t, key);
      InsertStable(x, t[1..], key, v);
      var head := if key(t[0]) == v then [t[0]] else [];
      var rest := Insert(x, t[1..], key);
      assert Insert(x, t, key) == [t[0]] + rest;
      WithKeyCons(t[0], rest, key, v);
      WithKeyCons(t[0], t[1..], key, v);
      assert t == [t[0]] + t[1..];
      var w1 := WithKey(t[1..], key, v);
      assert WithKey(rest, key, v) == w1 + own;
      assert WithKey(t, key, v) == head + w1;
      ConcatAssoc(head, w1, own);
    }
  }

  lemma {:induction false} WithKeyNone<T>(t: seq<T>, key: T -> int, v: int)
    requires forall y :: y in t ==> key(y) != v
    ensures WithKey(t, key, v) == []
  {
    if t != [] {
      assert t[|t| - 1] in t;
      WithKeyNone(t[..|t| - 1], key, v);
    }
  }

  /** Stability: the elements of each key keep their relative order. */
  lemma {:induction false} SortByStable<T>(s: seq<T>, key: T -> int, v: int)
    ensures WithKey(SortBy(s, key), key, v) == WithKey(s, key, v)
  {
    if s != [] {
      var init := s[..|s| - 1];
      SortByStable(init, key, v);
      SortBySorted(init, key);
      InsertStable(s[|s| - 1], SortBy(init, key), key, v);
    }
  }

  lemma SortedInit<T>(s: seq<T>, key: T -> int)
    requires s != [] && SortedBy(s, key)
    ensures SortedBy(s[..|s| - 1], key)
    ensures forall y :: y in s[..|s| - 1] ==> key(y) <= key(s[|s| - 1])
  {
    var init := s[..|s| - 1];
    forall i, j | 0 <= i < j < |init| ensures key(init[i]) <= key(init[j]) {
      assert init[i] == s[i] && init[j] == s[j];
    }
    forall y | y in init ensures key(y) <= key(s[|s| - 1]) {
      var j :| 0 <= j < |init| && init[j] == y;
      assert init[j] == s[j];
    }
  }

  /** Appending a key-1 element, or a key-0 element after keys of at most 0, keeps the split form. */
  lemma TwoKeysSnoc<T>(init: seq<T>, x: T, key: T -> int)
    requires init == WithKey(init, key, 0) + WithKey(init, key, 1)
    requires key(x) == 1 || (key(x) == 0 && forall y :: y in init ==> key(y) <= 0)
    ensures init + [x] == WithKey(init + [x], key, 0) + WithKey(init + [x], key, 1)
  {
    var s := init + [x];
    assert s[..|s| - 1] == init;
    var a := WithKey(init, key, 0);
    var b := WithKey(init, key, 1);
    if key(x) == 0 {
      WithKeyNone(init, key, 1);
      assert b == [] && init == a;
      assert WithKey(s, key, 0) == a + [x];
      assert WithKey(s, key, 1) == [];
    } else {
      assert WithKey(s, key, 0) == a;
      assert WithKey(s, key, 1) == b + [x];
      ConcatAssoc(a, b, [x]);
    }
  }

  /** A sorted list whose keys are 0 or 1 is its key-0 elements followed by its key-1 elements. */
  lemma {:induction false} SortedTwoKeys<T>(s: seq<T>, key: T -> int)
    requires SortedBy(s, key)
    requires forall i :: 0 <= i < |s| ==> key(s[i]) == 0 || key(s[i]) == 1
    ensures s == WithKey(s, key, 0) + WithKey(s, key, 1)
  {
    if s != [] {
      var n := |s| - 1;
      var init := s[..n];
      SortedInit(s, key);
      assert forall i :: 0 <= i < n ==> init[i] == s[i];
      SortedTwoKeys(init, key);
      assert s == init + [s[n]];
      TwoKeysSnoc(init, s[n], key);
    }
  }

  /** The first `n` elements, or all of them when there are fewer (`slice(0, n)`). */
  function Take<T>(s: seq<T>, n: nat): (r: seq<T>)
    ensures |r| <= n && |r| <= |s|
    ensures |s| >= n ==> |r| == n
    ensures r == s[..|r|]
  {
    if |s| <= n then s else s[..n]
  }

  /** `slice().reverse()`. */
  function Reverse<T>(s: seq<T>): (r: seq<T>)
    ensures |r| == |s|
    ensures forall i :: 0 <= i < |s| ==> r[i] == s[|s| - 1 - i]
  {
    seq(|s|, i requires 0 <= i < |s| => s[|s| - 1 - i])
  }
}
