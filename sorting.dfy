/** `Array.prototype.sort` as the tournament code uses it: a stable sort
    (as ECMAScript 2019 requires) under a comparator that compares a pair
    of integer keys lexicographically, larger keys first. */
module Sorting {

  /** Key `a` sorts strictly before key `b`. */
  predicate Ahead(a: (int, int), b: (int, int)) {
    a.0 > b.0 || (a.0 == b.0 && a.1 > b.1)
  }

  /** No element is strictly ahead of one placed before it. */
  predicate SortedBy<T>(s: seq<T>, key: T -> (int, int)) {
    forall i, j | 0 <= i < j < |s| :: !Ahead(key(s[j]), key(s[i]))
  }

  /** Inserts `x` after every element it is not strictly ahead of. */
  function Insert<T>(x: T, s: seq<T>, key: T -> (int, int)): (r: seq<T>)
    ensures multiset(r) == multiset(s) + multiset{x}
    ensures |r| == |s| + 1
  {
    if |s| == 0 then [x]
    else if Ahead(key(x), key(s[0])) then [x] + s
    else
      assert s == [s[0]] + s[1..];
      [s[0]] + Insert(x, s[1..], key)
  }

  /** Insertion sort, taking the elements in order: equal keys keep their
      relative order. */
  function StableSort<T>(s: seq<T>, key: T -> (int, int)): (r: seq<T>)
    ensures multiset(r) == multiset(s)
    ensures |r| == |s|
  {
    if |s| == 0 then []
    else
      assert s == s[..|s| - 1] + [s[|s| - 1]];
      Insert(s[|s| - 1], StableSort(s[..|s| - 1], key), key)
  }

  lemma {:induction false} InsertSorted<T>(x: T, s: seq<T>, key: T -> (int, int))
    requires SortedBy(s, key)
    ensures SortedBy(Insert(x, s, key), key)
    decreases |s|
  {
    if |s| > 0 && !Ahead(key(x), key(s[0])) {
      InsertSorted(x, s[1..], key);
      var t := Insert(x, s[1..], key);
      forall k | 0 <= k < |t| ensures !Ahead(key(t[k]), key(s[0])) {
        assert t[k] in multiset(s[1..]) + multiset{x};
        if t[k] != x {
          var j :| 0 <= j < |s[1..]| && s[1..][j] == t[k];
          assert s[j + 1] == t[k];
        }
      }
    }
  }

  /** The result is ordered by the comparator. */
  lemma {:induction false} StableSortSorted<T>(s: seq<T>, key: T -> (int, int))
    ensures SortedBy(StableSort(s, key), key)
    decreases |s|
  {
    if |s| > 0 {
      StableSortSorted(s[..|s| - 1], key);
      InsertSorted(s[|s| - 1], StableSort(s[..|s| - 1], key), key);
    }
  }

  /** An element that no element is behind goes last. */
  lemma {:induction false} InsertLast<T>(x: T, s: seq<T>, key: T -> (int, int))
    requires forall k | 0 <= k < |s| :: !Ahead(key(x), key(s[k]))
    ensures Insert(x, s, key) == s + [x]
    decreases |s|
  {
    if |s| > 0 {
      InsertLast(x, s[1..], key);
      assert [s[0]] + (s[1..] + [x]) == s + [x];
    }
  }

  /** An already ordered sequence comes out unchanged. */
  lemma {:induction false} StableSortIdentity<T>(s: seq<T>, key: T -> (int, int))
    requires SortedBy(s, key)
    ensures StableSort(s, key) == s
    decreases |s|
  {
    if |s| > 0 {
      var init := s[..|s| - 1];
      assert SortedBy(init, key);
      StableSortIdentity(init, key);
      InsertLast(s[|s| - 1], init, key);
      assert init + [s[|s| - 1]] == s;
    }
  }

  /** The elements of `s` whose key is `k`, in their order in `s`. */
  function WithKey<T>(s: seq<T>, key: T -> (int, int), k: (int, int)): (r: seq<T>)
    ensures |r| <= |s|
  {
    if s == [] then [] else Keep(s[0], key, k) + WithKey(s[1..], key, k)
  }

  /** `y` alone if its key is `k`, else nothing. */
  function Keep<T>(y: T, key: T -> (int, int), k: (int, int)): seq<T> {
    if key(y) == k then [y] else []
  }

  lemma {:induction false} WithKeyAppend<T>(a: seq<T>, b: seq<T>, key: T -> (int, int), k: (int, int))
    ensures WithKey(a + b, key, k) == WithKey(a, key, k) + WithKey(b, key, k)
    decreases |a|
  {
    if a == [] {
      assert a + b == b;
    } else {
      assert (a + b)[0] == a[0];
      assert (a + b)[1..] == a[1..] + b;
      WithKeyAppend(a[1..], b, key, k);
    }
  }

  lemma {:induction false} WithKeyNone<T>(s: seq<T>, key: T -> (int, int), k: (int, int))
    requires forall j | 0 <= j < |s| :: key(s[j]) != k
    ensures WithKey(s, key, k) == []
    decreases |s|
  {
    if s != [] {
      WithKeyNone(s[1..], key, k);
    }
  }

  /** Inserting into an ordered sequence puts `x` after every element with
      its key. */
  lemma {:induction false} InsertWithKey<T>(x: T, s: seq<T>, key: T -> (int, int), k: (int, int))
    requires SortedBy(s, key)
    ensures WithKey(Insert(x, s, key), key, k) == WithKey(s, key, k) + WithKey([x], key, k)
    decreases |s|
  {
    if s == [] {
    } else if Ahead(key(x), key(s[0])) {
      InsertFront(x, s, key, k);
    } else {
      assert SortedBy(s[1..], key);
      InsertWithKey(x, s[1..], key, k);
      assert s == [s[0]] + s[1..];
      WithKeyCons(s[0], Insert(x, s, key), Insert(x, s[1..], key), s, s[1..], WithKey([x], key, k), key, k);
    }
  }

  /** `x` goes first: nothing behind it shares its key. */
  lemma InsertFront<T>(x: T, s: seq<T>, key: T -> (int, int), k: (int, int))
    requires SortedBy(s, key) && s != [] && Ahead(key(x), key(s[0]))
    ensures WithKey(Insert(x, s, key), key, k) == WithKey(s, key, k) + WithKey([x], key, k)
  {
    assert Insert(x, s, key) == [x] + s;
    WithKeyAppend([x], s, key, k);
    if key(x) == k {
      forall j | 0 <= j < |s| ensures key(s[j]) != k {
        if j > 0 { assert !Ahead(key(s[j]), key(s[0])); }
      }
      WithKeyNone(s, key, k);
    }
  }

  /** A shared first element adds the same to both filters. */
  lemma WithKeyCons<T>(y: T, t: seq<T>, r: seq<T>, s: seq<T>, s': seq<T>, tail: seq<T>,
                       key: T -> (int, int), k: (int, int))
    requires t == [y] + r && s == [y] + s'
    requires WithKey(r, key, k) == WithKey(s', key, k) + tail
    ensures WithKey(t, key, k) == WithKey(s, key, k) + tail
  {
    assert t[0] == y && t[1..] == r;
    assert s[0] == y && s[1..] == s';
    calc {
      WithKey(t, key, k);
      Keep(y, key, k) + WithKey(r, key, k);
      Keep(y, key, k) + (WithKey(s', key, k) + tail);
      (Keep(y, key, k) + WithKey(s', key, k)) + tail;
      WithKey(s, key, k) + tail;
    }
  }

  /** Stability: for every key, the elements with that key come out of the
      sort in the order they went in. */
  lemma {:induction false} StableSortStable<T>(s: seq<T>, key: T -> (int, int), k: (int, int))
    ensures WithKey(StableSort(s, key), key, k) == WithKey(s, key, k)
    decreases |s|
  {
    if s != [] {
      var init, last := s[..|s| - 1], s[|s| - 1];
      StableSortStable(init, key, k);
      StableSortSorted(init, key);
      InsertWithKey(last, StableSort(init, key), key, k);
      WithKeyAppend(init, [last], key, k);
      assert init + [last] == s;
    }
  }
}
