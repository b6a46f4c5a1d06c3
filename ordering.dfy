/** Ordering of rows by an integer key, as `OrderBy` (ascending),
    `OrderByDescending` (ascending by the negated key) and the browser's
    stable `Array.prototype.sort` with a numeric comparator do it. The sort is
    a stable insertion sort: rows with equal keys keep their input order. */
module Ordering {

  predicate SortedBy<T>(s: seq<T>, key: T -> int)
  {
    forall i, j :: 0 <= i < j < |s| ==> key(s[i]) <= key(s[j])
  }

  /** Inserts `x` into a sorted sequence after every element whose key is not
      greater than its own. */
  function Insert<T>(x: T, s: seq<T>, key: T -> int): (r: seq<T>)
    requires SortedBy(s, key)
    ensures SortedBy(r, key)
    ensures multiset(r) == multiset(s) + multiset{x}
    ensures |r| == |s| + 1
  {
    if s == [] then [x]
    else if key(x) < key(s[0]) then [x] + s
    else
      var tail := s[1..];
      var rest := Insert(x, tail, key);
      assert s == [s[0]] + tail;
      forall k | 0 <= k < |rest| ensures key(s[0]) <= key(rest[k]) {
        MemberOfGrown(rest, tail, x, k);
        if rest[k] != x {
          var j :| 0 <= j < |tail| && tail[j] == rest[k];
          assert s[j + 1] == rest[k];
        }
      }
      [s[0]] + rest
  }

  /** An element of a sequence that holds `s` and one more `x` is `x` or an
      element of `s`. */
  lemma MemberOfGrown<T>(r: seq<T>, s: seq<T>, x: T, k: int)
    requires multiset(r) == multiset(s) + multiset{x} && 0 <= k < |r|
    ensures r[k] == x || r[k] in s
  {
    assert r[k] in multiset(r);
  }

  function SortBy<T>(s: seq<T>, key: T -> int): (r: seq<T>)
    ensures SortedBy(r, key)
    ensures multiset(r) == multiset(s)
    ensures |r| == |s|
  {
    if s == [] then []
    else
      assert s == s[..|s| - 1] + [s[|s| - 1]];
      Insert(s[|s| - 1], SortBy(s[..|s| - 1], key), key)
  }

  /** The elements of `s` whose key is `k`, in their order in `s`. */
  function WithKey<T>(s: seq<T>, key: T -> int, k: int): seq<T>
  {
    if s == [] then []
    else (if key(s[0]) == k then [s[0]] else []) + WithKey(s[1..], key, k)
  }

  lemma {:induction false} WithKeyAppend<T>(a: seq<T>, b: seq<T>, key: T -> int, k: int)
    ensures WithKey(a + b, key, k) == WithKey(a, key, k) + WithKey(b, key, k)
  {
    if a == [] {
      assert a + b == b;
    } else {
      var head := if key(a[0]) == k then [a[0]] else [];
      assert (a + b)[0] == a[0] && (a + b)[1..] == a[1..] + b;
      WithKeyAppend(a[1..], b, key, k);
      ConcatAssociative(head, WithKey(a[1..], key, k), WithKey(b, key, k));
    }
  }

  lemma {:induction false} WithKeyNone<T>(s: seq<T>, key: T -> int, k: int)
    requires forall i :: 0 <= i < |s| ==> key(s[i]) != k
    ensures WithKey(s, key, k) == []
  {
    if s != [] {
      WithKeyNone(s[1..], key, k);
    }
  }

  lemma ConcatAssociative<T>(a: seq<T>, b: seq<T>, c: seq<T>)
    ensures a + (b + c) == (a + b) + c
  {
  }

  /** An element placed in front of a sorted sequence whose keys all exceed
      its own comes after every element with its key. */
  lemma InsertInFrontStable<T>(x: T, s: seq<T>, key: T -> int, k: int)
    requires SortedBy(s, key) && s != [] && key(x) < key(s[0])
    ensures WithKey([x] + s, key, k) == WithKey(s, key, k) + (if key(x) == k then [x] else [])
  {
    var r := [x] + s;
    assert r[0] == x && r[1..] == s;
    if key(x) == k {
      assert forall i :: 0 <= i < |s| ==> key(s[0]) <= key(s[i]);
      WithKeyNone(s, key, k);
    }
  }

  /** Inserting `x` places it after every element that has the same key. */
  lemma {:induction false} InsertStable<T>(x: T, s: seq<T>, key: T -> int, k: int)
    requires SortedBy(s, key)
    ensures WithKey(Insert(x, s, key), key, k)
         == WithKey(s, key, k) + (if key(x) == k then [x] else [])
  {
    var mine := if key(x) == k then [x] else [];
    if s == [] {
      assert Insert(x, s, key) == [x];
      assert [x][1..] == [];
    } else if key(x) < key(s[0]) {
      assert Insert(x, s, key) == [x] + s;
      InsertInFrontStable(x, s, key, k);
    } else {
      var tail := s[1..];
      var rest := Insert(x, tail, key);
      var r := [s[0]] + rest;
      var head := if key(s[0]) == k then [s[0]] else [];
      assert Insert(x, s, key) == r;
      assert r[1..] == rest;
      calc {
        WithKey(r, key, k);
        head + WithKey(rest, key, k);
        { InsertStable(x, tail, key, k); }
        head + (WithKey(tail, key, k) + mine);
        { ConcatAssociative(head, WithKey(tail, key, k), mine); }
        (head + WithKey(tail, key, k)) + mine;
        WithKey(s, key, k) + mine;
      }
    }
  }

  /** The sort is stable: among the rows with any one key, the output keeps
      the input order. */
  lemma {:induction false} SortByStable<T>(s: seq<T>, key: T -> int, k: int)
    ensures WithKey(SortBy(s, key), key, k) == WithKey(s, key, k)
  {
    if s != [] {
      var init, last := s[..|s| - 1], s[|s| - 1];
      var sorted := SortBy(init, key);
      var tail := if key(last) == k then [last] else [];
      assert s == init + [last];
      assert [last][1..] == [];
      calc {
        WithKey(SortBy(s, key), key, k);
        WithKey(Insert(last, sorted, key), key, k);
        { InsertStable(last, sorted, key, k); }
        WithKey(sorted, key, k) + tail;
        { SortByStable(init, key, k); }
        WithKey(init, key, k) + tail;
        { assert WithKey([last], key, k) == tail; }
        WithKey(init, key, k) + WithKey([last], key, k);
        { WithKeyAppend(init, [last], key, k); }
        WithKey(s, key, k);
      }
    }
  }
}
