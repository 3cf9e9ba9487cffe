/** The ordered child lists the editors keep: the next-position rule, removal
    of one index, the stable ascending sort by `position` that rendering applies
    in place, and the per-row "editing" flags. */
module Positions {

  /** Every pair is in ascending key order. */
  ghost predicate Ascending<T>(s: seq<T>, key: T -> int) {
    forall a, b :: 0 <= a < b < |s| ==> key(s[a]) <= key(s[b])
  }

  /** Keys strictly increase: no two siblings share a position. */
  ghost predicate StrictlyAscending<T>(s: seq<T>, key: T -> int) {
    forall a, b :: 0 <= a < b < |s| ==> key(s[a]) < key(s[b])
  }

  /** The position an added child gets: one past the last child's, or 0 for an
      empty list. */
  function NextPosition<T>(s: seq<T>, key: T -> int): int {
    if |s| > 0 then key(s[|s| - 1]) + 1 else 0
  }

  /** On an ascending list (what rendering leaves behind) the next position is
      above every existing one. */
  lemma NextPositionAbove<T>(s: seq<T>, key: T -> int, k: int)
    requires Ascending(s, key)
    requires 0 <= k < |s|
    ensures key(s[k]) < NextPosition(s, key)
  {
    if k < |s| - 1 {
      assert key(s[k]) <= key(s[|s| - 1]);
    }
  }

  /** Appending a child at the next position keeps an ascending list ascending
      and a strictly ascending list strictly ascending. */
  lemma AppendAtNextPosition<T>(s: seq<T>, key: T -> int, x: T)
    requires key(x) == NextPosition(s, key)
    ensures Ascending(s, key) ==> Ascending(s + [x], key)
    ensures StrictlyAscending(s, key) ==> StrictlyAscending(s + [x], key)
  {
    var t := s + [x];
    if Ascending(s, key) {
      forall a, b | 0 <= a < b < |t| ensures key(t[a]) < key(t[b]) || (b < |s| && key(t[a]) <= key(t[b])) {
        if b == |s| {
          NextPositionAbove(s, key, a);
        }
      }
    }
  }

  /** `list.filter((_, index) => index !== i)`. */
  function RemoveAt<T>(s: seq<T>, i: nat): (r: seq<T>)
    requires i < |s|
    ensures |r| == |s| - 1
    ensures forall k :: 0 <= k < i ==> r[k] == s[k]
    ensures forall k :: i <= k < |r| ==> r[k] == s[k + 1]
    ensures multiset(r) + multiset{s[i]} == multiset(s)
  {
    assert s == s[..i] + [s[i]] + s[i + 1..];
    s[..i] + s[i + 1..]
  }

  /** Removing a child keeps the order of the rest. */
  lemma RemoveAtKeepsOrder<T>(s: seq<T>, key: T -> int, i: nat)
    requires i < |s|
    ensures Ascending(s, key) ==> Ascending(RemoveAt(s, i), key)
    ensures StrictlyAscending(s, key) ==> StrictlyAscending(RemoveAt(s, i), key)
  {
    var r := RemoveAt(s, i);
    assert forall k :: 0 <= k < |r| ==> r[k] == s[if k < i then k else k + 1];
  }

  // ---------------------------------------------------------------------------
  // Stable ascending sort by key (Array.prototype.sort with `a.position -
  // b.position`, stable since ECMAScript 2019).

  /** Insert `x` before the first element whose key is not smaller. */
  function Insert<T>(x: T, s: seq<T>, key: T -> int): seq<T>
    decreases |s|
  {
    if s == [] then [x]
    else if key(x) <= key(s[0]) then [x] + s
    else [s[0]] + Insert(x, s[1..], key)
  }

  function SortByKey<T>(s: seq<T>, key: T -> int): seq<T>
    decreases |s|
  {
    if s == [] then [] else Insert(s[0], SortByKey(s[1..], key), key)
  }

  /** The elements with key `v`, in order. */
  function WithKey<T>(s: seq<T>, key: T -> int, v: int): seq<T>
    decreases |s|
  {
    if s == [] then []
    else (if key(s[0]) == v then [s[0]] else []) + WithKey(s[1..], key, v)
  }

  ghost predicate AtLeast<T>(s: seq<T>, key: T -> int, lo: int) {
    forall k :: 0 <= k < |s| ==> lo <= key(s[k])
  }

  lemma {:induction false} InsertAtLeast<T>(x: T, s: seq<T>, key: T -> int, lo: int)
    requires AtLeast(s, key, lo) && lo <= key(x)
    ensures AtLeast(Insert(x, s, key), key, lo)
    decreases |s|
  {
    if s != [] && key(x) > key(s[0]) {
      InsertAtLeast(x, s[1..], key, lo);
    }
  }

  lemma {:induction false} InsertAscending<T>(x: T, s: seq<T>, key: T -> int)
    requires Ascending(s, key)
    ensures Ascending(Insert(x, s, key), key)
    decreases |s|
  {
    if s == [] {
    } else if key(x) <= key(s[0]) {
      var t := [x] + s;
      forall a, b | 0 <= a < b < |t| ensures key(t[a]) <= key(t[b]) {
        if a == 0 && b > 1 { assert key(s[0]) <= key(s[b - 1]); }
      }
    } else {
      var tail := s[1..];
      assert Ascending(tail, key) by {
        forall a, b | 0 <= a < b < |tail| ensures key(tail[a]) <= key(tail[b]) {
          assert tail[a] == s[a + 1] && tail[b] == s[b + 1];
        }
      }
      InsertAscending(x, tail, key);
      assert AtLeast(tail, key, key(s[0])) by {
        forall k | 0 <= k < |tail| ensures key(s[0]) <= key(tail[k]) {
          assert tail[k] == s[k + 1];
        }
      }
      InsertAtLeast(x, tail, key, key(s[0]));
      var ins := Insert(x, tail, key);
      var t := [s[0]] + ins;
      forall a, b | 0 <= a < b < |t| ensures key(t[a]) <= key(t[b]) {
        if a == 0 {
          assert t[b] == ins[b - 1];
        } else {
          assert t[a] == ins[a - 1] && t[b] == ins[b - 1];
        }
      }
    }
  }

  lemma {:induction false} InsertMultiset<T>(x: T, s: seq<T>, key: T -> int)
    ensures multiset(Insert(x, s, key)) == multiset(s) + multiset{x}
    decreases |s|
  {
    if s != [] && key(x) > key(s[0]) {
      InsertMultiset(x, s[1..], key);
      assert s == [s[0]] + s[1..];
    }
  }

  lemma {:induction false} InsertWithKey<T>(x: T, s: seq<T>, key: T -> int, v: int)
    requires Ascending(s, key)
    ensures WithKey(Insert(x, s, key), key, v) == (if key(x) == v then [x] else []) + WithKey(s, key, v)
    decreases |s|
  {
    if s == [] {
      assert WithKey([x], key, v) == (if key(x) == v then [x] else []) + WithKey([x][1..], key, v);
    } else if key(x) <= key(s[0]) {
      var t := [x] + s;
      assert t[1..] == s;
    } else {
      var tail := s[1..];
      assert Ascending(tail, key) by {
        forall a, b | 0 <= a < b < |tail| ensures key(tail[a]) <= key(tail[b]) {
          assert tail[a] == s[a + 1] && tail[b] == s[b + 1];
        }
      }
      InsertWithKey(x, tail, key, v);
      var ins := Insert(x, tail, key);
      var t := [s[0]] + ins;
      assert t[1..] == ins;
      assert WithKey(t, key, v) == (if key(s[0]) == v then [s[0]] else []) + WithKey(ins, key, v);
    }
  }

  /** The sort returns an ascending permutation of its input that keeps the
      relative order of elements with equal keys. */
  lemma {:induction false} SortByKeyCorrect<T>(s: seq<T>, key: T -> int)
    ensures Ascending(SortByKey(s, key), key)
    ensures multiset(SortByKey(s, key)) == multiset(s)
    ensures forall v :: WithKey(SortByKey(s, key), key, v) == WithKey(s, key, v)
    decreases |s|
  {
    if s != [] {
      SortByKeyCorrect(s[1..], key);
      var sorted := SortByKey(s[1..], key);
      InsertAscending(s[0], sorted, key);
      InsertMultiset(s[0], sorted, key);
      forall v ensures WithKey(SortByKey(s, key), key, v) == WithKey(s, key, v) {
        InsertWithKey(s[0], sorted, key, v);
      }
      assert s == [s[0]] + s[1..];
    }
  }

  /** Once the list is sorted by position, the next position is above every
      position in the list, whatever order the list had before. */
  lemma SortedNextPositionAbove<T>(s: seq<T>, key: T -> int, x: T)
    requires x in s
    ensures key(x) < NextPosition(SortByKey(s, key), key)
  {
    var t := SortByKey(s, key);
    SortByKeyCorrect(s, key);
    assert x in multiset(s);
    assert x in multiset(t);
    var k :| 0 <= k < |t| && t[k] == x;
    NextPositionAbove(t, key, k);
  }

  /** A list already in ascending order, equal positions included, is left as
      it is: the sort is stable, so it never swaps siblings that share a position. */
  lemma {:induction false} SortByKeyOfSorted<T>(s: seq<T>, key: T -> int)
    requires Ascending(s, key)
    ensures SortByKey(s, key) == s
    decreases |s|
  {
    if s != [] {
      var tail := s[1..];
      assert Ascending(tail, key) by {
        forall a, b | 0 <= a < b < |tail| ensures key(tail[a]) <= key(tail[b]) {
          assert tail[a] == s[a + 1] && tail[b] == s[b + 1];
        }
      }
      SortByKeyOfSorted(tail, key);
      if tail != [] {
        assert key(s[0]) <= key(s[1]);
      }
    }
  }

  // ---------------------------------------------------------------------------
  // The "editing" flags of a block's workout list.

  /** `list.map(() => false)`. */
  function AllFalse(n: nat): (r: seq<bool>)
    ensures |r| == n && forall k :: 0 <= k < n ==> !r[k]
  {
    seq(n, _ => false)
  }

  /** `list.map(() => false)` followed by `updated[i] = true`. Writing past the
      end lengthens a JavaScript array; the holes read as `undefined`, which is
      falsy, and are modelled as `false`. */
  function OnlyTrue(n: nat, i: nat): (r: seq<bool>)
    ensures |r| == (if i < n then n else i + 1)
    ensures forall k :: 0 <= k < |r| ==> (r[k] <==> k == i)
  {
    seq(if i < n then n else i + 1, k => k == i)
  }
}
