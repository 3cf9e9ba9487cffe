/** First-occurrence bookkeeping for hydration: a per-type identity map keeps
    the first row that names an id, so the nodes of one level correspond to the
    first occurrences of their key column, in row order. */
module Grouping {
  import opened Wrappers

  /** A join column stops descent when it is falsy: SQL NULL or ''. */
  predicate Truthy(c: Option<string>) {
    c.Some? && c.value != ""
  }

  /** The identity-map key of a join column: the id when it is truthy. */
  function KeyOf(c: Option<string>): (k: Option<string>)
    ensures k.Some? <==> Truthy(c)
    ensures k.Some? ==> k == c
  {
    if Truthy(c) then c else None
  }

  /** keys[j] is present and no earlier key equals it. */
  predicate IsFirst<K(==)>(keys: seq<Option<K>>, j: int)
    requires 0 <= j < |keys|
  {
    keys[j].Some? && forall i :: 0 <= i < j ==> keys[i] != keys[j]
  }

  predicate Increasing(s: seq<nat>) {
    forall a, b :: 0 <= a < b < |s| ==> s[a] < s[b]
  }

  /** The indices of first occurrences, ascending. */
  function Firsts<K(==)>(keys: seq<Option<K>>): (r: seq<nat>)
    ensures Increasing(r)
    ensures forall k :: 0 <= k < |r| ==> r[k] < |keys| && IsFirst(keys, r[k])
    ensures forall j :: 0 <= j < |keys| && IsFirst(keys, j) ==> j in r
    ensures forall a, b :: 0 <= a < b < |r| ==> keys[r[a]] != keys[r[b]]
    decreases |keys|
  {
    if keys == [] then []
    else
      var n := |keys| - 1;
      var p := Firsts(keys[..n]);
      FirstsPrefix(keys, n);
      p + (if IsFirst(keys, n) then [n] else [])
  }

  /** Below n, a first occurrence in keys[..n] is one in keys. */
  lemma FirstsPrefix<K>(keys: seq<Option<K>>, n: nat)
    requires n <= |keys|
    ensures forall x :: 0 <= x < n ==> (IsFirst(keys[..n], x) <==> IsFirst(keys, x))
  {
  }

  /** The present key values. */
  function KeySet<K>(keys: seq<Option<K>>): set<K> {
    set j | 0 <= j < |keys| && keys[j].Some? :: keys[j].value
  }

  lemma KeySetSnoc<K>(keys: seq<Option<K>>, k: Option<K>)
    ensures KeySet(keys + [k]) == KeySet(keys) + (if k.Some? then {k.value} else {})
  {
    var ks := keys + [k];
    var n := |keys|;
    forall v | v in KeySet(ks) ensures v in KeySet(keys) + (if k.Some? then {k.value} else {}) {
      var j :| 0 <= j < |ks| && ks[j].Some? && ks[j].value == v;
      if j < n { assert keys[j].Some? && keys[j].value == v; }
    }
    forall v | v in KeySet(keys) ensures v in KeySet(ks) {
      var j :| 0 <= j < |keys| && keys[j].Some? && keys[j].value == v;
      assert ks[j] == keys[j];
    }
    if k.Some? {
      assert ks[n] == k;
    }
  }

  /** The last key is a first occurrence exactly when it is present and new. */
  lemma IsFirstLast<K>(keys: seq<Option<K>>, k: Option<K>)
    ensures IsFirst(keys + [k], |keys|) <==> k.Some? && k.value !in KeySet(keys)
  {
    var ks := keys + [k];
    var n := |keys|;
    if k.Some? {
      if k.value in KeySet(keys) {
        var j :| 0 <= j < |keys| && keys[j].Some? && keys[j].value == k.value;
        assert ks[j] == ks[n];
      } else {
        assert forall i :: 0 <= i < n ==> ks[i] == keys[i];
      }
    }
  }

  /** Appending one key extends the first occurrences by its index exactly when
      the key is present and new. */
  lemma FirstsSnoc<K>(keys: seq<Option<K>>, k: Option<K>)
    ensures Firsts(keys + [k]) ==
            Firsts(keys) + (if k.Some? && k.value !in KeySet(keys) then [|keys|] else [])
  {
    var ks := keys + [k];
    assert ks[..|keys|] == keys;
    IsFirstLast(keys, k);
  }

  /** Every present key has its first occurrence among the first occurrences. */
  lemma FirstsCover<K>(keys: seq<Option<K>>, j: nat) returns (k: nat)
    requires j < |keys| && keys[j].Some?
    ensures k < |Firsts(keys)| && Firsts(keys)[k] <= j && keys[Firsts(keys)[k]] == keys[j]
    decreases j
  {
    var r := Firsts(keys);
    if IsFirst(keys, j) {
      k :| 0 <= k < |r| && r[k] == j;
    } else {
      var i :| 0 <= i < j && keys[i] == keys[j];
      k := FirstsCover(keys, i);
    }
  }

  /** The present keys are exactly the keys at first occurrences. */
  lemma FirstsKeySet<K>(keys: seq<Option<K>>)
    ensures KeySet(keys) == set k | 0 <= k < |Firsts(keys)| :: keys[Firsts(keys)[k]].value
  {
    var r := Firsts(keys);
    forall v | v in KeySet(keys) ensures v in set k | 0 <= k < |r| :: keys[r[k]].value {
      var j :| 0 <= j < |keys| && keys[j].Some? && keys[j].value == v;
      var k := FirstsCover(keys, j);
    }
  }

  /** Nodes come in first-seen order: the first occurrence of an earlier node's
      key precedes every occurrence of a later node's key. */
  lemma FirstsOrder<K>(keys: seq<Option<K>>, a: nat, b: nat, j: nat)
    requires a < b < |Firsts(keys)| && j < |keys|
    requires keys[j] == keys[Firsts(keys)[b]]
    ensures Firsts(keys)[a] < j
  {
    var r := Firsts(keys);
    assert IsFirst(keys, r[b]);
  }
}
