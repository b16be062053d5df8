/**
 * The order in which `for (const key in object)` visits the own keys of a plain JavaScript
 * object, which is the order the platform configures its devices in: first the keys that are
 * array indices (canonical decimal integers below 2^32 - 1), in ascending numeric order, then all
 * other keys in the order they were first added. Assigning to a key that is already present does
 * not move it.
 */
module JsObject {
  import opened JsText

  /** Adding a key to an object: a new key goes last, an existing one keeps its place. */
  function Insert(keys: seq<string>, key: string): (r: seq<string>)
    ensures key in r && forall k :: k in r <==> k in keys || k == key
    ensures key in keys ==> r == keys
    ensures key !in keys ==> r == keys + [key]
  {
    if key in keys then keys else keys + [key]
  }

  /** No key occurs twice. */
  predicate Distinct(keys: seq<string>)
  {
    forall i, j :: 0 <= i < j < |keys| ==> keys[i] != keys[j]
  }

  lemma InsertKeepsDistinct(keys: seq<string>, key: string)
    requires Distinct(keys)
    ensures Distinct(Insert(keys, key))
  {
  }

  /** A key that is an array index: a canonical decimal integer below 2^32 - 1. */
  predicate IsArrayIndex(key: string)
  {
    && |key| > 0
    && (forall k :: 0 <= k < |key| ==> IsDigit(key[k]))
    && (key[0] != '0' || |key| == 1)
    && DigitsValue(key) < 0xFFFF_FFFF
  }

  /** The numeric value of an array-index key. */
  function IndexValue(key: string): nat
    requires IsArrayIndex(key)
  {
    DigitsValue(key)
  }

  /** The keys that are array indices, in their original order. */
  function IndexKeys(keys: seq<string>): (r: seq<string>)
    ensures forall k :: k in r <==> k in keys && IsArrayIndex(k)
    ensures |r| <= |keys|
  {
    if keys == [] then []
    else (if IsArrayIndex(keys[0]) then [keys[0]] else []) + IndexKeys(keys[1..])
  }

  /** The keys that are not array indices, in their original order. */
  function NamedKeys(keys: seq<string>): (r: seq<string>)
    ensures forall k :: k in r <==> k in keys && !IsArrayIndex(k)
    ensures |r| <= |keys|
  {
    if keys == [] then []
    else (if IsArrayIndex(keys[0]) then [] else [keys[0]]) + NamedKeys(keys[1..])
  }

  /** Array-index keys in ascending numeric order. */
  predicate Ascending(keys: seq<string>)
  {
    && (forall i :: 0 <= i < |keys| ==> IsArrayIndex(keys[i]))
    && (forall i, j :: 0 <= i < j < |keys| ==> IndexValue(keys[i]) <= IndexValue(keys[j]))
  }

  /** Places an array-index key into an ascending run. */
  function InsertAscending(key: string, sorted: seq<string>): (r: seq<string>)
    requires IsArrayIndex(key) && Ascending(sorted)
    ensures Ascending(r) && multiset(r) == multiset(sorted) + multiset{key}
  {
    if sorted == [] || IndexValue(key) <= IndexValue(sorted[0]) then
      ConsAscending(key, sorted);
      [key] + sorted
    else
      var rest := InsertAscending(key, sorted[1..]);
      assert sorted == [sorted[0]] + sorted[1..];
      forall k | k in rest ensures IsArrayIndex(k) && IndexValue(sorted[0]) <= IndexValue(k) {
        assert k in multiset(rest);
      }
      ConsAscending(sorted[0], rest);
      [sorted[0]] + rest
  }

  /** A key no larger than every key of an ascending run can go in front of it. */
  lemma ConsAscending(key: string, sorted: seq<string>)
    requires IsArrayIndex(key) && Ascending(sorted)
    requires forall k :: k in sorted ==> IsArrayIndex(k) && IndexValue(key) <= IndexValue(k)
    ensures Ascending([key] + sorted)
  {
    var r := [key] + sorted;
    forall i, j | 0 <= i < j < |r| ensures IndexValue(r[i]) <= IndexValue(r[j]) {
      assert r[j] == sorted[j - 1];
      if i > 0 {
        assert r[i] == sorted[i - 1];
      }
    }
  }

  /** Array-index keys sorted ascending. */
  function SortAscending(keys: seq<string>): (r: seq<string>)
    requires forall i :: 0 <= i < |keys| ==> IsArrayIndex(keys[i])
    ensures Ascending(r) && multiset(r) == multiset(keys)
  {
    if keys == [] then []
    else
      assert keys == [keys[0]] + keys[1..];
      InsertAscending(keys[0], SortAscending(keys[1..]))
  }

  /**
   * The order `for...in` visits the keys of an object whose keys were added in the order
   * `keys`: the array indices ascending, then the other keys as they were added. Every key is
   * visited exactly as often as it occurs.
   */
  function ForInOrder(keys: seq<string>): (r: seq<string>)
    ensures multiset(r) == multiset(keys)
    ensures r == SortAscending(IndexKeys(keys)) + NamedKeys(keys)
    ensures Ascending(r[..|IndexKeys(keys)|])
  {
    var indices := IndexKeys(keys);
    assert forall i :: 0 <= i < |indices| ==> indices[i] in indices;
    SplitKeys(keys);
    var r := SortAscending(indices) + NamedKeys(keys);
    assert r[..|indices|] == SortAscending(indices);
    r
  }

  /** Separating the two kinds of key loses none and adds none. */
  lemma {:induction false} SplitKeys(keys: seq<string>)
    ensures multiset(IndexKeys(keys)) + multiset(NamedKeys(keys)) == multiset(keys)
  {
    if keys != [] {
      var k, rest := keys[0], keys[1..];
      var front: seq<string> := if IsArrayIndex(k) then [k] else [];
      var back: seq<string> := if IsArrayIndex(k) then [] else [k];
      assert IndexKeys(keys) == front + IndexKeys(rest);
      assert NamedKeys(keys) == back + NamedKeys(rest);
      assert multiset(front) + multiset(back) == multiset{k};
      SplitKeys(rest);
      assert keys == [k] + rest;
      SplitStep(k, rest, front, back, IndexKeys(rest), NamedKeys(rest));
    }
  }

  /** Sharing out one more element between two parts keeps the parts a split of the whole. */
  lemma SplitStep<T>(k: T, rest: seq<T>, front: seq<T>, back: seq<T>, a: seq<T>, b: seq<T>)
    requires multiset(front) + multiset(back) == multiset{k}
    requires multiset(a) + multiset(b) == multiset(rest)
    ensures multiset(front + a) + multiset(back + b) == multiset([k] + rest)
  {
  }

  /** Keys that are not array indices keep the order they were added in. */
  lemma NamedKeysInOrder(keys: seq<string>)
    requires forall i :: 0 <= i < |keys| ==> !IsArrayIndex(keys[i])
    ensures ForInOrder(keys) == keys
  {
    NoIndexKeys(keys);
    AllNamedKeys(keys);
  }

  lemma {:induction false} NoIndexKeys(keys: seq<string>)
    requires forall i :: 0 <= i < |keys| ==> !IsArrayIndex(keys[i])
    ensures IndexKeys(keys) == []
  {
    if keys != [] {
      NoIndexKeys(keys[1..]);
    }
  }

  lemma {:induction false} AllNamedKeys(keys: seq<string>)
    requires forall i :: 0 <= i < |keys| ==> !IsArrayIndex(keys[i])
    ensures NamedKeys(keys) == keys
  {
    if keys != [] {
      AllNamedKeys(keys[1..]);
      assert keys == [keys[0]] + keys[1..];
    }
  }
}
