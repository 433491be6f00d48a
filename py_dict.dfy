/** Python dictionaries built from a list of key/value pairs, as
    `{k: v for ...}` and `dict(pairs)` build them. */
module PyDict {
  import opened Wrappers

  /** The dictionary built by inserting the pairs in order: a later pair
      overwrites an earlier one with the same key. */
  function FromPairs<K(==), V>(pairs: seq<(K, V)>): map<K, V> {
    if pairs == [] then map[]
    else FromPairs(pairs[..|pairs| - 1])[pairs[|pairs| - 1].0 := pairs[|pairs| - 1].1]
  }

  /** `d.get(key)` on that dictionary. */
  function Get<K(==), V>(pairs: seq<(K, V)>, key: K): Option<V> {
    var d := FromPairs(pairs);
    if key in d then Some(d[key]) else None
  }

  /** The position of the last pair carrying `key`, or -1 when none does. */
  function LastIndex<K(==), V>(pairs: seq<(K, V)>, key: K): (r: int)
    ensures -1 <= r < |pairs|
    ensures r >= 0 ==> pairs[r].0 == key && forall j :: r < j < |pairs| ==> pairs[j].0 != key
    ensures r == -1 ==> forall j :: 0 <= j < |pairs| ==> pairs[j].0 != key
  {
    if |pairs| == 0 then -1
    else if pairs[|pairs| - 1].0 == key then |pairs| - 1
    else LastIndex(pairs[..|pairs| - 1], key)
  }

  /** The value found for a key is that of the LAST pair carrying it, and
      nothing is found when no pair carries it. */
  lemma {:induction false} LastWins<K, V>(pairs: seq<(K, V)>, key: K)
    ensures var i := LastIndex(pairs, key);
            Get(pairs, key) == if i == -1 then None else Some(pairs[i].1)
  {
    if |pairs| > 0 {
      var n := |pairs| - 1;
      var front := pairs[..n];
      LastWins(front, key);
      var i := LastIndex(front, key);
      if pairs[n].0 != key && i != -1 {
        assert front[i] == pairs[i];
      }
    }
  }

  /** A key is found iff some pair carries it. */
  lemma {:induction false} GetFinds<K, V>(pairs: seq<(K, V)>, key: K)
    ensures Get(pairs, key).Some? <==> exists i :: 0 <= i < |pairs| && pairs[i].0 == key
  {
    LastWins(pairs, key);
    var i := LastIndex(pairs, key);
    if i != -1 {
      assert pairs[i].0 == key;
    }
  }
}
