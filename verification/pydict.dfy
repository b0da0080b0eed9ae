/**
 * Python's dict, as the exporters use it: an insertion-ordered association
 * list whose keys are distinct.  Assigning to a key already present keeps its
 * position and replaces its value; a new key goes at the end.  `dict(pairs)`
 * assigns the pairs in order, so a later duplicate key overwrites an earlier
 * one.
 */
module PyDict {

  import opened Wrappers

  type Dict<K, V> = seq<(K, V)>

  predicate DistinctKeys<K(==), V>(d: Dict<K, V>) {
    forall i, j :: 0 <= i < j < |d| ==> d[i].0 != d[j].0
  }

  /** Position of the first entry carrying `k`, or -1. */
  function IndexOf<K(==), V>(d: Dict<K, V>, k: K): (r: int)
    ensures -1 <= r < |d|
    ensures r == -1 <==> forall i :: 0 <= i < |d| ==> d[i].0 != k
    ensures r >= 0 ==> d[r].0 == k && forall i :: 0 <= i < r ==> d[i].0 != k
  {
    if d == [] then -1
    else if d[0].0 == k then 0
    else
      var r := IndexOf(d[1..], k);
      if r == -1 then -1 else r + 1
  }

  /** `d.get(k)` */
  function Get<K(==), V>(d: Dict<K, V>, k: K): Option<V> {
    var i := IndexOf(d, k);
    if i == -1 then None else Some(d[i].1)
  }

  /** `d[k] = v` */
  function Assign<K(==), V>(d: Dict<K, V>, k: K, v: V): Dict<K, V> {
    var i := IndexOf(d, k);
    if i == -1 then d + [(k, v)] else d[i := (k, v)]
  }

  /** `dict(pairs)` */
  function FromPairs<K(==), V>(pairs: seq<(K, V)>): Dict<K, V> {
    if pairs == [] then []
    else
      var n := |pairs| - 1;
      Assign(FromPairs(pairs[..n]), pairs[n].0, pairs[n].1)
  }

  /** Reading a key after an assignment: the assigned key gives the new
      value, every other key what it gave before. */
  lemma AssignGet<K, V>(d: Dict<K, V>, k: K, v: V, q: K)
    ensures Get(Assign(d, k, v), q) == if q == k then Some(v) else Get(d, q)
  {
    var r := Assign(d, k, v);
    assert forall p :: 0 <= p < |d| ==> r[p].0 == d[p].0;
    if IndexOf(d, k) == -1 {
      assert r[|d|] == (k, v);
    }
    var iq := IndexOf(d, q);
    if q != k && iq != -1 {
      assert r[iq] == d[iq];
    }
  }

  /** An assignment keeps the keys distinct, keeps the old keys in their
      places, and grows the dict only when the key is new. */
  lemma AssignShape<K, V>(d: Dict<K, V>, k: K, v: V)
    requires DistinctKeys(d)
    ensures DistinctKeys(Assign(d, k, v))
    ensures |Assign(d, k, v)| == if Get(d, k).Some? then |d| else |d| + 1
    ensures forall p :: 0 <= p < |d| ==> Assign(d, k, v)[p].0 == d[p].0
  {
    var r := Assign(d, k, v);
    assert forall p :: 0 <= p < |d| ==> r[p].0 == d[p].0;
  }

  /** `dict(pairs)` never holds a key twice. */
  lemma {:induction false} FromPairsDistinct<K, V>(pairs: seq<(K, V)>)
    ensures DistinctKeys(FromPairs(pairs))
  {
    if pairs != [] {
      var n := |pairs| - 1;
      FromPairsDistinct(pairs[..n]);
      AssignShape(FromPairs(pairs[..n]), pairs[n].0, pairs[n].1);
    }
  }

  /** A key is missing from `dict(pairs)` exactly when no pair carries it. */
  lemma {:induction false} FromPairsAbsent<K, V>(pairs: seq<(K, V)>, k: K)
    ensures Get(FromPairs(pairs), k).None? <==> forall j :: 0 <= j < |pairs| ==> pairs[j].0 != k
  {
    if pairs != [] {
      var n := |pairs| - 1;
      FromPairsAbsent(pairs[..n], k);
      AssignGet(FromPairs(pairs[..n]), pairs[n].0, pairs[n].1, k);
      assert forall j :: 0 <= j < n ==> pairs[..n][j] == pairs[j];
    }
  }

  /** The value of a key in `dict(pairs)` is that of the LAST pair carrying it. */
  lemma {:induction false} FromPairsLastWins<K, V>(pairs: seq<(K, V)>, k: K, j: nat)
    requires j < |pairs| && pairs[j].0 == k
    requires forall j' :: j < j' < |pairs| ==> pairs[j'].0 != k
    ensures Get(FromPairs(pairs), k) == Some(pairs[j].1)
  {
    var n := |pairs| - 1;
    AssignGet(FromPairs(pairs[..n]), pairs[n].0, pairs[n].1, k);
    if j < n {
      FromPairsLastWins(pairs[..n], k, j);
    }
  }

  /** Without duplicate keys, `dict(pairs)` holds exactly the pairs, in their order. */
  lemma {:induction false} FromDistinctPairs<K, V>(pairs: seq<(K, V)>)
    requires DistinctKeys(pairs)
    ensures FromPairs(pairs) == pairs
  {
    if pairs != [] {
      var n := |pairs| - 1;
      var init := pairs[..n];
      assert DistinctKeys(init);
      FromDistinctPairs(init);
      assert IndexOf(init, pairs[n].0) == -1;
      assert init + [pairs[n]] == pairs;
    }
  }

  /** `dict(pairs)[k]` for every key at once: missing exactly when no pair
      carries the key, otherwise the value of the last pair carrying it. */
  lemma FromPairsGet<K, V>(pairs: seq<(K, V)>, k: K)
    ensures Get(FromPairs(pairs), k).None? <==> forall j :: 0 <= j < |pairs| ==> pairs[j].0 != k
    ensures forall j :: 0 <= j < |pairs| && pairs[j].0 == k && (forall j' :: j < j' < |pairs| ==> pairs[j'].0 != k)
              ==> Get(FromPairs(pairs), k) == Some(pairs[j].1)
  {
    FromPairsAbsent(pairs, k);
    forall j | 0 <= j < |pairs| && pairs[j].0 == k && (forall j' :: j < j' < |pairs| ==> pairs[j'].0 != k)
      ensures Get(FromPairs(pairs), k) == Some(pairs[j].1)
    {
      FromPairsLastWins(pairs, k, j);
    }
  }

  /** `dict(pairs)` has at most as many entries as there are pairs. */
  lemma {:induction false} FromPairsLength<K, V>(pairs: seq<(K, V)>)
    ensures |FromPairs(pairs)| <= |pairs|
  {
    if pairs != [] {
      var n := |pairs| - 1;
      FromPairsLength(pairs[..n]);
    }
  }
}
