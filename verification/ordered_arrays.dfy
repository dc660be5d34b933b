/** PHP arrays with keys, as the replicator uses them for its file set
    (`$files`), its structure map (`$structure`) and the package files it
    generates: the keys in insertion order, and the value under each key. */
module OrderedArrays {

  datatype OArray<K(==,!new), V> = OArray(keys: seq<K>, vals: map<K, V>) {

    /** Every key occurs once in the order, and the order lists exactly the keys. */
    ghost predicate Valid() {
      && (forall i, j :: 0 <= i < j < |keys| ==> keys[i] != keys[j])
      && (forall k :: k in vals <==> k in keys)
    }

    /** `$a[k] = v`: a new key goes to the end; an existing key keeps its
        place and only its value changes. */
    function Put(k: K, v: V): (r: OArray<K, V>)
      ensures keys <= r.keys
      ensures |r.keys| == if k in vals then |keys| else |keys| + 1
      ensures r.vals == vals[k := v]
    {
      if k in vals then OArray(keys, vals[k := v]) else OArray(keys + [k], vals[k := v])
    }

    /** `unset($a[k])`: the key leaves the order and the map; the other
        keys keep their order and their values. */
    function Unset(k: K): (r: OArray<K, V>)
      ensures r.keys == Without(keys, k, |keys|)
      ensures r.vals == vals - {k}
    {
      OArray(Without(keys, k, |keys|), vals - {k})
    }

    /** Assigning a key keeps every key once and in step with the values. */
    lemma PutValid(k: K, v: V)
      requires Valid()
      ensures Put(k, v).Valid()
    {
    }

    /** So does unsetting one. */
    lemma UnsetValid(k: K)
      requires Valid()
      ensures Unset(k).Valid()
    {
      WithoutDistinct(keys, k, |keys|);
    }
  }

  function EmptyArray<K(==,!new), V>(): (r: OArray<K, V>)
    ensures r.Valid() && r.keys == []
  {
    OArray([], map[])
  }

  ghost predicate NoRepeats<K>(s: seq<K>) {
    forall i, j :: 0 <= i < j < |s| ==> s[i] != s[j]
  }

  /** The keys among the first `n` of `s` other than `k`, in their order. */
  function Without<K(==,!new)>(s: seq<K>, k: K, n: nat): (r: seq<K>)
    requires n <= |s|
    ensures forall x :: x in r ==> x != k && exists i :: 0 <= i < n && s[i] == x
    ensures forall i :: 0 <= i < n && s[i] != k ==> s[i] in r
    decreases n
  {
    if n == 0 then [] else Without(s, k, n - 1) + (if s[n - 1] == k then [] else [s[n - 1]])
  }

  /** Leaving a key out of a sequence without repetitions keeps it without
      repetitions. */
  lemma {:induction false} WithoutDistinct<K(!new)>(s: seq<K>, k: K, n: nat)
    requires n <= |s|
    ensures NoRepeats(s) ==> NoRepeats(Without(s, k, n))
    decreases n
  {
    if n > 0 {
      WithoutDistinct(s, k, n - 1);
      var rest := Without(s, k, n - 1);
      if NoRepeats(s) && s[n - 1] != k {
        var r := rest + [s[n - 1]];
        forall i, j | 0 <= i < j < |r|
          ensures r[i] != r[j]
        {
          assert r[i] == rest[i] && rest[i] in rest;
          if j < |rest| {
            assert r[j] == rest[j];
          }
        }
      }
    }
  }
}
