/** A Python `dict` from column labels to p-values. Python dicts iterate
    in insertion order, and assigning to a key that is already present
    replaces its value without moving it; the model keeps the key order as
    a sequence beside the map. */
module PyDict {
  import opened Counting

  datatype Dict = Dict(keys: seq<string>, entries: map<string, real>)

  /** The dict invariant: each key once in the order, and the order lists
      exactly the keys of the map. */
  predicate Valid(d: Dict) {
    && Distinct(d.keys)
    && (forall k :: k in d.keys ==> k in d.entries)
    && (forall k :: k in d.entries ==> k in d.keys)
  }

  /** `{}` */
  function Empty(): (d: Dict)
    ensures Valid(d) && d.keys == [] && d.entries == map[]
  {
    Dict([], map[])
  }

  /** `d[k] = v`: keeps the dict invariant, stores `v` under `k`, leaves
      every other entry alone, and appends `k` to the order only if it is
      new. */
  function Assign(d: Dict, k: string, v: real): (r: Dict)
    requires Valid(d)
    ensures Valid(r)
    ensures k in r.entries && r.entries[k] == v
    ensures forall j :: j != k ==> (j in r.entries <==> j in d.entries)
    ensures forall j :: j != k && j in d.entries ==> r.entries[j] == d.entries[j]
    ensures r.keys == if k in d.keys then d.keys else d.keys + [k]
  {
    Dict(if k in d.entries then d.keys else d.keys + [k], d.entries[k := v])
  }

  /** The dict built by `d = {}` followed by `d[keys[k]] = vals[k]` for
      k = 0, 1, ... in order. */
  function FromPairs(keys: seq<string>, vals: seq<real>): (d: Dict)
    requires |keys| == |vals|
    ensures Valid(d)
  {
    if |keys| == 0 then Empty()
    else Assign(FromPairs(keys[..|keys| - 1], vals[..|vals| - 1]), keys[|keys| - 1], vals[|vals| - 1])
  }

  /** One more assignment extends the pairs by one. */
  lemma FromPairsSnoc(keys: seq<string>, vals: seq<real>, i: nat)
    requires |keys| == |vals| && i < |keys|
    ensures FromPairs(keys[..i + 1], vals[..i + 1]) == Assign(FromPairs(keys[..i], vals[..i]), keys[i], vals[i])
  {
    assert keys[..i + 1][..i] == keys[..i] && vals[..i + 1][..i] == vals[..i];
  }

  /** A repeated key is always given the same value. */
  predicate Consistent(keys: seq<string>, vals: seq<real>)
    requires |keys| == |vals|
  {
    forall k, j :: 0 <= k < |keys| && 0 <= j < |keys| && keys[k] == keys[j] ==> vals[k] == vals[j]
  }

  /** Filling a dict from key/value pairs keeps the distinct keys in
      first-insertion order, and no other key. */
  lemma {:induction false} FromPairsKeys(keys: seq<string>, vals: seq<real>)
    requires |keys| == |vals|
    ensures FromPairs(keys, vals).keys == Unique(keys)
    ensures forall c :: c in FromPairs(keys, vals).entries ==> c in keys
  {
    if |keys| > 0 {
      var n := |keys| - 1;
      FromPairsKeys(keys[..n], vals[..n]);
    }
    UniqueElements(keys);
  }

  /** Under each key the dict holds the value paired with it. */
  lemma {:induction false} FromPairsValues(keys: seq<string>, vals: seq<real>)
    requires |keys| == |vals| && Consistent(keys, vals)
    ensures forall k :: 0 <= k < |keys| ==>
      keys[k] in FromPairs(keys, vals).entries && FromPairs(keys, vals).entries[keys[k]] == vals[k]
  {
    if |keys| > 0 {
      var n := |keys| - 1;
      var ks, vs := keys[..n], vals[..n];
      assert Consistent(ks, vs) by {
        forall k, j | 0 <= k < n && 0 <= j < n && ks[k] == ks[j] ensures vs[k] == vs[j] {
          assert keys[k] == keys[j];
        }
      }
      FromPairsValues(ks, vs);
      var d := FromPairs(ks, vs);
      var r := FromPairs(keys, vals);
      assert r == Assign(d, keys[n], vals[n]);
      forall k | 0 <= k < n ensures keys[k] in r.entries && r.entries[keys[k]] == vals[k] {
        assert ks[k] == keys[k] && vs[k] == vals[k];
        if keys[k] == keys[n] {
          assert vals[k] == vals[n];
        }
      }
    }
  }

  /** With distinct keys the dict lists exactly the keys, in order, each
      with its own value. */
  lemma FromPairsDistinct(keys: seq<string>, vals: seq<real>)
    requires |keys| == |vals| && Distinct(keys)
    ensures FromPairs(keys, vals).keys == keys
    ensures forall k :: 0 <= k < |keys| ==>
      keys[k] in FromPairs(keys, vals).entries && FromPairs(keys, vals).entries[keys[k]] == vals[k]
  {
    FromPairsKeys(keys, vals);
    UniqueOfDistinct(keys);
    assert Consistent(keys, vals);
    FromPairsValues(keys, vals);
  }
}
