/** A plain JavaScript object used as a dictionary (the source's `StringMap`):
    its own keys in insertion order and the value under each key. The static
    type says values are `string | string[]`; at run time any value can be
    stored (a header argument, an undefined content type), so values are
    JsValue. */
module StringMaps {
  import opened JsValues

  datatype RawStringMap = RawStringMap(keys: seq<string>, entries: map<string, JsValue>)

  /** Keys are distinct and are exactly the keys that have an entry. */
  ghost predicate WellFormed(m: RawStringMap)
  {
    && (forall i, j :: 0 <= i < j < |m.keys| ==> m.keys[i] != m.keys[j])
    && (forall k :: k in m.entries <==> k in m.keys)
  }

  type StringMap = m: RawStringMap | WellFormed(m) witness RawStringMap([], map[])

  /** `{}` */
  function EmptyMap(): (r: StringMap)
    ensures r.keys == [] && r.entries == map[]
  {
    RawStringMap([], map[])
  }

  /** `k in m` for an own key. */
  predicate Has(m: StringMap, k: string)
  {
    k in m.entries
  }

  /** `m[k]`: the stored value, or undefined for a missing key. */
  function Get(m: StringMap, k: string): (r: JsValue)
    ensures !Has(m, k) ==> r == Undefined
  {
    if k in m.entries then m.entries[k] else Undefined
  }

  /** The number of own keys. */
  function Size(m: StringMap): nat
  {
    |m.keys|
  }

  /** `m[k] = v`: a new key goes last, an existing key keeps its place. */
  function Put(m: StringMap, k: string, v: JsValue): (r: StringMap)
    ensures Has(r, k) && Get(r, k) == v
    ensures forall j :: j != k ==> Has(r, j) == Has(m, j) && Get(r, j) == Get(m, j)
    ensures Size(r) == if Has(m, k) then Size(m) else Size(m) + 1
    ensures |r.keys| >= |m.keys| && r.keys[..|m.keys|] == m.keys
  {
    if k in m.entries then RawStringMap(m.keys, m.entries[k := v])
    else RawStringMap(m.keys + [k], m.entries[k := v])
  }

  /** The keys without k. */
  function WithoutKey(keys: seq<string>, k: string): (r: seq<string>)
    ensures forall x :: x in r <==> x in keys && x != k
    ensures (forall i, j :: 0 <= i < j < |keys| ==> keys[i] != keys[j]) ==>
              (forall i, j :: 0 <= i < j < |r| ==> r[i] != r[j])
    ensures k !in keys ==> r == keys
    ensures (forall i, j :: 0 <= i < j < |keys| ==> keys[i] != keys[j]) && k in keys ==>
              |r| == |keys| - 1
  {
    if |keys| == 0 then []
    else if keys[0] == k then WithoutKey(keys[1..], k)
    else
      var rest := WithoutKey(keys[1..], k);
      assert (forall i, j :: 0 <= i < j < |keys| ==> keys[i] != keys[j]) ==> keys[0] !in keys[1..];
      [keys[0]] + rest
  }

  /** `delete m[k]`: tolerates a missing key. */
  function Remove(m: StringMap, k: string): (r: StringMap)
    ensures !Has(r, k)
    ensures forall j :: j != k ==> Has(r, j) == Has(m, j) && Get(r, j) == Get(m, j)
    ensures Size(r) == if Has(m, k) then Size(m) - 1 else Size(m)
    ensures !Has(m, k) ==> r == m
  {
    RawStringMap(WithoutKey(m.keys, k), m.entries - {k})
  }

  /** The key count equals the number of entries. */
  lemma {:induction false} SizeIsEntryCount(m: StringMap)
    ensures Size(m) == |m.entries|
  {
    DistinctCardinality(m.keys);
    assert m.entries.Keys == set k | k in m.keys;
  }

  lemma {:induction false} DistinctCardinality(keys: seq<string>)
    requires forall i, j :: 0 <= i < j < |keys| ==> keys[i] != keys[j]
    ensures |set k | k in keys| == |keys|
  {
    if |keys| > 0 {
      var rest := keys[1..];
      DistinctCardinality(rest);
      assert (set k | k in keys) == (set k | k in rest) + {keys[0]};
      assert keys[0] !in rest;
    }
  }

  /** Two maps with the same keys in the same order and the same values are equal. */
  lemma {:induction false} Extensionality(a: StringMap, b: StringMap)
    requires a.keys == b.keys
    requires forall k :: Get(a, k) == Get(b, k)
    ensures a == b
  {
    assert a.entries.Keys == b.entries.Keys;
    forall k | k in a.entries ensures a.entries[k] == b.entries[k] {
      assert Get(a, k) == Get(b, k);
    }
  }

  /** Putting k twice keeps only the later value. */
  lemma {:induction false} PutPut(m: StringMap, k: string, v: JsValue, w: JsValue)
    ensures Put(Put(m, k, v), k, w) == Put(m, k, w)
  {
    assert m.entries[k := v][k := w] == m.entries[k := w];
    if k !in m.entries {
      assert Put(m, k, v).keys == m.keys + [k];
    }
  }

  /** Removing twice removes once. */
  lemma {:induction false} RemoveIdempotent(m: StringMap, k: string)
    ensures Remove(Remove(m, k), k) == Remove(m, k)
  {
  }

  /** Putting and then removing a new key restores the map. */
  lemma {:induction false} RemoveUndoesPut(m: StringMap, k: string, v: JsValue)
    requires !Has(m, k)
    ensures Remove(Put(m, k, v), k) == m
  {
    var r := Remove(Put(m, k, v), k);
    WithoutKeyLast(m.keys, k);
    Extensionality(r, m);
  }

  lemma {:induction false} WithoutKeyLast(keys: seq<string>, k: string)
    requires k !in keys
    ensures WithoutKey(keys + [k], k) == keys
  {
    if |keys| == 0 {
      assert keys + [k] == [k];
    } else {
      assert (keys + [k])[1..] == keys[1..] + [k];
      WithoutKeyLast(keys[1..], k);
    }
  }
}
