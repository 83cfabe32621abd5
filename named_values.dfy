/** The NamedValues collection of named-values.ts: an object whose one field,
    `values`, is a StringMap that `set` and `remove` change in place.
    `contains` and `length`, which http-request-options.ts calls but
    named-values.ts does not define, are taken to mean own-key membership and
    the number of own keys. */
module NamedValuesLib {
  import opened JsValues
  import opened StringMaps

  class NamedValues {
    var values: StringMap

    /** A collection holding a copy of the initializer's entries, or none.
        The initializer is a value, so the copy is independent of it by
        representation. */
    constructor (initializer: Option<StringMap>)
      ensures values == if initializer.Some? then initializer.value else EmptyMap()
    {
      values := if initializer.Some? then initializer.value else EmptyMap();
    }

    /** Adds or changes the value under key. */
    method Set(key: string, value: JsValue)
      modifies this
      ensures values == Put(old(values), key, value)
    {
      values := Put(values, key, value);
    }

    /** The value under key, undefined when there is none. */
    function Get(key: string): (r: JsValue)
      reads this
      ensures key in values.entries ==> r == values.entries[key]
      ensures key !in values.entries ==> r == Undefined
    {
      StringMaps.Get(values, key)
    }

    /** Deletes key; a missing key is not an error. */
    method Remove(key: string)
      modifies this
      ensures values == StringMaps.Remove(old(values), key)
    {
      values := StringMaps.Remove(values, key);
    }

    /** Whether key is one of the collection's own keys. */
    function Contains(key: string): (r: bool)
      reads this
      ensures r <==> key in values.keys
    {
      Has(values, key)
    }

    /** The number of distinct keys. */
    function Length(): (r: nat)
      reads this
      ensures r == |values.entries|
    {
      SizeIsEntryCount(values);
      Size(values)
    }
  }

  /** A client of the collection: what named-values.spec.ts checks, proved from
      the contracts alone. The initializer is a value, so the collection's
      changes never reach it. */
  method CollectionScenario(initializer: StringMap, k: string, v: JsValue, w: JsValue)
    returns (afterSet: JsValue, afterOverwrite: JsValue, afterRemove: JsValue, afterSecondRemove: JsValue,
             sizeGrew: bool, sizeAfterSet: nat, sizeAfterOverwrite: nat)
    ensures afterSet == v && afterOverwrite == w && afterRemove == Undefined
    ensures sizeGrew == !Has(initializer, k)
    ensures sizeAfterOverwrite == sizeAfterSet
    ensures afterSecondRemove == Undefined
  {
    var c := new NamedValues(Some(initializer));
    var before := c.Length();
    c.Set(k, v);
    afterSet := c.Get(k);
    sizeAfterSet := c.Length();
    c.Set(k, w);
    afterOverwrite := c.Get(k);
    sizeAfterOverwrite := c.Length();
    c.Remove(k);
    afterRemove := c.Get(k);
    c.Remove(k);
    afterSecondRemove := c.Get(k);
    SizeIsEntryCount(initializer);
    sizeGrew := sizeAfterSet == before + 1;
  }
}
