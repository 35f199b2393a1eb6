/**
 * `PipeValueObjectBuilder`: collects values (array mode) or key/value pairs
 * (object mode) and turns them into an array or an object. An object whose
 * collected keys repeat cannot be built: the dictionary refuses the second key.
 */
module Builder {
  import opened Wrappers
  import opened Values

  /** One collected item: an element in array mode, a keyed entry in object mode. */
  datatype Slot = Element(value: Value) | Entry(key: string, value: Value)

  datatype BuildError = DuplicateKey(key: string)

  function KeyedPairs(slots: seq<Slot>): (r: seq<(string, Value)>)
    requires forall i :: 0 <= i < |slots| ==> slots[i].Entry?
    ensures |r| == |slots| && forall i :: 0 <= i < |r| ==> r[i] == (slots[i].key, slots[i].value)
  {
    if slots == [] then [] else [(slots[0].key, slots[0].value)] + KeyedPairs(slots[1..])
  }

  function SlotValues(slots: seq<Slot>): (r: seq<Value>)
    ensures |r| == |slots| && forall i :: 0 <= i < |r| ==> r[i] == slots[i].value
  {
    if slots == [] then [] else [slots[0].value] + SlotValues(slots[1..])
  }

  /** The string-keyed entries of a dictionary, in order, as key/value pairs; entries with other keys are skipped. */
  function StringKeyed(dictionary: seq<(Value, Value)>): (r: seq<(string, Value)>)
    ensures |r| <= |dictionary|
  {
    if dictionary == [] then []
    else
      var last := dictionary[|dictionary| - 1];
      StringKeyed(dictionary[..|dictionary| - 1]) + (if last.0.Str? then [(last.0.s, last.1)] else [])
  }

  lemma SlotValuesAppend(slots: seq<Slot>, x: Slot)
    ensures SlotValues(slots + [x]) == SlotValues(slots) + [x.value]
  {
    assert forall i :: 0 <= i < |slots| ==> (slots + [x])[i] == slots[i];
  }

  class ObjectBuilder {
    const isArray: bool
    var slots: seq<Slot>

    ghost predicate Valid()
      reads this
    {
      forall i :: 0 <= i < |slots| ==> (if isArray then slots[i].Element? else slots[i].Entry?)
    }

    /** `new PipeValueObjectBuilder(isArray)`: an empty builder in the given mode. */
    constructor (isArray: bool)
      ensures Valid() && this.isArray == isArray && slots == []
    {
      this.isArray := isArray;
      slots := [];
    }

    /** `new PipeValueObjectBuilder(values)`: an array builder holding `values` in order. */
    constructor FromValues(values: seq<Value>)
      ensures Valid() && isArray && SlotValues(slots) == values
    {
      isArray := true;
      var collected: seq<Slot> := [];
      var i := 0;
      while i < |values|
        invariant 0 <= i <= |values|
        invariant |collected| == i
        invariant forall k :: 0 <= k < i ==> collected[k] == Element(values[k])
      {
        collected := collected + [Element(values[i])];
        i := i + 1;
      }
      slots := collected;
    }

    /**
     * `new PipeValueObjectBuilder(dictionary)`: an object builder holding the
     * dictionary's string-keyed entries in order; entries with keys of any
     * other type are skipped.
     */
    constructor FromDictionary(dictionary: seq<(Value, Value)>)
      ensures Valid() && !isArray
      ensures |slots| <= |dictionary|
      ensures forall i :: 0 <= i < |slots| ==> (Str(slots[i].key), slots[i].value) in dictionary
      ensures (forall i :: 0 <= i < |slots| ==> slots[i].Entry?) && KeyedPairs(slots) == StringKeyed(dictionary)
    {
      isArray := false;
      var collected: seq<Slot> := [];
      ghost var origin: seq<nat> := [];
      var i := 0;
      while i < |dictionary|
        invariant 0 <= i <= |dictionary| && |collected| <= i && |origin| == |collected|
        invariant forall k :: 0 <= k < |collected| ==> collected[k].Entry?
        invariant forall k :: 0 <= k < |collected| ==> origin[k] < i && dictionary[origin[k]] == (Str(collected[k].key), collected[k].value)
        invariant KeyedPairs(collected) == StringKeyed(dictionary[..i])
      {
        assert dictionary[..i + 1][..i] == dictionary[..i];
        if dictionary[i].0.Str? {
          collected := collected + [Entry(dictionary[i].0.s, dictionary[i].1)];
          origin := origin + [i];
        }
        i := i + 1;
      }
      assert dictionary[..i] == dictionary;
      assert forall k :: 0 <= k < |collected| ==> dictionary[origin[k]] in dictionary;
      slots := collected;
    }

    /** `Count`: how many items have been collected. */
    function Count(): (n: nat)
      reads this
      ensures n == |slots|
    {
      |slots|
    }

    /** `Add(value, key)`: append the value, under `key` in object mode. */
    method Add(value: Value, key: string)
      requires Valid()
      modifies this
      ensures Valid()
      ensures slots == old(slots) + [if isArray then Element(value) else Entry(key, value)]
    {
      if isArray {
        slots := slots + [Element(value)];
      } else {
        slots := slots + [Entry(key, value)];
      }
    }

    /**
     * `ToPipeValue()`: an array of the collected values, or an object of the
     * collected entries in order; building the object fails at the first key
     * that repeats an earlier one.
     */
    method ToPipeValue() returns (r: Result<Value, BuildError>)
      requires Valid()
      ensures isArray ==> r == Ok(Arr(SlotValues(slots)))
      ensures !isArray ==> (r.Ok? <==> UniqueKeys(KeyedPairs(slots)))
      ensures !isArray && r.Ok? ==> r.value == Obj(KeyedPairs(slots))
      ensures r.Err? ==> exists i :: 0 <= i < |slots| && slots[i].key == r.error.key
    {
      if isArray {
        return Ok(Arr(SlotValues(slots)));
      }
      var pairs := KeyedPairs(slots);
      var dictionary: seq<(string, Value)> := [];
      var i := 0;
      while i < |pairs|
        invariant 0 <= i <= |pairs|
        invariant dictionary == pairs[..i] && UniqueKeys(dictionary)
      {
        if Lookup(dictionary, pairs[i].0).Some? {
          var j :| 0 <= j < i && dictionary[j].0 == pairs[i].0;
          assert pairs[j].0 == pairs[i].0;
          return Err(DuplicateKey(pairs[i].0));
        }
        dictionary := dictionary + [pairs[i]];
        i := i + 1;
      }
      assert pairs[..i] == pairs;
      r := Ok(Obj(dictionary));
    }
  }
}
