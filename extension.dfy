/**
 * `PipeValueExtension`: filtering, mapping, searching and flattening of a
 * value's enumerable entries. Arrays give arrays back and objects give
 * objects with the same keys; any other value has no entries.
 */
module Extension {
  import opened Wrappers
  import opened Values
  import opened Lambdas
  import opened Builder

  predicate Keeps(fn: PipeLambda, e: (string, Value)) { Truthy(InvokeEntry(fn, e)) }

  /** The entries the lambda accepts, in their original order. */
  function Kept(entries: seq<(string, Value)>, fn: PipeLambda): (r: seq<(string, Value)>)
    ensures |r| <= |entries|
  {
    if entries == [] then []
    else
      var last := entries[|entries| - 1];
      Kept(entries[..|entries| - 1], fn) + (if Keeps(fn, last) then [last] else [])
  }

  /** An entry is kept exactly when it is one of the input entries and the lambda accepts it. */
  lemma {:induction false} KeptMembers(entries: seq<(string, Value)>, fn: PipeLambda)
    ensures forall e :: e in Kept(entries, fn) <==> e in entries && Keeps(fn, e)
  {
    if entries != [] {
      var init := entries[..|entries| - 1];
      KeptMembers(init, fn);
      assert entries == init + [entries[|entries| - 1]];
    }
  }

  /** Keeping a sub-list of uniquely keyed entries keeps the keys unique. */
  lemma {:induction false} KeptUnique(entries: seq<(string, Value)>, fn: PipeLambda)
    requires UniqueKeys(entries)
    ensures UniqueKeys(Kept(entries, fn))
  {
    if entries != [] {
      var init := entries[..|entries| - 1];
      var last := entries[|entries| - 1];
      KeptUnique(init, fn);
      KeptMembers(init, fn);
      var k := Kept(init, fn);
      forall i | 0 <= i < |k| ensures k[i].0 != last.0 {
        assert k[i] in init;
        var j :| 0 <= j < |init| && init[j] == k[i];
        assert entries[j] == k[i];
      }
    }
  }

  /** The builder items an entry list becomes in the given mode. */
  function SlotsOf(entries: seq<(string, Value)>, isArray: bool): (r: seq<Slot>)
    ensures |r| == |entries|
  {
    if entries == [] then []
    else
      var e := entries[|entries| - 1];
      SlotsOf(entries[..|entries| - 1], isArray) + [if isArray then Element(e.1) else Entry(e.0, e.1)]
  }

  lemma {:induction false} SlotsOfAt(entries: seq<(string, Value)>, isArray: bool, i: nat)
    requires i < |entries|
    ensures SlotsOf(entries, isArray)[i] == if isArray then Element(entries[i].1) else Entry(entries[i].0, entries[i].1)
  {
    if i < |entries| - 1 { SlotsOfAt(entries[..|entries| - 1], isArray, i); }
  }

  lemma SlotsOfReadBack(entries: seq<(string, Value)>, isArray: bool)
    ensures isArray ==> SlotValues(SlotsOf(entries, true)) == EntryValues(entries)
    ensures !isArray ==> forall i :: 0 <= i < |entries| ==> SlotsOf(entries, false)[i].Entry?
    ensures !isArray ==> KeyedPairs(SlotsOf(entries, false)) == entries
  {
    forall i | 0 <= i < |entries| ensures SlotsOf(entries, isArray)[i] == if isArray then Element(entries[i].1) else Entry(entries[i].0, entries[i].1) {
      SlotsOfAt(entries, isArray, i);
    }
  }

  lemma KeptAppend(entries: seq<(string, Value)>, e: (string, Value), fn: PipeLambda)
    ensures Kept(entries + [e], fn) == Kept(entries, fn) + (if Keeps(fn, e) then [e] else [])
  {
    assert (entries + [e])[..|entries|] == entries;
  }

  lemma SlotsOfAppend(entries: seq<(string, Value)>, e: (string, Value), isArray: bool)
    ensures SlotsOf(entries + [e], isArray) == SlotsOf(entries, isArray) + [if isArray then Element(e.1) else Entry(e.0, e.1)]
  {
    assert (entries + [e])[..|entries|] == entries;
  }

  lemma KeptStep(start: seq<Slot>, entries: seq<(string, Value)>, i: nat, fn: PipeLambda, isArray: bool)
    requires i < |entries|
    ensures start + SlotsOf(Kept(entries[..i + 1], fn), isArray)
      == start + SlotsOf(Kept(entries[..i], fn), isArray)
         + (if Keeps(fn, entries[i]) then [if isArray then Element(entries[i].1) else Entry(entries[i].0, entries[i].1)] else [])
  {
    var prefix := entries[..i];
    assert entries[..i + 1] == prefix + [entries[i]];
    KeptAppend(prefix, entries[i], fn);
    var kept := Kept(prefix, fn);
    if Keeps(fn, entries[i]) {
      SlotsOfAppend(kept, entries[i], isArray);
      assert Kept(entries[..i + 1], fn) == kept + [entries[i]];
    } else {
      assert Kept(entries[..i + 1], fn) == kept;
    }
  }

  /** The loop of `Where`: add every accepted entry to the builder, in order. */
  method AddKept(collection: ObjectBuilder, entries: seq<(string, Value)>, fn: PipeLambda)
    requires collection.Valid()
    modifies collection
    ensures collection.Valid()
    ensures collection.slots == old(collection.slots) + SlotsOf(Kept(entries, fn), collection.isArray)
  {
    ghost var start := collection.slots;
    var i := 0;
    while i < |entries|
      invariant 0 <= i <= |entries|
      invariant collection.Valid()
      invariant collection.slots == start + SlotsOf(Kept(entries[..i], fn), collection.isArray)
    {
      KeptStep(start, entries, i, fn, collection.isArray);
      var (key, value) := entries[i];
      if Truthy(InvokeEntry(fn, (key, value))) {
        collection.Add(value, key);
      }
      i := i + 1;
    }
    assert entries[..i] == entries;
  }

  /**
   * `Where(value, fn)`: the entries the lambda accepts, as an array for an
   * array and as an object (same keys) otherwise.
   */
  method Where(value: Value, fn: PipeLambda) returns (r: Result<Value, BuildError>)
    ensures IsArrayLike(value) ==> r == Ok(Arr(EntryValues(Kept(Entries(value), fn))))
    ensures !IsArrayLike(value) ==> (r.Ok? <==> UniqueKeys(Kept(Entries(value), fn)))
    ensures !IsArrayLike(value) && r.Ok? ==> r.value == Obj(Kept(Entries(value), fn))
  {
    var collection := new ObjectBuilder(IsArrayLike(value));
    AddKept(collection, Entries(value), fn);
    assert collection.slots == SlotsOf(Kept(Entries(value), fn), IsArrayLike(value));
    SlotsOfReadBack(Kept(Entries(value), fn), IsArrayLike(value));
    r := collection.ToPipeValue();
  }

  /** Filtering an object whose keys are distinct never fails. */
  lemma WhereObjectSucceeds(entries: seq<(string, Value)>, fn: PipeLambda)
    requires UniqueKeys(entries)
    ensures UniqueKeys(Kept(Entries(Obj(entries)), fn))
  {
    KeptUnique(entries, fn);
  }

  function Mapped(entries: seq<(string, Value)>, fn: PipeLambda): (r: seq<(string, Value)>)
    ensures |r| == |entries| && forall i :: 0 <= i < |r| ==> r[i] == (entries[i].0, InvokeEntry(fn, entries[i]))
  {
    seq(|entries|, i requires 0 <= i < |entries| => (entries[i].0, InvokeEntry(fn, entries[i])))
  }

  /** The loop of `Map`: add every entry's image to the builder, in order. */
  method AddMapped(collection: ObjectBuilder, entries: seq<(string, Value)>, fn: PipeLambda)
    requires collection.Valid()
    modifies collection
    ensures collection.Valid()
    ensures collection.slots == old(collection.slots) + SlotsOf(Mapped(entries, fn), collection.isArray)
  {
    ghost var start := collection.slots;
    var i := 0;
    while i < |entries|
      invariant 0 <= i <= |entries|
      invariant collection.Valid()
      invariant collection.slots == start + SlotsOf(Mapped(entries[..i], fn), collection.isArray)
    {
      ghost var prefix := entries[..i];
      ghost var mapped := Mapped(prefix, fn);
      var e' := (entries[i].0, InvokeEntry(fn, entries[i]));
      MappedAppend(entries, i, fn);
      collection.Add(e'.1, e'.0);
      SlotsOfAppend(mapped, e', collection.isArray);
      assert collection.slots == start + SlotsOf(mapped + [e'], collection.isArray);
      i := i + 1;
    }
    assert entries[..i] == entries;
  }

  lemma MappedAppend(entries: seq<(string, Value)>, i: nat, fn: PipeLambda)
    requires i < |entries|
    ensures Mapped(entries[..i + 1], fn) == Mapped(entries[..i], fn) + [(entries[i].0, InvokeEntry(fn, entries[i]))]
  {
  }

  /** Mapping keeps the keys, so it keeps them distinct or repeated alike. */
  lemma MappedKeys(entries: seq<(string, Value)>, fn: PipeLambda)
    ensures KeysOf(Mapped(entries, fn)) == KeysOf(entries)
    ensures UniqueKeys(Mapped(entries, fn)) <==> UniqueKeys(entries)
  {
    var m := Mapped(entries, fn);
    assert forall j :: 0 <= j < |m| ==> m[j].0 == entries[j].0;
  }

  /**
   * Mapping with the constant factory's lambda keeps the keys and replaces
   * every value by the constant; mapping with the property-access factory's
   * lambda keeps the keys and reads the named property of every value.
   */
  lemma MapWithFactories(entries: seq<(string, Value)>, obj: Value, name: string)
    ensures var m := Mapped(entries, CreateLambda(ConstantFactory, obj));
      KeysOf(m) == KeysOf(entries) && forall i :: 0 <= i < |m| ==> m[i].1 == obj
    ensures var m := Mapped(entries, CreateLambda(PropertyAccessFactory, Str(name)));
      KeysOf(m) == KeysOf(entries) && forall i :: 0 <= i < |m| ==> m[i].1 == Get(entries[i].1, name)
  {
    MappedKeys(entries, CreateLambda(ConstantFactory, obj));
    MappedKeys(entries, CreateLambda(PropertyAccessFactory, Str(name)));
  }

  /**
   * `Map(value, fn)`: every entry replaced by the lambda's result, an array
   * for an array and an object with the same keys otherwise.
   */
  method Map(value: Value, fn: PipeLambda) returns (r: Result<Value, BuildError>)
    ensures IsArrayLike(value) ==> r == Ok(Arr(EntryValues(Mapped(Entries(value), fn))))
    ensures !IsArrayLike(value) ==> (r.Ok? <==> UniqueKeys(Entries(value)))
    ensures !IsArrayLike(value) && r.Ok? ==> r.value == Obj(Mapped(Entries(value), fn))
  {
    var collection := new ObjectBuilder(IsArrayLike(value));
    AddMapped(collection, Entries(value), fn);
    assert collection.slots == SlotsOf(Mapped(Entries(value), fn), IsArrayLike(value));
    SlotsOfReadBack(Mapped(Entries(value), fn), IsArrayLike(value));
    MappedKeys(Entries(value), fn);
    r := collection.ToPipeValue();
  }

  /** Position of the first entry for which the lambda's verdict, flipped by `negate`, is true. */
  function FirstMatch(entries: seq<(string, Value)>, fn: PipeLambda, negate: bool): (r: Option<nat>)
    ensures r.Some? ==> r.value < |entries| && negate != Keeps(fn, entries[r.value])
    ensures r.Some? ==> forall j :: 0 <= j < r.value ==> negate == Keeps(fn, entries[j])
    ensures r.None? ==> forall j :: 0 <= j < |entries| ==> negate == Keeps(fn, entries[j])
  {
    if entries == [] then None
    else if negate != Keeps(fn, entries[0]) then Some(0)
    else match FirstMatch(entries[1..], fn, negate)
      case Some(k) => Some(k + 1)
      case None => None
  }

  /**
   * `First(value, fn, returnBoolean, negate)`: the first entry's value whose
   * verdict (flipped by `negate`) holds, or `true`; otherwise undefined, or `false`.
   */
  method First(value: Value, fn: PipeLambda, returnBoolean: bool, negate: bool) returns (r: Value)
    ensures match FirstMatch(Entries(value), fn, negate)
      case Some(i) => r == if returnBoolean then Bool(true) else Entries(value)[i].1
      case None => r == if returnBoolean then Bool(false) else Undefined
  {
    var entries := Entries(value);
    var i := 0;
    while i < |entries|
      invariant 0 <= i <= |entries|
      invariant forall j :: 0 <= j < i ==> negate == Keeps(fn, entries[j])
    {
      if negate != Truthy(InvokeEntry(fn, entries[i])) {
        FirstMatchIs(entries, fn, negate, i);
        return if returnBoolean then Bool(true) else entries[i].1;
      }
      i := i + 1;
    }
    return if returnBoolean then Bool(false) else Undefined;
  }

  lemma FirstMatchIs(entries: seq<(string, Value)>, fn: PipeLambda, negate: bool, i: nat)
    requires i < |entries| && negate != Keeps(fn, entries[i])
    requires forall j :: 0 <= j < i ==> negate == Keeps(fn, entries[j])
    ensures FirstMatch(entries, fn, negate) == Some(i)
  {
    var r := FirstMatch(entries, fn, negate);
    assert r.Some?;
    if r.value < i {} else if r.value > i {}
  }

  // ---------------------------------------------------------------- flattening

  predicate Flat(v: Value) { !v.Arr? && !IsNullOrUndefined(v) }

  function KeepDefined(xs: seq<Value>): (r: seq<Value>)
    ensures |r| <= |xs| && forall i :: 0 <= i < |r| ==> !IsNullOrUndefined(r[i]) && r[i] in xs
  {
    if xs == [] then [] else KeepDefined(xs[..|xs| - 1]) + (if IsNullOrUndefined(xs[|xs| - 1]) then [] else [xs[|xs| - 1]])
  }

  /** What one element contributes to a flattened array: nothing for null or undefined. */
  function Piece(x: Value): (r: seq<Value>)
    ensures forall i :: 0 <= i < |r| ==> Flat(r[i])
    decreases x, 2
  {
    if x.Arr? then KeepDefined(FlatPrefix(x, |x.items|))
    else if IsNullOrUndefined(x) then [] else [x]
  }

  /** The leaves of the first `n` elements of an array, in order, null and undefined dropped. */
  function FlatPrefix(whole: Value, n: nat): (r: seq<Value>)
    requires whole.Arr? && n <= |whole.items|
    ensures forall i :: 0 <= i < |r| ==> Flat(r[i])
    decreases whole, 1, n
  {
    if n == 0 then [] else FlatPrefix(whole, n - 1) + Piece(whole.items[n - 1])
  }

  /** The flattened form of a value: arrays lose their nesting, other values stay as they are. */
  function Flattened(v: Value): (r: Value)
    ensures v.Arr? ==> r.Arr? && forall i :: 0 <= i < |r.items| ==> Flat(r.items[i])
    ensures !v.Arr? ==> r == v
  {
    if v.Arr? then Arr(FlatPrefix(v, |v.items|)) else v
  }

  /** Dropping null and undefined from a list that has none changes nothing. */
  lemma {:induction false} KeepDefinedNoop(xs: seq<Value>)
    requires forall i :: 0 <= i < |xs| ==> !IsNullOrUndefined(xs[i])
    ensures KeepDefined(xs) == xs
  {
    if xs != [] { KeepDefinedNoop(xs[..|xs| - 1]); }
  }

  /** Flattening twice is flattening once. */
  lemma FlattenIdempotent(v: Value)
    ensures Flattened(Flattened(v)) == Flattened(v)
  {
    if v.Arr? {
      var w := Flattened(v);
      FlatPrefixOfFlat(w, |w.items|);
    }
  }

  lemma {:induction false} FlatPrefixOfFlat(w: Value, n: nat)
    requires w.Arr? && n <= |w.items| && forall i :: 0 <= i < |w.items| ==> Flat(w.items[i])
    ensures FlatPrefix(w, n) == w.items[..n]
  {
    if n > 0 {
      FlatPrefixOfFlat(w, n - 1);
      assert w.items[..n] == w.items[..n - 1] + [w.items[n - 1]];
    }
  }

  /** The inner loop of `Flatten`: add every element that is neither null nor undefined. */
  method AddDefined(dst: ObjectBuilder, xs: seq<Value>)
    requires dst.Valid() && dst.isArray
    modifies dst
    ensures dst.Valid() && dst.isArray
    ensures SlotValues(dst.slots) == old(SlotValues(dst.slots)) + KeepDefined(xs)
  {
    ghost var start := SlotValues(dst.slots);
    var j := 0;
    while j < |xs|
      invariant 0 <= j <= |xs|
      invariant dst.Valid() && dst.isArray
      invariant SlotValues(dst.slots) == start + KeepDefined(xs[..j])
    {
      assert xs[..j + 1][..j] == xs[..j];
      if xs[j] != Null && xs[j] != Undefined {
        SlotValuesAppend(dst.slots, Element(xs[j]));
        dst.Add(xs[j], "");
      }
      j := j + 1;
    }
    assert xs[..j] == xs;
  }

  /** `Flatten(src)`: nested arrays spliced in place, null and undefined dropped at every level. */
  method Flatten(src: Value) returns (r: Value)
    ensures r == Flattened(src)
    decreases src
  {
    if !IsArrayLike(src) {
      return src;
    }
    var dst := new ObjectBuilder(true);
    var i := 0;
    while i < |src.items|
      invariant 0 <= i <= |src.items|
      invariant dst.Valid() && dst.isArray
      invariant SlotValues(dst.slots) == FlatPrefix(src, i)
    {
      var value := src.items[i];
      if IsArrayLike(value) {
        var fvalue := Flatten(value);
        AddDefined(dst, fvalue.items);
      } else if value != Null && value != Undefined {
        SlotValuesAppend(dst.slots, Element(value));
        dst.Add(value, "");
      }
      i := i + 1;
    }
    var built := dst.ToPipeValue();
    return built.value;
  }

  /** The source drops null and undefined from an already flattened array a second time: that filter removes nothing. */
  lemma InnerFilterRedundant(x: Value)
    requires x.Arr?
    ensures Piece(x) == FlatPrefix(x, |x.items|)
  {
    KeepDefinedNoop(FlatPrefix(x, |x.items|));
  }

  /** `ToArray(arr)`: an array's elements, or the value alone. */
  function ToArray(v: Value): (r: seq<Value>)
    ensures IsArrayLike(v) ==> r == EnumerateValues(v)
    ensures !IsArrayLike(v) ==> r == [v]
  {
    if IsArrayLike(v) then EnumerateValues(v) else [v]
  }

  /**
   * An array's elements are its items, so turning the elements of any value
   * into an array and back gives the same elements.
   */
  lemma ToArrayElements(xs: seq<Value>, v: Value)
    ensures ToArray(Arr(xs)) == xs
    ensures ToArray(Arr(ToArray(v))) == ToArray(v)
  {
    assert EnumerateValues(Arr(xs)) == xs;
    assert EnumerateValues(Arr(ToArray(v))) == ToArray(v);
  }
}
