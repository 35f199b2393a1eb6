/**
 * `EvaluationStack`: one frame of the interpreter's object stack. A frame
 * wraps a value; once iteration starts it walks the value's enumerable keys
 * and exposes the current element, its key and its position.
 */
module Frames {
  import opened Wrappers
  import opened Values

  /** What paths see of a frame: its value, iteration key, iteration index and entry count. */
  datatype FrameView = FrameView(value: Value, key: Value, index: Value, count: nat)

  /** Number of enumerable keys: none for null and undefined. */
  function KeyCount(v: Value): (n: nat)
    ensures IsNullOrUndefined(v) ==> n == 0
  {
    match v
    case Arr(items) => |items|
    case Obj(entries) => |entries|
    case _ => 0
  }

  /** The count is the number of enumerable entries and of keys. */
  lemma KeyCountIsKeys(v: Value)
    ensures KeyCount(v) == |Entries(v)| == |Keys(v)|
  {
  }

  lemma ReadBack(v: Value, i: nat)
    requires i < |Entries(v)|
    ensures (v.Obj? ==> UniqueKeys(v.entries)) ==> Get(v, Keys(v)[i]) == Entries(v)[i].1
  {
    if v.Obj? ==> UniqueKeys(v.entries) {
      EntriesReadBack(v, i);
    }
  }

  /** The state of a frame as a value: the wrapped value, whether its key enumerator exists, the current position. */
  datatype Cursor = Cursor(source: Value, started: bool, index: int)

  /** The states a frame can be in. */
  predicate CursorOk(c: Cursor) {
    -1 <= c.index < KeyCount(c.source)
    && (!c.started ==> c.index == -1)
    && (c.started ==> !IsNullOrUndefined(c.source))
  }

  /**
   * What a frame in state `c` shows paths: before iteration the wrapped
   * value and no key or position; while iterating the element under the
   * current key, that key as a string, and its position.
   */
  function CursorView(c: Cursor): (r: FrameView)
    requires CursorOk(c)
    ensures r.count == KeyCount(c.source)
    ensures !c.started ==> r == FrameView(c.source, Undefined, Undefined, KeyCount(c.source))
    ensures c.started ==> r.index == Num(c.index)
  {
    var n := KeyCount(c.source);
    if !c.started then FrameView(c.source, Undefined, Undefined, n)
    else if c.index < 0 then FrameView(Undefined, Undefined, Num(c.index), n)
    else FrameView(Get(c.source, Keys(c.source)[c.index]), Str(Keys(c.source)[c.index]), Num(c.index), n)
  }

  /** `MoveNext` from state `c`: whether it moved to a next key, and the state after. */
  function MoveNextOf(c: Cursor): (r: (bool, Cursor))
    requires CursorOk(c)
    ensures CursorOk(r.1) && r.1.source == c.source
    ensures r.0 <==> !IsNullOrUndefined(c.source) && c.index + 1 < KeyCount(c.source)
    ensures r.1.index == if r.0 then c.index + 1 else c.index
    ensures r.1.started <==> !IsNullOrUndefined(c.source)
  {
    var started := c.started || !IsNullOrUndefined(c.source);
    if started && c.index + 1 < KeyCount(c.source) then (true, c.(started := true, index := c.index + 1))
    else (false, c.(started := started))
  }

  class EvaluationStack {
    /** The wrapped value. */
    const source: Value
    /** Whether the key enumerator has been created (the first `MoveNext` on a defined value). */
    var started: bool
    /** Position of the current key; -1 before the first successful `MoveNext`. */
    var index: int
    /** The `Count` cache. */
    var count: Option<nat>

    /** The frame's state as a value. */
    function State(): (c: Cursor)
      reads this
      ensures c.source == source && c.started == started && c.index == index
    {
      Cursor(source, started, index)
    }

    ghost predicate Valid()
      reads this
    {
      -1 <= index < KeyCount(source)
      && (!started ==> index == -1)
      && (started ==> !IsNullOrUndefined(source))
      && (count.Some? ==> count.value == KeyCount(source))
    }

    constructor (value: Value)
      ensures Valid() && source == value
      ensures !started && index == -1 && count == None
    {
      source := value;
      started := false;
      index := -1;
      count := None;
    }

    /** The `Value` getter: the wrapped value, or while iterating the element under the current key. */
    function Value(): (r: Value)
      reads this
      requires Valid()
      ensures !started ==> r == source
      ensures started && index >= 0 && (source.Obj? ==> UniqueKeys(source.entries)) ==>
        r == Entries(source)[index].1
    {
      if !started then source
      else if index < 0 then Undefined
      else
        ReadBack(source, index);
        Get(source, Keys(source)[index])
    }

    /** The `Key` getter: undefined before iteration, then the current key as a string. */
    function Key(): (r: Value)
      reads this
      requires Valid()
      ensures !started ==> r == Undefined
      ensures started && index >= 0 ==> r == Str(Entries(source)[index].0)
    {
      if !started || index < 0 then Undefined else Str(Keys(source)[index])
    }

    /** The `Index` getter: undefined before iteration, then the position of the current key. */
    function Index(): (r: Value)
      reads this
      requires Valid()
      ensures !started ==> r == Undefined
      ensures started ==> r == Num(index)
    {
      if started then Num(index) else Undefined
    }

    /** The frame as paths read it. */
    function View(): (r: FrameView)
      reads this
      requires Valid()
      ensures r.value == Value() && r.key == Key() && r.index == Index()
      ensures r.count == KeyCount(source)
    {
      FrameView(Value(), Key(), Index(), KeyCount(source))
    }

    /** The `Count` getter: computed once from the wrapped value, then served from the cache. */
    method Count() returns (n: nat)
      requires Valid()
      modifies this
      ensures Valid()
      ensures n == KeyCount(source) && count == Some(n)
      ensures started == old(started) && index == old(index)
    {
      if count.None? {
        count := Some(KeyCount(source));
      }
      n := count.value;
    }

    /**
     * `MoveNext`: advance to the next enumerable key. Null and undefined never
     * start; otherwise succeeds while keys remain and then keeps failing.
     */
    method MoveNext() returns (moved: bool)
      requires Valid()
      modifies this
      ensures Valid() && count == old(count)
      ensures IsNullOrUndefined(source) ==> !moved && !started && index == old(index)
      ensures !IsNullOrUndefined(source) ==> started
      ensures moved <==> !IsNullOrUndefined(source) && old(index) + 1 < KeyCount(source)
      ensures index == if moved then old(index) + 1 else old(index)
      ensures (moved, State()) == MoveNextOf(old(State()))
    {
      if !started && !IsNullOrUndefined(source) {
        started := true;
      }
      if started && index + 1 < KeyCount(source) {
        index := index + 1;
        return true;
      }
      return false;
    }
  }

  /** A valid frame is in a cursor state, and what it shows is that state's view. */
  lemma ViewOfState(f: EvaluationStack)
    requires f.Valid()
    ensures CursorOk(f.State()) && f.View() == CursorView(f.State())
  {
  }

  /**
   * Driving a fresh frame with `MoveNext` until it fails visits every
   * enumerable key once, in enumeration order, with `Index` counting up from 0.
   */
  method EnumerateKeys(v: Value) returns (keys: seq<string>, indices: seq<Value>)
    ensures keys == Keys(v)
    ensures |indices| == |keys| && forall i :: 0 <= i < |indices| ==> indices[i] == Num(i)
  {
    var all := Keys(v);
    assert |all| == KeyCount(v);
    var frame := new EvaluationStack(v);
    keys, indices := [], [];
    var moved := frame.MoveNext();
    while moved
      invariant frame.Valid() && frame.source == v
      invariant moved ==> frame.started && 0 <= frame.index < KeyCount(v)
      invariant |keys| == |indices| == (if moved then frame.index else frame.index + 1)
      invariant keys == all[..|keys|]
      invariant forall i :: 0 <= i < |indices| ==> indices[i] == Num(i)
      invariant !moved ==> frame.index == KeyCount(v) - 1
      decreases KeyCount(v) - frame.index, moved
    {
      assert all[..|keys| + 1] == keys + [all[frame.index]];
      keys := keys + [all[frame.index]];
      indices := indices + [frame.Index()];
      moved := frame.MoveNext();
    }
    assert keys == all[..|all|];
  }
}
