/**
 * `PipeGlobal`: the dictionary of global values a template can reach from
 * any scope. Entries keep their insertion order; a key appears at most once.
 */
module Globals {
  import opened Wrappers
  import opened Values

  datatype GlobalsError = DuplicateKey(key: string)

  /** The position of `key` among the entries, if present. */
  function IndexOfKey(entries: seq<(string, Value)>, key: string): (r: Option<nat>)
    ensures r.Some? ==> r.value < |entries| && entries[r.value].0 == key
    ensures r.Some? ==> forall j :: 0 <= j < r.value ==> entries[j].0 != key
    ensures r.None? ==> forall i :: 0 <= i < |entries| ==> entries[i].0 != key
  {
    if entries == [] then None
    else if entries[0].0 == key then Some(0)
    else match IndexOfKey(entries[1..], key)
      case Some(i) => Some(i + 1)
      case None => None
  }

  /** The entries after the indexer's setter: the key's entry overwritten in place, or a new entry at the end. */
  function Assigned(entries: seq<(string, Value)>, key: string, value: Value): (r: seq<(string, Value)>)
    ensures |r| == |entries| + (if IndexOfKey(entries, key).Some? then 0 else 1)
    ensures IndexOfKey(r, key).Some? && r[IndexOfKey(r, key).value] == (key, value)
  {
    match IndexOfKey(entries, key)
    case Some(i) =>
      IndexOfKeyIs(entries[i := (key, value)], key, i);
      entries[i := (key, value)]
    case None =>
      IndexOfKeyIs(entries + [(key, value)], key, |entries|);
      entries + [(key, value)]
  }

  class PipeGlobal {
    var entries: seq<(string, Value)>

    ghost predicate Valid()
      reads this
    {
      UniqueKeys(entries)
    }

    /** `new PipeGlobal()`: no entries. */
    constructor ()
      ensures Valid() && entries == []
    {
      entries := [];
    }

    /**
     * `new PipeGlobal(copyFrom)`: a new dictionary holding the other one's
     * entries at the time of the call; the two are independent afterwards.
     */
    constructor Copy(copyFrom: PipeGlobal)
      requires copyFrom.Valid()
      ensures Valid() && entries == copyFrom.entries
    {
      var collected: seq<(string, Value)> := [];
      var i := 0;
      while i < |copyFrom.entries|
        invariant 0 <= i <= |copyFrom.entries|
        invariant collected == copyFrom.entries[..i]
      {
        // keys of the source are distinct, so each assignment appends
        assert forall j :: 0 <= j < i ==> collected[j].0 != copyFrom.entries[i].0;
        collected := collected + [copyFrom.entries[i]];
        i := i + 1;
      }
      assert copyFrom.entries[..i] == copyFrom.entries;
      entries := collected;
    }

    /** The indexer's getter: the stored value, undefined when the key is absent. */
    function Get(key: string): (r: Value)
      reads this
      requires Valid()
      ensures ContainsKey(key) ==> exists i :: 0 <= i < |entries| && entries[i] == (key, r)
      ensures !ContainsKey(key) ==> r == Undefined
    {
      match IndexOfKey(entries, key)
      case Some(i) => entries[i].1
      case None => Undefined
    }

    predicate ContainsKey(key: string)
      reads this
    {
      IndexOfKey(entries, key).Some?
    }

    /** `TryGetValue(key, out value)`: the stored value, or nothing. */
    function TryGetValue(key: string): (r: Option<Value>)
      reads this
      requires Valid()
      ensures r.Some? <==> ContainsKey(key)
      ensures r.Some? ==> r.value == Get(key)
    {
      match IndexOfKey(entries, key)
      case Some(i) => Some(entries[i].1)
      case None => None
    }

    function Count(): (n: nat)
      reads this
      ensures n == |entries|
    {
      |entries|
    }

    /** The dictionary seen as an object value, as paths such as `@global.name` see it. */
    function AsValue(): (r: Value)
      reads this
      requires Valid()
      ensures r.Obj? && forall key :: Get(key) == Values.Get(r, key)
    {
      GetAgreesWithObject(this);
      Obj(entries)
    }

    /** The indexer's setter: overwrite the key's value in place, or append a new entry. */
    method Set(key: string, value: Value)
      requires Valid()
      modifies this
      ensures Valid()
      ensures Get(key) == value && ContainsKey(key)
      ensures forall k :: k != key ==> Get(k) == old(Get(k)) && (ContainsKey(k) <==> old(ContainsKey(k)))
      ensures Count() == old(Count()) + (if old(ContainsKey(key)) then 0 else 1)
      ensures entries == Assigned(old(entries), key, value)
    {
      match IndexOfKey(entries, key)
      case Some(i) =>
        entries := entries[i := (key, value)];
        assert IndexOfKey(entries, key) == Some(i) by { IndexOfKeyUnique(entries, i); }
        forall k | k != key ensures IndexOfKey(entries, k) == IndexOfKey(old(entries), k) {
          IndexOfKeyOther(old(entries), i, (key, value), k);
        }
      case None =>
        entries := entries + [(key, value)];
        IndexOfKeyUnique(entries, |entries| - 1);
        forall k | k != key ensures IndexOfKey(entries, k) == IndexOfKey(old(entries), k) {
          IndexOfKeyAppend(old(entries), (key, value), k);
        }
    }

    /** `Add(key, value)`: append a new entry; a key already present is refused and nothing changes. */
    method Add(key: string, value: Value) returns (r: Result<(), GlobalsError>)
      requires Valid()
      modifies this
      ensures Valid()
      ensures r.Err? <==> old(ContainsKey(key))
      ensures r.Err? ==> entries == old(entries) && r.error == DuplicateKey(key)
      ensures r.Ok? ==> entries == old(entries) + [(key, value)]
    {
      if ContainsKey(key) {
        return Err(DuplicateKey(key));
      }
      entries := entries + [(key, value)];
      return Ok(());
    }

    method Clear()
      modifies this
      ensures Valid() && entries == []
    {
      entries := [];
    }

    /** `Remove(key)`: drop the key's entry, keeping the others in order; says whether it was there. */
    method Remove(key: string) returns (removed: bool)
      requires Valid()
      modifies this
      ensures Valid()
      ensures removed == old(ContainsKey(key)) && !ContainsKey(key)
      ensures forall k :: k != key ==> Get(k) == old(Get(k)) && (ContainsKey(k) <==> old(ContainsKey(k)))
      ensures Count() == old(Count()) - (if removed then 1 else 0)
    {
      match IndexOfKey(entries, key)
      case Some(i) =>
        var before := entries;
        entries := before[..i] + before[i + 1..];
        RemoveUnique(before, i);
        forall k | k != key ensures Get(k) == old(Get(k)) && (ContainsKey(k) <==> old(ContainsKey(k))) {
          IndexOfKeyRemove(before, i, k);
        }
        removed := true;
      case None =>
        removed := false;
    }
  }

  lemma GetAgreesWithObject(g: PipeGlobal)
    requires g.Valid()
    ensures forall key :: g.Get(key) == Values.Get(Obj(g.entries), key)
  {
    forall key ensures g.Get(key) == Values.Get(Obj(g.entries), key) {
      match IndexOfKey(g.entries, key)
      case Some(i) => LookupUnique(g.entries, i);
      case None =>
    }
  }

  /** The first entry carrying `k` is the one `IndexOfKey` finds. */
  lemma IndexOfKeyIs(e: seq<(string, Value)>, k: string, j: nat)
    requires j < |e| && e[j].0 == k
    requires forall p :: 0 <= p < j ==> e[p].0 != k
    ensures IndexOfKey(e, k) == Some(j)
  {
  }

  lemma IndexOfKeyUnique(e: seq<(string, Value)>, i: nat)
    requires i < |e| && UniqueKeys(e)
    ensures IndexOfKey(e, e[i].0) == Some(i)
  {
    IndexOfKeyIs(e, e[i].0, i);
  }

  lemma IndexOfKeyOther(e: seq<(string, Value)>, i: nat, x: (string, Value), k: string)
    requires i < |e| && x.0 == e[i].0 && k != x.0
    ensures IndexOfKey(e[i := x], k) == IndexOfKey(e, k)
  {
    var e' := e[i := x];
    match IndexOfKey(e, k)
    case Some(j) =>
      assert e'[j] == e[j];
      IndexOfKeyIs(e', k, j);
    case None =>
  }

  lemma IndexOfKeyAppend(e: seq<(string, Value)>, x: (string, Value), k: string)
    requires k != x.0
    ensures IndexOfKey(e + [x], k) == IndexOfKey(e, k)
  {
    match IndexOfKey(e, k)
    case Some(j) =>
      assert (e + [x])[j] == e[j];
      IndexOfKeyIs(e + [x], k, j);
    case None =>
  }

  /** Entry positions after removing position `i`. */
  lemma RemoveAt(e: seq<(string, Value)>, i: nat, d: seq<(string, Value)>)
    requires i < |e| && d == e[..i] + e[i + 1..]
    ensures |d| == |e| - 1
    ensures forall j :: 0 <= j < |d| ==> d[j] == if j < i then e[j] else e[j + 1]
  {
  }

  lemma RemoveUnique(e: seq<(string, Value)>, i: nat)
    requires i < |e| && UniqueKeys(e)
    ensures UniqueKeys(e[..i] + e[i + 1..])
    ensures IndexOfKey(e[..i] + e[i + 1..], e[i].0).None?
  {
    RemoveAt(e, i, e[..i] + e[i + 1..]);
  }

  lemma IndexOfKeyRemove(e: seq<(string, Value)>, i: nat, k: string)
    requires i < |e| && UniqueKeys(e) && k != e[i].0
    ensures (IndexOfKey(e[..i] + e[i + 1..], k).Some? <==> IndexOfKey(e, k).Some?)
    ensures IndexOfKey(e, k).Some? ==>
      e[IndexOfKey(e, k).value].1 == (e[..i] + e[i + 1..])[IndexOfKey(e[..i] + e[i + 1..], k).value].1
  {
    var d := e[..i] + e[i + 1..];
    RemoveAt(e, i, e[..i] + e[i + 1..]);
    match IndexOfKey(e, k)
    case Some(j) =>
      var jd := if j < i then j else j - 1;
      assert d[jd] == e[j];
      IndexOfKeyIs(d, k, jd);
    case None =>
  }

  /** The entries of a dictionary whose keys are taken by their string form. */
  function Stringified(ht: seq<(Value, Value)>): (r: seq<(string, Value)>)
    ensures |r| == |ht|
    ensures forall i :: 0 <= i < |r| ==> r[i].0 == ToStr(ht[i].0) && r[i].1 == ht[i].1
  {
    seq(|ht|, i requires 0 <= i < |ht| => (ToStr(ht[i].0), ht[i].1))
  }

  /**
   * `new PipeGlobal(ht)`: the entries of `ht` under the string form of their
   * keys, in enumeration order; two keys with the same string form are refused.
   */
  method FromDictionary(ht: seq<(Value, Value)>) returns (r: Result<PipeGlobal, GlobalsError>)
    ensures r.Ok? <==> UniqueKeys(Stringified(ht))
    ensures r.Ok? ==> fresh(r.value) && r.value.Valid() && r.value.entries == Stringified(ht)
  {
    var g := new PipeGlobal();
    var i := 0;
    while i < |ht|
      invariant 0 <= i <= |ht|
      invariant g.Valid() && g.entries == Stringified(ht)[..i]
    {
      var key := ToStr(ht[i].0);
      var added := g.Add(key, ht[i].1);
      if added.Err? {
        var j := IndexOfKey(g.entries, key).value;
        assert Stringified(ht)[j].0 == Stringified(ht)[i].0;
        return Err(added.error);
      }
      assert Stringified(ht)[..i + 1] == Stringified(ht)[..i] + [Stringified(ht)[i]];
      i := i + 1;
    }
    assert Stringified(ht)[..i] == Stringified(ht);
    return Ok(g);
  }

  /** Writing to a copy never reaches the dictionary it was copied from. */
  method CopyIsolated(source: PipeGlobal, key: string, value: Value) returns (copy: PipeGlobal)
    requires source.Valid()
    ensures fresh(copy) && copy.Valid()
    ensures copy.Get(key) == value
    ensures source.entries == old(source.entries)
  {
    copy := new PipeGlobal.Copy(source);
    copy.Set(key, value);
  }
}
