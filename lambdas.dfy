/**
 * `PipeLambda`: a callback over (value, key) that collection functions apply
 * to each entry, the two ways of invoking it, and the two stock factories.
 */
module Lambdas {
  import opened Values

  /** A lambda receives an element and its key (undefined when there is none). */
  type PipeLambda = (Value, Value) -> Value

  /** `fn.Invoke(value)`: apply to a value with no key. */
  function InvokeValue(fn: PipeLambda, v: Value): Value {
    fn(v, Undefined)
  }

  /** `fn.Invoke(entry)`: apply to an entry's value, passing its key as a string. */
  function InvokeEntry(fn: PipeLambda, e: (string, Value)): Value {
    fn(e.1, Str(e.0))
  }

  datatype Factory = ConstantFactory | PropertyAccessFactory

  /**
   * `CreateLambda(obj)`: the constant factory ignores its arguments and
   * yields `obj`; the property-access factory reads the property named by
   * `obj` from the element, ignoring the key.
   */
  function CreateLambda(f: Factory, obj: Value): (fn: PipeLambda)
    ensures f.ConstantFactory? ==> forall a, b :: fn(a, b) == obj
    ensures f.PropertyAccessFactory? ==> forall a, b :: fn(a, b) == Get(a, ToStr(obj))
  {
    match f
    case ConstantFactory => (a, b) => obj
    case PropertyAccessFactory => (a, b) => Get(a, ToStr(obj))
  }

  /** A property-access lambda over an enumerated object entry reads that entry back. */
  lemma PropertyAccessReadsEntry(entries: seq<(string, Value)>, i: nat, key: string)
    requires i < |entries| && UniqueKeys(entries)
    requires entries[i].0 == key
    ensures InvokeEntry(CreateLambda(PropertyAccessFactory, Str(key)), (key, Obj(entries))) == entries[i].1
  {
    EntriesReadBack(Obj(entries), i);
  }
}
