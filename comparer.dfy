/**
 * The ordering the engine sorts with. Two arrays compare element by element
 * until a pair differs, then by length; any other pair compares equal when
 * equal, with null and undefined first, and otherwise by `<` and `>`.
 */
module Comparer {
  import opened Values

  /** The specification of `Compare`: the sign says which value sorts first. */
  function Order(x: Value, y: Value): int
    decreases x, 1
  {
    if x.Arr? && y.Arr? then
      var c := ItemsOrder(x, y, 0);
      if c != 0 then c else |x.items| - |y.items|
    else if x == y then 0
    else if IsNullOrUndefined(x) || Less(x, y) then -1
    else if IsNullOrUndefined(y) || Less(y, x) then 1
    else 0
  }

  /** The first non-zero comparison of corresponding elements from position `k` on, else 0. */
  function ItemsOrder(x: Value, y: Value, k: nat): int
    requires x.Arr? && y.Arr?
    decreases x, 0, |x.items| - k
  {
    if k >= |x.items| || k >= |y.items| then 0
    else
      var c := Order(x.items[k], y.items[k]);
      if c != 0 then c else ItemsOrder(x, y, k + 1)
  }

  /** `Compare(x, y)`: the enumerators of two arrays advance together while the result is 0. */
  method Compare(x: Value, y: Value) returns (r: int)
    ensures r == Order(x, y)
    decreases x
  {
    if x.Arr? && y.Arr? {
      var result := 0;
      var k := 0;
      while k < |x.items| && k < |y.items| && result == 0
        invariant 0 <= k && k <= |x.items| && k <= |y.items|
        invariant ItemsOrder(x, y, 0) == if result != 0 then result else ItemsOrder(x, y, k)
      {
        result := Compare(x.items[k], y.items[k]);
        k := k + 1;
      }
      r := if result != 0 then result else |x.items| - |y.items|;
    } else if x == y {
      r := 0;
    } else if IsNullOrUndefined(x) || Less(x, y) {
      r := -1;
    } else if IsNullOrUndefined(y) || Less(y, x) {
      r := 1;
    } else {
      r := 0;
    }
  }

  /** Every value compares equal to itself. */
  lemma {:induction false} OrderReflexive(x: Value)
    ensures Order(x, x) == 0
    decreases x, 1
  {
    if x.Arr? { ItemsReflexive(x, 0); }
  }

  lemma {:induction false} ItemsReflexive(x: Value, k: nat)
    requires x.Arr?
    ensures ItemsOrder(x, x, k) == 0
    decreases x, 0, |x.items| - k
  {
    if k < |x.items| {
      OrderReflexive(x.items[k]);
      ItemsReflexive(x, k + 1);
    }
  }

  /** No null anywhere in the value, arrays included. */
  predicate NullFree(v: Value) {
    match v
    case Null => false
    case Arr(items) => forall i :: 0 <= i < |items| ==> NullFree(items[i])
    case _ => true
  }

  function Sign(n: int): int { if n < 0 then -1 else if n > 0 then 1 else 0 }

  /** Swapping the operands flips the sign, as long as null does not meet undefined. */
  lemma {:induction false} OrderAntisymmetric(x: Value, y: Value)
    requires NullFree(x) && NullFree(y)
    ensures Sign(Order(x, y)) == -Sign(Order(y, x))
    decreases x, 1
  {
    LessAsymmetric(x, y);
    if x.Arr? && y.Arr? {
      ItemsAntisymmetric(x, y, 0);
    }
  }

  lemma {:induction false} ItemsAntisymmetric(x: Value, y: Value, k: nat)
    requires x.Arr? && y.Arr? && NullFree(x) && NullFree(y)
    ensures Sign(ItemsOrder(x, y, k)) == -Sign(ItemsOrder(y, x, k))
    decreases x, 0, |x.items| - k
  {
    if k < |x.items| && k < |y.items| {
      OrderAntisymmetric(x.items[k], y.items[k]);
      ItemsAntisymmetric(x, y, k + 1);
    }
  }

  /** Null and undefined each sort before the other: the order is not antisymmetric on that pair. */
  lemma NullUndefinedBothFirst()
    ensures Order(Null, Undefined) == -1 && Order(Undefined, Null) == -1
  {
  }

  /** A proper prefix sorts before the array it begins. */
  lemma PrefixFirst(p: seq<Value>, q: seq<Value>)
    requires |q| > 0
    ensures Order(Arr(p), Arr(p + q)) < 0
  {
    PrefixItems(p, q, 0);
  }

  lemma {:induction false} PrefixItems(p: seq<Value>, q: seq<Value>, k: nat)
    ensures ItemsOrder(Arr(p), Arr(p + q), k) == 0
    decreases |p| - k
  {
    if k < |p| {
      assert (p + q)[k] == p[k];
      OrderReflexive(p[k]);
      PrefixItems(p, q, k + 1);
    }
  }
}
