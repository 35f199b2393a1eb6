/**
 * The built-in pipe functions that work on strings, integers and arrays, as
 * functions of the piped value and the arguments the pipe supplies. A call
 * that throws in the engine (a substring out of range, a negative capacity)
 * yields `None`.
 */
module BuiltIns {
  import opened Wrappers
  import opened Text
  import opened Values
  import Helper
  import Comparer
  import Extension

  /** `Helper.String(v)` without a stringify callback. */
  function StringOf(v: Value): string { Helper.DisplayString(v, None) }

  /** `+v || 0` converted to an integer: values with no numeric reading count as 0. */
  function IntOr0(v: Value): int { match ToNumber(v) case Some(n) => n case None => 0 }

  // ---------------------------------------------------------------------
  // Comparison

  function More(a: Value, b: Value): Value { Bool(Comparer.Order(a, b) > 0) }
  function Less(a: Value, b: Value): Value { Bool(Comparer.Order(a, b) < 0) }
  function OrMore(a: Value, b: Value): Value { Bool(Comparer.Order(a, b) >= 0) }
  function OrLess(a: Value, b: Value): Value { Bool(Comparer.Order(a, b) <= 0) }

  /** `between`: `a` lies in the closed interval from `b` to `c`. */
  function Between(a: Value, b: Value, c: Value): Value {
    Bool(Comparer.Order(a, b) >= 0 && Comparer.Order(a, c) <= 0)
  }

  /** `>` is `<` with the operands swapped (and `>=` is `<=` swapped) when no null is involved. */
  lemma MoreIsSwappedLess(a: Value, b: Value)
    requires Comparer.NullFree(a) && Comparer.NullFree(b)
    ensures More(a, b) == Less(b, a) && OrMore(a, b) == OrLess(b, a)
  {
    Comparer.OrderAntisymmetric(a, b);
  }

  /** Every value lies between itself and itself. */
  lemma BetweenItself(a: Value)
    ensures Between(a, a, a) == Bool(true)
  {
    Comparer.OrderReflexive(a);
  }

  /** `==` and `!=` compare string forms: a number equals its decimal text, and `!=` is the negation. */
  function Equals(a: Value, b: Value): (r: Value)
    ensures r.Bool? && (r.b <==> StringOf(a) == StringOf(b))
  {
    Bool(StringOf(a) == StringOf(b))
  }

  function NotEquals(a: Value, b: Value): (r: Value)
    ensures r.Bool? && (r.b <==> StringOf(a) != StringOf(b))
  {
    Bool(StringOf(a) != StringOf(b))
  }

  /**
   * `==` is an equivalence and `!=` its negation; two numbers are equal exactly
   * when they are the same number, and a string equals a number exactly when
   * it is that number's decimal text.
   */
  lemma EqualsEquivalence(a: Value, b: Value, c: Value)
    ensures Equals(a, a) == Bool(true)
    ensures Equals(a, b) == Equals(b, a)
    ensures Equals(a, b).b && Equals(b, c).b ==> Equals(a, c).b
    ensures NotEquals(a, b) == Bool(!Equals(a, b).b)
  {
  }

  lemma EqualsNumbers(m: int, n: int, s: string)
    ensures Equals(Num(m), Num(n)).b <==> m == n
    ensures Equals(Num(n), Str(s)).b <==> s == IntToString(n)
    ensures Equals(Num(n), Str(s)).b ==> ToNumber(Str(s)) == Some(n)
    ensures NotEquals(Num(n), Str(IntToString(n))) == Bool(false)
  {
    NumberTextRoundTrip(m);
    NumberTextRoundTrip(n);
  }

  /** `^=`: a non-empty needle that begins the string. */
  function StartsWith(a: Value, b: Value): (r: Value)
    ensures r.Bool? && (r.b <==> StringOf(b) != "" && IsAt(StringOf(a), StringOf(b), 0))
  {
    var needle := StringOf(b);
    var s := StringOf(a);
    Bool(needle != "" && |needle| <= |s| && s[..|needle|] == needle)
  }

  /** `$=`: a non-empty needle that ends the string. */
  function EndsWith(a: Value, b: Value): (r: Value)
    ensures r.Bool? && (r.b <==> StringOf(b) != "" && IsAt(StringOf(a), StringOf(b), |StringOf(a)| - |StringOf(b)|))
  {
    var needle := StringOf(b);
    var s := StringOf(a);
    Bool(needle != "" && |needle| <= |s| && s[|s| - |needle|..] == needle)
  }

  /** A string starts with its non-empty prefix and ends with its non-empty suffix; the empty needle never matches. */
  lemma AffixesMatch(p: string, q: string)
    requires p != ""
    ensures StartsWith(Str(p + q), Str(p)) == Bool(true)
    ensures EndsWith(Str(q + p), Str(p)) == Bool(true)
    ensures StartsWith(Str(q), Str("")) == Bool(false) && EndsWith(Str(q), Str("")) == Bool(false)
  {
    assert (p + q)[..|p|] == p;
    assert (q + p)[|q + p| - |p|..] == p;
  }

  /** `even` / `odd` test the low bit of the integer reading (0 when there is none). */
  function Even(v: Value): Value { Bool(IntOr0(v) % 2 == 0) }
  function Odd(v: Value): Value { Bool(IntOr0(v) % 2 == 1) }

  /** Every value is exactly one of even and odd; a negative odd number is odd too. */
  lemma EvenOrOdd(v: Value)
    ensures Even(v).b != Odd(v).b
    ensures Odd(Num(-3)) == Bool(true) && Even(Undefined) == Bool(true)
  {
  }

  // ---------------------------------------------------------------------
  // Conditionals

  function Or(obj: Value, val: Value): Value { if Truthy(obj) then obj else val }
  function Coalesce(obj: Value, val: Value): Value { if IsNullOrUndefined(obj) then val else obj }
  function Choose(cond: Value, t: Value, f: Value): Value { if Truthy(cond) then t else f }

  /** `or` is truthy when either side is; `??` is defined unless both sides are not. */
  lemma ConditionalsChoose(a: Value, b: Value)
    ensures Truthy(Or(a, b)) <==> Truthy(a) || Truthy(b)
    ensures IsNullOrUndefined(Coalesce(a, b)) <==> IsNullOrUndefined(a) && IsNullOrUndefined(b)
    ensures Or(a, b) == Choose(a, a, b)
  {
  }

  // ---------------------------------------------------------------------
  // Strings

  function Concat(a: Value, b: Value): Value { Str(StringOf(a) + StringOf(b)) }

  /** `concat` puts the string form of the value first: the result starts with it and ends with the argument's. */
  lemma ConcatAffixes(a: Value, b: Value)
    ensures StringOf(a) != "" ==> StartsWith(Concat(a, b), Str(StringOf(a))) == Bool(true)
    ensures StringOf(b) != "" ==> EndsWith(Concat(a, b), Str(StringOf(b))) == Bool(true)
    ensures |StringOf(Concat(a, b))| == |StringOf(a)| + |StringOf(b)|
  {
    var s, t := StringOf(a), StringOf(b);
    assert (s + t)[..|s|] == s;
    assert (s + t)[|s + t| - |t|..] == t;
  }

  /**
   * `substr(start)` / `substr(start, len)`: the ordinal substring; a start
   * outside the string, or a range running past its end, throws.
   */
  function Substr(str: Value, start: Value, len: Value): (r: Option<Value>)
    ensures var s := StringOf(str); var st := IntOr0(start);
      r.Some? <==> 0 <= st <= |s| && (IsNullOrUndefined(len) || (0 <= IntOr0(len) && st + IntOr0(len) <= |s|))
    ensures r.Some? ==> r.value.Str? && IsAt(StringOf(str), r.value.s, IntOr0(start))
  {
    var s := StringOf(str);
    var st := IntOr0(start);
    if IsNullOrUndefined(len) then
      if 0 <= st <= |s| then Some(Str(s[st..])) else None
    else
      var l := IntOr0(len);
      if 0 <= st && 0 <= l && st + l <= |s| then Some(Str(s[st..st + l])) else None
  }

  /** Taking the rest after a concatenated prefix gives back the suffix. */
  lemma SubstrAfterConcat(p: string, q: string)
    ensures Substr(Concat(Str(p), Str(q)), Num(|p|), Undefined) == Some(Str(q))
  {
    assert (p + q)[|p|..] == q;
  }

  /** `removestart` as written: the prefix test takes a substring as long as the needle, which throws when the needle is longer. */
  function RemoveStartAsWritten(str: Value, needle: Value): (r: Option<Value>)
  {
    var s := StringOf(str);
    var n := StringOf(needle);
    if |n| > |s| then None
    else if Str(s[..|n|]) == needle then Some(Str(s[|n|..]))
    else Some(Str(s))
  }

  /** `removestart` as intended: drop the needle when it begins the string, otherwise keep the string. */
  function RemoveStart(str: Value, needle: Value): (r: Value)
    ensures r.Str? && |r.s| <= |StringOf(str)|
    ensures r.s != StringOf(str) ==> needle.Str? && StringOf(str) == needle.s + r.s
  {
    var s := StringOf(str);
    var n := StringOf(needle);
    if |n| <= |s| && Str(s[..|n|]) == needle then Str(s[|n|..]) else Str(s)
  }

  /** `removeend`: drop the needle when it ends the string, otherwise keep the string. */
  function RemoveEnd(str: Value, needle: Value): (r: Value)
    ensures r.Str? && |r.s| <= |StringOf(str)|
    ensures r.s != StringOf(str) ==> needle.Str? && StringOf(str) == r.s + needle.s
  {
    var s := StringOf(str);
    var n := StringOf(needle);
    var k := if |s| - |n| > 0 then |s| - |n| else 0;
    if Str(s[k..]) == needle then Str(s[..|s| - |n|]) else Str(s)
  }

  /** The needle is compared as a value: a needle that is not a string never matches, in either direction. */
  lemma NonStringNeedleKeeps(s: string, needle: Value)
    requires !needle.Str?
    ensures RemoveStart(Str(s), needle) == Str(s)
    ensures RemoveEnd(Str(s), needle) == Str(s)
  {
  }

  /** A needle longer than the string throws in `removestart` but leaves the string alone in `removeend`. */
  lemma RemoveStartThrows()
    ensures RemoveStartAsWritten(Str("ab"), Str("abc")).None?
    ensures RemoveEnd(Str("ab"), Str("abc")) == Str("ab")
    ensures RemoveStart(Str("ab"), Str("abc")) == Str("ab")
  {
  }

  /** Where the written code does not throw it agrees with the intended one. */
  lemma RemoveStartAgrees(str: Value, needle: Value)
    requires |StringOf(needle)| <= |StringOf(str)|
    ensures RemoveStartAsWritten(str, needle) == Some(RemoveStart(str, needle))
  {
  }

  /** Removing a prefix or suffix that was concatenated on gives back the rest. */
  lemma RemoveConcatenated(p: string, q: string)
    ensures RemoveStart(Str(p + q), Str(p)) == Str(q)
    ensures RemoveEnd(Str(q + p), Str(p)) == Str(q)
  {
    assert (p + q)[..|p|] == p && (p + q)[|p|..] == q;
    assert (q + p)[|q|..] == p && (q + p)[..|q|] == q;
  }

  /**
   * Ordinal `LastIndexOf`: the rightmost occurrence. With an empty needle
   * the .NET Framework answers the last position of the string (0 when the
   * string is empty).
   */
  function LastIndexOf(s: string, sub: string): (r: Option<nat>)
    ensures sub != "" && r.Some? ==> IsAt(s, sub, r.value) && forall k :: r.value < k ==> !IsAt(s, sub, k)
    ensures sub != "" && r.None? ==> forall k :: !IsAt(s, sub, k)
    ensures sub == "" ==> r == Some(if |s| == 0 then 0 else |s| - 1)
  {
    if sub == "" then Some(if |s| == 0 then 0 else |s| - 1)
    else if |sub| > |s| then None
    else LastIndexFrom(s, sub, |s| - |sub|)
  }

  function LastIndexFrom(s: string, sub: string, k: nat): (r: Option<nat>)
    requires k + |sub| <= |s|
    ensures r.Some? ==> r.value <= k && IsAt(s, sub, r.value) && forall j :: r.value < j <= k ==> !IsAt(s, sub, j)
    ensures r.None? ==> forall j :: 0 <= j <= k ==> !IsAt(s, sub, j)
  {
    if s[k..k + |sub|] == sub then Some(k)
    else if k == 0 then None
    else LastIndexFrom(s, sub, k - 1)
  }

  /** The text before the occurrence at `found`, or the whole string when there is none. */
  function TextBefore(s: string, found: Option<nat>): string
    requires found.Some? ==> found.value <= |s|
  {
    match found
    case None => s
    case Some(pos) => s[..pos]
  }

  /** The text after the needle at `found`, or the whole string when there is none. */
  function TextAfter(s: string, n: string, found: Option<nat>): string
    requires found.Some? ==> found.value + |n| <= |s|
  {
    match found
    case None => s
    case Some(pos) => s[pos + |n|..]
  }

  function CutBefore(str: Value, needle: Value): Value {
    Str(TextBefore(StringOf(str), IndexOf(StringOf(str), StringOf(needle))))
  }

  function CutAfter(str: Value, needle: Value): Value {
    Str(TextAfter(StringOf(str), StringOf(needle), IndexOf(StringOf(str), StringOf(needle))))
  }

  function CutBeforeLast(str: Value, needle: Value): Value {
    Str(TextBefore(StringOf(str), LastIndexOfBounded(StringOf(str), StringOf(needle))))
  }

  function CutAfterLast(str: Value, needle: Value): Value {
    Str(TextAfter(StringOf(str), StringOf(needle), LastIndexOfBounded(StringOf(str), StringOf(needle))))
  }

  /**
   * `LastIndexOf` where `Substring(pos + |needle|)` is in range; with an
   * empty needle on a non-empty string that is the last position, so the
   * cut after it keeps the last character.
   */
  function LastIndexOfBounded(s: string, n: string): (r: Option<nat>)
    ensures r == LastIndexOf(s, n)
    ensures r.Some? ==> r.value + |n| <= |s|
  {
    LastIndexOf(s, n)
  }

  /**
   * The pieces `cutbefore` and `cutafter` leave are the string split around
   * the first occurrence of the needle (the `...last` pair around the last
   * one); without an occurrence both keep the whole string.
   */
  lemma CutAroundFirst(s: string, n: string)
    ensures IndexOf(s, n).Some? ==>
      TextBefore(s, IndexOf(s, n)) + n + TextAfter(s, n, IndexOf(s, n)) == s
      && forall k :: 0 <= k < |TextBefore(s, IndexOf(s, n))| ==> !IsAt(s, n, k)
    ensures IndexOf(s, n).None? ==> TextBefore(s, IndexOf(s, n)) == TextAfter(s, n, IndexOf(s, n)) == s
  {
    if IndexOf(s, n).Some? {
      var pos := IndexOf(s, n).value;
      assert s == s[..pos] + s[pos..pos + |n|] + s[pos + |n|..];
    }
  }

  lemma CutAroundLast(s: string, n: string)
    requires n != ""
    ensures var found := LastIndexOfBounded(s, n);
      found.Some? ==>
        TextBefore(s, found) + n + TextAfter(s, n, found) == s
        && forall k :: |TextBefore(s, found)| < k ==> !IsAt(s, n, k)
    ensures var found := LastIndexOfBounded(s, n);
      found.None? ==> TextBefore(s, found) == TextAfter(s, n, found) == s
  {
    var found := LastIndexOfBounded(s, n);
    if found.Some? {
      var pos := found.value;
      assert s == s[..pos] + s[pos..pos + |n|] + s[pos + |n|..];
    }
  }

  /**
   * `String.Split(separator, RemoveEmptyEntries)`: the non-empty pieces
   * between leftmost occurrences of the separator. An empty separator is
   * ignored by .NET, so the string stays whole.
   */
  function SplitOn(s: string, sep: string): (r: seq<string>)
    ensures forall k :: 0 <= k < |r| ==> r[k] != "" && (sep != "" ==> IndexOf(r[k], sep).None?)
    decreases |s|
  {
    if sep == "" then (if s == "" then [] else [s])
    else
      match IndexOf(s, sep)
      case None => if s == "" then [] else [s]
      case Some(k) =>
        PieceFree(s, sep, k);
        (if k == 0 then [] else [s[..k]]) + SplitOn(s[k + |sep|..], sep)
  }

  /** The text before the first occurrence holds no occurrence. */
  lemma PieceFree(s: string, sep: string, k: nat)
    requires sep != "" && IndexOf(s, sep) == Some(k)
    ensures IndexOf(s[..k], sep).None?
  {
    forall j | IsAt(s[..k], sep, j) ensures false {
      assert s[..k][j..j + |sep|] == s[j..j + |sep|];
      assert IsAt(s, sep, j) && j < k;
    }
  }

  function Split(str: Value, separator: Value): Value {
    Arr(StrValues(SplitOn(StringOf(str), StringOf(separator))))
  }

  function StrValues(xs: seq<string>): (r: seq<Value>)
    ensures |r| == |xs| && forall k :: 0 <= k < |xs| ==> r[k] == Str(xs[k])
  {
    seq(|xs|, k requires 0 <= k < |xs| => Str(xs[k]))
  }

  /** `join` places the separator between the elements' ToString forms. */
  function JoinWith(xs: seq<string>, sep: string): (r: string)
  {
    if xs == [] then "" else if |xs| == 1 then xs[0] else xs[0] + sep + JoinWith(xs[1..], sep)
  }

  /** Splitting on one character undoes a join with it, when the pieces are non-empty and free of it. */
  lemma {:induction false} SplitJoin(xs: seq<string>, c: char)
    requires forall k :: 0 <= k < |xs| ==> xs[k] != "" && IndexOf(xs[k], [c]).None?
    ensures SplitOn(JoinWith(xs, [c]), [c]) == xs
    decreases |xs|
  {
    if |xs| == 1 {
    } else if |xs| > 1 {
      var rest := JoinWith(xs[1..], [c]);
      var s := xs[0] + [c] + rest;
      assert s[|xs[0]|..|xs[0]| + 1] == [c];
      forall j | 0 <= j < |xs[0]| ensures !IsAt(s, [c], j) {
        assert !IsAt(xs[0], [c], j);
        assert s[j] == xs[0][j];
      }
      assert IsAt(s, [c], |xs[0]|);
      assert IndexOf(s, [c]) == Some(|xs[0]|);
      assert s[..|xs[0]|] == xs[0];
      assert s[|xs[0]| + 1..] == rest;
      SplitJoin(xs[1..], c);
    }
  }

  function Join(value: Value, separator: Value): Value {
    Str(JoinWith(ToStrings(Extension.ToArray(value)), StringOf(separator)))
  }

  function ToStrings(xs: seq<Value>): (r: seq<string>)
    ensures |r| == |xs| && forall k :: 0 <= k < |xs| ==> r[k] == ToStr(xs[k])
  {
    seq(|xs|, k requires 0 <= k < |xs| => ToStr(xs[k]))
  }

  /** A value that is not an array joins to its own ToString. */
  lemma JoinSingle(v: Value, separator: Value)
    requires !v.Arr?
    ensures Join(v, separator) == Str(ToStr(v))
  {
  }

  /**
   * `repeat`: the piped value is the count. A negative count asks the
   * string builder for a negative capacity, which throws unless the string
   * is empty; otherwise `count` copies.
   */
  function RepeatSpec(count: Value, str: Value): (r: Option<Value>)
    ensures r.None? <==> IntOr0(count) < 0 && StringOf(str) != ""
    ensures r.Some? ==> r.value.Str? && |r.value.s| == |StringOf(str)| * (if IntOr0(count) > 0 then IntOr0(count) else 0)
  {
    var s := StringOf(str);
    var n := IntOr0(count);
    if |s| * n < 0 then None
    else Some(Str(Text.Repeat(s, if n > 0 then n else 0)))
  }

  method Repeat(count: Value, str: Value) returns (r: Option<Value>)
    ensures r == RepeatSpec(count, str)
  {
    var s := StringOf(str);
    var n := IntOr0(count);
    if |s| * n < 0 {
      return None;
    }
    var sb := "";
    var i := 0;
    while i < n
      invariant 0 <= i <= (if n > 0 then n else 0)
      invariant sb == Text.Repeat(s, i)
    {
      sb := sb + s;
      i := i + 1;
    }
    r := Some(Str(sb));
  }

  // ---------------------------------------------------------------------
  // Collections

  /** `length`: the `length` property of strings, arrays and objects that have one, otherwise 0. */
  function Length(obj: Value): (r: Value)
    ensures obj.Str? ==> r == Num(|obj.s|)
    ensures obj.Arr? ==> r == Num(|obj.items|)
    ensures !obj.Str? && !obj.Arr? && !HasOwn(obj, "length") ==> r == Num(0)
  {
    if !IsNullOrUndefined(obj) && HasOwn(obj, "length") then Get(obj, "length") else Num(0)
  }

  /** `keys`: the positions of an array, the keys of an object as strings, nothing for the rest. */
  function KeysOfValue(obj: Value): (r: Value)
    ensures r.Arr? && |r.items| == |Entries(obj)|
    ensures obj.Arr? ==> forall k :: 0 <= k < |r.items| ==> r.items[k] == Num(k)
    ensures !obj.Arr? ==> forall k :: 0 <= k < |r.items| ==> r.items[k] == Str(Entries(obj)[k].0)
  {
    if IsNullOrUndefined(obj) then Arr([])
    else if obj.Arr? then Arr(seq(|obj.items|, k requires 0 <= k < |obj.items| => Num(k)))
    else Arr(StrValues(Keys(obj)))
  }

  /** `..`: the integers from `a` to `b` in steps of one, in either direction, always ending with `b`. */
  function Range(a: int, b: int): (r: seq<int>)
    ensures |r| == (if a <= b then b - a else a - b) + 1
    ensures forall k :: 0 <= k < |r| ==> r[k] == (if a <= b then a + k else a - k)
    ensures r[0] == a && r[|r| - 1] == b
  {
    if a <= b then seq(b - a + 1, k requires 0 <= k <= b - a => a + k)
    else seq(a - b + 1, k requires 0 <= k <= a - b => a - k)
  }

  function NumValues(xs: seq<int>): (r: seq<Value>)
    ensures |r| == |xs| && forall k :: 0 <= k < |xs| ==> r[k] == Num(xs[k])
  {
    seq(|xs|, k requires 0 <= k < |xs| => Num(xs[k]))
  }

  /** The `for` loop of `..`: add `a` and step towards `b` until it is reached, then add `b`. */
  method To(a: Value, b: Value) returns (r: Value)
    ensures r == Arr(NumValues(Range(IntOr0(a), IntOr0(b))))
  {
    var x := IntOr0(a);
    var y := IntOr0(b);
    var step := if x < y then 1 else -1;
    ghost var x0, up := x, x < y;
    var list: seq<int> := [];
    while x != y
      invariant up ==> x0 <= x <= y
      invariant !up ==> y <= x <= x0
      invariant step == if up then 1 else -1
      invariant |list| == (if up then x - x0 else x0 - x)
      invariant forall k :: 0 <= k < |list| ==> list[k] == (if up then x0 + k else x0 - k)
      decreases if up then y - x else x - y
    {
      list := list + [x];
      x := x + step;
    }
    list := list + [y];
    ghost var range := Range(x0, y);
    assert |list| == |range|;
    assert forall k :: 0 <= k < |list| ==> list[k] == range[k];
    r := Arr(NumValues(list));
  }

  /** A list in reverse order. */
  function Reversed(xs: seq<Value>): (r: seq<Value>)
    ensures |r| == |xs| && forall k :: 0 <= k < |xs| ==> r[k] == xs[|xs| - 1 - k]
  {
    seq(|xs|, k requires 0 <= k < |xs| => xs[|xs| - 1 - k])
  }

  /** `reverse`: the elements (or the value alone) in reverse order. */
  function Reverse(value: Value): Value {
    Arr(Reversed(Extension.ToArray(value)))
  }

  /** Reversing twice gives the elements back in their order. */
  lemma ReverseTwice(value: Value)
    ensures Reverse(Reverse(value)) == Arr(Extension.ToArray(value))
  {
    var xs := Extension.ToArray(value);
    Extension.ToArrayElements(Reversed(xs), value);
    assert Reversed(Reversed(xs)) == xs;
  }

  /** `Skip(n)` then `Take(m)` on a list. */
  function SkipTake(xs: seq<Value>, n: int, m: int): (r: seq<Value>)
    ensures n >= 0 && m >= 0 ==> r == xs[(if n < |xs| then n else |xs|)..(if n + m < |xs| then n + m else |xs|)]
    ensures n >= |xs| || m <= 0 ==> r == []
  {
    var from := if n < 0 then 0 else if n < |xs| then n else |xs|;
    var to := if m <= 0 then from else if from + m < |xs| then from + m else |xs|;
    xs[from..to]
  }

  /**
   * `slice` as written: a negative start is turned into `Length - a`, which
   * is past the end, so the result is always empty.
   */
  function SliceAsWritten(value: Value, a: Value, b: Value): Value {
    var xs := Extension.ToArray(value);
    var a1 := IntOr0(a);
    var start := if a1 >= 0 then a1 else (if |xs| - a1 > 0 then |xs| - a1 else 0);
    Arr(SkipTake(xs, start, IntOr0(b)))
  }

  /** `slice` as intended: a negative start counts back from the end. */
  function Slice(value: Value, a: Value, b: Value): (r: Value)
    ensures r.Arr? && |r.items| <= |Extension.ToArray(value)|
  {
    var xs := Extension.ToArray(value);
    var a1 := IntOr0(a);
    var start := if a1 >= 0 then a1 else (if |xs| + a1 > 0 then |xs| + a1 else 0);
    Arr(SkipTake(xs, start, IntOr0(b)))
  }

  /** A negative start empties the written `slice`, whatever the count. */
  lemma SliceNegativeEmpty(value: Value, a: Value, b: Value)
    requires IntOr0(a) < 0
    ensures SliceAsWritten(value, a, b) == Arr([])
  {
  }

  /** The intended `slice` with start `-k` and a count of at least `k` gives the last `k` elements. */
  lemma SliceFromEnd(xs: seq<Value>, k: int, m: int)
    requires 0 < k <= |xs| && m >= k
    ensures Slice(Arr(xs), Num(-k), Num(m)) == Arr(xs[|xs| - k..])
  {
    Extension.ToArrayElements(xs, Arr(xs));
  }

  /** The two agree on non-negative starts. */
  lemma SliceAgrees(value: Value, a: Value, b: Value)
    requires IntOr0(a) >= 0
    ensures SliceAsWritten(value, a, b) == Slice(value, a, b)
  {
  }

  /** The elements kept by `unique`: each whose string form was not seen before, in order. */
  function UniqueFrom(xs: seq<Value>, seen: set<string>): (r: seq<Value>)
    ensures |r| <= |xs|
  {
    if xs == [] then []
    else if StringOf(xs[0]) in seen then UniqueFrom(xs[1..], seen)
    else [xs[0]] + UniqueFrom(xs[1..], seen + {StringOf(xs[0])})
  }

  function StringsOf(xs: seq<Value>): set<string> {
    set k | 0 <= k < |xs| :: StringOf(xs[k])
  }

  lemma StringsOfCons(x: Value, xs: seq<Value>)
    ensures StringsOf([x] + xs) == {StringOf(x)} + StringsOf(xs)
  {
    var r := [x] + xs;
    assert StringOf(r[0]) in StringsOf(r);
    forall s | s in StringsOf(r) ensures s in {StringOf(x)} + StringsOf(xs) {
      var k :| 0 <= k < |r| && StringOf(r[k]) == s;
      if k > 0 { assert r[k] == xs[k - 1]; }
    }
    forall s | s in StringsOf(xs) ensures s in StringsOf(r) {
      var k :| 0 <= k < |xs| && StringOf(xs[k]) == s;
      assert r[k + 1] == xs[k];
    }
  }

  /** `unique` keeps exactly the string forms not seen before. */
  lemma {:induction false} UniqueFromForms(xs: seq<Value>, seen: set<string>)
    ensures StringsOf(UniqueFrom(xs, seen)) == StringsOf(xs) - seen
    decreases |xs|
  {
    if xs != [] {
      var x := xs[0];
      assert xs == [x] + xs[1..];
      StringsOfCons(x, xs[1..]);
      if StringOf(x) in seen {
        UniqueFromForms(xs[1..], seen);
      } else {
        UniqueFromForms(xs[1..], seen + {StringOf(x)});
        StringsOfCons(x, UniqueFrom(xs[1..], seen + {StringOf(x)}));
      }
    }
  }

  /** `unique` never keeps two elements with the same string form. */
  lemma {:induction false} UniqueFromDistinct(xs: seq<Value>, seen: set<string>)
    ensures forall i, j :: 0 <= i < j < |UniqueFrom(xs, seen)| ==>
      StringOf(UniqueFrom(xs, seen)[i]) != StringOf(UniqueFrom(xs, seen)[j])
    decreases |xs|
  {
    if xs != [] {
      var x := xs[0];
      if StringOf(x) in seen {
        UniqueFromDistinct(xs[1..], seen);
      } else {
        var rest := UniqueFrom(xs[1..], seen + {StringOf(x)});
        UniqueFromDistinct(xs[1..], seen + {StringOf(x)});
        UniqueFromForms(xs[1..], seen + {StringOf(x)});
        var r := [x] + rest;
        forall i, j | 0 <= i < j < |r| ensures StringOf(r[i]) != StringOf(r[j]) {
          assert r[j] == rest[j - 1];
          if i == 0 {
            assert StringOf(rest[j - 1]) in StringsOf(rest);
          } else {
            assert r[i] == rest[i - 1];
          }
        }
      }
    }
  }

  /** `unique` on an array; anything else becomes a one-element array. */
  function UniqueSpec(value: Value): Value {
    if IsArrayLike(value) then Arr(UniqueFrom(EnumerateValues(value), {})) else Arr([value])
  }

  /** The loop of `unique`: a set of the string forms seen so far, and the kept elements. */
  method Unique(value: Value) returns (r: Value)
    ensures r == UniqueSpec(value)
  {
    if !IsArrayLike(value) {
      return Arr([value]);
    }
    var xs := EnumerateValues(value);
    var seen: set<string> := {};
    var result: seq<Value> := [];
    for k := 0 to |xs|
      invariant result + UniqueFrom(xs[k..], seen) == UniqueFrom(xs, {})
    {
      assert xs[k..][1..] == xs[k + 1..];
      var key := StringOf(xs[k]);
      if key !in seen {
        seen := seen + {key};
        result := result + [xs[k]];
      }
    }
    r := Arr(result);
  }

  /** `in`: an element of an array, or a key of an object. */
  function InCollection(value: Value, b: Value): (r: bool)
    ensures b.Arr? ==> (r <==> value in b.items)
    ensures !b.Arr? && !b.Obj? ==> !r
  {
    if b.Arr? then value in b.items
    else b.Obj? && HasOwn(b, ToStr(value))
  }

  // ---------------------------------------------------------------------
  // Dispatch

  /** The value-level built-ins, each taking a fixed number of pipe arguments after the piped value. */
  datatype Op =
    | MoreOp | LessOp | OrMoreOp | OrLessOp | BetweenOp | EqualsOp | NotEqualsOp
    | StartsWithOp | EndsWithOp | EvenOp | OddOp | OrOp | CoalesceOp | ChooseOp
    | ConcatOp | SubstrOp | RemoveStartOp | RemoveEndOp
    | CutBeforeOp | CutBeforeLastOp | CutAfterOp | CutAfterLastOp | SplitOp | RepeatOp
    | LengthOp | KeysOp | ToOp | JoinOp | ReverseOp | SliceOp | UniqueOp

  /** How many arguments the function takes from the pipe (its parameters after the piped value). */
  function Arity(op: Op): nat {
    match op
    case EvenOp | OddOp | LengthOp | KeysOp | ReverseOp | UniqueOp => 0
    case BetweenOp | ChooseOp | SubstrOp | SliceOp => 2
    case _ => 1
  }

  /** The result of a built-in on the piped value `v` and its pipe arguments; `None` when it throws. */
  function Apply(op: Op, v: Value, args: seq<Value>): (r: Option<Value>)
    requires |args| == Arity(op)
    ensures r.None? ==> op == SubstrOp || op == RepeatOp
  {
    match op
    case MoreOp => Some(More(v, args[0]))
    case LessOp => Some(Less(v, args[0]))
    case OrMoreOp => Some(OrMore(v, args[0]))
    case OrLessOp => Some(OrLess(v, args[0]))
    case BetweenOp => Some(Between(v, args[0], args[1]))
    case EqualsOp => Some(Equals(v, args[0]))
    case NotEqualsOp => Some(NotEquals(v, args[0]))
    case StartsWithOp => Some(StartsWith(v, args[0]))
    case EndsWithOp => Some(EndsWith(v, args[0]))
    case EvenOp => Some(Even(v))
    case OddOp => Some(Odd(v))
    case OrOp => Some(Or(v, args[0]))
    case CoalesceOp => Some(Coalesce(v, args[0]))
    case ChooseOp => Some(Choose(v, args[0], args[1]))
    case ConcatOp => Some(Concat(v, args[0]))
    case SubstrOp => Substr(v, args[0], args[1])
    case RemoveStartOp => Some(RemoveStart(v, args[0]))
    case RemoveEndOp => Some(RemoveEnd(v, args[0]))
    case CutBeforeOp => Some(CutBefore(v, args[0]))
    case CutBeforeLastOp => Some(CutBeforeLast(v, args[0]))
    case CutAfterOp => Some(CutAfter(v, args[0]))
    case CutAfterLastOp => Some(CutAfterLast(v, args[0]))
    case SplitOp => Some(Split(v, args[0]))
    case RepeatOp => RepeatSpec(v, args[0])
    case LengthOp => Some(Length(v))
    case KeysOp => Some(KeysOfValue(v))
    case ToOp => Some(Arr(NumValues(Range(IntOr0(v), IntOr0(args[0])))))
    case JoinOp => Some(Join(v, args[0]))
    case ReverseOp => Some(Reverse(v))
    case SliceOp => Some(Slice(v, args[0], args[1]))
    case UniqueOp => Some(UniqueSpec(v))
  }

  /** The built-ins as the delegate the native resolver hands out: argument lists of the wrong length are never passed. */
  function Natives(): (Op, Value, seq<Value>) -> Option<Value> {
    (op, v, args) => if |args| == Arity(op) then Apply(op, v, args) else None
  }

  /** Invoking a built-in: the loops of `repeat`, `..` and `unique` run as methods, the rest are expressions. */
  method Call(op: Op, v: Value, args: seq<Value>) returns (r: Option<Value>)
    requires |args| == Arity(op)
    ensures r == Apply(op, v, args)
  {
    match op {
      case RepeatOp => r := Repeat(v, args[0]);
      case ToOp =>
        var range := To(v, args[0]);
        r := Some(range);
      case UniqueOp =>
        var kept := Unique(v);
        r := Some(kept);
      case _ => r := Apply(op, v, args);
    }
  }
}
