/**
 * The dynamic values templates compute with. Numbers are integers, strings
 * are sequences of characters, arrays are sequences and objects are
 * ordered key/value lists. The conversions below are the ones the template
 * engine asks of its value runtime: truthiness, string conversion, property
 * access, enumeration of own entries and relational comparison.
 */
module Values {
  import opened Wrappers
  import opened Text

  datatype Value =
    | Undefined
    | Null
    | Bool(b: bool)
    | Num(n: int)
    | Str(s: string)
    | Arr(items: seq<Value>)
    | Obj(entries: seq<(string, Value)>)
    | Fn(id: nat)

  predicate IsNullOrUndefined(v: Value) { v.Undefined? || v.Null? }

  predicate IsPrimitive(v: Value) { !(v.Arr? || v.Obj? || v.Fn?) }

  predicate IsArrayLike(v: Value) { v.Arr? }

  predicate IsCallable(v: Value) { v.Fn? }

  /** ToBoolean: the value a condition or a `(bool)` cast sees. */
  predicate Truthy(v: Value) {
    match v
    case Undefined => false
    case Null => false
    case Bool(b) => b
    case Num(n) => n != 0
    case Str(s) => s != ""
    case _ => true
  }

  function TypeOf(v: Value): string {
    match v
    case Undefined => "undefined"
    case Null => "object"
    case Bool(_) => "boolean"
    case Num(_) => "number"
    case Str(_) => "string"
    case Fn(_) => "function"
    case _ => "object"
  }

  /** The key an array element is enumerated under. */
  function IndexKey(i: nat): string { NatToString(i) }

  /** The element position a property name denotes on an array, if it is a canonical index. */
  function ArrayIndex(name: string): (r: Option<nat>)
    ensures r.Some? ==> IndexKey(r.value) == name
  {
    if IsCanonicalNat(name) then
      CanonicalNatRoundTrip(name);
      Some(DigitsValue(name))
    else None
  }

  lemma IndexKeyIsIndex(i: nat)
    ensures ArrayIndex(IndexKey(i)) == Some(i)
  {
    NatToStringValue(i);
  }

  /** The first entry whose key is `name`. */
  function Lookup(entries: seq<(string, Value)>, name: string): (r: Option<Value>)
    ensures r.None? <==> forall i :: 0 <= i < |entries| ==> entries[i].0 != name
    ensures r.Some? ==> exists i :: 0 <= i < |entries| && entries[i] == (name, r.value)
  {
    if entries == [] then None
    else if entries[0].0 == name then Some(entries[0].1)
    else
      var r := Lookup(entries[1..], name);
      assert r.Some? ==> exists i :: 0 <= i < |entries[1..]| && entries[1..][i] == (name, r.value);
      r
  }

  function KeysOf(entries: seq<(string, Value)>): (r: seq<string>)
    ensures |r| == |entries| && forall i :: 0 <= i < |r| ==> r[i] == entries[i].0
  {
    seq(|entries|, i requires 0 <= i < |entries| => entries[i].0)
  }

  predicate UniqueKeys(entries: seq<(string, Value)>) {
    forall i, j :: 0 <= i < j < |entries| ==> entries[i].0 != entries[j].0
  }

  /** Own enumerable entries, in enumeration order: array elements under their index keys, object entries as stored. */
  function Entries(v: Value): (r: seq<(string, Value)>)
    ensures v.Arr? ==> |r| == |v.items| && forall i :: 0 <= i < |r| ==> r[i] == (IndexKey(i), v.items[i])
    ensures v.Obj? ==> r == v.entries
    ensures !(v.Arr? || v.Obj?) ==> r == []
  {
    match v
    case Arr(items) => seq(|items|, i requires 0 <= i < |items| => (IndexKey(i), items[i]))
    case Obj(entries) => entries
    case _ => []
  }

  function Keys(v: Value): seq<string> { KeysOf(Entries(v)) }

  function EntryValues(entries: seq<(string, Value)>): (r: seq<Value>)
    ensures |r| == |entries| && forall i :: 0 <= i < |r| ==> r[i] == entries[i].1
  {
    seq(|entries|, i requires 0 <= i < |entries| => entries[i].1)
  }

  function EnumerateValues(v: Value): seq<Value> { EntryValues(Entries(v)) }

  /** Property read `v[name]`: array elements and length, string characters and length, object entries. */
  function Get(v: Value, name: string): Value {
    match v
    case Arr(items) =>
      if name == "length" then Num(|items|)
      else (match ArrayIndex(name)
            case Some(i) => if i < |items| then items[i] else Undefined
            case None => Undefined)
    case Str(s) =>
      if name == "length" then Num(|s|)
      else (match ArrayIndex(name)
            case Some(i) => if i < |s| then Str([s[i]]) else Undefined
            case None => Undefined)
    case Obj(entries) =>
      (match Lookup(entries, name) case Some(x) => x case None => Undefined)
    case _ => Undefined
  }

  predicate HasOwn(v: Value, name: string) {
    match v
    case Arr(items) =>
      name == "length" || (ArrayIndex(name).Some? && ArrayIndex(name).value < |items|)
    case Str(s) =>
      name == "length" || (ArrayIndex(name).Some? && ArrayIndex(name).value < |s|)
    case Obj(entries) => Lookup(entries, name).Some?
    case _ => false
  }

  /** Reading back an enumerated entry gives its value (objects with distinct keys). */
  lemma EntriesReadBack(v: Value, i: nat)
    requires i < |Entries(v)|
    requires v.Obj? ==> UniqueKeys(v.entries)
    ensures HasOwn(v, Entries(v)[i].0) && Get(v, Entries(v)[i].0) == Entries(v)[i].1
  {
    if v.Arr? {
      IndexKeyIsIndex(i);
      assert IndexKey(i) != "length";
    } else {
      var e := v.entries;
      LookupUnique(e, i);
    }
  }

  lemma {:induction false} LookupUnique(e: seq<(string, Value)>, i: nat)
    requires i < |e| && UniqueKeys(e)
    ensures Lookup(e, e[i].0) == Some(e[i].1)
  {
    if i > 0 {
      assert e[0].0 != e[i].0;
      assert e[1..][i - 1] == e[i];
      LookupUnique(e[1..], i - 1);
    }
  }

  /** JavaScript ToString of a value; arrays join their elements with commas. */
  function ToStr(v: Value): string
    decreases v, 1
  {
    match v
    case Undefined => "undefined"
    case Null => "null"
    case Bool(b) => if b then "true" else "false"
    case Num(n) => IntToString(n)
    case Str(s) => s
    case Arr(items) => JoinItems(v, items, 0)
    case Obj(_) => "[object Object]"
    case Fn(_) => "function"
  }

  function JoinItems(whole: Value, items: seq<Value>, from: nat): string
    requires whole.Arr? && items == whole.items
    decreases whole, 0, |items| - from
  {
    if from >= |items| then ""
    else
      var head := if IsNullOrUndefined(items[from]) then "" else ToStr(items[from]);
      if from + 1 == |items| then head else head + "," + JoinItems(whole, items, from + 1)
  }

  /**
   * ToNumber on the integer fragment: None stands for NaN. Strings convert
   * when, after trimming white space, they are empty (zero) or an optionally
   * signed run of decimal digits.
   */
  function ToNumber(v: Value): Option<int> {
    match v
    case Null => Some(0)
    case Bool(b) => Some(if b then 1 else 0)
    case Num(n) => Some(n)
    case Str(s) => NumericText(s)
    case _ => None
  }

  function NumericText(s: string): (r: Option<int>) {
    var t := TrimEndBy(TrimStartBy(s, IsWhite), IsWhite);
    if t == "" then Some(0) else SignedText(t)
  }

  /** An optional sign followed by a non-empty run of digits, read as a signed integer. */
  function SignedText(t: string): Option<int>
    requires t != ""
  {
    var neg := t[0] == '-';
    var digits := if t[0] == '-' || t[0] == '+' then t[1..] else t;
    if |digits| == 0 || !AllDigits(digits) then None
    else
      var v: int := DigitsValue(digits);
      Some(if neg then -v else v)
  }

  /** The decimal text of an integer reads back as that integer. */
  lemma NumberTextRoundTrip(n: int)
    ensures NumericText(ToStr(Num(n))) == Some(n)
    ensures ToNumber(Str(ToStr(Num(n)))) == Some(n)
  {
    var s := IntToString(n);
    assert ToStr(Num(n)) == s;
    UntrimmedIntString(n);
    SignedTextRoundTrip(n);
  }

  lemma UntrimmedIntString(n: int)
    ensures TrimEndBy(TrimStartBy(IntToString(n), IsWhite), IsWhite) == IntToString(n)
  {
    var s := IntToString(n);
    assert !IsWhite(s[0]);
    assert !IsWhite(s[|s| - 1]) by {
      if n < 0 { assert s[|s| - 1] == NatToString(-n)[|NatToString(-n)| - 1]; }
    }
    assert TrimStartBy(s, IsWhite) == s;
  }

  lemma SignedTextRoundTrip(n: int)
    ensures SignedText(IntToString(n)) == Some(n)
  {
    var s := IntToString(n);
    if n < 0 {
      assert s[0] == '-' && s[1..] == NatToString(-n);
      NatToStringValue(-n);
      assert DigitsValue(s[1..]) == -n;
    } else {
      assert s == NatToString(n) && IsDigit(s[0]);
      NatToStringValue(n);
    }
  }

  /** A text holding a character that is no digit, no sign and no white space has no numeric reading. */
  lemma NonNumericText(s: string, i: nat)
    requires i < |s| && !IsDigit(s[i]) && !IsWhite(s[i]) && s[i] != '-' && s[i] != '+'
    ensures NumericText(s).None?
  {
    var t0 := TrimStartBy(s, IsWhite);
    TrimStartKeeps(s, IsWhite, i);
    var j := i - (|s| - |t0|);
    assert t0[j] == s[i];
    var t := TrimEndBy(t0, IsWhite);
    TrimEndKeeps(t0, IsWhite, j);
    assert t[j] == s[i];
    var digits := if t[0] == '-' || t[0] == '+' then t[1..] else t;
    if t[0] == '-' || t[0] == '+' {
      assert j > 0 && digits[j - 1] == s[i];
    } else {
      assert digits[j] == s[i];
    }
  }

  /**
   * The falsy values are exactly undefined, null, false, 0 and the empty
   * string; arrays, objects and functions are always truthy, even when their
   * string form is empty.
   */
  lemma FalsyValues(v: Value)
    ensures !Truthy(v) <==> v == Undefined || v == Null || v == Bool(false) || v == Num(0) || v == Str("")
    ensures v.Arr? || v.Obj? || v.Fn? ==> Truthy(v)
    ensures Truthy(Arr([])) && ToStr(Arr([])) == ""
  {
  }

  /** Character order on strings. */
  predicate StrLess(a: string, b: string)
    decreases |a|
  {
    |b| > 0 && (|a| == 0 || a[0] < b[0] || (a[0] == b[0] && StrLess(a[1..], b[1..])))
  }

  /** Relational `x < y`: strings by characters, everything else as numbers (NaN compares false). */
  predicate Less(x: Value, y: Value) {
    if x.Str? && y.Str? then StrLess(x.s, y.s)
    else ToNumber(x).Some? && ToNumber(y).Some? && ToNumber(x).value < ToNumber(y).value
  }

  lemma {:induction false} StrLessIrreflexive(a: string)
    ensures !StrLess(a, a)
    decreases |a|
  {
    if |a| > 0 { StrLessIrreflexive(a[1..]); }
  }

  lemma {:induction false} StrLessAsymmetric(a: string, b: string)
    requires StrLess(a, b)
    ensures !StrLess(b, a)
    decreases |a|
  {
    if |a| > 0 && a[0] == b[0] { StrLessAsymmetric(a[1..], b[1..]); }
  }

  /** `<` is a strict order: never both ways, never reflexive. */
  lemma LessAsymmetric(x: Value, y: Value)
    ensures !(Less(x, y) && Less(y, x))
    ensures !Less(x, x)
  {
    if x.Str? && y.Str? {
      if StrLess(x.s, y.s) { StrLessAsymmetric(x.s, y.s); }
    }
    if x.Str? { StrLessIrreflexive(x.s); }
  }
}
