/**
 * Character classes, decimal conversions and substring searches that the
 * .NET runtime supplies to the template engine (String.IndexOf,
 * String.LastIndexOf, Int32.TryParse, Int32.ToString, String.Split), written
 * out over `string == seq<char>` with ordinal comparison.
 */
module Text {
  import opened Wrappers

  const Int32Min: int := -0x8000_0000
  const Int32Max: int := 0x7FFF_FFFF

  predicate IsDigit(c: char) { '0' <= c <= '9' }

  predicate AllDigits(s: string) { forall i :: 0 <= i < |s| ==> IsDigit(s[i]) }

  /** The regular-expression class `\s`: white space and the Unicode separators. */
  predicate IsWhite(c: char) {
    c == ' ' || ('\t' <= c <= '\r') || c == '\U{85}' || c == '\U{A0}' || c == '\U{1680}'
    || ('\U{2000}' <= c <= '\U{200A}') || c == '\U{2028}' || c == '\U{2029}' || c == '\U{202F}'
    || c == '\U{205F}' || c == '\U{3000}'
  }

  /** The white space that number parsing skips around a number. */
  predicate IsNumberWhite(c: char) { c == ' ' || ('\t' <= c <= '\r') }

  /** The regular-expression class `\w` restricted to ASCII letters, digits and the underscore. */
  predicate IsWordChar(c: char) { ('a' <= c <= 'z') || ('A' <= c <= 'Z') || IsDigit(c) || c == '_' }

  function DigitChar(d: nat): (c: char)
    requires d < 10
    ensures IsDigit(c)
  {
    ['0','1','2','3','4','5','6','7','8','9'][d]
  }

  function DigitValue(c: char): (d: nat)
    requires IsDigit(c)
    ensures d < 10 && DigitChar(d) == c
  {
    (c as int) - ('0' as int)
  }

  /** The value of a run of decimal digits, most significant first. */
  function DigitsValue(s: string): nat
    requires AllDigits(s)
  {
    if s == [] then 0 else DigitsValue(s[..|s| - 1]) * 10 + DigitValue(s[|s| - 1])
  }

  /** Decimal digits of a natural number, with no leading zero. */
  function NatToString(n: nat): (r: string)
    ensures |r| >= 1 && AllDigits(r)
    ensures r[0] != '0' || n == 0
  {
    if n < 10 then [DigitChar(n)] else NatToString(n / 10) + [DigitChar(n % 10)]
  }

  /** `Int32.ToString()` and `Object.ToString()` of an integer. */
  function IntToString(n: int): (r: string)
    ensures |r| >= 1
    ensures n >= 0 <==> r[0] != '-'
  {
    if n < 0 then "-" + NatToString(-n) else NatToString(n)
  }

  lemma {:induction false} NatToStringValue(n: nat)
    ensures DigitsValue(NatToString(n)) == n
  {
    if n >= 10 {
      var r := NatToString(n);
      NatToStringValue(n / 10);
      assert r[..|r| - 1] == NatToString(n / 10);
    }
  }

  /** Canonical decimal strings are exactly the images of NatToString. */
  predicate IsCanonicalNat(s: string) {
    |s| >= 1 && AllDigits(s) && (s[0] != '0' || |s| == 1)
  }

  lemma {:induction false} CanonicalNatRoundTrip(s: string)
    requires IsCanonicalNat(s)
    ensures NatToString(DigitsValue(s)) == s
    decreases |s|
  {
    if |s| > 1 {
      var p := s[..|s| - 1];
      var d := DigitValue(s[|s| - 1]);
      assert IsCanonicalNat(p);
      CanonicalNatRoundTrip(p);
      LeadingDigitPositive(p);
      var v := DigitsValue(s);
      assert v == DigitsValue(p) * 10 + d;
      assert v / 10 == DigitsValue(p) && v % 10 == d;
      assert NatToString(v) == NatToString(v / 10) + [DigitChar(v % 10)];
      assert s == p + [s[|s| - 1]];
    }
  }

  lemma {:induction false} LeadingDigitPositive(s: string)
    requires IsCanonicalNat(s) && s[0] != '0'
    ensures DigitsValue(s) >= 1
    decreases |s|
  {
    if |s| > 1 {
      var p := s[..|s| - 1];
      assert p[0] == s[0];
      LeadingDigitPositive(p);
    }
  }

  function TrimStartBy(s: string, skip: char -> bool): (r: string)
    ensures |r| <= |s| && r == s[|s| - |r|..]
    ensures |r| > 0 ==> !skip(r[0])
  {
    if |s| > 0 && skip(s[0]) then TrimStartBy(s[1..], skip) else s
  }

  function TrimEndBy(s: string, skip: char -> bool): (r: string)
    ensures |r| <= |s| && r == s[..|r|]
    ensures |r| > 0 ==> !skip(r[|r| - 1])
  {
    if |s| > 0 && skip(s[|s| - 1]) then TrimEndBy(s[..|s| - 1], skip) else s
  }

  /** Trimming at the start never removes a character that is not skipped, nor anything after it. */
  lemma {:induction false} TrimStartKeeps(s: string, skip: char -> bool, i: nat)
    requires i < |s| && !skip(s[i])
    ensures |s| - |TrimStartBy(s, skip)| <= i
  {
    if |s| > 0 && skip(s[0]) {
      TrimStartKeeps(s[1..], skip, i - 1);
    }
  }

  /** Trimming at the end never removes a character that is not skipped, nor anything before it. */
  lemma {:induction false} TrimEndKeeps(s: string, skip: char -> bool, i: nat)
    requires i < |s| && !skip(s[i])
    ensures i < |TrimEndBy(s, skip)|
  {
    if |s| > 0 && skip(s[|s| - 1]) {
      TrimEndKeeps(s[..|s| - 1], skip, i);
    }
  }

  /**
   * `Int32.TryParse` with the default integer style: white space around an
   * optional sign and a run of ASCII digits, the value within 32 bits.
   */
  function ParseInt32(s: string): (r: Option<int>)
    ensures r.Some? ==> Int32Min <= r.value <= Int32Max
  {
    ParseSignedDigits(TrimEndBy(TrimStartBy(s, IsNumberWhite), IsNumberWhite))
  }

  function ParseSignedDigits(t: string): (r: Option<int>)
    ensures r.Some? ==> Int32Min <= r.value <= Int32Max
  {
    var neg := |t| > 0 && t[0] == '-';
    var digits := if |t| > 0 && (t[0] == '-' || t[0] == '+') then t[1..] else t;
    if |digits| == 0 || !AllDigits(digits) then None
    else
      var v: int := DigitsValue(digits);
      var n := if neg then -v else v;
      if Int32Min <= n <= Int32Max then Some(n) else None
  }

  lemma TrimIntString(n: int)
    ensures TrimEndBy(TrimStartBy(IntToString(n), IsNumberWhite), IsNumberWhite) == IntToString(n)
  {
    var s := IntToString(n);
    assert !IsNumberWhite(s[0]);
    assert !IsNumberWhite(s[|s| - 1]) by {
      if n < 0 { assert s[|s| - 1] == NatToString(-n)[|NatToString(-n)| - 1]; }
    }
  }

  /** Every 32-bit integer survives a round trip through its decimal text. */
  lemma {:induction false} Int32RoundTrip(n: int)
    requires Int32Min <= n <= Int32Max
    ensures ParseInt32(IntToString(n)) == Some(n)
  {
    TrimIntString(n);
    SignedDigitsRoundTrip(n);
  }

  lemma SignedDigitsRoundTrip(n: int)
    requires Int32Min <= n <= Int32Max
    ensures ParseSignedDigits(IntToString(n)) == Some(n)
  {
    var s := IntToString(n);
    if n < 0 {
      assert s[0] == '-' && s[1..] == NatToString(-n);
      NatToStringValue(-n);
      assert DigitsValue(s[1..]) == -n;
    } else {
      assert s == NatToString(n) && IsDigit(s[0]);
      NatToStringValue(n);
    }
  }

  /** `sub` occurs in `s` at position `k`. */
  predicate IsAt(s: string, sub: string, k: int) {
    0 <= k && k + |sub| <= |s| && s[k..k + |sub|] == sub
  }

  /** Leftmost occurrence of `sub` in `s` at or after `from` (ordinal `IndexOf`). */
  function IndexOfFrom(s: string, sub: string, from: nat): (r: Option<nat>)
    ensures r.Some? ==> from <= r.value && IsAt(s, sub, r.value)
    ensures r.Some? ==> forall k :: from <= k < r.value ==> !IsAt(s, sub, k)
    ensures r.None? ==> forall k :: from <= k ==> !IsAt(s, sub, k)
    decreases |s| - from
  {
    if from + |sub| > |s| then None
    else if s[from..from + |sub|] == sub then Some(from)
    else IndexOfFrom(s, sub, from + 1)
  }

  function IndexOf(s: string, sub: string): Option<nat> { IndexOfFrom(s, sub, 0) }

  /** Rightmost position of `c` strictly before `end` (`LastIndexOf(c, end - 1)`). */
  function LastIndexOfChar(s: string, c: char, end: nat): (r: Option<nat>)
    requires end <= |s|
    ensures r.Some? ==> r.value < end && s[r.value] == c
    ensures r.Some? ==> forall k :: r.value < k < end ==> s[k] != c
    ensures r.None? ==> forall k :: 0 <= k < end ==> s[k] != c
  {
    if end == 0 then None
    else if s[end - 1] == c then Some(end - 1)
    else LastIndexOfChar(s, c, end - 1)
  }

  function CountChar(s: string, c: char): nat {
    if s == [] then 0 else CountChar(s[..|s| - 1], c) + (if s[|s| - 1] == c then 1 else 0)
  }

  /** `String.Split(c)`: the pieces between the separators, always at least one. */
  function Split(s: string, c: char): (r: seq<string>)
    ensures |r| >= 1
  {
    if s == [] then [""]
    else
      var init := Split(s[..|s| - 1], c);
      if s[|s| - 1] == c then init + [""]
      else init[..|init| - 1] + [init[|init| - 1] + [s[|s| - 1]]]
  }

  /** Split yields one more piece than there are separators. */
  lemma {:induction false} SplitCount(s: string, c: char)
    ensures |Split(s, c)| == CountChar(s, c) + 1
  {
    if s != [] { SplitCount(s[..|s| - 1], c); }
  }

  /** The last piece of a split is the text after the last separator. */
  lemma {:induction false} SplitLast(s: string, c: char)
    ensures var r := Split(s, c);
      var from := match LastIndexOfChar(s, c, |s|) case Some(k) => k + 1 case None => 0;
      r[|r| - 1] == s[from..]
  {
    if s != [] {
      SplitLast(s[..|s| - 1], c);
      var p := s[..|s| - 1];
      if s[|s| - 1] != c {
        match LastIndexOfChar(p, c, |p|)
        case Some(k) =>
          assert LastIndexOfChar(s, c, |s|) == LastIndexOfChar(s, c, |p|);
          LastIndexPrefix(s, p, c, |p|);
        case None =>
          LastIndexPrefix(s, p, c, |p|);
      }
    }
  }

  lemma {:induction false} LastIndexPrefix(s: string, p: string, c: char, end: nat)
    requires p <= s && end <= |p|
    ensures LastIndexOfChar(s, c, end) == LastIndexOfChar(p, c, end)
  {
    if end > 0 { LastIndexPrefix(s, p, c, end - 1); }
  }

  function Repeat(s: string, n: nat): (r: string)
    ensures |r| == |s| * n
  {
    if n == 0 then "" else Repeat(s, n - 1) + s
  }
}
