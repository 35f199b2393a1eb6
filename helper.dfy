/**
 * Helper routines of the engine: repeating and indenting strings, the string
 * form of an evaluated value, the property test used when choosing a key,
 * HTML escaping, and splitting a `/pattern/flags` needle.
 */
module Helper {
  import opened Wrappers
  import opened Text
  import opened Values

  /** `Repeat(str, count)`: `count` copies of `str`, none when `count` is not positive. */
  method Repeat(str: string, count: int) returns (r: string)
    ensures r == Text.Repeat(str, if count > 0 then count else 0)
    ensures |r| == |str| * (if count > 0 then count else 0)
  {
    r := "";
    var i := 0;
    while i < count
      invariant 0 <= i <= (if count > 0 then count else 0)
      invariant r == Text.Repeat(str, i)
    {
      r := r + str;
      i := i + 1;
    }
  }

  /** `Indent(str, level, start)`: `start` (empty when null) followed by `level` copies of `str`. */
  method Indent(str: string, level: int, start: Option<string>) returns (r: string)
    ensures var s := if start.Some? then start.value else "";
      r == s + Text.Repeat(str, if level > 0 then level else 0)
  {
    var s := if start.Some? then start.value else "";
    var body := Repeat(str, level);
    r := s + body;
  }

  /** `Indent(width, level, start)`: `start` followed by `width * level` spaces and nothing else. */
  method IndentSpaces(width: int, level: int, start: Option<string>) returns (r: string)
    ensures var s := if start.Some? then start.value else "";
      var w := if width > 0 then width else 0;
      var l := if level > 0 then level else 0;
      |r| == |s| + w * l && r[..|s|] == s && forall k :: |s| <= k < |r| ==> r[k] == ' '
  {
    var unit := Repeat(" ", width);
    r := Indent(unit, level, start);
    var s := if start.Some? then start.value else "";
    RepeatOnly(" ", if width > 0 then width else 0, ' ');
    RepeatOnly(unit, if level > 0 then level else 0, ' ');
    assert forall k :: |s| <= k < |r| ==> r[k] == Text.Repeat(unit, if level > 0 then level else 0)[k - |s|];
  }

  /** Repeating a string made of one character gives a string made of that character. */
  lemma {:induction false} RepeatOnly(s: string, n: nat, c: char)
    requires forall k :: 0 <= k < |s| ==> s[k] == c
    ensures forall k :: 0 <= k < |Text.Repeat(s, n)| ==> Text.Repeat(s, n)[k] == c
  {
    if n > 0 { RepeatOnly(s, n - 1, c); }
  }

  /** Repetition counts add: `a + b` copies are `a` copies then `b` copies. */
  lemma {:induction false} RepeatAdd(s: string, a: nat, b: nat)
    ensures Text.Repeat(s, a + b) == Text.Repeat(s, a) + Text.Repeat(s, b)
  {
    if b > 0 {
      RepeatAdd(s, a, b - 1);
      assert Text.Repeat(s, a + b) == Text.Repeat(s, a + b - 1) + s;
    }
  }

  /**
   * `String(value, stringify)`: the text a value renders as. Null, undefined
   * and functions render empty; a string renders as itself; anything else
   * through `stringify` when one is given, otherwise through ToString.
   */
  function DisplayString(v: Value, stringify: Option<Value -> string>): (r: string)
    ensures IsNullOrUndefined(v) || IsCallable(v) ==> r == ""
    ensures v.Str? ==> r == v.s
    ensures !IsNullOrUndefined(v) && !IsCallable(v) && !v.Str? ==>
      r == (if stringify.Some? then stringify.value(v) else ToStr(v))
  {
    if IsNullOrUndefined(v) || TypeOf(v) == "function" then ""
    else if v.Str? || stringify.None? then ToStr(v)
    else stringify.value(v)
  }

  /**
   * `HasProperty(value, name)`: whether `name` can serve as a key of `value`:
   * never on null or undefined, never when the property holds a function,
   * always for an integer name on an array, otherwise when the property exists.
   */
  predicate HasProperty(v: Value, name: string)
    ensures HasProperty(v, name) ==> !IsNullOrUndefined(v) && !IsCallable(Get(v, name))
    ensures v.Arr? && ParseInt32(name).Some? && !IsCallable(Get(v, name)) ==> HasProperty(v, name)
    ensures !v.Arr? ==> (HasProperty(v, name) <==> HasOwn(v, name) && !IsCallable(Get(v, name)))
    ensures !IsNullOrUndefined(v) && HasOwn(v, name) && !IsCallable(Get(v, name)) ==> HasProperty(v, name)
  {
    if IsNullOrUndefined(v) || IsCallable(Get(v, name)) then false
    else if v.Arr? && ParseInt32(name).Some? then true
    else if HasOwn(v, name) then TypeOf(Get(v, name)) != "function"
    else false
  }

  /**
   * A rendered text renders as itself whatever the callback; the callback
   * changes nothing for strings, null, undefined and functions; and a number
   * rendered without a callback reads back as that number.
   */
  lemma DisplayStringStable(v: Value, stringify: Option<Value -> string>, other: Option<Value -> string>)
    ensures DisplayString(Str(DisplayString(v, stringify)), other) == DisplayString(v, stringify)
    ensures v.Str? || IsNullOrUndefined(v) || IsCallable(v) ==> DisplayString(v, stringify) == DisplayString(v, other)
    ensures v.Num? ==> NumericText(DisplayString(v, None)) == Some(v.n)
  {
    if v.Num? {
      NumberTextRoundTrip(v.n);
    }
  }

  /**
   * Every enumerated key of an array, or of an object with distinct keys, is a
   * property exactly when its value is not a function; a name an object lacks
   * is never one.
   */
  lemma HasPropertyEntries(v: Value, i: nat, name: string)
    requires i < |Entries(v)| && (v.Obj? ==> UniqueKeys(v.entries))
    ensures HasProperty(v, Entries(v)[i].0) <==> !IsCallable(Entries(v)[i].1)
    ensures v.Obj? && Lookup(v.entries, name).None? ==> !HasProperty(v, name)
  {
    EntriesReadBack(v, i);
    assert v.Arr? || v.Obj?;
  }

  // ---------------------------------------------------------------- escaping

  predicate IsMarkup(c: char) { c == '"' || c == '\'' || c == '&' || c == '<' || c == '>' }

  function EntityFor(c: char): string
    requires IsMarkup(c)
  {
    if c == '"' then "&quot;" else if c == '&' then "&amp;" else if c == '\'' then "&#39;"
    else if c == '<' then "&lt;" else "&gt;"
  }

  predicate IsAsciiLetter(c: char) { ('a' <= c <= 'z') || ('A' <= c <= 'Z') }

  predicate IsAsciiAlnum(c: char) { IsAsciiLetter(c) || IsDigit(c) }

  /** End of the run of characters satisfying `p` that starts at `i`. */
  function RunEnd(t: string, i: nat, p: char -> bool): (e: nat)
    requires i <= |t|
    ensures i <= e <= |t| && (e < |t| ==> !p(t[e]))
    ensures forall k :: i <= k < e ==> p(t[k])
    decreases |t| - i
  {
    if i < |t| && p(t[i]) then RunEnd(t, i + 1, p) else i
  }

  /**
   * The text after an ampersand begins a character reference `#digits;` or
   * `name;` (a letter, then at least one letter or digit), letters in either case.
   */
  predicate EntityBody(t: string) {
    (|t| > 0 && t[0] == '#' && var e := RunEnd(t, 1, IsDigit); e > 1 && e < |t| && t[e] == ';')
    || (|t| > 0 && IsAsciiLetter(t[0]) && var e := RunEnd(t, 1, IsAsciiAlnum); e > 1 && e < |t| && t[e] == ';')
  }

  /**
   * `Escape(str, preserveEntity)`: replace each of `" ' & < >` by its
   * character reference; with `preserveEntity`, an ampersand that already
   * begins a character reference is kept.
   */
  function Escape(s: string, preserveEntity: bool): (r: string)
    ensures forall k :: 0 <= k < |r| ==> r[k] != '<' && r[k] != '>' && r[k] != '"' && r[k] != '\''
    ensures |r| >= |s|
  {
    if s == [] then ""
    else
      var head := if IsMarkup(s[0]) && !(preserveEntity && s[0] == '&' && EntityBody(s[1..]))
        then EntityFor(s[0]) else [s[0]];
      head + Escape(s[1..], preserveEntity)
  }

  /** Decoding of the five references Escape produces; every other character is kept. */
  function Unescape(t: string): string {
    if t == [] then ""
    else if |t| >= 6 && t[..6] == "&quot;" then "\"" + Unescape(t[6..])
    else if |t| >= 5 && t[..5] == "&amp;" then "&" + Unescape(t[5..])
    else if |t| >= 5 && t[..5] == "&#39;" then "'" + Unescape(t[5..])
    else if |t| >= 4 && t[..4] == "&lt;" then "<" + Unescape(t[4..])
    else if |t| >= 4 && t[..4] == "&gt;" then ">" + Unescape(t[4..])
    else [t[0]] + Unescape(t[1..])
  }

  /** Escaping without entity preservation loses nothing: decoding restores the text. */
  lemma {:induction false} EscapeRoundTrip(s: string)
    ensures Unescape(Escape(s, false)) == s
  {
    if s != [] {
      EscapeRoundTrip(s[1..]);
      var rest := Escape(s[1..], false);
      var c := s[0];
      if IsMarkup(c) {
        assert Escape(s, false) == EntityFor(c) + rest;
        UnescapeEntity(c, rest);
      } else {
        var t := [c] + rest;
        assert Escape(s, false) == t;
        assert t[1..] == rest;
        assert |t| >= 4 ==> t[..4] != "&lt;" && t[..4] != "&gt;" by { if |t| >= 4 { assert t[..4][0] == c; } }
        assert |t| >= 5 ==> t[..5] != "&amp;" && t[..5] != "&#39;" by { if |t| >= 5 { assert t[..5][0] == c; } }
        assert |t| >= 6 ==> t[..6] != "&quot;" by { if |t| >= 6 { assert t[..6][0] == c; } }
      }
    }
  }

  lemma UnescapeEntity(c: char, rest: string)
    requires IsMarkup(c)
    ensures Unescape(EntityFor(c) + rest) == [c] + Unescape(rest)
  {
    var e := EntityFor(c);
    var t := e + rest;
    assert t[..|e|] == e && t[|e|..] == rest;
    if c == '&' || c == '\'' {
      assert |t| >= 6 ==> t[..6] != "&quot;" by { if |t| >= 6 { assert t[..6][1] == t[1]; } }
    }
    if c == '\'' {
      assert t[..5] != "&amp;" by { assert t[..5][1] == '#'; }
    }
    if c == '<' || c == '>' {
      assert |t| >= 6 ==> t[..6] != "&quot;" by { if |t| >= 6 { assert t[..6][1] == t[1]; } }
      assert |t| >= 5 ==> t[..5] != "&amp;" && t[..5] != "&#39;" by { if |t| >= 5 { assert t[..5][1] == t[1]; } }
    }
    if c == '>' {
      assert t[..4] != "&lt;" by { assert t[..4][1] == 'g'; }
    }
  }

  /** With preservation, text without markup characters is left unchanged. */
  lemma {:induction false} EscapePlainText(s: string, preserveEntity: bool)
    requires forall k :: 0 <= k < |s| ==> !IsMarkup(s[k])
    ensures Escape(s, preserveEntity) == s
  {
    if s != [] { EscapePlainText(s[1..], preserveEntity); }
  }

  /**
   * `ParseRegExp(needle)`: a needle of the form `/pattern/flags`, the last
   * slash after position 1, splits into pattern and flags; anything else is
   * not a regular expression. (Compiling the pattern is not modelled.)
   */
  function SplitRegExp(needle: string): (r: Option<(string, string)>)
    ensures r.Some? ==> |r.value.0| >= 1 && needle == "/" + r.value.0 + "/" + r.value.1
    ensures r.Some? ==> forall k :: 0 <= k < |r.value.1| ==> r.value.1[k] != '/'
    ensures r.None? ==> |needle| < 3 || needle[0] != '/' || forall k :: 1 < k < |needle| ==> needle[k] != '/'
  {
    if |needle| > 0 && needle[0] == '/' then
      match LastIndexOfChar(needle, '/', |needle|)
      case Some(last) =>
        if last > 1 then
          assert needle == "/" + needle[1..last] + "/" + needle[last + 1..];
          Some((needle[1..last], needle[last + 1..]))
        else None
      case None => None
    else None
  }

  /** Any slash-free flags and non-empty pattern come back out of their literal. */
  lemma RegExpLiteralRoundTrip(pattern: string, flags: string)
    requires |pattern| >= 1 && forall k :: 0 <= k < |flags| ==> flags[k] != '/'
    ensures SplitRegExp("/" + pattern + "/" + flags) == Some((pattern, flags))
  {
    var n := "/" + pattern + "/" + flags;
    var last := |pattern| + 1;
    assert n[last] == '/';
    assert forall k :: last < k < |n| ==> n[k] == flags[k - last - 1];
    assert n[1..last] == pattern && n[last + 1..] == flags;
  }
}
