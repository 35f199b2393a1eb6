/**
 * A pipe is the text inside a `{{...}}` construct, split into arguments.
 * An argument is a double-quoted string (backslash escapes allowed) or a
 * run of non-space characters not starting with a quote. Each argument
 * remembers its text after unescaping, its span in the template, its literal
 * value, and whether it may be read as an object path.
 */
module Pipes {
  import opened Wrappers
  import opened Text
  import opened Values
  import Paths

  /** How an argument may be read: always as a literal, as a path when that makes sense, or always as a path. */
  datatype ArgMode = Auto | Constant | Evaluated

  /** One match of the argument scanner: span relative to the pipe text, unescaped text, and mode. */
  datatype ArgToken = ArgToken(start: nat, end: nat, text: string, canEvaluate: ArgMode)

  // ---------------------------------------------------------------------
  // The argument scanner. The pattern has two alternatives, tried in order
  // at each position:
  //   1. a first unit that is a character other than space, backslash and
  //      quote, or a backslash with any character but a line feed; then as
  //      many units as possible, a unit being a character other than space
  //      and backslash, or such an escape pair;
  //   2. a quote, as many units as possible (a character other than quote
  //      and backslash, or an escape pair), and a closing quote.
  // Where neither matches, scanning resumes one character further on.

  /** Length of an escape pair at `p`, or 0. */
  function EscapeAt(s: string, p: nat): (n: nat)
    ensures n == 0 || n == 2
    ensures n == 2 ==> p + 1 < |s| && s[p] == '\\'
  {
    if p + 1 < |s| && s[p] == '\\' && s[p + 1] != '\n' then 2 else 0
  }

  /** The first unit of an unquoted argument at `p`: its length, or 0. */
  function FirstUnitAt(s: string, p: nat): (n: nat)
    requires p <= |s|
    ensures n <= 2 && p + n <= |s|
    ensures n > 0 ==> s[p] != '"' && !IsWhite(s[p])
  {
    if p < |s| && !IsWhite(s[p]) && s[p] != '\\' && s[p] != '"' then 1 else EscapeAt(s, p)
  }

  /** A later unit of an unquoted argument at `p`: its length, or 0. */
  function UnitAt(s: string, p: nat): (n: nat)
    requires p <= |s|
    ensures n <= 2 && p + n <= |s|
  {
    if p < |s| && !IsWhite(s[p]) && s[p] != '\\' then 1 else EscapeAt(s, p)
  }

  /** A unit inside quotes at `p`: its length, or 0. */
  function QuotedUnitAt(s: string, p: nat): (n: nat)
    requires p <= |s|
    ensures n <= 2 && p + n <= |s|
    ensures n == 0 && p < |s| ==> s[p] == '"' || s[p] == '\\'
  {
    if p < |s| && s[p] != '"' && s[p] != '\\' then 1 else EscapeAt(s, p)
  }

  /** Where the greedy run of unquoted units starting at `p` stops. */
  function UnquotedEnd(s: string, p: nat): (q: nat)
    requires p <= |s|
    ensures p <= q <= |s| && UnitAt(s, q) == 0
    decreases |s| - p
  {
    if UnitAt(s, p) == 0 then p else UnquotedEnd(s, p + UnitAt(s, p))
  }

  /** Where the greedy run of quoted units starting at `p` stops. */
  function QuotedEnd(s: string, p: nat): (q: nat)
    requires p <= |s|
    ensures p <= q <= |s| && QuotedUnitAt(s, q) == 0
    decreases |s| - p
  {
    if QuotedUnitAt(s, p) == 0 then p else QuotedEnd(s, p + QuotedUnitAt(s, p))
  }

  /** Replaces each backslash and the character after it (not a line feed) by that character. */
  function Unescape(s: string): (r: string)
    ensures |r| <= |s|
  {
    if |s| >= 2 && s[0] == '\\' && s[1] != '\n' then [s[1]] + Unescape(s[2..])
    else if s == [] then []
    else [s[0]] + Unescape(s[1..])
  }

  /** The scanner at position `p`: the argument that starts there, if any, and where scanning resumes. */
  function ArgAt(s: string, p: nat): (r: (Option<ArgToken>, nat))
    requires p < |s|
    ensures p < r.1 <= |s|
    ensures r.0.Some? ==> r.0.value.start == p && r.0.value.end == r.1
    ensures r.0.Some? ==> (r.0.value.canEvaluate == Constant <==> s[p] == '"')
    ensures r.0.Some? ==> (r.0.value.canEvaluate == Evaluated <==> s[p] == '$')
    ensures IsWhite(s[p]) ==> r == (None, p + 1)
  {
    var first := FirstUnitAt(s, p);
    if first > 0 then
      var q := UnquotedEnd(s, p + first);
      (Some(ArgToken(p, q, Unescape(s[p..q]), if s[p] == '$' then Evaluated else Auto)), q)
    else if s[p] == '"' && QuotedEnd(s, p + 1) < |s| && s[QuotedEnd(s, p + 1)] == '"' then
      var q := QuotedEnd(s, p + 1);
      (Some(ArgToken(p, q + 1, Unescape(s[p + 1..q]), Constant)), q + 1)
    else (None, p + 1)
  }

  /** All arguments from position `p` on, in order. */
  function ScanArgs(s: string, p: nat): seq<ArgToken>
    requires p <= |s|
    decreases |s| - p
  {
    if p >= |s| then []
    else
      var (m, next) := ArgAt(s, p);
      var rest := ScanArgs(s, next);
      if m.Some? then [m.value] + rest else rest
  }

  /**
   * Each argument lies within the text, at or after `p` and after the
   * previous one; it is a constant exactly when it opens with a quote, and
   * always evaluated exactly when it opens with `$`.
   */
  ghost predicate WellPlaced(s: string, p: nat, r: seq<ArgToken>) {
    (forall k :: 0 <= k < |r| ==> p <= r[k].start < r[k].end <= |s|)
    && (forall k :: 0 <= k < |r| - 1 ==> r[k].end <= r[k + 1].start)
    && (forall k :: 0 <= k < |r| ==> (r[k].canEvaluate == Constant <==> s[r[k].start] == '"'))
    && (forall k :: 0 <= k < |r| ==> (r[k].canEvaluate == Evaluated <==> s[r[k].start] == '$'))
  }

  lemma {:induction false} ScanArgsOrdered(s: string, p: nat)
    requires p <= |s|
    ensures WellPlaced(s, p, ScanArgs(s, p))
    decreases |s| - p
  {
    if p < |s| {
      var (m, next) := ArgAt(s, p);
      ScanArgsOrdered(s, next);
      var rest := ScanArgs(s, next);
      if m.Some? {
        var r := [m.value] + rest;
        assert ScanArgs(s, p) == r;
        assert forall k :: 1 <= k < |r| ==> r[k] == rest[k - 1];
      } else {
        assert ScanArgs(s, p) == rest;
      }
    }
  }

  // ---------------------------------------------------------------------
  // Properties of the scanner

  /** The escaping a writer applies inside quotes: a backslash before each quote and backslash. */
  function EscapeText(t: string): (r: string)
    ensures |r| >= |t|
  {
    if t == [] then []
    else if t[0] == '"' || t[0] == '\\' then ['\\', t[0]] + EscapeText(t[1..])
    else [t[0]] + EscapeText(t[1..])
  }

  function Quote(t: string): string { "\"" + EscapeText(t) + "\"" }

  lemma {:induction false} UnescapeEscaped(t: string)
    ensures Unescape(EscapeText(t)) == t
  {
    if t != [] {
      UnescapeEscaped(t[1..]);
      var e := EscapeText(t);
      if t[0] == '"' || t[0] == '\\' {
        assert e[2..] == EscapeText(t[1..]);
      } else {
        assert e[1..] == EscapeText(t[1..]);
      }
    }
  }

  /** Unescaping leaves text without backslashes as it is. */
  lemma {:induction false} UnescapePlain(w: string)
    requires forall i :: 0 <= i < |w| ==> w[i] != '\\'
    ensures Unescape(w) == w
  {
    if w != [] { UnescapePlain(w[1..]); }
  }

  /** The quoted units of an escaped text run to just before the closing quote. */
  lemma {:induction false} QuotedEndEscaped(s: string, p: nat, t: string)
    requires p + |EscapeText(t)| < |s| && s[p..p + |EscapeText(t)|] == EscapeText(t)
    requires s[p + |EscapeText(t)|] == '"'
    ensures QuotedEnd(s, p) == p + |EscapeText(t)|
    decreases |t|
  {
    var e := EscapeText(t);
    if t == [] {
      assert QuotedUnitAt(s, p) == 0;
    } else if t[0] == '"' || t[0] == '\\' {
      assert s[p] == e[0] == '\\' && s[p + 1] == e[1] == t[0];
      assert QuotedUnitAt(s, p) == 2;
      assert e[2..] == EscapeText(t[1..]);
      assert s[p + 2..p + 2 + |EscapeText(t[1..])|] == e[2..];
      QuotedEndEscaped(s, p + 2, t[1..]);
    } else {
      assert s[p] == e[0] == t[0];
      assert QuotedUnitAt(s, p) == 1;
      assert e[1..] == EscapeText(t[1..]);
      assert s[p + 1..p + 1 + |EscapeText(t[1..])|] == e[1..];
      QuotedEndEscaped(s, p + 1, t[1..]);
    }
  }

  /** Any text, escaped and quoted, scans back as exactly one constant argument holding that text. */
  lemma QuotedRoundTrip(t: string)
    ensures ScanArgs(Quote(t), 0) == [ArgToken(0, |Quote(t)|, t, Constant)]
  {
    var s := Quote(t);
    var e := EscapeText(t);
    assert s[1..1 + |e|] == e;
    QuotedEndEscaped(s, 1, t);
    assert FirstUnitAt(s, 0) == 0;
    assert s[1..1 + |e|] == e;
    UnescapeEscaped(t);
    assert ArgAt(s, 0) == (Some(ArgToken(0, |s|, t, Constant)), |s|);
  }

  /** A word: nonempty, no space and no backslash anywhere, not opening with a quote. */
  predicate PlainWord(w: string) {
    |w| >= 1 && w[0] != '"' && forall i :: 0 <= i < |w| ==> !IsWhite(w[i]) && w[i] != '\\'
  }

  lemma {:induction false} UnquotedEndWord(s: string, p: nat, q: nat)
    requires p <= q <= |s|
    requires forall i :: p <= i < q ==> !IsWhite(s[i]) && s[i] != '\\'
    requires q == |s| || IsWhite(s[q])
    ensures UnquotedEnd(s, p) == q
    decreases q - p
  {
    if p < q {
      assert UnitAt(s, p) == 1;
      UnquotedEndWord(s, p + 1, q);
    }
  }

  /** A word followed by a space or the end of the text is one argument, taken as written. */
  lemma WordArg(s: string, p: nat, w: string)
    requires PlainWord(w) && IsAt(s, w, p)
    requires p + |w| == |s| || IsWhite(s[p + |w|])
    ensures ArgAt(s, p) == (Some(ArgToken(p, p + |w|, w, if w[0] == '$' then Evaluated else Auto)), p + |w|)
  {
    assert s[p] == w[0];
    assert FirstUnitAt(s, p) == 1;
    forall i | p + 1 <= i < p + |w| ensures !IsWhite(s[i]) && s[i] != '\\' {
      assert s[i] == w[i - p];
    }
    UnquotedEndWord(s, p + 1, p + |w|);
    UnescapePlain(w);
  }

  /** Words joined by single spaces. */
  function JoinWords(ws: seq<string>): string {
    if ws == [] then "" else if |ws| == 1 then ws[0] else ws[0] + " " + JoinWords(ws[1..])
  }

  function TextsOf(r: seq<ArgToken>): (ts: seq<string>)
    ensures |ts| == |r| && forall k :: 0 <= k < |r| ==> ts[k] == r[k].text
  {
    if r == [] then [] else [r[0].text] + TextsOf(r[1..])
  }

  /** Arguments are separated by spaces: words joined by spaces scan back as those words. */
  lemma {:induction false} WordsScan(s: string, p: nat, ws: seq<string>)
    requires p <= |s| && s[p..] == JoinWords(ws)
    requires forall k :: 0 <= k < |ws| ==> PlainWord(ws[k])
    ensures TextsOf(ScanArgs(s, p)) == ws
    decreases |ws|, 1
  {
    if ws == [] {
      assert p == |s|;
      assert ScanArgs(s, p) == [];
    } else if |ws| == 1 {
      var w := ws[0];
      assert s[p..] == w;
      var tok := FirstWord(s, p, w);
      assert ScanArgs(s, p + |w|) == [];
      assert TextsOf(ScanArgs(s, p)) == [w] == ws;
    } else {
      WordsScanMore(s, p, ws);
    }
  }

  lemma {:induction false} WordsScanMore(s: string, p: nat, ws: seq<string>)
    requires p <= |s| && s[p..] == JoinWords(ws) && |ws| >= 2
    requires forall k :: 0 <= k < |ws| ==> PlainWord(ws[k])
    ensures TextsOf(ScanArgs(s, p)) == ws
    decreases |ws|, 0
  {
    var w := ws[0];
    WordsSplit(s, p, ws);
    var tok := WordThenSpace(s, p, w);
    var rest := ScanArgs(s, p + |w| + 1);
    WordsScan(s, p + |w| + 1, ws[1..]);
    TextsCons(tok, rest);
    assert ws == [w] + ws[1..];
  }

  /** Two or more joined words: the first, a space, then the rest joined. */
  lemma WordsSplit(s: string, p: nat, ws: seq<string>)
    requires p <= |s| && s[p..] == JoinWords(ws) && |ws| >= 2
    ensures p + |ws[0]| < |s| && s[p..p + |ws[0]|] == ws[0] && s[p + |ws[0]|] == ' '
    ensures s[p + |ws[0]| + 1..] == JoinWords(ws[1..])
  {
    var w := ws[0];
    assert s[p..] == w + " " + JoinWords(ws[1..]);
    assert s[p..][..|w|] == w;
    assert s[p + |w|] == s[p..][|w|] == ' ';
    assert s[p + |w| + 1..] == s[p..][|w| + 1..];
  }

  /** A word followed by a space scans as that word, then resumes after the space. */
  lemma WordThenSpace(s: string, p: nat, w: string) returns (tok: ArgToken)
    requires PlainWord(w) && p + |w| < |s| && s[p..p + |w|] == w && s[p + |w|] == ' '
    ensures tok.text == w && ScanArgs(s, p) == [tok] + ScanArgs(s, p + |w| + 1)
  {
    tok := FirstWord(s, p, w);
    SkipSpace(s, p + |w|);
  }

  lemma TextsCons(tok: ArgToken, r: seq<ArgToken>)
    ensures TextsOf([tok] + r) == [tok.text] + TextsOf(r)
  {
    assert ([tok] + r)[1..] == r;
  }

  /** The scan from a word's start yields that word, then resumes after it. */
  lemma FirstWord(s: string, p: nat, w: string) returns (tok: ArgToken)
    requires PlainWord(w) && p + |w| <= |s| && s[p..p + |w|] == w
    requires p + |w| == |s| || IsWhite(s[p + |w|])
    ensures tok.text == w && ScanArgs(s, p) == [tok] + ScanArgs(s, p + |w|)
  {
    WordArg(s, p, w);
    ScanStep(s, p);
    tok := ArgToken(p, p + |w|, w, if w[0] == '$' then Evaluated else Auto);
  }

  /** A space starts no argument. */
  lemma SkipSpace(s: string, q: nat)
    requires q < |s| && IsWhite(s[q])
    ensures ScanArgs(s, q) == ScanArgs(s, q + 1)
  {
    assert ArgAt(s, q) == (None, q + 1);
    ScanStep(s, q);
  }

  // ---------------------------------------------------------------------
  // Literal values

  /**
   * `ParseValue`: the keywords `true`, `false`, `undefined`, `null` and `0`,
   * then numeric text as a number, else the text itself as a string.
   */
  function ParseValue(str: string): Value {
    match KeywordValue(str)
    case Some(v) => v
    case None =>
      match NumericText(str)
      case Some(n) => Num(n)
      case None => Str(str)
  }

  /** The constant a keyword literal stands for. */
  function KeywordValue(str: string): Option<Value> {
    match str
    case "true" => Some(Bool(true))
    case "false" => Some(Bool(false))
    case "undefined" => Some(Undefined)
    case "null" => Some(Null)
    case "0" => Some(Num(0))
    case _ => None
  }

  /**
   * The keywords give their constants, numeric text gives its number, and
   * exactly the remaining texts stay strings, unchanged.
   */
  lemma ParseValueClassifies(str: string)
    ensures str == "true" ==> ParseValue(str) == Bool(true)
    ensures str == "false" ==> ParseValue(str) == Bool(false)
    ensures str == "undefined" ==> ParseValue(str) == Undefined
    ensures str == "null" ==> ParseValue(str) == Null
    ensures ParseValue(str).Num? ==> NumericText(str) == Some(ParseValue(str).n)
    ensures ParseValue(str).Str? <==> str !in {"true", "false", "undefined", "null"} && NumericText(str).None?
    ensures ParseValue(str).Str? ==> ParseValue(str) == Str(str)
  {
  }

  /** The mode an argument ends up with: anything that is not a string literal is a constant. */
  function ModeOf(value: Value, canEvaluate: ArgMode): (m: ArgMode)
    ensures !value.Str? ==> m == Constant
    ensures value.Str? ==> m == canEvaluate
  {
    if !value.Str? then Constant else canEvaluate
  }

  /**
   * The decimal text of any integer, bare or quoted, parses as that number
   * and is a constant; so does the empty text, as zero.
   */
  lemma QuotedNumberIsNumber(n: int)
    ensures ScanArgs(Quote(IntToString(n)), 0) == [ArgToken(0, |Quote(IntToString(n))|, IntToString(n), Constant)]
    ensures ParseValue(IntToString(n)) == Num(n) && ModeOf(ParseValue(IntToString(n)), Constant) == Constant
    ensures ParseValue("") == Num(0)
  {
    QuotedRoundTrip(IntToString(n));
    ParseNumberText(n);
    EmptyIsZero();
  }

  lemma EmptyIsZero()
    ensures ParseValue("") == Num(0)
  {
    assert KeywordValue("") == None;
    assert TrimEndBy(TrimStartBy("", IsWhite), IsWhite) == "";
  }

  lemma ParseNumberText(n: int)
    ensures ParseValue(IntToString(n)) == Num(n)
  {
    if n != 0 {
      NumberTextRoundTrip(n);
      NumberTextNoKeyword(n);
      NotKeyword(IntToString(n));
      ParseNumeric(IntToString(n), n);
    }
  }

  /** The decimal text of a non-zero integer is none of the keywords. */
  lemma NumberTextNoKeyword(n: int)
    requires n != 0
    ensures var s := IntToString(n); s != "true" && s != "false" && s != "undefined" && s != "null" && s != "0"
  {
    var s := IntToString(n);
    if n > 0 {
      NatToStringValue(n);
      assert IsDigit(s[0]);
      assert DigitsValue("0") == 0;
    } else {
      assert s[0] == '-';
    }
  }

  /** Only the five keyword texts have a keyword value. */
  lemma NotKeyword(s: string)
    requires s != "true" && s != "false" && s != "undefined" && s != "null" && s != "0"
    ensures KeywordValue(s).None?
  {
  }

  lemma ParseNumeric(s: string, n: int)
    requires KeywordValue(s).None? && NumericText(s) == Some(n)
    ensures ParseValue(s) == Num(n)
  {
  }

  /** A text that is no keyword and holds a character that is no digit, sign or space stays the string it is. */
  lemma WordStaysString(str: string, i: nat)
    requires str !in {"true", "false", "undefined", "null"}
    requires i < |str| && !IsDigit(str[i]) && !IsWhite(str[i]) && str[i] != '-' && str[i] != '+'
    ensures ParseValue(str) == Str(str)
  {
    NonNumericText(str, i);
  }

  // ---------------------------------------------------------------------
  // Bracketed lambdas

  /** `+1` for an opening bracket, `-1` for a closing one, else 0. */
  function Delta(t: string): int {
    if t == "[" then 1 else if t == "]" then -1 else 0
  }

  /** Net bracket depth of a run of argument texts. */
  function Depth(ts: seq<string>): int {
    if ts == [] then 0 else Delta(ts[0]) + Depth(ts[1..])
  }

  /**
   * The walk of `Length` from position `i` with `count` brackets open: the
   * position of the closing bracket that brings the count to zero, or 0.
   */
  function CloseAt(ts: seq<string>, i: nat, count: nat): (r: nat)
    requires i >= 1 && count >= 1
    ensures r > 0 ==> i <= r < |ts| && ts[r] == "]" && count + Depth(ts[i..r]) == 1
    ensures r > 0 ==> forall k :: i <= k < r && ts[k] == "]" ==> count + Depth(ts[i..k]) != 1
    ensures r == 0 ==> forall k :: i <= k < |ts| && ts[k] == "]" ==> count + Depth(ts[i..k]) != 1
    decreases |ts| - i
  {
    if i >= |ts| then 0
    else
      DepthStep(ts, i);
      if ts[i] == "[" then CloseAt(ts, i + 1, count + 1)
      else if ts[i] == "]" then (if count == 1 then i else CloseAt(ts, i + 1, count - 1))
      else CloseAt(ts, i + 1, count)
  }

  lemma DepthStep(ts: seq<string>, i: nat)
    requires i < |ts|
    ensures Depth(ts[i..i]) == 0
    ensures forall k :: i < k <= |ts| ==> Depth(ts[i..k]) == Delta(ts[i]) + Depth(ts[i + 1..k])
  {
    forall k | i < k <= |ts| ensures Depth(ts[i..k]) == Delta(ts[i]) + Depth(ts[i + 1..k]) {
      assert ts[i..k][1..] == ts[i + 1..k];
    }
  }

  /**
   * `Length` of the first argument of `ts`: for an Auto `[`, the distance to
   * the `]` that closes it (nested brackets counted), else 0.
   */
  function LambdaLength(ts: seq<string>, mode: ArgMode): nat
    requires |ts| >= 1
  {
    if ts[0] == "[" && mode == Auto then CloseAt(ts, 1, 1) else 0
  }

  // ---------------------------------------------------------------------
  // Arguments and pipes as objects

  class PipeArgument {
    const text: string
    const start: int
    const end: int
    const value: Value
    const mode: ArgMode
    /** The argument after this one in its pipe; set when the next one is added. */
    var next: PipeArgument?
    var lengthCache: Option<nat>
    var pathCache: Option<Paths.ObjectPath>

    /** A cached path is always the one the text parses to. */
    ghost predicate Valid()
      reads this
    {
      pathCache.Some? ==> pathCache.value == Paths.Parse(text)
    }

    /** The literal value is parsed from the text; a value that is not a string makes the argument constant. */
    constructor (str: string, startIndex: int, endIndex: int, canEvaluate: ArgMode)
      ensures text == str && start == startIndex && end == endIndex
      ensures value == ParseValue(str) && mode == ModeOf(value, canEvaluate)
      ensures next == null && lengthCache.None? && pathCache.None?
      ensures Valid()
    {
      text := str;
      start := startIndex;
      end := endIndex;
      value := ParseValue(str);
      mode := ModeOf(ParseValue(str), canEvaluate);
      next := null;
      lengthCache := None;
      pathCache := None;
    }

    /**
     * `Length`: computed on first use by walking the `next` links, then
     * returned from the cache.
     */
    method Length(ghost chain: seq<PipeArgument>) returns (n: nat)
      requires IsChain(this, chain)
      modifies this
      ensures lengthCache == Some(n) && pathCache == old(pathCache) && next == old(next)
      ensures old(lengthCache).Some? ==> n == old(lengthCache).value
      ensures old(lengthCache).None? ==> n == LambdaLength(ChainTexts(chain), mode)
    {
      if lengthCache.Some? {
        return lengthCache.value;
      }
      ghost var ts := ChainTexts(chain);
      n := 0;
      if text == "[" && mode == Auto {
        var t := next;
        var i := 1;
        var count := 1;
        while t != null
          invariant 1 <= i <= |chain| && count >= 1
          invariant t == (if i < |chain| then chain[i] else null)
          invariant CloseAt(ts, 1, 1) == CloseAt(ts, i, count)
          decreases |chain| - i
        {
          if t.text == "[" {
            count := count + 1;
          } else if t.text == "]" {
            count := count - 1;
            if count == 0 {
              n := i;
              break;
            }
          }
          t := t.next;
          i := i + 1;
        }
      }
      lengthCache := Some(n);
    }

    /** The lazily parsed object path of the text. */
    method ObjectPath() returns (path: Paths.ObjectPath)
      requires Valid()
      modifies this
      ensures Valid() && pathCache == Some(path) && lengthCache == old(lengthCache) && next == old(next)
      ensures path == Paths.Parse(text)
    {
      if pathCache.None? {
        var parsed := Paths.FromString(text);
        pathCache := Some(parsed);
      }
      path := pathCache.value;
    }
  }

  /** `chain` lists `a` and the arguments reached from it by `next`, the last one having none. */
  ghost predicate IsChain(a: PipeArgument, chain: seq<PipeArgument>)
    reads chain
  {
    |chain| >= 1 && chain[0] == a
    && (forall k :: 0 <= k < |chain| - 1 ==> chain[k].next == chain[k + 1])
    && chain[|chain| - 1].next == null
  }

  function ChainTexts(chain: seq<PipeArgument>): (ts: seq<string>)
    ensures |ts| == |chain| && forall k :: 0 <= k < |chain| ==> ts[k] == chain[k].text
  {
    seq(|chain|, k requires 0 <= k < |chain| => chain[k].text)
  }

  /** Distinct arguments, each linked to its successor, with valid caches. */
  ghost predicate Linked(args: seq<PipeArgument>)
    reads args
  {
    (forall i, j :: 0 <= i < j < |args| ==> args[i] != args[j])
    && (forall k :: 0 <= k < |args| ==> args[k].Valid())
    && (|args| > 0 ==> IsChain(args[0], args))
  }

  /** Neither cache of any argument is filled yet. */
  ghost predicate Unused(args: seq<PipeArgument>)
    reads args
  {
    forall k :: 0 <= k < |args| ==> args[k].lengthCache.None? && args[k].pathCache.None?
  }

  /** `InsertItem` at the end: the previous last argument now links to `item`. */
  method InsertItem(args: seq<PipeArgument>, item: PipeArgument) returns (r: seq<PipeArgument>)
    requires Linked(args) && item !in args && item.next == null && item.Valid()
    modifies if |args| > 0 then {args[|args| - 1]} else {}
    ensures Linked(r) && r == args + [item]
    ensures forall a :: a in args ==> a.lengthCache == old(a.lengthCache) && a.pathCache == old(a.pathCache)
  {
    if |args| > 0 {
      args[|args| - 1].next := item;
    }
    r := args + [item];
    assert IsChain(r[0], r);
  }

  /** The constructor's loop over the scanner's matches: one new argument per match, in order. */
  method ScanPipe(str: string, index: int) returns (args: seq<PipeArgument>)
    ensures fresh(args) && Linked(args) && Unused(args)
    ensures |args| == |ScanArgs(str, 0)|
    ensures forall k :: 0 <= k < |args| ==> Agrees(args[k], ScanArgs(str, 0)[k], index)
  {
    var matches := ScanArgs(str, 0);
    args := [];
    for k := 0 to |matches|
      invariant fresh(args) && Linked(args) && Unused(args) && |args| == k
      invariant forall j :: 0 <= j < k ==> Agrees(args[j], matches[j], index)
    {
      var longer := AppendMatch(args, matches[k], index);
      assert longer == args + [longer[k]];
      args := longer;
    }
  }

  /** One iteration: a new argument for the match, linked after the others. */
  method AppendMatch(args: seq<PipeArgument>, t: ArgToken, index: int) returns (r: seq<PipeArgument>)
    requires Linked(args) && Unused(args)
    modifies if |args| > 0 then {args[|args| - 1]} else {}
    ensures Linked(r) && Unused(r) && |r| == |args| + 1 && forall j :: 0 <= j < |args| ==> r[j] == args[j]
    ensures fresh(r[|args|]) && Agrees(r[|args|], t, index)
  {
    var item := new PipeArgument(t.text, index + t.start, index + t.end, t.canEvaluate);
    r := InsertItem(args, item);
  }

  class Pipe {
    const text: string
    const start: int
    const end: int
    var args: seq<PipeArgument>

    ghost predicate Valid()
      reads this, args
    {
      Linked(args)
    }

    /**
     * `new Pipe(str, index)`: one argument per scanner match, in order, with
     * spans shifted by `index`; the pipe spans `index .. index + |str|`.
     */
    constructor (str: string, index: int)
      ensures text == str && start == index && end == index + |str|
      ensures Valid() && fresh(args) && Unused(args)
      ensures |args| == |ScanArgs(str, 0)|
      ensures forall k :: 0 <= k < |args| ==> Agrees(args[k], ScanArgs(str, 0)[k], index)
    {
      text := str;
      start := index;
      end := index + |str|;
      var scanned := ScanPipe(str, index);
      args := scanned;
    }

    /** The arguments' texts, in order. */
    function Texts(): (ts: seq<string>)
      reads this, args
      ensures |ts| == |args| && forall k :: 0 <= k < |args| ==> ts[k] == args[k].text
    {
      ChainTexts(args)
    }

    /** `Length` of the argument at `k`: the distance to its matching `]` for an Auto `[`, else 0. */
    method LengthAt(k: nat) returns (n: nat)
      requires Valid() && k < |args|
      requires args[k].lengthCache.Some? ==> args[k].lengthCache.value == LambdaLength(Texts()[k..], args[k].mode)
      modifies args[k]
      ensures Valid() && n == LambdaLength(Texts()[k..], args[k].mode)
      ensures args[k].lengthCache == Some(n)
    {
      ChainSuffix(args, k);
      n := args[k].Length(args[k..]);
      assert ChainTexts(args[k..]) == Texts()[k..];
    }
  }

  /** A stored argument carries the scanned text, mode and span (shifted by the pipe's offset). */
  ghost predicate Agrees(a: PipeArgument, t: ArgToken, index: int) {
    a.text == t.text && a.start == index + t.start && a.end == index + t.end
    && a.value == ParseValue(t.text) && a.mode == ModeOf(a.value, t.canEvaluate)
  }

  lemma ScanStep(s: string, p: nat)
    requires p < |s|
    ensures ScanArgs(s, p) == (if ArgAt(s, p).0.Some? then [ArgAt(s, p).0.value] else []) + ScanArgs(s, ArgAt(s, p).1)
  {
  }

  lemma ChainSuffix(chain: seq<PipeArgument>, k: nat)
    requires |chain| > 0 && IsChain(chain[0], chain) && k < |chain|
    ensures IsChain(chain[k], chain[k..])
  {
  }
}
