/**
 * The printf formatter behind `%...` pipe functions: a directive scanner
 * (`%`, flags, width, precision, size, specifier), the flag resolution, the
 * rendering of one directive, and the loop that replaces each directive in
 * the buffer and resumes scanning after the inserted text.
 */
module StdIO {
  import opened Wrappers
  import opened Text

  // ---------------------------------------------------------------------
  // The directive pattern: % [flags] [width] [. precision] [h|l] specifier

  predicate IsFlag(c: char) { c == '\'' || c == '#' || c == '-' || c == '+' || c == ' ' }
  predicate IsSize(c: char) { c == 'h' || c == 'l' }
  predicate IsSpecifier(c: char) { c in "dioxXucsfeEgGpn%" }

  datatype Directive = Directive(
    flags: string,
    width: string,
    precision: Option<string>,
    size: Option<char>,
    specifier: char)

  predicate WellFormed(d: Directive) {
    && (forall k :: 0 <= k < |d.flags| ==> IsFlag(d.flags[k]))
    && AllDigits(d.width)
    && (d.precision.Some? ==> |d.precision.value| >= 1 && AllDigits(d.precision.value))
    && (d.size.Some? ==> IsSize(d.size.value))
    && IsSpecifier(d.specifier)
  }

  /** The text of a directive as it stands in a format string. */
  function Spelling(d: Directive): string {
    "%" + d.flags + d.width
    + (if d.precision.Some? then "." + d.precision.value else "")
    + (if d.size.Some? then [d.size.value] else "")
    + [d.specifier]
  }

  /** The end of the run of characters satisfying `p` that starts at `k`. */
  function Span(t: string, k: nat, p: char -> bool): (r: nat)
    requires k <= |t|
    ensures k <= r <= |t|
    decreases |t| - k
  {
    if k < |t| && p(t[k]) then Span(t, k + 1, p) else k
  }

  lemma {:induction false} SpanStops(t: string, k: nat, p: char -> bool)
    requires k <= |t|
    ensures forall j :: k <= j < Span(t, k, p) ==> p(t[j])
    ensures Span(t, k, p) < |t| ==> !p(t[Span(t, k, p)])
    decreases |t| - k
  {
    if k < |t| && p(t[k]) {
      SpanStops(t, k + 1, p);
    }
  }

  lemma {:induction false} SpanExact(t: string, k: nat, m: nat, p: char -> bool)
    requires k <= m <= |t|
    requires forall j :: k <= j < m ==> p(t[j])
    requires m < |t| ==> !p(t[m])
    ensures Span(t, k, p) == m
    decreases m - k
  {
    if k < m {
      SpanExact(t, k + 1, m, p);
    }
  }

  /** Where the optional `.digits` precision that may start at `b` ends. */
  function PrecisionEnd(t: string, b: nat): (c: nat)
    requires b <= |t|
    ensures b <= c <= |t|
  {
    if b + 1 < |t| && t[b] == '.' && IsDigit(t[b + 1]) then Span(t, b + 1, IsDigit) else b
  }

  /** Where the optional `h`/`l` size that may stand at `c` ends. */
  function SizeEnd(t: string, c: nat): (e: nat)
    requires c <= |t|
    ensures c <= e <= |t| && (e > c <==> c < |t| && IsSize(t[c]))
  {
    if c < |t| && IsSize(t[c]) then c + 1 else c
  }

  /** The boundaries of the flags, width, precision and size that follow a `%` at 0. */
  datatype Cuts = Cuts(flagsEnd: nat, widthEnd: nat, precisionEnd: nat, sizeEnd: nat)

  function CutsOf(t: string): (k: Cuts)
    requires |t| >= 1
    ensures 1 <= k.flagsEnd <= k.widthEnd <= k.precisionEnd <= k.sizeEnd <= |t|
  {
    var a := Span(t, 1, IsFlag);
    var b := Span(t, a, IsDigit);
    var c := PrecisionEnd(t, b);
    Cuts(a, b, c, SizeEnd(t, c))
  }

  function Pieces(t: string, k: Cuts): Directive
    requires 1 <= k.flagsEnd <= k.widthEnd <= k.precisionEnd <= k.sizeEnd < |t|
  {
    Directive(t[1..k.flagsEnd], t[k.flagsEnd..k.widthEnd],
              if k.precisionEnd > k.widthEnd then Some(t[k.widthEnd + 1..k.precisionEnd]) else None,
              if k.sizeEnd > k.precisionEnd then Some(t[k.precisionEnd]) else None,
              t[k.sizeEnd])
  }

  /** The directive at the start of `t`, as the greedy pattern reads it; `None` where the pattern does not match. */
  function Scan(t: string): (r: Option<Directive>)
    ensures r.Some? ==> |t| >= 2 && t[0] == '%'
  {
    if |t| == 0 || t[0] != '%' then None
    else
      var k := CutsOf(t);
      if k.sizeEnd < |t| && IsSpecifier(t[k.sizeEnd]) then Some(Pieces(t, k)) else None
  }

  lemma PrecisionFacts(t: string, b: nat)
    requires b <= |t|
    ensures var c := PrecisionEnd(t, b);
      c > b ==> c >= b + 2 && t[b] == '.' && AllDigits(t[b + 1..c]) && (c < |t| ==> !IsDigit(t[c]))
  {
    if b + 1 < |t| && t[b] == '.' && IsDigit(t[b + 1]) {
      SpanStops(t, b + 1, IsDigit);
    }
  }

  /** The scanned pieces satisfy the character classes of the pattern. */
  lemma PiecesWellFormed(t: string)
    requires |t| >= 1
    requires CutsOf(t).sizeEnd < |t| && IsSpecifier(t[CutsOf(t).sizeEnd])
    ensures WellFormed(Pieces(t, CutsOf(t)))
  {
    var k := CutsOf(t);
    SpanStops(t, 1, IsFlag);
    SpanStops(t, k.flagsEnd, IsDigit);
    PrecisionFacts(t, k.widthEnd);
    var d := Pieces(t, k);
    assert forall j :: 0 <= j < |d.flags| ==> d.flags[j] == t[j + 1];
    assert forall j :: 0 <= j < |d.width| ==> d.width[j] == t[j + k.flagsEnd];
  }

  lemma SliceJoin(t: string, x: nat, y: nat, z: nat)
    requires x <= y <= z <= |t|
    ensures t[x..z] == t[x..y] + t[y..z]
  {
  }

  /** The scanned pieces, put back together, are the characters read. */
  lemma PiecesSpelled(t: string, k: Cuts)
    requires 1 <= k.flagsEnd <= k.widthEnd <= k.precisionEnd <= k.sizeEnd < |t|
    requires t[0] == '%'
    requires k.precisionEnd > k.widthEnd ==> t[k.widthEnd] == '.'
    requires k.sizeEnd > k.precisionEnd ==> k.sizeEnd == k.precisionEnd + 1
    ensures |Spelling(Pieces(t, k))| == k.sizeEnd + 1
    ensures t[..k.sizeEnd + 1] == Spelling(Pieces(t, k))
  {
    var d := Pieces(t, k);
    var e := k.sizeEnd;
    var pr := if d.precision.Some? then "." + d.precision.value else "";
    var sz := if d.size.Some? then [d.size.value] else "";
    assert pr == t[k.widthEnd..k.precisionEnd];
    assert sz == t[k.precisionEnd..e];
    assert "%" == t[0..1] && [t[e]] == t[e..e + 1];
    SliceJoin(t, 0, 1, k.flagsEnd);
    SliceJoin(t, 0, k.flagsEnd, k.widthEnd);
    SliceJoin(t, 0, k.widthEnd, k.precisionEnd);
    SliceJoin(t, 0, k.precisionEnd, e);
    SliceJoin(t, 0, e, e + 1);
    assert t[..e + 1] == t[0..e + 1];
  }

  /** What the scanner finds is a well-formed directive, spelled by the characters it read. */
  lemma ScanSound(t: string)
    requires Scan(t).Some?
    ensures WellFormed(Scan(t).value)
    ensures |Spelling(Scan(t).value)| == CutsOf(t).sizeEnd + 1 <= |t|
    ensures t[..|Spelling(Scan(t).value)|] == Spelling(Scan(t).value)
  {
    var k := CutsOf(t);
    PiecesWellFormed(t);
    PrecisionFacts(t, k.widthEnd);
    PiecesSpelled(t, k);
  }

  /** The positions where the pieces of a spelled directive end. */
  function SpelledCuts(d: Directive): Cuts {
    var a := 1 + |d.flags|;
    var b := a + |d.width|;
    var c := if d.precision.Some? then b + 1 + |d.precision.value| else b;
    Cuts(a, b, c, if d.size.Some? then c + 1 else c)
  }

  lemma SpelledCharacters(d: Directive, rest: string)
    ensures var t := Spelling(d) + rest; var k := SpelledCuts(d);
      && k.sizeEnd < |t| && t[0] == '%' && t[k.sizeEnd] == d.specifier
      && (forall j :: 1 <= j < k.flagsEnd ==> t[j] == d.flags[j - 1])
      && (forall j :: k.flagsEnd <= j < k.widthEnd ==> t[j] == d.width[j - k.flagsEnd])
      && (d.precision.Some? ==> t[k.widthEnd] == '.')
      && (d.precision.Some? ==>
            forall j :: k.widthEnd + 1 <= j < k.precisionEnd ==> t[j] == d.precision.value[j - k.widthEnd - 1])
      && (d.size.Some? ==> t[k.precisionEnd] == d.size.value)
  {
    var pr := if d.precision.Some? then "." + d.precision.value else "";
    var sz := if d.size.Some? then [d.size.value] else "";
    var t := Spelling(d) + rest;
    assert t == "%" + d.flags + d.width + pr + sz + [d.specifier] + rest;
  }

  lemma SpelledFlags(d: Directive, rest: string)
    requires WellFormed(d)
    ensures Span(Spelling(d) + rest, 1, IsFlag) == SpelledCuts(d).flagsEnd
  {
    SpelledCharacters(d, rest);
    SpanExact(Spelling(d) + rest, 1, SpelledCuts(d).flagsEnd, IsFlag);
  }

  lemma SpelledWidth(d: Directive, rest: string)
    requires WellFormed(d)
    ensures Span(Spelling(d) + rest, SpelledCuts(d).flagsEnd, IsDigit) == SpelledCuts(d).widthEnd
  {
    SpelledCharacters(d, rest);
    SpanExact(Spelling(d) + rest, SpelledCuts(d).flagsEnd, SpelledCuts(d).widthEnd, IsDigit);
  }

  lemma SpelledPrecision(d: Directive, rest: string)
    requires WellFormed(d)
    ensures PrecisionEnd(Spelling(d) + rest, SpelledCuts(d).widthEnd) == SpelledCuts(d).precisionEnd
  {
    var t := Spelling(d) + rest;
    var k := SpelledCuts(d);
    SpelledCharacters(d, rest);
    if d.precision.Some? {
      assert IsDigit(t[k.widthEnd + 1]);
      SpanExact(t, k.widthEnd + 1, k.precisionEnd, IsDigit);
    }
  }

  lemma SpelledCutsFound(d: Directive, rest: string)
    requires WellFormed(d)
    ensures CutsOf(Spelling(d) + rest) == SpelledCuts(d)
  {
    SpelledFlags(d, rest);
    SpelledWidth(d, rest);
    SpelledPrecision(d, rest);
    SpelledCharacters(d, rest);
  }

  /** Every well-formed directive is read back whole, whatever follows it. */
  lemma ScanSpelling(d: Directive, rest: string)
    requires WellFormed(d)
    ensures Scan(Spelling(d) + rest) == Some(d)
  {
    var t := Spelling(d) + rest;
    var k := SpelledCuts(d);
    SpelledCutsFound(d, rest);
    SpelledCharacters(d, rest);
    assert t[1..k.flagsEnd] == d.flags;
    assert t[k.flagsEnd..k.widthEnd] == d.width;
    assert d.precision.Some? ==> t[k.widthEnd + 1..k.precisionEnd] == d.precision.value;
    assert Pieces(t, k) == d;
  }

  /** The leftmost position at or after `k` where `starts` holds of the rest of `s`. */
  function FindBy(s: string, k: nat, starts: string -> bool): (r: Option<nat>)
    requires k <= |s|
    ensures r.Some? ==> k <= r.value < |s| && starts(s[r.value..])
    decreases |s| - k
  {
    if k == |s| then None
    else if starts(s[k..]) then Some(k)
    else FindBy(s, k + 1, starts)
  }

  /** Nothing between the search position and the position found starts a match. */
  lemma {:induction false} FindByLeftmost(s: string, k: nat, j: nat, starts: string -> bool)
    requires k <= j < |s|
    requires FindBy(s, k, starts).Some? ==> j < FindBy(s, k, starts).value
    ensures !starts(s[j..])
    decreases j - k
  {
    if k < j {
      FindByLeftmost(s, k + 1, j, starts);
    }
  }

  /** Searching from `pos + k` in a buffer is searching from `k` in its suffix at `pos`. */
  lemma {:induction false} FindBySuffix(s: string, pos: nat, k: nat, starts: string -> bool)
    requires pos + k <= |s|
    ensures FindBy(s, pos + k, starts).Some? <==> FindBy(s[pos..], k, starts).Some?
    ensures FindBy(s, pos + k, starts).Some? ==> FindBy(s, pos + k, starts).value == pos + FindBy(s[pos..], k, starts).value
    decreases |s| - pos - k
  {
    if pos + k < |s| {
      assert s[pos..][k..] == s[pos + k..];
      if !starts(s[pos + k..]) {
        FindBySuffix(s, pos, k + 1, starts);
      }
    }
  }

  predicate StartsDirective(t: string) { Scan(t).Some? }

  /** The leftmost directive at or after position `k`: where the pattern matches next. */
  function Find(s: string, k: nat): (r: Option<nat>)
    requires k <= |s|
    ensures r.Some? ==> k <= r.value < |s| && Scan(s[r.value..]).Some?
  {
    FindBy(s, k, StartsDirective)
  }

  // ---------------------------------------------------------------------
  // Parameters

  /** The .NET integer types a parameter can have. */
  datatype IntKind = Int16 | Int32 | Int64 | UInt16 | UInt32 | UInt64

  function Modulus(k: IntKind): nat {
    match k
    case Int16 | UInt16 => 0x1_0000
    case Int32 | UInt32 => 0x1_0000_0000
    case Int64 | UInt64 => 0x1_0000_0000_0000_0000
  }

  predicate IsUnsigned(k: IntKind) { k.UInt16? || k.UInt32? || k.UInt64? }

  /** The values of a type: `[0, 2^bits)` unsigned, `[-2^(bits-1), 2^(bits-1))` signed. */
  predicate InRange(n: int, k: IntKind) {
    if IsUnsigned(k) then 0 <= n < Modulus(k) else -(Modulus(k) / 2) <= n < Modulus(k) / 2
  }

  /** An unchecked conversion to a type: the low bits, read as that type. */
  function Wrap(n: int, k: IntKind): (r: int)
    ensures InRange(r, k)
  {
    var m := n % Modulus(k);
    if IsUnsigned(k) || m < Modulus(k) / 2 then m else m - Modulus(k)
  }

  /** The conversion keeps the low bits: the result leaves the same remainder modulo `2^bits` as the input. */
  lemma WrapSameBits(n: int, k: IntKind)
    ensures Wrap(n, k) % Modulus(k) == n % Modulus(k)
  {
    var m := n % Modulus(k);
    if !(IsUnsigned(k) || m < Modulus(k) / 2) {
      LessOneTurn(m, Modulus(k));
    }
  }

  /** Taking one modulus off a remainder does not change the remainder. */
  lemma LessOneTurn(m: int, turn: int)
    requires 0 <= m < turn
    ensures (m - turn) % turn == m
  {
  }

  /** A value the type can hold is kept as it is. */
  lemma WrapKeeps(n: int, k: IntKind)
    requires InRange(n, k)
    ensures Wrap(n, k) == n
  {
  }

  /** A parameter object: null, a boxed integer of some type, a char, a string, a bool, or another object with its `ToString()`. */
  datatype Param =
    | NullParam
    | IntParam(n: int, kind: IntKind)
    | CharParam(c: char)
    | StrParam(s: string)
    | BoolParam(b: bool)
    | ObjParam(text: string)

  /** The number a boxed integer holds. */
  function IntValue(o: Param): (v: int)
    requires o.IntParam?
    ensures InRange(v, o.kind)
  {
    Wrap(o.n, o.kind)
  }

  /** The size prefix: `h` narrows 32- and 64-bit integers to 16 bits, `l` widens 16- and 32-bit ones to 64. */
  function Sized(o: Param, size: Option<char>): Param {
    match o
    case IntParam(n, k) =>
      if size == Some('h') then
        match k
        case Int32 | Int64 => IntParam(Wrap(n, Int16), Int16)
        case UInt32 | UInt64 => IntParam(Wrap(n, UInt16), UInt16)
        case _ => o
      else if size == Some('l') then
        match k
        case Int16 | Int32 => IntParam(Wrap(n, k), Int64)
        case UInt16 | UInt32 => IntParam(Wrap(n, k), UInt64)
        case _ => o
      else o
    case _ => o
  }

  /** Only integers change; `h` keeps the low 16 bits, `l` keeps the value in a 64-bit type. */
  lemma SizeRules(o: Param, size: Option<char>)
    ensures var r := Sized(o, size);
      && (!o.IntParam? ==> r == o)
      && (o.IntParam? && size == Some('h') && o.kind in {Int32, Int64} ==> r == IntParam(Wrap(o.n, Int16), Int16))
      && (o.IntParam? && size == Some('h') && o.kind in {UInt32, UInt64} ==> r == IntParam(Wrap(o.n, UInt16), UInt16))
      && (o.IntParam? && size == Some('l') && o.kind in {Int16, Int32, UInt16, UInt32} ==>
            r.IntParam? && r.kind in {Int64, UInt64} && IntValue(r) == IntValue(o))
      && (o.IntParam? && size.None? ==> r == o)
  {
    if o.IntParam? && size == Some('l') && o.kind in {Int16, Int32, UInt16, UInt32} {
      WrapKeeps(Wrap(o.n, o.kind), Sized(o, size).kind);
    }
  }

  /** `ToString()` of a non-null parameter. */
  function ToText(o: Param): string
    requires !o.NullParam?
  {
    match o
    case IntParam(_, _) => IntToString(IntValue(o))
    case CharParam(c) => [c]
    case StrParam(s) => s
    case BoolParam(b) => if b then "True" else "False"
    case ObjParam(text) => text
  }

  // ---------------------------------------------------------------------
  // Flags, width and precision

  /** The resolved layout of one directive. */
  datatype Layout = Layout(
    alternate: bool,
    left: bool,
    plusSign: bool,
    plusSpace: bool,
    group: bool,
    width: Option<nat>,
    precision: Option<nat>,
    padding: char)

  /**
   * Resolving the flags: `+` cancels the space flag, a width starting with
   * `0` pads with zeros unless `-` asks for left alignment, and the
   * precision is 6 when absent except for `s` and `c`. Width and precision
   * are read as 32-bit integers; one too large for that throws.
   */
  function LayoutOf(d: Directive): Option<Layout>
    requires WellFormed(d)
  {
    var width := DigitsValue(d.width);
    var precision := if d.precision.Some? then DigitsValue(d.precision.value) else 0;
    if width > Int32Max || precision > Int32Max then None
    else
      var left := '-' in d.flags;
      var plus := '+' in d.flags;
      var zero := d.width != "" && d.width[0] == '0';
      Some(Layout(
        '#' in d.flags, left, plus, ' ' in d.flags && !plus, '\'' in d.flags,
        if d.width != "" then Some(width) else None,
        if d.precision.Some? then Some(precision)
        else if d.specifier != 's' && d.specifier != 'c' then Some(6)
        else None,
        if zero && !left then '0' else ' '))
  }

  /** The flag rules, one by one. */
  lemma FlagRules(d: Directive)
    requires WellFormed(d)
    ensures var r := LayoutOf(d);
      r.None? <==> DigitsValue(d.width) > Int32Max || (d.precision.Some? && DigitsValue(d.precision.value) > Int32Max)
    ensures var r := LayoutOf(d);
      r.Some? ==>
      && (r.value.left <==> '-' in d.flags)
      && (r.value.plusSign <==> '+' in d.flags)
      && (r.value.plusSpace <==> ' ' in d.flags && '+' !in d.flags)
      && (r.value.width.Some? <==> d.width != "")
      && (r.value.width.Some? ==> r.value.width.value == DigitsValue(d.width))
      && (r.value.padding == '0' <==> d.width != "" && d.width[0] == '0' && '-' !in d.flags)
      && (r.value.padding != '0' ==> r.value.padding == ' ')
      && (d.precision.Some? ==> r.value.precision == Some(DigitsValue(d.precision.value)))
      && (d.precision.None? && (d.specifier == 's' || d.specifier == 'c') ==> r.value.precision.None?)
      && (d.precision.None? && d.specifier != 's' && d.specifier != 'c' ==> r.value.precision == Some(6))
  {
  }

  // ---------------------------------------------------------------------
  // Padding and alignment

  /** `c` repeated `n` times. */
  function Fill(c: char, n: nat): (r: string)
    ensures |r| == n
  {
    if n == 0 then "" else Fill(c, n - 1) + [c]
  }

  lemma {:induction false} FillChars(c: char, n: nat)
    ensures forall j :: 0 <= j < n ==> Fill(c, n)[j] == c
  {
    if n > 0 {
      FillChars(c, n - 1);
    }
  }

  function Max(a: int, b: int): int { if a >= b then a else b }

  /** Padding on the left up to `total` characters; never shortens. */
  function PadLeftTo(w: string, total: nat, c: char): (r: string)
    ensures |r| == Max(total, |w|)
  {
    if total <= |w| then w else Fill(c, total - |w|) + w
  }

  /** Left padding keeps the text at the end and puts only pad characters before it. */
  lemma PadLeftKeeps(w: string, total: nat, c: char)
    ensures var r := PadLeftTo(w, total, c);
      r[|r| - |w|..] == w && forall j :: 0 <= j < |r| - |w| ==> r[j] == c
  {
    if total > |w| {
      FillChars(c, total - |w|);
      var r := PadLeftTo(w, total, c);
      assert r[|r| - |w|..] == w;
    }
  }

  /** Padding on the right up to `total` characters; never shortens. */
  function PadRightTo(w: string, total: nat, c: char): (r: string)
    ensures |r| == Max(total, |w|)
  {
    if total <= |w| then w else w + Fill(c, total - |w|)
  }

  /** Right padding keeps the text at the start and puts only pad characters after it. */
  lemma PadRightKeeps(w: string, total: nat, c: char)
    ensures var r := PadRightTo(w, total, c);
      r[..|w|] == w && forall j :: |w| <= j < |r| ==> r[j] == c
  {
    if total > |w| {
      FillChars(c, total - |w|);
      var r := PadRightTo(w, total, c);
      assert r[..|w|] == w;
    }
  }

  /** `String.PadLeft`, which throws for a negative width. */
  function PadLeft(w: string, total: int, c: char): (r: Option<string>)
    ensures r.None? <==> total < 0
    ensures r.Some? ==> r.value == PadLeftTo(w, total, c)
  {
    if total < 0 then None else Some(PadLeftTo(w, total, c))
  }

  /** The alignment component of a composite format item: `{0,n}` right-aligns, `{0,-n}` left-aligns, with spaces. */
  function Align(w: string, width: Option<nat>, left: bool): string {
    match width
    case None => w
    case Some(n) => if left then PadRightTo(w, n, ' ') else PadLeftTo(w, n, ' ')
  }

  // ---------------------------------------------------------------------
  // Octal and hexadecimal digits

  function DigitOf(d: nat, upper: bool): char
    requires d < 16
  {
    if d < 10 then ('0' as int + d) as char
    else if upper then ('A' as int + d - 10) as char
    else ('a' as int + d - 10) as char
  }

  function ValueOfDigit(c: char): nat {
    if '0' <= c <= '9' then c as int - '0' as int
    else if 'a' <= c <= 'f' then c as int - 'a' as int + 10
    else if 'A' <= c <= 'F' then c as int - 'A' as int + 10
    else 0
  }

  /** The digits of `n` in base 8 or 16, most significant first, with no leading zero. */
  function BaseDigits(n: nat, radix: nat, upper: bool): (r: string)
    requires radix == 8 || radix == 16
    ensures |r| >= 1
    ensures r == "0" <==> n == 0
    decreases n
  {
    if n < radix then [DigitOf(n, upper)] else BaseDigits(n / radix, radix, upper) + [DigitOf(n % radix, upper)]
  }

  /** The number a run of base-8 or base-16 digits stands for. */
  function BaseValue(s: string, radix: nat): nat {
    if s == [] then 0 else BaseValue(s[..|s| - 1], radix) * radix + ValueOfDigit(s[|s| - 1])
  }

  /** Reading the digits back gives the number. */
  lemma {:induction false} BaseDigitsRoundTrip(n: nat, radix: nat, upper: bool)
    requires radix == 8 || radix == 16
    ensures BaseValue(BaseDigits(n, radix, upper), radix) == n
    decreases n
  {
    var r := BaseDigits(n, radix, upper);
    if n >= radix {
      var q := n / radix;
      BaseDigitsRoundTrip(q, radix, upper);
      assert r[..|r| - 1] == BaseDigits(q, radix, upper);
      DigitRoundTrip(n % radix, upper);
      assert BaseValue(r, radix) == q * radix + n % radix;
    } else {
      DigitRoundTrip(n, upper);
    }
  }

  lemma DigitRoundTrip(d: nat, upper: bool)
    requires d < 16
    ensures ValueOfDigit(DigitOf(d, upper)) == d
  {
  }

  // ---------------------------------------------------------------------
  // Placing a formatted number (FormatNumber, FormatOct, FormatHex)

  /** The sign slot of a non-negative number: `+`, a space, or nothing. */
  function PositiveSign(plus: bool, space: bool): string {
    if plus then "+" else if space then " " else ""
  }

  /**
   * Placing a formatted number as written: right or left alignment with
   * spaces; with zero padding, the digits are padded to one less than the
   * width and the sign slot is then filled with the sign, or with the pad
   * character when the number is not negative — even when the digits
   * already fill the width.
   */
  function PlaceNumberAsWritten(w: string, nonNegative: bool, width: Option<nat>, left: bool,
                                plus: bool, space: bool, padding: char): Option<string>
  {
    if left || padding == ' ' then
      Some(Align((if nonNegative then PositiveSign(plus, space) else "") + w, width, left))
    else
      var digits := if |w| > 0 && w[0] == '-' then w[1..] else w;
      var padded := if width.Some? then PadLeft(digits, width.value - 1, padding) else Some(digits);
      if padded.None? then None
      else
        var sign := if !nonNegative then "-"
          else if plus || space then PositiveSign(plus, space)
          else if width.Some? then [padding]
          else "";
        Some(sign + padded.value)
  }

  /**
   * Placing a formatted number as intended: with zero padding, the sign
   * and the zero-padded digits together fill the width and no more.
   */
  function PlaceNumber(w: string, nonNegative: bool, width: Option<nat>, left: bool,
                       plus: bool, space: bool, padding: char): (r: string)
    ensures left || padding == ' ' ==>
      r == Align((if nonNegative then PositiveSign(plus, space) else "") + w, width, left)
  {
    if left || padding == ' ' then
      Align((if nonNegative then PositiveSign(plus, space) else "") + w, width, left)
    else
      var digits := if |w| > 0 && w[0] == '-' then w[1..] else w;
      var sign := if nonNegative then PositiveSign(plus, space) else "-";
      var room := if width.Some? && width.value >= |sign| then width.value - |sign| else 0;
      sign + PadLeftTo(digits, room, padding)
  }

  /** With zero padding the result is the sign, then zeros, then the digits, exactly as wide as the width or the number. */
  lemma ZeroPadded(digits: string, sign: string, w: string, nonNegative: bool, width: nat, plus: bool, space: bool)
    requires |w| > 0 && w[0] == '-' <==> !nonNegative
    requires digits == (if nonNegative then w else w[1..])
    requires sign == (if nonNegative then PositiveSign(plus, space) else "-")
    ensures var r := PlaceNumber(w, nonNegative, Some(width), false, plus, space, '0');
      && |r| == Max(width, |sign| + |digits|)
      && r[..|sign|] == sign
      && r[|r| - |digits|..] == digits
      && (forall j :: |sign| <= j < |r| - |digits| ==> r[j] == '0')
  {
    PlaceZero(w, nonNegative, width, plus, space);
    ZeroLayout(sign, digits, width);
  }

  /** The sign followed by the digits zero-padded to fill the rest of the width. */
  lemma ZeroLayout(sign: string, digits: string, width: nat)
    ensures var room := if width >= |sign| then width - |sign| else 0;
      var r := sign + PadLeftTo(digits, room, '0');
      && |r| == Max(width, |sign| + |digits|)
      && r[..|sign|] == sign
      && r[|r| - |digits|..] == digits
      && (forall j :: |sign| <= j < |r| - |digits| ==> r[j] == '0')
  {
    var room := if width >= |sign| then width - |sign| else 0;
    var padded := PadLeftTo(digits, room, '0');
    PadLeftKeeps(digits, room, '0');
    SignedPadding(sign, padded, digits);
  }

  lemma PlaceZero(w: string, nonNegative: bool, width: nat, plus: bool, space: bool)
    ensures var digits := if |w| > 0 && w[0] == '-' then w[1..] else w;
      var sign := if nonNegative then PositiveSign(plus, space) else "-";
      var room := if width >= |sign| then width - |sign| else 0;
      PlaceNumber(w, nonNegative, Some(width), false, plus, space, '0') == sign + PadLeftTo(digits, room, '0')
  {
  }

  lemma SignedPadding(sign: string, padded: string, digits: string)
    requires |digits| <= |padded| && padded[|padded| - |digits|..] == digits
    ensures var r := sign + padded;
      r[..|sign|] == sign && r[|r| - |digits|..] == digits
      && forall j :: |sign| <= j < |r| - |digits| ==> r[j] == padded[j - |sign|]
  {
    var r := sign + padded;
    assert r[|r| - |digits|..] == padded[|padded| - |digits|..];
  }

  lemma FillShift(c: char, n: nat)
    ensures [c] + Fill(c, n) == Fill(c, n + 1)
    decreases n
  {
    if n > 0 {
      FillShift(c, n - 1);
    }
  }

  /** A pad character in front of a text padded to one less is the text padded to the full width. */
  lemma PadOneMore(w: string, width: nat, c: char)
    requires |w| < width
    ensures [c] + PadLeftTo(w, width - 1, c) == PadLeftTo(w, width, c)
  {
    var n := width - 1 - |w|;
    FillShift(c, n);
    assert [c] + (Fill(c, n) + w) == ([c] + Fill(c, n)) + w;
  }

  /** Where the digits are narrower than the width, both placements agree. */
  lemma PlaceNumberAgrees(w: string, nonNegative: bool, width: nat, left: bool, plus: bool, space: bool, padding: char)
    requires |w| > 0 && w[0] == '-' <==> !nonNegative
    requires |w| < width
    ensures PlaceNumberAsWritten(w, nonNegative, Some(width), left, plus, space, padding)
      == Some(PlaceNumber(w, nonNegative, Some(width), left, plus, space, padding))
  {
    if !(left || padding == ' ') {
      var digits := if nonNegative then w else w[1..];
      if nonNegative && !plus && !space {
        PadOneMore(w, width, padding);
        assert PlaceNumberAsWritten(w, nonNegative, Some(width), left, plus, space, padding)
          == Some([padding] + PadLeftTo(w, width - 1, padding));
        assert PlaceNumber(w, nonNegative, Some(width), left, plus, space, padding) == "" + PadLeftTo(w, width, padding);
        assert "" + PadLeftTo(w, width, padding) == PadLeftTo(w, width, padding);
      } else {
        var sign := if nonNegative then PositiveSign(plus, space) else "-";
        assert PlaceNumber(w, nonNegative, Some(width), left, plus, space, padding) == sign + PadLeftTo(digits, width - 1, padding);
      }
    }
  }

  /** `%05d` of 12345: the directive written carries an extra zero, six characters for a width of five. */
  lemma ZeroPaddingOverflows()
    ensures PlaceNumberAsWritten("12345", true, Some(5), false, false, false, '0') == Some("012345")
    ensures PlaceNumber("12345", true, Some(5), false, false, false, '0') == "12345"
  {
    assert PadLeft("12345", 4, '0') == Some("12345");
    assert "0" + "12345" == "012345";
  }

  /** `FormatOct`: 64-bit two's complement octal digits; `#` prefixes a `0` to anything but `0`. */
  function FormatOct(v: int, alternate: bool, width: Option<nat>, left: bool, padding: char): Option<string>
  {
    var w := BaseDigits(v % 0x1_0000_0000_0000_0000, 8, false);
    if left || padding == ' ' then
      Some(Align(if alternate && w != "0" then "0" + w else w, width, left))
    else
      var padded := if width.Some? then PadLeft(w, width.value - (if alternate && w != "0" then 1 else 0), padding) else Some(w);
      if padded.None? then None
      // the second test reads the padded text
      else Some(if alternate && padded.value != "0" then "0" + padded.value else padded.value)
  }

  /** `FormatHex`: two's complement hexadecimal digits at the width of the parameter's type; `#` prefixes `0x` or `0X`. */
  function FormatHex(v: int, kind: IntKind, upper: bool, alternate: bool, width: Option<nat>, left: bool, padding: char): Option<string>
  {
    var w := BaseDigits(v % Modulus(kind), 16, upper);
    var prefix := if upper then "0X" else "0x";
    if left || padding == ' ' then
      Some(Align(if alternate then prefix + w else w, width, left))
    else
      var padded := if width.Some? then PadLeft(w, width.value - (if alternate then 2 else 0), padding) else Some(w);
      if padded.None? then None
      else Some(if alternate then prefix + padded.value else padded.value)
  }

  // ---------------------------------------------------------------------
  // Rendering one directive

  /**
   * The .NET numeric format strings `n`, `f`, `e`, `E`, `g` and `G` (culture
   * grouping, fixed point, exponent, general) with a precision, applied to
   * an integer; these are not part of this model and are supplied.
   */
  type NumericFormat = (string, nat, int) -> string

  /** `%s` precision as written: `Substring(0, precision)`, which throws past the end of the text. */
  function TruncateAsWritten(t: string, precision: nat): Option<string> {
    if precision > |t| then None else Some(t[..precision])
  }

  /** `%s` precision as intended: at most `precision` characters. */
  function Truncate(t: string, precision: nat): (r: string)
    ensures |r| == if precision < |t| then precision else |t|
    ensures r == t[..|r|]
  {
    if precision > |t| then t else t[..precision]
  }

  /** `%.5s` of `"abc"`: the call as written throws where three characters were meant. */
  lemma TruncateThrows()
    ensures TruncateAsWritten("abc", 5).None?
    ensures Truncate("abc", 5) == "abc"
  {
  }

  /** Both agree wherever the text is at least as long as the precision. */
  lemma TruncateAgrees(t: string, precision: nat)
    requires precision <= |t|
    ensures TruncateAsWritten(t, precision) == Some(Truncate(t, precision))
  {
  }

  /** The character a `%c` of a number stands for; a lone surrogate, which is no character here, becomes U+FFFD. */
  function CodeUnit(v: int): char
    requires 0 <= v < 0x1_0000
  {
    if v < 0xD800 || 0xE000 <= v then v as char else '\U{FFFD}'
  }

  /** `%d`, `%i` and `%u` of an integer parameter: its decimal text, grouped by the `'` flag. */
  function Decimal(v: int, l: Layout, numeric: NumericFormat): string {
    if l.group then numeric("n", 0, v) else IntToString(v)
  }

  /** `%s`: the text, cut to the precision, then padded to the width with the pad character. */
  function StringText(o: Param, l: Layout): Option<string> {
    if o.NullParam? then None
    else
      var cut := if l.precision.Some? then Truncate(ToText(o), l.precision.value) else ToText(o);
      Some(match l.width
        case None => cut
        case Some(n) => if l.left then PadRightTo(cut, n, l.padding) else PadLeftTo(cut, n, l.padding))
  }

  /** `%c`: a number as a 16-bit character code (out of range throws), a char, the first char of a string, else nothing. */
  function CharText(o: Param): Option<string> {
    match o
    case IntParam(_, _) => if 0 <= IntValue(o) < 0x1_0000 then Some([CodeUnit(IntValue(o))]) else None
    case CharParam(c) => Some([c])
    case StrParam(t) => Some(if |t| > 0 then [t[0]] else "")
    case _ => Some("")
  }

  /** `%u`: the parameter's bits read unsigned; a null parameter throws, other non-integers render as nothing. */
  function UnsignedText(o: Param, l: Layout, numeric: NumericFormat): Option<string> {
    match o
    case NullParam => None
    case IntParam(n, k) =>
      var u := n % Modulus(k);
      Some(PlaceNumber(Decimal(u, l, numeric), true, l.width, l.left, false, false, l.padding))
    case _ => Some("")
  }

  /** The .NET format string behind `%f`, `%e`, `%E`, `%g` and `%G`. */
  function NativeFormat(specifier: char, group: bool): string {
    if specifier == 'f' then (if group then "n" else "f") else [specifier]
  }

  /** Whether the directive takes the next parameter: all but `%%` and `%n` do. */
  predicate Consumes(specifier: char) { specifier != '%' && specifier != 'n' }

  /** The text that replaces a directive found at position `index`, given its parameter; `None` when formatting throws. */
  function Render(d: Directive, o: Param, index: nat, numeric: NumericFormat): Option<string> {
    // a directive the scanner found is always well formed
    var layout := if WellFormed(d) then LayoutOf(d) else None;
    if layout.None? then None
    else
      var l := layout.value;
      match d.specifier
      case '%' => Some("%")
      case 'n' => Some(PlaceNumber(IntToString(index), true, l.width, l.left, l.plusSign, l.plusSpace, l.padding))
      case 's' => StringText(o, l)
      case 'c' => CharText(o)
      case 'u' => UnsignedText(o, l, numeric)
      case 'p' => Some("")
      case _ =>
        if !o.IntParam? then Some("")
        else if d.specifier == 'd' || d.specifier == 'i' then
          Some(PlaceNumber(Decimal(IntValue(o), l, numeric), IntValue(o) >= 0, l.width, l.left, l.plusSign, l.plusSpace, l.padding))
        else if d.specifier == 'o' then
          FormatOct(IntValue(o), l.alternate, l.width, l.left, l.padding)
        else if d.specifier == 'x' || d.specifier == 'X' then
          FormatHex(IntValue(o), o.kind, d.specifier == 'X', l.alternate, l.width, l.left, l.padding)
        else
          var precision := if l.precision.Some? then l.precision.value else 6;
          var w := numeric(NativeFormat(d.specifier, l.group), precision, IntValue(o));
          Some(PlaceNumber(w, IntValue(o) >= 0, l.width, l.left, l.plusSign, l.plusSpace, l.padding))
  }

  /** The parameter a directive receives: the next one, narrowed or widened by the size prefix, or null past the end. */
  function ParamFor(params: seq<Param>, i: nat, size: Option<char>): Param {
    if i < |params| then Sized(params[i], size) else NullParam
  }

  /**
   * How the loop renders a directive found at position `index`, given the
   * parameters and the index of the next one; `RendererOf` is the
   * formatter's own.
   */
  type Renderer = (Directive, seq<Param>, nat, nat) -> Option<string>

  function RendererOf(numeric: NumericFormat): Renderer {
    (d: Directive, params: seq<Param>, i: nat, index: nat) => Render(d, ParamFor(params, i, d.size), index, numeric)
  }

  // ---------------------------------------------------------------------
  // The replacement loop

  function Prefixed(p: string, r: Option<string>): (q: Option<string>)
    ensures q.Some? <==> r.Some?
  {
    match r
    case None => None
    case Some(t) => Some(p + t)
  }

  /** A match: the text before it, the directive read, the characters matched, and the text after it. */
  datatype Hit = Hit(before: string, d: Directive, matched: string, after: string)

  /** The leftmost match in `rest`. */
  function Next(rest: string): (r: Option<Hit>)
    ensures r.Some? ==> |r.value.matched| >= 2 && rest == r.value.before + r.value.matched + r.value.after
  {
    match Find(rest, 0)
    case None => None
    case Some(k) =>
      var t := rest[k..];
      var len := CutsOf(t).sizeEnd + 1;
      assert rest == rest[..k] + t[..len] + t[len..];
      Some(Hit(rest[..k], Scan(t).value, t[..len], t[len..]))
  }

  /** The match is the leftmost directive, read by the scanner and spelled by the characters matched. */
  lemma NextSound(rest: string)
    requires Next(rest).Some?
    ensures var h := Next(rest).value;
      && Find(rest, 0) == Some(|h.before|)
      && Scan(rest[|h.before|..]) == Some(h.d) && WellFormed(h.d)
      && h.matched == Spelling(h.d)
  {
    var k := Find(rest, 0).value;
    ScanSound(rest[k..]);
  }

  /** The regular expression's search from `pos` in the buffer finds what `Next` finds in the buffer's suffix at `pos`. */
  lemma NextAt(f: string, pos: nat)
    requires pos <= |f|
    ensures Find(f, pos).Some? <==> Next(f[pos..]).Some?
    ensures Find(f, pos).Some? ==> Find(f, pos).value == pos + |Next(f[pos..]).value.before|
  {
    FindBySuffix(f, pos, 0, StartsDirective);
  }

  /** How the loop finds the next directive; `Next` is the formatter's own. */
  type Matcher = string -> Option<Hit>

  /** A matcher leaves less text after a match than it was given. */
  ghost predicate Advances(next: Matcher) {
    forall s :: next(s).Some? ==> |next(s).value.after| < |s|
  }

  /** A matcher splits the text around the match. */
  ghost predicate Splits(next: Matcher) {
    forall s :: next(s).Some? ==> s == next(s).value.before + next(s).value.matched + next(s).value.after
  }

  lemma NextAdvances()
    ensures Advances(Next) && Splits(Next)
  {
  }

  /**
   * The formatted text of `rest`, the unscanned part of the buffer, which
   * starts at position `base`; `i` is the index of the next parameter.
   * Each directive is replaced by its rendering and the scan goes on after
   * the inserted text; `None` when a rendering throws.
   */
  function Format(rest: string, base: nat, params: seq<Param>, i: nat, next: Matcher, render: Renderer): Option<string>
    requires Advances(next)
    decreases |rest|
  {
    match next(rest)
    case None => Some(rest)
    case Some(h) =>
      match render(h.d, params, i, base + |h.before|)
      case None => None
      case Some(w) =>
        var j := if Consumes(h.d.specifier) then i + 1 else i;
        Prefixed(h.before + w, Format(h.after, base + |h.before| + |w|, params, j, next, render))
  }

  lemma PrefixedPrefixed(a: string, b: string, r: Option<string>)
    ensures Prefixed(a, Prefixed(b, r)) == Prefixed(a + b, r)
  {
    if r.Some? {
      assert a + (b + r.value) == (a + b) + r.value;
    }
  }

  lemma PrefixedEmpty(r: Option<string>)
    ensures Prefixed("", r) == r
  {
    if r.Some? {
      assert "" + r.value == r.value;
    }
  }

  /**
   * Removing the matched characters and inserting `w` in their place: the
   * buffer up to the end of the inserted text, and the rest after it.
   */
  /** `StringBuilder.Remove`: the `len` characters from `at` are taken out. */
  function Remove(f: string, at: nat, len: nat): string
    requires at + len <= |f|
  {
    f[..at] + f[at + len..]
  }

  /** `StringBuilder.Insert`: `w` is put in at `at`. */
  function Insert(f: string, at: nat, w: string): string
    requires at <= |f|
  {
    f[..at] + w + f[at..]
  }

  /** Replacing the matched text by its rendering leaves the rendering after the text before it and the rest of the match after it. */
  lemma Splice(f: string, pos: nat, h: Hit, w: string)
    requires pos <= |f| && f[pos..] == h.before + h.matched + h.after
    ensures pos + |h.before| + |h.matched| <= |f|
    ensures var at := pos + |h.before|;
      var after := Insert(Remove(f, at, |h.matched|), at, w);
      && after[..at + |w|] == f[..pos] + (h.before + w)
      && after[at + |w|..] == h.after
  {
    var at := pos + |h.before|;
    var len := |h.matched|;
    assert f == f[..pos] + f[pos..];
    assert f[..at] == f[..pos] + h.before;
    assert f[at + len..] == h.after;
  }

  /**
   * The loop's invariant: formatting the whole format gives the buffer up to
   * `pos`, followed by the formatting of the buffer from `pos` on, with `i`
   * parameters consumed.
   */
  ghost predicate Resumes(format: string, f: string, pos: nat, i: nat, params: seq<Param>, next: Matcher, render: Renderer)
    requires Advances(next) && pos <= |f|
  {
    Format(format, 0, params, 0, next, render) == Prefixed(f[..pos], Format(f[pos..], pos, params, i, next, render))
  }

  /** One turn of the loop: the new buffer, the new position past the rendering, and the invariant kept. */
  lemma Step(format: string, f: string, pos: nat, i: nat, h: Hit, w: string, params: seq<Param>, next: Matcher, render: Renderer)
    requires Advances(next) && Splits(next) && pos <= |f| && next(f[pos..]) == Some(h)
    requires render(h.d, params, i, pos + |h.before|) == Some(w)
    requires Resumes(format, f, pos, i, params, next, render)
    ensures pos + |h.before| + |h.matched| <= |f|
    ensures var at := pos + |h.before|;
      var after := Insert(Remove(f, at, |h.matched|), at, w);
      && at + |w| <= |after|
      && after[at + |w|..] == h.after
      && |h.after| < |f| - pos
      && Resumes(format, after, at + |w|, if Consumes(h.d.specifier) then i + 1 else i, params, next, render)
  {
    LoopStep(format, f, pos, i, h, w, params, next, render);
    Splice(f, pos, h, w);
  }

  lemma SplitAt(f: string, pos: nat)
    requires pos <= |f|
    ensures f[..pos] + f[pos..] == f
  {
  }

  /** Where the matcher finds a match and the renderer renders it, the formatting is the text before it, the rendering, and the formatting after it. */
  lemma FormatUnfold(rest: string, base: nat, params: seq<Param>, i: nat, next: Matcher, render: Renderer, h: Hit, w: string)
    requires Advances(next) && next(rest) == Some(h) && render(h.d, params, i, base + |h.before|) == Some(w)
    ensures Format(rest, base, params, i, next, render)
      == Prefixed(h.before + w, Format(h.after, base + |h.before| + |w|, params, if Consumes(h.d.specifier) then i + 1 else i, next, render))
  {
  }

  /** Where the renderer throws on the match, the formatting throws. */
  lemma FormatThrows(rest: string, base: nat, params: seq<Param>, i: nat, next: Matcher, render: Renderer, h: Hit)
    requires Advances(next) && next(rest) == Some(h) && render(h.d, params, i, base + |h.before|).None?
    ensures Format(rest, base, params, i, next, render).None?
  {
  }

  /** Where the matcher finds nothing, the text is kept as it is. */
  lemma FormatDone(rest: string, base: nat, params: seq<Param>, i: nat, next: Matcher, render: Renderer)
    requires Advances(next) && next(rest).None?
    ensures Format(rest, base, params, i, next, render) == Some(rest)
  {
  }

  /**
   * One turn of the loop keeps its invariant: once the match is replaced,
   * the formatted text is the buffer up to the end of the inserted text,
   * followed by the formatting of what came after the match.
   */
  lemma LoopStep(format: string, f: string, pos: nat, i: nat, h: Hit, w: string, params: seq<Param>, next: Matcher, render: Renderer)
    requires Advances(next) && pos <= |f| && next(f[pos..]) == Some(h)
    requires render(h.d, params, i, pos + |h.before|) == Some(w)
    requires Format(format, 0, params, 0, next, render) == Prefixed(f[..pos], Format(f[pos..], pos, params, i, next, render))
    ensures Format(format, 0, params, 0, next, render)
      == Prefixed(f[..pos] + (h.before + w),
                  Format(h.after, pos + |h.before| + |w|, params, if Consumes(h.d.specifier) then i + 1 else i, next, render))
  {
    FormatUnfold(f[pos..], pos, params, i, next, render, h, w);
    PrefixedPrefixed(f[..pos], h.before + w,
      Format(h.after, pos + |h.before| + |w|, params, if Consumes(h.d.specifier) then i + 1 else i, next, render));
  }

  /**
   * `Sprintf`: the buffer starts as the format; each directive the pattern
   * finds from the current position is removed, its rendering inserted in
   * its place, and the search resumes after the inserted text.
   */
  method Sprintf(format: string, params: seq<Param>, next: Matcher, render: Renderer) returns (r: Option<string>)
    requires Advances(next) && Splits(next)
    ensures r == Format(format, 0, params, 0, next, render)
  {
    var f := format;
    var pos: nat := 0;
    var i: nat := 0;
    var m := next(f);
    assert f[0..] == f;
    assert f[..0] == "";
    PrefixedEmpty(Format(f, 0, params, 0, next, render));
    while m.Some?
      invariant pos <= |f|
      invariant m == next(f[pos..])
      invariant Resumes(format, f, pos, i, params, next, render)
      decreases |f| - pos
    {
      var h := m.value;
      var at := pos + |h.before|;
      var w := render(h.d, params, i, at);
      if w.None? {
        FormatThrows(f[pos..], pos, params, i, next, render, h);
        return None;
      }
      Step(format, f, pos, i, h, w.value, params, next, render);
      f := Remove(f, at, |h.matched|);
      f := Insert(f, at, w.value);
      i := if Consumes(h.d.specifier) then i + 1 else i;
      pos := at + |w.value|;
      m := next(f[pos..]);
    }
    FormatDone(f[pos..], pos, params, i, next, render);
    SplitAt(f, pos);
    r := Some(f);
  }

  // ---------------------------------------------------------------------
  // Properties of the formatter

  /** Text without `%` holds no match. */
  lemma NextPlain(s: string)
    requires forall j :: 0 <= j < |s| ==> s[j] != '%'
    ensures Next(s).None?
  {
  }

  /** Text without `%` comes out unchanged. */
  lemma FormatPlain(s: string, base: nat, params: seq<Param>, i: nat, numeric: NumericFormat)
    requires forall j :: 0 <= j < |s| ==> s[j] != '%'
    ensures Format(s, base, params, i, Next, RendererOf(numeric)) == Some(s)
  {
    NextPlain(s);
  }

  /** A directive at the start of the text is the next match, spanning its own spelling. */
  lemma NextAtStart(d: Directive, rest: string)
    requires WellFormed(d)
    ensures Next(Spelling(d) + rest) == Some(Hit("", d, Spelling(d), rest))
  {
    var t := Spelling(d) + rest;
    ScanSpelling(d, rest);
    assert t[0..] == t;
    assert Find(t, 0) == Some(0);
    ScanSound(t);
    assert t[..0] == "";
    assert t[..|Spelling(d)|] == Spelling(d);
    assert t[|Spelling(d)|..] == rest;
  }

  /** Unfolding `Format` at a directive that stands at the start of the text. */
  lemma FormatAtStart(d: Directive, rest: string, base: nat, params: seq<Param>, i: nat, next: Matcher, render: Renderer)
    requires Advances(next)
    requires next(Spelling(d) + rest) == Some(Hit("", d, Spelling(d), rest))
    ensures var w := render(d, params, i, base);
      var t := Spelling(d) + rest;
      && (w.None? ==> Format(t, base, params, i, next, render).None?)
      && (w.Some? ==>
           Format(t, base, params, i, next, render)
             == Prefixed(w.value, Format(rest, base + |w.value|, params, if Consumes(d.specifier) then i + 1 else i, next, render)))
  {
    var w := render(d, params, i, base);
    if w.Some? {
      assert "" + w.value == w.value;
    }
  }

  /** `%%` becomes a percent sign and takes no parameter. */
  lemma RenderPercent(o: Param, index: nat, numeric: NumericFormat)
    ensures Render(Directive("", "", None, None, '%'), o, index, numeric) == Some("%") && !Consumes('%')
  {
  }

  /** `%n` becomes the position of the directive in the buffer and takes no parameter. */
  lemma RenderPosition(o: Param, index: nat, numeric: NumericFormat)
    ensures Render(Directive("", "", None, None, 'n'), o, index, numeric) == Some(IntToString(index)) && !Consumes('n')
  {
    assert "" + IntToString(index) == IntToString(index);
  }

  /** `%s` of a string parameter inserts the string as it is, and takes the parameter. */
  lemma RenderString(t: string, index: nat, numeric: NumericFormat)
    ensures Render(Directive("", "", None, None, 's'), StrParam(t), index, numeric) == Some(t) && Consumes('s')
  {
  }

  /** `%d` of an integer parameter inserts its decimal text, and takes the parameter. */
  lemma RenderDecimal(n: int, kind: IntKind, index: nat, numeric: NumericFormat)
    requires InRange(n, kind)
    ensures Render(Directive("", "", None, None, 'd'), IntParam(n, kind), index, numeric) == Some(IntToString(n)) && Consumes('d')
  {
    WrapKeeps(n, kind);
    assert "" + IntToString(n) == IntToString(n);
  }

  /** Inserted text is not scanned again: a string full of directives comes out as it went in. */
  lemma InsertedTextKept(t: string, numeric: NumericFormat)
    ensures Format("%s", 0, [StrParam(t)], 0, Next, RendererOf(numeric)) == Some(t)
  {
    var d := Directive("", "", None, None, 's');
    assert Spelling(d) + "" == "%s";
    RenderString(t, 0, numeric);
    assert ParamFor([StrParam(t)], 0, d.size) == StrParam(t);
    assert RendererOf(numeric)(d, [StrParam(t)], 0, 0) == Some(t);
    NextAtStart(d, "");
    NextAdvances();
    NextPlain("");
    assert Format("", |t|, [StrParam(t)], 1, Next, RendererOf(numeric)) == Some("");
    FormatAtStart(d, "", 0, [StrParam(t)], 0, Next, RendererOf(numeric));
    assert t + "" == t;
  }

  /**
   * A numeric directive without an integer parameter — missing, or of
   * another type — renders as nothing, and still takes a parameter.
   */
  lemma NumericWithoutNumber(d: Directive, o: Param, index: nat, numeric: NumericFormat)
    requires WellFormed(d) && LayoutOf(d).Some?
    requires d.specifier in "dioxXfeEgG"
    requires !o.IntParam?
    ensures Render(d, o, index, numeric) == Some("")
    ensures Consumes(d.specifier)
  {
  }

  /** `%c` renders nothing for a missing parameter; `%s` and `%u` throw on one. */
  lemma MissingParameter(d: Directive, index: nat, numeric: NumericFormat)
    requires WellFormed(d) && LayoutOf(d).Some?
    ensures d.specifier == 'c' ==> Render(d, NullParam, index, numeric) == Some("")
    ensures d.specifier == 's' || d.specifier == 'u' ==> Render(d, NullParam, index, numeric).None?
  {
  }

  lemma RenderStringCase(d: Directive, o: Param, index: nat, numeric: NumericFormat)
    requires WellFormed(d) && d.specifier == 's' && LayoutOf(d).Some?
    ensures Render(d, o, index, numeric) == StringText(o, LayoutOf(d).value)
  {
  }

  lemma RenderHexCase(d: Directive, n: int, kind: IntKind, index: nat, numeric: NumericFormat)
    requires WellFormed(d) && (d.specifier == 'x' || d.specifier == 'X') && LayoutOf(d).Some?
    ensures var l := LayoutOf(d).value;
      Render(d, IntParam(n, kind), index, numeric)
        == FormatHex(Wrap(n, kind), kind, d.specifier == 'X', l.alternate, l.width, l.left, l.padding)
  {
  }

  lemma RenderOctCase(d: Directive, n: int, kind: IntKind, index: nat, numeric: NumericFormat)
    requires WellFormed(d) && d.specifier == 'o' && LayoutOf(d).Some?
    ensures var l := LayoutOf(d).value;
      Render(d, IntParam(n, kind), index, numeric) == FormatOct(Wrap(n, kind), l.alternate, l.width, l.left, l.padding)
  {
  }

  /**
   * `%s`: the text is cut to the precision, then padded with the pad
   * character to the width — on the left, or on the right with `-`.
   */
  lemma StringLayout(d: Directive, t: string, index: nat, numeric: NumericFormat)
    requires WellFormed(d) && d.specifier == 's' && LayoutOf(d).Some?
    ensures var l := LayoutOf(d).value;
      var cut := if l.precision.Some? then Truncate(t, l.precision.value) else t;
      var w := if l.width.Some? then l.width.value else 0;
      var r := Render(d, StrParam(t), index, numeric).value;
      && Render(d, StrParam(t), index, numeric).Some?
      && cut == t[..|cut|]
      && |r| == Max(w, |cut|)
      && (l.left ==> r[..|cut|] == cut && forall j :: |cut| <= j < |r| ==> r[j] == l.padding)
      && (!l.left ==> r[|r| - |cut|..] == cut && forall j :: 0 <= j < |r| - |cut| ==> r[j] == l.padding)
  {
    RenderStringCase(d, StrParam(t), index, numeric);
    StringPadding(t, LayoutOf(d).value);
  }

  /** The `%s` text of a string, for any layout. */
  lemma StringPadding(t: string, l: Layout)
    ensures var cut := if l.precision.Some? then Truncate(t, l.precision.value) else t;
      var w := if l.width.Some? then l.width.value else 0;
      var r := StringText(StrParam(t), l).value;
      && StringText(StrParam(t), l).Some?
      && cut == t[..|cut|]
      && |r| == Max(w, |cut|)
      && (l.left ==> r[..|cut|] == cut && forall j :: |cut| <= j < |r| ==> r[j] == l.padding)
      && (!l.left ==> r[|r| - |cut|..] == cut && forall j :: 0 <= j < |r| - |cut| ==> r[j] == l.padding)
  {
    var cut := if l.precision.Some? then Truncate(t, l.precision.value) else t;
    var w := if l.width.Some? then l.width.value else 0;
    assert StringText(StrParam(t), l) == Some(if l.width.None? then cut else if l.left then PadRightTo(cut, w, l.padding) else PadLeftTo(cut, w, l.padding));
    if l.left {
      PadRightKeeps(cut, w, l.padding);
      assert l.width.None? ==> PadRightTo(cut, w, l.padding) == cut;
    } else {
      PadLeftKeeps(cut, w, l.padding);
      assert l.width.None? ==> PadLeftTo(cut, w, l.padding) == cut;
    }
  }

  /** `%x` and `%X` without flags or width give the hexadecimal digits of the parameter's two's complement bits. */
  lemma HexDigits(d: Directive, n: int, kind: IntKind, index: nat, numeric: NumericFormat)
    requires WellFormed(d) && (d.specifier == 'x' || d.specifier == 'X') && LayoutOf(d).Some?
    requires d.flags == "" && d.width == ""
    ensures Render(d, IntParam(n, kind), index, numeric).Some?
    ensures BaseValue(Render(d, IntParam(n, kind), index, numeric).value, 16) == Wrap(n, kind) % Modulus(kind)
  {
    FlagRules(d);
    RenderHexCase(d, n, kind, index, numeric);
    BaseDigitsRoundTrip(Wrap(n, kind) % Modulus(kind), 16, d.specifier == 'X');
  }

  /** `%o` without flags or width gives the octal digits of the parameter's 64-bit two's complement. */
  lemma OctalDigits(d: Directive, n: int, kind: IntKind, index: nat, numeric: NumericFormat)
    requires WellFormed(d) && d.specifier == 'o' && LayoutOf(d).Some?
    requires d.flags == "" && d.width == ""
    ensures Render(d, IntParam(n, kind), index, numeric).Some?
    ensures BaseValue(Render(d, IntParam(n, kind), index, numeric).value, 8) == Wrap(n, kind) % 0x1_0000_0000_0000_0000
  {
    FlagRules(d);
    RenderOctCase(d, n, kind, index, numeric);
    BaseDigitsRoundTrip(Wrap(n, kind) % 0x1_0000_0000_0000_0000, 8, false);
  }
}
