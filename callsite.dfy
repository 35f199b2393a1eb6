/**
 * `WaterpipeException.CallSite`: where in the template an error happened,
 * and the numbers its message shows -- the line and column of the caret,
 * the text leading up to the construct on its line, the construct's line
 * with line breaks and trailing white space removed, the caret's offset
 * into the construct and the width of the highlight.
 */
module CallSites {
  import opened Wrappers
  import opened Text

  /** The template text, the construct's span and, when known, the span of the part to highlight. */
  datatype CallSite = CallSite(
    input: string,
    constructStart: int,
    constructEnd: int,
    highlightStart: Option<int>,
    highlightEnd: Option<int>)

  /** What `ToString` hands to the message template. */
  datatype Report = Report(
    line: nat,             // 1 + line breaks before the caret
    column: nat,           // 1 + characters between the last line break and the caret
    before: string,        // the end of the construct's line up to the construct
    excerpt: string,       // the construct's line from the construct on
    caretOffset: int,      // caret position relative to the construct
    width: Option<int>)    // highlight length; absent when only its end is missing

  /** `\s` of .NET regular expressions: the ASCII controls 9 to 13, NEL and the Unicode separators. */
  predicate IsRegexSpace(c: char) {
    c == ' ' || ('\t' <= c <= '\r') || c == '\U{85}' || c == '\U{A0}' || c == '\U{1680}'
    || ('\U{2000}' <= c <= '\U{200A}') || c == '\U{2028}' || c == '\U{2029}' || c == '\U{202F}'
    || c == '\U{205F}' || c == '\U{3000}'
  }

  predicate AllSpace(s: string) {
    forall k :: 0 <= k < |s| ==> IsRegexSpace(s[k])
  }

  function Min(a: int, b: int): int { if a <= b then a else b }
  function Max(a: int, b: int): int { if a >= b then a else b }

  /** The caret: the highlight's start when there is one, else the construct's start. */
  function Caret(c: CallSite): (r: int)
    ensures c.highlightStart.Some? ==> r == c.highlightStart.value
    ensures c.highlightStart.None? ==> r == c.constructStart
  {
    match c.highlightStart
    case Some(h) => h
    case None => c.constructStart
  }

  /**
   * The positions the string operations of `ToString` accept: the construct
   * lies inside the text and does not start on a line break (the length
   * `ConstructStart - newLinePos` would be negative), the caret lies inside
   * the text.
   */
  predicate Placed(c: CallSite) {
    0 <= c.constructStart < |c.input| && c.input[c.constructStart] != '\n'
    && c.constructStart <= c.constructEnd <= |c.input|
    && 0 <= Caret(c) <= |c.input|
  }

  /** Start of the line that holds the construct: just past the last line break at or before it. */
  function LineBegin(c: CallSite): (r: nat)
    requires Placed(c)
    ensures r <= c.constructStart
    ensures forall k :: r <= k <= c.constructStart ==> c.input[k] != '\n'
    ensures r > 0 ==> c.input[r - 1] == '\n'
  {
    match LastIndexOfChar(c.input, '\n', c.constructStart + 1)
    case Some(k) => k + 1
    case None => 0
  }

  /** End of the construct's line: just past the first line break at or after the construct's end, else the text's end. */
  function LineEnd(c: CallSite): (r: nat)
    requires Placed(c)
    ensures c.constructEnd <= r <= |c.input|
  {
    match IndexOfFrom(c.input, "\n", c.constructEnd as nat)
    case Some(k) => k + 1
    case None => |c.input|
  }

  /**
   * `Regex.Replace(t, @"\r?\n|\s+$", "")` from position `p`: a line break
   * (with an optional carriage return before it) is dropped; a run of white
   * space reaching the end of the text is dropped; other characters stay.
   */
  function StripFrom(t: string, p: nat): (r: string)
    decreases |t| - p
  {
    if p >= |t| then ""
    else if t[p] == '\n' then StripFrom(t, p + 1)
    else if t[p] == '\r' && p + 1 < |t| && t[p + 1] == '\n' then StripFrom(t, p + 2)
    else if AllSpace(t[p..]) then ""
    else [t[p]] + StripFrom(t, p + 1)
  }

  /** `CallSite.ToString`: the numbers and excerpts of the message. */
  function Describe(c: CallSite): (r: Report)
    requires Placed(c)
    ensures r.caretOffset == Caret(c) - c.constructStart
    ensures c.highlightStart.None? ==> r.width == Some(c.constructEnd - c.constructStart)
    ensures c.highlightStart.Some? && c.highlightEnd.Some? ==> r.width == Some(c.highlightEnd.value - c.highlightStart.value)
    ensures c.highlightStart.Some? && c.highlightEnd.None? ==> r.width.None?
    ensures |r.before| <= 20 && |r.excerpt| <= c.constructEnd - c.constructStart + 20
  {
    var caret := Caret(c);
    var pieces := Split(c.input[..caret], '\n');
    var lead := TrimStartBy(c.input[LineBegin(c)..c.constructStart], IsRegexSpace);
    var stripped := StripFrom(c.input[c.constructStart..LineEnd(c)], 0);
    var width :=
      if c.highlightStart.None? then Some(c.constructEnd - c.constructStart)
      else if c.highlightEnd.None? then None
      else Some(c.highlightEnd.value - c.highlightStart.value);
    Report(|pieces|, |pieces[|pieces| - 1]| + 1,
      lead[Max(0, |lead| - 20)..],
      stripped[..Min(|stripped|, c.constructEnd - c.constructStart + 20)],
      caret - c.constructStart, width)
  }

  // ---------------------------------------------------------------------
  // Properties

  /**
   * Without a highlight the caret sits on the construct's first character and
   * the marker spans the construct; a highlight inside the construct puts the
   * caret inside it too, and a missing highlight end leaves the width unknown.
   */
  lemma CaretWithinConstruct(c: CallSite)
    requires Placed(c)
    ensures c.highlightStart.None? ==> Describe(c).caretOffset == 0 && Describe(c).width == Some(c.constructEnd - c.constructStart)
    ensures c.highlightStart.Some? && c.constructStart <= c.highlightStart.value <= c.constructEnd ==>
      0 <= Describe(c).caretOffset <= c.constructEnd - c.constructStart
    ensures c.highlightStart.Some? && c.highlightEnd.None? ==> Describe(c).width.None?
  {
    var r := Describe(c);
    assert r.caretOffset == Caret(c) - c.constructStart;
  }

  /** The line is one more than the number of line breaks before the caret. */
  lemma LineCountsBreaks(c: CallSite)
    requires Placed(c)
    ensures Describe(c).line == CountChar(c.input[..Caret(c)], '\n') + 1
  {
    SplitCount(c.input[..Caret(c)], '\n');
  }

  /** The column is one more than the number of characters between the last line break before the caret and the caret. */
  lemma ColumnCountsFromBreak(c: CallSite)
    requires Placed(c)
    ensures var caret := Caret(c);
      var from := match LastIndexOfChar(c.input, '\n', caret) case Some(k) => k + 1 case None => 0;
      Describe(c).column == caret - from + 1
  {
    var caret := Caret(c);
    var p := c.input[..caret];
    SplitLast(p, '\n');
    LastIndexPrefix(c.input, p, '\n', caret);
  }

  /**
   * The text before the construct is the end of its line up to the
   * construct, at most 20 characters, and when the whole run fits it starts
   * with no white space.
   */
  lemma BeforeIsLineTail(c: CallSite)
    requires Placed(c)
    ensures var b := Describe(c).before;
      var run := c.input[LineBegin(c)..c.constructStart];
      |b| <= |run| && b == run[|run| - |b|..]
      && (|b| > 0 && |TrimStartBy(run, IsRegexSpace)| <= 20 ==> !IsRegexSpace(b[0]))
      && forall k :: 0 <= k < |b| ==> b[k] != '\n'
  {
    var run := c.input[LineBegin(c)..c.constructStart];
    assert forall k :: 0 <= k < |run| ==> run[k] != '\n' by {
      forall k | 0 <= k < |run| ensures run[k] != '\n' {
        assert run[k] == c.input[LineBegin(c) + k];
      }
    }
    var lead := TrimStartBy(run, IsRegexSpace);
    assert lead[Max(0, |lead| - 20)..] == Describe(c).before;
    TrimmedTail(run, lead);
  }

  /** The last (at most) 20 characters of a trimmed line fragment. */
  lemma TrimmedTail(run: string, lead: string)
    requires |lead| <= |run| && lead == run[|run| - |lead|..] && (|lead| > 0 ==> !IsRegexSpace(lead[0]))
    requires forall k :: 0 <= k < |run| ==> run[k] != '\n'
    ensures var b := lead[Max(0, |lead| - 20)..];
      |b| <= |run| && b == run[|run| - |b|..]
      && (|b| > 0 && |lead| <= 20 ==> !IsRegexSpace(b[0]))
      && forall k :: 0 <= k < |b| ==> b[k] != '\n'
  {
    var b := lead[Max(0, |lead| - 20)..];
    TailOfTail(run, lead, Max(0, |lead| - 20));
    forall k | 0 <= k < |b| ensures b[k] != '\n' {
      assert b[k] == run[|run| - |b| + k];
    }
  }

  /** A suffix of a suffix is a suffix. */
  lemma TailOfTail(run: string, lead: string, m: nat)
    requires |lead| <= |run| && lead == run[|run| - |lead|..] && m <= |lead|
    ensures lead[m..] == run[|run| - |lead[m..]|..]
  {
  }

  /** The excerpt holds no line break. */
  lemma ExcerptHasNoBreak(c: CallSite)
    requires Placed(c)
    ensures forall k :: 0 <= k < |Describe(c).excerpt| ==> Describe(c).excerpt[k] != '\n'
  {
    var t := c.input[c.constructStart..LineEnd(c)];
    StripDropsBreaks(t, 0);
  }

  /** Before truncation the excerpt does not end in white space. */
  lemma ExcerptTrimmed(c: CallSite)
    requires Placed(c)
    ensures var s := StripFrom(c.input[c.constructStart..LineEnd(c)], 0);
      Describe(c).excerpt <= s && (|s| > 0 ==> !IsRegexSpace(s[|s| - 1]))
  {
    StripEndsInText(c.input[c.constructStart..LineEnd(c)], 0);
  }

  lemma {:induction false} StripDropsBreaks(t: string, p: nat)
    ensures forall k :: 0 <= k < |StripFrom(t, p)| ==> StripFrom(t, p)[k] != '\n'
    decreases |t| - p
  {
    if p < |t| {
      if t[p] == '\n' {
        StripDropsBreaks(t, p + 1);
      } else if t[p] == '\r' && p + 1 < |t| && t[p + 1] == '\n' {
        StripDropsBreaks(t, p + 2);
      } else if !AllSpace(t[p..]) {
        StripDropsBreaks(t, p + 1);
      }
    }
  }

  /** Nothing is left from `p` only when everything from `p` is white space. */
  lemma {:induction false} StripEmptyIsSpace(t: string, p: nat)
    requires p <= |t| && StripFrom(t, p) == ""
    ensures AllSpace(t[p..])
    decreases |t| - p
  {
    if p < |t| {
      if t[p] == '\n' {
        StripEmptyIsSpace(t, p + 1);
        assert t[p..] == [t[p]] + t[p + 1..];
      } else if t[p] == '\r' && p + 1 < |t| && t[p + 1] == '\n' {
        StripEmptyIsSpace(t, p + 2);
        assert t[p..] == [t[p], t[p + 1]] + t[p + 2..];
      }
    }
  }

  lemma {:induction false} StripEndsInText(t: string, p: nat)
    requires p <= |t|
    ensures var s := StripFrom(t, p); |s| > 0 ==> !IsRegexSpace(s[|s| - 1])
    decreases |t| - p
  {
    if p < |t| {
      if t[p] == '\n' {
        StripEndsInText(t, p + 1);
      } else if t[p] == '\r' && p + 1 < |t| && t[p + 1] == '\n' {
        StripEndsInText(t, p + 2);
      } else if !AllSpace(t[p..]) {
        var rest := StripFrom(t, p + 1);
        if rest == "" {
          StripEmptyIsSpace(t, p + 1);
          assert t[p..] == [t[p]] + t[p + 1..];
        } else {
          StripEndsInText(t, p + 1);
        }
      }
    }
  }
}
