/**
 * What `TokenList.Parse` computes, as functions on the compiler's state:
 * the token list, the target of each control-token slot, the stack of open
 * blocks and the stack of open markup tokens. `Compile` folds the construct
 * steps and the text-content steps over the template from left to right.
 */
module CompileSpec {
  import opened Wrappers
  import opened Text
  import opened Tokens
  import Constructs
  import HtmlScan
  import CallSites

  /**
   * `ControlTokenInfo`: an open block. `token` is the slot of its control
   * token, `tokenIsJump` whether that token is a jump, `tokenIf` the slot of
   * the pending `elseif` condition.
   */
  datatype ControlInfo = ControlInfo(name: string, tokenIndex: nat, token: nat, tokenIsJump: bool, tokenIf: Option<nat>)

  /** The compiler's state; both stacks have their top at the end. `html` holds token positions. */
  datatype CState = CState(tokens: seq<Token>, targets: seq<int>, control: seq<ControlInfo>, html: seq<nat>)

  /** Why compiling fails: a misplaced construct (`ParseException`), or an attribute given twice. */
  datatype CompileError =
    | Unexpected(message: string, site: CallSites.CallSite)
    | DuplicateAttribute(name: string)

  const Initial := CState([], [], [], [])

  const VoidTags: seq<string> := ["area", "base", "br", "col", "command", "embed", "hr", "img", "input",
                                  "keygen", "link", "meta", "param", "source", "track", "wbr"]

  /** Every entry of the markup stack is the position of a markup token. */
  predicate HtmlOk(st: CState) {
    forall i :: 0 <= i < |st.html| ==> st.html[i] < |st.tokens| && st.tokens[st.html[i]].Html?
  }

  /** Earlier tokens keep their kind and only markup tokens change; every new token is a markup token. */
  predicate HtmlExtends(a: seq<Token>, b: seq<Token>) {
    |a| <= |b|
    && (forall k :: 0 <= k < |a| ==> if a[k].Html? then b[k].Html? else b[k] == a[k])
    && (forall k :: |a| <= k < |b| ==> b[k].Html?)
  }

  lemma ExtendsTrans(a: seq<Token>, b: seq<Token>, c: seq<Token>)
    requires HtmlExtends(a, b) && HtmlExtends(b, c)
    ensures HtmlExtends(a, c)
  {
  }

  /** A text step: only markup tokens are added or changed; the control state stays as it was. */
  predicate TextStep(st: CState, r: CState) {
    HtmlOk(r) && r.targets == st.targets && r.control == st.control && HtmlExtends(st.tokens, r.tokens)
  }

  // ---------------------------------------------------------------------
  // Markup stack operations

  /** The markup token on top of the stack (`htmlStack.Peek()`). */
  function Top(st: CState): HtmlToken
    requires HtmlOk(st) && |st.html| > 0
  {
    st.tokens[st.html[|st.html| - 1]].html
  }

  /** Update the markup token on top of the stack in place. */
  function SetTop(st: CState, h: HtmlToken): (r: CState)
    requires HtmlOk(st) && |st.html| > 0
    ensures TextStep(st, r) && r.html == st.html && |r.tokens| == |st.tokens| && Top(r) == h
  {
    st.(tokens := st.tokens[st.html[|st.html| - 1] := Html(h)])
  }

  /** `Add`: append a token. */
  function Add(st: CState, t: Token): (r: CState)
    ensures r.tokens == st.tokens + [t] && r.targets == st.targets && r.control == st.control && r.html == st.html
    ensures HtmlOk(st) ==> HtmlOk(r)
  {
    st.(tokens := st.tokens + [t])
  }

  /** A markup text token. */
  function TextToken(text: string): Token {
    Html(NewHtml(TextContent, None, None, Some(text)))
  }

  /** `htmlStack.Push(t); Add(t)`. */
  function PushHtml(st: CState, h: HtmlToken): (r: CState)
    requires HtmlOk(st)
    ensures TextStep(st, r) && r.tokens == st.tokens + [Html(h)] && r.html == st.html + [|st.tokens|]
  {
    st.(tokens := st.tokens + [Html(h)], html := st.html + [|st.tokens|])
  }

  /** `htmlStack.Pop()`. */
  function PopHtml(st: CState): (r: CState)
    requires HtmlOk(st) && |st.html| > 0
    ensures TextStep(st, r) && r.tokens == st.tokens && r.html == st.html[..|st.html| - 1]
  {
    st.(html := st.html[..|st.html| - 1])
  }

  /**
   * `AppendTextContent`: a text token, unless the innermost open markup
   * token is an element whose start tag is still open (text there is dropped).
   */
  function AppendText(st: CState, text: string): (r: CState)
    requires HtmlOk(st)
    ensures TextStep(st, r) && r.html == st.html
    ensures r.tokens == st.tokens || r.tokens == st.tokens + [TextToken(text)]
    ensures |st.html| == 0 ==> r.tokens == st.tokens + [TextToken(text)]
  {
    if |st.html| > 0 then
      var cur := Top(st);
      if cur.attributeName.Some? || cur.tagOpened then Add(st, TextToken(text)) else st
    else Add(st, TextToken(text))
  }

  /** `StartTextContent`: the innermost markup token records where its content starts. */
  function StartText(st: CState): (r: CState)
    requires HtmlOk(st)
    ensures TextStep(st, r) && r.html == st.html && |r.tokens| == |st.tokens|
    ensures |st.html| > 0 ==> Top(r).offsets == Top(st).offsets + [|st.tokens|]
  {
    if |st.html| > 0 then SetTop(st, Top(st).(offsets := Top(st).offsets + [|st.tokens|])) else st
  }

  /**
   * `EndTextContent`: an empty content range is dropped (its start is taken
   * back); otherwise the innermost markup token records where it ends.
   */
  function EndText(st: CState): (r: CState)
    requires HtmlOk(st)
    ensures TextStep(st, r) && r.html == st.html && |r.tokens| == |st.tokens|
  {
    if |st.html| > 0 then
      var o := Top(st).offsets;
      if |o| > 0 && o[|o| - 1] == |st.tokens| then SetTop(st, Top(st).(offsets := o[..|o| - 1]))
      else SetTop(st, Top(st).(offsets := o + [|st.tokens|]))
    else st
  }

  /** Whether an attribute of that name is already recorded. */
  predicate HasAttribute(h: HtmlToken, name: string) {
    exists i :: 0 <= i < |h.attributes| && h.attributes[i].0 == name
  }

  // ---------------------------------------------------------------------
  // One markup match

  /**
   * The effect of one markup match. `asWritten` selects how a `<` match is
   * told to be a closing tag: as written (`Groups[1].Success`, true for
   * every `<` match) or as intended (`Groups[1].Value == "/"`).
   */
  function MatchStep(st: CState, m: HtmlScan.HtmlMatch, asWritten: bool): (r: Result<CState, CompileError>)
    requires HtmlOk(st)
    ensures r.Ok? ==> TextStep(st, r.value)
    ensures r.Err? <==> |st.html| > 0 && m.Word? && m.assign && HasAttribute(Top(st), m.word)
  {
    match m
    case TagOpen(_, _, name) =>
      var closing := if asWritten then HtmlScan.Group1Success(m) else HtmlScan.IsClosingTag(m);
      if closing then
        if |st.html| > 0 then
          var cur := Top(st);
          if cur.tagName == Some(name) then Ok(SetTop(st, cur.(tagOpened := false)))
          else if cur.tagName.Some? && cur.tagName.value in VoidTags then
            var st1 := PopHtml(st);
            Ok(if |st1.html| > 0 then st1 else AppendText(st1, HtmlScan.Value(m)))
          else Ok(st)
        else Ok(AppendText(st, HtmlScan.Value(m)))
      else
        Ok(PushHtml(EndText(st), NewHtml(ElementStart, Some(name), None, None)))
    case TagEnd(_, selfClosing) =>
      if |st.html| > 0 && Top(st).tagName.Some? then
        var cur := Top(st);
        if !cur.tagOpened || selfClosing then
          var st1 := Add(EndText(st), Html(NewHtml(ElementEnd, None, None, None)));
          Ok(StartText(PopHtml(st1)))
        else
          Ok(StartText(SetTop(st, cur.(tagOpened := true))))
      else Ok(AppendText(st, HtmlScan.Value(m)))
    case Quote(_) =>
      if |st.html| > 0 && Top(st).attributeName.Some? then
        var st1 := Add(EndText(st), Html(NewHtml(AttrEnd, None, Top(st).attributeName, None)));
        Ok(PopHtml(st1))
      else Ok(AppendText(st, "\""))
    case Word(_, word, assign) =>
      if |st.html| > 0 then
        if !assign then Ok(Add(st, Html(NewHtml(AttrEnd, None, Some(word), None))))
        else
          var cur := Top(st);
          if HasAttribute(cur, word) then Err(DuplicateAttribute(word))
          else
            var st1 := SetTop(st, cur.(attributes := cur.attributes + [(word, |st.tokens|)]));
            Ok(StartText(PushHtml(st1, NewHtml(AttrStart, None, Some(word), None))))
      else Ok(AppendText(st, HtmlScan.Value(m)))
  }

  /** The state after the text from `from` up to `to` is appended, when there is any. */
  function TextUpTo(st: CState, str: string, from: nat, to: nat): (r: CState)
    requires HtmlOk(st) && from <= to <= |str|
    ensures TextStep(st, r)
  {
    if from != to then AppendText(st, str[from..to]) else st
  }

  /** The loop of `ParseTextContent` from position `from` of the text on. */
  function TextLoop(st: CState, str: string, from: nat, asWritten: bool): (r: Result<CState, CompileError>)
    requires HtmlOk(st) && from <= |str|
    ensures r.Ok? ==> TextStep(st, r.value)
    decreases |str| - from, 1
  {
    match HtmlScan.NextMatch(str, from)
    case None => Ok(if from != |str| then AppendText(st, str[from..]) else st)
    case Some(m) =>
      HtmlScan.MatchInside(str, from);
      var st1 := TextUpTo(st, str, from, m.index);
      var r := TextLoopAt(st1, str, m, MatchStep(st1, m, asWritten), asWritten);
      if r.Ok? then ExtendsTrans(st.tokens, st1.tokens, r.value.tokens); r else r
  }

  /** That loop once the text before the match `m` is in `st1` and the match's own step has given `r`: its error, or the loop after `m`. */
  function TextLoopAt(st1: CState, str: string, m: HtmlScan.HtmlMatch, r: Result<CState, CompileError>, asWritten: bool): (r': Result<CState, CompileError>)
    requires m.index + |HtmlScan.Value(m)| <= |str| && (r.Ok? ==> TextStep(st1, r.value))
    ensures r'.Ok? ==> TextStep(st1, r'.value)
    decreases |str| - (m.index + |HtmlScan.Value(m)|), 2
  {
    if r.Err? then r
    else
      var r' := TextLoop(r.value, str, m.index + |HtmlScan.Value(m)|, asWritten);
      if r'.Ok? then ExtendsTrans(st1.tokens, r.value.tokens, r'.value.tokens); r' else r'
  }

  /**
   * `ParseTextContent(str)`: the markup loop; then the first token it added,
   * when it added any, records the whole text and the position after it.
   */
  function ParseText(st: CState, str: string, asWritten: bool): (r: Result<CState, CompileError>)
    requires HtmlOk(st)
    ensures r.Ok? ==> TextStep(st, r.value)
  {
    var start := |st.tokens|;
    match TextLoop(st, str, 0, asWritten)
    case Err(e) => Err(e)
    case Ok(st1) =>
      if start < |st1.tokens| && st1.tokens[start].Html? then
        var h := st1.tokens[start].html;
        Ok(st1.(tokens := st1.tokens[start := Html(h.(value := Some(str), index := Some(|st1.tokens|)))]))
      else Ok(st1)
  }

  // ---------------------------------------------------------------------
  // One construct

  /** The pipe of a construct: its group 2 and where that text starts (see `Constructs.PipeOffset`). */
  function PipeOf(m: Constructs.Construct): PipeSource {
    PipeSource(m.body, Constructs.PipeOffset(m))
  }

  /** `Assert` failing: "Unexpected" and the construct's text, at the construct's span. */
  function UnexpectedAt(s: string, m: Constructs.Construct): (e: CompileError)
    requires m.index + m.length <= |s|
    ensures e.Unexpected? && e.site.constructStart == m.index && e.site.constructEnd == m.index + m.length
  {
    Unexpected("Unexpected " + s[m.index..m.index + m.length],
      CallSites.CallSite(s, m.index, m.index + m.length, None, None))
  }

  /** The slots an open block holds: its token's and its pending condition's. */
  function SlotsOf(c: ControlInfo): set<nat> {
    {c.token} + (if c.tokenIf.Some? then {c.tokenIf.value} else {})
  }

  /** The innermost open block. */
  function Last(st: CState): ControlInfo
    requires |st.control| > 0
  {
    st.control[|st.control| - 1]
  }

  /** A new slot, its target not yet set. */
  function NewSlot(st: CState): (r: (nat, CState))
    ensures r.0 == |st.targets| && r.1 == st.(targets := st.targets + [0])
  {
    (|st.targets|, st.(targets := st.targets + [0]))
  }

  /** `{{if pipe}}` / `{{if not pipe}}`: a condition token, and an open "if" block around it. */
  function OpenIf(st: CState, p: PipeSource, negate: bool): (r: CState)
    ensures var q := |st.targets|;
      r.tokens == st.tokens + [Condition(q, p, negate)] && r.targets == st.targets + [0]
      && r.control == st.control + [ControlInfo("if", |st.tokens|, q, false, None)] && r.html == st.html
  {
    var (q, st1) := NewSlot(st);
    Add(st1.(control := st1.control + [ControlInfo("if", |st.tokens|, q, false, None)]), Condition(q, p, negate))
  }

  /** `{{foreach pipe}}`: an iteration token, and an open "foreach" block around it. */
  function OpenForeach(st: CState, p: PipeSource): (r: CState)
    ensures var q := |st.targets|;
      r.tokens == st.tokens + [Iteration(q, p)] && r.targets == st.targets + [0]
      && r.control == st.control + [ControlInfo("foreach", |st.tokens|, q, false, None)] && r.html == st.html
  {
    var (q, st1) := NewSlot(st);
    Add(st1.(control := st1.control + [ControlInfo("foreach", |st.tokens|, q, false, None)]), Iteration(q, p))
  }

  /**
   * `{{/name}}` closing the innermost block: its token (every copy of it)
   * jumps to the current position, and so does a pending condition still at
   * 0; a foreach block ends in an iteration-end token that jumps back to
   * the token after the iteration token.
   */
  function Close(st: CState): (r: CState)
    requires |st.control| > 0 && Last(st).token < |st.targets|
    requires Last(st).tokenIf.Some? ==> Last(st).tokenIf.value < |st.targets|
    ensures var top, n := Last(st), |st.tokens|;
      r.control == st.control[..|st.control| - 1] && r.html == st.html && |st.targets| <= |r.targets|
      && r.targets[top.token] == n
      && (top.tokenIf.Some? && st.targets[top.tokenIf.value] == 0 ==> r.targets[top.tokenIf.value] == n)
      && (forall q :: 0 <= q < |st.targets| && q !in SlotsOf(top) ==> r.targets[q] == st.targets[q])
      && (if top.name == "foreach"
          then r.tokens == st.tokens + [IterationEnd(|st.targets|)] && r.targets == r.targets[..|st.targets|] + [top.tokenIndex + 1]
          else r.tokens == st.tokens && |r.targets| == |st.targets|)
  {
    var top, n := Last(st), |st.tokens|;
    var t1 := st.targets[top.token := n];
    var t2 := if top.tokenIf.Some? && t1[top.tokenIf.value] == 0 then t1[top.tokenIf.value := n] else t1;
    var st1 := st.(targets := t2, control := st.control[..|st.control| - 1]);
    if top.name == "foreach" then
      Add(st1.(targets := t2 + [top.tokenIndex + 1]), IterationEnd(|t2|))
    else st1
  }

  /**
   * `{{else}}`, `{{elseif pipe}}`, `{{elseif not pipe}}` inside an "if"
   * block: the pending condition, or else the block's token, now jumps
   * past a jump token appended here -- the block's own jump token when it
   * already is one, so that every branch of the chain shares it -- and an
   * `elseif` appends its condition after it as the new pending condition.
   */
  function Else(st: CState, elseIf: Option<(PipeSource, bool)>): (r: CState)
    requires |st.control| > 0 && Last(st).token < |st.targets|
    requires Last(st).tokenIf.Some? ==> Last(st).tokenIf.value < |st.targets|
    ensures var prev, n := Last(st), |st.tokens|;
      var jump := if prev.tokenIsJump then prev.token else |st.targets|;
      var patched := if prev.tokenIf.Some? then prev.tokenIf.value else prev.token;
      |r.tokens| == n + (if elseIf.Some? then 2 else 1) && r.tokens[..n] == st.tokens && r.tokens[n] == Branch(jump)
      && |r.control| == |st.control| && r.control[..|st.control| - 1] == st.control[..|st.control| - 1]
      && Last(r).name == "if" && Last(r).tokenIndex == n && Last(r).token == jump && Last(r).tokenIsJump
      && r.html == st.html && |st.targets| <= |r.targets| && r.targets[patched] == n + 1
      && (forall q :: 0 <= q < |st.targets| && q != patched ==> r.targets[q] == st.targets[q])
      && (forall q :: |st.targets| <= q < |r.targets| ==> r.targets[q] == 0)
      && (elseIf.None? ==> Last(r).tokenIf.None? && |r.targets| == |st.targets| + (if prev.tokenIsJump then 0 else 1))
      && (elseIf.Some? ==>
            Last(r).tokenIf == Some(|r.targets| - 1) && |r.targets| - 1 != jump
            && r.tokens[n + 1] == Condition(|r.targets| - 1, elseIf.value.0, elseIf.value.1)
            && |r.targets| == |st.targets| + (if prev.tokenIsJump then 1 else 2))
  {
    var prev, n := Last(st), |st.tokens|;
    var (jump, st1) := if prev.tokenIsJump then (prev.token, st) else NewSlot(st);
    var patched := if prev.tokenIf.Some? then prev.tokenIf.value else prev.token;
    var st2 := st1.(targets := st1.targets[patched := n + 1]);
    var st3 := Add(st2, Branch(jump));
    match elseIf
    case None =>
      st3.(control := st.control[..|st.control| - 1] + [ControlInfo("if", n, jump, true, None)])
    case Some((p, negate)) =>
      var (q, st4) := NewSlot(st3);
      Add(st4.(control := st.control[..|st.control| - 1] + [ControlInfo("if", n, jump, true, Some(q))]), Condition(q, p, negate))
  }

  /** Both slots of an open block are below `n`. */
  predicate SlotsBelow(c: ControlInfo, n: nat) {
    c.token < n && (c.tokenIf.Some? ==> c.tokenIf.value < n)
  }

  /** Every open block's slots are slots of the program. */
  predicate ControlSlots(st: CState) {
    forall i :: 0 <= i < |st.control| ==> SlotsBelow(st.control[i], |st.targets|)
  }

  /**
   * The effect of one construct. `!` does nothing; `/` closes the innermost
   * block when it has that name; `if` and `foreach` open blocks; `else` and
   * `elseif` continue an "if" block; anything else evaluates its pipe,
   * without HTML encoding when the keyword is `&`.
   */
  function ConstructStep(s: string, st: CState, m: Constructs.Construct): (r: Result<CState, CompileError>)
    requires m.index + m.length <= |s| && ControlSlots(st)
    ensures r.Ok? ==> ControlSlots(r.value) && r.value.html == st.html
    ensures r.Ok? ==> |st.tokens| <= |r.value.tokens| && r.value.tokens[..|st.tokens|] == st.tokens
    ensures m.keyword == "!" ==> r == Ok(st)
    ensures m.keyword == "/" ==> (r.Ok? <==> |st.control| > 0 && m.body == Last(st).name)
    ensures m.keyword in {"else", "elseif", "elseif not"} ==> (r.Ok? <==> |st.control| > 0 && Last(st).name == "if")
    ensures r.Err? ==> r.error == UnexpectedAt(s, m)
    ensures m.keyword in {"if", "if not"} ==> r == Ok(OpenIf(st, PipeOf(m), m.keyword == "if not"))
    ensures m.keyword == "foreach" ==> r == Ok(OpenForeach(st, PipeOf(m)))
    ensures m.keyword !in {"!", "/", "if", "if not", "else", "elseif", "elseif not", "foreach"} ==>
      r == Ok(Add(st, Evaluate(PipeOf(m), m.keyword == "&")))
  {
    var m1, m2 := m.keyword, m.body;
    if m1 == "!" then Ok(st)
    else if m1 == "/" then
      if |st.control| > 0 && m2 == Last(st).name then
        assert SlotsBelow(Last(st), |st.targets|);
        Ok(Close(st))
      else Err(UnexpectedAt(s, m))
    else if m1 == "if" || m1 == "if not" then Ok(OpenIf(st, PipeOf(m), m1 == "if not"))
    else if m1 == "else" || m1 == "elseif" || m1 == "elseif not" then
      if |st.control| > 0 && Last(st).name == "if" then
        assert SlotsBelow(Last(st), |st.targets|);
        Ok(Else(st, if m1 == "else" then None else Some((PipeOf(m), m1 == "elseif not"))))
      else Err(UnexpectedAt(s, m))
    else if m1 == "foreach" then Ok(OpenForeach(st, PipeOf(m)))
    else Ok(Add(st, Evaluate(PipeOf(m), m1 == "&")))
  }

  /** A construct step only appends tokens and leaves the markup stack as it was. */
  lemma ConstructKeepsHtml(s: string, st: CState, m: Constructs.Construct)
    requires m.index + m.length <= |s| && ControlSlots(st) && HtmlOk(st) && ConstructStep(s, st, m).Ok?
    ensures HtmlOk(ConstructStep(s, st, m).value)
  {
    var r := ConstructStep(s, st, m).value;
    forall i | 0 <= i < |r.html| ensures r.html[i] < |r.tokens| && r.tokens[r.html[i]].Html? {
      assert r.tokens[r.html[i]] == r.tokens[..|st.tokens|][r.html[i]];
    }
  }

  // ---------------------------------------------------------------------
  // The whole template

  /** The text from `from` up to `to`, through the markup splitter when it is not empty. */
  function TextBefore(s: string, from: nat, to: nat, st: CState, asWritten: bool): (r: Result<CState, CompileError>)
    requires from <= to <= |s| && HtmlOk(st)
    ensures r.Ok? ==> TextStep(st, r.value)
  {
    if from != to then ParseText(st, s[from..to], asWritten) else Ok(st)
  }
}
