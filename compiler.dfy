/**
 * `TokenList` as an object: the token collection, the jump targets of the
 * control-token slots, the stack of open blocks and the stack of open markup
 * tokens are fields that the compiler's methods update one step at a time,
 * as `Parse` and `ParseTextContent` do. Each method is proved to leave the
 * object in the state the functions of `CompileSpec` compute, so the whole
 * parse ends in `CompileProps.Final` of the template, with its invariant.
 */
module Compiler {
  import opened Wrappers
  import opened Tokens
  import opened CompileSpec
  import CompileProps
  import Constructs
  import HtmlScan

  class TokenList {
    const inputString: string
    var tokens: seq<Token>
    var targets: seq<int>
    var controlStack: seq<ControlInfo>
    var htmlStack: seq<nat>
    /** The `ParseException` the constructor threw, if any. */
    var failure: Option<CompileError>

    /** The compiler's state held in the fields. */
    function State(): CState
      reads this
    {
      CState(tokens, targets, controlStack, htmlStack)
    }

    /** What a step that may fail leaves behind: the new state, or the error it threw. */
    function Outcome(err: Option<CompileError>): Result<CState, CompileError>
      reads this
    {
      if err.None? then Ok(State()) else Err(err.value)
    }

    /** `new TokenList(str)`: the template is parsed at once; `failure` holds the error when parsing throws. */
    constructor (str: string)
      ensures inputString == str && Outcome(failure) == CompileProps.Final(str)
    {
      inputString := str;
      tokens, targets, controlStack, htmlStack := [], [], [], [];
      failure := None;
      new;
      var err := Parse();
      failure := err;
    }

    // -------------------------------------------------------------------
    // The token collection and the markup stack

    /** `Add`: the token goes at the end of the collection. */
    method Add(t: Token)
      modifies this
      ensures State() == CompileSpec.Add(old(State()), t)
    {
      tokens := tokens + [t];
    }

    /** Replace the markup token on top of the stack; the source mutates that object in place. */
    method SetTopToken(h: HtmlToken)
      requires HtmlOk(State()) && |htmlStack| > 0
      modifies this
      ensures State() == SetTop(old(State()), h)
    {
      tokens := tokens[htmlStack[|htmlStack| - 1] := Html(h)];
    }

    /** `htmlStack.Push(t); Add(t)`. */
    method PushHtmlToken(h: HtmlToken)
      requires HtmlOk(State())
      modifies this
      ensures State() == PushHtml(old(State()), h)
    {
      htmlStack := htmlStack + [|tokens|];
      tokens := tokens + [Html(h)];
    }

    /** `htmlStack.Pop()`. */
    method PopHtmlToken()
      requires HtmlOk(State()) && |htmlStack| > 0
      modifies this
      ensures State() == PopHtml(old(State()))
    {
      htmlStack := htmlStack[..|htmlStack| - 1];
    }

    /** `StartTextContent`. */
    method StartTextContent()
      requires HtmlOk(State())
      modifies this
      ensures State() == StartText(old(State()))
    {
      if |htmlStack| > 0 {
        var cur := Top(State());
        SetTopToken(cur.(offsets := cur.offsets + [|tokens|]));
      }
    }

    /** `EndTextContent`. */
    method EndTextContent()
      requires HtmlOk(State())
      modifies this
      ensures State() == EndText(old(State()))
    {
      if |htmlStack| > 0 {
        var offsets := Top(State()).offsets;
        if |offsets| > 0 && offsets[|offsets| - 1] == |tokens| {
          SetTopToken(Top(State()).(offsets := offsets[..|offsets| - 1]));
        } else {
          SetTopToken(Top(State()).(offsets := offsets + [|tokens|]));
        }
      }
    }

    /** `AppendTextContent`. */
    method AppendTextContent(str: string)
      requires HtmlOk(State())
      modifies this
      ensures State() == AppendText(old(State()), str)
    {
      if |htmlStack| > 0 {
        var cur := Top(State());
        if cur.attributeName.Some? || cur.tagOpened {
          Add(TextToken(str));
        }
      } else {
        Add(TextToken(str));
      }
    }

    // -------------------------------------------------------------------
    // Text content

    /** The body of the `ParseTextContent` loop for one markup match (a `<` match read as intended). */
    method TextMatch(m: HtmlScan.HtmlMatch) returns (err: Option<CompileError>)
      requires HtmlOk(State())
      modifies this
      ensures Outcome(err) == MatchStep(old(State()), m, false)
    {
      err := None;
      match m
      case TagOpen(_, _, name) =>
        if HtmlScan.IsClosingTag(m) {
          if |htmlStack| > 0 {
            var cur := Top(State());
            if cur.tagName == Some(name) {
              SetTopToken(cur.(tagOpened := false));
            } else if cur.tagName.Some? && cur.tagName.value in VoidTags {
              PopHtmlToken();
              if |htmlStack| == 0 {
                AppendTextContent(HtmlScan.Value(m));
              }
            }
          } else {
            AppendTextContent(HtmlScan.Value(m));
          }
        } else {
          EndTextContent();
          PushHtmlToken(NewHtml(ElementStart, Some(name), None, None));
        }
      case TagEnd(_, selfClosing) =>
        if |htmlStack| > 0 && Top(State()).tagName.Some? {
          var cur := Top(State());
          if !cur.tagOpened || selfClosing {
            EndTextContent();
            Add(Html(NewHtml(ElementEnd, None, None, None)));
            PopHtmlToken();
            StartTextContent();
          } else {
            SetTopToken(cur.(tagOpened := true));
            StartTextContent();
          }
        } else {
          AppendTextContent(HtmlScan.Value(m));
        }
      case Quote(_) =>
        if |htmlStack| > 0 && Top(State()).attributeName.Some? {
          var name := Top(State()).attributeName;
          EndTextContent();
          Add(Html(NewHtml(AttrEnd, None, name, None)));
          PopHtmlToken();
        } else {
          AppendTextContent("\"");
        }
      case Word(_, word, assign) =>
        if |htmlStack| > 0 {
          if !assign {
            Add(Html(NewHtml(AttrEnd, None, Some(word), None)));
          } else {
            var cur := Top(State());
            if HasAttribute(cur, word) {
              err := Some(DuplicateAttribute(word));
            } else {
              SetTopToken(cur.(attributes := cur.attributes + [(word, |tokens|)]));
              PushHtmlToken(NewHtml(AttrStart, None, Some(word), None));
              StartTextContent();
            }
          }
        } else {
          AppendTextContent(HtmlScan.Value(m));
        }
    }

    /** One round of the `ParseTextContent` loop: the text before the match `m`, then the match. */
    method TextRound(str: string, from: nat, m: HtmlScan.HtmlMatch) returns (err: Option<CompileError>)
      requires HtmlOk(State()) && from <= m.index <= |str|
      modifies this
      ensures Outcome(err) == MatchStep(TextUpTo(old(State()), str, from, m.index), m, false)
    {
      if from != m.index {
        AppendTextContent(str[from..m.index]);
      }
      err := TextMatch(m);
    }

    /**
     * `ParseTextContent(str)`: the markup matches of `str` from left to
     * right, with the text between them; then the first token added records
     * the whole text and the position after it.
     */
    method ParseTextContent(str: string) returns (err: Option<CompileError>)
      requires HtmlOk(State())
      modifies this
      ensures Outcome(err) == ParseText(old(State()), str, false)
    {
      ghost var st0 := State();
      var start := |tokens|;
      var lastIndex := 0;
      var m := HtmlScan.NextMatch(str, 0);
      while m.Some?
        invariant lastIndex <= |str| && HtmlOk(State()) && m == HtmlScan.NextMatch(str, lastIndex)
        invariant TextLoop(State(), str, lastIndex, false) == TextLoop(st0, str, 0, false)
        decreases |str| - lastIndex
      {
        ghost var st := State();
        var hm := m.value;
        TextLoopRound(st, str, lastIndex, hm);
        ghost var st1 := TextUpTo(st, str, lastIndex, hm.index);
        var next := hm.index + |HtmlScan.Value(hm)|;
        err := TextRound(str, lastIndex, hm);
        if err.Some? {
          TextStop(st1, str, hm, Outcome(err));
          return;
        }
        TextAdvance(st1, str, hm, next, Outcome(err));
        lastIndex := next;
        m := HtmlScan.NextMatch(str, lastIndex);
      }
      if lastIndex != |str| {
        AppendTextContent(str[lastIndex..]);
      }
      if start < |tokens| && tokens[start].Html? {
        var h := tokens[start].html;
        tokens := tokens[start := Html(h.(value := Some(str), index := Some(|tokens|)))];
      }
      err := None;
    }

    // -------------------------------------------------------------------
    // Constructs

    /** `{{if}}` and `{{if not}}`. */
    method OpenIfBlock(p: PipeSource, negate: bool)
      modifies this
      ensures State() == OpenIf(old(State()), p, negate)
    {
      var q := |targets|;
      targets := targets + [0];
      controlStack := controlStack + [ControlInfo("if", |tokens|, q, false, None)];
      tokens := tokens + [Condition(q, p, negate)];
    }

    /** `{{foreach}}`. */
    method OpenForeachBlock(p: PipeSource)
      modifies this
      ensures State() == OpenForeach(old(State()), p)
    {
      var q := |targets|;
      targets := targets + [0];
      controlStack := controlStack + [ControlInfo("foreach", |tokens|, q, false, None)];
      tokens := tokens + [Iteration(q, p)];
    }

    /** `{{/name}}` once the name has been checked: patch the block's slots, end a loop, pop the block. */
    method CloseBlock()
      requires |controlStack| > 0 && Last(State()).token < |targets|
      requires Last(State()).tokenIf.Some? ==> Last(State()).tokenIf.value < |targets|
      modifies this
      ensures State() == Close(old(State()))
    {
      var top := controlStack[|controlStack| - 1];
      targets := targets[top.token := |tokens|];
      if top.tokenIf.Some? && targets[top.tokenIf.value] == 0 {
        targets := targets[top.tokenIf.value := |tokens|];
      }
      if top.name == "foreach" {
        var q := |targets|;
        targets := targets + [top.tokenIndex + 1];
        tokens := tokens + [IterationEnd(q)];
      }
      controlStack := controlStack[..|controlStack| - 1];
    }

    /** `{{else}}`, `{{elseif}}` and `{{elseif not}}` once the block has been checked to be an "if" block. */
    method ContinueIf(elseIf: Option<(PipeSource, bool)>)
      requires |controlStack| > 0 && Last(State()).token < |targets|
      requires Last(State()).tokenIf.Some? ==> Last(State()).tokenIf.value < |targets|
      modifies this
      ensures State() == Else(old(State()), elseIf)
    {
      var previous := controlStack[|controlStack| - 1];
      var n := |tokens|;
      var jump: nat;
      if previous.tokenIsJump {
        jump := previous.token;
      } else {
        jump := |targets|;
        targets := targets + [0];
      }
      var patched := if previous.tokenIf.Some? then previous.tokenIf.value else previous.token;
      targets := targets[patched := n + 1];
      tokens := tokens + [Branch(jump)];
      match elseIf
      case None =>
        controlStack := controlStack[..|controlStack| - 1] + [ControlInfo("if", n, jump, true, None)];
      case Some((p, negate)) =>
        var q := |targets|;
        targets := targets + [0];
        controlStack := controlStack[..|controlStack| - 1] + [ControlInfo("if", n, jump, true, Some(q))];
        tokens := tokens + [Condition(q, p, negate)];
    }

    /** The `switch` of `Parse` on one construct; `Assert` failing becomes the error returned. */
    method ConstructMatch(m: Constructs.Construct) returns (err: Option<CompileError>)
      requires m.index + m.length <= |inputString| && ControlSlots(State())
      modifies this
      ensures Outcome(err) == ConstructStep(inputString, old(State()), m)
    {
      var m1, m2 := m.keyword, m.body;
      err := None;
      if m1 == "!" {
      } else if m1 == "/" {
        if |controlStack| > 0 && m2 == controlStack[|controlStack| - 1].name {
          assert SlotsBelow(Last(State()), |targets|);
          CloseBlock();
        } else {
          err := Some(UnexpectedAt(inputString, m));
        }
      } else if m1 == "if" || m1 == "if not" {
        OpenIfBlock(PipeOf(m), m1 == "if not");
      } else if m1 == "else" || m1 == "elseif" || m1 == "elseif not" {
        if |controlStack| > 0 && controlStack[|controlStack| - 1].name == "if" {
          assert SlotsBelow(Last(State()), |targets|);
          ContinueIf(if m1 == "else" then None else Some((PipeOf(m), m1 == "elseif not")));
        } else {
          err := Some(UnexpectedAt(inputString, m));
        }
      } else if m1 == "foreach" {
        OpenForeachBlock(PipeOf(m));
      } else {
        Add(Evaluate(PipeOf(m), m1 == "&"));
      }
    }

    // -------------------------------------------------------------------
    // The whole template

    /** One round of `Parse`: the text before the construct `c`, then the construct. */
    method Round(from: nat, c: Constructs.Construct) returns (err: Option<CompileError>)
      requires from <= c.index && c.index + c.length <= |inputString| && CompileProps.Inv(State())
      modifies this
      ensures Outcome(err) == CompileProps.Round(inputString, from, old(State()), c, false)
    {
      ghost var st := State();
      if from != c.index {
        err := ParseTextContent(inputString[from..c.index]);
        if err.Some? {
          return;
        }
      }
      assert Ok(State()) == TextBefore(inputString, from, c.index, st, false);
      CompileProps.TextInv(st, State());
      err := ConstructMatch(c);
    }

    /**
     * `Parse`: the constructs from left to right, the text before each one
     * through `ParseTextContent`, and the text after the last one too.
     */
    method Parse() returns (err: Option<CompileError>)
      requires State() == Initial
      modifies this
      ensures Outcome(err) == CompileProps.Final(inputString)
    {
      var s := inputString;
      CompileProps.InitialInv();
      var lastIndex: nat := 0;
      var m := Constructs.NextConstruct(s, 0);
      while m.Some?
        invariant lastIndex <= |s| && CompileProps.Inv(State()) && m == Constructs.NextConstruct(s, lastIndex)
        invariant CompileProps.ParseFrom(s, lastIndex, State(), false) == CompileProps.Final(s)
        decreases |s| - lastIndex
      {
        var c := m.value;
        ghost var st := State();
        ParseRound(s, lastIndex, st, c);
        var next := c.index + c.length;
        err := Round(lastIndex, c);
        if err.Some? {
          ParseStop(s, c, Outcome(err));
          return;
        }
        ParseAdvance(s, c, next, Outcome(err));
        lastIndex := next;
        m := Constructs.NextConstruct(s, lastIndex);
      }
      ghost var st := State();
      RestOf(s, lastIndex, st);
      if lastIndex != |s| {
        err := ParseTextContent(s[lastIndex..|s|]);
      } else {
        err := None;
      }
      assert Outcome(err) == TextBefore(s, lastIndex, |s|, st, false);
    }
  }

  /** The markup loop at a position where the next match is `m` takes the round at `m`. */
  lemma TextLoopRound(st: CState, str: string, from: nat, m: HtmlScan.HtmlMatch)
    requires HtmlOk(st) && from <= |str| && HtmlScan.NextMatch(str, from) == Some(m)
    ensures from <= m.index && from < m.index + |HtmlScan.Value(m)| <= |str|
    ensures var st1 := TextUpTo(st, str, from, m.index);
      TextLoop(st, str, from, false) == TextLoopAt(st1, str, m, MatchStep(st1, m, false), false)
  {
    HtmlScan.MatchInside(str, from);
  }

  /** The round at `m` when the match step fails: its error is the loop's. */
  lemma TextStop(st1: CState, str: string, m: HtmlScan.HtmlMatch, r: Result<CState, CompileError>)
    requires m.index + |HtmlScan.Value(m)| <= |str| && r.Err?
    ensures TextLoopAt(st1, str, m, r, false) == r
  {
  }

  /** The round at `m` when the match step succeeds: the loop goes on from the step's state at `next`. */
  lemma TextAdvance(st1: CState, str: string, m: HtmlScan.HtmlMatch, next: nat, r: Result<CState, CompileError>)
    requires next == m.index + |HtmlScan.Value(m)| <= |str| && r.Ok? && TextStep(st1, r.value)
    ensures TextLoopAt(st1, str, m, r, false) == TextLoop(r.value, str, next, false)
  {
  }

  /** The loop at a position where the next construct match is `c` takes the round at `c`. */
  lemma ParseRound(s: string, from: nat, st: CState, c: Constructs.Construct)
    requires from <= |s| && CompileProps.Inv(st) && Constructs.NextConstruct(s, from) == Some(c)
    ensures from <= c.index && from < c.index + c.length <= |s|
    ensures CompileProps.ParseFrom(s, from, st, false) == CompileProps.ParseAt(s, c, CompileProps.Round(s, from, st, c, false), false)
  {
  }

  /** The round at `c` when it fails: its error is the loop's. */
  lemma ParseStop(s: string, c: Constructs.Construct, r: Result<CState, CompileError>)
    requires c.index + c.length <= |s| && r.Err?
    ensures CompileProps.ParseAt(s, c, r, false) == r
  {
  }

  /** The round at `c` when it succeeds: the loop goes on from the round's state after `c`. */
  lemma ParseAdvance(s: string, c: Constructs.Construct, next: nat, r: Result<CState, CompileError>)
    requires next == c.index + c.length <= |s| && r.Ok? && CompileProps.Inv(r.value)
    ensures CompileProps.ParseAt(s, c, r, false) == CompileProps.ParseFrom(s, next, r.value, false)
  {
  }

  /** Once no construct is left, the loop is the text after the last one. */
  lemma RestOf(s: string, from: nat, st: CState)
    requires from <= |s| && CompileProps.Inv(st) && Constructs.NextConstruct(s, from).None?
    ensures CompileProps.ParseFrom(s, from, st, false) == TextBefore(s, from, |s|, st, false)
  {
  }

  /**
   * The cache of `TokenList.FromString`: every template compiled without
   * error, by its text.
   */
  class TemplateCache {
    var entries: map<string, TokenList>

    /** Every cached token list was built from its own text and holds that text's compiled state. */
    ghost predicate Valid()
      reads this, entries.Values
    {
      forall s | s in entries :: entries[s].inputString == s && Ok(entries[s].State()) == CompileProps.Final(s)
    }

    constructor ()
      ensures entries == map[] && Valid()
    {
      entries := map[];
    }

    /**
     * `FromString(str)`: the cached token list when there is one; otherwise
     * a new one, which is cached when parsing succeeds. A parse error is
     * returned and nothing is cached.
     */
    method FromString(str: string) returns (r: Result<TokenList, CompileError>)
      requires Valid()
      modifies this
      ensures Valid()
      ensures r.Ok? ==> r.value.inputString == str && Ok(r.value.State()) == CompileProps.Final(str)
      ensures r.Err? ==> CompileProps.Final(str) == Err(r.error)
      ensures str in old(entries) ==> r == Ok(old(entries)[str]) && entries == old(entries)
      ensures str !in old(entries) && r.Ok? ==> fresh(r.value) && entries == old(entries)[str := r.value]
      ensures str !in old(entries) && r.Err? ==> entries == old(entries)
    {
      if str in entries {
        r := Ok(entries[str]);
      } else {
        var value := new TokenList(str);
        if value.failure.None? {
          entries := entries[str := value];
          r := Ok(value);
        } else {
          r := Err(value.failure.value);
        }
      }
    }
  }
}
