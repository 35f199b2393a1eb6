/**
 * The instruction set the compiler emits and the interpreter runs.
 *
 * A control token (jump, condition, iteration, end of iteration) carries a
 * settable jump index. Since the compiler patches those indices after the
 * tokens are in the list, and since one jump token object can sit in the
 * list several times, a control token here names a SLOT of the program's
 * target array: tokens that share a slot share their index, and patching
 * the slot patches them all.
 */
module Tokens {
  import opened Wrappers
  import PipeViews

  /** `TokenType`: the tag each instruction reports. */
  datatype TokenType = OpEval | OpTest | OpIterEnd | OpIter | OpJump | OpText | OpSpace

  /** The numeric value of each tag. */
  function Code(t: TokenType): (n: int)
    ensures 1 <= n <= 7
  {
    match t
    case OpEval => 1
    case OpTest => 2
    case OpIterEnd => 3
    case OpIter => 4
    case OpJump => 5
    case OpText => 6
    case OpSpace => 7
  }

  /** No two tags share a value. */
  lemma CodesDistinct(t: TokenType, u: TokenType)
    ensures Code(t) == Code(u) ==> t == u
  {
  }

  /** The pipe a token evaluates: its text and the offset of that text in the template. */
  datatype PipeSource = PipeSource(text: string, offset: int)

  /** The pipe object `new Pipe(text, offset)` builds, as the evaluator reads it. */
  function View(p: PipeSource): (v: PipeViews.PipeView)
    ensures v.startIndex == p.offset && v.endIndex == p.offset + |p.text|
    ensures PipeViews.Nested(v.args) && PipeViews.Inside(v.args, 0, |v.args| - 1)
  {
    PipeViews.TextViewNested(p.text, p.offset);
    PipeViews.ViewOfText(p.text, p.offset)
  }

  /**
   * The markup tokens the text-content splitter emits. Their class is not
   * part of this model; this record keeps only the fields the splitter reads
   * and writes.
   */
  datatype HtmlKind = ElementStart | ElementEnd | AttrStart | AttrEnd | TextContent

  datatype HtmlToken = HtmlToken(
    kind: HtmlKind,
    tagName: Option<string>,
    tagOpened: bool,
    attributeName: Option<string>,
    text: Option<string>,
    offsets: seq<nat>,
    attributes: seq<(string, nat)>,  // attribute name, position of its token
    value: Option<string>,
    index: Option<nat>)

  /** A fresh markup token of the given kind; fields not given are unset. */
  function NewHtml(kind: HtmlKind, tagName: Option<string>, attributeName: Option<string>, text: Option<string>): (h: HtmlToken)
    ensures h.kind == kind && h.tagName == tagName && h.attributeName == attributeName && h.text == text
    ensures !h.tagOpened && h.offsets == [] && h.attributes == [] && h.value.None? && h.index.None?
  {
    HtmlToken(kind, tagName, false, attributeName, text, [], [], None, None)
  }

  datatype Token =
    | Branch(slot: nat)
    | Condition(slot: nat, pipe: PipeSource, negate: bool)
    | Iteration(slot: nat, pipe: PipeSource)
    | IterationEnd(slot: nat)
    | Evaluate(pipe: PipeSource, suppressEncode: bool)
    | Space
    | Output(value: string, trimStart: bool, trimEnd: bool)
    | Html(html: HtmlToken)

  /** Control tokens: the ones with a jump index. */
  predicate IsControl(t: Token) {
    t.Branch? || t.Condition? || t.Iteration? || t.IterationEnd?
  }

  /** Control tokens that jump forward when they jump at all. */
  predicate IsForward(t: Token) {
    t.Branch? || t.Condition? || t.Iteration?
  }

  /**
   * The `Type` of each token; markup tokens report a tag of their own class,
   * which is not part of this model.
   */
  function Type(t: Token): (r: Option<TokenType>)
    ensures r == Some(OpJump) <==> t.Branch?
    ensures r == Some(OpTest) <==> t.Condition?
    ensures r == Some(OpIter) <==> t.Iteration?
    ensures r == Some(OpIterEnd) <==> t.IterationEnd?
    ensures r == Some(OpEval) <==> t.Evaluate?
    ensures r == Some(OpSpace) <==> t.Space?
    ensures r == Some(OpText) <==> t.Output?
    ensures r.None? <==> t.Html?
  {
    match t
    case Branch(_) => Some(OpJump)
    case Condition(_, _, _) => Some(OpTest)
    case Iteration(_, _) => Some(OpIter)
    case IterationEnd(_) => Some(OpIterEnd)
    case Evaluate(_, _) => Some(OpEval)
    case Space => Some(OpSpace)
    case Output(_, _, _) => Some(OpText)
    case Html(_) => None
  }

  /** `OutputTokenBase.Value`: a space token always reads `" "`. */
  function TextValue(t: Token): (r: string)
    requires t.Space? || t.Output?
    ensures t.Space? ==> r == " "
  {
    if t.Space? then " " else t.value
  }

  /** Assigning `Value`: an output token takes the text, a space token ignores it. */
  function WithTextValue(t: Token, v: string): (r: Token)
    requires t.Space? || t.Output?
    ensures r.Space? == t.Space? && (r.Space? || r.Output?)
    ensures TextValue(r) == (if t.Space? then " " else v)
    ensures r.Output? ==> r.trimStart == t.trimStart && r.trimEnd == t.trimEnd
  {
    if t.Space? then t else t.(value := v)
  }

  /** A compiled template: the tokens and the jump index of each slot. */
  datatype Program = Program(tokens: seq<Token>, targets: seq<int>)

  /** Every control token names a slot of the program. */
  predicate SlotsIn(tokens: seq<Token>, targets: seq<int>) {
    forall k :: 0 <= k < |tokens| && IsControl(tokens[k]) ==> tokens[k].slot < |targets|
  }

  /** Every jump index is a token position or 0, never negative. */
  predicate NatTargets(targets: seq<int>) {
    forall q :: 0 <= q < |targets| ==> targets[q] >= 0
  }

  /** The jump index of the control token at `k`. */
  function Target(p: Program, k: nat): int
    requires k < |p.tokens| && IsControl(p.tokens[k]) && SlotsIn(p.tokens, p.targets)
  {
    p.targets[p.tokens[k].slot]
  }

  /** Every jump, condition and iteration token jumps strictly forward, at most to the end of the program. */
  predicate JumpsForward(p: Program)
    requires SlotsIn(p.tokens, p.targets)
  {
    forall k: nat :: k < |p.tokens| && IsForward(p.tokens[k]) ==> k < Target(p, k) <= |p.tokens|
  }

  /**
   * Every iteration-end token jumps back to the token right after an
   * earlier iteration token, whose own jump lands on this iteration-end token.
   */
  predicate LoopsPaired(p: Program)
    requires SlotsIn(p.tokens, p.targets)
  {
    forall k: nat :: k < |p.tokens| && p.tokens[k].IterationEnd? ==>
      var j := Target(p, k) - 1;
      0 <= j < k && p.tokens[j].Iteration? && Target(p, j) == k
  }
}
