/**
 * What `EvaluationContext.Evaluate()` does with a compiled template, as a
 * machine over values: one `Step` per token, `Run` until the token cursor
 * passes the last token. The machine holds the loop's own variables (the
 * cursor, the output mode, the text built so far, the pending white space
 * and the last evaluated value) and the evaluation context's state (the
 * frames, the globals, the recorded errors and the run counter). Since a
 * template whose blocks are not closed can loop for ever, `Run` takes a
 * fuel bound and reports when it is used up.
 */
module RunSpec {
  import opened Wrappers
  import opened Values
  import opened Frames
  import opened Tokens
  import PipeSpec
  import Helper

  /** `OutputMode`: undecided until the first output when raw values may be returned; string once any text is written. */
  datatype OutputMode = Undecided | StringMode | RawValue

  /** What a run returns: the text built in string mode, otherwise the last value an evaluate token produced. */
  datatype Output = Text(text: string) | Raw(value: Value)

  /**
   * What the run takes from code this model does not contain: `Json.Stringify`,
   * and the text, trim-start and trim-end flags of a markup token, whose class
   * is not part of this model.
   */
  datatype Render = Render(stringify: Value -> string, markup: HtmlToken -> (string, bool, bool))

  /**
   * The interpreter's state: the token cursor `i`, the output mode, the
   * text so far, the pending white space (`None` for the source's null),
   * the last evaluated value, the frames top first, and the context's
   * globals, errors and run counter.
   */
  datatype Machine = Machine(pc: nat, mode: OutputMode, text: string, ws: Option<string>, result: Value,
                             frames: seq<Cursor>, globals: seq<(string, Value)>, errors: seq<PipeSpec.PipeError>, count: nat)

  /** How a run ends: it returns; or an iteration-end token pops the bottom frame; or the fuel runs out. */
  datatype Ending = Returned(out: Output) | PoppedLast | OutOfFuel

  /** The outcome of one step: go on, or the bottom frame was popped. */
  datatype Next = Go(m: Machine) | Underflow(m: Machine)

  /** A program the interpreter can run: every control token names a slot, every jump index is a position. */
  predicate Runnable(p: Program) {
    SlotsIn(p.tokens, p.targets) && NatTargets(p.targets)
  }

  /** The machine states the interpreter keeps: at least one frame, each in a frame state. */
  predicate Good(m: Machine) {
    |m.frames| >= 1 && (forall k :: 0 <= k < |m.frames| ==> CursorOk(m.frames[k]))
  }

  /**
   * `Pipe.Evaluate` as the loop calls it: a token's pipe and the context as
   * pipes see it, to the value and the context after. The machine is
   * stated for any evaluator; the interpreter runs `PipeSpec.EvaluatePipe`.
   */
  type PipeEvaluator = (PipeSource, PipeSpec.World) -> (Value, PipeSpec.World)

  /** What the frames show paths. */
  function CursorViews(fs: seq<Cursor>): (vs: seq<FrameView>)
    requires forall k :: 0 <= k < |fs| ==> CursorOk(fs[k])
    ensures |vs| == |fs| && forall k :: 0 <= k < |fs| ==> vs[k] == CursorView(fs[k])
  {
    ViewsUpTo(fs, |fs|)
  }

  /** What the first `n` frames show paths. */
  function ViewsUpTo(fs: seq<Cursor>, n: nat): (vs: seq<FrameView>)
    requires n <= |fs| && forall k :: 0 <= k < |fs| ==> CursorOk(fs[k])
    ensures |vs| == n && forall k :: 0 <= k < n ==> vs[k] == CursorView(fs[k])
  {
    if n == 0 then [] else ViewsUpTo(fs, n - 1) + [CursorView(fs[n - 1])]
  }

  /** The context as pipes see it. */
  function WorldOf(m: Machine): (w: PipeSpec.World)
    requires Good(m)
    ensures |w.frames| == |m.frames| && w.globals == m.globals && w.errors == m.errors && w.count == m.count
  {
    PipeSpec.World(CursorViews(m.frames), m.globals, m.errors, m.count)
  }

  /**
   * The state a run starts in: the cursor at the first token, undecided
   * mode only when raw values may be returned, no text, the pending white
   * space empty (so that leading white space is dropped), one frame over
   * the data, no errors.
   */
  function Start(data: Value, rawOutput: bool, globals: seq<(string, Value)>, count: nat): (m: Machine)
    requires count < 65536
    ensures Good(m) && m.pc == 0 && m.text == "" && m.errors == [] && |m.frames| == 1
    ensures m.mode == StringMode <==> !rawOutput
  {
    Machine(0, if rawOutput then Undecided else StringMode, "", Some(""), Undefined,
            [Cursor(data, false, -1)], globals, [], count)
  }

  /** `Pipe.Evaluate` of a token's pipe: the value, and the machine with the globals, errors and counter the pipe left. */
  function EvalPipe(pipes: PipeEvaluator, pipe: PipeSource, m: Machine): (r: (Value, Machine))
    requires Good(m)
    ensures Good(r.1) && r.1 == m.(globals := r.1.globals, errors := r.1.errors, count := r.1.count)
  {
    var w := pipes(pipe, WorldOf(m));
    (w.0, m.(globals := w.1.globals, errors := w.1.errors, count := w.1.count))
  }

  /** The pending white space as text; null writes nothing. */
  function Pending(ws: Option<string>): string {
    if ws.Some? then ws.value else ""
  }

  /** The text an evaluate token writes for a value: as is when a nested run happened or encoding is suppressed, otherwise HTML-escaped. */
  function Shown(render: Render, v: Value, suppress: bool, nested: bool): string {
    var s := Helper.DisplayString(v, Some(render.stringify));
    if nested || suppress then s else Helper.Escape(s, false)
  }

  /**
   * `OP_EVAL`, the cursor already past the token, given what its pipe
   * returned and left behind (`EvalPipe`): the value becomes the result; a
   * defined value decides the mode and is written after the pending white
   * space, escaped unless a nested run happened during the pipe or the
   * token suppresses encoding.
   */
  function EvalStep(render: Render, suppress: bool, m: Machine, w: (Value, Machine)): (r: Machine)
    requires Good(w.1)
    ensures Good(r) && r.pc == w.1.pc && r.frames == w.1.frames && r.result == w.0
  {
    var (v, m1) := w;
    if IsNullOrUndefined(v) then m1.(result := v)
    else
      m1.(result := v, mode := if m1.mode != Undecided then StringMode else RawValue,
          text := m1.text + Pending(m1.ws) + Shown(render, v, suppress, m1.count != m.count), ws := None)
  }

  /** `OP_ITER`, given what its pipe returned: a new frame over the value, moved once; past the loop when it has no element. */
  function IterStep(target: nat, w: (Value, Machine)): (r: Machine)
    requires Good(w.1)
    ensures Good(r) && |r.frames| == |w.1.frames| + 1 && r.frames[1..] == w.1.frames
    ensures r.mode == w.1.mode && r.text == w.1.text && r.ws == w.1.ws && r.result == w.1.result
  {
    var (v, m1) := w;
    var (moved, c) := MoveNextOf(Cursor(v, false, -1));
    m1.(frames := [c] + m1.frames, pc := if moved then m1.pc else target)
  }

  /** `OP_ITER_END`: the top frame moves on and the loop goes back, or the frame is popped. */
  function IterEndStep(target: nat, m: Machine): (r: Next)
    requires Good(m)
    ensures Good(r.m) && r.m == m.(frames := r.m.frames, pc := r.m.pc)
  {
    var (moved, c) := MoveNextOf(m.frames[0]);
    if moved then Go(m.(frames := [c] + m.frames[1..], pc := target))
    else if |m.frames| == 1 then Underflow(m.(frames := [c]))
    else Go(m.(frames := m.frames[1..]))
  }

  /** `OP_TEST`, given what its pipe returned: jump when the value's truth equals `negate`. */
  function TestStep(negate: bool, target: nat, w: (Value, Machine)): (r: Machine)
    requires Good(w.1)
    ensures Good(r) && r == w.1.(pc := r.pc)
  {
    var (v, m1) := w;
    if !Truthy(v) != negate then m1.(pc := target) else m1
  }

  /** `OP_SPACE`: one pending space, unless the pending white space is empty, which drops it. */
  function AfterSpace(ws: Option<string>): (r: Option<string>)
    ensures r == None || r == Some(" ")
  {
    if ws != Some("") then Some(" ") else None
  }

  /** An output token: the pending white space unless trimmed at the start, then the text; string mode; empty pending space after a trim at the end. */
  function Emit(m: Machine, value: string, trimStart: bool, trimEnd: bool): (r: Machine)
    ensures r.mode == StringMode && r.pc == m.pc && r.frames == m.frames && r.result == m.result && r.count == m.count
    ensures r.ws == (if trimEnd then Some("") else None)
  {
    m.(text := m.text + (if m.ws.Some? && !trimStart then m.ws.value else "") + value,
       mode := StringMode, ws := if trimEnd then Some("") else None)
  }

  /** One iteration of the loop of `Evaluate()`: take the token at the cursor, move past it, act on it. */
  function Step(pipes: PipeEvaluator, render: Render, p: Program, m: Machine): (r: Next)
    requires Runnable(p) && Good(m) && m.pc < |p.tokens|
    ensures Good(r.m)
  {
    var k := m.pc;
    var m0 := m.(pc := k + 1);
    match p.tokens[k]
    case Evaluate(pipe, suppress) => Go(EvalStep(render, suppress, m0, EvalPipe(pipes, pipe, m0)))
    case Iteration(slot, pipe) => Go(IterStep(p.targets[slot], EvalPipe(pipes, pipe, m0)))
    case IterationEnd(slot) => IterEndStep(p.targets[slot], m0)
    case Condition(slot, pipe, negate) => Go(TestStep(negate, p.targets[slot], EvalPipe(pipes, pipe, m0)))
    case Branch(slot) => Go(m0.(pc := p.targets[slot]))
    case Space => Go(m0.(ws := AfterSpace(m0.ws)))
    case Output(value, trimStart, trimEnd) => Go(Emit(m0, value, trimStart, trimEnd))
    case Html(h) =>
      var (value, trimStart, trimEnd) := render.markup(h);
      Go(Emit(m0, value, trimStart, trimEnd))
  }

  /** `Step` on an evaluate token: the pipe's value written by `EvalStep`. */
  lemma StepEvaluate(pipes: PipeEvaluator, render: Render, p: Program, m: Machine)
    requires Runnable(p) && Good(m) && m.pc < |p.tokens| && p.tokens[m.pc].Evaluate?
    ensures var t, m0 := p.tokens[m.pc], m.(pc := m.pc + 1);
      Step(pipes, render, p, m) == Go(EvalStep(render, t.suppressEncode, m0, EvalPipe(pipes, t.pipe, m0)))
  {
  }

  /** `Step` on a condition token: `TestStep` on the pipe's value. */
  lemma StepCondition(pipes: PipeEvaluator, render: Render, p: Program, m: Machine)
    requires Runnable(p) && Good(m) && m.pc < |p.tokens| && p.tokens[m.pc].Condition?
    ensures var t, m0 := p.tokens[m.pc], m.(pc := m.pc + 1);
      Step(pipes, render, p, m) == Go(TestStep(t.negate, p.targets[t.slot], EvalPipe(pipes, t.pipe, m0)))
  {
  }

  /** `Step` on each kind of token, the cursor moved past it. */
  lemma StepCases(pipes: PipeEvaluator, render: Render, p: Program, m: Machine)
    requires Runnable(p) && Good(m) && m.pc < |p.tokens|
    ensures var t, m0 := p.tokens[m.pc], m.(pc := m.pc + 1);
      var r := Step(pipes, render, p, m);
      && (t.Evaluate? ==> r == Go(EvalStep(render, t.suppressEncode, m0, EvalPipe(pipes, t.pipe, m0))))
      && (t.Iteration? ==> r == Go(IterStep(p.targets[t.slot], EvalPipe(pipes, t.pipe, m0))))
      && (t.IterationEnd? ==> r == IterEndStep(p.targets[t.slot], m0))
      && (t.Condition? ==> r == Go(TestStep(t.negate, p.targets[t.slot], EvalPipe(pipes, t.pipe, m0))))
      && (t.Branch? ==> r == Go(m0.(pc := p.targets[t.slot])))
      && (t.Space? ==> r == Go(m0.(ws := AfterSpace(m0.ws))))
      && (t.Output? ==> r == Go(Emit(m0, t.value, t.trimStart, t.trimEnd)))
      && (t.Html? ==> r == Go(Emit(m0, render.markup(t.html).0, render.markup(t.html).1, render.markup(t.html).2)))
  {
    var m0 := m.(pc := m.pc + 1);
    var r := Step(pipes, render, p, m);
    match p.tokens[m.pc]
    case Evaluate(pipe, suppress) => assert r == Go(EvalStep(render, suppress, m0, EvalPipe(pipes, pipe, m0)));
    case Iteration(slot, pipe) => assert r == Go(IterStep(p.targets[slot], EvalPipe(pipes, pipe, m0)));
    case IterationEnd(slot) => assert r == IterEndStep(p.targets[slot], m0);
    case Condition(slot, pipe, negate) => assert r == Go(TestStep(negate, p.targets[slot], EvalPipe(pipes, pipe, m0)));
    case Branch(slot) => assert r == Go(m0.(pc := p.targets[slot]));
    case Space => assert r == Go(m0.(ws := AfterSpace(m0.ws)));
    case Output(value, trimStart, trimEnd) => assert r == Go(Emit(m0, value, trimStart, trimEnd));
    case Html(h) => assert r == Go(Emit(m0, render.markup(h).0, render.markup(h).1, render.markup(h).2));
  }

  /** The `finally` block: a run that ended in string mode counts one more, kept to 16 bits (`& 0xFFFF`). */
  function Finish(m: Machine): (r: Machine)
    ensures r.count < 65536 && r == m.(count := r.count)
    ensures m.count < 65536 ==> r.count == if m.mode == StringMode then (m.count + 1) % 65536 else m.count
  {
    m.(count := (m.count + (if m.mode == StringMode then 1 else 0)) % 65536)
  }

  /** What a finished run returns: the text in string mode, otherwise the last value. */
  function OutputOf(m: Machine): Output {
    if m.mode == StringMode then Text(m.text) else Raw(m.result)
  }

  /** The run after one step. */
  function Continue(pipes: PipeEvaluator, render: Render, p: Program, n: Next, fuel: nat): (r: (Ending, Machine))
    requires Runnable(p) && Good(n.m)
    ensures Good(r.1)
    decreases fuel, 2
  {
    match n
    case Go(m) => Run(pipes, render, p, m, fuel)
    case Underflow(m) => (PoppedLast, Finish(m))
  }

  /** The loop of `Evaluate()` with at most `fuel` steps, then the `finally` block. */
  function Run(pipes: PipeEvaluator, render: Render, p: Program, m: Machine, fuel: nat): (r: (Ending, Machine))
    requires Runnable(p) && Good(m)
    ensures Good(r.1)
    decreases fuel, 1
  {
    if m.pc >= |p.tokens| then (Returned(OutputOf(m)), Finish(m))
    else if fuel == 0 then (OutOfFuel, m)
    else Continue(pipes, render, p, Step(pipes, render, p, m), fuel - 1)
  }
}
