/**
 * What the interpreter loop guarantees, stated on `RunSpec.Run`: how
 * condition tokens jump, what an evaluate token writes, how runs of spaces
 * collapse, that string mode is never left, that a template without
 * loops always finishes, and that a loop over nothing skips its body.
 */
module RunProps {
  import opened Wrappers
  import opened Values
  import opened Frames
  import opened Tokens
  import opened RunSpec
  import CompileProps

  /** Only iteration and iteration-end tokens touch the frames; every other token goes on with the same frames. */
  lemma FramesKept(pipes: PipeEvaluator, render: Render, p: Program, m: Machine)
    requires Runnable(p) && Good(m) && m.pc < |p.tokens|
    requires !p.tokens[m.pc].Iteration? && !p.tokens[m.pc].IterationEnd?
    ensures Step(pipes, render, p, m).Go? && Step(pipes, render, p, m).m.frames == m.frames
  {
  }

  /**
   * A condition token jumps to its index exactly when the truth of its
   * pipe's value equals its `negate` flag, and otherwise goes on to the
   * next token.
   */
  lemma ConditionJumps(pipes: PipeEvaluator, render: Render, p: Program, m: Machine)
    requires Runnable(p) && Good(m) && m.pc < |p.tokens| && p.tokens[m.pc].Condition?
    ensures var t := p.tokens[m.pc];
      var v := EvalPipe(pipes, t.pipe, m.(pc := m.pc + 1)).0;
      var r := Step(pipes, render, p, m);
      r.Go? && r.m.pc == (if Truthy(v) == t.negate then p.targets[t.slot] else m.pc + 1)
      && r.m.text == m.text && r.m.ws == m.ws && r.m.mode == m.mode
  {
  }

  /** An evaluate token whose value is null or undefined writes nothing and leaves the mode and the pending space alone. */
  lemma NullWritesNothing(pipes: PipeEvaluator, render: Render, p: Program, m: Machine)
    requires Runnable(p) && Good(m) && m.pc < |p.tokens| && p.tokens[m.pc].Evaluate?
    requires IsNullOrUndefined(EvalPipe(pipes, p.tokens[m.pc].pipe, m.(pc := m.pc + 1)).0)
    ensures var r := Step(pipes, render, p, m);
      r.Go? && r.m.pc == m.pc + 1 && r.m.text == m.text && r.m.mode == m.mode && r.m.ws == m.ws
      && IsNullOrUndefined(r.m.result)
  {
    StepCases(pipes, render, p, m);
  }

  /**
   * An evaluate token with a value, not marked to suppress encoding and
   * whose pipe ran no nested template, writes the pending white space and
   * then text without any `<`, `>`, `"` or `'`; nothing is pending after it
   * and the mode is decided.
   */
  lemma EscapedOutput(pipes: PipeEvaluator, render: Render, p: Program, m: Machine)
    requires Runnable(p) && Good(m) && m.pc < |p.tokens| && p.tokens[m.pc].Evaluate?
    requires !p.tokens[m.pc].suppressEncode
    requires var w := EvalPipe(pipes, p.tokens[m.pc].pipe, m.(pc := m.pc + 1));
      !IsNullOrUndefined(w.0) && w.1.count == m.count
    ensures var r := Step(pipes, render, p, m);
      r.Go? && r.m.ws.None? && r.m.mode != Undecided
      && (exists s: string :: r.m.text == m.text + Pending(m.ws) + s
            && forall k :: 0 <= k < |s| ==> s[k] != '<' && s[k] != '>' && s[k] != '"' && s[k] != '\'')
  {
    var t := p.tokens[m.pc];
    var w := EvalPipe(pipes, t.pipe, m.(pc := m.pc + 1));
    var s := Shown(render, w.0, false, false);
    assert Step(pipes, render, p, m).m.text == m.text + Pending(m.ws) + s;
  }

  /** One step that goes on: the run goes on from the new state with one step less. */
  lemma RunGo(pipes: PipeEvaluator, render: Render, p: Program, m: Machine, m': Machine, fuel: nat)
    requires Runnable(p) && Good(m) && m.pc < |p.tokens| && fuel > 0 && Step(pipes, render, p, m) == Go(m')
    ensures Good(m') && Run(pipes, render, p, m, fuel) == Run(pipes, render, p, m', fuel - 1)
  {
  }

  /** A space token only moves the cursor and updates the pending white space. */
  lemma SpaceStep(pipes: PipeEvaluator, render: Render, p: Program, m: Machine)
    requires Runnable(p) && Good(m) && m.pc < |p.tokens| && p.tokens[m.pc].Space?
    ensures Step(pipes, render, p, m) == Go(m.(pc := m.pc + 1, ws := AfterSpace(m.ws)))
  {
    StepCases(pipes, render, p, m);
  }

  /** A run from a space token goes on from the state after it with one step less. */
  lemma SpaceRun(pipes: PipeEvaluator, render: Render, p: Program, m: Machine, fuel: nat)
    requires Runnable(p) && Good(m) && m.pc < |p.tokens| && p.tokens[m.pc].Space? && fuel > 0
    ensures Run(pipes, render, p, m, fuel) == Run(pipes, render, p, m.(pc := m.pc + 1, ws := AfterSpace(m.ws)), fuel - 1)
  {
    SpaceStep(pipes, render, p, m);
    RunGo(pipes, render, p, m, m.(pc := m.pc + 1, ws := AfterSpace(m.ws)), fuel);
  }

  /** The pending white space after `k` space tokens. */
  function SpacesAfter(ws: Option<string>, k: nat): (r: Option<string>)
    ensures k >= 2 ==> r == Some(" ")
    ensures k >= 1 && ws != Some("") ==> r == Some(" ")
  {
    if k == 0 then ws else if k == 1 then AfterSpace(ws) else Some(" ")
  }

  /**
   * A run of `k` space tokens writes nothing: it only moves the cursor and
   * leaves at most one pending space, exactly one after two or more
   * spaces or after any space not following a trim.
   */
  lemma {:induction false} SpacesCollapse(pipes: PipeEvaluator, render: Render, p: Program, m: Machine, k: nat, fuel: nat)
    requires Runnable(p) && Good(m) && m.pc + k <= |p.tokens|
    requires forall j :: m.pc <= j < m.pc + k ==> p.tokens[j].Space?
    ensures Run(pipes, render, p, m, fuel + k) == Run(pipes, render, p, m.(pc := m.pc + k, ws := SpacesAfter(m.ws, k)), fuel)
    decreases k
  {
    if k > 0 {
      var m1 := m.(pc := m.pc + 1, ws := AfterSpace(m.ws));
      SpaceRun(pipes, render, p, m, fuel + k);
      SpacesCollapse(pipes, render, p, m1, k - 1, fuel);
      SpacesShift(m, k);
    }
  }

  /** `k` spaces from a machine are the first space, then `k - 1` more. */
  lemma SpacesShift(m: Machine, k: nat)
    requires k > 0
    ensures var m1 := m.(pc := m.pc + 1, ws := AfterSpace(m.ws));
      m1.(pc := m1.pc + (k - 1), ws := SpacesAfter(m1.ws, k - 1)) == m.(pc := m.pc + k, ws := SpacesAfter(m.ws, k))
  {
    assert SpacesAfter(AfterSpace(m.ws), k - 1) == SpacesAfter(m.ws, k);
  }

  /** Once text has been written the mode stays string. */
  lemma StepKeepsStringMode(pipes: PipeEvaluator, render: Render, p: Program, m: Machine)
    requires Runnable(p) && Good(m) && m.pc < |p.tokens| && m.mode == StringMode
    ensures Step(pipes, render, p, m).m.mode == StringMode
  {
    StepCases(pipes, render, p, m);
  }

  /**
   * A run in string mode ends in string mode: what it returns is the text
   * built, and the `finally` block counts it.
   */
  lemma {:induction false} StringModeStays(pipes: PipeEvaluator, render: Render, p: Program, m: Machine, fuel: nat)
    requires Runnable(p) && Good(m) && m.mode == StringMode
    ensures var r := Run(pipes, render, p, m, fuel);
      r.1.mode == StringMode
    ensures var r := Run(pipes, render, p, m, fuel);
      r.0.Returned? ==> r.0.out == Text(r.1.text)
    decreases fuel
  {
    if m.pc < |p.tokens| && fuel > 0 {
      StepKeepsStringMode(pipes, render, p, m);
      var n := Step(pipes, render, p, m);
      if n.Go? {
        StringModeStays(pipes, render, p, n.m, fuel - 1);
      }
    }
  }

  /** Without iteration-end tokens and with every jump forward, each step moves the cursor forward, to the end at most. */
  lemma StepForward(pipes: PipeEvaluator, render: Render, p: Program, m: Machine)
    requires Runnable(p) && Good(m) && m.pc < |p.tokens| && JumpsForward(p)
    requires !p.tokens[m.pc].IterationEnd?
    ensures var n := Step(pipes, render, p, m); n.Go? && m.pc < n.m.pc <= |p.tokens|
  {
    assert IsForward(p.tokens[m.pc]) ==> m.pc < Target(p, m.pc) <= |p.tokens|;
  }

  /** No iteration-end token among the tokens. */
  predicate LoopFree(p: Program) {
    forall k :: 0 <= k < |p.tokens| ==> !p.tokens[k].IterationEnd?
  }

  /**
   * A program without loops whose jumps all go forward finishes within as
   * many steps as it has tokens left: it returns, never runs out of fuel.
   */
  lemma {:induction false} ForwardProgramsFinish(pipes: PipeEvaluator, render: Render, p: Program, m: Machine, fuel: nat)
    requires Runnable(p) && Good(m) && JumpsForward(p) && LoopFree(p)
    requires m.pc + fuel >= |p.tokens|
    ensures Run(pipes, render, p, m, fuel).0.Returned?
    decreases fuel
  {
    if m.pc < |p.tokens| {
      StepForward(pipes, render, p, m);
      var n := Step(pipes, render, p, m);
      ForwardProgramsFinish(pipes, render, p, n.m, fuel - 1);
    }
  }

  /**
   * A template that compiles with every block closed and no `foreach`
   * returns when run from the start with one step per token.
   */
  lemma ClosedTemplatesFinish(pipes: PipeEvaluator, render: Render, s: string, data: Value, rawOutput: bool,
                              globals: seq<(string, Value)>, count: nat)
    requires CompileProps.Final(s).Ok? && CompileProps.Final(s).value.control == [] && count < 65536
    requires LoopFree(CompileProps.Compile(s).value)
    ensures var p := CompileProps.Compile(s).value;
      Runnable(p) && Run(pipes, render, p, Start(data, rawOutput, globals, count), |p.tokens|).0.Returned?
  {
    var p := CompileProps.Compile(s).value;
    CompileProps.ClosedTemplateJumpsForward(s);
    ForwardProgramsFinish(pipes, render, p, Start(data, rawOutput, globals, count), |p.tokens|);
  }

  /**
   * A `foreach` over a value without elements pushes a frame, jumps to its
   * iteration-end token, which pops that frame again and goes on after it:
   * two steps, the body skipped, nothing written.
   */
  lemma EmptyLoopSkipped(pipes: PipeEvaluator, render: Render, p: Program, m: Machine, fuel: nat)
    requires Runnable(p) && Good(m) && m.pc < |p.tokens| && p.tokens[m.pc].Iteration?
    requires var t := p.tokens[m.pc];
      var e := p.targets[t.slot];
      e < |p.tokens| && p.tokens[e].IterationEnd?
    requires !MoveNextOf(Cursor(EvalPipe(pipes, p.tokens[m.pc].pipe, m.(pc := m.pc + 1)).0, false, -1)).0
    ensures var t := p.tokens[m.pc];
      var m1 := EvalPipe(pipes, t.pipe, m.(pc := m.pc + 1)).1;
      Good(m1) && Run(pipes, render, p, m, fuel + 2) == Run(pipes, render, p, m1.(pc := p.targets[t.slot] + 1), fuel)
  {
    var t := p.tokens[m.pc];
    var m1 := EvalPipe(pipes, t.pipe, m.(pc := m.pc + 1)).1;
    var m2 := EmptyLoopSteps(pipes, render, p, m);
    RunTwo(pipes, render, p, m, m2, m1.(pc := p.targets[t.slot] + 1), fuel);
  }

  /** The two steps of a loop over nothing: the iteration token pushes an exhausted frame and jumps, its iteration-end token pops it. */
  lemma EmptyLoopSteps(pipes: PipeEvaluator, render: Render, p: Program, m: Machine) returns (m2: Machine)
    requires Runnable(p) && Good(m) && m.pc < |p.tokens| && p.tokens[m.pc].Iteration?
    requires var t := p.tokens[m.pc];
      var e := p.targets[t.slot];
      e < |p.tokens| && p.tokens[e].IterationEnd?
    requires !MoveNextOf(Cursor(EvalPipe(pipes, p.tokens[m.pc].pipe, m.(pc := m.pc + 1)).0, false, -1)).0
    ensures var t := p.tokens[m.pc];
      var m1 := EvalPipe(pipes, t.pipe, m.(pc := m.pc + 1)).1;
      Good(m2) && m2.pc < |p.tokens| && Step(pipes, render, p, m) == Go(m2)
      && Step(pipes, render, p, m2) == Go(m1.(pc := p.targets[t.slot] + 1))
  {
    var t := p.tokens[m.pc];
    var e := p.targets[t.slot];
    var w := EvalPipe(pipes, t.pipe, m.(pc := m.pc + 1));
    var c := MoveNextOf(Cursor(w.0, false, -1)).1;
    m2 := w.1.(frames := [c] + w.1.frames, pc := e);
    StepCases(pipes, render, p, m);
    assert IterStep(e, w) == m2;
    assert !MoveNextOf(c).0;
    StepCases(pipes, render, p, m2);
    assert IterEndStep(e, m2.(pc := e + 1)) == Go(w.1.(pc := e + 1));
  }

  /** Two steps that go on: the run goes on from the state after them with two steps less. */
  lemma RunTwo(pipes: PipeEvaluator, render: Render, p: Program, m: Machine, m2: Machine, m3: Machine, fuel: nat)
    requires Runnable(p) && Good(m) && m.pc < |p.tokens| && Step(pipes, render, p, m) == Go(m2)
    requires Good(m2) && m2.pc < |p.tokens| && Step(pipes, render, p, m2) == Go(m3)
    ensures Good(m3) && Run(pipes, render, p, m, fuel + 2) == Run(pipes, render, p, m3, fuel)
  {
    RunGo(pipes, render, p, m, m2, fuel + 2);
    RunGo(pipes, render, p, m2, m3, fuel + 1);
  }
}
