/**
 * `EvaluationContext.Evaluate()` as the source writes it: a `while` loop
 * over the tokens that moves the cursor, pushes, moves and pops frames of
 * the context's object stack, lets pipes update the context, and builds the
 * output text. Each step is proved to do what `RunSpec.Step` says, so the
 * whole loop ends where `RunSpec.Run` ends.
 */
module Interpreter {
  import opened Wrappers
  import opened Values
  import opened Frames
  import opened Tokens
  import opened RunSpec
  import PathEvaluation
  import PipeSpec
  import PipeViews
  import Contexts
  import PipeContexts
  import Compiler
  import Globals
  import Registry
  import StdIO
  import Helper
  import BuiltIns
  import CompileSpec
  import CompileProps

  /** The states of the frames, top first. */
  function Cursors(stack: seq<EvaluationStack>): (cs: seq<Cursor>)
    reads stack
    ensures |cs| == |stack| && forall k :: 0 <= k < |stack| ==> cs[k] == stack[k].State()
    decreases |stack|
  {
    if stack == [] then [] else [stack[0].State()] + Cursors(stack[1..])
  }

  /** The states of a frame pushed onto others. */
  lemma CursorsCons(frame: EvaluationStack, below: seq<EvaluationStack>)
    ensures Cursors([frame] + below) == [frame.State()] + Cursors(below)
  {
    assert ([frame] + below)[1..] == below;
  }

  /** Frames in a frame state have cursors in a cursor state. */
  lemma CursorsOk(stack: seq<EvaluationStack>)
    ensures PathEvaluation.FramesValid(stack) ==> forall k :: 0 <= k < |stack| ==> CursorOk(Cursors(stack)[k])
  {
    if PathEvaluation.FramesValid(stack) {
      forall k | 0 <= k < |stack|
        ensures CursorOk(Cursors(stack)[k])
      {
        assert stack[k] in stack;
      }
    }
  }

  /** No frame object sits twice on the stack. */
  predicate Apart(stack: seq<EvaluationStack>) {
    forall i, j :: 0 <= i < j < |stack| ==> stack[i] != stack[j]
  }

  /** A frame not on the stack can be pushed onto it. */
  lemma ApartCons(frame: EvaluationStack, below: seq<EvaluationStack>)
    requires frame !in below && Apart(below)
    ensures Apart([frame] + below)
  {
    forall i, j | 0 <= i < j < |[frame] + below|
      ensures ([frame] + below)[i] != ([frame] + below)[j]
    {
      if i == 0 {
        assert ([frame] + below)[j] == below[j - 1];
      }
    }
  }

  /** Dropping the top frame keeps the others apart. */
  lemma ApartTail(stack: seq<EvaluationStack>)
    requires |stack| >= 1 && Apart(stack)
    ensures Apart(stack[1..])
  {
    forall i, j | 0 <= i < j < |stack| - 1
      ensures stack[1..][i] != stack[1..][j]
    {
      assert stack[1..][i] == stack[i + 1] && stack[1..][j] == stack[j + 1];
    }
  }

  /** The interpreter's locals together with the context's state. */
  ghost function MachineOf(context: Contexts.EvaluationContext, pc: nat, mode: OutputMode, text: string,
                           ws: Option<string>, result: Value): (m: Machine)
    reads context, context.stack, context.globals
    ensures context.Valid() ==> Good(m)
  {
    CursorsOk(context.stack);
    Machine(pc, mode, text, ws, result, Cursors(context.stack), context.globals.entries, context.exceptions, context.evalCount)
  }

  /** A valid context is a good machine, and pipes see the same state through either. */
  lemma WorldOfContext(context: Contexts.EvaluationContext, pc: nat, mode: OutputMode, text: string,
                       ws: Option<string>, result: Value)
    requires context.Valid()
    ensures Good(MachineOf(context, pc, mode, text, ws, result))
    ensures WorldOf(MachineOf(context, pc, mode, text, ws, result)) == context.World()
  {
    var stack := context.stack;
    forall k | 0 <= k < |stack|
      ensures CursorOk(stack[k].State()) && stack[k].View() == CursorView(stack[k].State())
    {
      assert stack[k] in stack;
      ViewOfState(stack[k]);
    }
    var cs := Cursors(stack);
    assert CursorViews(cs) == Contexts.Views(stack);
  }

  /** `et.Expression.Evaluate(this)` for a token's pipe. */
  method RunPipe(context: Contexts.EvaluationContext, pipe: PipeSource) returns (v: Value)
    requires context.Valid()
    modifies context, context.globals
    ensures context.Valid() && context.stack == old(context.stack)
    ensures (v, context.World()) == PipeSpec.EvaluatePipe(context.Env(), View(pipe), old(context.World()))
  {
    v := PipeContexts.EvaluatePipe(context, View(pipe));
  }

  /**
   * The evaluator the loop runs: `PipeSpec.EvaluatePipe` under the context's
   * environment. A context always holds a frame, so the second branch is
   * never taken from a good machine.
   */
  function Evaluator(env: PipeSpec.Env): PipeEvaluator {
    (pipe: PipeSource, w: PipeSpec.World) =>
      if |w.frames| >= 1 then PipeSpec.EvaluatePipe(env, View(pipe), w) else (Undefined, w)
  }

  /** A pipe leaves the frames and the locals as they were, and the rest of the machine as `EvalPipe` says. */
  lemma PipeMachine(context: Contexts.EvaluationContext, pipe: PipeSource, v: Value, m: Machine, pc: nat, mode: OutputMode,
                    text: string, ws: Option<string>, result: Value)
    requires context.Valid() && Good(m) && Cursors(context.stack) == m.frames
    requires m.pc == pc && m.mode == mode && m.text == text && m.ws == ws && m.result == result
    requires (v, context.World()) == PipeSpec.EvaluatePipe(context.Env(), View(pipe), WorldOf(m))
    ensures EvalPipe(Evaluator(context.Env()), pipe, m) == (v, MachineOf(context, pc, mode, text, ws, result))
  {
  }

  /**
   * What `OP_EVAL` does with the value once the pipe has run: a defined
   * value decides the mode, the pending white space is written and
   * cleared, then the value's text, escaped unless `nested` (a run
   * happened during the pipe) or encoding is suppressed.
   */
  method WriteValue(render: Render, v: Value, suppress: bool, nested: bool, mode: OutputMode, sb: string, ws: Option<string>)
      returns (mode': OutputMode, sb': string, ws': Option<string>)
    ensures IsNullOrUndefined(v) ==> mode' == mode && sb' == sb && ws' == ws
    ensures !IsNullOrUndefined(v) ==> mode' == (if mode != Undecided then StringMode else RawValue) && ws' == None
    ensures !IsNullOrUndefined(v) ==> sb' == sb + Pending(ws) + Shown(render, v, suppress, nested)
  {
    mode', sb', ws' := mode, sb, ws;
    if !IsNullOrUndefined(v) {
      mode' := if mode != Undecided then StringMode else RawValue;
      if ws.Some? {
        sb' := sb' + ws.value;
      }
      ws' := None;
      var str := Helper.DisplayString(v, Some(render.stringify));
      if nested || suppress {
        sb' := sb' + str;
      } else {
        sb' := sb' + Helper.Escape(str, false);
      }
    }
  }

  /** The machine after an evaluate token, from the machine the pipe left and the locals `WriteValue` computed. */
  lemma EvaluatedMachine(render: Render, suppress: bool, m: Machine, v: Value, m1: Machine,
                         mode': OutputMode, sb': string, ws': Option<string>)
    requires Good(m1)
    requires IsNullOrUndefined(v) ==> mode' == m1.mode && sb' == m1.text && ws' == m1.ws
    requires !IsNullOrUndefined(v) ==> mode' == (if m1.mode != Undecided then StringMode else RawValue) && ws' == None
    requires !IsNullOrUndefined(v) ==> sb' == m1.text + Pending(m1.ws) + Shown(render, v, suppress, m1.count != m.count)
    ensures EvalStep(render, suppress, m, (v, m1)) == m1.(mode := mode', text := sb', ws := ws', result := v)
  {
  }

  /** `OP_EVAL`: evaluate the token's pipe, then write the value. */
  method EvaluateToken(context: Contexts.EvaluationContext, render: Render, pipe: PipeSource, suppress: bool,
                       pc: nat, mode: OutputMode, sb: string, ws: Option<string>, result: Value)
      returns (mode': OutputMode, sb': string, ws': Option<string>, result': Value)
    requires context.Valid()
    modifies context, context.globals
    ensures context.Valid() && context.stack == old(context.stack)
    ensures Good(old(MachineOf(context, pc, mode, sb, ws, result)))
    ensures MachineOf(context, pc, mode', sb', ws', result')
         == EvalStep(render, suppress, old(MachineOf(context, pc, mode, sb, ws, result)),
                     EvalPipe(Evaluator(context.Env()), pipe, old(MachineOf(context, pc, mode, sb, ws, result))))
  {
    ghost var m := MachineOf(context, pc, mode, sb, ws, result);
    WorldOfContext(context, pc, mode, sb, ws, result);
    var prevCount := context.evalCount;
    result' := RunPipe(context, pipe);
    PipeMachine(context, pipe, result', m, pc, mode, sb, ws, result);
    ghost var m1 := MachineOf(context, pc, mode, sb, ws, result);
    var nested := context.evalCount != prevCount;
    mode', sb', ws' := WriteValue(render, result', suppress, nested, mode, sb, ws);
    EvaluatedMachine(render, suppress, m, result', m1, mode', sb', ws');
  }

  /** `objStack.Peek().MoveNext()`: the top frame moves, the frames below keep their states. */
  method MoveTop(context: Contexts.EvaluationContext) returns (moved: bool)
    requires context.Valid() && Apart(context.stack)
    modifies context.stack[0]
    ensures context.Valid() && CursorOk(old(Cursors(context.stack))[0])
    ensures (moved, Cursors(context.stack)[0]) == MoveNextOf(old(Cursors(context.stack))[0])
    ensures Cursors(context.stack)[1..] == old(Cursors(context.stack))[1..]
  {
    CursorsOk(context.stack);
    var top := context.stack[0];
    ghost var below := context.stack[1..];
    ghost var cs := Cursors(below);
    assert context.stack == [top] + below;
    assert top !in below;
    CursorsCons(top, below);
    moved := top.MoveNext();
    assert Cursors(below) == cs;
    CursorsCons(top, below);
    forall f | f in context.stack
      ensures f.Valid()
    {
      if f != top {
        assert f in below;
      }
    }
  }

  /** `objStack.Push(new EvaluationStack(v))`: a fresh frame over `v` on top of the others. */
  method PushFrame(context: Contexts.EvaluationContext, v: Value)
    requires context.Valid() && Apart(context.stack)
    modifies context
    ensures context.Valid() && Apart(context.stack)
    ensures |context.stack| == |old(context.stack)| + 1 && context.stack[1..] == old(context.stack) && fresh(context.stack[0])
    ensures context.exceptions == old(context.exceptions) && context.evalCount == old(context.evalCount)
    ensures Cursors(context.stack) == [Cursor(v, false, -1)] + old(Cursors(context.stack))
  {
    ghost var below := context.stack;
    ghost var cs := Cursors(below);
    var frame := new EvaluationStack(v);
    assert Cursors(below) == cs;
    context.stack := [frame] + context.stack;
    assert frame !in below;
    ApartCons(frame, below);
    CursorsCons(frame, below);
  }

  /** A new frame over `v` pushed, then its first `MoveNext`. */
  method PushAndMove(context: Contexts.EvaluationContext, v: Value) returns (moved: bool)
    requires context.Valid() && Apart(context.stack)
    modifies context
    ensures context.Valid() && Apart(context.stack)
    ensures |context.stack| == |old(context.stack)| + 1 && context.stack[1..] == old(context.stack) && fresh(context.stack[0])
    ensures context.exceptions == old(context.exceptions) && context.evalCount == old(context.evalCount)
    ensures (moved, Cursors(context.stack)[0]) == MoveNextOf(Cursor(v, false, -1))
    ensures Cursors(context.stack)[1..] == old(Cursors(context.stack))
  {
    PushFrame(context, v);
    moved := MoveTop(context);
  }

  /** `OP_ITER`: push a frame over the pipe's value and move it once; when it does not move, jump to the index. */
  method IterationToken(context: Contexts.EvaluationContext, pipe: PipeSource, target: nat,
                        pc: nat, mode: OutputMode, sb: string, ws: Option<string>, result: Value)
      returns (pc': nat)
    requires context.Valid() && Apart(context.stack)
    modifies context, context.globals
    ensures context.Valid() && Apart(context.stack)
    ensures |context.stack| == |old(context.stack)| + 1 && context.stack[1..] == old(context.stack) && fresh(context.stack[0])
    ensures Good(old(MachineOf(context, pc, mode, sb, ws, result)))
    ensures MachineOf(context, pc', mode, sb, ws, result)
         == IterStep(target, EvalPipe(Evaluator(context.Env()), pipe, old(MachineOf(context, pc, mode, sb, ws, result))))
  {
    ghost var m := MachineOf(context, pc, mode, sb, ws, result);
    WorldOfContext(context, pc, mode, sb, ws, result);
    var v := RunPipe(context, pipe);
    PipeMachine(context, pipe, v, m, pc, mode, sb, ws, result);
    ghost var m1 := MachineOf(context, pc, mode, sb, ws, result);
    var moved := PushAndMove(context, v);
    pc' := if moved then pc else target;
    assert MachineOf(context, pc', mode, sb, ws, result) == m1.(frames := Cursors(context.stack), pc := pc');
  }

  /** `Pop()` seen through the frames' states: the top state goes, the others stay. */
  method PopFrame(context: Contexts.EvaluationContext)
    requires context.Valid() && Apart(context.stack) && |context.stack| >= 2
    modifies context
    ensures context.Valid() && Apart(context.stack) && context.stack == old(context.stack[1..])
    ensures context.exceptions == old(context.exceptions) && context.evalCount == old(context.evalCount)
    ensures Cursors(context.stack) == old(Cursors(context.stack))[1..]
  {
    ghost var below := Cursors(context.stack[1..]);
    ApartTail(context.stack);
    context.Pop();
    assert Cursors(context.stack) == below;
  }

  /**
   * `OP_ITER_END`: move the top frame; jump back to the index when it
   * moved, pop it otherwise. The bottom frame, over the data, is reported
   * instead of popped.
   */
  method IterationEndToken(context: Contexts.EvaluationContext, target: nat,
                           pc: nat, mode: OutputMode, sb: string, ws: Option<string>, result: Value)
      returns (pc': nat, popped: bool)
    requires context.Valid() && Apart(context.stack)
    modifies context, context.stack[0]
    ensures context.Valid() && Apart(context.stack)
    ensures forall k :: 0 <= k < |context.stack| ==> context.stack[k] in old(context.stack)
    ensures Good(old(MachineOf(context, pc, mode, sb, ws, result)))
    ensures popped ==> IterEndStep(target, old(MachineOf(context, pc, mode, sb, ws, result)))
                       == Underflow(MachineOf(context, pc', mode, sb, ws, result))
    ensures !popped ==> IterEndStep(target, old(MachineOf(context, pc, mode, sb, ws, result)))
                        == Go(MachineOf(context, pc', mode, sb, ws, result))
  {
    ghost var m := MachineOf(context, pc, mode, sb, ws, result);
    var moved := MoveTop(context);
    ghost var cs := Cursors(context.stack);
    assert (moved, cs[0]) == MoveNextOf(m.frames[0]);
    if moved {
      pc', popped := target, false;
      assert cs == [cs[0]] + m.frames[1..];
      assert MachineOf(context, pc', mode, sb, ws, result) == m.(frames := [cs[0]] + m.frames[1..], pc := target);
    } else if |context.stack| == 1 {
      pc', popped := pc, true;
      assert cs == [cs[0]];
      assert MachineOf(context, pc', mode, sb, ws, result) == m.(frames := [cs[0]]);
    } else {
      PopFrame(context);
      pc', popped := pc, false;
      assert MachineOf(context, pc', mode, sb, ws, result) == m.(frames := m.frames[1..]);
    }
  }

  /** `OP_TEST`: evaluate the pipe; jump to the index when its truth, negated by the token's flag, is false. */
  method ConditionToken(context: Contexts.EvaluationContext, pipe: PipeSource, negate: bool, target: nat,
                        pc: nat, mode: OutputMode, sb: string, ws: Option<string>, result: Value)
      returns (pc': nat)
    requires context.Valid()
    modifies context, context.globals
    ensures context.Valid() && context.stack == old(context.stack)
    ensures Good(old(MachineOf(context, pc, mode, sb, ws, result)))
    ensures MachineOf(context, pc', mode, sb, ws, result)
         == TestStep(negate, target, EvalPipe(Evaluator(context.Env()), pipe, old(MachineOf(context, pc, mode, sb, ws, result))))
  {
    ghost var m := MachineOf(context, pc, mode, sb, ws, result);
    WorldOfContext(context, pc, mode, sb, ws, result);
    var v := RunPipe(context, pipe);
    PipeMachine(context, pipe, v, m, pc, mode, sb, ws, result);
    pc' := if !Truthy(v) != negate then target else pc;
  }

  /** The default case: an output token writes the pending white space unless it trims at its start, then its text. */
  method WriteText(value: string, trimStart: bool, trimEnd: bool, sb: string, ws: Option<string>)
      returns (sb': string, ws': Option<string>)
    ensures sb' == sb + (if ws.Some? && !trimStart then ws.value else "") + value
    ensures ws' == if trimEnd then Some("") else None
  {
    sb' := sb;
    if ws.Some? && !trimStart {
      sb' := sb' + ws.value;
    }
    sb' := sb' + value;
    ws' := if trimEnd then Some("") else None;
  }

  /** One iteration of the loop of `Evaluate()`: `Token t = tokens[i++]` and the `switch` on its type. */
  method StepOnce(context: Contexts.EvaluationContext, render: Render, tokens: seq<Token>, targets: seq<int>,
                  pc: nat, mode: OutputMode, sb: string, ws: Option<string>, result: Value)
      returns (pc': nat, mode': OutputMode, sb': string, ws': Option<string>, result': Value, popped: bool)
    requires Runnable(Program(tokens, targets)) && pc < |tokens|
    requires context.Valid() && Apart(context.stack)
    modifies context, context.globals, context.stack
    ensures context.Valid() && Apart(context.stack)
    ensures forall k :: 0 <= k < |context.stack| ==> context.stack[k] in old(context.stack) || fresh(context.stack[k])
    ensures Good(old(MachineOf(context, pc, mode, sb, ws, result)))
    ensures Step(Evaluator(context.Env()), render, Program(tokens, targets), old(MachineOf(context, pc, mode, sb, ws, result)))
         == if popped then Underflow(MachineOf(context, pc', mode', sb', ws', result'))
            else Go(MachineOf(context, pc', mode', sb', ws', result'))
  {
    if tokens[pc].Evaluate? {
      pc', popped := pc + 1, false;
      mode', sb', ws', result' := EvalTokenStep(context, render, tokens, targets, pc, mode, sb, ws, result);
    } else if tokens[pc].Condition? {
      mode', sb', ws', result', popped := mode, sb, ws, result, false;
      pc' := TestTokenStep(context, render, tokens, targets, pc, mode, sb, ws, result);
    } else if tokens[pc].Iteration? || tokens[pc].IterationEnd? {
      mode', sb', ws', result' := mode, sb, ws, result;
      pc', popped := LoopStep(context, render, tokens, targets, pc, mode, sb, ws, result);
    } else {
      pc', mode', sb', ws', result' := TextStep(context, render, tokens, targets, pc, mode, sb, ws, result);
      popped := false;
    }
  }

  /** The `OP_EVAL` case of the `switch`: evaluate the pipe and write its value. */
  method EvalTokenStep(context: Contexts.EvaluationContext, render: Render, tokens: seq<Token>, targets: seq<int>,
                       pc: nat, mode: OutputMode, sb: string, ws: Option<string>, result: Value)
      returns (mode': OutputMode, sb': string, ws': Option<string>, result': Value)
    requires Runnable(Program(tokens, targets)) && pc < |tokens| && tokens[pc].Evaluate?
    requires context.Valid() && Apart(context.stack)
    modifies context, context.globals
    ensures context.Valid() && Apart(context.stack) && context.stack == old(context.stack)
    ensures Good(old(MachineOf(context, pc, mode, sb, ws, result)))
    ensures Step(Evaluator(context.Env()), render, Program(tokens, targets), old(MachineOf(context, pc, mode, sb, ws, result)))
         == Go(MachineOf(context, pc + 1, mode', sb', ws', result'))
  {
    ghost var pipes := Evaluator(context.Env());
    ghost var m := MachineOf(context, pc, mode, sb, ws, result);
    ghost var m0 := MachineOf(context, pc + 1, mode, sb, ws, result);
    assert m0 == m.(pc := pc + 1);
    StepEvaluate(pipes, render, Program(tokens, targets), m);
    mode', sb', ws', result' := EvaluateToken(context, render, tokens[pc].pipe, tokens[pc].suppressEncode, pc + 1, mode, sb, ws, result);
    assert Evaluator(context.Env()) == pipes;
  }

  /** The `OP_TEST` case of the `switch`: evaluate the pipe and jump on its truth. */
  method TestTokenStep(context: Contexts.EvaluationContext, render: Render, tokens: seq<Token>, targets: seq<int>,
                       pc: nat, mode: OutputMode, sb: string, ws: Option<string>, result: Value)
      returns (pc': nat)
    requires Runnable(Program(tokens, targets)) && pc < |tokens| && tokens[pc].Condition?
    requires context.Valid() && Apart(context.stack)
    modifies context, context.globals
    ensures context.Valid() && Apart(context.stack) && context.stack == old(context.stack)
    ensures Good(old(MachineOf(context, pc, mode, sb, ws, result)))
    ensures Step(Evaluator(context.Env()), render, Program(tokens, targets), old(MachineOf(context, pc, mode, sb, ws, result)))
         == Go(MachineOf(context, pc', mode, sb, ws, result))
  {
    ghost var pipes := Evaluator(context.Env());
    ghost var m := MachineOf(context, pc, mode, sb, ws, result);
    ghost var m0 := MachineOf(context, pc + 1, mode, sb, ws, result);
    assert m0 == m.(pc := pc + 1);
    StepCondition(pipes, render, Program(tokens, targets), m);
    pc' := ConditionToken(context, tokens[pc].pipe, tokens[pc].negate, targets[tokens[pc].slot], pc + 1, mode, sb, ws, result);
    assert Evaluator(context.Env()) == pipes;
  }

  /** The cases of the `switch` that push or move the frames: `OP_ITER` and `OP_ITER_END`. */
  method LoopStep(context: Contexts.EvaluationContext, render: Render, tokens: seq<Token>, targets: seq<int>,
                  pc: nat, mode: OutputMode, sb: string, ws: Option<string>, result: Value)
      returns (pc': nat, popped: bool)
    requires Runnable(Program(tokens, targets)) && pc < |tokens|
    requires tokens[pc].Iteration? || tokens[pc].IterationEnd?
    requires context.Valid() && Apart(context.stack)
    modifies context, context.globals, context.stack
    ensures context.Valid() && Apart(context.stack)
    ensures forall k :: 0 <= k < |context.stack| ==> context.stack[k] in old(context.stack) || fresh(context.stack[k])
    ensures Good(old(MachineOf(context, pc, mode, sb, ws, result)))
    ensures Step(Evaluator(context.Env()), render, Program(tokens, targets), old(MachineOf(context, pc, mode, sb, ws, result)))
         == if popped then Underflow(MachineOf(context, pc', mode, sb, ws, result))
            else Go(MachineOf(context, pc', mode, sb, ws, result))
  {
    ghost var pipes := Evaluator(context.Env());
    ghost var m := MachineOf(context, pc, mode, sb, ws, result);
    ghost var m0 := MachineOf(context, pc + 1, mode, sb, ws, result);
    assert m0 == m.(pc := pc + 1);
    StepCases(pipes, render, Program(tokens, targets), m);
    ghost var r := Step(pipes, render, Program(tokens, targets), m);
    if tokens[pc].Iteration? {
      pc' := IterationToken(context, tokens[pc].pipe, targets[tokens[pc].slot], pc + 1, mode, sb, ws, result);
      popped := false;
    } else {
      pc', popped := IterationEndToken(context, targets[tokens[pc].slot], pc + 1, mode, sb, ws, result);
    }
    assert r == if popped then Underflow(MachineOf(context, pc', mode, sb, ws, result)) else Go(MachineOf(context, pc', mode, sb, ws, result));
    assert Evaluator(context.Env()) == pipes;
  }

  /** The cases of the `switch` that only write text or jump: `OP_JUMP`, `SpaceToken`, `OutputToken`, `HtmlToken`. */
  method TextStep(context: Contexts.EvaluationContext, render: Render, tokens: seq<Token>, targets: seq<int>,
                  pc: nat, mode: OutputMode, sb: string, ws: Option<string>, result: Value)
      returns (pc': nat, mode': OutputMode, sb': string, ws': Option<string>, result': Value)
    requires Runnable(Program(tokens, targets)) && pc < |tokens|
    requires tokens[pc].Branch? || tokens[pc].Space? || tokens[pc].Output? || tokens[pc].Html?
    requires context.Valid()
    ensures Good(old(MachineOf(context, pc, mode, sb, ws, result)))
    ensures Step(Evaluator(context.Env()), render, Program(tokens, targets), old(MachineOf(context, pc, mode, sb, ws, result)))
         == Go(MachineOf(context, pc', mode', sb', ws', result'))
  {
    ghost var m := MachineOf(context, pc, mode, sb, ws, result);
    ghost var m0 := MachineOf(context, pc + 1, mode, sb, ws, result);
    assert m0 == m.(pc := pc + 1);
    StepCases(Evaluator(context.Env()), render, Program(tokens, targets), m);
    ghost var r := Step(Evaluator(context.Env()), render, Program(tokens, targets), m);
    pc', mode', sb', ws', result' := pc + 1, mode, sb, ws, result;
    match tokens[pc] {
      case Branch(slot) =>
        pc' := targets[slot];
        assert r == Go(MachineOf(context, pc', mode', sb', ws', result'));
      case Space =>
        ws' := if ws != Some("") then Some(" ") else None;
        assert r == Go(MachineOf(context, pc', mode', sb', ws', result'));
      case Output(value, trimStart, trimEnd) =>
        sb', ws' := WriteText(value, trimStart, trimEnd, sb, ws);
        mode' := StringMode;
        assert r == Go(MachineOf(context, pc', mode', sb', ws', result'));
      case Html(h) =>
        var (value, trimStart, trimEnd) := render.markup(h);
        sb', ws' := WriteText(value, trimStart, trimEnd, sb, ws);
        mode' := StringMode;
        assert r == Go(MachineOf(context, pc', mode', sb', ws', result'));
    }
  }

  /** The run after one step, by how the step ended. */
  lemma RunOnce(pipes: PipeEvaluator, render: Render, p: Program, m: Machine, fuel: nat, n: Next)
    requires Runnable(p) && Good(m) && m.pc < |p.tokens| && fuel > 0 && Step(pipes, render, p, m) == n
    ensures Good(n.m)
    ensures n.Go? ==> Run(pipes, render, p, m, fuel) == Run(pipes, render, p, n.m, fuel - 1)
    ensures n.Underflow? ==> Run(pipes, render, p, m, fuel) == (PoppedLast, Finish(n.m))
  {
  }

  /** The context holds the state of the machine: its frames, globals, errors and run counter. */
  ghost predicate Holds(context: Contexts.EvaluationContext, m: Machine)
    reads context, context.stack, context.globals
  {
    Cursors(context.stack) == m.frames && context.globals.entries == m.globals
    && context.exceptions == m.errors && context.evalCount == m.count
  }

  /** One iteration of the loop, as it moves a run of `fuel` steps from `m` to `goal` onto the rest of that run from `n`. */
  method Advance(context: Contexts.EvaluationContext, render: Render, tokens: seq<Token>, targets: seq<int>,
                 pc: nat, mode: OutputMode, sb: string, ws: Option<string>, result: Value,
                 fuel: nat, ghost pipes: PipeEvaluator, ghost m: Machine, ghost goal: (Ending, Machine))
      returns (pc': nat, mode': OutputMode, sb': string, ws': Option<string>, result': Value, popped: bool,
               fuel': nat, ghost n: Machine)
    requires Runnable(Program(tokens, targets)) && pc < |tokens| && fuel > 0
    requires context.Valid() && Apart(context.stack) && pipes == Evaluator(context.Env())
    requires m == MachineOf(context, pc, mode, sb, ws, result) && Good(m)
    requires Run(pipes, render, Program(tokens, targets), m, fuel) == goal
    modifies context, context.globals, context.stack
    ensures context.Valid() && Apart(context.stack)
    ensures forall k :: 0 <= k < |context.stack| ==> context.stack[k] in old(context.stack) || fresh(context.stack[k])
    ensures n == MachineOf(context, pc', mode', sb', ws', result') && Good(n)
    ensures popped ==> goal == (PoppedLast, Finish(n))
    ensures fuel' == fuel - 1
    ensures !popped ==> Run(pipes, render, Program(tokens, targets), n, fuel') == goal
  {
    fuel' := fuel - 1;
    pc', mode', sb', ws', result', popped := StepOnce(context, render, tokens, targets, pc, mode, sb, ws, result);
    n := MachineOf(context, pc', mode', sb', ws', result');
    RunOnce(pipes, render, Program(tokens, targets), m, fuel, if popped then Underflow(n) else Go(n));
  }

  /** The `finally` block of `Evaluate()`: a run that ended in string mode counts one more, kept to 16 bits. */
  method CountRun(context: Contexts.EvaluationContext, mode: OutputMode, ghost m: Machine)
    requires context.Valid() && Holds(context, m) && m.mode == mode
    modifies context
    ensures context.Valid() && context.stack == old(context.stack) && Holds(context, Finish(m))
  {
    ghost var cs := Cursors(context.stack);
    context.AddRuns(if mode == StringMode then 1 else 0);
    assert Cursors(context.stack) == cs;
  }

  /**
   * `Evaluate()` on a context over the template's tokens, with at most
   * `fuel` iterations of its loop: what it returns, and the context left
   * as `RunSpec.Run` says.
   */
  method Execute(context: Contexts.EvaluationContext, render: Render, list: Compiler.TokenList, rawOutput: bool, fuel: nat)
      returns (ending: Ending)
    requires context.Valid() && Apart(context.stack) && Runnable(Program(list.tokens, list.targets))
    modifies context, context.globals, context.stack
    ensures context.Valid()
    ensures var start := old(MachineOf(context, 0, if rawOutput then Undecided else StringMode, "", Some(""), Undefined));
      var r := Run(Evaluator(context.Env()), render, Program(list.tokens, list.targets), start, fuel);
      ending == r.0 && Holds(context, r.1)
  {
    var tokens, targets := list.tokens, list.targets;
    var mode := if rawOutput then Undecided else StringMode;
    var sb, ws, result, pc: nat := "", Some(""), Undefined, 0;
    ghost var pipes := Evaluator(context.Env());
    ghost var m := MachineOf(context, pc, mode, sb, ws, result);
    ghost var goal := Run(pipes, render, Program(tokens, targets), m, fuel);
    var f := fuel;
    while pc < |tokens|
      invariant context.Valid() && Apart(context.stack)
      invariant forall k :: 0 <= k < |context.stack| ==> context.stack[k] in old(context.stack) || fresh(context.stack[k])
      invariant m == MachineOf(context, pc, mode, sb, ws, result) && Good(m)
      invariant Run(pipes, render, Program(tokens, targets), m, f) == goal
      decreases f
    {
      if f == 0 {
        ending := OutOfFuel;
        return;
      }
      var popped;
      pc, mode, sb, ws, result, popped, f, m := Advance(context, render, tokens, targets, pc, mode, sb, ws, result, f, pipes, m, goal);
      if popped {
        CountRun(context, mode, m);
        ending := PoppedLast;
        return;
      }
    }
    CountRun(context, mode, m);
    ending := Returned(if mode == StringMode then Text(sb) else Raw(result));
  }

  /**
   * What pipes see of a run over `input`: the registry's resolvers and
   * functions, the host and regular-expression callbacks, the built-in
   * functions and the `sprintf` made from `unwrap` and `numeric`.
   */
  function RunEnv(input: string, registry: Registry.FunctionRegistry, host: (nat, Value, seq<Value>) -> PipeSpec.HostAnswer,
                  regex: (string, string, string, Option<string>) -> Option<string>,
                  unwrap: Value -> StdIO.Param, numeric: StdIO.NumericFormat): PipeSpec.Env
    reads registry
  {
    PipeSpec.Env(input, registry.resolvers, registry.functions, host, regex, BuiltIns.Natives(), PipeSpec.Printer(unwrap, numeric))
  }

  /**
   * `new EvaluationContext(tokens, data, options)`: a context over the
   * template's text with the data as its only frame and a copy of the
   * option's globals, which is the machine a run starts in.
   */
  method NewContext(input: string, data: Value, rawOutput: bool, initial: Globals.PipeGlobal,
                    registry: Registry.FunctionRegistry, count: nat,
                    host: (nat, Value, seq<Value>) -> PipeSpec.HostAnswer,
                    regex: (string, string, string, Option<string>) -> Option<string>,
                    unwrap: Value -> StdIO.Param, numeric: StdIO.NumericFormat)
      returns (context: Contexts.EvaluationContext)
    requires initial.Valid() && registry.Valid() && count < 65536
    ensures fresh(context) && fresh(context.globals) && |context.stack| == 1 && fresh(context.stack[0])
    ensures context.Valid() && Apart(context.stack)
    ensures context.Env() == RunEnv(input, registry, host, regex, unwrap, numeric)
    ensures MachineOf(context, 0, if rawOutput then Undecided else StringMode, "", Some(""), Undefined)
         == Start(data, rawOutput, initial.entries, count)
  {
    context := new Contexts.EvaluationContext(input, data, initial, registry, count, host, regex, unwrap, numeric);
    assert Cursors(context.stack) == [context.stack[0].State()];
  }

  /**
   * `Evaluate(tokens, value, options, out exceptions)`: a new context over a
   * compiled token list (whose jumps and slots are in range, as compiling
   * makes them), then the loop run from the start; what it
   * returns, the errors it recorded and the counter it leaves, as
   * `RunSpec.Run` says.
   */
  method EvaluateTokens(list: Compiler.TokenList, data: Value, render: Render, rawOutput: bool,
                        initial: Globals.PipeGlobal, registry: Registry.FunctionRegistry, count: nat,
                        host: (nat, Value, seq<Value>) -> PipeSpec.HostAnswer,
                        regex: (string, string, string, Option<string>) -> Option<string>,
                        unwrap: Value -> StdIO.Param, numeric: StdIO.NumericFormat, fuel: nat)
      returns (ending: Ending, exceptions: seq<PipeSpec.PipeError>, count': nat)
    requires Runnable(Program(list.tokens, list.targets))
    requires initial.Valid() && registry.Valid() && count < 65536
    ensures var r := Run(Evaluator(RunEnv(list.inputString, registry, host, regex, unwrap, numeric)), render,
                         Program(list.tokens, list.targets), Start(data, rawOutput, initial.entries, count), fuel);
      ending == r.0 && exceptions == r.1.errors && count' == r.1.count && count' < 65536
  {
    var context := NewContext(list.inputString, data, rawOutput, initial, registry, count, host, regex, unwrap, numeric);
    ending := Execute(context, render, list, rawOutput, fuel);
    exceptions, count' := context.exceptions, context.evalCount;
  }

  /**
   * `Evaluate(template, value, options, out exceptions)`: the template is
   * compiled through the cache, whose parse error propagates; otherwise
   * the compiled tokens are evaluated as `EvaluateTokens` does.
   */
  method EvaluateTemplate(cache: Compiler.TemplateCache, template: string, data: Value, render: Render, rawOutput: bool,
                          initial: Globals.PipeGlobal, registry: Registry.FunctionRegistry, count: nat,
                          host: (nat, Value, seq<Value>) -> PipeSpec.HostAnswer,
                          regex: (string, string, string, Option<string>) -> Option<string>,
                          unwrap: Value -> StdIO.Param, numeric: StdIO.NumericFormat, fuel: nat)
      returns (r: Result<(Ending, seq<PipeSpec.PipeError>), CompileSpec.CompileError>, count': nat)
    requires cache.Valid() && initial.Valid() && registry.Valid() && count < 65536
    modifies cache
    ensures cache.Valid()
    ensures r.Err? <==> CompileProps.Compile(template).Err?
    ensures r.Err? ==> r.error == CompileProps.Compile(template).error && count' == count
    ensures r.Ok? ==> var run := Run(Evaluator(RunEnv(template, registry, host, regex, unwrap, numeric)), render,
                                     CompileProps.Compile(template).value, Start(data, rawOutput, initial.entries, count), fuel);
      r.value == (run.0, run.1.errors) && count' == run.1.count
  {
    var list := cache.FromString(template);
    if list.Err? {
      return Err(list.error), count;
    }
    assert CompileProps.Compile(template).Ok?;
    var ending, exceptions;
    ending, exceptions, count' := EvaluateTokens(list.value, data, render, rawOutput, initial, registry, count,
                                                 host, regex, unwrap, numeric, fuel);
    r := Ok((ending, exceptions));
  }
}
