/**
 * `EvaluationContext`: the state one template run shares between all its
 * pipes -- the stack of frames, the globals, the function registry, the
 * recorded pipe errors and the reentrancy counter -- and the operations
 * pipes use on it. `World()` is this state as `PipeSpec` reads it.
 */
module Contexts {
  import opened Wrappers
  import opened Values
  import opened Frames
  import Paths
  import PathEvaluation
  import Globals
  import Registry
  import StdIO
  import PipeSpec
  import BuiltIns

  /** The frames as paths see them, innermost first. */
  function Views(frames: seq<EvaluationStack>): (vs: seq<FrameView>)
    reads frames
    requires PathEvaluation.FramesValid(frames)
    ensures |vs| == |frames| && forall i :: 0 <= i < |frames| ==> vs[i] == frames[i].View()
    decreases |frames|
  {
    if frames == [] then [] else [frames[0].View()] + Views(frames[1..])
  }

  /** A frame pushed onto frames whose views are `below`. */
  lemma ViewsCons(frame: EvaluationStack, frames: seq<EvaluationStack>, below: seq<FrameView>)
    requires frame.Valid() && PathEvaluation.FramesValid(frames) && below == Views(frames)
    requires PathEvaluation.FramesValid([frame] + frames)
    ensures Views([frame] + frames) == [frame.View()] + below
  {
    assert ([frame] + frames)[1..] == frames;
  }

  /** Dropping the top frame drops its view. */
  lemma ViewsTail(frames: seq<EvaluationStack>)
    requires PathEvaluation.FramesValid(frames) && |frames| >= 1
    ensures Views(frames[1..]) == Views(frames)[1..]
  {
  }

  /** The scope a path is evaluated in is the frames' views and the globals' entries. */
  lemma ScopeOfViews(frames: seq<EvaluationStack>, globals: Globals.PipeGlobal)
    requires PathEvaluation.FramesValid(frames)
    ensures PathEvaluation.ScopeOf(frames, globals) == Paths.Scope(Views(frames), globals.entries)
  {
    assert PathEvaluation.ScopeOf(frames, globals).frames == Views(frames);
  }

  /** The frame `Push(obj, index)` builds: over `{ index: obj }`, moved onto its one entry. */
  method NewEntryFrame(obj: Value, index: Value) returns (frame: EvaluationStack)
    ensures fresh(frame) && frame.Valid() && frame.View() == PipeSpec.EntryFrame(obj, index)
  {
    var key := ToStr(index);
    frame := new EvaluationStack(Obj([(key, obj)]));
    assert Entries(Obj([(key, obj)])) == [(key, obj)];
    assert Keys(Obj([(key, obj)])) == [key];
    var moved := frame.MoveNext();
  }

  class EvaluationContext {
    /** The template text, for error call sites. */
    const inputString: string
    const globals: Globals.PipeGlobal
    const registry: Registry.FunctionRegistry
    /** Code outside this model: host functions and the regular expression engine. */
    const host: (nat, Value, seq<Value>) -> PipeSpec.HostAnswer
    const regex: (string, string, string, Option<string>) -> Option<string>
    /** The delegates for built-in and `%` functions. */
    const native: (BuiltIns.Op, Value, seq<Value>) -> Option<Value>
    const printf: (string, Value) -> Option<Value>

    /** The object stack, top first. */
    var stack: seq<EvaluationStack>
    var exceptions: seq<PipeSpec.PipeError>
    /** The per-thread count of runs that ended in string mode, kept to 16 bits. */
    var evalCount: nat

    ghost predicate Valid()
      reads this, stack, globals, registry
    {
      |stack| >= 1 && PathEvaluation.FramesValid(stack) && globals.Valid() && registry.Valid()
      && evalCount < 65536
    }

    /** What stays fixed during a run. */
    function Env(): (e: PipeSpec.Env)
      reads registry
      ensures e.input == inputString && e.resolvers == registry.resolvers && e.functions == registry.functions
    {
      PipeSpec.Env(inputString, registry.resolvers, registry.functions, host, regex, native, printf)
    }

    /** The shared state as pipes see it. */
    function World(): (w: PipeSpec.World)
      reads this, stack, globals
      requires PathEvaluation.FramesValid(stack)
      ensures w.frames == Views(stack) && w.globals == globals.entries
      ensures w.errors == exceptions && w.count == evalCount
    {
      PipeSpec.World(Views(stack), globals.entries, exceptions, evalCount)
    }

    /**
     * The private constructor: a copy of the given globals, one frame over
     * the data, no errors; the counter carries on from earlier runs.
     */
    constructor (input: string, data: Value, initial: Globals.PipeGlobal, registry: Registry.FunctionRegistry,
                 count: nat, host: (nat, Value, seq<Value>) -> PipeSpec.HostAnswer,
                 regex: (string, string, string, Option<string>) -> Option<string>,
                 unwrap: Value -> StdIO.Param, numeric: StdIO.NumericFormat)
      requires initial.Valid() && registry.Valid() && count < 65536
      ensures Valid() && fresh(globals) && fresh(stack[0])
      ensures inputString == input && this.registry == registry
      ensures this.host == host && this.regex == regex && native == BuiltIns.Natives()
      ensures printf == PipeSpec.Printer(unwrap, numeric)
      ensures globals.entries == initial.entries && exceptions == [] && evalCount == count
      ensures |stack| == 1 && stack[0].View() == FrameView(data, Undefined, Undefined, KeyCount(data))
      ensures stack[0].State() == Cursor(data, false, -1)
    {
      inputString := input;
      globals := new Globals.PipeGlobal.Copy(initial);
      this.registry := registry;
      this.host := host;
      this.regex := regex;
      native := BuiltIns.Natives();
      printf := PipeSpec.Printer(unwrap, numeric);
      var frame := new EvaluationStack(data);
      stack := [frame];
      exceptions := [];
      evalCount := count;
    }

    /** `ValueAt(index)`: the value of the frame `index` places below the top, undefined past the bottom. */
    method ValueAt(index: nat) returns (r: Value)
      requires Valid()
      ensures r == Paths.ValueAt(PathEvaluation.ScopeOf(stack, globals), index)
    {
      if index >= |stack| {
        return Undefined;
      }
      r := stack[index].Value();
    }

    /** `Push(obj)`: a new frame over the value, not yet iterating. */
    method Push(obj: Value)
      requires Valid()
      modifies this
      ensures Valid() && |stack| == |old(stack)| + 1 && stack[1..] == old(stack) && fresh(stack[0])
      ensures stack[0].State() == Cursor(obj, false, -1)
      ensures exceptions == old(exceptions) && evalCount == old(evalCount)
      ensures World() == old(World()).(frames := [FrameView(obj, Undefined, Undefined, KeyCount(obj))] + old(World()).frames)
    {
      ghost var w := World();
      var frame := new EvaluationStack(obj);
      assert frame.View() == FrameView(obj, Undefined, Undefined, KeyCount(obj));
      stack := [frame] + stack;
      ViewsCons(frame, old(stack), w.frames);
      assert World() == w.(frames := [frame.View()] + w.frames);
    }

    /**
     * `Push(obj, index)`: a frame over a one-entry object keyed by the
     * index's string form, moved onto that entry, so that the frame's value
     * is `obj`, its key the index and its position 0.
     */
    method PushEntry(obj: Value, index: Value)
      requires Valid()
      modifies this
      ensures Valid() && |stack| == |old(stack)| + 1 && stack[1..] == old(stack) && fresh(stack[0])
      ensures exceptions == old(exceptions) && evalCount == old(evalCount)
      ensures World() == old(World()).(frames := [PipeSpec.EntryFrame(obj, index)] + old(World()).frames)
    {
      ghost var w := World();
      var frame := NewEntryFrame(obj, index);
      stack := [frame] + stack;
      ViewsCons(frame, old(stack), w.frames);
      assert World() == w.(frames := [frame.View()] + w.frames);
    }

    /** `Pop()`: drop the top frame; the bottom frame, over the data, is never popped. */
    method Pop()
      requires Valid() && |stack| >= 2
      modifies this
      ensures Valid() && stack == old(stack[1..])
      ensures exceptions == old(exceptions) && evalCount == old(evalCount)
      ensures World() == old(World()).(frames := old(World()).frames[1..])
    {
      ghost var w := World();
      ViewsTail(stack);
      stack := stack[1..];
      assert World() == w.(frames := w.frames[1..]);
    }

    /** `AddException`: record one more error after the earlier ones. */
    method AddException(e: PipeSpec.PipeError)
      requires Valid()
      modifies this
      ensures Valid() && stack == old(stack) && evalCount == old(evalCount)
      ensures exceptions == old(exceptions) + [e]
      ensures World() == old(World()).(errors := old(World()).errors + [e])
    {
      ghost var w := World();
      exceptions := exceptions + [e];
      assert World() == w.(errors := w.errors + [e]);
    }

    /** Counting the template runs a host function made that ended in string mode, kept to 16 bits. */
    method AddRuns(runs: nat)
      requires Valid()
      modifies this
      ensures Valid() && stack == old(stack) && exceptions == old(exceptions)
      ensures evalCount == (old(evalCount) + runs) % 65536
      ensures World() == old(World()).(count := (old(World()).count + runs) % 65536)
    {
      ghost var w := World();
      var n := (evalCount + runs) % 65536;
      evalCount := n;
      assert World() == w.(count := n);
    }

    /** Assigning a global: the entries become `Assigned`, nothing else changes. */
    method SetGlobal(key: string, value: Value)
      requires Valid()
      modifies globals
      ensures Valid() && stack == old(stack)
      ensures World() == old(World()).(globals := Globals.Assigned(old(globals.entries), key, value))
    {
      globals.Set(key, value);
    }

    /** `ObjectPath.Evaluate(context)` against the current frames and globals. */
    method EvaluatePath(path: Paths.ObjectPath, acceptShorthand: bool) returns (valid: bool, value: Value)
      requires Valid()
      ensures (valid, value) == Paths.Eval(path, PipeSpec.Scope(World()), acceptShorthand)
    {
      valid, value := PathEvaluation.TryEvaluate(path, stack, globals, acceptShorthand);
      ScopeOfViews(stack, globals);
    }

    /** `ResolveFunction`: walk the registry's resolver chain. */
    method ResolveFunction(name: string) returns (res: Registry.Resolution)
      ensures res == Registry.Resolve(registry.resolvers, registry.functions, name)
    {
      res := registry.ResolveFunction(name);
    }
  }
}
