/**
 * `PipeContext`: the cursor over a pipe's arguments that pipe functions
 * drive. Every method is proved to compute the `PipeSpec` function of the
 * same name on the context's fields (`State()`) and the evaluation
 * context's shared state (`World()`), so the properties proved of those
 * functions hold of the objects.
 */
module PipeContexts {
  import opened Wrappers
  import opened Values
  import opened Frames
  import Paths
  import PathEvaluation
  import Pipes
  import opened PipeViews
  import Registry
  import BuiltIns
  import Lambdas
  import StdIO
  import Extension
  import CallSites
  import opened PipeSpec
  import opened Contexts

  class PipeContext {
    const context: EvaluationContext
    const pipe: PipeView
    const start: nat
    const end: int
    var input: Value
    var value: Value
    var resetPos: int
    var i: nat
    var returnArray: seq<Value>

    /** The fields as `PipeSpec` reads them. */
    function State(): (c: Ctx)
      reads this
      ensures c.start == start && c.end == end && c.i == i && c.resetPos == resetPos
      ensures c.input == input && c.value == value && c.pushed == returnArray
    {
      Ctx(start, end, i, resetPos, input, value, returnArray)
    }

    /** The range lies in the pipe and is closed under its lambdas. */
    ghost predicate Placed()
      reads this, context, context.stack, context.globals, context.registry
    {
      context.Valid() && Nested(pipe.args) && Inside(pipe.args, start, end)
    }

    /** Placed, with the cursor in the range. */
    ghost predicate Valid()
      reads this, context, context.stack, context.globals, context.registry
    {
      Placed() && Ready(pipe, State(), context.World())
    }

    /** Not yet evaluated: no value, no reset position, nothing pushed. */
    predicate Unused()
      reads this
    {
      value == Undefined && resetPos == 0 && returnArray == []
    }

    /** `new PipeContext(context, pipe)`: the whole pipe. */
    constructor (context: EvaluationContext, pipe: PipeView)
      ensures this.context == context && this.pipe == pipe
      ensures start == 0 && end == |pipe.args| - 1 && i == 0 && Unused()
    {
      this.context := context;
      this.pipe := pipe;
      start := 0;
      end := |pipe.args| - 1;
      input := Undefined;
      value := Undefined;
      resetPos := 0;
      i := 0;
      returnArray := [];
    }

    /** The private constructor a bracketed lambda uses: the same pipe, the arguments `start .. end` only. */
    constructor Sub(parent: PipeContext, start: nat, end: int)
      ensures context == parent.context && pipe == parent.pipe
      ensures this.start == start && this.end == end && i == 0 && Unused()
    {
      context := parent.context;
      pipe := parent.pipe;
      this.start := start;
      this.end := end;
      input := Undefined;
      value := Undefined;
      resetPos := 0;
      i := 0;
      returnArray := [];
    }

    /** `Stop()`: move the cursor past the end, so that the loop calls nothing more; yields the value. */
    method Stop() returns (r: Value)
      modifies this
      requires Valid()
      ensures Valid() && r == value && State() == old(State()).(i := end + 1)
      ensures context.World() == old(context.World())
    {
      i := end + 1;
      r := value;
    }

    /** `Push(v)`: add a value to the pipe's result array; yields it. */
    method Push(v: Value) returns (r: Value)
      modifies this
      ensures r == v && State() == old(State()).(pushed := old(returnArray) + [v])
      ensures old(Valid()) ==> Valid() && context.World() == old(context.World())
    {
      returnArray := returnArray + [v];
      r := v;
    }

    /** `TakeArgumentAsRaw()`: no path is resolved and nothing is called. */
    method TakeArgumentAsRaw() returns (r: Value)
      requires Valid()
      modifies this
      ensures Valid() && context.World() == old(context.World())
      ensures (r, State()) == TakeRaw(pipe, old(State()))
    {
      if i > end {
        return Undefined;
      }
      if pipe.args[i].length > 0 {
        r := Fn(i);
        i := i + pipe.args[i].length + 1;
      } else {
        r := pipe.args[i].value;
        i := i + 1;
      }
    }

    /** `TakeArgument()`. */
    method TakeArgument() returns (r: Value)
      requires Valid()
      modifies this, context, context.globals
      ensures Valid() && context.stack == old(context.stack)
      ensures Out(r, State(), context.World()) == Take(context.Env(), pipe, old(State()), old(context.World()))
      decreases end + 1 - start, 1, 0
    {
      var reset := resetPos == i;
      if i > end {
        return if reset then input else Undefined;
      }
      var a := pipe.args[i];
      if a.mode == Pipes.Constant {
        r := a.value;
        i := i + 1;
        return;
      }
      if a.length > 0 {
        r := TakeBracketed();
      } else {
        r := TakePath();
      }
    }

    /** `TakeArgument()` on a bracketed lambda: it is skipped and called on the current value (the input at the reset position). */
    method TakeBracketed() returns (r: Value)
      requires Valid() && i <= end && pipe.args[i].mode != Pipes.Constant && pipe.args[i].length > 0
      modifies this, context, context.globals
      ensures Valid() && context.stack == old(context.stack)
      ensures Out(r, State(), context.World()) == Take(context.Env(), pipe, old(State()), old(context.World()))
      decreases end + 1 - start, 0, 0
    {
      var at := i;
      var obj := if resetPos == i then input else value;
      i := i + pipe.args[at].length + 1;
      r := InvokeLambda(Bracketed(at), obj, Undefined);
    }

    /** `TakeArgument()` on a word: its path, its literal, or (at the reset position) the input with the word left unread. */
    method TakePath() returns (r: Value)
      requires Valid() && i <= end && pipe.args[i].mode != Pipes.Constant && pipe.args[i].length == 0
      modifies this
      ensures Valid() && context.World() == old(context.World())
      ensures Out(r, State(), context.World()) == Take(context.Env(), pipe, old(State()), old(context.World()))
    {
      ghost var c0, w0, env := State(), context.World(), context.Env();
      var reset := resetPos == i;
      var a := pipe.args[i];
      var valid, v := context.EvaluatePath(a.path, reset);
      var next := i + 1;
      if a.mode == Pipes.Evaluated || (valid && (reset || !IsPrimitive(value) || IsPrimitive(v))) {
        r := v;
      } else if reset {
        r, next := input, i;
      } else {
        r := a.value;
      }
      assert Take(env, pipe, c0, w0) == Out(r, c0.(i := next), w0);
      i := next;
    }

    /** `Reset()`: this position becomes the reset position, then an argument is taken. */
    method Reset() returns (r: Value)
      requires Valid()
      modifies this, context, context.globals
      ensures Valid() && context.stack == old(context.stack)
      ensures Out(r, State(), context.World()) == PipeSpec.Reset(context.Env(), pipe, old(State()), old(context.World()))
      decreases end + 1 - start, 2, 0
    {
      resetPos := i;
      r := TakeArgument();
    }

    /** `TakeLambda(factory)`. A bracketed lambda is returned as the position it opens at. */
    method TakeLambda(factory: Option<Lambdas.Factory>) returns (fn: Option<Lambda>)
      requires Valid()
      modifies this, context, context.globals
      ensures Valid() && context.stack == old(context.stack)
      ensures LambdaOut(fn, State(), context.World()) == PipeSpec.TakeLambda(context.Env(), pipe, old(State()), old(context.World()), factory)
      decreases end + 1 - start, 2, 0
    {
      if i <= end && pipe.args[i].length > 0 {
        var at := i;
        i := i + pipe.args[i].length + 1;
        return Some(Bracketed(at));
      }
      if factory.Some? {
        var obj := TakeArgument();
        return Some(Made(factory.value, obj));
      }
      return None;
    }

    /**
     * Invoking a lambda taken from this pipe: a made one is applied, a
     * bracketed one is run.
     */
    method InvokeLambda(fn: Lambda, obj: Value, index: Value) returns (r: Value)
      requires Placed() && Within(pipe, start, end, fn)
      modifies context, context.globals
      ensures context.Valid() && context.stack == old(context.stack)
      ensures (r, context.World()) == Invoke(context.Env(), pipe, fn, obj, index, old(context.World()))
      decreases if fn.Bracketed? then pipe.args[fn.at].length else 0, 1, 0
    {
      if fn.Made? {
        return Lambdas.CreateLambda(fn.factory, fn.obj)(obj, index);
      }
      r := RunLambda(fn.at, obj, index);
    }

    /**
     * A bracketed lambda runs a new context over the arguments between its
     * brackets, with a frame for the entry pushed around the run.
     */
    method RunLambda(at: nat, obj: Value, index: Value) returns (r: Value)
      requires Placed() && Within(pipe, start, end, Bracketed(at))
      modifies context, context.globals
      ensures context.Valid() && context.stack == old(context.stack)
      ensures (r, context.World()) == Invoke(context.Env(), pipe, Bracketed(at), obj, index, old(context.World()))
      decreases pipe.args[at].length, 0, 0
    {
      ghost var w0, env := context.World(), context.Env();
      var len := pipe.args[at].length;
      var sub := new PipeContext.Sub(this, at + 1, at + len - 1);
      context.PushEntry(obj, index);
      ghost var w1 := context.World();
      r := sub.Evaluate();
      ghost var w2 := context.World();
      context.Pop();
      InvokeBracketed(env, pipe, at, obj, index, w0, sub.start, sub.end, w1, r, w2);
    }

    /** The `n` arguments a function of fixed arity pulls, in order. */
    method TakeArguments(n: nat) returns (vs: seq<Value>)
      requires Valid()
      modifies this, context, context.globals
      ensures Valid() && context.stack == old(context.stack)
      ensures ArgsOut(vs, State(), context.World()) == TakeN(context.Env(), pipe, old(State()), old(context.World()), n)
      decreases end + 1 - start, 2, n
    {
      ghost var env := context.Env();
      ghost var target := TakeMore(env, pipe, [], State(), context.World(), n);
      assert [] + TakeN(env, pipe, State(), context.World(), n).vs == TakeN(env, pipe, State(), context.World(), n).vs;
      vs := [];
      var m := n;
      while m > 0
        invariant Valid() && context.stack == old(context.stack) && context.Env() == env
        invariant TakeMore(env, pipe, vs, State(), context.World(), m) == target
      {
        ghost var c0, w0 := State(), context.World();
        var v := TakeArgument();
        TakeMoreStep(env, pipe, vs, c0, w0, m, Out(v, State(), context.World()));
        vs := vs + [v];
        m := m - 1;
      }
    }

    /** `let`: name, value, name, value ... until the arguments run out. */
    method LetAll()
      requires Valid()
      modifies this, context, context.globals
      ensures Valid() && context.stack == old(context.stack)
      ensures (State(), context.World()) == Let(context.Env(), pipe, old(State()), old(context.World()))
      decreases end + 1 - start, 3, 0
    {
      ghost var env := context.Env();
      ghost var target := Let(env, pipe, State(), context.World());
      while i <= end
        invariant Valid() && context.stack == old(context.stack) && env == context.Env()
        invariant Let(env, pipe, State(), context.World()) == target
        decreases end + 1 - i
      {
        ghost var c0, w0 := State(), context.World();
        var raw := TakeArgumentAsRaw();
        ghost var c1 := State();
        var name := BuiltIns.StringOf(raw);
        var v := TakeArgument();
        ghost var c2, w2 := State(), context.World();
        context.SetGlobal(name, v);
        LetStep(env, pipe, c0, w0, raw, c1, Out(v, c2, w2));
      }
    }

    /** `?`: the first lambda on the value decides between the second and the third. */
    method Test() returns (r: Value)
      requires Valid()
      modifies this, context, context.globals
      ensures Valid() && context.stack == old(context.stack)
      ensures CallOut(Some(r), State(), context.World()) == PipeSpec.Test(context.Env(), pipe, old(State()), old(context.World()))
      decreases end + 1 - start, 3, 0
    {
      ghost var c0, w0, env := State(), context.World(), context.Env();
      var testFn := TakeLambda(Some(Lambdas.ConstantFactory));
      ghost var f1 := LambdaOut(testFn, State(), context.World());
      var trueFn := TakeLambda(Some(Lambdas.ConstantFactory));
      ghost var f2 := LambdaOut(trueFn, State(), context.World());
      var falseFn := TakeLambda(Some(Lambdas.ConstantFactory));
      ghost var f3 := LambdaOut(falseFn, State(), context.World());
      r := Choose(testFn.value, trueFn.value, falseFn.value);
      TestPhases(env, pipe, c0, w0, f1, f2, f3, r, context.World());
    }

    /** The choice `?` makes on the current value. */
    method Choose(cond: Lambda, yes: Lambda, no: Lambda) returns (r: Value)
      requires Placed() && start <= end + 1
      requires Within(pipe, start, end, cond) && Within(pipe, start, end, yes) && Within(pipe, start, end, no)
      modifies context, context.globals
      ensures context.Valid() && context.stack == old(context.stack)
      ensures (r, context.World()) == Decide(context.Env(), pipe, start, end, cond, yes, no, value, old(context.World()))
      decreases end + 1 - start, 2, 1
    {
      ghost var w0 := context.World();
      var b := InvokeLambda(cond, value, Undefined);
      var chosen := if Truthy(b) then yes else no;
      r := InvokeLambda(chosen, value, Undefined);
    }

    /** `replace`: a needle, then a lambda or a replacement text. */
    method Replace() returns (r: Value)
      requires Valid()
      modifies this, context, context.globals
      ensures Valid() && context.stack == old(context.stack)
      ensures CallOut(Some(r), State(), context.World()) == PipeSpec.Replace(context.Env(), pipe, old(State()), old(context.World()))
      decreases end + 1 - start, 3, 0
    {
      var needle := TakeArgument();
      var replacement: Option<string> := None;
      var fn := TakeLambda(None);
      if fn.None? {
        var text := TakeArgument();
        replacement := Some(BuiltIns.StringOf(text));
      }
      r := Replaced(context.Env(), BuiltIns.StringOf(needle), replacement, value);
    }

    /** Invoking a resolved function on this context: its result, `None` when it throws. */
    method CallFunction(fn: Registry.PipeFunction) returns (v: Option<Value>)
      requires Valid()
      modifies this, context, context.globals
      ensures Valid() && context.stack == old(context.stack)
      ensures CallOut(v, State(), context.World()) == Call(context.Env(), pipe, fn, old(State()), old(context.World()))
      decreases end + 1 - start, 4, 1
    {
      match fn
      case PipeOp => v := CallPipe();
      case AndOp => v := CallLogic(true);
      case OrOp => v := CallLogic(false);
      case AsOp => v := CallAs();
      case LetOp => v := CallLet();
      case NotOp => v := CallNot();
      case TestOp =>
        var t := Test();
        v := Some(t);
      case ReplaceOp =>
        var t := Replace();
        v := Some(t);
      case InOp => v := CallIn();
      case Native(op) => v := CallNative(op);
      case Host(arity, id) => v := CallHost(arity, id);
      case Printf(format) => v := context.printf(format, value);
    }

    /** `|`: the value is pushed and the pipe restarts at the next argument. */
    method CallPipe() returns (v: Option<Value>)
      requires Valid()
      modifies this, context, context.globals
      ensures Valid() && context.stack == old(context.stack)
      ensures CallOut(v, State(), context.World()) == PipeCall(context.Env(), pipe, old(State()), old(context.World()))
      decreases end + 1 - start, 4, 0
    {
      var pushed := Push(value);
      var t := Reset();
      v := Some(t);
    }

    /** `&&` and `||`: the pipe goes on when the value decides nothing, else it stops. */
    method CallLogic(and: bool) returns (v: Option<Value>)
      requires Valid()
      modifies this, context, context.globals
      ensures Valid() && context.stack == old(context.stack)
      ensures CallOut(v, State(), context.World()) == LogicCall(context.Env(), pipe, and, old(State()), old(context.World()))
      decreases end + 1 - start, 4, 0
    {
      var t;
      if Truthy(value) == and {
        t := Reset();
      } else {
        t := Stop();
      }
      v := Some(t);
    }

    /** `as`: the next raw argument names a global that gets the value. */
    method CallAs() returns (v: Option<Value>)
      requires Valid()
      modifies this, context.globals
      ensures Valid() && context.stack == old(context.stack)
      ensures CallOut(v, State(), context.World()) == AsCall(pipe, old(State()), old(context.World()))
    {
      ghost var c0, w0, env := State(), context.World(), context.Env();
      var raw := TakeArgumentAsRaw();
      context.SetGlobal(BuiltIns.StringOf(raw), value);
      v := Some(value);
    }

    /** `let` yields undefined. */
    method CallLet() returns (v: Option<Value>)
      requires Valid()
      modifies this, context, context.globals
      ensures Valid() && context.stack == old(context.stack)
      ensures CallOut(v, State(), context.World()) == LetCall(context.Env(), pipe, old(State()), old(context.World()))
      decreases end + 1 - start, 4, 0
    {
      LetAll();
      v := Some(Undefined);
    }

    /** `!`: the negation of the next argument, or of the value when none is left. */
    method CallNot() returns (v: Option<Value>)
      requires Valid()
      modifies this, context, context.globals
      ensures Valid() && context.stack == old(context.stack)
      ensures CallOut(v, State(), context.World()) == NotCall(context.Env(), pipe, old(State()), old(context.World()))
      decreases end + 1 - start, 4, 0
    {
      var t := value;
      if i <= end {
        t := TakeArgument();
      }
      v := Some(Bool(!Truthy(t)));
    }

    /** `in`: whether the value is among the next argument's items. */
    method CallIn() returns (v: Option<Value>)
      requires Valid()
      modifies this, context, context.globals
      ensures Valid() && context.stack == old(context.stack)
      ensures CallOut(v, State(), context.World()) == InCall(context.Env(), pipe, old(State()), old(context.World()))
      decreases end + 1 - start, 4, 0
    {
      var b := TakeArgument();
      v := Some(Bool(BuiltIns.InCollection(value, b)));
    }

    /** A built-in function: its arguments, then the delegate. */
    method CallNative(op: BuiltIns.Op) returns (v: Option<Value>)
      requires Valid()
      modifies this, context, context.globals
      ensures Valid() && context.stack == old(context.stack)
      ensures CallOut(v, State(), context.World()) == NativeCall(context.Env(), pipe, op, old(State()), old(context.World()))
      decreases end + 1 - start, 4, 0
    {
      var args := TakeArguments(BuiltIns.Arity(op));
      v := context.native(op, value, args);
    }

    /** A host function: its arguments, then the call, whose nested template runs add to the counter. */
    method CallHost(arity: nat, id: nat) returns (v: Option<Value>)
      requires Valid()
      modifies this, context, context.globals
      ensures Valid() && context.stack == old(context.stack)
      ensures CallOut(v, State(), context.World()) == HostCall(context.Env(), pipe, arity, id, old(State()), old(context.World()))
      decreases end + 1 - start, 4, 0
    {
      ghost var c0, w0, env := State(), context.World(), context.Env();
      var args := TakeArguments(arity);
      ghost var a := TakeN(env, pipe, c0, w0, arity);
      assert args == a.vs && State() == a.c && context.World() == a.w;
      var h := context.host(id, value, args);
      assert h == env.host(id, c0.value, a.vs);
      context.AddRuns(h.runs);
      v := h.result;
    }

    /** One turn of the loop: read a function name, resolve it, call it, and record what goes wrong. */
    method Turn()
      requires Valid() && i <= end
      modifies this, context, context.globals
      ensures Valid() && context.stack == old(context.stack)
      ensures (State(), context.World()) == Step(context.Env(), pipe, old(State()), old(context.World()))
      decreases end + 1 - start, 5, 1
    {
      var res := context.ResolveFunction(pipe.args[i].text);
      match res
      case Found(fn) =>
        TurnCall(fn);
      case NotFound =>
        var at := i;
        var v := if at == resetPos && pipe.args[at].mode == Pipes.Constant then pipe.args[at].value else Undefined;
        Advance();
        SetValue(v);
        if at != resetPos {
          context.AddException(ErrorAt(context.Env(), pipe, at, at, true));
        }
      case Failed =>
        var at := i;
        Advance();
        context.AddException(ErrorAt(context.Env(), pipe, at, at, false));
    }

    /** A turn whose name resolved: the function is called, and a throw is recorded. */
    method TurnCall(fn: Registry.PipeFunction)
      requires Valid() && i <= end
      requires Registry.Resolve(context.Env().resolvers, context.Env().functions, pipe.args[i].text) == Registry.Found(fn)
      modifies this, context, context.globals
      ensures Valid() && context.stack == old(context.stack)
      ensures (State(), context.World()) == Step(context.Env(), pipe, old(State()), old(context.World()))
      decreases end + 1 - start, 5, 0
    {
      ghost var c0, w0, env := State(), context.World(), context.Env();
      var at := i;
      Advance();
      var r := CallFunction(fn);
      StepFound(env, pipe, c0, w0, fn, CallOut(r, State(), context.World()));
      if r.Some? {
        SetValue(r.value);
      } else {
        context.AddException(ErrorAt(context.Env(), pipe, at, i - 1, false));
      }
    }

    /** The cursor moves past the name. */
    method Advance()
      requires Valid() && i <= end
      modifies this
      ensures Valid() && context.World() == old(context.World())
      ensures State() == old(State()).(i := old(i) + 1)
    {
      i := i + 1;
    }

    /** The loop of `Evaluate()`: turns until the cursor passes the end. */
    method RunTurns()
      requires Valid()
      modifies this, context, context.globals
      ensures Valid() && context.stack == old(context.stack)
      ensures Run(context.Env(), pipe, old(State()), old(context.World())) == Out(Yielded(State()), State(), context.World())
      decreases end + 1 - start, 6, 0
    {
      ghost var env := context.Env();
      ghost var target := Run(env, pipe, State(), context.World());
      while i <= end
        invariant Valid() && context.stack == old(context.stack) && context.Env() == env
        invariant Run(env, pipe, State(), context.World()) == target
        decreases end + 1 - i
      {
        ghost var c0, w0 := State(), context.World();
        Turn();
        RunStep(env, pipe, c0, w0, (State(), context.World()));
      }
    }

    /** The first steps of `Evaluate()`: the cursor at the start, the frame's value as the input. */
    method Enter(v: Value)
      requires Placed() && Unused()
      modifies this
      ensures Valid() && context.World() == old(context.World())
      ensures State() == Ctx(start, end, start, 0, v, Undefined, [])
    {
      i, input := start, v;
    }

    /** Setting the current value. */
    method SetValue(v: Value)
      requires Valid()
      modifies this
      ensures Valid() && context.World() == old(context.World())
      ensures State() == old(State()).(value := v)
    {
      value := v;
    }

    /** The last step of `Evaluate()`: the value, or the pushed values and the value flattened. */
    method Result() returns (r: Value)
      requires Valid()
      modifies this
      ensures Valid() && context.World() == old(context.World())
      ensures r == Yielded(old(State()))
    {
      if |returnArray| > 0 {
        returnArray := returnArray + [value];
        r := Extension.Flatten(Arr(returnArray));
      } else {
        r := value;
      }
    }

    /**
     * `Evaluate()`: the input is the current frame's value; reset, then call
     * functions until the cursor passes the end. With anything pushed the
     * result is the pushed values and the last value, flattened.
     */
    method Evaluate() returns (r: Value)
      requires Placed() && Unused()
      modifies this, context, context.globals
      ensures context.Valid() && context.stack == old(context.stack)
      ensures (r, context.World()) == PipeSpec.Evaluate(context.Env(), pipe, start, end, old(context.World()))
      decreases end + 1 - start, 7, 1
    {
      var valid, v := context.EvaluatePath(Paths.Empty, false);
      Enter(v);
      r := Drive();
    }

    /** Reset, then the loop, then the result. */
    method Drive() returns (r: Value)
      requires Valid()
      modifies this, context, context.globals
      ensures context.Valid() && context.stack == old(context.stack)
      ensures var d := PipeSpec.Drive(context.Env(), pipe, old(State()), old(context.World()));
        r == d.v && context.World() == d.w
      decreases end + 1 - start, 7, 0
    {
      var first := Reset();
      SetValue(first);
      RunTurns();
      r := Result();
    }
  }

  /** `Pipe.Evaluate(context)`: a new context over the whole pipe, evaluated. */
  method EvaluatePipe(context: EvaluationContext, pipe: PipeView) returns (r: Value)
    requires context.Valid() && Nested(pipe.args) && Inside(pipe.args, 0, |pipe.args| - 1)
    modifies context, context.globals
    ensures context.Valid() && context.stack == old(context.stack)
    ensures (r, context.World()) == PipeSpec.EvaluatePipe(context.Env(), pipe, old(context.World()))
  {
    var p := new PipeContext(context, pipe);
    r := p.Evaluate();
  }
}
