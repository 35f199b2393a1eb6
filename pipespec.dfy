/**
 * What evaluating a pipe does, as functions of the evaluator's state: the
 * cursor protocol of `PipeContext` (take, take raw, take a lambda, reset,
 * stop, push), the built-in functions that drive it, and the loop that reads
 * function names and calls them. The state is split in two: `Ctx`, the
 * fields of one pipe context, and `World`, what the evaluation context
 * shares between them (the frames, the globals, the recorded errors and the
 * reentrancy counter). `PipeContexts.PipeContext` is proved to compute
 * exactly these functions.
 */
module PipeSpec {
  import opened Wrappers
  import opened Text
  import opened Values
  import opened Frames
  import Paths
  import Pipes
  import opened PipeViews
  import Globals
  import Registry
  import BuiltIns
  import Lambdas
  import Helper
  import StdIO
  import CallSites
  import Extension

  /** What a function registered by the host program returns: a value or an error, and how many template runs ended in string mode meanwhile. */
  datatype HostAnswer = HostAnswer(result: Option<Value>, runs: nat)

  /**
   * What stays fixed while a template runs: its text, the function registry,
   * the behaviour of code this model does not contain -- host functions and
   * the regular expression engine's `Replace` (`None` when the pattern does
   * not parse) -- and the delegates the registry resolves names to: the
   * built-in functions and the `%` functions. Every evaluation context
   * makes the last two `BuiltIns.Natives()` and `PrintfResult` (see
   * `Contexts.EvaluationContext`); the pipe functions below only call them.
   */
  datatype Env = Env(
    input: string,
    resolvers: seq<Registry.Resolver>,
    functions: map<string, Registry.PipeFunction>,
    host: (nat, Value, seq<Value>) -> HostAnswer,
    regex: (string, string, string, Option<string>) -> Option<string>,
    native: (BuiltIns.Op, Value, seq<Value>) -> Option<Value>,
    printf: (string, Value) -> Option<Value>)

  /** A recorded `PipeExecutionException`: where, and whether it was an unknown function name. */
  datatype PipeError = PipeError(site: CallSites.CallSite, unresolved: bool)

  /** The evaluation context as pipes see it. */
  datatype World = World(frames: seq<FrameView>, globals: seq<(string, Value)>, errors: seq<PipeError>, count: nat)

  /** The fields of a pipe context: its range, cursor, reset position, input, current value and pushed values. */
  datatype Ctx = Ctx(start: nat, end: int, i: nat, resetPos: int, input: Value, value: Value, pushed: seq<Value>)

  /** A lambda taken from the pipe: the bracketed run opening at `at`, or one made by a factory from a value. */
  datatype Lambda = Bracketed(at: nat) | Made(factory: Lambdas.Factory, obj: Value)

  datatype Out = Out(v: Value, c: Ctx, w: World)
  datatype CallOut = CallOut(v: Option<Value>, c: Ctx, w: World)
  datatype LambdaOut = LambdaOut(fn: Option<Lambda>, c: Ctx, w: World)
  datatype ArgsOut = ArgsOut(vs: seq<Value>, c: Ctx, w: World)

  /** A context the evaluator can work in: lambdas nest, the range is closed under them, the cursor is in it, a frame exists. */
  predicate Ready(view: PipeView, c: Ctx, w: World) {
    Nested(view.args) && Inside(view.args, c.start, c.end) && c.start <= c.i <= c.end + 1 && |w.frames| >= 1
  }

  /** What every step keeps: the range, the frames, the errors so far, a 16-bit counter; the cursor only moves forward. */
  predicate Follows(c: Ctx, w: World, c2: Ctx, w2: World) {
    c2.start == c.start && c2.end == c.end && c.i <= c2.i <= c.end + 1 && Keeps(w, w2)
  }

  predicate Keeps(w: World, w2: World) {
    w2.frames == w.frames && w.errors <= w2.errors && (w.count < 65536 ==> w2.count < 65536)
  }

  function Scope(w: World): Paths.Scope { Paths.Scope(w.frames, w.globals) }

  /** The frame `Push(obj, index)` adds: a one-entry object keyed by the index's string form, already moved to that entry. */
  function EntryFrame(obj: Value, index: Value): FrameView {
    FrameView(obj, Str(ToStr(index)), Num(0), 1)
  }

  /** Records an error whose highlight runs from argument `from` to argument `to`. */
  function Raise(env: Env, view: PipeView, w: World, from: nat, to: nat, unresolved: bool): (w2: World)
    requires from <= to < |view.args|
    ensures w2.frames == w.frames && w2.globals == w.globals && w2.count == w.count
    ensures |w2.errors| == |w.errors| + 1 && w.errors <= w2.errors
    ensures w2.errors[|w.errors|].unresolved == unresolved
    ensures w2.errors[|w.errors|].site.highlightStart == Some(view.args[from].startIndex)
    ensures w2.errors[|w.errors|].site.highlightEnd == Some(view.args[to].endIndex)
  {
    w.(errors := w.errors + [ErrorAt(env, view, from, to, unresolved)])
  }

  /** The error recorded for a failure while arguments `from .. to` were read: its call site highlights them. */
  function ErrorAt(env: Env, view: PipeView, from: nat, to: nat, unresolved: bool): (e: PipeError)
    requires from <= to < |view.args|
    ensures e.unresolved == unresolved
    ensures e.site.highlightStart == Some(view.args[from].startIndex) && e.site.highlightEnd == Some(view.args[to].endIndex)
  {
    PipeError(CallSites.CallSite(env.input, view.startIndex, view.endIndex,
      Some(view.args[from].startIndex), Some(view.args[to].endIndex)), unresolved)
  }

  /** The value a pipe yields: its last value, or, once anything was pushed, the pushed values and the last one flattened. */
  function Yielded(c: Ctx): Value {
    if |c.pushed| > 0 then Extension.Flattened(Arr(c.pushed + [c.value])) else c.value
  }

  // ---------------------------------------------------------------------
  // Lambdas and the cursor

  /**
   * Calling a lambda on `(obj, index)`. A bracketed one pushes a frame for
   * the entry, evaluates the arguments between its brackets as a pipe of
   * their own and pops the frame again.
   */
  function Invoke(env: Env, view: PipeView, fn: Lambda, obj: Value, index: Value, w: World): (r: (Value, World))
    requires Nested(view.args) && |w.frames| >= 1
    requires fn.Bracketed? ==> fn.at < |view.args| && view.args[fn.at].length > 0
    ensures Keeps(w, r.1)
    decreases if fn.Bracketed? then view.args[fn.at].length else 0, 0, 0
  {
    match fn
    case Made(f, o) => (Lambdas.CreateLambda(f, o)(obj, index), w)
    case Bracketed(at) =>
      var len := view.args[at].length;
      var r := Evaluate(env, view, at + 1, at + len - 1, w.(frames := [EntryFrame(obj, index)] + w.frames));
      (r.0, r.1.(frames := w.frames))
  }

  /** A bracketed lambda is its body evaluated under the entry's frame, which is dropped afterwards. */
  lemma InvokeBracketed(env: Env, view: PipeView, at: nat, obj: Value, index: Value, w: World,
                        start: nat, end: int, w1: World, r: Value, w2: World)
    requires Nested(view.args) && |w.frames| >= 1 && at < |view.args| && view.args[at].length > 0
    requires start == at + 1 && end == at + view.args[at].length - 1 && w1 == w.(frames := [EntryFrame(obj, index)] + w.frames)
    requires Inside(view.args, start, end) && (r, w2) == Evaluate(env, view, start, end, w1)
    ensures Invoke(env, view, Bracketed(at), obj, index, w) == (r, w2.(frames := w.frames))
  {
  }

  /**
   * `TakeArgument`. Past the end: the input at the reset position, else
   * undefined. A constant: its literal. A bracketed lambda: skipped and
   * called on the current value (the input at the reset position). Else the
   * argument's path, when the argument is marked `$`, or the path resolves
   * and (this is the reset position, or the current value is not primitive,
   * or the path's value is primitive); otherwise the literal text -- except
   * at the reset position, where the input is returned and the argument is
   * left for the loop to read as a function name.
   */
  function Take(env: Env, view: PipeView, c: Ctx, w: World): (r: Out)
    requires Ready(view, c, w)
    ensures Follows(c, w, r.c, r.w) && r.c.resetPos == c.resetPos && r.c.input == c.input
    ensures r.c.value == c.value && r.c.pushed == c.pushed
    decreases c.end + 1 - c.start, 1, 0
  {
    var reset := c.resetPos == c.i;
    if c.i > c.end then Out(if reset then c.input else Undefined, c, w)
    else
      var a := view.args[c.i];
      if a.mode == Pipes.Constant then Out(a.value, c.(i := c.i + 1), w)
      else if a.length > 0 then
        var r := Invoke(env, view, Bracketed(c.i), if reset then c.input else c.value, Undefined, w);
        Out(r.0, c.(i := c.i + a.length + 1), r.1)
      else
        var (valid, v) := Paths.Eval(a.path, Scope(w), reset);
        if a.mode == Pipes.Evaluated || (valid && (reset || !IsPrimitive(c.value) || IsPrimitive(v))) then
          Out(v, c.(i := c.i + 1), w)
        else if reset then Out(c.input, c, w)
        else Out(a.value, c.(i := c.i + 1), w)
  }

  /** `Reset`: the current position becomes the reset position, then an argument is taken. */
  function Reset(env: Env, view: PipeView, c: Ctx, w: World): (r: Out)
    requires Ready(view, c, w)
    ensures Follows(c, w, r.c, r.w) && r.c.resetPos == c.i
    ensures r.c.value == c.value && r.c.pushed == c.pushed && r.c.input == c.input
    decreases c.end + 1 - c.start, 2, 0
  {
    Take(env, view, c.(resetPos := c.i), w)
  }

  /** `TakeArgumentAsRaw`: a bracketed lambda as a function value, else the literal; undefined past the end. */
  function TakeRaw(view: PipeView, c: Ctx): (r: (Value, Ctx))
    requires Inside(view.args, c.start, c.end) && c.start <= c.i <= c.end + 1
    ensures r.1 == c.(i := r.1.i) && c.i <= r.1.i <= c.end + 1
    ensures c.i <= c.end ==> r.1.i > c.i
  {
    if c.i > c.end then (Undefined, c)
    else if view.args[c.i].length > 0 then (Fn(c.i), c.(i := c.i + view.args[c.i].length + 1))
    else (view.args[c.i].value, c.(i := c.i + 1))
  }

  /** `TakeLambda(factory)`: a bracketed lambda when one opens here, else one the factory makes from the next argument, else none. */
  function TakeLambda(env: Env, view: PipeView, c: Ctx, w: World, factory: Option<Lambdas.Factory>): (r: LambdaOut)
    requires Ready(view, c, w)
    ensures Follows(c, w, r.c, r.w) && r.c == c.(i := r.c.i)
    ensures factory.Some? ==> r.fn.Some?
    ensures r.fn.Some? ==> Within(view, c.start, c.end, r.fn.value)
    decreases c.end + 1 - c.start, 2, 0
  {
    if c.i <= c.end && view.args[c.i].length > 0 then
      LambdaOut(Some(Bracketed(c.i)), c.(i := c.i + view.args[c.i].length + 1), w)
    else if factory.Some? then
      var t := Take(env, view, c, w);
      LambdaOut(Some(Made(factory.value, t.v)), t.c, t.w)
    else LambdaOut(None, c, w)
  }

  /** `n` arguments taken one after another, as a function of fixed arity pulls them. */
  function TakeN(env: Env, view: PipeView, c: Ctx, w: World, n: nat): (r: ArgsOut)
    requires Ready(view, c, w)
    ensures Follows(c, w, r.c, r.w) && r.c == c.(i := r.c.i) && |r.vs| == n
    decreases c.end + 1 - c.start, 2, n
  {
    if n == 0 then ArgsOut([], c, w)
    else
      var t := Take(env, view, c, w);
      var rest := TakeN(env, view, t.c, t.w, n - 1);
      ArgsOut([t.v] + rest.vs, rest.c, rest.w)
  }

  /** What taking `m` more arguments makes of the ones taken so far, `vs`. */
  function TakeMore(env: Env, view: PipeView, vs: seq<Value>, c: Ctx, w: World, m: nat): (r: ArgsOut)
    requires Ready(view, c, w)
    ensures |r.vs| == |vs| + m
  {
    var rest := TakeN(env, view, c, w, m);
    ArgsOut(vs + rest.vs, rest.c, rest.w)
  }

  /** Taking one more argument moves it from the arguments to come to the ones taken. */
  lemma TakeMoreStep(env: Env, view: PipeView, vs: seq<Value>, c: Ctx, w: World, m: nat, t: Out)
    requires Ready(view, c, w) && m > 0 && t == Take(env, view, c, w)
    ensures Ready(view, t.c, t.w)
    ensures TakeMore(env, view, vs, c, w, m) == TakeMore(env, view, vs + [t.v], t.c, t.w, m - 1)
  {
    var rest := TakeN(env, view, t.c, t.w, m - 1);
    assert vs + ([t.v] + rest.vs) == (vs + [t.v]) + rest.vs;
  }

  // ---------------------------------------------------------------------
  // Built-in functions that drive the cursor

  /** `let`: while arguments remain, a raw name and then a value, assigned to the globals. */
  function Let(env: Env, view: PipeView, c: Ctx, w: World): (r: (Ctx, World))
    requires Ready(view, c, w)
    ensures Follows(c, w, r.0, r.1) && r.0 == c.(i := r.0.i) && r.0.i == c.end + 1
    decreases c.end + 1 - c.start, 3, c.end + 1 - c.i
  {
    if c.i > c.end then (c, w)
    else
      var (raw, c1) := TakeRaw(view, c);
      var t := Take(env, view, c1, w);
      Let(env, view, t.c, t.w.(globals := Globals.Assigned(t.w.globals, BuiltIns.StringOf(raw), t.v)))
  }

  /** One round of `let`: a raw name, a value, an assignment. */
  lemma LetStep(env: Env, view: PipeView, c: Ctx, w: World, raw: Value, c1: Ctx, t: Out)
    requires Ready(view, c, w) && c.i <= c.end && (raw, c1) == TakeRaw(view, c)
    requires Ready(view, c1, w) && t == Take(env, view, c1, w)
    ensures Let(env, view, c, w) == Let(env, view, t.c, t.w.(globals := Globals.Assigned(t.w.globals, BuiltIns.StringOf(raw), t.v)))
  {
  }

  /** A lambda that, when bracketed, opens and closes between `start` and `end`. */
  predicate Within(view: PipeView, start: int, end: int, fn: Lambda) {
    fn.Bracketed? ==>
      start <= fn.at <= end && fn.at < |view.args| && view.args[fn.at].length > 0 && fn.at + view.args[fn.at].length <= end
  }

  /** The choice `?` makes: `cond` on the value, then `yes` when that is truthy, else `no`. */
  function Decide(env: Env, view: PipeView, start: int, end: int, cond: Lambda, yes: Lambda, no: Lambda, value: Value, w: World): (r: (Value, World))
    requires Nested(view.args) && |w.frames| >= 1 && start <= end + 1
    requires Within(view, start, end, cond) && Within(view, start, end, yes) && Within(view, start, end, no)
    ensures Keeps(w, r.1)
    decreases end + 1 - start, 2, 1
  {
    var (b, w1) := Invoke(env, view, cond, value, Undefined, w);
    Invoke(env, view, if Truthy(b) then yes else no, value, Undefined, w1)
  }

  /** `?`: three lambdas (constants when not bracketed); the first decides which of the other two is called. */
  function Test(env: Env, view: PipeView, c: Ctx, w: World): (r: CallOut)
    requires Ready(view, c, w)
    ensures Follows(c, w, r.c, r.w) && r.c == c.(i := r.c.i) && r.v.Some?
    decreases c.end + 1 - c.start, 3, 0
  {
    var f1 := TakeLambda(env, view, c, w, Some(Lambdas.ConstantFactory));
    var f2 := TakeLambda(env, view, f1.c, f1.w, Some(Lambdas.ConstantFactory));
    var f3 := TakeLambda(env, view, f2.c, f2.w, Some(Lambdas.ConstantFactory));
    var (v, w5) := Decide(env, view, c.start, c.end, f1.fn.value, f2.fn.value, f3.fn.value, c.value, f3.w);
    CallOut(Some(v), f3.c, w5)
  }

  /** `?` in its phases: three lambdas taken in turn, then the choice among them on the value. */
  lemma TestPhases(env: Env, view: PipeView, c: Ctx, w: World, f1: LambdaOut, f2: LambdaOut, f3: LambdaOut, v: Value, w5: World)
    requires Ready(view, c, w)
    requires f1 == TakeLambda(env, view, c, w, Some(Lambdas.ConstantFactory))
    requires f2 == TakeLambda(env, view, f1.c, f1.w, Some(Lambdas.ConstantFactory))
    requires f3 == TakeLambda(env, view, f2.c, f2.w, Some(Lambdas.ConstantFactory))
    requires (v, w5) == Decide(env, view, c.start, c.end, f1.fn.value, f2.fn.value, f3.fn.value, c.value, f3.w)
    ensures Test(env, view, c, w) == CallOut(Some(v), f3.c, w5)
  {
  }

  /**
   * The replacement `replace` makes: through the regular expression when the
   * needle is written `/pattern/flags` and the pattern parses; otherwise the
   * first ordinal occurrence of the needle is replaced (by nothing when a
   * lambda was given), and with no occurrence the value is returned as it is.
   */
  function Replaced(env: Env, needle: string, replacement: Option<string>, value: Value): (r: Value)
    ensures Helper.SplitRegExp(needle).None? && IndexOf(BuiltIns.StringOf(value), needle).None? ==> r == value
  {
    var str := BuiltIns.StringOf(value);
    var re := Helper.SplitRegExp(needle);
    if re.Some? && env.regex(re.value.0, re.value.1, str, replacement).Some? then
      Str(env.regex(re.value.0, re.value.1, str, replacement).value)
    else
      match IndexOf(str, needle)
      case Some(pos) =>
        Str(str[..pos] + (if replacement.Some? then replacement.value else "") + str[pos + |needle|..])
      case None => value
  }

  /** `replace`: a needle, then a lambda or a replacement text. */
  function Replace(env: Env, view: PipeView, c: Ctx, w: World): (r: CallOut)
    requires Ready(view, c, w)
    ensures Follows(c, w, r.c, r.w) && r.c == c.(i := r.c.i) && r.v.Some?
    decreases c.end + 1 - c.start, 3, 0
  {
    var t := Take(env, view, c, w);
    var l := TakeLambda(env, view, t.c, t.w, None);
    if l.fn.None? then
      var t2 := Take(env, view, l.c, l.w);
      CallOut(Some(Replaced(env, BuiltIns.StringOf(t.v), Some(BuiltIns.StringOf(t2.v)), c.value)), t2.c, t2.w)
    else CallOut(Some(Replaced(env, BuiltIns.StringOf(t.v), None, c.value)), l.c, l.w)
  }

  /**
   * A `%` function: the name is the format, the current value (converted to
   * a parameter by `unwrap`) its only parameter; `None` when formatting throws.
   */
  function PrintfResult(unwrap: Value -> StdIO.Param, numeric: StdIO.NumericFormat, format: string, value: Value): Option<Value> {
    StdIO.NextAdvances();
    match StdIO.Format(format, 0, [unwrap(value)], 0, StdIO.Next, StdIO.RendererOf(numeric))
    case Some(s) => Some(Str(s))
    case None => None
  }

  /** The `sprintf` a run uses, from how parameters are unwrapped and numbers written. */
  function Printer(unwrap: Value -> StdIO.Param, numeric: StdIO.NumericFormat): (string, Value) -> Option<Value> {
    (format: string, value: Value) => PrintfResult(unwrap, numeric, format, value)
  }

  /** Invoking a resolved function: its result (`None` when it throws) and the state after it. */
  function Call(env: Env, view: PipeView, fn: Registry.PipeFunction, c: Ctx, w: World): (r: CallOut)
    requires Ready(view, c, w)
    ensures Follows(c, w, r.c, r.w) && r.c.input == c.input && r.c.value == c.value
    ensures r.v.None? ==> fn.Native? || fn.Host? || fn.Printf?
    decreases c.end + 1 - c.start, 4, 1
  {
    match fn
    case PipeOp => PipeCall(env, view, c, w)
    case AndOp => LogicCall(env, view, true, c, w)
    case OrOp => LogicCall(env, view, false, c, w)
    case AsOp => AsCall(view, c, w)
    case LetOp => LetCall(env, view, c, w)
    case NotOp => NotCall(env, view, c, w)
    case TestOp => Test(env, view, c, w)
    case ReplaceOp => Replace(env, view, c, w)
    case InOp => InCall(env, view, c, w)
    case Native(op) => NativeCall(env, view, op, c, w)
    case Host(arity, id) => HostCall(env, view, arity, id, c, w)
    case Printf(format) => CallOut(env.printf(format, c.value), c, w)
  }

  /** `|`: the value is pushed and the pipe restarts at the next argument. */
  function PipeCall(env: Env, view: PipeView, c: Ctx, w: World): (r: CallOut)
    requires Ready(view, c, w)
    ensures Follows(c, w, r.c, r.w) && r.c.input == c.input && r.c.value == c.value && r.v.Some?
    decreases c.end + 1 - c.start, 4, 0
  {
    var t := Reset(env, view, c.(pushed := c.pushed + [c.value]), w);
    CallOut(Some(t.v), t.c, t.w)
  }

  /**
   * `&&` (`and`) and `||` (not `and`): when the value does not decide the
   * outcome the pipe restarts at the next argument; otherwise the value is
   * kept and the cursor moves past the end.
   */
  function LogicCall(env: Env, view: PipeView, and: bool, c: Ctx, w: World): (r: CallOut)
    requires Ready(view, c, w)
    ensures Follows(c, w, r.c, r.w) && r.c.input == c.input && r.c.value == c.value && r.v.Some?
    decreases c.end + 1 - c.start, 4, 0
  {
    if Truthy(c.value) == and then
      var t := Reset(env, view, c, w);
      CallOut(Some(t.v), t.c, t.w)
    else CallOut(Some(c.value), c.(i := c.end + 1), w)
  }

  /** `as`: the next raw argument names a global that gets the value. */
  function AsCall(view: PipeView, c: Ctx, w: World): (r: CallOut)
    requires Ready(view, c, w)
    ensures Follows(c, w, r.c, r.w) && r.c.input == c.input && r.c.value == c.value && r.v.Some?
  {
    var (raw, c1) := TakeRaw(view, c);
    CallOut(Some(c.value), c1, w.(globals := Globals.Assigned(w.globals, BuiltIns.StringOf(raw), c.value)))
  }

  /** `let` yields undefined. */
  function LetCall(env: Env, view: PipeView, c: Ctx, w: World): (r: CallOut)
    requires Ready(view, c, w)
    ensures Follows(c, w, r.c, r.w) && r.c.input == c.input && r.c.value == c.value && r.v.Some?
    decreases c.end + 1 - c.start, 4, 0
  {
    var r := Let(env, view, c, w);
    CallOut(Some(Undefined), r.0, r.1)
  }

  /** `!`: the negation of the next argument, or of the value when none is left. */
  function NotCall(env: Env, view: PipeView, c: Ctx, w: World): (r: CallOut)
    requires Ready(view, c, w)
    ensures Follows(c, w, r.c, r.w) && r.c.input == c.input && r.c.value == c.value && r.v.Some?
    decreases c.end + 1 - c.start, 4, 0
  {
    if c.i <= c.end then
      var t := Take(env, view, c, w);
      CallOut(Some(Bool(!Truthy(t.v))), t.c, t.w)
    else CallOut(Some(Bool(!Truthy(c.value))), c, w)
  }

  /** `in`: whether the value is among the next argument's items. */
  function InCall(env: Env, view: PipeView, c: Ctx, w: World): (r: CallOut)
    requires Ready(view, c, w)
    ensures Follows(c, w, r.c, r.w) && r.c.input == c.input && r.c.value == c.value && r.v.Some?
    decreases c.end + 1 - c.start, 4, 0
  {
    var t := Take(env, view, c, w);
    CallOut(Some(Bool(BuiltIns.InCollection(c.value, t.v))), t.c, t.w)
  }

  /** A built-in function: its arguments, then the delegate. */
  function NativeCall(env: Env, view: PipeView, op: BuiltIns.Op, c: Ctx, w: World): (r: CallOut)
    requires Ready(view, c, w)
    ensures Follows(c, w, r.c, r.w) && r.c.input == c.input && r.c.value == c.value
    decreases c.end + 1 - c.start, 4, 0
  {
    var a := TakeN(env, view, c, w, BuiltIns.Arity(op));
    CallOut(env.native(op, c.value, a.vs), a.c, a.w)
  }

  /** A host function: its arguments, then the call, whose nested template runs add to the 16-bit counter. */
  function HostCall(env: Env, view: PipeView, arity: nat, id: nat, c: Ctx, w: World): (r: CallOut)
    requires Ready(view, c, w)
    ensures Follows(c, w, r.c, r.w) && r.c.input == c.input && r.c.value == c.value
    decreases c.end + 1 - c.start, 4, 0
  {
    var a := TakeN(env, view, c, w, arity);
    var h := env.host(id, c.value, a.vs);
    CallOut(h.result, a.c, a.w.(count := (a.w.count + h.runs) % 65536))
  }

  // ---------------------------------------------------------------------
  // The evaluation loop

  /**
   * One turn of the loop of `Evaluate`: read the argument at the cursor as a
   * function name and call it. A function that throws leaves the value and
   * records an error over the arguments it consumed. An unknown name at the
   * reset position yields its constant (or undefined) silently; anywhere
   * else it sets the value to undefined and records an error.
   */
  function Step(env: Env, view: PipeView, c: Ctx, w: World): (r: (Ctx, World))
    requires Ready(view, c, w) && c.i <= c.end
    ensures Follows(c, w, r.0, r.1) && r.0.i > c.i && r.0.input == c.input
    decreases c.end + 1 - c.start, 5, 0
  {
    var at := c.i;
    var c1 := c.(i := c.i + 1);
    match Registry.Resolve(env.resolvers, env.functions, view.args[at].text)
    case Found(fn) =>
      var r := Call(env, view, fn, c1, w);
      if r.v.Some? then (r.c.(value := r.v.value), r.w)
      else (r.c, Raise(env, view, r.w, at, r.c.i - 1, false))
    case NotFound =>
      if at == c.resetPos then
        (c1.(value := if view.args[at].mode == Pipes.Constant then view.args[at].value else Undefined), w)
      else (c1.(value := Undefined), Raise(env, view, w, at, at, true))
    case Failed => (c1, Raise(env, view, w, at, at, false))
  }

  /** A turn whose name resolves calls the function one past the name; a throw is recorded over the arguments it took. */
  lemma StepFound(env: Env, view: PipeView, c: Ctx, w: World, fn: Registry.PipeFunction, r: CallOut)
    requires Ready(view, c, w) && c.i <= c.end
    requires Registry.Resolve(env.resolvers, env.functions, view.args[c.i].text) == Registry.Found(fn)
    requires r == Call(env, view, fn, c.(i := c.i + 1), w)
    ensures c.i < r.c.i <= c.end + 1
    ensures Step(env, view, c, w) == if r.v.Some? then (r.c.(value := r.v.value), r.w) else (r.c, Raise(env, view, r.w, c.i, r.c.i - 1, false))
  {
  }

  /** The loop of `Evaluate`: turns until the cursor passes the end, then the pipe's value. */
  function Run(env: Env, view: PipeView, c: Ctx, w: World): (r: Out)
    requires Ready(view, c, w)
    ensures Follows(c, w, r.c, r.w) && r.c.i == c.end + 1
    decreases c.end + 1 - c.start, 6, c.end + 1 - c.i
  {
    if c.i > c.end then Out(Yielded(c), c, w)
    else
      var s := Step(env, view, c, w);
      Run(env, view, s.0, s.1)
  }

  /** One turn of the loop, then the rest of it. */
  lemma RunStep(env: Env, view: PipeView, c: Ctx, w: World, s: (Ctx, World))
    requires Ready(view, c, w) && c.i <= c.end && s == Step(env, view, c, w)
    ensures Run(env, view, c, w) == Run(env, view, s.0, s.1)
  {
  }

  /** From a fresh context: reset, then the loop; the result is what the final state yields. */
  function Drive(env: Env, view: PipeView, c: Ctx, w: World): (r: Out)
    requires Ready(view, c, w)
    ensures Follows(c, w, r.c, r.w) && r.c.i == c.end + 1
    decreases c.end + 1 - c.start, 7, 0
  {
    var t := Reset(env, view, c, w);
    Run(env, view, t.c.(value := t.v), t.w)
  }

  /** `Evaluate` of a pipe context over `start .. end`: the input is the current frame's value; reset, then run. */
  function Evaluate(env: Env, view: PipeView, start: nat, end: int, w: World): (r: (Value, World))
    requires Nested(view.args) && Inside(view.args, start, end) && |w.frames| >= 1
    ensures Keeps(w, r.1)
    decreases end + 1 - start, 7, 1
  {
    var input := Paths.Evaluate(Paths.Empty, Scope(w));
    var r := Drive(env, view, Ctx(start, end, start, 0, input, Undefined, []), w);
    (r.v, r.w)
  }

  /** A whole pipe, as `Pipe.Evaluate` runs it. */
  function EvaluatePipe(env: Env, view: PipeView, w: World): (r: (Value, World))
    requires Nested(view.args) && Inside(view.args, 0, |view.args| - 1) && |w.frames| >= 1
    ensures Keeps(w, r.1)
  {
    Evaluate(env, view, 0, |view.args| - 1, w)
  }
}
