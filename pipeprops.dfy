/**
 * Properties of pipe evaluation: what one argument costs the cursor, when
 * the pipe stops, how unknown names are treated, what the pushed values
 * become, and whole pipes of one argument.
 */
module PipeProperties {
  import opened Wrappers
  import opened Text
  import opened Values
  import Paths
  import Pipes
  import opened PipeViews
  import Globals
  import Registry
  import BuiltIns
  import Lambdas
  import Helper
  import Extension
  import opened PipeSpec

  /** A constant argument yields its literal and consumes exactly one position; nothing else changes. */
  lemma TakeConstant(env: Env, view: PipeView, c: Ctx, w: World)
    requires Ready(view, c, w) && c.i <= c.end && view.args[c.i].mode == Pipes.Constant
    ensures Take(env, view, c, w) == Out(view.args[c.i].value, c.(i := c.i + 1), w)
  {
  }

  /** A bracketed argument of length `L` becomes a lambda over the arguments inside, and the cursor moves past its close. */
  lemma TakeBracketed(env: Env, view: PipeView, c: Ctx, w: World)
    requires Ready(view, c, w) && c.i <= c.end && view.args[c.i].mode != Pipes.Constant
    requires view.args[c.i].length > 0
    ensures var r := Take(env, view, c, w);
      var len := view.args[c.i].length;
      var inner := Invoke(env, view, Bracketed(c.i), if c.resetPos == c.i then c.input else c.value, Undefined, w);
      r.c.i == c.i + len + 1 && r.v == inner.0 && r.w == inner.1
  {
  }

  /** Away from the reset position, an argument is always consumed: a word that is not a usable path is its own literal. */
  lemma TakeConsumes(env: Env, view: PipeView, c: Ctx, w: World)
    requires Ready(view, c, w) && c.i <= c.end && c.resetPos != c.i
    ensures Take(env, view, c, w).c.i > c.i
  {
  }

  /**
   * At the reset position a plain word is left unconsumed exactly when it is
   * not marked `$` and its path does not resolve; the input is returned and
   * the word is then read as a function name.
   */
  lemma ResetLeavesName(env: Env, view: PipeView, c: Ctx, w: World)
    requires Ready(view, c, w) && c.i <= c.end && c.resetPos == c.i
    requires view.args[c.i].mode != Pipes.Constant && view.args[c.i].length == 0
    ensures var r := Take(env, view, c, w);
      (r.c.i == c.i <==> view.args[c.i].mode == Pipes.Auto && !Paths.Eval(view.args[c.i].path, Scope(w), true).0)
      && (r.c.i == c.i ==> r.v == c.input && r.w == w)
      && (r.c.i != c.i ==> r.v == Paths.Eval(view.args[c.i].path, Scope(w), true).1 && r.c.i == c.i + 1)
  {
  }

  /** Past the end, taking yields the input at the reset position and undefined elsewhere, and consumes nothing. */
  lemma TakePastEnd(env: Env, view: PipeView, c: Ctx, w: World)
    requires Ready(view, c, w) && c.i > c.end
    ensures Take(env, view, c, w) == Out(if c.resetPos == c.i then c.input else Undefined, c, w)
    ensures TakeRaw(view, c) == (Undefined, c)
  {
  }

  /** `&&` on a falsy value (and `||` on a truthy one) keeps the value and moves the cursor past the end, so no later function runs. */
  lemma LogicalStops(env: Env, view: PipeView, c: Ctx, w: World)
    requires Ready(view, c, w)
    ensures !Truthy(c.value) ==> Call(env, view, Registry.AndOp, c, w) == CallOut(Some(c.value), c.(i := c.end + 1), w)
    ensures Truthy(c.value) ==> Call(env, view, Registry.OrOp, c, w) == CallOut(Some(c.value), c.(i := c.end + 1), w)
  {
  }

  /** Once the cursor is past the end the loop calls nothing: the state is left as it is and the result is read from it. */
  lemma StoppedRunsNothing(env: Env, view: PipeView, c: Ctx, w: World)
    requires Ready(view, c, w) && c.i == c.end + 1
    ensures Run(env, view, c, w) == Out(Yielded(c), c, w)
  {
  }

  /** `|` pushes the current value and restarts: the next argument is taken at a new reset position. */
  lemma PipePushes(env: Env, view: PipeView, c: Ctx, w: World)
    requires Ready(view, c, w)
    ensures var r := Call(env, view, Registry.PipeOp, c, w);
      r.c.pushed == c.pushed + [c.value] && r.c.resetPos == c.i
      && r.v == Some(Take(env, view, c.(pushed := c.pushed + [c.value], resetPos := c.i), w).v)
  {
    var t := Reset(env, view, c.(pushed := c.pushed + [c.value]), w);
    assert Call(env, view, Registry.PipeOp, c, w) == PipeCall(env, view, c, w) == CallOut(Some(t.v), t.c, t.w);
  }

  /** With anything pushed, the pipe's result is one flat array: the pushed values then the last one, nested arrays expanded. */
  lemma PushedFlattened(c: Ctx)
    requires |c.pushed| > 0
    ensures Yielded(c) == Extension.Flattened(Arr(c.pushed + [c.value]))
    ensures Yielded(c).Arr? && forall k :: 0 <= k < |Yielded(c).items| ==> Extension.Flat(Yielded(c).items[k])
  {
  }

  /** An unknown name away from the reset position sets the value to undefined, records an error over that argument, and the loop goes on. */
  lemma UnknownNameRecorded(env: Env, view: PipeView, c: Ctx, w: World)
    requires Ready(view, c, w) && c.i <= c.end && c.resetPos != c.i
    requires Registry.Resolve(env.resolvers, env.functions, view.args[c.i].text) == Registry.NotFound
    ensures var w2 := Raise(env, view, w, c.i, c.i, true);
      Step(env, view, c, w) == (c.(i := c.i + 1, value := Undefined), w2)
      && w2.errors[|w.errors|].site.highlightStart == Some(view.args[c.i].startIndex)
      && w2.errors[|w.errors|].site.highlightEnd == Some(view.args[c.i].endIndex)
  {
  }

  /** An unknown name at the reset position yields its constant, or undefined, and records nothing. */
  lemma UnknownAtResetSilent(env: Env, view: PipeView, c: Ctx, w: World)
    requires Ready(view, c, w) && c.i <= c.end && c.resetPos == c.i
    requires Registry.Resolve(env.resolvers, env.functions, view.args[c.i].text) == Registry.NotFound
    ensures var a := view.args[c.i];
      Step(env, view, c, w) == (c.(i := c.i + 1, value := if a.mode == Pipes.Constant then a.value else Undefined), w)
  {
  }

  /** A function that throws leaves the value as it was and records an error over the name and the arguments it took. */
  lemma FailedCallRecorded(env: Env, view: PipeView, c: Ctx, w: World, fn: Registry.PipeFunction, r: CallOut)
    requires Ready(view, c, w) && c.i <= c.end
    requires Registry.Resolve(env.resolvers, env.functions, view.args[c.i].text) == Registry.Found(fn)
    requires r == Call(env, view, fn, c.(i := c.i + 1), w) && r.v.None?
    ensures r.c.value == c.value && c.i < r.c.i <= c.end + 1
    ensures Step(env, view, c, w) == (r.c, Raise(env, view, r.w, c.i, r.c.i - 1, false))
  {
  }

  /** `as` names a global after the next raw argument and stores the current value there, returning it. */
  lemma AsStores(env: Env, view: PipeView, c: Ctx, w: World)
    requires Ready(view, c, w)
    ensures var r := Call(env, view, Registry.AsOp, c, w);
      var name := BuiltIns.StringOf(TakeRaw(view, c).0);
      var j := Globals.IndexOfKey(r.w.globals, name);
      r.v == Some(c.value) && j.Some? && r.w.globals[j.value] == (name, c.value)
  {
  }

  /** `let` consumes every remaining argument and yields undefined. */
  lemma LetConsumesRest(env: Env, view: PipeView, c: Ctx, w: World)
    requires Ready(view, c, w)
    ensures var r := Call(env, view, Registry.LetOp, c, w);
      r.v == Some(Undefined) && r.c.i == c.end + 1
  {
  }

  /** `?` over three constants picks the second when the first is truthy, else the third. */
  lemma TestConstants(env: Env, view: PipeView, c: Ctx, w: World)
    requires Ready(view, c, w) && c.i + 2 <= c.end
    requires forall k :: c.i <= k <= c.i + 2 ==> view.args[k].mode == Pipes.Constant && view.args[k].length == 0
    ensures var r := Call(env, view, Registry.TestOp, c, w);
      var (a, b, d) := (view.args[c.i].value, view.args[c.i + 1].value, view.args[c.i + 2].value);
      r == CallOut(Some(if Truthy(a) then b else d), c.(i := c.i + 3), w)
  {
    var k := Lambdas.ConstantFactory;
    TakeConstant(env, view, c, w);
    var c1 := c.(i := c.i + 1);
    TakeConstant(env, view, c1, w);
    var c2 := c.(i := c.i + 2);
    TakeConstant(env, view, c2, w);
    assert TakeLambda(env, view, c, w, Some(k)) == LambdaOut(Some(Made(k, view.args[c.i].value)), c1, w);
    assert TakeLambda(env, view, c1, w, Some(k)) == LambdaOut(Some(Made(k, view.args[c.i + 1].value)), c2, w);
    assert TakeLambda(env, view, c2, w, Some(k)) == LambdaOut(Some(Made(k, view.args[c.i + 2].value)), c.(i := c.i + 3), w);
    forall x | x in [view.args[c.i].value, view.args[c.i + 1].value, view.args[c.i + 2].value]
      ensures Invoke(env, view, Made(k, x), c.value, Undefined, w) == (x, w)
    {
    }
    var (a, b, d) := (view.args[c.i].value, view.args[c.i + 1].value, view.args[c.i + 2].value);
    assert Decide(env, view, c.start, c.end, Made(k, a), Made(k, b), Made(k, d), c.value, w) == (if Truthy(a) then b else d, w);
  }

  /** Replacing an ordinal needle by itself gives the text back. */
  lemma ReplaceBySelf(env: Env, needle: string, s: string)
    requires Helper.SplitRegExp(needle).None?
    ensures Replaced(env, needle, Some(needle), Str(s)) == Str(s)
  {
    match IndexOf(s, needle)
    case Some(pos) =>
      assert s == s[..pos] + needle + s[pos + |needle|..];
    case None =>
  }

  // ---------------------------------------------------------------------
  // Whole pipes of one argument

  /** A lone constant evaluates to its literal and touches nothing. */
  lemma ConstantPipe(env: Env, view: PipeView, w: World)
    requires |view.args| == 1 && view.args[0].length == 0 && view.args[0].mode == Pipes.Constant && |w.frames| >= 1
    ensures Nested(view.args) && Inside(view.args, 0, 0)
    ensures EvaluatePipe(env, view, w) == (view.args[0].value, w)
  {
    var c := Ctx(0, 0, 0, 0, Paths.Evaluate(Paths.Empty, Scope(w)), Undefined, []);
    var t := Reset(env, view, c, w);
    assert c.(resetPos := 0) == c;
    assert t == Take(env, view, c, w);
    assert t == Out(view.args[0].value, c.(i := 1), w);
    assert Run(env, view, t.c.(value := t.v), t.w) == Out(view.args[0].value, t.c.(value := t.v), w);
  }

  /** A lone word whose path resolves evaluates to the path's value and touches nothing. */
  lemma PathPipe(env: Env, view: PipeView, w: World)
    requires |view.args| == 1 && view.args[0].length == 0 && view.args[0].mode != Pipes.Constant && |w.frames| >= 1
    requires Paths.Eval(view.args[0].path, Scope(w), true).0
    ensures Nested(view.args) && Inside(view.args, 0, 0)
    ensures EvaluatePipe(env, view, w) == (Paths.Eval(view.args[0].path, Scope(w), true).1, w)
  {
    var v := Paths.Eval(view.args[0].path, Scope(w), true).1;
    var c := Ctx(0, 0, 0, 0, Paths.Evaluate(Paths.Empty, Scope(w)), Undefined, []);
    var t := Reset(env, view, c, w);
    assert c.(resetPos := 0) == c;
    assert t == Take(env, view, c, w);
    assert c.resetPos == c.i && view.args[0].mode != Pipes.Constant;
    assert t == Out(v, c.(i := 1), w);
    assert Run(env, view, t.c.(value := t.v), t.w) == Out(v, t.c.(value := t.v), w);
  }

  /** A lone word that is neither a resolvable path nor a function name evaluates to undefined and records no error. */
  lemma UnknownWordPipe(env: Env, view: PipeView, w: World)
    requires |view.args| == 1 && view.args[0].length == 0 && view.args[0].mode == Pipes.Auto && |w.frames| >= 1
    requires !Paths.Eval(view.args[0].path, Scope(w), true).0
    requires Registry.Resolve(env.resolvers, env.functions, view.args[0].text) == Registry.NotFound
    ensures Nested(view.args) && Inside(view.args, 0, 0)
    ensures EvaluatePipe(env, view, w) == (Undefined, w)
  {
    var input := Paths.Evaluate(Paths.Empty, Scope(w));
    var c := Ctx(0, 0, 0, 0, input, Undefined, []);
    var t := Reset(env, view, c, w);
    assert t == Out(input, c, w);
    var c1 := c.(value := input);
    var s := Step(env, view, c1, w);
    assert s == (c1.(i := 1, value := Undefined), w);
    RunStep(env, view, c1, w, s);
    assert Run(env, view, s.0, s.1) == Out(Undefined, s.0, w);
  }
}
