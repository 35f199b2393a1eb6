/**
 * What pipe evaluation reads of a `Pipe`: the span of the pipe and, per
 * argument, its text, literal value, evaluation mode, bracket `Length`,
 * object path and span. Once the arguments are linked none of these change
 * (the two caches only memoize), so the evaluator reads them as a value.
 */
module PipeViews {
  import opened Values
  import opened Pipes
  import Paths

  /** One argument as the evaluator sees it. */
  datatype Arg = Arg(
    text: string,
    value: Value,
    mode: ArgMode,
    length: nat,
    path: Paths.ObjectPath,
    startIndex: int,
    endIndex: int)

  /** A pipe: its span in the template and its arguments in order. */
  datatype PipeView = PipeView(startIndex: int, endIndex: int, args: seq<Arg>)

  function ArgTexts(args: seq<Arg>): (ts: seq<string>)
    ensures |ts| == |args| && forall k :: 0 <= k < |args| ==> ts[k] == args[k].text
  {
    seq(|args|, k requires 0 <= k < |args| => args[k].text)
  }

  /** Every `length` is the bracket distance `Length` computes over the texts from that argument on. */
  predicate Measured(args: seq<Arg>) {
    forall k :: 0 <= k < |args| ==> args[k].length == LambdaLength(ArgTexts(args)[k..], args[k].mode)
  }

  /**
   * The arguments `start .. end` form a run that bracketed lambdas do not
   * leave: every lambda that opens inside it closes inside it.
   */
  predicate Inside(args: seq<Arg>, start: int, end: int) {
    0 <= start <= end + 1 && end < |args|
    && forall k :: start <= k <= end && args[k].length > 0 ==> k + args[k].length <= end
  }

  /** Every lambda's body (between its brackets) is itself such a run. */
  predicate Nested(args: seq<Arg>) {
    forall a :: 0 <= a < |args| && args[a].length > 0 ==>
      a + args[a].length < |args| && Inside(args, a + 1, a + args[a].length - 1)
  }

  /** The argument built from a scanned token, given the texts of the tokens from it on. */
  function ArgOf(t: ArgToken, rest: seq<string>, index: int): (a: Arg)
    requires |rest| >= 1
    ensures a.text == t.text
  {
    var value := ParseValue(t.text);
    MakeArg(t.text, value, ModeOf(value, t.canEvaluate), rest, index + t.start, index + t.end)
  }

  /** An argument from its text, value and mode; its `Length` is computed over the texts from it on. */
  function MakeArg(text: string, value: Value, mode: ArgMode, rest: seq<string>, start: int, end: int): (a: Arg)
    requires |rest| >= 1
    ensures a.text == text && a.mode == mode && a.length == LambdaLength(rest, mode)
  {
    Arg(text, value, mode, LambdaLength(rest, mode), Paths.Parse(text), start, end)
  }

  /** The pipe `new Pipe(str, index)` builds, read as a value. */
  function ViewOfText(str: string, index: int): (v: PipeView)
    ensures v.startIndex == index && v.endIndex == index + |str|
    ensures |v.args| == |ScanArgs(str, 0)| && ArgTexts(v.args) == TextsOf(ScanArgs(str, 0))
  {
    var toks := ScanArgs(str, 0);
    var ts := TextsOf(toks);
    PipeView(index, index + |str|, seq(|toks|, k requires 0 <= k < |toks| => ArgOf(toks[k], ts[k..], index)))
  }

  /** An argument object read as a value, its `Length` computed over the texts from position `k` on. */
  function ArgOfObject(a: PipeArgument, ts: seq<string>, k: nat): (r: Arg)
    requires k < |ts|
    ensures r.text == a.text && r.mode == a.mode && r.length == LambdaLength(ts[k..], a.mode)
  {
    MakeArg(a.text, a.value, a.mode, ts[k..], a.start, a.end)
  }

  /** A pipe object read as a value: the `Length` of each argument is what its getter returns. */
  function ViewOf(p: Pipe): (v: PipeView)
    reads p, p.args
    ensures v.startIndex == p.start && v.endIndex == p.end && |v.args| == |p.args|
  {
    var args := p.args;
    var ts := ChainTexts(args);
    PipeView(p.start, p.end, seq(|args|, k requires 0 <= k < |args| => ArgOfObject(args[k], ts, k)))
  }

  /** The constructed pipe object and the pipe read from its text agree argument by argument. */
  lemma ConstructedView(p: Pipe, str: string, index: int)
    requires p.start == index && p.end == index + |str|
    requires |p.args| == |ScanArgs(str, 0)|
    requires forall k :: 0 <= k < |p.args| ==> Agrees(p.args[k], ScanArgs(str, 0)[k], index)
    ensures ViewOf(p) == ViewOfText(str, index)
  {
    var toks := ScanArgs(str, 0);
    var ts := ChainTexts(p.args);
    assert ts == TextsOf(toks);
    var v, w := ViewOf(p), ViewOfText(str, index);
    forall k | 0 <= k < |p.args| ensures v.args[k] == w.args[k] {
      ArgAgrees(p.args[k], toks[k], ts[k..], index);
    }
    assert v.args == w.args;
  }

  lemma ArgAgrees(a: PipeArgument, t: ArgToken, rest: seq<string>, index: int)
    requires |rest| >= 1 && Agrees(a, t, index)
    ensures MakeArg(a.text, a.value, a.mode, rest, a.start, a.end) == ArgOf(t, rest, index)
  {
  }

  /** The pipe read from a text has every lambda nested properly. */
  lemma TextViewNested(str: string, index: int)
    ensures var v := ViewOfText(str, index);
      Nested(v.args) && Inside(v.args, 0, |v.args| - 1)
  {
    MeasuredNested(ViewOfText(str, index).args);
  }

  // ---------------------------------------------------------------------
  // Bracket matching nests

  lemma {:induction false} DepthAppend(s: seq<string>, t: seq<string>)
    ensures Depth(s + t) == Depth(s) + Depth(t)
    decreases |s|
  {
    if s == [] {
      assert s + t == t;
    } else {
      assert (s + t)[0] == s[0];
      assert (s + t)[1..] == s[1..] + t;
      DepthAppend(s[1..], t);
    }
  }

  /** Depth over a window split at `m`. */
  lemma DepthSplit(ts: seq<string>, i: nat, m: nat, j: nat)
    requires i <= m <= j <= |ts|
    ensures Depth(ts[i..j]) == Depth(ts[i..m]) + Depth(ts[m..j])
  {
    assert ts[i..j] == ts[i..m] + ts[m..j];
    DepthAppend(ts[i..m], ts[m..j]);
  }

  /** Depth over a window grown by one position. */
  lemma DepthSnoc(ts: seq<string>, i: nat, j: nat)
    requires i <= j < |ts|
    ensures Depth(ts[i..j + 1]) == Depth(ts[i..j]) + Delta(ts[j])
  {
    DepthSplit(ts, i, j, j + 1);
    assert ts[j..j + 1] == [ts[j]];
  }

  /**
   * Up to the bracket that closes it, the depth inside a lambda opened at
   * `a` never drops below zero: a drop would need a closing bracket at depth
   * zero, and the first of those is the close.
   */
  lemma {:induction false} PrefixDepth(ts: seq<string>, a: nat, r: nat, j: nat)
    requires a < r < |ts| && a + 1 <= j <= r
    requires forall x :: a + 1 <= x < r && ts[x] == "]" ==> Depth(ts[a + 1..x]) != 0
    ensures Depth(ts[a + 1..j]) >= 0
    decreases j
  {
    if j > a + 1 {
      PrefixDepth(ts, a, r, j - 1);
      DepthSnoc(ts, a + 1, j - 1);
    }
  }

  /** A window whose depth is negative holds a closing bracket reached at depth zero. */
  lemma {:induction false} FindDrop(ts: seq<string>, i: nat, n: nat) returns (y: nat)
    requires i <= n <= |ts| && Depth(ts[i..n]) < 0
    ensures i <= y < n && ts[y] == "]" && Depth(ts[i..y]) == 0
    decreases n
  {
    assert n > i;
    DepthSnoc(ts, i, n - 1);
    if Depth(ts[i..n - 1]) < 0 {
      y := FindDrop(ts, i, n - 1);
    } else {
      y := n - 1;
    }
  }

  /** `CloseAt` over a suffix, in the positions of the whole list. */
  lemma CloseShift(ts: seq<string>, a: nat)
    requires a < |ts|
    ensures var l := CloseAt(ts[a..], 1, 1);
      (l > 0 ==> a + l < |ts| && ts[a + l] == "]" && Depth(ts[a + 1..a + l]) == 0)
      && (l > 0 ==> forall x :: a + 1 <= x < a + l && ts[x] == "]" ==> Depth(ts[a + 1..x]) != 0)
      && (l == 0 ==> forall x :: a + 1 <= x < |ts| && ts[x] == "]" ==> Depth(ts[a + 1..x]) != 0)
  {
    var u := ts[a..];
    var l := CloseAt(u, 1, 1);
    if l > 0 {
      assert u[1..l] == ts[a + 1..a + l];
      forall x | a + 1 <= x < a + l && ts[x] == "]" ensures Depth(ts[a + 1..x]) != 0 {
        assert u[1..x - a] == ts[a + 1..x] && u[x - a] == ts[x];
      }
    } else {
      forall x | a + 1 <= x < |ts| && ts[x] == "]" ensures Depth(ts[a + 1..x]) != 0 {
        assert u[1..x - a] == ts[a + 1..x] && u[x - a] == ts[x];
      }
    }
  }

  /**
   * A lambda opened at `k` strictly inside the lambda opened at `a` closes
   * before it: the depth from `k + 1` to `a`'s close is negative, so a
   * closing bracket at depth zero lies before that close.
   */
  lemma InnerCloses(ts: seq<string>, a: nat, k: nat)
    requires a < k < |ts| && ts[k] == "["
    requires 0 < CloseAt(ts[a..], 1, 1) && k < a + CloseAt(ts[a..], 1, 1)
    ensures 0 < CloseAt(ts[k..], 1, 1) && k + CloseAt(ts[k..], 1, 1) < a + CloseAt(ts[a..], 1, 1)
  {
    var r := a + CloseAt(ts[a..], 1, 1);
    CloseShift(ts, a);
    CloseShift(ts, k);
    PrefixDepth(ts, a, r, k);
    DepthSplit(ts, a + 1, k, r);
    DepthSplit(ts, k, k + 1, r);
    assert ts[k..k + 1] == [ts[k]];
    var y := FindDrop(ts, k + 1, r);
  }

  /** Measured lengths nest: what the evaluator needs to run a lambda's body as a pipe of its own. */
  lemma MeasuredNested(args: seq<Arg>)
    requires Measured(args)
    ensures Nested(args) && Inside(args, 0, |args| - 1)
  {
    var ts := ArgTexts(args);
    forall a | 0 <= a < |args| && args[a].length > 0
      ensures a + args[a].length < |args| && Inside(args, a + 1, a + args[a].length - 1)
    {
      assert args[a].length == CloseAt(ts[a..], 1, 1);
      CloseShift(ts, a);
      forall k | a + 1 <= k <= a + args[a].length - 1 && args[k].length > 0
        ensures k + args[k].length <= a + args[a].length - 1
      {
        assert args[k].length == LambdaLength(ts[k..], args[k].mode);
        assert ts[k..][0] == ts[k];
        InnerCloses(ts, a, k);
      }
    }
    forall k | 0 <= k < |args| && args[k].length > 0 ensures k + args[k].length <= |args| - 1 {
      assert args[k].length == LambdaLength(ts[k..], args[k].mode);
      CloseShift(ts, k);
    }
  }
}
