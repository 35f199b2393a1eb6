/**
 * What the compiler guarantees about the programs it builds: every control
 * token names a slot of the program; once every block is closed, each jump,
 * condition and iteration token jumps strictly forward and no further than
 * the end; each iteration-end token jumps back to the token after its
 * iteration token, whose own jump lands on that iteration-end token.
 */
module CompileProps {
  import opened Wrappers
  import opened Tokens
  import opened CompileSpec
  import Constructs

  /** The slots held by open blocks: their targets are still to be patched. */
  function OpenSlots(c: seq<ControlInfo>): set<nat>
    decreases |c|
  {
    if c == [] then {} else OpenSlots(c[..|c| - 1]) + SlotsOf(c[|c| - 1])
  }

  lemma OpenIndex(c: seq<ControlInfo>, q: nat) returns (i: nat)
    requires q in OpenSlots(c)
    ensures i < |c| && q in SlotsOf(c[i])
    decreases |c|
  {
    if q in SlotsOf(c[|c| - 1]) {
      i := |c| - 1;
    } else {
      i := OpenIndex(c[..|c| - 1], q);
    }
  }

  lemma IndexOpen(c: seq<ControlInfo>, i: nat)
    requires i < |c|
    ensures SlotsOf(c[i]) <= OpenSlots(c)
    decreases |c|
  {
    if i < |c| - 1 {
      IndexOpen(c[..|c| - 1], i);
    }
  }

  lemma OpenPush(c: seq<ControlInfo>, x: ControlInfo)
    ensures OpenSlots(c + [x]) == OpenSlots(c) + SlotsOf(x)
  {
    assert (c + [x])[..|c|] == c;
  }

  lemma OpenBelow(st: CState)
    requires ControlSlots(st)
    ensures forall q :: q in OpenSlots(st.control) ==> q < |st.targets|
  {
    forall q | q in OpenSlots(st.control) ensures q < |st.targets| {
      var i := OpenIndex(st.control, q);
      assert SlotsBelow(st.control[i], |st.targets|);
    }
  }

  /** No slot is held by two open blocks. */
  predicate Distinct(c: seq<ControlInfo>) {
    forall i, j :: 0 <= i < j < |c| ==> SlotsOf(c[i]) !! SlotsOf(c[j])
  }

  lemma LastApart(c: seq<ControlInfo>)
    requires Distinct(c) && |c| > 0
    ensures SlotsOf(c[|c| - 1]) !! OpenSlots(c[..|c| - 1])
  {
    var pre, last := c[..|c| - 1], c[|c| - 1];
    forall q | q in OpenSlots(pre) ensures q !in SlotsOf(last) {
      var i := OpenIndex(pre, q);
      assert pre[i] == c[i];
    }
  }

  /** A forward control token either waits for an open block to patch it, or jumps forward within the program. */
  predicate ForwardOk(st: CState)
    requires SlotsIn(st.tokens, st.targets)
  {
    forall k :: 0 <= k < |st.tokens| && IsForward(st.tokens[k]) ==>
      st.tokens[k].slot in OpenSlots(st.control) || k < st.targets[st.tokens[k].slot] <= |st.tokens|
  }

  /** A pending `elseif` condition belongs to a block whose token is a jump, and is not patched yet. */
  predicate IfClean(st: CState)
    requires ControlSlots(st)
  {
    forall i :: 0 <= i < |st.control| && st.control[i].tokenIf.Some? ==>
      st.control[i].tokenIsJump && st.targets[st.control[i].tokenIf.value] == 0
  }

  /** An open foreach block points at its iteration token. */
  predicate ForeachOk(st: CState) {
    forall i :: 0 <= i < |st.control| && st.control[i].name == "foreach" ==>
      st.control[i].tokenIndex < |st.tokens| && st.tokens[st.control[i].tokenIndex].Iteration?
      && st.tokens[st.control[i].tokenIndex].slot == st.control[i].token
  }

  /** The iteration-end token at `k` and the iteration token it returns to point at each other. */
  predicate PairedAt(st: CState, k: nat)
    requires SlotsIn(st.tokens, st.targets) && k < |st.tokens| && st.tokens[k].IterationEnd?
  {
    var q := st.tokens[k].slot;
    var j := st.targets[q] - 1;
    q !in OpenSlots(st.control) && 0 <= j < k && st.tokens[j].Iteration?
    && st.tokens[j].slot !in OpenSlots(st.control) && st.targets[st.tokens[j].slot] == k
  }

  predicate Paired(st: CState)
    requires SlotsIn(st.tokens, st.targets)
  {
    forall k {:trigger PairedAt(st, k)} :: 0 <= k < |st.tokens| && st.tokens[k].IterationEnd? ==> PairedAt(st, k)
  }

  /** What every state the compiler reaches satisfies. */
  predicate Inv(st: CState) {
    HtmlOk(st) && ControlSlots(st) && SlotsIn(st.tokens, st.targets) && NatTargets(st.targets) && ForwardOk(st)
    && IfClean(st) && ForeachOk(st) && Distinct(st.control) && Paired(st)
  }

  lemma InitialInv()
    ensures Inv(Initial)
  {
  }

  /** The markup splitter keeps the invariant: it leaves control tokens and slots alone. */
  lemma TextInv(st: CState, r: CState)
    requires Inv(st) && TextStep(st, r)
    ensures Inv(r)
  {
    assert forall k :: 0 <= k < |st.tokens| && !st.tokens[k].Html? ==> r.tokens[k] == st.tokens[k];
    forall k | 0 <= k < |r.tokens| && r.tokens[k].IterationEnd? ensures PairedAt(r, k) {
      assert PairedAt(st, k);
    }
  }

  /** Appending a token that is not a control token keeps the invariant. */
  lemma AddInv(st: CState, t: Token)
    requires Inv(st) && !IsControl(t)
    ensures Inv(Add(st, t))
  {
    var r := Add(st, t);
    forall k | 0 <= k < |r.tokens| && r.tokens[k].IterationEnd? ensures PairedAt(r, k) {
      assert PairedAt(st, k);
    }
  }

  lemma OpenIfInv(st: CState, p: PipeSource, negate: bool)
    requires Inv(st)
    ensures Inv(OpenIf(st, p, negate))
  {
    var r := OpenIf(st, p, negate);
    var q := |st.targets|;
    OpenPush(st.control, ControlInfo("if", |st.tokens|, q, false, None));
    OpenBelow(st);
    assert OpenSlots(r.control) == OpenSlots(st.control) + {q};
    forall k | 0 <= k < |r.tokens| && r.tokens[k].IterationEnd? ensures PairedAt(r, k) {
      assert PairedAt(st, k);
    }
    assert Distinct(r.control) by {
      forall i | 0 <= i < |st.control| ensures SlotsOf(r.control[i]) !! {q} {
        assert SlotsBelow(st.control[i], |st.targets|);
      }
    }
  }

  lemma OpenForeachInv(st: CState, p: PipeSource)
    requires Inv(st)
    ensures Inv(OpenForeach(st, p))
  {
    var r := OpenForeach(st, p);
    var q := |st.targets|;
    OpenPush(st.control, ControlInfo("foreach", |st.tokens|, q, false, None));
    OpenBelow(st);
    assert OpenSlots(r.control) == OpenSlots(st.control) + {q};
    forall k | 0 <= k < |r.tokens| && r.tokens[k].IterationEnd? ensures PairedAt(r, k) {
      assert PairedAt(st, k);
    }
    assert Distinct(r.control) by {
      forall i | 0 <= i < |st.control| ensures SlotsOf(r.control[i]) !! {q} {
        assert SlotsBelow(st.control[i], |st.targets|);
      }
    }
  }

  /** What closing a block does to the slots: its own are patched to the current position, the rest stay. */
  lemma CloseBasics(st: CState)
    requires Inv(st) && |st.control| > 0
    ensures SlotsBelow(Last(st), |st.targets|)
    ensures var r, top := Close(st), Last(st);
      OpenSlots(st.control) == OpenSlots(r.control) + SlotsOf(top)
      && SlotsOf(top) !! OpenSlots(r.control)
      && (forall q :: q in OpenSlots(st.control) ==> q < |st.targets|)
      && (forall q :: q in SlotsOf(top) ==> r.targets[q] == |st.tokens|)
      && (forall q :: 0 <= q < |st.targets| && q !in SlotsOf(top) ==> r.targets[q] == st.targets[q])
      && (forall k :: 0 <= k < |st.tokens| ==> r.tokens[k] == st.tokens[k])
  {
    var c := st.control;
    assert SlotsBelow(c[|c| - 1], |st.targets|);
    assert IfClean(st);
    assert Last(st).tokenIf.Some? ==> st.targets[Last(st).tokenIf.value] == 0;
    LastApart(c);
    OpenBelow(st);
  }

  lemma CloseForward(st: CState)
    requires Inv(st) && |st.control| > 0
    ensures SlotsBelow(Last(st), |st.targets|) && SlotsIn(Close(st).tokens, Close(st).targets) && ForwardOk(Close(st))
  {
    CloseBasics(st);
    var r := Close(st);
    var n := |st.tokens|;
    forall k | 0 <= k < |r.tokens| && IsForward(r.tokens[k])
      ensures r.tokens[k].slot in OpenSlots(r.control) || k < r.targets[r.tokens[k].slot] <= |r.tokens|
    {
      assert k < n && r.tokens[k] == st.tokens[k];
    }
  }

  lemma ClosePaired(st: CState)
    requires Inv(st) && |st.control| > 0
    ensures SlotsBelow(Last(st), |st.targets|) && SlotsIn(Close(st).tokens, Close(st).targets) && Paired(Close(st))
  {
    CloseBasics(st);
    var c := st.control;
    var top := Last(st);
    var r := Close(st);
    var n := |st.tokens|;
    forall k | 0 <= k < |r.tokens| && r.tokens[k].IterationEnd? ensures PairedAt(r, k) {
      if k < n {
        assert r.tokens[k] == st.tokens[k];
        assert PairedAt(st, k);
      } else {
        assert ForeachOk(st);
        assert top.name == "foreach" && c[|c| - 1] == top;
        assert r.targets[r.tokens[k].slot] == top.tokenIndex + 1;
      }
    }
  }

  lemma CloseInv(st: CState)
    requires Inv(st) && |st.control| > 0
    ensures SlotsBelow(Last(st), |st.targets|) && Inv(Close(st))
  {
    CloseBasics(st);
    CloseForward(st);
    ClosePaired(st);
    var c := st.control;
    var top := Last(st);
    var r := Close(st);
    forall i | 0 <= i < |r.control| ensures SlotsOf(r.control[i]) !! SlotsOf(top) && SlotsBelow(r.control[i], |r.targets|) {
      assert r.control[i] == c[i];
      IndexOpen(r.control, i);
      assert SlotsBelow(c[i], |st.targets|);
    }
    assert IfClean(r) by {
      forall i | 0 <= i < |r.control| && r.control[i].tokenIf.Some? ensures r.targets[r.control[i].tokenIf.value] == 0 {
        assert r.control[i] == c[i];
      }
    }
    assert ForeachOk(r) by {
      forall i | 0 <= i < |r.control| && r.control[i].name == "foreach"
        ensures r.tokens[r.control[i].tokenIndex] == st.tokens[c[i].tokenIndex]
      {
        assert r.control[i] == c[i];
      }
    }
  }

  /** What continuing an "if" block does to the slots. */
  lemma ElseBasics(st: CState, elseIf: Option<(PipeSource, bool)>)
    requires Inv(st) && |st.control| > 0
    ensures SlotsBelow(Last(st), |st.targets|)
    ensures var r, prev, c := Else(st, elseIf), Last(st), st.control;
      var patched := if prev.tokenIf.Some? then prev.tokenIf.value else prev.token;
      patched in OpenSlots(c)
      && (forall q :: q in OpenSlots(c) ==> q < |st.targets|)
      && (forall q :: q in OpenSlots(c) && q != patched ==> q in OpenSlots(r.control))
      && (forall q :: q in OpenSlots(r.control) ==> q in OpenSlots(c) || q >= |st.targets|)
      && (forall k :: 0 <= k < |st.tokens| ==> r.tokens[k] == st.tokens[k])
  {
    var c := st.control;
    var prev := Last(st);
    assert SlotsBelow(c[|c| - 1], |st.targets|);
    var r := Else(st, elseIf);
    var pre := c[..|c| - 1];
    var jump := if prev.tokenIsJump then prev.token else |st.targets|;
    assert IfClean(st);
    assert prev.tokenIf.Some? ==> prev.tokenIsJump;
    OpenBelow(st);
    assert r.control == pre + [Last(r)];
    OpenPush(pre, Last(r));
    assert SlotsOf(Last(r)) == {jump} + (if elseIf.Some? then {|r.targets| - 1} else {});
  }

  lemma ElseForward(st: CState, elseIf: Option<(PipeSource, bool)>)
    requires Inv(st) && |st.control| > 0
    ensures SlotsBelow(Last(st), |st.targets|) && SlotsIn(Else(st, elseIf).tokens, Else(st, elseIf).targets)
    ensures ForwardOk(Else(st, elseIf))
  {
    ElseBasics(st, elseIf);
    var r := Else(st, elseIf);
    var n := |st.tokens|;
    OpenPush(r.control[..|r.control| - 1], Last(r));
    assert r.control[..|r.control| - 1] + [Last(r)] == r.control;
    assert SlotsOf(Last(r)) <= OpenSlots(r.control);
    forall k | 0 <= k < |r.tokens| && IsForward(r.tokens[k])
      ensures r.tokens[k].slot in OpenSlots(r.control) || k < r.targets[r.tokens[k].slot] <= |r.tokens|
    {
      if k < n {
        assert r.tokens[k] == st.tokens[k] && IsForward(st.tokens[k]);
      }
    }
  }

  lemma ElsePaired(st: CState, elseIf: Option<(PipeSource, bool)>)
    requires Inv(st) && |st.control| > 0
    ensures SlotsBelow(Last(st), |st.targets|) && SlotsIn(Else(st, elseIf).tokens, Else(st, elseIf).targets)
    ensures Paired(Else(st, elseIf))
  {
    ElseForward(st, elseIf);
    ElseBasics(st, elseIf);
    var r := Else(st, elseIf);
    forall k | 0 <= k < |r.tokens| && r.tokens[k].IterationEnd? ensures PairedAt(r, k) {
      assert r.tokens[k] == st.tokens[k];
      assert PairedAt(st, k);
    }
  }

  /** The blocks below the innermost one are untouched by an `else`, and none shares a slot with it. */
  lemma ElseBelow(st: CState, elseIf: Option<(PipeSource, bool)>)
    requires Inv(st) && |st.control| > 0
    ensures SlotsBelow(Last(st), |st.targets|)
    ensures var r, c := Else(st, elseIf), st.control;
      forall i :: 0 <= i < |c| - 1 ==> r.control[i] == c[i] && SlotsBelow(c[i], |st.targets|) && SlotsOf(c[i]) !! SlotsOf(Last(st))
  {
    var c := st.control;
    var pre := c[..|c| - 1];
    assert SlotsBelow(c[|c| - 1], |st.targets|);
    LastApart(c);
    forall i | 0 <= i < |pre| ensures SlotsBelow(c[i], |st.targets|) && SlotsOf(c[i]) !! SlotsOf(Last(st)) {
      assert pre[i] == c[i];
      IndexOpen(pre, i);
    }
  }

  lemma ElseDistinct(st: CState, elseIf: Option<(PipeSource, bool)>)
    requires Inv(st) && |st.control| > 0
    ensures SlotsBelow(Last(st), |st.targets|) && Distinct(Else(st, elseIf).control)
  {
    ElseBelow(st, elseIf);
    var c, r := st.control, Else(st, elseIf);
    forall i, j | 0 <= i < j < |r.control| ensures SlotsOf(r.control[i]) !! SlotsOf(r.control[j]) {
      if j < |c| - 1 {
        assert SlotsOf(c[i]) !! SlotsOf(c[j]);
      } else {
        assert SlotsBelow(c[i], |st.targets|);
      }
    }
  }

  lemma ElseClean(st: CState, elseIf: Option<(PipeSource, bool)>)
    requires Inv(st) && |st.control| > 0
    ensures SlotsBelow(Last(st), |st.targets|) && ControlSlots(Else(st, elseIf)) && IfClean(Else(st, elseIf))
  {
    ElseBelow(st, elseIf);
    var c, r := st.control, Else(st, elseIf);
    assert ControlSlots(r) by {
      forall i | 0 <= i < |r.control| ensures SlotsBelow(r.control[i], |r.targets|) {
        if i < |c| - 1 {
          assert SlotsBelow(c[i], |st.targets|);
        }
      }
    }
    forall i | 0 <= i < |r.control| && r.control[i].tokenIf.Some?
      ensures r.control[i].tokenIsJump && r.targets[r.control[i].tokenIf.value] == 0
    {
      if i < |c| - 1 {
        assert IfClean(st);
        assert c[i].tokenIf.value in SlotsOf(c[i]);
      }
    }
  }

  lemma ElseForeach(st: CState, elseIf: Option<(PipeSource, bool)>)
    requires Inv(st) && |st.control| > 0
    ensures SlotsBelow(Last(st), |st.targets|) && ForeachOk(Else(st, elseIf))
  {
    ElseBelow(st, elseIf);
    var c, r := st.control, Else(st, elseIf);
    forall i | 0 <= i < |r.control| && r.control[i].name == "foreach"
      ensures r.control[i].tokenIndex < |r.tokens| && r.tokens[r.control[i].tokenIndex] == st.tokens[c[i].tokenIndex]
    {
      assert i < |c| - 1;
    }
  }

  lemma ElseInv(st: CState, elseIf: Option<(PipeSource, bool)>)
    requires Inv(st) && |st.control| > 0
    ensures SlotsBelow(Last(st), |st.targets|) && Inv(Else(st, elseIf))
  {
    ElseForward(st, elseIf);
    ElsePaired(st, elseIf);
    ElseDistinct(st, elseIf);
    ElseClean(st, elseIf);
    ElseForeach(st, elseIf);
  }

  /** Every construct step keeps the invariant. */
  lemma StepInv(s: string, st: CState, m: Constructs.Construct)
    requires m.index + m.length <= |s| && Inv(st) && ConstructStep(s, st, m).Ok?
    ensures Inv(ConstructStep(s, st, m).value)
  {
    var m1 := m.keyword;
    if m1 == "!" {
    } else if m1 == "/" {
      CloseInv(st);
    } else if m1 == "if" || m1 == "if not" {
      OpenIfInv(st, PipeOf(m), m1 == "if not");
    } else if m1 == "else" || m1 == "elseif" || m1 == "elseif not" {
      ElseInv(st, if m1 == "else" then None else Some((PipeOf(m), m1 == "elseif not")));
    } else if m1 == "foreach" {
      OpenForeachInv(st, PipeOf(m));
    } else {
      AddInv(st, Evaluate(PipeOf(m), m1 == "&"));
    }
  }

  /**
   * The loop of `Parse` from `from` on, `from` being where the last match
   * ended (`lastIndex`): each round takes the leftmost construct match at or
   * after `from` (`reConstruct.Match` and then `NextMatch`); once none is
   * left, the text after the last construct goes through the markup
   * splitter.
   */
  function ParseFrom(s: string, from: nat, st: CState, asWritten: bool): (r: Result<CState, CompileError>)
    requires from <= |s| && Inv(st)
    ensures r.Ok? ==> Inv(r.value)
    decreases |s| - from, 1
  {
    match Constructs.NextConstruct(s, from)
    case None => Rest(s, from, st, asWritten)
    case Some(m) => ParseAt(s, m, Round(s, from, st, m, asWritten), asWritten)
  }

  /** The loop once the round at the construct match `m` has given `r`: its error, or the loop after `m`. */
  function ParseAt(s: string, m: Constructs.Construct, r: Result<CState, CompileError>, asWritten: bool): (r': Result<CState, CompileError>)
    requires m.index + m.length <= |s| && (r.Ok? ==> Inv(r.value))
    ensures r'.Ok? ==> Inv(r'.value)
    decreases |s| - (m.index + m.length), 2
  {
    if r.Err? then r else ParseFrom(s, m.index + m.length, r.value, asWritten)
  }

  /** The text after the last construct goes through the markup splitter. */
  function Rest(s: string, from: nat, st: CState, asWritten: bool): (r: Result<CState, CompileError>)
    requires from <= |s| && Inv(st)
    ensures r.Ok? ==> Inv(r.value)
  {
    var r := TextBefore(s, from, |s|, st, asWritten);
    if r.Ok? then TextInv(st, r.value); r else r
  }

  /** One round of the loop: the text before the construct `m`, then the construct. */
  function Round(s: string, from: nat, st: CState, m: Constructs.Construct, asWritten: bool): (r: Result<CState, CompileError>)
    requires from <= m.index && m.index + m.length <= |s| && Inv(st)
    ensures r.Ok? ==> Inv(r.value)
  {
    var st1 := TextBefore(s, from, m.index, st, asWritten);
    if st1.Err? then st1
    else
      TextInv(st, st1.value);
      var st2 := ConstructStep(s, st1.value, m);
      if st2.Ok? then StepInv(s, st1.value, m); st2 else st2
  }

  /** The compiler's final state on `s`, or why compiling fails. */
  function Final(s: string): (r: Result<CState, CompileError>)
    ensures r.Ok? ==> Inv(r.value)
  {
    InitialInv();
    ParseFrom(s, 0, Initial, false)
  }

  /** A compiler state that keeps the invariant pairs every iteration-end token with its iteration token. */
  lemma InvPairsLoops(st: CState)
    requires Inv(st)
    ensures SlotsIn(st.tokens, st.targets) && LoopsPaired(Program(st.tokens, st.targets))
  {
    var p := Program(st.tokens, st.targets);
    forall k: nat | k < |p.tokens| && p.tokens[k].IterationEnd?
      ensures var j := Target(p, k) - 1;
        0 <= j < k && p.tokens[j].Iteration? && Target(p, j) == k
    {
      assert PairedAt(st, k);
    }
  }

  /** Once no block is open, every forward control token of a compiler state that keeps the invariant jumps forward within the program. */
  lemma ClosedJumpsForward(st: CState)
    requires Inv(st) && st.control == []
    ensures SlotsIn(st.tokens, st.targets) && JumpsForward(Program(st.tokens, st.targets))
  {
    assert OpenSlots(st.control) == {};
  }

  /**
   * `TokenList.FromString` on a template not seen before: the compiled
   * program, or why compiling fails. Every control token names a slot of
   * the program, and each iteration-end token jumps back to the token
   * after an earlier iteration token whose own jump lands on it.
   */
  function Compile(s: string): (r: Result<Program, CompileError>)
    ensures r.Ok? <==> Final(s).Ok?
    ensures r.Ok? ==> r.value.tokens == Final(s).value.tokens && r.value.targets == Final(s).value.targets
    ensures r.Ok? ==> SlotsIn(r.value.tokens, r.value.targets) && NatTargets(r.value.targets) && LoopsPaired(r.value)
    ensures r.Err? ==> r.error == Final(s).error
  {
    match Final(s)
    case Ok(st) => InvPairsLoops(st); Ok(Program(st.tokens, st.targets))
    case Err(e) => Err(e)
  }

  /**
   * Once every block of the template is closed, every jump, condition and
   * iteration token jumps strictly forward and no further than the end.
   */
  lemma ClosedTemplateJumpsForward(s: string)
    requires Final(s).Ok? && Final(s).value.control == []
    ensures Compile(s).Ok? && SlotsIn(Compile(s).value.tokens, Compile(s).value.targets)
    ensures JumpsForward(Compile(s).value)
  {
    ClosedJumpsForward(Final(s).value);
  }

  /**
   * A block still open at the end of the template is not reported:
   * `{{if f}}` alone compiles, its condition's slot still at target 0 and
   * the `if` block still open.
   */
  lemma UnclosedBlockAccepted()
    ensures Final("{{if f}}").Ok?
    ensures Final("{{if f}}").value.tokens == [Condition(0, PipeSource("f", 5), false)]
    ensures Final("{{if f}}").value.targets == [0]
    ensures Final("{{if f}}").value.control == [ControlInfo("if", 0, 0, false, None)]
  {
    var s := "{{if f}}";
    var m := Constructs.Construct(0, 8, "if", "f", 5);
    var st := OpenIf(Initial, PipeSource("f", 5), false);
    IfRound();
    OpenIfInv(Initial, PipeSource("f", 5), false);
    assert ParseFrom(s, 8, st, false) == Ok(st);
    assert ParseFrom(s, 0, Initial, false) == ParseAt(s, m, Ok(st), false);
  }

  /** The one round of `{{if f}}`: the construct opens an `if` block. */
  lemma IfRound()
    ensures Inv(Initial)
    ensures var m := Constructs.Construct(0, 8, "if", "f", 5);
      Constructs.NextConstruct("{{if f}}", 0) == Some(m)
      && Round("{{if f}}", 0, Initial, m, false) == Ok(OpenIf(Initial, PipeSource("f", 5), false))
  {
    var s := "{{if f}}";
    var m := Constructs.Construct(0, 8, "if", "f", 5);
    InitialInv();
    Constructs.PipeOffsetMisplaced();
    assert Constructs.NextConstruct(s, 0) == Some(m);
    assert ConstructStep(s, Initial, m) == Ok(OpenIf(Initial, PipeOf(m), false));
  }
}
