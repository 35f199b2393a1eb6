/**
 * `ObjectPath`: the parsed form of a path such as `user.name`, `.`, `#key`,
 * `@1.items.$i` or `$(row.key)`, and its evaluation against the frame stack
 * and the globals.
 */
module Paths {
  import opened Wrappers
  import opened Text
  import opened Values
  import opened Frames
  import opened Globals

  /** Where a path starts looking. */
  datatype EvaluateMode = Default | Stack | IterationKey | IterationIndex | IterationCount | Global

  /** Which frame a `Stack` path reads: counted from the innermost one, or the outermost (`_`, `@root`). */
  datatype FrameRef = FromTop(n: nat) | Root

  datatype Segment = Constant(text: string) | Nested(path: ObjectPath)

  datatype ObjectPath = ObjectPath(value: string, segments: seq<Segment>, mode: EvaluateMode, frame: FrameRef)

  /** `ObjectPath.Empty`: no segments; it reads the innermost frame. */
  const Empty: ObjectPath := ObjectPath("", [], Default, FromTop(0))

  /** The text a segment was parsed from (`IObjectPath.Value`). */
  function SegmentText(seg: Segment): string {
    match seg
    case Constant(t) => t
    case Nested(p) => p.value
  }

  // ---------------------------------------------------------------------
  // Scanning: one match of `((?!^)\$)?([^$.()][^.]*)|\$\(([^)]+)\)` at a time

  /** A match: a literal segment, or text to be parsed as a nested path. */
  datatype Piece = Plain(text: string) | Named(text: string)

  /** Characters that may begin a segment (`[^$.()]`). */
  predicate IsSegmentStart(c: char) { c != '$' && c != '.' && c != '(' && c != ')' }

  /** End of the run `[^.]*` starting at `k`. */
  function FieldEnd(s: string, k: nat): (e: nat)
    requires k <= |s|
    ensures k <= e <= |s| && (e < |s| ==> s[e] == '.')
    ensures forall j :: k <= j < e ==> s[j] != '.'
    decreases |s| - k
  {
    if k == |s| || s[k] == '.' then k else FieldEnd(s, k + 1)
  }

  /** First `)` at or after `k`. */
  function CloseParen(s: string, k: nat): (r: Option<nat>)
    requires k <= |s|
    ensures r.Some? ==> k <= r.value < |s| && s[r.value] == ')'
    ensures r.Some? ==> forall j :: k <= j < r.value ==> s[j] != ')'
    decreases |s| - k
  {
    if k == |s| then None else if s[k] == ')' then Some(k) else CloseParen(s, k + 1)
  }

  /**
   * The attempt at position `p`: the match found there, if any, and the
   * position the next attempt starts from.
   */
  function MatchAt(s: string, p: nat): (r: (Option<Piece>, nat))
    requires p < |s|
    ensures p < r.1 <= |s|
    ensures r.0.Some? && r.0.value.Named? ==> |r.0.value.text| < |s|
    ensures r.0.Some? ==> PieceSize(r.0.value) <= |s|
    ensures r.0.Some? && r.0.value.Plain? ==> r.0.value.text != [] && IsSegmentStart(r.0.value.text[0])
    ensures r.0.Some? && r.0.value.Plain? ==> forall j :: 0 <= j < |r.0.value.text| ==> r.0.value.text[j] != '.'
  {
    if p > 0 && s[p] == '$' && p + 1 < |s| && IsSegmentStart(s[p + 1]) then
      var e := FieldEnd(s, p + 2);
      (Some(Named(s[p + 1..e])), e)
    else if IsSegmentStart(s[p]) then
      var e := FieldEnd(s, p + 1);
      (Some(Plain(s[p..e])), e)
    else if s[p] == '$' && p + 1 < |s| && s[p + 1] == '(' && CloseParen(s, p + 2).Some?
      && CloseParen(s, p + 2).value > p + 2 then
      var q := CloseParen(s, p + 2).value;
      (Some(Named(s[p + 2..q])), q + 1)
    else (None, p + 1)
  }

  /** The matches from position `p` on, leftmost first, each search resuming where the last match ended. */
  function Scan(s: string, p: nat): (r: seq<Piece>)
    requires p <= |s|
    ensures forall k :: 0 <= k < |r| && r[k].Named? ==> |r[k].text| < |s|
    ensures forall k :: 0 <= k < |r| ==> PieceSize(r[k]) <= |s|
    ensures forall k :: 0 <= k < |r| && r[k].Plain? ==> r[k].text != [] && IsSegmentStart(r[k].text[0])
    ensures forall k :: 0 <= k < |r| && r[k].Plain? ==> forall j :: 0 <= j < |r[k].text| ==> r[k].text[j] != '.'
    decreases |s| - p
  {
    if p == |s| then []
    else
      var (m, next) := MatchAt(s, p);
      if m.Some? then [m.value] + Scan(s, next) else Scan(s, next)
  }

  // ---------------------------------------------------------------------
  // Mode selection

  /** `^@(\d+)$`, where `$` also matches before a final newline: the digits, if the text has that shape. */
  function AtDigits(t: string): (r: Option<string>)
    ensures r.Some? ==> r.value != [] && AllDigits(r.value) && |t| > |r.value| && t[0] == '@' && t[1..|r.value| + 1] == r.value
  {
    if |t| >= 2 && t[0] == '@' && AllDigits(t[1..]) then Some(t[1..])
    else if |t| >= 3 && t[0] == '@' && t[|t| - 1] == '\n' && AllDigits(t[1..|t| - 1]) then Some(t[1..|t| - 1])
    else None
  }

  /** The mode and frame a first segment selects; anything unlisted reads by name. */
  function SelectMode(first: Segment): (r: (EvaluateMode, FrameRef))
    ensures first.Nested? ==> r == (Default, FromTop(0))
    ensures r.0 == Default <==> !(first.Constant? && IsModeKeyword(first.text))
    ensures r.1 == Root <==> first.Constant? && first.text in {"_", "@root"}
  {
    if first.Nested? then (Default, FromTop(0))
    else
      var t := first.text;
      if t == "." || t == "@0" then (Stack, FromTop(0))
      else if t == "#" || t == "#key" then (IterationKey, FromTop(0))
      else if t == "##" || t == "#index" then (IterationIndex, FromTop(0))
      else if t == "#count" then (IterationCount, FromTop(0))
      else if t == "_" || t == "@root" then (Stack, Root)
      else if t == "@global" then (Global, FromTop(0))
      else match AtDigits(t)
        case Some(d) => (Stack, FromTop(DigitsValue(d)))
        case None => (Default, FromTop(0))
  }

  predicate IsModeKeyword(t: string) {
    t in {".", "@0", "#", "#key", "##", "#index", "#count", "_", "@root", "@global"} || AtDigits(t).Some?
  }

  // ---------------------------------------------------------------------
  // Parsing

  /** `ObjectPath.FromString`: segments from the scan (the whole text when nothing matches), then the mode. */
  function Parse(s: string): (r: ObjectPath)
    ensures r.value == s && |r.segments| >= 1
    ensures r.mode == SelectMode(r.segments[0]).0 && r.frame == SelectMode(r.segments[0]).1
    decreases |s|, 1
  {
    var pieces := Scan(s, 0);
    var mapped := seq(|pieces|, k requires 0 <= k < |pieces| => SegmentOf(pieces[k]));
    var segs := if pieces == [] then [Constant(s)] else mapped;
    var (mode, frame) := SelectMode(segs[0]);
    ObjectPath(s, segs, mode, frame)
  }

  function PieceSize(piece: Piece): nat {
    if piece.Named? then |piece.text| + 1 else |piece.text|
  }

  /** The segment a scanned piece becomes. */
  function SegmentOf(piece: Piece): (seg: Segment)
    ensures SegmentText(seg) == piece.text
    ensures piece.Plain? ==> seg == Constant(piece.text)
    decreases PieceSize(piece), 0
  {
    match piece
    case Plain(t) => Constant(t)
    case Named(t) => Nested(Parse(t))
  }

  /**
   * `FromString` as the source writes it: a loop over the matches, parsing
   * nested paths recursively, then the mode switch on the first segment.
   */
  method FromString(s: string) returns (r: ObjectPath)
    ensures r == Parse(s)
    decreases |s|, 1
  {
    var segs: seq<Segment> := [];
    var p := 0;
    ghost var all := Scan(s, 0);
    while p < |s|
      invariant 0 <= p <= |s|
      invariant |segs| <= |all|
      invariant all[|segs|..] == Scan(s, p)
      invariant forall k :: 0 <= k < |segs| ==> segs[k] == SegmentOf(all[k])
      decreases |s| - p
    {
      var (m, next) := MatchAt(s, p);
      assert Scan(s, p) == (if m.Some? then [m.value] else []) + Scan(s, next);
      if m.Some? {
        var seg := SegmentFromPiece(s, m.value);
        segs := segs + [seg];
      }
      p := next;
    }
    assert |segs| == |all|;
    if segs == [] {
      segs := [Constant(s)];
    }
    var (mode, frame) := SelectMode(segs[0]);
    r := ObjectPath(s, segs, mode, frame);
  }

  /** One match becomes a literal segment, or a nested path parsed by `FromString`. */
  method SegmentFromPiece(ghost s: string, piece: Piece) returns (seg: Segment)
    requires piece.Named? ==> |piece.text| < |s|
    ensures seg == SegmentOf(piece)
    decreases |s|, 0
  {
    match piece
    case Plain(t) =>
      seg := Constant(t);
    case Named(t) =>
      var nested := FromString(t);
      seg := Nested(nested);
  }

  // ---------------------------------------------------------------------
  // Properties of parsing

  /** A path written as dot-separated names, none of them empty and none using `$`, `(` or `)`. */
  predicate PlainPath(s: string) {
    s != [] && s[0] != '.' && s[|s| - 1] != '.'
    && (forall j :: 0 <= j < |s| ==> s[j] != '$' && s[j] != '(' && s[j] != ')')
    && (forall j :: 0 <= j < |s| - 1 ==> !(s[j] == '.' && s[j + 1] == '.'))
  }

  /** The segment texts joined back with dots. */
  function JoinDots(segs: seq<Segment>): string {
    if segs == [] then ""
    else if |segs| == 1 then SegmentText(segs[0])
    else SegmentText(segs[0]) + "." + JoinDots(segs[1..])
  }

  function JoinPieces(pieces: seq<Piece>): string {
    if pieces == [] then ""
    else if |pieces| == 1 then pieces[0].text
    else pieces[0].text + "." + JoinPieces(pieces[1..])
  }

  lemma {:induction false} ScanPlain(s: string, p: nat)
    requires PlainPath(s) && p < |s| && (p == 0 || s[p - 1] == '.')
    ensures Scan(s, p) != [] && (forall k :: 0 <= k < |Scan(s, p)| ==> Scan(s, p)[k].Plain?)
    ensures JoinPieces(Scan(s, p)) == s[p..]
    decreases |s| - p
  {
    assert s[p] != '.' by {
      if p > 0 { assert !(s[p - 1] == '.' && s[p] == '.'); }
    }
    var e := FieldEnd(s, p + 1);
    assert MatchAt(s, p) == (Some(Plain(s[p..e])), e);
    assert Scan(s, p) == [Plain(s[p..e])] + Scan(s, e);
    if e == |s| {
      assert Scan(s, e) == [];
      assert s[p..e] == s[p..];
    } else {
      assert s[e] == '.' && e + 1 < |s|;
      assert MatchAt(s, e) == (None, e + 1);
      assert Scan(s, e) == Scan(s, e + 1);
      ScanPlain(s, e + 1);
      assert Scan(s, p)[1..] == Scan(s, e + 1);
      assert s[p..] == s[p..e] + "." + s[e + 1..];
    }
  }

  lemma {:induction false} JoinPlainPieces(pieces: seq<Piece>)
    requires forall k :: 0 <= k < |pieces| ==> pieces[k].Plain?
    ensures var segs := seq(|pieces|, k requires 0 <= k < |pieces| => SegmentOf(pieces[k]));
      JoinDots(segs) == JoinPieces(pieces) && forall k :: 0 <= k < |segs| ==> segs[k].Constant?
  {
    var segs := seq(|pieces|, k requires 0 <= k < |pieces| => SegmentOf(pieces[k]));
    if |pieces| > 1 {
      JoinPlainPieces(pieces[1..]);
      assert segs[1..] == seq(|pieces| - 1, k requires 0 <= k < |pieces| - 1 => SegmentOf(pieces[1..][k]));
    }
  }

  /** A plain dotted path parses into its names, all literal, which join back to the original text. */
  lemma PlainPathSegments(s: string)
    requires PlainPath(s)
    ensures forall k :: 0 <= k < |Parse(s).segments| ==> Parse(s).segments[k].Constant?
    ensures JoinDots(Parse(s).segments) == s
  {
    ScanPlain(s, 0);
    JoinPlainPieces(Scan(s, 0));
  }

  /** A text the scan finds nothing in becomes one literal segment equal to the whole text. */
  lemma NoMatchIsLiteral(s: string)
    requires Scan(s, 0) == []
    ensures Parse(s).segments == [Constant(s)]
  {
  }

  // ---------------------------------------------------------------------
  // Evaluation

  /** What evaluation reads: the frames, innermost first, and the globals' entries. */
  datatype Scope = Scope(frames: seq<FrameView>, globals: seq<(string, Value)>)

  /** `ValueAt`: a frame's value, undefined past the outermost frame. */
  function ValueAt(sc: Scope, index: nat): (r: Value)
    ensures index >= |sc.frames| ==> r == Undefined
  {
    if index < |sc.frames| then sc.frames[index].value else Undefined
  }

  /** The private `HasProperty`: nothing on null/undefined; any integer name on an array; else own properties. */
  predicate NameResolves(v: Value, name: string) {
    !IsNullOrUndefined(v) && ((IsArrayLike(v) && ParseInt32(name).Some?) || HasOwn(v, name))
  }

  /** Innermost frame whose value has the name. */
  function FindFrame(frames: seq<FrameView>, name: string, j: nat): (r: Option<nat>)
    ensures r.Some? ==> j <= r.value < |frames| && NameResolves(frames[r.value].value, name)
    ensures r.Some? ==> forall k :: j <= k < r.value ==> !NameResolves(frames[k].value, name)
    ensures r.None? ==> forall k :: j <= k < |frames| ==> !NameResolves(frames[k].value, name)
    decreases |frames| - j
  {
    if j >= |frames| then None
    else if NameResolves(frames[j].value, name) then Some(j)
    else FindFrame(frames, name, j + 1)
  }

  /** The property name a segment stands for: its text, or the string form of the nested path's value. */
  function SegmentName(path: ObjectPath, i: nat, sc: Scope): string
    requires i < |path.segments| && |sc.frames| >= 1
    decreases path, 0
  {
    match path.segments[i]
    case Constant(t) => t
    case Nested(p) => ToStr(Eval(p, sc, false).1)
  }

  /** Reads the segments from `i` on, stopping at null or undefined. */
  function Apply(path: ObjectPath, i: nat, v: Value, sc: Scope): Value
    requires |sc.frames| >= 1
    decreases path, 1, |path.segments| - i
  {
    if i >= |path.segments| || IsNullOrUndefined(v) then v
    else Apply(path, i + 1, Get(v, SegmentName(path, i, sc)), sc)
  }

  /** Whether a path may be used in this position: shorthand forms only where accepted. */
  predicate IsValid(path: ObjectPath, acceptShorthand: bool)
    requires |path.segments| >= 1
  {
    acceptShorthand || path.mode == Default
    || (|SegmentText(path.segments[0])| > 1 && SegmentText(path.segments[0]) != "##")
  }

  /** `TryEvaluate`: whether the path was valid here, and its value. */
  function Eval(path: ObjectPath, sc: Scope, acceptShorthand: bool): (bool, Value)
    requires |sc.frames| >= 1
    decreases path, 2
  {
    if path.segments == [] then (true, ValueAt(sc, 0))
    else
      var valid := IsValid(path, acceptShorthand);
      match path.mode
      case IterationKey => (valid, sc.frames[0].key)
      case IterationIndex => (valid, sc.frames[0].index)
      case IterationCount => (valid, Num(sc.frames[0].count))
      case Stack =>
        var start := match path.frame
          case Root => ValueAt(sc, |sc.frames| - 1)
          case FromTop(n) => ValueAt(sc, n);
        (valid, Apply(path, 1, start, sc))
      case Global => (valid, Apply(path, 1, Obj(sc.globals), sc))
      case Default =>
        var name := SegmentName(path, 0, sc);
        match FindFrame(sc.frames, name, 0)
        case Some(j) => (valid, Apply(path, 1, Get(sc.frames[j].value, name), sc))
        case None =>
          var g := Obj(sc.globals);
          if !NameResolves(g, name) then (false, g)
          else (valid, Apply(path, 1, Get(g, name), sc))
  }

  /** `Evaluate`: the value alone, shorthand not accepted. */
  function Evaluate(path: ObjectPath, sc: Scope): Value
    requires |sc.frames| >= 1
  {
    Eval(path, sc, false).1
  }

  // ---------------------------------------------------------------------
  // Properties of evaluation

  /** A name found in no frame and not among the globals fails, leaving the globals object as the value. */
  lemma UnresolvedNameFails(path: ObjectPath, sc: Scope, acceptShorthand: bool)
    requires |sc.frames| >= 1 && |path.segments| >= 1 && path.mode == Default
    requires forall j :: 0 <= j < |sc.frames| ==> !NameResolves(sc.frames[j].value, SegmentName(path, 0, sc))
    requires Lookup(sc.globals, SegmentName(path, 0, sc)).None?
    ensures Eval(path, sc, acceptShorthand) == (false, Obj(sc.globals))
  {
  }

  /** A name resolves from the innermost frame that has it; outer frames and the globals are not consulted. */
  lemma InnermostFrameWins(path: ObjectPath, sc: Scope, j: nat)
    requires |sc.frames| >= 1 && |path.segments| == 1 && path.mode == Default
    requires j < |sc.frames| && NameResolves(sc.frames[j].value, SegmentName(path, 0, sc))
    requires forall k :: 0 <= k < j ==> !NameResolves(sc.frames[k].value, SegmentName(path, 0, sc))
    ensures Eval(path, sc, false) == (true, Get(sc.frames[j].value, SegmentName(path, 0, sc)))
  {
    var name := SegmentName(path, 0, sc);
    var found := FindFrame(sc.frames, name, 0);
    assert found == Some(j);
    var v := Get(sc.frames[j].value, name);
    assert Apply(path, 1, v, sc) == v;
  }

  /** The short forms `.`, `#`, `##` and `_` are valid only where shorthand is accepted; long forms always. */
  lemma ShorthandValidity(s: string, acceptShorthand: bool)
    requires s in {".", "#", "##", "_", "@0", "#key", "#index", "#count", "@root", "@global"}
    ensures Scan(s, 0) == [] ==> Parse(s).segments == [Constant(s)]
    ensures IsValid(Parse(s), acceptShorthand) <==> acceptShorthand || s !in {".", "#", "##", "_"}
  {
    var r := Scan(s, 0);
    if s in {".", "#", "##", "_", "@0"} {
      assert |s| <= 2;
    }
    ShorthandSegment(s);
  }

  /** The keywords parse as a single literal segment. */
  lemma ShorthandSegment(s: string)
    requires s in {".", "#", "##", "_", "@0", "#key", "#index", "#count", "@root", "@global"}
    ensures Parse(s).segments == [Constant(s)]
  {
    if s == "." {
      assert MatchAt(s, 0) == (None, 1);
      assert Scan(s, 0) == Scan(s, 1) == [];
    } else {
      SingleField(s);
    }
  }

  /** A text without dots that starts like a segment is one literal match. */
  lemma SingleField(s: string)
    requires s != [] && IsSegmentStart(s[0]) && forall j :: 0 <= j < |s| ==> s[j] != '.'
    ensures Scan(s, 0) == [Plain(s)]
  {
    assert FieldEnd(s, 1) == |s| by { FieldEndNoDot(s, 1); }
    assert MatchAt(s, 0) == (Some(Plain(s[0..|s|])), |s|);
    assert s[0..|s|] == s;
  }

  lemma {:induction false} FieldEndNoDot(s: string, k: nat)
    requires k <= |s| && forall j :: k <= j < |s| ==> s[j] != '.'
    ensures FieldEnd(s, k) == |s|
    decreases |s| - k
  {
    if k < |s| { FieldEndNoDot(s, k + 1); }
  }

  /** Later segments stop at the first null or undefined: once there, the value stays. */
  lemma {:induction false} ApplyStopsAtNull(path: ObjectPath, i: nat, v: Value, sc: Scope)
    requires |sc.frames| >= 1 && IsNullOrUndefined(v)
    ensures Apply(path, i, v, sc) == v
  {
  }

  /** Iteration paths read the innermost frame and ignore their further segments. */
  lemma IterationIgnoresRest(path: ObjectPath, sc: Scope)
    requires |sc.frames| >= 1 && |path.segments| >= 1 && path.mode == IterationKey
    ensures Eval(path, sc, true) == (true, sc.frames[0].key)
  {
  }
}

/**
 * `ObjectPath.TryEvaluate` over the interpreter's live objects: the frame
 * objects on the stack and the globals dictionary.
 */
module PathEvaluation {
  import opened Wrappers
  import opened Text
  import opened Values
  import opened Frames
  import opened Globals
  import opened Paths

  ghost predicate FramesValid(frames: seq<EvaluationStack>)
    reads frames
  {
    forall f :: f in frames ==> f.Valid()
  }

  /** The scope the frame objects and the globals present to paths. */
  function ScopeOf(frames: seq<EvaluationStack>, globals: PipeGlobal): (sc: Scope)
    reads frames, globals
    requires FramesValid(frames)
    ensures |sc.frames| == |frames| && sc.globals == globals.entries
    ensures forall i :: 0 <= i < |frames| ==> sc.frames[i] == frames[i].View()
  {
    Scope(seq(|frames|, i requires 0 <= i < |frames| && frames[i].Valid() reads frames => frames[i].View()),
          globals.entries)
  }

  /**
   * `TryEvaluate`: the first segment picks the starting value (the current
   * frame, an iteration variable, a frame of the stack, the globals, or the
   * innermost frame defining the name), then the remaining segments are read.
   */
  method TryEvaluate(path: ObjectPath, frames: seq<EvaluationStack>, globals: PipeGlobal, acceptShorthand: bool)
    returns (valid: bool, value: Value)
    requires |frames| >= 1 && FramesValid(frames)
    ensures (valid, value) == Eval(path, ScopeOf(frames, globals), acceptShorthand)
    decreases path, 4
  {
    ghost var sc := ScopeOf(frames, globals);
    if |path.segments| == 0 {
      return true, frames[0].Value();
    }
    valid := acceptShorthand || path.mode == Default
      || (|SegmentText(path.segments[0])| > 1 && SegmentText(path.segments[0]) != "##");
    assert valid == IsValid(path, acceptShorthand);
    if path.mode.IterationKey? || path.mode.IterationIndex? || path.mode.IterationCount? {
      value := IterationValue(path.mode, frames[0]);
      assert sc.frames[0] == frames[0].View();
    } else {
      var resolved;
      resolved, value := StartAndApply(path, frames, globals);
      EvalShorthand(path, sc, acceptShorthand);
      if !resolved {
        valid := false;
      }
    }
  }

  /** Outside the iteration forms, shorthand only decides validity: the value does not depend on it. */
  lemma EvalShorthand(path: ObjectPath, sc: Scope, acceptShorthand: bool)
    requires |sc.frames| >= 1 && |path.segments| >= 1
    requires path.mode.Default? || path.mode.Stack? || path.mode.Global?
    ensures Eval(path, sc, acceptShorthand)
      == (Eval(path, sc, true).0 && IsValid(path, acceptShorthand), Eval(path, sc, true).1)
  {
  }

  /** The `#key`, `#index` and `#count` forms read the current frame. */
  method IterationValue(mode: EvaluateMode, frame: EvaluationStack) returns (value: Value)
    requires frame.Valid() && (mode.IterationKey? || mode.IterationIndex? || mode.IterationCount?)
    ensures mode.IterationKey? ==> value == frame.View().key
    ensures mode.IterationIndex? ==> value == frame.View().index
    ensures mode.IterationCount? ==> value == Num(frame.View().count)
  {
    match mode {
      case IterationKey => value := frame.Key();
      case IterationIndex => value := frame.Index();
      case IterationCount => value := Num(KeyCount(frame.source));
    }
  }

  /**
   * The remaining modes: the first segment picks a frame of the stack, the
   * globals, or the innermost frame (else the globals) defining the name;
   * `resolved` is false only when the name is found nowhere.
   */
  method StartAndApply(path: ObjectPath, frames: seq<EvaluationStack>, globals: PipeGlobal)
    returns (resolved: bool, value: Value)
    requires |path.segments| >= 1 && |frames| >= 1 && FramesValid(frames)
    requires path.mode.Default? || path.mode.Stack? || path.mode.Global?
    ensures var sc := ScopeOf(frames, globals);
      var e := Eval(path, sc, true);
      resolved == e.0 && value == e.1
    decreases path, 3
  {
    ghost var sc := ScopeOf(frames, globals);
    resolved := true;
    match path.mode {
      case Stack =>
        var index := match path.frame case Root => |frames| - 1 case FromTop(n) => n;
        value := if index < |frames| then frames[index].Value() else Undefined;
        assert value == ValueAt(sc, index);
        value := ApplyRest(path, value, frames, globals);
      case Global =>
        value := ApplyRest(path, Obj(globals.entries), frames, globals);
      case Default =>
        resolved, value := FirstValue(path, frames, globals);
        if resolved {
          value := ApplyRest(path, value, frames, globals);
        }
    }
  }

  /**
   * The search for the first segment's name: frames innermost first, then
   * the globals; the value of the name where it was found.
   */
  method FirstValue(path: ObjectPath, frames: seq<EvaluationStack>, globals: PipeGlobal)
    returns (resolved: bool, value: Value)
    requires |path.segments| >= 1 && |frames| >= 1 && FramesValid(frames)
    ensures var sc := ScopeOf(frames, globals);
      var name := SegmentName(path, 0, sc);
      match FindFrame(sc.frames, name, 0)
      case Some(j) => resolved && value == Get(sc.frames[j].value, name)
      case None =>
        (resolved <==> NameResolves(Obj(sc.globals), name))
        && value == (if resolved then Get(Obj(sc.globals), name) else Obj(sc.globals))
    decreases path, 2
  {
    ghost var sc := ScopeOf(frames, globals);
    var name := SegmentNameOf(path, 0, frames, globals);
    var j := 0;
    while j < |frames|
      invariant 0 <= j <= |frames|
      invariant FindFrame(sc.frames, name, 0) == FindFrame(sc.frames, name, j)
    {
      value := frames[j].Value();
      if NameResolves(value, name) {
        return true, Get(value, name);
      }
      j := j + 1;
    }
    value := Obj(globals.entries);
    resolved := NameResolves(value, name);
    if resolved {
      value := Get(value, name);
    }
  }

  /** The loop over the segments after the first, stopping at null or undefined. */
  method ApplyRest(path: ObjectPath, start: Value, frames: seq<EvaluationStack>, globals: PipeGlobal)
    returns (value: Value)
    requires |frames| >= 1 && FramesValid(frames)
    ensures value == Apply(path, 1, start, ScopeOf(frames, globals))
    decreases path, 1
  {
    ghost var sc := ScopeOf(frames, globals);
    value := start;
    var i := 1;
    while i < |path.segments| && !IsNullOrUndefined(value)
      invariant Apply(path, 1, start, sc) == Apply(path, i, value, sc)
      decreases |path.segments| - i
    {
      var name := SegmentNameOf(path, i, frames, globals);
      value := Get(value, name);
      i := i + 1;
    }
  }

  /** A segment's property name: its literal text, or the nested path's value as a string. */
  method SegmentNameOf(path: ObjectPath, i: nat, frames: seq<EvaluationStack>, globals: PipeGlobal)
    returns (name: string)
    requires i < |path.segments| && |frames| >= 1 && FramesValid(frames)
    ensures name == SegmentName(path, i, ScopeOf(frames, globals))
    decreases path, 0
  {
    match path.segments[i] {
      case Constant(t) =>
        name := t;
      case Nested(p) =>
        var _, v := TryEvaluate(p, frames, globals, false);
        name := ToStr(v);
    }
  }
}
