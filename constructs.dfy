/**
 * The construct scanner of `TokenList`: the regular expression that finds
 * `{{...}}` constructs in a template, written out as a scanner.
 *
 * A construct is `{{`, a keyword (group 1), optional white space, the pipe
 * text (group 2) and `}}`. The keyword alternatives are tried in order:
 * `/` or `!`; `foreach` before white space or `}`; `if` or `if not` before
 * white space; `else`, `elseif` or `elseif not` (the last two before white
 * space); an optional `&` not followed by `}`. The pipe text runs to the
 * first `}}`. Characters of a keyword and the white space after it are
 * never `}`, so when one keyword alternative finds no `}}` after it no
 * other alternative does either: the first alternative that matches is the
 * one a successful match uses, and the regular expression's backtracking
 * never changes the outcome.
 */
module Constructs {
  import opened Wrappers
  import opened Text
  import CallSites

  /** One match: its position and length, the keyword (group 1), the pipe text (group 2) and where that text starts. */
  datatype Construct = Construct(index: nat, length: nat, keyword: string, body: string, bodyStart: nat)

  /** `\s` of .NET regular expressions. */
  predicate Space(c: char) { CallSites.IsRegexSpace(c) }

  /** `\snot(?=\s)` at `k`: white space, `not`, then white space. */
  predicate NotAt(s: string, k: nat) {
    k < |s| && Space(s[k]) && IsAt(s, "not", k + 1) && k + 4 < |s| && Space(s[k + 4])
  }

  /** `if(?:\snot)?(?=\s)` after `if` at `k - 2`: where the keyword ends, when it matches. */
  function IfTail(s: string, k: nat): (r: Option<nat>)
    ensures r.Some? ==> r.value == k || r.value == k + 4
  {
    if NotAt(s, k) then Some(k + 4)
    else if k < |s| && Space(s[k]) then Some(k)
    else None
  }

  /**
   * Where the keyword that starts at `q` ends, trying the alternatives in
   * order; `None` when none matches (only when `s[q]` is `}`).
   */
  function KeywordEnd(s: string, q: nat): (r: Option<nat>)
    requires q <= |s|
    ensures r.Some? ==> q <= r.value <= |s|
    ensures r.None? <==> q < |s| && s[q] == '}'
  {
    if q < |s| && (s[q] == '/' || s[q] == '!') then Some(q + 1)
    else if IsAt(s, "foreach", q) && q + 7 < |s| && (Space(s[q + 7]) || s[q + 7] == '}') then Some(q + 7)
    else if IsAt(s, "if", q) && IfTail(s, q + 2).Some? then IfTail(s, q + 2)
    else if IsAt(s, "else", q) then
      if IsAt(s, "if", q + 4) && IfTail(s, q + 6).Some? then IfTail(s, q + 6) else Some(q + 4)
    else if q < |s| && s[q] == '&' && (q + 1 == |s| || s[q + 1] != '}') then Some(q + 1)
    else if q == |s| || s[q] != '}' then Some(q)
    else None
  }

  /** White space is never `}`. */
  lemma SpaceIsNoBrace(c: char)
    requires Space(c)
    ensures c != '}'
  {
  }

  /** The characters of `sub` where it occurs. */
  lemma CharsAt(s: string, sub: string, k: nat)
    requires IsAt(s, sub, k)
    ensures forall i :: 0 <= i < |sub| ==> s[k + i] == sub[i]
  {
    forall i | 0 <= i < |sub| ensures s[k + i] == sub[i] {
      assert s[k..k + |sub|][i] == s[k + i];
    }
  }

  /** One differing character rules an occurrence out. */
  lemma NotAtWitness(s: string, sub: string, k: int, i: nat)
    requires i < |sub| && (0 <= k + i < |s| ==> s[k + i] != sub[i])
    ensures !IsAt(s, sub, k)
  {
  }

  /** The keyword holds no `}`. */
  lemma KeywordHasNoBrace(s: string, q: nat)
    requires q <= |s| && KeywordEnd(s, q).Some?
    ensures forall k :: q <= k < KeywordEnd(s, q).value ==> s[k] != '}'
  {
    var r := KeywordEnd(s, q).value;
    if q < |s| && (s[q] == '/' || s[q] == '!') {
      assert r == q + 1;
    } else if IsAt(s, "foreach", q) && q + 7 < |s| && (Space(s[q + 7]) || s[q + 7] == '}') {
      CharsAt(s, "foreach", q);
      assert r == q + 7;
      forall k | q <= k < r ensures s[k] != '}' {
        assert s[q + (k - q)] == "foreach"[k - q];
      }
    } else if IsAt(s, "if", q) && IfTail(s, q + 2).Some? {
      CharsAt(s, "if", q);
      if NotAt(s, q + 2) {
        CharsAt(s, "not", q + 3);
        SpaceIsNoBrace(s[q + 2]);
        assert r == q + 6;
        forall k | q <= k < r ensures s[k] != '}' {
          if k < q + 2 { assert s[q + (k - q)] == "if"[k - q]; }
          else if k > q + 2 { assert s[q + 3 + (k - q - 3)] == "not"[k - q - 3]; }
        }
      } else {
        assert r == q + 2;
        forall k | q <= k < r ensures s[k] != '}' {
          assert s[q + (k - q)] == "if"[k - q];
        }
      }
    } else if IsAt(s, "else", q) {
      CharsAt(s, "else", q);
      if IsAt(s, "if", q + 4) && IfTail(s, q + 6).Some? {
        CharsAt(s, "if", q + 4);
        if NotAt(s, q + 6) {
          CharsAt(s, "not", q + 7);
          SpaceIsNoBrace(s[q + 6]);
          assert r == q + 10;
          forall k | q <= k < r ensures s[k] != '}' {
            if k < q + 4 { assert s[q + (k - q)] == "else"[k - q]; }
            else if k < q + 6 { assert s[q + 4 + (k - q - 4)] == "if"[k - q - 4]; }
            else if k > q + 6 { assert s[q + 7 + (k - q - 7)] == "not"[k - q - 7]; }
          }
        } else {
          assert r == q + 6;
          forall k | q <= k < r ensures s[k] != '}' {
            if k < q + 4 { assert s[q + (k - q)] == "else"[k - q]; }
            else { assert s[q + 4 + (k - q - 4)] == "if"[k - q - 4]; }
          }
        }
      } else {
        assert r == q + 4;
        forall k | q <= k < r ensures s[k] != '}' {
          assert s[q + (k - q)] == "else"[k - q];
        }
      }
    } else if q < |s| && s[q] == '&' && (q + 1 == |s| || s[q + 1] != '}') {
      assert r == q + 1;
    } else {
      assert r == q;
    }
  }

  /** The end of the white space run at `k`. */
  function SkipSpace(s: string, k: nat): (r: nat)
    requires k <= |s|
    ensures k <= r <= |s| && (r < |s| ==> !Space(s[r]))
    ensures forall i :: k <= i < r ==> Space(s[i])
    decreases |s| - k
  {
    if k < |s| && Space(s[k]) then SkipSpace(s, k + 1) else k
  }

  /** The match of the construct expression that starts exactly at `p`, if any. */
  function MatchAt(s: string, p: nat): (r: Option<Construct>)
    requires p <= |s|
    ensures r.Some? ==> r.value.index == p && r.value.length >= 4 && p + r.value.length <= |s|
    ensures r.Some? ==> IsAt(s, "{{", p) && IsAt(s, "}}", p + r.value.length - 2)
    ensures r.Some? ==> (p + 2 <= r.value.bodyStart <= p + r.value.length - 2
      && r.value.body == s[r.value.bodyStart..p + r.value.length - 2])
  {
    if !IsAt(s, "{{", p) then None
    else
      match KeywordEnd(s, p + 2)
      case None => None
      case Some(e) =>
        var b := SkipSpace(s, e);
        match IndexOfFrom(s, "}}", b)
        case None => None
        case Some(j) => Some(Construct(p, j + 2 - p, s[p + 2..e], s[b..j], b))
  }

  /** The leftmost match at or after `from` (`Regex.Match` / `NextMatch`). */
  function NextConstruct(s: string, from: nat): (r: Option<Construct>)
    requires from <= |s|
    ensures r.Some? ==> from <= r.value.index && r.value.length >= 4 && r.value.index + r.value.length <= |s|
    decreases |s| - from
  {
    if from == |s| then None
    else if MatchAt(s, from).Some? then MatchAt(s, from)
    else NextConstruct(s, from + 1)
  }

  /** What `NextConstruct` finds is the match at its index. */
  lemma {:induction false} NextIsMatch(s: string, from: nat)
    requires from <= |s| && NextConstruct(s, from).Some?
    ensures MatchAt(s, NextConstruct(s, from).value.index) == NextConstruct(s, from)
    decreases |s| - from
  {
    if MatchAt(s, from).None? {
      NextIsMatch(s, from + 1);
    }
  }

  /** No match starts before the one `NextConstruct` finds; when it finds none, none starts at or after `from`. */
  lemma {:induction false} NextIsLeftmost(s: string, from: nat, k: nat)
    requires from <= k <= |s|
    requires NextConstruct(s, from).Some? ==> k < NextConstruct(s, from).value.index
    ensures MatchAt(s, k).None?
    decreases k - from
  {
    if from < k {
      assert MatchAt(s, from).None?;
      assert NextConstruct(s, from) == NextConstruct(s, from + 1);
      NextIsLeftmost(s, from + 1, k);
    }
  }

  // ---------------------------------------------------------------------
  // What a match is

  /** Five adjacent pieces of `s` make up the slice they cover. */
  lemma Spell(s: string, p: nat, e: nat, b: nat, j: nat)
    requires p + 2 <= e <= b <= j && j + 2 <= |s|
    requires IsAt(s, "{{", p) && IsAt(s, "}}", j)
    ensures s[p..j + 2] == "{{" + s[p + 2..e] + s[e..b] + s[b..j] + "}}"
  {
    assert s[p..j + 2] == s[p..p + 2] + s[p + 2..e] + s[e..b] + s[b..j] + s[j..j + 2];
  }

  /** A piece of a slice sits in the slice at its offset. */
  lemma PieceOfSlice(s: string, i: nat, a: nat, b: nat, j: nat)
    requires i <= a <= b <= j <= |s|
    ensures IsAt(s[i..j], s[a..b], a - i)
  {
    var t := s[i..j];
    forall x | 0 <= x < b - a ensures t[a - i..b - i][x] == s[a..b][x] {
      assert t[a - i..b - i][x] == t[a - i + x] == s[i + (a - i + x)];
    }
    assert t[a - i..b - i] == s[a..b];
  }

  /** No `}}` starts inside `s[b..j]` when none starts in `s` from `b` up to `j`. */
  lemma NoCloserInside(s: string, b: nat, j: nat)
    requires b <= j <= |s|
    requires forall k :: b <= k < j ==> !IsAt(s, "}}", k)
    ensures forall k :: 0 <= k < j - b ==> !IsAt(s[b..j], "}}", k)
  {
    forall k | 0 <= k < j - b ensures !IsAt(s[b..j], "}}", k) {
      if IsAt(s[b..j], "}}", k) {
        PieceOfSlice(s, b, b + k, b + k + 2, j);
        assert IsAt(s, "}}", b + k);
      }
    }
  }

  /**
   * A match spells `{{`, its keyword, white space, its pipe text and `}}`;
   * the keyword and the white space hold no `}`, and the pipe text holds no
   * `}}`.
   */
  lemma MatchSpells(s: string, p: nat)
    requires p <= |s| && MatchAt(s, p).Some?
    ensures var m := MatchAt(s, p).value;
      var ws := s[p + 2 + |m.keyword|..m.bodyStart];
      s[p..p + m.length] == "{{" + m.keyword + ws + m.body + "}}"
      && (forall k :: 0 <= k < |ws| ==> Space(ws[k]))
      && (forall k :: 0 <= k < |m.keyword| ==> m.keyword[k] != '}')
      && (forall k :: 0 <= k < |m.body| ==> !IsAt(m.body, "}}", k))
  {
    var m := MatchAt(s, p).value;
    var e := KeywordEnd(s, p + 2).value;
    var b := SkipSpace(s, e);
    var j := IndexOfFrom(s, "}}", b).value;
    assert m.keyword == s[p + 2..e] && m.bodyStart == b && m.body == s[b..j] && p + m.length == j + 2;
    KeywordHasNoBrace(s, p + 2);
    Spell(s, p, e, b, j);
    NoCloserInside(s, b, j);
    var ws := s[e..b];
    assert forall k :: 0 <= k < |ws| ==> ws[k] == s[e + k];
  }

  /** How a match is put together from the scanner's steps. */
  lemma MatchParts(s: string, p: nat)
    requires p <= |s| && MatchAt(s, p).Some?
    ensures p + 2 <= |s| && KeywordEnd(s, p + 2).Some?
    ensures var e := KeywordEnd(s, p + 2).value;
      var m := MatchAt(s, p).value;
      m.keyword == s[p + 2..e] && m.bodyStart == SkipSpace(s, e)
  {
  }

  /** The keyword forms one keyword alternative can produce. */
  predicate KeywordForm(w: string) {
    w in {"/", "!", "foreach", "if", "else", "elseif", "&", ""}
    || (|w| == 6 && w[..2] == "if" && Space(w[2]) && w[3..] == "not")
    || (|w| == 10 && w[..6] == "elseif" && Space(w[6]) && w[7..] == "not")
  }

  /** The text `KeywordEnd` takes is one of the keyword forms. */
  lemma KeywordText(s: string, q: nat)
    requires q <= |s| && KeywordEnd(s, q).Some?
    ensures KeywordForm(s[q..KeywordEnd(s, q).value])
  {
    var e := KeywordEnd(s, q).value;
    var w := s[q..e];
    if q < |s| && (s[q] == '/' || s[q] == '!') {
      assert w == [s[q]];
    } else if IsAt(s, "foreach", q) && q + 7 < |s| && (Space(s[q + 7]) || s[q + 7] == '}') {
      assert w == "foreach";
    } else if IsAt(s, "if", q) && IfTail(s, q + 2).Some? {
      if NotAt(s, q + 2) {
        assert w[..2] == s[q..q + 2] && w[2] == s[q + 2] && w[3..] == s[q + 3..q + 6];
      } else {
        assert w == "if";
      }
    } else if IsAt(s, "else", q) {
      if IsAt(s, "if", q + 4) && IfTail(s, q + 6).Some? {
        assert s[q..q + 6] == s[q..q + 4] + s[q + 4..q + 6];
        if NotAt(s, q + 6) {
          assert e == q + 10;
          assert w[..6] == s[q..q + 6] && w[6] == s[q + 6] && w[7..] == s[q + 7..q + 10];
        } else {
          assert w == s[q..q + 4] + s[q + 4..q + 6] == "else" + "if";
          assert w == "elseif";
        }
      } else {
        assert w == "else";
      }
    } else if q < |s| && s[q] == '&' && (q + 1 == |s| || s[q + 1] != '}') {
      assert w == "&";
    } else {
      assert w == "";
    }
  }

  /** The keywords the compiler acts on; anything else is an expression construct. */
  lemma KeywordForms(s: string, p: nat)
    requires p <= |s| && MatchAt(s, p).Some?
    ensures KeywordForm(MatchAt(s, p).value.keyword)
  {
    MatchParts(s, p);
    KeywordText(s, p + 2);
  }

  // ---------------------------------------------------------------------
  // The alternatives' order

  /** `else` not followed by an `if` keyword is an `else`, whatever word it begins. */
  lemma ElseBeginsWord(s: string, q: nat)
    requires q <= |s| && IsAt(s, "else", q)
    requires !(IsAt(s, "if", q + 4) && IfTail(s, q + 6).Some?)
    ensures KeywordEnd(s, q) == Some(q + 4)
  {
    CharsAt(s, "else", q);
    NotAtWitness(s, "foreach", q, 0);
    NotAtWitness(s, "if", q, 0);
  }

  /** `if` with no white space after it is no keyword: the keyword is empty and the word stays in the pipe text. */
  lemma IfBeginsWord(s: string, q: nat)
    requires q <= |s| && IsAt(s, "if", q) && (q + 2 == |s| || !Space(s[q + 2]))
    ensures KeywordEnd(s, q) == Some(q)
  {
    CharsAt(s, "if", q);
    NotAtWitness(s, "foreach", q, 0);
    NotAtWitness(s, "else", q, 0);
  }

  /** `&` is taken as the keyword exactly when no `}` follows it. */
  lemma AmpersandKeyword(s: string, q: nat)
    requires q < |s| && s[q] == '&'
    ensures KeywordEnd(s, q) == if q + 1 < |s| && s[q + 1] == '}' then Some(q) else Some(q + 1)
  {
    NotAtWitness(s, "foreach", q, 0);
    NotAtWitness(s, "if", q, 0);
    NotAtWitness(s, "else", q, 0);
  }

  // ---------------------------------------------------------------------
  // Examples of the alternatives' order

  /** `{{elsewhere}}` is an `else` whose (ignored) pipe text is `where`. */
  lemma ElsewhereIsElse()
    ensures MatchAt("{{elsewhere}}", 0) == Some(Construct(0, 13, "else", "where", 6))
  {
    var s := "{{elsewhere}}";
    assert IsAt(s, "{{", 0) && IsAt(s, "else", 2);
    NotAtWitness(s, "foreach", 2, 0);
    NotAtWitness(s, "if", 2, 0);
    NotAtWitness(s, "if", 6, 0);
    assert KeywordEnd(s, 2) == Some(6);
    assert SkipSpace(s, 6) == 6;
    assert IsAt(s, "}}", 11);
    forall k | 6 <= k < 11 ensures !IsAt(s, "}}", k) { NotAtWitness(s, "}}", k, 0); }
    assert IndexOfFrom(s, "}}", 6) == Some(11);
    assert s[2..6] == "else" && s[6..11] == "where";
  }

  /** `{{iffy}}` is no `if`: the keyword is empty and the pipe text is `iffy`. */
  lemma IffyIsExpression()
    ensures MatchAt("{{iffy}}", 0) == Some(Construct(0, 8, "", "iffy", 2))
  {
    var s := "{{iffy}}";
    assert IsAt(s, "{{", 0) && IsAt(s, "if", 2) && !Space(s[4]);
    assert !NotAt(s, 4);
    NotAtWitness(s, "foreach", 2, 1);
    NotAtWitness(s, "else", 2, 0);
    assert KeywordEnd(s, 2) == Some(2);
    assert SkipSpace(s, 2) == 2;
    assert IsAt(s, "}}", 6);
    forall k | 2 <= k < 6 ensures !IsAt(s, "}}", k) { NotAtWitness(s, "}}", k, 0); }
    assert IndexOfFrom(s, "}}", 2) == Some(6);
    assert s[2..2] == "" && s[2..6] == "iffy";
  }

  /** `{{&}}` is an expression construct whose pipe text is `&`: the `&` is not taken before `}`. */
  lemma LoneAmpersand()
    ensures MatchAt("{{&}}", 0) == Some(Construct(0, 5, "", "&", 2))
  {
    var s := "{{&}}";
    assert IsAt(s, "{{", 0);
    NotAtWitness(s, "foreach", 2, 0);
    NotAtWitness(s, "if", 2, 0);
    NotAtWitness(s, "else", 2, 0);
    assert KeywordEnd(s, 2) == Some(2);
    assert SkipSpace(s, 2) == 2;
    NotAtWitness(s, "}}", 2, 0);
    assert IsAt(s, "}}", 3);
    assert IndexOfFrom(s, "}}", 2) == Some(3);
    assert s[2..2] == "" && s[2..3] == "&";
  }

  // ---------------------------------------------------------------------
  // Where the pipe starts

  /** The pipe text occurs in the matched text where group 2 starts. */
  lemma BodyInMatch(s: string, m: Construct)
    requires m.index <= |s| && MatchAt(s, m.index) == Some(m)
    ensures IsAt(s[m.index..m.index + m.length], m.body, m.bodyStart - m.index)
  {
    PieceOfSlice(s, m.index, m.bodyStart, m.index + m.length - 2, m.index + m.length);
  }

  /**
   * `CreatePipe` as written: the pipe's offset is the match's index plus the
   * FIRST occurrence of the pipe text in the matched text, which is earlier
   * than the pipe text itself whenever that text also occurs inside the
   * keyword or the braces.
   */
  function PipeOffsetAsWritten(s: string, m: Construct): (r: nat)
    requires m.index <= |s| && MatchAt(s, m.index) == Some(m)
    ensures m.index <= r <= m.bodyStart
  {
    BodyInMatch(s, m);
    var v := s[m.index..m.index + m.length];
    match IndexOf(v, m.body)
    case Some(k) => m.index + k
    case None => assert false; m.index
  }

  /** Where group 2 starts: the offset the pipe's spans are measured from. */
  function PipeOffset(m: Construct): nat { m.bodyStart }

  /** For `{{if f}}` the offset as written points into the keyword `if`, not at the pipe `f`. */
  lemma PipeOffsetMisplaced()
    ensures MatchAt("{{if f}}", 0) == Some(Construct(0, 8, "if", "f", 5))
    ensures PipeOffsetAsWritten("{{if f}}", Construct(0, 8, "if", "f", 5)) == 3
    ensures PipeOffset(Construct(0, 8, "if", "f", 5)) == 5
  {
    var s := "{{if f}}";
    assert IsAt(s, "{{", 0) && IsAt(s, "if", 2);
    NotAtWitness(s, "foreach", 2, 0);
    assert Space(s[4]) && !Space(s[5]);
    NotAtWitness(s, "not", 5, 0);
    assert !NotAt(s, 4);
    assert KeywordEnd(s, 2) == Some(4);
    assert SkipSpace(s, 5) == 5;
    assert SkipSpace(s, 4) == 5;
    NotAtWitness(s, "}}", 5, 0);
    assert IsAt(s, "}}", 6);
    assert IndexOfFrom(s, "}}", 5) == Some(6);
    assert s[2..4] == "if" && s[5..6] == "f";
    var m := Construct(0, 8, "if", "f", 5);
    assert MatchAt(s, 0) == Some(m);
    var v := s[0..8];
    assert v == s;
    NotAtWitness(v, "f", 0, 0);
    NotAtWitness(v, "f", 1, 0);
    NotAtWitness(v, "f", 2, 0);
    assert IsAt(v, "f", 3);
    assert IndexOf(v, "f") == Some(3);
  }

  /** The pipe text sits in the template at its offset. */
  lemma PipeTextAt(s: string, m: Construct)
    requires m.index <= |s| && MatchAt(s, m.index) == Some(m)
    ensures IsAt(s, m.body, PipeOffset(m))
  {
    var j := m.index + m.length - 2;
    assert m.body == s[m.bodyStart..j] && j == m.bodyStart + |m.body|;
  }

  /** The pipe text starts right after the keyword's white space: its offset is exact. */
  lemma PipeOffsetExact(s: string, m: Construct)
    requires m.index <= |s| && MatchAt(s, m.index) == Some(m)
    ensures PipeOffset(m) == SkipSpace(s, m.index + 2 + |m.keyword|)
  {
    MatchParts(s, m.index);
    var e := KeywordEnd(s, m.index + 2).value;
    assert |m.keyword| == e - (m.index + 2);
  }
}
