/**
 * The markup scanner of `TokenList`: the regular expression that splits
 * text content into tag openings, tag ends, attribute words and quotes,
 * written out as a scanner.
 *
 * Its alternatives, tried in order at each position, begin with different
 * characters: `<`, then an optional `/`, then a tag name (a maximal run of
 * characters other than white space, `>` and `/`); `/>` or `>`; a word of
 * word characters followed by white space, `>` or `/` (looked at, not
 * taken) or by `="` (taken); a lone `"`. A word shorter than the maximal
 * run is always followed by another word character, so backtracking into
 * the word never finds a match the maximal run misses.
 */
module HtmlScan {
  import opened Wrappers
  import opened Text
  import CallSites

  datatype HtmlMatch =
    | TagOpen(index: nat, closing: bool, name: string)   // `<name` or `</name`
    | TagEnd(index: nat, selfClosing: bool)              // `>` or `/>`
    | Word(index: nat, word: string, assign: bool)       // `word` or `word="`
    | Quote(index: nat)                                  // `"`

  /** `\s`. */
  predicate Space(c: char) { CallSites.IsRegexSpace(c) }

  /** `[^\s>\/]`: a character of a tag name. */
  predicate NameChar(c: char) { !Space(c) && c != '>' && c != '/' }

  /** `\w`, restricted to ASCII letters, digits and the underscore. */
  predicate WordChar(c: char) {
    ('a' <= c <= 'z') || ('A' <= c <= 'Z') || ('0' <= c <= '9') || c == '_'
  }

  /** The text a match covers (`Match.Value`). */
  function Value(m: HtmlMatch): string {
    match m
    case TagOpen(_, closing, name) => "<" + (if closing then "/" else "") + name
    case TagEnd(_, selfClosing) => if selfClosing then "/>" else ">"
    case Word(_, word, assign) => word + (if assign then "=\"" else "")
    case Quote(_) => "\""
  }

  /** The end of the run of tag-name characters at `k`. */
  function NameEnd(s: string, k: nat): (e: nat)
    requires k <= |s|
    ensures k <= e <= |s| && (e < |s| ==> !NameChar(s[e]))
    ensures forall i :: k <= i < e ==> NameChar(s[i])
    decreases |s| - k
  {
    if k < |s| && NameChar(s[k]) then NameEnd(s, k + 1) else k
  }

  /** The end of the run of word characters at `k`. */
  function WordEnd(s: string, k: nat): (e: nat)
    requires k <= |s|
    ensures k <= e <= |s| && (e < |s| ==> !WordChar(s[e]))
    ensures forall i :: k <= i < e ==> WordChar(s[i])
    decreases |s| - k
  {
    if k < |s| && WordChar(s[k]) then WordEnd(s, k + 1) else k
  }

  /** The first alternative at `p`: `<`, an optional `/` and a non-empty tag name. */
  function TagOpenAt(s: string, p: nat): (r: Option<HtmlMatch>)
    requires p < |s| && s[p] == '<'
    ensures r.Some? ==> r.value.TagOpen? && r.value.index == p && IsAt(s, Value(r.value), p)
    ensures r.Some? ==> |r.value.name| >= 1 && (r.value.closing <==> p + 1 < |s| && s[p + 1] == '/')
  {
    if p + 1 < |s| && s[p + 1] == '/' then
      var e := NameEnd(s, p + 2);
      if e > p + 2 then
        assert s[p..e] == "</" + s[p + 2..e];
        Some(TagOpen(p, true, s[p + 2..e]))
      else None
    else
      var e := NameEnd(s, p + 1);
      if e > p + 1 then
        assert s[p..e] == "<" + s[p + 1..e];
        Some(TagOpen(p, false, s[p + 1..e]))
      else None
  }

  /** The third alternative at `p`: a maximal word, then white space, `>` or `/` ahead, or `="`. */
  function WordAt(s: string, p: nat): (r: Option<HtmlMatch>)
    requires p < |s| && WordChar(s[p])
    ensures r.Some? ==> r.value.Word? && r.value.index == p && IsAt(s, Value(r.value), p)
  {
    var e := WordEnd(s, p);
    if e < |s| && (Space(s[e]) || s[e] == '>' || s[e] == '/') then Some(Word(p, s[p..e], false))
    else if IsAt(s, "=\"", e) then
      assert s[p..e + 2] == s[p..e] + s[e..e + 2];
      Some(Word(p, s[p..e], true))
    else None
  }

  /** The match that starts exactly at `p`, if any. */
  function MatchAt(s: string, p: nat): (r: Option<HtmlMatch>)
    requires p <= |s|
    ensures r.Some? ==> r.value.index == p && IsAt(s, Value(r.value), p)
  {
    if p < |s| && s[p] == '<' then TagOpenAt(s, p)
    else if IsAt(s, "/>", p) then Some(TagEnd(p, true))
    else if p < |s| && s[p] == '>' then
      assert s[p..p + 1] == ">";
      Some(TagEnd(p, false))
    else if p < |s| && WordChar(s[p]) then WordAt(s, p)
    else if p < |s| && s[p] == '"' then
      assert s[p..p + 1] == "\"";
      Some(Quote(p))
    else None
  }

  /** The leftmost match at or after `from` (`Regex.Match` / `NextMatch`). */
  function NextMatch(s: string, from: nat): (r: Option<HtmlMatch>)
    requires from <= |s|
    ensures r.Some? ==> from <= r.value.index <= |s| && IsAt(s, Value(r.value), r.value.index)
    decreases |s| - from
  {
    if from == |s| then None
    else if MatchAt(s, from).Some? then MatchAt(s, from)
    else NextMatch(s, from + 1)
  }

  /** What `NextMatch` finds is the match at its index. */
  lemma {:induction false} NextIsMatch(s: string, from: nat)
    requires from <= |s| && NextMatch(s, from).Some?
    ensures MatchAt(s, NextMatch(s, from).value.index) == NextMatch(s, from)
    decreases |s| - from
  {
    if MatchAt(s, from).None? {
      NextIsMatch(s, from + 1);
    }
  }

  /** No match starts before the one `NextMatch` finds; when it finds none, none starts at or after `from`. */
  lemma {:induction false} NextIsLeftmost(s: string, from: nat, k: nat)
    requires from <= k <= |s|
    requires NextMatch(s, from).Some? ==> k < NextMatch(s, from).value.index
    ensures MatchAt(s, k).None?
    decreases k - from
  {
    if from < k {
      assert MatchAt(s, from).None?;
      assert NextMatch(s, from) == NextMatch(s, from + 1);
      NextIsLeftmost(s, from + 1, k);
    }
  }

  /** A match lies inside the text: it ends by the end of the text. */
  lemma MatchInside(s: string, from: nat)
    requires from <= |s| && NextMatch(s, from).Some?
    ensures var m := NextMatch(s, from).value;
      m.index + |Value(m)| <= |s| && s[m.index..m.index + |Value(m)|] == Value(m)
  {
  }

  /**
   * `Groups[1].Success` for a match that starts with `<`, as the splitter
   * tests it to tell a closing tag: group 1 is `(\/?)`, which takes part in
   * every match of the first alternative, empty or not.
   */
  function Group1Success(m: HtmlMatch): (r: bool)
    requires m.TagOpen?
  {
    true
  }

  /** `Groups[1].Value == "/"`: whether the tag opening is a closing tag. */
  function IsClosingTag(m: HtmlMatch): bool
    requires m.TagOpen?
  {
    m.closing
  }

  /** A tag opening is a closing tag exactly when its text starts with `</`. */
  lemma ClosingMeansSlash(s: string, p: nat)
    requires p <= |s| && MatchAt(s, p).Some? && MatchAt(s, p).value.TagOpen?
    ensures IsClosingTag(MatchAt(s, p).value) <==> IsAt(s, "</", p)
  {
    var m := MatchAt(s, p).value;
    assert s[p] == '<';
    if IsAt(s, "</", p) {
      assert s[p..p + 2][1] == '/';
    }
  }

  /** `<b`: the first alternative matches with an empty group 1, which still reads as a success. */
  lemma OpeningTagReadsAsClosing()
    ensures MatchAt("<b>", 0) == Some(TagOpen(0, false, "b"))
    ensures Group1Success(TagOpen(0, false, "b")) && !IsClosingTag(TagOpen(0, false, "b"))
  {
    var s := "<b>";
    assert NameChar(s[1]) && !NameChar(s[2]);
    assert NameEnd(s, 2) == 2;
    assert NameEnd(s, 1) == 2;
    assert s[1..2] == "b";
  }
}
