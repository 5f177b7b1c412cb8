/**
 * The section extractor of main.py (`parse_ai_output`): turns the language
 * model's reply into four stripped text fields.
 *
 * The two regular expressions of the source are modelled by what they match,
 * not by a regex engine. Each recogniser below is a deterministic function that
 * returns the choice Python's backtracking matcher makes: greedy parts take the
 * longest text that lets the rest succeed, lazy captures the shortest, and
 * `re.search` the leftmost starting position.
 */
module Extractor {
  import opened Wrappers
  import opened Text

  /** The four fields of the dictionary `parse_ai_output` returns; none is ever absent. */
  datatype Sections = Sections(
    reflection: string,
    dreamInterpretation: string,
    mindsetInsight: string,
    dayStrategy: string)

  predicate AllTrimmed(r: Sections) {
    IsTrimmed(r.reflection) && IsTrimmed(r.dreamInterpretation)
    && IsTrimmed(r.mindsetInsight) && IsTrimmed(r.dayStrategy)
  }

  /** The titles of the four numbered headers, in lower case (both patterns carry `(?i)`). */
  function Title(k: nat): (t: string)
    requires 1 <= k <= 4
    ensures |t| > 0 && IsAsciiLower(t[0])
  {
    if k == 1 then "inner reflection summary"
    else if k == 2 then "dream interpretation summary"
    else if k == 3 then "energy/mindset insight"
    else "suggested day strategy"
  }

  function Digit(k: nat): char
    requires 1 <= k <= 4
  {
    if k == 1 then '1' else if k == 2 then '2' else if k == 3 then '3' else '4'
  }

  /**
   * The numbered label `k\.\s*<title>` at position `i`, common to both tiers.
   * Its result is the index just after the title.
   */
  function LabelEnd(s: string, i: nat, k: nat): (r: Option<nat>)
    requires i <= |s| && 1 <= k <= 4
    ensures r.Some? ==> i + 2 + |Title(k)| <= r.value <= |s|
    ensures r.Some? ==> s[i] == Digit(k) && s[i + 1] == '.'
  {
    if i + 2 <= |s| && s[i] == Digit(k) && s[i + 1] == '.' then
      var j := SkipSpace(s, i + 2);
      if MatchesAt(s, j, Title(k)) then Some(j + |Title(k)|) else None
    else None
  }

  /**
   * Greedy extent of the decoration that may follow a title before its line
   * break: `\s*:?\s*(?:\*\*)?\s*` when `bold` (primary tier) and `\s*:?\s*`
   * otherwise (fallback tier).
   */
  function DecorEnd(s: string, t: nat, bold: bool): (d: nat)
    requires t <= |s|
    ensures t <= d <= |s|
  {
    var a := SkipSpace(s, t);
    var b := if a < |s| && s[a] == ':' then a + 1 else a;
    var c := SkipSpace(s, b);
    if !bold then c
    else
      var e := if c + 1 < |s| && s[c] == '*' && s[c + 1] == '*' then c + 2 else c;
      SkipSpace(s, e)
  }

  /** The index just after the last newline of `s[t..d]`, if there is one. */
  function LastNewlineEnd(s: string, t: nat, d: nat): (r: Option<nat>)
    requires t <= d <= |s|
    ensures r.Some? ==> t < r.value <= d && s[r.value - 1] == '\n'
    ensures r.Some? ==> forall j :: r.value <= j < d ==> s[j] != '\n'
    ensures r.None? ==> forall j :: t <= j < d ==> s[j] != '\n'
    decreases d - t
  {
    if d == t then None
    else if s[d - 1] == '\n' then Some(d)
    else LastNewlineEnd(s, t, d - 1)
  }

  /**
   * End of a header line whose title ends at `t`: the decoration followed by
   * `\n`. Every newline inside the greedy decoration can close the line, and
   * backtracking tries them from the last one down, so the first choice is the
   * last newline.
   */
  function LineEnd(s: string, t: nat, bold: bool): (r: Option<nat>)
    requires t <= |s|
    ensures r.Some? ==> t < r.value <= |s| && s[r.value - 1] == '\n'
  {
    LastNewlineEnd(s, t, DecorEnd(s, t, bold))
  }

  // ---------------------------------------------------------------- primary tier

  /** Position `j` holds a character the lead of a primary header may consist of. */
  predicate LeadCharAt(s: string, j: nat)
    requires j < |s|
  {
    SpaceAt(s, j) || s[j] == '*'
  }

  /** `(?:\*\*)?\s*` at `p`: where the label of a primary header starting at `p` has to begin. */
  function LeadEnd(s: string, p: nat): (d: nat)
    requires p <= |s|
    ensures p <= d <= |s|
    ensures forall j :: p <= j < d ==> LeadCharAt(s, j)
  {
    if p + 2 <= |s| && s[p] == '*' && s[p + 1] == '*' then SkipSpace(s, p + 2) else SkipSpace(s, p)
  }

  /**
   * `(?:\s*\(.*?\))?` and the rest of the fourth header's line: the group is
   * tried first, its lazy `.*?` stops at the first `)` after which the line can
   * end; without such a `)` the group is skipped.
   */
  function NoteLineEnd(s: string, t: nat): (r: Option<nat>)
    requires t <= |s|
    ensures r.Some? ==> t < r.value <= |s|
  {
    var w := SkipSpace(s, t);
    if w < |s| && s[w] == '(' then
      match CloseParen(s, w + 1)
      case Some(e) => Some(e)
      case None => LineEnd(s, t, true)
    else LineEnd(s, t, true)
  }

  function CloseParen(s: string, c: nat): (r: Option<nat>)
    requires c <= |s|
    ensures r.Some? ==> c < r.value <= |s|
    decreases |s| - c
  {
    if c == |s| then None
    else if s[c] == ')' && LineEnd(s, c + 1, true).Some? then LineEnd(s, c + 1, true)
    else CloseParen(s, c + 1)
  }

  /** Header `k` of the combined pattern whose label begins at `d`; the index after its line break. */
  function LabelLineEnd(s: string, d: nat, k: nat): (r: Option<nat>)
    requires d <= |s| && 1 <= k <= 4
    ensures r.Some? ==> d < r.value <= |s|
  {
    match LabelEnd(s, d, k)
    case None => None
    case Some(t) => if k == 4 then NoteLineEnd(s, t) else LineEnd(s, t, true)
  }

  /** Header `k` of the combined pattern starting at `p`, lead included. */
  function HeaderEnd(s: string, p: nat, k: nat): (r: Option<nat>)
    requires p <= |s| && 1 <= k <= 4
    ensures r.Some? ==> p < r.value <= |s|
  {
    LabelLineEnd(s, LeadEnd(s, p), k)
  }

  /**
   * The combined pattern from the capture that starts at `c`, for headers `k`
   * to 4 still to come (`k == 5`: the last capture, `(.*)`, to the end).
   * The result lists the captures, the one starting at `c` first.
   */
  function Rest(s: string, c: nat, k: nat): (r: Option<seq<string>>)
    requires c <= |s| && 2 <= k <= 5
    ensures r.Some? ==> |r.value| == 6 - k
    decreases |s| - c, 2
  {
    if k == 5 then Some([s[c..]]) else FindHeader(s, c, c, k)
  }

  /**
   * The lazy capture `(.*?)` that started at `c`, extended to `p` and beyond:
   * the first position `p` at which header `k` matches and the remaining
   * headers can follow.
   */
  function FindHeader(s: string, c: nat, p: nat, k: nat): (r: Option<seq<string>>)
    requires c <= p <= |s| && 1 <= k <= 4
    ensures r.Some? ==> |r.value| == 6 - k
    decreases |s| - p, 1
  {
    if HeaderHere(s, c, p, k).Some? then HeaderHere(s, c, p, k)
    else if p < |s| then FindHeader(s, c, p + 1, k)
    else None
  }

  /**
   * The capture that started at `c` ends at `p` when header `k` matches at
   * `p` and the remaining headers can follow its line. Only the last line end
   * of header `k` is tried: an earlier one never helps, since the next
   * header's `(?:\*\*)?\s*` absorbs whatever lies between.
   */
  function HeaderHere(s: string, c: nat, p: nat, k: nat): (r: Option<seq<string>>)
    requires c <= p <= |s| && 1 <= k <= 4
    ensures r.Some? ==> |r.value| == 6 - k
    decreases |s| - p, 0
  {
    match HeaderEnd(s, p, k)
    case None => None
    case Some(e) =>
      match Rest(s, e, k + 1)
      case None => None
      case Some(caps) => Some([s[c..p]] + caps)
  }

  /**
   * `pattern.search(output_string)` with the combined pattern (main.py:73-80):
   * the four raw captures, or `None` when the pattern matches nowhere. The
   * text before the match is dropped.
   */
  function Primary(s: string): (r: Option<seq<string>>)
    ensures r.Some? ==> |r.value| == 4
  {
    match FindHeader(s, 0, 0, 1)
    case None => None
    case Some(caps) => Some(caps[1..])
  }

  // --------------------------------------------------------------- fallback tier

  /** The lookahead `(?=\n<label k>\s*:?)` at `q` (the optional tail always matches). */
  predicate MarkAt(s: string, q: nat, k: nat)
    requires q <= |s| && 1 <= k <= 4
  {
    q < |s| && s[q] == '\n' && LabelEnd(s, q + 1, k).Some?
  }

  /** The first mark for label `k` at or after `q`. */
  function FirstMark(s: string, q: nat, k: nat): (r: Option<nat>)
    requires q <= |s| && 1 <= k <= 4
    ensures r.Some? ==> q <= r.value < |s| && MarkAt(s, r.value, k)
    ensures r.Some? ==> forall j :: q <= j < r.value ==> !MarkAt(s, j, k)
    ensures r.None? ==> forall j :: q <= j <= |s| ==> !MarkAt(s, j, k)
    decreases |s| - q
  {
    if q == |s| then None
    else if MarkAt(s, q, k) then Some(q)
    else FirstMark(s, q + 1, k)
  }

  /**
   * `\s*:?\s*\n(.*?)(?=\n<label k>\s*:?)` once the start title has ended at `t`:
   * the candidate line ends `e` in `(t, d]` are tried from the last down, and
   * the first one with a mark at or after it wins; the capture stops at the
   * first such mark.
   */
  function CaptureBefore(s: string, t: nat, e: nat, k: nat): (r: Option<string>)
    requires t <= e <= |s| && 1 <= k <= 4
    decreases e - t
  {
    if e == t then None
    else if s[e - 1] == '\n' && FirstMark(s, e, k).Some? then Some(s[e..FirstMark(s, e, k).value])
    else CaptureBefore(s, t, e - 1, k)
  }

  /** The fallback regex for section `k` anchored at `p`: its raw capture, if it matches there. */
  function SectionAt(s: string, p: nat, k: nat): (r: Option<string>)
    requires p <= |s| && 1 <= k <= 4
  {
    match LabelEnd(s, p, k)
    case None => None
    case Some(t) =>
      if k == 4 then
        match LineEnd(s, t, false)
        case None => None
        case Some(e) => Some(s[e..])
      else CaptureBefore(s, t, DecorEnd(s, t, false), k + 1)
  }

  /** `re.search` of the fallback regex for section `k` from position `p` on. */
  function FindSection(s: string, p: nat, k: nat): (r: Option<string>)
    requires p <= |s| && 1 <= k <= 4
    decreases |s| - p
  {
    if SectionAt(s, p, k).Some? then SectionAt(s, p, k)
    else if p < |s| then FindSection(s, p + 1, k)
    else None
  }

  /**
   * `extract_section` (main.py:91-97): section `k` runs from its own label to
   * the next label `k + 1` (to the end of the text for `k == 4`); no match
   * gives the empty string.
   */
  function ExtractSection(s: string, k: nat): (r: string)
    requires 1 <= k <= 4
    ensures IsTrimmed(r)
  {
    match FindSection(s, 0, k)
    case None => ""
    case Some(cap) => Strip(cap)
  }

  /** The fallback branch of `parse_ai_output` (main.py:89-104): four independent extractions. */
  function Fallback(s: string): (r: Sections)
    ensures AllTrimmed(r)
  {
    Sections(ExtractSection(s, 1), ExtractSection(s, 2), ExtractSection(s, 3), ExtractSection(s, 4))
  }

  /**
   * `parse_ai_output` (main.py:71-104): the combined pattern's stripped
   * captures when it matches, the fallback otherwise. Every field is present
   * and has no whitespace at either end.
   */
  function ParseAiOutput(s: string): (r: Sections)
    ensures AllTrimmed(r)
    ensures Primary(s).None? ==> r == Fallback(s)
  {
    match Primary(s)
    case Some(caps) => Sections(Strip(caps[0]), Strip(caps[1]), Strip(caps[2]), Strip(caps[3]))
    case None => Fallback(s)
  }

  // ---------------------------------------------------------------- search order

  /** `j` is the first position from `p` on where header `k` matches with the later headers following. */
  predicate FirstHeaderAt(s: string, c: nat, p: nat, j: nat, k: nat)
    requires c <= p && 1 <= k <= 4
  {
    && p <= j <= |s|
    && HeaderHere(s, c, j, k).Some?
    && forall i :: p <= i < j ==> HeaderHere(s, c, i, k).None?
  }

  /** The lazy capture ends at the first position from `p` on where header `k` and all later headers match. */
  lemma {:induction false} FindHeaderFirst(s: string, c: nat, p: nat, j: nat, k: nat)
    requires c <= p && 1 <= k <= 4 && FirstHeaderAt(s, c, p, j, k)
    ensures FindHeader(s, c, p, k) == HeaderHere(s, c, j, k)
    decreases j - p
  {
    if p < j {
      assert HeaderHere(s, c, p, k).None?;
      assert FirstHeaderAt(s, c, p + 1, j, k);
      FindHeaderFirst(s, c, p + 1, j, k);
    }
  }

  /** Where header `k` and the later headers match at no position from `p` on, the pattern fails from there. */
  lemma {:induction false} FindHeaderNone(s: string, c: nat, p: nat, k: nat)
    requires c <= p <= |s| && 1 <= k <= 4
    requires forall j :: p <= j <= |s| ==> HeaderHere(s, c, j, k).None?
    ensures FindHeader(s, c, p, k).None?
    decreases |s| - p
  {
    assert HeaderHere(s, c, p, k).None?;
    if p < |s| {
      FindHeaderNone(s, c, p + 1, k);
    }
  }

  /** A `)` at `j` after which the fourth header's line can end. */
  predicate ClosesNote(s: string, j: nat) {
    j < |s| && s[j] == ')' && LineEnd(s, j + 1, true).Some?
  }

  /**
   * The lazy `.*?` of the note stops at the first `)` from `c` on after which
   * the line can end, and the line ends as it does after that `)`; with no
   * such `)` the note group does not match.
   */
  lemma {:induction false} CloseParenFirst(s: string, c: nat)
    requires c <= |s|
    ensures CloseParen(s, c).None? <==> forall j :: c <= j < |s| ==> !ClosesNote(s, j)
    ensures CloseParen(s, c).Some? ==>
              exists j :: c <= j < |s| && ClosesNote(s, j) && (forall i :: c <= i < j ==> !ClosesNote(s, i))
                          && CloseParen(s, c) == LineEnd(s, j + 1, true)
    decreases |s| - c
  {
    if c < |s| {
      if ClosesNote(s, c) {
        assert CloseParen(s, c) == LineEnd(s, c + 1, true);
      } else {
        CloseParenFirst(s, c + 1);
        if CloseParen(s, c).Some? {
          var j :| c + 1 <= j < |s| && ClosesNote(s, j) && (forall i :: c + 1 <= i < j ==> !ClosesNote(s, i))
                   && CloseParen(s, c + 1) == LineEnd(s, j + 1, true);
          assert forall i :: c <= i < j ==> !ClosesNote(s, i);
        }
      }
    }
  }

  /** `j` is the first position from `p` on where the fallback regex for section `k` matches. */
  predicate FirstSectionAt(s: string, p: nat, j: nat, k: nat)
    requires 1 <= k <= 4
  {
    && p <= j <= |s|
    && SectionAt(s, j, k).Some?
    && forall i :: p <= i < j ==> SectionAt(s, i, k).None?
  }

  /** `re.search` of the fallback regex settles on the leftmost position where it matches. */
  lemma {:induction false} FindSectionFirst(s: string, p: nat, j: nat, k: nat)
    requires 1 <= k <= 4 && FirstSectionAt(s, p, j, k)
    ensures FindSection(s, p, k) == SectionAt(s, j, k)
    decreases j - p
  {
    if p < j {
      assert SectionAt(s, p, k).None?;
      assert FirstSectionAt(s, p + 1, j, k);
      FindSectionFirst(s, p + 1, j, k);
    }
  }

  /** Where the fallback regex matches at no position from `p` on, the search fails. */
  lemma {:induction false} FindSectionNone(s: string, p: nat, k: nat)
    requires p <= |s| && 1 <= k <= 4
    requires forall j :: p <= j <= |s| ==> SectionAt(s, j, k).None?
    ensures FindSection(s, p, k).None?
    decreases |s| - p
  {
    assert SectionAt(s, p, k).None?;
    if p < |s| {
      FindSectionNone(s, p + 1, k);
    }
  }

  /**
   * `extract_section` (main.py:91-97) returns the stripped capture of the
   * leftmost match of its regex, and `""` when the regex matches nowhere.
   */
  lemma ExtractSectionFirst(s: string, k: nat)
    requires 1 <= k <= 4
    ensures (forall j :: 0 <= j <= |s| ==> SectionAt(s, j, k).None?) ==> ExtractSection(s, k) == ""
    ensures forall j: nat :: FirstSectionAt(s, 0, j, k) ==> ExtractSection(s, k) == Strip(SectionAt(s, j, k).value)
  {
    if forall j :: 0 <= j <= |s| ==> SectionAt(s, j, k).None? {
      FindSectionNone(s, 0, k);
    }
    forall j: nat | FirstSectionAt(s, 0, j, k) ensures ExtractSection(s, k) == Strip(SectionAt(s, j, k).value) {
      FindSectionFirst(s, 0, j, k);
    }
  }
}

/** Properties of the fallback tier and of the choice between the two tiers. */
module FallbackFacts {
  import opened Wrappers
  import opened Text
  import opened Extractor

  /** The fallback's start line for section `k` at `p`: its label, then `\s*:?\s*` and a newline. */
  predicate FallbackHeaderAt(s: string, p: nat, k: nat)
    requires p <= |s| && 1 <= k <= 4
  {
    match LabelEnd(s, p, k)
    case None => false
    case Some(t) => LineEnd(s, t, false).Some?
  }

  /**
   * What the fallback needs to capture section `k` (1-3): a start line at `p`
   * and, at `q` after it, a newline followed by label `k + 1`.
   */
  predicate SectionFrame(s: string, p: nat, q: nat, k: nat)
    requires p <= |s| && q <= |s| && 1 <= k <= 3
  {
    FallbackHeaderAt(s, p, k) && MarkAt(s, q, k + 1)
  }

  /** A capture of section `k` (1-3) found from a start label at `p` exhibits the frame it needs. */
  lemma {:induction false} CaptureFrame(s: string, p: nat, t: nat, e: nat, k: nat) returns (q: nat)
    requires 1 <= k <= 3 && p <= |s| && LabelEnd(s, p, k) == Some(t)
    requires t <= e <= DecorEnd(s, t, false)
    requires CaptureBefore(s, t, e, k + 1).Some?
    ensures p < q <= |s| && SectionFrame(s, p, q, k)
    decreases e - t
  {
    var m := FirstMark(s, e, k + 1);
    if s[e - 1] == '\n' && m.Some? {
      assert LastNewlineEnd(s, t, DecorEnd(s, t, false)).Some?;
      q := m.value;
    } else {
      q := CaptureFrame(s, p, t, e - 1, k);
    }
  }

  /** A fallback match for section `k` found from `p` on exhibits the start line and end mark it used. */
  lemma {:induction false} SectionFound(s: string, p: nat, k: nat) returns (p': nat, q: nat)
    requires 1 <= k <= 4 && p <= |s|
    requires FindSection(s, p, k).Some?
    ensures p <= p' <= |s| && FallbackHeaderAt(s, p', k)
    ensures k < 4 ==> p' < q <= |s| && SectionFrame(s, p', q, k)
    decreases |s| - p
  {
    q := 0;
    if SectionAt(s, p, k).Some? {
      p' := p;
      var t := LabelEnd(s, p, k).value;
      if k < 4 {
        q := CaptureFrame(s, p, t, DecorEnd(s, t, false), k);
      }
    } else {
      p', q := SectionFound(s, p + 1, k);
    }
  }

  /**
   * Sections 1-3 of the fallback need the next header: unless some start line
   * of section `k` is followed, later in the text, by a newline and label
   * `k + 1`, the field is empty.
   */
  lemma {:induction false} SectionNeedsNextLabel(s: string, k: nat)
    requires 1 <= k <= 3
    requires forall p, q :: 0 <= p < q <= |s| ==> !SectionFrame(s, p, q, k)
    ensures ExtractSection(s, k) == ""
  {
    if FindSection(s, 0, k).Some? {
      var p, q := SectionFound(s, 0, k);
      assert false;
    }
  }

  /** Section 4 of the fallback is empty unless its start line (label, optional colon, newline) occurs. */
  lemma {:induction false} LastSectionNeedsStartLine(s: string)
    requires forall p :: 0 <= p <= |s| ==> !FallbackHeaderAt(s, p, 4)
    ensures ExtractSection(s, 4) == ""
  {
    if FindSection(s, 0, 4).Some? {
      var p, q := SectionFound(s, 0, 4);
      assert false;
    }
  }

  /**
   * The fallback's start label allows no parenthetical: a fourth label followed
   * by ` (` cannot open section 4 there, whatever follows.
   */
  lemma {:induction false} NoteBlocksFallbackStart(s: string, p: nat)
    requires p <= |s| && LabelEnd(s, p, 4).Some?
    requires var t := LabelEnd(s, p, 4).value; t + 1 < |s| && s[t] == ' ' && s[t + 1] == '('
    ensures !FallbackHeaderAt(s, p, 4)
  {
    var t := LabelEnd(s, p, 4).value;
    assert SkipSpace(s, t) == t + 1;
    assert DecorEnd(s, t, false) == t + 1;
    assert LastNewlineEnd(s, t, t + 1).None?;
  }

  /** Without label `j` anywhere, the combined pattern never gets past header `j`. */
  lemma {:induction false} NoLabelNoHeader(s: string, c: nat, p: nat, k: nat, j: nat)
    requires 1 <= k <= j <= 4 && c <= p <= |s|
    requires forall d :: 0 <= d <= |s| ==> LabelEnd(s, d, j).None?
    ensures FindHeader(s, c, p, k).None?
    decreases |s| - p
  {
    var h := HeaderEnd(s, p, k);
    if k == j {
      assert LabelEnd(s, LeadEnd(s, p), j).None?;
      assert h.None?;
    } else if h.Some? {
      NoLabelNoHeader(s, h.value, h.value, k + 1, j);
      assert Rest(s, h.value, k + 1).None?;
    }
    assert HeaderHere(s, c, p, k).None?;
    if p < |s| {
      NoLabelNoHeader(s, c, p + 1, k, j);
    }
  }

  /** With any one label missing, the combined pattern does not match and the fallback decides. */
  lemma {:induction false} MissingLabelMeansFallback(s: string, j: nat)
    requires 1 <= j <= 4
    requires forall d :: 0 <= d <= |s| ==> LabelEnd(s, d, j).None?
    ensures Primary(s).None?
    ensures ParseAiOutput(s) == Fallback(s)
  {
    NoLabelNoHeader(s, 0, 0, 1, j);
  }

  /**
   * A reply without the third header: the fallback blanks the dream
   * interpretation as well as the mindset insight (section 2 ends only at
   * header 3), while sections 1 and 4 are extracted as usual.
   */
  lemma {:induction false} MissingThirdHeader(s: string)
    requires forall d :: 0 <= d <= |s| ==> LabelEnd(s, d, 3).None?
    ensures ParseAiOutput(s) == Sections(ExtractSection(s, 1), "", "", ExtractSection(s, 4))
  {
    MissingLabelMeansFallback(s, 3);
    SectionNeedsNextLabel(s, 2);
    SectionNeedsNextLabel(s, 3);
  }

  /**
   * When every fourth label in the reply carries the parenthetical the prompt
   * itself asks for and the combined pattern fails, the strategy is lost.
   */
  lemma {:induction false} NotedFourthHeaderLostInFallback(s: string)
    requires Primary(s).None?
    requires forall p :: 0 <= p <= |s| && LabelEnd(s, p, 4).Some? ==>
               var t := LabelEnd(s, p, 4).value; t + 1 < |s| && s[t] == ' ' && s[t + 1] == '('
    ensures ParseAiOutput(s).dayStrategy == ""
  {
    forall p | 0 <= p <= |s| ensures !FallbackHeaderAt(s, p, 4) {
      if LabelEnd(s, p, 4).Some? {
        NoteBlocksFallbackStart(s, p);
      }
    }
    LastSectionNeedsStartLine(s);
  }

  /** A failed model call yields the empty reply, which parses to four empty fields. */
  lemma EmptyReply()
    ensures ParseAiOutput("") == Sections("", "", "", "")
  {
    assert FindHeader("", 0, 0, 1).None?;
    forall k | 1 <= k <= 4 ensures ExtractSection("", k) == "" {
      assert FindSection("", 0, k).None?;
    }
  }
}
