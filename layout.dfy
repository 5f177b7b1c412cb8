/**
 * What the combined pattern of `parse_ai_output` (main.py:73-88) returns on a
 * well-formed reply: any preamble, then the four numbered headers in order,
 * each on a line of its own, each followed by its section text.
 */
module PrimaryLayout {
  import opened Wrappers
  import opened Text
  import opened Extractor

  /**
   * How one header line is written: optionally wrapped in `**`, the title in
   * any letter case, an optional colon, and for the fourth header an optional
   * parenthetical note such as `(time-aligned tasks)`.
   */
  datatype HeaderStyle = HeaderStyle(bold: bool, title: string, colon: bool, note: Option<string>)

  predicate WellStyled(k: nat, h: HeaderStyle)
    requires 1 <= k <= 4
  {
    && |h.title| == |Title(k)|
    && MatchesAt(h.title, 0, Title(k))
    && (h.note.Some? ==> k == 4 && forall i :: 0 <= i < |h.note.value| ==> h.note.value[i] != ')')
  }

  function Stars(bold: bool): string {
    if bold then "**" else ""
  }

  function NoteText(note: Option<string>): string {
    match note
    case None => ""
    case Some(n) => " (" + n + ")"
  }

  /** `k. <title>` and the note, if any. */
  function Label(k: nat, h: HeaderStyle): string
    requires 1 <= k <= 4
  {
    [Digit(k), '.', ' '] + h.title + NoteText(h.note)
  }

  /** The rest of the line after the label: colon, closing `**`, newline. */
  function LineTail(h: HeaderStyle): string {
    (if h.colon then ":" else "") + Stars(h.bold) + "\n"
  }

  function HeaderLine(k: nat, h: HeaderStyle): string
    requires 1 <= k <= 4
  {
    Stars(h.bold) + Label(k, h) + LineTail(h)
  }

  /** A character that cannot continue a header line's decoration or note. */
  predicate StartsSection(c: char) {
    !IsSpace(c) && c != ':' && c != '*' && c != '('
  }

  /**
   * A section text the combined pattern hands back as it is: non-empty,
   * trimmed, not starting with a character the header line's decoration could
   * absorb (`:`, `*`, `(`) and not ending with `*`.
   */
  predicate Clean(b: string) {
    |b| > 0 && IsTrimmed(b) && StartsSection(b[0]) && b[|b| - 1] != '*'
  }

  /**
   * Header lines with their section texts from the `i`-th on, each section
   * followed by a newline before the next header line.
   */
  function Joined(Hs: seq<string>, bs: seq<string>, i: nat): string
    requires |Hs| == |bs| && i < |bs|
    decreases |bs| - i
  {
    Hs[i] + bs[i] + (if i == |bs| - 1 then "" else "\n" + Joined(Hs, bs, i + 1))
  }

  /** The four header lines written in styles `hs`. */
  function HeaderLines(hs: seq<HeaderStyle>): (Hs: seq<string>)
    requires |hs| == 4
    ensures |Hs| == 4
  {
    [HeaderLine(1, hs[0]), HeaderLine(2, hs[1]), HeaderLine(3, hs[2]), HeaderLine(4, hs[3])]
  }

  /** A reply laid out as the combined pattern expects: the four headers, in order, each with its section. */
  function Layout(hs: seq<HeaderStyle>, bs: seq<string>): string
    requires |hs| == |bs| == 4
  {
    Joined(HeaderLines(hs), bs, 0)
  }

  /** Header styles each fitting the title of its own header. */
  predicate StylesFit(hs: seq<HeaderStyle>)
    requires |hs| == 4
  {
    forall i :: 0 <= i < 4 ==> WellStyled(i + 1, hs[i])
  }

  predicate AllClean(bs: seq<string>) {
    forall i :: 0 <= i < |bs| ==> Clean(bs[i])
  }

  /** What the main theorem asks of a reply: well-styled headers and clean sections. */
  predicate WellFormed(hs: seq<HeaderStyle>, bs: seq<string>)
    requires |hs| == |bs| == 4
  {
    StylesFit(hs) && AllClean(bs)
  }

  /** Header line `i` of `Hs`: the term on which `LinesFit` hangs its facts. */
  function LineOf(Hs: seq<string>, i: nat): string
    requires i < |Hs|
  {
    Hs[i]
  }

  /**
   * `Hs` holds the four header lines written in the well-styled styles `hs`.
   * A header line's text is brought in only where a proof names
   * `LineOf(Hs, i)`, so proofs about positions do not unfold it.
   */
  predicate LinesFit(hs: seq<HeaderStyle>, Hs: seq<string>)
    requires |hs| == 4
  {
    && |Hs| == 4
    && forall i {:trigger LineOf(Hs, i)} :: 0 <= i < 4 ==> WellStyled(i + 1, hs[i]) && LineOf(Hs, i) == HeaderLine(i + 1, hs[i])
  }

  /** Each numbered label occurs at most once in `s`. */
  predicate LabelsOnce(s: string) {
    forall k, d, d' ::
      (1 <= k <= 4 && 0 <= d <= |s| && 0 <= d' <= |s| && LabelAt(s, d, k) && LabelAt(s, d', k)) ==> d == d'
  }

  /** The label `k. <title>` begins at position `d` of `s`. */
  predicate LabelAt(s: string, d: nat, k: nat)
    requires d <= |s| && 1 <= k <= 4
  {
    LabelEnd(s, d, k).Some?
  }

  // ------------------------------------------------------------ one header line

  /** A label digit is neither whitespace nor decoration. */
  lemma DigitIsPlain(k: nat)
    requires 1 <= k <= 4
    ensures '1' <= Digit(k) <= '4' && !IsSpace(Digit(k))
  {
  }

  /** A piece of a text found in `s` is found in `s` at the matching offset. */
  lemma SubSlice(s: string, x: nat, w: string, i: nat, j: nat)
    requires x + |w| <= |s| && s[x..x + |w|] == w && i <= j <= |w|
    ensures s[x + i..x + j] == w[i..j]
  {
    assert forall q :: i <= q < j ==> s[x + q] == w[q];
  }

  /** Two texts found one after the other are each found at their own offset. */
  lemma SplitFound(s: string, x: nat, a: string, b: string)
    requires x + |a| + |b| <= |s| && s[x..x + |a| + |b|] == a + b
    ensures s[x..x + |a|] == a && s[x + |a|..x + |a| + |b|] == b
  {
    SubSlice(s, x, a + b, 0, |a|);
    SubSlice(s, x, a + b, |a|, |a| + |b|);
    assert (a + b)[..|a|] == a && (a + b)[|a|..|a| + |b|] == b;
  }

  lemma Assoc(a: string, b: string, c: string)
    ensures (a + b) + c == a + (b + c)
  {
  }

  /** A well-styled title, found at `p`, matches its header's title there and does not start with whitespace. */
  lemma TitleAt(s: string, p: nat, k: nat, h: HeaderStyle)
    requires 1 <= k <= 4 && WellStyled(k, h)
    requires p + |h.title| <= |s| && s[p..p + |h.title|] == h.title
    ensures p < |s| && !IsSpace(s[p]) && MatchesAt(s, p, Title(k))
  {
    assert CharMatchesI(h.title[0], LitChar(Title(k), 0));
    assert s[p] == h.title[0];
    forall j | 0 <= j < |Title(k)| ensures CharMatchesI(s[p + j], LitChar(Title(k), j)) {
      assert s[p + j] == h.title[j];
    }
  }

  /** The label of a well-styled header, found where the header line puts it. */
  lemma {:induction false} LabelInLine(s: string, d: nat, k: nat, h: HeaderStyle)
    requires 1 <= k <= 4 && WellStyled(k, h)
    requires d + 3 + |h.title| <= |s|
    requires s[d] == Digit(k) && s[d + 1] == '.' && s[d + 2] == ' '
    requires s[d + 3..d + 3 + |h.title|] == h.title
    ensures LabelEnd(s, d, k) == Some(d + 3 + |h.title|)
  {
    TitleAt(s, d + 3, k, h);
    assert SkipSpace(s, d + 2) == d + 3;
  }

  /** `:**` and a newline before a section: the decoration spans all of it. */
  lemma DecorColonStars(s: string, t: nat)
    requires t + 4 < |s| && s[t] == ':' && s[t + 1] == '*' && s[t + 2] == '*' && s[t + 3] == '\n'
    requires StartsSection(s[t + 4])
    ensures DecorEnd(s, t, true) == t + 4
  {
    assert SkipSpace(s, t) == t && SkipSpace(s, t + 1) == t + 1;
    assert SkipSpace(s, t + 4) == t + 4;
    assert SkipSpace(s, t + 3) == t + 4;
  }

  /** `:` and a newline before a section: the decoration spans both. */
  lemma DecorColon(s: string, t: nat)
    requires t + 2 < |s| && s[t] == ':' && s[t + 1] == '\n'
    requires StartsSection(s[t + 2])
    ensures DecorEnd(s, t, true) == t + 2
  {
    assert SkipSpace(s, t) == t;
    assert SkipSpace(s, t + 2) == t + 2;
    assert SkipSpace(s, t + 1) == t + 2;
  }

  /** `**` and a newline before a section: the decoration spans all of it. */
  lemma DecorStars(s: string, t: nat)
    requires t + 3 < |s| && s[t] == '*' && s[t + 1] == '*' && s[t + 2] == '\n'
    requires StartsSection(s[t + 3])
    ensures DecorEnd(s, t, true) == t + 3
  {
    assert SkipSpace(s, t) == t;
    assert SkipSpace(s, t + 3) == t + 3;
    assert SkipSpace(s, t + 2) == t + 3;
  }

  /** A bare newline before a section: the decoration is the newline. */
  lemma DecorNewline(s: string, t: nat)
    requires t + 1 < |s| && s[t] == '\n'
    requires StartsSection(s[t + 1])
    ensures DecorEnd(s, t, true) == t + 1
  {
    assert SkipSpace(s, t + 1) == t + 1;
    assert SkipSpace(s, t) == t + 1;
  }

  /** One character of a text found in `s`. */
  lemma At(s: string, x: nat, w: string, i: nat)
    requires x + |w| <= |s| && s[x..x + |w|] == w && i < |w|
    ensures s[x + i] == w[i]
  {
    assert s[x..x + |w|][i] == s[x + i];
  }

  /** The four shapes of a line tail. */
  lemma TailShape(h: HeaderStyle)
    ensures LineTail(h) == (if h.colon && h.bold then ":**\n" else if h.colon then ":\n" else if h.bold then "**\n" else "\n")
  {
  }

  /** The line tail closes the header line at its own newline when the next character cannot extend it. */
  lemma {:induction false} TailEndsLine(s: string, t: nat, h: HeaderStyle)
    requires t + |LineTail(h)| < |s| && s[t..t + |LineTail(h)|] == LineTail(h)
    requires StartsSection(s[t + |LineTail(h)|])
    ensures LineEnd(s, t, true) == Some(t + |LineTail(h)|)
  {
    var T := LineTail(h);
    var e := t + |T|;
    TailShape(h);
    At(s, t, T, 0);
    At(s, t, T, |T| - 1);
    if |T| >= 3 {
      At(s, t, T, 1);
      At(s, t, T, 2);
    }
    if h.colon && h.bold {
      DecorColonStars(s, t);
    } else if h.colon {
      DecorColon(s, t);
    } else if h.bold {
      DecorStars(s, t);
    } else {
      DecorNewline(s, t);
    }
    assert LastNewlineEnd(s, t, e) == Some(e);
  }

  /** The first `)` from `c` on at which the line can end is the one after the note. */
  lemma {:induction false} CloseParenAfter(s: string, c: nat, z: nat, e: nat)
    requires c <= z < |s| && s[z] == ')' && LineEnd(s, z + 1, true) == Some(e)
    requires forall j :: c <= j < z ==> s[j] != ')'
    ensures CloseParen(s, c) == Some(e)
    decreases z - c
  {
    if c < z {
      CloseParenAfter(s, c + 1, z, e);
    }
  }

  /** A header line starts with its `**` or, without them, with its digit. */
  lemma HeaderLineStart(k: nat, h: HeaderStyle)
    requires 1 <= k <= 4
    ensures HeaderLine(k, h)[0] == (if h.bold then '*' else Digit(k))
  {
    assert HeaderLine(k, h) == Stars(h.bold) + ([Digit(k), '.', ' '] + h.title + NoteText(h.note) + LineTail(h));
  }

  /** The optional `**` and the whitespace after it lead up to the label. */
  lemma {:induction false} LeadReachesLabel(s: string, x: nat, d: nat, bold: bool)
    requires d == x + |Stars(bold)| && d < |s| && s[x..d] == Stars(bold)
    requires !IsSpace(s[d]) && s[d] != '*'
    ensures LeadEnd(s, x) == d
  {
    assert SkipSpace(s, d) == d;
    if bold {
      assert s[x] == '*' && s[x + 1] == '*';
    }
  }

  /** A parenthetical note without `)` inside, closed on a line that can end, is skipped whole. */
  lemma {:induction false} NoteCloses(s: string, t: nat, n: string, t0: nat, e: nat)
    requires t0 == t + 3 + |n| && t0 <= |s| && s[t..t0] == " (" + n + ")"
    requires forall i :: 0 <= i < |n| ==> n[i] != ')'
    requires LineEnd(s, t0, true) == Some(e)
    ensures NoteLineEnd(s, t) == Some(e)
  {
    var w := " (" + n + ")";
    assert s[t] == w[0] && s[t + 1] == w[1];
    assert SkipSpace(s, t) == t + 1;
    var z := t + 2 + |n|;
    assert s[z] == w[2 + |n|];
    forall j | t + 2 <= j < z ensures s[j] != ')' {
      assert s[j] == w[j - t] == n[j - t - 2];
    }
    CloseParenAfter(s, t + 2, z, e);
  }

  /** Without a note, the fourth header's line ends where the line tail says. */
  lemma {:induction false} PlainFourthEnds(s: string, t: nat, h: HeaderStyle)
    requires h.note.None? && t + |LineTail(h)| < |s|
    requires s[t..t + |LineTail(h)|] == LineTail(h)
    requires StartsSection(s[t + |LineTail(h)|])
    ensures NoteLineEnd(s, t) == Some(t + |LineTail(h)|)
  {
    var T := LineTail(h);
    TailEndsLine(s, t, h);
    assert T[0] == s[t];
    if h.colon || h.bold {
      assert SkipSpace(s, t) == t;
    } else {
      assert T == "\n";
      assert SkipSpace(s, t) == t + 1;
    }
  }

  /** With a note, the fourth header's line ends where the line tail after the note says. */
  lemma {:induction false} NotedFourthEnds(s: string, t: nat, t0: nat, e: nat, h: HeaderStyle)
    requires WellStyled(4, h) && h.note.Some?
    requires t0 == t + |NoteText(h.note)| && e == t0 + |LineTail(h)| && e < |s|
    requires s[t..t0] == NoteText(h.note) && s[t0..e] == LineTail(h)
    requires StartsSection(s[e])
    ensures NoteLineEnd(s, t) == Some(e)
  {
    TailEndsLine(s, t0, h);
    NoteCloses(s, t, h.note.value, t0, e);
  }

  /** After the title of headers 1 to 3, the line tail ends the header line. */
  lemma {:induction false} AfterTitle(s: string, t: nat, e: nat, k: nat, h: HeaderStyle)
    requires 1 <= k < 4 && WellStyled(k, h)
    requires t + |NoteText(h.note)| + |LineTail(h)| == e < |s|
    requires s[t..e] == NoteText(h.note) + LineTail(h)
    requires StartsSection(s[e])
    ensures LineEnd(s, t, true) == Some(e)
  {
    assert NoteText(h.note) + LineTail(h) == LineTail(h);
    TailEndsLine(s, t, h);
  }

  /** After the fourth title, the optional note and the line tail end the header line. */
  lemma {:induction false} AfterFourthTitle(s: string, t: nat, e: nat, h: HeaderStyle)
    requires WellStyled(4, h)
    requires t + |NoteText(h.note)| + |LineTail(h)| == e < |s|
    requires s[t..e] == NoteText(h.note) + LineTail(h)
    requires StartsSection(s[e])
    ensures NoteLineEnd(s, t) == Some(e)
  {
    SplitFound(s, t, NoteText(h.note), LineTail(h));
    if h.note.None? {
      PlainFourthEnds(s, t, h);
    } else {
      NotedFourthEnds(s, t, t + |NoteText(h.note)|, e, h);
    }
  }

  /** The label of a well-styled header line is recognised, and the note and line tail follow it. */
  lemma LabelFound(s: string, d: nat, e: nat, k: nat, h: HeaderStyle) returns (t: nat)
    requires 1 <= k <= 4 && WellStyled(k, h)
    requires d + |Label(k, h)| + |LineTail(h)| == e <= |s|
    requires s[d..e] == Label(k, h) + LineTail(h)
    ensures s[d] == Digit(k) && LabelEnd(s, d, k) == Some(t)
    ensures t + |NoteText(h.note)| + |LineTail(h)| == e && s[t..e] == NoteText(h.note) + LineTail(h)
  {
    var P := [Digit(k), '.', ' '];
    var W := P + h.title;
    t := d + |W|;
    Assoc(W, NoteText(h.note), LineTail(h));
    SplitFound(s, d, W, NoteText(h.note) + LineTail(h));
    SplitFound(s, d, P, h.title);
    assert s[d] == P[0] && s[d + 1] == P[1] && s[d + 2] == P[2];
    LabelInLine(s, d, k, h);
  }

  /** After the title, the rest of a well-styled header line ends it at its own newline. */
  lemma LineAfterLabel(s: string, t: nat, e: nat, k: nat, h: HeaderStyle)
    requires 1 <= k <= 4 && WellStyled(k, h)
    requires t + |NoteText(h.note)| + |LineTail(h)| == e < |s|
    requires s[t..e] == NoteText(h.note) + LineTail(h)
    requires StartsSection(s[e])
    ensures (if k == 4 then NoteLineEnd(s, t) else LineEnd(s, t, true)) == Some(e)
  {
    if k == 4 {
      AfterFourthTitle(s, t, e, h);
    } else {
      AfterTitle(s, t, e, k, h);
    }
  }

  /** From the label on, a well-styled header line is recognised and ends at its own newline. */
  lemma {:induction false} LabelLineMatches(s: string, d: nat, e: nat, k: nat, h: HeaderStyle)
    requires 1 <= k <= 4 && WellStyled(k, h)
    requires d + |Label(k, h)| + |LineTail(h)| == e < |s|
    requires s[d..e] == Label(k, h) + LineTail(h)
    requires StartsSection(s[e])
    ensures s[d] == Digit(k) && !IsSpace(s[d]) && s[d] != '*'
    ensures LabelLineEnd(s, d, k) == Some(e)
  {
    DigitIsPlain(k);
    var t := LabelFound(s, d, e, k, h);
    LineAfterLabel(s, t, e, k, h);
  }

  /**
   * A well-styled header line, followed by a character that cannot extend it,
   * is recognised by the combined pattern from its first character, and the
   * line ends at its own newline.
   */
  lemma {:induction false} HeaderLineMatches(s: string, x: nat, k: nat, h: HeaderStyle)
    requires 1 <= k <= 4 && WellStyled(k, h)
    requires x + |HeaderLine(k, h)| < |s| && s[x..x + |HeaderLine(k, h)|] == HeaderLine(k, h)
    requires StartsSection(s[x + |HeaderLine(k, h)|])
    ensures HeaderEnd(s, x, k) == Some(x + |HeaderLine(k, h)|)
  {
    var d, e := HeaderLineSplit(s, x, k, h);
    LabelLineMatches(s, d, e, k, h);
    LeadReachesLabel(s, x, d, h.bold);
    HeaderEndFromLead(s, x, k);
  }

  /** A header line is its optional `**` followed by its label and the rest of its line. */
  lemma HeaderLineSplit(s: string, x: nat, k: nat, h: HeaderStyle) returns (d: nat, e: nat)
    requires 1 <= k <= 4
    requires x + |HeaderLine(k, h)| <= |s| && s[x..x + |HeaderLine(k, h)|] == HeaderLine(k, h)
    ensures d == x + |Stars(h.bold)| && e == x + |HeaderLine(k, h)|
    ensures s[x..d] == Stars(h.bold) && d + |Label(k, h)| + |LineTail(h)| == e
    ensures s[d..e] == Label(k, h) + LineTail(h)
  {
    d, e := x + |Stars(h.bold)|, x + |HeaderLine(k, h)|;
    Assoc(Stars(h.bold), Label(k, h), LineTail(h));
    SplitFound(s, x, Stars(h.bold), Label(k, h) + LineTail(h));
  }

  /** Header `k` at `p` is the header line whose label starts where the lead from `p` ends. */
  lemma HeaderEndFromLead(s: string, p: nat, k: nat)
    requires p <= |s| && 1 <= k <= 4
    ensures HeaderEnd(s, p, k) == LabelLineEnd(s, LeadEnd(s, p), k)
  {
  }

  // ------------------------------------------------------------ the captures

  /** A header match at `m` whose continuation succeeds ends the capture there. */
  lemma {:induction false} CaptureEndsHere(s: string, c: nat, m: nat, k: nat, e: nat, rest: seq<string>)
    requires c <= m <= |s| && 1 <= k <= 4
    requires HeaderEnd(s, m, k) == Some(e) && Rest(s, e, k + 1) == Some(rest)
    ensures FindHeader(s, c, m, k) == Some([s[c..m]] + rest)
  {
    assert HeaderHere(s, c, m, k) == Some([s[c..m]] + rest);
  }

  /** Where header `k` does not match, the capture runs on. */
  lemma {:induction false} CaptureRunsOn(s: string, c: nat, p: nat, q: nat, k: nat)
    requires c <= p < |s| && q == p + 1 && 1 <= k <= 4
    requires HeaderEnd(s, p, k).None?
    ensures FindHeader(s, c, p, k) == FindHeader(s, c, q, k)
  {
    assert HeaderHere(s, c, p, k).None?;
  }

  /** Positions where header `k` does not match do not change where the lazy capture ends. */
  lemma {:induction false} SkipNonHeaders(s: string, c: nat, p: nat, m: nat, k: nat)
    requires c <= p <= m <= |s| && 1 <= k <= 4
    requires forall j :: p <= j < m ==> HeaderEnd(s, j, k).None?
    ensures FindHeader(s, c, p, k) == FindHeader(s, c, m, k)
    decreases m - p
  {
    if p < m {
      CaptureRunsOn(s, c, p, p + 1, k);
      SkipNonHeaders(s, c, p + 1, m, k);
    }
  }

  /** When every match of header `k` ends its line at `e`, the search finds one and continues from `e`. */
  lemma FindAnyHeader(s: string, c: nat, p: nat, m: nat, k: nat, e: nat, rest: seq<string>)
    returns (j: nat)
    requires c <= p <= m <= |s| && 1 <= k <= 4
    requires HeaderEnd(s, m, k) == Some(e) && Rest(s, e, k + 1) == Some(rest)
    requires forall j :: p <= j < m && HeaderEnd(s, j, k).Some? ==> HeaderEnd(s, j, k) == Some(e)
    ensures p <= j <= m && FindHeader(s, c, p, k) == Some([s[c..j]] + rest)
  {
    var f := (i: nat) => if i <= |s| then HeaderEnd(s, i, k) else None;
    forall i | p <= i < m && f(i).Some? ensures f(i) == Some(e) {
      assert f(i) == HeaderEnd(s, i, k);
    }
    assert f(m) == HeaderEnd(s, m, k);
    j := FirstFrom(f, p, m, e);
    forall i | p <= i < j ensures HeaderEnd(s, i, k).None? {
      assert f(i) == HeaderEnd(s, i, k);
    }
    SkipNonHeaders(s, c, p, j, k);
    CaptureEndsHere(s, c, j, k, e, rest);
  }

  /** The first position from `p` on where `f` has a value, when every value up to `m` is `e`. */
  lemma {:induction false} FirstFrom(f: nat -> Option<nat>, p: nat, m: nat, e: nat) returns (j: nat)
    requires p <= m && f(m) == Some(e)
    requires forall j :: p <= j < m && f(j).Some? ==> f(j) == Some(e)
    ensures p <= j <= m && f(j) == Some(e)
    ensures forall i :: p <= i < j ==> f(i).None?
    decreases m - p
  {
    if p == m || f(p).Some? {
      j := p;
    } else {
      j := FirstFrom(f, p + 1, m, e);
    }
  }

  /** Dropping the first capture leaves the captures after it. */
  lemma DropFront(a: string, rest: seq<string>)
    ensures ([a] + rest)[1..] == rest
  {
  }

  /** The front of a text made of a header line, a non-empty section and a tail. */
  lemma FrontOf(s: string, x: nat, H: string, b: string, tail: string)
    requires |b| > 0 && x + |H| + |b| + |tail| == |s| && s[x..] == H + b + tail
    ensures x + |H| < |s| && s[x..x + |H|] == H && s[x + |H|] == b[0]
  {
    assert s[x..][..|H|] == H;
    assert s[x..][|H|] == b[0];
  }

  /** The middle of a text made of a header line, a section, a newline and the rest. */
  lemma MiddleOf(s: string, x: nat, H: string, b: string, L: string)
    requires x + |H| + |b| + 1 + |L| == |s| && s[x..] == H + b + ("\n" + L)
    ensures var e := x + |H|;
            && s[e..e + |b|] == b && s[e + |b|] == '\n'
            && s[e + |b| + 1..] == L
  {
    var w := H + b + ("\n" + L);
    assert s[x..][|H|..|H| + |b|] == b;
    assert s[x..][|H| + |b|] == '\n';
    assert s[x..][|H| + |b| + 1..] == L;
  }

  /** The end of a clean section cannot be part of the lead of a header. */
  lemma {:induction false} LeadStopsAtSection(s: string, j: nat, q: nat)
    requires j <= q < |s| && !IsSpace(s[q]) && s[q] != '*'
    ensures LeadEnd(s, j) <= q
  {
    assert LeadEnd(s, j) > q ==> LeadCharAt(s, q);
  }

  /** The lead of a header may start on the newline before it. */
  lemma {:induction false} NewlineLead(s: string, x: nat)
    requires 1 <= x < |s| && s[x - 1] == '\n'
    ensures s[x] != '*' ==> LeadEnd(s, x - 1) == LeadEnd(s, x)
    ensures s[x] == '*' ==> LeadEnd(s, x - 1) == x
  {
    assert IsSpace(s[x - 1]);
    assert SkipSpace(s, x - 1) == SkipSpace(s, x);
  }

  /** Header `k` cannot match where its lead does not reach the one place its label occurs. */
  lemma NoHeaderFrom(s: string, j: nat, d: nat, k: nat)
    requires 1 <= k <= 4 && j <= |s| && d <= |s| && LabelsOnce(s) && LabelAt(s, d, k)
    requires LeadEnd(s, j) != d
    ensures HeaderEnd(s, j, k).None?
  {
    assert !LabelAt(s, LeadEnd(s, j), k);
  }

  /**
   * The header starting at `x` is already matched from the newline before it
   * when it is not bold: there the lead absorbs the newline.
   */
  lemma {:induction false} HeaderFromNewline(s: string, r: nat, x: nat, k: nat, bold: bool) returns (m: nat)
    requires 1 <= k <= 4 && x == r + 1 && x < |s| && s[r] == '\n'
    requires s[x] == (if bold then '*' else Digit(k))
    ensures m == (if bold then x else r)
    ensures LeadEnd(s, m) == LeadEnd(s, x)
    ensures bold ==> LeadEnd(s, r) == x
  {
    DigitIsPlain(k);
    NewlineLead(s, x);
    m := if bold then x else r;
  }

  /** Up to a character no lead can cross, header `k` cannot match when its label lies beyond it. */
  lemma NoHeaderUpTo(s: string, c: nat, q: nat, r: nat, d: nat, k: nat)
    requires 1 <= k <= 4 && c <= q < d <= |s| && r == q + 1 && !IsSpace(s[q]) && s[q] != '*'
    requires LabelsOnce(s) && LabelAt(s, d, k)
    ensures FindHeader(s, c, c, k) == FindHeader(s, c, r, k)
  {
    forall j | c <= j < r ensures HeaderEnd(s, j, k).None? {
      LeadStopsAtSection(s, j, q);
      NoHeaderFrom(s, j, d, k);
    }
    SkipNonHeaders(s, c, c, r, k);
  }

  /**
   * Between the end of one header line and the next header, header `k` does
   * not match: its label occurs only once, and a lead reaching it would have to
   * cross the last character of the section in between.
   */
  lemma {:induction false} NoHeaderInSection(s: string, c: nat, q: nat, r: nat, x: nat, d: nat, k: nat, bold: bool) returns (m: nat)
    requires 1 <= k <= 4 && c <= q && r == q + 1 && x == r + 1 && x < |s| && x <= d <= |s|
    requires !IsSpace(s[q]) && s[q] != '*' && s[r] == '\n'
    requires s[x] == (if bold then '*' else Digit(k))
    requires LeadEnd(s, x) == d && LabelAt(s, d, k)
    requires LabelsOnce(s)
    ensures c <= m <= x && m == (if bold then x else r)
    ensures LeadEnd(s, m) == d
    ensures FindHeader(s, c, c, k) == FindHeader(s, c, m, k)
  {
    m := HeaderFromNewline(s, r, x, k, bold);
    if bold {
      BoldAfterSection(s, c, q, r, m, d, k);
    } else {
      NoHeaderUpTo(s, c, q, m, d, k);
    }
  }

  /** `NoHeaderInSection` for a bold header: the newline before it does not start a match. */
  lemma BoldAfterSection(s: string, c: nat, q: nat, r: nat, x: nat, d: nat, k: nat)
    requires 1 <= k <= 4 && c <= q && r == q + 1 && x == r + 1 && x < |s| && x <= d <= |s|
    requires !IsSpace(s[q]) && s[q] != '*' && s[r] == '\n' && s[x] == '*'
    requires LeadEnd(s, r) == x && LabelAt(s, d, k)
    requires LabelsOnce(s)
    ensures FindHeader(s, c, c, k) == FindHeader(s, c, x, k)
  {
    NoHeaderUpTo(s, c, q, r, d, k);
    LabelNotStar(s, d, k);
    NoHeaderFrom(s, r, d, k);
    CaptureRunsOn(s, c, r, x, k);
  }

  /** A label starts with its digit, never with `*`. */
  lemma LabelNotStar(s: string, d: nat, k: nat)
    requires d <= |s| && 1 <= k <= 4 && LabelAt(s, d, k)
    ensures d < |s| && s[d] != '*'
  {
  }

  /** A header line found at `x`, in the terms the search for it uses. */
  lemma HeaderLineFound(s: string, x: nat, k: nat, h: HeaderStyle, H: string)
    requires 1 <= k <= 4 && WellStyled(k, h) && H == HeaderLine(k, h)
    requires x + |H| < |s| && s[x..x + |H|] == H && StartsSection(s[x + |H|])
    ensures HeaderLineAt(s, x, k, h.bold, x + |H|)
  {
    HeaderLineStart(k, h);
    At(s, x, H, 0);
    HeaderLineMatches(s, x, k, h);
  }

  /** Header `n` of the combined pattern begins at `x`, with `**` when `bold`, and its line ends at `f`. */
  predicate HeaderLineAt(s: string, x: nat, n: nat, bold: bool, f: nat) {
    && 1 <= n <= 4 && x < |s|
    && s[x] == (if bold then '*' else Digit(n))
    && HeaderEnd(s, x, n) == Some(f)
  }

  /** A match of header `n` has its label where its lead ends. */
  lemma HeaderHasLabel(s: string, x: nat, n: nat)
    requires x <= |s| && 1 <= n <= 4 && HeaderEnd(s, x, n).Some?
    ensures LabelAt(s, LeadEnd(s, x), n)
  {
    HeaderEndFromLead(s, x, n);
  }

  /** The end of a clean section followed by a newline: a character no lead of a header can cross. */
  lemma SectionEnd(s: string, e: nat, b: string, q: nat, t: nat)
    requires Clean(b) && t == e + |b| && q + 1 == t && t <= |s| && s[e..t] == b
    ensures e <= q && !IsSpace(s[q]) && s[q] != '*'
  {
    At(s, e, b, |b| - 1);
  }

  /**
   * A clean section, a newline and the next header: the lazy capture for the
   * section can only stop at the next header, and it strips to the section
   * text.
   */
  lemma {:induction false} SectionThenHeader(s: string, e: nat, b: string, q: nat, t: nat, x: nat, k: nat, bold: bool, f: nat)
    returns (m: nat)
    requires 2 <= k <= 4 && Clean(b) && t == e + |b| && q + 1 == t && x == t + 1 && x < |s|
    requires s[e..t] == b && s[t] == '\n'
    requires HeaderLineAt(s, x, k, bold, f)
    requires LabelsOnce(s)
    ensures e <= m <= |s| && Strip(s[e..m]) == b
    ensures HeaderEnd(s, m, k) == Some(f)
    ensures FindHeader(s, e, e, k) == FindHeader(s, e, m, k)
  {
    SectionEnd(s, e, b, q, t);
    HeaderHasLabel(s, x, k);
    var d := LeadEnd(s, x);
    m := NoHeaderInSection(s, e, q, t, x, d, k, bold);
    HeaderEndFromLead(s, m, k);
    HeaderEndFromLead(s, x, k);
    CaptureStrips(s, e, b, t, m);
  }

  /** The capture of a section runs to its newline, or past it when the next header is bold; either strips to the section. */
  lemma CaptureStrips(s: string, e: nat, b: string, t: nat, m: nat)
    requires |b| > 0 && IsTrimmed(b) && t == e + |b| && t < |s| && s[e..t] == b && s[t] == '\n'
    requires m == t || m == t + 1
    ensures Strip(s[e..m]) == b
  {
    var c := s[e..m];
    if m == t {
      assert c == b;
      StripTrimmed(b);
    } else {
      assert c == b + "\n";
      assert AllSpace("\n");
      StripTrailingSpace(b, "\n");
    }
  }

  /** The strings captured from a layout, from section `i` on, strip to those sections. */
  predicate StripsFrom(caps: seq<string>, bs: seq<string>, i: nat)
    requires i <= |bs|
  {
    |caps| == |bs| - i && forall j :: 0 <= j < |caps| ==> Strip(caps[j]) == bs[i + j]
  }

  /** Joined lines start with their first header line, directly followed by the first character of its section. */
  lemma {:induction false} JoinedStart(s: string, x: nat, Hs: seq<string>, bs: seq<string>, i: nat)
    requires |Hs| == |bs| && i < |bs| && |bs[i]| > 0
    requires x + |Joined(Hs, bs, i)| == |s| && s[x..] == Joined(Hs, bs, i)
    ensures x + |Hs[i]| < |s| && s[x..x + |Hs[i]|] == Hs[i] && s[x + |Hs[i]|] == bs[i][0]
  {
    var tail := if i == |bs| - 1 then "" else "\n" + Joined(Hs, bs, i + 1);
    FrontOf(s, x, Hs[i], bs[i], tail);
  }

  /** Past a header line and its section, joined lines continue after a newline with the next ones. */
  lemma {:induction false} JoinedNext(s: string, x: nat, Hs: seq<string>, bs: seq<string>, i: nat)
    requires |Hs| == |bs| && i + 1 < |bs|
    requires x + |Joined(Hs, bs, i)| == |s| && s[x..] == Joined(Hs, bs, i)
    ensures var e := x + |Hs[i]|;
            && e + |bs[i]| < |s|
            && s[e..e + |bs[i]|] == bs[i]
            && s[e + |bs[i]|] == '\n'
            && e + |bs[i]| + 1 + |Joined(Hs, bs, i + 1)| == |s|
            && s[e + |bs[i]| + 1..] == Joined(Hs, bs, i + 1)
  {
    MiddleOf(s, x, Hs[i], bs[i], Joined(Hs, bs, i + 1));
  }

  /** The last section runs to the end of the reply. */
  lemma {:induction false} JoinedLast(s: string, x: nat, Hs: seq<string>, bs: seq<string>, i: nat)
    requires |Hs| == |bs| && i == |bs| - 1
    requires x + |Joined(Hs, bs, i)| == |s| && s[x..] == Joined(Hs, bs, i)
    ensures x + |Hs[i]| <= |s| && s[x + |Hs[i]|..] == bs[i]
  {
    assert Joined(Hs, bs, i) == Hs[i] + bs[i];
    assert s[x..][|Hs[i]|..] == bs[i];
  }

  /**
   * Where each piece of joined lines lies in `s`, from the start of section
   * `i` (just after its header line) to the end: the section, a newline and
   * the next header line, and so on; the last section runs to the end of `s`.
   */
  predicate LaidOut(s: string, e: nat, Hs: seq<string>, bs: seq<string>, i: nat)
    requires |Hs| == |bs| && i < |bs|
    decreases |bs| - i
  {
    if i == |bs| - 1 then e <= |s| && s[e..] == bs[i]
    else
      var b := bs[i];
      var x := e + |b| + 1;
      var H := Hs[i + 1];
      && x + |H| < |s|
      && s[e..e + |b|] == b && s[e + |b|] == '\n'
      && s[x..x + |H|] == H && StartsSection(s[x + |H|])
      && LaidOut(s, x + |H|, Hs, bs, i + 1)
  }

  /** Joined lines in `s` lie out their pieces one after the other. */
  lemma {:induction false} JoinedLaidOut(s: string, x: nat, Hs: seq<string>, bs: seq<string>, i: nat)
    requires |Hs| == |bs| && i < |bs| && AllClean(bs)
    requires x + |Joined(Hs, bs, i)| == |s| && s[x..] == Joined(Hs, bs, i)
    ensures x + |Hs[i]| <= |s| && LaidOut(s, x + |Hs[i]|, Hs, bs, i)
    decreases |bs| - i
  {
    if i == |bs| - 1 {
      JoinedLast(s, x, Hs, bs, i);
    } else {
      JoinedNext(s, x, Hs, bs, i);
      var x' := x + |Hs[i]| + |bs[i]| + 1;
      JoinedStart(s, x', Hs, bs, i + 1);
      JoinedLaidOut(s, x', Hs, bs, i + 1);
    }
  }

  /** The layout after section `i` and the header line that follows it. */
  lemma LaidOutTail(s: string, e: nat, Hs: seq<string>, bs: seq<string>, i: nat) returns (x: nat, f: nat)
    requires |Hs| == |bs| && i + 1 < |bs| && LaidOut(s, e, Hs, bs, i)
    ensures x == e + |bs[i]| + 1 && f == x + |Hs[i + 1]| && f < |s|
    ensures s[e..e + |bs[i]|] == bs[i] && s[e + |bs[i]|] == '\n'
    ensures s[x..f] == Hs[i + 1] && StartsSection(s[f])
    ensures LaidOut(s, f, Hs, bs, i + 1)
  {
    x := e + |bs[i]| + 1;
    f := x + |Hs[i + 1]|;
  }

  /** A first capture that strips to section `i`, then captures that strip to the sections after it. */
  lemma StripsToFront(c: string, rest: seq<string>, bs: seq<string>, i: nat)
    requires i < |bs| && Strip(c) == bs[i] && StripsFrom(rest, bs, i + 1)
    ensures StripsFrom([c] + rest, bs, i)
  {
    forall j | 0 <= j < |bs| - i ensures Strip(([c] + rest)[j]) == bs[i + j] {
      if j > 0 {
        assert ([c] + rest)[j] == rest[j - 1];
      }
    }
  }

  /** A capture that strips to section `i`, ended by header `k`, followed by the captures of the rest. */
  lemma {:induction false} RestStep(s: string, e: nat, m: nat, k: nat, f: nat, rest: seq<string>, bs: seq<string>, i: nat)
    requires e <= m <= |s| && 2 <= k <= 4 && f <= |s| && i < |bs| && Strip(s[e..m]) == bs[i]
    requires HeaderEnd(s, m, k) == Some(f) && Rest(s, f, k + 1) == Some(rest) && StripsFrom(rest, bs, i + 1)
    requires FindHeader(s, e, e, k) == FindHeader(s, e, m, k)
    ensures Rest(s, e, k).Some? && StripsFrom(Rest(s, e, k).value, bs, i)
  {
    StripsToFront(s[e..m], rest, bs, i);
    CaptureEndsHere(s, e, m, k, f, rest);
  }

  /** The header lines written in well-styled styles fit them. */
  lemma HeaderLinesFit(hs: seq<HeaderStyle>)
    requires |hs| == 4 && StylesFit(hs)
    ensures LinesFit(hs, HeaderLines(hs))
  {
    var Hs := HeaderLines(hs);
    forall i | 0 <= i < 4 ensures WellStyled(i + 1, hs[i]) && LineOf(Hs, i) == HeaderLine(i + 1, hs[i]) {
      assert i == 0 || i == 1 || i == 2 || i == 3;
    }
  }

  /** One of fitting lines is the header line of its style. */
  lemma LineFits(hs: seq<HeaderStyle>, Hs: seq<string>, j: nat)
    requires |hs| == 4 && j < 4 && LinesFit(hs, Hs)
    ensures WellStyled(j + 1, hs[j]) && Hs[j] == HeaderLine(j + 1, hs[j])
  {
    assert LineOf(Hs, j) == Hs[j];
  }

  /** Line `j` of fitting lines found at `x`, in the terms the search for header `n` uses. */
  lemma LineFoundAt(s: string, x: nat, hs: seq<HeaderStyle>, Hs: seq<string>, j: nat, n: nat, f: nat)
    returns (bold: bool)
    requires |hs| == 4 && j < 4 && n == j + 1 && LinesFit(hs, Hs)
    requires f == x + |Hs[j]| < |s| && s[x..f] == Hs[j] && StartsSection(s[f])
    ensures bold == hs[j].bold
    ensures HeaderLineAt(s, x, n, bold, f)
  {
    bold := hs[j].bold;
    LineFits(hs, Hs, j);
    HeaderLineFound(s, x, n, hs[j], Hs[j]);
  }

  /**
   * A clean section `i` followed by header `n`, whose line ends at `f`, where
   * the captures from `f` on strip to the later sections: the captures from
   * `e` on strip to this section and the later ones.
   */
  lemma {:induction false} SectionCaptured(s: string, e: nat, b: string, q: nat, t: nat, x: nat, n: nat, bold: bool, f: nat, rest: seq<string>, bs: seq<string>, i: nat)
    requires 2 <= n <= 4 && i < |bs| && b == bs[i] && Clean(b) && t == e + |b| && q + 1 == t && x == t + 1 && x < |s|
    requires s[e..t] == b && s[t] == '\n'
    requires HeaderLineAt(s, x, n, bold, f)
    requires LabelsOnce(s)
    requires Rest(s, f, n + 1) == Some(rest) && StripsFrom(rest, bs, i + 1)
    ensures Rest(s, e, n).Some? && StripsFrom(Rest(s, e, n).value, bs, i)
  {
    var m := SectionThenHeader(s, e, b, q, t, x, n, bold, f);
    RestStep(s, e, m, n, f, rest, bs, i);
  }

  /**
   * One step of the combined pattern over a layout: header `n` is found on
   * the line after section `i`, and captures from the end of that line that
   * strip to the later sections extend to captures from `e` that strip to
   * section `i` and the later ones.
   */
  lemma {:induction false} HeaderStep(s: string, e: nat, q: nat, t: nat, x: nat, f: nat, i: nat, n: nat, hs: seq<HeaderStyle>, Hs: seq<string>, bs: seq<string>, rest: seq<string>)
    requires i < 3 && n == i + 2 && |hs| == |bs| == 4 && LinesFit(hs, Hs) && Clean(bs[i]) && LabelsOnce(s)
    requires t == e + |bs[i]| && q + 1 == t && x == t + 1 && f == x + |Hs[i + 1]| && f < |s|
    requires s[e..t] == bs[i] && s[t] == '\n'
    requires s[x..f] == Hs[i + 1] && StartsSection(s[f])
    requires Rest(s, f, n + 1) == Some(rest) && StripsFrom(rest, bs, i + 1)
    ensures Rest(s, e, n).Some? && StripsFrom(Rest(s, e, n).value, bs, i)
  {
    var bold := LineFoundAt(s, x, hs, Hs, i + 1, n, f);
    SectionCaptured(s, e, bs[i], q, t, x, n, bold, f, rest, bs, i);
  }

  /** The strategy section runs to the end of the reply. */
  lemma LastSection(s: string, e: nat, Hs: seq<string>, bs: seq<string>)
    requires |Hs| == |bs| == 4 && AllClean(bs) && e <= |s| && LaidOut(s, e, Hs, bs, 3)
    ensures Rest(s, e, 5).Some? && StripsFrom(Rest(s, e, 5).value, bs, 3)
  {
    assert Clean(bs[3]);
    StripTrimmed(bs[3]);
  }

  /**
   * The combined pattern from section `i` on, header `n` next: the captures
   * strip to section `i` and the later ones.
   */
  lemma {:induction false} SectionsAfter(s: string, e: nat, i: nat, n: nat, hs: seq<HeaderStyle>, Hs: seq<string>, bs: seq<string>)
    requires i <= 3 && n == i + 2 && |hs| == |bs| == 4 && LinesFit(hs, Hs) && AllClean(bs)
    requires e <= |s| && LaidOut(s, e, Hs, bs, i) && LabelsOnce(s)
    ensures Rest(s, e, n).Some? && StripsFrom(Rest(s, e, n).value, bs, i)
    decreases 3 - i
  {
    if i == 3 {
      LastSection(s, e, Hs, bs);
    } else {
      var x, f := LaidOutTail(s, e, Hs, bs, i);
      SectionsAfter(s, f, i + 1, n + 1, hs, Hs, bs);
      HeaderStep(s, e, e + |bs[i]| - 1, e + |bs[i]|, x, f, i, n, hs, Hs, bs, Rest(s, f, n + 1).value);
    }
  }

  /** A reply that is a preamble followed by a layout: the layout is its suffix. */
  lemma AfterPreamble(pre: string, w: string)
    ensures (pre + w)[|pre|..] == w
  {
  }

  /** Every match of header `k` whose label is the one at `d` ends where the match at `x` ends. */
  lemma SameLabelSameHeader(s: string, j: nat, x: nat, d: nat, k: nat)
    requires 1 <= k <= 4 && j <= |s| && x <= |s| && d <= |s| && LabelsOnce(s)
    requires LeadEnd(s, x) == d && LabelAt(s, d, k) && HeaderEnd(s, j, k).Some?
    ensures HeaderEnd(s, j, k) == HeaderEnd(s, x, k)
  {
    assert LabelAt(s, LeadEnd(s, j), k);
  }

  /** A reply whose suffix from `x` is a layout, in the terms the proofs below use. */
  lemma {:induction false} JoinedFacts(s: string, x: nat, e: nat, Hs: seq<string>, bs: seq<string>)
    requires |Hs| == |bs| == 4 && AllClean(bs) && e == x + |Hs[0]|
    requires x + |Joined(Hs, bs, 0)| == |s| && s[x..] == Joined(Hs, bs, 0)
    ensures e < |s| && s[x..e] == Hs[0] && StartsSection(s[e])
    ensures LaidOut(s, e, Hs, bs, 0)
  {
    assert Clean(bs[0]);
    JoinedStart(s, x, Hs, bs, 0);
    JoinedLaidOut(s, x, Hs, bs, 0);
  }

  /** The first header line of a layout, in the terms the search for header 1 uses. */
  lemma {:induction false} FirstHeader(s: string, x: nat, e: nat, hs: seq<HeaderStyle>, Hs: seq<string>) returns (d: nat)
    requires |hs| == 4 && LinesFit(hs, Hs)
    requires e == x + |Hs[0]| && e < |s| && s[x..e] == Hs[0] && StartsSection(s[e])
    ensures d <= |s|
    ensures LeadEnd(s, x) == d && LabelAt(s, d, 1) && HeaderEnd(s, x, 1) == Some(e)
  {
    var bold := LineFoundAt(s, x, hs, Hs, 0, 1, e);
    d := LeadEnd(s, x);
    HeaderHasLabel(s, x, 1);
  }

  /** Header 1 found at `x`, its label the only one in the reply: the search settles on it. */
  lemma {:induction false} PrimaryFinds(s: string, x: nat, d: nat, e: nat, rest: seq<string>)
    requires x <= |s| && d <= |s| && LabelsOnce(s)
    requires LeadEnd(s, x) == d && LabelAt(s, d, 1) && HeaderEnd(s, x, 1) == Some(e)
    requires Rest(s, e, 2) == Some(rest)
    ensures Primary(s) == Some(rest)
  {
    forall j | 0 <= j < x && HeaderEnd(s, j, 1).Some? ensures HeaderEnd(s, j, 1) == Some(e) {
      SameLabelSameHeader(s, j, x, d, 1);
    }
    var j := FindAnyHeader(s, 0, 0, x, 1, e, rest);
    DropFront(s[0..j], rest);
  }

  /** Captures of the combined pattern that strip to the sections are what the parser returns. */
  lemma PrimaryToSections(s: string, rest: seq<string>, bs: seq<string>)
    requires |bs| == 4 && Primary(s) == Some(rest) && StripsFrom(rest, bs, 0)
    ensures ParseAiOutput(s) == Sections(bs[0], bs[1], bs[2], bs[3])
  {
  }

  /** `PrimaryReadsLayout` for a reply whose suffix from `x` joins the lines `Hs` and the sections. */
  lemma {:induction false} PrimaryReadsJoined(s: string, x: nat, hs: seq<HeaderStyle>, Hs: seq<string>, bs: seq<string>)
    requires |hs| == |bs| == 4 && LinesFit(hs, Hs) && AllClean(bs) && LabelsOnce(s)
    requires x + |Joined(Hs, bs, 0)| == |s| && s[x..] == Joined(Hs, bs, 0)
    ensures ParseAiOutput(s) == Sections(bs[0], bs[1], bs[2], bs[3])
  {
    var e := x + |Hs[0]|;
    JoinedFacts(s, x, e, Hs, bs);
    var d := FirstHeader(s, x, e, hs, Hs);
    SectionsAfter(s, e, 0, 2, hs, Hs, bs);
    var rest := Rest(s, e, 2).value;
    PrimaryFinds(s, x, d, e, rest);
    PrimaryToSections(s, rest, bs);
  }

  /**
   * The combined pattern on a well-formed reply: text before the first header
   * is ignored, each field is exactly the section text between its header
   * line and the next header, and the strategy runs to the end of the reply.
   * Headers may be wrapped in `**`, written in any letter case, carry a colon,
   * and the fourth may carry a parenthetical note.
   */
  lemma {:induction false} PrimaryReadsLayout(pre: string, hs: seq<HeaderStyle>, bs: seq<string>)
    requires |hs| == |bs| == 4 && WellFormed(hs, bs)
    requires LabelsOnce(pre + Layout(hs, bs))
    ensures ParseAiOutput(pre + Layout(hs, bs)) == Sections(bs[0], bs[1], bs[2], bs[3])
  {
    HeaderLinesFit(hs);
    AfterPreamble(pre, Layout(hs, bs));
    PrimaryReadsJoined(pre + Layout(hs, bs), |pre|, hs, HeaderLines(hs), bs);
  }
}
