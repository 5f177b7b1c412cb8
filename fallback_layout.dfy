/**
 * What the fallback tier of `parse_ai_output` (main.py:89-104) recovers from a
 * reply whose header lines are plain: no `**` around them and no note after
 * the fourth title, the only header lines its start labels accept. On such a
 * reply the fallback reads the same sections as the combined pattern, and
 * when the third header is missing it still recovers sections 1 and 4.
 */
module FallbackLayout {
  import opened Wrappers
  import opened Text
  import opened Extractor
  import opened FallbackFacts
  import opened PrimaryLayout

  /** A header line the fallback's start label accepts: well styled, without `**` and without a note. */
  predicate Plain(k: nat, h: HeaderStyle)
    requires 1 <= k <= 4
  {
    WellStyled(k, h) && !h.bold && h.note.None?
  }

  /** Header line `i` of styles `hs` is plain: the term on which `AllPlain` hangs its facts. */
  predicate PlainAt(hs: seq<HeaderStyle>, i: nat)
    requires i < |hs| && i < 4
  {
    Plain(i + 1, hs[i])
  }

  /** All four header lines are plain. */
  predicate AllPlain(hs: seq<HeaderStyle>)
    requires |hs| == 4
  {
    forall i {:trigger PlainAt(hs, i)} :: 0 <= i < 4 ==> PlainAt(hs, i)
  }

  /** A plain header line is its label followed by its line tail. */
  lemma PlainLine(k: nat, h: HeaderStyle)
    requires 1 <= k <= 4 && Plain(k, h)
    ensures HeaderLine(k, h) == Label(k, h) + LineTail(h)
    ensures NoteText(h.note) + LineTail(h) == LineTail(h)
  {
    assert Stars(h.bold) == "";
  }

  /** `:` and a newline, then a character that cannot extend the decoration: the fallback's decoration ends after the newline. */
  lemma ColonEndsDecor(s: string, t: nat)
    requires t + 2 <= |s| && s[t] == ':' && s[t + 1] == '\n'
    requires t + 2 < |s| ==> StartsSection(s[t + 2])
    ensures DecorEnd(s, t, false) == t + 2
  {
    assert SkipSpace(s, t) == t;
    assert SkipSpace(s, t + 2) == t + 2;
    assert SkipSpace(s, t + 1) == t + 2;
  }

  /** A newline, then a character that cannot extend the decoration: the fallback's decoration ends after the newline. */
  lemma NewlineEndsDecor(s: string, t: nat)
    requires t + 1 <= |s| && s[t] == '\n'
    requires t + 1 < |s| ==> StartsSection(s[t + 1])
    ensures DecorEnd(s, t, false) == t + 1
  {
    assert SkipSpace(s, t + 1) == t + 1;
    assert SkipSpace(s, t) == t + 1;
  }

  /**
   * The plain line tail, `:` or nothing and then a newline, is the whole
   * decoration `\s*:?\s*` of the fallback's start line when the next character
   * cannot extend it, and the start line ends at its newline.
   */
  lemma {:induction false} PlainTailEnds(s: string, t: nat, x: nat, h: HeaderStyle)
    requires !h.bold && x == t + |LineTail(h)| && x <= |s| && s[t..x] == LineTail(h)
    requires x < |s| ==> StartsSection(s[x])
    ensures DecorEnd(s, t, false) == x && LineEnd(s, t, false) == Some(x)
  {
    var T := LineTail(h);
    TailShape(h);
    At(s, t, T, 0);
    At(s, t, T, |T| - 1);
    if h.colon {
      assert T == ":\n" && s[t] == T[0] && s[t + 1] == T[1];
      ColonEndsDecor(s, t);
    } else {
      assert T == "\n" && s[t] == T[0];
      NewlineEndsDecor(s, t);
    }
    assert LastNewlineEnd(s, t, x) == Some(x);
  }

  /** A plain header line for section `k` at `d`: the fallback's start line, ending at `x`. */
  lemma {:induction false} StartLine(s: string, d: nat, x: nat, k: nat, h: HeaderStyle) returns (t: nat)
    requires 1 <= k <= 4 && Plain(k, h)
    requires x == d + |HeaderLine(k, h)| && x <= |s| && s[d..x] == HeaderLine(k, h)
    requires x < |s| ==> StartsSection(s[x])
    ensures LabelEnd(s, d, k) == Some(t) && t < x
    ensures DecorEnd(s, t, false) == x && LineEnd(s, t, false) == Some(x)
  {
    PlainLine(k, h);
    t := LabelFound(s, d, x, k, h);
    PlainTailEnds(s, t, x, h);
  }

  /** Two occurrences of one label are the same. */
  lemma SameLabel(s: string, d: nat, d': nat, k: nat)
    requires 1 <= k <= 4 && d <= |s| && d' <= |s| && LabelsOnce(s) && LabelAt(s, d, k) && LabelAt(s, d', k)
    ensures d == d'
  {
  }

  /** A label occurring once at `d` occurs nowhere else. */
  lemma OnlyLabel(s: string, d: nat, k: nat)
    requires 1 <= k <= 4 && d <= |s| && LabelsOnce(s) && LabelAt(s, d, k)
    ensures forall i :: 0 <= i <= |s| && i != d ==> !LabelAt(s, i, k)
  {
  }

  /** With label `k` occurring only at `d`, the fallback's search for section `k` settles on `d`. */
  lemma SearchSettles(s: string, d: nat, k: nat)
    requires 1 <= k <= 4 && d <= |s| && LabelsOnce(s) && LabelAt(s, d, k) && SectionAt(s, d, k).Some?
    ensures FindSection(s, 0, k) == SectionAt(s, d, k)
  {
    OnlyLabel(s, d, k);
    forall i | 0 <= i < d ensures SectionAt(s, i, k).None? {
      assert !LabelAt(s, i, k);
    }
    assert FirstSectionAt(s, 0, d, k);
    FindSectionFirst(s, 0, d, k);
  }

  /** The first newline followed by label `k` from `q` on is at `z` when label `k` occurs only at `z + 1`. */
  lemma MarkOnlyAt(s: string, q: nat, z: nat, k: nat)
    requires 1 <= k <= 4 && q <= z < |s| && s[z] == '\n' && LabelAt(s, z + 1, k) && LabelsOnce(s)
    ensures FirstMark(s, q, k) == Some(z)
  {
    OnlyLabel(s, z + 1, k);
    forall j | q <= j < z ensures !MarkAt(s, j, k) {
      assert !LabelAt(s, j + 1, k);
    }
    FirstMarkIs(s, q, z, k);
  }

  /** A mark at `z` with none between `q` and `z` is the first mark from `q` on. */
  lemma FirstMarkIs(s: string, q: nat, z: nat, k: nat)
    requires 1 <= k <= 4 && q <= z < |s| && MarkAt(s, z, k) && forall j :: q <= j < z ==> !MarkAt(s, j, k)
    ensures FirstMark(s, q, k) == Some(z)
  {
    var r := FirstMark(s, q, k);
    assert r.Some?;
    assert !(r.value < z) && !(z < r.value);
  }

  /** The capture starting at the line end `x` stops at the first mark `z` for label `k`. */
  lemma CaptureHere(s: string, t: nat, x: nat, z: nat, k: nat)
    requires 1 <= k <= 4 && t < x <= z < |s| && s[x - 1] == '\n' && FirstMark(s, x, k) == Some(z)
    ensures CaptureBefore(s, t, x, k) == Some(s[x..z])
  {
  }

  /**
   * The fallback's match for section `k` (1-3) anchored at its label `d`,
   * whose start line ends at `x`, is the text up to the first mark `z` for
   * label `k + 1`; when the search settles on `d`, that text, stripped, is
   * the section.
   */
  lemma SectionHere(s: string, d: nat, t: nat, x: nat, z: nat, k: nat)
    requires 1 <= k <= 3 && d <= t < x <= z < |s| && LabelEnd(s, d, k) == Some(t) && DecorEnd(s, t, false) == x
    requires s[x - 1] == '\n' && FirstMark(s, x, k + 1) == Some(z)
    ensures SectionAt(s, d, k) == Some(s[x..z])
  {
    CaptureHere(s, t, x, z, k + 1);
  }

  /**
   * Section `k` (1-3) after its start line, which ends at `x`: the section
   * text from `x` to `z`, then a newline and label `k + 1`. With each label
   * occurring once, `extract_section` returns the section text.
   */
  lemma {:induction false} SectionUpTo(s: string, d: nat, t: nat, x: nat, z: nat, k: nat, b: string)
    requires 1 <= k <= 3 && IsTrimmed(b) && LabelsOnce(s)
    requires d <= t < x <= |s| && LabelEnd(s, d, k) == Some(t) && DecorEnd(s, t, false) == x && s[x - 1] == '\n'
    requires z == x + |b| && z < |s| && s[x..z] == b && s[z] == '\n' && LabelAt(s, z + 1, k + 1)
    ensures ExtractSection(s, k) == b
  {
    MarkOnlyAt(s, x, z, k + 1);
    SectionHere(s, d, t, x, z, k);
    SearchSettles(s, d, k);
    StripTrimmed(b);
  }

  /**
   * Section `k` (1-3) laid out for the fallback: a plain header line at `d`,
   * the section text from `x` to `z`, a newline and label `k + 1`. With each
   * label occurring once, `extract_section` returns the section text.
   */
  lemma {:induction false} SectionBetween(s: string, d: nat, x: nat, z: nat, k: nat, h: HeaderStyle, b: string)
    requires 1 <= k <= 3 && Plain(k, h) && Clean(b) && LabelsOnce(s)
    requires x == d + |HeaderLine(k, h)| && x <= |s| && s[d..x] == HeaderLine(k, h)
    requires z == x + |b| && z < |s| && s[x..z] == b && s[z] == '\n'
    requires LabelAt(s, z + 1, k + 1)
    ensures ExtractSection(s, k) == b
  {
    At(s, x, b, 0);
    var t := StartLine(s, d, x, k, h);
    SectionUpTo(s, d, t, x, z, k, b);
  }

  /** Section 4 laid out for the fallback: a plain fourth header line at `d`, then the strategy to the end. */
  lemma {:induction false} LastSectionFrom(s: string, d: nat, x: nat, h: HeaderStyle, b: string)
    requires Plain(4, h) && Clean(b) && LabelsOnce(s)
    requires x == d + |HeaderLine(4, h)| && x <= |s| && s[d..x] == HeaderLine(4, h)
    requires s[x..] == b
    ensures ExtractSection(s, 4) == b
  {
    assert s[x] == b[0];
    var t := StartLine(s, d, x, 4, h);
    assert SectionAt(s, d, 4) == Some(b);
    SearchSettles(s, d, 4);
    StripTrimmed(b);
  }

  /** Header line `j` (1-3) of a layout, plain, from `y` to `f`: label `j + 1` starts at `y`. */
  lemma NextLabel(s: string, y: nat, f: nat, j: nat, hs: seq<HeaderStyle>, Hs: seq<string>)
    requires 1 <= j < 4 && |hs| == 4 && LinesFit(hs, Hs) && AllPlain(hs)
    requires f == y + |Hs[j]| && f < |s| && s[y..f] == Hs[j] && StartsSection(s[f])
    ensures LabelAt(s, y, j + 1)
  {
    LineFits(hs, Hs, j);
    assert PlainAt(hs, j);
    var _ := StartLine(s, y, f, j + 1, hs[j]);
  }

  /** Section `i` (0-2) of a layout, from `e` to `z`, followed by a newline and label `i + 2`: the fallback recovers it. */
  lemma MiddleSection(s: string, x: nat, e: nat, z: nat, i: nat, hs: seq<HeaderStyle>, Hs: seq<string>, bs: seq<string>)
    requires i < 3 && |hs| == |bs| == 4 && LinesFit(hs, Hs) && AllPlain(hs) && AllClean(bs) && LabelsOnce(s)
    requires e == x + |Hs[i]| && z == e + |bs[i]| && z < |s|
    requires s[x..e] == Hs[i] && s[e..z] == bs[i] && s[z] == '\n' && LabelAt(s, z + 1, i + 2)
    ensures ExtractSection(s, i + 1) == bs[i]
  {
    LineFits(hs, Hs, i);
    assert PlainAt(hs, i) && Clean(bs[i]);
    SectionBetween(s, x, e, z, i + 1, hs[i], bs[i]);
  }

  /** The last section of a layout: the fallback recovers the strategy. */
  lemma LastSection(s: string, x: nat, e: nat, hs: seq<HeaderStyle>, Hs: seq<string>, bs: seq<string>)
    requires |hs| == |bs| == 4 && LinesFit(hs, Hs) && AllPlain(hs) && AllClean(bs) && LabelsOnce(s)
    requires e == x + |Hs[3]| && e <= |s| && s[x..e] == Hs[3] && s[e..] == bs[3]
    ensures ExtractSection(s, 4) == bs[3]
  {
    LineFits(hs, Hs, 3);
    assert PlainAt(hs, 3) && Clean(bs[3]);
    LastSectionFrom(s, x, e, hs[3], bs[3]);
  }

  /** Section `i` of a layout ends at `z`, and the next header line runs from `y` to `f`. */
  lemma NextPieces(s: string, e: nat, Hs: seq<string>, bs: seq<string>, i: nat) returns (z: nat, y: nat, f: nat)
    requires |Hs| == |bs| && i + 1 < |bs| && LaidOut(s, e, Hs, bs, i)
    ensures z == e + |bs[i]| && y == z + 1 && f == y + |Hs[i + 1]| && f < |s|
    ensures s[e..z] == bs[i] && s[z] == '\n' && s[y..f] == Hs[i + 1] && StartsSection(s[f])
    ensures LaidOut(s, f, Hs, bs, i + 1)
  {
    z := e + |bs[i]|;
    y, f := LaidOutTail(s, e, Hs, bs, i);
  }

  /**
   * Section `i` (0-2) of a layout, between header line `i`, from `x` to `e`,
   * and header line `i + 1`, from `y` to `f`: the fallback recovers it.
   */
  lemma {:induction false} SectionStep(s: string, x: nat, e: nat, z: nat, y: nat, f: nat, i: nat,
                                       hs: seq<HeaderStyle>, Hs: seq<string>, bs: seq<string>)
    requires i < 3 && |hs| == |bs| == 4 && LinesFit(hs, Hs) && AllPlain(hs) && AllClean(bs) && LabelsOnce(s)
    requires e == x + |Hs[i]| && z == e + |bs[i]| && y == z + 1 && f == y + |Hs[i + 1]| && f < |s|
    requires s[x..e] == Hs[i] && s[e..z] == bs[i] && s[z] == '\n' && s[y..f] == Hs[i + 1] && StartsSection(s[f])
    ensures ExtractSection(s, i + 1) == bs[i]
  {
    NextLabel(s, y, f, i + 1, hs, Hs);
    MiddleSection(s, x, e, z, i, hs, Hs, bs);
  }

  /** `FallbackReadsLayout` for a reply whose suffix from `x` joins the lines `Hs` and the sections. */
  lemma {:induction false} FallbackReadsJoined(s: string, x: nat, hs: seq<HeaderStyle>, Hs: seq<string>, bs: seq<string>)
    requires |hs| == |bs| == 4 && LinesFit(hs, Hs) && AllPlain(hs) && AllClean(bs) && LabelsOnce(s)
    requires x + |Joined(Hs, bs, 0)| == |s| && s[x..] == Joined(Hs, bs, 0)
    ensures Fallback(s) == Sections(bs[0], bs[1], bs[2], bs[3])
  {
    var e := x + |Hs[0]|;
    JoinedFacts(s, x, e, Hs, bs);
    var z0, x1, e1 := NextPieces(s, e, Hs, bs, 0);
    SectionStep(s, x, e, z0, x1, e1, 0, hs, Hs, bs);
    var z1, x2, e2 := NextPieces(s, e1, Hs, bs, 1);
    SectionStep(s, x1, e1, z1, x2, e2, 1, hs, Hs, bs);
    var z2, x3, e3 := NextPieces(s, e2, Hs, bs, 2);
    SectionStep(s, x2, e2, z2, x3, e3, 2, hs, Hs, bs);
    LastSection(s, x3, e3, hs, Hs, bs);
  }

  /**
   * On a well-formed reply whose header lines are all plain, the fallback
   * reads exactly the four sections the combined pattern reads: the two
   * tiers agree wherever both apply.
   */
  lemma {:induction false} FallbackReadsLayout(pre: string, hs: seq<HeaderStyle>, bs: seq<string>)
    requires |hs| == |bs| == 4 && WellFormed(hs, bs) && AllPlain(hs)
    requires LabelsOnce(pre + Layout(hs, bs))
    ensures Fallback(pre + Layout(hs, bs)) == Sections(bs[0], bs[1], bs[2], bs[3])
    ensures ParseAiOutput(pre + Layout(hs, bs)) == Fallback(pre + Layout(hs, bs))
  {
    HeaderLinesFit(hs);
    AfterPreamble(pre, Layout(hs, bs));
    FallbackReadsJoined(pre + Layout(hs, bs), |pre|, hs, HeaderLines(hs), bs);
    PrimaryReadsLayout(pre, hs, bs);
  }

  /**
   * A reply with plain headers 1, 2 and 4 and no header 3: header line 1,
   * the reflection, a newline, header line 2, the interpretation, a newline,
   * header line 4 and the strategy.
   */
  function WithoutThird(pre: string, h1: HeaderStyle, h2: HeaderStyle, h4: HeaderStyle, b1: string, b2: string, b4: string): string {
    pre + Joined([HeaderLine(1, h1), HeaderLine(2, h2), HeaderLine(4, h4)], [b1, b2, b4], 0)
  }

  /** Joined lines in `s` from `x` on: the first header line, then the layout of the sections. */
  lemma JoinedHead(s: string, x: nat, Hs: seq<string>, bs: seq<string>) returns (e: nat)
    requires |Hs| == |bs| && 0 < |bs| && AllClean(bs)
    requires x + |Joined(Hs, bs, 0)| == |s| && s[x..] == Joined(Hs, bs, 0)
    ensures e == x + |Hs[0]| && e <= |s| && s[x..e] == Hs[0] && LaidOut(s, e, Hs, bs, 0)
  {
    e := x + |Hs[0]|;
    assert Clean(bs[0]);
    JoinedStart(s, x, Hs, bs, 0);
    JoinedLaidOut(s, x, Hs, bs, 0);
  }

  /** Where the pieces of three joined header lines and sections lie in `s`, from `x` on. */
  lemma {:induction false} ThreePieces(s: string, x: nat, Hs: seq<string>, bs: seq<string>)
    returns (e: nat, z: nat, y: nat, f: nat, u: nat, g: nat)
    requires |Hs| == |bs| == 3 && AllClean(bs)
    requires x + |Joined(Hs, bs, 0)| == |s| && s[x..] == Joined(Hs, bs, 0)
    ensures e == x + |Hs[0]| && z == e + |bs[0]| && y == z + 1 && f == y + |Hs[1]| && f < |s|
    ensures s[x..e] == Hs[0] && s[e..z] == bs[0] && s[z] == '\n' && s[y..f] == Hs[1] && StartsSection(s[f])
    ensures g == u + |Hs[2]| && g <= |s| && s[u..g] == Hs[2] && s[g..] == bs[2]
  {
    e := JoinedHead(s, x, Hs, bs);
    z, y, f := NextPieces(s, e, Hs, bs, 0);
    var _, u', g' := NextPieces(s, f, Hs, bs, 1);
    u, g := u', g';
  }

  /** The reflection between plain header lines 1 and 2: the fallback recovers it. */
  lemma ReflectionBeforeSecond(s: string, x: nat, e: nat, z: nat, y: nat, f: nat, h1: HeaderStyle, h2: HeaderStyle, b1: string)
    requires Plain(1, h1) && Plain(2, h2) && Clean(b1) && LabelsOnce(s)
    requires e == x + |HeaderLine(1, h1)| && z == e + |b1| && y == z + 1 && f == y + |HeaderLine(2, h2)| && f < |s|
    requires s[x..e] == HeaderLine(1, h1) && s[e..z] == b1 && s[z] == '\n'
    requires s[y..f] == HeaderLine(2, h2) && StartsSection(s[f])
    ensures ExtractSection(s, 1) == b1
  {
    var _ := StartLine(s, y, f, 2, h2);
    SectionBetween(s, x, e, z, 1, h1, b1);
  }

  /**
   * A reply without the third header, its other headers plain and each label
   * occurring once: the combined pattern fails, and the fallback recovers the
   * reflection and the strategy while blanking the dream interpretation and
   * the mindset insight (section 2 ends only at a line starting with label 3).
   */
  lemma {:induction false} MissingThirdHeaderLayout(pre: string, h1: HeaderStyle, h2: HeaderStyle, h4: HeaderStyle,
                                                    b1: string, b2: string, b4: string)
    requires Plain(1, h1) && Plain(2, h2) && Plain(4, h4) && Clean(b1) && Clean(b2) && Clean(b4)
    requires LabelsOnce(WithoutThird(pre, h1, h2, h4, b1, b2, b4))
    requires var s := WithoutThird(pre, h1, h2, h4, b1, b2, b4);
             forall d :: 0 <= d <= |s| ==> LabelEnd(s, d, 3).None?
    ensures ParseAiOutput(WithoutThird(pre, h1, h2, h4, b1, b2, b4)) == Sections(b1, "", "", b4)
  {
    var s := WithoutThird(pre, h1, h2, h4, b1, b2, b4);
    var Hs := [HeaderLine(1, h1), HeaderLine(2, h2), HeaderLine(4, h4)];
    var bs := [b1, b2, b4];
    var x := |pre|;
    AfterPreamble(pre, Joined(Hs, bs, 0));
    assert AllClean(bs);
    var e, z, y, f, u, g := ThreePieces(s, x, Hs, bs);
    assert Hs[0] == HeaderLine(1, h1) && Hs[1] == HeaderLine(2, h2) && Hs[2] == HeaderLine(4, h4);
    ReflectionBeforeSecond(s, x, e, z, y, f, h1, h2, b1);
    LastSectionFrom(s, u, g, h4, b4);
    MissingThirdHeader(s);
  }
}
