/**
  * The output side of the protocol: the markers the engine is told to wrap its output
  * in, the kinds of console entries, the marker splitting ReadMath performs on the
  * socket buffer, and ConsoleAppend's cutting of a text into plain and math pieces.
  */
module Segments {
  import opened WxText

  const PROMPT_PREFIX := "<PROMPT-P/>"
  const PROMPT_SUFFIX := "<PROMPT-S/>"
  const MATH_OPEN := "<mth"
  const MATH_CLOSE := "</mth>"
  /** The first main prompt of a fresh engine; seeing it triggers ReadFirstPrompt. */
  const FIRST_PROMPT := "(%i1) "
  /** The gcl debugger banner ReadLispError looks for. */
  const LISP_ERROR := "dbl:MAXIMA>>"
  const COMMENT_PREFIX := "/*"
  const LISP_PROMPT_LABEL := "MAXIMA> "

  /** The MC_TYPE_* constants: what a console entry is. */
  datatype Kind = Text | Prompt | MainPrompt | Error | Input | Comment | Section | Title

  /** The kinds DoRawConsoleAppend turns into editable cells (and which mark the document unsaved). */
  predicate IsEditorKind(k: Kind) {
    k == Input || k == Comment || k == Section || k == Title
  }

  /**
    * One append to the console: Raw is DoRawConsoleAppend(text, kind), Markup is
    * DoConsoleAppend(xml, kind), whose text is parsed as markup.
    */
  datatype Entry = Raw(kind: Kind, text: string) | Markup(kind: Kind, xml: string)

  /** The pieces with the marker written after each of them. */
  function Glue(pieces: seq<string>, marker: string): string
    decreases |pieces|
  {
    if pieces == [] then "" else pieces[0] + marker + Glue(pieces[1..], marker)
  }

  /**
    * Cutting a buffer at every occurrence of a marker, left to right: the pieces in front
    * of each marker, and the text after the last marker, which stays in the buffer.
    */
  function SplitOn(buf: string, marker: string): (r: (seq<string>, string))
    requires |marker| > 0
    decreases |buf|
  {
    var i := Find(buf, marker);
    if i < 0 then ([], buf)
    else
      var tail := SplitOn(buf[i + |marker|..], marker);
      ([buf[..i]] + tail.0, tail.1)
  }

  /**
    * Nothing is lost or invented: the pieces, each followed by the marker, and then the
    * rest give back the buffer; no piece and not the rest holds the marker.
    */
  lemma {:induction false} SplitOnParts(buf: string, marker: string)
    requires |marker| > 0
    ensures Glue(SplitOn(buf, marker).0, marker) + SplitOn(buf, marker).1 == buf
    ensures !Contains(SplitOn(buf, marker).1, marker)
    ensures forall k :: 0 <= k < |SplitOn(buf, marker).0| ==> !Contains(SplitOn(buf, marker).0[k], marker)
    decreases |buf|
  {
    var i := Find(buf, marker);
    if i >= 0 {
      var rest := buf[i + |marker|..];
      SplitOnParts(rest, marker);
      var tail := SplitOn(rest, marker);
      assert SplitOn(buf, marker) == ([buf[..i]] + tail.0, tail.1);
      PrefixBeforeFind(buf, marker);
      GlueFront(buf, marker, tail.0, tail.1, i);
    }
  }

  lemma {:induction false} GlueFront(buf: string, marker: string, pieces: seq<string>, rest: string, i: nat)
    requires i + |marker| <= |buf| && buf[i..i + |marker|] == marker
    requires Glue(pieces, marker) + rest == buf[i + |marker|..]
    ensures Glue([buf[..i]] + pieces, marker) + rest == buf
  {
    var all := [buf[..i]] + pieces;
    assert all[0] == buf[..i] && all[1..] == pieces;
    assert Glue(all, marker) == buf[..i] + marker + Glue(pieces, marker);
    Reassemble(buf, i, buf[..i], marker, Glue(pieces, marker), rest);
  }

  /**
    * Splitting is insensitive to how the text arrives: splitting a + b at once equals
    * splitting a, then splitting what a left over followed by b.
    */
  lemma {:induction false} SplitOnAppend(a: string, b: string, marker: string)
    requires |marker| > 0
    ensures SplitOn(a + b, marker)
         == (SplitOn(a, marker).0 + SplitOn(SplitOn(a, marker).1 + b, marker).0,
             SplitOn(SplitOn(a, marker).1 + b, marker).1)
    decreases |a|
  {
    var i := Find(a, marker);
    if i < 0 {
      assert SplitOn(a, marker) == ([], a);
      assert [] + SplitOn(a + b, marker).0 == SplitOn(a + b, marker).0;
    } else {
      var k := i + |marker|;
      var rest := a[k..];
      SplitOnAppend(rest, b, marker);
      var left := SplitOn(rest, marker);
      var more := SplitOn(left.1 + b, marker);
      SplitOnAt(a, marker, i, a[..i], rest);
      SplitOnAppendStep(a, b, marker, i, a[..i], rest, left.0, left.1, more.0, more.1);
    }
  }

  /** The inductive step of SplitOnAppend on a + b, with SplitOn(rest + b) known. */
  lemma {:induction false} SplitOnAppendStep(a: string, b: string, marker: string, i: int, head: string, rest: string,
                          p: seq<string>, r: string, q: seq<string>, t: string)
    requires |marker| > 0 && Find(a, marker) == i >= 0
    requires head == a[..i] && rest == a[i + |marker|..]
    requires SplitOn(rest + b, marker) == (p + q, t)
    ensures SplitOn(a + b, marker) == ([head] + p + q, t)
  {
    SplitOnAppendAt(a, b, marker, i, head, rest);
    assert [head] + (p + q) == [head] + p + q;
  }

  /** The first marker of `a` is the first of a + b, so SplitOn cuts a + b there too. */
  lemma {:induction false} SplitOnAppendAt(a: string, b: string, marker: string, i: int, head: string, rest: string)
    requires |marker| > 0 && Find(a, marker) == i >= 0
    requires head == a[..i] && rest == a[i + |marker|..]
    ensures SplitOn(a + b, marker) == ([head] + SplitOn(rest + b, marker).0, SplitOn(rest + b, marker).1)
  {
    FindExtend(a, b, marker);
    SlicesOfAppend(a, b, i, i + |marker|, head, rest);
    SplitOnAt(a + b, marker, i, head, rest + b);
  }

  /** One step of SplitOn, when the first occurrence is at `i`. */
  lemma {:induction false} SplitOnAt(buf: string, marker: string, i: int, head: string, rest: string)
    requires |marker| > 0 && Find(buf, marker) == i >= 0
    requires head == buf[..i] && rest == buf[i + |marker|..]
    ensures SplitOn(buf, marker) == ([head] + SplitOn(rest, marker).0, SplitOn(rest, marker).1)
  {
  }

  /**
    * wxString::Replace with replaceAll is the cut at every occurrence, glued back with
    * the replacement: the text between occurrences is kept as it is, and each
    * occurrence, left to right, becomes `rep`.
    */
  lemma {:induction false} ReplaceAllGlue(s: string, pat: string, rep: string)
    requires |pat| > 0
    ensures ReplaceAll(s, pat, rep) == Glue(SplitOn(s, pat).0, rep) + SplitOn(s, pat).1
    decreases |s|
  {
    var i := Find(s, pat);
    if i >= 0 {
      var head, tail := s[..i], s[i + |pat|..];
      ReplaceAllGlue(tail, pat, rep);
      var split := SplitOn(tail, pat);
      SplitOnAt(s, pat, i, head, tail);
      assert ([head] + split.0)[0] == head && ([head] + split.0)[1..] == split.0;
      assert Glue([head] + split.0, rep) == head + rep + Glue(split.0, rep);
      ReplaceAllUnfold(s, pat, rep, i, head, tail);
    }
  }

  lemma {:induction false} SlicesOfAppend(a: string, b: string, i: nat, k: nat, head: string, rest: string)
    requires i <= k <= |a| && head == a[..i] && rest == a[k..]
    ensures (a + b)[..i] == head && (a + b)[k..] == rest + b
  {
  }

  /**
    * What ConsoleAppend shows as plain text: not blank, and holding no math block
    * opening. The source tests blankness as "empty once trimmed" (TrimEmptyIffBlank).
    */
  predicate PlainText(t: string) {
    !IsBlank(t) && !Contains(t, MATH_OPEN)
  }

  /**
    * One round of ConsoleAppend's loop over a text output: when the text holds `<mth`, a
    * math block runs from there to the first `</mth>` of the text (searched from its
    * start, not from the block), or to the end when there is none, and non-blank text in
    * front of it is shown as plain text; without `<mth`, the whole text is shown as
    * plain text unless it is blank. Answers the entries and the text left over.
    */
  function MathCut(s: string): (r: (seq<Entry>, string))
    requires s != []
    ensures |r.1| < |s|
  {
    var start := Find(s, MATH_OPEN);
    if start == -1 then ((if !IsBlank(s) then [Raw(Text, s)] else []), [])
    else
      var pre := SubString(s, 0, start - 1);
      var close := Find(s, MATH_CLOSE);
      var end := if close == -1 then |s| else close + 5;
      var block := SubString(s, start, end);
      ((if !IsBlank(pre) then [Raw(Text, pre)] else []) + [Markup(Text, "<span>" + block + "</span>")],
       SubString(s, end + 1, |s|))
  }

  /** ConsoleAppend's whole loop over a text output: the rounds of MathCut until no text is left. */
  function MathSplit(s: string): seq<Entry>
    decreases |s|
  {
    if s == [] then []
    else
      var cut := MathCut(s);
      cut.0 + MathSplit(cut.1)
  }

  /** Every entry of a text output is of the text kind, and every plain one is non-blank and free of `<mth`. */
  lemma {:induction false} MathSplitPlain(s: string)
    ensures forall k :: 0 <= k < |MathSplit(s)| ==> MathSplit(s)[k].kind == Text
    ensures forall k :: 0 <= k < |MathSplit(s)| && MathSplit(s)[k].Raw? ==> PlainText(MathSplit(s)[k].text)
    decreases |s|
  {
    if s != [] {
      var cut := MathCut(s);
      MathSplitPlain(cut.1);
      MathCutPlain(s);
      assert MathSplit(s) == cut.0 + MathSplit(cut.1);
    }
  }

  lemma {:induction false} MathCutPlain(s: string)
    requires s != []
    ensures forall k :: 0 <= k < |MathCut(s).0| ==> MathCut(s).0[k].kind == Text
    ensures forall k :: 0 <= k < |MathCut(s).0| && MathCut(s).0[k].Raw? ==> PlainText(MathCut(s).0[k].text)
  {
    var start := Find(s, MATH_OPEN);
    if start == -1 {
      assert MathCut(s).0 == if !IsBlank(s) then [Raw(Text, s)] else [];
      LeadPlain(s, []);
    } else {
      var pre := SubString(s, 0, start - 1);
      assert !Contains(pre, MATH_OPEN) by {
        assert pre == s[..start];
        PrefixBeforeFind(s, MATH_OPEN);
      }
      var close := Find(s, MATH_CLOSE);
      var end := if close == -1 then |s| else close + 5;
      var math := [Markup(Text, "<span>" + SubString(s, start, end) + "</span>")];
      assert MathCut(s).0 == (if !IsBlank(pre) then [Raw(Text, pre)] else []) + math;
      LeadPlain(pre, math);
    }
  }

  /** The optional plain entry of a round, then markup of text kind. */
  lemma {:induction false} LeadPlain(pre: string, math: seq<Entry>)
    requires !Contains(pre, MATH_OPEN)
    requires forall k :: 0 <= k < |math| ==> math[k].Markup? && math[k].kind == Text
    ensures var es := (if !IsBlank(pre) then [Raw(Text, pre)] else []) + math;
      (forall k :: 0 <= k < |es| ==> es[k].kind == Text)
      && (forall k :: 0 <= k < |es| && es[k].Raw? ==> PlainText(es[k].text))
  {
  }

  /**
    * A well-formed math block with plain text in front of it becomes at most one plain
    * entry for the text and exactly one math entry holding the whole block.
    */
  lemma {:induction false} MathBlock(pre: string, body: string)
    requires !Contains(pre, MATH_OPEN) && !Contains(pre, MATH_CLOSE)
    requires !Contains(MATH_OPEN + body, MATH_CLOSE)
    ensures MathSplit(pre + MATH_OPEN + body + MATH_CLOSE)
         == (if !IsBlank(pre) then [Raw(Text, pre)] else [])
            + [Markup(Text, "<span>" + MATH_OPEN + body + MATH_CLOSE + "</span>")]
  {
    var u := MATH_OPEN + body;
    var s := pre + u + MATH_CLOSE;
    OpenFoundAt(pre, body);
    CloseFoundAt(pre, u);
    MathWhole(s, pre, u);
    assert s == pre + MATH_OPEN + body + MATH_CLOSE;
    assert "<span>" + (u + MATH_CLOSE) + "</span>" == "<span>" + MATH_OPEN + body + MATH_CLOSE + "</span>";
  }

  lemma {:induction false} OpenFoundAt(pre: string, body: string)
    requires !Contains(pre, MATH_OPEN)
    ensures Find(pre + (MATH_OPEN + body) + MATH_CLOSE, MATH_OPEN) == |pre|
  {
    assert pre + MATH_OPEN + (body + MATH_CLOSE) == pre + (MATH_OPEN + body) + MATH_CLOSE;
    FindAfter(pre, MATH_OPEN, body + MATH_CLOSE);
  }

  lemma {:induction false} CloseFoundAt(pre: string, u: string)
    requires !Contains(pre, MATH_CLOSE) && !Contains(u, MATH_CLOSE) && u != [] && u[0] == '<'
    ensures Find(pre + u + MATH_CLOSE, MATH_CLOSE) == |pre| + |u|
  {
    ConcatNoOccurrence(pre, u, MATH_CLOSE);
    assert pre + u + MATH_CLOSE + "" == pre + u + MATH_CLOSE;
    FindAfter(pre + u, MATH_CLOSE, "");
  }

  lemma {:induction false} MathWhole(s: string, pre: string, u: string)
    requires s == pre + u + MATH_CLOSE
    requires Find(s, MATH_OPEN) == |pre| && Find(s, MATH_CLOSE) == |pre| + |u|
    ensures MathSplit(s) == (if !IsBlank(pre) then [Raw(Text, pre)] else [])
                            + [Markup(Text, "<span>" + (u + MATH_CLOSE) + "</span>")]
  {
    var start, end := |pre|, |pre| + |u| + 5;
    assert SubString(s, 0, start - 1) == pre by { assert s[..start] == pre; }
    assert SubString(s, start, end) == u + MATH_CLOSE by { assert s[start..] == u + MATH_CLOSE; }
    assert SubString(s, end + 1, |s|) == [];
    var shown := (if !IsBlank(pre) then [Raw(Text, pre)] else [])
      + [Markup(Text, "<span>" + (u + MATH_CLOSE) + "</span>")];
    assert MathCut(s) == (shown, []);
    assert MathSplit(s) == shown + MathSplit([]);
    assert shown + [] == shown;
  }

  /** How ConsoleAppend shows a prompt: main prompt, lisp prompt or other, and whether input is now at a prompt. */
  datatype PromptView = PromptView(kind: Kind, shown: string, atPrompt: bool)

  function PromptViewOf(s: string): PromptView {
    if StartsWith(s, "(%i") || s == COMMENT_PREFIX then PromptView(MainPrompt, s, true)
    else if StartsWith(s, LISP_PROMPT_LABEL) then PromptView(Prompt, Right(s, 8), true)
    else PromptView(Prompt, s + " ", false)
  }

  /**
    * The entries ConsoleAppend adds for a text of the given kind, once the prompt
    * suffix is removed and the text is known not to be blank.
    */
  function AppendedEntries(s: string, kind: Kind): seq<Entry> {
    match kind
    case Text => MathSplit(s)
    case Input => []
    case Prompt =>
      var v := PromptViewOf(s);
      [Markup(v.kind, "<span>" + v.shown + "</span>")]
    case Error => [Raw(Error, s)]
    case _ => [Markup(kind, "<span>" + s + "</span>")]
  }
}
