/**
  * Text rewriting on the way to the engine and to the console: the soft wrap of the
  * echoed command (SplitInput), tab expansion (RemoveTabs), the terminator rule of
  * EnterCommand and the multi-line marker rule of SendMaxima.
  */
module InputText {
  import opened WxText
  import opened Segments

  /** SplitInput breaks only before one of these: a blank, a plus or a minus. */
  predicate IsSeparator(c: char) {
    c == ' ' || c == '+' || c == '-'
  }

  const WRAP_COLUMN: nat := 80

  /**
    * The column counter SplitInput holds when it reaches input[i]. A break resets it
    * before the character is counted; an embedded newline resets it after.
    */
  function ColumnBefore(input: string, i: nat): nat
    requires i <= |input|
  {
    if i == 0 then 0
    else
      var c := ColumnBefore(input, i - 1);
      if input[i - 1] == '\n' then 0
      else if c > WRAP_COLUMN && IsSeparator(input[i - 1]) then 1
      else c + 1
  }

  /** SplitInput puts "\n " in front of input[i]. */
  predicate BreakBefore(input: string, i: nat)
    requires i < |input|
  {
    ColumnBefore(input, i) > WRAP_COLUMN && IsSeparator(input[i])
  }

  function Breaks(input: string): (b: seq<bool>)
    ensures |b| == |input|
    ensures forall i :: 0 <= i < |input| ==> (b[i] <==> BreakBefore(input, i))
  {
    seq(|input|, i requires 0 <= i < |input| => BreakBefore(input, i))
  }

  /** `s` with "\n " inserted in front of every position marked in `b`. */
  function Weave(s: string, b: seq<bool>): (t: string)
    requires |b| == |s|
    decreases |s|
  {
    if s == [] then ""
    else Weave(s[..|s| - 1], b[..|b| - 1]) + (if b[|b| - 1] then "\n " else "") + [s[|s| - 1]]
  }

  /** Deletes, walking back from the end, the two characters in front of every marked position. */
  function Unweave(t: string, b: seq<bool>): string
    decreases |b|
  {
    if b == [] || t == [] then ""
    else if b[|b| - 1] then
      (if |t| < 3 then "" else Unweave(t[..|t| - 3], b[..|b| - 1]) + [t[|t| - 1]])
    else Unweave(t[..|t| - 1], b[..|b| - 1]) + [t[|t| - 1]]
  }

  /** Deleting the inserted pairs gives the text back: nothing else is changed or lost. */
  lemma {:induction false} UnweaveWeave(s: string, b: seq<bool>)
    requires |b| == |s|
    ensures Unweave(Weave(s, b), b) == s
    decreases |s|
  {
    if s != [] {
      var init, binit := s[..|s| - 1], b[..|b| - 1];
      UnweaveWeave(init, binit);
      var w := Weave(init, binit);
      var t := Weave(s, b);
      if b[|b| - 1] {
        assert t == w + "\n " + [s[|s| - 1]];
        assert t[..|t| - 3] == w;
      } else {
        assert t == w + [s[|s| - 1]];
        assert t[..|t| - 1] == w;
      }
      assert s == init + [s[|s| - 1]];
    }
  }

  /** The echo copy SplitInput produces: the input with a break woven in at every break position. */
  function Wrapped(input: string): string {
    Weave(input, Breaks(input))
  }

  /** wxMaxima::SplitInput: soft-wraps the echoed command after column 80. */
  method SplitInput(input: string) returns (r: string)
    ensures r == Wrapped(input)
  {
    r := "";
    var col := 0;
    ghost var b := Breaks(input);
    for i := 0 to |input|
      invariant col == ColumnBefore(input, i)
      invariant r == Weave(input[..i], b[..i])
    {
      assert input[..i + 1][..i] == input[..i] && b[..i + 1][..i] == b[..i];
      if col > WRAP_COLUMN && IsSeparator(input[i]) {
        r := r + "\n ";
        col := 0;
      }
      col := col + 1;
      r := r + [input[i]];
      if input[i] == '\n' {
        col := 0;
      }
    }
    assert input[..|input|] == input && b[..|input|] == b;
  }

  lemma {:induction false} ColumnAtMost(input: string, i: nat)
    requires i <= |input|
    ensures ColumnBefore(input, i) <= i
    decreases i
  {
    if i > 0 {
      ColumnAtMost(input, i - 1);
    }
  }

  lemma {:induction false} WeaveUnmarked(s: string, b: seq<bool>)
    requires |b| == |s| && forall i :: 0 <= i < |b| ==> !b[i]
    ensures Weave(s, b) == s
    decreases |s|
  {
    if s != [] {
      WeaveUnmarked(s[..|s| - 1], b[..|b| - 1]);
      assert s == s[..|s| - 1] + [s[|s| - 1]];
    }
  }

  /** A command of at most 81 characters is echoed unchanged: no column can pass 80 before. */
  lemma {:induction false} ShortInputUnchanged(input: string)
    requires |input| <= WRAP_COLUMN + 1
    ensures Wrapped(input) == input
  {
    forall i | 0 <= i < |input| ensures !BreakBefore(input, i) {
      ColumnAtMost(input, i);
    }
    WeaveUnmarked(input, Breaks(input));
  }

  /** A command without blank, plus or minus is echoed unchanged, however long. */
  lemma {:induction false} NoSeparatorUnchanged(input: string)
    requires forall i :: 0 <= i < |input| ==> !IsSeparator(input[i])
    ensures Wrapped(input) == input
  {
    WeaveUnmarked(input, Breaks(input));
  }

  /** The length of the last line of `t`: the characters after its last newline. */
  function LastLineLength(t: string): nat
    decreases |t|
  {
    if t == [] || t[|t| - 1] == '\n' then 0 else LastLineLength(t[..|t| - 1]) + 1
  }

  lemma {:induction false} ColumnWithinLine(input: string, i: nat)
    requires i <= |input|
    ensures LastLineLength(Weave(input[..i], Breaks(input)[..i])) >= ColumnBefore(input, i)
    decreases i
  {
    if i > 0 {
      ColumnWithinLine(input, i - 1);
      var b := Breaks(input);
      assert input[..i][..i - 1] == input[..i - 1] && b[..i][..i - 1] == b[..i - 1];
      var w := Weave(input[..i - 1], b[..i - 1]);
      assert Weave(input[..i], b[..i]) == w + (if b[i - 1] then "\n " else "") + [input[i - 1]];
      LastLineStep(w, input[i - 1], b[i - 1]);
    }
  }

  /** One more character, with or without a break in front of it, on the echoed text. */
  lemma {:induction false} LastLineStep(w: string, c: char, brk: bool)
    ensures LastLineLength(w + (if brk then "\n " else "") + [c])
         == if c == '\n' then 0 else if brk then 2 else LastLineLength(w) + 1
  {
    var t := w + (if brk then "\n " else "") + [c];
    if brk {
      var u := w + "\n ";
      assert t[..|t| - 1] == u && u[..|u| - 1] == w + "\n";
      assert LastLineLength(w + "\n") == 0;
      assert LastLineLength(u) == 1;
    } else {
      assert t[..|t| - 1] == w;
    }
  }

  /**
    * A break is inserted only in front of a blank, plus or minus, and only when the
    * echoed line it ends already holds more than 80 characters.
    */
  lemma {:induction false} BreakOnlyPastColumn(input: string, i: nat)
    requires i < |input| && Breaks(input)[i]
    ensures IsSeparator(input[i])
    ensures LastLineLength(Weave(input[..i], Breaks(input)[..i])) > WRAP_COLUMN
  {
    ColumnWithinLine(input, i);
  }

  /** A string of `n` blanks. */
  function Spaces(n: nat): (r: string)
    ensures |r| == n && forall i :: 0 <= i < n ==> r[i] == ' '
  {
    seq(n, _ => ' ')
  }

  /** How many blanks a tab met at output column `pos` becomes: at least one, up to the next multiple of 8. */
  function TabWidth(pos: nat): (n: nat)
    ensures 1 <= n <= 8 && (pos + n) % 8 == 0
  {
    8 - pos % 8
  }

  /** The text RemoveTabs produces: every tab becomes blanks up to the next multiple of 8. */
  function Expanded(s: string): (t: string)
    decreases |s|
    ensures s != [] && s[|s| - 1] == '\t' ==> |t| % 8 == 0
  {
    if s == [] then ""
    else
      var e := Expanded(s[..|s| - 1]);
      if s[|s| - 1] == '\t' then e + Spaces(TabWidth(|e|)) else e + [s[|s| - 1]]
  }

  /** wxMaxima::RemoveTabs: expands tabs to 8-column stops; `pos` always equals the output length. */
  method RemoveTabs(s: string) returns (t: string)
    ensures t == Expanded(s)
  {
    var pos := 0;
    t := "";
    for i := 0 to |s|
      invariant pos == |t|
      invariant t == Expanded(s[..i])
    {
      assert s[..i + 1][..i] == s[..i];
      var c := s[i];
      if c == '\t' {
        ghost var e := t;
        t := t + " ";
        pos := pos + 1;
        while pos % 8 != 0
          invariant pos == |t| && |e| < pos <= |e| + TabWidth(|e|)
          invariant t == e + Spaces(pos - |e|)
          decreases |e| + TabWidth(|e|) - pos
        {
          t := t + " ";
          pos := pos + 1;
        }
        TabStop(|e|, pos);
      } else {
        t := t + [c];
        pos := pos + 1;
      }
    }
    assert s[..|s|] == s;
  }

  /** The first multiple of 8 past column `col` is the tab stop TabWidth reaches. */
  lemma {:induction false} TabStop(col: nat, pos: nat)
    requires col < pos <= col + TabWidth(col) && pos % 8 == 0
    ensures pos == col + TabWidth(col)
  {
  }

  /** RemoveTabs leaves no tab behind. */
  lemma {:induction false} ExpandedHasNoTab(s: string)
    ensures forall i :: 0 <= i < |Expanded(s)| ==> Expanded(s)[i] != '\t'
    decreases |s|
  {
    if s != [] {
      ExpandedHasNoTab(s[..|s| - 1]);
    }
  }

  /** A string without tabs passes through RemoveTabs unchanged. */
  lemma {:induction false} ExpandedTabFree(s: string)
    requires forall i :: 0 <= i < |s| ==> s[i] != '\t'
    ensures Expanded(s) == s
    decreases |s|
  {
    if s != [] {
      ExpandedTabFree(s[..|s| - 1]);
      assert s == s[..|s| - 1] + [s[|s| - 1]];
    }
  }

  /** The characters other than blanks and tabs, in order. */
  function Visible(s: string): string
    decreases |s|
  {
    if s == [] then ""
    else Visible(s[..|s| - 1]) + (if s[|s| - 1] == ' ' || s[|s| - 1] == '\t' then "" else [s[|s| - 1]])
  }

  lemma {:induction false} VisibleAppend(a: string, b: string)
    ensures Visible(a + b) == Visible(a) + Visible(b)
    decreases |b|
  {
    if b != [] {
      VisibleAppend(a, b[..|b| - 1]);
      assert (a + b)[..|a + b| - 1] == a + b[..|b| - 1];
      assert (a + b)[|a + b| - 1] == b[|b| - 1];
    } else {
      assert a + b == a;
    }
  }

  lemma {:induction false} VisibleSpaces(n: nat)
    ensures Visible(Spaces(n)) == ""
    decreases n
  {
    if n > 0 {
      VisibleSpaces(n - 1);
      assert Spaces(n)[..n - 1] == Spaces(n - 1);
    }
  }

  /** RemoveTabs keeps every other character, in order: only blanks are added. */
  lemma {:induction false} ExpandedKeepsVisible(s: string)
    ensures Visible(Expanded(s)) == Visible(s)
    decreases |s|
  {
    if s != [] {
      var init, c := s[..|s| - 1], s[|s| - 1];
      ExpandedKeepsVisible(init);
      var e := Expanded(init);
      if c == '\t' {
        VisibleAppend(e, Spaces(TabWidth(|e|)));
        VisibleSpaces(TabWidth(|e|));
      } else {
        VisibleAppend(e, [c]);
        assert Visible([c]) == Visible([c][..0]) + (if c == ' ' then "" else [c]);
      }
    }
  }

  /**
    * EnterCommand's terminator rule: outside lisp mode a command that does not end in
    * ';' or '$' (or is empty) gets a ';' appended.
    */
  function Terminated(input: string, lispMode: bool): (r: string)
    ensures r == input || r == input + ";"
    ensures !lispMode ==> |r| > 0 && (r[|r| - 1] == ';' || r[|r| - 1] == '$')
    ensures (lispMode || (|input| > 0 && (input[|input| - 1] == ';' || input[|input| - 1] == '$')))
            ==> r == input
  {
    if !lispMode && (|input| == 0 || (input[|input| - 1] != ';' && input[|input| - 1] != '$'))
    then input + ";"
    else input
  }

  /** Terminating a terminated command changes nothing. */
  lemma {:induction false} TerminatedIdempotent(input: string, lispMode: bool)
    ensures Terminated(Terminated(input, lispMode), lispMode) == Terminated(input, lispMode)
  {
  }

  const MULTILINE_MARK := "<ml>"
  const NEWLINE_MARK := "<nl>"

  /**
    * SendMaxima's rewriting of the command text: a leading "<ml>" is dropped and every
    * "<nl>" after it becomes a newline; any other text is sent as it is.
    */
  function CommandText(s: string): (r: string)
    ensures !StartsWith(s, MULTILINE_MARK) ==> r == s
    ensures StartsWith(s, MULTILINE_MARK) ==> !Contains(r, NEWLINE_MARK)
  {
    if StartsWith(s, MULTILINE_MARK) then
      var body := s[|MULTILINE_MARK|..];
      ReplaceAllRemoves(body, NEWLINE_MARK, "\n");
      ReplaceAll(body, NEWLINE_MARK, "\n")
    else s
  }

  /**
    * The rewrite in full: the text after "<ml>" is cut at its "<nl>" markers, and the
    * command is the same pieces, in the same order, joined by newlines.
    */
  lemma {:induction false} CommandTextRewrites(s: string)
    requires StartsWith(s, MULTILINE_MARK)
    ensures var split := SplitOn(s[|MULTILINE_MARK|..], NEWLINE_MARK);
      s == MULTILINE_MARK + Glue(split.0, NEWLINE_MARK) + split.1
      && CommandText(s) == Glue(split.0, "\n") + split.1
      && !Contains(split.1, NEWLINE_MARK)
      && forall k :: 0 <= k < |split.0| ==> !Contains(split.0[k], NEWLINE_MARK)
  {
    var body := s[|MULTILINE_MARK|..];
    var split := SplitOn(body, NEWLINE_MARK);
    assert s == MULTILINE_MARK + body;
    assert CommandText(s) == ReplaceAll(body, NEWLINE_MARK, "\n");
    assert ReplaceAll(body, NEWLINE_MARK, "\n") == Glue(split.0, "\n") + split.1 by {
      ReplaceAllGlue(body, NEWLINE_MARK, "\n");
    }
    SplitOnParts(body, NEWLINE_MARK);
  }
}
