/**
  * Replay of a wxMaxima batch file (.wxm): the signature ReadBatchFile accepts, the
  * region markers, and the cursor-driven walk HandleMainPrompt makes over the stored
  * lines each time a main prompt arrives.
  */
module Batch {
  import opened Options
  import opened WxText
  import opened Segments

  const SIGNATURE := "/* [wxMaxima batch file version 1] [ DO NOT EDIT BY HAND! ]*/"
  const COMMENT_START := "/* [wxMaxima: comment start ]"
  const COMMENT_END := "   [wxMaxima: comment end   ] */"
  const SECTION_START := "/* [wxMaxima: section start ]"
  const SECTION_END := "   [wxMaxima: section end   ] */"
  const TITLE_START := "/* [wxMaxima: title   start ]"
  const TITLE_END := "   [wxMaxima: title   end   ] */"
  const INPUT_START := "/* [wxMaxima: input   start ] */"
  const INPUT_END := "/* [wxMaxima: input   end   ] */"

  /** ReadBatchFile accepts a file whose first line is exactly the signature. */
  predicate IsBatchFile(lines: seq<string>) {
    |lines| > 0 && lines[0] == SIGNATURE
  }

  /** The lines that open a region shown as a cell: comment, section and title. */
  predicate IsCellStart(line: string) {
    line == COMMENT_START || line == SECTION_START || line == TITLE_START
  }

  predicate IsRegionStart(line: string) {
    IsCellStart(line) || line == INPUT_START
  }

  function CellKind(start: string): Kind
    requires IsCellStart(start)
  {
    if start == COMMENT_START then Comment else if start == SECTION_START then Section else Title
  }

  function CellEnd(start: string): string
    requires IsCellStart(start)
  {
    if start == COMMENT_START then COMMENT_END else if start == SECTION_START then SECTION_END else TITLE_END
  }

  /**
    * The inner loop of HandleMainPrompt, entered with the first line after a start
    * marker at index q: it collects lines up to the end marker and answers them with
    * the index after the last line it read. A line is collected only while another line
    * follows it, so the last line of the file is never part of a region.
    */
  function Region(lines: seq<string>, q: nat, end: string): (r: (seq<string>, nat))
    requires q < |lines|
    decreases |lines| - q
    ensures q < r.1 <= |lines|
    ensures r.0 == lines[q..r.1 - 1]
    ensures forall k :: 0 <= k < |r.0| ==> r.0[k] != end
    ensures lines[r.1 - 1] == end || r.1 == |lines|
  {
    if lines[q] == end || q + 1 >= |lines| then ([], q + 1)
    else
      var rest := Region(lines, q + 1, end);
      ([lines[q]] + rest.0, rest.1)
  }

  /** The collected lines joined by newlines, as the inner loop builds them. */
  function Join(xs: seq<string>): string
    decreases |xs|
  {
    if xs == [] then ""
    else if |xs| == 1 then xs[0]
    else Join(xs[..|xs| - 1]) + "\n" + xs[|xs| - 1]
  }

  /** No line of a text file holds a newline. */
  predicate SingleLines(xs: seq<string>) {
    forall k :: 0 <= k < |xs| ==> '\n' !in xs[k]
  }

  /**
    * Joining is undone by cutting at the newlines: the lines of a region reach Maxima
    * exactly as they stand in the file.
    */
  lemma {:induction false} JoinSplit(xs: seq<string>)
    requires |xs| > 0 && SingleLines(xs)
    ensures SplitOn(Join(xs), "\n") == (xs[..|xs| - 1], xs[|xs| - 1])
    decreases |xs|
  {
    if |xs| == 1 {
      NoNewline(xs[0]);
    } else {
      var init, last := xs[..|xs| - 1], xs[|xs| - 1];
      assert SingleLines(init) by {
        forall k | 0 <= k < |init| ensures '\n' !in init[k] { assert init[k] == xs[k]; }
      }
      JoinSplit(init);
      var y := init[|init| - 1];
      JoinSplitStep(Join(init), init[..|init| - 1], y, last);
      assert init[..|init| - 1] + [y] == init;
    }
  }

  /** Appending a newline and a line to joined text adds one piece. */
  lemma {:induction false} JoinSplitStep(j: string, p: seq<string>, y: string, last: string)
    requires SplitOn(j, "\n") == (p, y) && '\n' !in y && '\n' !in last
    ensures SplitOn(j + "\n" + last, "\n") == (p + [y], last)
  {
    assert j + "\n" + last == j + ("\n" + last);
    SplitOnAppend(j, "\n" + last, "\n");
    assert y + ("\n" + last) == y + "\n" + last;
    SplitLastLine(y, last);
  }

  lemma {:induction false} NoNewline(x: string)
    requires '\n' !in x
    ensures !Contains(x, "\n")
  {
    forall i: nat | i <= |x| ensures !OccursAt(x, "\n", i) {
      if i < |x| {
        assert x[i..i + 1][0] == x[i] != '\n';
      }
    }
  }

  /** Two lines without a newline, joined by one, are cut back into the two. */
  lemma {:induction false} SplitLastLine(y: string, last: string)
    requires '\n' !in y && '\n' !in last
    ensures SplitOn(y + "\n" + last, "\n") == ([y], last)
  {
    var buf := y + "\n" + last;
    assert SplitOn(last, "\n") == ([], last) by { NoNewline(last); }
    assert Find(buf, "\n") == |y| by {
      NoNewline(y);
      FindAfter(y, "\n", last);
    }
    assert buf[..|y|] == y && buf[|y| + 1..] == last;
    SplitOnAt(buf, "\n", |y|, y, last);
    assert [y] + [] == [y];
  }

  /**
    * What one call of HandleMainPrompt does with the stored lines: the entries it shows,
    * the command it sends (at most one), and the new cursor.
    */
  datatype Replayed = Replayed(shown: seq<Entry>, command: Option<string>, next: nat)

  /**
    * One region read, entered with the cursor at `q`, just after a start marker: the
    * joined lines and the cursor after it. A start marker on the last line makes the
    * source read one element past the end of the array; the model takes that read to
    * return some text, which leaves an empty region and the cursor one past the line
    * count whatever the text is.
    */
  function RegionRead(lines: seq<string>, q: nat, end: string): (r: (string, nat))
    ensures q < r.1
  {
    if q < |lines| then
      var region := Region(lines, q, end);
      (Join(region.0), region.1)
    else ("", q + 1)
  }

  /**
    * The outer loop of HandleMainPrompt from cursor `pos`, with `o` the prompt that
    * arrived. Comment, section and title regions are shown after a comment-opening prompt; an input
    * region is sent after the prompt is shown, and ends the call; other lines are
    * skipped; when the lines run out the prompt is shown.
    */
  function Replay(lines: seq<string>, pos: nat, o: string): (r: Replayed)
    decreases |lines| - pos
  {
    if pos >= |lines| then Replayed([Raw(MainPrompt, o)], None, pos)
    else
      var line := lines[pos];
      if IsCellStart(line) then
        var read := RegionRead(lines, pos + 1, CellEnd(line));
        var rest := Replay(lines, read.1, o);
        Replayed([Raw(MainPrompt, COMMENT_PREFIX), Raw(CellKind(line), read.0)] + rest.shown, rest.command, rest.next)
      else if line == INPUT_START then
        var read := RegionRead(lines, pos + 1, INPUT_END);
        Replayed([Raw(MainPrompt, o)], Some(read.0), read.1)
      else Replay(lines, pos + 1, o)
  }

  /**
    * The cursor moves forward, by at least one line when there was one to read, and
    * passes the line count only by the one-element overrun of a trailing start marker.
    */
  lemma {:induction false} ReplayAdvances(lines: seq<string>, pos: nat, o: string)
    requires pos <= |lines|
    ensures var r := Replay(lines, pos, o);
      pos <= r.next <= |lines| + 1 && (pos < |lines| ==> pos < r.next)
      && (r.next == |lines| + 1 <==> (|lines| > 0 && IsRegionStart(lines[|lines| - 1]) && ReachesLast(lines, pos)))
      && (r.command == None ==> r.next >= |lines|)
    decreases |lines| - pos
  {
    if pos < |lines| {
      var line, q := lines[pos], pos + 1;
      if IsCellStart(line) && q < |lines| {
        ReplayAdvances(lines, Region(lines, q, CellEnd(line)).1, o);
      } else if !IsRegionStart(line) {
        ReplayAdvances(lines, q, o);
      }
    }
  }

  /**
    * The walk from `pos` reaches the last line as a line of its own (not inside a
    * region): the only way a trailing start marker is read as a marker.
    */
  predicate ReachesLast(lines: seq<string>, pos: nat)
    decreases |lines| - pos
  {
    if pos >= |lines| then false
    else if pos == |lines| - 1 then true
    else
      var line := lines[pos];
      if IsCellStart(line) then ReachesLast(lines, Region(lines, pos + 1, CellEnd(line)).1)
      else if line == INPUT_START then false
      else ReachesLast(lines, pos + 1)
  }

  /** Every call ends by showing the prompt that arrived, exactly once and last. */
  lemma {:induction false} ReplayShowsPromptLast(lines: seq<string>, pos: nat, o: string)
    ensures var r := Replay(lines, pos, o);
      |r.shown| > 0 && r.shown[|r.shown| - 1] == Raw(MainPrompt, o)
      && forall k :: 0 <= k < |r.shown| - 1 ==> r.shown[k] != Raw(MainPrompt, o) || o == COMMENT_PREFIX
    decreases |lines| - pos
  {
    if pos < |lines| {
      var line, q := lines[pos], pos + 1;
      if IsCellStart(line) && q < |lines| {
        ReplayShowsPromptLast(lines, Region(lines, q, CellEnd(line)).1, o);
      } else if !IsRegionStart(line) {
        ReplayShowsPromptLast(lines, q, o);
      }
    }
  }

  /** Lines that hold no start marker are all skipped: only the prompt is shown, nothing is sent. */
  lemma {:induction false} ReplaySkipsPlainLines(lines: seq<string>, pos: nat, o: string)
    requires pos <= |lines|
    requires forall k :: pos <= k < |lines| ==> !IsRegionStart(lines[k])
    ensures Replay(lines, pos, o) == Replayed([Raw(MainPrompt, o)], None, |lines|)
    decreases |lines| - pos
  {
    if pos < |lines| {
      ReplaySkipsPlainLines(lines, pos + 1, o);
    }
  }

  /**
    * A sent command is an input region of the file: the lines after an input start
    * marker, up to the end marker or the end of the file, joined by newlines.
    */
  lemma {:induction false} ReplaySendsRegion(lines: seq<string>, pos: nat, o: string)
    requires pos <= |lines|
    ensures var r := Replay(lines, pos, o);
      r.command.Some? && r.next <= |lines| ==>
        exists start :: pos <= start < r.next - 1 && lines[start] == INPUT_START
          && r.command.value == Join(lines[start + 1..r.next - 1])
          && (lines[r.next - 1] == INPUT_END || r.next == |lines|)
    decreases |lines| - pos
  {
    if pos < |lines| {
      var line, q := lines[pos], pos + 1;
      if IsCellStart(line) && q < |lines| {
        ReplaySendsRegion(lines, Region(lines, q, CellEnd(line)).1, o);
      } else if line == INPUT_START && q < |lines| {
        InputRegionSent(lines, pos, o);
      } else if !IsRegionStart(line) {
        ReplaySendsRegion(lines, q, o);
      }
    }
  }

  lemma {:induction false} InputRegionSent(lines: seq<string>, pos: nat, o: string)
    requires pos + 1 < |lines| && lines[pos] == INPUT_START
    ensures var r := Replay(lines, pos, o);
      r.command == Some(Join(lines[pos + 1..r.next - 1])) && pos + 1 < r.next <= |lines|
      && (lines[r.next - 1] == INPUT_END || r.next == |lines|)
  {
  }
}
