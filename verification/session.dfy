/**
  * The wxMaxima frame as an object: the members the session protocol engine updates in
  * place, and its member functions as methods. Each method is proved to do to the
  * object's snapshot (Model) what the matching step of the Protocol module describes.
  */
module Sessions {
  import opened Options
  import opened WxText
  import opened InputText
  import opened Segments
  import opened Batch
  import opened Rules
  import opened Protocol

  /** One round of ConsoleAppend's loop, as MathSplit unfolds it. */
  lemma {:induction false} MathSplitStep(s: string, rest: string)
    requires s != [] && rest == MathCut(s).1
    ensures MathSplit(s) == MathCut(s).0 + MathSplit(rest)
  {
  }

  /** MathCut for a text whose math block opens at `start` and ends before `end + 1`. */
  lemma {:induction false} MathCutAt(s: string, start: nat, pre: string, end: int, block: string)
    requires |s| > 0 && start == Find(s, MATH_OPEN) && pre == SubString(s, 0, start - 1)
    requires end == (if Find(s, MATH_CLOSE) == -1 then |s| else Find(s, MATH_CLOSE) + 5)
    requires block == SubString(s, start, end)
    ensures MathCut(s) == ((if !IsBlank(pre) then [Raw(Text, pre)] else []) + [Markup(Text, "<span>" + block + "</span>")],
                           SubString(s, end + 1, |s|))
  {
  }

  lemma {:induction false} AppendAssoc<T>(a: seq<T>, b: seq<T>, c: seq<T>, d: seq<T>)
    requires d == b + c
    ensures a + b + c == a + d
  {
  }

  /** Once the variables are set up, SendMaxima is the connection test and the write. */
  lemma {:induction false} SendStepPrepared(env: Env, st: State, s: string, clear: bool, out: bool, silent: bool, split: bool)
    requires st.link.variablesOK
    ensures SendStep(env, st, s, clear, out, silent, split) == SendPrepared(env, st, s, clear, out, silent, split)
  {
  }

  /** The set-up commands are sent first to last. */
  lemma {:induction false} SendAllFirst(env: Env, st: State, cmds: seq<string>, c: string, rest: seq<string>)
    requires cmds == [c] + rest
    ensures SendAll(env, st, cmds) == SendAll(env, SendPrepared(env, st, c, false, false, false, true), rest)
  {
    assert cmds[1..] == rest;
  }

  /** The part of TransmitStep before the history and the write. */
  function TransmitEcho(env: Env, st: State, text: string, clear: bool, out: bool, split: bool): State {
    var st1 := if clear then st.(doc := st.doc.(inputLine := "")) else st;
    if out then RawAppendStep(env, st1, if split then Wrapped(text) else text, Input) else st1
  }

  /** One more line of the region is collected: the rest of the region starts one line later. */
  lemma {:induction false} RegionStep(lines: seq<string>, q: nat, p: nat, end: string, collected: seq<string>)
    requires q <= p && p + 1 < |lines| && lines[p] != end
    requires Region(lines, q, end) == (collected + Region(lines, p, end).0, Region(lines, p, end).1)
    ensures Region(lines, q, end) == ((collected + [lines[p]]) + Region(lines, p + 1, end).0, Region(lines, p + 1, end).1)
  {
    var rest := Region(lines, p + 1, end);
    assert Region(lines, p, end) == ([lines[p]] + rest.0, rest.1);
    AppendAssoc(collected, [lines[p]], rest.0, [lines[p]] + rest.0);
  }

  /**
    * HandleMainPrompt's inner loop, entered with the cursor on the first line after a
    * start marker: lines are joined by newlines up to the end marker, and the loop stops
    * early on the last line of the file. Answers the text and the cursor after the last
    * line read.
    */
  method CollectRegion(lines: seq<string>, q: nat, end: string) returns (input: string, next: nat)
    requires q < |lines|
    ensures (input, next) == RegionRead(lines, q, end)
  {
    next := q;
    var line := lines[next];
    next := next + 1;
    var newline := false;
    input := "";
    ghost var collected: seq<string> := [];
    assert collected + Region(lines, q, end).0 == Region(lines, q, end).0;
    while line != end && next < |lines|
      invariant q < next <= |lines| && line == lines[next - 1]
      invariant input == Join(collected) && newline == (collected != [])
      invariant Region(lines, q, end) == (collected + Region(lines, next - 1, end).0, Region(lines, next - 1, end).1)
      decreases |lines| - next
    {
      if newline {
        input := input + "\n" + line;
      } else {
        input := line;
        newline := true;
      }
      JoinSnoc(collected, line);
      RegionStep(lines, q, next - 1, end, collected);
      collected := collected + [line];
      line := lines[next];
      next := next + 1;
    }
    assert collected + [] == collected;
  }

  /** Joining one more line adds it after a newline, unless it is the first. */
  lemma {:induction false} JoinSnoc(xs: seq<string>, x: string)
    ensures Join(xs + [x]) == if xs == [] then x else Join(xs) + "\n" + x
  {
    assert (xs + [x])[..|xs|] == xs;
  }

  /**
    * The wxMaxima frame. Its m_* members are kept in five records, as the Protocol
    * module groups them: the link to Maxima, the output reader's buffer and flags, the
    * document, the batch recording, and the logs that stand for the console, the socket,
    * the input history, the signals sent and the processes launched.
    */
  class Session {
    const env: Env
    var link: Link
    var reader: Reader
    var doc: Doc
    var batch: Recording
    var logs: Logs

    function Model(): State
      reads this
    {
      State(link, reader, doc, batch, logs)
    }

    /**
      * The frame's constructor. The connection flag, the at-prompt flag and the
      * reading-prompt flag are never initialised there, so their first values are
      * parameters; the font size is the configured one.
      */
    constructor (env: Env, fontSize: int, isConnected: bool, inPrompt: bool, readingPrompt: bool)
      ensures this.env == env
      ensures Model() == State(Link(4010, -1, true, isConnected, false, false, false, false),
                               Reader("", readingPrompt, false, false, inPrompt, ""),
                               Doc(fontSize, true, "", "", "wxMaxima", ""),
                               Recording([], 0), Logs([], [], [], [], []))
    {
      this.env := env;
      link := Link(4010, -1, true, isConnected, false, false, false, false);
      reader := Reader("", readingPrompt, false, false, inPrompt, "");
      doc := Doc(fontSize, true, "", "", "wxMaxima", "");
      batch := Recording([], 0);
      logs := Logs([], [], [], [], []);
    }

    /** The file named on the command line, opened once the first prompt arrives. */
    method SetOpenFile(file: string)
      modifies this
      ensures Model() == old(Model()).(doc := old(Model()).doc.(openFile := file))
    {
      doc := doc.(openFile := file);
    }

    /** What the user has typed in the input line. */
    method SetInputLine(text: string)
      modifies this
      ensures Model() == old(Model()).(doc := old(Model()).doc.(inputLine := text))
    {
      doc := doc.(inputLine := text);
    }

    method ResetTitle(saved: bool)
      modifies this
      ensures Model() == ResetTitleStep(env, old(Model()), saved)
    {
      if |doc.currentFile| == 0 {
        doc := doc.(title := UnsavedTitle(env.version));
      } else if doc.fileSaved != saved {
        doc := doc.(fileSaved := saved, title := FileTitle(env.version, doc.currentFile, saved));
      }
    }

    method DoRawConsoleAppend(s: string, kind: Kind)
      modifies this
      ensures Model() == RawAppendStep(env, old(Model()), s, kind)
      ensures !IsEditorKind(kind) ==> Model() == Show(old(Model()), Raw(kind, s))
    {
      if IsEditorKind(kind) {
        ResetTitle(false);
      }
      logs := logs.(console := logs.console + [Raw(kind, s)]);
    }

    method DoConsoleAppend(s: string, kind: Kind)
      modifies this
      ensures Model() == Show(old(Model()), Markup(kind, s))
    {
      logs := logs.(console := logs.console + [Markup(kind, s)]);
    }

    method ConsoleAppend(s: string, kind: Kind)
      modifies this
      ensures Model() == ConsoleAppendStep(env, old(Model()), s, kind)
    {
      reader := reader.(inPrompt := false);
      var text := ReplaceAll(s, PROMPT_SUFFIX, "");
      var blank := TrimsToEmpty(text);
      if !blank {
        AppendEntries(text, kind);
      }
    }

    /** The entries ConsoleAppend adds for a text that is not blank, by kind. */
    method AppendEntries(text: string, kind: Kind)
      requires !reader.inPrompt
      modifies this
      ensures logs == old(logs).(console := old(logs.console) + AppendedEntries(text, kind))
      ensures reader == if kind == Prompt then old(reader).(lastPrompt := text, inPrompt := PromptViewOf(text).atPrompt)
                        else old(reader)
      ensures link == old(link) && doc == old(doc) && batch == old(batch)
    {
      if kind == Text {
        AppendText(text);
      } else if kind == Input {
      } else if kind == Prompt {
        AppendPrompt(text);
      } else if kind == Error {
        DoRawConsoleAppend(text, Error);
      } else {
        DoConsoleAppend("<span>" + text + "</span>", kind);
      }
    }

    /** ConsoleAppend for a prompt: it is remembered and shown, and decides whether input is at a prompt. */
    method AppendPrompt(text: string)
      requires !reader.inPrompt
      modifies this
      ensures Model() == old(Model()).(reader := old(reader).(lastPrompt := text, inPrompt := PromptViewOf(text).atPrompt),
                                       logs := old(logs).(console := old(logs.console) + AppendedEntries(text, Prompt)))
    {
      ghost var view := PromptViewOf(text);
      reader := reader.(lastPrompt := text);
      var shown := text;
      var k := Prompt;
      if StartsWith(text, "(%i") || text == COMMENT_PREFIX {
        assert view == PromptView(MainPrompt, text, true);
        reader := reader.(inPrompt := true);
        k := MainPrompt;
      } else if StartsWith(text, LISP_PROMPT_LABEL) {
        assert view == PromptView(Prompt, Right(text, 8), true);
        reader := reader.(inPrompt := true);
        shown := Right(text, 8);
      } else {
        assert view == PromptView(Prompt, text + " ", false);
        shown := text + " ";
      }
      DoConsoleAppend("<span>" + shown + "</span>", k);
    }

    /** ConsoleAppend's loop over a text output, cutting it at math blocks. */
    method AppendText(text: string)
      modifies this
      ensures Model() == old(Model()).(logs := old(logs).(console := old(logs.console) + MathSplit(text)))
    {
      var s := text;
      while |s| > 0
        invariant Model() == old(Model()).(logs := old(logs).(console := logs.console))
        invariant logs.console + MathSplit(s) == old(logs.console) + MathSplit(text)
        decreases |s|
      {
        ghost var before, s0 := logs.console, s;
        s := AppendCut(s);
        MathSplitStep(s0, s);
        AppendAssoc(before, MathCut(s0).0, MathSplit(s), MathSplit(s0));
      }
    }

    /** One round of the loop: the text before the next math block, the block, and what follows. */
    method AppendCut(s: string) returns (rest: string)
      requires |s| > 0
      modifies this
      ensures Model() == old(Model()).(logs := old(logs).(console := old(logs.console) + MathCut(s).0))
      ensures rest == MathCut(s).1
    {
      var start := Find(s, MATH_OPEN);
      if start == -1 {
        AppendLead(s);
        rest := "";
      } else {
        rest := AppendMath(s, start);
      }
    }

    /** The round of the loop for a text holding a math block that opens at `start`. */
    method AppendMath(s: string, start: nat) returns (rest: string)
      requires |s| > 0 && start == Find(s, MATH_OPEN)
      modifies this
      ensures Model() == old(Model()).(logs := old(logs).(console := old(logs.console) + MathCut(s).0))
      ensures rest == MathCut(s).1
    {
      var pre := SubString(s, 0, start - 1);
      var end := Find(s, MATH_CLOSE);
      if end == -1 {
        end := |s|;
      } else {
        end := end + 5;
      }
      var block := SubString(s, start, end);
      ghost var before := logs.console;
      ghost var lead := if !IsBlank(pre) then [Raw(Text, pre)] else [];
      MathCutAt(s, start, pre, end, block);
      AppendLead(pre);
      DoConsoleAppend("<span>" + block + "</span>", Text);
      AppendAssoc(before, lead, [Markup(Text, "<span>" + block + "</span>")], MathCut(s).0);
      rest := SubString(s, end + 1, |s|);
    }

    /** The text in front of a math block, shown as plain text unless it is blank. */
    method AppendLead(pre: string)
      modifies this
      ensures Model() == old(Model()).(logs := old(logs).(console := old(logs.console) + if !IsBlank(pre) then [Raw(Text, pre)] else []))
    {
      var blank := TrimsToEmpty(pre);
      if !blank {
        DoRawConsoleAppend(pre, Text);
      } else {
        assert logs.console + [] == logs.console;
      }
    }

    /**
      * SendMaxima: the command is written to Maxima unless it is not connected; the
      * first command after a start is preceded by the set-up commands.
      */
    method SendMaxima(s: string, clear: bool, out: bool, silent: bool, split: bool)
      modifies this
      ensures Model() == SendStep(env, old(Model()), s, clear, out, silent, split)
      ensures old(link.variablesOK) ==> link.variablesOK
      decreases if link.variablesOK then 0 else 2
    {
      if !link.isConnected {
        ConsoleAppend(NOT_CONNECTED, Error);
        return;
      }
      if !link.variablesOK {
        link := link.(variablesOK := true);
        SetupVariables();
      }
      Transmit(s, clear, out, silent, split);
    }

    /** SendMaxima from the rewriting of the text on: the echo, the history and the write. */
    method Transmit(s: string, clear: bool, out: bool, silent: bool, split: bool)
      modifies this
      ensures Model() == TransmitStep(env, old(Model()), s, clear, out, silent, split)
    {
      var text := CommandText(s);
      Echo(text, clear, out, split);
      if silent {
        logs := logs.(history := logs.history + [text]);
      }
      logs := logs.(sent := logs.sent + [text + "\n"]);
    }

    /** The input line is cleared and the command shown, as the flags ask. */
    method Echo(text: string, clear: bool, out: bool, split: bool)
      modifies this
      ensures Model() == TransmitEcho(env, old(Model()), text, clear, out, split)
    {
      if clear {
        doc := doc.(inputLine := "");
      }
      if out {
        var shown := text;
        if split {
          shown := SplitInput(text);
        }
        DoRawConsoleAppend(shown, Input);
      }
    }

    /**
      * SetupVariables: the five set-up commands, each sent without echo, in order (the
      * source writes the five calls out; here they run over the list of commands).
      */
    method SetupVariables()
      requires link.variablesOK
      modifies this
      ensures Model() == SetupStep(env, old(Model()))
      ensures link.variablesOK
      decreases 1
    {
      var cmds := SetupCommands(PROMPT_SUFFIX, PROMPT_PREFIX, env.prefix);
      ghost var target := SetupStep(env, Model());
      var k := 0;
      while k < |cmds|
        invariant 0 <= k <= |cmds| && link.variablesOK
        invariant SendAll(env, Model(), cmds[k..]) == target
      {
        SendAllFirst(env, Model(), cmds[k..], cmds[k], cmds[k + 1..]);
        SendStepPrepared(env, Model(), cmds[k], false, false, false, true);
        SendMaxima(cmds[k], false, false, false, true);
        k := k + 1;
      }
    }

    /**
      * HandleMainPrompt: the prompt is remembered; without batch lines it is shown,
      * otherwise the replay runs from the cursor, and once the cursor reaches the line
      * count the document counts as saved and the lines are dropped.
      */
    method HandleMainPrompt(o: string)
      modifies this
      ensures Model() == MainPromptStep(env, old(Model()), o)
    {
      reader := reader.(lastPrompt := o);
      if |batch.lines| == 0 {
        DoRawConsoleAppend(o, MainPrompt);
        return;
      }
      ReplayLoop(o);
      EndReplay();
    }

    /** Once the cursor reaches the line count, the document counts as saved and the lines are dropped. */
    method EndReplay()
      modifies this
      ensures Model() == if |old(batch.lines)| <= old(batch.pos) then ResetTitleStep(env, old(Model()), true).(batch := Recording([], 0))
                         else old(Model())
    {
      if |batch.lines| <= batch.pos {
        ResetTitle(true);
        batch := batch.(pos := 0);
        batch := batch.(lines := []);
      }
    }

    /** HandleMainPrompt's outer loop: lines are taken until an input region is sent or none are left. */
    method ReplayLoop(o: string)
      modifies this
      ensures Model() == ReplayFrom(env, old(Model()), o)
    {
      ghost var target := ReplayFrom(env, Model(), o);
      var done := false;
      while !done && batch.pos < |batch.lines|
        invariant batch.lines == old(batch.lines)
        invariant done ==> Model() == target
        invariant !done ==> ReplayFrom(env, Model(), o) == target
        decreases !done, |batch.lines| + 1 - batch.pos
      {
        done := ReplayLine(o);
      }
      if !done {
        ReplayAtEnd(env, Model(), o);
        DoRawConsoleAppend(o, MainPrompt);
      }
    }

    /**
      * One round of the outer loop: a comment, section or title region is shown, an
      * input region is sent after the prompt (and ends the loop), any other line is
      * skipped.
      */
    method ReplayLine(o: string) returns (done: bool)
      requires batch.pos < |batch.lines|
      modifies this
      ensures batch.lines == old(batch.lines) && old(batch.pos) < batch.pos
      ensures done ==> Model() == ReplayFrom(env, old(Model()), o)
      ensures !done ==> ReplayFrom(env, Model(), o) == ReplayFrom(env, old(Model()), o)
    {
      var line := batch.lines[batch.pos];
      done := false;
      if IsCellStart(line) {
        ReplayCell(o);
      } else if line == INPUT_START {
        ReplayInput(o);
        done := true;
      } else {
        ReplayPlainStep(env, Model(), o);
        batch := batch.(pos := batch.pos + 1);
      }
    }

    /** A comment, section or title region: the opening prompt and the region's text are shown. */
    method ReplayCell(o: string)
      requires batch.pos < |batch.lines| && IsCellStart(batch.lines[batch.pos])
      modifies this
      ensures batch.lines == old(batch.lines) && old(batch.pos) < batch.pos
      ensures ReplayFrom(env, Model(), o) == ReplayFrom(env, old(Model()), o)
    {
      ghost var st := Model();
      var line := batch.lines[batch.pos];
      DoRawConsoleAppend(COMMENT_PREFIX, MainPrompt);
      var input, next := ReadRegion(batch.pos + 1, CellEnd(line));
      DoRawConsoleAppend(input, CellKind(line));
      batch := batch.(pos := next);
      ReplayCellStep(env, st, o, line, (input, next), Model());
    }

    /** An input region: the prompt is shown and the region sent. */
    method ReplayInput(o: string)
      requires batch.pos < |batch.lines| && batch.lines[batch.pos] == INPUT_START
      modifies this
      ensures batch.lines == old(batch.lines) && old(batch.pos) < batch.pos
      ensures Model() == ReplayFrom(env, old(Model()), o)
    {
      ghost var st := Model();
      DoRawConsoleAppend(o, MainPrompt);
      var input, next := ReadRegion(batch.pos + 1, INPUT_END);
      batch := batch.(pos := next);
      ReplayInputStep(env, st, o, input, next, Model());
      SendStepFrame(env, Model(), input, true, true, true, false);
      SendMaxima(input, true, true, true, false);
    }

    /** The region after a start marker; past the end of the lines, the empty text. */
    method ReadRegion(q: nat, end: string) returns (input: string, next: nat)
      ensures (input, next) == RegionRead(batch.lines, q, end)
    {
      if q < |batch.lines| {
        input, next := CollectRegion(batch.lines, q, end);
      } else {
        input, next := "", q + 1;
      }
    }

    /** ReadMath: prompt prefixes are drained; math blocks only while no prompt is being read. */
    method ReadMath()
      modifies this
      ensures Model() == MathStep(env, old(Model()))
    {
      DrainPrefixes();
      if reader.readingPrompt {
        return;
      }
      DrainMath();
    }

    /** ReadMath's first loop: the text before each prompt prefix is shown, and a prompt is being read. */
    method DrainPrefixes()
      modifies this
      ensures Model() == PrefixDrain(env, old(Model()))
    {
      var end := Find(reader.buffer, PROMPT_PREFIX);
      while end > -1
        invariant end == Find(reader.buffer, PROMPT_PREFIX)
        invariant PrefixDrain(env, Model()) == PrefixDrain(env, old(Model()))
        decreases |reader.buffer|
      {
        reader := reader.(readingPrompt := true);
        var o := reader.buffer[..end];
        ConsoleAppend(o, Text);
        reader := reader.(buffer := SubString(reader.buffer, end + |PROMPT_PREFIX|, |reader.buffer|));
        end := Find(reader.buffer, PROMPT_PREFIX);
      }
    }

    /** ReadMath's second loop: each complete math block is shown with its close marker. */
    method DrainMath()
      modifies this
      ensures Model() == CloseDrain(env, old(Model()))
    {
      var end := Find(reader.buffer, MATH_CLOSE);
      while end > -1
        invariant end == Find(reader.buffer, MATH_CLOSE)
        invariant CloseDrain(env, Model()) == CloseDrain(env, old(Model()))
        decreases |reader.buffer|
      {
        var o := reader.buffer[..end];
        ConsoleAppend(o + MATH_CLOSE, Text);
        reader := reader.(buffer := SubString(reader.buffer, end + |MATH_CLOSE|, |reader.buffer|));
        end := Find(reader.buffer, MATH_CLOSE);
      }
    }

    /** ReadPrompt: at most one prompt is taken from the buffer. */
    method ReadPrompt()
      modifies this
      ensures Model() == PromptStep(env, old(Model()))
    {
      var end := Find(reader.buffer, PROMPT_SUFFIX);
      if end > -1 {
        reader := reader.(readingPrompt := false);
        var o := reader.buffer[..end];
        if o != "\n" && |o| > 0 {
          ShowPrompt(o);
          if StartsWith(o, LISP_MODE_PROMPT) {
            reader := reader.(inLispMode := true);
          } else {
            reader := reader.(inLispMode := false);
          }
        }
        reader := reader.(buffer := SubString(reader.buffer, end + |PROMPT_SUFFIX|, |reader.buffer|));
      }
    }

    /** ReadPrompt's handling of a main prompt, a prompt holding markup, or another prompt. */
    method ShowPrompt(o: string)
      modifies this
      ensures Model() == ShowPromptStep(env, old(Model()), o)
    {
      if StartsWith(o, "(%i") {
        if reader.inInsertMode {
          reader := reader.(inInsertMode := false, lastPrompt := o);
        } else {
          HandleMainPrompt(o);
        }
      } else if Find(o, "<mth>") > -1 {
        DoConsoleAppend(o, Prompt);
      } else {
        DoRawConsoleAppend(o, Prompt);
      }
    }

    /** ReadLispError: gcl's error banner switches to lisp mode and empties the buffer. */
    method ReadLispError()
      modifies this
      ensures Model() == LispStep(env, old(Model()))
    {
      var end := Find(reader.buffer, LISP_ERROR);
      if end > -1 {
        reader := reader.(readingPrompt := false, inLispMode := true);
        var o := reader.buffer[..end];
        ConsoleAppend(o, Text);
        ConsoleAppend(LISP_ERROR, Prompt);
        reader := reader.(buffer := "");
      }
    }

    /**
      * ReadFirstPrompt: the process id after "pid=" is read (only when the tag is
      * there), the interrupt item follows it, a pending file is opened and the buffer
      * emptied.
      */
    method ReadFirstPrompt(files: map<string, seq<string>>)
      modifies this
      ensures Model() == FirstPromptStep(env, old(Model()), files)
    {
      ReadPid();
      if link.pid > 0 {
        link := link.(interruptEnabled := true);
      }
      link := link.(first := false);
      reader := reader.(inLispMode := false);
      if |doc.openFile| > 0 {
        OpenFile(doc.openFile, "", files);
        doc := doc.(openFile := "");
      }
      reader := reader.(buffer := "");
    }

    /** ReadFirstPrompt's reading of the process id (Rules.AnnouncedPid). */
    method ReadPid()
      modifies this
      ensures Model() == old(Model()).(link := old(link).(pid := AnnouncedPid(reader.buffer, old(link.pid))))
    {
      link := link.(pid := AnnouncedPid(reader.buffer, link.pid));
    }

    /** ClientEvent on input: the chunk is added to the buffer and the readers run in order. */
    method ClientInput(chunk: string, files: map<string, seq<string>>)
      modifies this
      ensures Model() == ChunkStep(env, old(Model()), chunk, files)
    {
      reader := reader.(buffer := reader.buffer + chunk);
      if link.first && Find(reader.buffer, FIRST_PROMPT) > -1 {
        ReadFirstPrompt(files);
      }
      ReadMath();
      ReadPrompt();
      ReadLispError();
    }

    /**
      * ClientEvent and ServerEvent on a lost connection (`message` is the one of the
      * socket that was lost): the user is told unless the window is closing, and the
      * process is forgotten.
      */
    method ConnectionLost(message: string)
      modifies this
      ensures Model() == LostStep(env, old(Model()), message)
    {
      if !link.closing {
        ConsoleAppend(message, Error);
      }
      link := link.(pid := -1);
      link := link.(interruptEnabled := false);
      link := link.(isConnected := false);
    }

    /**
      * ServerEvent on a connection, with `output` what Maxima printed on its standard
      * output so far: the banner from "Maxima" on opens the console.
      */
    method Accept(output: string)
      modifies this
      ensures Model() == AcceptStep(env, old(Model()), output)
    {
      link := link.(isConnected := true);
      var at := Find(output, "Maxima");
      if at == -1 {
        at := 0;
      }
      FirstOutput("wxMaxima " + env.version + HOME_PAGE + SubString(output, at, |output| - 1));
      reader := reader.(inPrompt := true);
    }

    /** FirstOutput: the console is cleared, the header shown when configured, and the first prompt handled. */
    method FirstOutput(s: string)
      modifies this
      ensures Model() == FirstOutputStep(env, old(Model()), s)
    {
      var start := Find(s, FIRST_PROMPT);
      logs := logs.(console := []);
      if env.showHeader {
        DoRawConsoleAppend(COMMENT_PREFIX, MainPrompt);
        ConsoleAppend(SubString(s, 0, start - 1), Text);
      }
      HandleMainPrompt(FIRST_PROMPT);
    }

    /** StartServer, with `free` the ports that can be bound. */
    method StartServer(free: set<int>) returns (ok: bool)
      modifies this
      ensures (ok, Model()) == ServerStep(old(Model()), link.port, free)
      ensures ok <==> link.port in free
      ensures link == old(link).(isConnected := if ok then false else old(link.isConnected), isRunning := ok)
      ensures reader == old(reader) && doc == old(doc) && batch == old(batch) && logs == old(logs)
    {
      if link.port !in free {
        link := link.(isRunning := false);
        return false;
      }
      link := link.(isConnected := false, isRunning := true);
      ok := link.isRunning;
    }

    /**
      * InitSession: a server is started on the first free port from the configured one
      * on, and then Maxima is started.
      */
    method InitSession(free: set<int>)
      requires exists p :: p in free && p >= env.defaultPort
      modifies this
      ensures env.defaultPort <= link.port && link.port in free
      ensures forall p :: env.defaultPort <= p < link.port ==> p !in free
      ensures Model() == StartStep(env, old(Model()).(link := old(link).(port := link.port, isConnected := false, isRunning := true)))
    {
      FindPort(free);
      var started := StartMaxima();
    }

    /**
      * InitSession's loop: ports are tried upwards from the configured one until a
      * server starts. The loop gives up on no port, so a free port at or above the
      * configured one must exist.
      */
    method FindPort(free: set<int>)
      requires exists p :: p in free && p >= env.defaultPort
      modifies this
      ensures env.defaultPort <= link.port && link.port in free
      ensures forall p :: env.defaultPort <= p < link.port ==> p !in free
      ensures link == old(link).(port := link.port, isConnected := false, isRunning := true)
      ensures reader == old(reader) && doc == old(doc) && batch == old(batch) && logs == old(logs)
    {
      ghost var bound :| bound in free && bound >= env.defaultPort;
      link := link.(port := env.defaultPort);
      var server := StartServer(free);
      while !server
        invariant env.defaultPort <= link.port <= bound
        invariant forall p :: env.defaultPort <= p < link.port ==> p !in free
        invariant server <==> link.port in free
        invariant link.pid == old(link.pid) && link.first == old(link.first) && link.variablesOK == old(link.variablesOK)
        invariant link.closing == old(link.closing) && link.interruptEnabled == old(link.interruptEnabled)
        invariant link.isRunning == server
        invariant reader == old(reader) && doc == old(doc) && batch == old(batch) && logs == old(logs)
        invariant server ==> !link.isConnected
        decreases bound - link.port
      {
        link := link.(port := link.port + 1);
        server := StartServer(free);
      }
    }

    /** StartMaxima on the non-Windows branch; the command is never empty there, so it always starts. */
    method StartMaxima() returns (ok: bool)
      modifies this
      ensures ok
      ensures Model() == StartStep(env, old(Model()))
    {
      if link.isConnected {
        KillMaxima();
        link := link.(isConnected := false);
      }
      link := link.(variablesOK := false);
      var command := GetCommand(env.maxima, env.parameters);
      ok := |command| > 0;
      command := LaunchCommand(command, link.port);
      link := link.(first := true, interruptEnabled := false, pid := -1);
      logs := logs.(launches := logs.launches + [command]);
    }

    /** KillMaxima: without a process id Maxima is asked to quit, otherwise it is killed. */
    method KillMaxima()
      modifies this
      ensures Model() == KillStep(env, old(Model()))
    {
      if link.pid < 0 {
        if reader.inLispMode {
          SendMaxima("($quit)", false, false, true, true);
        } else {
          SendMaxima("quit();", false, false, true, true);
        }
        return;
      }
      logs := logs.(signals := logs.signals + [(link.pid, Signal.Kill)]);
    }

    /** The interrupt menu item: without a process id it is disabled, otherwise Maxima is interrupted. */
    method Interrupt()
      modifies this
      ensures Model() == InterruptStep(old(Model()))
    {
      if link.pid < 0 {
        link := link.(interruptEnabled := false);
        return;
      }
      logs := logs.(signals := logs.signals + [(link.pid, Signal.Interrupt)]);
    }

    /** OnClose and CleanUp: the session is closing and a connected Maxima is stopped. */
    method Close()
      modifies this
      ensures Model() == CloseStep(env, old(Model()))
    {
      link := link.(closing := true);
      if link.isConnected {
        KillMaxima();
      }
    }

    /** OpenFile, with `files` the text files that exist, as lines. */
    method OpenFile(file: string, cmd: string, files: map<string, seq<string>>)
      modifies this
      ensures Model() == OpenStep(env, old(Model()), file, cmd, files)
    {
      if |file| > 0 {
        if |cmd| > 0 {
          SendMaxima(Call(cmd, file), true, true, true, true);
        } else if Right(file, 4) == ".wxm" {
          var ok := ReadBatchFile(file, files);
          if !ok {
            SendMaxima(BatchCall(file), true, true, true, true);
          } else {
            var started := StartMaxima();
          }
        } else if Right(file, 4) == ".sav" {
          logs := logs.(console := []);
          SendMaxima(Call("loadsession", file), false, false, false, true);
        } else if Right(file, 4) == ".dem" {
          SendMaxima(Call("demo", file), true, true, true, true);
        } else {
          SendMaxima(Call("load", file), true, true, true, true);
        }
      }
    }

    /** ReadBatchFile, with `files` the text files that exist, as lines. */
    method ReadBatchFile(file: string, files: map<string, seq<string>>) returns (ok: bool)
      modifies this
      ensures (ok, Model()) == ReadBatchStep(old(Model()), file, files)
    {
      batch := batch.(lines := []);
      if file !in files {
        return false;
      }
      var lines := files[file];
      if |lines| == 0 || lines[0] != SIGNATURE {
        return false;
      }
      var k := 0;
      while k < |lines|
        invariant 0 <= k <= |lines| && batch == old(batch).(lines := lines[..k])
        invariant link == old(link) && reader == old(reader) && doc == old(doc) && logs == old(logs)
      {
        assert lines[..k + 1] == lines[..k] + [lines[k]];
        batch := batch.(lines := batch.lines + [lines[k]]);
        k := k + 1;
      }
      assert lines[..k] == lines;
      batch := batch.(pos := 0);
      doc := doc.(currentFile := file);
      ok := true;
    }

    /** EnterCommand: help and debug requests are not sent; any other input is terminated and sent. */
    method EnterCommand()
      modifies this
      ensures Model() == EnterStep(env, old(Model()))
    {
      EnterInput(Trim(doc.inputLine));
    }

    /** The rest of EnterCommand, with the input line trimmed to `input`. */
    method EnterInput(input: string)
      modifies this
      ensures Model() == EnterTrimmed(env, old(Model()), input)
    {
      if StartsWith(input, HELP_COMMAND) || input == "?" || input == DUMP_COMMAND {
        doc := doc.(inputLine := "");
        return;
      }
      var command := input;
      if !reader.inLispMode && (|input| == 0 || (input[|input| - 1] != ';' && input[|input| - 1] != '$')) {
        command := input + ";";
      }
      SendMaxima(command, true, true, true, true);
      doc := doc.(inputLine := "");
    }

    /** The font-size menu items: one point up while below 20, one point down while above 8. */
    method FontMenu(increase: bool)
      modifies this
      ensures Model() == old(Model()).(doc := old(doc).(fontSize := FontStep(old(doc.fontSize), increase)))
    {
      if increase {
        if doc.fontSize < MAX_FONT_SIZE {
          doc := doc.(fontSize := doc.fontSize + 1);
        }
      } else {
        if doc.fontSize > MIN_FONT_SIZE {
          doc := doc.(fontSize := doc.fontSize - 1);
        }
      }
    }
  }
}
