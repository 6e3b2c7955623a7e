/**
  * The session protocol engine as pure steps on a snapshot of the front end's state:
  * each function here is what one member function of the wxMaxima frame does to the
  * fields it owns, to the console it writes to and to the socket it writes on.
  */
module Protocol {
  import opened Options
  import opened WxText
  import opened InputText
  import opened Segments
  import opened Batch
  import opened Rules

  /**
    * What the session reads and never changes: the version shown in titles, the install
    * prefix, and the configuration entries for the Maxima program, its parameters, the
    * first port to try and whether the console starts with a header.
    */
  datatype Env = Env(version: string, prefix: string, maxima: Option<string>, parameters: string,
                     defaultPort: int, showHeader: bool)

  /** The signals the front end sends to the Maxima process. */
  datatype Signal = Interrupt | Kill

  /** The link to the Maxima process: the port, the process id and the connection flags. */
  datatype Link = Link(port: int, pid: int, first: bool, isConnected: bool, isRunning: bool,
                       variablesOK: bool, closing: bool, interruptEnabled: bool)

  /** What the output readers keep between chunks: the unread text and the prompt flags. */
  datatype Reader = Reader(buffer: string, readingPrompt: bool, inLispMode: bool, inInsertMode: bool,
                           inPrompt: bool, lastPrompt: string)

  /** The document and its window: font size, file names, title and the input line. */
  datatype Doc = Doc(fontSize: int, fileSaved: bool, openFile: string, currentFile: string,
                     title: string, inputLine: string)

  /** The lines of a batch file being replayed, and the cursor into them. */
  datatype Recording = Recording(lines: seq<string>, pos: nat)

  /**
    * What the engine leaves behind outside itself: the console, the commands written to
    * the socket, the input history, the signals sent and the processes launched.
    */
  datatype Logs = Logs(console: seq<Entry>, sent: seq<string>, history: seq<string>,
                       signals: seq<(int, Signal)>, launches: seq<string>)

  /**
    * The snapshot of the m_* members the engine reads and writes (with the font size
    * kept in the configuration), grouped by concern, and the logs.
    */
  datatype State = State(link: Link, reader: Reader, doc: Doc, batch: Recording, logs: Logs)

  /** The console with one more entry. */
  function Show(st: State, e: Entry): State {
    st.(logs := st.logs.(console := st.logs.console + [e]))
  }

  /** The same state reading from `buffer`. */
  function WithBuffer(st: State, buffer: string): State {
    st.(reader := st.reader.(buffer := buffer))
  }

  const NOT_CONNECTED := "\nNot connected to maxima!\n"
  const CLIENT_LOST := "\nCLIENT: Lost socket connection ...\nRestart maxima with 'Maxima->Restart maxima'.\n"
  const SERVER_LOST := "\nSERVER: Lost socket connection ...\nRestart maxima with 'Maxima->Restart maxima'.\n"
  const LISP_MODE_PROMPT := "\nMAXIMA>"
  const HELP_COMMAND := "? "
  const DUMP_COMMAND := "wxmaxima_debug_dump_output"
  const HOME_PAGE := " http://wxmaxima.sourceforge.net\n"

  /** ResetTitle: the title names the current file and marks unsaved changes. */
  function ResetTitleStep(env: Env, st: State, saved: bool): State {
    var doc := st.doc;
    if doc.currentFile == "" then st.(doc := doc.(title := UnsavedTitle(env.version)))
    else if doc.fileSaved != saved then
      st.(doc := doc.(fileSaved := saved, title := FileTitle(env.version, doc.currentFile, saved)))
    else st
  }

  /**
    * DoRawConsoleAppend: the text becomes one console entry; an editable cell (input,
    * comment, section, title) first marks the document as changed.
    */
  function RawAppendStep(env: Env, st: State, s: string, kind: Kind): State {
    var st1 := if IsEditorKind(kind) then ResetTitleStep(env, st, false) else st;
    Show(st1, Raw(kind, s))
  }

  /** One entry of HandleMainPrompt's replay: a raw append, or markup shown as it is. */
  function ShowOne(env: Env, st: State, e: Entry): State {
    match e
    case Raw(kind, text) => RawAppendStep(env, st, text, kind)
    case Markup(_, _) => Show(st, e)
  }

  /** The entries of HandleMainPrompt's replay, in order. */
  function ShowAll(env: Env, st: State, shown: seq<Entry>): State
    decreases |shown|
  {
    if shown == [] then st else ShowAll(env, ShowOne(env, st, shown[0]), shown[1..])
  }

  /**
    * ConsoleAppend: prompt suffixes are removed from the text; a blank text shows
    * nothing; otherwise its entries are added, and a prompt is remembered as the last
    * prompt and decides whether the input is at a prompt.
    */
  function ConsoleAppendStep(env: Env, st: State, s: string, kind: Kind): State {
    var text := ReplaceAll(s, PROMPT_SUFFIX, "");
    var reader :=
      if IsBlank(text) || kind != Prompt then st.reader.(inPrompt := false)
      else st.reader.(lastPrompt := text, inPrompt := PromptViewOf(text).atPrompt);
    var logs := if IsBlank(text) then st.logs else st.logs.(console := st.logs.console + AppendedEntries(text, kind));
    st.(reader := reader, logs := logs)
  }

  /** SendMaxima past the connection test and the set-up: the socket write and its echoes. */
  function TransmitStep(env: Env, st: State, s: string, clear: bool, out: bool, silent: bool, split: bool): State {
    var s1 := CommandText(s);
    var st1 := if clear then st.(doc := st.doc.(inputLine := "")) else st;
    var st2 := if out then RawAppendStep(env, st1, if split then Wrapped(s1) else s1, Input) else st1;
    var history := if silent then st2.logs.history + [s1] else st2.logs.history;
    st2.(logs := st2.logs.(history := history, sent := st2.logs.sent + [s1 + "\n"]))
  }

  /** SendMaxima once the variables are set up: the connection test, then the write. */
  function SendPrepared(env: Env, st: State, s: string, clear: bool, out: bool, silent: bool, split: bool): State {
    if !st.link.isConnected then ConsoleAppendStep(env, st, NOT_CONNECTED, Error)
    else TransmitStep(env, st, s, clear, out, silent, split)
  }

  /** The set-up commands, sent one after the other without echo. */
  function SendAll(env: Env, st: State, cmds: seq<string>): State
    decreases |cmds|
  {
    if cmds == [] then st
    else SendAll(env, SendPrepared(env, st, cmds[0], false, false, false, true), cmds[1..])
  }

  /** SetupVariables. */
  function SetupStep(env: Env, st: State): State {
    SendAll(env, st, SetupCommands(PROMPT_SUFFIX, PROMPT_PREFIX, env.prefix))
  }

  /**
    * SendMaxima: without a connection only an error line is shown; the first command
    * after a (re)start is preceded by the set-up commands.
    */
  function SendStep(env: Env, st: State, s: string, clear: bool, out: bool, silent: bool, split: bool): State {
    if !st.link.isConnected then ConsoleAppendStep(env, st, NOT_CONNECTED, Error)
    else
      var st1 := if st.link.variablesOK then st else SetupStep(env, st.(link := st.link.(variablesOK := true)));
      TransmitStep(env, st1, s, clear, out, silent, split)
  }

  /** Sending leaves the recording and the reader alone. */
  lemma {:induction false} SendStepFrame(env: Env, st: State, s: string, clear: bool, out: bool, silent: bool, split: bool)
    ensures SendStep(env, st, s, clear, out, silent, split).batch == st.batch
  {
    if st.link.isConnected && !st.link.variablesOK {
      SendAllFrame(env, st.(link := st.link.(variablesOK := true)), SetupCommands(PROMPT_SUFFIX, PROMPT_PREFIX, env.prefix));
    }
  }

  lemma {:induction false} SendAllFrame(env: Env, st: State, cmds: seq<string>)
    ensures SendAll(env, st, cmds).batch == st.batch
    decreases |cmds|
  {
    if cmds != [] {
      SendAllFrame(env, SendPrepared(env, st, cmds[0], false, false, false, true), cmds[1..]);
    }
  }

  /** SendMaxima with its default flags: clear the input line, echo, record, wrap. */
  function SendDefault(env: Env, st: State, s: string): State {
    SendStep(env, st, s, true, true, true, true)
  }

  /**
    * HandleMainPrompt: without batch lines the prompt is shown; otherwise the replay
    * from the cursor is shown and its command sent, and once the cursor reaches the line
    * count the document counts as saved and the lines are dropped.
    */
  function MainPromptStep(env: Env, st: State, o: string): State {
    var st0 := st.(reader := st.reader.(lastPrompt := o));
    if st0.batch.lines == [] then RawAppendStep(env, st0, o, MainPrompt)
    else
      var st1 := ReplayFrom(env, st0, o);
      if |st1.batch.lines| <= st1.batch.pos then ResetTitleStep(env, st1, true).(batch := Recording([], 0))
      else st1
  }

  /**
    * HandleMainPrompt's loop from the cursor of `st`: the replay's entries are shown, the
    * cursor moves on, and the replay's command, if any, is sent echoed but not wrapped.
    */
  function ReplayFrom(env: Env, st: State, o: string): State {
    var r := Replay(st.batch.lines, st.batch.pos, o);
    SendReplayed(env, ShowAll(env, st, r.shown).(batch := st.batch.(pos := r.next)), r.command)
  }

  /** The replay's command, if any, sent echoed but not wrapped. */
  function SendReplayed(env: Env, st: State, command: Option<string>): State {
    if command.Some? then SendStep(env, st, command.value, true, true, true, false) else st
  }

  /** Showing entries leaves the recording alone. */
  lemma {:induction false} ShowAllFrame(env: Env, st: State, shown: seq<Entry>, b: Recording)
    ensures ShowAll(env, st.(batch := b), shown) == ShowAll(env, st, shown).(batch := b)
    decreases |shown|
  {
    if shown != [] {
      ShowAllFrame(env, ShowOne(env, st, shown[0]), shown[1..], b);
    }
  }

  /** Showing two lists of entries is showing the first, then the second. */
  lemma {:induction false} ShowAllAppend(env: Env, st: State, a: seq<Entry>, b: seq<Entry>)
    ensures ShowAll(env, st, a + b) == ShowAll(env, ShowAll(env, st, a), b)
    decreases |a|
  {
    if a != [] {
      assert (a + b)[0] == a[0] && (a + b)[1..] == a[1..] + b;
      ShowAllAppend(env, ShowOne(env, st, a[0]), a[1..], b);
    } else {
      assert a + b == b;
    }
  }

  /** The loop skips a line that opens no region. */
  lemma {:induction false} ReplayPlainStep(env: Env, st: State, o: string)
    requires st.batch.pos < |st.batch.lines| && !IsRegionStart(st.batch.lines[st.batch.pos])
    ensures ReplayFrom(env, st, o) == ReplayFrom(env, st.(batch := st.batch.(pos := st.batch.pos + 1)), o)
  {
    var r := Replay(st.batch.lines, st.batch.pos, o);
    ShowAllFrame(env, st, r.shown, st.batch.(pos := st.batch.pos + 1));
  }

  /** The loop shows a comment, section or title region and goes on after it. */
  lemma {:induction false} ReplayCellStep(env: Env, st: State, o: string, line: string, read: (string, nat), mid: State)
    requires st.batch.pos < |st.batch.lines| && line == st.batch.lines[st.batch.pos] && IsCellStart(line)
    requires read == RegionRead(st.batch.lines, st.batch.pos + 1, CellEnd(line))
    requires mid == RawAppendStep(env, RawAppendStep(env, st, COMMENT_PREFIX, MainPrompt), read.0, CellKind(line))
                      .(batch := st.batch.(pos := read.1))
    ensures ReplayFrom(env, st, o) == ReplayFrom(env, mid, o)
  {
    var lines, pos := st.batch.lines, st.batch.pos;
    var cell := [Raw(MainPrompt, COMMENT_PREFIX), Raw(CellKind(line), read.0)];
    var rest := Replay(lines, read.1, o);
    assert Replay(lines, pos, o) == Replayed(cell + rest.shown, rest.command, rest.next);
    var st2 := RawAppendStep(env, RawAppendStep(env, st, COMMENT_PREFIX, MainPrompt), read.0, CellKind(line));
    assert ShowAll(env, st, cell + rest.shown) == ShowAll(env, st2, rest.shown) by {
      assert ShowAll(env, st, cell) == st2 by {
        assert cell == [cell[0], cell[1]];
        ShowAllPair(env, st, cell[0], cell[1]);
      }
      ShowAllAppend(env, st, cell, rest.shown);
    }
    var b := st.batch.(pos := read.1);
    assert ShowAll(env, st2.(batch := b), rest.shown) == ShowAll(env, st2, rest.shown).(batch := b) by {
      ShowAllFrame(env, st2, rest.shown, b);
    }
  }

  /**
    * The loop shows the prompt, sends an input region and stops: `mid` is the state
    * between the two.
    */
  lemma {:induction false} ReplayInputStep(env: Env, st: State, o: string, input: string, next: nat, mid: State)
    requires st.batch.pos < |st.batch.lines| && st.batch.lines[st.batch.pos] == INPUT_START
    requires (input, next) == RegionRead(st.batch.lines, st.batch.pos + 1, INPUT_END)
    requires mid == RawAppendStep(env, st, o, MainPrompt).(batch := st.batch.(pos := next))
    ensures ReplayFrom(env, st, o) == SendStep(env, mid, input, true, true, true, false)
  {
    var r := Replay(st.batch.lines, st.batch.pos, o);
    assert r == Replayed([Raw(MainPrompt, o)], Some(input), next);
    ShowAllSingle(env, st, Raw(MainPrompt, o));
  }

  lemma {:induction false} ShowAllPair(env: Env, st: State, e: Entry, f: Entry)
    ensures ShowAll(env, st, [e, f]) == ShowOne(env, ShowOne(env, st, e), f)
  {
    assert [e, f][1..] == [f];
    ShowAllSingle(env, ShowOne(env, st, e), f);
  }

  lemma {:induction false} ShowAllSingle(env: Env, st: State, e: Entry)
    ensures ShowAll(env, st, [e]) == ShowOne(env, st, e)
    ensures ShowOne(env, st, e).batch == st.batch
  {
    assert [e][1..] == [];
  }

  /** Once the lines run out, the loop ends by showing the prompt. */
  lemma {:induction false} ReplayAtEnd(env: Env, st: State, o: string)
    requires st.batch.pos >= |st.batch.lines|
    ensures ReplayFrom(env, st, o) == RawAppendStep(env, st, o, MainPrompt)
  {
    ShowAllSingle(env, st, Raw(MainPrompt, o));
  }

  /** ReadMath's first loop: every prompt prefix ends a piece of text, which is shown. */
  function PrefixDrain(env: Env, st: State): State
    decreases |st.reader.buffer|
  {
    var buffer := st.reader.buffer;
    var end := Find(buffer, PROMPT_PREFIX);
    if end < 0 then st
    else
      var st1 := ConsoleAppendStep(env, st.(reader := st.reader.(readingPrompt := true)), buffer[..end], Text);
      PrefixDrain(env, WithBuffer(st1, SubString(buffer, end + |PROMPT_PREFIX|, |buffer|)))
  }

  /** ReadMath's second loop: every complete math block is shown with its close marker. */
  function CloseDrain(env: Env, st: State): State
    decreases |st.reader.buffer|
  {
    var buffer := st.reader.buffer;
    var end := Find(buffer, MATH_CLOSE);
    if end < 0 then st
    else
      var st1 := ConsoleAppendStep(env, st, buffer[..end] + MATH_CLOSE, Text);
      CloseDrain(env, WithBuffer(st1, SubString(buffer, end + |MATH_CLOSE|, |buffer|)))
  }

  /** ReadMath: math blocks are taken only while no prompt is being read. */
  function MathStep(env: Env, st: State): State {
    var st1 := PrefixDrain(env, st);
    if st1.reader.readingPrompt then st1 else CloseDrain(env, st1)
  }

  /**
    * ReadPrompt's handling of a prompt `o` that is neither empty nor a bare newline: a
    * main prompt in insert mode only ends insert mode; other main prompts go to
    * HandleMainPrompt; other prompts are shown, as markup when they hold "<mth>".
    */
  function ShowPromptStep(env: Env, st: State, o: string): State {
    if StartsWith(o, "(%i") then
      (if st.reader.inInsertMode then st.(reader := st.reader.(inInsertMode := false, lastPrompt := o))
       else MainPromptStep(env, st, o))
    else if Contains(o, "<mth>") then Show(st, Markup(Prompt, o))
    else RawAppendStep(env, st, o, Prompt)
  }

  /**
    * ReadPrompt: the text before the first prompt suffix is a prompt. Unless it is
    * empty or a bare newline it is handled by ShowPromptStep and lisp mode follows its
    * text; the buffer keeps what follows the suffix.
    */
  function PromptStep(env: Env, st: State): State {
    var buffer := st.reader.buffer;
    var end := Find(buffer, PROMPT_SUFFIX);
    if end < 0 then st
    else
      var o := buffer[..end];
      var st1 := st.(reader := st.reader.(readingPrompt := false));
      var st2 :=
        if o != "\n" && |o| > 0 then
          var st3 := ShowPromptStep(env, st1, o);
          st3.(reader := st3.reader.(inLispMode := StartsWith(o, LISP_MODE_PROMPT)))
        else st1;
      WithBuffer(st2, SubString(st2.reader.buffer, end + |PROMPT_SUFFIX|, |st2.reader.buffer|))
  }

  /** ReadLispError: gcl's error banner shows the text before it and a prompt, and empties the buffer. */
  function LispStep(env: Env, st: State): State {
    var buffer := st.reader.buffer;
    var end := Find(buffer, LISP_ERROR);
    if end < 0 then st
    else
      var st1 := st.(reader := st.reader.(readingPrompt := false, inLispMode := true));
      var st2 := ConsoleAppendStep(env, st1, buffer[..end], Text);
      WithBuffer(ConsoleAppendStep(env, st2, LISP_ERROR, Prompt), "")
  }

  /** ReadBatchFile: the lines always start out cleared; a batch file's lines are stored and become current. */
  function ReadBatchStep(st: State, file: string, files: map<string, seq<string>>): (r: (bool, State))
    ensures r.0 <==> file in files && IsBatchFile(files[file])
    ensures r.1.batch == (if r.0 then Recording(files[file], 0) else st.batch.(lines := []))
    ensures r.1.doc.currentFile == (if r.0 then file else st.doc.currentFile)
    ensures r.1.link == st.link && r.1.reader == st.reader && r.1.logs == st.logs
  {
    var st0 := st.(batch := st.batch.(lines := []));
    if file !in files || !IsBatchFile(files[file]) then (false, st0)
    else (true, st0.(batch := Recording(files[file], 0), doc := st0.doc.(currentFile := file)))
  }

  /** KillMaxima: without a process id Maxima is asked to quit in-band; otherwise it is killed. */
  function KillStep(env: Env, st: State): State {
    if st.link.pid < 0 then SendStep(env, st, if st.reader.inLispMode then "($quit)" else "quit();", false, false, true, true)
    else st.(logs := st.logs.(signals := st.logs.signals + [(st.link.pid, Kill)]))
  }

  /** Interrupt: without a process id the menu item is disabled; otherwise Maxima is interrupted. */
  function InterruptStep(st: State): State {
    if st.link.pid < 0 then st.(link := st.link.(interruptEnabled := false))
    else st.(logs := st.logs.(signals := st.logs.signals + [(st.link.pid, Interrupt)]))
  }

  /**
    * StartMaxima on the non-Windows branch: a connected Maxima is killed first; the
    * variables must be set up again, the first prompt is awaited, and the process id is
    * unknown until it arrives.
    */
  function StartStep(env: Env, st: State): State {
    var st1 := if st.link.isConnected then
      var k := KillStep(env, st); k.(link := k.link.(isConnected := false))
    else st;
    var launch := LaunchCommand(GetCommand(env.maxima, env.parameters), st1.link.port);
    st1.(link := st1.link.(variablesOK := false, first := true, interruptEnabled := false, pid := -1),
         logs := st1.logs.(launches := st1.logs.launches + [launch]))
  }

  /** OpenFile, routed by Route. */
  function OpenStep(env: Env, st: State, file: string, cmd: string, files: map<string, seq<string>>): State {
    match Route(file, cmd)
    case NoAction => st
    case Run(c) => SendDefault(env, st, c)
    case LoadSession(c) => SendStep(env, st.(logs := st.logs.(console := [])), c, false, false, false, true)
    case TryBatch =>
      var (ok, st1) := ReadBatchStep(st, file, files);
      if ok then StartStep(env, st1) else SendDefault(env, st1, BatchCall(file))
  }

  /**
    * ReadFirstPrompt: the process id is taken from the first output, the interrupt item
    * is enabled for a positive id, a file named on the command line is opened, and the
    * buffer is emptied.
    */
  function FirstPromptStep(env: Env, st: State, files: map<string, seq<string>>): State {
    var pid := AnnouncedPid(st.reader.buffer, st.link.pid);
    var st1 := st.(link := st.link.(pid := pid, interruptEnabled := st.link.interruptEnabled || pid > 0, first := false),
                   reader := st.reader.(inLispMode := false));
    var file := st1.doc.openFile;
    var st2 := if file != "" then
      var o := OpenStep(env, st1, file, "", files); o.(doc := o.doc.(openFile := ""))
    else st1;
    WithBuffer(st2, "")
  }

  /** ClientEvent on input: the chunk is appended, then the four readers run in order. */
  function ChunkStep(env: Env, st: State, chunk: string, files: map<string, seq<string>>): State {
    var st1 := WithBuffer(st, st.reader.buffer + chunk);
    var st2 := if st1.link.first && Contains(st1.reader.buffer, FIRST_PROMPT) then FirstPromptStep(env, st1, files) else st1;
    LispStep(env, PromptStep(env, MathStep(env, st2)))
  }

  /** ClientEvent and ServerEvent on a lost connection. */
  function LostStep(env: Env, st: State, message: string): State {
    var st1 := if !st.link.closing then ConsoleAppendStep(env, st, message, Error) else st;
    st1.(link := st1.link.(pid := -1, interruptEnabled := false, isConnected := false))
  }

  /**
    * FirstOutput: the console is cleared, the header text in front of the first prompt
    * is shown when configured, and the first prompt is handled as a main prompt.
    */
  function FirstOutputStep(env: Env, st: State, s: string): State {
    var start := Find(s, FIRST_PROMPT);
    var st0 := st.(logs := st.logs.(console := []));
    var st1 :=
      if env.showHeader then
        ConsoleAppendStep(env, RawAppendStep(env, st0, COMMENT_PREFIX, MainPrompt), SubString(s, 0, start - 1), Text)
      else st0;
    MainPromptStep(env, st1, FIRST_PROMPT)
  }

  /**
    * ServerEvent on a connection: Maxima is connected, and the banner it printed on its
    * standard output (from "Maxima" on) opens the console.
    */
  function AcceptStep(env: Env, st: State, output: string): State {
    var st1 := st.(link := st.link.(isConnected := true));
    var at := Find(output, "Maxima");
    var from := if at == -1 then 0 else at;
    var banner := "wxMaxima " + env.version + HOME_PAGE + SubString(output, from, |output| - 1);
    var st2 := FirstOutputStep(env, st1, banner);
    st2.(reader := st2.reader.(inPrompt := true))
  }

  /** StartServer: whether the port could be bound, and the flags it sets. */
  function ServerStep(st: State, port: int, free: set<int>): (bool, State) {
    if port !in free then (false, st.(link := st.link.(isRunning := false)))
    else (true, st.(link := st.link.(isConnected := false, isRunning := true)))
  }

  /** EnterCommand: help and debug requests are not sent; other input is terminated and sent. */
  function EnterStep(env: Env, st: State): State {
    EnterTrimmed(env, st, Trim(st.doc.inputLine))
  }

  /** EnterStep once the input line has been trimmed to `input`. */
  function EnterTrimmed(env: Env, st: State, input: string): State {
    var st1 :=
      if StartsWith(input, HELP_COMMAND) || input == "?" || input == DUMP_COMMAND then st
      else SendDefault(env, st, Terminated(input, st.reader.inLispMode));
    st1.(doc := st1.doc.(inputLine := ""))
  }

  /** OnClose: the session is closing, and a connected Maxima is stopped. */
  function CloseStep(env: Env, st: State): State {
    var st1 := st.(link := st.link.(closing := true));
    if st1.link.isConnected then KillStep(env, st1) else st1
  }
}
