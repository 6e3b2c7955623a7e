/**
  * What the session steps promise, stated against independent descriptions: the
  * readers against SplitOn, sending against the lines that reach the socket, the main
  * prompt against the replay of the batch lines, and the connection rules.
  */
module Properties {
  import opened Options
  import opened WxText
  import opened InputText
  import opened Segments
  import opened Batch
  import opened Rules
  import opened Protocol

  /** The entries ConsoleAppend adds for one text of the given kind. */
  function Shown(s: string, kind: Kind): seq<Entry> {
    var text := ReplaceAll(s, PROMPT_SUFFIX, "");
    if IsBlank(text) then [] else AppendedEntries(text, kind)
  }

  /** The entries shown for a list of text pieces, each followed by `tail`. */
  function ShownPieces(pieces: seq<string>, tail: string): seq<Entry>
    decreases |pieces|
  {
    if pieces == [] then [] else Shown(pieces[0] + tail, Text) + ShownPieces(pieces[1..], tail)
  }

  lemma {:induction false} ShownPiecesCons(p: string, ps: seq<string>, tail: string)
    ensures ShownPieces([p] + ps, tail) == Shown(p + tail, Text) + ShownPieces(ps, tail)
  {
    assert ([p] + ps)[1..] == ps;
  }

  /** ConsoleAppend of text adds its entries and leaves the input off the prompt. */
  lemma {:induction false} ConsoleText(env: Env, st: State, s: string)
    ensures var r := ConsoleAppendStep(env, st, s, Text);
      r == st.(reader := st.reader.(inPrompt := false), logs := st.logs.(console := st.logs.console + Shown(s, Text)))
  {
  }

  /**
    * The state a drain leaves: the buffer cut down to `rest`, the pieces' entries shown
    * (each piece followed by `tail`), and the input off the prompt once a piece was shown.
    */
  function Drained(st: State, pieces: seq<string>, rest: string, tail: string): State {
    st.(reader := st.reader.(buffer := rest, inPrompt := st.reader.inPrompt && pieces == []),
        logs := st.logs.(console := st.logs.console + ShownPieces(pieces, tail)))
  }

  /** Draining the first piece, then the others, is draining them all. */
  lemma {:induction false} DrainedCons(st: State, piece: string, mid: string, pieces: seq<string>, rest: string, tail: string)
    ensures Drained(Drained(st, [piece], mid, tail), pieces, rest, tail) == Drained(st, [piece] + pieces, rest, tail)
  {
    var c, a, b := st.logs.console, ShownPieces([piece], tail), ShownPieces(pieces, tail);
    assert c + a + b == c + (a + b);
    ShownPiecesSplit(piece, pieces, tail);
    assert [piece] + pieces != [];
  }

  lemma {:induction false} ShownPiecesOne(p: string, tail: string)
    ensures ShownPieces([p], tail) == Shown(p + tail, Text)
  {
    assert [p][1..] == [];
  }

  lemma {:induction false} ShownPiecesSplit(p: string, ps: seq<string>, tail: string)
    ensures ShownPieces([p], tail) + ShownPieces(ps, tail) == ShownPieces([p] + ps, tail)
  {
    assert [p] + [] == [p];
    ShownPiecesCons(p, [], tail);
    ShownPiecesCons(p, ps, tail);
  }

  /** One turn of ReadMath's first loop. */
  lemma {:induction false} PrefixDrainTurn(env: Env, st: State, end: int, piece: string, rest: string)
    requires end == Find(st.reader.buffer, PROMPT_PREFIX) >= 0
    requires piece == st.reader.buffer[..end] && rest == st.reader.buffer[end + |PROMPT_PREFIX|..]
    ensures PrefixDrain(env, st)
         == PrefixDrain(env, Drained(st.(reader := st.reader.(readingPrompt := true)), [piece], rest, ""))
  {
    var st0 := st.(reader := st.reader.(readingPrompt := true));
    ShownPiecesOne(piece, "");
    assert piece + "" == piece;
    ConsoleText(env, st0, piece);
    PrefixDrainUnfold(env, st, end, rest);
  }

  /** One turn of ReadMath's second loop. */
  lemma {:induction false} CloseDrainTurn(env: Env, st: State, end: int, piece: string, rest: string)
    requires end == Find(st.reader.buffer, MATH_CLOSE) >= 0
    requires piece == st.reader.buffer[..end] && rest == st.reader.buffer[end + |MATH_CLOSE|..]
    ensures CloseDrain(env, st) == CloseDrain(env, Drained(st, [piece], rest, MATH_CLOSE))
  {
    ShownPiecesOne(piece, MATH_CLOSE);
    ConsoleText(env, st, piece + MATH_CLOSE);
    CloseDrainUnfold(env, st, end, piece + MATH_CLOSE, rest);
  }

  /** One turn of ReadMath's first loop. */
  lemma {:induction false} PrefixDrainUnfold(env: Env, st: State, end: int, rest: string)
    requires end == Find(st.reader.buffer, PROMPT_PREFIX) >= 0
    requires rest == st.reader.buffer[end + |PROMPT_PREFIX|..]
    ensures PrefixDrain(env, st)
         == PrefixDrain(env, WithBuffer(ConsoleAppendStep(env, st.(reader := st.reader.(readingPrompt := true)), st.reader.buffer[..end], Text), rest))
  {
    var buffer := st.reader.buffer;
    var st0 := st.(reader := st.reader.(readingPrompt := true));
    var st1 := ConsoleAppendStep(env, st0, buffer[..end], Text);
    assert PrefixDrain(env, st) == PrefixDrain(env, WithBuffer(st1, SubString(buffer, end + |PROMPT_PREFIX|, |buffer|)));
    assert SubString(buffer, end + |PROMPT_PREFIX|, |buffer|) == rest;
  }

  /** One turn of ReadMath's second loop. */
  lemma {:induction false} CloseDrainUnfold(env: Env, st: State, end: int, block: string, rest: string)
    requires end == Find(st.reader.buffer, MATH_CLOSE) >= 0
    requires block == st.reader.buffer[..end] + MATH_CLOSE && rest == st.reader.buffer[end + |MATH_CLOSE|..]
    ensures CloseDrain(env, st) == CloseDrain(env, WithBuffer(ConsoleAppendStep(env, st, block, Text), rest))
  {
    assert SubString(st.reader.buffer, end + |MATH_CLOSE|, |st.reader.buffer|) == rest;
  }

  /**
    * ReadMath's first loop is SplitOn at the prompt prefix: every piece before a prefix
    * is shown as text, the buffer keeps what follows the last prefix, and a prompt is
    * being read once any prefix was seen. Nothing else changes, and nothing is sent.
    */
  lemma {:induction false} PrefixDrainSplits(env: Env, st: State)
    ensures var split := SplitOn(st.reader.buffer, PROMPT_PREFIX);
      PrefixDrain(env, st)
      == Drained(st.(reader := st.reader.(readingPrompt := st.reader.readingPrompt || split.0 != [])), split.0, split.1, "")
    decreases |st.reader.buffer|
  {
    var buffer := st.reader.buffer;
    var end := Find(buffer, PROMPT_PREFIX);
    if end >= 0 {
      var piece, rest := buffer[..end], buffer[end + |PROMPT_PREFIX|..];
      var st0 := st.(reader := st.reader.(readingPrompt := true));
      var next := Drained(st0, [piece], rest, "");
      PrefixDrainTurn(env, st, end, piece, rest);
      PrefixDrainSplits(env, next);
      SplitOnAt(buffer, PROMPT_PREFIX, end, piece, rest);
      DrainedCons(st0, piece, rest, SplitOn(rest, PROMPT_PREFIX).0, SplitOn(rest, PROMPT_PREFIX).1, "");
    }
  }

  /**
    * ReadMath's second loop is SplitOn at the math close marker: every complete block is
    * shown with its close marker and the buffer keeps the unfinished rest.
    */
  lemma {:induction false} CloseDrainSplits(env: Env, st: State)
    ensures var split := SplitOn(st.reader.buffer, MATH_CLOSE);
      CloseDrain(env, st) == Drained(st, split.0, split.1, MATH_CLOSE)
    decreases |st.reader.buffer|
  {
    var buffer := st.reader.buffer;
    var end := Find(buffer, MATH_CLOSE);
    if end >= 0 {
      var piece, rest := buffer[..end], buffer[end + |MATH_CLOSE|..];
      var next := Drained(st, [piece], rest, MATH_CLOSE);
      CloseDrainTurn(env, st, end, piece, rest);
      CloseDrainSplits(env, next);
      SplitOnAt(buffer, MATH_CLOSE, end, piece, rest);
      DrainedCons(st, piece, rest, SplitOn(rest, MATH_CLOSE).0, SplitOn(rest, MATH_CLOSE).1, MATH_CLOSE);
    }
  }

  /** The lines that reach the socket for a list of commands: each rewritten, then ended by a newline. */
  function SentLines(cmds: seq<string>): seq<string>
    decreases |cmds|
  {
    if cmds == [] then [] else [CommandText(cmds[0]) + "\n"] + SentLines(cmds[1..])
  }

  /** While connected, the set-up commands only reach the socket: nothing is echoed or recorded. */
  lemma {:induction false} SendAllConnected(env: Env, st: State, cmds: seq<string>)
    requires st.link.isConnected
    ensures SendAll(env, st, cmds) == st.(logs := st.logs.(sent := st.logs.sent + SentLines(cmds)))
    decreases |cmds|
  {
    if cmds != [] {
      var line := CommandText(cmds[0]) + "\n";
      var next := st.(logs := st.logs.(sent := st.logs.sent + [line]));
      assert st.logs.sent + [line] + SentLines(cmds[1..]) == st.logs.sent + SentLines(cmds);
      assert SendPrepared(env, st, cmds[0], false, false, false, true) == next;
      SendAllConnected(env, next, cmds[1..]);
    }
  }

  /** The set-up commands, as they reach the socket. */
  function SetupLines(env: Env): seq<string> {
    SentLines(SetupCommands(PROMPT_SUFFIX, PROMPT_PREFIX, env.prefix))
  }

  /**
    * SendMaxima on a connection: the first command after a (re)start is preceded by the
    * set-up commands, and then the command is written as a line of its own.
    */
  lemma {:induction false} SendStepConnected(env: Env, st: State, s: string, clear: bool, out: bool, silent: bool, split: bool)
    requires st.link.isConnected
    ensures SendStep(env, st, s, clear, out, silent, split)
         == TransmitStep(env, st.(link := st.link.(variablesOK := true),
                                  logs := st.logs.(sent := st.logs.sent + if st.link.variablesOK then [] else SetupLines(env))),
                         s, clear, out, silent, split)
  {
    if !st.link.variablesOK {
      SendAllConnected(env, st.(link := st.link.(variablesOK := true)), SetupCommands(PROMPT_SUFFIX, PROMPT_PREFIX, env.prefix));
    } else {
      assert st.logs.sent + [] == st.logs.sent;
    }
  }

  /**
    * What SendMaxima writes to the socket: nothing without a connection; otherwise the
    * set-up commands when they are due, then the command and a newline. The connection,
    * the process, the readers and the batch lines are left as they were, apart from
    * the set-up flag.
    */
  lemma {:induction false} SendStepSent(env: Env, st: State, s: string, clear: bool, out: bool, silent: bool, split: bool)
    ensures var r := SendStep(env, st, s, clear, out, silent, split);
      r.logs.sent == st.logs.sent + (if !st.link.isConnected then []
                                     else (if st.link.variablesOK then [] else SetupLines(env)) + [CommandText(s) + "\n"])
      && r.link == (if st.link.isConnected then st.link.(variablesOK := true) else st.link)
      && r.reader.buffer == st.reader.buffer && r.reader.readingPrompt == st.reader.readingPrompt
      && r.reader.inLispMode == st.reader.inLispMode && r.batch == st.batch && r.doc.currentFile == st.doc.currentFile
      && r.logs.signals == st.logs.signals && r.logs.launches == st.logs.launches
  {
    if st.link.isConnected {
      var pre := if st.link.variablesOK then [] else SetupLines(env);
      assert st.logs.sent + pre + [CommandText(s) + "\n"] == st.logs.sent + (pre + [CommandText(s) + "\n"]);
      var st1 := st.(link := st.link.(variablesOK := true), logs := st.logs.(sent := st.logs.sent + pre));
      TransmitKeeps(env, st1, s, clear, out, silent, split);
      SendStepConnected(env, st, s, clear, out, silent, split);
    }
  }

  /** The socket write adds the command line and touches neither the link nor the readers nor the batch lines. */
  lemma {:induction false} TransmitKeeps(env: Env, st: State, s: string, clear: bool, out: bool, silent: bool, split: bool)
    ensures var r := TransmitStep(env, st, s, clear, out, silent, split);
      r.logs.sent == st.logs.sent + [CommandText(s) + "\n"] && r.link == st.link && r.reader == st.reader
      && r.doc.currentFile == st.doc.currentFile && r.batch == st.batch && r.logs.signals == st.logs.signals && r.logs.launches == st.logs.launches
  {
  }

  /** The error line holds no prompt suffix and is not blank, so it is shown as it is. */
  lemma {:induction false} NotConnectedShown()
    ensures Shown(NOT_CONNECTED, Error) == [Raw(Error, NOT_CONNECTED)]
  {
    forall i: nat | i <= |NOT_CONNECTED| ensures !OccursAt(NOT_CONNECTED, PROMPT_SUFFIX, i) {
      if i + |PROMPT_SUFFIX| <= |NOT_CONNECTED| {
        assert NOT_CONNECTED[i] != '<';
        assert NOT_CONNECTED[i..i + |PROMPT_SUFFIX|][0] == NOT_CONNECTED[i];
      }
    }
    assert !IsSpace(NOT_CONNECTED[1]);
  }

  /** Without a connection SendMaxima shows one error line and writes nothing. */
  lemma {:induction false} SendWithoutConnection(env: Env, st: State, s: string, clear: bool, out: bool, silent: bool, split: bool)
    requires !st.link.isConnected
    ensures SendStep(env, st, s, clear, out, silent, split)
         == st.(reader := st.reader.(inPrompt := false),
                logs := st.logs.(console := st.logs.console + [Raw(Error, NOT_CONNECTED)]))
  {
    NotConnectedShown();
  }

  /** Showing entries adds exactly those entries to the console; only the document's title flags may change besides. */
  lemma {:induction false} ShowAllShows(env: Env, st: State, shown: seq<Entry>)
    ensures ShowAll(env, st, shown)
         == st.(doc := ShowAll(env, st, shown).doc, logs := st.logs.(console := st.logs.console + shown))
    decreases |shown|
  {
    if shown == [] {
      assert st.logs.console + shown == st.logs.console;
    } else {
      var e := shown[0];
      var next := ShowOne(env, st, e);
      assert next == st.(doc := next.doc, logs := st.logs.(console := st.logs.console + [e]));
      ShowAllShows(env, next, shown[1..]);
      assert st.logs.console + [e] + shown[1..] == st.logs.console + shown;
    }
  }

  /**
    * HandleMainPrompt's loop on a connection: the replay's entries are shown, then its
    * command, if any, is echoed and written, after the set-up commands when they are
    * still due; the cursor moves to the replay's.
    */
  lemma {:induction false} ReplayFromEffect(env: Env, st: State, o: string)
    requires st.link.isConnected
    ensures var r := Replay(st.batch.lines, st.batch.pos, o);
      var f := ReplayFrom(env, st, o);
      f.logs.console == st.logs.console + r.shown + (if r.command.Some? then [Raw(Input, CommandText(r.command.value))] else [])
      && f.logs.sent == st.logs.sent + (if r.command.Some?
                                        then (if st.link.variablesOK then [] else SetupLines(env)) + [CommandText(r.command.value) + "\n"]
                                        else [])
      && f.batch == st.batch.(pos := r.next) && f.reader == st.reader
      && f.link == (if r.command.Some? then st.link.(variablesOK := true) else st.link)
  {
    var r := Replay(st.batch.lines, st.batch.pos, o);
    ShowAllShows(env, st, r.shown);
    var st1 := ShowAll(env, st, r.shown).(batch := st.batch.(pos := r.next));
    if r.command.Some? {
      var pre := if st.link.variablesOK then [] else SetupLines(env);
      assert st1.logs.sent + pre + [CommandText(r.command.value) + "\n"]
          == st.logs.sent + (pre + [CommandText(r.command.value) + "\n"]);
      SendStepConnected(env, st1, r.command.value, true, true, true, false);
    } else {
      assert st.logs.console + r.shown + [] == st.logs.console + r.shown;
      assert st.logs.sent + [] == st.logs.sent;
    }
  }

  /**
    * HandleMainPrompt on a connection: the prompt is remembered; what is shown and sent
    * is the replay of the batch lines from the cursor (with no lines, just the prompt),
    * the set-up commands going first when they are still due, as they are after the
    * restart that loading a batch file makes; once the cursor passes the last line the
    * lines are dropped.
    */
  lemma {:induction false} MainPromptReplays(env: Env, st: State, o: string)
    requires st.link.isConnected
    ensures var r := Replay(st.batch.lines, st.batch.pos, o);
      var m := MainPromptStep(env, st, o);
      m.logs.console == st.logs.console + r.shown + (if r.command.Some? then [Raw(Input, CommandText(r.command.value))] else [])
      && m.logs.sent == st.logs.sent + (if r.command.Some?
                                        then (if st.link.variablesOK then [] else SetupLines(env)) + [CommandText(r.command.value) + "\n"]
                                        else [])
      && m.batch == (if st.batch.lines == [] then st.batch
                     else if |st.batch.lines| <= r.next then Recording([], 0)
                     else st.batch.(pos := r.next))
      && m.reader == st.reader.(lastPrompt := o)
      && m.link == (if r.command.Some? then st.link.(variablesOK := true) else st.link)
  {
    var st0 := st.(reader := st.reader.(lastPrompt := o));
    if st.batch.lines == [] {
      assert st.logs.console + [Raw(MainPrompt, o)] + [] == st.logs.console + [Raw(MainPrompt, o)];
      assert st.logs.sent + [] == st.logs.sent;
    } else {
      ReplayFromEffect(env, st0, o);
    }
  }

  /**
    * ReadMath: text before prompt prefixes is shown; math blocks are cut out only when
    * no prompt is being read, from a buffer in which no prefix was found.
    */
  lemma {:induction false} MathStepSplits(env: Env, st: State)
    ensures var buffer := st.reader.buffer;
      var prefixed := SplitOn(buffer, PROMPT_PREFIX);
      var closed := SplitOn(buffer, MATH_CLOSE);
      MathStep(env, st)
      == if st.reader.readingPrompt || Contains(buffer, PROMPT_PREFIX)
         then Drained(st.(reader := st.reader.(readingPrompt := true)), prefixed.0, prefixed.1, "")
         else Drained(st, closed.0, closed.1, MATH_CLOSE)
  {
    var buffer := st.reader.buffer;
    PrefixDrainSplits(env, st);
    if Contains(buffer, PROMPT_PREFIX) {
      assert SplitOn(buffer, PROMPT_PREFIX).0 != [];
    } else {
      assert SplitOn(buffer, PROMPT_PREFIX) == ([], buffer);
      var st1 := Drained(st, [], buffer, "");
      assert st.logs.console + [] == st.logs.console;
      assert st1 == st;
      if !st.reader.readingPrompt {
        CloseDrainSplits(env, st);
      }
    }
  }

  /** HandleMainPrompt's loop leaves the unread output and the reader's mode flags alone. */
  lemma {:induction false} ReplayFromKeepsReader(env: Env, st: State, o: string)
    ensures var f := ReplayFrom(env, st, o);
      f.reader.buffer == st.reader.buffer && f.reader.readingPrompt == st.reader.readingPrompt
      && f.reader.inLispMode == st.reader.inLispMode
  {
    var r := Replay(st.batch.lines, st.batch.pos, o);
    ShowAllShows(env, st, r.shown);
    if r.command.Some? {
      var st1 := ShowAll(env, st, r.shown).(batch := st.batch.(pos := r.next));
      SendStepSent(env, st1, r.command.value, true, true, true, false);
    }
  }

  /** ReadPrompt's display of a prompt leaves the unread output and the reader's mode flags alone. */
  lemma {:induction false} ShowPromptKeepsReader(env: Env, st: State, o: string)
    ensures var r := ShowPromptStep(env, st, o);
      r.reader.buffer == st.reader.buffer && r.reader.readingPrompt == st.reader.readingPrompt
  {
    if StartsWith(o, "(%i") && !st.reader.inInsertMode && st.batch.lines != [] {
      ReplayFromKeepsReader(env, st.(reader := st.reader.(lastPrompt := o)), o);
    }
  }

  /**
    * ReadPrompt: without a prompt suffix nothing happens. Otherwise the text before the
    * first suffix is the prompt; the buffer keeps exactly what follows the suffix, no
    * prompt is being read any more, and lisp mode is on exactly when a shown prompt
    * starts with Maxima's lisp prompt. A main prompt in insert mode shows and sends
    * nothing.
    */
  lemma {:induction false} PromptStepReads(env: Env, st: State)
    ensures var buffer := st.reader.buffer;
      var end := Find(buffer, PROMPT_SUFFIX);
      var r := PromptStep(env, st);
      (end < 0 ==> r == st)
      && (end >= 0 ==>
            var o := buffer[..end];
            r.reader.buffer == buffer[end + |PROMPT_SUFFIX|..] && !r.reader.readingPrompt
            && r.reader.inLispMode == (if o != "\n" && o != "" then StartsWith(o, LISP_MODE_PROMPT) else st.reader.inLispMode)
            && (StartsWith(o, "(%i") && st.reader.inInsertMode ==>
                  r.logs == st.logs && r.batch == st.batch && !r.reader.inInsertMode && r.reader.lastPrompt == o))
  {
    var buffer := st.reader.buffer;
    var end := Find(buffer, PROMPT_SUFFIX);
    if end >= 0 {
      var o := buffer[..end];
      var st1 := st.(reader := st.reader.(readingPrompt := false));
      ShowPromptKeepsReader(env, st1, o);
      assert SubString(buffer, end + |PROMPT_SUFFIX|, |buffer|) == buffer[end + |PROMPT_SUFFIX|..];
    }
  }

  /**
    * EnterCommand: the input line is always cleared; a help request ("? topic" or "?")
    * and the debug dump request write nothing; anything else is sent terminated.
    */
  lemma {:induction false} EnterSends(env: Env, st: State)
    ensures var input := Trim(st.doc.inputLine);
      var r := EnterStep(env, st);
      r.doc.inputLine == ""
      && r.logs.sent == st.logs.sent +
           (if StartsWith(input, HELP_COMMAND) || input == "?" || input == DUMP_COMMAND || !st.link.isConnected then []
            else (if st.link.variablesOK then [] else SetupLines(env))
                 + [CommandText(Terminated(input, st.reader.inLispMode)) + "\n"])
  {
    EnterTrimmedSends(env, st, Trim(st.doc.inputLine));
  }

  lemma {:induction false} EnterTrimmedSends(env: Env, st: State, input: string)
    ensures var r := EnterTrimmed(env, st, input);
      r.doc.inputLine == ""
      && r.logs.sent == st.logs.sent +
           (if StartsWith(input, HELP_COMMAND) || input == "?" || input == DUMP_COMMAND || !st.link.isConnected then []
            else (if st.link.variablesOK then [] else SetupLines(env))
                 + [CommandText(Terminated(input, st.reader.inLispMode)) + "\n"])
  {
    if !(StartsWith(input, HELP_COMMAND) || input == "?" || input == DUMP_COMMAND) {
      SendStepSent(env, st, Terminated(input, st.reader.inLispMode), true, true, true, true);
    } else {
      assert st.logs.sent + [] == st.logs.sent;
    }
  }

  /**
    * KillMaxima and Interrupt signal the recorded process and nothing else: a signal is
    * sent exactly when a process id is known, and names it.
    */
  lemma {:induction false} SignalsNameProcess(env: Env, st: State)
    ensures InterruptStep(st).logs.signals
         == st.logs.signals + (if st.link.pid < 0 then [] else [(st.link.pid, Signal.Interrupt)])
    ensures KillStep(env, st).logs.signals
         == st.logs.signals + (if st.link.pid < 0 then [] else [(st.link.pid, Signal.Kill)])
  {
    if st.link.pid < 0 {
      assert st.logs.signals + [] == st.logs.signals;
      SendStepSent(env, st, if st.reader.inLispMode then "($quit)" else "quit();", false, false, true, true);
    }
  }

  /**
    * OnClose, then the connection drops: the session is closing, so the loss is not
    * reported; the process is forgotten and the link is down. A connected Maxima with a
    * known process id is killed on the way.
    */
  lemma {:induction false} CloseThenLost(env: Env, st: State, message: string)
    ensures var c := CloseStep(env, st);
      var l := LostStep(env, c, message);
      c.link.closing && l.logs.console == c.logs.console
      && l.link.pid == -1 && !l.link.isConnected && !l.link.interruptEnabled
      && (st.link.isConnected && st.link.pid >= 0 ==> c.logs.signals == st.logs.signals + [(st.link.pid, Signal.Kill)])
  {
    var st1 := st.(link := st.link.(closing := true));
    if st.link.isConnected {
      SignalsNameProcess(env, st1);
      if st.link.pid < 0 {
        SendStepSent(env, st1, if st.reader.inLispMode then "($quit)" else "quit();", false, false, true, true);
      }
    }
  }

  /**
    * OpenFile on a .wxm batch file: its lines are stored with the cursor at the start,
    * it becomes the current file, and Maxima is started again on the same port, so the
    * set-up commands are due and the process id is unknown.
    */
  lemma {:induction false} OpenBatchFile(env: Env, st: State, file: string, files: map<string, seq<string>>)
    requires file != "" && Right(file, 4) == ".wxm" && file in files && IsBatchFile(files[file])
    ensures var r := OpenStep(env, st, file, "", files);
      r.batch == Recording(files[file], 0) && r.doc.currentFile == file
      && !r.link.variablesOK && r.link.first && r.link.pid == -1 && r.link.port == st.link.port
      && r.logs.launches == st.logs.launches + [LaunchCommand(GetCommand(env.maxima, env.parameters), st.link.port)]
  {
    StartStepEffect(env, ReadBatchStep(st, file, files).1);
  }

  /**
    * StartMaxima: Maxima is launched on the current port, and until it connects the
    * set-up commands are due, the first prompt is awaited and the process id is unknown.
    * The batch lines and the current file survive the restart.
    */
  lemma {:induction false} StartStepEffect(env: Env, st: State)
    ensures var r := StartStep(env, st);
      !r.link.variablesOK && r.link.first && r.link.pid == -1 && !r.link.interruptEnabled && r.link.port == st.link.port
      && r.logs.launches == st.logs.launches + [LaunchCommand(GetCommand(env.maxima, env.parameters), st.link.port)]
      && r.batch == st.batch && r.doc.currentFile == st.doc.currentFile
  {
    if st.link.isConnected && st.link.pid < 0 {
      SendStepSent(env, st, if st.reader.inLispMode then "($quit)" else "quit();", false, false, true, true);
    }
  }

  /**
    * OpenFile on a .wxm file that is not a batch file: no lines are kept and Maxima is
    * asked to batch the file instead.
    */
  lemma {:induction false} OpenPlainWxm(env: Env, st: State, file: string, files: map<string, seq<string>>)
    requires file != "" && Right(file, 4) == ".wxm" && !(file in files && IsBatchFile(files[file]))
    ensures var r := OpenStep(env, st, file, "", files);
      r.batch.lines == []
      && r.logs.sent == st.logs.sent +
           (if !st.link.isConnected then []
            else (if st.link.variablesOK then [] else SetupLines(env)) + [BatchCall(file) + "\n"])
  {
    var st1 := ReadBatchStep(st, file, files).1;
    assert !StartsWith(BatchCall(file), MULTILINE_MARK) by { assert BatchCall(file)[0] == 'b'; }
    SendStepSent(env, st1, BatchCall(file), true, true, true, true);
  }

  /** After StartMaxima the next command, once connected, is preceded by the set-up commands again. */
  lemma {:induction false} RestartSetsUpAgain(env: Env, st: State, s: string)
    ensures var st1 := StartStep(env, st);
      var up := st1.(link := st1.link.(isConnected := true));
      SendDefault(env, up, s).logs.sent == st1.logs.sent + SetupLines(env) + [CommandText(s) + "\n"]
  {
    var st1 := StartStep(env, st);
    var up := st1.(link := st1.link.(isConnected := true));
    SendStepSent(env, up, s, true, true, true, true);
    assert st1.logs.sent + (SetupLines(env) + [CommandText(s) + "\n"]) == st1.logs.sent + SetupLines(env) + [CommandText(s) + "\n"];
  }

  /**
    * ReadFirstPrompt takes the process id Maxima announces after "pid=", empties the
    * buffer and enables the interrupt item for a positive id (when no file waits to be
    * opened).
    */
  lemma {:induction false} FirstPromptTakesPid(env: Env, st: State, files: map<string, seq<string>>, before: string, n: int, after: string)
    requires LONG_MIN <= n <= LONG_MAX && !Contains(before, PID_TAG) && st.doc.openFile == ""
    requires st.reader.buffer == before + PID_TAG + IntToString(n) + "\n" + after
    ensures var r := FirstPromptStep(env, st, files);
      r.link.pid == n && r.reader.buffer == "" && !r.link.first
      && r.link.interruptEnabled == (st.link.interruptEnabled || n > 0)
  {
    AnnouncedPidRoundTrip(before, n, after, st.link.pid);
  }

  /**
    * Output that holds no complete marker is only kept: until a prompt prefix, a math
    * close, a prompt suffix or the lisp error banner arrives (and, before the first
    * prompt, the first prompt itself), a chunk shows and sends nothing.
    */
  lemma {:induction false} ChunkWaits(env: Env, st: State, chunk: string, files: map<string, seq<string>>)
    requires var b := st.reader.buffer + chunk;
      !Contains(b, PROMPT_PREFIX) && !Contains(b, MATH_CLOSE) && !Contains(b, PROMPT_SUFFIX) && !Contains(b, LISP_ERROR)
      && (st.link.first ==> !Contains(b, FIRST_PROMPT))
    ensures ChunkStep(env, st, chunk, files) == WithBuffer(st, st.reader.buffer + chunk)
  {
    var st1 := WithBuffer(st, st.reader.buffer + chunk);
    MathStepSplits(env, st1);
    var b := st1.reader.buffer;
    assert SplitOn(b, PROMPT_PREFIX) == ([], b) && SplitOn(b, MATH_CLOSE) == ([], b);
    assert st1.logs.console + [] == st1.logs.console;
    PromptStepReads(env, st1);
  }

  /**
    * ReadMath loses and invents no text: the pieces it shows, each followed by the
    * marker it removed, and then what stays in the buffer give back the buffer; no
    * prompt prefix stays behind, and after the second loop no math close either.
    */
  lemma {:induction false} ReadMathKeepsText(env: Env, st: State)
    ensures var buffer := st.reader.buffer;
      var d := PrefixDrain(env, st);
      Glue(SplitOn(buffer, PROMPT_PREFIX).0, PROMPT_PREFIX) + d.reader.buffer == buffer
      && !Contains(d.reader.buffer, PROMPT_PREFIX)
    ensures var buffer := st.reader.buffer;
      var c := CloseDrain(env, st);
      Glue(SplitOn(buffer, MATH_CLOSE).0, MATH_CLOSE) + c.reader.buffer == buffer
      && !Contains(c.reader.buffer, MATH_CLOSE)
  {
    PrefixDrainSplits(env, st);
    SplitOnParts(st.reader.buffer, PROMPT_PREFIX);
    CloseDrainSplits(env, st);
    SplitOnParts(st.reader.buffer, MATH_CLOSE);
  }

  /** gcl's error banner holds no prompt suffix and is shown as an ordinary prompt. */
  lemma {:induction false} LispBannerShown()
    ensures Shown(LISP_ERROR, Prompt) == [Markup(Prompt, "<span>" + LISP_ERROR + " </span>")]
  {
    AbsentHead(LISP_ERROR, PROMPT_SUFFIX);
    assert !IsSpace(LISP_ERROR[0]);
    assert !StartsWith(LISP_ERROR, LISP_PROMPT_LABEL) by { assert LISP_ERROR[0] != LISP_PROMPT_LABEL[0]; }
    assert "<span>" + (LISP_ERROR + " ") + "</span>" == "<span>" + LISP_ERROR + " </span>";
  }

  /**
    * ReadLispError: once gcl's error banner arrives, the text before it is shown, the
    * banner is shown as a prompt, lisp mode is on, no prompt is being read and the
    * buffer is emptied.
    */
  lemma {:induction false} LispErrorShown(env: Env, st: State)
    requires Contains(st.reader.buffer, LISP_ERROR)
    ensures var r := LispStep(env, st);
      var before := st.reader.buffer[..Find(st.reader.buffer, LISP_ERROR)];
      r.reader.buffer == "" && r.reader.inLispMode && !r.reader.readingPrompt
      && r.logs.console == st.logs.console + Shown(before, Text)
                           + [Markup(Prompt, "<span>" + LISP_ERROR + " </span>")]
      && r.logs.sent == st.logs.sent
  {
    LispBannerShown();
  }

  /**
    * FirstOutput with no batch lines: the console starts over with the header (when
    * configured) and then the first prompt; nothing is sent.
    */
  lemma {:induction false} FirstOutputShows(env: Env, st: State, s: string)
    requires st.batch.lines == []
    ensures var r := FirstOutputStep(env, st, s);
      var header := SubString(s, 0, Find(s, FIRST_PROMPT) - 1);
      r.logs.console == (if env.showHeader then [Raw(MainPrompt, COMMENT_PREFIX)] + Shown(header, Text) else [])
                        + [Raw(MainPrompt, FIRST_PROMPT)]
      && r.logs.sent == st.logs.sent && r.reader.lastPrompt == FIRST_PROMPT
  {
    var st0 := st.(logs := st.logs.(console := []));
    if env.showHeader {
      var header := SubString(s, 0, Find(s, FIRST_PROMPT) - 1);
      var st1 := RawAppendStep(env, st0, COMMENT_PREFIX, MainPrompt);
      assert st1.logs.console == [Raw(MainPrompt, COMMENT_PREFIX)];
      ConsoleText(env, st1, header);
    } else {
      assert [] + [Raw(MainPrompt, FIRST_PROMPT)] == [Raw(MainPrompt, FIRST_PROMPT)];
    }
  }
}
