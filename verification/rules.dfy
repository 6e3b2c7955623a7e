/**
  * The small decisions of the session: the command line that launches Maxima, the
  * commands that prepare a fresh Maxima for the front end, how a file is opened by its
  * extension, the window title, the font-size steps, and how the process id is read
  * from the first output.
  */
module Rules {
  import opened Options
  import opened WxText

  /**
    * GetCommand on the non-Windows branch: the configured Maxima program (or "maxima"
    * when none is configured), in double quotes, then a space and the configured
    * parameters.
    */
  function GetCommand(maxima: Option<string>, parameters: string): (r: string)
    ensures |r| > 0 && r[0] == '"'
  {
    "\"" + (if maxima.Some? then maxima.value else "maxima") + "\" " + parameters
  }

  /**
    * The command line reads back: when the program holds no double quote, it is exactly
    * the text between the first two quotes, and the parameters follow the closing quote
    * and a space.
    */
  lemma {:induction false} GetCommandQuotesProgram(maxima: Option<string>, parameters: string)
    requires maxima.Some? ==> '"' !in maxima.value
    ensures var program := if maxima.Some? then maxima.value else "maxima";
      var r := GetCommand(maxima, parameters);
      var close := 1 + Find(r[1..], "\"");
      close == |program| + 1 && r[1..close] == program && r[close + 2..] == parameters
  {
    var program := if maxima.Some? then maxima.value else "maxima";
    var r := GetCommand(maxima, parameters);
    assert r[1..] == program + "\"" + (" " + parameters);
    AbsentHead(program, "\"");
    FindAfter(program, "\"", " " + parameters);
  }

  const SERVER_ARG := " -r \":lisp (setup-server "

  /** StartMaxima's launch line: the command followed by the request to connect back on `port`. */
  function LaunchCommand(command: string, port: int): (r: string)
    ensures |r| > |command| + |SERVER_ARG| && r[..|command|] == command
  {
    command + SERVER_ARG + IntToString(port) + ")\""
  }

  /** The port Maxima is asked to connect back on reads back from the launch line. */
  lemma {:induction false} LaunchNamesPort(command: string, port: int)
    requires 0 <= port <= LONG_MAX
    ensures ToLong(LaunchCommand(command, port)[|command| + |SERVER_ARG|..]) == port
  {
    var r := LaunchCommand(command, port);
    assert r[|command| + |SERVER_ARG|..] == IntToString(port) + ")\"";
    ToLongIntToString(port, ")\"");
  }

  /**
    * The commands SetupVariables sends, in order: the prompt suffix and prefix markers,
    * two Maxima flags, and the loading of the MathML output support from the install
    * prefix.
    */
  function SetupCommands(promptSuffix: string, promptPrefix: string, prefix: string): (r: seq<string>)
    ensures |r| == 5 && forall k :: 0 <= k < 5 ==> StartsWith(r[k], ":lisp-quiet ")
  {
    [":lisp-quiet (setf *prompt-suffix* \"" + promptSuffix + "\")",
     ":lisp-quiet (setf *prompt-prefix* \"" + promptPrefix + "\")",
     ":lisp-quiet (setf $IN_NETMATH nil)",
     ":lisp-quiet (setf $SHOW_OPENPLOT t)",
     ":lisp-quiet ($load \"" + prefix + "/share/wxMaxima/wxmathml\")"]
  }

  /** What OpenFile does with a file name and an optional Maxima function name. */
  datatype OpenAction =
    | NoAction                   // an empty file name
    | Run(command: string)       // sent with the default flags
    | TryBatch                   // a .wxm file: read it as a batch file first
    | LoadSession(command: string) // a .sav file: the console is cleared, the command sent quietly

  function Call(fn: string, file: string): string {
    fn + "(\"" + file + "\")$"
  }

  /**
    * OpenFile's routing: a given function name wins; otherwise the last four characters
    * of the name choose batch reading (.wxm), a saved session (.sav), a demo (.dem), or
    * plain loading.
    */
  function Route(file: string, cmd: string): (r: OpenAction)
    ensures r == NoAction <==> file == ""
    ensures r.Run? || r.LoadSession? ==>
      exists fn :: fn in {cmd, "loadsession", "demo", "load"} && Call(fn, file) == r.command
    ensures file != "" && cmd == "" ==>
      (r == TryBatch <==> Right(file, 4) == ".wxm") && (r.LoadSession? <==> Right(file, 4) == ".sav")
  {
    if file == "" then NoAction
    else if |cmd| > 0 then Run(Call(cmd, file))
    else if Right(file, 4) == ".wxm" then TryBatch
    else if Right(file, 4) == ".sav" then LoadSession(Call("loadsession", file))
    else if Right(file, 4) == ".dem" then Run(Call("demo", file))
    else Run(Call("load", file))
  }

  /** The command OpenFile falls back to for a .wxm file that is not a batch file. */
  function BatchCall(file: string): string {
    Call("batch", file)
  }

  /** The index of the last `c` in `s`, or -1 when there is none. */
  function FindLast(s: string, c: char): (i: int)
    ensures -1 <= i < |s|
    ensures i >= 0 ==> s[i] == c
    ensures forall k :: i < k < |s| ==> s[k] != c
    decreases |s|
  {
    if s == [] then -1
    else if s[|s| - 1] == c then |s| - 1
    else FindLast(s[..|s| - 1], c)
  }

  /** The text after the last occurrence of `c`, or all of `s`. */
  function AfterLast(s: string, c: char): string {
    s[FindLast(s, c) + 1..]
  }

  /**
    * wxFileName::SplitPath for a Unix path: the name and extension of the last path
    * component; the extension follows the last dot, but a dot that starts the
    * component does not begin an extension.
    */
  function NameAndExt(path: string): (string, string)
  {
    var base := AfterLast(path, '/');
    var dot := FindLast(base, '.');
    if dot > 0 then (base[..dot], base[dot + 1..]) else (base, [])
  }

  /**
    * The name and extension rebuild the last path component: either there is no
    * extension, or the name is non-empty and the extension, without a dot, follows it
    * after a dot.
    */
  lemma {:induction false} NameAndExtRebuild(path: string)
    ensures var base, r := AfterLast(path, '/'), NameAndExt(path);
      '/' !in r.0 && '/' !in r.1 && '.' !in r.1
      && ((r.1 == [] && r.0 == base) || (r.0 != [] && base == r.0 + "." + r.1))
  {
    var base := AfterLast(path, '/');
    AfterLastFree(path, '/');
    var dot := FindLast(base, '.');
    if dot > 0 {
      CutAt(base, dot, base[dot + 1..]);
      NotInSlice(base, '/', 0, dot);
      NotInSlice(base, '/', dot + 1, |base|);
      AfterLastFree(base, '.');
    }
  }

  lemma {:induction false} AfterLastFree(s: string, c: char)
    ensures c !in AfterLast(s, c)
  {
    var i := FindLast(s, c);
    var t := s[i + 1..];
    forall m | 0 <= m < |t| ensures t[m] != c {
      assert t[m] == s[i + 1 + m];
    }
  }

  lemma {:induction false} CutAt(s: string, k: nat, tail: string)
    requires k < |s| && tail == s[k + 1..] && s[k] == '.'
    ensures s == s[..k] + "." + tail
  {
    assert s == s[..k] + [s[k]] + s[k + 1..];
  }

  lemma {:induction false} NotInSlice(s: string, c: char, i: nat, j: nat)
    requires i <= j <= |s| && c !in s
    ensures c !in s[i..j]
  {
    forall m | 0 <= m < j - i ensures s[i..j][m] != c {
      assert s[i..j][m] == s[i + m];
    }
  }

  /** The window title while no file is current. */
  function UnsavedTitle(version: string): string {
    "wxMaxima " + version + " " + "[ unsaved ]"
  }

  /** The window title for the current file, with a star while it has unsaved changes. */
  function FileTitle(version: string, file: string, saved: bool): string {
    var parts := NameAndExt(file);
    "wxMaxima " + version + " " + " [ " + parts.0 + "." + parts.1 + (if saved then " ]" else "* ]")
  }

  const MIN_FONT_SIZE := 8
  const MAX_FONT_SIZE := 20

  /**
    * One font-size menu step: one point up while below 20, or one point down while
    * above 8; otherwise the size stays.
    */
  function FontStep(size: int, increase: bool): (r: int)
    ensures r != size <==> (if increase then size < MAX_FONT_SIZE else size > MIN_FONT_SIZE)
    ensures r == size || r == (if increase then size + 1 else size - 1)
    ensures MIN_FONT_SIZE <= size <= MAX_FONT_SIZE ==> MIN_FONT_SIZE <= r <= MAX_FONT_SIZE
  {
    if increase then (if size < MAX_FONT_SIZE then size + 1 else size)
    else (if size > MIN_FONT_SIZE then size - 1 else size)
  }

  /** `n` steps in the same direction. */
  function FontSteps(size: int, increase: bool, n: nat): int
    decreases n
  {
    if n == 0 then size else FontSteps(FontStep(size, increase), increase, n - 1)
  }

  /** Repeated steps from a size in range move one point at a time and stop at the bound. */
  lemma {:induction false} FontStepsStopAtBound(size: int, increase: bool, n: nat)
    requires MIN_FONT_SIZE <= size <= MAX_FONT_SIZE
    decreases n
    ensures FontSteps(size, increase, n)
         == if increase then (if size + n < MAX_FONT_SIZE then size + n else MAX_FONT_SIZE)
            else (if size - n > MIN_FONT_SIZE then size - n else MIN_FONT_SIZE)
  {
    if n > 0 {
      FontStepsStopAtBound(FontStep(size, increase), increase, n - 1);
    }
  }

  const PID_TAG := "pid="

  /**
    * The process id read from index `s` on: the text up to the next newline, converted
    * when it is not empty; otherwise the old value stays.
    */
  function PidFrom(buffer: string, s: nat, pid: int): int {
    var t := s + Find(SubString(buffer, s, |buffer|), "\n");
    if s < t then ToLong(SubString(buffer, s, t)) else pid
  }

  /**
    * ReadFirstPrompt's reading of the process id, as written: the digits start four
    * characters after the first "pid=". The search result -1 for a missing "pid=" is
    * not checked, so the scan then starts at index 3.
    */
  function PidAsWritten(buffer: string, pid: int): int {
    PidFrom(buffer, Find(buffer, PID_TAG) + 4, pid)
  }

  /** The process id as the first output announces it: unchanged when there is no "pid=". */
  function AnnouncedPid(buffer: string, pid: int): (r: int)
    ensures !Contains(buffer, PID_TAG) ==> r == pid
  {
    if Find(buffer, PID_TAG) < 0 then pid else PidAsWritten(buffer, pid)
  }

  /**
    * A first output without "pid=" still yields a process id: 0, which makes the later
    * kill signal go to the whole process group instead of to Maxima.
    */
  lemma {:induction false} PidWithoutTag()
    ensures !Contains("Maxima\n(%i1) ", PID_TAG)
    ensures PidAsWritten("Maxima\n(%i1) ", -1) == 0
    ensures AnnouncedPid("Maxima\n(%i1) ", -1) == -1
  {
    var b := "Maxima\n(%i1) ";
    AbsentHead(b, PID_TAG);
    assert SubString(b, 3, |b|) == "ima" + "\n" + "(%i1) ";
    AbsentHead("ima", "\n");
    FindAfter("ima", "\n", "(%i1) ");
    assert SubString(b, 3, 6) == "ima\n";
    assert LeadingSpaces("ima\n") == 0;
    assert DigitRun("ima\n") == 0;
  }

  /** A text without the first character of a pattern holds no occurrence of it. */
  lemma {:induction false} AbsentHead(s: string, pat: string)
    requires |pat| > 0 && pat[0] !in s
    ensures !Contains(s, pat)
  {
    forall i: nat | i <= |s| ensures !OccursAt(s, pat, i) {
      if i + |pat| <= |s| {
        assert s[i..i + |pat|][0] == s[i];
      }
    }
  }

  /**
    * The announced process id reads back what Maxima wrote after "pid=", up to the
    * newline, for any text before and after.
    */
  lemma {:induction false} AnnouncedPidRoundTrip(before: string, n: int, after: string, pid: int)
    requires LONG_MIN <= n <= LONG_MAX && !Contains(before, PID_TAG)
    ensures AnnouncedPid(before + PID_TAG + IntToString(n) + "\n" + after, pid) == n
  {
    var digits := IntToString(n);
    var line := digits + "\n";
    var b := before + PID_TAG + line + after;
    assert before + PID_TAG + digits + "\n" + after == b;
    assert b == before + PID_TAG + (line + after);
    FindAfter(before, PID_TAG, line + after);
    var s := |before| + 4;
    SubStringFrom(b, before + PID_TAG, line, after);
    assert Find(line + after, "\n") == |digits| by {
      NoNewlineInNumber(n);
      FindAfter(digits, "\n", after);
    }
    ToLongIntToString(n, "\n");
  }

  /** The text from the end of `pre` on, and the part of it that is `mid`. */
  lemma {:induction false} SubStringFrom(b: string, pre: string, mid: string, post: string)
    requires b == pre + mid + post && |mid| > 0
    ensures SubString(b, |pre|, |b|) == mid + post
    ensures SubString(b, |pre|, |pre| + |mid| - 1) == mid
  {
    assert b[|pre|..] == mid + post;
    assert b[|pre|..|pre| + |mid|] == mid;
  }

  lemma {:induction false} NoNewlineInNumber(n: int)
    ensures !Contains(IntToString(n), "\n")
  {
    var r := IntToString(n);
    assert '\n' !in r by {
      if n < 0 {
        assert forall i :: 1 <= i < |r| ==> r[i] == NatToString(-n)[i - 1];
      }
    }
    AbsentHead(r, "\n");
  }
}
