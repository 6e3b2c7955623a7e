# wxMaxima session protocol engine in Dafny

This project models the part of wxMaxima (`src/wxMaxima.cpp`) that drives the Maxima
process: the socket buffer and the readers that cut Maxima's output into prompts, text
and math blocks; the replay of `.wxm` batch files, prompt by prompt; the command
sender with its one-time set-up commands, the echo wrapping at column 80 and tab
expansion; and the session rules for the server port, the Maxima launch line, the kill
and interrupt decisions, a lost connection, file routing by extension, the window title
and the font-size bounds.

The model has these modules:

- `WxText` (wx_text.dfy): the wxString operations the engine relies on. These are
  `Find`, an inclusive and clamping `SubString`, `Right`, `Trim`, `Replace` and the
  strtol-based `ToLong`.
- `Segments` (segments.dfy): the output markers, the console entry kinds, and the
  marker split that ReadMath performs. It also holds ConsoleAppend's cutting of a text
  output into plain and `<mth` pieces.
- `InputText` (input_text.dfy): SplitInput and RemoveTabs, as loops proved against
  reference functions. It also holds EnterCommand's terminator rule and SendMaxima's
  `<ml>`/`<nl>` rewrite.
- `Batch` (batch.dfy): the batch-file signature, the region markers, and the replay
  walk that HandleMainPrompt makes over the stored lines.
- `Rules` (rules.dfy): GetCommand, the launch line, the set-up commands, OpenFile's
  routing, the title, the font steps and the process-id parse.
- `Protocol` (protocol.dfy): the state of the frame as a snapshot (`State`). Each
  member function becomes a pure step on that snapshot.
- `Sessions` (session.dfy): class `Session`, whose fields are the frame's members.
  Every method is proved to change `Model()` exactly, as a function of the old state:
  mostly the matching `Protocol` step, and for a few simple methods (`SetOpenFile`,
  `SetInputLine`, `FindPort`, `StartServer`, `AppendText`, `FontMenu`) a record update
  or a function of `Segments` or `Rules`.
- `Properties` (properties.dfy): what those steps promise.

The console, the socket, the input history, the signals sent to the process and the
launched command lines are append-only logs in `Logs`. The console receives one entry
per DoRawConsoleAppend (`Raw`) or DoConsoleAppend (`Markup`) call. I/O enters as
parameters:

- `free` is the set of ports a server can bind;
- `files` maps a file name to its lines;
- `chunk` is the text one socket read delivered;
- `output` is what Maxima printed on its standard output before it connected;
- `message` is the text of a lost-connection error.

The configuration values the engine reads are the read-only `Env`.

Details of the code that the model keeps:

- A blank prompt is shown unless it is exactly `""` or `"\n"` (src/wxMaxima.cpp:781).
- A prompt starting with `MAXIMA> ` is shown as its last eight characters, as
  `Right(8)` gives them (src/wxMaxima.cpp:307).
- SplitInput inserts its break in front of the separator (src/wxMaxima.cpp:442-448).
- The port search in InitSession never gives up. Past port 5000 it only shows a message
  box on each try, so the "Starting server failed" branch cannot be reached
  (src/wxMaxima.cpp:158-172).
- ReadBatchFile stores every line of the file, the signature line included. With
  wxTextFile's `Eof()` the loop stores all lines but the last, and line 222 adds the
  last one.

## Model

| member | source | states |
|---|---|---|
| WxText.Find | src/wxMaxima.cpp:750 | the first index at which the pattern occurs, or -1 exactly when it does not occur |
| WxText.SubString | src/wxMaxima.cpp:756-757 | `SubString(from, to)` is the slice from `from` through `to` inclusive, clamped to the end of the string; empty when `from` is past the end |
| WxText.Right | src/wxMaxima.cpp:1422 | the last `n` characters, or the whole string when it is shorter |
| WxText.TrimRight | src/wxMaxima.cpp:242 | removes exactly the trailing blank characters; the result is empty iff the string is blank |
| WxText.TrimLeft | src/wxMaxima.cpp:243 | removes exactly the leading blank characters; the result is empty iff the string is blank |
| WxText.TrimEmptyIffBlank | src/wxMaxima.cpp:241-245 | ConsoleAppend's "empty once trimmed" test is the same as "blank" |
| WxText.TrimsToEmpty | src/wxMaxima.cpp:241-245 | the "empty once trimmed" test answers true exactly for blank text |
| WxText.ReplaceAll | src/wxMaxima.cpp:239 | a text without the pattern is returned unchanged |
| Segments.ReplaceAllGlue | src/wxMaxima.cpp:239 | replacing every occurrence is cutting the text at each occurrence, left to right, and gluing the pieces back with the replacement: the text between occurrences is kept as it is |
| WxText.ReplaceAllRemoves | src/wxMaxima.cpp:239 | after replacing every prompt suffix by a replacement that shares no character with it, no suffix is left |
| WxText.ToLong | src/wxMaxima.cpp:733 | strtol's value always lies in the range of a 64-bit long |
| WxText.ToLongIntToString | src/wxMaxima.cpp:733 | a decimal number followed by a non-digit reads back as that number |
| WxText.DecimalValueOfNatToString | src/wxMaxima.cpp:733 | the digits of a natural number read back as that number |
| Segments.SplitOnParts | src/wxMaxima.cpp:750-771 | the pieces cut at a marker, each followed by the marker, and then the rest give back the buffer; no piece and not the rest holds the marker |
| Segments.SplitOnAppend | src/wxMaxima.cpp:499 | splitting does not depend on how the text arrives: splitting `a + b` gives the pieces of `a`, then the pieces of what `a` left over followed by `b` |
| Segments.MathCut | src/wxMaxima.cpp:253-286 | one round of ConsoleAppend's loop strictly shortens the text left over |
| Segments.MathSplitPlain | src/wxMaxima.cpp:249-289 | every entry of a text output is of the text kind, and every plain entry is not blank and holds no `<mth` |
| Segments.MathBlock | src/wxMaxima.cpp:253-286 | a math block after plain text gives at most one plain entry and exactly one math entry that holds the whole block |
| InputText.Breaks | src/wxMaxima.cpp:440-451 | a break is marked before character `i` iff the column count before it exceeds 80 and it is a space, `+` or `-` |
| InputText.SplitInput | src/wxMaxima.cpp:434-454 | the loop with its column counter produces the input with `"\n "` inserted at exactly the marked breaks |
| InputText.UnweaveWeave | src/wxMaxima.cpp:434-454 | deleting every inserted `"\n "` gives back the input exactly |
| InputText.BreakOnlyPastColumn | src/wxMaxima.cpp:442-446 | a break comes only before a separator, and only when the current echo line is longer than 80 characters |
| InputText.ColumnWithinLine | src/wxMaxima.cpp:447-450 | the column counter never exceeds the length of the current echo line; an embedded newline starts a new line |
| InputText.ShortInputUnchanged | src/wxMaxima.cpp:434-454 | an input of at most 81 characters is echoed unchanged |
| InputText.NoSeparatorUnchanged | src/wxMaxima.cpp:434-454 | an input without a space, `+` or `-` is echoed unchanged |
| InputText.TabWidth | src/wxMaxima.cpp:467-472 | a tab becomes 1 to 8 spaces and ends on a multiple of 8 |
| InputText.Expanded | src/wxMaxima.cpp:456-481 | after a trailing tab the output length is a multiple of 8 |
| InputText.RemoveTabs | src/wxMaxima.cpp:456-481 | the loop, with `pos` equal to the output length throughout, computes the tab expansion |
| InputText.ExpandedHasNoTab | src/wxMaxima.cpp:456-481 | the output holds no tab |
| InputText.ExpandedTabFree | src/wxMaxima.cpp:456-481 | a string without tabs is unchanged |
| InputText.ExpandedKeepsVisible | src/wxMaxima.cpp:474-478 | the characters other than tabs and spaces are kept, in order |
| InputText.Terminated | src/wxMaxima.cpp:1235-1237 | `;` is added exactly when not in lisp mode and the input does not end in `;` or `$`; outside lisp mode the result always ends in one of them |
| InputText.TerminatedIdempotent | src/wxMaxima.cpp:1235-1237 | terminating an already terminated command changes nothing |
| InputText.CommandText | src/wxMaxima.cpp:396-400 | a command without a leading `<ml>` is sent as it is; after `<ml>` is removed no `<nl>` is left |
| InputText.CommandTextRewrites | src/wxMaxima.cpp:396-400 | after a leading `<ml>`, the text is cut at its `<nl>` markers into pieces that hold none, and the command is those pieces, in order, joined by newlines |
| Batch.Region | src/wxMaxima.cpp:843-856 | the inner loop collects the lines from the cursor up to the end marker, none of which is the marker; it stops on the marker or at the last line |
| Batch.JoinSplit | src/wxMaxima.cpp:848-853 | the lines joined by newlines are cut back into exactly those lines |
| Batch.RegionRead | src/wxMaxima.cpp:843-856 | a region read always moves the cursor forward |
| Batch.ReplayAdvances | src/wxMaxima.cpp:837-918 | the cursor only moves forward. It passes the line count only by the one-element overrun of a start marker on the last line, and without a command it reaches the line count |
| Batch.ReplayShowsPromptLast | src/wxMaxima.cpp:897-920 | every call shows the arriving prompt last, and not before unless it is the comment prompt `/*` |
| Batch.ReplaySkipsPlainLines | src/wxMaxima.cpp:837-839 | lines that open no region are skipped: only the prompt is shown and nothing is sent |
| Batch.ReplaySendsRegion | src/wxMaxima.cpp:897-916 | the one command sent is the lines after an input start marker, up to the end marker or the end of the file, joined by newlines |
| Batch.InputRegionSent | src/wxMaxima.cpp:897-916 | an input marker at the cursor sends the region that follows it |
| Rules.GetCommand | src/wxMaxima.cpp:1028-1040 | the command line is never empty and opens with a double quote |
| Rules.GetCommandQuotesProgram | src/wxMaxima.cpp:1028-1040 | for a program without a double quote, the text between the first two quotes is the configured program, or `maxima` when none is configured, and the parameters follow the closing quote and a space |
| Rules.LaunchCommand | src/wxMaxima.cpp:640-641 | the launch line starts with the command |
| Rules.LaunchNamesPort | src/wxMaxima.cpp:640-641 | the port written into the server argument reads back as the port |
| Rules.SetupCommands | src/wxMaxima.cpp:970-995 | the set-up is exactly five `:lisp-quiet` commands |
| Rules.Route | src/wxMaxima.cpp:1409-1439 | nothing happens iff the file name is empty. Any command is a call of the given function, `loadsession`, `demo` or `load` on the file. Without a given function, `.wxm` means batch reading and `.sav` a saved session |
| Rules.FindLast | src/wxMaxima.cpp:3101 | the index of the last occurrence, or -1 |
| Rules.NameAndExtRebuild | src/wxMaxima.cpp:3100-3107 | the name and extension in the title rebuild the last path component, split at its last dot |
| Rules.FontStep | src/wxMaxima.cpp:1688-1713 | the size changes iff it is below 20 (increase) or above 8 (decrease), by exactly one point; a size that starts within [8, 20] stays within it |
| Rules.FontStepsStopAtBound | src/wxMaxima.cpp:1688-1713 | repeated steps move one point at a time and stop at the bound |
| Rules.AnnouncedPid | src/wxMaxima.cpp:730-733 | without "pid=" in the first output the process id stays as it was |
| Rules.AnnouncedPidRoundTrip | src/wxMaxima.cpp:730-733 | the number written after the first "pid=", up to the newline, is read back |
| Rules.PidWithoutTag | src/wxMaxima.cpp:730-733 | as written, a first output without "pid=" still yields the process id 0 |
| Protocol.ReadBatchStep | src/wxMaxima.cpp:200-229 | the stored lines are cleared first. A file is accepted iff it exists and its first line is the signature. Then all its lines are stored in order with the cursor at 0 and it becomes the current file. Nothing else changes |
| Protocol.SendStepFrame | src/wxMaxima.cpp:382-428 | sending leaves the batch recording alone |
| Protocol.ShowAllAppend | src/wxMaxima.cpp:840-900 | showing two lists of entries is showing the first, then the second |
| Protocol.ReplayPlainStep | src/wxMaxima.cpp:837-839 | the loop skips a line that opens no region |
| Protocol.ReplayCellStep | src/wxMaxima.cpp:840-896 | a comment, section or title region shows the comment prompt and the region's text, then the loop goes on after it |
| Protocol.ReplayInputStep | src/wxMaxima.cpp:897-917 | an input region shows the prompt, sends the region and ends the loop |
| Protocol.ReplayAtEnd | src/wxMaxima.cpp:919-920 | once the lines run out, the loop ends by showing the prompt |
| Properties.PrefixDrainSplits | src/wxMaxima.cpp:750-759 | ReadMath's first loop shows, as text, each piece in front of a prompt prefix, and keeps what follows the last prefix. A prompt is being read once any prefix was seen, and nothing is sent |
| Properties.CloseDrainSplits | src/wxMaxima.cpp:762-771 | ReadMath's second loop shows each complete math block with its close marker and keeps the unfinished rest |
| Properties.ReadMathKeepsText | src/wxMaxima.cpp:748-771 | the shown pieces, each followed by the marker removed, and then the buffer give back the original buffer; no prefix (first loop) and no close marker (second loop) is left |
| Properties.MathStepSplits | src/wxMaxima.cpp:748-772 | once a prompt prefix has been seen, ReadMath leaves math blocks alone; otherwise it drains the complete math blocks |
| Properties.PromptStepReads | src/wxMaxima.cpp:774-820 | without a suffix nothing changes. Otherwise the buffer becomes exactly the text after the first suffix and no prompt is being read. For a prompt that is neither empty nor a newline, lisp mode is on iff it starts with `"\nMAXIMA>"`. A main prompt in insert mode shows and sends nothing; it clears insert mode and is remembered as the last prompt |
| Properties.ShowPromptKeepsReader | src/wxMaxima.cpp:783-810 | showing a prompt leaves the unread output and the reading-prompt flag alone |
| Properties.ReplayFromKeepsReader | src/wxMaxima.cpp:835-920 | the replay leaves the unread output and the reader's mode flags alone |
| Properties.LispErrorShown | src/wxMaxima.cpp:934-948 | gcl's banner shows the text before it and a prompt, switches lisp mode on, stops prompt reading, empties the buffer and sends nothing |
| Properties.LispBannerShown | src/wxMaxima.cpp:944 | the banner is shown as an ordinary prompt followed by a space |
| Properties.ChunkWaits | src/wxMaxima.cpp:493-515 | a chunk that completes no unit is only kept in the buffer |
| Properties.FirstPromptTakesPid | src/wxMaxima.cpp:730-746 | the first prompt takes the announced process id, enables the interrupt item for a positive one, clears the first flag and empties the buffer |
| Properties.FirstOutputShows | src/wxMaxima.cpp:177-193 | with no batch lines, the console starts over with the header (when configured) and then the first prompt; nothing is sent |
| Properties.SendAllConnected | src/wxMaxima.cpp:970-995 | while connected, the set-up commands only reach the socket, in order: nothing is echoed or recorded |
| Properties.SendStepConnected | src/wxMaxima.cpp:384-427 | on a connection, the first command after a (re)start is preceded by the set-up commands, and then the command is written |
| Properties.SendStepSent | src/wxMaxima.cpp:382-428 | the socket gets nothing without a connection. Otherwise it gets the set-up commands when due, then the rewritten command and exactly one newline. The link changes only in the set-up flag, and the readers, the batch lines, the signals and the launches stay |
| Properties.TransmitKeeps | src/wxMaxima.cpp:396-427 | the write adds the command line and touches neither the link nor the readers nor the batch lines |
| Properties.SendWithoutConnection | src/wxMaxima.cpp:384-388 | without a connection, one error line is shown and nothing is written |
| Properties.NotConnectedShown | src/wxMaxima.cpp:386 | the error text is shown as it is |
| Properties.ShowAllShows | src/wxMaxima.cpp:346-380 | showing entries adds exactly those entries to the console; only the document's title may change besides |
| Properties.ReplayFromEffect | src/wxMaxima.cpp:835-920 | on a connection, the replay's entries are shown, then its command is echoed and written, preceded on the socket by the set-up commands when they are still due (as after the restart a batch load makes); the cursor moves to the replay's |
| Properties.MainPromptReplays | src/wxMaxima.cpp:827-929 | the prompt is remembered. With no lines, only the prompt is shown. Otherwise the replay's entries and command are shown and sent, the set-up commands first when they are due, as for the first command of a freshly loaded batch file; once the cursor reaches the line count the lines are cleared and the cursor reset |
| Properties.EnterSends | src/wxMaxima.cpp:1212-1241 | the input line is always cleared. Help and dump requests write nothing; anything else is sent terminated |
| Properties.SignalsNameProcess | src/wxMaxima.cpp:660-692 | Interrupt and KillMaxima signal the process exactly when its id is known, and name it |
| Properties.CloseThenLost | src/wxMaxima.cpp:2777-2796 | after OnClose a lost connection is not reported; the process is forgotten; a connected Maxima with a known id is killed |
| Properties.StartStepEffect | src/wxMaxima.cpp:593-657 | Maxima is launched on the current port; the set-up is due, the first prompt awaited and the id unknown; the batch lines and current file survive |
| Properties.OpenBatchFile | src/wxMaxima.cpp:1422-1427 | a `.wxm` batch file is stored with the cursor at 0, becomes current, and Maxima is restarted on the same port |
| Properties.OpenPlainWxm | src/wxMaxima.cpp:1422-1425 | a `.wxm` file that is not a batch file leaves no lines and asks Maxima to batch it |
| Properties.RestartSetsUpAgain | src/wxMaxima.cpp:390-394 | after a restart, the next command is again preceded by the set-up commands |
| Sessions.CollectRegion | src/wxMaxima.cpp:843-856 | the inner loop's joined text and cursor are RegionRead |
| Sessions.Session.constructor | src/wxMaxima.cpp:60-104 | the initial state: port 4010, no pid, first prompt awaited, no server, nothing set up, empty buffer, no batch lines, empty logs |
| Sessions.Session.SetOpenFile | src/main.cpp:110-113 | the file named on the command line is remembered |
| Sessions.Session.SetInputLine | src/wxMaxima.cpp:1214 | the text typed into the input line |
| Sessions.Session.ResetTitle | src/wxMaxima.cpp:3093-3109 | the state becomes ResetTitleStep: "[ unsaved ]" without a file; otherwise the file's name with a star while unsaved, and only when the saved flag changes |
| Sessions.Session.DoRawConsoleAppend | src/wxMaxima.cpp:346-380 | one raw entry; editable kinds first mark the document unsaved |
| Sessions.Session.DoConsoleAppend | src/wxMaxima.cpp:325-344 | one markup entry |
| Sessions.Session.ConsoleAppend | src/wxMaxima.cpp:235-323 | the state becomes ConsoleAppendStep |
| Sessions.Session.AppendEntries | src/wxMaxima.cpp:247-322 | the console gains AppendedEntries; a prompt is remembered and sets the at-prompt flag |
| Sessions.Session.AppendPrompt | src/wxMaxima.cpp:294-313 | a main prompt or `/*` is shown as a main prompt, a lisp prompt as its last 8 characters, other prompts with a space added |
| Sessions.Session.AppendText | src/wxMaxima.cpp:249-289 | the loop adds exactly MathSplit of the text |
| Sessions.Session.AppendCut | src/wxMaxima.cpp:251-287 | one round adds MathCut's entries and answers its rest |
| Sessions.Session.AppendMath | src/wxMaxima.cpp:263-287 | the round for a text holding `<mth` adds MathCut's entries and answers its rest |
| Sessions.Session.AppendLead | src/wxMaxima.cpp:255-276 | text in front of a math block, or a text without one, becomes one plain-text entry exactly when it is not blank |
| Sessions.Session.SendMaxima | src/wxMaxima.cpp:382-428 | the state becomes SendStep; once set up, the variables stay set up |
| Sessions.Session.Transmit | src/wxMaxima.cpp:396-427 | the state becomes TransmitStep |
| Sessions.Session.Echo | src/wxMaxima.cpp:401-409 | the input line is cleared and the command echoed, wrapped when asked |
| Sessions.Session.SetupVariables | src/wxMaxima.cpp:970-995 | the state becomes SetupStep: the five commands sent in order |
| Sessions.Session.HandleMainPrompt | src/wxMaxima.cpp:827-929 | the state becomes MainPromptStep |
| Sessions.Session.EndReplay | src/wxMaxima.cpp:922-927 | at the end of the lines the title is reset as saved and the recording cleared |
| Sessions.Session.ReplayLoop | src/wxMaxima.cpp:835-920 | the state becomes ReplayFrom |
| Sessions.Session.ReplayLine | src/wxMaxima.cpp:837-918 | one round moves the cursor forward and keeps ReplayFrom's result |
| Sessions.Session.ReplayCell | src/wxMaxima.cpp:840-896 | a cell region moves the cursor forward and keeps ReplayFrom's result |
| Sessions.Session.ReplayInput | src/wxMaxima.cpp:897-917 | an input region completes ReplayFrom |
| Sessions.Session.ReadRegion | src/wxMaxima.cpp:843-856 | the region after a start marker is RegionRead |
| Sessions.Session.ReadMath | src/wxMaxima.cpp:748-772 | the state becomes MathStep |
| Sessions.Session.DrainPrefixes | src/wxMaxima.cpp:750-759 | the state becomes PrefixDrain |
| Sessions.Session.DrainMath | src/wxMaxima.cpp:762-771 | the state becomes CloseDrain |
| Sessions.Session.ReadPrompt | src/wxMaxima.cpp:774-820 | the state becomes PromptStep |
| Sessions.Session.ShowPrompt | src/wxMaxima.cpp:783-810 | the state becomes ShowPromptStep |
| Sessions.Session.ReadLispError | src/wxMaxima.cpp:934-948 | the state becomes LispStep |
| Sessions.Session.ReadFirstPrompt | src/wxMaxima.cpp:718-746 | the state becomes FirstPromptStep |
| Sessions.Session.ReadPid | src/wxMaxima.cpp:730-733 | the id becomes AnnouncedPid of the buffer, the corrected parse of "## Findings" |
| Sessions.Session.ClientInput | src/wxMaxima.cpp:493-515 | the state becomes ChunkStep |
| Sessions.Session.ConnectionLost | src/wxMaxima.cpp:517-527 | the state becomes LostStep |
| Sessions.Session.Accept | src/wxMaxima.cpp:537-547 | the state becomes AcceptStep |
| Sessions.Session.FirstOutput | src/wxMaxima.cpp:177-193 | the state becomes FirstOutputStep |
| Sessions.Session.StartServer | src/wxMaxima.cpp:562-587 | the state becomes ServerStep on the current port |
| Sessions.Session.FindPort | src/wxMaxima.cpp:152-169 | the port is the lowest free port from the configured one on |
| Sessions.Session.InitSession | src/wxMaxima.cpp:150-175 | the lowest free port from the configured one is taken, and then Maxima is started |
| Sessions.Session.StartMaxima | src/wxMaxima.cpp:593-657 | the state becomes StartStep, and the start succeeds |
| Sessions.Session.KillMaxima | src/wxMaxima.cpp:680-692 | the state becomes KillStep |
| Sessions.Session.Interrupt | src/wxMaxima.cpp:660-678 | the state becomes InterruptStep |
| Sessions.Session.Close | src/wxMaxima.cpp:2777-2796 | the state becomes CloseStep |
| Sessions.Session.OpenFile | src/wxMaxima.cpp:1409-1439 | the state becomes OpenStep |
| Sessions.Session.ReadBatchFile | src/wxMaxima.cpp:200-229 | the result and state are ReadBatchStep |
| Sessions.Session.EnterCommand | src/wxMaxima.cpp:1212-1241 | the state becomes EnterStep |
| Sessions.Session.EnterInput | src/wxMaxima.cpp:1217-1240 | once the line is trimmed, the state becomes EnterTrimmed: help and dump requests only clear the line; anything else is terminated and sent |
| Sessions.Session.FontMenu | src/wxMaxima.cpp:1688-1713 | the font size takes one FontStep |

## Left out

- Rendering: the console document, the MathCell parser, EditorCell and TextCell
  creation, DoConsoleAppend's removal of newlines, DoRawConsoleAppend's splitting into
  lines with tab removal, the insert-mode cell surgery and `wxYield`. Each append is one
  log entry of kind and text.
- Status-bar text, menu enabling other than the interrupt item, focus, and message
  boxes. This covers InitSession's "could not start the server" box, the ConsoleAppend
  input-kind box and the batch-file open error box.
- Configuration writes, and `m_lastPath` and `m_dispReadOut`. The configured values
  (the Maxima program, its parameters, the default port, the header flag) are
  parameters in `Env`.
- The Windows and Mac branches of StartMaxima, ReadFirstPrompt, SetupVariables and
  GetCommand.
- Byte encoding of outgoing and incoming text; text is `string`.
- Sockets and processes: binding, accepting, reading, writing, `wxExecute` and
  `wxProcess::Kill`. They are parameters and logs. Binding is `free`, a chunk is
  `chunk`, writes are the `sent` log, and signals and launches are logs.
- ReadProcessOutput's character-by-character drain of Maxima's standard output is the
  `output` parameter of Accept.
- DumpProcessOutput and the help, OnProcessEvent, and CleanUp's server destruction.
- A start marker on the last batch line makes HandleMainPrompt read one element past
  the end of the array. The model takes that read as some text that leaves an empty
  region and the cursor one past the line count (Batch.RegionRead).
- src/wxMaxima.h is not part of this model. SendMaxima's default arguments are taken
  to be all true.
- Sessions.Session.ReadPid: the session uses the corrected parse (Rules.AnnouncedPid).
  For a first output without "pid=" the id stays as it was, where lines 730-733 store 0
  (Rules.PidWithoutTag). The model therefore never signals process 0 afterwards
  (lines 677 and 691).
- Sessions.Session.ReadFirstPrompt: its FirstPromptStep takes the pid through the
  corrected parse, with the same gap as Sessions.Session.ReadPid.
- InputText.RemoveTabs: the source copies each character into a C `char`
  (src/wxMaxima.cpp:459, 464), which narrows non-ASCII characters in a Unicode build.
  The model keeps every character whole, so it is exact for ASCII text and ANSI
  builds only.
- InputText.ExpandedTabFree: holds for the source only on ASCII text or in an ANSI
  build; in a Unicode build a non-ASCII character can narrow to a tab or to another
  character, as for InputText.RemoveTabs.
- InputText.ExpandedKeepsVisible: the same limit as InputText.ExpandedTabFree: the
  kept characters are the narrowed ones in a Unicode build.
- Protocol.ReadBatchStep: an empty file counts as not a batch file. The source calls
  `GetFirstLine()` on a text file with no lines (src/wxMaxima.cpp:211), which reads
  past the end of an empty line array; the model does not capture that read.
- Sessions.Session.SetupVariables: the source writes the five SendMaxima calls out;
  the method runs over the list of five commands instead.
- Sessions.Session.StartMaxima: the `wxProcess` object and the input stream are not
  kept. The launch is the command line logged in `launches`.
- Sessions.Session.FindPort: the source's loop has no bound, so the method requires a
  free port at or above the configured one. Without one the source loops forever.

## Findings

| source | as written | input that shows it | evidently intended | confidence | as-written member | corrected member |
|---|---|---|---|---|---|---|
| src/wxMaxima.cpp:730-733 | the position of "pid=" is used without checking for -1, so without the tag the scan starts at index 3 and strtol of non-digits stores 0 | first output "Maxima\n(%i1) " with pid -1 gives pid 0, and a later kill signal then goes to process 0 (the whole process group) | the pid stays unchanged when the output holds no "pid=" | not executed | Rules.PidWithoutTag | Rules.AnnouncedPidRoundTrip |
