# Safe shell and hex viewer, modelled in Dafny

This project models the two programs of the repository that hold real logic. Their properties are proved with Dafny's verifier.

**The safe shell** (`03_safe_shell/src/main.rs`) is a small read-eval-print loop:

- It prints a prompt and reads a line.
- It splits the line on runs of Unicode whitespace into a command name and its arguments.
- `exit` leaves the loop.
- `cd` changes the shell's own working directory, to `/` when no argument is given.
- Any other name is spawned as a child process and waited for before the next prompt.

Every failure of a host call is reported and the loop goes on: a failed flush, read, directory change, spawn or wait. Failures of the shell's own printing are the exception: they panic (see "Left out").

The model has three layers:

- `shell_parse.dfy` (module `ShellParse`) holds the pure part: trimming, tokenising (`split_whitespace`), parsing and the built-in/external classification.
- `safe_shell.dfy` (module `SafeShell`) holds the operating system's side. Each answer it gives is an oracle reply (`HostReplies`): flush, read, `set_current_dir`, spawn, wait. What the shell does is recorded as a trace of `Event`s.
- The loop itself is the class `Shell`. Its fields are the directory, the status (`Running`/`Terminated`) and the trace. `Step` is one turn of the loop, in which an early `return` is the source's `continue`. `Run` is the `loop` with its single `break`.

`Step` and `Run` are proved against the specification functions `Iterate` and `Session`. The lemmas state the promised behaviour in terms of those two functions.

End of input is not a way out of the loop: at end of input `read_line` succeeds with an empty string, and the empty-line `continue` of line 35 starts the next turn. The model follows the code; `EndOfInputNeverTerminates` and `OnlyExitTerminates` state the consequence.

**The hex viewer** (`02_hex_viewer/src/main.rs`) prints a file as a hex dump. Each line holds up to 16 bytes (`BYTES_PER_LINE`) and has four parts:

- The offset, as at least eight zero-padded lowercase hex digits.
- Sixteen fixed-width hex columns, with an extra space after column 7.
- An ASCII gutter between `|` delimiters.
- A newline.

`hex_viewer.dfy` (module `HexViewer`) models it as follows:

- `HexLine` specifies one line. The method `FormatHexLine` builds the line piece by piece, with the two `for` loops of `print_hex_line`.
- `HexDump` models `main`: the argument check, opening the file, and the loop that reads into a 16-byte `array` buffer (`ReadInto`) and advances the offset.
- The answers of `File::open` and of each `read` are oracle replies.
- Printed lines are returned as strings. Every line can be read back (`LineOffset`, `LineBytes`) into the offset and the bytes it was printed from.

## Model

| member | source | states |
|---|---|---|
| ShellParse.DEFAULT_CD_TARGET | 03_safe_shell/src/main.rs:53 | the directory a bare `cd` changes to, `/`; used by `Classify`'s contract |
| ShellParse.IsWhitespace | 03_safe_shell/src/main.rs:30 | the Unicode White_Space class (`char::is_whitespace`) that `trim` and `split_whitespace` use |
| ShellParse.TrimStart | 03_safe_shell/src/main.rs:30 | leading-whitespace removal, the first half of `trim`; what it keeps and cuts is stated by `TrimStartShape` |
| ShellParse.TrimEnd | 03_safe_shell/src/main.rs:30 | trailing-whitespace removal, the second half of `trim`; what it keeps and cuts is stated by `TrimEndShape` |
| ShellParse.TrimStartShape | 03_safe_shell/src/main.rs:30 | `trim_start` keeps a suffix of the line, cuts only whitespace, and what it keeps does not start with whitespace |
| ShellParse.TrimEndShape | 03_safe_shell/src/main.rs:30 | `trim_end` keeps a prefix of the line, cuts only whitespace, and what it keeps does not end with whitespace |
| ShellParse.Trim | 03_safe_shell/src/main.rs:30 | `str::trim`; what it keeps and cuts is stated by `TrimStripsBothEnds`, and that it changes no token by `TrimKeepsTokens` |
| ShellParse.Tokens | 03_safe_shell/src/main.rs:30 | every token `split_whitespace` yields is non-empty and free of whitespace |
| ShellParse.Parse | 03_safe_shell/src/main.rs:30-39 | no command exactly when the line is blank; otherwise name followed by arguments is exactly the line's token list, each a non-empty whitespace-free word |
| ShellParse.Classify | 03_safe_shell/src/main.rs:43-61 | `exit` iff the name is exactly `exit`; `cd` iff the name is exactly `cd`, its target being the first argument or `/` with further arguments ignored; any other name is an external program with exactly the parsed arguments |
| ShellParse.BlankIffNoTokens | 03_safe_shell/src/main.rs:33-36 | a line has no first token exactly when it is empty or all whitespace |
| ShellParse.TrimKeepsTokens | 03_safe_shell/src/main.rs:28-30 | `trim` before `split_whitespace` changes no token |
| ShellParse.TrimStripsBothEnds | 03_safe_shell/src/main.rs:30 | `trim` leaves a contiguous middle part of the line with only whitespace cut on both sides, not starting or ending with whitespace, and empty exactly for a blank line |
| ShellParse.TokensKeepEveryOtherCharacter | 03_safe_shell/src/main.rs:30 | the tokens, concatenated, are exactly the line's non-whitespace characters in order: splitting drops whitespace and nothing else |
| ShellParse.UnwordsRoundTrip | 03_safe_shell/src/main.rs:30 | words joined by single spaces split back into the same words in the same order |
| ShellParse.TokensExample | 03_safe_shell/src/main.rs:30 | `"  foo   bar  baz  "` splits into `["foo","bar","baz"]` |
| ShellParse.ParseExample | 03_safe_shell/src/main.rs:30-39 | `"  foo   bar  baz  "` parses to name `foo` with arguments `["bar","baz"]` |
| SafeShell.NotFoundMessage | 03_safe_shell/src/main.rs:74 | the text of the spawn-failure diagnostic: `Command not found: '<name>' (<error>)`; it appears in the trace as stated by `ExternalSpawnsParsedArgs` |
| SafeShell.Dispatch | 03_safe_shell/src/main.rs:43-78 | every command produces at least one event; the loop terminates exactly for `exit`; only `cd` can change the directory. The events of each kind of command are stated by `OnlyExitTerminates`, `CdNeverSpawns` and `ExternalSpawnsParsedArgs` |
| SafeShell.CommandOf | 03_safe_shell/src/main.rs:14-39 | an iteration reaches a command exactly when the flush and the read succeed and the line is not blank |
| SafeShell.Iterate | 03_safe_shell/src/main.rs:10-78 | every turn of the loop starts with the prompt and the flush and records at least three events; each of its paths is stated by the lemmas below and by `Shell.Step` |
| SafeShell.FlushFailureSkipsRead | 03_safe_shell/src/main.rs:12-17 | a failed flush reports `Error flushing stdout:` and restarts the loop before reading, with directory and status unchanged |
| SafeShell.ReadFailureSkipsDispatch | 03_safe_shell/src/main.rs:20-25 | a failed read reports `Error reading input:` and restarts the loop without parsing or running anything |
| SafeShell.BlankLineDoesNothing | 03_safe_shell/src/main.rs:33-36 | a blank line, the empty line of end of input included, makes no host call beyond prompt, flush and read, and the loop continues in the same directory |
| SafeShell.OnlyExitTerminates | 03_safe_shell/src/main.rs:43-47 | an iteration terminates exactly when the line parses to the name `exit` (with any arguments); it then only says farewell and keeps the directory |
| SafeShell.IterateTerminates | 03_safe_shell/src/main.rs:43-47 | an iteration terminates exactly when the command it reaches is `exit`, and then its events are the read followed by the farewell alone |
| SafeShell.CdNeverSpawns | 03_safe_shell/src/main.rs:48-56 | `cd` spawns and waits for nothing; it changes to the first argument or `/`; on success the directory becomes the target, on failure a `cd: ` diagnostic follows and the directory is unchanged; the loop goes on |
| SafeShell.ExternalSpawnsParsedArgs | 03_safe_shell/src/main.rs:58-76 | any other name is spawned in the current directory with exactly the words that followed it; a started child is waited for next, a failed wait is reported; a failed spawn reports `Command not found: '<name>' (<error>)` and is not waited for; directory and status unchanged |
| SafeShell.DispatchIsForeground | 03_safe_shell/src/main.rs:43-78 | the events of any command keep the foreground discipline: a started child is waited for before anything else happens |
| SafeShell.IterationIsForeground | 03_safe_shell/src/main.rs:9-79 | every iteration leaves no child outstanding and never has two at once |
| SafeShell.SessionIsForeground | 03_safe_shell/src/main.rs:9-79 | the whole session keeps the foreground discipline |
| SafeShell.WaitFollowsEverySpawn | 03_safe_shell/src/main.rs:63-71 | in a trace that keeps the discipline, every started child is followed immediately by its wait |
| SafeShell.SessionWaitsForEveryChild | 03_safe_shell/src/main.rs:63-71 | in the session's trace, every started child is followed immediately by `Wait`, before the next prompt or read |
| SafeShell.Session | 03_safe_shell/src/main.rs:9-79 | the loop uses at most the replies it is given, stops early only on termination, and a terminated session used at least one reply |
| SafeShell.SessionStopsAtFirstExit | 03_safe_shell/src/main.rs:9-47 | the session terminates iff some line is `exit`; it then stops right after the first such line, and its last event is the farewell |
| SafeShell.EndOfInputNeverTerminates | 03_safe_shell/src/main.rs:20-36 | if every read is at end of input, the loop keeps running in the same directory with one prompt, flush and read per iteration and nothing else |
| SafeShell.QuietIteration | 03_safe_shell/src/main.rs:14-76 | a turn that fails before dispatch, reads a blank line or runs an external command keeps the directory and the loop running |
| SafeShell.ExternalSpawnsInCurrentDirectory | 03_safe_shell/src/main.rs:58-76 | a turn running an external command spawns it, right after the read, in the current directory with its parsed arguments |
| SafeShell.SessionSnoc | 03_safe_shell/src/main.rs:9-79 | after quiet turns the loop runs on in the same directory, and one more line only appends its own turn's events, run in that directory |
| SafeShell.QuietKeepsDirectory | 03_safe_shell/src/main.rs:9-76 | after any number of such quiet turns, the next line's external command is spawned in the directory the run started in, as the event right after that line's read |
| SafeShell.CdThenSpawnRunsInNewDirectory | 03_safe_shell/src/main.rs:14-61 | after a successful `cd dir`, followed by any number of failed, blank or external lines, the external command of the line after them is spawned in `dir`, as the event right after that line's read, and the session is still in `dir` |
| SafeShell.Shell.Execute | 03_safe_shell/src/main.rs:43-78 | carrying out a classified command appends exactly its dispatch events and sets directory and status as the dispatch says |
| SafeShell.Shell.Step | 03_safe_shell/src/main.rs:10-78 | one turn of the loop, with its three `continue`s as early returns, appends exactly the iteration's events and takes its directory and status |
| SafeShell.Shell.Run | 03_safe_shell/src/main.rs:9-79 | the loop over the given replies, leaving only at `exit`, produces exactly the session's trace, directory, status and number of turns |
| HexViewer.BYTES_PER_LINE | 02_hex_viewer/src/main.rs:7 | the 16 bytes one line shows and the size of the read buffer; used by `HexLine`, `FormatHexLine`, `LineRoundTrip` and `HexDump` |
| HexViewer.UsageMessage | 02_hex_viewer/src/main.rs:16 | the text printed on a wrong argument count: `Usage: <program> <file_path>`; when it is printed is stated by `HexDump` |
| HexViewer.ExitCode | 02_hex_viewer/src/main.rs:15-18 | status 0 for a completed dump, 1 for `exit(1)` after the usage message or for an `Err` returned by `main` (lines 25 and 39), 101 for the panic of indexing a missing argument; used by `HexDump`'s contract |
| HexViewer.ToHex | 02_hex_viewer/src/main.rs:62 | `{:x}`: lowercase hex digits denoting the number, without a leading zero |
| HexViewer.ToHexFits | 02_hex_viewer/src/main.rs:62 | a number fits in k hex digits exactly when it is below 16^k |
| HexViewer.OffsetField | 02_hex_viewer/src/main.rs:62 | `{:08x}`: at least eight lowercase hex digits denoting the offset, exactly eight iff the offset is below 2^32, no padding beyond that |
| HexViewer.Hex2 | 02_hex_viewer/src/main.rs:67 | `{:02x}`: exactly two lowercase hex digits denoting the byte |
| HexViewer.Column | 02_hex_viewer/src/main.rs:65-76 | one hex column: two digits and a space, or three spaces past the end of the data, plus the gap after column 7; its layout is stated by `HexAreaLayout` |
| HexViewer.HexArea | 02_hex_viewer/src/main.rs:65-76 | the first `k` columns in order; their width and layout are stated by `HexAreaWidth` and `HexAreaLayout` |
| HexViewer.Gutter | 02_hex_viewer/src/main.rs:80-91 | the ASCII gutter; stated by `GutterShowsEachByte` |
| HexViewer.HexLine | 02_hex_viewer/src/main.rs:59-93 | everything one call of `print_hex_line` prints; its layout is stated by `HexLineLayout` and `HexLineLength`, its readability by `LineRoundTrip`, and `FormatHexLine` builds it |
| HexViewer.Printable | 02_hex_viewer/src/main.rs:81-90 | a byte from 32 to 126 is shown as itself, any other as `.`; the shown character is always printable ASCII |
| HexViewer.GutterShowsEachByte | 02_hex_viewer/src/main.rs:80-91 | the gutter has exactly one character per byte, the byte's printable form, in order |
| HexViewer.HexAreaWidth | 02_hex_viewer/src/main.rs:65-76 | the first k hex columns take three characters each, plus one for the gap once column 7 is passed, so the full 16 columns take 49 characters however few bytes the line has |
| HexViewer.HexAreaLayout | 02_hex_viewer/src/main.rs:65-76 | column i holds the byte's two digits and a space, or three spaces when there is no byte i; the character after column 7 is a space |
| HexViewer.HexLineLayout | 02_hex_viewer/src/main.rs:59-93 | a line is the offset field, two spaces, the 49-character hex area, a space and a bar, the gutter, a closing bar and a newline, at fixed positions from the end of the offset field |
| HexViewer.HexLineLength | 02_hex_viewer/src/main.rs:62-91 | below offset 2^32 the offset field is the first eight characters and the line is 62 + n characters before its newline |
| HexViewer.FormatHexLine | 02_hex_viewer/src/main.rs:59-93 | the two loops of `print_hex_line` build exactly `HexLine` |
| HexViewer.LineRoundTrip | 02_hex_viewer/src/main.rs:59-93 | reading a printed line back gives the offset and the bytes it was printed from |
| HexViewer.Chunks | 02_hex_viewer/src/main.rs:35-46 | the chunks printed are the data of the reads before the first read that is empty or fails, each non-empty |
| HexViewer.Dump | 02_hex_viewer/src/main.rs:35-48 | one printed line per chunk; stated by `DumpLines` and `DumpRoundTrip` |
| HexViewer.DumpLines | 02_hex_viewer/src/main.rs:33-48 | line k shows chunk k at the offset equal to the number of bytes in all earlier chunks |
| HexViewer.DumpRoundTrip | 02_hex_viewer/src/main.rs:31-49 | reading the dump's lines back, one after another, gives all chunks concatenated, and each line shows the offset of the bytes before it |
| HexViewer.ReadInto | 02_hex_viewer/src/main.rs:39 | a read places its bytes at the front of the buffer and leaves the rest in place |
| HexViewer.HexDump | 02_hex_viewer/src/main.rs:9-50 | with other than two arguments: the usage message and exit code 1, or a panic with no arguments at all, with no file opened or read; otherwise the file named by the second argument is opened, an open error ends the run, and the lines printed are exactly the dump of the chunks; one read per chunk plus the final one; a failing read ends the run with its error, and an empty read ends it normally |

## Left out

- Text output: the welcome and goodbye banners and their emoji, the literal prompt `> ` and the diagnostics' stream are left out as cosmetic. The prompt shows as a `Prompt` event, the goodbye as `Farewell`, and each `eprintln!` as a `Diagnostic` with its text.
- The operating system's side of the shell is left out as foreign calls: standard input and output, `set_current_dir`, PATH lookup, the child's own behaviour and its exit status. Each call's outcome is an oracle reply. The shell ignores the child's exit status, and so does the model.
- `SafeShell.CdNeverSpawns`: the directory becomes the target string as typed. Resolving a relative path or `..` against the old directory is the operating system's business, so it is not modelled.
- Timing and concurrency between the shell and its child are left out. Only the order of events is modelled: spawn, then wait, before the next prompt.
- `SafeShell.Shell.Run`: the source loop can run forever. The model runs it over a finite list of replies, one per turn, so running out of replies is not termination. The status stays `Running`.
- The shell's `print!`, `println!` and `eprintln!` (03_safe_shell/src/main.rs:12, 15, 23, 45, 55, 69, 74) panic when their write fails, which ends the loop with status 101. This is not modelled: output always succeeds, and only `flush` can fail.
- Writing to stdout in the hex viewer could fail, and `print!` then panics. This is not modelled: printing always succeeds.
- Arguments that are not valid Unicode make `env::args` panic. This is not modelled.
- `File::open` and `BufReader` internals are left out as foreign: their answers are oracle replies. `HexDump` requires that each read returns at most 16 bytes, which is the `Read` contract: never more than the buffer holds.
- When `main` returns an error through `?`, Rust's runtime prints the error and exits with status 1. The model records the error in the outcome and gives the exit status through `ExitCode`; the printed text is not modelled.
- The `usize` offset is modelled as an unbounded natural number. It would overflow only past 2^64 bytes on 64-bit targets; on a 32-bit target `offset += n` overflows past 2^32 bytes, which panics in debug builds and wraps around in release builds.
