/*
 * The read-eval-print loop of the safe shell (03_safe_shell/src/main.rs,
 * lines 9-79). The operating system is not modelled: every answer it gives
 * (flushing stdout, reading a line, changing directory, spawning a child,
 * waiting for it) is supplied as an oracle reply, and what the shell does is
 * recorded as a trace of host events.
 */
module SafeShell {
  import opened ShellParse
  import opened Sequences

  /** What one host call reports: `Ok(())`, or an `io::Error` with its displayed text. */
  datatype HostResult = Success | Failure(error: string)

  /** What `read_line` reports: the text it read (empty at end of input), or an error. */
  datatype LineResult = Line(text: string) | ReadFailure(error: string)

  /**
   * The host's answers for one iteration of the loop. An iteration asks for
   * some of them only (a `cd` asks for `chdir`, an external command for
   * `spawn` and perhaps `wait`); the others are ignored.
   */
  datatype HostReplies = HostReplies(
    flush: HostResult,
    read: LineResult,
    chdir: HostResult,
    spawn: HostResult,
    wait: HostResult)

  /** The observable steps of the shell, in the order it performs them. */
  datatype Event =
    | Prompt                    // print!("> ")
    | Flush                     // io::stdout().flush()
    | ReadLine                  // io::stdin().read_line(..)
    | ChangeDir(path: string)   // env::set_current_dir(..)
      /** Command::new(program).args(args).spawn(), run in `dir`; `started` is whether it succeeded */
    | Spawn(program: string, args: seq<string>, dir: string, started: bool)
    | Wait                      // child.wait()
    | Diagnostic(message: string)  // eprintln!(..)
    | Farewell                  // the goodbye banner

  datatype Status = Running | Terminated

  /** The effect of one iteration: its events, the shell's directory afterwards and its status. */
  datatype Iteration = Iteration(events: seq<Event>, cwd: string, status: Status)

  // ---------------------------------------------------------------------------
  // Foreground discipline: at most one child, and it is waited for at once
  // ---------------------------------------------------------------------------

  /**
   * Runs a trace through the foreground discipline, starting with (`busy`) or
   * without a child that has not been waited for. A started child must be
   * followed by `Wait` before anything else happens, and `Wait` is only
   * allowed for such a child. `None` means the trace breaks the discipline;
   * otherwise the result says whether a child is still outstanding at the end.
   */
  function Foreground(t: seq<Event>, busy: bool): Option<bool>
    decreases |t|
  {
    if t == [] then Some(busy)
    else match t[0]
      case Spawn(_, _, _, started) => if busy then None else Foreground(t[1..], started)
      case Wait => if busy then Foreground(t[1..], false) else None
      case _ => if busy then None else Foreground(t[1..], false)
  }

  /** A trace that never has two children, waits for each before anything else, and leaves none behind. */
  predicate ForegroundOnly(t: seq<Event>) {
    Foreground(t, false) == Some(false)
  }

  /** A trace that neither spawns nor waits. */
  predicate NoChild(t: seq<Event>) {
    forall k | 0 <= k < |t| :: !t[k].Spawn? && !t[k].Wait?
  }

  /** A trace without children keeps the discipline trivially. */
  lemma {:induction false} NoChildIsForeground(t: seq<Event>)
    requires NoChild(t)
    ensures ForegroundOnly(t)
    decreases |t|
  {
    if t != [] {
      assert NoChild(t[1..]) by {
        forall k | 0 <= k < |t[1..]| ensures !t[1..][k].Spawn? && !t[1..][k].Wait? {
          assert t[1..][k] == t[k + 1];
        }
      }
      NoChildIsForeground(t[1..]);
    }
  }

  // ---------------------------------------------------------------------------
  // One iteration as a function of the host's replies
  // ---------------------------------------------------------------------------

  /** The message of line 74 for a spawn that failed. */
  function NotFoundMessage(program: string, error: string): string {
    "Command not found: '" + program + "' (" + error + ")"
  }

  /**
   * Lines 43-78: carry out a classified command. `exit` ends the loop, `cd`
   * changes the shell's own directory, anything else is spawned in the
   * current directory and, if it started, waited for.
   */
  function Dispatch(cwd: string, command: Command, host: HostReplies): (d: Iteration)
    ensures d.events != []
    ensures d.status == Terminated <==> command.Exit?
    ensures !command.Cd? ==> d.cwd == cwd
  {
    match command
    case Exit =>
      Iteration([Farewell], cwd, Terminated)
    case Cd(target) =>
      if host.chdir.Success? then Iteration([ChangeDir(target)], target, Running)
      else Iteration([ChangeDir(target), Diagnostic("cd: " + host.chdir.error)], cwd, Running)
    case External(program, args) =>
      if host.spawn.Success? then
        var waited := if host.wait.Success? then [] else [Diagnostic("Failed to wait on child: " + host.wait.error)];
        Iteration([Spawn(program, args, cwd, true), Wait] + waited, cwd, Running)
      else
        Iteration([Spawn(program, args, cwd, false), Diagnostic(NotFoundMessage(program, host.spawn.error))], cwd, Running)
  }

  /** The command an iteration dispatches, if it gets that far: flush and read succeeded and the line is not blank. */
  function CommandOf(host: HostReplies): (c: Option<Command>)
    ensures c.Some? <==> host.flush.Success? && host.read.Line? && !IsBlank(host.read.text)
  {
    if host.flush.Failure? || host.read.ReadFailure? then None
    else match Parse(host.read.text)
      case None => None
      case Some(inv) => Some(Classify(inv))
  }

  /** The events of an iteration up to and including the read. */
  const READ: seq<Event> := [Prompt, Flush, ReadLine]

  /**
   * Lines 9-79, one turn of the loop: prompt, flush (a failure restarts the
   * loop before reading), read (a failure restarts it), skip a blank line,
   * otherwise dispatch.
   */
  function Iterate(cwd: string, host: HostReplies): (it: Iteration)
    ensures |it.events| >= 3 && it.events[..2] == [Prompt, Flush]
  {
    if host.flush.Failure? then
      Iteration([Prompt, Flush, Diagnostic("Error flushing stdout: " + host.flush.error)], cwd, Running)
    else if host.read.ReadFailure? then
      Iteration(READ + [Diagnostic("Error reading input: " + host.read.error)], cwd, Running)
    else match Parse(host.read.text)
      case None => Iteration(READ, cwd, Running)
      case Some(inv) =>
        var d := Dispatch(cwd, Classify(inv), host);
        Iteration(READ + d.events, d.cwd, d.status)
  }

  /** An iteration that gets as far as a command is the read followed by that command's dispatch. */
  lemma IterateDispatches(cwd: string, host: HostReplies, command: Command)
    requires CommandOf(host) == Some(command)
    ensures Iterate(cwd, host) == Iteration(READ + Dispatch(cwd, command, host).events,
      Dispatch(cwd, command, host).cwd, Dispatch(cwd, command, host).status)
  {
  }

  /** A failed flush restarts the loop before anything is read. */
  lemma FlushFailureSkipsRead(cwd: string, host: HostReplies)
    requires host.flush.Failure?
    ensures Iterate(cwd, host) == Iteration([Prompt, Flush, Diagnostic("Error flushing stdout: " + host.flush.error)], cwd, Running)
  {
  }

  /** A failed read restarts the loop: nothing is parsed or run. */
  lemma ReadFailureSkipsDispatch(cwd: string, host: HostReplies)
    requires host.flush.Success? && host.read.ReadFailure?
    ensures Iterate(cwd, host) == Iteration(READ + [Diagnostic("Error reading input: " + host.read.error)], cwd, Running)
  {
  }

  /** A blank line, the empty line of end of input included, restarts the loop without touching anything. */
  lemma BlankLineDoesNothing(cwd: string, host: HostReplies)
    requires host.flush.Success? && host.read.Line? && IsBlank(host.read.text)
    ensures Iterate(cwd, host) == Iteration(READ, cwd, Running)
  {
  }

  /** The outcome of a run of iterations: its events, the final directory and status, and how many replies it used. */
  datatype SessionOutcome = SessionOutcome(events: seq<Event>, cwd: string, status: Status, consumed: nat)

  /** The loop over a finite list of per-iteration replies; it stops early only when an iteration terminates. */
  function Session(cwd: string, replies: seq<HostReplies>): (s: SessionOutcome)
    ensures s.consumed <= |replies|
    ensures s.status == Running ==> s.consumed == |replies|
    ensures s.status == Terminated ==> s.consumed > 0
    decreases |replies|
  {
    if replies == [] then SessionOutcome([], cwd, Running, 0)
    else
      var it := Iterate(cwd, replies[0]);
      if it.status == Terminated then SessionOutcome(it.events, it.cwd, Terminated, 1)
      else
        var rest := Session(it.cwd, replies[1..]);
        SessionOutcome(it.events + rest.events, rest.cwd, rest.status, 1 + rest.consumed)
  }

  /** `s` with `events` and `k` consumed replies put in front of it. */
  function Resume(events: seq<Event>, k: nat, s: SessionOutcome): SessionOutcome {
    SessionOutcome(events + s.events, s.cwd, s.status, k + s.consumed)
  }

  // ---------------------------------------------------------------------------
  // The loop itself, as the source runs it
  // ---------------------------------------------------------------------------

  /** The shell's own state: its working directory, whether the loop still runs, and what it has done. */
  class Shell {
    var cwd: string
    var status: Status
    var trace: seq<Event>

    constructor (startDir: string)
      ensures cwd == startDir && status == Running && trace == []
    {
      cwd := startDir;
      status := Running;
      trace := [];
    }

    /**
     * One turn of the loop (lines 10-78). Each early `return` is the source's
     * `continue`: after a flush failure (before reading), after a read
     * failure and after a blank line.
     */
    method Step(host: HostReplies)
      requires status == Running
      modifies this
      ensures var it := Iterate(old(cwd), host);
        && trace == old(trace) + it.events
        && cwd == it.cwd
        && status == it.status
    {
      // 1. Print the prompt and flush it.
      trace := trace + [Prompt, Flush];
      if host.flush.Failure? {
        trace := trace + [Diagnostic("Error flushing stdout: " + host.flush.error)];
        FlushFailureSkipsRead(cwd, host);
        assert trace == old(trace) + [Prompt, Flush, Diagnostic("Error flushing stdout: " + host.flush.error)];
        return;
      }

      // 2. Read one line into a fresh buffer.
      var input := "";
      trace := trace + [ReadLine];
      assert trace == old(trace) + READ;
      if host.read.ReadFailure? {
        trace := trace + [Diagnostic("Error reading input: " + host.read.error)];
        ReadFailureSkipsDispatch(cwd, host);
        return;
      }
      input := input + host.read.text;
      assert input == host.read.text;

      // 3. Split it into a command name and its arguments.
      var parsed := Parse(input);
      if parsed.None? {
        BlankLineDoesNothing(cwd, host);
        return;
      }

      // 4. Run the command.
      var command := Classify(parsed.value);
      IterateDispatches(cwd, host, command);
      ghost var dir := cwd;
      Execute(command, host);
      Regroup(old(trace), READ, Dispatch(dir, command, host).events, trace);
    }

    /**
     * Lines 43-78: run a classified command. The built-ins act on the shell
     * itself; anything else is spawned and, if it started, waited for.
     */
    method Execute(command: Command, host: HostReplies)
      requires status == Running
      modifies this
      ensures var d := Dispatch(old(cwd), command, host);
        && trace == old(trace) + d.events
        && cwd == d.cwd
        && status == d.status
    {
      match command
      case Exit =>
        trace := trace + [Farewell];
        status := Terminated;
      case Cd(target) =>
        trace := trace + [ChangeDir(target)];
        if host.chdir.Success? {
          cwd := target;
        } else {
          trace := trace + [Diagnostic("cd: " + host.chdir.error)];
        }
      case External(program, args) =>
        trace := trace + [Spawn(program, args, cwd, host.spawn.Success?)];
        if host.spawn.Success? {
          trace := trace + [Wait];
          if host.wait.Failure? {
            trace := trace + [Diagnostic("Failed to wait on child: " + host.wait.error)];
          }
        } else {
          trace := trace + [Diagnostic(NotFoundMessage(program, host.spawn.error))];
        }
    }

    /**
     * The `loop` of lines 9-79 while the host has replies for it, one reply
     * per iteration; `exit` is its only `break`. Returns how many iterations ran.
     */
    method Run(replies: seq<HostReplies>) returns (consumed: nat)
      requires status == Running
      modifies this
      ensures var s := Session(old(cwd), replies);
        && trace == old(trace) + s.events
        && cwd == s.cwd
        && status == s.status
        && consumed == s.consumed
    {
      ghost var start, done, goal := trace, [], Session(cwd, replies);
      assert replies[0..] == replies;
      var i := 0;
      while i < |replies|
        invariant 0 <= i <= |replies|
        invariant status == Running
        invariant trace == start + done
        invariant goal == Resume(done, i, Session(cwd, replies[i..]))
        decreases |replies| - i
      {
        ghost var dir := cwd;
        Step(replies[i]);
        ghost var it := Iterate(dir, replies[i]);
        SessionResumes(goal, replies, i, done, dir, it.events, cwd, status);
        Regroup(start, done, it.events, trace);
        done := done + it.events;
        i := i + 1;
        if status == Terminated {
          break;
        }
      }
      if status == Running {
        SessionEnds(goal, replies, i, done, cwd);
      }
      consumed := i;
    }
  }

  /**
   * Bookkeeping for `Run`: when `i` iterations have produced `done`, the
   * session is `done` followed by the session on the remaining replies, and
   * one more iteration moves its events from the second part to the first.
   */
  lemma SessionResumes(goal: SessionOutcome, replies: seq<HostReplies>, i: nat, done: seq<Event>, cwd: string,
                        events: seq<Event>, next: string, status: Status)
    requires i < |replies|
    requires goal == Resume(done, i, Session(cwd, replies[i..]))
    requires Iterate(cwd, replies[i]) == Iteration(events, next, status)
    ensures status == Running ==> goal == Resume(done + events, i + 1, Session(next, replies[i + 1..]))
    ensures status == Terminated ==> goal == SessionOutcome(done + events, next, Terminated, i + 1)
  {
    assert replies[i..][0] == replies[i];
    assert replies[i..][1..] == replies[i + 1..];
    if status == Running {
      var rest := Session(next, replies[i + 1..]);
      assert done + (events + rest.events) == (done + events) + rest.events;
    }
  }

  /** Bookkeeping for `Run`: once every reply is used, the session is exactly what the loop did. */
  lemma SessionEnds(goal: SessionOutcome, replies: seq<HostReplies>, i: nat, done: seq<Event>, cwd: string)
    requires i == |replies|
    requires goal == Resume(done, i, Session(cwd, replies[i..]))
    ensures goal == SessionOutcome(done, cwd, Running, i)
  {
    assert done + [] == done;
  }

  // ---------------------------------------------------------------------------
  // Properties of the loop
  // ---------------------------------------------------------------------------

  /** Running one trace after another runs the second from where the first left off. */
  lemma {:induction false} ForegroundConcat(a: seq<Event>, b: seq<Event>, busy: bool)
    ensures Foreground(a + b, busy) ==
      match Foreground(a, busy)
      case None => None
      case Some(next) => Foreground(b, next)
    decreases |a|
  {
    if a == [] {
      assert a + b == b;
    } else {
      assert (a + b)[0] == a[0];
      assert (a + b)[1..] == a[1..] + b;
      match a[0]
      case Spawn(_, _, _, started) =>
        if !busy { ForegroundConcat(a[1..], b, started); }
      case Wait =>
        if busy { ForegroundConcat(a[1..], b, false); }
      case _ =>
        if !busy { ForegroundConcat(a[1..], b, false); }
    }
  }

  lemma ForegroundPrefix(a: seq<Event>, b: seq<Event>)
    requires ForegroundOnly(a) && ForegroundOnly(b)
    ensures ForegroundOnly(a + b)
  {
    ForegroundConcat(a, b, false);
  }

  /** A command's events keep the foreground discipline: a started child is waited for before anything else. */
  lemma DispatchIsForeground(cwd: string, command: Command, host: HostReplies)
    ensures ForegroundOnly(Dispatch(cwd, command, host).events)
  {
    var d := Dispatch(cwd, command, host);
    match command
    case Exit =>
      NoChildIsForeground(d.events);
    case Cd(_) =>
      NoChildIsForeground(d.events);
    case External(program, args) =>
      if host.spawn.Success? {
        var waited := if host.wait.Success? then [] else [Diagnostic("Failed to wait on child: " + host.wait.error)];
        assert d.events == [Spawn(program, args, cwd, true), Wait] + waited;
        NoChildIsForeground(waited);
        ForegroundConcat([Spawn(program, args, cwd, true), Wait], waited, false);
      } else {
        var report := [Diagnostic(NotFoundMessage(program, host.spawn.error))];
        assert d.events == [Spawn(program, args, cwd, false)] + report;
        NoChildIsForeground(report);
        ForegroundConcat([Spawn(program, args, cwd, false)], report, false);
      }
  }

  /** So does every iteration of the loop. */
  lemma IterationIsForeground(cwd: string, host: HostReplies)
    ensures ForegroundOnly(Iterate(cwd, host).events)
  {
    var it := Iterate(cwd, host);
    match CommandOf(host)
    case None =>
      NoChildIsForeground(it.events);
    case Some(command) =>
      IterateDispatches(cwd, host, command);
      NoChildIsForeground(READ);
      DispatchIsForeground(cwd, command, host);
      ForegroundPrefix(READ, Dispatch(cwd, command, host).events);
  }

  /** The whole session keeps the foreground discipline: at most one child at a time, each waited for at once. */
  lemma {:induction false} SessionIsForeground(cwd: string, replies: seq<HostReplies>)
    ensures ForegroundOnly(Session(cwd, replies).events)
    decreases |replies|
  {
    if replies != [] {
      var it := Iterate(cwd, replies[0]);
      IterationIsForeground(cwd, replies[0]);
      if it.status == Running {
        SessionIsForeground(it.cwd, replies[1..]);
        ForegroundPrefix(it.events, Session(it.cwd, replies[1..]).events);
      }
    }
  }

  /** In a foreground trace, a child that started is waited for by the very next event. */
  lemma {:induction false} WaitFollowsEverySpawn(t: seq<Event>, busy: bool)
    requires Foreground(t, busy) == Some(false)
    ensures busy ==> |t| > 0 && t[0] == Wait
    ensures forall k | 0 <= k < |t| && t[k].Spawn? && t[k].started :: k + 1 < |t| && t[k + 1] == Wait
    decreases |t|
  {
    if t != [] {
      var next := match t[0] case Spawn(_, _, _, started) => started case _ => false;
      WaitFollowsEverySpawn(t[1..], next);
      forall k | 0 <= k < |t| && t[k].Spawn? && t[k].started ensures k + 1 < |t| && t[k + 1] == Wait {
        if k > 0 { assert t[k] == t[1..][k - 1]; }
      }
    }
  }

  /** Index of the first reply whose line is `exit`, or the number of replies when there is none. */
  function FirstExit(replies: seq<HostReplies>): (k: nat)
    ensures k <= |replies|
    ensures forall j | 0 <= j < k :: CommandOf(replies[j]) != Some(Exit)
    ensures k < |replies| ==> CommandOf(replies[k]) == Some(Exit)
    decreases |replies|
  {
    if replies == [] then 0
    else if CommandOf(replies[0]) == Some(Exit) then 0
    else 1 + FirstExit(replies[1..])
  }

  /**
   * `exit` is the only way out: the session terminates exactly when some line
   * is `exit`, it stops right after the first one, and its last act is the farewell.
   */
  lemma {:induction false} SessionStopsAtFirstExit(cwd: string, replies: seq<HostReplies>)
    ensures var s := Session(cwd, replies);
      && (s.status == Terminated <==> FirstExit(replies) < |replies|)
      && s.consumed == (if FirstExit(replies) < |replies| then FirstExit(replies) + 1 else |replies|)
      && (s.status == Terminated ==> |s.events| > 0 && s.events[|s.events| - 1] == Farewell)
    decreases |replies|
  {
    if replies != [] {
      var it := Iterate(cwd, replies[0]);
      IterateTerminates(cwd, replies[0]);
      if it.status == Running {
        assert FirstExit(replies) == 1 + FirstExit(replies[1..]);
        var rest := Session(it.cwd, replies[1..]);
        SessionStopsAtFirstExit(it.cwd, replies[1..]);
        if rest.status == Terminated {
          LastOfAppend(it.events, rest.events);
        }
      }
    }
  }

  /** An iteration terminates exactly when its line is `exit`, and then only says farewell. */
  lemma IterateTerminates(cwd: string, host: HostReplies)
    ensures Iterate(cwd, host).status == Terminated <==> CommandOf(host) == Some(Exit)
    ensures CommandOf(host) == Some(Exit) ==> Iterate(cwd, host).events == READ + [Farewell]
  {
    match CommandOf(host)
    case None =>
    case Some(command) =>
      IterateDispatches(cwd, host, command);
  }

  /**
   * End of input is not a way out: `read_line` then yields an empty line, the
   * blank-line `continue` skips it, and the loop goes on without any host call.
   */
  lemma {:induction false} EndOfInputNeverTerminates(cwd: string, replies: seq<HostReplies>)
    requires forall k | 0 <= k < |replies| :: replies[k].flush.Success? && replies[k].read == Line("")
    ensures var s := Session(cwd, replies);
      && s.status == Running && s.cwd == cwd && s.consumed == |replies|
      && |s.events| == 3 * |replies|
      && forall k | 0 <= k < |replies| :: s.events[3 * k..3 * k + 3] == [Prompt, Flush, ReadLine]
    decreases |replies|
  {
    if replies != [] {
      assert IsBlank(replies[0].read.text);
      EndOfInputNeverTerminates(cwd, replies[1..]);
      var s, rest := Session(cwd, replies), Session(cwd, replies[1..]);
      assert s.events == [Prompt, Flush, ReadLine] + rest.events;
      forall k | 0 <= k < |replies| ensures s.events[3 * k..3 * k + 3] == [Prompt, Flush, ReadLine] {
        if k > 0 {
          assert s.events[3 * k..3 * k + 3] == rest.events[3 * (k - 1)..3 * (k - 1) + 3];
        }
      }
    }
  }

  /**
   * A line that neither changes the directory nor ends the loop: one whose
   * flush or read failed, a blank one, or an external command.
   */
  predicate Quiet(host: HostReplies) {
    CommandOf(host).None? || CommandOf(host).value.External?
  }

  /** A quiet line leaves the directory as it was and the loop running. */
  lemma QuietIteration(cwd: string, host: HostReplies)
    requires Quiet(host)
    ensures Iterate(cwd, host).status == Running && Iterate(cwd, host).cwd == cwd
  {
    match CommandOf(host)
    case None =>
    case Some(command) =>
      IterateDispatches(cwd, host, command);
  }

  /** An external command is spawned in the directory its iteration starts in. */
  lemma ExternalSpawnsInCurrentDirectory(cwd: string, host: HostReplies, program: string, args: seq<string>)
    requires CommandOf(host) == Some(External(program, args))
    ensures var it := Iterate(cwd, host);
      && it.status == Running && it.cwd == cwd
      && |it.events| > 3 && it.events[3] == Spawn(program, args, cwd, host.spawn.Success?)
  {
    IterateDispatches(cwd, host, External(program, args));
  }

  /**
   * After quiet lines the directory and status are as they were, and one more
   * line only appends its own iteration, run in that directory.
   */
  lemma {:induction false} SessionSnoc(cwd: string, middle: seq<HostReplies>, second: HostReplies)
    requires forall k | 0 <= k < |middle| :: Quiet(middle[k])
    ensures Session(cwd, middle).status == Running && Session(cwd, middle).cwd == cwd
    ensures var s := Session(cwd, middle + [second]);
      && s.events == Session(cwd, middle).events + Iterate(cwd, second).events
      && s.cwd == Iterate(cwd, second).cwd && s.status == Iterate(cwd, second).status
    decreases |middle|
  {
    var replies := middle + [second];
    if middle == [] {
      assert replies == [second] && replies[1..] == [];
      assert Session(cwd, middle).events + Iterate(cwd, second).events == Iterate(cwd, second).events;
      if Iterate(cwd, second).status == Running {
        assert Session(cwd, replies).events == Iterate(cwd, second).events + [];
      }
    } else {
      assert replies[0] == middle[0] && replies[1..] == middle[1..] + [second];
      var one := Iterate(cwd, middle[0]);
      QuietIteration(cwd, middle[0]);
      SessionSnoc(cwd, middle[1..], second);
      var init := Session(cwd, middle[1..]).events;
      Regroup(one.events, init, Iterate(cwd, second).events, one.events + init + Iterate(cwd, second).events);
    }
  }

  /**
   * Quiet lines keep the directory: after any number of them, the external
   * command of the next line is spawned, right after that line's read, in the
   * directory the session started in.
   */
  lemma QuietKeepsDirectory(cwd: string, middle: seq<HostReplies>, second: HostReplies, program: string, args: seq<string>)
    requires forall k | 0 <= k < |middle| :: Quiet(middle[k])
    requires CommandOf(second) == Some(External(program, args))
    ensures var s := Session(cwd, middle + [second]);
      var at := |Session(cwd, middle).events| + 3;
      && s.status == Running
      && s.cwd == cwd
      && at < |s.events| && s.events[at] == Spawn(program, args, cwd, second.spawn.Success?)
  {
    SessionSnoc(cwd, middle, second);
    ExternalSpawnsInCurrentDirectory(cwd, second, program, args);
  }

  /**
   * A directory change persists: after a successful `cd dir`, any number of
   * failed, blank or external lines leave the shell in `dir`, and the external
   * command of the line after them is spawned there, so the child inherits it.
   */
  lemma CdThenSpawnRunsInNewDirectory(cwd: string, first: HostReplies, middle: seq<HostReplies>, second: HostReplies,
                                      dir: string, program: string, args: seq<string>)
    requires CommandOf(first) == Some(Cd(dir)) && first.chdir.Success?
    requires forall k | 0 <= k < |middle| :: Quiet(middle[k])
    requires CommandOf(second) == Some(External(program, args))
    ensures var s := Session(cwd, [first] + middle + [second]);
      var at := |Iterate(cwd, first).events| + |Session(dir, middle).events| + 3;
      && s.status == Running
      && s.cwd == dir
      && at < |s.events| && s.events[at] == Spawn(program, args, dir, second.spawn.Success?)
  {
    var replies := [first] + middle + [second];
    IterateDispatches(cwd, first, Cd(dir));
    var one := Iterate(cwd, first);
    assert one.cwd == dir && one.status == Running;
    assert replies[0] == first && replies[1..] == middle + [second];
    QuietKeepsDirectory(dir, middle, second, program, args);
    var rest := Session(dir, middle + [second]);
    assert Session(cwd, replies).events == one.events + rest.events;
  }

  /** The line an iteration read, parsed, when flushing and reading both succeeded. */
  predicate Typed(host: HostReplies, name: string, args: seq<string>) {
    host.flush.Success? && host.read.Line? && Parse(host.read.text) == Some(Invocation(name, args))
  }

  /**
   * The exact name `exit` ends the loop, whatever its arguments, and nothing
   * else does; its last act is the farewell and it touches no directory.
   */
  lemma OnlyExitTerminates(cwd: string, host: HostReplies)
    ensures var it := Iterate(cwd, host);
      && (it.status == Terminated <==> exists args :: Typed(host, "exit", args))
      && (it.status == Terminated ==> it.events == READ + [Farewell] && it.cwd == cwd)
  {
    forall args | Typed(host, "exit", args) ensures CommandOf(host) == Some(Exit) {
    }
    match CommandOf(host)
    case None =>
    case Some(command) =>
      IterateDispatches(cwd, host, command);
      if command == Exit {
        assert Typed(host, "exit", Parse(host.read.text).value.args);
      }
  }

  /**
   * `cd` never spawns a child. It changes to its first argument, or to `/`
   * when it has none, ignoring any others; a failure is reported with a
   * `cd: ` diagnostic and leaves the directory as it was.
   */
  lemma CdNeverSpawns(cwd: string, host: HostReplies, args: seq<string>)
    requires Typed(host, "cd", args)
    ensures var it := Iterate(cwd, host);
      var target := if args == [] then "/" else args[0];
      && NoChild(it.events)
      && it.status == Running
      && it.events[..4] == READ + [ChangeDir(target)]
      && (host.chdir.Success? ==> |it.events| == 4 && it.cwd == target)
      && (host.chdir.Failure? ==> it.events[4..] == [Diagnostic("cd: " + host.chdir.error)] && it.cwd == cwd)
  {
    var target := if args == [] then "/" else args[0];
    IterateDispatches(cwd, host, Cd(target));
  }

  /**
   * Any other name is spawned, in the shell's directory, with exactly the
   * words that followed it on the line. A child that started is waited for
   * (a failed wait is reported); one that did not start is reported as not
   * found and not waited for. Either way the loop goes on in the same directory.
   */
  lemma ExternalSpawnsParsedArgs(cwd: string, host: HostReplies, name: string, args: seq<string>)
    requires Typed(host, name, args) && name != "exit" && name != "cd"
    ensures var it := Iterate(cwd, host);
      && [name] + args == Tokens(host.read.text)
      && it.status == Running && it.cwd == cwd
      && it.events[..4] == READ + [Spawn(name, args, cwd, host.spawn.Success?)]
      && (host.spawn.Success? ==>
            it.events[4..] == [Wait] + if host.wait.Success? then [] else [Diagnostic("Failed to wait on child: " + host.wait.error)])
      && (host.spawn.Failure? ==> it.events[4..] == [Diagnostic(NotFoundMessage(name, host.spawn.error))])
  {
    IterateDispatches(cwd, host, External(name, args));
  }

  /** Over the whole session, every child that started is waited for by the very next event. */
  lemma SessionWaitsForEveryChild(cwd: string, replies: seq<HostReplies>)
    ensures var t := Session(cwd, replies).events;
      forall k | 0 <= k < |t| && t[k].Spawn? && t[k].started :: k + 1 < |t| && t[k + 1] == Wait
  {
    SessionIsForeground(cwd, replies);
    WaitFollowsEverySpawn(Session(cwd, replies).events, false);
  }
}
