/** The state `main` in sh.c keeps across lines, the job list and the job-id
    counter, as a class whose methods are `reap`, `run_command`, the parent
    side of `run_child_process`, and one round of the read-eval loop.  What
    the operating system reports (`waitpid` statuses, the pid `fork` hands
    out) comes in as parameters; what the shell asks of it (`chdir`, `kill`,
    `execv`, ...) goes out as requests. */
module Shell {
  import opened Wrappers
  import opened Tokenizer
  import opened Redirects
  import opened CommandLine
  import opened Jobs
  import opened Builtins

  /** The index of the last `/` in `path` (`strrchr`), if there is one. */
  function LastSlash(path: string): (i: Option<nat>)
    ensures i.Some? ==> i.value < |path| && path[i.value] == '/'
    ensures forall k :: (if i.Some? then i.value + 1 else 0) <= k < |path| ==> path[k] != '/'
  {
    if path == [] then None
    else if path[|path| - 1] == '/' then Some(|path| - 1)
    else LastSlash(path[..|path| - 1])
  }

  /** The `argv[0]` that `run_child_process` passes to `execv`
      (sh.c:350-356): the part of the full path after its last `/`, or a
      null pointer when the path has no `/`. */
  function ProgramName(path: string): (name: Option<string>)
    ensures name.None? <==> '/' !in path
    ensures name.Some? ==>
      && '/' !in name.value && |name.value| < |path|
      && path[|path| - |name.value| - 1] == '/'
      && path[|path| - |name.value|..] == name.value
  {
    match LastSlash(path)
    case None => None
    case Some(i) => Some(path[i + 1..])
  }

  /** What the child of `run_child_process` is asked to do: open the
      redirection files, then `execv` the full path with `argv`. */
  datatype Exec = Exec(path: string, argv: seq<Option<string>>, redir: Redirection, background: bool)

  /** What one round of the loop in `main` comes to. */
  datatype Outcome =
    | Idle(p: Parsed)            // blank line, "No command", or a redirection error
    | BuiltinRan(d: Decision)    // `run_command` returned 0
    | Spawned(e: Exec)           // `run_command` returned 1: a child was forked

  /** The lines `main` can process without reading past what sh.c
      defines: not a lone `&`, and a command keeps at least one argument
      (a line such as `< a > b` leaves none, and `run_command` would then
      compare a null pointer). */
  predicate Runnable(line: string) {
    Tokens(line) != ["&"] && (Parse(line).Command? ==> |Parse(line).args| >= 1)
  }

  /** The outcome of the parsed line `p` once the table has been reaped to
      `t`. */
  function Dispatched(t: Table, p: Parsed): Outcome
    requires p.Command? ==> |p.args| >= 1
  {
    if !p.Command? then Idle(p)
    else
      var d := Decide(p.args, t.jobs);
      if d.External? then
        Spawned(Exec(p.args[0], [ProgramName(p.args[0])] + Wrap(p.args[1..]), p.redir, p.background))
      else BuiltinRan(d)
  }

  /** The job-table events an outcome stands for; `pid` is the forked
      child and `w` what `waitpid` reports for the foreground process. */
  function OutcomeEvents(out: Outcome, pid: int, w: WaitStatus): (evs: seq<Event>)
    ensures |evs| <= 1
  {
    match out
    case Spawned(e) => [Launch(pid, e.path, e.background, w)]
    case BuiltinRan(d) =>
      if d.Perform? && d.r.Continue? then
        if d.r.foreground then [Event.Fg(d.r.n, w)] else [Event.Bg(d.r.n)]
      else []
    case Idle(_) => []
  }

  /** A child that is not already a job, with a real process id. */
  predicate FreshPid(t: Table, pid: int) {
    pid > 0 && forall n :: n in t.jobs ==> t.jobs[n].pid != pid
  }

  /** Every job after a step either is the new child `pid` or kept its
      process id. */
  predicate KeepsPids(before: Table, after: Table, pid: int) {
    forall n :: n in after.jobs ==>
      after.jobs[n].pid == pid || (n in before.jobs && after.jobs[n].pid == before.jobs[n].pid)
  }

  /** The job list and `jid` of `main`. */
  class JobControl {
    var jobs: map<int, Job>
    var jid: int

    function State(): Table
      reads this
    {
      Table(jobs, jid)
    }

    ghost predicate Valid()
      reads this
    {
      ValidTable(State())
    }

    /** `init_job_list` and `jid = 0` (sh.c:569-570). */
    constructor()
      ensures State() == EmptyTable && Valid()
    {
      jobs := map[];
      jid := 0;
    }

    /** `reap` (sh.c:507-564): each job present at the start is visited
        once, in order of job id, and its `waitpid` status decides whether
        it is removed, marked stopped or marked running. */
    method Reap(status: map<int, WaitStatus>)
      requires Valid()
      modifies this
      ensures State() == Reaped(old(State()), status) && Valid()
    {
      ghost var start := State();
      ghost var done: set<int> := {};
      var n := 1;
      while n <= jid
        invariant 1 <= n <= jid + 1 && jid == start.jid
        invariant done == set k | k in start.jobs && k < n
        invariant jobs == ReapedOn(start.jobs, status, done)
      {
        if n in jobs {
          ReapOne(start.jobs, status, done, n);
          Visit(n, StatusOf(status, jobs[n].pid));
          done := done + {n};
        }
        n := n + 1;
      }
      assert done == start.jobs.Keys;
      ReapValid(start, status);
    }

    /** One iteration of `reap`'s loop: job `n` takes the transition its
        status `w` calls for (sh.c:517-554). */
    method Visit(n: int, w: WaitStatus)
      requires n in jobs
      modifies this
      ensures jid == old(jid)
      ensures jobs == match Transition(old(jobs)[n].state, w)
                      case None => old(jobs) - {n}
                      case Some(s) => old(jobs)[n := old(jobs)[n].(state := s)]
    {
      var job := jobs[n];
      match Transition(job.state, w) {
        case None =>
          jobs := jobs - {n};
        case Some(s) =>
          jobs := jobs[n := job.(state := s)];
      }
    }

    /** `run_command` (sh.c:156-324) on the argument vector `args`; `w` is
        what `waitpid` reports once `fg` has handed the terminal to a job.
        It returns 1 (`notBuiltin`) exactly when the command word names no
        built-in, and changes the table exactly as the decision calls for.
        The body keeps the branches of the C function and its order of
        updates for `fg` (the job is marked running, then removed or
        stopped by what `waitpid` reports); `Decide` and `Effect` are the
        specification it is proved against. */
    method RunCommand(args: seq<string>, w: WaitStatus) returns (notBuiltin: bool, d: Decision)
      requires |args| >= 1 && Valid()
      modifies this
      ensures d == Decide(args, old(jobs))
      ensures notBuiltin <==> d == External
      ensures State() == Effect(old(State()), d, w) && Valid()
    {
      ghost var start := State();
      DecideEffectValid(args, start, w);
      notBuiltin := false;
      var name := args[0];
      if name == "cd" {
        d := if |args| >= 2 then Perform(ChangeDir(args[1])) else Diagnosed(SyntaxError(Cd));
      } else if name == "ln" {
        d := if |args| >= 3 then Perform(MakeLink(args[1], args[2])) else Diagnosed(SyntaxError(Ln));
      } else if name == "rm" {
        d := if |args| >= 2 then Perform(Unlink(args[1])) else Diagnosed(SyntaxError(Rm));
      } else if name == "exit" {
        d := Perform(Terminate);
      } else if name == "jobs" {
        d := Perform(PrintJobs);
      } else if name == "bg" {
        if |args| < 2 {
          d := Diagnosed(SyntaxError(Builtin.Bg));
        } else if !(|args[1]| > 0 && args[1][0] == '%') {
          d := Diagnosed(NoPercent(Builtin.Bg));
        } else {
          var n := Atoi(args[1][1..]);
          var pid := JobPid(jobs, n);
          if pid == -1 {
            d := Diagnosed(JobNotFound);
          } else {
            jobs := jobs[n := jobs[n].(state := Running)];
            d := Perform(Continue(n, pid, false));
          }
        }
      } else if name == "fg" {
        if |args| < 2 {
          d := Diagnosed(SyntaxError(Builtin.Fg));
        } else if !(|args[1]| > 0 && args[1][0] == '%') {
          d := Diagnosed(NoPercent(Builtin.Fg));
        } else {
          var n := Atoi(args[1][1..]);
          var pid := JobPid(jobs, n);
          if pid == -1 {
            d := Diagnosed(JobNotFound);
          } else {
            jobs := jobs[n := jobs[n].(state := Running)];
            if w.Exited? || w.Signaled? {
              jobs := jobs - {n};
            }
            if w.StoppedBy? {
              jobs := jobs[n := jobs[n].(state := Stopped)];
            }
            d := Perform(Continue(n, pid, true));
          }
        }
      } else {
        notBuiltin, d := true, External;
      }
    }

    /** `run_child_process` (sh.c:348-494) after `fork` returned `pid` in the
        parent: the request for the child, and the table update that
        `waitpid`'s report `w` calls for. */
    method RunChildProcess(args: seq<string>, redir: Redirection, background: bool, pid: int, w: WaitStatus)
      returns (e: Exec)
      requires |args| >= 1 && Valid() && FreshPid(State(), pid)
      modifies this
      ensures e.path == args[0] && e.redir == redir && e.background == background
      ensures |e.argv| == |args| && e.argv[0] == ProgramName(args[0])
      ensures forall k :: 1 <= k < |args| ==> e.argv[k] == Some(args[k])
      ensures State() == Launched(old(State()), pid, args[0], background, w) && Valid()
    {
      var fullPath := args[0];
      e := Exec(fullPath, [ProgramName(fullPath)] + Wrap(args[1..]), redir, background);
      LaunchValid(State(), pid, fullPath, background, w);
      if background {
        jid := jid + 1;
        jobs := jobs[jid := Job(pid, Running, fullPath)];
      } else {
        if w.StoppedBy? {
          jid := jid + 1;
          jobs := jobs[jid := Job(pid, Stopped, fullPath)];
        }
        if w.Signaled? {
          jid := jid + 1;
        }
      }
    }

    /** What `main` does with a parsed line (sh.c:677-685): nothing unless
        it is a command; then `run_command`, and `run_child_process` when
        that finds no built-in. */
    method Dispatch(p: Parsed, pid: int, w: WaitStatus) returns (out: Outcome)
      requires Valid() && (p.Command? ==> |p.args| >= 1) && FreshPid(State(), pid)
      modifies this
      ensures out == Dispatched(old(State()), p)
      ensures Valid() && |OutcomeEvents(out, pid, w)| <= 1
      ensures OutcomeEvents(out, pid, w) == [] ==> State() == old(State())
      ensures OutcomeEvents(out, pid, w) != [] ==> State() == Apply(old(State()), OutcomeEvents(out, pid, w)[0])
      ensures KeepsPids(old(State()), State(), pid)
    {
      if !p.Command? {
        return Idle(p);
      }
      var notBuiltin, d := RunCommand(p.args, w);
      if notBuiltin {
        var e := RunChildProcess(p.args, p.redir, p.background, pid, w);
        assert e.argv == [ProgramName(p.args[0])] + Wrap(p.args[1..]);
        out := Spawned(e);
        SpawnEvents(old(State()), e, pid, w);
      } else {
        out := BuiltinRan(d);
        BuiltinEvents(old(State()), d, pid, w);
      }
    }

    /** One round of the loop in `main` (sh.c:571-686) on the line read:
        reap, parse, then run a built-in or launch a child.  The table ends
        up as the reaping and the outcome's events make it. */
    method Step(line: string, status: map<int, WaitStatus>, pid: int, w: WaitStatus) returns (out: Outcome)
      requires Valid() && Runnable(line) && FreshPid(State(), pid)
      modifies this
      ensures out == Dispatched(Reaped(old(State()), status), Parse(line))
      ensures State() == Replay(old(State()), [Event.Reap(status)] + OutcomeEvents(out, pid, w))
      ensures Valid() && KeepsPids(old(State()), State(), pid)
    {
      ghost var start := State();
      this.Reap(status);
      ghost var t := State();
      forall n | n in t.jobs
        ensures t.jobs[n].pid != pid
      {
        ReapEffect(start, status, n);
      }
      var p := ParseLine(line);
      out := Dispatch(p, pid, w);
      ReplayRound(start, status, OutcomeEvents(out, pid, w));
    }
  }

  /** The events of a built-in are the table change `run_command` makes. */
  lemma BuiltinEvents(t: Table, d: Decision, pid: int, w: WaitStatus)
    requires d.Perform? && d.r.Continue? ==> d.r.n in t.jobs
    ensures var evs := OutcomeEvents(BuiltinRan(d), pid, w);
      && (evs == [] ==> Effect(t, d, w) == t)
      && (evs != [] ==> Apply(t, evs[0]) == Effect(t, d, w))
      && KeepsPids(t, Effect(t, d, w), pid)
  {
  }

  /** The event of a launch is the table change `run_child_process` makes. */
  lemma SpawnEvents(t: Table, e: Exec, pid: int, w: WaitStatus)
    ensures OutcomeEvents(Spawned(e), pid, w) == [Launch(pid, e.path, e.background, w)]
    ensures KeepsPids(t, Launched(t, pid, e.path, e.background, w), pid)
  {
  }

  /** One pass of the loop in `main`: the line read, without its newline;
      what `waitpid` reports to `reap` for each pid; the pid `fork` returns
      should a child be launched; and what the blocking `waitpid` reports
      for the foreground process. */
  datatype Input = Input(line: string, status: map<int, WaitStatus>, pid: int, w: WaitStatus)

  /** `exit` ends the loop (sh.c:203-207). */
  predicate Exits(out: Outcome) {
    out == BuiltinRan(Perform(Terminate))
  }

  /** The pids handed out over some passes. */
  function Forked(ins: seq<Input>): set<int> {
    set k | 0 <= k < |ins| :: ins[k].pid
  }

  /** The job-table events of the passes made. */
  function SessionEvents(ins: seq<Input>, outs: seq<Outcome>): seq<Event>
    requires |ins| == |outs|
  {
    if ins == [] then []
    else
      var last := |ins| - 1;
      SessionEvents(ins[..last], outs[..last])
        + [Event.Reap(ins[last].status)] + OutcomeEvents(outs[last], ins[last].pid, ins[last].w)
  }

  /** After `i` passes with outcomes `outs`, the table `t` is valid, is the
      replay of their events, and holds only processes they forked. */
  ghost predicate Tracks(t: Table, ins: seq<Input>, i: nat, outs: seq<Outcome>) {
    && i <= |ins| && |outs| == i
    && ValidTable(t) && t == Replay(EmptyTable, SessionEvents(ins[..i], outs))
    && forall n :: n in t.jobs ==> t.jobs[n].pid in Forked(ins[..i])
  }

  /** The outcome `out` is what the line of `input` comes to on the table
      `t` left by the passes before: reaped with the pass's statuses, then
      the line parsed and dispatched. */
  ghost predicate PassMatches(input: Input, t: Table, out: Outcome) {
    Runnable(input.line) ==> out == Dispatched(Reaped(t, input.status), Parse(input.line))
  }

  /** Each outcome is what its pass's line comes to. */
  ghost predicate OutsMatch(ins: seq<Input>, outs: seq<Outcome>)
    requires |outs| <= |ins|
  {
    forall k :: 0 <= k < |outs| ==>
      PassMatches(ins[k], Replay(EmptyTable, SessionEvents(ins[..k], outs[..k])), outs[k])
  }

  /** One more outcome that matches its pass keeps all of them matching. */
  lemma OutsMatchStep(ins: seq<Input>, outs: seq<Outcome>, out: Outcome)
    requires |outs| < |ins| && OutsMatch(ins, outs)
    requires PassMatches(ins[|outs|], Replay(EmptyTable, SessionEvents(ins[..|outs|], outs)), out)
    ensures OutsMatch(ins, outs + [out])
  {
    var all := outs + [out];
    forall k | 0 <= k < |all|
      ensures PassMatches(ins[k], Replay(EmptyTable, SessionEvents(ins[..k], all[..k])), all[k])
    {
      SnocPrefix(outs, out, k);
    }
  }

  lemma SnocPrefix<T>(s: seq<T>, x: T, k: nat)
    requires k <= |s|
    ensures (s + [x])[..k] == (if k == |s| then s else s[..k])
    ensures (s + [x])[k] == (if k == |s| then x else s[k])
  {
    if k == |s| {
      assert (s + [x])[..k] == s;
    }
  }

  /** The pid of pass `i` is not that of any job when all pids differ. */
  lemma FreshAt(t: Table, ins: seq<Input>, i: nat, outs: seq<Outcome>)
    requires Tracks(t, ins, i, outs) && i < |ins| && ins[i].pid > 0
    requires forall a, b :: 0 <= a < b < |ins| ==> ins[a].pid != ins[b].pid
    ensures FreshPid(t, ins[i].pid)
  {
    forall k | 0 <= k < i
      ensures ins[..i][k].pid != ins[i].pid
    {
      assert ins[..i][k] == ins[k];
    }
    assert ins[i].pid !in Forked(ins[..i]);
  }

  /** One more pass keeps the tracking. */
  lemma TracksStep(t: Table, ins: seq<Input>, i: nat, outs: seq<Outcome>, out: Outcome, t': Table)
    requires Tracks(t, ins, i, outs) && i < |ins|
    requires t' == Replay(t, [Event.Reap(ins[i].status)] + OutcomeEvents(out, ins[i].pid, ins[i].w))
    requires ValidTable(t') && KeepsPids(t, t', ins[i].pid)
    ensures Tracks(t', ins, i + 1, outs + [out])
  {
    ForkedStep(ins, i);
    SessionStep(ins, i, outs, out, t);
  }

  /** One more pass adds its pid to those handed out. */
  lemma ForkedStep(ins: seq<Input>, i: nat)
    requires i < |ins|
    ensures Forked(ins[..i + 1]) == Forked(ins[..i]) + {ins[i].pid}
  {
    var next := ins[..i + 1];
    assert next[i] == ins[i];
    forall q | q in Forked(ins[..i])
      ensures q in Forked(next)
    {
      var k :| 0 <= k < i && ins[..i][k].pid == q;
      assert next[k] == ins[k];
    }
  }

  /** One more pass replays its events on top of those before. */
  lemma SessionStep(ins: seq<Input>, i: nat, outs: seq<Outcome>, out: Outcome, t: Table)
    requires i < |ins| && |outs| == i
    requires t == Replay(EmptyTable, SessionEvents(ins[..i], outs))
    ensures Replay(EmptyTable, SessionEvents(ins[..i + 1], outs + [out])) ==
            Replay(t, [Event.Reap(ins[i].status)] + OutcomeEvents(out, ins[i].pid, ins[i].w))
  {
    var next := ins[..i + 1];
    assert next[..i] == ins[..i] && next[i] == ins[i];
    assert (outs + [out])[..i] == outs;
    var round := [Event.Reap(ins[i].status)] + OutcomeEvents(out, ins[i].pid, ins[i].w);
    assert SessionEvents(next, outs + [out]) == SessionEvents(ins[..i], outs) + round;
    ReplayConcat(EmptyTable, SessionEvents(ins[..i], outs), round);
  }

  /** The loop of `main` (sh.c:571-686) over the inputs it is given, from
      an empty job list: it stops after `exit` or when the input runs out.
      Every pass but the last is not `exit`, each outcome is what its line
      comes to on the table the passes before it left, the job table stays
      valid, and it is at all times the replay of the events of the passes
      made. */
  method Run(inputs: seq<Input>) returns (outs: seq<Outcome>, shell: JobControl)
    requires forall i :: 0 <= i < |inputs| ==> Runnable(inputs[i].line) && inputs[i].pid > 0
    requires forall i, j :: 0 <= i < j < |inputs| ==> inputs[i].pid != inputs[j].pid
    ensures |outs| <= |inputs|
    ensures forall i :: 0 <= i < |outs| - 1 ==> !Exits(outs[i])
    ensures |outs| < |inputs| ==> |outs| > 0 && Exits(outs[|outs| - 1])
    ensures shell.Valid() && shell.State() == Replay(EmptyTable, SessionEvents(inputs[..|outs|], outs))
    ensures OutsMatch(inputs, outs)
  {
    shell := new JobControl();
    outs := [];
    var i := 0;
    while i < |inputs|
      invariant Tracks(shell.State(), inputs, i, outs)
      invariant forall k :: 0 <= k < i ==> !Exits(outs[k])
      invariant OutsMatch(inputs, outs)
    {
      var input := inputs[i];
      ghost var before := shell.State();
      FreshAt(before, inputs, i, outs);
      var out := shell.Step(input.line, input.status, input.pid, input.w);
      TracksStep(before, inputs, i, outs, out, shell.State());
      OutsMatchStep(inputs, outs, out);
      outs := outs + [out];
      i := i + 1;
      if Exits(out) {
        return;
      }
    }
  }

  /** A round replays as its reaping followed by its outcome's events. */
  lemma ReplayRound(t: Table, status: map<int, WaitStatus>, evs: seq<Event>)
    requires |evs| <= 1
    ensures Replay(t, [Event.Reap(status)] + evs) ==
            if evs == [] then Reaped(t, status) else Apply(Reaped(t, status), evs[0])
  {
    var r := Reaped(t, status);
    assert ([Event.Reap(status)] + evs)[1..] == evs;
    assert Replay(t, [Event.Reap(status)] + evs) == Replay(r, evs);
    if evs != [] {
      assert evs[1..] == [];
      assert Replay(r, evs) == Replay(Apply(r, evs[0]), []);
    }
  }
}
