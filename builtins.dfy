/** The decision `run_command` in sh.c takes for an argument vector: which
    built-in it is, whether its arguments pass the checks, and which system
    call it would request.  The calls themselves (`chdir`, `link`, `unlink`,
    `kill`, `exit`) are requests here, not actions. */
module Builtins {
  import opened Wrappers
  import opened Jobs

  datatype Builtin = Cd | Ln | Rm | Exit | ListJobs | Bg | Fg

  /** The command word of each built-in. */
  function Name(b: Builtin): string {
    match b
    case Cd => "cd"
    case Ln => "ln"
    case Rm => "rm"
    case Exit => "exit"
    case ListJobs => "jobs"
    case Bg => "bg"
    case Fg => "fg"
  }

  /** The `strcmp` tests of `run_command`, in its order. */
  function BuiltinNamed(name: string): Option<Builtin> {
    if name == "cd" then Some(Cd)
    else if name == "ln" then Some(Ln)
    else if name == "rm" then Some(Rm)
    else if name == "exit" then Some(Exit)
    else if name == "jobs" then Some(ListJobs)
    else if name == "bg" then Some(Builtin.Bg)
    else if name == "fg" then Some(Builtin.Fg)
    else None
  }

  /** The fewest arguments, the command word included, each built-in
      accepts. */
  function MinArgs(b: Builtin): nat {
    match b
    case Ln => 3
    case Cd | Rm | Bg | Fg => 2
    case Exit | ListJobs => 1
  }

  /** Exactly the seven command words name built-ins, each its own. */
  lemma NamesRoundTrip(b: Builtin, name: string)
    ensures BuiltinNamed(Name(b)) == Some(b)
    ensures BuiltinNamed(name) == Some(b) ==> name == Name(b)
  {
  }

  /** The white space C's `isspace` skips. */
  predicate IsSpace(c: char) {
    c == ' ' || c == '\t' || c == '\n' || c == '\U{B}' || c == '\U{C}' || c == '\r'
  }

  predicate IsDigit(c: char) {
    '0' <= c <= '9'
  }

  /** The length of the run of white space at `i`. */
  function SpaceRun(s: string, i: nat): (n: nat)
    requires i <= |s|
    ensures i + n <= |s| && (i + n < |s| ==> !IsSpace(s[i + n]))
    decreases |s| - i
  {
    if i < |s| && IsSpace(s[i]) then 1 + SpaceRun(s, i + 1) else 0
  }

  /** The length of the run of digits at `i`. */
  function DigitRun(s: string, i: nat): (n: nat)
    requires i <= |s|
    ensures i + n <= |s| && forall k :: i <= k < i + n ==> IsDigit(s[k])
    decreases |s| - i
  {
    if i < |s| && IsDigit(s[i]) then 1 + DigitRun(s, i + 1) else 0
  }

  /** The number a string of digits spells in base 10. */
  function Value(d: string): nat
    requires forall k :: 0 <= k < |d| ==> IsDigit(d[k])
  {
    if d == [] then 0
    else
      assert IsDigit(d[|d| - 1]);
      Value(d[..|d| - 1]) * 10 + (d[|d| - 1] as int - '0' as int)
  }

  /** C's `atoi`: white space, an optional sign, then as many digits as
      follow.  A string without digits gives 0. */
  function Atoi(s: string): int {
    var i := SpaceRun(s, 0);
    var sign, j := if i < |s| && s[i] == '-' then -1 else 1,
                   if i < |s| && (s[i] == '-' || s[i] == '+') then i + 1 else i;
    sign * Value(s[j..j + DigitRun(s, j)])
  }

  /** The decimal spelling of `n`, without sign or leading zeros. */
  function Decimal(n: nat): (d: string)
    ensures |d| > 0 && forall k :: 0 <= k < |d| ==> IsDigit(d[k])
  {
    var last := [('0' as int + n % 10) as char];
    if n < 10 then last else Decimal(n / 10) + last
  }

  lemma {:induction false} ValueOfDecimal(n: nat)
    ensures Value(Decimal(n)) == n
  {
    var d := Decimal(n);
    if n >= 10 {
      ValueOfDecimal(n / 10);
      assert d[..|d| - 1] == Decimal(n / 10);
    }
  }

  /** `%n` names job `n`: `atoi` reads back what the shell prints as a job
      id. */
  lemma AtoiOfDecimal(n: nat)
    ensures Atoi(Decimal(n)) == n
  {
    var d := Decimal(n);
    assert SpaceRun(d, 0) == 0;
    ValueOfDecimal(n);
    DigitRunAll(d, 0);
    assert d[0..|d|] == d;
  }

  lemma {:induction false} DigitRunAll(d: string, i: nat)
    requires i <= |d| && forall k :: 0 <= k < |d| ==> IsDigit(d[k])
    ensures DigitRun(d, i) == |d| - i
    decreases |d| - i
  {
    if i < |d| {
      DigitRunAll(d, i + 1);
    }
  }

  /** The diagnostics `run_command` prints before returning 0. */
  datatype Diagnostic =
    | SyntaxError(b: Builtin)   // "cd: syntax error" and the like
    | NoPercent(b: Builtin)     // "bg: job input does not begin with %"
    | JobNotFound               // "job not found"

  /** The system calls, and the job-list update, a built-in asks for. */
  datatype Request =
    | ChangeDir(path: string)
    | MakeLink(target: string, link: string)
    | Unlink(path: string)
    | Terminate
    | PrintJobs
    | Continue(n: int, pid: int, foreground: bool)

  datatype Decision = External | Diagnosed(d: Diagnostic) | Perform(r: Request)

  /** `get_job_pid`: the pid of job `n`, or -1. */
  function JobPid(jobs: map<int, Job>, n: int): int {
    if n in jobs then jobs[n].pid else -1
  }

  /** `run_command` (sh.c:156-324) on `args`, the `num_args` entries of
      `cmd_arg`, given the job list.  `External` is its return value 1. */
  function Decide(args: seq<string>, jobs: map<int, Job>): Decision
    requires |args| >= 1
  {
    var name := args[0];
    if name == "cd" then
      if |args| >= 2 then Perform(ChangeDir(args[1])) else Diagnosed(SyntaxError(Cd))
    else if name == "ln" then
      if |args| >= 3 then Perform(MakeLink(args[1], args[2])) else Diagnosed(SyntaxError(Ln))
    else if name == "rm" then
      if |args| >= 2 then Perform(Unlink(args[1])) else Diagnosed(SyntaxError(Rm))
    else if name == "exit" then Perform(Terminate)
    else if name == "jobs" then Perform(PrintJobs)
    else if name == "bg" || name == "fg" then
      var b := if name == "bg" then Builtin.Bg else Builtin.Fg;
      if |args| < 2 then Diagnosed(SyntaxError(b))
      else if !(|args[1]| > 0 && args[1][0] == '%') then Diagnosed(NoPercent(b))
      else
        var n := Atoi(args[1][1..]);
        var pid := JobPid(jobs, n);
        if pid == -1 then Diagnosed(JobNotFound) else Perform(Continue(n, pid, name == "fg"))
    else External
  }

  /** `run_command` returns 1 exactly for a word that names no built-in. */
  lemma ExternalIff(args: seq<string>, jobs: map<int, Job>)
    requires |args| >= 1
    ensures Decide(args, jobs) == External <==> BuiltinNamed(args[0]).None?
  {
  }

  /** A syntax error is reported exactly when a built-in has fewer
      arguments than it needs. */
  lemma SyntaxErrorIff(args: seq<string>, jobs: map<int, Job>, b: Builtin)
    requires |args| >= 1
    ensures Decide(args, jobs) == Diagnosed(SyntaxError(b)) <==>
            BuiltinNamed(args[0]) == Some(b) && |args| < MinArgs(b)
  {
  }

  /** "job input does not begin with %" is reported exactly when `bg` or
      `fg` gets an argument whose first character is not `%`. */
  lemma NoPercentIff(args: seq<string>, jobs: map<int, Job>, b: Builtin)
    requires |args| >= 1
    ensures Decide(args, jobs) == Diagnosed(NoPercent(b)) <==>
            (b == Builtin.Bg || b == Builtin.Fg) && args[0] == Name(b) && |args| >= 2
            && !(|args[1]| > 0 && args[1][0] == '%')
  {
  }

  /** With enough arguments, `cd`, `ln` and `rm` request their system call
      on the arguments after the command word, and `exit` and `jobs` always
      run. */
  lemma RequestArgs(args: seq<string>, jobs: map<int, Job>)
    requires |args| >= 1
    ensures args[0] == "cd" && |args| >= 2 ==> Decide(args, jobs) == Perform(ChangeDir(args[1]))
    ensures args[0] == "ln" && |args| >= 3 ==> Decide(args, jobs) == Perform(MakeLink(args[1], args[2]))
    ensures args[0] == "rm" && |args| >= 2 ==> Decide(args, jobs) == Perform(Unlink(args[1]))
    ensures args[0] == "exit" ==> Decide(args, jobs) == Perform(Terminate)
    ensures args[0] == "jobs" ==> Decide(args, jobs) == Perform(PrintJobs)
  {
  }

  /** `bg`/`fg` reach a job exactly when their argument is `%` followed by
      the id of a job in the list, and then name that job and its pid; an id
      not in the list is reported as not found. */
  lemma ContinueIff(args: seq<string>, jobs: map<int, Job>, fg: bool)
    requires |args| >= 1 && forall n :: n in jobs ==> jobs[n].pid > 0
    ensures var n := if |args| >= 2 && |args[1]| > 0 then Atoi(args[1][1..]) else 0;
      && (Decide(args, jobs).Perform? && Decide(args, jobs).r.Continue? && Decide(args, jobs).r.foreground == fg
          <==> args[0] == (if fg then "fg" else "bg") && |args| >= 2 && |args[1]| > 0 && args[1][0] == '%'
               && n in jobs)
      && (Decide(args, jobs) == Diagnosed(JobNotFound)
          <==> (args[0] == "bg" || args[0] == "fg") && |args| >= 2 && |args[1]| > 0 && args[1][0] == '%'
               && n !in jobs)
      && (Decide(args, jobs).Perform? && Decide(args, jobs).r.Continue? ==>
            Decide(args, jobs).r.n == n && n in jobs && Decide(args, jobs).r.pid == jobs[n].pid)
  {
  }

  /** The job table after `run_command` has carried out `d`; `w` is what
      `waitpid` reports for a job brought to the foreground.  Only `bg` and
      `fg` on a job that was found change it. */
  function Effect(t: Table, d: Decision, w: WaitStatus): Table
    requires d.Perform? && d.r.Continue? ==> d.r.n in t.jobs
  {
    if d.Perform? && d.r.Continue? then
      if d.r.foreground then Foregrounded(t, d.r.n, w) else Resumed(t, d.r.n)
    else t
  }

  /** A job `bg`/`fg` reaches is in the table, carrying out any decision
      keeps the table valid without touching the counter, and every other
      decision (a diagnostic among them) leaves the table as it was. */
  lemma DecideEffectValid(args: seq<string>, t: Table, w: WaitStatus)
    requires |args| >= 1 && ValidTable(t)
    ensures var d := Decide(args, t.jobs);
      && (d.Perform? && d.r.Continue? ==> d.r.n in t.jobs)
      && ValidTable(Effect(t, d, w)) && Effect(t, d, w).jid == t.jid
      && (!(d.Perform? && d.r.Continue?) ==> Effect(t, d, w) == t)
  {
    var d := Decide(args, t.jobs);
    if d.Perform? && d.r.Continue? {
      ForegroundValid(t, d.r.n, w);
    }
  }
}
