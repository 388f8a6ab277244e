/** The job table of sh.c and the job-id counter `jid`, as values: how
    `reap`, `bg`, `fg` and the parent side of `run_child_process` change
    them.  The job list itself (`jobs.h`) is not part of this model; it is
    taken to be a map from job id to job. */
module Jobs {
  import opened Wrappers

  datatype JobState = Running | Stopped

  /** One entry of the job list: process (group) id, state, and the full
      path of the command as `add_job` receives it. */
  datatype Job = Job(pid: int, state: JobState, command: string)

  /** What `waitpid` reports for one process. */
  datatype WaitStatus =
    | NoChange                 // WNOHANG and nothing happened (return value 0)
    | Exited(code: int)        // WIFEXITED
    | Signaled(signal: int)    // WIFSIGNALED
    | StoppedBy(signal: int)   // WIFSTOPPED
    | Continued                // WIFCONTINUED

  /** The table and the last job id handed out. */
  datatype Table = Table(jobs: map<int, Job>, jid: int)

  /** Job ids are 1..jid, each pid belongs to one job, and pids are real
      process ids (so -1 from `get_job_pid` always means "not found"). */
  predicate ValidTable(t: Table) {
    && t.jid >= 0
    && (forall n :: n in t.jobs ==> 1 <= n <= t.jid && t.jobs[n].pid > 0)
    && (forall n, m :: n in t.jobs && m in t.jobs && t.jobs[n].pid == t.jobs[m].pid ==> n == m)
  }

  const EmptyTable := Table(map[], 0)

  /** The state of a job after a status report, `None` once it is gone
      (sh.c:517-554 for `reap`, sh.c:283-305 for `fg`). */
  function Transition(s: JobState, w: WaitStatus): Option<JobState> {
    match w
    case NoChange => Some(s)
    case Exited(_) => None
    case Signaled(_) => None
    case StoppedBy(_) => Some(Stopped)
    case Continued => Some(Running)
  }

  /** The status reported for `pid`; a process absent from `status` has
      nothing to report. */
  function StatusOf(status: map<int, WaitStatus>, pid: int): WaitStatus {
    if pid in status then status[pid] else NoChange
  }

  /** `reap` after it has visited the jobs in `done`, each one once. */
  function ReapedOn(jobs: map<int, Job>, status: map<int, WaitStatus>, done: set<int>): map<int, Job> {
    map n | n in jobs && (n in done ==> Transition(jobs[n].state, StatusOf(status, jobs[n].pid)).Some?)
      :: if n in done then jobs[n].(state := Transition(jobs[n].state, StatusOf(status, jobs[n].pid)).value)
         else jobs[n]
  }

  /** Visiting one more job `n` applies its transition to `n` alone. */
  lemma ReapOne(jobs: map<int, Job>, status: map<int, WaitStatus>, done: set<int>, n: int)
    requires n in jobs && n !in done
    ensures var before := ReapedOn(jobs, status, done);
      && n in before && before[n] == jobs[n]
      && ReapedOn(jobs, status, done + {n}) ==
           match Transition(jobs[n].state, StatusOf(status, jobs[n].pid))
           case None => before - {n}
           case Some(s) => before[n := jobs[n].(state := s)]
  {
  }

  /** `reap` (sh.c:507-564): every tracked job takes the transition its
      status calls for. */
  function Reaped(t: Table, status: map<int, WaitStatus>): Table {
    Table(ReapedOn(t.jobs, status, t.jobs.Keys), t.jid)
  }

  /** `bg %n` once job `n` was found (sh.c:230-235): it runs again. */
  function Resumed(t: Table, n: int): Table
    requires n in t.jobs
  {
    Table(t.jobs[n := t.jobs[n].(state := Running)], t.jid)
  }

  /** `fg %n` once job `n` was found (sh.c:268-305): it runs again, then the
      status it reports in the foreground decides whether it is removed,
      stopped, or left running. */
  function Foregrounded(t: Table, n: int, w: WaitStatus): Table
    requires n in t.jobs
  {
    match Transition(Running, w)
    case None => Table(t.jobs - {n}, t.jid)
    case Some(s) => Table(t.jobs[n := t.jobs[n].(state := s)], t.jid)
  }

  /** The parent side of `run_child_process` (sh.c:444-486) for child `pid`
      running `command`: a background child becomes a running job; a
      foreground child that stops becomes a stopped job; one killed by a
      signal only takes a job id; any other outcome leaves all as it was. */
  function Launched(t: Table, pid: int, command: string, background: bool, w: WaitStatus): Table {
    if background then Table(t.jobs[t.jid + 1 := Job(pid, Running, command)], t.jid + 1)
    else if w.StoppedBy? then Table(t.jobs[t.jid + 1 := Job(pid, Stopped, command)], t.jid + 1)
    else if w.Signaled? then Table(t.jobs, t.jid + 1)
    else t
  }

  /** A launch takes a job id exactly for a background child, a stopped
      foreground child or a foreground child killed by a signal; only the
      first two add a job, under the new id and with the matching state. */
  lemma LaunchIds(t: Table, pid: int, command: string, background: bool, w: WaitStatus)
    ensures var t' := Launched(t, pid, command, background, w);
      && t'.jid == t.jid + (if background || w.StoppedBy? || w.Signaled? then 1 else 0)
      && (background || w.StoppedBy? ==>
            t'.jobs == t.jobs[t.jid + 1 := Job(pid, if background then Running else Stopped, command)])
      && (!(background || w.StoppedBy?) ==> t'.jobs == t.jobs)
  {
  }

  /** Launching a child that no job owns keeps the table valid. */
  lemma LaunchValid(t: Table, pid: int, command: string, background: bool, w: WaitStatus)
    requires ValidTable(t) && pid > 0
    requires forall n :: n in t.jobs ==> t.jobs[n].pid != pid
    ensures ValidTable(Launched(t, pid, command, background, w))
  {
  }

  /** The effect of `reap` job by job: a job stays exactly when its status
      is not a termination, keeping its pid and command and taking the new
      state; no job is added and the counter does not move. */
  lemma ReapEffect(t: Table, status: map<int, WaitStatus>, n: int)
    ensures var t' := Reaped(t, status);
      && t'.jid == t.jid
      && (n in t'.jobs <==> n in t.jobs && !StatusOf(status, t.jobs[n].pid).Exited?
                            && !StatusOf(status, t.jobs[n].pid).Signaled?)
      && (n in t'.jobs ==>
            && t'.jobs[n].pid == t.jobs[n].pid && t'.jobs[n].command == t.jobs[n].command
            && Some(t'.jobs[n].state) == Transition(t.jobs[n].state, StatusOf(status, t.jobs[n].pid)))
  {
  }

  /** `fg %n` job by job: job `n` survives exactly when it did not
      terminate, and is then stopped if it stopped and running otherwise;
      every other job and the counter stay as they were. */
  lemma ForegroundEffect(t: Table, n: int, w: WaitStatus, m: int)
    requires n in t.jobs
    ensures var t' := Foregrounded(t, n, w);
      && t'.jid == t.jid
      && (n in t'.jobs <==> !w.Exited? && !w.Signaled?)
      && (n in t'.jobs ==> t'.jobs[n] == t.jobs[n].(state := if w.StoppedBy? then Stopped else Running))
      && (m != n ==> (m in t'.jobs <==> m in t.jobs) && (m in t.jobs ==> t'.jobs[m] == t.jobs[m]))
  {
  }

  /** `bg %n`: job `n` runs again, nothing else changes. */
  lemma ResumeEffect(t: Table, n: int, m: int)
    requires n in t.jobs
    ensures var t' := Resumed(t, n);
      && t'.jid == t.jid && t'.jobs.Keys == t.jobs.Keys
      && t'.jobs[n] == t.jobs[n].(state := Running)
      && (m != n && m in t.jobs ==> t'.jobs[m] == t.jobs[m])
  {
  }

  /** A round in which nothing reports leaves the table as it was. */
  lemma QuietReap(t: Table)
    ensures Reaped(t, map[]) == t
  {
    var r := Reaped(t, map[]).jobs;
    forall n | n in t.jobs
      ensures n in r && r[n] == t.jobs[n]
    {
      assert StatusOf(map[], t.jobs[n].pid) == NoChange;
    }
    assert r.Keys == t.jobs.Keys;
    assert r == t.jobs;
  }

  lemma ReapValid(t: Table, status: map<int, WaitStatus>)
    requires ValidTable(t)
    ensures ValidTable(Reaped(t, status))
  {
  }

  lemma ForegroundValid(t: Table, n: int, w: WaitStatus)
    requires ValidTable(t) && n in t.jobs
    ensures ValidTable(Foregrounded(t, n, w)) && ValidTable(Resumed(t, n))
  {
  }

  /** What happens to the job table over time: reaping rounds, `bg`, `fg`
      and launches. */
  datatype Event =
    | Reap(status: map<int, WaitStatus>)
    | Bg(n: int)
    | Fg(n: int, w: WaitStatus)
    | Launch(pid: int, command: string, background: bool, w: WaitStatus)

  /** One event; `bg`/`fg` on a job that is not there is refused and changes
      nothing (sh.c:225-227, sh.c:256-258). */
  function Apply(t: Table, e: Event): Table {
    match e
    case Reap(status) => Reaped(t, status)
    case Bg(n) => if n in t.jobs then Resumed(t, n) else t
    case Fg(n, w) => if n in t.jobs then Foregrounded(t, n, w) else t
    case Launch(pid, command, background, w) => Launched(t, pid, command, background, w)
  }

  function Replay(t: Table, evs: seq<Event>): Table
    decreases |evs|
  {
    if evs == [] then t else Replay(Apply(t, evs[0]), evs[1..])
  }

  /** How many job ids the events take. */
  function IdsTaken(evs: seq<Event>): nat {
    if evs == [] then 0
    else
      var e := evs[0];
      (if e.Launch? && (e.background || e.w.StoppedBy? || e.w.Signaled?) then 1 else 0) + IdsTaken(evs[1..])
  }

  /** Over any run, `jid` advances by exactly the ids the launches take and
      a job id, once unused below the counter, is never used again: every
      job present afterwards either was there already or has an id above
      the old counter. */
  lemma {:induction false} NoIdReuse(t: Table, evs: seq<Event>)
    ensures Replay(t, evs).jid == t.jid + IdsTaken(evs)
    ensures forall n :: n in Replay(t, evs).jobs ==> n in t.jobs || n > t.jid
    decreases |evs|
  {
    if evs != [] {
      var t1 := Apply(t, evs[0]);
      NoIdReuse(t1, evs[1..]);
      assert forall n :: n in t1.jobs ==> n in t.jobs || n > t.jid;
    }
  }

  /** Replaying two runs one after the other is replaying their
      concatenation. */
  lemma {:induction false} ReplayConcat(t: Table, a: seq<Event>, b: seq<Event>)
    ensures Replay(t, a + b) == Replay(Replay(t, a), b)
    decreases |a|
  {
    if a != [] {
      assert (a + b)[1..] == a[1..] + b;
      ReplayConcat(Apply(t, a[0]), a[1..], b);
    } else {
      assert a + b == b;
    }
  }
}
