/** The foreground GitHub wait worker (`wait_github_worker`): polls, two clocks, one verdict. */
module GithubWait {
  import opened Wrappers

  /** Clock readings are nanoseconds since the worker started; limits are whole seconds. */
  const NANOS := 1_000_000_000
  const DEFAULT_INTERVAL_SECS := 180

  datatype Signature = Signature(
    status: string, conclusion: string, activeJob: string, activeStep: string, failedJob: string, failedStep: string)

  datatype RunSummary = RunSummary(
    workflowName: string, displayTitle: string, status: string, conclusion: string, url: string,
    activeJob: string, activeStep: string, failedJob: string, failedStep: string, failedLogTail: seq<string>)
  {
    function Sig(): Signature {
      Signature(status, conclusion, activeJob, activeStep, failedJob, failedStep)
    }
  }

  /** One round of the loop: what GitHub answered (None: the query failed) and the three clock readings. */
  datatype Poll = Poll(summary: Option<RunSummary>, seenAt: nat, timeoutReadAt: nat, staleReadAt: nat)

  datatype Task = Task(
    intervalSecs: Option<nat>, timeoutSecs: nat, staleSecs: nat, exitStatus: bool,
    status: string, conclusion: string, exitCode: Option<int>, github: Option<RunSummary>)
  {
    /** `normalized_interval`: a sleep of at least one second. */
    function Interval(): (secs: nat)
      ensures secs >= 1 && (intervalSecs == None ==> secs == 180)
      ensures intervalSecs.Some? ==> secs == intervalSecs.value || (secs == 1 && intervalSecs.value == 0)
    {
      var value := intervalSecs.GetOr(DEFAULT_INTERVAL_SECS);
      if value > 1 then value else 1
    }
  }

  datatype Verdict = Completed | TimedOut | Stale | PollFailed

  /** Polls `i` and `j` both answered and showed the same signature. */
  predicate Same(polls: seq<Poll>, i: nat, j: nat)
    requires i < |polls| && j < |polls|
  {
    && polls[i].summary.Some?
    && polls[j].summary.Some?
    && polls[i].summary.value.Sig() == polls[j].summary.value.Sig()
  }

  /** The poll at which the signature shown at poll `k` first appeared, without a break since. */
  function ChangePoll(polls: seq<Poll>, k: nat): (j: nat)
    requires k < |polls|
    ensures j <= k
  {
    if k > 0 && Same(polls, k - 1, k) then ChangePoll(polls, k - 1) else k
  }

  /** What the loop decides at poll `k`, in the order it asks. */
  function VerdictAt(task: Task, polls: seq<Poll>, k: nat): Option<Verdict>
    requires k < |polls|
  {
    var poll := polls[k];
    if poll.summary.None? then Some(PollFailed)
    else if poll.summary.value.status == "completed" then Some(Completed)
    else if task.timeoutSecs > 0 && poll.timeoutReadAt > task.timeoutSecs * NANOS then Some(TimedOut)
    else if task.staleSecs > 0 && poll.staleReadAt - polls[ChangePoll(polls, k)].seenAt > task.staleSecs * NANOS
    then Some(Stale)
    else None
  }

  ghost predicate Undecided(task: Task, polls: seq<Poll>, upto: nat)
    requires upto <= |polls|
  {
    forall j :: 0 <= j < upto ==> VerdictAt(task, polls, j).None?
  }

  /** `finalize_task`: the worker's exit code read off the recorded conclusion. */
  function FinalizeCode(task: Task): int {
    if task.conclusion == "success" then 0
    else if task.conclusion == "timeout" || task.conclusion == "stale" then 124
    else task.exitCode.GetOr(1)
  }

  function Finish(task: Task, verdict: Verdict): (final: Task)
    requires task.github.Some?
  {
    match verdict
    case Completed =>
      var conclusion := task.github.value.conclusion;
      task.(status := "completed", conclusion := conclusion, exitCode := Some(if conclusion == "success" then 0 else 1))
    case TimedOut => task.(status := "completed", conclusion := "timeout", exitCode := Some(124))
    case Stale => task.(status := "completed", conclusion := "stale", exitCode := Some(124))
    case PollFailed => task
  }

  /** The value the worker returns; a failed query propagates instead. */
  function ExitCode(final: Task, verdict: Verdict): Option<int> {
    match verdict
    case PollFailed => None
    case Completed =>
      if !final.exitStatus && final.conclusion != "success" then Some(0) else Some(FinalizeCode(final))
    case _ => Some(FinalizeCode(final))
  }

  /**
   * The loop over a finite stretch of polls. It stops at exactly the first poll with a verdict,
   * and is still waiting after all of them only when none has one.
   */
  method WaitGithubWorker(initial: Task, polls: seq<Poll>)
    returns (stop: Option<nat>, verdict: Verdict, task: Task, code: Option<int>)
    ensures stop.Some? ==> stop.value < |polls| && VerdictAt(initial, polls, stop.value) == Some(verdict)
    ensures stop.Some? ==> Undecided(initial, polls, stop.value)
    ensures stop.None? ==> Undecided(initial, polls, |polls|) && code == None
    ensures stop.Some? && verdict != PollFailed ==>
              && task == Finish(initial.(github := polls[stop.value].summary), verdict)
              && code == ExitCode(task, verdict)
    ensures stop.Some? && verdict == PollFailed ==> task.status == "running" && code == None
  {
    task := initial.(status := "running");
    verdict := PollFailed;
    var lastSignature: Option<Signature> := None;
    var lastChange: nat := 0;
    var k := 0;
    while k < |polls|
      invariant 0 <= k <= |polls|
      invariant Undecided(initial, polls, k)
      invariant task == initial.(status := "running", github := if k == 0 then initial.github else polls[k - 1].summary)
      invariant k == 0 ==> lastSignature == None
      invariant k > 0 ==> polls[k - 1].summary.Some? && lastSignature == Some(polls[k - 1].summary.value.Sig())
      invariant k > 0 ==> lastChange == polls[ChangePoll(polls, k - 1)].seenAt
    {
      var poll := polls[k];
      if poll.summary.None? {
        return Some(k), PollFailed, task, None;
      }
      var summary := poll.summary.value;
      if lastSignature != Some(summary.Sig()) {
        lastSignature := Some(summary.Sig());
        lastChange := poll.seenAt;
      }
      task := task.(github := Some(summary));
      if summary.status == "completed" {
        task := Finish(task, Completed);
        code := Some(FinalizeCode(task));
        if !task.exitStatus && task.conclusion != "success" {
          code := Some(0);
        }
        return Some(k), Completed, task, code;
      }
      if task.timeoutSecs > 0 && poll.timeoutReadAt > task.timeoutSecs * NANOS {
        task := Finish(task, TimedOut);
        return Some(k), TimedOut, task, Some(FinalizeCode(task));
      }
      if task.staleSecs > 0 && poll.staleReadAt - lastChange > task.staleSecs * NANOS {
        task := Finish(task, Stale);
        return Some(k), Stale, task, Some(FinalizeCode(task));
      }
      k := k + 1;
    }
    return None, verdict, task, None;
  }

  /** Polls `j` to `k` all answered and showed one signature. */
  ghost predicate Unbroken(polls: seq<Poll>, j: nat, k: nat)
    requires j <= k < |polls|
  {
    forall i :: j <= i <= k ==> Same(polls, i, k)
  }

  lemma {:induction false} ChangePollIsUnbroken(polls: seq<Poll>, k: nat)
    requires k < |polls| && polls[k].summary.Some?
    ensures var j := ChangePoll(polls, k);
            && Unbroken(polls, j, k)
            && (j > 0 ==> !Same(polls, j - 1, j))
  {
    if k > 0 && Same(polls, k - 1, k) {
      ChangePollIsUnbroken(polls, k - 1);
      forall i | ChangePoll(polls, k) <= i <= k
        ensures Same(polls, i, k)
      {
        assert i < k ==> Same(polls, i, k - 1);
      }
    }
  }

  /**
   * GitHub has a conclusion of its own called "stale". A recorded conclusion "stale" or "timeout"
   * is the worker's verdict exactly when the run had not completed.
   */
  lemma RecordedConclusion(task: Task, polls: seq<Poll>, k: nat, verdict: Verdict)
    requires k < |polls| && VerdictAt(task, polls, k) == Some(verdict) && verdict != PollFailed
    ensures var final := Finish(task.(github := polls[k].summary), verdict);
            && ((final.conclusion == "stale" && final.github.value.status != "completed") <==> verdict == Stale)
            && ((final.conclusion == "timeout" && final.github.value.status != "completed") <==> verdict == TimedOut)
            && (verdict == Completed ==> final.conclusion == polls[k].summary.value.conclusion)
  {
    var x, y := "timeout", "stale";
    assert |x| != |y|;
  }

  const GITHUB_STALE := RunSummary("ci", "t", "completed", "stale", "u", "", "", "", "", [])
  const STRICT := Task(None, 0, 60, true, "queued", "", None, None)

  /** The ambiguity is real: a run that completed at once is recorded as stale and exits with 124. */
  lemma CompletedRunRecordedStale()
    ensures var polls := [Poll(Some(GITHUB_STALE), 0, 0, 0)];
            var final := Finish(STRICT.(github := polls[0].summary), Completed);
            && VerdictAt(STRICT, polls, 0) == Some(Completed)
            && final.conclusion == "stale"
            && ExitCode(final, Completed) == Some(124)
  {
  }

  /** The clock never runs backwards and every sleep lasts at least the interval. */
  ghost predicate Clocked(polls: seq<Poll>, interval: nat) {
    && (forall k :: 0 <= k < |polls| ==> polls[k].seenAt <= polls[k].timeoutReadAt <= polls[k].staleReadAt)
    && (forall k :: 0 <= k < |polls| - 1 ==> polls[k].staleReadAt + interval * NANOS <= polls[k + 1].seenAt)
  }

  lemma {:induction false} TimePasses(polls: seq<Poll>, interval: nat, j: nat, k: nat)
    requires Clocked(polls, interval) && j <= k < |polls|
    ensures polls[j].seenAt + (k - j) * (interval * NANOS) <= polls[k].seenAt
  {
    if j < k {
      TimePasses(polls, interval, j, k - 1);
      assert (k - j) * (interval * NANOS) == (k - 1 - j) * (interval * NANOS) + interval * NANOS;
    }
  }

  lemma Exceeds(limit: nat, interval: nat, rounds: nat)
    requires interval >= 1 && rounds >= limit / interval + 1
    ensures rounds * (interval * NANOS) > limit * NANOS
  {
    var n := limit / interval + 1;
    assert limit < n * interval by {
      assert limit == interval * (limit / interval) + limit % interval;
    }
    assert n * interval <= rounds * interval;
    assert rounds * (interval * NANOS) == (rounds * interval) * NANOS;
  }

  /** Enough rounds between two polls put more than the limit between them. */
  lemma LimitPasses(polls: seq<Poll>, interval: nat, limit: nat, j: nat, k: nat)
    requires Clocked(polls, interval) && interval >= 1
    requires j <= k < |polls| && k - j >= limit / interval + 1
    ensures polls[k].timeoutReadAt > limit * NANOS
    ensures polls[k].staleReadAt - polls[j].seenAt > limit * NANOS
  {
    TimePasses(polls, interval, j, k);
    Exceeds(limit, interval, k - j);
  }

  /** With a timeout the loop takes at most timeout / interval + 2 polls. */
  lemma PollBound(task: Task, polls: seq<Poll>)
    requires Clocked(polls, task.Interval()) && task.timeoutSecs > 0
    requires |polls| >= task.timeoutSecs / task.Interval() + 2
    ensures !Undecided(task, polls, task.timeoutSecs / task.Interval() + 2)
  {
    var last := task.timeoutSecs / task.Interval() + 1;
    LimitPasses(polls, task.Interval(), task.timeoutSecs, 0, last);
    assert VerdictAt(task, polls, last).Some?;
  }

  lemma {:induction false} ChangePollReachesBack(polls: seq<Poll>, j: nat, k: nat)
    requires j <= k < |polls| && Unbroken(polls, j, k)
    ensures ChangePoll(polls, k) <= j
  {
    if j < k {
      var last := k - 1;
      assert Same(polls, last, k);
      forall i | j <= i <= last
        ensures Same(polls, i, last)
      {
        assert Same(polls, i, k);
      }
      ChangePollReachesBack(polls, j, last);
    }
  }

  /** Two answers agree in status, conclusion, active job and step, and failed job and step. */
  predicate SixEqual(a: RunSummary, b: RunSummary) {
    && a.status == b.status
    && a.conclusion == b.conclusion
    && a.activeJob == b.activeJob
    && a.activeStep == b.activeStep
    && a.failedJob == b.failedJob
    && a.failedStep == b.failedStep
  }

  /** Polls `j` to `k` all answered and agreed in the six fields. */
  ghost predicate Steady(polls: seq<Poll>, j: nat, k: nat)
    requires j <= k < |polls|
  {
    && polls[k].summary.Some?
    && forall i :: j <= i <= k ==> polls[i].summary.Some? && SixEqual(polls[i].summary.value, polls[k].summary.value)
  }

  /** The answers up to poll `k` have been steady since poll `j`, and not for longer. */
  ghost predicate SteadySince(polls: seq<Poll>, j: nat, k: nat)
    requires j <= k < |polls|
  {
    && Steady(polls, j, k)
    && (j > 0 && polls[j - 1].summary.Some? ==> !SixEqual(polls[j - 1].summary.value, polls[j].summary.value))
  }

  lemma SteadyIsUnbroken(polls: seq<Poll>, j: nat, k: nat)
    requires j <= k < |polls|
    ensures Steady(polls, j, k) <==> Unbroken(polls, j, k)
  {
    if Unbroken(polls, j, k) {
      assert Same(polls, k, k);
      forall i | j <= i <= k
        ensures polls[i].summary.Some? && SixEqual(polls[i].summary.value, polls[k].summary.value)
      {
        assert Same(polls, i, k);
      }
    }
  }

  /** The poll the clock is read from is the one since which the six fields have been steady. */
  lemma ClockStart(polls: seq<Poll>, j: nat, k: nat)
    requires j <= k < |polls| && polls[k].summary.Some?
    ensures ChangePoll(polls, k) == j <==> SteadySince(polls, j, k)
  {
    ChangePollIsUnbroken(polls, k);
    SteadyIsUnbroken(polls, ChangePoll(polls, k), k);
    if SteadySince(polls, j, k) {
      SteadyIsUnbroken(polls, j, k);
      ChangePollReachesBack(polls, j, k);
    }
  }

  /** What is decided at poll `k` when the six fields have been steady since poll `since`. */
  lemma VerdictMeans(task: Task, polls: seq<Poll>, since: nat, k: nat)
    requires since <= k < |polls|
    requires polls[k].summary.Some? ==> SteadySince(polls, since, k)
    ensures var poll := polls[k];
            VerdictAt(task, polls, k) ==
              if poll.summary == None then Some(PollFailed)
              else if poll.summary.value.status == "completed" then Some(Completed)
              else if task.timeoutSecs != 0 && poll.timeoutReadAt > task.timeoutSecs * 1_000_000_000 then Some(TimedOut)
              else if task.staleSecs != 0 && poll.staleReadAt > polls[since].seenAt + task.staleSecs * 1_000_000_000
              then Some(Stale)
              else None
  {
    if polls[k].summary.Some? {
      ClockStart(polls, since, k);
    }
  }

  /** A poll that differs from the one before in any of the six fields starts the stale clock at its own reading. */
  lemma ChangeRestartsClock(task: Task, polls: seq<Poll>, k: nat)
    requires 0 < k < |polls| && polls[k - 1].summary.Some? && polls[k].summary.Some?
    requires !SixEqual(polls[k - 1].summary.value, polls[k].summary.value)
    ensures SteadySince(polls, k, k)
    ensures VerdictAt(task, polls, k) == Some(Stale) ==>
              polls[k].staleReadAt > polls[k].seenAt + task.staleSecs * 1_000_000_000
  {
    VerdictMeans(task, polls, k, k);
  }

  /** Two series of polls with the same readings whose answers agree in the six fields. */
  ghost predicate Alike(polls: seq<Poll>, others: seq<Poll>) {
    && |polls| == |others|
    && forall i :: 0 <= i < |polls| ==>
         && polls[i].seenAt == others[i].seenAt
         && polls[i].timeoutReadAt == others[i].timeoutReadAt
         && polls[i].staleReadAt == others[i].staleReadAt
         && polls[i].summary.Some? == others[i].summary.Some?
         && (polls[i].summary.Some? ==> SixEqual(polls[i].summary.value, others[i].summary.value))
  }

  /** Titles, addresses, workflow names and log tails decide nothing. */
  lemma OnlySixFieldsDecide(task: Task, polls: seq<Poll>, others: seq<Poll>, k: nat)
    requires Alike(polls, others) && k < |polls|
    ensures VerdictAt(task, polls, k) == VerdictAt(task, others, k)
  {
    var since := ChangePoll(polls, k);
    if polls[k].summary.Some? {
      ClockStart(polls, since, k);
      assert SteadySince(others, since, k);
      VerdictMeans(task, polls, since, k);
      VerdictMeans(task, others, since, k);
    }
  }

  /** A stale verdict: the six fields equal at every poll since the change, for longer than the limit. */
  lemma StaleMeansUnchanged(task: Task, polls: seq<Poll>, k: nat) returns (since: nat)
    requires k < |polls| && VerdictAt(task, polls, k) == Some(Stale)
    ensures since <= k && polls[k].summary.Some? && polls[k].summary.value.status != "completed"
    ensures forall i :: since <= i <= k ==>
              polls[i].summary.Some? && SixEqual(polls[i].summary.value, polls[k].summary.value)
    ensures since > 0 ==>
              polls[since - 1].summary == None || !SixEqual(polls[since - 1].summary.value, polls[since].summary.value)
    ensures task.staleSecs > 0 && polls[k].staleReadAt - polls[since].seenAt > task.staleSecs * 1_000_000_000
  {
    since := ChangePoll(polls, k);
    ClockStart(polls, since, k);
  }

  /** What the worker records and returns, verdict by verdict. */
  lemma ExitTable(task: Task, verdict: Verdict)
    requires task.github.Some?
    ensures var final, run := Finish(task, verdict), task.github.value;
            match verdict
            case PollFailed => final == task && ExitCode(final, verdict) == None
            case TimedOut =>
              final.status == "completed" && final.conclusion == "timeout" && ExitCode(final, verdict) == Some(124)
            case Stale =>
              final.status == "completed" && final.conclusion == "stale" && ExitCode(final, verdict) == Some(124)
            case Completed =>
              && final.status == "completed" && final.conclusion == run.conclusion
              && ExitCode(final, verdict) ==
                   Some(if run.conclusion == "success" || !task.exitStatus then 0
                        else if run.conclusion in {"timeout", "stale"} then 124
                        else 1)
  {
    var x, y, z := "timeout", "stale", "success";
    assert x[0] != z[0] && |y| != |z|;
  }

  lemma StaleAtLast(task: Task, polls: seq<Poll>, interval: nat, j: nat, last: nat)
    requires Clocked(polls, interval) && interval >= 1 && task.staleSecs > 0
    requires j <= last < |polls| && last - j >= task.staleSecs / interval + 1 && Steady(polls, j, last)
    ensures VerdictAt(task, polls, last).Some?
  {
    SteadyIsUnbroken(polls, j, last);
    ChangePollReachesBack(polls, j, last);
    LimitPasses(polls, interval, task.staleSecs, ChangePoll(polls, last), last);
  }

  /** With a stale limit the loop takes at most limit / interval + 2 polls that agree in the six fields. */
  lemma StaleBound(task: Task, polls: seq<Poll>, j: nat)
    requires Clocked(polls, task.Interval()) && task.staleSecs > 0
    requires j + task.staleSecs / task.Interval() + 2 <= |polls|
    requires Steady(polls, j, j + task.staleSecs / task.Interval() + 1)
    ensures !Undecided(task, polls, j + task.staleSecs / task.Interval() + 2)
  {
    var interval := task.Interval();
    StaleAtLast(task, polls, interval, j, j + task.staleSecs / interval + 1);
  }
}
