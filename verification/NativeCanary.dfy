/** The multi-window native canary (`run_windows`) against a directory, probes and a trainer it does not control. */
module NativeCanary {
  import opened Wrappers

  const NANOS := 1_000_000_000
  const POLL_SECS := 5
  const TOLERANCE: real := 0.000001

  datatype Metrics = Metrics(trainLoss: Option<real>, loss: Option<real>)

  datatype Head = Head(headId: Option<string>, globalStep: Option<real>, metrics: Metrics, providers: seq<string>)

  datatype Snapshot = Snapshot(headIds: seq<string>, connectedPeer: Option<string>)

  datatype Settlement = Settlement(
    enabled: bool, passesCompleted: Option<real>, updateAnnouncements: Option<real>, updates: Option<real>)

  datatype TrainReport = TrainReport(
    canTrain: bool, baseGlobalStep: Option<real>, publishedGlobalStep: Option<real>, publishedHeadId: Option<string>,
    metrics: Metrics, trainSteps: Option<real>, batchCount: Option<real>, settlement: Option<Settlement>)

  datatype Config = Config(
    windows: nat, canonicalTimeoutSecs: nat, p2pTimeoutSecs: nat,
    requireLossNonRegression: bool, requireEdgeHeadProvider: bool)

  datatype Failure =
    | CommandFailed | ReportUnreadable | TrainRejected | NoPublishedHead | PublishedHeadUnseen
    | HeadStuck | StepStuck | LossMissing | LossRegressed | HeadUnseen | NoProvider | NotEdgeBacked

  ghost predicate Ticking(now: nat -> nat) {
    forall k: nat :: now(k + 1) >= now(k) + POLL_SECS * NANOS
  }

  /** The clock at each test of the loop guard: every round sleeps five seconds before the next test. */
  type Clock = now: nat -> nat | Ticking(now) witness (k: nat) => k * (POLL_SECS * NANOS)

  /** What a polling loop meets: the clock, and each answer (None: an error). */
  datatype Feed<!T> = Feed(now: Clock, answer: nat -> Option<T>)

  /** Everything outside the process that one window meets. */
  datatype Window = Window(
    commandOk: bool, report: Option<TrainReport>,
    publishedProbes: Feed<Snapshot>, directory: Feed<Head>, headProbes: Feed<Snapshot>)

  datatype Report = Report(before: Head, train: TrainReport, published: Snapshot, after: Head, p2p: Snapshot)

  /** `f64 as i64`: toward zero, saturating at the ends of the 64-bit range. */
  function AsI64(x: real): int {
    var truncated := if x >= 0.0 then x.Floor else -((-x).Floor);
    if truncated > 0x7FFF_FFFF_FFFF_FFFF then 0x7FFF_FFFF_FFFF_FFFF
    else if truncated < -0x8000_0000_0000_0000 then -0x8000_0000_0000_0000
    else truncated
  }

  function StepOf(value: Option<real>): int {
    AsI64(value.GetOr(0.0))
  }

  /** `metric_number` over a list of two keys: the first one present. */
  function FirstOf(a: Option<real>, b: Option<real>): Option<real> {
    if a.Some? then a else b
  }

  function LossOf(m: Metrics): Option<real> {
    FirstOf(m.trainLoss, m.loss)
  }

  function Positive(value: Option<real>): bool {
    value.GetOr(0.0) > 0.0
  }

  /** `assert_train_report`. */
  predicate TrainAccepted(report: TrainReport) {
    var steps := FirstOf(report.trainSteps, report.batchCount);
    && report.canTrain
    && StepOf(report.publishedGlobalStep) > StepOf(report.baseGlobalStep)
    && LossOf(report.metrics).Some?
    && steps.Some?
    && steps.value > 0.0
    && report.batchCount.GetOr(steps.value) > 0.0
    && (report.settlement.Some? ==>
          var settlement := report.settlement.value;
          && settlement.enabled
          && Positive(settlement.passesCompleted)
          && Positive(FirstOf(settlement.updateAnnouncements, settlement.updates)))
  }

  /** `canonical_baseline`: a replaced preflight head counts only from the trainer's own base step. */
  function Baseline(previous: Head, report: TrainReport, replacing: bool): Head {
    if !replacing then previous
    else previous.(globalStep := Some(report.baseGlobalStep.GetOr(0.0)), metrics := Metrics(None, None))
  }

  /** `comparable_loss_signal`: the first of the two keys that both sides report. */
  function Comparable(before: Metrics, after: Metrics): Option<(real, real)> {
    if before.trainLoss.Some? && after.trainLoss.Some? then Some((before.trainLoss.value, after.trainLoss.value))
    else if before.loss.Some? && after.loss.Some? then Some((before.loss.value, after.loss.value))
    else None
  }

  predicate LossHolds(before: Metrics, after: Metrics) {
    var pair := Comparable(before, after);
    pair.Some? ==> pair.value.1 <= pair.value.0 + TOLERANCE
  }

  /** `assert_canonical_signal`. */
  function CanonicalCheck(before: Head, after: Head, requireLoss: bool): Option<Failure> {
    if StepOf(after.globalStep) <= StepOf(before.globalStep) then Some(StepStuck)
    else if LossOf(after.metrics).None? then Some(LossMissing)
    else if requireLoss && !LossHolds(before.metrics, after.metrics) then Some(LossRegressed)
    else None
  }

  /** `assert_head_provider_signal`. */
  function ProviderCheck(head: Head, p2p: Snapshot, requireEdge: bool): Option<Failure> {
    var edge := p2p.connectedPeer.GetOr("");
    if head.providers == [] then Some(NoProvider)
    else if requireEdge && !(edge != "" && edge in head.providers) then Some(NotEdgeBacked)
    else None
  }

  /** The first accepted answer, from round `k` on, that the loop reaches before the timeout. */
  ghost function FirstHit<T(!new)>(feed: Feed<T>, accepts: T -> bool, limit: nat, k: nat): Option<nat>
    decreases limit - feed.now(k)
  {
    if feed.now(k) >= limit then None
    else if feed.answer(k).Some? && accepts(feed.answer(k).value) then Some(k)
    else
      assert Ticking(feed.now);
      FirstHit(feed, accepts, limit, k + 1)
  }

  /** Nothing acceptable was answered in rounds `k` to `upto`, all of them begun in time. */
  ghost predicate Fruitless<T(!new)>(feed: Feed<T>, accepts: T -> bool, limit: nat, k: nat, upto: nat) {
    forall j :: k <= j < upto ==>
      feed.now(j) < limit && (feed.answer(j).Some? ==> !accepts(feed.answer(j).value))
  }

  /** What a wait returns: the answer of the first round, within the limit, that is acceptable. */
  lemma {:induction false} HitMeans<T(!new)>(feed: Feed<T>, accepts: T -> bool, limit: nat, k: nat)
    returns (end: nat)
    ensures k <= end && Fruitless(feed, accepts, limit, k, end)
    ensures var hit := FirstHit(feed, accepts, limit, k);
            if hit.Some? then
              end == hit.value && feed.now(end) < limit && feed.answer(end).Some? && accepts(feed.answer(end).value)
            else
              feed.now(end) >= limit
    decreases limit - feed.now(k)
  {
    if feed.now(k) >= limit || (feed.answer(k).Some? && accepts(feed.answer(k).value)) {
      end := k;
    } else {
      assert Ticking(feed.now);
      end := HitMeans(feed, accepts, limit, k + 1);
    }
  }

  /** `wait_for_head_advance` and `wait_for_p2p_head` share this loop and differ in what they accept. */
  method WaitFor<T(!new)>(feed: Feed<T>, accepts: T -> bool, timeoutSecs: nat) returns (r: Option<T>)
    ensures var hit := FirstHit(feed, accepts, timeoutSecs * NANOS, 0);
            r == if hit.Some? then feed.answer(hit.value) else None
  {
    var attempt := 0;
    while feed.now(attempt) < timeoutSecs * NANOS
      invariant FirstHit(feed, accepts, timeoutSecs * NANOS, 0) == FirstHit(feed, accepts, timeoutSecs * NANOS, attempt)
      decreases timeoutSecs * NANOS - feed.now(attempt)
    {
      var answer := feed.answer(attempt);
      if answer.Some? && accepts(answer.value) {
        return answer;
      }
      assert Ticking(feed.now);
      attempt := attempt + 1;
    }
    return None;
  }

  function Advertises(headId: string): Snapshot -> bool {
    (s: Snapshot) => headId in s.headIds
  }

  function Advanced(previous: Option<string>): Head -> bool {
    (h: Head) => h.headId.Some? && h.headId != previous
  }

  ghost function Answer<T(!new)>(feed: Feed<T>, accepts: T -> bool, timeoutSecs: nat): Option<T>
  {
    var hit := FirstHit(feed, accepts, timeoutSecs * NANOS, 0);
    if hit.Some? then feed.answer(hit.value) else None
  }

  /** One window, check by check, in the order of the source. */
  ghost function WindowSpec(config: Config, w: Window, previous: Head, replacing: bool): Result<Report, Failure>
  {
    if !w.commandOk then Err(CommandFailed)
    else if w.report.None? then Err(ReportUnreadable)
    else if !TrainAccepted(w.report.value) then Err(TrainRejected)
    else if w.report.value.publishedHeadId.GetOr("") == "" then Err(NoPublishedHead)
    else
      var train := w.report.value;
      var published := Answer(w.publishedProbes, Advertises(train.publishedHeadId.value), config.p2pTimeoutSecs);
      var advanced := Answer(w.directory, Advanced(previous.headId), config.canonicalTimeoutSecs);
      if published.None? then Err(PublishedHeadUnseen)
      else if advanced.None? then Err(HeadStuck)
      else
        var after := advanced.value;
        var refused := CanonicalCheck(Baseline(previous, train, replacing), after, config.requireLossNonRegression);
        var seen := Answer(w.headProbes, Advertises(after.headId.GetOr("")), config.p2pTimeoutSecs);
        if refused.Some? then Err(refused.value)
        else if seen.None? then Err(HeadUnseen)
        else
          var unbacked := ProviderCheck(after, seen.value, config.requireEdgeHeadProvider);
          if unbacked.Some? then Err(unbacked.value)
          else Ok(Report(previous, train, published.value, after, seen.value))
  }

  /** The head a window starts from: the preflight head, then the head the previous window ended with. */
  function Before(start: Head, reports: seq<Report>, i: nat): Head
    requires i <= |reports|
  {
    if i == 0 then start else reports[i - 1].after
  }

  /** The checks of window number `i`, given the head before it and whether that head is being replaced. */
  ghost function Checks(config: Config, env: nat -> Window): (nat, Head, bool) -> Result<Report, Failure> {
    (i: nat, previous: Head, replacing: bool) => WindowSpec(config, env(i), previous, replacing)
  }

  predicate PassedAt(
    checks: (nat, Head, bool) -> Result<Report, Failure>, start: Head, replace: bool, reports: seq<Report>, i: nat)
    requires i < |reports|
  {
    checks(i, Before(start, reports, i), replace && i == 0) == Ok(reports[i])
  }

  /** Every window so far passed its own checks, and only those. */
  ghost predicate Passed(
    checks: (nat, Head, bool) -> Result<Report, Failure>, start: Head, replace: bool, reports: seq<Report>)
  {
    forall i :: 0 <= i < |reports| ==> PassedAt(checks, start, replace, reports, i)
  }

  lemma PassedAtPrefix(
    checks: (nat, Head, bool) -> Result<Report, Failure>, start: Head, replace: bool, reports: seq<Report>,
    next: Report, i: nat)
    requires i < |reports|
    ensures PassedAt(checks, start, replace, reports + [next], i) == PassedAt(checks, start, replace, reports, i)
  {
    assert (reports + [next])[i] == reports[i];
    assert Before(start, reports + [next], i) == Before(start, reports, i);
  }

  lemma PassedSnoc(
    checks: (nat, Head, bool) -> Result<Report, Failure>, start: Head, replace: bool, reports: seq<Report>,
    next: Report)
    requires Passed(checks, start, replace, reports)
    requires checks(|reports|, Before(start, reports, |reports|), replace && reports == []) == Ok(next)
    ensures Passed(checks, start, replace, reports + [next])
    ensures Before(start, reports + [next], |reports| + 1) == next.after
  {
    var more, last := reports + [next], |reports|;
    assert Before(start, more, last) == Before(start, reports, last) && more[last] == next;
    assert PassedAt(checks, start, replace, more, last);
    forall i | 0 <= i < last
      ensures PassedAt(checks, start, replace, more, i)
    {
      PassedAtPrefix(checks, start, replace, reports, next, i);
    }
  }

  /** One turn of the loop in `run_windows`: it stops at the first check that fails. */
  method RunWindow(config: Config, w: Window, previous: Head, replacing: bool) returns (r: Result<Report, Failure>)
    ensures r == WindowSpec(config, w, previous, replacing)
  {
    if !w.commandOk {
      return Err(CommandFailed);
    }
    if w.report.None? {
      return Err(ReportUnreadable);
    }
    var train := w.report.value;
    if !TrainAccepted(train) {
      return Err(TrainRejected);
    }
    if train.publishedHeadId.GetOr("") == "" {
      return Err(NoPublishedHead);
    }
    var published := WaitFor(w.publishedProbes, Advertises(train.publishedHeadId.value), config.p2pTimeoutSecs);
    if published.None? {
      return Err(PublishedHeadUnseen);
    }
    var advanced := WaitFor(w.directory, Advanced(previous.headId), config.canonicalTimeoutSecs);
    if advanced.None? {
      return Err(HeadStuck);
    }
    var after := advanced.value;
    var refused := CanonicalCheck(Baseline(previous, train, replacing), after, config.requireLossNonRegression);
    if refused.Some? {
      return Err(refused.value);
    }
    var seen := WaitFor(w.headProbes, Advertises(after.headId.GetOr("")), config.p2pTimeoutSecs);
    if seen.None? {
      return Err(HeadUnseen);
    }
    var unbacked := ProviderCheck(after, seen.value, config.requireEdgeHeadProvider);
    if unbacked.Some? {
      return Err(unbacked.value);
    }
    return Ok(Report(previous, train, published.value, after, seen.value));
  }

  /** `run_windows`: all windows pass, or the error is that of the first window that does not. */
  method RunWindows(config: Config, env: nat -> Window, start: Head, replace: bool)
    returns (r: Result<seq<Report>, Failure>)
    ensures r.Ok? ==> |r.value| == config.windows && Passed(Checks(config, env), start, replace, r.value)
    ensures r.Err? ==> exists done: seq<Report> ::
              && |done| < config.windows
              && Passed(Checks(config, env), start, replace, done)
              && Checks(config, env)(|done|, Before(start, done, |done|), replace && done == []) == Err(r.error)
  {
    ghost var checks := Checks(config, env);
    var previous := start;
    var reports: seq<Report> := [];
    for i := 0 to config.windows
      invariant |reports| == i && previous == Before(start, reports, i)
      invariant Passed(checks, start, replace, reports)
    {
      var outcome := RunWindow(config, env(i), previous, replace && i == 0);
      assert outcome == checks(i, previous, replace && reports == []);
      if outcome.Err? {
        return Err(outcome.error);
      }
      PassedSnoc(checks, start, replace, reports, outcome.value);
      reports := reports + [outcome.value];
      previous := reports[|reports| - 1].after;
    }
    return Ok(reports);
  }
}
