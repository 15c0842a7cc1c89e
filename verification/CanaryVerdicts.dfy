/** When a window of the canary passes and why it is refused, said on what the window meets. */
module CanaryVerdicts {
  import opened Wrappers
  import opened NativeCanary
  import opened CanaryRuns

  /** `x as i64` is the integer next to `x` on the side of zero, or the end of the range beyond which `x` lies. */
  lemma AsI64Truncates(x: real)
    ensures var n := AsI64(x);
            if x >= 9223372036854775808.0 then n == 9223372036854775807
            else if x <= -9223372036854775808.0 then n == -9223372036854775808
            else if x >= 0.0 then n as real <= x < n as real + 1.0
            else n as real - 1.0 < x <= n as real <= 0.0
  {
  }

  /** The two keys a count or a loss is looked up under, the first one that is there. */
  predicate IsFirst(a: Option<real>, b: Option<real>, x: real) {
    a == Some(x) || (a == None && b == Some(x))
  }

  predicate Above(value: Option<real>, x: real) {
    value.Some? && value.value > x
  }

  function TruncatedStep(value: Option<real>): int {
    match value
    case None => 0
    case Some(x) => AsI64(x)
  }

  /** A training report the canary accepts: the trainer could train, moved on, did some work and settled. */
  ghost predicate Trained(report: TrainReport) {
    && report.canTrain
    && TruncatedStep(report.publishedGlobalStep) > TruncatedStep(report.baseGlobalStep)
    && (report.metrics.trainLoss.Some? || report.metrics.loss.Some?)
    && (exists steps :: steps > 0.0 && IsFirst(report.trainSteps, report.batchCount, steps))
    && (report.batchCount.Some? ==> report.batchCount.value > 0.0)
    && (report.settlement.Some? ==>
          && report.settlement.value.enabled
          && Above(report.settlement.value.passesCompleted, 0.0)
          && exists updates :: updates > 0.0 &&
               IsFirst(report.settlement.value.updateAnnouncements, report.settlement.value.updates, updates))
  }

  lemma SettledIff(settlement: Settlement)
    ensures Positive(FirstOf(settlement.updateAnnouncements, settlement.updates)) <==>
              exists updates :: updates > 0.0 && IsFirst(settlement.updateAnnouncements, settlement.updates, updates)
  {
    var count := FirstOf(settlement.updateAnnouncements, settlement.updates);
    if count.Some? {
      assert IsFirst(settlement.updateAnnouncements, settlement.updates, count.value);
    }
  }

  lemma WorkedIff(report: TrainReport)
    ensures var steps := FirstOf(report.trainSteps, report.batchCount);
            steps.Some? && steps.value > 0.0 <==>
              exists steps :: steps > 0.0 && IsFirst(report.trainSteps, report.batchCount, steps)
  {
    var steps := FirstOf(report.trainSteps, report.batchCount);
    if steps.Some? {
      assert IsFirst(report.trainSteps, report.batchCount, steps.value);
    }
  }

  lemma TrainedIff(report: TrainReport)
    ensures TrainAccepted(report) <==> Trained(report)
  {
    WorkedIff(report);
    if report.settlement.Some? {
      SettledIff(report.settlement.value);
    }
  }

  /** The loss under the first key both heads report has risen by more than a millionth. */
  predicate LossRose(before: Metrics, after: Metrics) {
    if before.trainLoss.Some? && after.trainLoss.Some? then
      after.trainLoss.value > before.trainLoss.value + 0.000001
    else
      before.loss.Some? && after.loss.Some? && after.loss.value > before.loss.value + 0.000001
  }

  /** Step and loss of a new canonical head; a replaced head counts with the trainer's base step and no loss. */
  predicate StepRose(previous: Head, train: TrainReport, after: Head, replacing: bool) {
    TruncatedStep(after.globalStep) > TruncatedStep(if replacing then train.baseGlobalStep else previous.globalStep)
  }

  predicate LossKept(config: Config, previous: Head, after: Head, replacing: bool) {
    config.requireLossNonRegression && !replacing ==> !LossRose(previous.metrics, after.metrics)
  }

  lemma CanonicalIff(previous: Head, train: TrainReport, after: Head, replacing: bool, config: Config)
    ensures CanonicalCheck(Baseline(previous, train, replacing), after, config.requireLossNonRegression) ==
              if !StepRose(previous, train, after, replacing) then Some(StepStuck)
              else if after.metrics.trainLoss.None? && after.metrics.loss.None? then Some(LossMissing)
              else if !LossKept(config, previous, after, replacing) then Some(LossRegressed)
              else None
  {
    assert TruncatedStep(Some(train.baseGlobalStep.GetOr(0.0))) == TruncatedStep(train.baseGlobalStep) by {
      assert AsI64(0.0) == 0;
    }
  }

  /** The answer of round `k` is the first good one, and came in time. */
  ghost predicate FirstAt<T(!new)>(feed: Feed<T>, good: T -> bool, timeoutSecs: nat, k: nat, value: T) {
    && feed.now(k) < timeoutSecs * 1_000_000_000
    && feed.answer(k) == Some(value) && good(value)
    && forall j: nat :: j < k && feed.answer(j).Some? ==> !good(feed.answer(j).value)
  }

  ghost predicate Answered<T(!new)>(feed: Feed<T>, good: T -> bool, timeoutSecs: nat, value: T) {
    exists k: nat :: FirstAt(feed, good, timeoutSecs, k, value)
  }

  /** No round that began in time had a good answer. */
  ghost predicate NeverAnswered<T(!new)>(feed: Feed<T>, good: T -> bool, timeoutSecs: nat) {
    forall k: nat :: feed.now(k) < timeoutSecs * 1_000_000_000 && feed.answer(k).Some? ==> !good(feed.answer(k).value)
  }

  lemma {:induction false} NowRises<T>(feed: Feed<T>, j: nat, k: nat)
    requires j <= k
    ensures feed.now(j) <= feed.now(k)
    decreases k - j
  {
    if j < k {
      assert Ticking(feed.now);
      NowRises(feed, j, k - 1);
    }
  }

  /** A wait returns the first good answer begun in time, and nothing only if there is none. */
  lemma AnswerIff<T(!new)>(feed: Feed<T>, good: T -> bool, timeoutSecs: nat, value: T)
    ensures Answer(feed, good, timeoutSecs) == Some(value) <==> Answered(feed, good, timeoutSecs, value)
    ensures Answer(feed, good, timeoutSecs) == None <==> NeverAnswered(feed, good, timeoutSecs)
  {
    var limit := timeoutSecs * 1_000_000_000;
    var end := HitMeans(feed, good, limit, 0);
    var hit := FirstHit(feed, good, limit, 0);
    forall k: nat | feed.now(k) < limit && feed.answer(k).Some? && good(feed.answer(k).value)
      ensures k >= end && hit.Some?
    {
      if hit.None? && k >= end {
        NowRises(feed, end, k);
      }
    }
    if hit.Some? {
      assert FirstAt(feed, good, timeoutSecs, end, feed.answer(end).value);
    }
  }

  /** The probe of round `k`, begun in time, is the first to list the head. */
  ghost predicate SeenAt(feed: Feed<Snapshot>, headId: string, timeoutSecs: nat, k: nat, seen: Snapshot) {
    && feed.now(k) < timeoutSecs * 1_000_000_000
    && feed.answer(k) == Some(seen) && headId in seen.headIds
    && forall j: nat :: j < k && feed.answer(j).Some? ==> headId !in feed.answer(j).value.headIds
  }

  ghost predicate Seen(feed: Feed<Snapshot>, headId: string, timeoutSecs: nat, seen: Snapshot) {
    exists k: nat :: SeenAt(feed, headId, timeoutSecs, k, seen)
  }

  ghost predicate NeverSeen(feed: Feed<Snapshot>, headId: string, timeoutSecs: nat) {
    forall k: nat :: feed.now(k) < timeoutSecs * 1_000_000_000 && feed.answer(k).Some? ==>
      headId !in feed.answer(k).value.headIds
  }

  lemma SeenIff(feed: Feed<Snapshot>, headId: string, timeoutSecs: nat, seen: Snapshot)
    ensures Answer(feed, Advertises(headId), timeoutSecs) == Some(seen) <==> Seen(feed, headId, timeoutSecs, seen)
    ensures Answer(feed, Advertises(headId), timeoutSecs) == None <==> NeverSeen(feed, headId, timeoutSecs)
  {
    AnswerIff(feed, Advertises(headId), timeoutSecs, seen);
    forall k: nat
      ensures FirstAt(feed, Advertises(headId), timeoutSecs, k, seen) <==> SeenAt(feed, headId, timeoutSecs, k, seen)
    {
    }
  }

  /** The directory entry of round `k`, read in time, is the first to name another head. */
  ghost predicate AdvancedAt(feed: Feed<Head>, previous: Option<string>, timeoutSecs: nat, k: nat, after: Head) {
    && feed.now(k) < timeoutSecs * 1_000_000_000
    && feed.answer(k) == Some(after) && after.headId.Some? && after.headId != previous
    && forall j: nat :: j < k && feed.answer(j).Some? ==>
         feed.answer(j).value.headId == None || feed.answer(j).value.headId == previous
  }

  ghost predicate Moves(feed: Feed<Head>, previous: Option<string>, timeoutSecs: nat, after: Head) {
    exists k: nat :: AdvancedAt(feed, previous, timeoutSecs, k, after)
  }

  ghost predicate Stays(feed: Feed<Head>, previous: Option<string>, timeoutSecs: nat) {
    forall k: nat :: feed.now(k) < timeoutSecs * 1_000_000_000 && feed.answer(k).Some? ==>
      feed.answer(k).value.headId == None || feed.answer(k).value.headId == previous
  }

  lemma MovesIff(feed: Feed<Head>, previous: Option<string>, timeoutSecs: nat, after: Head)
    ensures Answer(feed, Advanced(previous), timeoutSecs) == Some(after) <==> Moves(feed, previous, timeoutSecs, after)
    ensures Answer(feed, Advanced(previous), timeoutSecs) == None <==> Stays(feed, previous, timeoutSecs)
  {
    AnswerIff(feed, Advanced(previous), timeoutSecs, after);
    forall k: nat
      ensures FirstAt(feed, Advanced(previous), timeoutSecs, k, after)
              <==> AdvancedAt(feed, previous, timeoutSecs, k, after)
    {
    }
  }

  /** The trainer ran, left an accepted report and named the head it published. */
  ghost predicate Published(w: Window, train: TrainReport) {
    && w.commandOk && w.report == Some(train) && Trained(train)
    && train.publishedHeadId.Some? && train.publishedHeadId.value != ""
  }

  /** The published head showed up, and then a new canonical head. */
  ghost predicate Arrived(
    config: Config, w: Window, previous: Head, train: TrainReport, published: Snapshot, after: Head)
  {
    && Published(w, train)
    && Seen(w.publishedProbes, train.publishedHeadId.value, config.p2pTimeoutSecs, published)
    && Moves(w.directory, previous.headId, config.canonicalTimeoutSecs, after)
  }

  ghost predicate Improved(config: Config, previous: Head, train: TrainReport, after: Head, replacing: bool) {
    && StepRose(previous, train, after, replacing)
    && (after.metrics.trainLoss.Some? || after.metrics.loss.Some?)
    && LossKept(config, previous, after, replacing)
  }

  /** All that comes before the check of the providers. */
  ghost predicate Shown(config: Config, w: Window, previous: Head, replacing: bool, report: Report) {
    && report.before == previous
    && Arrived(config, w, previous, report.train, report.published, report.after)
    && Improved(config, previous, report.train, report.after, replacing)
    && report.after.headId.Some?
    && Seen(w.headProbes, report.after.headId.value, config.p2pTimeoutSecs, report.p2p)
  }

  /** Everything a window shows when it passes. */
  ghost predicate Healthy(config: Config, w: Window, previous: Head, replacing: bool, report: Report) {
    && Shown(config, w, previous, replacing, report)
    && report.after.providers != []
    && (config.requireEdgeHeadProvider ==> EdgeBacked(report.after, report.p2p))
  }

  /** Why a window is refused: everything up to the check held, and the check did not. */
  ghost predicate Refused(config: Config, w: Window, previous: Head, replacing: bool, failure: Failure) {
    match failure
    case CommandFailed => !w.commandOk
    case ReportUnreadable => w.commandOk && w.report == None
    case TrainRejected => w.commandOk && w.report.Some? && !Trained(w.report.value)
    case NoPublishedHead =>
      && w.commandOk && w.report.Some? && Trained(w.report.value)
      && w.report.value.publishedHeadId in {None, Some("")}
    case PublishedHeadUnseen =>
      && w.report.Some? && Published(w, w.report.value)
      && NeverSeen(w.publishedProbes, w.report.value.publishedHeadId.value, config.p2pTimeoutSecs)
    case HeadStuck =>
      && w.report.Some? && Published(w, w.report.value)
      && !NeverSeen(w.publishedProbes, w.report.value.publishedHeadId.value, config.p2pTimeoutSecs)
      && Stays(w.directory, previous.headId, config.canonicalTimeoutSecs)
    case StepStuck =>
      exists train, published, after :: Arrived(config, w, previous, train, published, after)
        && !StepRose(previous, train, after, replacing)
    case LossMissing =>
      exists train, published, after :: Arrived(config, w, previous, train, published, after)
        && StepRose(previous, train, after, replacing)
        && after.metrics.trainLoss == None && after.metrics.loss == None
    case LossRegressed =>
      exists train, published, after :: Arrived(config, w, previous, train, published, after)
        && StepRose(previous, train, after, replacing)
        && (after.metrics.trainLoss.Some? || after.metrics.loss.Some?)
        && !LossKept(config, previous, after, replacing)
    case HeadUnseen =>
      exists train, published, after :: Arrived(config, w, previous, train, published, after)
        && Improved(config, previous, train, after, replacing)
        && after.headId.Some? && NeverSeen(w.headProbes, after.headId.value, config.p2pTimeoutSecs)
    case NoProvider =>
      exists report :: Shown(config, w, previous, replacing, report) && report.after.providers == []
    case NotEdgeBacked =>
      && config.requireEdgeHeadProvider
      && exists report :: Shown(config, w, previous, replacing, report)
           && report.after.providers != [] && !EdgeBacked(report.after, report.p2p)
  }

  /** What the directory named, the window compares and looks for. */
  lemma LateVerdict(
    config: Config, w: Window, previous: Head, replacing: bool, train: TrainReport, published: Snapshot, after: Head)
    requires Answer(w.publishedProbes, Advertises(train.publishedHeadId.GetOr("")), config.p2pTimeoutSecs)
             == Some(published)
    requires Answer(w.directory, Advanced(previous.headId), config.canonicalTimeoutSecs) == Some(after)
    requires Published(w, train)
    ensures var r := WindowSpec(config, w, previous, replacing);
            if r.Ok? then Healthy(config, w, previous, replacing, r.value)
            else Refused(config, w, previous, replacing, r.error)
  {
    TrainedIff(train);
    SeenIff(w.publishedProbes, train.publishedHeadId.value, config.p2pTimeoutSecs, published);
    MovesIff(w.directory, previous.headId, config.canonicalTimeoutSecs, after);
    assert Arrived(config, w, previous, train, published, after);
    CanonicalIff(previous, train, after, replacing, config);
    var seen := Answer(w.headProbes, Advertises(after.headId.GetOr("")), config.p2pTimeoutSecs);
    var probe := seen.GetOr(published);
    SeenIff(w.headProbes, after.headId.value, config.p2pTimeoutSecs, probe);
    assert Improved(config, previous, train, after, replacing) && seen.Some? ==>
        Shown(config, w, previous, replacing, Report(previous, train, published, after, probe));
  }

  /** A window passes only if it is healthy, and is refused only for the reason given. */
  lemma WindowVerdict(config: Config, w: Window, previous: Head, replacing: bool)
    ensures var r := WindowSpec(config, w, previous, replacing);
            if r.Ok? then Healthy(config, w, previous, replacing, r.value)
            else Refused(config, w, previous, replacing, r.error)
  {
    if w.report.Some? {
      TrainedIff(w.report.value);
    }
    if w.report.Some? && Published(w, w.report.value) {
      var train := w.report.value;
      var published := Answer(w.publishedProbes, Advertises(train.publishedHeadId.value), config.p2pTimeoutSecs);
      var advanced := Answer(w.directory, Advanced(previous.headId), config.canonicalTimeoutSecs);
      SeenIff(w.publishedProbes, train.publishedHeadId.value, config.p2pTimeoutSecs,
              published.GetOr(Snapshot([], None)));
      MovesIff(w.directory, previous.headId, config.canonicalTimeoutSecs, advanced.GetOr(previous));
      if published.Some? && advanced.Some? {
        LateVerdict(config, w, previous, replacing, train, published.value, advanced.value);
      }
    }
  }

  /** A healthy window passes with just that report. */
  lemma HealthyPasses(config: Config, w: Window, previous: Head, replacing: bool, report: Report)
    requires Healthy(config, w, previous, replacing, report)
    ensures WindowSpec(config, w, previous, replacing) == Ok(report)
  {
    TrainedIff(report.train);
    SeenIff(w.publishedProbes, report.train.publishedHeadId.value, config.p2pTimeoutSecs, report.published);
    MovesIff(w.directory, previous.headId, config.canonicalTimeoutSecs, report.after);
    CanonicalIff(previous, report.train, report.after, replacing, config);
    SeenIff(w.headProbes, report.after.headId.value, config.p2pTimeoutSecs, report.p2p);
  }

  /** A window passes with a report if and only if the report is what a healthy window shows. */
  lemma WindowPassesIff(config: Config, w: Window, previous: Head, replacing: bool, report: Report)
    ensures WindowSpec(config, w, previous, replacing) == Ok(report)
            <==> Healthy(config, w, previous, replacing, report)
  {
    WindowVerdict(config, w, previous, replacing);
    if Healthy(config, w, previous, replacing, report) {
      HealthyPasses(config, w, previous, replacing, report);
    }
  }

  /** Every window of a run that passed was healthy. */
  lemma RunIsHealthy(
    config: Config, env: nat -> Window, start: Head, replace: bool, reports: seq<Report>, i: nat)
    requires Passed(Checks(config, env), start, replace, reports) && i < |reports|
    ensures Healthy(config, env(i), Before(start, reports, i), replace && i == 0, reports[i])
  {
    assert PassedAt(Checks(config, env), start, replace, reports, i);
    WindowPassesIff(config, env(i), Before(start, reports, i), replace && i == 0, reports[i]);
  }

  /** The edge gate over whole runs: a connected peer of each window's snapshot provides its new head. */
  lemma RunIsEdgeBacked(
    config: Config, env: nat -> Window, start: Head, replace: bool, reports: seq<Report>, i: nat)
    requires Passed(Checks(config, env), start, replace, reports) && i < |reports|
    requires config.requireEdgeHeadProvider
    ensures exists peer ::
              peer != "" && reports[i].p2p.connectedPeer == Some(peer) && peer in reports[i].after.providers
  {
    RunIsHealthy(config, env, start, replace, reports, i);
    assert reports[i].p2p.connectedPeer == Some(reports[i].p2p.connectedPeer.value);
  }

  /**
   * A window that passes without the edge gate is refused by it if and only if no connected peer of
   * the snapshot provides the head; and the gate refuses no other window.
   */
  lemma EdgeGate(config: Config, w: Window, previous: Head, replacing: bool, report: Report)
    requires WindowSpec(config.(requireEdgeHeadProvider := false), w, previous, replacing) == Ok(report)
    ensures var r := WindowSpec(config.(requireEdgeHeadProvider := true), w, previous, replacing);
            && (r == Err(NotEdgeBacked) <==>
                  forall peer ::
                    peer != "" && report.p2p.connectedPeer == Some(peer) ==> peer !in report.after.providers)
            && (r == Err(NotEdgeBacked) || r == Ok(report))
  {
    var with := config.(requireEdgeHeadProvider := true);
    WindowPassesIff(config.(requireEdgeHeadProvider := false), w, previous, replacing, report);
    WindowPassesIff(with, w, previous, replacing, report);
    assert EdgeBacked(report.after, report.p2p) ==> Healthy(with, w, previous, replacing, report);
  }

  /** And only that gate refuses so. */
  lemma OnlyTheEdgeGate(config: Config, w: Window, previous: Head, replacing: bool)
    requires WindowSpec(config, w, previous, replacing) == Err(NotEdgeBacked)
    ensures config.requireEdgeHeadProvider
    ensures WindowSpec(config.(requireEdgeHeadProvider := false), w, previous, replacing).Ok?
  {
  }
}
