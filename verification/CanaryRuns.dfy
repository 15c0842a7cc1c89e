/** What whole canary runs guarantee, though every window checks only itself. */
module CanaryRuns {
  import opened Wrappers
  import opened NativeCanary

  function Step(head: Head): int {
    StepOf(head.globalStep)
  }

  /** The peer through which the probe connected provides the head. */
  predicate EdgeBacked(head: Head, p2p: Snapshot) {
    p2p.connectedPeer.Some? && p2p.connectedPeer.value != "" && p2p.connectedPeer.value in head.providers
  }

  /** What one window's checks establish about the heads at its two ends. */
  ghost predicate Holds(config: Config, before: Head, report: Report, replacing: bool) {
    var after := report.after;
    && after.headId.Some?
    && after.headId != before.headId
    && (!replacing ==> Step(after) > Step(before))
    && LossOf(after.metrics).Some?
    && (config.requireLossNonRegression && !replacing ==> LossHolds(before.metrics, after.metrics))
    && after.providers != []
    && (config.requireEdgeHeadProvider ==> EdgeBacked(after, report.p2p))
    && after.headId.value in report.p2p.headIds
  }

  lemma AnswerIsAccepted<T(!new)>(feed: Feed<T>, accepts: T -> bool, timeoutSecs: nat)
    requires Answer(feed, accepts, timeoutSecs).Some?
    ensures accepts(Answer(feed, accepts, timeoutSecs).value)
  {
    var end := HitMeans(feed, accepts, timeoutSecs * NANOS, 0);
  }

  lemma WindowHolds(config: Config, w: Window, previous: Head, replacing: bool)
    ensures var spec := WindowSpec(config, w, previous, replacing);
            spec.Ok? ==> Holds(config, previous, spec.value, replacing)
  {
    var spec := WindowSpec(config, w, previous, replacing);
    if spec.Ok? {
      AnswerIsAccepted(w.directory, Advanced(previous.headId), config.canonicalTimeoutSecs);
      AnswerIsAccepted(w.headProbes, Advertises(spec.value.after.headId.GetOr("")), config.p2pTimeoutSecs);
    }
  }

  /** The run as the windows' guarantees see it. */
  ghost predicate AllHold(config: Config, start: Head, replace: bool, reports: seq<Report>) {
    forall i :: 0 <= i < |reports| ==> Holds(config, Before(start, reports, i), reports[i], replace && i == 0)
  }

  lemma PassedHolds(config: Config, env: nat -> Window, start: Head, replace: bool, reports: seq<Report>)
    requires Passed(Checks(config, env), start, replace, reports)
    ensures AllHold(config, start, replace, reports)
  {
    forall i | 0 <= i < |reports|
      ensures Holds(config, Before(start, reports, i), reports[i], replace && i == 0)
    {
      assert PassedAt(Checks(config, env), start, replace, reports, i);
      WindowHolds(config, env(i), Before(start, reports, i), replace && i == 0);
    }
  }

  /** The heads of a run: the preflight head, then the canonical head each window ended with. */
  function Heads(start: Head, reports: seq<Report>): (heads: seq<Head>)
    ensures |heads| == |reports| + 1
    ensures forall i :: 0 <= i <= |reports| ==> heads[i] == Before(start, reports, i)
  {
    seq(|reports| + 1, i requires 0 <= i <= |reports| => Before(start, reports, i))
  }

  /** From index `from` on, each entry exceeds the one before it. */
  ghost predicate Rising(steps: seq<int>, from: nat) {
    forall i :: from < i < |steps| ==> steps[i] > steps[i - 1]
  }

  lemma {:induction false} RisingGap(steps: seq<int>, from: nat, i: nat, j: nat)
    requires Rising(steps, from) && from <= i <= j < |steps|
    ensures steps[j] >= steps[i] + (j - i)
  {
    if i < j {
      RisingGap(steps, from, i, j - 1);
    }
  }

  function Steps(heads: seq<Head>): (steps: seq<int>)
    ensures |steps| == |heads|
  {
    seq(|heads|, i requires 0 <= i < |heads| => Step(heads[i]))
  }

  lemma HoldsRises(config: Config, start: Head, replace: bool, reports: seq<Report>)
    requires AllHold(config, start, replace, reports)
    ensures Rising(Steps(Heads(start, reports)), if replace then 1 else 0)
  {
    var steps := Steps(Heads(start, reports));
    forall i | (if replace then 1 else 0) < i < |steps|
      ensures steps[i] > steps[i - 1]
    {
      var k := i - 1;
      assert Holds(config, Before(start, reports, k), reports[k], replace && k == 0);
    }
  }

  /**
   * Canonical steps in a run of `run_windows`: from any head of the run to any later one the step
   * rises by at least one per window. Only a replaced preflight head is exempt.
   */
  lemma StepsRise(
    config: Config, env: nat -> Window, start: Head, replace: bool, reports: seq<Report>, i: nat, j: nat)
    requires Passed(Checks(config, env), start, replace, reports)
    requires (if replace then 1 else 0) <= i <= j <= |reports|
    ensures Step(Before(start, reports, j)) >= Step(Before(start, reports, i)) + (j - i)
  {
    PassedHolds(config, env, start, replace, reports);
    HoldsRises(config, start, replace, reports);
    RisingGap(Steps(Heads(start, reports)), if replace then 1 else 0, i, j);
  }

  lemma ConsecutiveHeadsDiffer(
    config: Config, env: nat -> Window, start: Head, replace: bool, reports: seq<Report>, i: nat)
    requires Passed(Checks(config, env), start, replace, reports) && i < |reports|
    ensures var head := reports[i].after;
            && head.headId.Some? && head.headId != Before(start, reports, i).headId
            && head.providers != [] && head.headId.value in reports[i].p2p.headIds
  {
    PassedHolds(config, env, start, replace, reports);
    assert Holds(config, Before(start, reports, i), reports[i], replace && i == 0);
  }

  /** A head's step is fixed by its id, wherever in the run the head is seen. */
  ghost predicate StepFixedById(heads: seq<Head>) {
    forall i, j :: 0 <= i < j < |heads| && heads[i].headId == heads[j].headId ==> Step(heads[i]) == Step(heads[j])
  }

  /**
   * No canonical head is published twice. The preflight head can come back only in a run that
   * replaced it, not in the first window, and only when its step is above the first replacement's.
   */
  lemma NeverRevisited(
    config: Config, env: nat -> Window, start: Head, replace: bool, reports: seq<Report>, i: nat, j: nat)
    requires Passed(Checks(config, env), start, replace, reports)
    requires StepFixedById(Heads(start, reports)) && i < j <= |reports|
    requires Before(start, reports, i).headId == Before(start, reports, j).headId
    ensures replace && i == 0 && j > 1 && Step(start) >= Step(reports[0].after) + (j - 1)
  {
    var heads := Heads(start, reports);
    assert Step(heads[i]) == Step(heads[j]);
    if !replace || i > 0 {
      StepsRise(config, env, start, replace, reports, i, j);
    } else {
      ConsecutiveHeadsDiffer(config, env, start, replace, reports, 0);
      StepsRise(config, env, start, replace, reports, 1, j);
    }
  }

  function MetricsOf(heads: seq<Head>): (ms: seq<Metrics>)
    ensures |ms| == |heads|
    ensures forall i :: 0 <= i < |ms| ==> ms[i] == heads[i].metrics
  {
    seq(|heads|, i requires 0 <= i < |heads| => heads[i].metrics)
  }

  /** What the windows check about losses: each against its predecessor, on whichever key both report. */
  ghost predicate Chain(ms: seq<Metrics>, from: nat) {
    forall i :: from < i < |ms| ==> LossOf(ms[i]).Some? && LossHolds(ms[i - 1], ms[i])
  }

  lemma LossPart(config: Config, before: Head, report: Report)
    requires Holds(config, before, report, false) && config.requireLossNonRegression
    ensures LossOf(report.after.metrics).Some? && LossHolds(before.metrics, report.after.metrics)
  {
  }

  lemma MetricsAt(start: Head, reports: seq<Report>, i: nat)
    requires i <= |reports|
    ensures MetricsOf(Heads(start, reports))[i] == Before(start, reports, i).metrics
    ensures i > 0 ==> Before(start, reports, i) == reports[i - 1].after
  {
  }

  /** The chain starts at the preflight head, or at the first published head if that was replaced. */
  lemma HoldsIsChain(config: Config, start: Head, replace: bool, reports: seq<Report>)
    requires AllHold(config, start, replace, reports) && config.requireLossNonRegression
    ensures Chain(MetricsOf(Heads(start, reports)), if replace then 1 else 0)
  {
    var ms := MetricsOf(Heads(start, reports));
    forall i | (if replace then 1 else 0) < i < |ms|
      ensures LossOf(ms[i]).Some? && LossHolds(ms[i - 1], ms[i])
    {
      MetricsAt(start, reports, i - 1);
      MetricsAt(start, reports, i);
      LossPart(config, Before(start, reports, i - 1), reports[i - 1]);
    }
  }

  /** Which of the two loss keys a head reports. */
  datatype Shape = Shape(train: bool, loss: bool)

  function ShapeOf(m: Metrics): Shape {
    Shape(m.trainLoss.Some?, m.loss.Some?)
  }

  function ShapesOf(ms: seq<Metrics>): (shapes: seq<Shape>)
    ensures |shapes| == |ms|
    ensures forall i :: 0 <= i < |ms| ==> shapes[i] == ShapeOf(ms[i])
  {
    seq(|ms|, i requires 0 <= i < |ms| => ShapeOf(ms[i]))
  }

  /** At every point of the run from `from` on, the loss has drifted by at most one tolerance per window since. */
  ghost predicate DriftBounded(ms: seq<Metrics>, from: nat) {
    forall i :: from <= i < |ms| && LossOf(ms[i]).Some? && LossOf(ms[from]).Some? ==>
      LossOf(ms[i]).value <= LossOf(ms[from]).value + (i - from) as real * TOLERANCE
  }

  /** From `from` on, either every head reports `train_loss` or none does: one key is compared throughout. */
  ghost predicate OneKey(shapes: seq<Shape>, from: nat) {
    forall i :: from <= i < |shapes| ==> shapes[i].train == shapes[from].train
  }

  lemma {:induction false} DriftAt(ms: seq<Metrics>, from: nat, i: nat)
    requires Chain(ms, from) && OneKey(ShapesOf(ms), from)
    requires from <= i < |ms| && LossOf(ms[from]).Some?
    ensures LossOf(ms[i]).Some?
    ensures LossOf(ms[i]).value <= LossOf(ms[from]).value + (i - from) as real * TOLERANCE
  {
    if i > from {
      DriftAt(ms, from, i - 1);
      var shapes := ShapesOf(ms);
      assert shapes[i].train == shapes[from].train == shapes[i - 1].train;
      assert LossHolds(ms[i - 1], ms[i]);
      assert (i - from) as real * TOLERANCE == (i - 1 - from) as real * TOLERANCE + TOLERANCE;
    }
  }

  /**
   * The drift bound over whole runs that require non-regression: at most one tolerance per window
   * since the preflight head, or since the first published head if the preflight head was replaced.
   */
  lemma LossDrift(config: Config, env: nat -> Window, start: Head, replace: bool, reports: seq<Report>, i: nat)
    requires Passed(Checks(config, env), start, replace, reports) && config.requireLossNonRegression
    requires (if replace then 1 else 0) <= i <= |reports|
    requires LossOf(Before(start, reports, if replace then 1 else 0).metrics).Some?
    requires OneKey(ShapesOf(MetricsOf(Heads(start, reports))), if replace then 1 else 0)
    ensures var from := if replace then 1 else 0;
            && LossOf(Before(start, reports, i).metrics).Some?
            && LossOf(Before(start, reports, i).metrics).value
               <= LossOf(Before(start, reports, from).metrics).value + (i - from) as real * TOLERANCE
  {
    PassedHolds(config, env, start, replace, reports);
    HoldsIsChain(config, start, replace, reports);
    DriftAt(MetricsOf(Heads(start, reports)), if replace then 1 else 0, i);
  }

  /** The first head the loss bound counts from: the preflight head unless it was replaced. */
  function Counted(replace: bool): nat {
    if replace then 1 else 0
  }

  /** `ms` are the metrics of some full run that passed. */
  ghost predicate RunWith(config: Config, replace: bool, ms: seq<Metrics>) {
    exists env, start, reports ::
      && |reports| == config.windows
      && Passed(Checks(config, env), start, replace, reports)
      && MetricsOf(Heads(start, reports)) == ms
  }

  function Always<T>(value: T): Feed<T> {
    var now := (k: nat) => k * (POLL_SECS * NANOS);
    assert Ticking(now);
    Feed(now, (k: nat) => Some(value))
  }

  /** A cooperative outside world in which a window ends with `head`. */
  function WindowTo(head: Head): Window
    requires head.headId.Some?
  {
    var healthy := Metrics(Some(0.0), None);
    var train := TrainReport(true, Some(0.0), Some(1.0), Some("p"), healthy, Some(1.0), Some(1.0), None);
    Window(true, Some(train), Always(Snapshot(["p"], None)), Always(head),
           Always(Snapshot([head.headId.value], Some("edge"))))
  }

  lemma AlwaysHits<T(!new)>(value: T, accepts: T -> bool, timeoutSecs: nat)
    requires timeoutSecs > 0 && accepts(value)
    ensures Answer(Always(value), accepts, timeoutSecs) == Some(value)
  {
    assert Always(value).now(0) == 0;
  }

  /** Window `i` takes head number `i` to head number `i + 1`. */
  ghost predicate Leads(
    checks: (nat, Head, bool) -> Result<Report, Failure>, heads: nat -> Head, replace: bool, i: nat)
  {
    var outcome := checks(i, heads(i), replace && i == 0);
    outcome.Ok? && outcome.value.after == heads(i + 1)
  }

  lemma HealthyTrainAccepted(head: Head)
    requires head.headId.Some?
    ensures TrainAccepted(WindowTo(head).report.value)
  {
    assert AsI64(0.0) == 0 && AsI64(1.0) == 1;
  }

  /** In a cooperative world nothing but the checks on the two heads decides. */
  lemma WindowToPasses(config: Config, previous: Head, next: Head, replacing: bool)
    requires config.canonicalTimeoutSecs > 0 && config.p2pTimeoutSecs > 0
    requires next.headId.Some? && next.headId != previous.headId && "edge" in next.providers
    requires Step(next) > (if replacing then 0 else Step(previous))
    requires LossOf(next.metrics).Some? && (!replacing ==> LossHolds(previous.metrics, next.metrics))
    ensures Ends(config, WindowTo(next), previous, next, replacing)
  {
    var train, seen := WindowTo(next).report.value, Snapshot([next.headId.value], Some("edge"));
    HealthyTrainAccepted(next);
    AlwaysHits(Snapshot(["p"], None), Advertises("p"), config.p2pTimeoutSecs);
    AlwaysHits(next, Advanced(previous.headId), config.canonicalTimeoutSecs);
    AlwaysHits(seen, Advertises(next.headId.value), config.p2pTimeoutSecs);
    assert CanonicalCheck(Baseline(previous, train, replacing), next, config.requireLossNonRegression).None? by {
      assert AsI64(0.0) == 0;
    }
    assert ProviderCheck(next, seen, config.requireEdgeHeadProvider).None? by {
      assert |"edge"| > 0;
    }
  }

  lemma {:induction false} LedRun(
    checks: (nat, Head, bool) -> Result<Report, Failure>, heads: nat -> Head, replace: bool, n: nat)
    returns (reports: seq<Report>)
    requires forall i: nat :: i < n ==> Leads(checks, heads, replace, i)
    ensures |reports| == n && Passed(checks, heads(0), replace, reports)
    ensures forall i :: 0 <= i < n ==> reports[i].after == heads(i + 1)
    ensures n > 0 ==> checks(0, heads(0), replace) == Ok(reports[0])
  {
    if n == 0 {
      reports := [];
    } else {
      var shorter := LedRun(checks, heads, replace, n - 1);
      assert Leads(checks, heads, replace, n - 1);
      var next := checks(n - 1, heads(n - 1), replace && n == 1).value;
      assert Before(heads(0), shorter, n - 1) == heads(n - 1);
      PassedSnoc(checks, heads(0), replace, shorter, next);
      reports := shorter + [next];
    }
  }

  lemma AsI64Exact(x: int)
    requires -0x8000_0000_0000_0000 <= x <= 0x7FFF_FFFF_FFFF_FFFF
    ensures AsI64(x as real) == x
  {
    assert (x as real).Floor == x && (-(x as real)).Floor == -x;
  }

  ghost predicate Ends(config: Config, w: Window, previous: Head, next: Head, replacing: bool) {
    var outcome := WindowSpec(config, w, previous, replacing);
    outcome.Ok? && outcome.value.after == next
  }

  /** Windows that each take one head to the next make a run. */
  lemma ChainedRun(config: Config, env: nat -> Window, heads: nat -> Head, replace: bool)
    returns (reports: seq<Report>)
    requires forall i: nat :: i < config.windows ==> Ends(config, env(i), heads(i), heads(i + 1), replace && i == 0)
    ensures |reports| == config.windows && Passed(Checks(config, env), heads(0), replace, reports)
    ensures forall i :: 0 <= i < |reports| ==> reports[i].after == heads(i + 1)
    ensures |reports| > 0 ==> Checks(config, env)(0, heads(0), replace) == Ok(reports[0])
  {
    forall i: nat | i < config.windows
      ensures Leads(Checks(config, env), heads, replace, i)
    {
      assert Ends(config, env(i), heads(i), heads(i + 1), replace && i == 0);
    }
    reports := LedRun(Checks(config, env), heads, replace, config.windows);
  }

  function HeadNumber(ms: seq<Metrics>, i: nat): Head
    requires ms != []
  {
    Head(Some(seq(i + 1, _ => 'h')), Some(i as real), ms[if i < |ms| then i else 0], ["edge"])
  }

  lemma NumberedWindowPasses(config: Config, replace: bool, ms: seq<Metrics>, i: nat)
    requires i + 1 < |ms| <= 0x7FFF_FFFF_FFFF_FFFF && Chain(ms, Counted(replace))
    requires replace ==> LossOf(ms[1]).Some?
    requires config.canonicalTimeoutSecs > 0 && config.p2pTimeoutSecs > 0
    ensures Ends(config, WindowTo(HeadNumber(ms, i + 1)), HeadNumber(ms, i), HeadNumber(ms, i + 1), replace && i == 0)
  {
    AsI64Exact(i);
    AsI64Exact(i + 1);
    var previous, next := HeadNumber(ms, i), HeadNumber(ms, i + 1);
    assert |previous.headId.value| != |next.headId.value|;
    assert i + 1 > Counted(replace) ==> LossOf(ms[i + 1]).Some? && LossHolds(ms[i + 1 - 1], ms[i + 1]);
    WindowToPasses(config, previous, next, replace && i == 0);
  }

  lemma NumberedMetrics(ms: seq<Metrics>, reports: seq<Report>)
    requires |ms| == |reports| + 1
    requires forall i :: 0 <= i < |reports| ==> reports[i].after == HeadNumber(ms, i + 1)
    ensures MetricsOf(Heads(HeadNumber(ms, 0), reports)) == ms
  {
    forall i | 0 <= i < |ms|
      ensures MetricsOf(Heads(HeadNumber(ms, 0), reports))[i] == ms[i]
    {
      MetricsAt(HeadNumber(ms, 0), reports, i);
    }
  }

  function NumberedWindow(ms: seq<Metrics>, i: nat): Window
    requires ms != []
  {
    WindowTo(HeadNumber(ms, i + 1))
  }

  lemma NumberedRun(config: Config, replace: bool, ms: seq<Metrics>) returns (env: nat -> Window, reports: seq<Report>)
    requires |ms| == config.windows + 1 <= 0x7FFF_FFFF_FFFF_FFFF && Chain(ms, Counted(replace))
    requires replace && config.windows > 0 ==> LossOf(ms[1]).Some?
    requires config.canonicalTimeoutSecs > 0 && config.p2pTimeoutSecs > 0
    ensures |reports| == config.windows && Passed(Checks(config, env), HeadNumber(ms, 0), replace, reports)
    ensures forall i :: 0 <= i < |reports| ==> reports[i].after == HeadNumber(ms, i + 1)
  {
    env := (i: nat) => NumberedWindow(ms, i);
    var heads := (i: nat) => HeadNumber(ms, i);
    forall i: nat | i < config.windows
      ensures Ends(config, env(i), heads(i), heads(i + 1), replace && i == 0)
    {
      NumberedWindowPasses(config, replace, ms, i);
    }
    reports := ChainedRun(config, env, heads, replace);
  }

  /** Nothing but the chain of loss checks constrains the metrics a run can pass with. */
  lemma EveryChainIsARun(config: Config, replace: bool, ms: seq<Metrics>)
    requires |ms| == config.windows + 1 <= 0x7FFF_FFFF_FFFF_FFFF && Chain(ms, Counted(replace))
    requires replace && config.windows > 0 ==> LossOf(ms[1]).Some?
    requires config.canonicalTimeoutSecs > 0 && config.p2pTimeoutSecs > 0
    ensures RunWith(config, replace, ms)
  {
    var env, reports := NumberedRun(config, replace, ms);
    NumberedMetrics(ms, reports);
  }

  lemma FirstFlip(shapes: seq<Shape>, from: nat) returns (k: nat)
    requires !OneKey(shapes, from)
    ensures from < k < |shapes| && shapes[k].train != shapes[from].train
    ensures forall i :: from <= i < k ==> shapes[i].train == shapes[from].train
  {
    k :| from <= k < |shapes| && shapes[k].train != shapes[from].train;
    while exists i :: from <= i < k && shapes[i].train != shapes[from].train
      invariant from < k < |shapes| && shapes[k].train != shapes[from].train
      decreases k
    {
      var i :| from <= i < k && shapes[i].train != shapes[from].train;
      k := i;
    }
  }

  /** At the first head `k` that reports the other key set, the drift can be as large as anyone likes. */
  lemma FlipEscapes(shapes: seq<Shape>, from: nat, k: nat) returns (ms: seq<Metrics>)
    requires from < k < |shapes| && shapes[k].train != shapes[from].train
    requires forall i :: from <= i < k ==> shapes[i].train == shapes[from].train
    requires forall i :: from <= i < |shapes| ==> shapes[i].train || shapes[i].loss
    ensures ShapesOf(ms) == shapes && Chain(ms, from) && LossOf(ms[from]).Some? && !DriftBounded(ms, from)
  {
    var high := k as real;
    if shapes[from].train {
      ms := seq(|shapes|, i requires 0 <= i < |shapes| => Metrics(
        if shapes[i].train then Some(if i < k then 0.0 else high) else None,
        if shapes[i].loss then Some(high) else None));
    } else {
      ms := seq(|shapes|, i requires 0 <= i < |shapes| => Metrics(
        if shapes[i].train then Some(high) else None,
        if shapes[i].loss then Some(0.0) else None));
    }
    assert LossOf(ms[k]) == Some(high) && LossOf(ms[from]) == Some(0.0);
  }

  /** The first head that counts reports no loss, so that there is nothing to compare with. */
  predicate Silent(shapes: seq<Shape>, from: nat) {
    from < |shapes| && !shapes[from].train && !shapes[from].loss
  }

  /**
   * The drift bound is a property of the keys the heads report: every full run whose heads report
   * these keys stays within it if and only if, from the first head that counts, `train_loss` is
   * reported by all heads or by none, or that head reports no loss at all. (Published heads do.)
   */
  lemma OneKeyIsExact(config: Config, replace: bool, shapes: seq<Shape>)
    requires |shapes| == config.windows + 1 <= 0x7FFF_FFFF_FFFF_FFFF
    requires forall i :: 1 <= i < |shapes| ==> shapes[i].train || shapes[i].loss
    requires config.requireLossNonRegression && config.canonicalTimeoutSecs > 0 && config.p2pTimeoutSecs > 0
    ensures OneKey(shapes, Counted(replace)) || Silent(shapes, Counted(replace)) <==>
              forall ms: seq<Metrics> ::
                RunWith(config, replace, ms) && ShapesOf(ms) == shapes ==> DriftBounded(ms, Counted(replace))
  {
    var from := Counted(replace);
    if OneKey(shapes, from) {
      forall ms: seq<Metrics> | RunWith(config, replace, ms) && ShapesOf(ms) == shapes
        ensures DriftBounded(ms, from)
      {
        var env, start, reports :| |reports| == config.windows &&
          Passed(Checks(config, env), start, replace, reports) && MetricsOf(Heads(start, reports)) == ms;
        PassedHolds(config, env, start, replace, reports);
        HoldsIsChain(config, start, replace, reports);
        forall i | from <= i < |ms| && LossOf(ms[i]).Some? && LossOf(ms[from]).Some?
          ensures LossOf(ms[i]).value <= LossOf(ms[from]).value + (i - from) as real * TOLERANCE
        {
          DriftAt(ms, from, i);
        }
      }
    } else if !Silent(shapes, from) {
      var k := FirstFlip(shapes, from);
      var ms := FlipEscapes(shapes, from, k);
      EveryChainIsARun(config, replace, ms);
    }
  }

  lemma TimeoutsPositive(config: Config, w: Window, previous: Head, replacing: bool)
    requires WindowSpec(config, w, previous, replacing).Ok?
    ensures config.canonicalTimeoutSecs > 0 && config.p2pTimeoutSecs > 0
  {
    var advanced := HitMeans(w.directory, Advanced(previous.headId), config.canonicalTimeoutSecs * NANOS, 0);
    var published := HitMeans(
      w.publishedProbes, Advertises(w.report.value.publishedHeadId.value), config.p2pTimeoutSecs * NANOS, 0);
  }

  const LAST_STEP := 0x7FFF_FFFF_FFFF_FFFF

  /**
   * Some full run that replaced the preflight head, began with the window that ended in `first` and
   * passed, came back to the preflight head, although a head's step is fixed by its id.
   */
  ghost predicate Returns(config: Config, start: Head, first: Report) {
    exists env, reports, j ::
      && |reports| == config.windows && 0 < j <= |reports| && reports[0] == first
      && Passed(Checks(config, env), start, true, reports)
      && StepFixedById(Heads(start, reports))
      && Before(start, reports, j).headId == start.headId
  }

  /** The window after which a returning run is back at the preflight head. */
  function ReturnAt(start: Head, first: Head, n: nat): nat
    requires Step(first) < Step(start)
  {
    var rise := Step(start) - Step(first);
    if n <= rise then n else rise + 1
  }

  function ReturnStep(start: Head, first: Head, n: nat, k: nat): int {
    if k == n && n - 1 < Step(start) - Step(first) then Step(start) else Step(first) + (k - 1)
  }

  /** The heads of a returning run: steps rise by one, but for a last leap to the preflight step if it is far. */
  function ReturnHead(start: Head, first: Head, n: nat, k: nat): Head
    requires Step(first) < Step(start) && start.headId.Some? && first.headId.Some?
  {
    if k == 0 then start
    else if k == 1 then first
    else
      var unused: seq<char> := seq(|start.headId.value| + |first.headId.value| + k, _ => 'h');
      Head(Some(if k == ReturnAt(start, first, n) then start.headId.value else unused),
           Some(ReturnStep(start, first, n, k) as real), first.metrics, ["edge"])
  }

  /** A pair of heads a run could return between. */
  ghost predicate CanReturn(start: Head, first: Head, n: nat) {
    && n >= 2
    && start.headId.Some? && first.headId.Some? && start.headId != first.headId
    && Step(first) < Step(start) && Step(first) + (n - 1) <= LAST_STEP
    && LossOf(first.metrics).Some?
  }

  lemma ReturnSteps(start: Head, first: Head, n: nat, k: nat)
    requires CanReturn(start, first, n) && 1 <= k <= n
    ensures Step(ReturnHead(start, first, n, k)) == ReturnStep(start, first, n, k)
    ensures k == ReturnAt(start, first, n) ==> ReturnStep(start, first, n, k) == Step(start)
  {
    AsI64Exact(ReturnStep(start, first, n, k));
  }

  lemma ReturnIdLength(start: Head, first: Head, n: nat, k: nat)
    requires CanReturn(start, first, n) && 1 < k && k != ReturnAt(start, first, n)
    ensures |ReturnHead(start, first, n, k).headId.value| == |start.headId.value| + |first.headId.value| + k
  {
  }

  lemma ReturnIds(start: Head, first: Head, n: nat, i: nat, k: nat)
    requires CanReturn(start, first, n) && i < k <= n
    ensures ReturnHead(start, first, n, i).headId == ReturnHead(start, first, n, k).headId ==>
              i == 0 && k == ReturnAt(start, first, n)
  {
    if 1 < k && k != ReturnAt(start, first, n) {
      ReturnIdLength(start, first, n, k);
    }
    if 1 < i && i != ReturnAt(start, first, n) {
      ReturnIdLength(start, first, n, i);
    }
  }

  lemma ReturnWindowPasses(config: Config, start: Head, first: Head, k: nat)
    requires CanReturn(start, first, config.windows) && 1 <= k < config.windows
    requires config.canonicalTimeoutSecs > 0 && config.p2pTimeoutSecs > 0
    ensures var next := ReturnHead(start, first, config.windows, k + 1);
            Ends(config, WindowTo(next), ReturnHead(start, first, config.windows, k), next, false)
  {
    var previous := ReturnHead(start, first, config.windows, k);
    var next := ReturnHead(start, first, config.windows, k + 1);
    ReturnSteps(start, first, config.windows, k);
    ReturnSteps(start, first, config.windows, k + 1);
    ReturnIds(start, first, config.windows, k, k + 1);
    WindowToPasses(config, previous, next, false);
  }

  lemma ReturnFixesSteps(start: Head, first: Head, n: nat, heads: seq<Head>)
    requires CanReturn(start, first, n) && |heads| == n + 1
    requires forall k :: 0 <= k <= n ==> heads[k] == ReturnHead(start, first, n, k)
    ensures StepFixedById(heads)
  {
    forall i, k | 0 <= i < k < |heads| && heads[i].headId == heads[k].headId
      ensures Step(heads[i]) == Step(heads[k])
    {
      ReturnIds(start, first, n, i, k);
      ReturnSteps(start, first, n, k);
    }
  }

  ghost function ReturnWindow(config: Config, w: Window, start: Head, first: Head, i: nat): Window
    requires CanReturn(start, first, config.windows)
  {
    if i == 0 then w else WindowTo(ReturnHead(start, first, config.windows, i + 1))
  }

  lemma ReturnWindowEnds(config: Config, w: Window, start: Head, first: Report, i: nat)
    requires WindowSpec(config, w, start, true) == Ok(first) && CanReturn(start, first.after, config.windows)
    requires i < config.windows
    ensures var n := config.windows;
            Ends(config, ReturnWindow(config, w, start, first.after, i),
                 ReturnHead(start, first.after, n, i), ReturnHead(start, first.after, n, i + 1), i == 0)
  {
    if i > 0 {
      TimeoutsPositive(config, w, start, true);
      ReturnWindowPasses(config, start, first.after, i);
    }
  }

  /** The returning run exists. */
  lemma ReturningRun(config: Config, w: Window, start: Head, first: Report)
    requires WindowSpec(config, w, start, true) == Ok(first) && CanReturn(start, first.after, config.windows)
    ensures Returns(config, start, first)
  {
    var n := config.windows;
    var env := (i: nat) => ReturnWindow(config, w, start, first.after, i);
    var heads := (i: nat) => ReturnHead(start, first.after, n, i);
    forall i: nat | i < n
      ensures Ends(config, env(i), heads(i), heads(i + 1), i == 0)
    {
      ReturnWindowEnds(config, w, start, first, i);
    }
    var reports := ChainedRun(config, env, heads, true);
    assert Checks(config, env)(0, heads(0), true) == Ok(first);
    ReturnFixesSteps(start, first.after, n, Heads(start, reports));
    assert Before(start, reports, ReturnAt(start, first.after, n)).headId == start.headId;
  }

  lemma StepInRange(head: Head)
    ensures Step(head) <= LAST_STEP
  {
  }

  /**
   * A canonical head comes back exactly here: in a run that replaced the preflight head, that head
   * can come back if and only if it has an id, there is a second window, and its step lies above the
   * first replacement's, provided the steps of that many windows fit into 64 bits.
   */
  lemma ReturnIff(config: Config, w: Window, start: Head, first: Report)
    requires WindowSpec(config, w, start, true) == Ok(first)
    ensures Returns(config, start, first) <==>
              && config.windows >= 2 && start.headId.Some?
              && Step(first.after) < Step(start)
              && Step(first.after) + (config.windows - 1) <= LAST_STEP
  {
    WindowHolds(config, w, start, true);
    if Returns(config, start, first) {
      var env, reports, j :| |reports| == config.windows && 0 < j <= |reports| && reports[0] == first
        && Passed(Checks(config, env), start, true, reports) && StepFixedById(Heads(start, reports))
        && Before(start, reports, j).headId == start.headId;
      NeverRevisited(config, env, start, true, reports, 0, j);
      ConsecutiveHeadsDiffer(config, env, start, true, reports, j - 1);
      StepsRise(config, env, start, true, reports, 1, |reports|);
      StepInRange(Before(start, reports, |reports|));
    } else if CanReturn(start, first.after, config.windows) {
      ReturningRun(config, w, start, first);
    }
  }

  const TWO_WINDOWS := Config(2, 60, 60, true, true)
  const PREFLIGHT := Head(Some("p"), Some(10.0), Metrics(Some(1.0), None), [])
  const REPLACEMENT := Head(Some("aa"), Some(1.0), Metrics(Some(1.0), None), ["edge"])

  /** The failure is real: two windows, and the run is back at the head it replaced. */
  lemma PreflightHeadReturns() returns (first: Report)
    ensures WindowSpec(TWO_WINDOWS, WindowTo(REPLACEMENT), PREFLIGHT, true) == Ok(first)
    ensures Returns(TWO_WINDOWS, PREFLIGHT, first)
  {
    AsI64Exact(1);
    AsI64Exact(10);
    assert |"p"| != |"aa"|;
    WindowToPasses(TWO_WINDOWS, PREFLIGHT, REPLACEMENT, true);
    first := WindowSpec(TWO_WINDOWS, WindowTo(REPLACEMENT), PREFLIGHT, true).value;
    ReturnIff(TWO_WINDOWS, WindowTo(REPLACEMENT), PREFLIGHT, first);
  }
}
