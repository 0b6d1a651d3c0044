/** Whether telemetry is good enough: one report per signal, and the worst required signal decides. */
module Readiness {
  import opened Core
  import opened Sorting
  import opened Series
  import opened Gaps
  import HoltWinters

  datatype SignalName = Demand | Replicas | CPU | Memory | Warmup | NodeHeadroom

  datatype Level = Supported | Degraded | Unsupported | Missing

  datatype Issue =
    | ShortLookback | MissingSamples | CoarseResolution | LargeGap | MixedLabels
    | TooFewDemandSamples | NoDemand | UnstableDemand
    | SignalAbsent | WarmupNotPositive | WarmupTooFewSamples | WarmupEstimated

  datatype Signal = Signal(samples: seq<Sample>, labels: seq<string>)

  datatype Snapshot = Snapshot(window: Window, demand: Signal, replicas: Signal, cpu: Option<Signal>,
                               memory: Option<Signal>, warmup: Option<Signal>, nodeHeadroom: Option<Signal>)

  datatype Options = Options(
    minimumLookback: Duration, expectedResolution: Duration,
    degradedMissing: real, unsupportedMissing: real,
    degradedResolution: real, unsupportedResolution: real,
    degradedGap: real, unsupportedGap: real,
    minimumWarmupSamples: int, stepChange: real,
    degradedUnstable: real, unsupportedUnstable: real)

  /** The text shown for a signal; it names the signal, so it is never empty. */
  datatype Reason = Reason(signal: SignalName, issues: seq<Issue>)

  /** `warmupSeconds` is the known or estimated warmup, reported for the warmup signal only. */
  datatype SignalReport = SignalReport(
    name: SignalName, required: bool, level: Level, issues: seq<Issue>, warmupSeconds: Option<int>)

  datatype Evaluation = Evaluation(report: SignalReport, degraded: seq<Reason>, blocking: seq<Reason>)

  datatype Report = Report(level: Level, signals: seq<SignalReport>, reasons: seq<Reason>, blockingReasons: seq<Reason>)

  datatype Error = InvalidReadinessInput

  // ---- options ----

  const DEFAULTS := Options(1_800_000_000_000, 30_000_000_000, 0.10, 0.25, 2.0, 4.0, 4.0, 8.0, 5, 1.5, 0.35, 0.60)

  function WithDefaults(o: Options): Options {
    Options(
      if o.minimumLookback == 0 then DEFAULTS.minimumLookback else o.minimumLookback,
      if o.expectedResolution == 0 then DEFAULTS.expectedResolution else o.expectedResolution,
      if o.degradedMissing == 0.0 then DEFAULTS.degradedMissing else o.degradedMissing,
      if o.unsupportedMissing == 0.0 then DEFAULTS.unsupportedMissing else o.unsupportedMissing,
      if o.degradedResolution == 0.0 then DEFAULTS.degradedResolution else o.degradedResolution,
      if o.unsupportedResolution == 0.0 then DEFAULTS.unsupportedResolution else o.unsupportedResolution,
      if o.degradedGap == 0.0 then DEFAULTS.degradedGap else o.degradedGap,
      if o.unsupportedGap == 0.0 then DEFAULTS.unsupportedGap else o.unsupportedGap,
      if o.minimumWarmupSamples == 0 then DEFAULTS.minimumWarmupSamples else o.minimumWarmupSamples,
      if o.stepChange == 0.0 then DEFAULTS.stepChange else o.stepChange,
      if o.degradedUnstable == 0.0 then DEFAULTS.degradedUnstable else o.degradedUnstable,
      if o.unsupportedUnstable == 0.0 then DEFAULTS.unsupportedUnstable else o.unsupportedUnstable)
  }

  predicate ValidOptions(o: Options) {
    && o.minimumLookback > 0 && o.expectedResolution > 0
    && 0.0 <= o.degradedMissing <= o.unsupportedMissing <= 1.0
    && 0.0 < o.degradedResolution <= o.unsupportedResolution
    && 0.0 < o.degradedGap <= o.unsupportedGap
    && o.minimumWarmupSamples >= 1 && o.stepChange > 0.0
    && 0.0 <= o.degradedUnstable <= o.unsupportedUnstable <= 1.0
  }

  // ---- levels ----

  function Rank(l: Level): int {
    match l case Supported => 0 case Degraded => 1 case Unsupported => 2 case Missing => 3
  }

  function Worsen(current: Level, next: Level): Level {
    if Rank(next) > Rank(current) then next else current
  }

  /** `l` is the worst of the levels, and Supported when all are. */
  predicate IsWorst(levels: seq<Level>, l: Level) {
    && (l == Supported || l in levels)
    && forall k :: k in levels ==> Rank(k) <= Rank(l)
  }

  // ---- the statistics of one signal ----

  datatype Stats = Stats(
    count: nat, coverage: Duration, lookback: Duration, missing: real, median: Duration, maxGap: Duration, labels: nat)

  function Coverage(xs: seq<Sample>): Duration {
    if |xs| < 2 then 0 else xs[|xs| - 1].at - xs[0].at
  }

  function Lookback(xs: seq<Sample>, w: Window): Duration {
    if Bounded(w) then w.end - w.start else Coverage(xs)
  }

  function NonEmptyLabels(labels: seq<string>): set<string> { set l | l in labels && l != "" }

  function StatsOf(xs: seq<Sample>, w: Window, labels: seq<string>, resolution: Duration): Stats {
    Stats(|xs|, Coverage(xs), Lookback(xs, w), MissingFraction(|xs|, Lookback(xs, w), resolution),
          MedianResolution(xs), MaxGap(xs, w), |NonEmptyLabels(labels)|)
  }

  method UniqueNonEmptyCount(labels: seq<string>) returns (n: nat)
    ensures n == |NonEmptyLabels(labels)|
  {
    var seen: set<string> := {};
    for i := 0 to |labels|
      invariant seen == NonEmptyLabels(labels[..i])
    {
      if labels[i] != "" {
        seen := seen + {labels[i]};
      }
    }
    assert labels[..|labels|] == labels;
    return |seen|;
  }

  /** `xs` is the series in time order, one sample per instant. */
  predicate Normalized(samples: seq<Sample>, xs: seq<Sample>) {
    && Increasing(xs) && (forall s :: s in xs ==> s in samples)
    && forall s :: s in samples ==> HasTime(xs, s.at)
  }

  method AnalyzeSeries(signal: Signal, w: Window, resolution: Duration) returns (stats: Stats, xs: seq<Sample>)
    ensures Normalized(signal.samples, xs) && stats == StatsOf(xs, w, signal.labels, resolution)
  {
    hide Increasing, HasTime, MissingFraction, MedianResolution, MaxGap, NonEmptyLabels;
    xs := NormalizeSamples(signal.samples);
    var coverage := if |xs| > 1 then xs[|xs| - 1].at - xs[0].at else 0;
    var lookback := coverage;
    if !IsZeroTime(w.start) && !IsZeroTime(w.end) && w.end > w.start {
      lookback := w.end - w.start;
    }
    var median := MedianSampleResolution(xs);
    var maxGap := MaxSampleGap(xs, w);
    var labels := UniqueNonEmptyCount(signal.labels);
    stats := Stats(|xs|, coverage, lookback, MissingFraction(|xs|, lookback, resolution), median, maxGap, labels);
  }

  // ---- the checks ----

  /** A multiple of the expected resolution, truncated to whole ticks. */
  function Multiple(resolution: Duration, factor: real): Duration { (resolution as real * factor).Floor }

  function Graded(unsupported: bool, degraded: bool): Level {
    if unsupported then Unsupported else if degraded then Degraded else Supported
  }

  function LookbackLevel(s: Stats, o: Options): Level {
    Graded(s.lookback < o.minimumLookback / 2, s.lookback < o.minimumLookback)
  }

  function MissingLevel(s: Stats, o: Options): Level {
    Graded(s.missing > o.unsupportedMissing, s.missing > o.degradedMissing)
  }

  function ResolutionLevel(s: Stats, o: Options): Level {
    Graded(s.median > Multiple(o.expectedResolution, o.unsupportedResolution),
           s.median > Multiple(o.expectedResolution, o.degradedResolution))
  }

  function GapLevel(s: Stats, o: Options): Level {
    Graded(s.maxGap > Multiple(o.expectedResolution, o.unsupportedGap),
           s.maxGap > Multiple(o.expectedResolution, o.degradedGap))
  }

  function LabelLevel(s: Stats): Level { Graded(s.labels > 1, false) }

  function Levels(s: Stats, o: Options): seq<Level> {
    [LookbackLevel(s, o), MissingLevel(s, o), ResolutionLevel(s, o), GapLevel(s, o), LabelLevel(s)]
  }

  /** The relative change between two scrapes exceeds the threshold. */
  predicate Abrupt(prev: real, curr: real, threshold: real) {
    var scale := (AbsReal(prev) + AbsReal(curr)) / 2.0;
    AbsReal(curr - prev) / (if scale > 1.0 then scale else 1.0) > threshold
  }

  /** How many of the first `n` samples differ abruptly from their predecessor. */
  function AbruptSteps(xs: seq<Sample>, threshold: real, n: nat): nat
    requires n <= |xs|
  {
    if n < 2 then 0
    else AbruptSteps(xs, threshold, n - 1) + if Abrupt(xs[n - 2].value, xs[n - 1].value, threshold) then 1 else 0
  }

  function SampleValues(xs: seq<Sample>): seq<real> {
    seq(|xs|, i requires 0 <= i < |xs| => xs[i].value)
  }

  function StabilityLevel(xs: seq<Sample>, o: Options): Level {
    if |xs| < 2 || HoltWinters.Average(SampleValues(xs)) <= 0.0 then Unsupported
    else
      var fraction := AbruptSteps(xs, o.stepChange, |xs|) as real / (|xs| - 1) as real;
      Graded(fraction > o.unsupportedUnstable, fraction > o.degradedUnstable)
  }

  /** What is wrong with the demand, if anything. */
  function StabilityIssue(xs: seq<Sample>, o: Options): Option<Issue> {
    if |xs| < 2 then Some(TooFewDemandSamples)
    else if HoltWinters.Average(SampleValues(xs)) <= 0.0 then Some(NoDemand)
    else if StabilityLevel(xs, o) != Supported then Some(UnstableDemand)
    else None
  }

  method EvaluateDemandStability(xs: seq<Sample>, issues: seq<Issue>, severity: Level, o: Options)
    returns (newIssues: seq<Issue>, newSeverity: Level)
    requires ValidOptions(o)
    ensures newSeverity == Worsen(severity, StabilityLevel(xs, o))
    ensures StabilityIssue(xs, o).None? <==> StabilityLevel(xs, o) == Supported
    ensures newIssues == issues + if StabilityIssue(xs, o).Some? then [StabilityIssue(xs, o).value] else []
  {
    hide Abrupt;
    if |xs| < 2 {
      return issues + [TooFewDemandSamples], Worsen(severity, Unsupported);
    }
    var mean := HoltWinters.AverageOf(SampleValues(xs));
    if mean <= 0.0 {
      return issues + [NoDemand], Worsen(severity, Unsupported);
    }
    var transitions, unstable := 0, 0;
    for i := 1 to |xs|
      invariant transitions == i - 1 && unstable == AbruptSteps(xs, o.stepChange, i)
    {
      transitions := transitions + 1;
      if Abrupt(xs[i - 1].value, xs[i].value, o.stepChange) {
        unstable := unstable + 1;
      }
    }
    var fraction := unstable as real / transitions as real;
    if fraction > o.unsupportedUnstable {
      return issues + [UnstableDemand], Worsen(severity, Unsupported);
    } else if fraction > o.degradedUnstable {
      return issues + [UnstableDemand], Worsen(severity, Degraded);
    }
    return issues, severity;
  }

  lemma WorstAppend(levels: seq<Level>, l: Level, next: Level)
    requires IsWorst(levels, l)
    ensures IsWorst(levels + [next], Worsen(l, next))
    ensures Worsen(l, next) == Supported <==> l == Supported && next == Supported
  {
  }

  lemma LevelsInOrder(s: Stats, o: Options)
    ensures [] + [LookbackLevel(s, o)] + [MissingLevel(s, o)] + [ResolutionLevel(s, o)] + [GapLevel(s, o)] + [LabelLevel(s)]
            == Levels(s, o)
  {
  }

  lemma WorstOfNone()
    ensures IsWorst([], Supported)
  {
  }

  /** Records one check: its issue when either limit is passed, and the severity that goes with it. */
  method Grade(issues: seq<Issue>, severity: Level, issue: Issue, unsupported: bool, degraded: bool,
               ghost levels: seq<Level>) returns (newIssues: seq<Issue>, newSeverity: Level)
    requires IsWorst(levels, severity) && (issues == [] <==> severity == Supported)
    ensures IsWorst(levels + [Graded(unsupported, degraded)], newSeverity)
    ensures newIssues == [] <==> newSeverity == Supported
    ensures newIssues == issues + IssueIf(Graded(unsupported, degraded), issue)
  {
    hide IsWorst;
    newIssues, newSeverity := issues, severity;
    if unsupported {
      newIssues := issues + [issue];
      newSeverity := Worsen(severity, Unsupported);
    } else if degraded {
      newIssues := issues + [issue];
      newSeverity := Worsen(severity, Degraded);
    }
    WorstAppend(levels, severity, Graded(unsupported, degraded));
  }

  function IssueIf(l: Level, issue: Issue): seq<Issue> { if l == Supported then [] else [issue] }

  /** The issues in the order of the checks. */
  function IssuesOf(s: Stats, o: Options): seq<Issue> {
    [] + IssueIf(LookbackLevel(s, o), ShortLookback) + IssueIf(MissingLevel(s, o), MissingSamples)
    + IssueIf(ResolutionLevel(s, o), CoarseResolution) + IssueIf(GapLevel(s, o), LargeGap)
    + IssueIf(LabelLevel(s), MixedLabels)
  }

  lemma IssuesAreFailures(s: Stats, o: Options)
    ensures forall i :: i in IssuesOf(s, o) <==> HasIssue(s, o, i)
  {
    hide LookbackLevel, MissingLevel, ResolutionLevel, GapLevel, LabelLevel;
  }

  /** The quality issues a signal has: those of the checks it does not pass. */
  predicate HasIssue(s: Stats, o: Options, i: Issue) {
    match i
    case ShortLookback => LookbackLevel(s, o) != Supported
    case MissingSamples => MissingLevel(s, o) != Supported
    case CoarseResolution => ResolutionLevel(s, o) != Supported
    case LargeGap => GapLevel(s, o) != Supported
    case MixedLabels => LabelLevel(s) != Supported
    case _ => false
  }

  /** The quality checks every signal goes through. */
  method CheckQuality(s: Stats, o: Options) returns (issues: seq<Issue>, severity: Level)
    ensures IsWorst(Levels(s, o), severity)
    ensures issues == [] <==> severity == Supported
    ensures issues == IssuesOf(s, o)
  {
    hide Multiple, IsWorst, Graded, Levels, IssueIf;
    ghost var levels: seq<Level> := [];
    issues, severity := [], Supported;
    WorstOfNone();
    issues, severity := Grade(issues, severity, ShortLookback, s.lookback < o.minimumLookback / 2, s.lookback < o.minimumLookback,
                              levels);
    levels := levels + [LookbackLevel(s, o)];
    issues, severity := Grade(issues, severity, MissingSamples, s.missing > o.unsupportedMissing, s.missing > o.degradedMissing,
                              levels);
    levels := levels + [MissingLevel(s, o)];
    issues, severity := Grade(issues, severity, CoarseResolution,
                              s.median > Multiple(o.expectedResolution, o.unsupportedResolution),
                              s.median > Multiple(o.expectedResolution, o.degradedResolution), levels);
    levels := levels + [ResolutionLevel(s, o)];
    issues, severity := Grade(issues, severity, LargeGap,
                              s.maxGap > Multiple(o.expectedResolution, o.unsupportedGap),
                              s.maxGap > Multiple(o.expectedResolution, o.degradedGap), levels);
    levels := levels + [GapLevel(s, o)];
    issues, severity := Grade(issues, severity, MixedLabels, s.labels > 1, false, levels);
    LevelsInOrder(s, o);
  }

  // ---- one signal ----

  function ReasonOf(r: SignalReport): Reason { Reason(r.name, r.issues) }

  predicate BlocksReport(r: SignalReport) { r.required && Rank(r.level) >= Rank(Unsupported) }

  predicate DegradesReport(r: SignalReport) { r.required && r.level == Degraded }

  /** How a report's level turns into degrading and blocking reasons. */
  predicate ReasonsFollow(e: Evaluation) {
    && e.blocking == (if BlocksReport(e.report) then [ReasonOf(e.report)] else [])
    && e.degraded == (if DegradesReport(e.report) then [ReasonOf(e.report)] else [])
  }

  predicate Absent(signal: Option<Signal>) { signal.None? || signal.value.samples == [] }

  /**
   * The level and issues of a present signal: the worst of its checks, with demand also checked for
   * stability, and the issues of the checks it does not pass.
   */
  ghost predicate IsSignalLevel(r: SignalReport, signal: Signal, w: Window, o: Options) {
    exists xs :: Normalized(signal.samples, xs) && Judged(r, xs, StatsOf(xs, w, signal.labels, o.expectedResolution), o)
  }

  ghost predicate Judged(r: SignalReport, xs: seq<Sample>, s: Stats, o: Options) {
    && IsWorst(Levels(s, o) + (if r.name == Demand then [StabilityLevel(xs, o)] else []), r.level)
    && forall i :: i in r.issues <==> HasIssue(s, o, i) || (r.name == Demand && StabilityIssue(xs, o) == Some(i))
  }

  ghost predicate IsStandard(r: SignalReport, name: SignalName, required: bool, signal: Option<Signal>, w: Window, o: Options) {
    && r.name == name && r.required == required
    && if Absent(signal) then r.level == Missing else IsSignalLevel(r, signal.value, w, o)
  }

  method EvaluateStandardSignal(name: SignalName, signal: Option<Signal>, required: bool, w: Window, o: Options)
    returns (e: Evaluation)
    requires ValidOptions(o)
    ensures ReasonsFollow(e) && IsStandard(e.report, name, required, signal, w, o)
  {
    hide Levels, Normalized, StatsOf, StabilityLevel, StabilityIssue, ValidOptions, HasIssue, IssuesOf;
    if signal.None? || |signal.value.samples| == 0 {
      return Evaluation(SignalReport(name, required, Missing, [], None), [], if required then [Reason(name, [])] else []);
    }
    var stats, xs := AnalyzeSeries(signal.value, w, o.expectedResolution);
    var issues, severity := CheckQuality(stats, o);
    IssuesAreFailures(stats, o);
    if name == Demand {
      WorstAppend(Levels(stats, o), severity, StabilityLevel(xs, o));
      issues, severity := EvaluateDemandStability(xs, issues, severity, o);
    }
    var report := SignalReport(name, required, severity, issues, None);
    assert Levels(stats, o) + [] == Levels(stats, o);
    hide IsWorst;
    assert Judged(report, xs, stats, o);
    if |issues| == 0 {
      return Evaluation(report, [], []);
    }
    var reason := Reason(name, issues);
    match severity {
      case Unsupported => return Evaluation(report, [], if required then [reason] else []);
      case Missing => return Evaluation(report, [], if required then [reason] else []);
      case Degraded => return Evaluation(report, if required then [reason] else [], []);
      case Supported => return Evaluation(report, [], []);
    }
  }

  function Positives(xs: seq<Sample>): seq<real> {
    if xs == [] then []
    else Positives(xs[..|xs| - 1]) + if xs[|xs| - 1].value > 0.0 then [xs[|xs| - 1].value] else []
  }

  method PositiveSampleValues(xs: seq<Sample>) returns (values: seq<real>)
    ensures values == Positives(xs)
    ensures forall v :: v in values ==> v > 0.0
  {
    values := [];
    for i := 0 to |xs|
      invariant values == Positives(xs[..i])
      invariant forall v :: v in values ==> v > 0.0
    {
      assert xs[..i + 1][..i] == xs[..i];
      if xs[i].value > 0.0 {
        values := values + [xs[i].value];
      }
    }
    assert xs[..|xs|] == xs;
  }

  /** Half away from zero, for a positive number. */
  function Rounded(x: real): int { (x + 0.5).Floor }

  /**
   * Only a declared warmup is fully supported; one estimated from enough consistently labelled
   * positive samples degrades, and everything else blocks.
   */
  function WarmupReport(known: Option<Duration>, signal: Option<Signal>, xs: seq<Sample>, o: Options): SignalReport {
    if known.Some? then
      if known.value > 0 then SignalReport(Warmup, true, Supported, [], Some(known.value / SECOND))
      else Rejection(WarmupNotPositive, Unsupported)
    else if Absent(signal) then Rejection(SignalAbsent, Missing)
    else if |NonEmptyLabels(signal.value.labels)| > 1 then Rejection(MixedLabels, Unsupported)
    else if |Positives(xs)| < o.minimumWarmupSamples then Rejection(WarmupTooFewSamples, Unsupported)
    else SignalReport(Warmup, true, Degraded, [WarmupEstimated], Some(Rounded(Median(Positives(xs)))))
  }

  ghost predicate IsWarmup(r: SignalReport, known: Option<Duration>, signal: Option<Signal>, o: Options) {
    exists xs :: (signal.Some? ==> Normalized(signal.value.samples, xs)) && r == WarmupReport(known, signal, xs, o)
  }

  function Rejection(issue: Issue, level: Level): SignalReport { SignalReport(Warmup, true, level, [issue], None) }

  function Rejected(issue: Issue, level: Level): Evaluation {
    Evaluation(Rejection(issue, level), [], [Reason(Warmup, [issue])])
  }

  method EvaluateWarmup(known: Option<Duration>, signal: Option<Signal>, o: Options) returns (e: Evaluation)
    requires ValidOptions(o)
    ensures ReasonsFollow(e) && IsWarmup(e.report, known, signal, o)
  {
    hide Normalized, NonEmptyLabels, Positives, Median, Rounded;
    var samples := if signal.Some? then signal.value.samples else [];
    var xs := NormalizeSamples(samples);
    NormalizedIntro(samples, xs);
    assert signal.Some? ==> Normalized(signal.value.samples, xs);
    e := JudgeWarmup(known, signal, xs, o);
    assert e.report == WarmupReport(known, signal, xs, o);
  }

  method JudgeWarmup(known: Option<Duration>, signal: Option<Signal>, xs: seq<Sample>, o: Options) returns (e: Evaluation)
    requires ValidOptions(o)
    ensures ReasonsFollow(e) && e.report == WarmupReport(known, signal, xs, o)
  {
    hide NonEmptyLabels, Positives, Median, Rounded;
    if known.Some? {
      if known.value <= 0 {
        return Rejected(WarmupNotPositive, Unsupported);
      }
      return Evaluation(SignalReport(Warmup, true, Supported, [], Some(known.value / SECOND)), [], []);
    }
    if signal.None? || |signal.value.samples| == 0 {
      return Rejected(SignalAbsent, Missing);
    }
    var labels := UniqueNonEmptyCount(signal.value.labels);
    if labels > 1 {
      return Rejected(MixedLabels, Unsupported);
    }
    var values := PositiveSampleValues(xs);
    if |values| < o.minimumWarmupSamples {
      return Rejected(WarmupTooFewSamples, Unsupported);
    }
    MedianPositive(values);
    var estimate := Median(values);
    if estimate <= 0.0 {
      return Rejected(WarmupNotPositive, Unsupported);
    }
    return Evaluation(SignalReport(Warmup, true, Degraded, [WarmupEstimated], Some(Rounded(estimate))),
                      [Reason(Warmup, [WarmupEstimated])], []);
  }

  lemma NormalizedIntro(samples: seq<Sample>, xs: seq<Sample>)
    requires Increasing(xs) && (forall s :: s in xs ==> s in samples) && forall s :: s in samples ==> HasTime(xs, s.at)
    ensures Normalized(samples, xs)
  {
  }

  // ---- the report ----

  /** The worst level over the required signals, with a missing one counted as unsupported. */
  predicate IsReportLevel(signals: seq<SignalReport>, level: Level) {
    && (level == Unsupported <==> exists s :: s in signals && BlocksReport(s))
    && (level == Supported <==> forall s :: s in signals && s.required ==> s.level == Supported)
    && level != Missing
  }

  /** The reasons are exactly those of the required signals that block, and of those that block or degrade. */
  ghost predicate ReasonsListed(r: Report) {
    && (forall x :: x in r.blockingReasons <==> exists s :: s in r.signals && BlocksReport(s) && x == ReasonOf(s))
    && (forall x :: x in r.reasons <==>
          exists s :: s in r.signals && (BlocksReport(s) || DegradesReport(s)) && x == ReasonOf(s))
  }

  method Summarize(evaluations: seq<Evaluation>) returns (report: Report)
    requires forall e :: e in evaluations ==> ReasonsFollow(e)
    ensures |report.signals| == |evaluations|
    ensures forall i :: 0 <= i < |evaluations| ==> report.signals[i] == evaluations[i].report
    ensures IsReportLevel(report.signals, report.level) && ReasonsListed(report)
  {
    hide BlocksReport, DegradesReport, ReasonOf;
    var signals: seq<SignalReport> := [];
    var reasons: seq<Reason> := [];
    var blocking: seq<Reason> := [];
    for i := 0 to |evaluations|
      invariant |signals| == i && forall j :: 0 <= j < i ==> signals[j] == evaluations[j].report
      invariant forall x :: x in blocking <==> exists s :: s in signals && BlocksReport(s) && x == ReasonOf(s)
      invariant forall x :: x in reasons <==> exists s :: s in signals && DegradesReport(s) && x == ReasonOf(s)
    {
      var e := evaluations[i];
      assert ReasonsFollow(e);
      assert forall s :: s in signals + [e.report] <==> s in signals || s == e.report;
      signals := signals + [e.report];
      reasons := reasons + e.degraded;
      blocking := blocking + e.blocking;
    }
    var blockingReasons := Dedupe(blocking);
    var allReasons := Dedupe(reasons + blockingReasons);
    var level := if |blockingReasons| > 0 then Unsupported else if |allReasons| > 0 then Degraded else Supported;
    report := Report(level, signals, allReasons, blockingReasons);
    ReportFollows(report, blocking, reasons);
  }

  lemma ReportFollows(r: Report, blocking: seq<Reason>, degraded: seq<Reason>)
    requires r.blockingReasons == FirstOccurrences(blocking) && r.reasons == FirstOccurrences(degraded + r.blockingReasons)
    requires forall x :: x in blocking <==> exists s :: s in r.signals && BlocksReport(s) && x == ReasonOf(s)
    requires forall x :: x in degraded <==> exists s :: s in r.signals && DegradesReport(s) && x == ReasonOf(s)
    requires r.level == if |r.blockingReasons| > 0 then Unsupported else if |r.reasons| > 0 then Degraded else Supported
    ensures IsReportLevel(r.signals, r.level) && ReasonsListed(r)
  {
    hide FirstOccurrences, ReasonOf, BlocksReport, DegradesReport, IsReportLevel;
    assert ReasonsListed(r);
    LevelFollows(r);
  }

  /** The level, from which reasons are listed. */
  lemma LevelFollows(r: Report)
    requires ReasonsListed(r)
    requires r.level == if |r.blockingReasons| > 0 then Unsupported else if |r.reasons| > 0 then Degraded else Supported
    ensures IsReportLevel(r.signals, r.level)
  {
    hide ReasonOf;
    if s :| s in r.signals && BlocksReport(s) {
      assert ReasonOf(s) in r.blockingReasons;
    }
    if s :| s in r.signals && DegradesReport(s) {
      assert ReasonOf(s) in r.reasons;
    }
    if r.blockingReasons != [] {
      assert r.blockingReasons[0] in r.blockingReasons;
    }
    if r.reasons != [] {
      assert r.reasons[0] in r.reasons;
    }
  }

  predicate ValidInput(o: Options, known: Option<Duration>) {
    ValidOptions(WithDefaults(o)) && (known.Some? ==> known.value >= 0)
  }

  /** Every signal is judged on its own; the report takes the worst of the required ones. */
  ghost predicate IsReport(s: Snapshot, known: Option<Duration>, o: Options, r: Report) {
    && |r.signals| == (if s.nodeHeadroom.Some? then 6 else 5)
    && IsReportLevel(r.signals, r.level) && ReasonsListed(r)
    && IsStandard(r.signals[0], Demand, true, Some(s.demand), s.window, o)
    && IsStandard(r.signals[1], Replicas, true, Some(s.replicas), s.window, o)
    && IsStandard(r.signals[2], CPU, true, s.cpu, s.window, o)
    && IsStandard(r.signals[3], Memory, true, s.memory, s.window, o)
    && IsWarmup(r.signals[4], known, s.warmup, o)
    && (s.nodeHeadroom.Some? ==> IsStandard(r.signals[5], NodeHeadroom, false, s.nodeHeadroom, s.window, o))
  }

  method EvaluateSignals(s: Snapshot, known: Option<Duration>, o: Options) returns (r: Report)
    requires ValidOptions(o)
    ensures IsReport(s, known, o, r)
  {
    hide ValidOptions, IsStandard, IsWarmup, ReasonsFollow, IsReportLevel, ReasonsListed;
    var demand := EvaluateStandardSignal(Demand, Some(s.demand), true, s.window, o);
    var replicas := EvaluateStandardSignal(Replicas, Some(s.replicas), true, s.window, o);
    var cpu := EvaluateStandardSignal(CPU, s.cpu, true, s.window, o);
    var memory := EvaluateStandardSignal(Memory, s.memory, true, s.window, o);
    var warmup := EvaluateWarmup(known, s.warmup, o);
    var evaluations := [demand, replicas, cpu, memory, warmup];
    if s.nodeHeadroom.Some? {
      var headroom := EvaluateStandardSignal(NodeHeadroom, s.nodeHeadroom, false, s.window, o);
      evaluations := evaluations + [headroom];
    }
    r := Summarize(evaluations);
  }

  method Evaluate(s: Snapshot, known: Option<Duration>, options: Options) returns (r: Result<Report, Error>)
    ensures r.Ok? <==> ValidInput(options, known)
    ensures r.Ok? ==> IsReport(s, known, WithDefaults(options), r.value)
  {
    hide WithDefaults, ValidOptions, IsReport;
    var o := WithDefaults(options);
    if !ValidOptions(o) || (known.Some? && known.value < 0) {
      return Err(InvalidReadinessInput);
    }
    var report := EvaluateSignals(s, known, o);
    return Ok(report);
  }

  // ---- what the report means ----

  /** The report is fully supported only when all four metrics pass every check and the warmup is declared. */
  lemma SupportedMeansAllPass(s: Snapshot, known: Option<Duration>, o: Options, r: Report)
    requires IsReport(s, known, o, r)
    ensures r.level == Supported <==>
              && known.Some? && known.value > 0
              && r.signals[0].level == Supported && r.signals[1].level == Supported
              && r.signals[2].level == Supported && r.signals[3].level == Supported
    ensures r.level == Supported ==> s.demand.samples != [] && s.replicas.samples != [] && s.cpu.Some? && s.memory.Some?
  {
    hide IsSignalLevel, Normalized, NonEmptyLabels, Positives, ReasonsListed;
    assert forall i :: 0 <= i < |r.signals| ==> r.signals[i] in r.signals;
  }

  /** A longer lookback and smaller deviations never make a signal's level worse. */
  lemma BetterStatsNeverHurt(s: Stats, t: Stats, o: Options, ls: Level, lt: Level)
    requires ValidOptions(o) && IsWorst(Levels(s, o), ls) && IsWorst(Levels(t, o), lt)
    requires t.lookback >= s.lookback && t.missing <= s.missing && t.median <= s.median
    requires t.maxGap <= s.maxGap && t.labels <= s.labels
    ensures Rank(lt) <= Rank(ls)
  {
    var a, b := Levels(s, o), Levels(t, o);
    MultipleMonotone(o.expectedResolution, o.degradedGap, o.unsupportedGap);
    MultipleMonotone(o.expectedResolution, o.degradedResolution, o.unsupportedResolution);
    hide Multiple;
    assert Rank(b[0]) <= Rank(a[0]) && Rank(b[1]) <= Rank(a[1]) && Rank(b[2]) <= Rank(a[2]);
    assert Rank(b[3]) <= Rank(a[3]) && Rank(b[4]) <= Rank(a[4]);
    hide Levels, ValidOptions;
    if lt != Supported {
      var i :| 0 <= i < |b| && b[i] == lt;
      assert a[i] in a;
    }
  }

  lemma MultipleMonotone(resolution: Duration, low: real, high: real)
    requires resolution > 0 && low <= high
    ensures Multiple(resolution, low) <= Multiple(resolution, high)
  {
    var r := resolution as real;
    assert r * (high - low) >= 0.0;
  }

  lemma MultipleAtLeast(resolution: Duration, factor: real)
    requires resolution > 0 && factor >= 1.0
    ensures Multiple(resolution, factor) >= resolution
  {
    var r := resolution as real;
    assert r * (factor - 1.0) >= 0.0;
  }

  lemma FewMissing(missing: int, expected: nat, limit: real)
    requires 0 < expected && 0 < missing <= 2 && limit * expected as real >= 2.0
    ensures missing as real / expected as real <= limit
  {
    QuotientAtMost(missing as real, expected as real, limit);
  }

  lemma QuotientAtMost(a: real, b: real, limit: real)
    requires b > 0.0 && a <= limit * b
    ensures a / b <= limit
  {
    var q := a / b;
    var d := q - limit;
    assert q * b == a;
    assert d * b == q * b - limit * b;
    assert d > 0.0 ==> d * b > 0.0;
  }

  /**
   * A series with one label set and no gap above the expected resolution over a long enough window
   * passes every check, as long as two missing samples are within the allowed fraction.
   */
  lemma DenseSeriesIsSupported(xs: seq<Sample>, w: Window, labels: seq<string>, o: Options, level: Level)
    requires ValidOptions(o) && o.degradedResolution >= 1.0 && o.degradedGap >= 1.0
    requires Increasing(xs) && Bounded(w) && Within(xs, w) && w.end - w.start >= o.minimumLookback
    requires MaxGap(xs, w) <= o.expectedResolution && |NonEmptyLabels(labels)| <= 1
    requires o.degradedMissing * Expected(w.end - w.start, o.expectedResolution) as real >= 2.0
    requires IsWorst(Levels(StatsOf(xs, w, labels, o.expectedResolution), o), level)
    ensures level == Supported
  {
    hide Multiple, MaxGap, MedianResolution, Increasing;
    SmallGapsMissLittle(xs, w, o.expectedResolution);
    MedianWithinMaxGap(xs, w);
    MultipleAtLeast(o.expectedResolution, o.degradedGap);
    MultipleAtLeast(o.expectedResolution, o.unsupportedGap);
    MultipleAtLeast(o.expectedResolution, o.degradedResolution);
    MultipleAtLeast(o.expectedResolution, o.unsupportedResolution);
    var expected := Expected(w.end - w.start, o.expectedResolution);
    if |xs| < expected {
      FewMissing(expected - |xs|, expected, o.degradedMissing);
    }
    hide Expected;
    var s := StatsOf(xs, w, labels, o.expectedResolution);
    assert s.missing <= o.degradedMissing;
    assert Levels(s, o) == [Supported, Supported, Supported, Supported, Supported];
  }

  // ---- when telemetry fails, told by the samples ----

  /** The places where a sample differs from the one before by more than the threshold, relative to their mean size but at least to one. */
  ghost function AbruptPlaces(xs: seq<Sample>, threshold: real, n: nat): set<int>
    requires n <= |xs|
  {
    set i: int | 0 <= i < n && AbruptAt(xs, threshold, i)
  }

  predicate AbruptAt(xs: seq<Sample>, threshold: real, i: int) {
    0 < i < |xs| && IsJump(xs[i - 1].value, xs[i].value, threshold)
  }

  /** The change exceeds the threshold, and the threshold's share of the mean size of the two values. */
  predicate IsJump(before: real, after: real, threshold: real) {
    && AbsReal(after - before) > threshold
    && 2.0 * AbsReal(after - before) > threshold * (AbsReal(before) + AbsReal(after))
  }

  lemma AbruptIff(before: real, after: real, threshold: real)
    requires threshold > 0.0
    ensures Abrupt(before, after, threshold) <==> IsJump(before, after, threshold)
  {
    var change, size := AbsReal(after - before), AbsReal(before) + AbsReal(after);
    hide AbsReal;
    AboveScale(change, size, size / 2.0, threshold);
  }

  /** A change exceeds the threshold's share of the larger of one and half the size when it exceeds both shares. */
  lemma AboveScale(change: real, size: real, half: real, threshold: real)
    requires threshold > 0.0 && half == size / 2.0
    ensures change / (if half > 1.0 then half else 1.0) > threshold <==>
            change > threshold && 2.0 * change > threshold * size
  {
    assert threshold * size == 2.0 * (threshold * half) by { Halves(threshold, size); }
    if half > 1.0 {
      AboveShare(change, half, threshold);
      MoreThanOne(threshold, half);
    } else {
      AtMostOne(threshold, half);
      DividedByOne(change);
    }
  }

  lemma DividedByOne(change: real)
    ensures change / 1.0 == change
  {
  }

  lemma AboveShare(a: real, b: real, limit: real)
    requires b > 0.0
    ensures a / b > limit <==> a > limit * b
  {
    var q := a / b;
    assert q * b == a;
    assert q > limit ==> (q - limit) * b > 0.0;
    assert q <= limit ==> (limit - q) * b >= 0.0;
  }

  lemma Halves(threshold: real, size: real)
    ensures 2.0 * (threshold * (size / 2.0)) == threshold * size
  {
  }

  lemma MoreThanOne(threshold: real, half: real)
    requires threshold > 0.0 && half > 1.0
    ensures threshold * half > threshold
  {
    assert threshold * (half - 1.0) > 0.0;
  }

  lemma AtMostOne(threshold: real, half: real)
    requires threshold > 0.0 && half <= 1.0
    ensures threshold * half <= threshold
  {
    assert threshold * (1.0 - half) >= 0.0;
  }

  lemma {:induction false} AbruptStepsAreCounted(xs: seq<Sample>, threshold: real, n: nat)
    requires n <= |xs| && threshold > 0.0
    ensures AbruptSteps(xs, threshold, n) == |AbruptPlaces(xs, threshold, n)|
  {
    hide Abrupt, AbruptAt;
    if n == 0 {
      assert AbruptPlaces(xs, threshold, n) == {};
    } else {
      AbruptStepsAreCounted(xs, threshold, n - 1);
      AbruptAtIff(xs, threshold, n - 1);
      AbruptPlacesGrow(xs, threshold, n);
      hide AbruptPlaces;
    }
  }

  lemma AbruptPlacesGrow(xs: seq<Sample>, threshold: real, n: nat)
    requires 0 < n <= |xs|
    ensures |AbruptPlaces(xs, threshold, n)| ==
            |AbruptPlaces(xs, threshold, n - 1)| + if AbruptAt(xs, threshold, n - 1) then 1 else 0
  {
    hide AbruptAt;
    assert AbruptPlaces(xs, threshold, n) ==
           AbruptPlaces(xs, threshold, n - 1) + if AbruptAt(xs, threshold, n - 1) then {n - 1} else {};
  }

  lemma AbruptAtIff(xs: seq<Sample>, threshold: real, i: nat)
    requires i < |xs| && threshold > 0.0
    ensures AbruptAt(xs, threshold, i) <==> i > 0 && Abrupt(xs[i - 1].value, xs[i].value, threshold)
  {
    hide Abrupt, IsJump;
    if i > 0 {
      AbruptIff(xs[i - 1].value, xs[i].value, threshold);
    }
  }

  /** The stretch of history a series stands for: the window when it has both ends in order, else what the samples span. */
  function Stretch(xs: seq<Sample>, w: Window): Duration {
    if w.start != 0 && w.end != 0 && w.start < w.end then w.end - w.start
    else if |xs| >= 2 then xs[|xs| - 1].at - xs[0].at else 0
  }

  /** The quality issues of a series at the given limits. */
  ghost predicate HasFault(xs: seq<Sample>, w: Window, labels: seq<string>, o: Options, i: Issue,
                           lookback: Duration, missing: real, resolution: real, gap: real)
  {
    var expected := o.expectedResolution as real;
    match i
    case ShortLookback => Stretch(xs, w) < lookback
    case MissingSamples => MissingFraction(|xs|, Stretch(xs, w), o.expectedResolution) > missing
    case CoarseResolution => MedianResolution(xs) as real > expected * resolution
    case LargeGap => MaxGap(xs, w) as real > expected * gap
    case MixedLabels => exists a, b :: a in labels && b in labels && a != b && a != "" && b != ""
    case _ => false
  }

  lemma AboveMultiple(d: Duration, resolution: Duration, factor: real)
    ensures d > Multiple(resolution, factor) <==> d as real > resolution as real * factor
  {
  }

  lemma MixedLabelsIff(labels: seq<string>)
    ensures |NonEmptyLabels(labels)| > 1 <==> exists a, b :: a in labels && b in labels && a != b && a != "" && b != ""
  {
    var distinct := NonEmptyLabels(labels);
    if a, b :| a in labels && b in labels && a != b && a != "" && b != "" {
      TwoElements(distinct, a, b);
    }
    if |distinct| > 1 {
      var a :| a in distinct;
      var rest := distinct - {a};
      assert |rest| == |distinct| - 1;
      var b :| b in rest;
    }
  }

  lemma TwoElements(s: set<string>, a: string, b: string)
    requires a in s && b in s && a != b
    ensures |s| >= 2
  {
    assert {a, b} <= s;
    SubsetSize({a, b}, s);
    assert |{a, b}| == 2;
  }

  lemma {:induction false} SubsetSize(small: set<string>, large: set<string>)
    requires small <= large
    ensures |small| <= |large|
  {
    if small != {} {
      var x :| x in small;
      SubsetSize(small - {x}, large - {x});
    }
  }

  /** An issue is reported exactly when its limit for full support is passed. */
  lemma IssueMeaning(xs: seq<Sample>, w: Window, labels: seq<string>, o: Options, i: Issue)
    requires ValidOptions(o)
    ensures HasIssue(StatsOf(xs, w, labels, o.expectedResolution), o, i) <==>
            HasFault(xs, w, labels, o, i, o.minimumLookback, o.degradedMissing, o.degradedResolution, o.degradedGap)
  {
    hide MissingFraction, MedianResolution, MaxGap, Multiple, NonEmptyLabels;
    MultipleMonotone(o.expectedResolution, o.degradedGap, o.unsupportedGap);
    MultipleMonotone(o.expectedResolution, o.degradedResolution, o.unsupportedResolution);
    AboveMultiple(MedianResolution(xs), o.expectedResolution, o.degradedResolution);
    AboveMultiple(MaxGap(xs, w), o.expectedResolution, o.degradedGap);
    MixedLabelsIff(labels);
  }

  /** Demand that cannot be judged, or whose abrupt steps exceed the given share of all steps. */
  ghost predicate IsUnstable(xs: seq<Sample>, o: Options, limit: real) {
    || |xs| < 2 || HoltWinters.Average(SampleValues(xs)) <= 0.0
    || |AbruptPlaces(xs, o.stepChange, |xs|)| as real > limit * (|xs| - 1) as real
  }

  lemma StabilityMeaning(xs: seq<Sample>, o: Options)
    requires ValidOptions(o)
    ensures StabilityLevel(xs, o) == Unsupported <==> IsUnstable(xs, o, o.unsupportedUnstable)
    ensures StabilityLevel(xs, o) == Supported <==> !IsUnstable(xs, o, o.degradedUnstable)
    ensures StabilityLevel(xs, o) != Missing
  {
    hide HoltWinters.Average, SampleValues, AbruptPlaces, AbruptSteps;
    if |xs| >= 2 {
      AbruptStepsAreCounted(xs, o.stepChange, |xs|);
      var steps := (|xs| - 1) as real;
      AboveShare(AbruptSteps(xs, o.stepChange, |xs|) as real, steps, o.unsupportedUnstable);
      AboveShare(AbruptSteps(xs, o.stepChange, |xs|) as real, steps, o.degradedUnstable);
    }
  }

  /** Some quality check fails at the limits below which nothing is supported. */
  ghost predicate IsUnusable(xs: seq<Sample>, w: Window, labels: seq<string>, o: Options) {
    exists i :: HasFault(xs, w, labels, o, i, o.minimumLookback / 2, o.unsupportedMissing, o.unsupportedResolution, o.unsupportedGap)
  }

  ghost predicate HasAnyFault(xs: seq<Sample>, w: Window, labels: seq<string>, o: Options) {
    exists i :: HasFault(xs, w, labels, o, i, o.minimumLookback, o.degradedMissing, o.degradedResolution, o.degradedGap)
  }

  lemma LevelsMeaning(xs: seq<Sample>, w: Window, labels: seq<string>, o: Options)
    requires ValidOptions(o)
    ensures var levels := Levels(StatsOf(xs, w, labels, o.expectedResolution), o);
            && (Unsupported in levels <==> IsUnusable(xs, w, labels, o))
            && ((forall l :: l in levels ==> l == Supported) <==> !HasAnyFault(xs, w, labels, o))
            && Missing !in levels
  {
    hide MissingFraction, MedianResolution, MaxGap, Multiple, NonEmptyLabels, ValidOptions;
    var s := StatsOf(xs, w, labels, o.expectedResolution);
    UnusableMeaning(xs, w, labels, o);
    forall i
      ensures HasIssue(s, o, i) <==>
              HasFault(xs, w, labels, o, i, o.minimumLookback, o.degradedMissing, o.degradedResolution, o.degradedGap)
    {
      IssueMeaning(xs, w, labels, o, i);
    }
    hide HasFault, StatsOf;
    FaultIffIssue(s, o);
  }

  lemma FaultIffIssue(s: Stats, o: Options)
    ensures (forall l :: l in Levels(s, o) ==> l == Supported) <==> forall i :: !HasIssue(s, o, i)
  {
    hide LookbackLevel, MissingLevel, ResolutionLevel, GapLevel, LabelLevel;
    var levels := Levels(s, o);
    assert levels[0] in levels && levels[1] in levels && levels[2] in levels && levels[3] in levels && levels[4] in levels;
    if forall i :: !HasIssue(s, o, i) {
      assert !HasIssue(s, o, ShortLookback) && !HasIssue(s, o, MissingSamples) && !HasIssue(s, o, CoarseResolution);
      assert !HasIssue(s, o, LargeGap) && !HasIssue(s, o, MixedLabels);
    }
  }

  lemma UnusableMeaning(xs: seq<Sample>, w: Window, labels: seq<string>, o: Options)
    ensures var levels := Levels(StatsOf(xs, w, labels, o.expectedResolution), o);
            (Unsupported in levels <==> IsUnusable(xs, w, labels, o)) && Missing !in levels
  {
    hide MissingFraction, MedianResolution, MaxGap, Multiple, NonEmptyLabels;
    var s := StatsOf(xs, w, labels, o.expectedResolution);
    AboveMultiple(s.median, o.expectedResolution, o.unsupportedResolution);
    AboveMultiple(s.maxGap, o.expectedResolution, o.unsupportedGap);
    MixedLabelsIff(labels);
    var levels := Levels(s, o);
    assert levels[0] in levels && levels[1] in levels && levels[2] in levels && levels[3] in levels && levels[4] in levels;
    assert (levels[0] == Unsupported) == Faulty(xs, w, labels, o, ShortLookback);
    assert (levels[1] == Unsupported) == Faulty(xs, w, labels, o, MissingSamples);
    assert (levels[2] == Unsupported) == Faulty(xs, w, labels, o, CoarseResolution);
    assert (levels[3] == Unsupported) == Faulty(xs, w, labels, o, LargeGap);
    assert (levels[4] == Unsupported) == Faulty(xs, w, labels, o, MixedLabels);
  }

  ghost predicate Faulty(xs: seq<Sample>, w: Window, labels: seq<string>, o: Options, i: Issue) {
    HasFault(xs, w, labels, o, i, o.minimumLookback / 2, o.unsupportedMissing, o.unsupportedResolution, o.unsupportedGap)
  }

  /**
   * A present signal is unsupported exactly when its series fails some check at the outer limits, and
   * fully supported exactly when it fails none at the inner ones; demand must also be stable.
   */
  lemma SignalMeaning(r: SignalReport, name: SignalName, required: bool, signal: Signal, w: Window, o: Options)
    requires ValidOptions(o) && IsStandard(r, name, required, Some(signal), w, o) && signal.samples != []
    ensures r.level != Missing
    ensures exists xs :: Normalized(signal.samples, xs)
              && (r.level == Unsupported <==>
                    IsUnusable(xs, w, signal.labels, o) || (name == Demand && IsUnstable(xs, o, o.unsupportedUnstable)))
              && (r.level == Supported <==>
                    !HasAnyFault(xs, w, signal.labels, o) && (name == Demand ==> !IsUnstable(xs, o, o.degradedUnstable)))
  {
    hide Normalized, Levels, StatsOf, StabilityLevel, IsUnusable, HasAnyFault, IsUnstable, ValidOptions, HasIssue, StabilityIssue;
    var xs :| Normalized(signal.samples, xs) && Judged(r, xs, StatsOf(xs, w, signal.labels, o.expectedResolution), o);
    LevelsMeaning(xs, w, signal.labels, o);
    StabilityMeaning(xs, o);
    var levels := Levels(StatsOf(xs, w, signal.labels, o.expectedResolution), o);
    WorstMeaning(levels, StabilityLevel(xs, o), name == Demand, r.level);
  }

  lemma WorstMeaning(levels: seq<Level>, stability: Level, both: bool, l: Level)
    requires IsWorst(levels + (if both then [stability] else []), l)
    requires Missing !in levels && stability != Missing
    ensures l != Missing
    ensures l == Unsupported <==> Unsupported in levels || (both && stability == Unsupported)
    ensures l == Supported <==> (forall k :: k in levels ==> k == Supported) && (both ==> stability == Supported)
  {
    var all := levels + (if both then [stability] else []);
    assert forall k :: k in all <==> k in levels || (both && k == stability);
    assert Missing !in all && (l == Supported || l in all);
    assert Unsupported in levels || (both && stability == Unsupported) ==> Unsupported in all;
    assert both ==> stability in all;
  }

  predicate IsMixed(labels: seq<string>) {
    exists a, b :: a in labels && b in labels && a != b && a != "" && b != ""
  }

  /** An estimate: the whole number of seconds nearest to the median of the positive samples. */
  predicate IsNearestTo(seconds: int, m: real) { seconds as real - 0.5 <= m < seconds as real + 0.5 }

  /** The warmup as declared; else nothing, a refusal, or the estimate from enough samples of one label. */
  lemma WarmupMeaning(r: SignalReport, known: Option<Duration>, signal: Option<Signal>, o: Options)
    requires ValidOptions(o) && IsWarmup(r, known, signal, o)
    ensures r.name == Warmup && r.required
    ensures known.Some? && known.value > 0 ==>
              r.level == Supported && r.issues == [] && r.warmupSeconds == Some(known.value / SECOND)
    ensures known.Some? && known.value <= 0 ==>
              r.level == Unsupported && r.issues == [WarmupNotPositive] && r.warmupSeconds.None?
    ensures known.None? && (signal.None? || signal.value.samples == []) ==>
              r.level == Missing && r.issues == [SignalAbsent] && r.warmupSeconds.None?
    ensures known.None? && signal.Some? && signal.value.samples != [] ==>
              exists xs :: Normalized(signal.value.samples, xs) && IsEstimate(r, signal.value.labels, xs, o)
  {
    hide Normalized, NonEmptyLabels, Median, Positives, PositivePlaces, IsMixed;
    var xs :| (signal.Some? ==> Normalized(signal.value.samples, xs)) && r == WarmupReport(known, signal, xs, o);
    PositivesArePositive(xs);
    if known.None? && signal.Some? && signal.value.samples != [] {
      MixedIff(signal.value.labels);
      assert IsEstimate(r, signal.value.labels, xs, o);
    }
  }

  lemma MixedIff(labels: seq<string>)
    ensures IsMixed(labels) <==> |NonEmptyLabels(labels)| > 1
  {
    MixedLabelsIff(labels);
  }

  ghost predicate IsEstimate(r: SignalReport, labels: seq<string>, xs: seq<Sample>, o: Options) {
    if IsMixed(labels) then r.level == Unsupported && r.issues == [MixedLabels] && r.warmupSeconds.None?
    else if |PositivePlaces(xs)| < o.minimumWarmupSamples then
      r.level == Unsupported && r.issues == [WarmupTooFewSamples] && r.warmupSeconds.None?
    else
      r.level == Degraded && r.issues == [WarmupEstimated] && r.warmupSeconds.Some?
      && IsNearestTo(r.warmupSeconds.value, Median(Positives(xs)))
  }

  lemma {:induction false} PositivesArePositive(xs: seq<Sample>)
    ensures forall v :: v in Positives(xs) ==> v > 0.0
    ensures |Positives(xs)| == |PositivePlaces(xs)|
  {
    if xs == [] {
      assert PositivePlaces(xs) == {};
    } else {
      var n := |xs| - 1;
      PositivesArePositive(xs[..n]);
      assert forall i :: 0 <= i < n ==> xs[..n][i] == xs[i];
      assert PositivePlaces(xs) == PositivePlaces(xs[..n]) + if xs[n].value > 0.0 then {n} else {};
    }
  }

  ghost function PositivePlaces(xs: seq<Sample>): set<int> { set i | 0 <= i < |xs| && xs[i].value > 0.0 }

  /** A required signal that is unsupported or missing makes the report unsupported; else a degraded one degrades it. */
  lemma ReportLevelMeaning(signals: seq<SignalReport>, level: Level)
    requires IsReportLevel(signals, level)
    ensures level == Unsupported <==>
            exists s :: s in signals && s.required && (s.level == Unsupported || s.level == Missing)
    ensures level == Degraded <==>
            && (forall s :: s in signals && s.required ==> s.level == Supported || s.level == Degraded)
            && exists s :: s in signals && s.required && s.level == Degraded
  {
    forall s: SignalReport
      ensures BlocksReport(s) <==> s.required && (s.level == Unsupported || s.level == Missing)
    {
    }
    hide BlocksReport;
  }

  /** The reasons are those of the required signals that are not fully supported; of these, the ones not just degraded block. */
  lemma ReasonsMeaning(r: Report, x: Reason)
    requires ReasonsListed(r)
    ensures x in r.blockingReasons <==>
            exists s :: s in r.signals && s.required && (s.level == Unsupported || s.level == Missing) && x == Reason(s.name, s.issues)
    ensures x in r.reasons <==>
            exists s :: s in r.signals && s.required && s.level != Supported && x == Reason(s.name, s.issues)
  {
    forall s: SignalReport
      ensures BlocksReport(s) <==> s.required && (s.level == Unsupported || s.level == Missing)
      ensures BlocksReport(s) || DegradesReport(s) <==> s.required && s.level != Supported
    {
    }
    hide BlocksReport, DegradesReport;
  }

  /** Options that are set are kept; unset ones give half an hour of history at a sample every thirty seconds, and so on. */
  lemma DefaultsMeaning(o: Options)
    ensures WithDefaults(WithDefaults(o)) == WithDefaults(o)
    ensures o.minimumLookback != 0 ==> WithDefaults(o).minimumLookback == o.minimumLookback
    ensures o.expectedResolution != 0 ==> WithDefaults(o).expectedResolution == o.expectedResolution
    ensures o.degradedMissing != 0.0 && o.unsupportedMissing != 0.0 ==>
              WithDefaults(o).degradedMissing == o.degradedMissing && WithDefaults(o).unsupportedMissing == o.unsupportedMissing
    ensures o.degradedResolution != 0.0 && o.unsupportedResolution != 0.0 ==>
              WithDefaults(o).degradedResolution == o.degradedResolution
              && WithDefaults(o).unsupportedResolution == o.unsupportedResolution
    ensures o.degradedGap != 0.0 && o.unsupportedGap != 0.0 ==>
              WithDefaults(o).degradedGap == o.degradedGap && WithDefaults(o).unsupportedGap == o.unsupportedGap
    ensures o.minimumWarmupSamples != 0 ==> WithDefaults(o).minimumWarmupSamples == o.minimumWarmupSamples
    ensures WithDefaults(Options(0, 0, 0.0, 0.0, 0.0, 0.0, 0.0, 0.0, 0, 0.0, 0.0, 0.0)) ==
            Options(1800 * SECOND, 30 * SECOND, 0.10, 0.25, 2.0, 4.0, 4.0, 8.0, 5, 1.5, 0.35, 0.60)
  {
  }
}
