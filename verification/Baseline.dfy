/** Benchmark reports: comparing them with a baseline, and merging them into one. */
module Baseline {
  import opened Folds
  import opened Options

  datatype Metric =
    | RecallAt1 | RecallAtK | Mrr | NdcgAtK | AverageLatencyMs | P95LatencyMs | FailedCases
    | AnswerCorrectness | CitationPrecision | CitationRecall | Faithfulness | UnsupportedClaimRate
    | RefusalAccuracy | AveragePipelineLatencyMs | P95PipelineLatencyMs | AnswerFailedCases

  predicate LowerIsBetter(m: Metric) {
    m.AverageLatencyMs? || m.P95LatencyMs? || m.FailedCases? || m.UnsupportedClaimRate?
    || m.AveragePipelineLatencyMs? || m.P95PipelineLatencyMs? || m.AnswerFailedCases?
  }

  predicate ZeroIsValid(m: Metric) {
    m.FailedCases? || m.UnsupportedClaimRate? || m.AnswerFailedCases?
  }

  function BenchmarkMetrics(pipeline: string): seq<Metric> {
    [RecallAt1, RecallAtK, Mrr, NdcgAtK, AverageLatencyMs, P95LatencyMs, FailedCases]
    + if pipeline == "rag" then
        [AnswerCorrectness, CitationPrecision, CitationRecall, Faithfulness, UnsupportedClaimRate,
         RefusalAccuracy, AveragePipelineLatencyMs, P95PipelineLatencyMs, AnswerFailedCases]
      else []
  }

  /** `details` stands for the fields that no metric reads. */
  datatype Report = Report(
    mode: string, pipeline: string, details: string,
    recallAt1: real, recallAtK: real, mrr: real, ndcgAtK: real,
    averageLatencyMs: real, p95LatencyMs: int, failedCases: int,
    answerCorrectness: real, citationPrecision: real, citationRecall: real, faithfulness: real,
    unsupportedClaimRate: real, refusalAccuracy: real,
    averagePipelineLatencyMs: real, p95PipelineLatencyMs: int, answerFailedCases: int)

  datatype BaselineFile = BaselineFile(
    version: int, dataset: string, pipeline: string, topK: int, candidateK: int, reports: seq<Report>)

  function MetricValue(r: Report, m: Metric): real {
    match m
    case RecallAt1 => r.recallAt1
    case RecallAtK => r.recallAtK
    case Mrr => r.mrr
    case NdcgAtK => r.ndcgAtK
    case AverageLatencyMs => r.averageLatencyMs
    case P95LatencyMs => r.p95LatencyMs as real
    case FailedCases => r.failedCases as real
    case AnswerCorrectness => r.answerCorrectness
    case CitationPrecision => r.citationPrecision
    case CitationRecall => r.citationRecall
    case Faithfulness => r.faithfulness
    case UnsupportedClaimRate => r.unsupportedClaimRate
    case RefusalAccuracy => r.refusalAccuracy
    case AveragePipelineLatencyMs => r.averagePipelineLatencyMs
    case P95PipelineLatencyMs => r.p95PipelineLatencyMs as real
    case AnswerFailedCases => r.answerFailedCases as real
  }

  /** The conversion of a float to an integer cuts off the fraction. */
  function Truncated(x: real): int {
    if x < 0.0 then -((-x).Floor) else x.Floor
  }

  function SetMetricValue(r: Report, m: Metric, value: real): Report {
    match m
    case RecallAt1 => r.(recallAt1 := value)
    case RecallAtK => r.(recallAtK := value)
    case Mrr => r.(mrr := value)
    case NdcgAtK => r.(ndcgAtK := value)
    case AverageLatencyMs => r.(averageLatencyMs := value)
    case P95LatencyMs => r.(p95LatencyMs := Truncated(value))
    case FailedCases => r.(failedCases := Truncated(value))
    case AnswerCorrectness => r.(answerCorrectness := value)
    case CitationPrecision => r.(citationPrecision := value)
    case CitationRecall => r.(citationRecall := value)
    case Faithfulness => r.(faithfulness := value)
    case UnsupportedClaimRate => r.(unsupportedClaimRate := value)
    case RefusalAccuracy => r.(refusalAccuracy := value)
    case AveragePipelineLatencyMs => r.(averagePipelineLatencyMs := value)
    case P95PipelineLatencyMs => r.(p95PipelineLatencyMs := Truncated(value))
    case AnswerFailedCases => r.(answerFailedCases := Truncated(value))
  }

  /** Setting a metric to the value another report has for it changes that metric and nothing else. */
  lemma SetAndGet(r: Report, now: Report, m: Metric, other: Metric)
    ensures var r2 := SetMetricValue(r, m, MetricValue(now, m));
      && MetricValue(r2, other) == (if other == m then MetricValue(now, m) else MetricValue(r, other))
      && r2.mode == r.mode && r2.pipeline == r.pipeline && r2.details == r.details
  {
  }

  // ----- Comparing

  predicate Regresses(m: Metric, now: real, before: real, tolerance: real) {
    var t := if tolerance < 0.0 then 0.0 else tolerance;
    (before > 0.0 || ZeroIsValid(m))
    && if LowerIsBetter(m) then now > before * (1.0 + t) else now < before * (1.0 - t)
  }

  datatype Regression = Regression(mode: string, metric: Metric, baseline: real, current: real, tolerance: real)

  function RegressionsOf(report: Report, was: Report, tolerance: real, metrics: seq<Metric>): seq<Regression> {
    if metrics == [] then []
    else
      var m := metrics[|metrics| - 1];
      var now, before := MetricValue(report, m), MetricValue(was, m);
      RegressionsOf(report, was, tolerance, metrics[..|metrics| - 1])
      + if Regresses(m, now, before, tolerance) then [Regression(report.mode, m, before, now, tolerance)] else []
  }

  function Replace(mode: string): (Option<Report>, Report) -> Option<Report> {
    (last: Option<Report>, report: Report) => if report.mode == mode then Some(report) else last
  }

  /** The last report of a mode. */
  function Last(reports: seq<Report>, mode: string): Option<Report> {
    Fold(Replace(mode), None, reports)
  }

  function Regressions(current: seq<Report>, baseline: seq<Report>, tolerance: real): seq<Regression> {
    if current == [] then []
    else
      var report := current[|current| - 1];
      var was := Last(baseline, report.mode);
      Regressions(current[..|current| - 1], baseline, tolerance)
      + if was.None? then [] else RegressionsOf(report, was.value, tolerance, BenchmarkMetrics(report.pipeline))
  }

  function Lookup(byMode: map<string, Report>, mode: string): Option<Report> {
    if mode in byMode then Some(byMode[mode]) else None
  }

  ghost predicate HoldsLast(byMode: map<string, Report>, reports: seq<Report>) {
    forall mode :: Lookup(byMode, mode) == Last(reports, mode)
  }

  lemma LastMore(byMode: map<string, Report>, reports: seq<Report>, report: Report)
    requires HoldsLast(byMode, reports)
    ensures HoldsLast(byMode[report.mode := report], reports + [report])
  {
    forall mode ensures Lookup(byMode[report.mode := report], mode) == Last(reports + [report], mode) {
      FoldMore(Replace(mode), None, reports, report);
      assert Lookup(byMode, mode) == Last(reports, mode);
    }
  }

  /** The first loop of both functions. */
  method IndexByMode(reports: seq<Report>) returns (byMode: map<string, Report>)
    ensures HoldsLast(byMode, reports)
  {
    byMode := map[];
    var i := 0;
    while i < |reports|
      invariant 0 <= i <= |reports| && HoldsLast(byMode, reports[..i])
    {
      LastMore(byMode, reports[..i], reports[i]);
      assert reports[..i + 1] == reports[..i] + [reports[i]];
      byMode := byMode[reports[i].mode := reports[i]];
      i := i + 1;
    }
    assert reports[..i] == reports;
  }

  /** The loop over the metrics of a report. */
  method CompareReport(report: Report, was: Report, tolerance: real, metrics: seq<Metric>)
    returns (found: seq<Regression>)
    requires tolerance >= 0.0
    ensures found == RegressionsOf(report, was, tolerance, metrics)
  {
    found := [];
    var i := 0;
    while i < |metrics|
      invariant 0 <= i <= |metrics| && found == RegressionsOf(report, was, tolerance, metrics[..i])
    {
      var metric := metrics[i];
      assert metrics[..i + 1][..i] == metrics[..i];
      var now, before := MetricValue(report, metric), MetricValue(was, metric);
      i := i + 1;
      if before <= 0.0 && !ZeroIsValid(metric) {
        continue;
      }
      if LowerIsBetter(metric) {
        if now > before * (1.0 + tolerance) {
          found := found + [Regression(report.mode, metric, before, now, tolerance)];
        }
      } else if now < before * (1.0 - tolerance) {
        found := found + [Regression(report.mode, metric, before, now, tolerance)];
      }
    }
    assert metrics[..i] == metrics;
  }

  method CompareBaseline(current: seq<Report>, baseline: seq<Report>, tolerance: real) returns (found: seq<Regression>)
    ensures found == Regressions(current, baseline, if tolerance < 0.0 then 0.0 else tolerance)
  {
    var t := if tolerance < 0.0 then 0.0 else tolerance;
    var previous := IndexByMode(baseline);
    found := [];
    var i := 0;
    while i < |current|
      invariant 0 <= i <= |current| && found == Regressions(current[..i], baseline, t)
    {
      var report := current[i];
      assert current[..i + 1][..i] == current[..i];
      assert Lookup(previous, report.mode) == Last(baseline, report.mode);
      if report.mode in previous {
        var more := CompareReport(report, previous[report.mode], t, BenchmarkMetrics(report.pipeline));
        found := found + more;
      }
      i := i + 1;
    }
    assert current[..i] == current;
  }

  ghost predicate Stands(report: Report, was: Option<Report>, tolerance: real) {
    was.None? || forall m | m in BenchmarkMetrics(report.pipeline) ::
      !Regresses(m, MetricValue(report, m), MetricValue(was.value, m), tolerance)
  }

  lemma {:induction false} NoneOf(report: Report, was: Report, tolerance: real, metrics: seq<Metric>)
    ensures RegressionsOf(report, was, tolerance, metrics) == []
      <==> forall m | m in metrics :: !Regresses(m, MetricValue(report, m), MetricValue(was, m), tolerance)
  {
    if metrics != [] {
      var n := |metrics| - 1;
      NoneOf(report, was, tolerance, metrics[..n]);
      assert metrics == metrics[..n] + [metrics[n]];
    }
  }

  /** Nothing is reported exactly when no metric of any report is worse than the tolerance allows. */
  lemma {:induction false} NoRegressions(current: seq<Report>, baseline: seq<Report>, tolerance: real)
    ensures Regressions(current, baseline, tolerance) == []
      <==> forall i | 0 <= i < |current| :: Stands(current[i], Last(baseline, current[i].mode), tolerance)
  {
    if current != [] {
      var n := |current| - 1;
      NoRegressions(current[..n], baseline, tolerance);
      var was := Last(baseline, current[n].mode);
      if was.Some? {
        NoneOf(current[n], was.value, tolerance, BenchmarkMetrics(current[n].pipeline));
      }
    }
  }

  // ----- Merging

  predicate Improves(m: Metric, now: real, best: real) {
    if LowerIsBetter(m) then (!ZeroIsValid(m) && best <= 0.0) || now < best else now > best
  }

  function Better(m: Metric): (real, real) -> real {
    (best: real, now: real) => if Improves(m, now, best) then now else best
  }

  function Improver(now: Report): (Report, Metric) -> Report {
    (best: Report, m: Metric) =>
      if Improves(m, MetricValue(now, m), MetricValue(best, m)) then SetMetricValue(best, m, MetricValue(now, m)) else best
  }

  function Merged(best: Report, now: Report): Report {
    Fold(Improver(now), best, BenchmarkMetrics(now.pipeline))
  }

  method MergeReport(existing: Report, report: Report) returns (best: Report)
    ensures best == Merged(existing, report)
  {
    best := existing;
    var metrics := BenchmarkMetrics(report.pipeline);
    var i := 0;
    while i < |metrics|
      invariant 0 <= i <= |metrics| && best == Fold(Improver(report), existing, metrics[..i])
    {
      FoldMore(Improver(report), existing, metrics[..i], metrics[i]);
      assert metrics[..i + 1] == metrics[..i] + [metrics[i]];
      var currentValue, bestValue := MetricValue(report, metrics[i]), MetricValue(best, metrics[i]);
      if LowerIsBetter(metrics[i]) {
        if (!ZeroIsValid(metrics[i]) && bestValue <= 0.0) || currentValue < bestValue {
          best := SetMetricValue(best, metrics[i], currentValue);
        }
      } else if currentValue > bestValue {
        best := SetMetricValue(best, metrics[i], currentValue);
      }
      i := i + 1;
    }
    assert metrics[..i] == metrics;
  }

  function Absorb(mode: string): (Option<Report>, Report) -> Option<Report> {
    (best: Option<Report>, report: Report) =>
      if report.mode != mode then best else if best.None? then Some(report) else Some(Merged(best.value, report))
  }

  /** The merged report of a mode. */
  function BestFor(existing: seq<Report>, current: seq<Report>, mode: string): Option<Report> {
    Fold(Absorb(mode), Last(existing, mode), current)
  }

  ghost predicate HoldsBest(byMode: map<string, Report>, existing: seq<Report>, current: seq<Report>) {
    forall mode :: Lookup(byMode, mode) == BestFor(existing, current, mode)
  }

  lemma BestMore(byMode: map<string, Report>, existing: seq<Report>, current: seq<Report>, report: Report, best: Report)
    requires HoldsBest(byMode, existing, current)
    requires Absorb(report.mode)(Lookup(byMode, report.mode), report) == Some(best)
    ensures HoldsBest(byMode[report.mode := best], existing, current + [report])
  {
    forall mode ensures Lookup(byMode[report.mode := best], mode) == BestFor(existing, current + [report], mode) {
      FoldMore(Absorb(mode), Last(existing, mode), current, report);
      assert Lookup(byMode, mode) == BestFor(existing, current, mode);
    }
  }

  /** The two loops that fill the map. */
  method BestByMode(existing: seq<Report>, current: seq<Report>) returns (byMode: map<string, Report>)
    ensures HoldsBest(byMode, existing, current)
  {
    byMode := IndexByMode(existing);
    var i := 0;
    assert HoldsBest(byMode, existing, current[..0]) by {
      forall mode ensures Lookup(byMode, mode) == BestFor(existing, current[..0], mode) {
        assert Lookup(byMode, mode) == Last(existing, mode);
      }
    }
    while i < |current|
      invariant 0 <= i <= |current| && HoldsBest(byMode, existing, current[..i])
    {
      var report := current[i];
      var best := report;
      if report.mode in byMode {
        best := MergeReport(byMode[report.mode], report);
      }
      BestMore(byMode, existing, current[..i], report, best);
      assert current[..i + 1] == current[..i] + [report];
      byMode := byMode[report.mode := best];
      i := i + 1;
    }
    assert current[..i] == current;
  }

  predicate HasMode(reports: seq<Report>, mode: string) {
    exists i :: 0 <= i < |reports| && reports[i].mode == mode
  }

  function ModesOf(reports: seq<Report>): (modes: seq<string>)
    ensures |modes| == |reports| && forall i | 0 <= i < |reports| :: modes[i] == reports[i].mode
  {
    seq(|reports|, i requires 0 <= i < |reports| => reports[i].mode)
  }

  /** The modes in the order of their first reports. */
  function FirstModes(reports: seq<Report>): seq<string> {
    if reports == [] then []
    else
      var mode := reports[|reports| - 1].mode;
      var before := FirstModes(reports[..|reports| - 1]);
      if mode in before then before else before + [mode]
  }

  ghost predicate OnePerMode(reports: seq<Report>) {
    forall i, j | 0 <= i < j < |reports| :: reports[i].mode != reports[j].mode
  }

  /** One report for each mode, and it is the merged one. */
  ghost predicate HasTheBest(merged: seq<Report>, existing: seq<Report>, current: seq<Report>) {
    && OnePerMode(merged)
    && (forall i | 0 <= i < |merged| :: BestFor(existing, current, merged[i].mode) == Some(merged[i]))
    && (forall mode | BestFor(existing, current, mode).Some? :: HasMode(merged, mode))
  }

  /** The reports of a merged file, the modes of `current` first and in their order. */
  ghost predicate IsMerge(merged: seq<Report>, existing: seq<Report>, current: seq<Report>) {
    && HasTheBest(merged, existing, current)
    && |FirstModes(current)| <= |merged| && ModesOf(merged)[..|FirstModes(current)|] == FirstModes(current)
  }

  /** While the list is built, every mode is in the list or still in the map. */
  ghost predicate Splits(byMode: map<string, Report>, reports: seq<Report>, best: map<string, Report>) {
    && OnePerMode(reports)
    && (forall i | 0 <= i < |reports| :: Lookup(best, reports[i].mode) == Some(reports[i]) && reports[i].mode !in byMode)
    && (forall mode | mode in best :: HasMode(reports, mode) || (mode in byMode && byMode[mode] == best[mode]))
    && (forall mode | mode in byMode :: mode in best && byMode[mode] == best[mode] && best[mode].mode == mode)
  }

  lemma Moved(byMode: map<string, Report>, reports: seq<Report>, best: map<string, Report>, mode: string)
    requires Splits(byMode, reports, best) && mode in byMode
    ensures Splits(byMode - {mode}, reports + [byMode[mode]], best)
  {
    var longer := reports + [byMode[mode]];
    forall other | other in best
      ensures HasMode(longer, other) || (other in byMode - {mode} && (byMode - {mode})[other] == best[other])
    {
      if HasMode(reports, other) {
        var i :| 0 <= i < |reports| && reports[i].mode == other;
        assert longer[i].mode == other;
      } else if other == mode {
        assert longer[|reports|].mode == mode;
      }
    }
  }

  lemma ModeOfLast(reports: seq<Report>, mode: string)
    requires reports != []
    ensures HasMode(reports, mode) <==> HasMode(reports[..|reports| - 1], mode) || reports[|reports| - 1].mode == mode
  {
    var shorter := reports[..|reports| - 1];
    if HasMode(shorter, mode) {
      var i :| 0 <= i < |shorter| && shorter[i].mode == mode;
      assert reports[i].mode == mode;
    }
    forall i | 0 <= i < |shorter| && reports[i].mode == mode ensures HasMode(shorter, mode) {
      assert shorter[i].mode == mode;
    }
  }

  lemma {:induction false} BestHasItsMode(existing: seq<Report>, current: seq<Report>, mode: string, pipeline: string)
    ensures BestFor(existing, current, mode).Some? ==> BestFor(existing, current, mode).value.mode == mode
    ensures BestFor(existing, current, mode).Some? <==> HasMode(existing, mode) || HasMode(current, mode)
    ensures BestFor(existing, current, mode).Some?
      && (forall r | (r in existing || r in current) && r.mode == mode :: r.pipeline == pipeline)
      ==> BestFor(existing, current, mode).value.pipeline == pipeline
  {
    if current != [] {
      var n := |current| - 1;
      BestHasItsMode(existing, current[..n], mode, pipeline);
      var best := BestFor(existing, current[..n], mode);
      assert current[n] in current && current == current[..n] + [current[n]];
      ModeOfLast(current, mode);
      if best.Some? {
        MergedKeeps(best.value, current[n]);
      }
    } else {
      LastHasItsMode(existing, mode);
    }
  }

  lemma {:induction false} LastHasItsMode(reports: seq<Report>, mode: string)
    ensures Last(reports, mode).Some? ==> Last(reports, mode).value.mode == mode && Last(reports, mode).value in reports
    ensures Last(reports, mode).Some? <==> HasMode(reports, mode)
  {
    if reports != [] {
      var n := |reports| - 1;
      LastHasItsMode(reports[..n], mode);
      assert reports == reports[..n] + [reports[n]];
      ModeOfLast(reports, mode);
    }
  }

  /** Each metric of a merged report is the better value; nothing else of the report changes. */
  lemma {:induction false} FoldedMetric(best: Report, now: Report, metrics: seq<Metric>, m: Metric)
    ensures var r := Fold(Improver(now), best, metrics);
      && r.mode == best.mode && r.pipeline == best.pipeline && r.details == best.details
      && MetricValue(r, m)
         == if m in metrics then Better(m)(MetricValue(best, m), MetricValue(now, m)) else MetricValue(best, m)
  {
    if metrics != [] {
      var n := |metrics| - 1;
      FoldedMetric(best, now, metrics[..n], m);
      SetAndGet(Fold(Improver(now), best, metrics[..n]), now, metrics[n], m);
      assert metrics == metrics[..n] + [metrics[n]];
    }
  }

  lemma MergedKeeps(best: Report, now: Report)
    ensures Merged(best, now).mode == best.mode && Merged(best, now).pipeline == best.pipeline
  {
    FoldedMetric(best, now, BenchmarkMetrics(now.pipeline), Mrr);
  }

  lemma ModeIsListed(reports: seq<Report>, mode: string)
    ensures mode in ModesOf(reports) <==> HasMode(reports, mode)
  {
    if HasMode(reports, mode) {
      var i :| 0 <= i < |reports| && reports[i].mode == mode;
      assert ModesOf(reports)[i] == mode;
    }
  }

  /** The loop that lists the reports of the current modes. */
  method ListCurrent(current: seq<Report>, best: map<string, Report>)
    returns (byMode: map<string, Report>, reports: seq<Report>)
    requires forall mode | mode in best :: best[mode].mode == mode
    requires forall i | 0 <= i < |current| :: current[i].mode in best
    ensures Splits(byMode, reports, best) && ModesOf(reports) == FirstModes(current)
  {
    byMode := best;
    reports := [];
    var i := 0;
    while i < |current|
      invariant 0 <= i <= |current| && Splits(byMode, reports, best) && ModesOf(reports) == FirstModes(current[..i])
    {
      var mode := current[i].mode;
      assert current[..i + 1][..i] == current[..i];
      ModeIsListed(reports, mode);
      if mode in byMode {
        Moved(byMode, reports, best, mode);
        reports := reports + [byMode[mode]];
        byMode := byMode - {mode};
      }
      i := i + 1;
    }
    assert current[..i] == current;
  }

  /** The loop over what is left in the map, in any order. */
  method ListRest(rest: map<string, Report>, before: seq<Report>, best: map<string, Report>)
    returns (reports: seq<Report>)
    requires Splits(rest, before, best)
    ensures Splits(map[], reports, best) && before <= reports
  {
    var byMode := rest;
    reports := before;
    while byMode != map[]
      invariant Splits(byMode, reports, best) && before <= reports
      decreases |byMode|
    {
      var mode :| mode in byMode;
      Moved(byMode, reports, best, mode);
      reports := reports + [byMode[mode]];
      byMode := byMode - {mode};
    }
  }

  method MergeBaseline(existing: BaselineFile, current: BaselineFile) returns (merged: BaselineFile)
    ensures IsMerge(merged.reports, existing.reports, current.reports)
    ensures merged.version == 1 && merged.topK == current.topK && merged.candidateK == current.candidateK
    ensures merged.dataset == if existing.dataset != "" then existing.dataset else current.dataset
    ensures merged.pipeline == if existing.pipeline != "" then existing.pipeline else current.pipeline
  {
    var byMode := BestByMode(existing.reports, current.reports);
    forall mode | mode in byMode ensures byMode[mode].mode == mode {
      BestHasItsMode(existing.reports, current.reports, mode, "");
      assert Lookup(byMode, mode) == BestFor(existing.reports, current.reports, mode);
    }
    forall i | 0 <= i < |current.reports| ensures current.reports[i].mode in byMode {
      BestHasItsMode(existing.reports, current.reports, current.reports[i].mode, "");
      assert Lookup(byMode, current.reports[i].mode) == BestFor(existing.reports, current.reports, current.reports[i].mode);
    }
    merged := current.(version := 1);
    if existing.dataset != "" {
      merged := merged.(dataset := existing.dataset);
    }
    if existing.pipeline != "" {
      merged := merged.(pipeline := existing.pipeline);
    }
    var rest, first := ListCurrent(current.reports, byMode);
    var reports := ListRest(rest, first, byMode);
    assert ModesOf(reports)[..|first|] == ModesOf(first);
    forall i | 0 <= i < |reports|
      ensures BestFor(existing.reports, current.reports, reports[i].mode) == Some(reports[i])
    {
      assert Lookup(byMode, reports[i].mode) == BestFor(existing.reports, current.reports, reports[i].mode);
    }
    forall mode | BestFor(existing.reports, current.reports, mode).Some? ensures HasMode(reports, mode) {
      assert Lookup(byMode, mode) == BestFor(existing.reports, current.reports, mode);
    }
    merged := merged.(reports := reports);
  }
}
