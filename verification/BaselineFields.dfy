/** The comparison and the merge of reports, field by field and report by report. */
module BaselineFields {
  import opened Folds
  import opened Options
  import opened Baseline

  // ----- Which metrics a pipeline has

  /** The place of a metric in the lists; the first seven are those of every pipeline. */
  function Place(m: Metric): nat {
    match m
    case RecallAt1 => 0
    case RecallAtK => 1
    case Mrr => 2
    case NdcgAtK => 3
    case AverageLatencyMs => 4
    case P95LatencyMs => 5
    case FailedCases => 6
    case AnswerCorrectness => 7
    case CitationPrecision => 8
    case CitationRecall => 9
    case Faithfulness => 10
    case UnsupportedClaimRate => 11
    case RefusalAccuracy => 12
    case AveragePipelineLatencyMs => 13
    case P95PipelineLatencyMs => 14
    case AnswerFailedCases => 15
  }

  lemma MetricsInPlace(pipeline: string)
    ensures |BenchmarkMetrics(pipeline)| == if pipeline == "rag" then 16 else 7
    ensures forall i | 0 <= i < |BenchmarkMetrics(pipeline)| :: Place(BenchmarkMetrics(pipeline)[i]) == i
  {
  }

  lemma Listed(pipeline: string, m: Metric)
    ensures m in BenchmarkMetrics(pipeline) <==> pipeline == "rag" || Place(m) < 7
  {
    MetricsInPlace(pipeline);
    var metrics := BenchmarkMetrics(pipeline);
    if Place(m) < |metrics| {
      assert Place(metrics[Place(m)]) == Place(m);
      assert metrics[Place(m)] == m;
    }
  }

  // ----- Comparing, field by field

  predicate Drops(e: Regression, now: real, was: real) {
    e.current == now && e.baseline == was && was > 0.0 && now < was * (1.0 - e.tolerance)
  }

  predicate Rises(e: Regression, now: real, was: real) {
    e.current == now && e.baseline == was && was > 0.0 && now > was * (1.0 + e.tolerance)
  }

  predicate RisesEvenFromZero(e: Regression, now: real, was: real) {
    e.current == now && e.baseline == was && now > was * (1.0 + e.tolerance)
  }

  /** The metric of the entry is worse than it was by more than the tolerance, and the entry says so. */
  predicate IsWorse(e: Regression, now: Report, was: Report) {
    match e.metric
    case RecallAt1 => Drops(e, now.recallAt1, was.recallAt1)
    case RecallAtK => Drops(e, now.recallAtK, was.recallAtK)
    case Mrr => Drops(e, now.mrr, was.mrr)
    case NdcgAtK => Drops(e, now.ndcgAtK, was.ndcgAtK)
    case AverageLatencyMs => Rises(e, now.averageLatencyMs, was.averageLatencyMs)
    case P95LatencyMs => Rises(e, now.p95LatencyMs as real, was.p95LatencyMs as real)
    case FailedCases => RisesEvenFromZero(e, now.failedCases as real, was.failedCases as real)
    case AnswerCorrectness => Drops(e, now.answerCorrectness, was.answerCorrectness)
    case CitationPrecision => Drops(e, now.citationPrecision, was.citationPrecision)
    case CitationRecall => Drops(e, now.citationRecall, was.citationRecall)
    case Faithfulness => Drops(e, now.faithfulness, was.faithfulness)
    case UnsupportedClaimRate => RisesEvenFromZero(e, now.unsupportedClaimRate, was.unsupportedClaimRate)
    case RefusalAccuracy => Drops(e, now.refusalAccuracy, was.refusalAccuracy)
    case AveragePipelineLatencyMs => Rises(e, now.averagePipelineLatencyMs, was.averagePipelineLatencyMs)
    case P95PipelineLatencyMs => Rises(e, now.p95PipelineLatencyMs as real, was.p95PipelineLatencyMs as real)
    case AnswerFailedCases => RisesEvenFromZero(e, now.answerFailedCases as real, was.answerFailedCases as real)
  }

  ghost predicate Says(e: Regression, now: Report, was: Report) {
    && e.current == MetricValue(now, e.metric) && e.baseline == MetricValue(was, e.metric)
    && Regresses(e.metric, e.current, e.baseline, e.tolerance)
  }

  lemma WorseQuality(e: Regression, now: Report, was: Report)
    requires e.tolerance >= 0.0 && !LowerIsBetter(e.metric)
    ensures IsWorse(e, now, was) <==> Drops(e, MetricValue(now, e.metric), MetricValue(was, e.metric))
  {
  }

  lemma WorseLatency(e: Regression, now: Report, was: Report)
    requires e.tolerance >= 0.0 && LowerIsBetter(e.metric) && !ZeroIsValid(e.metric)
    ensures IsWorse(e, now, was) <==> Rises(e, MetricValue(now, e.metric), MetricValue(was, e.metric))
  {
  }

  lemma WorseCount(e: Regression, now: Report, was: Report)
    requires e.tolerance >= 0.0 && ZeroIsValid(e.metric)
    ensures IsWorse(e, now, was) <==> RisesEvenFromZero(e, MetricValue(now, e.metric), MetricValue(was, e.metric))
  {
  }

  lemma WorseMeans(e: Regression, now: Report, was: Report)
    requires e.tolerance >= 0.0
    ensures IsWorse(e, now, was) <==> Says(e, now, was)
  {
    if !LowerIsBetter(e.metric) {
      WorseQuality(e, now, was);
    } else if ZeroIsValid(e.metric) {
      WorseCount(e, now, was);
    } else {
      WorseLatency(e, now, was);
    }
  }

  lemma {:induction false} EntriesMean(now: Report, was: Report, t: real, metrics: seq<Metric>, e: Regression)
    requires t >= 0.0
    ensures e in RegressionsOf(now, was, t, metrics)
      <==> e.metric in metrics && e.mode == now.mode && e.tolerance == t && IsWorse(e, now, was)
  {
    if metrics != [] {
      var before, m := metrics[..|metrics| - 1], metrics[|metrics| - 1];
      EntriesMean(now, was, t, before, e);
      assert metrics == before + [m];
      var entry := Regression(now.mode, m, MetricValue(was, m), MetricValue(now, m), t);
      WorseMeans(entry, now, was);
      if e.metric == m && e.tolerance == t {
        WorseMeans(e, now, was);
      }
    }
  }

  ghost predicate InPlace(found: seq<Regression>, limit: nat) {
    && (forall i | 0 <= i < |found| :: Place(found[i].metric) < limit)
    && (forall i, j | 0 <= i < j < |found| :: Place(found[i].metric) < Place(found[j].metric))
  }

  /** The metrics come in the order of the list. */
  lemma {:induction false} EntriesInOrder(now: Report, was: Report, t: real, metrics: seq<Metric>)
    requires forall i | 0 <= i < |metrics| :: Place(metrics[i]) == i
    ensures InPlace(RegressionsOf(now, was, t, metrics), |metrics|)
  {
    if metrics != [] {
      var before, m := metrics[..|metrics| - 1], metrics[|metrics| - 1];
      EntriesInOrder(now, was, t, before);
      assert Place(m) == |before|;
    }
  }

  predicate IsLastOf(reports: seq<Report>, mode: string, i: nat) {
    i < |reports| && reports[i].mode == mode && forall j | i < j < |reports| :: reports[j].mode != mode
  }

  /** The report a map holds after all are entered is the last one of its mode. */
  lemma {:induction false} LastMeans(reports: seq<Report>, mode: string)
    ensures Last(reports, mode).Some? ==>
      exists i: nat :: IsLastOf(reports, mode, i) && reports[i] == Last(reports, mode).value
    ensures Last(reports, mode).None? ==> forall i | 0 <= i < |reports| :: reports[i].mode != mode
  {
    if reports != [] {
      var n := |reports| - 1;
      LastMeans(reports[..n], mode);
      if reports[n].mode == mode {
        assert IsLastOf(reports, mode, n);
      } else if Last(reports, mode).Some? {
        var i: nat :| IsLastOf(reports[..n], mode, i) && reports[..n][i] == Last(reports, mode).value;
        assert IsLastOf(reports, mode, i);
      }
    }
  }

  /** The entries of a report: none for a new mode, else one for each metric worse than in the last report of its mode. */
  ghost predicate AreEntriesOf(found: seq<Regression>, report: Report, baseline: seq<Report>, t: real) {
    && InPlace(found, 16) && ((forall i | 0 <= i < |baseline| :: baseline[i].mode != report.mode) ==> found == [])
    && forall i: nat, e | IsLastOf(baseline, report.mode, i) ::
         (e in found <==>
           && e.mode == report.mode && e.tolerance == t && IsWorse(e, report, baseline[i])
           && (report.pipeline == "rag" || Place(e.metric) < 7))
  }

  lemma OneReport(report: Report, baseline: seq<Report>, t: real)
    requires t >= 0.0
    ensures AreEntriesOf(Regressions([report], baseline, t), report, baseline, t)
  {
    var found, metrics := Regressions([report], baseline, t), BenchmarkMetrics(report.pipeline);
    assert [report][..0] == [] && Regressions([], baseline, t) == [];
    LastMeans(baseline, report.mode);
    var was := Last(baseline, report.mode);
    if was.Some? {
      assert found == RegressionsOf(report, was.value, t, metrics);
      MetricsInPlace(report.pipeline);
      EntriesInOrder(report, was.value, t, metrics);
      var last: nat :| IsLastOf(baseline, report.mode, last) && baseline[last] == was.value;
      forall i: nat, e | IsLastOf(baseline, report.mode, i)
        ensures e in found <==>
          && e.mode == report.mode && e.tolerance == t && IsWorse(e, report, baseline[i])
          && (report.pipeline == "rag" || Place(e.metric) < 7)
      {
        assert i == last;
        EntriesMean(report, was.value, t, metrics, e);
        Listed(report.pipeline, e.metric);
      }
    } else {
      assert found == [];
    }
  }

  lemma OneReportMore(current: seq<Report>, report: Report, baseline: seq<Report>, t: real)
    ensures Regressions(current + [report], baseline, t)
      == Regressions(current, baseline, t) + Regressions([report], baseline, t)
  {
    assert (current + [report])[..|current|] == current;
    assert [report][..0] == [] && Regressions([], baseline, t) == [];
  }

  /** Report by report, the comparison finds exactly the metrics that are worse by more than the tolerance. */
  lemma RegressionsMean(current: seq<Report>, report: Report, baseline: seq<Report>, t: real)
    returns (found: seq<Regression>)
    requires t >= 0.0
    ensures Regressions([], baseline, t) == []
    ensures Regressions(current + [report], baseline, t) == Regressions(current, baseline, t) + found
    ensures AreEntriesOf(found, report, baseline, t)
  {
    found := Regressions([report], baseline, t);
    OneReportMore(current, report, baseline, t);
    OneReport(report, baseline, t);
  }

  // ----- Merging, field by field

  predicate IsLarger(r: real, a: real, b: real) {
    r >= a && r >= b && (r == a || r == b)
  }

  predicate IsSmaller(r: real, a: real, b: real) {
    r <= a && r <= b && (r == a || r == b)
  }

  /** The smaller latency, but one that is missing gives way to the new one whatever that is. */
  predicate IsFaster(r: real, best: real, now: real) {
    if best <= 0.0 then r == now else IsSmaller(r, best, now)
  }

  predicate SameAnswers(r: Report, best: Report) {
    && r.answerCorrectness == best.answerCorrectness && r.citationPrecision == best.citationPrecision
    && r.citationRecall == best.citationRecall && r.faithfulness == best.faithfulness
    && r.unsupportedClaimRate == best.unsupportedClaimRate && r.refusalAccuracy == best.refusalAccuracy
    && r.averagePipelineLatencyMs == best.averagePipelineLatencyMs
    && r.p95PipelineLatencyMs == best.p95PipelineLatencyMs && r.answerFailedCases == best.answerFailedCases
  }

  predicate BetterQuality(r: Report, best: Report, now: Report) {
    && IsLarger(r.answerCorrectness, best.answerCorrectness, now.answerCorrectness)
    && IsLarger(r.citationPrecision, best.citationPrecision, now.citationPrecision)
    && IsLarger(r.citationRecall, best.citationRecall, now.citationRecall)
    && IsLarger(r.faithfulness, best.faithfulness, now.faithfulness)
    && IsLarger(r.refusalAccuracy, best.refusalAccuracy, now.refusalAccuracy)
  }

  predicate BetterCost(r: Report, best: Report, now: Report) {
    && IsSmaller(r.unsupportedClaimRate, best.unsupportedClaimRate, now.unsupportedClaimRate)
    && IsFaster(r.averagePipelineLatencyMs, best.averagePipelineLatencyMs, now.averagePipelineLatencyMs)
    && IsFaster(r.p95PipelineLatencyMs as real, best.p95PipelineLatencyMs as real, now.p95PipelineLatencyMs as real)
    && IsSmaller(r.answerFailedCases as real, best.answerFailedCases as real, now.answerFailedCases as real)
  }

  /** The better value in every field; the answers count only in a "rag" report. */
  predicate IsBetterOf(r: Report, best: Report, now: Report) {
    && r.mode == best.mode && r.pipeline == best.pipeline && r.details == best.details
    && IsLarger(r.recallAt1, best.recallAt1, now.recallAt1) && IsLarger(r.recallAtK, best.recallAtK, now.recallAtK)
    && IsLarger(r.mrr, best.mrr, now.mrr) && IsLarger(r.ndcgAtK, best.ndcgAtK, now.ndcgAtK)
    && IsFaster(r.averageLatencyMs, best.averageLatencyMs, now.averageLatencyMs)
    && IsFaster(r.p95LatencyMs as real, best.p95LatencyMs as real, now.p95LatencyMs as real)
    && IsSmaller(r.failedCases as real, best.failedCases as real, now.failedCases as real)
    && if now.pipeline == "rag" then BetterQuality(r, best, now) && BetterCost(r, best, now) else SameAnswers(r, best)
  }

  ghost predicate HasBetterValues(r: Report, best: Report, now: Report) {
    forall m: Metric :: MetricValue(r, m)
      == if now.pipeline == "rag" || Place(m) < 7 then Better(m)(MetricValue(best, m), MetricValue(now, m))
         else MetricValue(best, m)
  }

  lemma CommonFields(r: Report, best: Report, now: Report)
    requires HasBetterValues(r, best, now)
    ensures IsLarger(r.recallAt1, best.recallAt1, now.recallAt1) && IsLarger(r.recallAtK, best.recallAtK, now.recallAtK)
    ensures IsLarger(r.mrr, best.mrr, now.mrr) && IsLarger(r.ndcgAtK, best.ndcgAtK, now.ndcgAtK)
    ensures IsFaster(r.averageLatencyMs, best.averageLatencyMs, now.averageLatencyMs)
    ensures IsFaster(r.p95LatencyMs as real, best.p95LatencyMs as real, now.p95LatencyMs as real)
    ensures IsSmaller(r.failedCases as real, best.failedCases as real, now.failedCases as real)
  {
    assert r.recallAt1 == MetricValue(r, RecallAt1) && r.recallAtK == MetricValue(r, RecallAtK);
    assert r.mrr == MetricValue(r, Mrr) && r.ndcgAtK == MetricValue(r, NdcgAtK);
    assert r.averageLatencyMs == MetricValue(r, AverageLatencyMs);
    assert r.p95LatencyMs as real == MetricValue(r, P95LatencyMs);
    assert r.failedCases as real == MetricValue(r, FailedCases);
  }

  lemma QualityFields(r: Report, best: Report, now: Report)
    requires HasBetterValues(r, best, now) && now.pipeline == "rag"
    ensures BetterQuality(r, best, now)
  {
    assert r.answerCorrectness == MetricValue(r, AnswerCorrectness);
    assert r.citationPrecision == MetricValue(r, CitationPrecision);
    assert r.citationRecall == MetricValue(r, CitationRecall);
    assert r.faithfulness == MetricValue(r, Faithfulness);
    assert r.refusalAccuracy == MetricValue(r, RefusalAccuracy);
  }

  lemma CostFields(r: Report, best: Report, now: Report)
    requires HasBetterValues(r, best, now) && now.pipeline == "rag"
    ensures BetterCost(r, best, now)
  {
    assert r.unsupportedClaimRate == MetricValue(r, UnsupportedClaimRate);
    assert r.averagePipelineLatencyMs == MetricValue(r, AveragePipelineLatencyMs);
    assert r.p95PipelineLatencyMs as real == MetricValue(r, P95PipelineLatencyMs);
    assert r.answerFailedCases as real == MetricValue(r, AnswerFailedCases);
  }

  lemma OtherFields(r: Report, best: Report, now: Report)
    requires HasBetterValues(r, best, now) && now.pipeline != "rag"
    ensures SameAnswers(r, best)
  {
    assert r.answerCorrectness == MetricValue(r, AnswerCorrectness);
    assert r.citationPrecision == MetricValue(r, CitationPrecision);
    assert r.citationRecall == MetricValue(r, CitationRecall) && r.faithfulness == MetricValue(r, Faithfulness);
    assert r.refusalAccuracy == MetricValue(r, RefusalAccuracy);
    assert r.unsupportedClaimRate == MetricValue(r, UnsupportedClaimRate);
    assert r.averagePipelineLatencyMs == MetricValue(r, AveragePipelineLatencyMs);
    assert r.p95PipelineLatencyMs as real == MetricValue(r, P95PipelineLatencyMs);
    assert r.answerFailedCases as real == MetricValue(r, AnswerFailedCases);
  }

  /** Merging takes the better value field by field. */
  lemma MergedMeans(best: Report, now: Report)
    ensures IsBetterOf(Merged(best, now), best, now)
  {
    var r, metrics := Merged(best, now), BenchmarkMetrics(now.pipeline);
    FoldedMetric(best, now, metrics, Mrr);
    forall m: Metric ensures MetricValue(r, m)
      == if now.pipeline == "rag" || Place(m) < 7 then Better(m)(MetricValue(best, m), MetricValue(now, m))
         else MetricValue(best, m)
    {
      FoldedMetric(best, now, metrics, m);
      Listed(now.pipeline, m);
    }
    CommonFields(r, best, now);
    if now.pipeline == "rag" {
      QualityFields(r, best, now);
      CostFields(r, best, now);
    } else {
      OtherFields(r, best, now);
    }
  }

  /** The report of a mode: the last existing one, or the first current one, then the better of it and each that follows. */
  lemma BestForMeans(existing: seq<Report>, current: seq<Report>, report: Report, mode: string)
    ensures BestFor(existing, [], mode) == Last(existing, mode)
    ensures var was, now := BestFor(existing, current, mode), BestFor(existing, current + [report], mode);
      if report.mode != mode then now == was
      else if was.None? then now == Some(report)
      else now.Some? && IsBetterOf(now.value, was.value, report)
  {
    FoldMore(Absorb(mode), Last(existing, mode), current, report);
    if BestFor(existing, current, mode).Some? {
      MergedMeans(BestFor(existing, current, mode).value, report);
    }
  }

  // ----- The order of a merged file

  lemma {:induction false} FirstModesAre(reports: seq<Report>, mode: string)
    ensures mode in FirstModes(reports) <==> HasMode(reports, mode)
    ensures forall a, b | 0 <= a < b < |FirstModes(reports)| :: FirstModes(reports)[a] != FirstModes(reports)[b]
  {
    if reports != [] {
      FirstModesAre(reports[..|reports| - 1], mode);
      ModeOfLast(reports, mode);
    }
  }

  /** Of two modes in the list, the first has a report before any of the second. */
  lemma {:induction false} FirstModesInOrder(reports: seq<Report>, a: nat, b: nat) returns (i: nat)
    requires a < b < |FirstModes(reports)|
    ensures i < |reports| && reports[i].mode == FirstModes(reports)[a]
    ensures forall k | 0 <= k <= i :: reports[k].mode != FirstModes(reports)[b]
  {
    var n := |reports| - 1;
    var before, later := FirstModes(reports[..n]), FirstModes(reports)[b];
    if b < |before| {
      i := FirstModesInOrder(reports[..n], a, b);
    } else {
      FirstModesAre(reports[..n], before[a]);
      FirstModesAre(reports[..n], later);
      i :| 0 <= i < n && reports[..n][i].mode == before[a];
      forall k | 0 <= k <= i ensures reports[k].mode != later {
        assert reports[..n][k].mode == reports[k].mode;
      }
    }
  }
}
