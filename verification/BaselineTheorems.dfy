/** What merging does to later comparisons: nothing is lost, and when something can get worse. */
module BaselineTheorems {
  import opened Folds
  import opened Options
  import opened Baseline

  /** No mode is lost, none is invented, and each has one report. */
  lemma MergeKeepsModes(merged: seq<Report>, existing: seq<Report>, current: seq<Report>, mode: string)
    requires IsMerge(merged, existing, current)
    ensures HasMode(merged, mode) <==> HasMode(existing, mode) || HasMode(current, mode)
    ensures OnePerMode(merged)
  {
    BestHasItsMode(existing, current, mode, "");
  }

  ghost predicate SamePipelines(existing: seq<Report>, current: seq<Report>) {
    forall r, s | (r in existing || r in current) && (s in existing || s in current) && r.mode == s.mode ::
      r.pipeline == s.pipeline
  }

  /** Counts and rates are not negative. */
  ghost predicate NonNegative(reports: seq<Report>) {
    forall r, m | r in reports && ZeroIsValid(m) :: MetricValue(r, m) >= 0.0
  }

  /** A value at least as good as the one before does not regress at any tolerance. */
  predicate NoWorse(m: Metric, now: real, before: real) {
    if LowerIsBetter(m) then now <= before else now >= before
  }

  lemma RegressionMeansWorse(m: Metric, now: real, before: real, tolerance: real)
    requires before >= 0.0 || !ZeroIsValid(m)
    ensures NoWorse(m, now, before) ==> !Regresses(m, now, before, tolerance)
    ensures before > 0.0 && !NoWorse(m, now, before) ==> Regresses(m, now, before, 0.0)
  {
    var t := if tolerance < 0.0 then 0.0 else tolerance;
    if before >= 0.0 {
      assert before * t >= 0.0;
      assert before * (1.0 + t) == before + before * t;
      assert before * (1.0 - t) == before - before * t;
    }
  }

  // ----- Against the current reports

  /** The last report of a mode is the last one merged into its best. */
  lemma {:induction false} LastAbsorbed(existing: seq<Report>, current: seq<Report>, mode: string)
    returns (before: Option<Report>)
    requires Last(current, mode).Some?
    ensures BestFor(existing, current, mode) == Absorb(mode)(before, Last(current, mode).value)
  {
    var n := |current| - 1;
    if current[n].mode == mode {
      before := BestFor(existing, current[..n], mode);
    } else {
      before := LastAbsorbed(existing, current[..n], mode);
    }
  }

  /** Against the current reports a merged baseline never regresses, even if they repeat a mode. */
  lemma NoRegressionAgainstCurrent(merged: seq<Report>, existing: seq<Report>, current: seq<Report>, tolerance: real)
    requires IsMerge(merged, existing, current) && SamePipelines(existing, current) && NonNegative(current)
    ensures Regressions(merged, current, tolerance) == []
  {
    forall i | 0 <= i < |merged| ensures Stands(merged[i], Last(current, merged[i].mode), tolerance) {
      var mode := merged[i].mode;
      LastHasItsMode(current, mode);
      if Last(current, mode).Some? {
        var last := Last(current, mode).value;
        BestHasItsMode(existing, current, mode, last.pipeline);
        var before := LastAbsorbed(existing, current, mode);
        forall m | m in BenchmarkMetrics(last.pipeline)
          ensures !Regresses(m, MetricValue(merged[i], m), MetricValue(last, m), tolerance)
        {
          if before.Some? {
            FoldedMetric(before.value, last, BenchmarkMetrics(last.pipeline), m);
          }
          RegressionMeansWorse(m, MetricValue(merged[i], m), MetricValue(last, m), tolerance);
        }
      }
    }
    NoRegressions(merged, current, tolerance);
  }

  // ----- Against the existing reports

  /** The values of a metric in the reports of a mode. */
  function Values(reports: seq<Report>, mode: string, m: Metric): seq<real> {
    if reports == [] then []
    else
      var last := reports[|reports| - 1];
      Values(reports[..|reports| - 1], mode, m) + if last.mode == mode then [MetricValue(last, m)] else []
  }

  lemma AbsorbedValue(best: Report, now: Report, m: Metric)
    requires m in BenchmarkMetrics(now.pipeline)
    ensures MetricValue(Merged(best, now), m) == Better(m)(MetricValue(best, m), MetricValue(now, m))
  {
    FoldedMetric(best, now, BenchmarkMetrics(now.pipeline), m);
  }

  /** The merged value of a metric is the fold of the mode's values. */
  lemma {:induction false} BestValue(existing: seq<Report>, current: seq<Report>, mode: string, pipeline: string,
        m: Metric)
    requires Last(existing, mode).Some? && m in BenchmarkMetrics(pipeline)
    requires forall r | r in current && r.mode == mode :: r.pipeline == pipeline
    ensures var best := BestFor(existing, current, mode);
      && best.Some?
      && MetricValue(best.value, m)
         == Fold(Better(m), MetricValue(Last(existing, mode).value, m), Values(current, mode, m))
  {
    if current != [] {
      var n := |current| - 1;
      assert current[n] in current && forall r | r in current[..n] :: r in current;
      BestValue(existing, current[..n], mode, pipeline, m);
      if current[n].mode == mode {
        AbsorbedValue(BestFor(existing, current[..n], mode).value, current[n], m);
        var v := MetricValue(Last(existing, mode).value, m);
        FoldMore(Better(m), v, Values(current[..n], mode, m), MetricValue(current[n], m));
      } else {
        assert Values(current, mode, m) == Values(current[..n], mode, m);
      }
    }
  }

  /** A value that is not positive, then only values above v: the zero is taken over, and then replaced. */
  ghost predicate ResetAbove(v: real, values: seq<real>) {
    exists j: nat :: IsReset(v, values, j)
  }

  ghost predicate IsReset(v: real, values: seq<real>, j: nat) {
    j + 1 < |values| && values[j] <= 0.0 && forall k | j < k < |values| :: values[k] > v
  }

  /** Where a lower value is better and zero counts as missing. */
  lemma {:induction false} WhenResets(m: Metric, v: real, values: seq<real>)
    requires LowerIsBetter(m) && !ZeroIsValid(m) && v > 0.0
    ensures Fold(Better(m), v, values) <= 0.0 <==> values != [] && values[|values| - 1] <= 0.0
    ensures Fold(Better(m), v, values) > v <==> ResetAbove(v, values)
  {
    if values != [] {
      var n := |values| - 1;
      WhenResets(m, v, values[..n]);
      var f := Fold(Better(m), v, values[..n]);
      if f > 0.0 {
        if j: nat :| IsReset(v, values[..n], j) && values[n] > v {
          assert IsReset(v, values, j);
        }
        if j: nat :| IsReset(v, values, j) {
          assert j < n - 1;
          assert IsReset(v, values[..n], j) by {
            assert forall k | j < k < n :: values[..n][k] == values[k];
          }
        }
      } else {
        assert values[n - 1] <= 0.0;
        if values[n] > v {
          assert IsReset(v, values, n - 1);
        }
      }
    }
  }

  /** For the other metrics the fold only gets better. */
  lemma {:induction false} NeverWorse(m: Metric, v: real, values: seq<real>)
    requires !LowerIsBetter(m) || ZeroIsValid(m)
    ensures NoWorse(m, Fold(Better(m), v, values), v)
  {
    if values != [] {
      NeverWorse(m, v, values[..|values| - 1]);
    }
  }

  /** A metric of a mode that the zero rule lets rise above its baseline. */
  ghost predicate ZeroRuleHits(existing: seq<Report>, current: seq<Report>, mode: string, m: Metric) {
    var before := Last(existing, mode);
    && before.Some? && m in BenchmarkMetrics(before.value.pipeline)
    && LowerIsBetter(m) && !ZeroIsValid(m) && MetricValue(before.value, m) > 0.0
    && ResetAbove(MetricValue(before.value, m), Values(current, mode, m))
  }

  lemma MetricStands(existing: seq<Report>, current: seq<Report>, mode: string, m: Metric, best: Report)
    requires SamePipelines(existing, current) && NonNegative(existing)
    requires Last(existing, mode).Some? && BestFor(existing, current, mode) == Some(best)
    requires m in BenchmarkMetrics(best.pipeline)
    ensures best.pipeline == Last(existing, mode).value.pipeline
    ensures !ZeroRuleHits(existing, current, mode, m) ==>
      (forall t: real :: !Regresses(m, MetricValue(best, m), MetricValue(Last(existing, mode).value, m), t))
    ensures ZeroRuleHits(existing, current, mode, m)
      ==> Regresses(m, MetricValue(best, m), MetricValue(Last(existing, mode).value, m), 0.0)
  {
    var before := Last(existing, mode).value;
    LastHasItsMode(existing, mode);
    BestHasItsMode(existing, current, mode, before.pipeline);
    BestValue(existing, current, mode, before.pipeline, m);
    var v := MetricValue(before, m);
    if LowerIsBetter(m) && !ZeroIsValid(m) {
      if v > 0.0 {
        WhenResets(m, v, Values(current, mode, m));
      }
    } else {
      NeverWorse(m, v, Values(current, mode, m));
    }
    forall t: real | !ZeroRuleHits(existing, current, mode, m) ensures !Regresses(m, MetricValue(best, m), v, t) {
      RegressionMeansWorse(m, MetricValue(best, m), v, t);
    }
    RegressionMeansWorse(m, MetricValue(best, m), v, 0.0);
  }

  /**
    Against the existing reports a merged baseline shows no regression at any tolerance exactly
    when no mode has a latency of zero in one current report and only latencies above the
    existing one in the reports of that mode after it.
   */
  lemma NoRegressionAgainstExisting(merged: seq<Report>, existing: seq<Report>, current: seq<Report>)
    requires HasTheBest(merged, existing, current) && SamePipelines(existing, current) && NonNegative(existing)
    ensures NeverRegresses(merged, existing) <==> NeverHit(existing, current)
  {
    if NeverHit(existing, current) {
      forall tolerance: real ensures Regressions(merged, existing, tolerance) == [] {
        AllStand(merged, existing, current, tolerance);
      }
    } else {
      var mode, m :| ZeroRuleHits(existing, current, mode, m);
      OneFalls(merged, existing, current, mode, m);
    }
  }

  ghost predicate NeverRegresses(merged: seq<Report>, existing: seq<Report>) {
    forall tolerance: real :: Regressions(merged, existing, tolerance) == []
  }

  ghost predicate NeverHit(existing: seq<Report>, current: seq<Report>) {
    forall mode, m :: !ZeroRuleHits(existing, current, mode, m)
  }

  lemma AllStand(merged: seq<Report>, existing: seq<Report>, current: seq<Report>, tolerance: real)
    requires HasTheBest(merged, existing, current) && SamePipelines(existing, current) && NonNegative(existing)
    requires NeverHit(existing, current)
    ensures Regressions(merged, existing, tolerance) == []
  {
    forall i | 0 <= i < |merged| ensures Stands(merged[i], Last(existing, merged[i].mode), tolerance) {
      if Last(existing, merged[i].mode).Some? {
        forall m | m in BenchmarkMetrics(merged[i].pipeline)
          ensures !Regresses(m, MetricValue(merged[i], m), MetricValue(Last(existing, merged[i].mode).value, m), tolerance)
        {
          MetricStands(existing, current, merged[i].mode, m, merged[i]);
        }
      }
    }
    NoRegressions(merged, existing, tolerance);
  }

  lemma OneFalls(merged: seq<Report>, existing: seq<Report>, current: seq<Report>, mode: string, m: Metric)
    requires HasTheBest(merged, existing, current) && SamePipelines(existing, current) && NonNegative(existing)
    requires ZeroRuleHits(existing, current, mode, m)
    ensures Regressions(merged, existing, 0.0) != []
  {
    LastHasItsMode(existing, mode);
    BestHasItsMode(existing, current, mode, Last(existing, mode).value.pipeline);
    assert HasMode(merged, mode);
    var i :| 0 <= i < |merged| && merged[i].mode == mode;
    MetricStands(existing, current, mode, m, merged[i]);
    assert !Stands(merged[i], Last(existing, merged[i].mode), 0.0);
    NoRegressions(merged, existing, 0.0);
  }

  lemma {:induction false} AtMostOneValue(reports: seq<Report>, mode: string, m: Metric)
    requires OnePerMode(reports)
    ensures |Values(reports, mode, m)| <= 1
    ensures !HasMode(reports, mode) ==> Values(reports, mode, m) == []
  {
    if reports != [] {
      var n := |reports| - 1;
      AtMostOneValue(reports[..n], mode, m);
      ModeOfLast(reports, mode);
      if reports[n].mode == mode && HasMode(reports[..n], mode) {
        assert false;
      }
    }
  }

  /** With one report for each mode nothing can regress. */
  lemma OneReportPerMode(merged: seq<Report>, existing: seq<Report>, current: seq<Report>, tolerance: real)
    requires IsMerge(merged, existing, current) && SamePipelines(existing, current)
    requires NonNegative(existing) && NonNegative(current) && OnePerMode(current)
    ensures Regressions(merged, existing, tolerance) == [] && Regressions(merged, current, tolerance) == []
  {
    forall mode, m ensures !ZeroRuleHits(existing, current, mode, m) {
      AtMostOneValue(current, mode, m);
    }
    AllStand(merged, existing, current, tolerance);
    NoRegressionAgainstCurrent(merged, existing, current, tolerance);
  }

  function Measured(latency: real): Report {
    Report("vector", "retrieval", "", 1.0, 1.0, 1.0, 1.0, latency, 5, 0, 0.0, 0.0, 0.0, 0.0, 0.0, 0.0, 0.0, 0, 0)
  }

  lemma LastOfOne(r: Report)
    ensures Last([r], r.mode) == Some(r)
  {
    FoldMore(Replace(r.mode), None, [], r);
    assert [] + [r] == [r];
  }

  lemma ValuesOfTwo(r: Report, s: Report, m: Metric)
    requires r.mode == s.mode
    ensures Values([r, s], r.mode, m) == [MetricValue(r, m), MetricValue(s, m)]
  {
    assert [r, s][..1] == [r] && [r][..0] == [];
    assert Values([r], r.mode, m) == Values([], r.mode, m) + [MetricValue(r, m)];
  }

  lemma ZeroThenWorse(merged: seq<Report>, was: Report, zero: Report, worse: Report)
    requires HasTheBest(merged, [was], [zero, worse]) && NonNegative([was])
    requires was.mode == zero.mode == worse.mode && was.pipeline == zero.pipeline == worse.pipeline
    requires zero.averageLatencyMs <= 0.0 < was.averageLatencyMs < worse.averageLatencyMs
    ensures Regressions(merged, [was], 0.0) != []
  {
    LastOfOne(was);
    ValuesOfTwo(zero, worse, AverageLatencyMs);
    assert IsReset(was.averageLatencyMs, [zero.averageLatencyMs, worse.averageLatencyMs], 0);
    assert BenchmarkMetrics(was.pipeline)[4] == AverageLatencyMs;
    assert ZeroRuleHits([was], [zero, worse], was.mode, AverageLatencyMs);
    OneFalls(merged, [was], [zero, worse], was.mode, AverageLatencyMs);
  }

  /** A run that failed at once, then a slow one, in the same file: the slow one becomes the baseline. */
  lemma RepeatedModeCanRegress(merged: seq<Report>)
    requires IsMerge(merged, [Measured(3.0)], [Measured(0.0), Measured(7.0)])
    ensures Regressions(merged, [Measured(3.0)], 0.0) != []
  {
    ZeroThenWorse(merged, Measured(3.0), Measured(0.0), Measured(7.0));
  }

  // ----- One update of the baseline file after another

  /** Each file is the one before it merged with the reports of one run. */
  ghost predicate Updates(files: seq<seq<Report>>, runs: seq<seq<Report>>)
    decreases |runs|
  {
    && |files| == |runs| + 1
    && (runs != [] ==>
          var n := |runs| - 1;
          IsMerge(files[n + 1], files[n], runs[n]) && Updates(files[..n + 1], runs[..n]))
  }

  function Joined(runs: seq<seq<Report>>): seq<Report> {
    if runs == [] then [] else Joined(runs[..|runs| - 1]) + runs[|runs| - 1]
  }

  lemma LastOfBest(merged: seq<Report>, existing: seq<Report>, current: seq<Report>, mode: string)
    requires HasTheBest(merged, existing, current)
    ensures Last(merged, mode) == BestFor(existing, current, mode)
  {
    LastHasItsMode(merged, mode);
  }

  lemma BestOfTwo(second: seq<Report>, first: seq<Report>, existing: seq<Report>, before: seq<Report>, run: seq<Report>)
    requires HasTheBest(first, existing, before) && IsMerge(second, first, run)
    ensures HasTheBest(second, existing, before + run)
  {
    forall mode ensures BestFor(existing, before + run, mode) == BestFor(first, run, mode) {
      LastOfBest(first, existing, before, mode);
      FoldAppend(Absorb(mode), Last(existing, mode), before, run);
    }
  }

  /** Updating run by run keeps the same reports as merging all runs at once. */
  lemma {:induction false} UpdatesAreOneMerge(files: seq<seq<Report>>, runs: seq<seq<Report>>)
    requires Updates(files, runs) && runs != []
    ensures HasTheBest(files[|runs|], files[0], Joined(runs))
    decreases |runs|
  {
    var n := |runs| - 1;
    if n == 0 {
      assert Joined(runs[..0]) == [] && Joined(runs) == runs[0];
    } else {
      UpdatesAreOneMerge(files[..n + 1], runs[..n]);
      BestOfTwo(files[n + 1], files[n], files[0], Joined(runs[..n]), runs[n]);
    }
  }

  /**
    After any number of updates the baseline file shows no regression against the first one, at
    any tolerance, if and only if no metric of a mode has a reset in the reports of the runs.
   */
  lemma NoRegressionAcrossUpdates(files: seq<seq<Report>>, runs: seq<seq<Report>>)
    requires Updates(files, runs) && runs != []
    requires SamePipelines(files[0], Joined(runs)) && NonNegative(files[0])
    ensures NeverRegresses(files[|runs|], files[0]) <==> NeverHit(files[0], Joined(runs))
  {
    UpdatesAreOneMerge(files, runs);
    NoRegressionAgainstExisting(files[|runs|], files[0], Joined(runs));
  }

  lemma BestOfTwoRuns(first: seq<Report>, second: seq<Report>, existing: seq<Report>, one: Report, other: Report)
    requires IsMerge(first, existing, [one]) && IsMerge(second, first, [other])
    ensures HasTheBest(second, existing, [one, other])
  {
    BestOfTwo(second, first, existing, [one], [other]);
    assert [one] + [other] == [one, other];
  }

  /**
    Latency 3, then a run in which every case failed, which averages to 0, then latency 7, each with
    one report for its mode: the last file regresses against the first.
   */
  lemma AllFailedRunForgets(first: seq<Report>, second: seq<Report>)
    requires IsMerge(first, [Measured(3.0)], [Measured(0.0)]) && IsMerge(second, first, [Measured(7.0)])
    ensures Regressions(second, [Measured(3.0)], 0.0) != []
  {
    BestOfTwoRuns(first, second, [Measured(3.0)], Measured(0.0), Measured(7.0));
    ZeroThenWorse(second, Measured(3.0), Measured(0.0), Measured(7.0));
  }
}
