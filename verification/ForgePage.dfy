/** The statistics of the page of one repository (`GetForge` in internal/controller/forge.go),
    over the reports in the loader's order. */
module ForgePage {
  import opened Types
  import opened Stages
  import opened HeatMap

  datatype ForgeStats = ForgeStats(tests: TestStats, avgCoverage: real, hasCoverage: bool, stageCount: int)

  function Covered(reports: seq<TestReport>): seq<TestReport> {
    if reports == [] then []
    else
      var last := reports[|reports| - 1];
      Covered(reports[..|reports| - 1]) + (if last.coverage.enabled then [last] else [])
  }

  function SumCoverage(reports: seq<TestReport>): real {
    if reports == [] then 0.0
    else SumCoverage(reports[..|reports| - 1]) + reports[|reports| - 1].coverage.percentage
  }

  lemma {:induction false} CoveredAre(reports: seq<TestReport>)
    ensures forall r :: r in Covered(reports) <==> r in reports && r.coverage.enabled
  {
    if reports != [] {
      var n := |reports| - 1;
      CoveredAre(reports[..n]);
      assert reports == reports[..n] + [reports[n]];
    }
  }

  lemma CoveredOneMore(reports: seq<TestReport>, r: TestReport)
    ensures
      var before, after := Covered(reports), Covered(reports + [r]);
      && |after| == |before| + (if r.coverage.enabled then 1 else 0)
      && SumCoverage(after) == SumCoverage(before) + (if r.coverage.enabled then r.coverage.percentage else 0.0)
      && SumStats(reports + [r]) == Plus(SumStats(reports), r.stats)
  {
    assert (reports + [r])[..|reports|] == reports;
    if r.coverage.enabled {
      SumOneMore(Covered(reports), r);
      assert Covered(reports + [r]) == Covered(reports) + [r];
    } else {
      assert Covered(reports + [r]) == Covered(reports);
    }
  }

  lemma SumOneMore(reports: seq<TestReport>, r: TestReport)
    ensures SumCoverage(reports + [r]) == SumCoverage(reports) + r.coverage.percentage
  {
    assert (reports + [r])[..|reports|] == reports;
  }

  /** `x` added up `n` times. */
  function Times(x: real, n: nat): real {
    if n == 0 then 0.0 else Times(x, n - 1) + x
  }

  lemma Distributes(x: real, m: real)
    ensures x * (m + 1.0) == x * m + x
  {
  }

  lemma {:induction false} TimesIs(x: real, n: nat)
    ensures Times(x, n) == x * n as real
  {
    if n > 0 {
      TimesIs(x, n - 1);
      var m := (n - 1) as real;
      assert n as real == m + 1.0;
      Distributes(x, m);
    }
  }

  /** The mean over the reports with coverage, if there are any. */
  ghost predicate Averages(reports: seq<TestReport>, avg: real, has: bool) {
    var covered := Covered(reports);
    && (has <==> covered != [])
    && (has ==> Times(avg, |covered|) == SumCoverage(covered))
    && (!has ==> avg == 0.0)
  }

  method Average(ghost reports: seq<TestReport>, sum: real, count: nat) returns (avg: real, has: bool)
    requires count == |Covered(reports)| && sum == SumCoverage(Covered(reports))
    ensures Averages(reports, avg, has)
  {
    avg, has := 0.0, false;
    if count > 0 {
      avg, has := sum / count as real, true;
      TimesIs(avg, count);
    }
  }

  /** What the loop knows of the reports it has passed. */
  predicate Scanned(reports: seq<TestReport>, tests: TestStats, sum: real, count: int, status: map<string, string>) {
    && tests == SumStats(reports)
    && count == |Covered(reports)| && sum == SumCoverage(Covered(reports))
    && status == FirstStatus(reports)
  }

  lemma ScannedOneMore(reports: seq<TestReport>, tests: TestStats, sum: real, count: int, status: map<string, string>,
                       r: TestReport)
    requires Scanned(reports, tests, sum, count, status)
    ensures Scanned(reports + [r], Plus(tests, r.stats),
                    if r.coverage.enabled then sum + r.coverage.percentage else sum,
                    if r.coverage.enabled then count + 1 else count,
                    if r.stage in status then status else status[r.stage := r.status])
  {
    CoveredOneMore(reports, r);
    FirstStatusAppend(reports, r);
  }

  /** The loop of `GetForge` and the lines after it. */
  method ForgeStatistics(reports: seq<TestReport>) returns (stats: ForgeStats, stageStatus: map<string, string>)
    ensures stats.tests == SumStats(reports)
    ensures Averages(reports, stats.avgCoverage, stats.hasCoverage)
    ensures stageStatus == FirstStatus(reports) && stats.stageCount == |FirstStatus(reports)|
  {
    var tests, coverageSum, coverageCount := NO_STATS, 0.0, 0;
    var stageSet: set<string> := {};
    stageStatus := map[];
    for i := 0 to |reports|
      invariant Scanned(reports[..i], tests, coverageSum, coverageCount, stageStatus) && stageSet == stageStatus.Keys
    {
      var rpt := reports[i];
      assert reports[..i + 1] == reports[..i] + [rpt];
      ScannedOneMore(reports[..i], tests, coverageSum, coverageCount, stageStatus, rpt);
      tests := Plus(tests, rpt.stats);
      stageSet := stageSet + {rpt.stage};
      if rpt.coverage.enabled {
        coverageSum := coverageSum + rpt.coverage.percentage;
        coverageCount := coverageCount + 1;
      }
      if rpt.stage !in stageStatus {
        stageStatus := stageStatus[rpt.stage := rpt.status];
      }
    }
    assert reports[..|reports|] == reports;
    var avg, has := Average(reports, coverageSum, coverageCount);
    stats := ForgeStats(tests, avg, has, |stageSet|);
    assert |stageStatus| == |stageStatus.Keys|;
  }

  lemma MeanOfIsBetween(reports: seq<TestReport>, lo: real, hi: real, avg: real)
    requires reports != [] && forall r <- reports :: lo <= r.coverage.percentage <= hi
    requires Times(avg, |reports|) == SumCoverage(reports)
    ensures lo <= avg <= hi
  {
    SumIsBetween(reports, lo, hi);
    if avg < lo {
      TimesGrows(avg, lo, |reports|);
    } else if avg > hi {
      TimesGrows(hi, avg, |reports|);
    }
  }

  /** The average that the page shows lies between any bounds of the coverages of the reports that
      have one. This is arithmetic over reals: with the rounding of float64 a mean can leave the
      bounds, as that of three times 0.1 does. */
  lemma MeanIsBetween(reports: seq<TestReport>, stats: ForgeStats, lo: real, hi: real)
    requires Averages(reports, stats.avgCoverage, stats.hasCoverage)
    requires forall r <- reports :: r.coverage.enabled ==> lo <= r.coverage.percentage <= hi
    ensures stats.hasCoverage <==> exists r :: r in reports && r.coverage.enabled
    ensures stats.hasCoverage ==> lo <= stats.avgCoverage <= hi
  {
    CoveredAre(reports);
    if stats.hasCoverage {
      assert Covered(reports)[0] in reports;
      MeanOfIsBetween(Covered(reports), lo, hi, stats.avgCoverage);
    }
  }

  lemma {:induction false} TimesGrows(a: real, b: real, n: nat)
    requires a < b && n > 0
    ensures Times(a, n) < Times(b, n)
  {
    if n > 1 { TimesGrows(a, b, n - 1); }
  }

  lemma {:induction false} SumIsBetween(reports: seq<TestReport>, lo: real, hi: real)
    requires forall r <- reports :: lo <= r.coverage.percentage <= hi
    ensures Times(lo, |reports|) <= SumCoverage(reports) <= Times(hi, |reports|)
  {
    if reports != [] { SumIsBetween(reports[..|reports| - 1], lo, hi); }
  }

  /** The number of stages on the page is the number of cards that the renderer shows for it. */
  lemma {:induction false} StageCountIsCardCount(reports: seq<TestReport>)
    ensures |FirstStatus(reports)| == |FirstReports(reports)|
  {
    if reports != [] {
      var n := |reports| - 1;
      var before, last := reports[..n], reports[n];
      StageCountIsCardCount(before);
      FirstStatusAppend(before, last);
      FirstStatusNames(before, last.stage);
      assert reports == before + [last];
    }
  }
}
