/** The test heat map of a workspace: per repository the latest status of each stage, the
    stage names of the columns, and the sums over all reports. The loop is written twice in
    the source, in `enrichWorkspaces` (internal/controller/portfolio.go) and in
    `GetWorkspace` (internal/controller/workspace.go). */
module HeatMap {
  import opened Types
  import opened Stages

  /** What the loop needs of a repository. */
  datatype RepoRef = RepoRef(name: string, path: string, hasForge: bool, repoLink: string)

  type Forge = map<string, ForgeData>

  const NO_STATS: TestStats := TestStats(0, 0, 0, 0)

  function Plus(a: TestStats, b: TestStats): TestStats {
    TestStats(a.total + b.total, a.passed + b.passed, a.failed + b.failed, a.skipped + b.skipped)
  }

  /** The repositories of the heat map: those with a forge.yaml that could be loaded. */
  predicate Loaded(forge: Forge, repo: RepoRef) { repo.hasForge && repo.path in forge }

  // ---- The flat view: all reports, all names, one row per loaded repository ----

  function ReportsOf(forge: Forge, repo: RepoRef): seq<TestReport> {
    if Loaded(forge, repo) then forge[repo.path].reports else []
  }

  function AllReports(forge: Forge, repos: seq<RepoRef>): seq<TestReport> {
    if repos == [] then []
    else AllReports(forge, repos[..|repos| - 1]) + ReportsOf(forge, repos[|repos| - 1])
  }

  function AllStageNames(forge: Forge, repos: seq<RepoRef>): seq<string> {
    if repos == [] then []
    else
      var last := repos[|repos| - 1];
      AllStageNames(forge, repos[..|repos| - 1]) + (if Loaded(forge, last) then StageNames(forge[last.path]) else [])
  }

  function Rows(forge: Forge, repos: seq<RepoRef>): seq<RepoForgeStats> {
    if repos == [] then []
    else
      var last := repos[|repos| - 1];
      Rows(forge, repos[..|repos| - 1]) +
      (if Loaded(forge, last) then [RepoForgeStats(last.name, last.repoLink, FirstStatus(forge[last.path].reports))] else [])
  }

  function SumStats(reports: seq<TestReport>): TestStats {
    if reports == [] then NO_STATS
    else Plus(SumStats(reports[..|reports| - 1]), reports[|reports| - 1].stats)
  }

  lemma {:induction false} SumStatsAppend(a: seq<TestReport>, b: seq<TestReport>)
    ensures SumStats(a + b) == Plus(SumStats(a), SumStats(b))
  {
    if b == [] {
      assert a + b == a;
    } else {
      assert (a + b)[..|a + b| - 1] == a + b[..|b| - 1];
      SumStatsAppend(a, b[..|b| - 1]);
    }
  }

  lemma {:induction false} AllReportsAppend(forge: Forge, a: seq<RepoRef>, b: seq<RepoRef>)
    ensures AllReports(forge, a + b) == AllReports(forge, a) + AllReports(forge, b)
  {
    if b == [] {
      assert a + b == a;
    } else {
      assert (a + b)[..|a + b| - 1] == a + b[..|b| - 1];
      AllReportsAppend(forge, a, b[..|b| - 1]);
    }
  }

  lemma PlusAdds(a: TestStats, b: TestStats)
    ensures Plus(a, b).total == a.total + b.total && Plus(a, b).passed == a.passed + b.passed
    ensures Plus(a, b).failed == a.failed + b.failed && Plus(a, b).skipped == a.skipped + b.skipped
  {
  }

  lemma SumStatsOfOne(r: TestReport)
    ensures SumStats([r]) == r.stats && SumStats([]) == TestStats(0, 0, 0, 0)
  {
    assert [r][..0] == [];
  }

  /** A repository is left out when it has no forge.yaml or that cannot be loaded; otherwise it has one
      row, its reports count, and its stages come from its specification first. */
  lemma HeatMapOfOne(forge: Forge, repo: RepoRef)
    ensures !repo.hasForge || repo.path !in forge ==>
              Rows(forge, [repo]) == [] && AllReports(forge, [repo]) == [] && AllStageNames(forge, [repo]) == []
    ensures repo.hasForge && repo.path in forge ==>
              var data, row := forge[repo.path], Rows(forge, [repo]);
              && |row| == 1 && row[0].repoName == repo.name && row[0].repoLink == repo.repoLink
              && row[0].stageResults == FirstStatus(data.reports)
              && AllReports(forge, [repo]) == data.reports
              && AllStageNames(forge, [repo]) == data.specStages + StageOf(data.reports)
  {
    assert [repo][..0] == [];
    assert Rows(forge, []) == [] && AllReports(forge, []) == [] && AllStageNames(forge, []) == [];
  }

  lemma {:induction false} RowsAppend(forge: Forge, a: seq<RepoRef>, b: seq<RepoRef>)
    ensures Rows(forge, a + b) == Rows(forge, a) + Rows(forge, b)
  {
    if b == [] {
      assert a + b == a;
    } else {
      assert (a + b)[..|a + b| - 1] == a + b[..|b| - 1];
      RowsAppend(forge, a, b[..|b| - 1]);
    }
  }

  lemma {:induction false} StageNamesAppend(forge: Forge, a: seq<RepoRef>, b: seq<RepoRef>)
    ensures AllStageNames(forge, a + b) == AllStageNames(forge, a) + AllStageNames(forge, b)
  {
    if b == [] {
      assert a + b == a;
    } else {
      assert (a + b)[..|a + b| - 1] == a + b[..|b| - 1];
      StageNamesAppend(forge, a, b[..|b| - 1]);
    }
  }

  /** The rows, names and reports of a sequence of repositories are those of its parts, in order. */
  lemma HeatMapOfTwo(forge: Forge, a: seq<RepoRef>, b: seq<RepoRef>)
    ensures Rows(forge, a + b) == Rows(forge, a) + Rows(forge, b)
    ensures AllStageNames(forge, a + b) == AllStageNames(forge, a) + AllStageNames(forge, b)
    ensures AllReports(forge, a + b) == AllReports(forge, a) + AllReports(forge, b)
  {
    RowsAppend(forge, a, b);
    StageNamesAppend(forge, a, b);
    AllReportsAppend(forge, a, b);
  }

  lemma OneMore(forge: Forge, repos: seq<RepoRef>, repo: RepoRef)
    ensures
      var more := repos + [repo];
      if Loaded(forge, repo) then
        var data := forge[repo.path];
        && AllStageNames(forge, more) == AllStageNames(forge, repos) + StageNames(data)
        && Rows(forge, more) == Rows(forge, repos) + [RepoForgeStats(repo.name, repo.repoLink, FirstStatus(data.reports))]
        && SumStats(AllReports(forge, more)) == Plus(SumStats(AllReports(forge, repos)), SumStats(data.reports))
      else
        && AllStageNames(forge, more) == AllStageNames(forge, repos)
        && Rows(forge, more) == Rows(forge, repos)
        && AllReports(forge, more) == AllReports(forge, repos)
  {
    assert (repos + [repo])[..|repos|] == repos;
    if Loaded(forge, repo) {
      SumStatsAppend(AllReports(forge, repos), forge[repo.path].reports);
    }
  }

  // ---- The loops ----

  ghost predicate SameMembers(seen: set<string>, names: seq<string>) {
    forall x :: x in seen <==> x in names
  }

  /** Appends the names not seen yet. */
  method AddStages(names: seq<string>, seen: set<string>, stages: seq<string>, ghost before: seq<string>)
    returns (seen': set<string>, stages': seq<string>)
    requires stages == Dedup(before) && SameMembers(seen, before)
    ensures stages' == Dedup(before + names) && SameMembers(seen', before + names)
  {
    seen', stages' := seen, stages;
    assert before + names[..0] == before;
    for i := 0 to |names|
      invariant stages' == Dedup(before + names[..i])
      invariant SameMembers(seen', before + names[..i])
    {
      assert before + names[..i + 1] == before + names[..i] + [names[i]];
      assert (before + names[..i + 1])[..|before| + i] == before + names[..i];
      if names[i] !in seen' {
        seen' := seen' + {names[i]};
        stages' := stages' + [names[i]];
      }
    }
    assert names[..|names|] == names;
  }

  /** The stages of the specification, then those of the reports. */
  method AddStagesOf(data: ForgeData, seen: set<string>, stages: seq<string>, ghost before: seq<string>)
    returns (seen': set<string>, stages': seq<string>)
    requires stages == Dedup(before) && SameMembers(seen, before)
    ensures stages' == Dedup(before + StageNames(data)) && SameMembers(seen', before + StageNames(data))
  {
    ghost var all := before + StageNames(data);
    assert before + data.specStages + StageOf(data.reports) == all;
    var s, t := AddStages(data.specStages, seen, stages, before);
    seen', stages' := AddStages(StageOf(data.reports), s, t, before + data.specStages);
  }

  lemma StatsOneMore(reports: seq<TestReport>, r: TestReport, before: TestStats)
    ensures Plus(before, SumStats(reports + [r])) == Plus(Plus(before, SumStats(reports)), r.stats)
  {
    assert (reports + [r])[..|reports|] == reports;
  }

  /** First-seen statuses and sums over the reports of one repository. */
  method ScanReports(reports: seq<TestReport>, stats: TestStats) returns (results: map<string, string>, stats': TestStats)
    ensures results == FirstStatus(reports) && stats' == Plus(stats, SumStats(reports))
  {
    results, stats' := map[], stats;
    for i := 0 to |reports|
      invariant results == FirstStatus(reports[..i]) && stats' == Plus(stats, SumStats(reports[..i]))
    {
      var rpt := reports[i];
      assert reports[..i + 1] == reports[..i] + [rpt];
      FirstStatusAppend(reports[..i], rpt);
      StatsOneMore(reports[..i], rpt, stats);
      if rpt.stage !in results {
        results := results[rpt.stage := rpt.status];
      }
      stats' := Plus(stats', rpt.stats);
    }
    assert reports[..|reports|] == reports;
  }

  /** What the loop has made of the repositories it has passed. */
  ghost predicate Built(forge: Forge, repos: seq<RepoRef>, seen: set<string>, stages: seq<string>,
                        rows: seq<RepoForgeStats>, stats: TestStats) {
    && stages == Dedup(AllStageNames(forge, repos)) && SameMembers(seen, AllStageNames(forge, repos))
    && rows == Rows(forge, repos)
    && stats == SumStats(AllReports(forge, repos))
  }

  lemma BuiltSkips(forge: Forge, repos: seq<RepoRef>, seen: set<string>, stages: seq<string>,
                   rows: seq<RepoForgeStats>, stats: TestStats, repo: RepoRef)
    requires Built(forge, repos, seen, stages, rows, stats) && !Loaded(forge, repo)
    ensures Built(forge, repos + [repo], seen, stages, rows, stats)
  {
    OneMore(forge, repos, repo);
  }

  /** The whole loop. Its sums are those over the flat sequence of all reports, its columns
      the names of all stages once each in order of first appearance. */
  method BuildHeatMap(forge: Forge, repos: seq<RepoRef>)
    returns (stages: seq<string>, rows: seq<RepoForgeStats>, stats: TestStats)
    ensures stages == Dedup(AllStageNames(forge, repos))
    ensures rows == Rows(forge, repos)
    ensures stats == SumStats(AllReports(forge, repos))
  {
    var seen: set<string> := {};
    stages, rows, stats := [], [], NO_STATS;
    for i := 0 to |repos|
      invariant Built(forge, repos[..i], seen, stages, rows, stats)
    {
      var repo := repos[i];
      assert repos[..i + 1] == repos[..i] + [repo];
      if !repo.hasForge {
        BuiltSkips(forge, repos[..i], seen, stages, rows, stats, repo);
        continue;
      }
      if repo.path !in forge {
        BuiltSkips(forge, repos[..i], seen, stages, rows, stats, repo);
        continue;
      }
      OneMore(forge, repos[..i], repo);
      var data := forge[repo.path];
      var results;
      results, stats := ScanReports(data.reports, stats);
      seen, stages := AddStagesOf(data, seen, stages, AllStageNames(forge, repos[..i]));
      rows := rows + [RepoForgeStats(repo.name, repo.repoLink, results)];
    }
    assert repos[..|repos|] == repos;
  }

  /** The columns of a heat map are the stages that some specification or report names. */
  lemma {:induction false} ColumnsAreAllStages(forge: Forge, repos: seq<RepoRef>, stage: string)
    ensures stage in Dedup(AllStageNames(forge, repos)) <==>
            exists r :: r in repos && Loaded(forge, r)
                     && (stage in forge[r.path].specStages || HasStage(forge[r.path].reports, stage))
  {
    DedupMembers(AllStageNames(forge, repos), stage);
    if repos != [] {
      var n := |repos| - 1;
      var last := repos[n];
      assert repos == repos[..n] + [last];
      ColumnsAreAllStages(forge, repos[..n], stage);
      DedupMembers(AllStageNames(forge, repos[..n]), stage);
      if Loaded(forge, last) { NamesOfOne(forge[last.path], stage); }
    }
  }

  lemma NamesOfOne(data: ForgeData, stage: string)
    ensures stage in StageNames(data) <==> stage in data.specStages || HasStage(data.reports, stage)
  {
    var names := StageOf(data.reports);
    if stage in names {
      var i :| 0 <= i < |names| && names[i] == stage;
      assert data.reports[i].stage == stage;
    }
    if HasStage(data.reports, stage) {
      var i :| 0 <= i < |data.reports| && data.reports[i].stage == stage;
      assert names[i] == stage;
    }
  }
}
