/** The page data of the dashboard (internal/types/types.go), as far as the modelled code
    reads or writes it. */
module Types {

  /** Wall-clock instants; 0 is Go's zero time, the least of them. */
  type Time = nat

  datatype Option<+T> = None | Some(value: T)

  datatype StatusEntry = StatusEntry(code: string, filePath: string)

  datatype LogEntry = LogEntry(hash: string, message: string)

  datatype RepoSummary = RepoSummary(
    name: string,
    path: string,
    branch: string,
    isDirty: bool,
    statusFiles: seq<StatusEntry>,
    diffStat: string,
    recentLogs: seq<LogEntry>,
    hasForge: bool,
    repoLink: string,
    ahead: int,
    behind: int,
    hasUpstream: bool,
    lastCommitTime: Time)

  datatype RepoOverview = RepoOverview(
    name: string,
    workspaceName: string,
    path: string,
    branch: string,
    isDirty: bool,
    ahead: int,
    behind: int,
    hasUpstream: bool,
    hasForge: bool,
    repoLink: string,
    lastCommitTime: Time)

  datatype TestStats = TestStats(total: int, passed: int, failed: int, skipped: int)

  /** Percentages are reals: rounding is not modelled. */
  datatype Coverage = Coverage(enabled: bool, percentage: real, filePath: string)

  datatype TestReport = TestReport(
    id: string,
    stage: string,
    status: string,
    startTime: Time,
    duration: real,
    stats: TestStats,
    coverage: Coverage,
    errorMessage: string)

  /** What the forge loader gives for a repository: the stages of its specification and its
      reports. */
  datatype ForgeData = ForgeData(specStages: seq<string>, reports: seq<TestReport>)

  datatype RepoForgeStats = RepoForgeStats(repoName: string, repoLink: string, stageResults: map<string, string>)

  datatype StageRepo = StageRepo(name: string, plan: string, tasksTotal: int, tasksDone: int)

  datatype MetaPlanStage = MetaPlanStage(name: string, status: string, repos: seq<StageRepo>)

  datatype MetaPlan = MetaPlan(name: string, description: string, status: string, stages: seq<MetaPlanStage>)

  datatype WorkspaceProgress = WorkspaceProgress(metaPlanCount: int, tasksTotal: int, tasksDone: int, percentDone: int)

  datatype PortfolioProgress = PortfolioProgress(
    totalMetaPlans: int,
    activeMetaPlans: int,
    completedMetaPlans: int,
    tasksTotal: int,
    tasksDone: int,
    percentDone: int)

  datatype WorkspaceSummary = WorkspaceSummary(
    name: string,
    path: string,
    repoCount: int,
    repos: seq<RepoOverview>,
    allStages: seq<string>,
    repoForge: seq<RepoForgeStats>,
    description: string,
    metaPlans: seq<MetaPlan>,
    progress: WorkspaceProgress)

  datatype WorkspacesStats = WorkspacesStats(
    totalWorkspaces: int,
    totalRepos: int,
    dirtyRepos: int,
    totalTests: int,
    passed: int,
    failed: int,
    portfolio: PortfolioProgress)

  datatype PortfolioSummary = PortfolioSummary(
    name: string,
    path: string,
    isDefault: bool,
    workspaces: seq<WorkspaceSummary>,
    stats: WorkspacesStats,
    description: string)

  /** filepath.Join of a clean directory and the name of an entry in it. */
  function Join(dir: string, name: string): string { dir + "/" + name }
}
