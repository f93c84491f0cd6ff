/** The pages that list portfolios and the workspaces of one portfolio
    (`ListPortfolios` and `GetPortfolio` in internal/controller/portfolio.go). In every sort mode
    a page is a rearrangement of what discovery found, enriched, and its totals are the
    flat sums over what it shows. */
module PortfolioPages {
  import opened Types
  import opened Cache
  import opened Refresh
  import opened Ordering
  import opened Stages
  import opened HeatMap
  import opened Portfolios

  // ---- Latest commits ----

  function MaxTime(repos: seq<RepoOverview>): Time {
    if repos == [] then 0
    else
      var t := MaxTime(repos[..|repos| - 1]);
      var last := repos[|repos| - 1].lastCommitTime;
      if last > t then last else t
  }

  /** The zero time when there are no repositories, and otherwise the greatest of their times. */
  lemma {:induction false} MaxTimeIsGreatest(repos: seq<RepoOverview>)
    ensures forall r <- repos :: r.lastCommitTime <= MaxTime(repos)
    ensures MaxTime(repos) == 0 || exists r :: r in repos && r.lastCommitTime == MaxTime(repos)
  {
    if repos != [] {
      var n := |repos| - 1;
      MaxTimeIsGreatest(repos[..n]);
      assert repos == repos[..n] + [repos[n]];
      assert repos[n] in repos;
    }
  }

  lemma {:induction false} MaxTimeAppend(a: seq<RepoOverview>, b: seq<RepoOverview>)
    ensures MaxTime(a + b) == if MaxTime(b) > MaxTime(a) then MaxTime(b) else MaxTime(a)
  {
    if b == [] { assert a + b == a; } else { SnocSlice(a, b); MaxTimeAppend(a, b[..|b| - 1]); }
  }

  /** `maxCommitTime`; `maxWorkspaceTime` of internal/controller/renderer.go is the same loop. */
  method MaxCommitTime(repos: seq<RepoOverview>) returns (max: Time)
    ensures max == MaxTime(repos)
  {
    max := 0;
    for i := 0 to |repos|
      invariant max == MaxTime(repos[..i])
    {
      assert repos[..i + 1][..i] == repos[..i];
      if repos[i].lastCommitTime > max {
        max := repos[i].lastCommitTime;
      }
    }
    assert repos[..|repos|] == repos;
  }

  /** `maxPortfolioCommitTime` and `maxPortfolioTime`: the latest over all repositories of all
      workspaces. */
  method MaxPortfolioCommitTime(workspaces: seq<WorkspaceSummary>) returns (max: Time)
    ensures max == MaxTime(AllRepos(workspaces))
  {
    max := 0;
    for i := 0 to |workspaces|
      invariant max == MaxTime(AllRepos(workspaces[..i]))
    {
      assert workspaces[..i + 1][..i] == workspaces[..i];
      MaxTimeAppend(AllRepos(workspaces[..i]), workspaces[i].repos);
      var t := MaxCommitTime(workspaces[i].repos);
      if t > max {
        max := t;
      }
    }
    assert workspaces[..|workspaces|] == workspaces;
  }

  predicate NewerRepo(x: RepoOverview, y: RepoOverview) { x.lastCommitTime > y.lastCommitTime }

  predicate NewerWorkspace(x: WorkspaceSummary, y: WorkspaceSummary) { MaxTime(x.repos) > MaxTime(y.repos) }

  predicate NewerPortfolio(x: PortfolioSummary, y: PortfolioSummary) {
    MaxTime(AllRepos(x.workspaces)) > MaxTime(AllRepos(y.workspaces))
  }

  // ---- Progress of a portfolio ----

  /** Progress fields that agree with the plans they were computed from. */
  predicate ProgressMatches(ws: WorkspaceSummary) {
    var t := SumTasks(StageRepos(ws.metaPlans));
    ws.progress.tasksTotal == t.total && ws.progress.tasksDone == t.done
  }

  function Counters(p: PlanSums): PortfolioProgress {
    PortfolioProgress(p.plans, p.active, p.completed, p.tasks.total, p.tasks.done, 0)
  }

  method CountStatuses(plans: seq<MetaPlan>, active: int, completed: int) returns (active': int, completed': int)
    ensures active' == active + StatusCount(plans, "in_progress")
    ensures completed' == completed + StatusCount(plans, "completed")
  {
    active', completed' := active, completed;
    for i := 0 to |plans|
      invariant active' == active + StatusCount(plans[..i], "in_progress")
      invariant completed' == completed + StatusCount(plans[..i], "completed")
    {
      assert plans[..i + 1][..i] == plans[..i];
      if plans[i].status == "in_progress" {
        active' := active' + 1;
      } else if plans[i].status == "completed" {
        completed' := completed' + 1;
      }
    }
    assert plans[..|plans|] == plans;
  }

  /** `aggregatePortfolioProgress`. */
  method AggregateProgress(workspaces: seq<WorkspaceSummary>) returns (pp: PortfolioProgress)
    requires forall ws <- workspaces :: ProgressMatches(ws)
    ensures pp == ProgressOf(SumPlans(AllPlans(workspaces)))
    ensures var plans := AllPlans(workspaces);
            && pp.totalMetaPlans == |plans|
            && pp.activeMetaPlans == |set i | 0 <= i < |plans| && plans[i].status == "in_progress"|
            && pp.completedMetaPlans == |set i | 0 <= i < |plans| && plans[i].status == "completed"|
            && pp.tasksTotal == SumTasks(StageRepos(plans)).total && pp.tasksDone == SumTasks(StageRepos(plans)).done
            && pp.percentDone == Percent(pp.tasksDone, pp.tasksTotal)
  {
    StatusIsCounted(AllPlans(workspaces), "in_progress");
    StatusIsCounted(AllPlans(workspaces), "completed");
    pp := PortfolioProgress(0, 0, 0, 0, 0, 0);
    for i := 0 to |workspaces|
      invariant pp == Counters(SumPlans(AllPlans(workspaces[..i])))
    {
      var ws := workspaces[i];
      assert workspaces[..i + 1][..i] == workspaces[..i];
      assert ProgressMatches(ws) by { assert ws in workspaces; }
      PlansAppend(AllPlans(workspaces[..i]), ws.metaPlans);
      pp := pp.(totalMetaPlans := pp.totalMetaPlans + |ws.metaPlans|);
      pp := pp.(tasksTotal := pp.tasksTotal + ws.progress.tasksTotal);
      pp := pp.(tasksDone := pp.tasksDone + ws.progress.tasksDone);
      var active, completed := CountStatuses(ws.metaPlans, pp.activeMetaPlans, pp.completedMetaPlans);
      pp := pp.(activeMetaPlans := active, completedMetaPlans := completed);
    }
    assert workspaces[..|workspaces|] == workspaces;
    if pp.tasksTotal > 0 {
      pp := pp.(percentDone := GoDiv(pp.tasksDone * 100, pp.tasksTotal));
    }
  }

  // ---- Preparing the workspaces of one portfolio ----

  /** A workspace as discovery finds it. */
  predicate Found(ws: WorkspaceSummary) {
    && ws.repoCount == |ws.repos|
    && ws.allStages == [] && ws.repoForge == [] && ws.metaPlans == []
    && ws.progress == WorkspaceProgress(0, 0, 0, 0)
  }

  function PreparedAll(env: Env, portfolio: string, wss: seq<WorkspaceSummary>): (r: seq<WorkspaceSummary>)
    ensures |r| == |wss| && forall i :: 0 <= i < |wss| ==> r[i] == Prepared(env, portfolio, wss[i])
  {
    if wss == [] then [] else [Prepared(env, portfolio, wss[0])] + PreparedAll(env, portfolio, wss[1..])
  }

  /** A workspace as the pages show it, field by field: the repositories that were found, in their order,
      each linked and with what the cache knows of it, ... */
  lemma PreparedRepos(env: Env, portfolio: string, ws: WorkspaceSummary, i: nat)
    requires i < |ws.repos|
    ensures var shown := Prepared(env, portfolio, ws);
            && |shown.repos| == |ws.repos|
            && var r, was, key := shown.repos[i], ws.repos[i], portfolio + "/" + ws.name;
            && (r.name, r.workspaceName, r.path, r.hasForge) == (was.name, was.workspaceName, was.path, was.hasForge)
            && r.repoLink == "/portfolios/" + portfolio + "/workspaces/" + ws.name + "/repos/" + was.name
            && if key in env.cache && was.name in env.cache[key].overviews then
                 var o := env.cache[key].overviews[was.name];
                 && (r.branch, r.isDirty, r.ahead, r.behind) == (o.branch, o.isDirty, o.ahead, o.behind)
                 && (r.hasUpstream, r.lastCommitTime) == (o.hasUpstream, o.lastCommitTime)
               else
                 && (r.branch, r.isDirty, r.ahead, r.behind) == (was.branch, was.isDirty, was.ahead, was.behind)
                 && (r.hasUpstream, r.lastCommitTime) == (was.hasUpstream, was.lastCommitTime)
  {
    var linked := Linked(portfolio, ws);
    var enriched := Enriched(env, portfolio, linked);
    PlannedKeepsRepos(env, enriched);
    assert enriched.repos[i] == OverviewFromCache(env.cache, CacheKey(portfolio, ws.name), linked.repos[i]);
  }

  /** ... stages and rows of these, and description, plans and progress from its files. */
  lemma PreparedRest(env: Env, portfolio: string, ws: WorkspaceSummary)
    ensures var shown := Prepared(env, portfolio, ws);
            && shown.name == ws.name && shown.path == ws.path && shown.repoCount == ws.repoCount
            && shown.allStages == ws.allStages + Dedup(AllStageNames(env.forge, Refs(shown.repos)))
            && shown.repoForge == ws.repoForge + Rows(env.forge, Refs(shown.repos))
            && shown.description == (if ws.path in env.workspaceDescriptions && env.workspaceDescriptions[ws.path] != ""
                                     then env.workspaceDescriptions[ws.path] else ws.description)
    ensures var shown := Prepared(env, portfolio, ws);
            if ws.path in env.plans && env.plans[ws.path] != [] then
              var t := SumTasks(StageRepos(env.plans[ws.path]));
              && shown.metaPlans == env.plans[ws.path]
              && shown.progress == WorkspaceProgress(|shown.metaPlans|, t.total, t.done, Percent(t.done, t.total))
            else shown.metaPlans == ws.metaPlans && shown.progress == ws.progress
  {
    PlannedKeepsRepos(env, Enriched(env, portfolio, Linked(portfolio, ws)));
  }

  lemma PlannedKeepsRepos(env: Env, ws: WorkspaceSummary)
    ensures Planned(env, ws).repos == ws.repos && Planned(env, ws).repoCount == ws.repoCount
  {
  }

  lemma PreparedMatches(env: Env, portfolio: string, ws: WorkspaceSummary)
    requires Found(ws)
    ensures ProgressMatches(Prepared(env, portfolio, ws))
    ensures Prepared(env, portfolio, ws).repoCount == |Prepared(env, portfolio, ws).repos|
  {
    var enriched := Enriched(env, portfolio, Linked(portfolio, ws));
    assert enriched.metaPlans == [] && enriched.progress == ws.progress;
    assert |enriched.repos| == |ws.repos| && enriched.repoCount == ws.repoCount;
    PlannedKeepsRepos(env, enriched);
    PlannedMatches(env, enriched);
  }

  lemma PlannedMatches(env: Env, ws: WorkspaceSummary)
    requires ProgressMatches(ws)
    ensures ProgressMatches(Planned(env, ws))
  {
  }

  /** What has been counted does not depend on the plans. */
  lemma {:induction false} CountsIgnorePlans(env: Env, a: seq<WorkspaceSummary>, b: seq<WorkspaceSummary>)
    requires |a| == |b|
    requires forall i :: 0 <= i < |a| ==> b[i].repos == a[i].repos && b[i].repoCount == a[i].repoCount
    ensures SumsOf(env, b).repos == SumsOf(env, a).repos
    ensures SumsOf(env, b).dirty == SumsOf(env, a).dirty
    ensures SumsOf(env, b).tests == SumsOf(env, a).tests
  {
    if a != [] {
      var n := |a| - 1;
      CountsIgnorePlans(env, a[..n], b[..n]);
      SumsUnsnoc(env, a);
      SumsUnsnoc(env, b);
    }
  }

  /** The part that `ListPortfolios` and `GetPortfolio` have in common: links, enrichment, plans
      and statistics, in place over the workspaces of one portfolio. */
  method PrepareWorkspaces(env: Env, portfolio: string, workspaces: array<WorkspaceSummary>)
    returns (stats: WorkspacesStats)
    requires forall i :: 0 <= i < workspaces.Length ==> Found(workspaces[i])
    modifies workspaces
    ensures workspaces[..] == PreparedAll(env, portfolio, old(workspaces[..]))
    ensures stats == Report(SumsOf(env, workspaces[..]))
  {
    RewriteRepoLinks(workspaces, portfolio);
    label linked:
    var repos, dirty, tests := EnrichWorkspaces(env, portfolio, workspaces);
    ghost var enriched := workspaces[..];
    EnrichOrchestration(env, workspaces);
    ghost var shown := workspaces[..];
    forall i | 0 <= i < workspaces.Length
      ensures shown[i].repos == enriched[i].repos && shown[i].repoCount == enriched[i].repoCount
      ensures ProgressMatches(shown[i])
      ensures shown[i] == Prepared(env, portfolio, old(workspaces[i]))
    {
      PlannedKeepsRepos(env, enriched[i]);
      PreparedMatches(env, portfolio, old(workspaces[i]));
    }
    CountsIgnorePlans(env, enriched, shown);
    var progress := AggregateProgress(workspaces[..]);
    PlansAreFlat(env, shown);
    WorkspacesAreCounted(env, shown);
    stats := WorkspacesStats(workspaces.Length, repos, dirty, tests.total, tests.passed, tests.failed, progress);
  }

  lemma {:induction false} WorkspacesAreCounted(env: Env, wss: seq<WorkspaceSummary>)
    ensures SumsOf(env, wss).workspaces == |wss|
  {
    if wss != [] { WorkspacesAreCounted(env, wss[..|wss| - 1]); }
  }

  // ---- Rearrangement ----

  lemma RemoveAt<T>(b: seq<T>, k: nat)
    requires k < |b|
    ensures multiset(b) == multiset(b[..k] + b[k + 1..]) + multiset{b[k]}
  {
    assert b == b[..k] + [b[k]] + b[k + 1..];
  }

  lemma SameRest<T>(a: multiset<T>, b: multiset<T>, x: T)
    requires a + multiset{x} == b + multiset{x}
    ensures a == b
  {
    assert a == a + multiset{x} - multiset{x};
  }

  /** Sums do not depend on the order. */
  lemma {:induction false} TotalPermutes<T>(f: T -> Sums, a: seq<T>, b: seq<T>)
    requires IsPermutation(a, b)
    ensures Total(f, a) == Total(f, b)
  {
    PermutationSize(a, b);
    if a != [] {
      var n := |a| - 1;
      PermutationMembers(a, b);
      assert a[n] in b;
      var k :| 0 <= k < |b| && b[k] == a[n];
      var rest := b[..k] + b[k + 1..];
      RemoveAt(a, n);
      RemoveAt(b, k);
      assert a[..n] + a[n + 1..] == a[..n];
      SameRest(multiset(a[..n]), multiset(rest), a[n]);
      TotalPermutes(f, a[..n], rest);
      TotalWithout(f, b, k);
    }
  }

  lemma SumsCommute(a: Sums, b: Sums, c: Sums)
    ensures PlusSums(PlusSums(a, b), c) == PlusSums(PlusSums(a, c), b)
  {
  }

  lemma {:induction false} TotalWithout<T>(f: T -> Sums, b: seq<T>, k: nat)
    requires k < |b|
    ensures Total(f, b) == PlusSums(Total(f, b[..k] + b[k + 1..]), f(b[k]))
  {
    var n := |b| - 1;
    if k == n {
      assert b[..k] + b[k + 1..] == b[..n];
    } else {
      var shorter := b[..n][..k] + b[..n][k + 1..];
      assert b[..k] + b[k + 1..] == shorter + [b[n]];
      assert (shorter + [b[n]])[..n - 1] == shorter;
      TotalWithout(f, b[..n], k);
      SumsCommute(Total(f, shorter), f(b[k]), f(b[n]));
    }
  }

  /** One repository's share of the sums. */
  function RepoSums(env: Env, r: RepoOverview): Sums {
    NO_SUMS.(repos := 1, dirty := if r.isDirty then 1 else 0, tests := SumStats(ReportsOf(env.forge, Ref(r))))
  }

  function SumRepos(env: Env, repos: seq<RepoOverview>): Sums {
    Total((r: RepoOverview) => RepoSums(env, r), repos)
  }

  lemma TestTotalsOfOne(env: Env, r: RepoOverview)
    ensures TestTotals(env, [r]) == SumStats(ReportsOf(env.forge, Ref(r)))
  {
    assert Refs([r]) == [Ref(r)];
    assert [Ref(r)][..0] == [];
    assert AllReports(env.forge, [Ref(r)]) == [] + ReportsOf(env.forge, Ref(r)) == ReportsOf(env.forge, Ref(r));
  }

  lemma {:induction false} DirtyOfRepos(env: Env, repos: seq<RepoOverview>)
    ensures SumRepos(env, repos).dirty == DirtyCount(repos)
  {
    if repos != [] { DirtyOfRepos(env, repos[..|repos| - 1]); }
  }

  lemma TestTotalsUnsnoc(env: Env, repos: seq<RepoOverview>)
    requires repos != []
    ensures TestTotals(env, repos) ==
            Plus(TestTotals(env, repos[..|repos| - 1]), SumStats(ReportsOf(env.forge, Ref(repos[|repos| - 1]))))
  {
    var n := |repos| - 1;
    assert repos == repos[..n] + [repos[n]];
    TestTotalsAppend(env, repos[..n], [repos[n]]);
    TestTotalsOfOne(env, repos[n]);
  }

  lemma {:induction false} TestsOfRepos(env: Env, repos: seq<RepoOverview>)
    ensures SumRepos(env, repos).tests == TestTotals(env, repos)
  {
    if repos != [] {
      TestsOfRepos(env, repos[..|repos| - 1]);
      TestTotalsUnsnoc(env, repos);
    }
  }

  /** The same workspace with its repositories in another order. */
  ghost predicate RearrangedRepos(a: WorkspaceSummary, b: WorkspaceSummary) {
    b == a.(repos := b.repos) && IsPermutation(b.repos, a.repos)
  }

  /** The same workspaces in another order, each with its repositories in another order. */
  ghost predicate Rearranged(before: seq<WorkspaceSummary>, after: seq<WorkspaceSummary>) {
    exists mid :: RearrangedVia(before, mid, after)
  }

  ghost predicate RearrangedVia(before: seq<WorkspaceSummary>, mid: seq<WorkspaceSummary>, after: seq<WorkspaceSummary>) {
    && |mid| == |before|
    && (forall i :: 0 <= i < |before| ==> RearrangedRepos(before[i], mid[i]))
    && IsPermutation(after, mid)
  }

  lemma RearrangedSums(env: Env, a: WorkspaceSummary, b: WorkspaceSummary)
    requires RearrangedRepos(a, b)
    ensures SumsOfOne(env, a) == SumsOfOne(env, b)
  {
    DirtyOfRepos(env, a.repos);
    DirtyOfRepos(env, b.repos);
    TestsOfRepos(env, a.repos);
    TestsOfRepos(env, b.repos);
    TotalPermutes((r: RepoOverview) => RepoSums(env, r), b.repos, a.repos);
  }

  lemma {:induction false} RearrangedEachSums(env: Env, before: seq<WorkspaceSummary>, mid: seq<WorkspaceSummary>)
    requires |mid| == |before| && forall i :: 0 <= i < |before| ==> RearrangedRepos(before[i], mid[i])
    ensures SumsOf(env, before) == SumsOf(env, mid)
  {
    if before != [] {
      var n := |before| - 1;
      RearrangedEachSums(env, before[..n], mid[..n]);
      RearrangedSums(env, before[n], mid[n]);
      SumsUnsnoc(env, before);
      SumsUnsnoc(env, mid);
    }
  }

  /** Sorting changes no total. */
  lemma RearrangedKeepsSums(env: Env, before: seq<WorkspaceSummary>, after: seq<WorkspaceSummary>)
    requires Rearranged(before, after)
    ensures SumsOf(env, after) == SumsOf(env, before)
  {
    var mid :| RearrangedVia(before, mid, after);
    RearrangedEachSums(env, before, mid);
    TotalPermutes((ws: WorkspaceSummary) => SumsOfOne(env, ws), after, mid);
  }

  // ---- Sorting ----

  method SortReposByTime(repos: seq<RepoOverview>) returns (sorted: seq<RepoOverview>)
    ensures Sorted(sorted, NewerRepo) && IsPermutation(sorted, repos)
  {
    var a := new RepoOverview[|repos|](i requires 0 <= i < |repos| => repos[i]);
    assert a[..] == repos;
    SortSlice(a, NewerRepo);
    sorted := a[..];
  }

  ghost predicate TimeSorted(wss: seq<WorkspaceSummary>) {
    Sorted(wss, NewerWorkspace) && forall ws <- wss :: Sorted(ws.repos, NewerRepo)
  }

  /** The "time" mode within one portfolio: first the repositories of each workspace, then the
      workspaces. */
  method SortByTime(workspaces: array<WorkspaceSummary>)
    modifies workspaces
    ensures Rearranged(old(workspaces[..]), workspaces[..]) && TimeSorted(workspaces[..])
  {
    for j := 0 to workspaces.Length
      invariant forall k :: 0 <= k < j ==> RearrangedRepos(old(workspaces[k]), workspaces[k])
      invariant forall k :: 0 <= k < j ==> Sorted(workspaces[k].repos, NewerRepo)
      invariant forall k :: j <= k < workspaces.Length ==> workspaces[k] == old(workspaces[k])
    {
      var repos := SortReposByTime(workspaces[j].repos);
      workspaces[j] := workspaces[j].(repos := repos);
    }
    ghost var mid := workspaces[..];
    SortSlice(workspaces, NewerWorkspace);
    PermutationMembers(workspaces[..], mid);
    assert RearrangedVia(old(workspaces[..]), mid, workspaces[..]);
  }

  // ---- One portfolio ----

  function Described(env: Env, p: PortfolioSummary): PortfolioSummary {
    if p.path in env.portfolioDescriptions then p.(description := env.portfolioDescriptions[p.path]) else p
  }

  /** `q` is the portfolio `p` as the list of portfolios shows it. */
  ghost predicate ListedAs(env: Env, mode: string, p: PortfolioSummary, q: PortfolioSummary) {
    var prepared := PreparedAll(env, p.name, p.workspaces);
    && q == Described(env, p).(workspaces := q.workspaces, stats := Report(SumsOf(env, prepared)))
    && (if mode == "time" then Rearranged(prepared, q.workspaces) && TimeSorted(q.workspaces)
        else q.workspaces == prepared)
  }

  ghost predicate FoundAll(p: PortfolioSummary) {
    forall ws <- p.workspaces :: Found(ws)
  }

  /** One round of the loop of `ListPortfolios`. */
  method ListOne(env: Env, p: PortfolioSummary, mode: string) returns (q: PortfolioSummary)
    requires FoundAll(p)
    ensures ListedAs(env, mode, p, q)
  {
    q := p;
    if p.path in env.portfolioDescriptions {
      q := q.(description := env.portfolioDescriptions[p.path]);
    }
    var wss := new WorkspaceSummary[|p.workspaces|](i requires 0 <= i < |p.workspaces| => p.workspaces[i]);
    assert wss[..] == p.workspaces;
    var stats := PrepareWorkspaces(env, p.name, wss);
    if mode == "time" {
      SortByTime(wss);
    }
    q := q.(workspaces := wss[..], stats := stats);
  }

  datatype PortfolioPage = PortfolioPage(data: PortfolioSummary, sortMode: string)

  function WorkspaceNameOrder(): (WorkspaceSummary, WorkspaceSummary) -> bool {
    NameOrder((ws: WorkspaceSummary) => ws.name)
  }

  /** `page` is what `GetPortfolio` makes of the portfolio `p` of that name. */
  ghost predicate ShownAs(env: Env, name: string, mode: string, p: PortfolioSummary, page: PortfolioPage) {
    var prepared := PreparedAll(env, name, p.workspaces);
    && page.sortMode == mode
    && page.data == Described(env, p).(workspaces := page.data.workspaces, stats := Report(SumsOf(env, prepared)))
    && (if mode == "time" then Rearranged(prepared, page.data.workspaces) && TimeSorted(page.data.workspaces)
        else IsPermutation(page.data.workspaces, prepared) && Sorted(page.data.workspaces, WorkspaceNameOrder()))
  }

  /** `GetPortfolio`; None stands for an error of discovery. */
  method GetPortfolio(env: Env, found: Option<PortfolioSummary>, name: string, mode: string)
    returns (page: Option<PortfolioPage>)
    requires found.Some? ==> FoundAll(found.value)
    ensures page.Some? <==> found.Some?
    ensures page.Some? ==> ShownAs(env, name, mode, found.value, page.value)
  {
    if found.None? {
      return None;
    }
    var data := found.value;
    if data.path in env.portfolioDescriptions {
      data := data.(description := env.portfolioDescriptions[data.path]);
    }
    var wss := new WorkspaceSummary[|data.workspaces|](i requires 0 <= i < |data.workspaces| => data.workspaces[i]);
    assert wss[..] == data.workspaces == found.value.workspaces;
    var stats := PrepareWorkspaces(env, name, wss);
    if mode == "time" {
      SortByTime(wss);
    } else {
      NamesAreOrdered((ws: WorkspaceSummary) => ws.name);
      SortSlice(wss, WorkspaceNameOrder());
    }
    page := Some(PortfolioPage(data.(workspaces := wss[..], stats := stats), mode));
  }

  // ---- All portfolios ----

  datatype PortfoliosPage = PortfoliosPage(
    portfolios: seq<PortfolioSummary>,
    totalPortfolios: int,
    stats: WorkspacesStats,
    sortMode: string)

  function PreparedSums(env: Env, p: PortfolioSummary): Sums {
    SumsOf(env, PreparedAll(env, p.name, p.workspaces))
  }

  /** The additions of the loop; `PercentDone` is set after it. */
  function AddStats(a: WorkspacesStats, b: WorkspacesStats): WorkspacesStats {
    WorkspacesStats(
      a.totalWorkspaces + b.totalWorkspaces, a.totalRepos + b.totalRepos, a.dirtyRepos + b.dirtyRepos,
      a.totalTests + b.totalTests, a.passed + b.passed, a.failed + b.failed,
      PortfolioProgress(
        a.portfolio.totalMetaPlans + b.portfolio.totalMetaPlans,
        a.portfolio.activeMetaPlans + b.portfolio.activeMetaPlans,
        a.portfolio.completedMetaPlans + b.portfolio.completedMetaPlans,
        a.portfolio.tasksTotal + b.portfolio.tasksTotal,
        a.portfolio.tasksDone + b.portfolio.tasksDone,
        a.portfolio.percentDone))
  }

  function Unfinished(s: Sums): WorkspacesStats {
    WorkspacesStats(s.workspaces, s.repos, s.dirty, s.tests.total, s.tests.passed, s.tests.failed, Counters(s.plans))
  }

  lemma AddingStats(a: Sums, b: Sums)
    ensures AddStats(Unfinished(a), Report(b)) == Unfinished(PlusSums(a, b))
  {
  }

  function PortfolioNameOrder(): (PortfolioSummary, PortfolioSummary) -> bool {
    NameOrder((p: PortfolioSummary) => p.name)
  }

  /** The portfolios of the page are those found, each as `ListedAs` says, in the order of the
      sort mode. */
  ghost predicate Lists(env: Env, mode: string, found: seq<PortfolioSummary>, shown: seq<PortfolioSummary>) {
    && (exists mid :: ListsVia(env, mode, found, mid, shown))
    && (if mode == "time" then Sorted(shown, NewerPortfolio) else Sorted(shown, PortfolioNameOrder()))
  }

  ghost predicate ListsVia(env: Env, mode: string, found: seq<PortfolioSummary>, mid: seq<PortfolioSummary>,
                           shown: seq<PortfolioSummary>) {
    && |mid| == |found|
    && (forall i :: 0 <= i < |found| ==> ListedAs(env, mode, found[i], mid[i]))
    && IsPermutation(shown, mid)
  }

  function TotalOf(env: Env, found: seq<PortfolioSummary>): Sums {
    Total((p: PortfolioSummary) => PreparedSums(env, p), found)
  }

  lemma TotalOfMore(env: Env, found: seq<PortfolioSummary>, i: nat)
    requires i < |found|
    ensures TotalOf(env, found[..i + 1]) == PlusSums(TotalOf(env, found[..i]), PreparedSums(env, found[i]))
  {
    assert found[..i + 1][..i] == found[..i];
  }

  lemma AddingOne(env: Env, mode: string, found: seq<PortfolioSummary>, i: nat, stats: WorkspacesStats,
                  q: PortfolioSummary)
    requires i < |found| && stats == Unfinished(TotalOf(env, found[..i])) && ListedAs(env, mode, found[i], q)
    ensures AddStats(stats, q.stats) == Unfinished(TotalOf(env, found[..i + 1]))
  {
    TotalOfMore(env, found, i);
    AddingStats(TotalOf(env, found[..i]), PreparedSums(env, found[i]));
  }

  /** The first `i` portfolios are done. */
  ghost predicate ListedUpTo(env: Env, mode: string, found: seq<PortfolioSummary>, now: seq<PortfolioSummary>, i: nat) {
    && i <= |found| == |now|
    && (forall k :: 0 <= k < i ==> ListedAs(env, mode, found[k], now[k]))
    && (forall k :: i <= k < |found| ==> now[k] == found[k])
  }

  lemma ListedOneMore(env: Env, mode: string, found: seq<PortfolioSummary>, now: seq<PortfolioSummary>, i: nat,
                      q: PortfolioSummary)
    requires ListedUpTo(env, mode, found, now, i) && i < |found| && ListedAs(env, mode, found[i], q)
    ensures ListedUpTo(env, mode, found, now[i := q], i + 1)
  {
  }

  /** The loop of `ListPortfolios`. */
  method ListEach(env: Env, portfolios: array<PortfolioSummary>, mode: string) returns (stats: WorkspacesStats)
    requires forall i :: 0 <= i < portfolios.Length ==> FoundAll(portfolios[i])
    modifies portfolios
    ensures ListedUpTo(env, mode, old(portfolios[..]), portfolios[..], portfolios.Length)
    ensures stats == Unfinished(TotalOf(env, old(portfolios[..])))
  {
    ghost var found := portfolios[..];
    stats := WorkspacesStats(0, 0, 0, 0, 0, 0, PortfolioProgress(0, 0, 0, 0, 0, 0));
    for i := 0 to portfolios.Length
      invariant ListedUpTo(env, mode, found, portfolios[..], i)
      invariant stats == Unfinished(TotalOf(env, found[..i]))
    {
      var q := ListOne(env, portfolios[i], mode);
      AddingOne(env, mode, found, i, stats, q);
      stats := AddStats(stats, q.stats);
      ListedOneMore(env, mode, found, portfolios[..], i, q);
      ghost var now := portfolios[..];
      portfolios[i] := q;
      assert portfolios[..] == now[i := q];
    }
    assert found[..portfolios.Length] == found;
  }

  /** `ListPortfolios`; None stands for an error of discovery. */
  method ListPortfolios(env: Env, found: Option<seq<PortfolioSummary>>, mode: string)
    returns (page: Option<PortfoliosPage>)
    requires found.Some? ==> forall p <- found.value :: FoundAll(p)
    ensures page.Some? <==> found.Some?
    ensures page.Some? ==>
              && page.value.sortMode == mode
              && page.value.totalPortfolios == |found.value|
              && page.value.stats == Report(TotalOf(env, found.value))
              && Lists(env, mode, found.value, page.value.portfolios)
  {
    if found.None? {
      return None;
    }
    var portfolios := new PortfolioSummary[|found.value|](i requires 0 <= i < |found.value| => found.value[i]);
    assert portfolios[..] == found.value;
    var stats := ListEach(env, portfolios, mode);
    ghost var mid := portfolios[..];
    if mode == "time" {
      SortSlice(portfolios, NewerPortfolio);
    } else {
      NamesAreOrdered((p: PortfolioSummary) => p.name);
      SortSlice(portfolios, PortfolioNameOrder());
    }
    assert ListsVia(env, mode, found.value, mid, portfolios[..]);
    if stats.portfolio.tasksTotal > 0 {
      stats := stats.(portfolio :=
        stats.portfolio.(percentDone := GoDiv(stats.portfolio.tasksDone * 100, stats.portfolio.tasksTotal)));
    }
    page := Some(PortfoliosPage(portfolios[..], portfolios.Length, stats, mode));
  }

  // ---- Totals and order ----

  function AllWorkspaces(ps: seq<PortfolioSummary>): seq<WorkspaceSummary> {
    if ps == [] then [] else AllWorkspaces(ps[..|ps| - 1]) + ps[|ps| - 1].workspaces
  }

  lemma {:induction false} TotalOfPortfolios(env: Env, ps: seq<PortfolioSummary>)
    ensures SumsOf(env, AllWorkspaces(ps)) == Total((p: PortfolioSummary) => SumsOf(env, p.workspaces), ps)
  {
    if ps != [] {
      var n := |ps| - 1;
      TotalOfPortfolios(env, ps[..n]);
      TotalAppend((ws: WorkspaceSummary) => SumsOfOne(env, ws), AllWorkspaces(ps[..n]), ps[n].workspaces);
    }
  }

  lemma ListedSums(env: Env, mode: string, p: PortfolioSummary, q: PortfolioSummary)
    requires ListedAs(env, mode, p, q)
    ensures SumsOf(env, q.workspaces) == PreparedSums(env, p)
    ensures q.stats == Report(SumsOf(env, q.workspaces))
  {
    if mode == "time" {
      RearrangedKeepsSums(env, PreparedAll(env, p.name, p.workspaces), q.workspaces);
    }
  }

  lemma {:induction false} ListedTotal(env: Env, mode: string, found: seq<PortfolioSummary>, mid: seq<PortfolioSummary>)
    requires |mid| == |found| && forall i :: 0 <= i < |found| ==> ListedAs(env, mode, found[i], mid[i])
    ensures Total((p: PortfolioSummary) => SumsOf(env, p.workspaces), mid) == TotalOf(env, found)
  {
    if found != [] {
      var n := |found| - 1;
      ListedTotal(env, mode, found[..n], mid[..n]);
      ListedSums(env, mode, found[n], mid[n]);
    }
  }

  /** In either mode the totals of the page are the flat sums over all the workspaces that the
      page shows, and those of each portfolio the sums over its own. */
  lemma TotalsDescribeThePage(env: Env, mode: string, found: seq<PortfolioSummary>, shown: seq<PortfolioSummary>)
    requires Lists(env, mode, found, shown)
    ensures Report(TotalOf(env, found)) == Report(SumsOf(env, AllWorkspaces(shown)))
    ensures forall q <- shown :: q.stats == Report(SumsOf(env, q.workspaces))
  {
    var mid :| ListsVia(env, mode, found, mid, shown);
    ListedTotal(env, mode, found, mid);
    TotalPermutes((p: PortfolioSummary) => SumsOf(env, p.workspaces), shown, mid);
    TotalOfPortfolios(env, shown);
    PermutationMembers(shown, mid);
    forall q | q in shown ensures q.stats == Report(SumsOf(env, q.workspaces)) {
      var i :| 0 <= i < |mid| && mid[i] == q;
      ListedSums(env, mode, found[i], q);
    }
  }

  predicate Counts(ws: WorkspaceSummary) { ws.repoCount == |ws.repos| }

  lemma RearrangedCounts(before: seq<WorkspaceSummary>, after: seq<WorkspaceSummary>)
    requires Rearranged(before, after) && forall ws <- before :: Counts(ws)
    ensures forall ws <- after :: Counts(ws)
  {
    var mid: seq<WorkspaceSummary> :| RearrangedVia(before, mid, after);
    PermutationMembers(after, mid);
    forall ws | ws in after ensures Counts(ws) {
      var i :| 0 <= i < |mid| && mid[i] == ws;
      assert RearrangedRepos(before[i], mid[i]) && Counts(before[i]);
      PermutationSize(mid[i].repos, before[i].repos);
    }
  }

  lemma ListedCounts(env: Env, mode: string, p: PortfolioSummary, q: PortfolioSummary)
    requires FoundAll(p) && ListedAs(env, mode, p, q)
    ensures forall ws <- q.workspaces :: Counts(ws)
  {
    var prepared := PreparedAll(env, p.name, p.workspaces);
    forall ws | ws in prepared ensures Counts(ws) {
      var i :| 0 <= i < |prepared| && prepared[i] == ws;
      PreparedMatches(env, p.name, p.workspaces[i]);
    }
    if mode == "time" { RearrangedCounts(prepared, q.workspaces); }
  }

  lemma {:induction false} AllCount(ps: seq<PortfolioSummary>)
    requires forall p <- ps, ws <- p.workspaces :: Counts(ws)
    ensures forall ws <- AllWorkspaces(ps) :: Counts(ws)
  {
    if ps != [] {
      AllCount(ps[..|ps| - 1]);
      assert ps[|ps| - 1] in ps;
    }
  }

  /** The totals of the page, spelled out over flat sequences: all workspaces it shows, all their
      repositories, all the reports of these, and all plans with all their stages. */
  lemma PageTotalsAreFlat(env: Env, mode: string, found: seq<PortfolioSummary>, shown: seq<PortfolioSummary>)
    requires Lists(env, mode, found, shown) && forall p <- found :: FoundAll(p)
    ensures
      var stats, wss := Report(TotalOf(env, found)), AllWorkspaces(shown);
      var tests := SumStats(AllReports(env.forge, Refs(AllRepos(wss))));
      && stats.totalWorkspaces == |wss|
      && stats.totalRepos == |AllRepos(wss)|
      && stats.dirtyRepos == |set i | 0 <= i < |AllRepos(wss)| && AllRepos(wss)[i].isDirty|
      && (stats.totalTests, stats.passed, stats.failed) == (tests.total, tests.passed, tests.failed)
      && var p, plans := stats.portfolio, AllPlans(wss);
      && p.totalMetaPlans == |plans|
      && p.activeMetaPlans == |set i | 0 <= i < |plans| && plans[i].status == "in_progress"|
      && p.completedMetaPlans == |set i | 0 <= i < |plans| && plans[i].status == "completed"|
      && p.tasksTotal == SumTasks(StageRepos(plans)).total && p.tasksDone == SumTasks(StageRepos(plans)).done
      && p.percentDone == Percent(p.tasksDone, p.tasksTotal)
  {
    DirtyIsCounted(AllRepos(AllWorkspaces(shown)));
    StatusIsCounted(AllPlans(AllWorkspaces(shown)), "in_progress");
    StatusIsCounted(AllPlans(AllWorkspaces(shown)), "completed");
    TotalsDescribeThePage(env, mode, found, shown);
    var mid :| ListsVia(env, mode, found, mid, shown);
    PermutationMembers(shown, mid);
    forall p, ws | p in shown && ws in p.workspaces ensures Counts(ws) {
      var i :| 0 <= i < |mid| && mid[i] == p;
      assert found[i] in found;
      ListedCounts(env, mode, found[i], p);
    }
    AllCount(shown);
    SumsAreFlat(env, AllWorkspaces(shown));
  }

  /** In "time" mode the page is sorted by latest commit on all three levels. */
  lemma TimeModeSortsThreeLevels(env: Env, mode: string, found: seq<PortfolioSummary>, shown: seq<PortfolioSummary>)
    requires mode == "time" && Lists(env, mode, found, shown)
    ensures forall i, j :: 0 <= i < j < |shown| ==>
              MaxTime(AllRepos(shown[i].workspaces)) >= MaxTime(AllRepos(shown[j].workspaces))
    ensures forall p, i, j :: p in shown && 0 <= i < j < |p.workspaces| ==>
              MaxTime(p.workspaces[i].repos) >= MaxTime(p.workspaces[j].repos)
    ensures forall p, ws, i, j :: p in shown && ws in p.workspaces && 0 <= i < j < |ws.repos| ==>
              ws.repos[i].lastCommitTime >= ws.repos[j].lastCommitTime
  {
    var mid :| ListsVia(env, mode, found, mid, shown);
    PermutationMembers(shown, mid);
    forall p | p in shown ensures TimeSorted(p.workspaces) {
      var i :| 0 <= i < |mid| && mid[i] == p;
      assert ListedAs(env, mode, found[i], p);
    }
  }

  /** In every other mode portfolios are sorted by name, and their workspaces and repositories in the
      order in which they were found. */
  lemma OtherModesSortByName(env: Env, mode: string, found: seq<PortfolioSummary>, shown: seq<PortfolioSummary>)
    requires mode != "time" && Lists(env, mode, found, shown)
    ensures forall i, j :: 0 <= i < j < |shown| ==> !StringLess(shown[j].name, shown[i].name)
    ensures forall q :: q in shown ==>
              exists p :: p in found && p.name == q.name && q.workspaces == PreparedAll(env, p.name, p.workspaces)
  {
    forall i, j | 0 <= i < j < |shown| ensures !StringLess(shown[j].name, shown[i].name) {
      assert !PortfolioNameOrder()(shown[j], shown[i]);
    }
    var mid :| ListsVia(env, mode, found, mid, shown);
    PermutationMembers(shown, mid);
    forall q | q in shown
      ensures exists p :: p in found && p.name == q.name && q.workspaces == PreparedAll(env, p.name, p.workspaces)
    {
      var i :| 0 <= i < |mid| && mid[i] == q;
      assert ListedAs(env, mode, found[i], q) && found[i] in found;
    }
  }

  /** The portfolios of the page are those found, each under its name and path, with its description and
      its own totals. */
  lemma PortfoliosAreThoseFound(env: Env, mode: string, found: seq<PortfolioSummary>, shown: seq<PortfolioSummary>,
                                k: nat) returns (p: PortfolioSummary)
    requires Lists(env, mode, found, shown) && k < |shown|
    ensures |shown| == |found| && p in found
    ensures shown[k].name == p.name && shown[k].path == p.path && shown[k].isDefault == p.isDefault
    ensures shown[k].description == (if p.path in env.portfolioDescriptions then env.portfolioDescriptions[p.path]
                                     else p.description)
    ensures shown[k].stats.totalWorkspaces == |shown[k].workspaces|
  {
    var mid: seq<PortfolioSummary> :| ListsVia(env, mode, found, mid, shown);
    PermutationSize(shown, mid);
    PermutationMembers(shown, mid);
    assert shown[k] in mid;
    var i :| 0 <= i < |mid| && mid[i] == shown[k];
    p := found[i];
    ListedSums(env, mode, p, shown[k]);
    WorkspacesAreCounted(env, shown[k].workspaces);
  }

  /** The page of one portfolio, under its name and path, in the order of the mode. */
  lemma PortfolioPageIsSorted(env: Env, name: string, mode: string, p: PortfolioSummary, page: PortfolioPage)
    requires ShownAs(env, name, mode, p, page)
    ensures page.data.name == p.name && page.data.path == p.path && page.data.isDefault == p.isDefault
    ensures page.data.description == (if p.path in env.portfolioDescriptions then env.portfolioDescriptions[p.path]
                                      else p.description)
    ensures mode != "time" ==> forall i, j :: 0 <= i < j < |page.data.workspaces| ==>
              !StringLess(page.data.workspaces[j].name, page.data.workspaces[i].name)
    ensures mode == "time" ==>
              && (forall i, j :: 0 <= i < j < |page.data.workspaces| ==>
                    MaxTime(page.data.workspaces[i].repos) >= MaxTime(page.data.workspaces[j].repos))
              && (forall ws, i, j :: ws in page.data.workspaces && 0 <= i < j < |ws.repos| ==>
                    ws.repos[i].lastCommitTime >= ws.repos[j].lastCommitTime)
  {
    var wss := page.data.workspaces;
    forall i, j | mode != "time" && 0 <= i < j < |wss| ensures !StringLess(wss[j].name, wss[i].name) {
      assert !WorkspaceNameOrder()(wss[j], wss[i]);
    }
  }
}
