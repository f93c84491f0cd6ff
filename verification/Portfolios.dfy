/** The portfolio pages (internal/controller/portfolio.go): every workspace is enriched from
    the cache, the forge files and the plans, totals are accumulated in nested loops, and
    everything is sorted. The totals are shown to be folds over flat sequences of all
    repositories, reports and plan stages; the sorting to be a permutation, sorted on
    all three levels. */
module Portfolios {
  import opened Types
  import opened Cache
  import opened Refresh
  import opened Ordering
  import opened Stages
  import opened HeatMap

  /** The files that are read, by path (a missing key is a failing load), and the cache. */
  datatype Env = Env(
    cache: Contents,
    forge: Forge,
    workspaceDescriptions: map<string, string>,
    plans: map<string, seq<MetaPlan>>,
    portfolioDescriptions: map<string, string>)

  // ---- One workspace ----

  function RepoLink(portfolio: string, workspace: string, repo: string): string {
    "/portfolios/" + portfolio + "/workspaces/" + workspace + "/repos/" + repo
  }

  function MapSeq<T, U>(f: T -> U, xs: seq<T>): (r: seq<U>)
    ensures |r| == |xs| && forall i :: 0 <= i < |xs| ==> r[i] == f(xs[i])
  {
    seq(|xs|, i requires 0 <= i < |xs| => f(xs[i]))
  }

  function Linked(portfolio: string, ws: WorkspaceSummary): WorkspaceSummary {
    ws.(repos := MapSeq((r: RepoOverview) => r.(repoLink := RepoLink(portfolio, ws.name, r.name)), ws.repos))
  }

  function CachedRepos(env: Env, key: string, repos: seq<RepoOverview>): seq<RepoOverview> {
    MapSeq((r: RepoOverview) => OverviewFromCache(env.cache, key, r), repos)
  }

  function Ref(r: RepoOverview): RepoRef { RepoRef(r.name, r.path, r.hasForge, r.repoLink) }

  function Refs(repos: seq<RepoOverview>): (r: seq<RepoRef>)
    ensures |r| == |repos|
    ensures forall i :: 0 <= i < |repos| ==>
              r[i] == RepoRef(repos[i].name, repos[i].path, repos[i].hasForge, repos[i].repoLink)
  {
    if repos == [] then [] else [Ref(repos[0])] + Refs(repos[1..])
  }

  function Enriched(env: Env, portfolio: string, ws: WorkspaceSummary): WorkspaceSummary {
    var repos := CachedRepos(env, CacheKey(portfolio, ws.name), ws.repos);
    ws.(repos := repos,
        allStages := ws.allStages + Dedup(AllStageNames(env.forge, Refs(repos))),
        repoForge := ws.repoForge + Rows(env.forge, Refs(repos)))
  }

  /** Go's integer division truncates toward zero. */
  function GoDiv(a: int, b: int): int
    requires b > 0
  {
    if a >= 0 then a / b else -((-a) / b)
  }

  function Percent(done: int, total: int): int {
    if total > 0 then GoDiv(done * 100, total) else 0
  }

  function StageRepos(plans: seq<MetaPlan>): seq<StageRepo> {
    if plans == [] then [] else StageRepos(plans[..|plans| - 1]) + ReposOfStages(plans[|plans| - 1].stages)
  }

  function ReposOfStages(stages: seq<MetaPlanStage>): seq<StageRepo> {
    if stages == [] then [] else ReposOfStages(stages[..|stages| - 1]) + stages[|stages| - 1].repos
  }

  datatype Tasks = Tasks(total: int, done: int)

  function SumTasks(repos: seq<StageRepo>): Tasks {
    if repos == [] then Tasks(0, 0)
    else
      var t := SumTasks(repos[..|repos| - 1]);
      var last := repos[|repos| - 1];
      Tasks(t.total + last.tasksTotal, t.done + last.tasksDone)
  }

  function Planned(env: Env, ws: WorkspaceSummary): WorkspaceSummary {
    var described := if ws.path in env.workspaceDescriptions && env.workspaceDescriptions[ws.path] != ""
                     then ws.(description := env.workspaceDescriptions[ws.path]) else ws;
    if ws.path in env.plans && env.plans[ws.path] != [] then
      var plans := env.plans[ws.path];
      var t := SumTasks(StageRepos(plans));
      described.(metaPlans := plans, progress := WorkspaceProgress(|plans|, t.total, t.done, Percent(t.done, t.total)))
    else described
  }

  /** A discovered workspace as it appears on the pages. */
  function Prepared(env: Env, portfolio: string, ws: WorkspaceSummary): WorkspaceSummary {
    Planned(env, Enriched(env, portfolio, Linked(portfolio, ws)))
  }

  // ---- Flat totals ----

  function AllRepos(wss: seq<WorkspaceSummary>): seq<RepoOverview> {
    if wss == [] then [] else AllRepos(wss[..|wss| - 1]) + wss[|wss| - 1].repos
  }

  function AllPlans(wss: seq<WorkspaceSummary>): seq<MetaPlan> {
    if wss == [] then [] else AllPlans(wss[..|wss| - 1]) + wss[|wss| - 1].metaPlans
  }

  function DirtyCount(repos: seq<RepoOverview>): int {
    if repos == [] then 0 else DirtyCount(repos[..|repos| - 1]) + (if repos[|repos| - 1].isDirty then 1 else 0)
  }

  function StatusCount(plans: seq<MetaPlan>, status: string): int {
    if plans == [] then 0
    else StatusCount(plans[..|plans| - 1], status) + (if plans[|plans| - 1].status == status then 1 else 0)
  }

  /** How many plans there are, in progress and completed, and their tasks. */
  datatype PlanSums = PlanSums(plans: int, active: int, completed: int, tasks: Tasks)

  function SumPlans(plans: seq<MetaPlan>): PlanSums {
    PlanSums(|plans|, StatusCount(plans, "in_progress"), StatusCount(plans, "completed"), SumTasks(StageRepos(plans)))
  }

  function TestTotals(env: Env, repos: seq<RepoOverview>): TestStats {
    SumStats(AllReports(env.forge, Refs(repos)))
  }

  datatype Sums = Sums(workspaces: int, repos: int, dirty: int, tests: TestStats, plans: PlanSums)

  function SumsOfOne(env: Env, ws: WorkspaceSummary): Sums {
    Sums(1, ws.repoCount, DirtyCount(ws.repos), TestTotals(env, ws.repos), SumPlans(ws.metaPlans))
  }

  function PlusPlans(a: PlanSums, b: PlanSums): PlanSums {
    PlanSums(a.plans + b.plans, a.active + b.active, a.completed + b.completed,
             Tasks(a.tasks.total + b.tasks.total, a.tasks.done + b.tasks.done))
  }

  function PlusSums(a: Sums, b: Sums): Sums {
    Sums(a.workspaces + b.workspaces, a.repos + b.repos, a.dirty + b.dirty, Plus(a.tests, b.tests), PlusPlans(a.plans, b.plans))
  }

  const NO_SUMS: Sums := Sums(0, 0, 0, NO_STATS, PlanSums(0, 0, 0, Tasks(0, 0)))

  function Total<T>(f: T -> Sums, xs: seq<T>): Sums {
    if xs == [] then NO_SUMS else PlusSums(Total(f, xs[..|xs| - 1]), f(xs[|xs| - 1]))
  }

  /** Summed workspace by workspace; `SumsAreFlat` says what this comes to. */
  function SumsOf(env: Env, wss: seq<WorkspaceSummary>): Sums {
    Total((ws: WorkspaceSummary) => SumsOfOne(env, ws), wss)
  }

  function ProgressOf(p: PlanSums): PortfolioProgress {
    PortfolioProgress(p.plans, p.active, p.completed, p.tasks.total, p.tasks.done, Percent(p.tasks.done, p.tasks.total))
  }

  /** Sums as the pages report them. */
  function Report(s: Sums): WorkspacesStats {
    WorkspacesStats(s.workspaces, s.repos, s.dirty, s.tests.total, s.tests.passed, s.tests.failed, ProgressOf(s.plans))
  }

  // ---- What the pieces say ----

  /** The link of a repository names its portfolio, its workspace and itself, and nothing else. */
  lemma LinkNames(p: string, w: string, r: string, p': string, w': string, r': string)
    requires '/' !in p && '/' !in p' && '/' !in w && '/' !in w'
    ensures RepoLink(p, w, r) == "/portfolios/" + p + "/workspaces/" + w + "/repos/" + r
    ensures RepoLink(p, w, r) == RepoLink(p', w', r') ==> p == p' && w == w' && r == r'
  {
    LinkParts(p, w, r);
    LinkParts(p', w', r');
    if RepoLink(p, w, r) == RepoLink(p', w', r') {
      SameTail("/portfolios/", CacheKey(p, LinkRest(w, r)), CacheKey(p', LinkRest(w', r')));
      KeyIsInjective(p, LinkRest(w, r), p', LinkRest(w', r'));
      SameTail("workspaces/", CacheKey(w, "repos/" + r), CacheKey(w', "repos/" + r'));
      KeyIsInjective(w, "repos/" + r, w', "repos/" + r');
      SameTail("repos/", r, r');
    }
  }

  /** The part of a link after the name of the portfolio. */
  function LinkRest(w: string, r: string): string { "workspaces/" + CacheKey(w, "repos/" + r) }

  lemma LinkParts(p: string, w: string, r: string)
    ensures RepoLink(p, w, r) == "/portfolios/" + CacheKey(p, LinkRest(w, r))
  {
  }

  lemma SameTail(head: string, a: string, b: string)
    requires head + a == head + b
    ensures a == b
  {
    assert a == (head + a)[|head|..] && b == (head + b)[|head|..];
  }

  /** PercentDone is the percentage of the tasks that are done, truncated; 0 without tasks. */
  lemma PercentIsTruncated(done: int, total: int)
    ensures total <= 0 ==> Percent(done, total) == 0
    ensures total > 0 && done >= 0 ==> Percent(done, total) * total <= 100 * done < (Percent(done, total) + 1) * total
    ensures total > 0 && done < 0 ==> (Percent(done, total) - 1) * total < 100 * done <= Percent(done, total) * total
  {
    if total > 0 {
      QuotientIs(if done >= 0 then done * 100 else -(done * 100), total);
    }
  }

  lemma QuotientIs(a: nat, b: int)
    requires b > 0
    ensures a / b * b <= a < (a / b + 1) * b && -(a / b) * b == -(a / b * b) && (-(a / b) - 1) * b == -((a / b + 1) * b)
  {
  }

  lemma OneMoreIndex(before: set<int>, now: set<int>, n: int, counts: bool)
    requires n !in before && now == if counts then before + {n} else before
    ensures |now| == |before| + (if counts then 1 else 0)
  {
  }

  function DirtyOnes(repos: seq<RepoOverview>): set<int> {
    set i | 0 <= i < |repos| && repos[i].isDirty
  }

  lemma DirtyOneMore(repos: seq<RepoOverview>)
    requires repos != []
    ensures var n, before := |repos| - 1, DirtyOnes(repos[..|repos| - 1]);
            n !in before && DirtyOnes(repos) == if repos[n].isDirty then before + {n} else before
  {
  }

  lemma {:induction false} DirtyIsCounted(repos: seq<RepoOverview>)
    ensures DirtyCount(repos) == |set i | 0 <= i < |repos| && repos[i].isDirty|
    ensures DirtyCount(repos) == |DirtyOnes(repos)|
  {
    if repos != [] {
      var n := |repos| - 1;
      DirtyIsCounted(repos[..n]);
      DirtyOneMore(repos);
      OneMoreIndex(DirtyOnes(repos[..n]), DirtyOnes(repos), n, repos[n].isDirty);
    }
  }

  function WithStatus(plans: seq<MetaPlan>, status: string): set<int> {
    set i | 0 <= i < |plans| && plans[i].status == status
  }

  lemma WithStatusOneMore(plans: seq<MetaPlan>, status: string)
    requires plans != []
    ensures var n, before := |plans| - 1, WithStatus(plans[..|plans| - 1], status);
            n !in before && WithStatus(plans, status) == if plans[n].status == status then before + {n} else before
  {
  }

  lemma {:induction false} StatusIsCounted(plans: seq<MetaPlan>, status: string)
    ensures StatusCount(plans, status) == |set i | 0 <= i < |plans| && plans[i].status == status|
    ensures StatusCount(plans, status) == |WithStatus(plans, status)|
  {
    if plans != [] {
      var n := |plans| - 1;
      StatusIsCounted(plans[..n], status);
      WithStatusOneMore(plans, status);
      OneMoreIndex(WithStatus(plans[..n], status), WithStatus(plans, status), n, plans[n].status == status);
    }
  }

  /** What one element adds to the flat sequences and sums; the lemmas on concatenation do the rest. */
  lemma OneOfEach(ws: WorkspaceSummary, plan: MetaPlan, stage: MetaPlanStage, repo: StageRepo)
    ensures AllRepos([ws]) == ws.repos && AllPlans([ws]) == ws.metaPlans
    ensures StageRepos([plan]) == ReposOfStages(plan.stages) && ReposOfStages([stage]) == stage.repos
    ensures SumTasks([repo]).total == repo.tasksTotal && SumTasks([repo]).done == repo.tasksDone
  {
    assert [ws][..0] == [] && [plan][..0] == [] && [stage][..0] == [] && [repo][..0] == [];
    assert AllRepos([]) == [] && AllPlans([]) == [] && StageRepos([]) == [] && ReposOfStages([]) == [];
  }

  // ---- Concatenation ----

  lemma SnocSlice<T>(a: seq<T>, b: seq<T>)
    requires b != []
    ensures (a + b)[..|a + b| - 1] == a + b[..|b| - 1] && (a + b)[|a + b| - 1] == b[|b| - 1]
  {
  }

  lemma {:induction false} DirtyAppend(a: seq<RepoOverview>, b: seq<RepoOverview>)
    ensures DirtyCount(a + b) == DirtyCount(a) + DirtyCount(b)
  {
    if b == [] { assert a + b == a; } else { SnocSlice(a, b); DirtyAppend(a, b[..|b| - 1]); }
  }

  lemma {:induction false} StatusAppend(a: seq<MetaPlan>, b: seq<MetaPlan>, status: string)
    ensures StatusCount(a + b, status) == StatusCount(a, status) + StatusCount(b, status)
  {
    if b == [] { assert a + b == a; } else { SnocSlice(a, b); StatusAppend(a, b[..|b| - 1], status); }
  }

  lemma {:induction false} TasksAppend(a: seq<StageRepo>, b: seq<StageRepo>)
    ensures SumTasks(a + b) == Tasks(SumTasks(a).total + SumTasks(b).total, SumTasks(a).done + SumTasks(b).done)
  {
    if b == [] { assert a + b == a; } else { SnocSlice(a, b); TasksAppend(a, b[..|b| - 1]); }
  }

  lemma StageReposLast(plans: seq<MetaPlan>)
    requires plans != []
    ensures StageRepos(plans) == StageRepos(plans[..|plans| - 1]) + ReposOfStages(plans[|plans| - 1].stages)
  {
  }

  lemma Regrouped<T>(a: seq<T>, b: seq<T>, c: seq<T>)
    ensures a + b + c == a + (b + c)
  {
  }

  lemma {:induction false} StageReposAppend(a: seq<MetaPlan>, b: seq<MetaPlan>)
    ensures StageRepos(a + b) == StageRepos(a) + StageRepos(b)
  {
    if b == [] {
      assert a + b == a;
    } else {
      var before, last := b[..|b| - 1], ReposOfStages(b[|b| - 1].stages);
      SnocSlice(a, b);
      StageReposAppend(a, before);
      StageReposLast(a + b);
      StageReposLast(b);
      Regrouped(StageRepos(a), StageRepos(before), last);
    }
  }

  lemma {:induction false} RefsAppend(a: seq<RepoOverview>, b: seq<RepoOverview>)
    ensures Refs(a + b) == Refs(a) + Refs(b)
  {
  }

  lemma TestTotalsAppend(env: Env, a: seq<RepoOverview>, b: seq<RepoOverview>)
    ensures TestTotals(env, a + b) == Plus(TestTotals(env, a), TestTotals(env, b))
  {
    RefsAppend(a, b);
    AllReportsAppend(env.forge, Refs(a), Refs(b));
    SumStatsAppend(AllReports(env.forge, Refs(a)), AllReports(env.forge, Refs(b)));
  }

  lemma CountsAppend(a: seq<MetaPlan>, b: seq<MetaPlan>)
    ensures SumPlans(a + b).plans == SumPlans(a).plans + SumPlans(b).plans
    ensures SumPlans(a + b).active == SumPlans(a).active + SumPlans(b).active
    ensures SumPlans(a + b).completed == SumPlans(a).completed + SumPlans(b).completed
  {
    StatusAppend(a, b, "in_progress");
    StatusAppend(a, b, "completed");
  }

  lemma PlanTasksAppend(a: seq<MetaPlan>, b: seq<MetaPlan>)
    ensures SumPlans(a + b).tasks.total == SumPlans(a).tasks.total + SumPlans(b).tasks.total
    ensures SumPlans(a + b).tasks.done == SumPlans(a).tasks.done + SumPlans(b).tasks.done
  {
    StageReposAppend(a, b);
    TasksAppend(StageRepos(a), StageRepos(b));
  }

  lemma AddUp(p: PlanSums, q: PlanSums, r: PlanSums)
    requires r.plans == p.plans + q.plans && r.active == p.active + q.active && r.completed == p.completed + q.completed
    requires r.tasks.total == p.tasks.total + q.tasks.total && r.tasks.done == p.tasks.done + q.tasks.done
    ensures r == PlusPlans(p, q)
  {
  }

  lemma PlansAppend(a: seq<MetaPlan>, b: seq<MetaPlan>)
    ensures SumPlans(a + b) == PlusPlans(SumPlans(a), SumPlans(b))
  {
    CountsAppend(a, b);
    PlanTasksAppend(a, b);
    AddUp(SumPlans(a), SumPlans(b), SumPlans(a + b));
  }

  lemma {:induction false} TotalAppend<T>(f: T -> Sums, a: seq<T>, b: seq<T>)
    ensures Total(f, a + b) == PlusSums(Total(f, a), Total(f, b))
  {
    if b == [] { assert a + b == a; } else { SnocSlice(a, b); TotalAppend(f, a, b[..|b| - 1]); }
  }

  /** What the last workspace adds to the sums. */
  lemma LastAdds(env: Env, wss: seq<WorkspaceSummary>)
    requires wss != []
    ensures var before, last, sums := SumsOf(env, wss[..|wss| - 1]), wss[|wss| - 1], SumsOf(env, wss);
            && sums.dirty == before.dirty + DirtyCount(last.repos)
            && sums.tests == Plus(before.tests, TestTotals(env, last.repos))
            && sums.plans == PlusPlans(before.plans, SumPlans(last.metaPlans))
  {
  }

  lemma DirtySplits(wss: seq<WorkspaceSummary>)
    requires wss != []
    ensures DirtyCount(AllRepos(wss)) == DirtyCount(AllRepos(wss[..|wss| - 1])) + DirtyCount(wss[|wss| - 1].repos)
  {
    DirtyAppend(AllRepos(wss[..|wss| - 1]), wss[|wss| - 1].repos);
  }

  lemma {:induction false} DirtyIsFlat(env: Env, wss: seq<WorkspaceSummary>)
    ensures SumsOf(env, wss).dirty == DirtyCount(AllRepos(wss))
  {
    if wss != [] {
      DirtyIsFlat(env, wss[..|wss| - 1]);
      DirtySplits(wss);
      LastAdds(env, wss);
    }
  }

  lemma TestsSplit(env: Env, wss: seq<WorkspaceSummary>)
    requires wss != []
    ensures TestTotals(env, AllRepos(wss)) ==
            Plus(TestTotals(env, AllRepos(wss[..|wss| - 1])), TestTotals(env, wss[|wss| - 1].repos))
  {
    TestTotalsAppend(env, AllRepos(wss[..|wss| - 1]), wss[|wss| - 1].repos);
  }

  lemma {:induction false} TestsAreFlat(env: Env, wss: seq<WorkspaceSummary>)
    ensures SumsOf(env, wss).tests == TestTotals(env, AllRepos(wss))
  {
    if wss != [] {
      TestsAreFlat(env, wss[..|wss| - 1]);
      TestsSplit(env, wss);
      LastAdds(env, wss);
    }
  }

  lemma PlansSplit(wss: seq<WorkspaceSummary>)
    requires wss != []
    ensures SumPlans(AllPlans(wss)) ==
            PlusPlans(SumPlans(AllPlans(wss[..|wss| - 1])), SumPlans(wss[|wss| - 1].metaPlans))
  {
    PlansAppend(AllPlans(wss[..|wss| - 1]), wss[|wss| - 1].metaPlans);
  }

  lemma {:induction false} PlansAreFlat(env: Env, wss: seq<WorkspaceSummary>)
    ensures SumsOf(env, wss).plans == SumPlans(AllPlans(wss))
  {
    if wss != [] {
      PlansAreFlat(env, wss[..|wss| - 1]);
      PlansSplit(wss);
      LastAdds(env, wss);
    }
  }

  lemma {:induction false} ReposAreFlat(env: Env, wss: seq<WorkspaceSummary>)
    requires forall ws <- wss :: ws.repoCount == |ws.repos|
    ensures SumsOf(env, wss).workspaces == |wss| && SumsOf(env, wss).repos == |AllRepos(wss)|
  {
    if wss != [] { ReposAreFlat(env, wss[..|wss| - 1]); }
  }

  lemma {:induction false} ListsAppend(a: seq<WorkspaceSummary>, b: seq<WorkspaceSummary>)
    ensures AllRepos(a + b) == AllRepos(a) + AllRepos(b) && AllPlans(a + b) == AllPlans(a) + AllPlans(b)
  {
    if b == [] {
      assert a + b == a;
    } else {
      var n := |b| - 1;
      SnocSlice(a, b);
      ListsAppend(a, b[..n]);
      Regrouped(AllRepos(a), AllRepos(b[..n]), b[n].repos);
      Regrouped(AllPlans(a), AllPlans(b[..n]), b[n].metaPlans);
    }
  }

  lemma {:induction false} ReposOfStagesAppend(a: seq<MetaPlanStage>, b: seq<MetaPlanStage>)
    ensures ReposOfStages(a + b) == ReposOfStages(a) + ReposOfStages(b)
  {
    if b == [] {
      assert a + b == a;
    } else {
      SnocSlice(a, b);
      ReposOfStagesAppend(a, b[..|b| - 1]);
      Regrouped(ReposOfStages(a), ReposOfStages(b[..|b| - 1]), b[|b| - 1].repos);
    }
  }

  /** The totals of the pages are folds over flat sequences: of all repositories, of all
      reports of all repositories, of all plans and all their stage repositories. */
  lemma SumsAreFlat(env: Env, wss: seq<WorkspaceSummary>)
    requires forall ws <- wss :: ws.repoCount == |ws.repos|
    ensures SumsOf(env, wss).workspaces == |wss|
    ensures SumsOf(env, wss).repos == |AllRepos(wss)|
    ensures SumsOf(env, wss).dirty == DirtyCount(AllRepos(wss))
    ensures SumsOf(env, wss).tests == SumStats(AllReports(env.forge, Refs(AllRepos(wss))))
    ensures SumsOf(env, wss).plans == SumPlans(AllPlans(wss))
  {
    ReposAreFlat(env, wss);
    DirtyIsFlat(env, wss);
    TestsAreFlat(env, wss);
    PlansAreFlat(env, wss);
  }

  /** When no stage repository has more tasks done than it has tasks, PercentDone lies in
      0..100. */
  lemma PercentIsInRange(plans: seq<MetaPlan>)
    requires forall r <- StageRepos(plans) :: 0 <= r.tasksDone <= r.tasksTotal
    ensures 0 <= ProgressOf(SumPlans(plans)).percentDone <= 100
  {
    TasksInRange(StageRepos(plans));
    var t := SumTasks(StageRepos(plans));
    if t.total > 0 {
      PercentBound(t.done, t.total);
    }
  }

  lemma NegativeProduct(x: int, t: int)
    requires x < 0 < t
    ensures x * t <= -t
  {
  }

  lemma PercentBound(done: int, total: int)
    requires 0 <= done <= total && total > 0
    ensures 0 <= done * 100 / total <= 100
  {
    var q := done * 100 / total;
    assert q * total <= done * 100 <= 100 * total;
    if q > 100 {
      NegativeProduct(100 - q, total);
      assert false;
    }
  }

  lemma {:induction false} TasksInRange(repos: seq<StageRepo>)
    requires forall r <- repos :: 0 <= r.tasksDone <= r.tasksTotal
    ensures 0 <= SumTasks(repos).done <= SumTasks(repos).total
  {
    if repos != [] { TasksInRange(repos[..|repos| - 1]); }
  }

  // ---- The loops over workspaces ----

  /** `rewriteRepoLinks`. */
  method RewriteRepoLinks(workspaces: array<WorkspaceSummary>, portfolio: string)
    modifies workspaces
    ensures forall i :: 0 <= i < workspaces.Length ==> workspaces[i] == Linked(portfolio, old(workspaces[i]))
    ensures forall i :: 0 <= i < workspaces.Length ==>
              var ws, was := workspaces[i], old(workspaces[i]);
              && ws == was.(repos := ws.repos) && |ws.repos| == |was.repos|
              && forall j :: 0 <= j < |ws.repos| ==>
                   ws.repos[j] == was.repos[j].(repoLink :=
                     "/portfolios/" + portfolio + "/workspaces/" + was.name + "/repos/" + was.repos[j].name)
  {
    for i := 0 to workspaces.Length
      invariant forall k :: 0 <= k < i ==> workspaces[k] == Linked(portfolio, old(workspaces[k]))
      invariant forall k :: i <= k < workspaces.Length ==> workspaces[k] == old(workspaces[k])
    {
      var ws := workspaces[i];
      var repos := ws.repos;
      for j := 0 to |repos|
        invariant |repos| == |ws.repos|
        invariant forall k :: 0 <= k < j ==>
                    repos[k] == ws.repos[k].(repoLink := RepoLink(portfolio, ws.name, ws.repos[k].name))
        invariant forall k :: j <= k < |repos| ==> repos[k] == ws.repos[k]
      {
        var link := "/portfolios/" + portfolio + "/workspaces/" + ws.name + "/repos/" + repos[j].name;
        repos := repos[j := repos[j].(repoLink := link)];
      }
      assert repos == Linked(portfolio, ws).repos;
      workspaces[i] := ws.(repos := repos);
    }
  }

  /** The first inner loop of `enrichWorkspaces`. */
  method EnrichRepos(env: Env, key: string, repos: seq<RepoOverview>) returns (repos': seq<RepoOverview>, dirty: int)
    ensures repos' == CachedRepos(env, key, repos) && dirty == DirtyCount(repos')
    ensures |repos'| == |repos| && forall j :: 0 <= j < |repos| ==>
              var r, was := repos'[j], repos[j];
              if key in env.cache && was.name in env.cache[key].overviews then
                var o := env.cache[key].overviews[was.name];
                && (r.branch, r.isDirty, r.ahead, r.behind) == (o.branch, o.isDirty, o.ahead, o.behind)
                && (r.hasUpstream, r.lastCommitTime) == (o.hasUpstream, o.lastCommitTime)
                && (r.name, r.workspaceName, r.path) == (was.name, was.workspaceName, was.path)
                && (r.hasForge, r.repoLink) == (was.hasForge, was.repoLink)
              else r == was
    ensures dirty == |set j | 0 <= j < |repos'| && repos'[j].isDirty|
  {
    repos', dirty := repos, 0;
    for j := 0 to |repos|
      invariant |repos'| == |repos| && dirty == DirtyCount(repos'[..j])
      invariant forall k :: 0 <= k < j ==> repos'[k] == OverviewFromCache(env.cache, key, repos[k])
      invariant forall k :: j <= k < |repos| ==> repos'[k] == repos[k]
    {
      ghost var before := repos'[..j];
      var repo := repos'[j];
      var cached := OverviewIn(env.cache, key, repo.name);
      if cached.Some? {
        repo := repo.(branch := cached.value.branch, isDirty := cached.value.isDirty);
        repo := repo.(ahead := cached.value.ahead, behind := cached.value.behind);
        repo := repo.(hasUpstream := cached.value.hasUpstream, lastCommitTime := cached.value.lastCommitTime);
      }
      repos' := repos'[j := repo];
      if repo.isDirty {
        dirty := dirty + 1;
      }
      assert repos'[..j + 1][..j] == before;
    }
    assert repos'[..|repos|] == repos' == CachedRepos(env, key, repos);
    DirtyIsCounted(repos');
  }

  method EnrichOne(env: Env, portfolio: string, ws: WorkspaceSummary)
    returns (ws': WorkspaceSummary, dirty: int, tests: TestStats)
    ensures ws' == Enriched(env, portfolio, ws)
    ensures dirty == DirtyCount(ws'.repos) && tests == TestTotals(env, ws'.repos)
  {
    var repos;
    repos, dirty := EnrichRepos(env, portfolio + "/" + ws.name, ws.repos);
    var stages, rows;
    stages, rows, tests := BuildHeatMap(env.forge, Refs(repos));
    ws' := ws.(repos := repos, allStages := ws.allStages + stages, repoForge := ws.repoForge + rows);
  }

  lemma SumsSnoc(env: Env, wss: seq<WorkspaceSummary>, ws: WorkspaceSummary)
    ensures SumsOf(env, wss + [ws]) == PlusSums(SumsOf(env, wss), SumsOfOne(env, ws))
  {
    assert (wss + [ws])[..|wss|] == wss;
  }

  lemma SumsUnsnoc(env: Env, wss: seq<WorkspaceSummary>)
    requires wss != []
    ensures SumsOf(env, wss) == PlusSums(SumsOf(env, wss[..|wss| - 1]), SumsOfOne(env, wss[|wss| - 1]))
  {
  }

  /** The part of the sums that `enrichWorkspaces` returns. */
  ghost predicate Counted(env: Env, wss: seq<WorkspaceSummary>, repos: int, dirty: int, tests: TestStats) {
    var sums := SumsOf(env, wss);
    repos == sums.repos && dirty == sums.dirty && tests == sums.tests
  }

  lemma CountOneMore(env: Env, wss: seq<WorkspaceSummary>, repos: int, dirty: int, tests: TestStats, ws: WorkspaceSummary)
    requires Counted(env, wss, repos, dirty, tests)
    ensures Counted(env, wss + [ws], repos + ws.repoCount, dirty + DirtyCount(ws.repos), Plus(tests, TestTotals(env, ws.repos)))
  {
    SumsSnoc(env, wss, ws);
  }

  /** The first `i` workspaces are enriched. */
  ghost predicate EnrichedUpTo(env: Env, portfolio: string, before: seq<WorkspaceSummary>,
                               now: seq<WorkspaceSummary>, i: nat) {
    && i <= |before| == |now|
    && (forall k :: 0 <= k < i ==> now[k] == Enriched(env, portfolio, before[k]))
    && (forall k :: i <= k < |before| ==> now[k] == before[k])
  }

  lemma EnrichedOneMore(env: Env, portfolio: string, before: seq<WorkspaceSummary>, now: seq<WorkspaceSummary>, i: nat,
                        ws: WorkspaceSummary)
    requires EnrichedUpTo(env, portfolio, before, now, i) && i < |before| && ws == Enriched(env, portfolio, before[i])
    ensures EnrichedUpTo(env, portfolio, before, now[i := ws], i + 1)
    ensures now[i := ws][..i + 1] == now[..i] + [ws]
  {
  }

  /** `enrichWorkspaces`: in place over the workspaces, with running totals. */
  method EnrichWorkspaces(env: Env, portfolio: string, workspaces: array<WorkspaceSummary>)
    returns (repos: int, dirty: int, tests: TestStats)
    modifies workspaces
    ensures EnrichedUpTo(env, portfolio, old(workspaces[..]), workspaces[..], workspaces.Length)
    ensures Counted(env, workspaces[..], repos, dirty, tests)
  {
    ghost var before := workspaces[..];
    repos, dirty, tests := 0, 0, NO_STATS;
    for i := 0 to workspaces.Length
      invariant EnrichedUpTo(env, portfolio, before, workspaces[..], i)
      invariant Counted(env, workspaces[..i], repos, dirty, tests)
    {
      ghost var now := workspaces[..];
      var ws, d, t := EnrichOne(env, portfolio, workspaces[i]);
      EnrichedOneMore(env, portfolio, before, now, i, ws);
      CountOneMore(env, now[..i], repos, dirty, tests, ws);
      repos := repos + workspaces[i].repoCount;
      workspaces[i] := ws;
      dirty, tests := dirty + d, Plus(tests, t);
      assert workspaces[..] == now[i := ws] && workspaces[..i] == now[..i];
    }
    assert workspaces[..workspaces.Length] == workspaces[..];
  }

  /** The innermost loop over one stage's repositories. */
  method CountRepoTasks(repos: seq<StageRepo>, t: Tasks) returns (t': Tasks)
    ensures t' == Tasks(t.total + SumTasks(repos).total, t.done + SumTasks(repos).done)
  {
    t' := t;
    for k := 0 to |repos|
      invariant t' == Tasks(t.total + SumTasks(repos[..k]).total, t.done + SumTasks(repos[..k]).done)
    {
      assert repos[..k + 1][..k] == repos[..k];
      t' := Tasks(t'.total + repos[k].tasksTotal, t'.done + repos[k].tasksDone);
    }
    assert repos[..|repos|] == repos;
  }

  method CountStageTasks(stages: seq<MetaPlanStage>, t: Tasks) returns (t': Tasks)
    ensures t' == Tasks(t.total + SumTasks(ReposOfStages(stages)).total, t.done + SumTasks(ReposOfStages(stages)).done)
  {
    t' := t;
    for j := 0 to |stages|
      invariant t' == Tasks(t.total + SumTasks(ReposOfStages(stages[..j])).total,
                            t.done + SumTasks(ReposOfStages(stages[..j])).done)
    {
      assert stages[..j + 1][..j] == stages[..j];
      TasksAppend(ReposOfStages(stages[..j]), stages[j].repos);
      t' := CountRepoTasks(stages[j].repos, t');
    }
    assert stages[..|stages|] == stages;
  }

  /** The nested loops over plans, stages and repositories. */
  method CountTasks(plans: seq<MetaPlan>) returns (t: Tasks)
    ensures t == SumTasks(StageRepos(plans))
  {
    t := Tasks(0, 0);
    for i := 0 to |plans|
      invariant t == SumTasks(StageRepos(plans[..i]))
    {
      assert plans[..i + 1][..i] == plans[..i];
      TasksAppend(StageRepos(plans[..i]), ReposOfStages(plans[i].stages));
      t := CountStageTasks(plans[i].stages, t);
    }
    assert plans[..|plans|] == plans;
  }

  /** One round of the loop of `enrichWorkspaceOrchestration`. */
  method OrchestrateOne(env: Env, was: WorkspaceSummary) returns (ws: WorkspaceSummary)
    ensures ws == Planned(env, was)
    ensures ws == was.(description := ws.description, metaPlans := ws.metaPlans, progress := ws.progress)
    ensures ws.description == if was.path in env.workspaceDescriptions && env.workspaceDescriptions[was.path] != ""
                              then env.workspaceDescriptions[was.path] else was.description
    ensures if was.path in env.plans && env.plans[was.path] != [] then
              var t := SumTasks(StageRepos(env.plans[was.path]));
              && ws.metaPlans == env.plans[was.path] && ws.progress.metaPlanCount == |ws.metaPlans|
              && ws.progress.tasksTotal == t.total && ws.progress.tasksDone == t.done
              && ws.progress.percentDone == Percent(t.done, t.total)
            else ws.metaPlans == was.metaPlans && ws.progress == was.progress
  {
    ws := was;
    if ws.path in env.workspaceDescriptions && env.workspaceDescriptions[ws.path] != "" {
      ws := ws.(description := env.workspaceDescriptions[ws.path]);
    }
    if ws.path in env.plans && |env.plans[ws.path]| > 0 {
      var plans := env.plans[ws.path];
      var t := CountTasks(plans);
      var pct := 0;
      if t.total > 0 {
        pct := GoDiv(t.done * 100, t.total);
      }
      ws := ws.(metaPlans := plans, progress := WorkspaceProgress(|plans|, t.total, t.done, pct));
    }
  }

  /** `enrichWorkspaceOrchestration`. */
  method EnrichOrchestration(env: Env, workspaces: array<WorkspaceSummary>)
    modifies workspaces
    ensures forall i :: 0 <= i < workspaces.Length ==> workspaces[i] == Planned(env, old(workspaces[i]))
  {
    for i := 0 to workspaces.Length
      invariant forall k :: 0 <= k < i ==> workspaces[k] == Planned(env, old(workspaces[k]))
      invariant forall k :: i <= k < workspaces.Length ==> workspaces[k] == old(workspaces[k])
    {
      workspaces[i] := OrchestrateOne(env, workspaces[i]);
    }
  }
}
