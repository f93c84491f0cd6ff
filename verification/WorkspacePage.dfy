/** The page of one workspace (`GetWorkspace` in internal/controller/workspace.go): enrichment
    from the cache, sorting, links, and the test heat map. Configuration and plan files that
    the page also carries are not part of the model. */
module WorkspacePage {
  import opened Types
  import opened Cache
  import opened Refresh
  import opened Ordering
  import opened Stages
  import opened HeatMap
  import opened Portfolios
  import opened Recent

  datatype WorkspaceStats = WorkspaceStats(totalRepos: int, forgeRepos: int, tests: TestStats)

  datatype WorkspacePage = WorkspacePage(
    repos: seq<RepoSummary>,
    allStages: seq<string>,
    repoForge: seq<RepoForgeStats>,
    stats: WorkspaceStats,
    sortMode: string)

  function RefOf(r: RepoSummary): RepoRef { RepoRef(r.name, r.path, r.hasForge, r.repoLink) }

  function RefsOf(repos: seq<RepoSummary>): (r: seq<RepoRef>)
    ensures |r| == |repos|
    ensures forall i :: 0 <= i < |repos| ==>
              r[i] == RepoRef(repos[i].name, repos[i].path, repos[i].hasForge, repos[i].repoLink)
  {
    if repos == [] then [] else [RefOf(repos[0])] + RefsOf(repos[1..])
  }

  function ForgeCount(repos: seq<RepoSummary>): int {
    if repos == [] then 0 else ForgeCount(repos[..|repos| - 1]) + (if repos[|repos| - 1].hasForge then 1 else 0)
  }

  function LinkTo(portfolio: string, workspace: string, r: RepoSummary): RepoSummary {
    r.(repoLink := RepoLink(portfolio, workspace, r.name))
  }

  function LinkAll(portfolio: string, workspace: string, repos: seq<RepoSummary>): (r: seq<RepoSummary>)
    ensures |r| == |repos| && forall i :: 0 <= i < |repos| ==> r[i] == LinkTo(portfolio, workspace, repos[i])
  {
    if repos == [] then [] else [LinkTo(portfolio, workspace, repos[0])] + LinkAll(portfolio, workspace, repos[1..])
  }

  function AllFromCache(c: Contents, key: string, repos: seq<RepoSummary>): (r: seq<RepoSummary>)
    ensures |r| == |repos| && forall i :: 0 <= i < |repos| ==> r[i] == FromCache(c, key, repos[i])
  {
    if repos == [] then [] else [FromCache(c, key, repos[0])] + AllFromCache(c, key, repos[1..])
  }

  function RepoNameOrder(): (RepoSummary, RepoSummary) -> bool {
    NameOrder((r: RepoSummary) => r.name)
  }

  /** The order of the page. */
  ghost predicate InOrder(mode: string, repos: seq<RepoSummary>) {
    if mode == "time" then Sorted(repos, NewerSummary) else Sorted(repos, RepoNameOrder())
  }

  /** The repositories of the page: those found, as the cache knows them, sorted and linked. */
  ghost predicate ShowsRepos(c: Contents, portfolio: string, workspace: string, mode: string,
                             found: seq<RepoSummary>, shown: seq<RepoSummary>) {
    exists sorted :: ShowsVia(c, portfolio, workspace, mode, found, sorted, shown)
  }

  ghost predicate ShowsVia(c: Contents, portfolio: string, workspace: string, mode: string,
                           found: seq<RepoSummary>, sorted: seq<RepoSummary>, shown: seq<RepoSummary>) {
    && IsPermutation(sorted, AllFromCache(c, CacheKey(portfolio, workspace), found))
    && InOrder(mode, sorted)
    && shown == LinkAll(portfolio, workspace, sorted)
  }

  /** The test results of the page are those of the repositories that it shows. */
  ghost predicate ShowsTests(forge: Forge, page: WorkspacePage) {
    var refs := RefsOf(page.repos);
    && page.allStages == Dedup(AllStageNames(forge, refs))
    && page.repoForge == Rows(forge, refs)
    && page.stats == WorkspaceStats(|page.repos|, ForgeCount(page.repos), SumStats(AllReports(forge, refs)))
  }

  /** `r` is how the page shows `was`, but for the link. */
  predicate ShownFor(c: Contents, key: string, was: RepoSummary, r: RepoSummary) {
    r.(repoLink := was.repoLink) == FromCache(c, key, was)
  }

  /** Each repository of the page is one that was found ... */
  lemma ShownIsFound(c: Contents, portfolio: string, workspace: string, mode: string, found: seq<RepoSummary>,
                     shown: seq<RepoSummary>, i: nat) returns (was: RepoSummary)
    requires ShowsRepos(c, portfolio, workspace, mode, found, shown) && i < |shown|
    ensures was in found && ShownFor(c, CacheKey(portfolio, workspace), was, shown[i])
  {
    var sorted :| ShowsVia(c, portfolio, workspace, mode, found, sorted, shown);
    var cached := AllFromCache(c, CacheKey(portfolio, workspace), found);
    PermutationMembers(sorted, cached);
    assert sorted[i] in cached;
    var k :| 0 <= k < |cached| && cached[k] == sorted[i];
    was := found[k];
  }

  /** ... and each one that was found is on the page. */
  lemma FoundIsShown(c: Contents, portfolio: string, workspace: string, mode: string, found: seq<RepoSummary>,
                     shown: seq<RepoSummary>, k: nat) returns (r: RepoSummary)
    requires ShowsRepos(c, portfolio, workspace, mode, found, shown) && k < |found|
    ensures |shown| == |found| && r in shown && ShownFor(c, CacheKey(portfolio, workspace), found[k], r)
  {
    var sorted :| ShowsVia(c, portfolio, workspace, mode, found, sorted, shown);
    var cached := AllFromCache(c, CacheKey(portfolio, workspace), found);
    PermutationSize(sorted, cached);
    PermutationMembers(sorted, cached);
    assert cached[k] in sorted;
    var i :| 0 <= i < |sorted| && sorted[i] == cached[k];
    r := shown[i];
  }

  /** The repositories of the page have its links and are in the order of its mode. */
  lemma ShownInOrder(c: Contents, portfolio: string, workspace: string, mode: string, found: seq<RepoSummary>,
                     shown: seq<RepoSummary>)
    requires ShowsRepos(c, portfolio, workspace, mode, found, shown)
    ensures forall i :: 0 <= i < |shown| ==>
              shown[i].repoLink == "/portfolios/" + portfolio + "/workspaces/" + workspace + "/repos/" + shown[i].name
    ensures mode == "time" ==> forall i, j :: 0 <= i < j < |shown| ==> shown[i].lastCommitTime >= shown[j].lastCommitTime
    ensures mode != "time" ==> forall i, j :: 0 <= i < j < |shown| ==> !StringLess(shown[j].name, shown[i].name)
  {
    var sorted :| ShowsVia(c, portfolio, workspace, mode, found, sorted, shown);
    forall i, j | mode != "time" && 0 <= i < j < |shown| ensures !StringLess(shown[j].name, shown[i].name) {
      assert !RepoNameOrder()(sorted[j], sorted[i]);
    }
    forall i, j | mode == "time" && 0 <= i < j < |shown| ensures shown[i].lastCommitTime >= shown[j].lastCommitTime {
      assert !NewerSummary(sorted[j], sorted[i]);
    }
  }

  function WithForge(repos: seq<RepoSummary>): set<int> {
    set i | 0 <= i < |repos| && repos[i].hasForge
  }

  lemma WithForgeOneMore(repos: seq<RepoSummary>)
    requires repos != []
    ensures var n, before := |repos| - 1, WithForge(repos[..|repos| - 1]);
            n !in before && WithForge(repos) == if repos[n].hasForge then before + {n} else before
  {
  }

  lemma {:induction false} ForgeIsCounted(repos: seq<RepoSummary>)
    ensures ForgeCount(repos) == |set i | 0 <= i < |repos| && repos[i].hasForge|
    ensures ForgeCount(repos) == |WithForge(repos)|
  {
    if repos != [] {
      var n := |repos| - 1;
      ForgeIsCounted(repos[..n]);
      WithForgeOneMore(repos);
      OneMoreIndex(WithForge(repos[..n]), WithForge(repos), n, repos[n].hasForge);
    }
  }

  method SortRepos(repos: array<RepoSummary>, mode: string)
    modifies repos
    ensures IsPermutation(repos[..], old(repos[..])) && InOrder(mode, repos[..])
  {
    if mode == "time" {
      SortSlice(repos, NewerSummary);
    } else {
      NamesAreOrdered((r: RepoSummary) => r.name);
      SortSlice(repos, RepoNameOrder());
    }
  }

  method RewriteLinks(repos: array<RepoSummary>, portfolio: string, workspace: string)
    modifies repos
    ensures repos[..] == LinkAll(portfolio, workspace, old(repos[..]))
  {
    for i := 0 to repos.Length
      invariant forall k :: 0 <= k < i ==> repos[k] == LinkTo(portfolio, workspace, old(repos[k]))
      invariant forall k :: i <= k < repos.Length ==> repos[k] == old(repos[k])
    {
      repos[i] := repos[i].(repoLink := "/portfolios/" + portfolio + "/workspaces/" + workspace + "/repos/" + repos[i].name);
    }
  }

  method CountForge(repos: seq<RepoSummary>) returns (n: int)
    ensures n == ForgeCount(repos)
  {
    n := 0;
    for i := 0 to |repos|
      invariant n == ForgeCount(repos[..i])
    {
      assert repos[..i + 1][..i] == repos[..i];
      if repos[i].hasForge {
        n := n + 1;
      }
    }
    assert repos[..|repos|] == repos;
  }

  /** Enrichment, sorting and links. */
  method PresentRepos(cache: InMemoryCache, portfolio: string, workspace: string, mode: string, found: seq<RepoSummary>)
    returns (shown: seq<RepoSummary>)
    ensures ShowsRepos(cache.workspaces, portfolio, workspace, mode, found, shown)
  {
    var repos := new RepoSummary[|found|](i requires 0 <= i < |found| => found[i]);
    assert repos[..] == found;
    Refresh.EnrichRepos(cache, portfolio + "/" + workspace, repos);
    assert repos[..] == AllFromCache(cache.workspaces, CacheKey(portfolio, workspace), found);
    SortRepos(repos, mode);
    ghost var sorted := repos[..];
    RewriteLinks(repos, portfolio, workspace);
    shown := repos[..];
    assert ShowsVia(cache.workspaces, portfolio, workspace, mode, found, sorted, shown);
  }

  /** `GetWorkspace`; None stands for an error of discovery. */
  method GetWorkspace(cache: InMemoryCache, w: World, forge: Forge, baseDir: string, portfolio: string,
                      workspace: string, mode: string) returns (page: Option<WorkspacePage>)
    ensures page.Some? <==> (PageBase(baseDir, portfolio), workspace) in w.workspaces
    ensures page.Some? ==>
              && page.value.sortMode == mode
              && ShowsRepos(cache.workspaces, portfolio, workspace, mode,
                            w.workspaces[(PageBase(baseDir, portfolio), workspace)], page.value.repos)
              && ShowsTests(forge, page.value)
              && page.value.stats.totalRepos == |page.value.repos|
              && page.value.stats.forgeRepos == |set i | 0 <= i < |page.value.repos| && page.value.repos[i].hasForge|
  {
    var wsBaseDir := baseDir;
    if portfolio != "default" {
      wsBaseDir := Join(baseDir, portfolio);
    }
    if (wsBaseDir, workspace) !in w.workspaces {
      return None;
    }
    var repos := PresentRepos(cache, portfolio, workspace, mode, w.workspaces[(wsBaseDir, workspace)]);
    var forgeRepos := CountForge(repos);
    var stages, rows, tests := BuildHeatMap(forge, RefsOf(repos));
    ForgeIsCounted(repos);
    page := Some(WorkspacePage(repos, stages, rows, WorkspaceStats(|repos|, forgeRepos, tests), mode));
  }

  // ---- The page after a refresh ----

  function AllDirect(w: World, repos: seq<RepoSummary>): (r: seq<RepoSummary>)
    ensures |r| == |repos| && forall i :: 0 <= i < |repos| ==> r[i] == Direct(w, repos[i])
  {
    if repos == [] then [] else [Direct(w, repos[0])] + AllDirect(w, repos[1..])
  }

  /** A page whose repositories the cache shows as git does is git's answers, rearranged. */
  lemma ShownAsGitPage(c: Contents, w: World, portfolio: string, ws: string, mode: string, found: seq<RepoSummary>,
                       shown: seq<RepoSummary>)
    requires forall r <- found :: FromCache(c, CacheKey(portfolio, ws), r) == Direct(w, r)
    requires ShowsRepos(c, portfolio, ws, mode, found, shown)
    ensures GitPage(w, portfolio, ws, mode, found, shown)
  {
    var sorted :| ShowsVia(c, portfolio, ws, mode, found, sorted, shown);
    SameAnswers(c, w, CacheKey(portfolio, ws), found);
    assert GitPageVia(w, portfolio, ws, mode, found, sorted, shown);
  }

  lemma SameAnswers(c: Contents, w: World, key: string, found: seq<RepoSummary>)
    requires forall r <- found :: FromCache(c, key, r) == Direct(w, r)
    ensures AllFromCache(c, key, found) == AllDirect(w, found)
  {
    forall i | 0 <= i < |found| ensures AllFromCache(c, key, found)[i] == AllDirect(w, found)[i] {
      assert found[i] in found;
    }
  }

  /** The repositories `found`, each with git's answer, rearranged into the order of the mode and
      linked. */
  ghost predicate GitPage(w: World, portfolio: string, ws: string, mode: string, found: seq<RepoSummary>,
                          shown: seq<RepoSummary>) {
    exists sorted :: GitPageVia(w, portfolio, ws, mode, found, sorted, shown)
  }

  ghost predicate GitPageVia(w: World, portfolio: string, ws: string, mode: string, found: seq<RepoSummary>,
                             sorted: seq<RepoSummary>, shown: seq<RepoSummary>) {
    && IsPermutation(sorted, AllDirect(w, found))
    && InOrder(mode, sorted)
    && shown == LinkAll(portfolio, ws, sorted)
  }

  /** A repository of such a page, field by field: one that was found, under its name and path, linked, with
      the nine fields of git's answer, or those of discovery when git has none. */
  lemma GitPageFieldByField(w: World, portfolio: string, ws: string, mode: string, found: seq<RepoSummary>,
                            shown: seq<RepoSummary>, i: nat) returns (was: RepoSummary)
    requires GitPage(w, portfolio, ws, mode, found, shown) && i < |shown|
    ensures |shown| == |found| && was in found
    ensures var r := shown[i];
            && (r.name, r.path, r.hasForge) == (was.name, was.path, was.hasForge)
            && r.repoLink == "/portfolios/" + portfolio + "/workspaces/" + ws + "/repos/" + was.name
            && var git := if was.path in w.git then w.git[was.path] else was;
            && (r.branch, r.isDirty, r.ahead, r.behind) == (git.branch, git.isDirty, git.ahead, git.behind)
            && (r.hasUpstream, r.lastCommitTime) == (git.hasUpstream, git.lastCommitTime)
            && (r.statusFiles, r.diffStat, r.recentLogs) == (git.statusFiles, git.diffStat, git.recentLogs)
  {
    var sorted :| GitPageVia(w, portfolio, ws, mode, found, sorted, shown);
    PermutationSize(sorted, AllDirect(w, found));
    PermutationMembers(sorted, AllDirect(w, found));
    assert sorted[i] in AllDirect(w, found);
    var k :| 0 <= k < |found| && AllDirect(w, found)[k] == sorted[i];
    was := found[k];
  }

  /** The page after refreshAll over a file system that does not change: the repositories that
      discovery finds, each with git's answer, rearranged into the order of the mode. */
  lemma PageAgreesWithGit(c: Contents, w: World, baseDir: string, p: Portfolio, ws: string, mode: string,
                          shown: seq<RepoSummary>)
    requires w.portfolios.Some? && DistinctPortfolios(w.portfolios.value)
    requires p in w.portfolios.value && ws in p.workspaces && (p.isDefault <==> p.name == "default")
    requires (PageBase(baseDir, p.name), ws) in w.workspaces
    requires UniqueNames(w.workspaces[(PageBase(baseDir, p.name), ws)])
    requires ShowsRepos(RefreshedAll(c, w, AllItems(baseDir, w.portfolios.value)), p.name, ws, mode,
                        w.workspaces[(PageBase(baseDir, p.name), ws)], shown)
    ensures GitPage(w, p.name, ws, mode, w.workspaces[(PageBase(baseDir, p.name), ws)], shown)
  {
    var found := w.workspaces[(PageBase(baseDir, p.name), ws)];
    var c' := RefreshedAll(c, w, AllItems(baseDir, w.portfolios.value));
    forall r | r in found ensures FromCache(c', CacheKey(p.name, ws), r) == Direct(w, r) {
      CacheAgreesWithGit(c, w, baseDir, p, ws, r);
    }
    ShownAsGitPage(c', w, p.name, ws, mode, found, shown);
  }
}
