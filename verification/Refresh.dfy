/** One refresh of the cache (internal/controller/refresher.go) and the pages that read it
    (enrichment in internal/controller/workspace.go and portfolio.go): over a file system
    that does not change, what the pages show is what git would have answered. */
module Refresh {
  import opened Types
  import opened Cache

  /** What the refresher is told by discovery and git. A key that is missing from a map is
      a call that fails. */
  datatype World = World(
    portfolios: Option<seq<Portfolio>>,
    workspaces: map<(string, string), seq<RepoSummary>>,
    git: map<string, RepoSummary>)

  datatype Portfolio = Portfolio(name: string, isDefault: bool, workspaces: seq<string>)

  datatype RefreshItem = RefreshItem(portfolioName: string, workspaceName: string, workspaceBase: string)

  // ---- Items and keys ----

  function WorkspaceBase(baseDir: string, p: Portfolio): string {
    if p.isDefault then baseDir else Join(baseDir, p.name)
  }

  function ItemFor(baseDir: string, p: Portfolio, workspace: string): RefreshItem {
    RefreshItem(p.name, workspace, WorkspaceBase(baseDir, p))
  }

  /** The items of the first `n` workspaces of a portfolio. */
  function ItemsOf(baseDir: string, p: Portfolio, n: nat): (items: seq<RefreshItem>)
    requires n <= |p.workspaces|
    ensures |items| == n
    ensures forall i :: 0 <= i < n ==> items[i] == ItemFor(baseDir, p, p.workspaces[i])
  {
    if n == 0 then [] else ItemsOf(baseDir, p, n - 1) + [ItemFor(baseDir, p, p.workspaces[n - 1])]
  }

  /** The items of a whole listing, in the order in which the loops visit them. */
  function AllItems(baseDir: string, portfolios: seq<Portfolio>): seq<RefreshItem> {
    if portfolios == [] then []
    else
      var last := portfolios[|portfolios| - 1];
      AllItems(baseDir, portfolios[..|portfolios| - 1]) + ItemsOf(baseDir, last, |last.workspaces|)
  }

  /** The directory and name under which discovery finds the workspace. */
  function At(item: RefreshItem): (string, string) { (item.workspaceBase, item.workspaceName) }

  function CacheKey(portfolio: string, workspace: string): string { portfolio + "/" + workspace }

  function Key(item: RefreshItem): string { CacheKey(item.portfolioName, item.workspaceName) }

  /** Names of directory entries contain no slash, so a key determines both its parts. */
  lemma KeyIsInjective(p: string, w: string, p': string, w': string)
    requires '/' !in p && '/' !in p'
    requires CacheKey(p, w) == CacheKey(p', w')
    ensures p == p' && w == w'
  {
    FirstSlashOf(p, w);
    FirstSlashOf(p', w');
    var k, n := CacheKey(p, w), |p|;
    assert p == k[..n] && p' == k[..n] && w == k[n + 1..] && w' == k[n + 1..];
  }

  function FirstSlash(s: string): nat {
    if s == "" || s[0] == '/' then 0 else 1 + FirstSlash(s[1..])
  }

  lemma {:induction false} FirstSlashOf(p: string, w: string)
    requires '/' !in p
    ensures FirstSlash(CacheKey(p, w)) == |p|
  {
    if p != "" {
      FirstSlashOf(p[1..], w);
      assert CacheKey(p, w)[1..] == CacheKey(p[1..], w);
    }
  }

  // ---- Refreshing one workspace ----

  /** What git says of a repository, with the metadata that discovery knows. */
  function Merged(git: RepoSummary, repo: RepoSummary): RepoSummary {
    git.(name := repo.name, path := repo.path, hasForge := repo.hasForge, repoLink := repo.repoLink)
  }

  function Overview(s: RepoSummary, workspace: string): RepoOverview {
    RepoOverview(s.name, workspace, s.path, s.branch, s.isDirty, s.ahead, s.behind, s.hasUpstream,
                 s.hasForge, s.repoLink, s.lastCommitTime)
  }

  const EMPTY: CacheWorkspaceData := CacheWorkspaceData(map[], map[])

  /** One turn of the loop over repositories; `None` is a failing RepoInfo. */
  function WithRepo(data: CacheWorkspaceData, workspace: string, repo: RepoSummary, info: Option<RepoSummary>)
    : CacheWorkspaceData
  {
    match info
    case None => data
    case Some(git) =>
      var s := Merged(git, repo);
      CacheWorkspaceData(data.summaries[repo.name := s], data.overviews[repo.name := Overview(s, workspace)])
  }

  function RepoInfo(w: World, path: string): Option<RepoSummary> {
    if path in w.git then Some(w.git[path]) else None
  }

  function Collected(w: World, workspace: string, repos: seq<RepoSummary>): CacheWorkspaceData {
    if repos == [] then EMPTY
    else
      var last := repos[|repos| - 1];
      WithRepo(Collected(w, workspace, repos[..|repos| - 1]), workspace, last, RepoInfo(w, last.path))
  }

  function Refreshed(c: Contents, w: World, item: RefreshItem): Contents {
    if At(item) in w.workspaces then c[Key(item) := Collected(w, item.workspaceName, w.workspaces[At(item)])] else c
  }

  function RefreshedAll(c: Contents, w: World, items: seq<RefreshItem>): Contents {
    if items == [] then c
    else Refreshed(RefreshedAll(c, w, items[..|items| - 1]), w, items[|items| - 1])
  }

  lemma RefreshedOneMore(c: Contents, w: World, items: seq<RefreshItem>, item: RefreshItem)
    ensures RefreshedAll(c, w, items + [item]) == Refreshed(RefreshedAll(c, w, items), w, item)
  {
    assert (items + [item])[..|items|] == items;
  }

  lemma {:induction false} RefreshedInTwoParts(c: Contents, w: World, items: seq<RefreshItem>, more: seq<RefreshItem>)
    ensures RefreshedAll(c, w, items + more) == RefreshedAll(RefreshedAll(c, w, items), w, more)
    decreases |more|
  {
    if more == [] {
      assert items + more == items;
    } else {
      var n := |more| - 1;
      RefreshedInTwoParts(c, w, items, more[..n]);
      assert items + more == items + more[..n] + [more[n]];
      RefreshedOneMore(c, w, items + more[..n], more[n]);
    }
  }

  class Refresher {
    const cache: InMemoryCache
    const baseDir: string

    constructor (cache: InMemoryCache, baseDir: string)
      ensures this.cache == cache && this.baseDir == baseDir
    {
      this.cache := cache;
      this.baseDir := baseDir;
    }

    method RefreshWorkspace(w: World, item: RefreshItem)
      modifies cache
      ensures cache.workspaces == Refreshed(old(cache.workspaces), w, item)
    {
      var at := (item.workspaceBase, item.workspaceName);
      if at !in w.workspaces {
        return;
      }
      var repos := w.workspaces[at];
      var cacheKey := item.portfolioName + "/" + item.workspaceName;
      var summaries: map<string, RepoSummary>, overviews: map<string, RepoOverview> := map[], map[];
      for i := 0 to |repos|
        invariant CacheWorkspaceData(summaries, overviews) == Collected(w, item.workspaceName, repos[..i])
        invariant cache.workspaces == old(cache.workspaces)
      {
        var repo := repos[i];
        assert repos[..i + 1][..i] == repos[..i];
        var gitInfo := RepoInfo(w, repo.path);
        if gitInfo.None? {
          continue;
        }
        var info := gitInfo.value.(name := repo.name, path := repo.path);
        info := info.(hasForge := repo.hasForge, repoLink := repo.repoLink);
        summaries := summaries[repo.name := info];
        overviews := overviews[repo.name := RepoOverview(
          repo.name, item.workspaceName, repo.path, info.branch, info.isDirty, info.ahead, info.behind,
          info.hasUpstream, repo.hasForge, repo.repoLink, info.lastCommitTime)];
      }
      assert repos[..|repos|] == repos;
      cache.SetWorkspace(cacheKey, CacheWorkspaceData(summaries, overviews));
    }

    /** The inner loop of refreshAll. */
    method RefreshPortfolio(w: World, p: Portfolio)
      modifies cache
      ensures cache.workspaces ==
              RefreshedAll(old(cache.workspaces), w, ItemsOf(baseDir, p, |p.workspaces|))
    {
      var wsBase := Join(baseDir, p.name);
      if p.isDefault {
        wsBase := baseDir;
      }
      for j := 0 to |p.workspaces|
        invariant cache.workspaces == RefreshedAll(old(cache.workspaces), w, ItemsOf(baseDir, p, j))
      {
        var item := RefreshItem(p.name, p.workspaces[j], wsBase);
        RefreshedOneMore(old(cache.workspaces), w, ItemsOf(baseDir, p, j), item);
        RefreshWorkspace(w, item);
      }
    }

    method RefreshAll(w: World)
      modifies cache
      ensures cache.workspaces ==
              if w.portfolios.None? then old(cache.workspaces)
              else RefreshedAll(old(cache.workspaces), w, AllItems(baseDir, w.portfolios.value))
    {
      if w.portfolios.None? {
        return;
      }
      var portfolios := w.portfolios.value;
      for i := 0 to |portfolios|
        invariant cache.workspaces == RefreshedAll(old(cache.workspaces), w, AllItems(baseDir, portfolios[..i]))
      {
        var p := portfolios[i];
        RefreshedInTwoParts(old(cache.workspaces), w, AllItems(baseDir, portfolios[..i]),
                            ItemsOf(baseDir, p, |p.workspaces|));
        RefreshPortfolio(w, p);
        assert portfolios[..i + 1][..i] == portfolios[..i];
      }
      assert portfolios[..|portfolios|] == portfolios;
    }
  }

  // ---- What one refresh leaves in the cache ----

  predicate UniqueNames(repos: seq<RepoSummary>) {
    forall i, j :: 0 <= i < j < |repos| ==> repos[i].name != repos[j].name
  }

  /** An entry has a repository just when git answered for it, with git's answer. */
  lemma {:induction false} CollectedIsPointwise(w: World, workspace: string, repos: seq<RepoSummary>, i: nat)
    requires UniqueNames(repos) && i < |repos|
    ensures var d, r := Collected(w, workspace, repos), repos[i];
            && (r.name in d.summaries <==> r.path in w.git)
            && (r.name in d.overviews <==> r.path in w.git)
            && (r.path in w.git ==>
                  && d.summaries[r.name] == Merged(w.git[r.path], r)
                  && d.overviews[r.name] == Overview(Merged(w.git[r.path], r), workspace))
  {
    var n := |repos| - 1;
    if i < n {
      CollectedIsPointwise(w, workspace, repos[..n], i);
    } else {
      CollectedNames(w, workspace, repos[..n], repos[n].name);
    }
  }

  lemma {:induction false} CollectedNames(w: World, workspace: string, repos: seq<RepoSummary>, name: string)
    requires forall r <- repos :: r.name != name
    ensures var d := Collected(w, workspace, repos); name !in d.summaries && name !in d.overviews
  {
    if repos != [] { CollectedNames(w, workspace, repos[..|repos| - 1], name); }
  }

  /** No two items with one key lie in different directories. */
  predicate Consistent(items: seq<RefreshItem>) {
    forall i, j :: 0 <= i < |items| && 0 <= j < |items| && Key(items[i]) == Key(items[j]) ==> items[i] == items[j]
  }

  /** After a refresh of consistent items, each of them has its own data in the cache. */
  lemma {:induction false} EveryItemIsCached(c: Contents, w: World, items: seq<RefreshItem>, item: RefreshItem)
    requires Consistent(items) && item in items
    requires (item.workspaceBase, item.workspaceName) in w.workspaces
    ensures var c' := RefreshedAll(c, w, items);
            && Key(item) in c'
            && c'[Key(item)] ==
               Collected(w, item.workspaceName, w.workspaces[(item.workspaceBase, item.workspaceName)])
  {
    var n := |items| - 1;
    if items[n] != item {
      assert items == items[..n] + [items[n]];
      EveryItemIsCached(c, w, items[..n], item);
    }
  }

  /** Listings as discovery makes them: slash-free names, each portfolio name once. */
  predicate DistinctPortfolios(portfolios: seq<Portfolio>) {
    && (forall p <- portfolios :: '/' !in p.name)
    && (forall i, j :: 0 <= i < j < |portfolios| ==> portfolios[i].name != portfolios[j].name)
  }

  lemma {:induction false} ItemIsListed(baseDir: string, portfolios: seq<Portfolio>, item: RefreshItem)
    requires item in AllItems(baseDir, portfolios)
    ensures exists p, ws :: p in portfolios && ws in p.workspaces && item == ItemFor(baseDir, p, ws)
  {
    var last := portfolios[|portfolios| - 1];
    if item in ItemsOf(baseDir, last, |last.workspaces|) {
      var i :| 0 <= i < |last.workspaces| && item == ItemFor(baseDir, last, last.workspaces[i]);
      assert last.workspaces[i] in last.workspaces;
    } else {
      ItemIsListed(baseDir, portfolios[..|portfolios| - 1], item);
    }
  }

  lemma {:induction false} ListedIsItem(baseDir: string, portfolios: seq<Portfolio>, p: Portfolio, ws: string)
    requires p in portfolios && ws in p.workspaces
    ensures ItemFor(baseDir, p, ws) in AllItems(baseDir, portfolios)
  {
    var n := |portfolios| - 1;
    if portfolios[n] == p {
      var i :| 0 <= i < |p.workspaces| && p.workspaces[i] == ws;
      assert ItemsOf(baseDir, p, |p.workspaces|)[i] == ItemFor(baseDir, p, ws);
    } else {
      ListedIsItem(baseDir, portfolios[..n], p, ws);
    }
  }

  lemma DistinctIsConsistent(baseDir: string, portfolios: seq<Portfolio>)
    requires DistinctPortfolios(portfolios)
    ensures Consistent(AllItems(baseDir, portfolios))
  {
    var items := AllItems(baseDir, portfolios);
    forall i, j | 0 <= i < |items| && 0 <= j < |items| && Key(items[i]) == Key(items[j])
      ensures items[i] == items[j]
    {
      ItemIsListed(baseDir, portfolios, items[i]);
      ItemIsListed(baseDir, portfolios, items[j]);
      var p, ws :| p in portfolios && ws in p.workspaces && items[i] == ItemFor(baseDir, p, ws);
      var q, xs :| q in portfolios && xs in q.workspaces && items[j] == ItemFor(baseDir, q, xs);
      KeyIsInjective(p.name, ws, q.name, xs);
    }
  }

  // ---- The pages ----

  /** A repository with the fields that GetWorkspace takes from a summary. */
  function ShownSummary(repo: RepoSummary, cached: RepoSummary): RepoSummary {
    repo.(branch := cached.branch, isDirty := cached.isDirty, statusFiles := cached.statusFiles,
          diffStat := cached.diffStat, recentLogs := cached.recentLogs, ahead := cached.ahead,
          behind := cached.behind, hasUpstream := cached.hasUpstream, lastCommitTime := cached.lastCommitTime)
  }

  function ShownOverview(repo: RepoOverview, cached: RepoOverview): RepoOverview {
    repo.(branch := cached.branch, isDirty := cached.isDirty, ahead := cached.ahead, behind := cached.behind,
          hasUpstream := cached.hasUpstream, lastCommitTime := cached.lastCommitTime)
  }

  function FromCache(c: Contents, key: string, repo: RepoSummary): RepoSummary {
    var cached := SummaryIn(c, key, repo.name);
    if cached.Some? then ShownSummary(repo, cached.value) else repo
  }

  function OverviewFromCache(c: Contents, key: string, repo: RepoOverview): RepoOverview {
    var cached := OverviewIn(c, key, repo.name);
    if cached.Some? then ShownOverview(repo, cached.value) else repo
  }

  /** What the page would show if it called git itself: the nine fields that git knows of the
      repository at that path, and what discovery found for the rest. */
  function Direct(w: World, repo: RepoSummary): (shown: RepoSummary)
    ensures repo.path !in w.git ==> shown == repo
    ensures repo.path in w.git ==> var git := w.git[repo.path];
              && shown.branch == git.branch && shown.isDirty == git.isDirty
              && shown.ahead == git.ahead && shown.behind == git.behind && shown.hasUpstream == git.hasUpstream
              && shown.statusFiles == git.statusFiles && shown.diffStat == git.diffStat
              && shown.recentLogs == git.recentLogs && shown.lastCommitTime == git.lastCommitTime
    ensures shown.name == repo.name && shown.path == repo.path
    ensures shown.hasForge == repo.hasForge && shown.repoLink == repo.repoLink
  {
    if repo.path in w.git then ShownSummary(repo, w.git[repo.path]) else repo
  }

  /** The same of the list view, which has six of the fields. */
  function DirectOverview(w: World, repo: RepoOverview): (shown: RepoOverview)
    ensures repo.path !in w.git ==> shown == repo
    ensures repo.path in w.git ==> var git := w.git[repo.path];
              && shown.branch == git.branch && shown.isDirty == git.isDirty
              && shown.ahead == git.ahead && shown.behind == git.behind && shown.hasUpstream == git.hasUpstream
              && shown.lastCommitTime == git.lastCommitTime
    ensures shown.name == repo.name && shown.workspaceName == repo.workspaceName && shown.path == repo.path
    ensures shown.hasForge == repo.hasForge && shown.repoLink == repo.repoLink
  {
    if repo.path in w.git then ShownOverview(repo, Overview(w.git[repo.path], repo.workspaceName)) else repo
  }

  /** The enrichment loop of GetWorkspace, in place over the slice of repositories. */
  method EnrichRepos(cache: InMemoryCache, cacheKey: string, repos: array<RepoSummary>)
    modifies repos
    ensures forall i :: 0 <= i < repos.Length ==>
              repos[i] == FromCache(cache.workspaces, cacheKey, old(repos[i]))
    ensures forall i :: 0 <= i < repos.Length ==>
              var cached, r, was := cache.workspaces, repos[i], old(repos[i]);
              if cacheKey in cached && was.name in cached[cacheKey].summaries then
                var s := cached[cacheKey].summaries[was.name];
                && (r.branch, r.isDirty, r.statusFiles, r.diffStat) == (s.branch, s.isDirty, s.statusFiles, s.diffStat)
                && (r.recentLogs, r.ahead, r.behind) == (s.recentLogs, s.ahead, s.behind)
                && (r.hasUpstream, r.lastCommitTime) == (s.hasUpstream, s.lastCommitTime)
                && (r.name, r.path, r.hasForge, r.repoLink) == (was.name, was.path, was.hasForge, was.repoLink)
              else r == was
  {
    for i := 0 to repos.Length
      invariant forall j :: 0 <= j < i ==> repos[j] == FromCache(cache.workspaces, cacheKey, old(repos[j]))
      invariant forall j :: i <= j < repos.Length ==> repos[j] == old(repos[j])
    {
      var cached := cache.GetRepoSummary(cacheKey, repos[i].name);
      if cached.Some? {
        var s := cached.value;
        repos[i] := repos[i].(branch := s.branch, isDirty := s.isDirty);
        repos[i] := repos[i].(statusFiles := s.statusFiles, diffStat := s.diffStat, recentLogs := s.recentLogs);
        repos[i] := repos[i].(ahead := s.ahead, behind := s.behind, hasUpstream := s.hasUpstream);
        repos[i] := repos[i].(lastCommitTime := s.lastCommitTime);
      }
    }
  }

  /** The directory that GetWorkspace reads for a portfolio. */
  function PageBase(baseDir: string, portfolio: string): string {
    if portfolio != "default" then Join(baseDir, portfolio) else baseDir
  }

  /** Page and refresher look in the same directory just when "default" is the name of the
      catch-all portfolio and of no other. */
  lemma PageBaseAgrees(baseDir: string, p: Portfolio)
    ensures PageBase(baseDir, p.name) == WorkspaceBase(baseDir, p) <==> (p.isDefault <==> p.name == "default")
  {
    assert |Join(baseDir, p.name)| > |baseDir|;
  }

  /** The cache agrees with the call it replaces: after refreshAll over a file system that
      does not change, every repository on a workspace page is shown exactly as if git
      had been asked for it there and then, and left at its defaults where git fails. */
  lemma CacheAgreesWithGit(c: Contents, w: World, baseDir: string, p: Portfolio, ws: string, repo: RepoSummary)
    requires w.portfolios.Some? && DistinctPortfolios(w.portfolios.value)
    requires p in w.portfolios.value && ws in p.workspaces && (p.isDefault <==> p.name == "default")
    requires (PageBase(baseDir, p.name), ws) in w.workspaces
    requires var repos := w.workspaces[(PageBase(baseDir, p.name), ws)]; UniqueNames(repos) && repo in repos
    ensures var c' := RefreshedAll(c, w, AllItems(baseDir, w.portfolios.value));
            FromCache(c', CacheKey(p.name, ws), repo) == Direct(w, repo)
  {
    var item := ItemFor(baseDir, p, ws);
    PageBaseAgrees(baseDir, p);
    DistinctIsConsistent(baseDir, w.portfolios.value);
    ListedIsItem(baseDir, w.portfolios.value, p, ws);
    EveryItemIsCached(c, w, AllItems(baseDir, w.portfolios.value), item);
    var repos := w.workspaces[(PageBase(baseDir, p.name), ws)];
    var i :| 0 <= i < |repos| && repos[i] == repo;
    CollectedIsPointwise(w, ws, repos, i);
  }

  /** The same for the lighter listing of a workspace: an overview with the name and path
      of a discovered repository is shown as if git had been asked. */
  lemma CachedOverviewAgreesWithGit(c: Contents, w: World, baseDir: string, p: Portfolio, ws: string,
                                    repo: RepoOverview, i: nat)
    requires w.portfolios.Some? && DistinctPortfolios(w.portfolios.value)
    requires p in w.portfolios.value && ws in p.workspaces
    requires (WorkspaceBase(baseDir, p), ws) in w.workspaces
    requires var repos := w.workspaces[(WorkspaceBase(baseDir, p), ws)];
             UniqueNames(repos) && i < |repos| && repos[i].name == repo.name && repos[i].path == repo.path
    ensures var c' := RefreshedAll(c, w, AllItems(baseDir, w.portfolios.value));
            OverviewFromCache(c', CacheKey(p.name, ws), repo) == DirectOverview(w, repo)
  {
    var item := ItemFor(baseDir, p, ws);
    DistinctIsConsistent(baseDir, w.portfolios.value);
    ListedIsItem(baseDir, w.portfolios.value, p, ws);
    EveryItemIsCached(c, w, AllItems(baseDir, w.portfolios.value), item);
    CollectedIsPointwise(w, ws, w.workspaces[(WorkspaceBase(baseDir, p), ws)], i);
  }

  // ---- Items with one key ----

  /** The last item with the key whose workspace can be read. */
  function LastWriter(w: World, items: seq<RefreshItem>, key: string): Option<RefreshItem> {
    if items == [] then None
    else
      var last := items[|items| - 1];
      if Key(last) == key && At(last) in w.workspaces then Some(last)
      else LastWriter(w, items[..|items| - 1], key)
  }

  /** Whatever the items, the last one that can be read has the entry of its key. */
  lemma {:induction false} LastWriterWins(c: Contents, w: World, items: seq<RefreshItem>, key: string)
    ensures var c' := RefreshedAll(c, w, items);
            match LastWriter(w, items, key)
            case None => (key in c' <==> key in c) && (key in c ==> c'[key] == c[key])
            case Some(x) =>
              && x in items && Key(x) == key && At(x) in w.workspaces && key in c'
              && c'[key] == Collected(w, x.workspaceName, w.workspaces[At(x)])
  {
    if items != [] {
      var n := |items| - 1;
      LastWriterWins(c, w, items[..n], key);
      assert items == items[..n] + [items[n]];
    }
  }

  lemma {:induction false} LastWriterExists(w: World, items: seq<RefreshItem>, item: RefreshItem)
    requires item in items && At(item) in w.workspaces
    ensures LastWriter(w, items, Key(item)).Some?
  {
    var n := |items| - 1;
    if items[n] != item { LastWriterExists(w, items[..n], item); }
  }

  /** The page of an item's workspace shows every repository found there as git answers. */
  predicate ShownAsGit(c: Contents, w: World, item: RefreshItem)
    requires At(item) in w.workspaces
  {
    forall r <- w.workspaces[At(item)] :: FromCache(c, Key(item), r) == Direct(w, r)
  }

  /** The same of the list view. */
  predicate ListedAsGit(c: Contents, w: World, item: RefreshItem)
    requires At(item) in w.workspaces
  {
    forall r <- w.workspaces[At(item)] ::
      OverviewFromCache(c, Key(item), Overview(r, item.workspaceName)) == DirectOverview(w, Overview(r, item.workspaceName))
  }

  function WithGit(w: World, git: map<string, RepoSummary>): World { w.(git := git) }

  /** After a refresh, whatever git answers. */
  ghost predicate AlwaysShown(c: Contents, w: World, items: seq<RefreshItem>, item: RefreshItem)
    requires At(item) in w.workspaces
  {
    forall git :: ShownAsGit(RefreshedAll(c, WithGit(w, git), items), WithGit(w, git), item)
  }

  ghost predicate AlwaysListed(c: Contents, w: World, items: seq<RefreshItem>, item: RefreshItem)
    requires At(item) in w.workspaces
  {
    forall git :: ListedAsGit(RefreshedAll(c, WithGit(w, git), items), WithGit(w, git), item)
  }

  /** A repository lies in one directory only. */
  ghost predicate Apart(w: World) {
    forall a, b :: a in w.workspaces && b in w.workspaces && a != b ==>
      forall r, q :: r in w.workspaces[a] && q in w.workspaces[b] ==> r.path != q.path
  }

  /** The last item that fills the entry lies in the item's own directory, or there is nothing to show. */
  predicate OwnsItsKey(w: World, items: seq<RefreshItem>, item: RefreshItem)
    requires At(item) in w.workspaces
  {
    var last := LastWriter(w, items, Key(item));
    w.workspaces[At(item)] == [] || (last.Some? && At(last.value) == At(item))
  }

  lemma {:induction false} LastWriterIgnoresGit(w: World, items: seq<RefreshItem>, key: string, git: map<string, RepoSummary>)
    ensures LastWriter(WithGit(w, git), items, key) == LastWriter(w, items, key)
  {
    if items != [] { LastWriterIgnoresGit(w, items[..|items| - 1], key, git); }
  }

  lemma OwnedIsShown(c: Contents, w: World, items: seq<RefreshItem>, item: RefreshItem)
    requires item in items && At(item) in w.workspaces && UniqueNames(w.workspaces[At(item)])
    requires OwnsItsKey(w, items, item)
    ensures ShownAsGit(RefreshedAll(c, w, items), w, item) && ListedAsGit(RefreshedAll(c, w, items), w, item)
  {
    var repos := w.workspaces[At(item)];
    forall r | r in repos
      ensures FromCache(RefreshedAll(c, w, items), Key(item), r) == Direct(w, r)
      ensures var o := Overview(r, item.workspaceName);
              OverviewFromCache(RefreshedAll(c, w, items), Key(item), o) == DirectOverview(w, o)
    {
      LastWriterWins(c, w, items, Key(item));
      var i :| 0 <= i < |repos| && repos[i] == r;
      CollectedIsPointwise(w, item.workspaceName, repos, i);
    }
  }

  /** The refreshed cache field by field: the entry of an
      answered repository has git's fields under discovery's name, path, forge mark and link; so
      has its overview, with the name of the workspace. */
  lemma RefreshedFieldByField(c: Contents, w: World, items: seq<RefreshItem>, item: RefreshItem, r: RepoSummary)
    requires item in items && At(item) in w.workspaces && UniqueNames(w.workspaces[At(item)])
    requires w.workspaces[At(item)] != [] && OwnsItsKey(w, items, item)
    requires r in w.workspaces[At(item)] && r.path in w.git
    ensures var c', git := RefreshedAll(c, w, items), w.git[r.path];
            && Key(item) in c' && r.name in c'[Key(item)].summaries && r.name in c'[Key(item)].overviews
            && var s, o := c'[Key(item)].summaries[r.name], c'[Key(item)].overviews[r.name];
            && (s.name, s.path, s.hasForge, s.repoLink) == (r.name, r.path, r.hasForge, r.repoLink)
            && (o.name, o.path, o.hasForge, o.repoLink) == (r.name, r.path, r.hasForge, r.repoLink)
            && o.workspaceName == item.workspaceName
            && (s.branch, s.isDirty, s.ahead, s.behind) == (git.branch, git.isDirty, git.ahead, git.behind)
            && (o.branch, o.isDirty, o.ahead, o.behind) == (git.branch, git.isDirty, git.ahead, git.behind)
            && (s.hasUpstream, s.lastCommitTime) == (git.hasUpstream, git.lastCommitTime)
            && (o.hasUpstream, o.lastCommitTime) == (git.hasUpstream, git.lastCommitTime)
            && (s.statusFiles, s.diffStat, s.recentLogs) == (git.statusFiles, git.diffStat, git.recentLogs)
  {
    var repos := w.workspaces[At(item)];
    LastWriterWins(c, w, items, Key(item));
    var i :| 0 <= i < |repos| && repos[i] == r;
    CollectedIsPointwise(w, item.workspaceName, repos, i);
  }

  lemma {:induction false} CollectedUnanswered(w: World, workspace: string, repos: seq<RepoSummary>)
    requires forall r <- repos :: r.path !in w.git
    ensures Collected(w, workspace, repos) == EMPTY
  {
    if repos != [] { CollectedUnanswered(w, workspace, repos[..|repos| - 1]); }
  }

  /** An answer for the first repository that the page does not show. */
  function Telling(r: RepoSummary): map<string, RepoSummary> { map[r.path := r.(branch := r.branch + "+")] }

  lemma RivalIsShown(c: Contents, w: World, items: seq<RefreshItem>, item: RefreshItem, x: RefreshItem)
    requires At(item) in w.workspaces && w.workspaces[At(item)] != [] && Apart(w)
    requires LastWriter(w, items, Key(item)) == Some(x) && At(x) != At(item) && At(x) in w.workspaces
    ensures var w' := WithGit(w, Telling(w.workspaces[At(item)][0]));
            && !ShownAsGit(RefreshedAll(c, w', items), w', item)
            && !ListedAsGit(RefreshedAll(c, w', items), w', item)
  {
    var r := w.workspaces[At(item)][0];
    var w' := WithGit(w, Telling(r));
    LastWriterIgnoresGit(w, items, Key(item), Telling(r));
    LastWriterWins(c, w', items, Key(item));
    CollectedUnanswered(w', x.workspaceName, w.workspaces[At(x)]);
    var c', o := RefreshedAll(c, w', items), Overview(r, item.workspaceName);
    assert r in w.workspaces[At(item)] && |r.branch + "+"| != |r.branch|;
    assert FromCache(c', Key(item), r).branch != Direct(w', r).branch;
    assert OverviewFromCache(c', Key(item), o).branch != DirectOverview(w', o).branch;
  }

  /** Exactly when the cache agrees with git, for any listing, also one with several portfolios
      of one name: page and list of a workspace show every repository as git answers, for all
      answers of git, if and only if the last readable item with its key lies in its own
      directory, or there is no repository to show. */
  lemma AgreesJustForOwners(c: Contents, w: World, items: seq<RefreshItem>, item: RefreshItem)
    requires item in items && At(item) in w.workspaces && UniqueNames(w.workspaces[At(item)]) && Apart(w)
    ensures AlwaysShown(c, w, items, item) <==> OwnsItsKey(w, items, item)
    ensures AlwaysListed(c, w, items, item) <==> OwnsItsKey(w, items, item)
  {
    if OwnsItsKey(w, items, item) {
      forall git
        ensures var w' := WithGit(w, git);
                ShownAsGit(RefreshedAll(c, w', items), w', item) && ListedAsGit(RefreshedAll(c, w', items), w', item)
      {
        LastWriterIgnoresGit(w, items, Key(item), git);
        OwnedIsShown(c, WithGit(w, git), items, item);
      }
    } else {
      LastWriterExists(w, items, item);
      LastWriterWins(c, w, items, Key(item));
      RivalIsShown(c, w, items, item, LastWriter(w, items, Key(item)).value);
    }
  }

  /** An input that fails: beside loose workspaces there is a directory named "default". The catch-all
      portfolio is refreshed last and overwrites the entry, so the listing of the
      directory shows the branch of the loose repository with the same name. */
  lemma NamedDefaultCollides(c: Contents, baseDir: string, ws: string, named: RepoSummary, loose: RepoSummary,
                             git: map<string, RepoSummary>)
    requires named.name == loose.name && named.path in git && loose.path in git
    requires git[named.path].branch != git[loose.path].branch
    ensures
      var dir, catchAll := Portfolio("default", false, [ws]), Portfolio("default", true, [ws]);
      var w := World(Some([dir, catchAll]), map[(Join(baseDir, "default"), ws) := [named], (baseDir, ws) := [loose]], git);
      OverviewFromCache(RefreshedAll(c, w, AllItems(baseDir, [dir, catchAll])), CacheKey("default", ws), Overview(named, ws))
      != DirectOverview(w, Overview(named, ws))
  {
    var dir, catchAll := Portfolio("default", false, [ws]), Portfolio("default", true, [ws]);
    var w := World(Some([dir, catchAll]), map[(Join(baseDir, "default"), ws) := [named], (baseDir, ws) := [loose]], git);
    var item := ItemFor(baseDir, catchAll, ws);
    var before := AllItems(baseDir, [dir, catchAll][..1]);
    assert ItemsOf(baseDir, catchAll, 1) == [item];
    assert AllItems(baseDir, [dir, catchAll]) == before + [item];
    RefreshedOneMore(c, w, before, item);
    CollectedIsPointwise(w, ws, [loose], 0);
  }
}
