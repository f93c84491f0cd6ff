/** What discovery promises over a directory tree: every visible workspace is in exactly one
    listed portfolio, no listed portfolio is empty, names are distinct, and the list view and
    the detail view agree. */
module Partition {
  import opened Types
  import opened Ordering
  import opened Discovery
  import opened Refresh

  // ---- What is listed ----

  /** A repository of the list view is a directory in the workspace whose name neither begins with a dot
      nor matches a pattern of its ignore file, and that holds a .git; it has a forge when it holds
      a forge.yaml, and nothing that git knows is filled in yet. */
  lemma ListedRepos(glob: Glob, wsPath: string, wsName: string, dir: Dir, r: RepoOverview)
    requires Clean(dir)
    ensures r in ListView(glob, wsPath, wsName, dir) <==>
            dir.readable && exists e: Entry ::
              && e in dir.entries && e.node.Directory? && e.name != "" && e.name[0] != '.'
              && (forall p <- dir.patterns :: !glob(p, e.name))
              && (exists x <- e.node.dir.entries :: x.name == ".git")
              && (r.hasForge <==> exists x <- e.node.dir.entries :: x.name == "forge.yaml")
              && r == RepoOverview(e.name, wsName, wsPath + "/" + e.name, "", false, 0, 0, false, r.hasForge,
                                   "/workspaces/" + wsName + "/repos/" + e.name, 0)
  {
    ListMember(glob, wsPath, wsName, dir, r);
    forall e: Entry | e in dir.entries { ListedIs(glob, wsPath, wsName, dir, e, r); }
  }

  lemma ListMember(glob: Glob, wsPath: string, wsName: string, dir: Dir, r: RepoOverview)
    requires Clean(dir)
    ensures r in ListView(glob, wsPath, wsName, dir) <==>
            dir.readable
            && exists e :: e in dir.entries && RepoFilter(glob, dir)(e) && OverviewOf(wsPath, wsName)(e) == r
  {
    OverviewsAreDistinct(glob, wsPath, wsName, dir);
    SortedByName(FoundOverviews(glob, wsPath, wsName, dir), OverviewName);
    CollectMember(RepoFilter(glob, dir), OverviewOf(wsPath, wsName), dir.entries, r);
  }

  lemma ListedIs(glob: Glob, wsPath: string, wsName: string, dir: Dir, e: Entry, r: RepoOverview)
    ensures RepoFilter(glob, dir)(e) && OverviewOf(wsPath, wsName)(e) == r <==>
            && e.node.Directory? && e.name != "" && e.name[0] != '.'
            && (forall p <- dir.patterns :: !glob(p, e.name))
            && (exists x <- e.node.dir.entries :: x.name == ".git")
            && (r.hasForge <==> exists x <- e.node.dir.entries :: x.name == "forge.yaml")
            && r == RepoOverview(e.name, wsName, wsPath + "/" + e.name, "", false, 0, 0, false, r.hasForge,
                                 "/workspaces/" + wsName + "/repos/" + e.name, 0)
  {
    RepoIs(glob, dir, e);
  }

  lemma RepoIs(glob: Glob, dir: Dir, e: Entry)
    ensures RepoFilter(glob, dir)(e) <==>
            && e.node.Directory? && e.name != "" && e.name[0] != '.'
            && (forall p <- dir.patterns :: !glob(p, e.name))
            && (exists x <- e.node.dir.entries :: x.name == ".git")
  {
  }

  lemma DetailIs(glob: Glob, wsPath: string, wsName: string, dir: Dir, e: Entry, r: RepoSummary)
    ensures RepoFilter(glob, dir)(e) && SummaryOf(wsPath, wsName)(e) == r <==>
            && e.node.Directory? && e.name != "" && e.name[0] != '.'
            && (forall p <- dir.patterns :: !glob(p, e.name))
            && (exists x <- e.node.dir.entries :: x.name == ".git")
            && (r.hasForge <==> exists x <- e.node.dir.entries :: x.name == "forge.yaml")
            && r == RepoSummary(e.name, wsPath + "/" + e.name, "", false, [], "", [], r.hasForge,
                                "/workspaces/" + wsName + "/repos/" + e.name, 0, 0, false, 0)
  {
    RepoIs(glob, dir, e);
  }

  /** The repositories of the detail view are found in the same way. */
  lemma DetailedRepos(glob: Glob, wsPath: string, wsName: string, dir: Dir, r: RepoSummary)
    requires Clean(dir)
    ensures r in DetailView(glob, wsPath, wsName, dir) <==>
            exists e: Entry ::
              && e in dir.entries && e.node.Directory? && e.name != "" && e.name[0] != '.'
              && (forall p <- dir.patterns :: !glob(p, e.name))
              && (exists x <- e.node.dir.entries :: x.name == ".git")
              && (r.hasForge <==> exists x <- e.node.dir.entries :: x.name == "forge.yaml")
              && r == RepoSummary(e.name, wsPath + "/" + e.name, "", false, [], "", [], r.hasForge,
                                  "/workspaces/" + wsName + "/repos/" + e.name, 0, 0, false, 0)
  {
    DetailMember(glob, wsPath, wsName, dir, r);
    forall e: Entry | e in dir.entries { DetailIs(glob, wsPath, wsName, dir, e, r); }
  }

  lemma DetailMember(glob: Glob, wsPath: string, wsName: string, dir: Dir, r: RepoSummary)
    requires Clean(dir)
    ensures r in DetailView(glob, wsPath, wsName, dir) <==>
            exists e :: e in dir.entries && RepoFilter(glob, dir)(e) && SummaryOf(wsPath, wsName)(e) == r
  {
    SummariesAreDistinct(glob, wsPath, wsName, dir);
    SortedByName(FoundSummaries(glob, wsPath, wsName, dir), SummaryName);
    CollectMember(RepoFilter(glob, dir), SummaryOf(wsPath, wsName), dir.entries, r);
  }

  /** A workspace of a listing is a visible directory that holds a go.work, with its list view. */
  lemma ListedWorkspaces(glob: Glob, base: string, dir: Dir, ws: WorkspaceSummary)
    requires Clean(dir)
    ensures ws in WorkspaceList(glob, base, dir) <==>
            exists e: Entry ::
              && e in dir.entries && e.node.Directory? && e.name != "" && e.name[0] != '.'
              && (forall p <- dir.patterns :: !glob(p, e.name))
              && (exists x <- e.node.dir.entries :: x.name == "go.work")
              && ws.name == e.name && ws.path == base + "/" + e.name
              && ws.repos == ListView(glob, base + "/" + e.name, e.name, e.node.dir)
              && ws == WorkspaceSummary(ws.name, ws.path, |ws.repos|, ws.repos, [], [], "", [], WorkspaceProgress(0, 0, 0, 0))
  {
    WorkspaceListIs(glob, base, dir, ws);
  }

  /** There is a workspace to list. */
  lemma SomeWorkspace(glob: Glob, dir: Dir)
    ensures HasWorkspace(glob, dir) <==>
            exists e: Entry ::
              && e in dir.entries && e.node.Directory? && e.name != "" && e.name[0] != '.'
              && (forall p <- dir.patterns :: !glob(p, e.name))
              && (exists x <- e.node.dir.entries :: x.name == "go.work")
  {
    if e: Entry :| && e in dir.entries && e.node.Directory? && e.name != "" && e.name[0] != '.'
                   && (forall p <- dir.patterns :: !glob(p, e.name))
                   && (exists x <- e.node.dir.entries :: x.name == "go.work") {
      assert IsWorkspace(glob, dir, e);
    }
  }

  /** The named portfolios are the visible directories that hold no go.work, can be read, and have a
      workspace; the catch-all portfolio follows them, when the base directory has a workspace. */
  lemma ListedPortfolios(glob: Glob, baseDir: string, dir: Dir, p: PortfolioSummary)
    requires Clean(dir)
    ensures PortfolioList(glob, baseDir, dir) == NamedPart(glob, baseDir, dir) +
              if HasWorkspace(glob, dir) then
                [PortfolioSummary("default", baseDir, true, WorkspaceList(glob, baseDir, dir), NO_TOTALS, "")] else []
    ensures p in NamedPart(glob, baseDir, dir) <==>
            exists d: Entry ::
              && d in dir.entries && d.node.Directory? && d.name != "" && d.name[0] != '.'
              && (forall q <- dir.patterns :: !glob(q, d.name))
              && !(exists x <- d.node.dir.entries :: x.name == "go.work")
              && d.node.dir.readable && HasWorkspace(glob, d.node.dir)
              && p.workspaces == WorkspaceList(glob, baseDir + "/" + d.name, d.node.dir)
              && p == PortfolioSummary(d.name, baseDir + "/" + d.name, false, p.workspaces, NO_TOTALS, "")
  {
    NamedPartIs(glob, baseDir, dir, p);
  }

  // ---- In order of name ----

  /** Portfolios but the catch-all, workspaces and repositories are listed in strictly ascending order
      of their names. */
  lemma ListingsAscend(glob: Glob, baseDir: string, dir: Dir, wsName: string, i: nat, j: nat)
    requires Clean(dir) && i < j
    ensures var ps := NamedPart(glob, baseDir, dir); j < |ps| ==> StringLess(ps[i].name, ps[j].name)
    ensures var wss := WorkspaceList(glob, baseDir, dir); j < |wss| ==> StringLess(wss[i].name, wss[j].name)
    ensures var repos := ListView(glob, baseDir, wsName, dir); j < |repos| ==> StringLess(repos[i].name, repos[j].name)
    ensures var repos := DetailView(glob, baseDir, wsName, dir); j < |repos| ==> StringLess(repos[i].name, repos[j].name)
  {
    NamedPartSorted(glob, baseDir, dir);
    WorkspacesAreDistinct(glob, baseDir, dir);
    SortedByName(FoundWorkspaces(glob, baseDir, dir), WorkspaceName);
    OverviewsAreDistinct(glob, baseDir, wsName, dir);
    SortedByName(FoundOverviews(glob, baseDir, wsName, dir), OverviewName);
    SummariesAreDistinct(glob, baseDir, wsName, dir);
    SortedByName(FoundSummaries(glob, baseDir, wsName, dir), SummaryName);
    var ps, wss := NamedPart(glob, baseDir, dir), WorkspaceList(glob, baseDir, dir);
    var light, full := ListView(glob, baseDir, wsName, dir), DetailView(glob, baseDir, wsName, dir);
    if j < |ps| { AscendingNames(ps, PortfolioName, i, j); }
    if j < |wss| { AscendingNames(wss, WorkspaceName, i, j); }
    if j < |light| { AscendingNames(light, OverviewName, i, j); }
    if j < |full| { AscendingNames(full, SummaryName, i, j); }
  }

  // ---- What can be opened ----

  /** A name opens a workspace just when the directory of that name, hidden or not, can be read and holds
      a go.work; and a portfolio just when it is "default" or a directory, and can be read. */
  lemma OpensJustReadable(glob: Glob, baseDir: string, dir: Dir, name: string)
    requires Clean(dir)
    ensures Opens(dir, name) <==>
            exists e: Entry ::
              && e in dir.entries && e.name == name && e.node.Directory? && e.node.dir.readable
              && exists x <- e.node.dir.entries :: x.name == "go.work"
    ensures Detail(glob, baseDir, dir, name).Some? <==>
            if name == "default" then dir.readable
            else exists e: Entry :: e in dir.entries && e.name == name && e.node.Directory? && e.node.dir.readable
  {
    if e: Entry :| e in dir.entries && e.name == name && e.node.Directory? { LookupFinds(dir, e); }
    var node := Lookup(dir, name);
    if node.Some? { assert Entry(name, node.value) in dir.entries; }
  }

  // ---- Every visible workspace is listed once ----

  /** A workspace that lies directly in the directory. */
  ghost predicate WorkspaceIn(glob: Glob, base: string, dir: Dir, path: string) {
    exists e :: e in dir.entries && IsWorkspace(glob, dir, e) && path == Join(base, e.name)
  }

  /** A workspace at depth two, in a visible directory that is no workspace itself. */
  ghost predicate NestedWorkspace(glob: Glob, baseDir: string, dir: Dir, path: string) {
    exists d :: d in dir.entries && NestedIn(glob, baseDir, dir, d, path)
  }

  ghost predicate NestedIn(glob: Glob, baseDir: string, dir: Dir, d: Entry, path: string) {
    && d.name != "" && Visible(glob, dir, d) && !Has(d.node.dir, "go.work") && d.node.dir.readable
    && WorkspaceIn(glob, Join(baseDir, d.name), d.node.dir, path)
  }

  ghost predicate Lists(wss: seq<WorkspaceSummary>, path: string) {
    exists ws :: ws in wss && ws.path == path
  }

  lemma WorkspaceListIs(glob: Glob, base: string, dir: Dir, ws: WorkspaceSummary)
    requires Clean(dir)
    ensures ws in WorkspaceList(glob, base, dir) <==>
            exists e :: e in dir.entries && IsWorkspace(glob, dir, e) && ws == WorkspaceAt(glob, base, e.name, e.node.dir)
  {
    WorkspacesAreDistinct(glob, base, dir);
    SortedByName(FoundWorkspaces(glob, base, dir), WorkspaceName);
    CollectMember(WorkspaceFilter(glob, dir), WorkspaceOf(glob, base), dir.entries, ws);
    if ws in FoundWorkspaces(glob, base, dir) {
      var e :| e in dir.entries && IsWorkspace(glob, dir, e) && WorkspaceOf(glob, base)(e) == ws;
      assert ws == WorkspaceAt(glob, base, e.name, e.node.dir);
    }
    if e :| e in dir.entries && IsWorkspace(glob, dir, e) && ws == WorkspaceAt(glob, base, e.name, e.node.dir) {
      assert WorkspaceFilter(glob, dir)(e) && WorkspaceOf(glob, base)(e) == ws;
    }
  }

  lemma ListedPaths(glob: Glob, base: string, dir: Dir, path: string)
    requires Clean(dir)
    ensures Lists(WorkspaceList(glob, base, dir), path) <==> WorkspaceIn(glob, base, dir, path)
  {
    if Lists(WorkspaceList(glob, base, dir), path) {
      var ws :| ws in WorkspaceList(glob, base, dir) && ws.path == path;
      WorkspaceListIs(glob, base, dir, ws);
    }
    if e :| e in dir.entries && IsWorkspace(glob, dir, e) && path == Join(base, e.name) {
      WorkspaceListIs(glob, base, dir, WorkspaceAt(glob, base, e.name, e.node.dir));
    }
  }

  function NamedPart(glob: Glob, baseDir: string, dir: Dir): seq<PortfolioSummary> {
    Sort(FoundNamed(glob, baseDir, dir), NameOrder(PortfolioName))
  }

  lemma NamedPartIs(glob: Glob, baseDir: string, dir: Dir, p: PortfolioSummary)
    requires Clean(dir)
    ensures p in NamedPart(glob, baseDir, dir) <==>
            exists d :: d in dir.entries && IsNamed(glob, dir, d) && p == NamedOf(glob, baseDir)(d)
  {
    NamedAreDistinct(glob, baseDir, dir);
    SortedByName(FoundNamed(glob, baseDir, dir), PortfolioName);
    CollectMember(NamedFilter(glob, dir), NamedOf(glob, baseDir), dir.entries, p);
    if p in FoundNamed(glob, baseDir, dir) {
      var d :| d in dir.entries && NamedFilter(glob, dir)(d) && NamedOf(glob, baseDir)(d) == p;
      assert IsNamed(glob, dir, d);
    }
    if d :| d in dir.entries && IsNamed(glob, dir, d) && p == NamedOf(glob, baseDir)(d) {
      assert NamedFilter(glob, dir)(d);
    }
  }

  lemma NamedPartSorted(glob: Glob, baseDir: string, dir: Dir)
    requires Clean(dir)
    ensures Sorted(NamedPart(glob, baseDir, dir), NameOrder(PortfolioName))
    ensures DistinctNames(NamedPart(glob, baseDir, dir), PortfolioName)
  {
    NamedAreDistinct(glob, baseDir, dir);
    SortedByName(FoundNamed(glob, baseDir, dir), PortfolioName);
  }

  lemma NameIsClean(dir: Dir, e: Entry)
    requires Clean(dir) && e in dir.entries
    ensures e.name != "" && '/' !in e.name
  {
    var i :| 0 <= i < |dir.entries| && dir.entries[i] == e;
  }

  /** Paths of depth two determine both names. */
  lemma DeepPathsAreDistinct(base: string, d: string, w: string, d': string, w': string)
    requires '/' !in d && '/' !in d' && Join(Join(base, d), w) == Join(Join(base, d'), w')
    ensures d == d' && w == w'
  {
    var n := |base| + 1;
    assert Join(Join(base, d), w)[n..] == CacheKey(d, w);
    assert Join(Join(base, d'), w')[n..] == CacheKey(d', w');
    KeyIsInjective(d, w, d', w');
  }

  lemma DepthsAreDistinct(base: string, d: string, w: string, x: string)
    requires '/' !in x
    ensures Join(Join(base, d), w) != Join(base, x)
  {
    var n := |base| + 1;
    assert Join(Join(base, d), w)[n..][|d|] == '/';
    assert Join(base, x)[n..] == x;
  }

  /** A portfolio in the named part, with the directory it stands for, lists that directory. */
  lemma NamedLists(glob: Glob, baseDir: string, dir: Dir, d: Entry, path: string)
    requires Clean(dir) && d in dir.entries && IsNamed(glob, dir, d)
    ensures Lists(NamedOf(glob, baseDir)(d).workspaces, path) <==> WorkspaceIn(glob, Join(baseDir, d.name), d.node.dir, path)
  {
    ChildIsClean(dir, d);
    ListedPaths(glob, Join(baseDir, d.name), d.node.dir, path);
  }

  lemma NestedIsNamed(glob: Glob, baseDir: string, dir: Dir, d: Entry, path: string)
    requires NestedIn(glob, baseDir, dir, d, path)
    ensures IsNamed(glob, dir, d)
  {
  }

  lemma NamedPartLists(glob: Glob, baseDir: string, dir: Dir, path: string)
    requires Clean(dir)
    ensures (exists p :: p in NamedPart(glob, baseDir, dir) && Lists(p.workspaces, path))
            <==> NestedWorkspace(glob, baseDir, dir, path)
  {
    if p :| p in NamedPart(glob, baseDir, dir) && Lists(p.workspaces, path) {
      NamedPartIs(glob, baseDir, dir, p);
      var d :| d in dir.entries && IsNamed(glob, dir, d) && p == NamedOf(glob, baseDir)(d);
      NamedLists(glob, baseDir, dir, d, path);
      assert NestedIn(glob, baseDir, dir, d, path);
    }
    if d :| d in dir.entries && NestedIn(glob, baseDir, dir, d, path) {
      NestedIsNamed(glob, baseDir, dir, d, path);
      NamedLists(glob, baseDir, dir, d, path);
      NamedPartIs(glob, baseDir, dir, NamedOf(glob, baseDir)(d));
    }
  }

  /** Two portfolios of the named part that list the same path are the same. */
  lemma NamedPartIsDisjoint(glob: Glob, baseDir: string, dir: Dir, p: PortfolioSummary, q: PortfolioSummary, path: string)
    requires Clean(dir) && p in NamedPart(glob, baseDir, dir) && q in NamedPart(glob, baseDir, dir)
    requires Lists(p.workspaces, path) && Lists(q.workspaces, path)
    ensures p.name == q.name
  {
    var d, w := NamedPath(glob, baseDir, dir, p, path);
    var d', w' := NamedPath(glob, baseDir, dir, q, path);
    DeepPathsAreDistinct(baseDir, d, w, d', w');
  }

  lemma NamedPath(glob: Glob, baseDir: string, dir: Dir, p: PortfolioSummary, path: string) returns (d: string, w: string)
    requires Clean(dir) && p in NamedPart(glob, baseDir, dir) && Lists(p.workspaces, path)
    ensures d == p.name && '/' !in d && path == Join(Join(baseDir, d), w)
  {
    NamedPartIs(glob, baseDir, dir, p);
    var e :| e in dir.entries && IsNamed(glob, dir, e) && p == NamedOf(glob, baseDir)(e);
    NameIsClean(dir, e);
    NamedLists(glob, baseDir, dir, e, path);
    var x :| x in e.node.dir.entries && IsWorkspace(glob, e.node.dir, x) && path == Join(Join(baseDir, e.name), x.name);
    d, w := e.name, x.name;
  }

  lemma LoosePath(glob: Glob, baseDir: string, dir: Dir, path: string) returns (x: string)
    requires Clean(dir) && WorkspaceIn(glob, baseDir, dir, path)
    ensures '/' !in x && path == Join(baseDir, x)
  {
    var e :| e in dir.entries && IsWorkspace(glob, dir, e) && path == Join(baseDir, e.name);
    NameIsClean(dir, e);
    x := e.name;
  }

  /** Discovery partitions the visible workspaces: they are those of the listed portfolios ... */
  lemma EveryWorkspaceIsListed(glob: Glob, baseDir: string, dir: Dir, path: string)
    requires Clean(dir)
    ensures WorkspaceIn(glob, baseDir, dir, path) || NestedWorkspace(glob, baseDir, dir, path) <==>
            exists p :: p in PortfolioList(glob, baseDir, dir) && Lists(p.workspaces, path)
  {
    NamedPartLists(glob, baseDir, dir, path);
    ListedPaths(glob, baseDir, dir, path);
    var all := PortfolioList(glob, baseDir, dir);
    if HasWorkspace(glob, dir) {
      assert all == NamedPart(glob, baseDir, dir) + [CatchAll(glob, baseDir, dir)];
    } else {
      assert all == NamedPart(glob, baseDir, dir);
    }
  }

  /** ... and no two of them have one in common. */
  lemma NoWorkspaceIsListedTwice(glob: Glob, baseDir: string, dir: Dir, path: string, i: nat, j: nat)
    requires Clean(dir)
    requires i < |PortfolioList(glob, baseDir, dir)| && j < |PortfolioList(glob, baseDir, dir)|
    requires Lists(PortfolioList(glob, baseDir, dir)[i].workspaces, path)
    requires Lists(PortfolioList(glob, baseDir, dir)[j].workspaces, path)
    ensures i == j
  {
    var named := NamedPart(glob, baseDir, dir);
    if i < |named| && j < |named| {
      NamedPartSorted(glob, baseDir, dir);
      NamedPartIsDisjoint(glob, baseDir, dir, named[i], named[j], path);
    } else if i < |named| {
      NamedAndLoose(glob, baseDir, dir, named[i], path);
    } else if j < |named| {
      NamedAndLoose(glob, baseDir, dir, named[j], path);
    }
  }

  /** Nor does one portfolio list two workspaces of the same name. */
  lemma WorkspaceNamesAreDistinct(glob: Glob, baseDir: string, dir: Dir, p: PortfolioSummary)
    requires Clean(dir) && p in PortfolioList(glob, baseDir, dir)
    ensures DistinctNames(p.workspaces, WorkspaceName) && Sorted(p.workspaces, NameOrder(WorkspaceName))
  {
    if p in NamedPart(glob, baseDir, dir) {
      NamedPartIs(glob, baseDir, dir, p);
      var d :| d in dir.entries && IsNamed(glob, dir, d) && p == NamedOf(glob, baseDir)(d);
      ChildIsClean(dir, d);
      WorkspacesAreDistinct(glob, p.path, d.node.dir);
      SortedByName(FoundWorkspaces(glob, p.path, d.node.dir), WorkspaceName);
    } else {
      WorkspacesAreDistinct(glob, baseDir, dir);
      SortedByName(FoundWorkspaces(glob, baseDir, dir), WorkspaceName);
    }
  }

  lemma NamedAndLoose(glob: Glob, baseDir: string, dir: Dir, p: PortfolioSummary, path: string)
    requires Clean(dir) && p in NamedPart(glob, baseDir, dir) && Lists(p.workspaces, path)
    ensures !Lists(WorkspaceList(glob, baseDir, dir), path)
  {
    if Lists(WorkspaceList(glob, baseDir, dir), path) {
      var d, w := NamedPath(glob, baseDir, dir, p, path);
      ListedPaths(glob, baseDir, dir, path);
      var x := LoosePath(glob, baseDir, dir, path);
      DepthsAreDistinct(baseDir, d, w, x);
    }
  }

  /** No portfolio is listed without a workspace. */
  lemma NoPortfolioIsEmpty(glob: Glob, baseDir: string, dir: Dir, p: PortfolioSummary)
    requires Clean(dir) && p in PortfolioList(glob, baseDir, dir)
    ensures p.workspaces != []
  {
    if p in NamedPart(glob, baseDir, dir) {
      NamedPartIs(glob, baseDir, dir, p);
      var d :| d in dir.entries && IsNamed(glob, dir, d) && p == NamedOf(glob, baseDir)(d);
      ChildIsClean(dir, d);
      var e :| e in d.node.dir.entries && IsWorkspace(glob, d.node.dir, e);
      WorkspaceListIs(glob, p.path, d.node.dir, WorkspaceAt(glob, p.path, e.name, e.node.dir));
    } else {
      var e :| e in dir.entries && IsWorkspace(glob, dir, e);
      WorkspaceListIs(glob, baseDir, dir, WorkspaceAt(glob, baseDir, e.name, e.node.dir));
    }
  }

  // ---- A directory named "default" ----

  /** No listed directory has the name of the catch-all portfolio. */
  ghost predicate NoDefaultDir(glob: Glob, dir: Dir) {
    forall e :: e in dir.entries && IsNamed(glob, dir, e) ==> e.name != "default"
  }

  /** Each listed portfolio is found again by its name, with the same workspaces, just when no
      listed directory is named "default". */
  lemma ListedIsFound(glob: Glob, baseDir: string, dir: Dir)
    requires Clean(dir) && dir.readable
    ensures (forall p <- PortfolioList(glob, baseDir, dir) :: Detail(glob, baseDir, dir, p.name) == Some(p))
            <==> NoDefaultDir(glob, dir)
  {
    var all := PortfolioList(glob, baseDir, dir);
    if NoDefaultDir(glob, dir) {
      forall p | p in all ensures Detail(glob, baseDir, dir, p.name) == Some(p) {
        if p in NamedPart(glob, baseDir, dir) {
          NamedPartIs(glob, baseDir, dir, p);
          var d :| d in dir.entries && IsNamed(glob, dir, d) && p == NamedOf(glob, baseDir)(d);
          LookupFinds(dir, d);
        }
      }
    } else {
      var e :| e in dir.entries && IsNamed(glob, dir, e) && e.name == "default";
      var p := NamedOf(glob, baseDir)(e);
      NamedPartIs(glob, baseDir, dir, p);
      assert p in all && Detail(glob, baseDir, dir, p.name) != Some(p);
    }
  }

  lemma LookupFinds(dir: Dir, e: Entry)
    requires Clean(dir) && e in dir.entries
    ensures Lookup(dir, e.name) == Some(e.node)
  {
    var node := Lookup(dir, e.name);
    var i :| 0 <= i < |dir.entries| && dir.entries[i] == e;
    var j :| 0 <= j < |dir.entries| && dir.entries[j] == Entry(e.name, node.value);
    assert EntryName(dir.entries[i]) == EntryName(dir.entries[j]);
  }

  function AsListed(p: PortfolioSummary): Portfolio {
    Portfolio(p.name, p.isDefault, NamesOf(p.workspaces))
  }

  function NamesOf(wss: seq<WorkspaceSummary>): (names: seq<string>)
    ensures |names| == |wss| && forall i :: 0 <= i < |wss| ==> names[i] == wss[i].name
  {
    if wss == [] then [] else [wss[0].name] + NamesOf(wss[1..])
  }

  /** The listing as the refresher walks it. */
  function AllListed(ps: seq<PortfolioSummary>): (r: seq<Portfolio>)
    ensures |r| == |ps| && forall i :: 0 <= i < |ps| ==> r[i] == AsListed(ps[i])
  {
    if ps == [] then [] else [AsListed(ps[0])] + AllListed(ps[1..])
  }

  /** A listed portfolio stands for the base directory, or for a directory in it. */
  lemma ListedKinds(glob: Glob, baseDir: string, dir: Dir, p: PortfolioSummary)
    requires Clean(dir) && p in PortfolioList(glob, baseDir, dir)
    ensures p.isDefault ==> p == CatchAll(glob, baseDir, dir) && HasWorkspace(glob, dir)
    ensures !p.isDefault ==> p in NamedPart(glob, baseDir, dir) && p.path == Join(baseDir, p.name)
    ensures '/' !in p.name
  {
    if p in NamedPart(glob, baseDir, dir) {
      NamedPartIs(glob, baseDir, dir, p);
      var d :| d in dir.entries && IsNamed(glob, dir, d) && p == NamedOf(glob, baseDir)(d);
      NameIsClean(dir, d);
    }
  }

  /** Kind and name determine a listed portfolio. */
  lemma ListedNames(glob: Glob, baseDir: string, dir: Dir, p: PortfolioSummary, q: PortfolioSummary)
    requires Clean(dir) && p in PortfolioList(glob, baseDir, dir) && q in PortfolioList(glob, baseDir, dir)
    requires p.isDefault == q.isDefault && p.name == q.name
    ensures p == q
  {
    ListedKinds(glob, baseDir, dir, p);
    ListedKinds(glob, baseDir, dir, q);
    if !p.isDefault {
      var named := NamedPart(glob, baseDir, dir);
      NamedPartSorted(glob, baseDir, dir);
      var i :| 0 <= i < |named| && named[i] == p;
      var j :| 0 <= j < |named| && named[j] == q;
      assert PortfolioName(named[i]) == PortfolioName(named[j]);
    }
  }

  lemma NamedPartNames(glob: Glob, baseDir: string, dir: Dir, p: PortfolioSummary)
    requires Clean(dir) && NoDefaultDir(glob, dir) && p in NamedPart(glob, baseDir, dir)
    ensures '/' !in p.name && p.name != "default" && !p.isDefault
  {
    NamedPartIs(glob, baseDir, dir, p);
    var d :| d in dir.entries && IsNamed(glob, dir, d) && p == NamedOf(glob, baseDir)(d);
    NameIsClean(dir, d);
  }

  /** Without such a directory, "default" means the catch-all portfolio ... */
  lemma DefaultIsCatchAll(glob: Glob, baseDir: string, dir: Dir, p: PortfolioSummary)
    requires Clean(dir) && NoDefaultDir(glob, dir) && p in PortfolioList(glob, baseDir, dir)
    ensures (p.isDefault <==> p.name == "default") && '/' !in p.name
    ensures p.isDefault ==> p == CatchAll(glob, baseDir, dir) && HasWorkspace(glob, dir)
    ensures !p.isDefault ==> p in NamedPart(glob, baseDir, dir)
  {
    if p in NamedPart(glob, baseDir, dir) {
      NamedPartNames(glob, baseDir, dir, p);
    }
  }

  lemma NamesDiffer(glob: Glob, baseDir: string, dir: Dir, i: nat, j: nat)
    requires Clean(dir) && NoDefaultDir(glob, dir) && i < j < |PortfolioList(glob, baseDir, dir)|
    ensures PortfolioList(glob, baseDir, dir)[i].name != PortfolioList(glob, baseDir, dir)[j].name
  {
    var named := NamedPart(glob, baseDir, dir);
    NamedPartNames(glob, baseDir, dir, named[i]);
    if j < |named| {
      NamedPartSorted(glob, baseDir, dir);
      assert PortfolioName(named[i]) != PortfolioName(named[j]);
    }
  }

  /** ... and listings have the distinct names that the refresher relies on. */
  lemma ListingIsDistinct(glob: Glob, baseDir: string, dir: Dir)
    requires Clean(dir) && NoDefaultDir(glob, dir)
    ensures DistinctPortfolios(AllListed(PortfolioList(glob, baseDir, dir)))
  {
    var all := PortfolioList(glob, baseDir, dir);
    var listed := AllListed(all);
    forall i, j | 0 <= i < j < |listed| ensures listed[i].name != listed[j].name {
      NamesDiffer(glob, baseDir, dir, i, j);
    }
    forall p | p in listed ensures '/' !in p.name {
      var i :| 0 <= i < |listed| && listed[i] == p;
      DefaultIsCatchAll(glob, baseDir, dir, all[i]);
    }
  }

  // ---- List view and detail view ----

  /** The list view of repositories that the detail view shows. */
  function Lightened(wsName: string, repos: seq<RepoSummary>): (r: seq<RepoOverview>)
    ensures |r| == |repos| && forall i :: 0 <= i < |repos| ==> r[i] == Overview(repos[i], wsName)
  {
    if repos == [] then [] else [Overview(repos[0], wsName)] + Lightened(wsName, repos[1..])
  }

  lemma {:induction false} InsertLightened(wsName: string, r: RepoSummary, repos: seq<RepoSummary>)
    ensures Lightened(wsName, Insert(r, repos, NameOrder(SummaryName)))
            == Insert(Overview(r, wsName), Lightened(wsName, repos), NameOrder(OverviewName))
  {
    var light := Lightened(wsName, repos);
    if repos != [] { SameOrder(wsName, repos[0], r); }
    if repos == [] {
      assert Lightened(wsName, [r]) == [Overview(r, wsName)];
    } else if NameOrder(SummaryName)(repos[0], r) {
      InsertLightened(wsName, r, repos[1..]);
      assert light[1..] == Lightened(wsName, repos[1..]);
      LightenedCons(wsName, repos[0], Insert(r, repos[1..], NameOrder(SummaryName)));
    } else {
      LightenedCons(wsName, r, repos);
    }
  }

  lemma SameOrder(wsName: string, x: RepoSummary, y: RepoSummary)
    ensures NameOrder(OverviewName)(Overview(x, wsName), Overview(y, wsName)) == NameOrder(SummaryName)(x, y)
  {
    NameOrderIs(OverviewName, Overview(x, wsName), Overview(y, wsName));
    NameOrderIs(SummaryName, x, y);
  }

  lemma LightenedCons(wsName: string, r: RepoSummary, repos: seq<RepoSummary>)
    ensures Lightened(wsName, [r] + repos) == [Overview(r, wsName)] + Lightened(wsName, repos)
  {
    assert ([r] + repos)[1..] == repos;
  }

  lemma {:induction false} SortLightened(wsName: string, repos: seq<RepoSummary>)
    ensures Lightened(wsName, Sort(repos, NameOrder(SummaryName)))
            == Sort(Lightened(wsName, repos), NameOrder(OverviewName))
  {
    if repos != [] {
      SortLightened(wsName, repos[1..]);
      InsertLightened(wsName, repos[0], Sort(repos[1..], NameOrder(SummaryName)));
    }
  }

  lemma {:induction false} CollectLightened(keep: Entry -> bool, wsPath: string, wsName: string, entries: seq<Entry>)
    ensures Lightened(wsName, Collect(keep, SummaryOf(wsPath, wsName), entries))
            == Collect(keep, OverviewOf(wsPath, wsName), entries)
  {
    if entries != [] { CollectLightened(keep, wsPath, wsName, entries[..|entries| - 1]); }
  }

  /** The list view of a workspace shows the repositories of its detail view, in the same order:
      always, unless the workspace cannot be read, when the list is empty and there is no
      detail view. */
  lemma ViewsAgree(glob: Glob, wsPath: string, wsName: string, dir: Dir)
    ensures dir.readable ==> ListView(glob, wsPath, wsName, dir) == Lightened(wsName, DetailView(glob, wsPath, wsName, dir))
    ensures !dir.readable ==> ListView(glob, wsPath, wsName, dir) == []
  {
    CollectLightened(RepoFilter(glob, dir), wsPath, wsName, dir.entries);
    SortLightened(wsName, FoundSummaries(glob, wsPath, wsName, dir));
  }

  /** The names of a detail view are distinct. */
  lemma DetailIsDistinct(glob: Glob, wsPath: string, wsName: string, dir: Dir)
    requires Clean(dir)
    ensures UniqueNames(DetailView(glob, wsPath, wsName, dir))
  {
    SummariesAreDistinct(glob, wsPath, wsName, dir);
    SortedByName(FoundSummaries(glob, wsPath, wsName, dir), SummaryName);
    var repos := DetailView(glob, wsPath, wsName, dir);
    forall i, j | 0 <= i < j < |repos| ensures repos[i].name != repos[j].name {
      assert SummaryName(repos[i]) != SummaryName(repos[j]);
    }
  }
}
