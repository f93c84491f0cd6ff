/** Discovery, refresher, cache and pages together, over a directory tree that does not change.
    Right after the initial refresh the only listed directory whose pages can be wrong is one
    that is named "default"; while the workers run, a loose workspace beside it can be shown wrong
    too. For both the exact conditions are given. */
module EndToEnd {
  import opened Types
  import opened Cache
  import opened Refresh
  import opened Ordering
  import opened Discovery
  import opened Partition
  import opened TreeWorld
  import opened PortfolioPages
  import opened WorkspacePage
  import RefreshProtocol
  import Rivals

  /** The cache after a refresh, whatever it held before. */
  function AfterRefresh(c: Contents, baseDir: string, w: World): Contents
    requires w.portfolios.Some?
  {
    RefreshedAll(c, w, AllItems(baseDir, w.portfolios.value))
  }

  // ---- Who fills an entry ----

  function ItemOf(baseDir: string, p: PortfolioSummary, name: string): RefreshItem {
    ItemFor(baseDir, AsListed(p), name)
  }

  function ItemsIn(baseDir: string, ps: seq<PortfolioSummary>): seq<RefreshItem> { AllItems(baseDir, AllListed(ps)) }

  lemma ListedName(baseDir: string, ps: seq<PortfolioSummary>, p: PortfolioSummary, ws: WorkspaceSummary)
    requires p in ps && ws in p.workspaces
    ensures ItemOf(baseDir, p, ws.name) in ItemsIn(baseDir, ps)
  {
    var i :| 0 <= i < |ps| && ps[i] == p;
    assert AllListed(ps)[i] == AsListed(p);
    var j :| 0 <= j < |p.workspaces| && p.workspaces[j] == ws;
    assert NamesOf(p.workspaces)[j] == ws.name;
    ListedIsItem(baseDir, AllListed(ps), AsListed(p), ws.name);
  }

  lemma ItemHasWorkspace(baseDir: string, ps: seq<PortfolioSummary>, x: RefreshItem)
    returns (q: PortfolioSummary, ws: WorkspaceSummary)
    requires x in ItemsIn(baseDir, ps)
    ensures q in ps && ws in q.workspaces && x == ItemOf(baseDir, q, ws.name)
  {
    ItemIsListed(baseDir, AllListed(ps), x);
    var p, name :| p in AllListed(ps) && name in p.workspaces && x == ItemFor(baseDir, p, name);
    var i :| 0 <= i < |ps| && AllListed(ps)[i] == p;
    var j :| 0 <= j < |p.workspaces| && p.workspaces[j] == name;
    q, ws := ps[i], ps[i].workspaces[j];
  }

  lemma {:induction false} LastWriterOfTwo(w: World, a: seq<RefreshItem>, b: seq<RefreshItem>, key: string)
    ensures LastWriter(w, a + b, key) == if LastWriter(w, b, key).Some? then LastWriter(w, b, key) else LastWriter(w, a, key)
  {
    if b == [] {
      assert a + b == a;
    } else {
      assert (a + b)[..|a + b| - 1] == a + b[..|b| - 1];
      LastWriterOfTwo(w, a, b[..|b| - 1], key);
    }
  }

  /** Beside the directory "default" there is a loose workspace of that name that can be opened. */
  ghost predicate Overshadowed(glob: Glob, baseDir: string, dir: Dir, p: PortfolioSummary, name: string) {
    && !p.isDefault && p.name == "default"
    && HasName(WorkspaceList(glob, baseDir, dir), name) && Opens(dir, name)
  }

  lemma LooseAreListed(glob: Glob, baseDir: string, dir: Dir, ws: WorkspaceSummary)
    requires Clean(dir) && ws in WorkspaceList(glob, baseDir, dir)
    ensures PortfolioList(glob, baseDir, dir) == NamedPart(glob, baseDir, dir) + [CatchAll(glob, baseDir, dir)]
  {
    WorkspaceListIs(glob, baseDir, dir, ws);
  }

  lemma ItemsOfLast(baseDir: string, ps: seq<PortfolioSummary>, last: PortfolioSummary)
    ensures ItemsIn(baseDir, ps + [last]) ==
            ItemsIn(baseDir, ps) + ItemsOf(baseDir, AsListed(last), |last.workspaces|)
  {
    assert AllListed(ps + [last])[..|ps|] == AllListed(ps);
  }

  /** The items of the catch-all portfolio come last. */
  lemma LooseItemsAreLast(glob: Glob, baseDir: string, dir: Dir, w: World, ws: WorkspaceSummary)
    requires Clean(dir) && ws in WorkspaceList(glob, baseDir, dir)
    requires At(ItemOf(baseDir, CatchAll(glob, baseDir, dir), ws.name)) in w.workspaces
    ensures var x := LastWriter(w, ItemsIn(baseDir, PortfolioList(glob, baseDir, dir)), CacheKey("default", ws.name));
            x.Some? && x.value.workspaceBase == baseDir
  {
    var named, last := NamedPart(glob, baseDir, dir), CatchAll(glob, baseDir, dir);
    LooseAreListed(glob, baseDir, dir, ws);
    ItemsOfLast(baseDir, named, last);
    var b := ItemsOf(baseDir, AsListed(last), |last.workspaces|);
    LastWriterOfTwo(w, ItemsIn(baseDir, named), b, CacheKey("default", ws.name));
    OneOfTheItems(baseDir, last, w, ws);
  }

  lemma ItemIsThere(baseDir: string, p: PortfolioSummary, ws: WorkspaceSummary)
    requires ws in p.workspaces
    ensures ItemOf(baseDir, p, ws.name) in ItemsOf(baseDir, AsListed(p), |p.workspaces|)
  {
    var j :| 0 <= j < |p.workspaces| && p.workspaces[j] == ws;
    assert ItemsOf(baseDir, AsListed(p), |p.workspaces|)[j] == ItemOf(baseDir, p, ws.name);
  }

  lemma OneOfTheItems(baseDir: string, p: PortfolioSummary, w: World, ws: WorkspaceSummary)
    requires ws in p.workspaces && At(ItemOf(baseDir, p, ws.name)) in w.workspaces
    ensures var x := LastWriter(w, ItemsOf(baseDir, AsListed(p), |p.workspaces|), CacheKey(p.name, ws.name));
            x.Some? && x.value.workspaceBase == WorkspaceBase(baseDir, AsListed(p))
  {
    var items, item := ItemsOf(baseDir, AsListed(p), |p.workspaces|), ItemOf(baseDir, p, ws.name);
    ItemIsThere(baseDir, p, ws);
    LastWriterExists(w, items, item);
    LastWriterWins(map[], w, items, Key(item));
  }

  lemma OwnerIs(glob: Glob, baseDir: string, dir: Dir, git: map<string, RepoSummary>, p: PortfolioSummary,
                ws: WorkspaceSummary) returns (q: PortfolioSummary)
    requires Clean(dir) && p in PortfolioList(glob, baseDir, dir) && ws in p.workspaces && Opens(DirFor(dir, p), ws.name)
    ensures q in PortfolioList(glob, baseDir, dir) && q.name == p.name
    ensures HasName(q.workspaces, ws.name) && Opens(DirFor(dir, q), ws.name)
    ensures var x := LastWriter(WorldOf(glob, baseDir, dir, git), ItemsIn(baseDir, PortfolioList(glob, baseDir, dir)),
                                CacheKey(p.name, ws.name));
            x.Some? && At(x.value) == (q.path, ws.name)
  {
    var w, ps := WorldOf(glob, baseDir, dir, git), PortfolioList(glob, baseDir, dir);
    var items, key := ItemsIn(baseDir, ps), CacheKey(p.name, ws.name);
    WorldIs(glob, baseDir, dir, git, p, ws);
    ListedDetail(glob, baseDir, dir, p, ws);
    ListedName(baseDir, ps, p, ws);
    LastWriterExists(w, items, ItemOf(baseDir, p, ws.name));
    LastWriterWins(map[], w, items, key);
    var x := LastWriter(w, items, key).value;
    var ws';
    q, ws' := ItemHasWorkspace(baseDir, ps, x);
    ListedKinds(glob, baseDir, dir, p);
    ListedKinds(glob, baseDir, dir, q);
    KeyIsInjective(p.name, ws.name, q.name, ws'.name);
    ListedDetail(glob, baseDir, dir, q, ws');
    WorldIs(glob, baseDir, dir, git, q, ws');
  }

  /** A workspace fills its own entry unless it is overshadowed. */
  lemma OwnsUnlessOvershadowed(glob: Glob, baseDir: string, dir: Dir, git: map<string, RepoSummary>, p: PortfolioSummary,
                               ws: WorkspaceSummary)
    requires Clean(dir) && p in PortfolioList(glob, baseDir, dir) && ws in p.workspaces && Opens(DirFor(dir, p), ws.name)
    ensures var x := LastWriter(WorldOf(glob, baseDir, dir, git), ItemsIn(baseDir, PortfolioList(glob, baseDir, dir)),
                                CacheKey(p.name, ws.name));
            x.Some? && (At(x.value) == (p.path, ws.name) <==> !Overshadowed(glob, baseDir, dir, p, ws.name))
  {
    var q := OwnerIs(glob, baseDir, dir, git, p, ws);
    ListedKinds(glob, baseDir, dir, p);
    ListedKinds(glob, baseDir, dir, q);
    if p.isDefault || Overshadowed(glob, baseDir, dir, p, ws.name) {
      var all := CatchAll(glob, baseDir, dir);
      var loose :| loose in all.workspaces && loose.name == ws.name;
      LooseAreListed(glob, baseDir, dir, loose);
      assert all in PortfolioList(glob, baseDir, dir);
      WorldIs(glob, baseDir, dir, git, all, loose);
      LooseItemsAreLast(glob, baseDir, dir, WorldOf(glob, baseDir, dir, git), loose);
      assert |Join(baseDir, p.name)| > |baseDir|;
    } else if q.isDefault == p.isDefault {
      ListedNames(glob, baseDir, dir, p, q);
    }
  }

  // ---- The pages after the initial refresh ----

  /** After the initial refresh the list of a workspace shows every repository with git's answer, at its defaults where git
      fails, whatever git answers. */
  ghost predicate ListIsLive(glob: Glob, c: Contents, baseDir: string, dir: Dir, p: PortfolioSummary, ws: WorkspaceSummary) {
    forall git, r :: r in ws.repos ==> ShownLive(c, baseDir, WorldOf(glob, baseDir, dir, git), p, ws, r)
  }

  predicate ShownLive(c: Contents, baseDir: string, w: World, p: PortfolioSummary, ws: WorkspaceSummary, r: RepoOverview)
    requires w.portfolios.Some?
  {
    OverviewFromCache(AfterRefresh(c, baseDir, w), CacheKey(p.name, ws.name), r) == DirectOverview(w, r)
  }

  lemma LightenedMembers(name: string, repos: seq<RepoSummary>, c: Contents, key: string, w: World)
    ensures (forall o <- Lightened(name, repos) :: OverviewFromCache(c, key, o) == DirectOverview(w, o))
            <==> (forall r <- repos :: OverviewFromCache(c, key, Overview(r, name)) == DirectOverview(w, Overview(r, name)))
  {
    var light := Lightened(name, repos);
    forall i | 0 <= i < |repos| ensures light[i] in light && light[i] == Overview(repos[i], name) && repos[i] in repos {
    }
  }

  lemma LiveIsListed(glob: Glob, c: Contents, baseDir: string, dir: Dir, git: map<string, RepoSummary>,
                     p: PortfolioSummary, ws: WorkspaceSummary)
    requires Clean(dir) && p in PortfolioList(glob, baseDir, dir) && ws in p.workspaces && Opens(DirFor(dir, p), ws.name)
    ensures var w, item := WorldOf(glob, baseDir, dir, git), ItemOf(baseDir, p, ws.name);
            && At(item) in w.workspaces
            && ((forall r <- ws.repos :: ShownLive(c, baseDir, w, p, ws, r))
                <==> ListedAsGit(RefreshedAll(c, w, ItemsIn(baseDir, PortfolioList(glob, baseDir, dir))), w, item))
  {
    var w := WorldOf(glob, baseDir, dir, git);
    WorldIs(glob, baseDir, dir, git, p, ws);
    ListedDetail(glob, baseDir, dir, p, ws);
    LightenedMembers(ws.name, DetailOf(glob, p, DirFor(dir, p), ws.name),
                     AfterRefresh(c, baseDir, w), CacheKey(p.name, ws.name), w);
  }

  /** Exactly when the lists of workspaces are live after the initial refresh: always, but for a workspace with repositories
      in a directory named "default", beside which there is a loose workspace of the same name. */
  lemma ListPageIsLive(glob: Glob, c: Contents, baseDir: string, dir: Dir, p: PortfolioSummary, ws: WorkspaceSummary)
    requires Clean(dir) && p in PortfolioList(glob, baseDir, dir) && ws in p.workspaces
    ensures ListIsLive(glob, c, baseDir, dir, p, ws) <==>
            ws.repos == [] || !Overshadowed(glob, baseDir, dir, p, ws.name)
  {
    ListedDetail(glob, baseDir, dir, p, ws);
    if Opens(DirFor(dir, p), ws.name) {
      var w, item := WorldOf(glob, baseDir, dir, map[]), ItemOf(baseDir, p, ws.name);
      var items := ItemsIn(baseDir, PortfolioList(glob, baseDir, dir));
      WorldIs(glob, baseDir, dir, map[], p, ws);
      ListedName(baseDir, PortfolioList(glob, baseDir, dir), p, ws);
      WorldIsApart(glob, baseDir, dir, map[]);
      OwnsUnlessOvershadowed(glob, baseDir, dir, map[], p, ws);
      AgreesJustForOwners(c, w, items, item);
      AlwaysIsLive(glob, c, baseDir, dir, p, ws);
    }
  }

  lemma AlwaysIsLive(glob: Glob, c: Contents, baseDir: string, dir: Dir, p: PortfolioSummary, ws: WorkspaceSummary)
    requires Clean(dir) && p in PortfolioList(glob, baseDir, dir) && ws in p.workspaces && Opens(DirFor(dir, p), ws.name)
    requires At(ItemOf(baseDir, p, ws.name)) in WorldOf(glob, baseDir, dir, map[]).workspaces
    ensures ListIsLive(glob, c, baseDir, dir, p, ws) <==>
            AlwaysListed(c, WorldOf(glob, baseDir, dir, map[]), ItemsIn(baseDir, PortfolioList(glob, baseDir, dir)),
                         ItemOf(baseDir, p, ws.name))
  {
    var w, item := WorldOf(glob, baseDir, dir, map[]), ItemOf(baseDir, p, ws.name);
    var items := ItemsIn(baseDir, PortfolioList(glob, baseDir, dir));
    forall git
      ensures ListedAsGit(RefreshedAll(c, WithGit(w, git), items), WithGit(w, git), item) <==>
              forall r <- ws.repos :: ShownLive(c, baseDir, WorldOf(glob, baseDir, dir, git), p, ws, r)
    {
      assert WithGit(w, git) == WorldOf(glob, baseDir, dir, git);
      LiveIsListed(glob, c, baseDir, dir, git, p, ws);
    }
  }

  /** After the initial refresh, the page of a workspace that can be opened: its repositories, each
      with git's answer. It holds for every listed portfolio except a directory named "default". */
  lemma WorkspacePageIsLive(glob: Glob, c: Contents, baseDir: string, dir: Dir, git: map<string, RepoSummary>,
                            p: PortfolioSummary, ws: WorkspaceSummary, mode: string, shown: seq<RepoSummary>)
    requires Clean(dir) && p in PortfolioList(glob, baseDir, dir) && ws in p.workspaces && Opens(DirFor(dir, p), ws.name)
    requires p.isDefault <==> p.name == "default"
    requires var w, at := WorldOf(glob, baseDir, dir, git), (PageBase(baseDir, p.name), ws.name);
             at in w.workspaces ==> ShowsRepos(AfterRefresh(c, baseDir, w), p.name, ws.name, mode, w.workspaces[at], shown)
    ensures GitPage(WorldOf(glob, baseDir, dir, git), p.name, ws.name, mode, DetailOf(glob, p, DirFor(dir, p), ws.name), shown)
  {
    var w, item := WorldOf(glob, baseDir, dir, git), ItemOf(baseDir, p, ws.name);
    var items := ItemsIn(baseDir, PortfolioList(glob, baseDir, dir));
    WorldIs(glob, baseDir, dir, git, p, ws);
    ListedDetail(glob, baseDir, dir, p, ws);
    PageBaseAgrees(baseDir, AsListed(p));
    ListedName(baseDir, PortfolioList(glob, baseDir, dir), p, ws);
    OwnsUnlessOvershadowed(glob, baseDir, dir, git, p, ws);
    OwnedIsShown(c, w, items, item);
    ShownAsGitPage(AfterRefresh(c, baseDir, w), w, p.name, ws.name, mode, w.workspaces[At(item)], shown);
  }

  /** A directory named "default" has no such page: if its address shows anything, then repositories
      that lie elsewhere. Discovery opens any name at that address, also one that is not listed. */
  lemma DefaultDirHasNoPage(glob: Glob, baseDir: string, dir: Dir, p: PortfolioSummary, ws: WorkspaceSummary,
                            r: RepoSummary, q: RepoSummary)
    requires Clean(dir) && p in PortfolioList(glob, baseDir, dir) && ws in p.workspaces && Opens(DirFor(dir, p), ws.name)
    requires !p.isDefault && p.name == "default" && Opens(dir, ws.name)
    requires r in DetailView(glob, Join(PageBase(baseDir, p.name), ws.name), ws.name, Lookup(dir, ws.name).value.dir)
    requires q in DetailOf(glob, p, DirFor(dir, p), ws.name)
    ensures r.path != q.path
  {
    ListedKinds(glob, baseDir, dir, p);
    var e := ListedWorkspace(glob, baseDir, dir, p, ws);
    OpenedPaths(glob, PageBase(baseDir, p.name), dir, ws.name, r);
    OpenedPaths(glob, p.path, DirFor(dir, p), ws.name, q);
    DifferentDepths(baseDir, ws.name, r.name, p.name, ws.name, q.name);
  }

  lemma OpenedPaths(glob: Glob, base: string, d: Dir, name: string, r: RepoSummary)
    requires Clean(d) && Opens(d, name) && r in DetailView(glob, Join(base, name), name, Lookup(d, name).value.dir)
    ensures r.path == Join(Join(base, name), r.name) && '/' !in r.name && '/' !in name
  {
    var e := Entry(name, Lookup(d, name).value);
    NameIsClean(d, e);
    ChildIsClean(d, e);
    DetailPaths(glob, Join(base, name), name, e.node.dir, r);
  }

  // ---- The pages while the refresher runs ----

  /** Another listed portfolio of the same name has a workspace of that name that can be opened. */
  ghost predicate Rivalled(glob: Glob, baseDir: string, dir: Dir, p: PortfolioSummary, name: string) {
    exists q :: q in PortfolioList(glob, baseDir, dir) && RivalOf(dir, p, q, name)
  }

  ghost predicate RivalOf(dir: Dir, p: PortfolioSummary, q: PortfolioSummary, name: string) {
    q != p && q.name == p.name && HasName(q.workspaces, name) && Opens(DirFor(dir, q), name)
  }

  /** Only the catch-all portfolio and a directory "default" can be rivals. */
  lemma OnlyDefaultIsRivalled(glob: Glob, baseDir: string, dir: Dir, p: PortfolioSummary, name: string)
    requires Clean(dir) && p in PortfolioList(glob, baseDir, dir) && Rivalled(glob, baseDir, dir, p, name)
    ensures p.name == "default"
  {
    var q :| q in PortfolioList(glob, baseDir, dir) && RivalOf(dir, p, q, name);
    ListedKinds(glob, baseDir, dir, p);
    ListedKinds(glob, baseDir, dir, q);
    if p.isDefault == q.isDefault { ListedNames(glob, baseDir, dir, p, q); }
  }

  lemma RivalLiesElsewhere(glob: Glob, baseDir: string, dir: Dir, p: PortfolioSummary, q: PortfolioSummary, name: string)
    requires Clean(dir) && p in PortfolioList(glob, baseDir, dir) && q in PortfolioList(glob, baseDir, dir)
    requires q != p && q.name == p.name
    ensures var x, item := ItemOf(baseDir, q, name), ItemOf(baseDir, p, name);
            && Key(x) == Key(item) && At(x) == (q.path, name) && At(item) == (p.path, name) && At(x) != At(item)
  {
    ListedKinds(glob, baseDir, dir, p);
    ListedKinds(glob, baseDir, dir, q);
    if p.path == q.path { SamePath(glob, baseDir, dir, p, q); }
  }

  lemma RivalHasItem(glob: Glob, baseDir: string, dir: Dir, p: PortfolioSummary, ws: WorkspaceSummary)
    requires Clean(dir) && p in PortfolioList(glob, baseDir, dir) && ws in p.workspaces
    requires Rivalled(glob, baseDir, dir, p, ws.name)
    ensures !RefreshProtocol.Unrivalled(WorldOf(glob, baseDir, dir, map[]), ItemsIn(baseDir, PortfolioList(glob, baseDir, dir)),
                                        ItemOf(baseDir, p, ws.name))
  {
    var q :| q in PortfolioList(glob, baseDir, dir) && RivalOf(dir, p, q, ws.name);
    var ws' :| ws' in q.workspaces && ws'.name == ws.name;
    WorldIs(glob, baseDir, dir, map[], q, ws');
    ListedName(baseDir, PortfolioList(glob, baseDir, dir), q, ws');
    RivalLiesElsewhere(glob, baseDir, dir, p, q, ws.name);
  }

  lemma ItemHasRival(glob: Glob, baseDir: string, dir: Dir, p: PortfolioSummary, ws: WorkspaceSummary, x: RefreshItem)
    requires Clean(dir) && p in PortfolioList(glob, baseDir, dir) && ws in p.workspaces
    requires x in ItemsIn(baseDir, PortfolioList(glob, baseDir, dir)) && Key(x) == Key(ItemOf(baseDir, p, ws.name))
    requires At(x) in WorldOf(glob, baseDir, dir, map[]).workspaces && At(x) != At(ItemOf(baseDir, p, ws.name))
    ensures Rivalled(glob, baseDir, dir, p, ws.name)
  {
    var q, ws' := ItemHasWorkspace(baseDir, PortfolioList(glob, baseDir, dir), x);
    ListedKinds(glob, baseDir, dir, p);
    ListedKinds(glob, baseDir, dir, q);
    KeyIsInjective(p.name, ws.name, q.name, ws'.name);
    ListedDetail(glob, baseDir, dir, q, ws');
    WorldIs(glob, baseDir, dir, map[], q, ws');
    assert HasName(q.workspaces, ws.name);
    assert RivalOf(dir, p, q, ws.name);
  }

  /** Exactly when page and list of a workspace show git's answers at every moment of every run of
      the refresher, whatever these answers are: always, but for a workspace with repositories of
      the catch-all portfolio, or of a directory named "default", when the other of the two has a
      workspace of the same name. */
  lemma LiveAtAllTimes(glob: Glob, n: nat, c: Contents, baseDir: string, dir: Dir, p: PortfolioSummary, ws: WorkspaceSummary)
    requires n > 0 && Clean(dir) && p in PortfolioList(glob, baseDir, dir) && ws in p.workspaces
    requires Opens(DirFor(dir, p), ws.name)
    ensures var w, item := WorldOf(glob, baseDir, dir, map[]), ItemOf(baseDir, p, ws.name);
            && At(item) in w.workspaces
            && (Rivals.LiveAtAllTimes(n, c, w, ItemsIn(baseDir, PortfolioList(glob, baseDir, dir)), item)
                <==> ws.repos == [] || !Rivalled(glob, baseDir, dir, p, ws.name))
  {
    var w, item := WorldOf(glob, baseDir, dir, map[]), ItemOf(baseDir, p, ws.name);
    var items := ItemsIn(baseDir, PortfolioList(glob, baseDir, dir));
    WorldIs(glob, baseDir, dir, map[], p, ws);
    ListedDetail(glob, baseDir, dir, p, ws);
    ListedName(baseDir, PortfolioList(glob, baseDir, dir), p, ws);
    WorldIsApart(glob, baseDir, dir, map[]);
    Rivals.LiveJustWithoutRivals(n, c, w, items, item);
    if Rivalled(glob, baseDir, dir, p, ws.name) {
      RivalHasItem(glob, baseDir, dir, p, ws);
    } else if !RefreshProtocol.Unrivalled(w, items, item) {
      var x :| x in items && Key(x) == Key(item) && At(x) in w.workspaces && At(x) != At(item);
      ItemHasRival(glob, baseDir, dir, p, ws, x);
    }
  }

  lemma UnrivalledForAnyGit(glob: Glob, baseDir: string, dir: Dir, git: map<string, RepoSummary>, p: PortfolioSummary,
                            ws: WorkspaceSummary)
    requires Clean(dir) && p in PortfolioList(glob, baseDir, dir) && ws in p.workspaces
    requires !Rivalled(glob, baseDir, dir, p, ws.name)
    ensures RefreshProtocol.Unrivalled(WorldOf(glob, baseDir, dir, git), ItemsIn(baseDir, PortfolioList(glob, baseDir, dir)),
                                       ItemOf(baseDir, p, ws.name))
  {
    var w, item := WorldOf(glob, baseDir, dir, map[]), ItemOf(baseDir, p, ws.name);
    var items := ItemsIn(baseDir, PortfolioList(glob, baseDir, dir));
    if !RefreshProtocol.Unrivalled(w, items, item) {
      var x :| x in items && Key(x) == Key(item) && At(x) in w.workspaces && At(x) != At(item);
      ItemHasRival(glob, baseDir, dir, p, ws, x);
    }
  }

  /** The page of a workspace without rival, at any moment after `es` of the running refresher: its
      repositories, each with git's answer. */
  lemma RunningPageIsLive(glob: Glob, n: nat, c: Contents, baseDir: string, dir: Dir, git: map<string, RepoSummary>,
                          es: seq<RefreshProtocol.Event>, p: PortfolioSummary, ws: WorkspaceSummary, mode: string,
                          shown: seq<RepoSummary>)
    requires Clean(dir) && p in PortfolioList(glob, baseDir, dir) && ws in p.workspaces && Opens(DirFor(dir, p), ws.name)
    requires (p.isDefault <==> p.name == "default") && !Rivalled(glob, baseDir, dir, p, ws.name)
    requires var w := WorldOf(glob, baseDir, dir, git);
             var s := RefreshProtocol.Initial(n, AfterRefresh(c, baseDir, w));
             && RefreshProtocol.ValidRun(s, es)
             && RefreshProtocol.FaithfulRun(s, es, w, ItemsIn(baseDir, PortfolioList(glob, baseDir, dir)))
             && ((PageBase(baseDir, p.name), ws.name) in w.workspaces ==>
                   ShowsRepos(RefreshProtocol.After(s, es).cache, p.name, ws.name, mode,
                              w.workspaces[(PageBase(baseDir, p.name), ws.name)], shown))
    ensures GitPage(WorldOf(glob, baseDir, dir, git), p.name, ws.name, mode, DetailOf(glob, p, DirFor(dir, p), ws.name), shown)
  {
    var w, item := WorldOf(glob, baseDir, dir, git), ItemOf(baseDir, p, ws.name);
    var items := ItemsIn(baseDir, PortfolioList(glob, baseDir, dir));
    var s := RefreshProtocol.Initial(n, AfterRefresh(c, baseDir, w));
    WorldIs(glob, baseDir, dir, git, p, ws);
    ListedDetail(glob, baseDir, dir, p, ws);
    PageBaseAgrees(baseDir, AsListed(p));
    ListedName(baseDir, PortfolioList(glob, baseDir, dir), p, ws);
    UnrivalledForAnyGit(glob, baseDir, dir, git, p, ws);
    RefreshProtocol.PagesAlwaysAgreeWithGit(n, c, w, items, es, item);
    ShownAsGitPage(RefreshProtocol.After(s, es).cache, w, p.name, ws.name, mode, w.workspaces[At(item)], shown);
  }

  // ---- What the other pages require of discovery ----

  lemma WorkspacesAreFresh(glob: Glob, base: string, dir: Dir, ws: WorkspaceSummary)
    requires Clean(dir) && ws in WorkspaceList(glob, base, dir)
    ensures Found(ws)
  {
    WorkspaceListIs(glob, base, dir, ws);
  }

  /** Discovered workspaces are as the portfolio pages expect them. */
  lemma ListingIsFresh(glob: Glob, baseDir: string, dir: Dir, p: PortfolioSummary)
    requires Clean(dir) && p in PortfolioList(glob, baseDir, dir)
    ensures FoundAll(p)
  {
    if p in NamedPart(glob, baseDir, dir) {
      NamedPartIs(glob, baseDir, dir, p);
      var d :| d in dir.entries && IsNamed(glob, dir, d) && p == NamedOf(glob, baseDir)(d);
      ChildIsClean(dir, d);
      forall ws | ws in p.workspaces ensures Found(ws) {
        WorkspacesAreFresh(glob, p.path, d.node.dir, ws);
      }
    } else {
      forall ws | ws in p.workspaces ensures Found(ws) {
        WorkspacesAreFresh(glob, baseDir, dir, ws);
      }
    }
  }

  /** The path that `GetForge` computes from the names in a link. */
  function ForgePath(baseDir: string, portfolio: string, workspace: string, repo: string): string {
    if portfolio == "default" then Join(Join(baseDir, workspace), repo)
    else Join(Join(Join(baseDir, portfolio), workspace), repo)
  }

  lemma ViewPaths(glob: Glob, wsPath: string, wsName: string, dir: Dir, r: RepoOverview)
    requires Clean(dir) && r in ListView(glob, wsPath, wsName, dir)
    ensures r.path == Join(wsPath, r.name)
  {
    OverviewsAreDistinct(glob, wsPath, wsName, dir);
    SortedByName(FoundOverviews(glob, wsPath, wsName, dir), OverviewName);
    CollectMember(RepoFilter(glob, dir), OverviewOf(wsPath, wsName), dir.entries, r);
    var e :| e in dir.entries && OverviewOf(wsPath, wsName)(e) == r;
  }

  /** The link of a listed repository leads back to its directory, just unless it lies in a
      directory named "default". */
  lemma LinksLeadBack(glob: Glob, baseDir: string, dir: Dir, p: PortfolioSummary, ws: WorkspaceSummary, r: RepoOverview)
    requires Clean(dir) && p in PortfolioList(glob, baseDir, dir) && ws in p.workspaces && r in ws.repos
    ensures ForgePath(baseDir, p.name, ws.name, r.name) == r.path <==> (p.isDefault <==> p.name == "default")
  {
    var e := ListedWorkspace(glob, baseDir, dir, p, ws);
    ChildIsClean(DirFor(dir, p), e);
    ViewPaths(glob, ws.path, ws.name, e.node.dir, r);
    ListedKinds(glob, baseDir, dir, p);
    assert |Join(Join(Join(baseDir, p.name), ws.name), r.name)| > |Join(Join(baseDir, ws.name), r.name)|;
  }
}
