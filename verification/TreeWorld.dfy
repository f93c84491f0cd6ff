/** What the refresher is told of a directory tree: the listing and the workspaces that
    discovery finds in it, and any answers of git. */
module TreeWorld {
  import opened Types
  import opened Refresh
  import opened Ordering
  import opened Discovery
  import opened Partition

  /** The directory that a listed portfolio stands for. */
  function DirFor(dir: Dir, p: PortfolioSummary): Dir {
    if p.isDefault then dir
    else
      var node := Lookup(dir, p.name);
      if node.Some? then DirOf(node.value) else NOWHERE
  }

  /** The detail view of a workspace of the portfolio. */
  function DetailOf(glob: Glob, p: PortfolioSummary, d: Dir, name: string): seq<RepoSummary>
    requires Opens(d, name)
  {
    DetailView(glob, Join(p.path, name), name, Lookup(d, name).value.dir)
  }

  type Finds = map<(string, string), seq<RepoSummary>>

  /** The workspaces of one portfolio that can be opened. */
  function FoundIn(glob: Glob, p: PortfolioSummary, d: Dir, wss: seq<WorkspaceSummary>): Finds {
    if wss == [] then map[]
    else
      var before, name := FoundIn(glob, p, d, wss[..|wss| - 1]), wss[|wss| - 1].name;
      if Opens(d, name) then before[(p.path, name) := DetailOf(glob, p, d, name)] else before
  }

  function FoundInAll(glob: Glob, dir: Dir, ps: seq<PortfolioSummary>): Finds {
    if ps == [] then map[]
    else
      var p := ps[|ps| - 1];
      FoundInAll(glob, dir, ps[..|ps| - 1]) + FoundIn(glob, p, DirFor(dir, p), p.workspaces)
  }

  function WorldOf(glob: Glob, baseDir: string, dir: Dir, git: map<string, RepoSummary>): World {
    var ps := PortfolioList(glob, baseDir, dir);
    World(Some(AllListed(ps)), FoundInAll(glob, dir, ps), git)
  }

  // ---- Its entries ----

  ghost predicate HasName(wss: seq<WorkspaceSummary>, name: string) { exists ws :: ws in wss && ws.name == name }

  lemma HasNameOneMore(wss: seq<WorkspaceSummary>, name: string)
    requires wss != []
    ensures HasName(wss, name) <==> HasName(wss[..|wss| - 1], name) || wss[|wss| - 1].name == name
  {
    assert wss == wss[..|wss| - 1] + [wss[|wss| - 1]];
    if wss[|wss| - 1].name == name { assert wss[|wss| - 1] in wss; }
  }

  lemma {:induction false} FoundInIs(glob: Glob, p: PortfolioSummary, d: Dir, wss: seq<WorkspaceSummary>, at: (string, string))
    ensures at in FoundIn(glob, p, d, wss) <==> at.0 == p.path && HasName(wss, at.1) && Opens(d, at.1)
    ensures at in FoundIn(glob, p, d, wss) ==> FoundIn(glob, p, d, wss)[at] == DetailOf(glob, p, d, at.1)
  {
    if wss != [] {
      FoundInIs(glob, p, d, wss[..|wss| - 1], at);
      HasNameOneMore(wss, at.1);
    }
  }

  ghost predicate FoundFor(glob: Glob, dir: Dir, p: PortfolioSummary, at: (string, string)) {
    at.0 == p.path && HasName(p.workspaces, at.1) && Opens(DirFor(dir, p), at.1)
  }

  /** Every entry belongs to a listed portfolio. */
  lemma {:induction false} EntryHasPortfolio(glob: Glob, dir: Dir, ps: seq<PortfolioSummary>, at: (string, string))
    returns (p: PortfolioSummary)
    requires at in FoundInAll(glob, dir, ps)
    ensures p in ps && FoundFor(glob, dir, p, at)
    ensures FoundInAll(glob, dir, ps)[at] == DetailOf(glob, p, DirFor(dir, p), at.1)
  {
    p := ps[|ps| - 1];
    FoundInIs(glob, p, DirFor(dir, p), p.workspaces, at);
    if at !in FoundIn(glob, p, DirFor(dir, p), p.workspaces) {
      p := EntryHasPortfolio(glob, dir, ps[..|ps| - 1], at);
    }
  }

  lemma {:induction false} PortfolioHasEntry(glob: Glob, dir: Dir, ps: seq<PortfolioSummary>, p: PortfolioSummary,
                                             at: (string, string))
    requires p in ps && FoundFor(glob, dir, p, at)
    ensures at in FoundInAll(glob, dir, ps)
  {
    var n := |ps| - 1;
    FoundInIs(glob, ps[n], DirFor(dir, ps[n]), ps[n].workspaces, at);
    if p != ps[n] { PortfolioHasEntry(glob, dir, ps[..n], p, at); }
  }

  lemma SamePath(glob: Glob, baseDir: string, dir: Dir, p: PortfolioSummary, q: PortfolioSummary)
    requires Clean(dir) && p in PortfolioList(glob, baseDir, dir) && q in PortfolioList(glob, baseDir, dir)
    requires p.path == q.path
    ensures p == q
  {
    ListedKinds(glob, baseDir, dir, p);
    ListedKinds(glob, baseDir, dir, q);
    assert |Join(baseDir, p.name)| > |baseDir| && |Join(baseDir, q.name)| > |baseDir|;
    if !p.isDefault && !q.isDefault {
      var n := |baseDir| + 1;
      assert Join(baseDir, p.name)[n..] == p.name && Join(baseDir, q.name)[n..] == q.name;
    }
    ListedNames(glob, baseDir, dir, p, q);
  }

  /** The refresher finds a listed workspace just when it can be opened, and then its detail view. */
  lemma WorldIs(glob: Glob, baseDir: string, dir: Dir, git: map<string, RepoSummary>, p: PortfolioSummary, ws: WorkspaceSummary)
    requires Clean(dir) && p in PortfolioList(glob, baseDir, dir) && ws in p.workspaces
    ensures var found, d := WorldOf(glob, baseDir, dir, git).workspaces, DirFor(dir, p);
            && ((p.path, ws.name) in found <==> Opens(d, ws.name))
            && (Opens(d, ws.name) ==> found[(p.path, ws.name)] == DetailOf(glob, p, d, ws.name))
  {
    var ps, at := PortfolioList(glob, baseDir, dir), (p.path, ws.name);
    assert HasName(p.workspaces, ws.name);
    if at in FoundInAll(glob, dir, ps) {
      var q := EntryHasPortfolio(glob, dir, ps, at);
      SamePath(glob, baseDir, dir, p, q);
    }
    if Opens(DirFor(dir, p), ws.name) { PortfolioHasEntry(glob, dir, ps, p, at); }
  }

  // ---- Listed workspaces ----

  /** What the listing says of one workspace. */
  lemma ListedWorkspace(glob: Glob, baseDir: string, dir: Dir, p: PortfolioSummary, ws: WorkspaceSummary)
    returns (e: Entry)
    requires Clean(dir) && p in PortfolioList(glob, baseDir, dir) && ws in p.workspaces
    ensures p.path == WorkspaceBase(baseDir, AsListed(p))
    ensures Clean(DirFor(dir, p)) && e in DirFor(dir, p).entries && IsWorkspace(glob, DirFor(dir, p), e)
    ensures ws == WorkspaceAt(glob, p.path, e.name, e.node.dir)
  {
    ListedKinds(glob, baseDir, dir, p);
    if p.isDefault {
      WorkspaceListIs(glob, baseDir, dir, ws);
      e :| e in dir.entries && IsWorkspace(glob, dir, e) && ws == WorkspaceAt(glob, baseDir, e.name, e.node.dir);
    } else {
      NamedPartIs(glob, baseDir, dir, p);
      var d :| d in dir.entries && IsNamed(glob, dir, d) && p == NamedOf(glob, baseDir)(d);
      LookupFinds(dir, d);
      ChildIsClean(dir, d);
      WorkspaceListIs(glob, p.path, d.node.dir, ws);
      e :| e in d.node.dir.entries && IsWorkspace(glob, d.node.dir, e) && ws == WorkspaceAt(glob, p.path, e.name, e.node.dir);
    }
  }

  /** Its repositories are those of the detail view when it can be opened, and otherwise none. */
  lemma ListedDetail(glob: Glob, baseDir: string, dir: Dir, p: PortfolioSummary, ws: WorkspaceSummary)
    requires Clean(dir) && p in PortfolioList(glob, baseDir, dir) && ws in p.workspaces
    ensures p.path == WorkspaceBase(baseDir, AsListed(p)) && '/' !in ws.name
    ensures Opens(DirFor(dir, p), ws.name) ==>
              && UniqueNames(DetailOf(glob, p, DirFor(dir, p), ws.name))
              && ws.repos == Lightened(ws.name, DetailOf(glob, p, DirFor(dir, p), ws.name))
    ensures !Opens(DirFor(dir, p), ws.name) ==> ws.repos == []
  {
    var e := ListedWorkspace(glob, baseDir, dir, p, ws);
    NameIsClean(DirFor(dir, p), e);
    LookupFinds(DirFor(dir, p), e);
    ChildIsClean(DirFor(dir, p), e);
    DetailIsDistinct(glob, Join(p.path, e.name), e.name, e.node.dir);
    ViewsAgree(glob, Join(p.path, e.name), e.name, e.node.dir);
  }

  // ---- A repository lies in one directory only ----

  lemma DetailPaths(glob: Glob, wsPath: string, wsName: string, ws: Dir, r: RepoSummary)
    requires Clean(ws) && r in DetailView(glob, wsPath, wsName, ws)
    ensures r.path == Join(wsPath, r.name) && '/' !in r.name
  {
    SummariesAreDistinct(glob, wsPath, wsName, ws);
    SortedByName(FoundSummaries(glob, wsPath, wsName, ws), SummaryName);
    CollectMember(RepoFilter(glob, ws), SummaryOf(wsPath, wsName), ws.entries, r);
    var e :| e in ws.entries && SummaryOf(wsPath, wsName)(e) == r;
    NameIsClean(ws, e);
  }

  lemma FoundPaths(glob: Glob, baseDir: string, dir: Dir, at: (string, string), r: RepoSummary) returns (p: PortfolioSummary)
    requires Clean(dir) && at in FoundInAll(glob, dir, PortfolioList(glob, baseDir, dir))
    requires r in FoundInAll(glob, dir, PortfolioList(glob, baseDir, dir))[at]
    ensures p in PortfolioList(glob, baseDir, dir) && at.0 == p.path
    ensures r.path == Join(Join(at.0, at.1), r.name) && '/' !in r.name && '/' !in at.1
  {
    p := EntryHasPortfolio(glob, dir, PortfolioList(glob, baseDir, dir), at);
    var ws :| ws in p.workspaces && ws.name == at.1;
    var e := ListedWorkspace(glob, baseDir, dir, p, ws);
    NameIsClean(DirFor(dir, p), e);
    LookupFinds(DirFor(dir, p), e);
    ChildIsClean(DirFor(dir, p), e);
    DetailPaths(glob, Join(at.0, at.1), at.1, e.node.dir, r);
  }

  lemma ThreeDeep(base: string, d: string, n: string, r: string)
    ensures Join(Join(Join(base, d), n), r) == Join(base, CacheKey(d, CacheKey(n, r)))
    ensures Join(Join(base, n), r) == Join(base, CacheKey(n, r))
  {
  }

  lemma JoinCancels(base: string, x: string, y: string)
    requires Join(base, x) == Join(base, y)
    ensures x == y
  {
    var n := |base| + 1;
    assert Join(base, x)[n..] == x && Join(base, y)[n..] == y;
  }

  /** Of two paths of repositories, one below the base directory and one below a directory in it. */
  lemma DifferentDepths(base: string, n: string, r: string, d: string, m: string, q: string)
    requires '/' !in n && '/' !in r && '/' !in d
    ensures Join(Join(base, n), r) != Join(Join(Join(base, d), m), q)
  {
    assert CacheKey(m, q)[|m|] == '/';
    if Join(Join(base, n), r) == Join(Join(Join(base, d), m), q) {
      ThreeDeep(base, d, m, q);
      ThreeDeep(base, d, n, r);
      JoinCancels(base, CacheKey(n, r), CacheKey(d, CacheKey(m, q)));
      KeyIsInjective(n, r, d, CacheKey(m, q));
    }
  }

  lemma SameDepths(base: string, d: string, n: string, r: string, d': string, m: string, q: string)
    requires '/' !in n && '/' !in d && '/' !in d' && '/' !in m
    requires Join(Join(Join(base, d), n), r) == Join(Join(Join(base, d'), m), q)
    ensures d == d' && n == m
  {
    ThreeDeep(base, d, n, r);
    ThreeDeep(base, d', m, q);
    JoinCancels(base, CacheKey(d, CacheKey(n, r)), CacheKey(d', CacheKey(m, q)));
    KeyIsInjective(d, CacheKey(n, r), d', CacheKey(m, q));
    KeyIsInjective(n, r, m, q);
  }

  lemma LoosePaths(base: string, n: string, r: string, m: string, q: string)
    requires '/' !in n && '/' !in m && Join(Join(base, n), r) == Join(Join(base, m), q)
    ensures n == m
  {
    ThreeDeep(base, "", n, r);
    ThreeDeep(base, "", m, q);
    JoinCancels(base, CacheKey(n, r), CacheKey(m, q));
    KeyIsInjective(n, r, m, q);
  }

  lemma PathsAreApart(glob: Glob, baseDir: string, dir: Dir, a: (string, string), b: (string, string), r: RepoSummary,
                      q: RepoSummary)
    requires Clean(dir) && var found := FoundInAll(glob, dir, PortfolioList(glob, baseDir, dir));
             a in found && b in found && r in found[a] && q in found[b]
    requires r.path == q.path
    ensures a == b
  {
    var p := FoundPaths(glob, baseDir, dir, a, r);
    var p' := FoundPaths(glob, baseDir, dir, b, q);
    ListedKinds(glob, baseDir, dir, p);
    ListedKinds(glob, baseDir, dir, p');
    if p.isDefault && p'.isDefault {
      LoosePaths(baseDir, a.1, r.name, b.1, q.name);
    } else if p.isDefault {
      DifferentDepths(baseDir, a.1, r.name, p'.name, b.1, q.name);
    } else if p'.isDefault {
      DifferentDepths(baseDir, b.1, q.name, p.name, a.1, r.name);
    } else {
      SameDepths(baseDir, p.name, a.1, r.name, p'.name, b.1, q.name);
    }
  }

  lemma WorldIsApart(glob: Glob, baseDir: string, dir: Dir, git: map<string, RepoSummary>)
    requires Clean(dir)
    ensures Apart(WorldOf(glob, baseDir, dir, git))
  {
    var found := FoundInAll(glob, dir, PortfolioList(glob, baseDir, dir));
    forall a, b, r: RepoSummary, q: RepoSummary | a in found && b in found && a != b && r in found[a] && q in found[b]
      ensures r.path != q.path
    {
      if r.path == q.path { PathsAreApart(glob, baseDir, dir, a, b, r, q); }
    }
  }
}
