/** Discovery of portfolios, workspaces and repositories (internal/adapter/portfolio.go and
    internal/adapter/workspace.go) over a directory tree that does not change. Pattern
    matching against the ignore files is an uninterpreted predicate. */
module Discovery {
  import opened Types
  import opened Ordering

  // ---- The tree ----

  datatype Node = File | Directory(dir: Dir)

  datatype Entry = Entry(name: string, node: Node)

  /** `patterns` are those of the ignore file; a directory that is not readable has entries that
      can be reached by name but not be listed. */
  datatype Dir = Dir(readable: bool, patterns: seq<string>, entries: seq<Entry>)

  function EntryName(e: Entry): string { e.name }
  function OverviewName(r: RepoOverview): string { r.name }
  function SummaryName(r: RepoSummary): string { r.name }
  function WorkspaceName(ws: WorkspaceSummary): string { ws.name }
  function PortfolioName(p: PortfolioSummary): string { p.name }

  type Glob = (string, string) -> bool

  /** What a file system guarantees: in a directory names are distinct, not empty, free of slashes. */
  predicate Clean(dir: Dir)
    decreases dir
  {
    && DistinctNames(dir.entries, EntryName)
    && (forall i :: 0 <= i < |dir.entries| ==> dir.entries[i].name != "" && '/' !in dir.entries[i].name)
    && (forall i :: 0 <= i < |dir.entries| && dir.entries[i].node.Directory? ==> Clean(dir.entries[i].node.dir))
  }

  /** os.Stat of a name in a directory. */
  predicate Has(dir: Dir, name: string) { exists e :: e in dir.entries && e.name == name }

  predicate Ignored(glob: Glob, name: string, patterns: seq<string>) {
    exists p :: p in patterns && glob(p, name)
  }

  /** The three filters that begin every loop. */
  predicate Visible(glob: Glob, dir: Dir, e: Entry)
    requires e.name != ""
  {
    e.node.Directory? && e.name[0] != '.' && !Ignored(glob, e.name, dir.patterns)
  }

  predicate IsWorkspace(glob: Glob, dir: Dir, e: Entry) {
    e.name != "" && Visible(glob, dir, e) && Has(e.node.dir, "go.work")
  }

  predicate IsRepo(glob: Glob, dir: Dir, e: Entry) {
    e.name != "" && Visible(glob, dir, e) && Has(e.node.dir, ".git")
  }

  // ---- Filtering loops ----

  function Collect<T>(keep: Entry -> bool, make: Entry -> T, entries: seq<Entry>): seq<T> {
    if entries == [] then []
    else
      var last := entries[|entries| - 1];
      Collect(keep, make, entries[..|entries| - 1]) + (if keep(last) then [make(last)] else [])
  }

  lemma {:induction false} CollectMember<T>(keep: Entry -> bool, make: Entry -> T, entries: seq<Entry>, x: T)
    ensures x in Collect(keep, make, entries) <==> exists e :: e in entries && keep(e) && make(e) == x
  {
    if entries != [] {
      var n := |entries| - 1;
      assert entries == entries[..n] + [entries[n]];
      CollectMember(keep, make, entries[..n], x);
    }
  }

  lemma {:induction false} CollectDistinct<T>(keep: Entry -> bool, make: Entry -> T, entries: seq<Entry>, name: T -> string)
    requires DistinctNames(entries, EntryName) && forall e :: e in entries ==> name(make(e)) == e.name
    ensures DistinctNames(Collect(keep, make, entries), name)
  {
    if entries != [] {
      var n := |entries| - 1;
      var before := Collect(keep, make, entries[..n]);
      CollectDistinct(keep, make, entries[..n], name);
      forall i | 0 <= i < |before| ensures name(before[i]) != entries[n].name {
        CollectMember(keep, make, entries[..n], before[i]);
        var e :| e in entries[..n] && keep(e) && make(e) == before[i];
        var j :| 0 <= j < n && entries[..n][j] == e;
        assert entries[j].name != entries[n].name;
      }
    }
  }

  // ---- Repositories of a workspace ----

  predicate Holds(node: Node, name: string) { node.Directory? && Has(node.dir, name) }

  function RepoFilter(glob: Glob, dir: Dir): Entry -> bool { (e: Entry) => IsRepo(glob, dir, e) }

  function OverviewOf(wsPath: string, wsName: string): Entry -> RepoOverview {
    (e: Entry) => RepoOverview(
      e.name, wsName, Join(wsPath, e.name), "", false, 0, 0, false, Holds(e.node, "forge.yaml"),
      "/workspaces/" + wsName + "/repos/" + e.name, 0)
  }

  function SummaryOf(wsPath: string, wsName: string): Entry -> RepoSummary {
    (e: Entry) => RepoSummary(
      e.name, Join(wsPath, e.name), "", false, [], "", [], Holds(e.node, "forge.yaml"),
      "/workspaces/" + wsName + "/repos/" + e.name, 0, 0, false, 0)
  }

  function FoundOverviews(glob: Glob, wsPath: string, wsName: string, dir: Dir): seq<RepoOverview> {
    Collect(RepoFilter(glob, dir), OverviewOf(wsPath, wsName), dir.entries)
  }

  function FoundSummaries(glob: Glob, wsPath: string, wsName: string, dir: Dir): seq<RepoSummary> {
    Collect(RepoFilter(glob, dir), SummaryOf(wsPath, wsName), dir.entries)
  }

  /** The repositories in the list view: none when the workspace cannot be read. */
  function ListView(glob: Glob, wsPath: string, wsName: string, dir: Dir): seq<RepoOverview> {
    if dir.readable then Sort(FoundOverviews(glob, wsPath, wsName, dir), NameOrder(OverviewName)) else []
  }

  /** The repositories in the detail view. */
  function DetailView(glob: Glob, wsPath: string, wsName: string, dir: Dir): seq<RepoSummary> {
    Sort(FoundSummaries(glob, wsPath, wsName, dir), NameOrder(SummaryName))
  }

  lemma OverviewsAreDistinct(glob: Glob, wsPath: string, wsName: string, dir: Dir)
    requires Clean(dir)
    ensures DistinctNames(FoundOverviews(glob, wsPath, wsName, dir), OverviewName)
  {
    CollectDistinct(RepoFilter(glob, dir), OverviewOf(wsPath, wsName), dir.entries, OverviewName);
  }

  lemma SummariesAreDistinct(glob: Glob, wsPath: string, wsName: string, dir: Dir)
    requires Clean(dir)
    ensures DistinctNames(FoundSummaries(glob, wsPath, wsName, dir), SummaryName)
  {
    CollectDistinct(RepoFilter(glob, dir), SummaryOf(wsPath, wsName), dir.entries, SummaryName);
  }

  method IsIgnored(glob: Glob, name: string, patterns: seq<string>) returns (ignored: bool)
    ensures ignored == Ignored(glob, name, patterns)
  {
    for i := 0 to |patterns|
      invariant !Ignored(glob, name, patterns[..i])
    {
      assert patterns[..i + 1] == patterns[..i] + [patterns[i]];
      if glob(patterns[i], name) {
        return true;
      }
    }
    assert patterns[..|patterns|] == patterns;
    ignored := false;
  }

  /** `scanRepos`. */
  method ScanRepos(glob: Glob, wsPath: string, wsName: string, dir: Dir) returns (repos: seq<RepoOverview>)
    requires Clean(dir)
    ensures repos == ListView(glob, wsPath, wsName, dir)
  {
    if !dir.readable {
      return [];
    }
    repos := [];
    for i := 0 to |dir.entries|
      invariant repos == Collect(RepoFilter(glob, dir), OverviewOf(wsPath, wsName), dir.entries[..i])
    {
      var entry := dir.entries[i];
      assert dir.entries[..i + 1][..i] == dir.entries[..i];
      if !entry.node.Directory? || entry.name[0] == '.' {
        continue;
      }
      var ignored := IsIgnored(glob, entry.name, dir.patterns);
      if ignored {
        continue;
      }
      var dirPath := Join(wsPath, entry.name);
      if !Has(entry.node.dir, ".git") {
        continue;
      }
      var hasForge := Has(entry.node.dir, "forge.yaml");
      repos := repos + [RepoOverview(entry.name, wsName, dirPath, "", false, 0, 0, false, hasForge,
                                     "/workspaces/" + wsName + "/repos/" + entry.name, 0)];
    }
    assert dir.entries[..|dir.entries|] == dir.entries;
    OverviewsAreDistinct(glob, wsPath, wsName, dir);
    repos := SortByName(repos, OverviewName);
  }

  function Lookup(dir: Dir, name: string): (node: Option<Node>)
    ensures node.Some? ==> Entry(name, node.value) in dir.entries
    ensures node.None? ==> !Has(dir, name)
  {
    LookupIn(dir.entries, name)
  }

  function LookupIn(entries: seq<Entry>, name: string): (node: Option<Node>)
    ensures node.Some? ==> Entry(name, node.value) in entries
    ensures node.None? ==> forall e <- entries :: e.name != name
  {
    if entries == [] then None
    else if entries[0].name == name then Some(entries[0].node)
    else LookupIn(entries[1..], name)
  }

  /** The directory that a name leads to, if it can be listed and has a go.work. */
  predicate Opens(dir: Dir, name: string) {
    var node := Lookup(dir, name);
    node.Some? && Holds(node.value, "go.work") && node.value.dir.readable
  }

  lemma ChildIsClean(dir: Dir, e: Entry)
    requires Clean(dir) && e in dir.entries && e.node.Directory?
    ensures Clean(e.node.dir)
  {
    var i :| 0 <= i < |dir.entries| && dir.entries[i] == e;
  }

  /** `Get` of the workspace discovery; None stands for its errors. */
  method GetWorkspace(glob: Glob, base: string, dir: Dir, name: string) returns (repos: Option<seq<RepoSummary>>)
    requires Clean(dir)
    ensures repos.Some? <==> Opens(dir, name)
    ensures repos.Some? ==> repos.value == DetailView(glob, Join(base, name), name, Lookup(dir, name).value.dir)
  {
    var wsPath := Join(base, name);
    var node := Lookup(dir, name);
    if node.None? || !Holds(node.value, "go.work") {
      return None;
    }
    var ws := node.value.dir;
    if !ws.readable {
      return None;
    }
    ChildIsClean(dir, Entry(name, node.value));
    var found := CollectSummaries(glob, wsPath, name, ws);
    SummariesAreDistinct(glob, wsPath, name, ws);
    found := SortByName(found, SummaryName);
    repos := Some(found);
  }

  /** Its loop. */
  method CollectSummaries(glob: Glob, wsPath: string, name: string, ws: Dir) returns (repos: seq<RepoSummary>)
    requires Clean(ws)
    ensures repos == FoundSummaries(glob, wsPath, name, ws)
  {
    repos := [];
    for i := 0 to |ws.entries|
      invariant repos == Collect(RepoFilter(glob, ws), SummaryOf(wsPath, name), ws.entries[..i])
    {
      var entry := ws.entries[i];
      assert ws.entries[..i + 1][..i] == ws.entries[..i];
      if !entry.node.Directory? {
        continue;
      }
      if entry.name[0] == '.' {
        continue;
      }
      var ignored := IsIgnored(glob, entry.name, ws.patterns);
      if ignored {
        continue;
      }
      var dirPath := Join(wsPath, entry.name);
      if !Has(entry.node.dir, ".git") {
        continue;
      }
      var hasForge := false;
      if Has(entry.node.dir, "forge.yaml") {
        hasForge := true;
      }
      repos := repos + [RepoSummary(entry.name, dirPath, "", false, [], "", [], hasForge,
                                    "/workspaces/" + name + "/repos/" + entry.name, 0, 0, false, 0)];
    }
    assert ws.entries[..|ws.entries|] == ws.entries;
  }

  // ---- Workspaces of a directory ----

  function WorkspaceFilter(glob: Glob, dir: Dir): Entry -> bool { (e: Entry) => IsWorkspace(glob, dir, e) }

  function WorkspaceAt(glob: Glob, base: string, name: string, dir: Dir): WorkspaceSummary {
    var repos := ListView(glob, Join(base, name), name, dir);
    WorkspaceSummary(name, Join(base, name), |repos|, repos, [], [], "", [], WorkspaceProgress(0, 0, 0, 0))
  }

  const NOWHERE: Dir := Dir(false, [], [])

  function DirOf(node: Node): Dir { if node.Directory? then node.dir else NOWHERE }

  function WorkspaceOf(glob: Glob, base: string): Entry -> WorkspaceSummary {
    (e: Entry) => WorkspaceAt(glob, base, e.name, DirOf(e.node))
  }

  function FoundWorkspaces(glob: Glob, base: string, dir: Dir): seq<WorkspaceSummary> {
    Collect(WorkspaceFilter(glob, dir), WorkspaceOf(glob, base), dir.entries)
  }

  function WorkspaceList(glob: Glob, base: string, dir: Dir): seq<WorkspaceSummary> {
    Sort(FoundWorkspaces(glob, base, dir), NameOrder(WorkspaceName))
  }

  lemma WorkspacesAreDistinct(glob: Glob, base: string, dir: Dir)
    requires Clean(dir)
    ensures DistinctNames(FoundWorkspaces(glob, base, dir), WorkspaceName)
  {
    CollectDistinct(WorkspaceFilter(glob, dir), WorkspaceOf(glob, base), dir.entries, WorkspaceName);
  }

  /** `List` of the workspace discovery; None stands for a directory that cannot be read. */
  method ListWorkspaces(glob: Glob, base: string, dir: Dir) returns (workspaces: Option<seq<WorkspaceSummary>>)
    requires Clean(dir)
    ensures workspaces == if dir.readable then Some(WorkspaceList(glob, base, dir)) else None
  {
    if !dir.readable {
      return None;
    }
    var found := CollectWorkspaces(glob, base, dir);
    WorkspacesAreDistinct(glob, base, dir);
    found := SortByName(found, WorkspaceName);
    workspaces := Some(found);
  }

  /** Its loop. */
  method CollectWorkspaces(glob: Glob, base: string, dir: Dir) returns (found: seq<WorkspaceSummary>)
    requires Clean(dir)
    ensures found == FoundWorkspaces(glob, base, dir)
  {
    found := [];
    for i := 0 to |dir.entries|
      invariant found == Collect(WorkspaceFilter(glob, dir), WorkspaceOf(glob, base), dir.entries[..i])
    {
      var entry := dir.entries[i];
      assert dir.entries[..i + 1][..i] == dir.entries[..i];
      if !entry.node.Directory? {
        continue;
      }
      if entry.name[0] == '.' {
        continue;
      }
      var ignored := IsIgnored(glob, entry.name, dir.patterns);
      if ignored {
        continue;
      }
      var wsPath := Join(base, entry.name);
      if !Has(entry.node.dir, "go.work") {
        continue;
      }
      var repos := ScanRepos(glob, wsPath, entry.name, entry.node.dir);
      found := found + [WorkspaceSummary(entry.name, wsPath, |repos|, repos, [], [], "", [], WorkspaceProgress(0, 0, 0, 0))];
    }
    assert dir.entries[..|dir.entries|] == dir.entries;
  }

  // ---- Portfolios ----

  const NO_TOTALS: WorkspacesStats := WorkspacesStats(0, 0, 0, 0, 0, 0, PortfolioProgress(0, 0, 0, 0, 0, 0))

  predicate HasWorkspace(glob: Glob, dir: Dir) { exists e :: e in dir.entries && IsWorkspace(glob, dir, e) }

  /** A directory that is listed as a portfolio of its own. */
  predicate IsNamed(glob: Glob, dir: Dir, e: Entry) {
    && e.name != "" && Visible(glob, dir, e) && !Has(e.node.dir, "go.work")
    && e.node.dir.readable && HasWorkspace(glob, e.node.dir)
  }

  function NamedFilter(glob: Glob, dir: Dir): Entry -> bool { (e: Entry) => IsNamed(glob, dir, e) }

  function NamedOf(glob: Glob, baseDir: string): Entry -> PortfolioSummary {
    (e: Entry) => PortfolioSummary(
      e.name, Join(baseDir, e.name), false, WorkspaceList(glob, Join(baseDir, e.name), DirOf(e.node)), NO_TOTALS, "")
  }

  function FoundNamed(glob: Glob, baseDir: string, dir: Dir): seq<PortfolioSummary> {
    Collect(NamedFilter(glob, dir), NamedOf(glob, baseDir), dir.entries)
  }

  /** The portfolio of the workspaces that lie directly in the base directory. */
  function CatchAll(glob: Glob, baseDir: string, dir: Dir): PortfolioSummary {
    PortfolioSummary("default", baseDir, true, WorkspaceList(glob, baseDir, dir), NO_TOTALS, "")
  }

  function PortfolioList(glob: Glob, baseDir: string, dir: Dir): seq<PortfolioSummary> {
    Sort(FoundNamed(glob, baseDir, dir), NameOrder(PortfolioName)) +
    (if HasWorkspace(glob, dir) then [CatchAll(glob, baseDir, dir)] else [])
  }

  lemma NamedAreDistinct(glob: Glob, baseDir: string, dir: Dir)
    requires Clean(dir)
    ensures DistinctNames(FoundNamed(glob, baseDir, dir), PortfolioName)
  {
    CollectDistinct(NamedFilter(glob, dir), NamedOf(glob, baseDir), dir.entries, PortfolioName);
  }

  /** `isNamedPortfolio`. */
  method IsNamedPortfolio(glob: Glob, dir: Dir) returns (named: bool)
    requires Clean(dir)
    ensures named <==> dir.readable && HasWorkspace(glob, dir)
  {
    if !dir.readable {
      return false;
    }
    for i := 0 to |dir.entries|
      invariant forall k :: 0 <= k < i ==> !IsWorkspace(glob, dir, dir.entries[k])
    {
      var entry := dir.entries[i];
      if !entry.node.Directory? {
        continue;
      }
      if entry.name[0] == '.' {
        continue;
      }
      var ignored := IsIgnored(glob, entry.name, dir.patterns);
      if ignored {
        continue;
      }
      if Has(entry.node.dir, "go.work") {
        assert IsWorkspace(glob, dir, dir.entries[i]);
        return true;
      }
    }
    named := false;
  }

  /** `List` of the portfolio discovery; None stands for a base directory that cannot be read. As
      the tree does not change, the listing of a named portfolio cannot fail. */
  method ListPortfolios(glob: Glob, baseDir: string, dir: Dir) returns (portfolios: Option<seq<PortfolioSummary>>)
    requires Clean(dir)
    ensures portfolios == if dir.readable then Some(PortfolioList(glob, baseDir, dir)) else None
  {
    if !dir.readable {
      return None;
    }
    var named, hasLoose := CollectNamed(glob, baseDir, dir);
    NamedAreDistinct(glob, baseDir, dir);
    var result := SortByName(named, PortfolioName);
    if hasLoose {
      var workspaces := ListWorkspaces(glob, baseDir, dir);
      result := result + [PortfolioSummary("default", baseDir, true, workspaces.value, NO_TOTALS, "")];
    } else {
      assert PortfolioList(glob, baseDir, dir) == result;
    }
    portfolios := Some(result);
  }

  /** One of the first `i` entries is a workspace. */
  predicate HasWorkspaceUpTo(glob: Glob, dir: Dir, i: nat)
    requires i <= |dir.entries|
  {
    exists k :: 0 <= k < i && IsWorkspace(glob, dir, dir.entries[k])
  }

  lemma UpToOneMore(glob: Glob, dir: Dir, i: nat)
    requires i < |dir.entries|
    ensures HasWorkspaceUpTo(glob, dir, i + 1) <==> HasWorkspaceUpTo(glob, dir, i) || IsWorkspace(glob, dir, dir.entries[i])
  {
    if IsWorkspace(glob, dir, dir.entries[i]) { assert HasWorkspaceUpTo(glob, dir, i + 1); }
  }

  lemma UpToAll(glob: Glob, dir: Dir)
    ensures HasWorkspaceUpTo(glob, dir, |dir.entries|) <==> HasWorkspace(glob, dir)
  {
    if e :| e in dir.entries && IsWorkspace(glob, dir, e) {
      var k :| 0 <= k < |dir.entries| && dir.entries[k] == e;
      assert IsWorkspace(glob, dir, dir.entries[k]);
    }
  }

  /** Its loop. */
  method CollectNamed(glob: Glob, baseDir: string, dir: Dir) returns (named: seq<PortfolioSummary>, hasLoose: bool)
    requires Clean(dir)
    ensures named == FoundNamed(glob, baseDir, dir) && (hasLoose <==> HasWorkspace(glob, dir))
  {
    named, hasLoose := [], false;
    for i := 0 to |dir.entries|
      invariant named == Collect(NamedFilter(glob, dir), NamedOf(glob, baseDir), dir.entries[..i])
      invariant hasLoose <==> HasWorkspaceUpTo(glob, dir, i)
    {
      var entry := dir.entries[i];
      UpToOneMore(glob, dir, i);
      assert dir.entries[..i + 1][..i] == dir.entries[..i];
      if !entry.node.Directory? {
        continue;
      }
      if entry.name[0] == '.' {
        continue;
      }
      var ignored := IsIgnored(glob, entry.name, dir.patterns);
      if ignored {
        continue;
      }
      var childPath := Join(baseDir, entry.name);
      if Has(entry.node.dir, "go.work") {
        hasLoose := true;
        continue;
      }
      var isNamed := IsNamedPortfolio(glob, entry.node.dir);
      if isNamed {
        var workspaces := ListWorkspaces(glob, childPath, entry.node.dir);
        named := named + [PortfolioSummary(entry.name, childPath, false, workspaces.value, NO_TOTALS, "")];
      }
    }
    UpToAll(glob, dir);
    assert dir.entries[..|dir.entries|] == dir.entries;
  }

  /** `Get` of the portfolio discovery; None stands for its errors. */
  method GetPortfolio(glob: Glob, baseDir: string, dir: Dir, name: string) returns (data: Option<PortfolioSummary>)
    requires Clean(dir)
    ensures data == Detail(glob, baseDir, dir, name)
  {
    if name == "default" {
      var workspaces := ListWorkspaces(glob, baseDir, dir);
      if workspaces.None? {
        return None;
      }
      return Some(PortfolioSummary("default", baseDir, true, workspaces.value, NO_TOTALS, ""));
    }
    var portfolioDir := Join(baseDir, name);
    var node := Lookup(dir, name);
    if node.None? || node.value.File? {
      return None;
    }
    ChildIsClean(dir, Entry(name, node.value));
    var workspaces := ListWorkspaces(glob, portfolioDir, node.value.dir);
    if workspaces.None? {
      return None;
    }
    data := Some(PortfolioSummary(name, portfolioDir, false, workspaces.value, NO_TOTALS, ""));
  }

  function Detail(glob: Glob, baseDir: string, dir: Dir, name: string): Option<PortfolioSummary> {
    if name == "default" then
      if dir.readable then Some(CatchAll(glob, baseDir, dir)) else None
    else
      var node := Lookup(dir, name);
      if node.Some? && node.value.Directory? && node.value.dir.readable then
        Some(NamedOf(glob, baseDir)(Entry(name, node.value)))
      else None
  }
}
