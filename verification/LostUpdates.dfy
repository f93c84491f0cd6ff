/** Two workers with one workspace (internal/controller/refresher.go): a worker that has asked git
    before a change may write after a worker that asked later, and the cache goes back to what
    was. What is lost, and when it cannot be. */
module LostUpdates {
  import opened Types
  import opened Cache
  import opened Refresh
  import opened RefreshProtocol
  import opened Rivals

  // ---- A run that loses an update ----

  lemma {:induction false} Joins(s: State, a: seq<Event>, b: seq<Event>)
    requires ValidRun(s, a) && ValidRun(After(s, a), b)
    ensures ValidRun(s, a + b) && After(s, a + b) == After(After(s, a), b)
    decreases |a|
  {
    if a == [] {
      assert a + b == b;
    } else {
      assert (a + b)[1..] == a[1..] + b;
      Joins(Next(s, a[0]), a[1..], b);
    }
  }

  lemma Single(s: State, e: Event)
    requires Enabled(s, e)
    ensures ValidRun(s, [e]) && After(s, [e]) == Next(s, e)
  {
    assert [e][1..] == [];
    assert ValidRun(Next(s, e), []);
  }

  lemma Extends(s: State, a: seq<Event>, e: Event)
    requires ValidRun(s, a) && Enabled(After(s, a), e)
    ensures ValidRun(s, a + [e]) && After(s, a + [e]) == Next(After(s, a), e)
  {
    Single(After(s, a), e);
    Joins(s, a, [e]);
  }

  /** The entry of a workspace with one repository, for which git answered `info`. */
  function EntryOf(item: RefreshItem, repo: RepoSummary, info: RepoSummary): CacheWorkspaceData {
    WithRepo(EMPTY, item.workspaceName, repo, Some(info))
  }

  /** A tick whose listing has one workspace; worker `i` takes it and asks git. */
  function Scan(i: nat, item: RefreshItem, repo: RepoSummary, info: RepoSummary): seq<Event> {
    [Tick(Some([item]))] + [Send] + [Take(i)] + [Discover(i, Some([repo]))] + [AskGit(i, Some(info))]
  }

  lemma ScanRuns(s: State, i: nat, item: RefreshItem, repo: RepoSummary, info: RepoSummary)
    requires s.scheduler.Waiting? && s.queue == [] && i < |s.workers| && s.workers[i].Idle?
    ensures ValidRun(s, Scan(i, item, repo, info))
    ensures var s' := After(s, Scan(i, item, repo, info));
            && s'.scheduler.Waiting? && s'.queue == [] && s'.cache == s.cache
            && s'.workers == s.workers[i := Scanning(item, [], EntryOf(item, repo, info))]
  {
    var e1, e2, e3, e4, e5 := Tick(Some([item])), Send, Take(i), Discover(i, Some([repo])), AskGit(i, Some(info));
    Single(s, e1);
    Extends(s, [e1], e2);
    Extends(s, [e1] + [e2], e3);
    Extends(s, [e1] + [e2] + [e3], e4);
    Extends(s, [e1] + [e2] + [e3] + [e4], e5);
    assert [repo][1..] == [] && [item][1..] == [];
  }

  /** Worker 0 asks git, worker 1 asks it later, and writes first. */
  function BothAsk(item: RefreshItem, repo: RepoSummary, earlier: RepoSummary, later: RepoSummary): seq<Event> {
    Scan(0, item, repo, earlier) + Scan(1, item, repo, later)
  }

  /** An update that is lost: git's later answer is in the cache, and then, when worker 0 writes,
      the earlier one is there again. */
  lemma UpdateIsLost(c: Contents, item: RefreshItem, repo: RepoSummary, earlier: RepoSummary, later: RepoSummary)
    ensures var s, es := Initial(2, c), BothAsk(item, repo, earlier, later) + [Write(1)];
            && ValidRun(s, es + [Write(0)])
            && ValidRun(s, es)
            && Key(item) in After(s, es).cache && After(s, es).cache[Key(item)] == EntryOf(item, repo, later)
            && Key(item) in After(s, es + [Write(0)]).cache
            && After(s, es + [Write(0)]).cache[Key(item)] == EntryOf(item, repo, earlier)
  {
    var s := Initial(2, c);
    var a, b := Scan(0, item, repo, earlier), Scan(1, item, repo, later);
    ScanRuns(s, 0, item, repo, earlier);
    ScanRuns(After(s, a), 1, item, repo, later);
    Joins(s, a, b);
    Extends(s, a + b, Write(1));
    Extends(s, a + b + [Write(1)], Write(0));
  }

  // ---- When an entry stays right ----

  /** What a scan will write if from now on git answers as in `w`. */
  function Finish(w: World, data: CacheWorkspaceData, workspace: string, rest: seq<RepoSummary>): CacheWorkspaceData
    decreases |rest|
  {
    if rest == [] then data
    else Finish(w, WithRepo(data, workspace, rest[0], RepoInfo(w, rest[0].path)), workspace, rest[1..])
  }

  lemma {:induction false} FinishIsCollected(w: World, workspace: string, repos: seq<RepoSummary>, k: nat)
    requires k <= |repos|
    ensures Finish(w, Collected(w, workspace, repos[..k]), workspace, repos[k..]) == Collected(w, workspace, repos)
    decreases |repos| - k
  {
    if k == |repos| {
      assert repos[..k] == repos;
    } else {
      assert repos[..k + 1][..k] == repos[..k] && repos[k..][1..] == repos[k + 1..];
      FinishIsCollected(w, workspace, repos, k + 1);
    }
  }

  /** A worker in the midst of a scan for the item's key that will not write what `w` says. */
  predicate Stale(w: World, x: Worker, item: RefreshItem)
    requires At(item) in w.workspaces
  {
    && x.Scanning? && Key(x.item) == Key(item)
    && Finish(w, x.data, x.item.workspaceName, x.rest) != Collected(w, item.workspaceName, w.workspaces[At(item)])
  }

  predicate NoRival(w: World, x: RefreshItem, item: RefreshItem) {
    Key(x) == Key(item) && At(x) in w.workspaces ==> At(x) == At(item)
  }

  /** Nothing that is listed, on its way, or taken belongs to another directory with the item's key. */
  predicate Alone(s: State, w: World, items: seq<RefreshItem>, item: RefreshItem) {
    && Unrivalled(w, items, item)
    && (forall x <- s.queue :: NoRival(w, x, item))
    && (forall x <- Unsent(s) :: NoRival(w, x, item))
    && (forall i :: 0 <= i < |s.workers| && s.workers[i].Taken? ==> NoRival(w, s.workers[i].item, item))
  }

  predicate NoneStale(s: State, w: World, item: RefreshItem)
    requires At(item) in w.workspaces
  {
    forall i :: 0 <= i < |s.workers| ==> !Stale(w, s.workers[i], item)
  }

  lemma AloneStep(s: State, e: Event, w: World, items: seq<RefreshItem>, item: RefreshItem)
    requires Alone(s, w, items, item) && Enabled(s, e) && Faithful(s, e, w, items)
    ensures Alone(Next(s, e), w, items, item)
  {
  }

  lemma DiscoverIsNotStale(w: World, x: RefreshItem, item: RefreshItem)
    requires At(item) in w.workspaces && At(x) in w.workspaces && NoRival(w, x, item)
    ensures !Stale(w, Scanning(x, w.workspaces[At(x)], EMPTY), item)
  {
    var repos := w.workspaces[At(x)];
    FinishIsCollected(w, x.workspaceName, repos, 0);
    assert repos[..0] == [] && repos[0..] == repos;
  }

  lemma NoneStaleStep(s: State, e: Event, w: World, items: seq<RefreshItem>, item: RefreshItem)
    requires At(item) in w.workspaces && Alone(s, w, items, item) && NoneStale(s, w, item)
    requires Enabled(s, e) && Faithful(s, e, w, items)
    ensures NoneStale(Next(s, e), w, item)
  {
    match e
    case Discover(i, Some(repos)) => DiscoverIsNotStale(w, s.workers[i].item, item);
    case AskGit(i, info) => assert !Stale(w, s.workers[i], item);
    case _ =>
  }

  lemma EntryStep(s: State, e: Event, w: World, items: seq<RefreshItem>, item: RefreshItem)
    requires At(item) in w.workspaces && NoneStale(s, w, item) && EntryAgrees(s.cache, w, item) && Enabled(s, e)
    ensures EntryAgrees(Next(s, e).cache, w, item)
  {
    if e.Write? { assert !Stale(w, s.workers[e.i], item); }
  }

  lemma {:induction false} StaysRight(s: State, es: seq<Event>, w: World, items: seq<RefreshItem>, item: RefreshItem)
    requires At(item) in w.workspaces && Alone(s, w, items, item) && NoneStale(s, w, item)
    requires EntryAgrees(s.cache, w, item) && ValidRun(s, es) && FaithfulRun(s, es, w, items)
    ensures EntryAgrees(After(s, es).cache, w, item)
    decreases |es|
  {
    if es != [] {
      AloneStep(s, es[0], w, items, item);
      NoneStaleStep(s, es[0], w, items, item);
      EntryStep(s, es[0], w, items, item);
      StaysRight(Next(s, es[0]), es[1..], w, items, item);
    }
  }

  /** A scan can always be finished, and then its data is in the cache. */
  lemma {:induction false} ScanCanFinish(s: State, w: World, items: seq<RefreshItem>, i: nat)
    returns (es: seq<Event>, s': State)
    requires i < |s.workers| && s.workers[i].Scanning?
    ensures Leads(s, es, s', w, items)
    ensures var x := s.workers[i];
            s'.cache == s.cache[Key(x.item) := Finish(w, x.data, x.item.workspaceName, x.rest)]
    decreases |s.workers[i].rest|
  {
    var x := s.workers[i];
    if x.rest == [] {
      OneStep(s, Write(i), w, items);
      es, s' := [Write(i)], Next(s, Write(i));
    } else {
      var e := AskGit(i, RepoInfo(w, x.rest[0].path));
      OneStep(s, e, w, items);
      var rest;
      rest, s' := ScanCanFinish(Next(s, e), w, items, i);
      es := [e] + rest;
      Then(s, [e], Next(s, e), rest, s', w, items);
    }
  }

  /** The entry agrees with `w` after every further run over a file system that stays as in `w`. */
  ghost predicate RightForGood(s: State, w: World, items: seq<RefreshItem>, item: RefreshItem) {
    forall es :: ValidRun(s, es) && FaithfulRun(s, es, w, items) ==> EntryAgrees(After(s, es).cache, w, item)
  }

  /** Once the entry of a workspace agrees with a file system that changes no more, it does so for
      good if and only if no worker is in the midst of a stale scan for its key. */
  lemma RightForGoodJustWithoutStaleScans(s: State, w: World, items: seq<RefreshItem>, item: RefreshItem)
    requires At(item) in w.workspaces && EntryAgrees(s.cache, w, item) && Alone(s, w, items, item)
    ensures RightForGood(s, w, items, item) <==> NoneStale(s, w, item)
  {
    if NoneStale(s, w, item) {
      forall es | ValidRun(s, es) && FaithfulRun(s, es, w, items) ensures EntryAgrees(After(s, es).cache, w, item) {
        StaysRight(s, es, w, items, item);
      }
    } else {
      var i :| 0 <= i < |s.workers| && Stale(w, s.workers[i], item);
      var es, s' := ScanCanFinish(s, w, items, i);
      assert !EntryAgrees(After(s, es).cache, w, item);
    }
  }
}
