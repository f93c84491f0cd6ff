/** Two workspaces with one cache key: the concurrent refresher (internal/controller/refresher.go)
    sooner or later writes the entry of either, so a page is right at all times just when its
    workspace has no rival. */
module Rivals {
  import opened Types
  import opened Cache
  import opened Refresh
  import opened RefreshProtocol

  // ---- Runs in two parts ----

  lemma {:induction false} RunsJoin(s: State, a: seq<Event>, b: seq<Event>, w: World, items: seq<RefreshItem>)
    requires ValidRun(s, a) && FaithfulRun(s, a, w, items)
    requires ValidRun(After(s, a), b) && FaithfulRun(After(s, a), b, w, items)
    ensures ValidRun(s, a + b) && FaithfulRun(s, a + b, w, items) && After(s, a + b) == After(After(s, a), b)
    decreases |a|
  {
    if a == [] {
      assert a + b == b;
    } else {
      assert (a + b)[1..] == a[1..] + b;
      RunsJoin(Next(s, a[0]), a[1..], b, w, items);
    }
  }

  ghost predicate Leads(s: State, es: seq<Event>, s': State, w: World, items: seq<RefreshItem>) {
    ValidRun(s, es) && FaithfulRun(s, es, w, items) && After(s, es) == s'
  }

  lemma OneStep(s: State, e: Event, w: World, items: seq<RefreshItem>)
    requires Enabled(s, e) && Faithful(s, e, w, items)
    ensures Leads(s, [e], Next(s, e), w, items)
  {
    assert [e][1..] == [];
    assert ValidRun(Next(s, e), []);
  }

  lemma Then(s: State, a: seq<Event>, s1: State, b: seq<Event>, s2: State, w: World, items: seq<RefreshItem>)
    requires Leads(s, a, s1, w, items) && Leads(s1, b, s2, w, items)
    ensures Leads(s, a + b, s2, w, items)
  {
    RunsJoin(s, a, b, w, items);
  }

  // ---- One item, from the scheduler to the cache ----

  /** The scheduler still has `rest` to send, the queue is empty and the first worker idle. */
  predicate Ready(s: State, rest: seq<RefreshItem>) {
    s.scheduler == Walking(rest) && s.queue == [] && s.workers != [] && s.workers[0].Idle?
  }

  /** The same but for the first worker. */
  predicate Beside(s: State, s': State) {
    s'.scheduler == s.scheduler && s'.queue == s.queue && s'.cache == s.cache && |s'.workers| == |s.workers|
  }

  lemma {:induction false} AskAll(s: State, w: World, items: seq<RefreshItem>, item: RefreshItem, repos: seq<RepoSummary>, k: nat)
    returns (es: seq<Event>, s': State)
    requires s.workers != [] && k <= |repos|
    requires s.workers[0] == Scanning(item, repos[k..], Collected(w, item.workspaceName, repos[..k]))
    ensures Leads(s, es, s', w, items) && Beside(s, s')
    ensures s'.workers[0] == Scanning(item, [], Collected(w, item.workspaceName, repos))
    decreases |repos| - k
  {
    if k == |repos| {
      es, s' := [], s;
      assert repos[..k] == repos;
    } else {
      var e := AskGit(0, RepoInfo(w, repos[k].path));
      assert repos[k..][0] == repos[k] && repos[k..][1..] == repos[k + 1..] && repos[..k + 1][..k] == repos[..k];
      OneStep(s, e, w, items);
      var rest;
      rest, s' := AskAll(Next(s, e), w, items, item, repos, k + 1);
      es := [e] + rest;
      Then(s, [e], Next(s, e), rest, s', w, items);
    }
  }

  /** A worker that has taken an item leaves the cache as a refresh of that item does. */
  lemma Process(s: State, w: World, items: seq<RefreshItem>, item: RefreshItem) returns (es: seq<Event>, s': State)
    requires s.workers != [] && s.workers[0] == Taken(item)
    ensures Leads(s, es, s', w, items)
    ensures Beside(s.(cache := Refreshed(s.cache, w, item)), s') && s'.workers[0].Idle?
  {
    var e := Discover(0, Repos(w, item));
    OneStep(s, e, w, items);
    var s1 := Next(s, e);
    if At(item) !in w.workspaces {
      es, s' := [e], s1;
    } else {
      var repos := w.workspaces[At(item)];
      assert repos[0..] == repos && repos[..0] == [];
      var asks, s2 := AskAll(s1, w, items, item, repos, 0);
      OneStep(s2, Write(0), w, items);
      s' := Next(s2, Write(0));
      Then(s1, asks, s2, [Write(0)], s', w, items);
      Then(s, [e], s1, asks + [Write(0)], s', w, items);
      es := [e] + (asks + [Write(0)]);
    }
  }

  lemma Turn(s: State, w: World, items: seq<RefreshItem>, rest: seq<RefreshItem>) returns (es: seq<Event>, s': State)
    requires rest != [] && Ready(s, rest)
    ensures Leads(s, es, s', w, items) && Ready(s', rest[1..]) && s'.cache == Refreshed(s.cache, w, rest[0])
  {
    OneStep(s, Send, w, items);
    var s1 := Next(s, Send);
    OneStep(s1, Take(0), w, items);
    var s2 := Next(s1, Take(0));
    Then(s, [Send], s1, [Take(0)], s2, w, items);
    var more;
    more, s' := Process(s2, w, items, rest[0]);
    es := [Send] + [Take(0)] + more;
    Then(s, [Send] + [Take(0)], s2, more, s', w, items);
  }

  /** The concurrent refresher can do what refreshAll does: after a tick it can reach, item by item,
      the cache of a sequential refresh of the first `k` items. */
  lemma {:induction false} Refreshes(s: State, w: World, items: seq<RefreshItem>, k: nat)
    returns (es: seq<Event>, s': State)
    requires s.scheduler.Waiting? && s.queue == [] && s.workers != [] && s.workers[0].Idle? && k <= |items|
    ensures Leads(s, es, s', w, items) && Ready(s', items[k..]) && s'.cache == RefreshedAll(s.cache, w, items[..k])
    decreases k
  {
    if k == 0 {
      var e := Tick(Some(items));
      OneStep(s, e, w, items);
      es, s' := [e], Next(s, e);
      assert items[0..] == items && items[..0] == [];
    } else {
      var first, s1 := Refreshes(s, w, items, k - 1);
      var last;
      last, s' := Turn(s1, w, items, items[k - 1..]);
      es := first + last;
      Then(s, first, s1, last, s', w, items);
      assert items[k - 1..][0] == items[k - 1] && items[k - 1..][1..] == items[k..];
      assert items[..k][..k - 1] == items[..k - 1];
    }
  }

  // ---- The exact condition ----

  /** At every moment of every run over a file system that does not change, whatever git answers. */
  ghost predicate LiveAtAllTimes(n: nat, c: Contents, w: World, items: seq<RefreshItem>, item: RefreshItem)
    requires At(item) in w.workspaces
  {
    forall git, es :: LiveAfter(n, c, WithGit(w, git), items, es, item)
  }

  ghost predicate LiveAfter(n: nat, c: Contents, w: World, items: seq<RefreshItem>, es: seq<Event>, item: RefreshItem)
    requires At(item) in w.workspaces
  {
    var s := Initial(n, RefreshedAll(c, w, items));
    ValidRun(s, es) && FaithfulRun(s, es, w, items) ==>
      ShownAsGit(After(s, es).cache, w, item) && ListedAsGit(After(s, es).cache, w, item)
  }

  lemma RivalShows(c: Contents, w: World, item: RefreshItem, x: RefreshItem)
    requires At(item) in w.workspaces && w.workspaces[At(item)] != [] && Apart(w)
    requires At(x) in w.workspaces && At(x) != At(item) && Key(x) == Key(item) && Key(item) in c
    requires c[Key(item)] == Collected(WithGit(w, Telling(w.workspaces[At(item)][0])), x.workspaceName, w.workspaces[At(x)])
    ensures !ShownAsGit(c, WithGit(w, Telling(w.workspaces[At(item)][0])), item)
  {
    var r := w.workspaces[At(item)][0];
    var w' := WithGit(w, Telling(r));
    CollectedUnanswered(w', x.workspaceName, w.workspaces[At(x)]);
    assert r in w.workspaces[At(item)] && |r.branch + "+"| != |r.branch|;
    assert FromCache(c, Key(item), r).branch != Direct(w', r).branch;
  }

  lemma RivalBreaksARun(n: nat, c: Contents, w: World, items: seq<RefreshItem>, item: RefreshItem, x: RefreshItem)
    requires n > 0 && At(item) in w.workspaces && w.workspaces[At(item)] != [] && Apart(w)
    requires x in items && At(x) in w.workspaces && At(x) != At(item) && Key(x) == Key(item)
    ensures !LiveAtAllTimes(n, c, w, items, item)
  {
    var git := Telling(w.workspaces[At(item)][0]);
    var w' := WithGit(w, git);
    var s := Initial(n, RefreshedAll(c, w', items));
    var i :| 0 <= i < |items| && items[i] == x;
    var es, s' := Refreshes(s, w', items, i + 1);
    assert items[..i + 1][..i] == items[..i] && items[..i + 1][i] == x;
    RivalShows(s'.cache, w, item, x);
    assert !LiveAfter(n, c, w', items, es, item);
  }

  /** Page and list of a workspace are live at all times if and only if no readable workspace of
      another directory has its key, or there is no repository to show. */
  lemma LiveJustWithoutRivals(n: nat, c: Contents, w: World, items: seq<RefreshItem>, item: RefreshItem)
    requires n > 0 && item in items && At(item) in w.workspaces && UniqueNames(w.workspaces[At(item)]) && Apart(w)
    ensures LiveAtAllTimes(n, c, w, items, item) <==> w.workspaces[At(item)] == [] || Unrivalled(w, items, item)
  {
    if Unrivalled(w, items, item) {
      forall git, es ensures LiveAfter(n, c, WithGit(w, git), items, es, item) {
        var w' := WithGit(w, git);
        var s := Initial(n, RefreshedAll(c, w', items));
        if ValidRun(s, es) && FaithfulRun(s, es, w', items) { PagesAlwaysAgreeWithGit(n, c, w', items, es, item); }
      }
    } else if w.workspaces[At(item)] != [] {
      var x :| x in items && Key(x) == Key(item) && At(x) in w.workspaces && At(x) != At(item);
      RivalBreaksARun(n, c, w, items, item, x);
    }
  }
}
