/** The cards of the most recent portfolios, workspaces and repositories
    (`topRecent*` in internal/controller/renderer.go). */
module Recent {
  import opened Types
  import opened Ordering
  import opened Portfolios
  import opened PortfolioPages

  /** `top` holds the `n` greatest of `items` (all of them when there are fewer), greatest first. */
  ghost predicate IsTop<T(!new)>(items: seq<T>, newer: (T, T) -> bool, n: nat, top: seq<T>) {
    && |top| == (if n < |items| then n else |items|)
    && Sorted(top, newer)
    && exists others :: LeavesOut(items, newer, top, others)
  }

  ghost predicate LeavesOut<T>(items: seq<T>, newer: (T, T) -> bool, top: seq<T>, others: seq<T>) {
    && IsPermutation(top + others, items)
    && forall x <- top, y <- others :: !newer(y, x)
  }

  lemma SplitIsTop<T>(items: seq<T>, newer: (T, T) -> bool, n: nat, sorted: seq<T>)
    requires Sorted(sorted, newer) && IsPermutation(sorted, items) && n <= |items|
    ensures |sorted| == |items| && LeavesOut(items, newer, sorted[..n], sorted[n..])
  {
    PermutationSize(sorted, items);
    assert sorted[..n] + sorted[n..] == sorted;
    forall x, y | x in sorted[..n] && y in sorted[n..] ensures !newer(y, x) {
      var i :| 0 <= i < n && sorted[..n][i] == x;
      var j :| 0 <= j < |sorted[n..]| && sorted[n..][j] == y;
      assert !newer(sorted[n + j], sorted[i]);
    }
  }

  /** The body that the three functions share: it sorts a copy, so its input stays as it was. */
  method TopRecent<T(!new)>(items: array<T>, newer: (T, T) -> bool, n: nat) returns (top: seq<T>)
    requires StrictWeak(newer)
    ensures IsTop(items[..], newer, n, top)
  {
    if items.Length == 0 {
      assert LeavesOut([], newer, [], []);
      return [];
    }
    var sorted := new T[items.Length](i requires 0 <= i < items.Length reads items => items[i]);
    assert sorted[..] == items[..];
    SortSlice(sorted, newer);
    var k := n;
    if k > sorted.Length {
      k := sorted.Length;
    }
    SplitIsTop(items[..], newer, k, sorted[..]);
    top := sorted[..k];
  }

  method TopRecentPortfolios(portfolios: array<PortfolioSummary>, n: nat) returns (top: seq<PortfolioSummary>)
    ensures IsTop(portfolios[..], NewerPortfolio, n, top)
    ensures forall i, j :: 0 <= i < j < |top| ==> MaxTime(AllRepos(top[i].workspaces)) >= MaxTime(AllRepos(top[j].workspaces))
  {
    top := TopRecent(portfolios, NewerPortfolio, n);
  }

  method TopRecentWorkspaces(workspaces: array<WorkspaceSummary>, n: nat) returns (top: seq<WorkspaceSummary>)
    ensures IsTop(workspaces[..], NewerWorkspace, n, top)
    ensures forall i, j :: 0 <= i < j < |top| ==> MaxTime(top[i].repos) >= MaxTime(top[j].repos)
  {
    top := TopRecent(workspaces, NewerWorkspace, n);
  }

  predicate NewerSummary(x: RepoSummary, y: RepoSummary) { x.lastCommitTime > y.lastCommitTime }

  method TopRecentRepos(repos: array<RepoSummary>, n: nat) returns (top: seq<RepoSummary>)
    ensures IsTop(repos[..], NewerSummary, n, top)
    ensures forall i, j :: 0 <= i < j < |top| ==> top[i].lastCommitTime >= top[j].lastCommitTime
  {
    top := TopRecent(repos, NewerSummary, n);
  }
}
