/** The in-memory cache of git data (internal/adapter/cache.go). The lock makes each
    operation atomic; interleavings are the subject of module RefreshProtocol. */
module Cache {
  import opened Types

  datatype CacheWorkspaceData = CacheWorkspaceData(
    summaries: map<string, RepoSummary>,
    overviews: map<string, RepoOverview>)

  type Contents = map<string, CacheWorkspaceData>

  function SummaryIn(c: Contents, workspace: string, repo: string): Option<RepoSummary> {
    if workspace in c && repo in c[workspace].summaries then Some(c[workspace].summaries[repo]) else None
  }

  function OverviewIn(c: Contents, workspace: string, repo: string): Option<RepoOverview> {
    if workspace in c && repo in c[workspace].overviews then Some(c[workspace].overviews[repo]) else None
  }

  class InMemoryCache {
    var workspaces: Contents

    constructor ()
      ensures workspaces == map[]
    {
      workspaces := map[];
    }

    method SetWorkspace(name: string, data: CacheWorkspaceData)
      modifies this
      ensures workspaces == old(workspaces)[name := data]
    {
      workspaces := workspaces[name := data];
    }

    method GetRepoSummary(workspace: string, repo: string) returns (s: Option<RepoSummary>)
      ensures s == SummaryIn(workspaces, workspace, repo)
    {
      if workspace !in workspaces {
        return None;
      }
      var ws := workspaces[workspace];
      s := if repo in ws.summaries then Some(ws.summaries[repo]) else None;
    }

    method GetRepoOverview(workspace: string, repo: string) returns (o: Option<RepoOverview>)
      ensures o == OverviewIn(workspaces, workspace, repo)
    {
      if workspace !in workspaces {
        return None;
      }
      var ws := workspaces[workspace];
      o := if repo in ws.overviews then Some(ws.overviews[repo]) else None;
    }
  }
}
