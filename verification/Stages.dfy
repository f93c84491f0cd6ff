/** Test reports by stage. The loader sorts reports by start time, latest first
    (`convertTestReports` in internal/adapter/forge.go), and four pieces of code scan them for
    the first report of each stage: the heat maps of the portfolio and workspace pages,
    the statistics of the forge page, and the renderer. */
module Stages {
  import opened Types
  import opened Ordering

  // ---- Loading ----

  predicate Later(x: TestReport, y: TestReport) { x.startTime > y.startTime }

  predicate LatestFirst(reports: seq<TestReport>) {
    forall i, j :: 0 <= i < j < |reports| ==> reports[i].startTime >= reports[j].startTime
  }

  function Present(entries: seq<Option<TestReport>>): seq<TestReport> {
    if entries == [] then []
    else Present(entries[..|entries| - 1]) +
         (if entries[|entries| - 1].Some? then [entries[|entries| - 1].value] else [])
  }

  /** Each report as often as its entry. */
  lemma {:induction false} PresentCounts(entries: seq<Option<TestReport>>, r: TestReport)
    ensures multiset(Present(entries))[r] == multiset(entries)[Some(r)]
  {
    if entries != [] {
      var n := |entries| - 1;
      PresentCounts(entries[..n], r);
      assert entries == entries[..n] + [entries[n]];
    }
  }

  /** `convertTestReports`; `entries` are the values of the map in whatever order Go visits
      them. */
  method ConvertTestReports(entries: seq<Option<TestReport>>) returns (reports: array<TestReport>)
    ensures fresh(reports)
    ensures LatestFirst(reports[..]) && IsPermutation(reports[..], Present(entries))
    ensures forall i, j :: 0 <= i < j < reports.Length ==> reports[i].startTime >= reports[j].startTime
    ensures forall r :: multiset(reports[..])[r] == multiset(entries)[Some(r)]
  {
    var found: seq<TestReport> := [];
    for i := 0 to |entries|
      invariant found == Present(entries[..i])
    {
      assert entries[..i + 1][..i] == entries[..i];
      if entries[i].None? {
        continue;
      }
      found := found + [entries[i].value];
    }
    assert entries[..|entries|] == entries;
    reports := new TestReport[|found|](i requires 0 <= i < |found| => found[i]);
    assert reports[..] == found;
    SortSlice(reports, Later);
    forall r ensures multiset(reports[..])[r] == multiset(entries)[Some(r)] { PresentCounts(entries, r); }
    assert LatestFirst(reports[..]);
  }

  // ---- The first report of each stage ----

  /** The status of the first report of each stage. */
  function FirstStatus(reports: seq<TestReport>): map<string, string> {
    if reports == [] then map[]
    else FirstStatus(reports[1..])[reports[0].stage := reports[0].status]
  }

  predicate HasStage(reports: seq<TestReport>, stage: string) {
    exists i :: 0 <= i < |reports| && reports[i].stage == stage
  }

  lemma HasStageAppend(reports: seq<TestReport>, r: TestReport, stage: string)
    ensures HasStage(reports + [r], stage) <==> HasStage(reports, stage) || r.stage == stage
  {
    if HasStage(reports, stage) {
      var i :| 0 <= i < |reports| && reports[i].stage == stage;
      assert (reports + [r])[i].stage == stage;
    }
    if r.stage == stage { assert (reports + [r])[|reports|].stage == stage; }
  }

  function FirstReports(reports: seq<TestReport>): seq<TestReport> {
    if reports == [] then []
    else
      var last := reports[|reports| - 1];
      var before := reports[..|reports| - 1];
      FirstReports(before) + (if HasStage(before, last.stage) then [] else [last])
  }

  lemma {:induction false} FirstStatusNames(reports: seq<TestReport>, stage: string)
    ensures stage in FirstStatus(reports) <==> HasStage(reports, stage)
  {
    if reports != [] {
      FirstStatusNames(reports[1..], stage);
      if stage in FirstStatus(reports) && stage != reports[0].stage {
        var i :| 0 <= i < |reports[1..]| && reports[1..][i].stage == stage;
        assert reports[i + 1].stage == stage;
      } else if HasStage(reports, stage) {
        var i :| 0 <= i < |reports| && reports[i].stage == stage;
        if i > 0 { assert reports[1..][i - 1].stage == stage; }
      }
    }
  }

  lemma {:induction false} FirstStatusAppend(reports: seq<TestReport>, r: TestReport)
    ensures FirstStatus(reports + [r]) ==
            if r.stage in FirstStatus(reports) then FirstStatus(reports) else FirstStatus(reports)[r.stage := r.status]
  {
    if reports != [] {
      assert (reports + [r])[1..] == reports[1..] + [r];
      FirstStatusAppend(reports[1..], r);
    } else {
      assert (reports + [r])[1..] == [];
    }
  }

  /** The loop of `renderForge`. */
  method LatestStageReports(reports: seq<TestReport>) returns (latest: seq<TestReport>)
    ensures latest == FirstReports(reports)
  {
    var seen: map<string, bool> := map[];
    latest := [];
    for i := 0 to |reports|
      invariant latest == FirstReports(reports[..i])
      invariant forall stage :: stage in seen <==> HasStage(reports[..i], stage)
    {
      var rpt := reports[i];
      assert reports[..i + 1][..i] == reports[..i];
      assert reports[..i + 1] == reports[..i] + [rpt];
      forall stage ensures HasStage(reports[..i + 1], stage) <==> HasStage(reports[..i], stage) || rpt.stage == stage {
        HasStageAppend(reports[..i], rpt, stage);
      }
      if rpt.stage !in seen {
        seen := seen[rpt.stage := true];
        latest := latest + [rpt];
      }
    }
    assert reports[..|reports|] == reports;
  }

  /** Where the first report of a stage is. */
  function FirstIndex(reports: seq<TestReport>, stage: string): (k: nat)
    requires HasStage(reports, stage)
    ensures k < |reports| && reports[k].stage == stage
    ensures forall i :: 0 <= i < k ==> reports[i].stage != stage
  {
    if reports[0].stage == stage then 0
    else
      assert HasStage(reports[1..], stage) by {
        var i :| 0 <= i < |reports| && reports[i].stage == stage;
        assert reports[1..][i - 1].stage == stage;
      }
      1 + FirstIndex(reports[1..], stage)
  }

  lemma {:induction false} FirstStatusIsAtFirstIndex(reports: seq<TestReport>, stage: string)
    requires HasStage(reports, stage)
    ensures stage in FirstStatus(reports) && FirstStatus(reports)[stage] == reports[FirstIndex(reports, stage)].status
  {
    FirstStatusNames(reports, stage);
    if reports[0].stage != stage {
      var i :| 0 <= i < |reports| && reports[i].stage == stage;
      assert reports[1..][i - 1].stage == stage;
      FirstStatusIsAtFirstIndex(reports[1..], stage);
    }
  }

  lemma FirstIndexIs(reports: seq<TestReport>, stage: string, k: nat)
    requires k < |reports| && reports[k].stage == stage && forall i :: 0 <= i < k ==> reports[i].stage != stage
    ensures HasStage(reports, stage) && FirstIndex(reports, stage) == k
  {
  }

  /** FirstReports has, for each stage, the report at its first index, and no other. */
  lemma {:induction false} FirstReportsAreFirst(reports: seq<TestReport>, r: TestReport)
    ensures r in FirstReports(reports) <==>
            HasStage(reports, r.stage) && reports[FirstIndex(reports, r.stage)] == r
  {
    if reports != [] {
      var n := |reports| - 1;
      var before := reports[..n];
      FirstReportsAreFirst(before, r);
      if HasStage(before, r.stage) {
        var k := FirstIndex(before, r.stage);
        assert forall i :: 0 <= i <= k ==> reports[i] == before[i];
        FirstIndexIs(reports, r.stage, k);
      } else if reports[n].stage == r.stage {
        forall i | 0 <= i < n ensures reports[i].stage != r.stage {
          assert before[i] == reports[i];
        }
        FirstIndexIs(reports, r.stage, n);
      } else {
        HasStageAppend(before, reports[n], r.stage);
        assert reports == before + [reports[n]];
      }
    }
  }

  lemma {:induction false} FirstReportsStages(reports: seq<TestReport>)
    ensures forall i, j :: 0 <= i < j < |FirstReports(reports)| ==>
              FirstReports(reports)[i].stage != FirstReports(reports)[j].stage
  {
    if reports != [] {
      var n := |reports| - 1;
      var before := reports[..n];
      FirstReportsStages(before);
      forall r | r in FirstReports(before) ensures HasStage(before, r.stage) {
        FirstReportsAreFirst(before, r);
      }
    }
  }

  /** Latest status is one answer everywhere. On reports in the loader's order, the stage maps
      and the renderer's list cover the same stages, those that have reports; the list has
      one report for each stage, of maximal start time; and the maps show its status. */
  lemma LatestIsOneAnswer(reports: seq<TestReport>, stage: string)
    requires LatestFirst(reports)
    ensures stage in FirstStatus(reports) <==> HasStage(reports, stage)
    ensures HasStage(reports, stage) ==>
              exists r :: r in FirstReports(reports) && r.stage == stage
                       && r.status == FirstStatus(reports)[stage] && IsLatest(reports, r)
    ensures HasStage(FirstReports(reports), stage) <==> HasStage(reports, stage)
    ensures forall r, s :: r in FirstReports(reports) && s in FirstReports(reports) && r.stage == s.stage ==> r == s
  {
    FirstStatusNames(reports, stage);
    if HasStage(reports, stage) { FirstIsLatest(reports, stage); }
    ListHasStages(reports, stage);
    ListHasOneEach(reports);
  }

  /** No report of its stage started later. */
  predicate IsLatest(reports: seq<TestReport>, r: TestReport) {
    r in reports && forall s <- reports :: s.stage == r.stage ==> s.startTime <= r.startTime
  }

  lemma FirstIsGreatest(reports: seq<TestReport>, stage: string)
    requires LatestFirst(reports) && HasStage(reports, stage)
    ensures IsLatest(reports, reports[FirstIndex(reports, stage)])
  {
    var k := FirstIndex(reports, stage);
    forall s | s in reports && s.stage == stage ensures s.startTime <= reports[k].startTime {
      var j :| 0 <= j < |reports| && reports[j] == s;
    }
  }

  lemma FirstIsLatest(reports: seq<TestReport>, stage: string)
    requires LatestFirst(reports) && HasStage(reports, stage)
    ensures var r := reports[FirstIndex(reports, stage)];
            && r in FirstReports(reports) && r.stage == stage && IsLatest(reports, r)
            && stage in FirstStatus(reports) && r.status == FirstStatus(reports)[stage]
  {
    FirstIsGreatest(reports, stage);
    FirstStatusIsAtFirstIndex(reports, stage);
    FirstReportsAreFirst(reports, reports[FirstIndex(reports, stage)]);
  }

  lemma ListHasStages(reports: seq<TestReport>, stage: string)
    ensures HasStage(FirstReports(reports), stage) <==> HasStage(reports, stage)
  {
    var list := FirstReports(reports);
    if HasStage(list, stage) {
      var i :| 0 <= i < |list| && list[i].stage == stage;
      FirstReportsAreFirst(reports, list[i]);
    }
    if HasStage(reports, stage) {
      var r := reports[FirstIndex(reports, stage)];
      FirstReportsAreFirst(reports, r);
      var i :| 0 <= i < |list| && list[i] == r;
      assert list[i].stage == stage;
    }
  }

  lemma ListHasOneEach(reports: seq<TestReport>)
    ensures forall r, s :: r in FirstReports(reports) && s in FirstReports(reports) && r.stage == s.stage ==> r == s
  {
    forall r, s | r in FirstReports(reports) && s in FirstReports(reports) && r.stage == s.stage ensures r == s {
      FirstReportsAreFirst(reports, r);
      FirstReportsAreFirst(reports, s);
    }
  }

  // ---- Two loads of one file ----

  /** What a load of the reports may give: the order of equal start times is left open. */
  ghost predicate LoadOf(found: seq<TestReport>, reports: seq<TestReport>) {
    IsPermutation(reports, found) && LatestFirst(reports)
  }

  /** The latest reports of a stage have one status. */
  ghost predicate NoTies(found: seq<TestReport>) {
    forall r, s :: IsLatest(found, r) && IsLatest(found, s) && r.stage == s.stage ==> r.status == s.status
  }

  lemma LatestOfLoad(found: seq<TestReport>, reports: seq<TestReport>, r: TestReport)
    requires IsPermutation(reports, found)
    ensures IsLatest(reports, r) <==> IsLatest(found, r)
  {
    PermutationMembers(reports, found);
  }

  lemma StagesOfLoad(found: seq<TestReport>, reports: seq<TestReport>, stage: string)
    requires IsPermutation(reports, found)
    ensures HasStage(reports, stage) <==> HasStage(found, stage)
  {
    PermutationMembers(reports, found);
    if HasStage(reports, stage) {
      var i :| 0 <= i < |reports| && reports[i].stage == stage;
      assert reports[i] in found;
    }
    if HasStage(found, stage) {
      var i :| 0 <= i < |found| && found[i].stage == stage;
      assert found[i] in reports;
    }
  }

  lemma SameWithoutTies(found: seq<TestReport>, a: seq<TestReport>, b: seq<TestReport>, stage: string)
    requires NoTies(found) && LoadOf(found, a) && LoadOf(found, b)
    ensures stage in FirstStatus(a) <==> stage in FirstStatus(b)
    ensures stage in FirstStatus(a) ==> FirstStatus(a)[stage] == FirstStatus(b)[stage]
  {
    FirstStatusNames(a, stage);
    FirstStatusNames(b, stage);
    StagesOfLoad(found, a, stage);
    StagesOfLoad(found, b, stage);
    if HasStage(a, stage) {
      FirstIsLatest(a, stage);
      FirstIsLatest(b, stage);
      LatestOfLoad(found, a, a[FirstIndex(a, stage)]);
      LatestOfLoad(found, b, b[FirstIndex(b, stage)]);
    }
  }

  /** Sorts by time and puts `r` first among reports of its time. */
  function Preferring(r: TestReport): (TestReport, TestReport) -> bool {
    (x: TestReport, y: TestReport) => x.startTime > y.startTime || (x.startTime == y.startTime && x == r && y != r)
  }

  /** Every latest report can be the one that a load shows. */
  lemma LoadPreferring(found: seq<TestReport>, r: TestReport) returns (reports: seq<TestReport>)
    requires IsLatest(found, r)
    ensures LoadOf(found, reports) && r.stage in FirstStatus(reports) && FirstStatus(reports)[r.stage] == r.status
  {
    reports := Sort(found, Preferring(r));
    SortSorts(found, Preferring(r));
    forall i, j | 0 <= i < j < |reports| ensures reports[i].startTime >= reports[j].startTime {
      assert !Preferring(r)(reports[j], reports[i]);
    }
    LatestOfLoad(found, reports, r);
    PreferredIsFirst(reports, r);
    FirstStatusIsAtFirstIndex(reports, r.stage);
  }

  lemma PreferredIsFirst(reports: seq<TestReport>, r: TestReport)
    requires LatestFirst(reports) && IsLatest(reports, r) && Sorted(reports, Preferring(r))
    ensures HasStage(reports, r.stage) && reports[FirstIndex(reports, r.stage)] == r
  {
    var j :| 0 <= j < |reports| && reports[j] == r;
    assert HasStage(reports, r.stage);
    FirstIsGreatest(reports, r.stage);
    var k := FirstIndex(reports, r.stage);
    if k < j { assert !Preferring(r)(reports[j], reports[k]); }
  }

  /** Pages load a file separately. Any two loads show the same latest statuses if and only if, for
      each stage, all reports of maximal start time have one status. */
  lemma LoadsAgreeJustWithoutTies(found: seq<TestReport>)
    ensures (forall a, b :: LoadOf(found, a) && LoadOf(found, b) ==> FirstStatus(a) == FirstStatus(b)) <==> NoTies(found)
  {
    if NoTies(found) {
      forall a, b | LoadOf(found, a) && LoadOf(found, b) ensures FirstStatus(a) == FirstStatus(b) {
        forall stage
          ensures stage in FirstStatus(a) <==> stage in FirstStatus(b)
          ensures stage in FirstStatus(a) ==> FirstStatus(a)[stage] == FirstStatus(b)[stage]
        {
          SameWithoutTies(found, a, b, stage);
        }
      }
    } else {
      var r, s :| IsLatest(found, r) && IsLatest(found, s) && r.stage == s.stage && r.status != s.status;
      var a := LoadPreferring(found, r);
      var b := LoadPreferring(found, s);
      assert FirstStatus(a) != FirstStatus(b);
    }
  }

  // ---- Names of stages ----

  /** The names in order of first appearance. */
  function Dedup(names: seq<string>): seq<string> {
    if names == [] then []
    else
      var last := names[|names| - 1];
      var before := names[..|names| - 1];
      Dedup(before) + (if last in before then [] else [last])
  }

  function StageOf(reports: seq<TestReport>): (names: seq<string>)
    ensures |names| == |reports| && forall i :: 0 <= i < |names| ==> names[i] == reports[i].stage
  {
    if reports == [] then [] else [reports[0].stage] + StageOf(reports[1..])
  }

  /** The stages of the specification, then those of the reports. */
  function StageNames(forge: ForgeData): seq<string> { forge.specStages + StageOf(forge.reports) }

  lemma StageNamesAre(forge: ForgeData)
    ensures |StageNames(forge)| == |forge.specStages| + |forge.reports|
    ensures forall i :: 0 <= i < |forge.specStages| ==> StageNames(forge)[i] == forge.specStages[i]
    ensures forall i :: 0 <= i < |forge.reports| ==> StageNames(forge)[|forge.specStages| + i] == forge.reports[i].stage
  {
  }

  lemma {:induction false} DedupMembers(names: seq<string>, x: string)
    ensures x in Dedup(names) <==> x in names
  {
    if names != [] {
      var n := |names| - 1;
      DedupMembers(names[..n], x);
      assert names == names[..n] + [names[n]];
    }
  }

  function Position(names: seq<string>, x: string): (k: nat)
    requires x in names
    ensures k < |names| && names[k] == x && forall i :: 0 <= i < k ==> names[i] != x
  {
    if names[0] == x then 0 else
      assert names == [names[0]] + names[1..];
      1 + Position(names[1..], x)
  }

  lemma PositionIs(names: seq<string>, x: string, k: nat)
    requires k < |names| && names[k] == x && forall i :: 0 <= i < k ==> names[i] != x
    ensures Position(names, x) == k
  {
  }

  lemma PositionInPrefix(names: seq<string>, n: nat, x: string)
    requires n <= |names| && x in names[..n]
    ensures x in names && Position(names, x) == Position(names[..n], x)
  {
    var k := Position(names[..n], x);
    assert forall i :: 0 <= i <= k ==> names[i] == names[..n][i];
    PositionIs(names, x, k);
  }

  /** Each name once, exactly the names given, in order of first appearance. */
  lemma {:induction false} DedupIsFirstAppearance(names: seq<string>)
    ensures forall x :: x in Dedup(names) <==> x in names
    ensures forall i :: 0 <= i < |Dedup(names)| ==> Dedup(names)[i] in names
    ensures forall i, j :: 0 <= i < j < |Dedup(names)| ==>
              Dedup(names)[i] != Dedup(names)[j] && Position(names, Dedup(names)[i]) < Position(names, Dedup(names)[j])
  {
    forall x ensures x in Dedup(names) <==> x in names { DedupMembers(names, x); }
    if names != [] {
      var n := |names| - 1;
      DedupIsFirstAppearance(names[..n]);
      assert names == names[..n] + [names[n]];
      var d := Dedup(names);
      forall i, j | 0 <= i < j < |d| ensures d[i] != d[j] && Position(names, d[i]) < Position(names, d[j]) {
        assert d[i] in names[..n];
        PositionInPrefix(names, n, d[i]);
        if j < |Dedup(names[..n])| {
          PositionInPrefix(names, n, d[j]);
        } else {
          LastIsAtEnd(names);
        }
      }
    }
  }

  lemma LastIsAtEnd(names: seq<string>)
    requires names != [] && names[|names| - 1] !in names[..|names| - 1]
    ensures Position(names, names[|names| - 1]) == |names| - 1
  {
    var n := |names| - 1;
    assert forall i :: 0 <= i < n ==> names[i] in names[..n];
    PositionIs(names, names[n], n);
  }
}
