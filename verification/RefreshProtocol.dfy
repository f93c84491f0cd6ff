/** The concurrent refresher (internal/controller/refresher.go): one scheduler, any number
    of workers, a queue of capacity 100, the channel `done` and the WaitGroup, as a
    transition system. A state has a program counter per goroutine, and an event is
    one atomic action of one of them. Where a Go select has several ready cases, several
    events are enabled. What discovery and git answer is part of the event, so the
    file system may change at any moment. */
module RefreshProtocol {
  import opened Types
  import opened Cache
  import opened Refresh

  const QUEUE_CAPACITY: nat := 100

  datatype Scheduler = Waiting | Sending(rest: seq<RefreshItem>) | SchedulerEnded

  datatype Worker =
    | Idle
    | Taken(item: RefreshItem)
    | Scanning(item: RefreshItem, rest: seq<RepoSummary>, data: CacheWorkspaceData)
    | WorkerEnded

  datatype Stopper = Running | Closing | Returned

  /** The last four fields are history: the items of every listing walked so far, those
      taken from the queue, those finished, those the scheduler gave up when told to
      stop; `written` are the items whose data went to the cache. */
  datatype State = State(
    scheduler: Scheduler,
    workers: seq<Worker>,
    queue: seq<RefreshItem>,
    wg: int,
    stopper: Stopper,
    cache: Contents,
    listed: seq<RefreshItem>,
    started: seq<RefreshItem>,
    finished: multiset<RefreshItem>,
    dropped: seq<RefreshItem>,
    written: seq<RefreshItem>)

  datatype Event =
    | Tick(listing: Option<seq<RefreshItem>>)
    | Send
    | SchedulerQuits
    | Take(i: nat)
    | Discover(i: nat, repos: Option<seq<RepoSummary>>)
    | AskGit(i: nat, info: Option<RepoSummary>)
    | Write(i: nat)
    | WorkerQuits(i: nat)
    | CloseDone
    | StopReturns

  /** The state when Start returns: `c` is the cache after the initial refresh. */
  function Initial(n: nat, c: Contents): State {
    State(Waiting, seq(n, _ => Idle), [], n + 1, Running, c, [], [], multiset{}, [], [])
  }

  predicate Done(s: State) { !s.stopper.Running? }

  predicate Enabled(s: State, e: Event) {
    match e
    case Tick(_) => s.scheduler.Waiting?
    case Send => s.scheduler.Sending? && s.scheduler.rest != [] && |s.queue| < QUEUE_CAPACITY
    case SchedulerQuits => !s.scheduler.SchedulerEnded? && Done(s)
    case Take(i) => i < |s.workers| && s.workers[i].Idle? && s.queue != []
    case Discover(i, _) => i < |s.workers| && s.workers[i].Taken?
    case AskGit(i, _) => i < |s.workers| && s.workers[i].Scanning? && s.workers[i].rest != []
    case Write(i) => i < |s.workers| && s.workers[i].Scanning? && s.workers[i].rest == []
    case WorkerQuits(i) => i < |s.workers| && s.workers[i].Idle? && Done(s)
    case CloseDone => s.stopper.Running?
    case StopReturns => s.stopper.Closing? && s.wg == 0
  }

  function Walking(items: seq<RefreshItem>): Scheduler {
    if items == [] then Waiting else Sending(items)
  }

  function Unsent(s: State): seq<RefreshItem> {
    if s.scheduler.Sending? then s.scheduler.rest else []
  }

  function Next(s: State, e: Event): State
    requires Enabled(s, e)
  {
    match e
    case Tick(None) => s
    case Tick(Some(items)) => s.(scheduler := Walking(items), listed := s.listed + items)
    case Send => s.(scheduler := Walking(s.scheduler.rest[1..]), queue := s.queue + [s.scheduler.rest[0]])
    case SchedulerQuits => s.(scheduler := SchedulerEnded, wg := s.wg - 1, dropped := Unsent(s))
    case Take(i) =>
      s.(workers := s.workers[i := Taken(s.queue[0])], queue := s.queue[1..], started := s.started + [s.queue[0]])
    case Discover(i, None) =>
      s.(workers := s.workers[i := Idle], finished := s.finished + multiset{s.workers[i].item})
    case Discover(i, Some(repos)) =>
      s.(workers := s.workers[i := Scanning(s.workers[i].item, repos, EMPTY)])
    case AskGit(i, info) =>
      var w := s.workers[i];
      s.(workers := s.workers[i := w.(rest := w.rest[1..],
                                      data := WithRepo(w.data, w.item.workspaceName, w.rest[0], info))])
    case Write(i) =>
      var w := s.workers[i];
      s.(workers := s.workers[i := Idle], cache := s.cache[Key(w.item) := w.data],
         finished := s.finished + multiset{w.item}, written := s.written + [w.item])
    case WorkerQuits(i) => s.(workers := s.workers[i := WorkerEnded], wg := s.wg - 1)
    case CloseDone => s.(stopper := Closing)
    case StopReturns => s.(stopper := Returned)
  }

  // ---- Quantities summed over the workers ----

  function LiveOf(w: Worker): nat { if w.WorkerEnded? then 0 else 1 }

  function LiveWorkers(ws: seq<Worker>): nat {
    if ws == [] then 0 else LiveOf(ws[0]) + LiveWorkers(ws[1..])
  }

  function HeldBy(w: Worker): multiset<RefreshItem> {
    if w.Taken? || w.Scanning? then multiset{w.item} else multiset{}
  }

  function InFlight(ws: seq<Worker>): multiset<RefreshItem> {
    if ws == [] then multiset{} else HeldBy(ws[0]) + InFlight(ws[1..])
  }

  /** The most steps a worker can still take before it is idle and quits, if no workspace
      has more than `r` repositories. */
  function WorkOf(w: Worker, r: nat): nat {
    match w
    case WorkerEnded => 0
    case Idle => 1
    case Scanning(_, rest, _) => 2 + |rest|
    case Taken(_) => 3 + r
  }

  function Work(ws: seq<Worker>, r: nat): nat {
    if ws == [] then 0 else WorkOf(ws[0], r) + Work(ws[1..], r)
  }

  lemma {:induction false} OneWorkerChanges(ws: seq<Worker>, i: nat, w: Worker, r: nat)
    requires i < |ws|
    ensures LiveWorkers(ws[i := w]) + LiveOf(ws[i]) == LiveWorkers(ws) + LiveOf(w)
    ensures Work(ws[i := w], r) + WorkOf(ws[i], r) == Work(ws, r) + WorkOf(w, r)
  {
    if i == 0 {
      assert ws[i := w][1..] == ws[1..];
    } else {
      assert ws[i := w][1..] == ws[1..][i - 1 := w];
      OneWorkerChanges(ws[1..], i - 1, w, r);
    }
  }

  lemma FlightOfUpdate(ws: seq<Worker>, i: nat, w: Worker)
    requires 0 < i < |ws|
    ensures InFlight(ws[i := w]) == HeldBy(ws[0]) + InFlight(ws[1..][i - 1 := w])
  {
    assert ws[i := w][1..] == ws[1..][i - 1 := w];
  }

  lemma FlightOfFirst(ws: seq<Worker>, w: Worker)
    requires ws != []
    ensures InFlight(ws[0 := w]) == HeldBy(w) + InFlight(ws[1..])
  {
    assert ws[0 := w][1..] == ws[1..];
  }

  lemma {:induction false} OneFlightChanges(ws: seq<Worker>, i: nat, w: Worker)
    requires i < |ws|
    ensures InFlight(ws[i := w]) + HeldBy(ws[i]) == InFlight(ws) + HeldBy(w)
  {
    if i == 0 {
      FlightOfFirst(ws, w);
      Swapped(HeldBy(w), InFlight(ws[1..]), HeldBy(ws[0]));
    } else {
      FlightOfUpdate(ws, i, w);
      OneFlightChanges(ws[1..], i - 1, w);
      AddToBoth(HeldBy(ws[0]), InFlight(ws[1..][i - 1 := w]), HeldBy(ws[i]), InFlight(ws[1..]), HeldBy(w));
    }
  }

  lemma Swapped<T>(a: multiset<T>, b: multiset<T>, c: multiset<T>)
    ensures a + b + c == c + b + a
  {
  }

  lemma AddToBoth<T>(h: multiset<T>, a: multiset<T>, b: multiset<T>, c: multiset<T>, d: multiset<T>)
    requires a + b == c + d
    ensures h + a + b == h + c + d
  {
    assert h + a + b == h + (a + b);
    assert h + c + d == h + (c + d);
  }

  /** What leaves one part of a total joins another. */
  lemma Moved<T>(total: multiset<T>, a: multiset<T>, b: multiset<T>, a': multiset<T>, m: multiset<T>)
    requires total == a + b && a == a' + m
    ensures total == a' + (b + m)
  {
  }

  lemma Cancelled<T>(a: multiset<T>, b: multiset<T>, m: multiset<T>, h: multiset<T>)
    requires a + (h + m) == b + h
    ensures b == a + m
  {
    forall x ensures b[x] == (a + m)[x] {
      assert (a + (h + m))[x] == (b + h)[x];
    }
  }

  lemma {:induction false} NoneLive(ws: seq<Worker>)
    ensures LiveWorkers(ws) == 0 <==> forall i :: 0 <= i < |ws| ==> ws[i].WorkerEnded?
  {
    if ws != [] {
      NoneLive(ws[1..]);
      if LiveWorkers(ws) == 0 {
        forall i | 0 <= i < |ws| ensures ws[i].WorkerEnded? {
          if i > 0 { assert ws[i] == ws[1..][i - 1]; }
        }
      }
    }
  }

  // ---- The invariant ----

  /** Summaries and overviews name the same repositories, and each overview is the projection of
      its summary for the workspace. */
  predicate Twin(d: CacheWorkspaceData, workspace: string) {
    && d.summaries.Keys == d.overviews.Keys
    && forall n <- d.summaries ::
         d.summaries[n].name == n && d.overviews[n] == Overview(d.summaries[n], workspace)
  }

  /** An entry is such a pair for the workspace of its key. */
  ghost predicate TwinEntry(key: string, d: CacheWorkspaceData) {
    exists portfolio, workspace :: key == CacheKey(portfolio, workspace) && Twin(d, workspace)
  }

  ghost predicate TwinCache(c: Contents) { forall k <- c :: TwinEntry(k, c[k]) }

  /** WaitGroup, channels and Stop. */
  predicate ControlInv(s: State) {
    && |s.queue| <= QUEUE_CAPACITY
    && (s.scheduler.Sending? ==> s.scheduler.rest != [])
    && s.wg == (if s.scheduler.SchedulerEnded? then 0 else 1) + LiveWorkers(s.workers)
    && (s.stopper.Returned? ==> s.wg == 0)
  }

  /** Every item of every listing is in exactly one place, in the order of the listings:
      started, queued, still to be sent, or given up at the stop ... */
  predicate PlaceInv(s: State) {
    && s.listed == s.started + s.queue + Unsent(s) + s.dropped
    && (s.dropped != [] ==> s.scheduler.SchedulerEnded?)
  }

  /** ... and what was started is either in flight or finished. */
  predicate FlightInv(s: State) {
    multiset(s.started) == InFlight(s.workers) + s.finished
  }

  ghost predicate DataInv(s: State) {
    && (forall i :: 0 <= i < |s.workers| && s.workers[i].Scanning? ==>
          Twin(s.workers[i].data, s.workers[i].item.workspaceName))
    && TwinCache(s.cache)
  }

  /** Whatever the cache holds other than at Start, when it was `c`, came from a finished item. */
  predicate WriteInv(s: State, c: Contents) {
    && (forall k <- s.cache :: (k in c && s.cache[k] == c[k]) || exists j :: 0 <= j < |s.written| && Key(s.written[j]) == k)
    && multiset(s.written) <= s.finished
  }

  ghost predicate Inv(s: State, c: Contents) {
    ControlInv(s) && PlaceInv(s) && FlightInv(s) && DataInv(s) && WriteInv(s, c)
  }

  lemma {:induction false} InitialWorkers(n: nat)
    ensures var ws := seq(n, _ => Idle); LiveWorkers(ws) == n && InFlight(ws) == multiset{}
  {
    if n > 0 {
      assert seq(n, _ => Idle)[1..] == seq(n - 1, _ => Idle);
      InitialWorkers(n - 1);
    }
  }

  lemma InitialInv(n: nat, c: Contents)
    requires TwinCache(c)
    ensures Inv(Initial(n, c), c)
  {
    InitialWorkers(n);
  }

  lemma ControlStep(s: State, e: Event)
    requires ControlInv(s) && Enabled(s, e)
    ensures ControlInv(Next(s, e))
  {
    var s' := Next(s, e);
    if e.Take? || e.Discover? || e.AskGit? || e.Write? || e.WorkerQuits? {
      OneWorkerChanges(s.workers, e.i, s'.workers[e.i], 0);
      assert s'.workers == s.workers[e.i := s'.workers[e.i]];
    }
  }

  lemma PlaceSend(s: State)
    requires PlaceInv(s) && ControlInv(s) && Enabled(s, Send)
    ensures PlaceInv(Next(s, Send))
  {
    var s' := Next(s, Send);
    assert s.queue + s.scheduler.rest == s'.queue + Unsent(s');
    assert s.started + (s.queue + s.scheduler.rest) == s'.started + s'.queue + Unsent(s');
  }

  lemma PlaceTake(s: State, i: nat)
    requires PlaceInv(s) && Enabled(s, Take(i))
    ensures PlaceInv(Next(s, Take(i)))
  {
    assert s.started + s.queue == Next(s, Take(i)).started + Next(s, Take(i)).queue;
  }

  lemma PlaceStep(s: State, e: Event)
    requires PlaceInv(s) && ControlInv(s) && Enabled(s, e)
    ensures PlaceInv(Next(s, e))
  {
    match e
    case Send => PlaceSend(s);
    case Take(i) => PlaceTake(s, i);
    case _ =>
  }

  lemma FlightTake(s: State, i: nat)
    requires FlightInv(s) && Enabled(s, Take(i))
    ensures FlightInv(Next(s, Take(i)))
  {
    var item := s.queue[0];
    var flight := InFlight(s.workers[i := Taken(item)]);
    OneFlightChanges(s.workers, i, Taken(item));
    Cancelled(InFlight(s.workers), flight, multiset{item}, multiset{});
    Joined(multiset(s.started), InFlight(s.workers), s.finished, multiset{item});
  }

  lemma Joined<T>(total: multiset<T>, a: multiset<T>, b: multiset<T>, m: multiset<T>)
    requires total == a + b
    ensures total + m == (a + m) + b
  {
  }

  /** The item of a worker moves from in flight to finished, or stays where it is. */
  lemma FlightMoves(s: State, s': State, i: nat, w: Worker, moved: multiset<RefreshItem>)
    requires FlightInv(s) && i < |s.workers| && HeldBy(s.workers[i]) == HeldBy(w) + moved
    requires s'.started == s.started && s'.workers == s.workers[i := w] && s'.finished == s.finished + moved
    ensures FlightInv(s')
  {
    OneFlightChanges(s.workers, i, w);
    Cancelled(InFlight(s'.workers), InFlight(s.workers), moved, HeldBy(w));
    Moved(multiset(s.started), InFlight(s.workers), s.finished, InFlight(s'.workers), moved);
  }

  lemma FlightEnds(s: State, e: Event)
    requires FlightInv(s) && Enabled(s, e) && (e.Write? || (e.Discover? && e.repos.None?))
    ensures FlightInv(Next(s, e))
  {
    FlightMoves(s, Next(s, e), e.i, Idle, multiset{s.workers[e.i].item});
  }

  lemma FlightSame(s: State, s': State, i: nat, w: Worker)
    requires FlightInv(s) && i < |s.workers| && HeldBy(w) == HeldBy(s.workers[i])
    requires s'.workers == s.workers[i := w] && s'.started == s.started && s'.finished == s.finished
    ensures FlightInv(s')
  {
    OneFlightChanges(s.workers, i, w);
    Cancelled(InFlight(s'.workers), InFlight(s.workers), multiset{}, HeldBy(w));
  }

  lemma FlightAsks(s: State, i: nat, info: Option<RepoSummary>)
    requires FlightInv(s) && Enabled(s, AskGit(i, info))
    ensures FlightInv(Next(s, AskGit(i, info)))
  {
    var s' := Next(s, AskGit(i, info));
    FlightSame(s, s', i, s'.workers[i]);
  }

  lemma FlightDiscovers(s: State, i: nat, repos: seq<RepoSummary>)
    requires FlightInv(s) && Enabled(s, Discover(i, Some(repos)))
    ensures FlightInv(Next(s, Discover(i, Some(repos))))
  {
    var s' := Next(s, Discover(i, Some(repos)));
    FlightSame(s, s', i, s'.workers[i]);
  }

  lemma FlightStep(s: State, e: Event)
    requires FlightInv(s) && Enabled(s, e)
    ensures FlightInv(Next(s, e))
  {
    match e
    case Take(i) => FlightTake(s, i);
    case Write(_) => FlightEnds(s, e);
    case Discover(_, None) => FlightEnds(s, e);
    case Discover(i, Some(repos)) => FlightDiscovers(s, i, repos);
    case AskGit(i, info) => FlightAsks(s, i, info);
    case WorkerQuits(i) => FlightSame(s, Next(s, e), i, WorkerEnded);
    case _ =>
  }

  lemma TwinWithRepo(d: CacheWorkspaceData, workspace: string, repo: RepoSummary, info: Option<RepoSummary>)
    requires Twin(d, workspace)
    ensures Twin(WithRepo(d, workspace, repo, info), workspace)
  {
  }

  lemma DataStep(s: State, e: Event)
    requires DataInv(s) && Enabled(s, e)
    ensures DataInv(Next(s, e))
  {
    if e.AskGit? {
      var w := s.workers[e.i];
      TwinWithRepo(w.data, w.item.workspaceName, w.rest[0], e.info);
    } else if e.Write? {
      var w := s.workers[e.i];
      assert TwinEntry(CacheKey(w.item.portfolioName, w.item.workspaceName), w.data);
    }
  }

  lemma WriteStep(s: State, i: nat, c: Contents)
    requires WriteInv(s, c) && Enabled(s, Write(i))
    ensures WriteInv(Next(s, Write(i)), c)
  {
    var s' := Next(s, Write(i));
    forall k | k in s'.cache
      ensures (k in c && s'.cache[k] == c[k]) || exists j :: 0 <= j < |s'.written| && Key(s'.written[j]) == k
    {
      if k == Key(s.workers[i].item) {
        assert Key(s'.written[|s.written|]) == k;
      } else if !(k in c && s.cache[k] == c[k]) {
        var j :| 0 <= j < |s.written| && Key(s.written[j]) == k;
        assert Key(s'.written[j]) == k;
      }
    }
  }

  /** Every event keeps the invariant. */
  lemma StepKeepsInv(s: State, e: Event, c: Contents)
    requires Inv(s, c) && Enabled(s, e)
    ensures Inv(Next(s, e), c)
  {
    ControlStep(s, e);
    PlaceStep(s, e);
    FlightStep(s, e);
    DataStep(s, e);
    if e.Write? { WriteStep(s, e.i, c); } else { NoWriteStep(s, e, c); }
  }

  lemma NoWriteStep(s: State, e: Event, c: Contents)
    requires WriteInv(s, c) && Enabled(s, e) && !e.Write?
    ensures WriteInv(Next(s, e), c)
  {
  }

  // ---- Whole runs ----

  predicate ValidRun(s: State, es: seq<Event>)
    decreases |es|
  {
    es == [] || (Enabled(s, es[0]) && ValidRun(Next(s, es[0]), es[1..]))
  }

  function After(s: State, es: seq<Event>): State
    requires ValidRun(s, es)
    decreases |es|
  {
    if es == [] then s else After(Next(s, es[0]), es[1..])
  }

  lemma {:induction false} RunKeepsInv(s: State, es: seq<Event>, c: Contents)
    requires Inv(s, c) && ValidRun(s, es)
    ensures Inv(After(s, es), c)
    decreases |es|
  {
    if es != [] {
      StepKeepsInv(s, es[0], c);
      RunKeepsInv(Next(s, es[0]), es[1..], c);
    }
  }

  /** Work conservation over every run: the queue is bounded, and the items of the listings
      are, in their order, those started, those queued, those unsent and those given up;
      the started ones are in flight or finished. */
  lemma WorkIsConserved(n: nat, c: Contents, es: seq<Event>)
    requires TwinCache(c) && ValidRun(Initial(n, c), es)
    ensures var s := After(Initial(n, c), es);
            && |s.queue| <= 100 && |s.workers| == n
            && s.listed == s.started + s.queue + Unsent(s) + s.dropped
            && (s.stopper.Running? ==>
                  s.dropped == [] && !s.scheduler.SchedulerEnded? && forall i :: 0 <= i < n ==> !s.workers[i].WorkerEnded?)
            && multiset(s.started) == InFlight(s.workers) + s.finished
  {
    InitialInv(n, c);
    RunKeepsInv(Initial(n, c), es, c);
    EndedOnlyAfterDone(Initial(n, c), es);
  }

  lemma {:induction false} EndedOnlyAfterDone(s: State, es: seq<Event>)
    requires ValidRun(s, es) && (s.scheduler.SchedulerEnded? ==> Done(s))
    requires Done(s) || forall i :: 0 <= i < |s.workers| ==> !s.workers[i].WorkerEnded?
    ensures var s' := After(s, es);
            && |s'.workers| == |s.workers|
            && (!Done(s') ==> !s'.scheduler.SchedulerEnded? && forall i :: 0 <= i < |s'.workers| ==> !s'.workers[i].WorkerEnded?)
    decreases |es|
  {
    if es != [] { EndedOnlyAfterDone(Next(s, es[0]), es[1..]); }
  }

  /** Every change of the cache since Start, be it a new entry or one that was overwritten, comes
      from a listed item that is finished. */
  lemma WritesComeFromListings(n: nat, c: Contents, es: seq<Event>, key: string)
    requires TwinCache(c) && ValidRun(Initial(n, c), es)
    requires var cache := After(Initial(n, c), es).cache;
             key in cache && (key in c ==> cache[key] != c[key])
    ensures var s := After(Initial(n, c), es);
            exists item :: item in s.finished && item in s.listed && Key(item) == key
  {
    InitialInv(n, c);
    RunKeepsInv(Initial(n, c), es, c);
    var s := After(Initial(n, c), es);
    var j :| 0 <= j < |s.written| && Key(s.written[j]) == key;
    assert s.written[j] in multiset(s.written);
    assert s.written[j] in multiset(s.started);
  }

  /** No entry that the initial refresh made is ever removed, also when a directory can no longer be read. */
  lemma {:induction false} EntriesStay(s: State, es: seq<Event>, key: string)
    requires ValidRun(s, es) && key in s.cache
    ensures key in After(s, es).cache
    decreases |es|
  {
    if es != [] { EntriesStay(Next(s, es[0]), es[1..], key); }
  }

  lemma SlashInside(p: string, w: string, p': string, w': string)
    requires CacheKey(p, w) == CacheKey(p', w') && |p| < |p'|
    ensures '/' in w
  {
    var k := CacheKey(p, w);
    assert k[|p'|] == '/' && k[|p| + 1..] == w;
    assert w[|p'| - |p| - 1] == '/';
  }

  /** A slash-free workspace is determined by its key. */
  lemma KeyNamesWorkspace(p: string, w: string, p': string, w': string)
    requires '/' !in w && '/' !in w' && CacheKey(p, w) == CacheKey(p', w')
    ensures w == w'
  {
    if |p| < |p'| {
      SlashInside(p, w, p', w');
    } else if |p'| < |p| {
      SlashInside(p', w', p, w);
    } else {
      assert CacheKey(p, w)[|p| + 1..] == w && CacheKey(p', w')[|p| + 1..] == w';
    }
  }

  /** The two getters never disagree, in any reachable state, whoever is writing: they find the same
      repositories, and the overview is the projection of the summary for the workspace of the
      key, and so for the workspace that was asked for when names have no slash. */
  lemma GettersAgree(n: nat, c: Contents, es: seq<Event>, portfolio: string, workspace: string, repo: string)
    requires TwinCache(c) && ValidRun(Initial(n, c), es)
    ensures var cache, key := After(Initial(n, c), es).cache, CacheKey(portfolio, workspace);
            var s, o := SummaryIn(cache, key, repo), OverviewIn(cache, key, repo);
            && (s.Some? <==> o.Some?)
            && (s.Some? ==>
                  && s.value.name == repo
                  && (exists p :: key == CacheKey(p, o.value.workspaceName))
                  && o.value == Overview(s.value, o.value.workspaceName)
                  && ('/' !in workspace && '/' !in o.value.workspaceName ==> o.value == Overview(s.value, workspace)))
  {
    InitialInv(n, c);
    RunKeepsInv(Initial(n, c), es, c);
    var cache, key := After(Initial(n, c), es).cache, CacheKey(portfolio, workspace);
    if key in cache {
      var p, w :| key == CacheKey(p, w) && Twin(cache[key], w);
      if '/' !in workspace && '/' !in w { KeyNamesWorkspace(portfolio, workspace, p, w); }
    }
  }

  /** The cache that Start leaves is a twin cache. */
  lemma {:induction false} RefreshedIsTwin(c: Contents, w: World, items: seq<RefreshItem>)
    requires TwinCache(c)
    ensures TwinCache(RefreshedAll(c, w, items))
  {
    if items != [] {
      var n := |items| - 1;
      RefreshedIsTwin(c, w, items[..n]);
      var at := (items[n].workspaceBase, items[n].workspaceName);
      if at in w.workspaces {
        CollectedIsTwin(w, items[n].workspaceName, w.workspaces[at]);
        assert TwinEntry(CacheKey(items[n].portfolioName, items[n].workspaceName),
                         Collected(w, items[n].workspaceName, w.workspaces[at]));
      }
    }
  }

  lemma {:induction false} CollectedIsTwin(w: World, workspace: string, repos: seq<RepoSummary>)
    ensures Twin(Collected(w, workspace, repos), workspace)
  {
    if repos != [] {
      var n := |repos| - 1;
      CollectedIsTwin(w, workspace, repos[..n]);
      TwinWithRepo(Collected(w, workspace, repos[..n]), workspace, repos[n], RepoInfo(w, repos[n].path));
    }
  }

  // ---- Shutdown ----

  /** Steps other than a tick and the call of Stop, in a file system whose workspaces have
      at most `r` repositories. */
  predicate Quiet(e: Event, r: nat) {
    !e.Tick? && !e.CloseDone? && (e.Discover? && e.repos.Some? ==> |e.repos.value| <= r)
  }

  function Measure(s: State, r: nat): nat {
    Work(s.workers, r) + (3 + r) * |s.queue| + (4 + r) * |Unsent(s)|
    + (if s.scheduler.SchedulerEnded? then 0 else 1) + (if s.stopper.Closing? then 1 else 0)
  }

  lemma QuietWorkerStep(s: State, e: Event, r: nat)
    requires Enabled(s, e) && Quiet(e, r) && (e.Discover? || e.AskGit? || e.Write? || e.WorkerQuits?)
    ensures Measure(Next(s, e), r) < Measure(s, r)
  {
    var s' := Next(s, e);
    OneWorkerChanges(s.workers, e.i, s'.workers[e.i], r);
    assert WorkOf(s'.workers[e.i], r) < WorkOf(s.workers[e.i], r);
  }

  lemma QuietTake(s: State, i: nat, r: nat)
    requires Enabled(s, Take(i))
    ensures Measure(Next(s, Take(i)), r) < Measure(s, r)
  {
    OneWorkerChanges(s.workers, i, Taken(s.queue[0]), r);
    assert (3 + r) * |s.queue| == (3 + r) * (|s.queue| - 1) + (3 + r);
  }

  lemma QuietSend(s: State, r: nat)
    requires Enabled(s, Send)
    ensures Measure(Next(s, Send), r) < Measure(s, r)
  {
    var s' := Next(s, Send);
    assert (3 + r) * (|s.queue| + 1) == (3 + r) * |s.queue| + (3 + r);
    assert |Unsent(s')| == |Unsent(s)| - 1;
    assert (4 + r) * |Unsent(s)| == (4 + r) * |Unsent(s')| + (4 + r);
  }

  /** Without ticks, every step brings the refresher nearer to its end. */
  lemma QuietStepDecreases(s: State, e: Event, r: nat)
    requires Enabled(s, e) && Quiet(e, r)
    ensures Measure(Next(s, e), r) < Measure(s, r)
  {
    match e
    case Take(i) => QuietTake(s, i, r);
    case Send => QuietSend(s, r);
    case SchedulerQuits => assert (4 + r) * |Unsent(s)| >= 0;
    case StopReturns =>
    case _ => QuietWorkerStep(s, e, r);
  }

  /** So a run without ticks is no longer than the measure of its first state. */
  lemma {:induction false} QuietRunsAreBounded(s: State, es: seq<Event>, r: nat)
    requires ValidRun(s, es) && forall e <- es :: Quiet(e, r)
    ensures |es| + Measure(After(s, es), r) <= Measure(s, r)
    decreases |es|
  {
    if es != [] {
      QuietStepDecreases(s, es[0], r);
      QuietRunsAreBounded(Next(s, es[0]), es[1..], r);
    }
  }

  /** After `close(done)` no goroutine is stuck: the scheduler can leave even if the queue is
      full, and every worker has a step, whatever discovery and git answer. */
  lemma NobodyIsStuck(s: State, i: nat, repos: Option<seq<RepoSummary>>, info: Option<RepoSummary>)
    requires Done(s)
    ensures !s.scheduler.SchedulerEnded? ==> Enabled(s, SchedulerQuits)
    ensures i < |s.workers| && !s.workers[i].WorkerEnded? ==>
              Enabled(s, WorkerQuits(i)) || Enabled(s, Discover(i, repos)) || Enabled(s, AskGit(i, info)) || Enabled(s, Write(i))
  {
  }

  /** While Stop has not been called, goroutines wait just for work: an idle worker for the queue, the
      scheduler for a tick, or for the queue when a hundred items are in it. */
  lemma WaitsJustForWork(s: State, i: nat, listing: Option<seq<RefreshItem>>)
    requires ControlInv(s) && s.stopper.Running?
    ensures i < |s.workers| && s.workers[i].Idle? ==> (Enabled(s, Take(i)) <==> s.queue != []) && !Enabled(s, WorkerQuits(i))
    ensures s.scheduler.Waiting? ==> Enabled(s, Tick(listing)) && !Enabled(s, SchedulerQuits)
    ensures s.scheduler.Sending? ==> (Enabled(s, Send) <==> |s.queue| != 100) && !Enabled(s, SchedulerQuits)
    ensures Enabled(s, CloseDone)
  {
  }

  predicate Ended(s: State) {
    s.scheduler.SchedulerEnded? && forall i :: 0 <= i < |s.workers| ==> s.workers[i].WorkerEnded?
  }

  lemma EndedMeansNoneCounted(s: State)
    requires ControlInv(s)
    ensures s.wg == 0 <==> Ended(s)
  {
    NoneLive(s.workers);
  }

  /** When Stop has been called, a run without ticks that cannot be continued without one
      has ended every goroutine, and Stop has returned. */
  lemma StopTerminates(s: State, es: seq<Event>, c: Contents, r: nat)
    requires Inv(s, c) && s.stopper.Closing? && ValidRun(s, es) && forall e <- es :: Quiet(e, r)
    requires forall e :: Quiet(e, r) ==> !Enabled(After(s, es), e)
    ensures After(s, es).stopper.Returned? && Ended(After(s, es))
    ensures |es| <= Measure(s, r)
  {
    QuietRunsAreBounded(s, es, r);
    RunKeepsInv(s, es, c);
    StopperMovesOn(s, es);
    NoStepMeansReturned(After(s, es), r);
  }

  lemma NoStepMeansReturned(s: State, r: nat)
    requires ControlInv(s) && Done(s) && forall e :: Quiet(e, r) ==> !Enabled(s, e)
    ensures s.stopper.Returned? && Ended(s)
  {
    assert !Enabled(s, SchedulerQuits) && !Enabled(s, StopReturns);
    forall i: nat | i < |s.workers| ensures s.workers[i].WorkerEnded? {
      NoStepMeansEnded(s, i, r);
    }
    EndedMeansNoneCounted(s);
  }

  lemma NoStepMeansEnded(s: State, i: nat, r: nat)
    requires Done(s) && i < |s.workers| && forall e :: Quiet(e, r) ==> !Enabled(s, e)
    ensures s.workers[i].WorkerEnded?
  {
    NobodyIsStuck(s, i, None, None);
    assert Quiet(WorkerQuits(i), r) && Quiet(Discover(i, None), r) && Quiet(AskGit(i, None), r) && Quiet(Write(i), r);
  }

  lemma {:induction false} StopperMovesOn(s: State, es: seq<Event>)
    requires ValidRun(s, es) && Done(s)
    ensures Done(After(s, es))
    decreases |es|
  {
    if es != [] { StopperMovesOn(Next(s, es[0]), es[1..]); }
  }

  /** Stop returns only when every goroutine has ended, and then nothing happens any more:
      in particular no cache write follows. */
  lemma NothingFollowsStop(s: State, c: Contents, e: Event)
    requires Inv(s, c) && s.stopper.Returned?
    ensures Ended(s) && !Enabled(s, e)
  {
    EndedMeansNoneCounted(s);
  }

  // ---- A file system that does not change ----

  function Repos(w: World, item: RefreshItem): Option<seq<RepoSummary>> {
    if At(item) in w.workspaces then Some(w.workspaces[At(item)]) else None
  }

  /** Discovery and git answer as in `w`, whose listing has the items `items`. */
  predicate Faithful(s: State, e: Event, w: World, items: seq<RefreshItem>)
    requires Enabled(s, e)
  {
    match e
    case Tick(listing) => listing.Some? ==> listing.value == items
    case Discover(i, repos) => repos == Repos(w, s.workers[i].item)
    case AskGit(i, info) => info == RepoInfo(w, s.workers[i].rest[0].path)
    case _ => true
  }

  predicate FaithfulRun(s: State, es: seq<Event>, w: World, items: seq<RefreshItem>)
    requires ValidRun(s, es)
    decreases |es|
  {
    es == [] || (Faithful(s, es[0], w, items) && FaithfulRun(Next(s, es[0]), es[1..], w, items))
  }

  /** The worker has collected what `w` says of the repositories it has passed. */
  predicate WorkerAgrees(x: Worker, w: World, items: seq<RefreshItem>) {
    match x
    case Taken(item) => item in items
    case Scanning(item, rest, data) =>
      && item in items && At(item) in w.workspaces
      && var repos := w.workspaces[At(item)];
      && |rest| <= |repos|
      && rest == repos[|repos| - |rest|..]
      && data == Collected(w, item.workspaceName, repos[..|repos| - |rest|])
    case _ => true
  }

  predicate EntryAgrees(c: Contents, w: World, item: RefreshItem) {
    At(item) in w.workspaces ==>
      Key(item) in c && c[Key(item)] == Collected(w, item.workspaceName, w.workspaces[At(item)])
  }

  /** Whatever else has the item's key and can be read lies in the item's directory. */
  predicate Unrivalled(w: World, items: seq<RefreshItem>, item: RefreshItem) {
    forall x <- items :: Key(x) == Key(item) && At(x) in w.workspaces ==> At(x) == At(item)
  }

  predicate Agrees(s: State, w: World, items: seq<RefreshItem>, item: RefreshItem) {
    && (forall x <- s.queue :: x in items)
    && (forall x <- Unsent(s) :: x in items)
    && (forall i :: 0 <= i < |s.workers| ==> WorkerAgrees(s.workers[i], w, items))
    && EntryAgrees(s.cache, w, item)
  }

  lemma TakeKeepsAgreeing(s: State, i: nat, w: World, items: seq<RefreshItem>, item: RefreshItem)
    requires Agrees(s, w, items, item) && Enabled(s, Take(i))
    ensures WorkerAgrees(Next(s, Take(i)).workers[i], w, items)
  {
    assert s.queue[0] in s.queue;
  }

  lemma DiscoverKeepsAgreeing(s: State, i: nat, repos: Option<seq<RepoSummary>>, w: World, items: seq<RefreshItem>)
    requires Enabled(s, Discover(i, repos)) && WorkerAgrees(s.workers[i], w, items)
    requires Faithful(s, Discover(i, repos), w, items)
    ensures WorkerAgrees(Next(s, Discover(i, repos)).workers[i], w, items)
  {
    if repos.Some? { assert w.workspaces[At(s.workers[i].item)][..0] == []; }
  }

  lemma AskGitKeepsAgreeing(s: State, i: nat, info: Option<RepoSummary>, w: World, items: seq<RefreshItem>)
    requires Enabled(s, AskGit(i, info)) && WorkerAgrees(s.workers[i], w, items)
    requires Faithful(s, AskGit(i, info), w, items)
    ensures WorkerAgrees(Next(s, AskGit(i, info)).workers[i], w, items)
  {
    var x := s.workers[i];
    CollectedOneMore(w, x.item.workspaceName, w.workspaces[At(x.item)], |x.rest|);
  }

  lemma CollectedOneMore(w: World, workspace: string, repos: seq<RepoSummary>, left: nat)
    requires 0 < left <= |repos|
    ensures var n, rest := |repos| - left, repos[|repos| - left..];
            && rest[1..] == repos[n + 1..]
            && Collected(w, workspace, repos[..n + 1]) ==
               WithRepo(Collected(w, workspace, repos[..n]), workspace, rest[0], RepoInfo(w, rest[0].path))
  {
    var n := |repos| - left;
    assert repos[..n + 1][..n] == repos[..n];
  }

  lemma WorkerKeepsAgreeing(s: State, e: Event, w: World, items: seq<RefreshItem>, item: RefreshItem)
    requires Agrees(s, w, items, item) && Enabled(s, e) && Faithful(s, e, w, items)
    requires e.Take? || e.Discover? || e.AskGit?
    ensures WorkerAgrees(Next(s, e).workers[e.i], w, items)
  {
    match e
    case Take(i) => TakeKeepsAgreeing(s, i, w, items, item);
    case Discover(i, repos) => DiscoverKeepsAgreeing(s, i, repos, w, items);
    case AskGit(i, info) => AskGitKeepsAgreeing(s, i, info, w, items);
    case _ =>
  }

  lemma WriteKeepsAgreeing(s: State, i: nat, w: World, items: seq<RefreshItem>, item: RefreshItem)
    requires Agrees(s, w, items, item) && Unrivalled(w, items, item) && Enabled(s, Write(i))
    ensures EntryAgrees(Next(s, Write(i)).cache, w, item)
  {
    var x := s.workers[i];
    assert WorkerAgrees(x, w, items);
    var repos := w.workspaces[At(x.item)];
    assert repos[..|repos|] == repos;
  }

  lemma FaithfulStepAgrees(s: State, e: Event, w: World, items: seq<RefreshItem>, item: RefreshItem)
    requires Agrees(s, w, items, item) && Unrivalled(w, items, item) && Enabled(s, e) && Faithful(s, e, w, items)
    ensures Agrees(Next(s, e), w, items, item)
  {
    if e.Take? || e.Discover? || e.AskGit? {
      WorkerKeepsAgreeing(s, e, w, items, item);
    } else if e.Write? {
      WriteKeepsAgreeing(s, e.i, w, items, item);
    }
  }

  lemma {:induction false} FaithfulRunAgrees(s: State, es: seq<Event>, w: World, items: seq<RefreshItem>, item: RefreshItem)
    requires Agrees(s, w, items, item) && Unrivalled(w, items, item) && ValidRun(s, es) && FaithfulRun(s, es, w, items)
    ensures Agrees(After(s, es), w, items, item)
    decreases |es|
  {
    if es != [] {
      FaithfulStepAgrees(s, es[0], w, items, item);
      FaithfulRunAgrees(Next(s, es[0]), es[1..], w, items, item);
    }
  }

  lemma StartAgrees(n: nat, c: Contents, w: World, items: seq<RefreshItem>, item: RefreshItem)
    requires item in items && At(item) in w.workspaces && Unrivalled(w, items, item)
    ensures Agrees(Initial(n, RefreshedAll(c, w, items)), w, items, item)
  {
    LastWriterExists(w, items, item);
    LastWriterWins(c, w, items, Key(item));
  }

  lemma EntryIsShown(c: Contents, w: World, item: RefreshItem)
    requires At(item) in w.workspaces && EntryAgrees(c, w, item) && UniqueNames(w.workspaces[At(item)])
    ensures ShownAsGit(c, w, item) && ListedAsGit(c, w, item)
  {
    var repos := w.workspaces[At(item)];
    forall r | r in repos
      ensures FromCache(c, Key(item), r) == Direct(w, r)
      ensures var o := Overview(r, item.workspaceName); OverviewFromCache(c, Key(item), o) == DirectOverview(w, o)
    {
      var i :| 0 <= i < |repos| && repos[i] == r;
      CollectedIsPointwise(w, item.workspaceName, repos, i);
    }
  }

  /** From the initial refresh on, at every moment of every run over a file system that does not
      change, the page and the list of a workspace show every repository as if git had been
      asked, provided that no workspace of another directory has its key. */
  lemma PagesAlwaysAgreeWithGit(n: nat, c: Contents, w: World, items: seq<RefreshItem>, es: seq<Event>, item: RefreshItem)
    requires item in items && At(item) in w.workspaces && UniqueNames(w.workspaces[At(item)])
    requires Unrivalled(w, items, item)
    requires var s := Initial(n, RefreshedAll(c, w, items)); ValidRun(s, es) && FaithfulRun(s, es, w, items)
    ensures var cache := After(Initial(n, RefreshedAll(c, w, items)), es).cache;
            ShownAsGit(cache, w, item) && ListedAsGit(cache, w, item)
  {
    var s := Initial(n, RefreshedAll(c, w, items));
    StartAgrees(n, c, w, items, item);
    FaithfulRunAgrees(s, es, w, items, item);
    EntryIsShown(After(s, es).cache, w, item);
  }

  /** With distinct portfolio names no item has a rival. */
  lemma DistinctIsUnrivalled(baseDir: string, w: World, portfolios: seq<Portfolio>, item: RefreshItem)
    requires DistinctPortfolios(portfolios) && item in AllItems(baseDir, portfolios)
    ensures Unrivalled(w, AllItems(baseDir, portfolios), item)
  {
    var items := AllItems(baseDir, portfolios);
    DistinctIsConsistent(baseDir, portfolios);
    forall x | x in items && Key(x) == Key(item) ensures At(x) == At(item) {
      var i :| 0 <= i < |items| && items[i] == x;
      var j :| 0 <= j < |items| && items[j] == item;
    }
  }
}
