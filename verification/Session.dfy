/** The life of a terminal session (`Start` and `Stop` in
    internal/terminal/controller/session.go): two io.Copy goroutines, the error channel,
    and the closing of the SSH session, as a transition system. */
module Session {

  const ERRC_CAPACITY: nat := 2

  datatype Copier = Reading | Writing | Sending(failed: bool) | Ended(failed: bool)

  datatype Main = FirstWait | Closing | SecondWait | Returned

  /** `input` copies keys to SSH stdin, `output` SSH stdout to the terminal. `keys` and `chunks`
      are what waits to be read on either side. `errc` holds, for each value in the error
      channel, whether it is an error; `result` is the one that Start returns. `stored` is
      the session field of the controller; `taken` says that a Stop has taken it and is
      about to close it. */
  datatype State = State(
    input: Copier,
    output: Copier,
    keys: nat,
    chunks: nat,
    errc: seq<bool>,
    result: bool,
    main: Main,
    stored: bool,
    taken: bool,
    sessionOpen: bool,
    terminalOpen: bool)

  const START: State := State(Reading, Reading, 0, 0, [], false, FirstWait, true, false, true, true)

  datatype Event =
    | KeyArrives
    | ChunkArrives
    | TerminalCloses
    | StopTakes
    | StopCloses
    | InputReads
    | InputReadEnds            // the terminal is closed: end of file
    | InputWrites(ok: bool)
    | OutputReads
    | OutputReadEnds(failed: bool)
    | OutputWrites(ok: bool)
    | InputSends
    | OutputSends
    | MainReceives
    | MainCloses

  predicate Enabled(s: State, e: Event) {
    match e
    case KeyArrives => s.terminalOpen
    case ChunkArrives => s.sessionOpen
    case TerminalCloses => s.terminalOpen
    case StopTakes => true
    case StopCloses => s.taken
    case InputReads => s.input.Reading? && s.keys > 0
    case InputReadEnds => s.input.Reading? && !s.terminalOpen
    case InputWrites(ok) => s.input.Writing? && (ok ==> s.sessionOpen)
    case OutputReads => s.output.Reading? && s.chunks > 0
    case OutputReadEnds(failed) => s.output.Reading? && (!failed ==> s.chunks == 0)
    case OutputWrites(ok) => s.output.Writing? && (!ok ==> !s.terminalOpen)  // one that has begun completes
    case InputSends => s.input.Sending? && |s.errc| < ERRC_CAPACITY
    case OutputSends => s.output.Sending? && |s.errc| < ERRC_CAPACITY
    case MainReceives => (s.main.FirstWait? || s.main.SecondWait?) && s.errc != []
    case MainCloses => s.main.Closing?
  }

  function Next(s: State, e: Event): State
    requires Enabled(s, e)
  {
    match e
    case KeyArrives => s.(keys := s.keys + 1)
    case ChunkArrives => s.(chunks := s.chunks + 1)
    case TerminalCloses => s.(terminalOpen := false)
    case StopTakes => s.(stored := false, taken := s.taken || s.stored)
    case StopCloses => s.(taken := false, sessionOpen := false)
    case InputReads => s.(keys := s.keys - 1, input := Writing)
    case InputReadEnds => s.(input := Sending(false))
    case InputWrites(ok) => s.(input := if ok then Reading else Sending(true))
    case OutputReads => s.(chunks := s.chunks - 1, output := Writing)
    case OutputReadEnds(failed) => s.(output := Sending(failed))
    case OutputWrites(ok) => s.(output := if ok then Reading else Sending(true))
    case InputSends => s.(input := Ended(s.input.failed), errc := s.errc + [s.input.failed])
    case OutputSends => s.(output := Ended(s.output.failed), errc := s.errc + [s.output.failed])
    case MainReceives =>
      if s.main.FirstWait? then s.(main := Closing, result := s.errc[0], errc := s.errc[1..])
      else s.(main := Returned, errc := s.errc[1..], stored := false)
    case MainCloses => s.(main := SecondWait, sessionOpen := false)
  }

  predicate ValidRun(s: State, es: seq<Event>)
    decreases |es|
  {
    es == [] || (Enabled(s, es[0]) && ValidRun(Next(s, es[0]), es[1..]))
  }

  function After(s: State, es: seq<Event>): State
    requires ValidRun(s, es)
    decreases |es|
  {
    if es == [] then s else After(Next(s, es[0]), es[1..])
  }

  // ---- Safety ----

  function EndedCopiers(s: State): nat {
    (if s.input.Ended? then 1 else 0) + (if s.output.Ended? then 1 else 0)
  }

  function ReceivedBy(m: Main): nat {
    if m.FirstWait? then 0 else if m.Returned? then 2 else 1
  }

  /** Each value sent on the error channel is in it or was received. */
  predicate CountInv(s: State) { EndedCopiers(s) == |s.errc| + ReceivedBy(s.main) }

  /** The session is closed by Start after a copier has ended, or by Stop, which always finds it. */
  predicate CloseInv(s: State) {
    && (s.main.SecondWait? || s.main.Returned? ==> !s.sessionOpen)
    && (!s.stored && !s.taken && !s.main.Returned? ==> !s.sessionOpen)
    && (s.taken || !s.sessionOpen ==> s.main.SecondWait? || s.main.Returned? || !s.stored)
    && (s.main.Returned? ==> !s.stored)
  }

  predicate Inv(s: State) { CountInv(s) && CloseInv(s) }

  predicate OfInput(e: Event) { e.InputReads? || e.InputReadEnds? || e.InputWrites? || e.InputSends? }

  predicate OfOutput(e: Event) { e.OutputReads? || e.OutputReadEnds? || e.OutputWrites? || e.OutputSends? }

  lemma InputKeepsCount(s: State, e: Event)
    requires CountInv(s) && Enabled(s, e) && OfInput(e)
    ensures CountInv(Next(s, e))
  {
    if e.InputSends? { assert |Next(s, e).errc| == |s.errc| + 1; }
  }

  lemma OutputKeepsCount(s: State, e: Event)
    requires CountInv(s) && Enabled(s, e) && OfOutput(e)
    ensures CountInv(Next(s, e))
  {
    if e.OutputSends? { assert |Next(s, e).errc| == |s.errc| + 1; }
  }

  lemma OthersKeepCount(s: State, e: Event)
    requires CountInv(s) && Enabled(s, e) && !OfInput(e) && !OfOutput(e)
    ensures CountInv(Next(s, e))
  {
    if e.MainReceives? { assert |Next(s, e).errc| == |s.errc| - 1; }
  }

  lemma CopiersKeepClosed(s: State, e: Event)
    requires CloseInv(s) && Enabled(s, e) && (OfInput(e) || OfOutput(e))
    ensures CloseInv(Next(s, e))
  {
    if OfInput(e) {
      assert Next(s, e).main == s.main;
    }
  }

  lemma OthersKeepClosed(s: State, e: Event)
    requires CloseInv(s) && Enabled(s, e) && !OfInput(e) && !OfOutput(e)
    ensures CloseInv(Next(s, e))
  {
  }

  lemma StepKeepsInv(s: State, e: Event)
    requires Inv(s) && Enabled(s, e)
    ensures Inv(Next(s, e))
  {
    if OfInput(e) {
      InputKeepsCount(s, e);
      CopiersKeepClosed(s, e);
    } else if OfOutput(e) {
      OutputKeepsCount(s, e);
      CopiersKeepClosed(s, e);
    } else {
      OthersKeepCount(s, e);
      OthersKeepClosed(s, e);
    }
  }

  lemma {:induction false} RunKeepsInv(s: State, es: seq<Event>)
    requires Inv(s) && ValidRun(s, es)
    ensures Inv(After(s, es))
    decreases |es|
  {
    if es != [] {
      StepKeepsInv(s, es[0]);
      RunKeepsInv(Next(s, es[0]), es[1..]);
    }
  }

  /** No send on the error channel blocks; the session is closed only when a copier has ended or
      Stop has taken it; and when Start has returned both goroutines have ended, the session
      is closed and no longer stored. */
  predicate Safe(s: State) {
    && (s.input.Sending? ==> Enabled(s, InputSends))
    && (s.output.Sending? ==> Enabled(s, OutputSends))
    && (!s.sessionOpen ==> EndedCopiers(s) > 0 || !s.stored)
    && (s.main.Returned? ==> EndedCopiers(s) == 2 && !s.sessionOpen && !s.stored)
  }

  lemma SessionIsSafe(es: seq<Event>)
    requires ValidRun(START, es)
    ensures Safe(After(START, es))
  {
    var s := START;
    RunKeepsInv(s, es);
  }

  /** How an input copier ended, if it has: at the end of the terminal's input, or by a write that failed. */
  lemma {:induction false} InputEndsForAReason(s: State, es: seq<Event>)
    requires ValidRun(s, es) && (s.input.Reading? || s.input.Writing?)
    ensures var c := After(s, es).input;
            c.Sending? || c.Ended? ==> (if c.failed then InputWrites(false) in es else InputReadEnds in es)
    decreases |es|
  {
    if es != [] {
      var s' := Next(s, es[0]);
      if s'.input.Reading? || s'.input.Writing? {
        InputEndsForAReason(s', es[1..]);
      } else {
        InputStaysEnded(s', es[1..]);
        assert es[0] in es;
      }
    }
  }

  lemma {:induction false} InputStaysEnded(s: State, es: seq<Event>)
    requires ValidRun(s, es) && (s.input.Sending? || s.input.Ended?)
    ensures var c := After(s, es).input; (c.Sending? || c.Ended?) && c.failed == s.input.failed
    decreases |es|
  {
    if es != [] {
      InputStaysEnded(Next(s, es[0]), es[1..]);
    }
  }

  lemma OutputEndStep(s: State, e: Event)
    requires Enabled(s, e) && (s.output.Reading? || s.output.Writing?)
    ensures var c := Next(s, e).output;
            c.Reading? || c.Writing? || (c.Sending? && (e == OutputReadEnds(c.failed) || (c.failed && e == OutputWrites(false))))
  {
    if !OfOutput(e) { assert Next(s, e).output == s.output; }
  }

  /** How an output copier ended, if it has: at the end of the session's output, with an error or without,
      or by a write that failed. */
  lemma {:induction false} OutputEndsForAReason(s: State, es: seq<Event>)
    requires ValidRun(s, es) && (s.output.Reading? || s.output.Writing?)
    ensures var c := After(s, es).output;
            c.Sending? || c.Ended? ==> OutputReadEnds(c.failed) in es || (c.failed && OutputWrites(false) in es)
    decreases |es|
  {
    if es != [] {
      var s' := Next(s, es[0]);
      OutputEndStep(s, es[0]);
      if s'.output.Sending? {
        OutputStaysEnded(s', es[1..]);
      } else {
        OutputEndsForAReason(s', es[1..]);
      }
    }
  }

  lemma {:induction false} OutputStaysEnded(s: State, es: seq<Event>)
    requires ValidRun(s, es) && (s.output.Sending? || s.output.Ended?)
    ensures var c := After(s, es).output; (c.Sending? || c.Ended?) && c.failed == s.output.failed
    decreases |es|
  {
    if es != [] {
      OutputStaysEnded(Next(s, es[0]), es[1..]);
    }
  }

  /** A session lasts until something ends it: over every run in which the terminal stays open, the
      server does not end its output and no write fails, both copiers go on, Start waits, and the
      session is open unless Stop has closed it. */
  lemma NothingEndsUnprovoked(es: seq<Event>)
    requires ValidRun(START, es)
    requires InputReadEnds !in es && InputWrites(false) !in es && OutputWrites(false) !in es
    requires OutputReadEnds(true) !in es && OutputReadEnds(false) !in es
    ensures var s := After(START, es);
            && (s.input.Reading? || s.input.Writing?) && (s.output.Reading? || s.output.Writing?)
            && s.main.FirstWait? && (!s.sessionOpen ==> StopCloses in es)
  {
    var s := START;
    InputEndsForAReason(s, es);
    OutputEndsForAReason(s, es);
    RunKeepsInv(s, es);
    if StopCloses !in es { OpenUntilClosed(s, es); }
  }

  lemma {:induction false} OpenUntilClosed(s: State, es: seq<Event>)
    requires ValidRun(s, es) && s.sessionOpen && s.main.FirstWait? && StopCloses !in es
    ensures After(s, es).sessionOpen || !After(s, es).main.FirstWait?
    decreases |es|
  {
    if es != [] {
      var s' := Next(s, es[0]);
      if s'.main.FirstWait? {
        OpenUntilClosed(s', es[1..]);
      } else {
        WaitIsOver(s', es[1..]);
      }
    }
  }

  lemma {:induction false} WaitIsOver(s: State, es: seq<Event>)
    requires ValidRun(s, es) && !s.main.FirstWait?
    ensures !After(s, es).main.FirstWait?
    decreases |es|
  {
    if es != [] { WaitIsOver(Next(s, es[0]), es[1..]); }
  }

  function One(b: bool): nat { if b then 1 else 0 }

  function Count(es: seq<Event>, e: Event): nat {
    if es == [] then 0 else One(es[0] == e) + Count(es[1..], e)
  }

  lemma KeyStep(s: State, e: Event)
    requires Enabled(s, e)
    ensures var s' := Next(s, e);
            && s.keys + One(e == KeyArrives) == s'.keys + One(e == InputReads)
            && One(s.input.Writing?) + One(e == InputReads)
               == One(s'.input.Writing?) + One(e == InputWrites(true)) + One(e == InputWrites(false))
  {
    if !OfInput(e) { assert Next(s, e).input == s.input; }
  }

  lemma ChunkStep(s: State, e: Event)
    requires Enabled(s, e)
    ensures var s' := Next(s, e);
            && s.chunks + One(e == ChunkArrives) == s'.chunks + One(e == OutputReads)
            && One(s.output.Writing?) + One(e == OutputReads)
               == One(s'.output.Writing?) + One(e == OutputWrites(true)) + One(e == OutputWrites(false))
  {
    if !OfOutput(e) { assert Next(s, e).output == s.output; }
  }

  lemma {:induction false} KeysAreCounted(s: State, es: seq<Event>)
    requires ValidRun(s, es)
    ensures s.keys + Count(es, KeyArrives) == After(s, es).keys + Count(es, InputReads)
    ensures One(s.input.Writing?) + Count(es, InputReads)
            == One(After(s, es).input.Writing?) + Count(es, InputWrites(true)) + Count(es, InputWrites(false))
    decreases |es|
  {
    if es != [] {
      KeyStep(s, es[0]);
      KeysAreCounted(Next(s, es[0]), es[1..]);
    }
  }

  lemma {:induction false} ChunksAreCounted(s: State, es: seq<Event>)
    requires ValidRun(s, es)
    ensures s.chunks + Count(es, ChunkArrives) == After(s, es).chunks + Count(es, OutputReads)
    ensures One(s.output.Writing?) + Count(es, OutputReads)
            == One(After(s, es).output.Writing?) + Count(es, OutputWrites(true)) + Count(es, OutputWrites(false))
    decreases |es|
  {
    if es != [] {
      ChunkStep(s, es[0]);
      ChunksAreCounted(Next(s, es[0]), es[1..]);
    }
  }

  /** Nothing is skipped, over every run: a key or chunk that has arrived still waits or was read, and what
      was read is being written or was given to a write, once. */
  lemma NothingIsSkipped(es: seq<Event>)
    requires ValidRun(START, es)
    ensures var s := After(START, es);
            && Count(es, KeyArrives) == s.keys + Count(es, InputReads)
            && Count(es, ChunkArrives) == s.chunks + Count(es, OutputReads)
            && Count(es, InputReads)
               == (if s.input.Writing? then 1 else 0) + Count(es, InputWrites(true)) + Count(es, InputWrites(false))
            && Count(es, OutputReads)
               == (if s.output.Writing? then 1 else 0) + Count(es, OutputWrites(true)) + Count(es, OutputWrites(false))
  {
    KeysAreCounted(START, es);
    ChunksAreCounted(START, es);
  }

  // ---- Termination ----

  /** Events that wait for neither the user nor the server. */
  predicate Forced(s: State, e: Event) {
    match e
    case InputReads => true
    case InputReadEnds => true
    case InputWrites(ok) => !s.sessionOpen && !ok
    case OutputReadEnds(_) => !s.sessionOpen
    case OutputWrites(ok) => s.terminalOpen == ok
    case InputSends => true
    case OutputSends => true
    case MainReceives => true
    case MainCloses => true
    case _ => false
  }

  /** Closing the session does not wake a goroutine that waits for a key: once the session is
      closed and one copier has ended, Start is stuck exactly when the input copier is
      waiting at an open terminal with no key pending, and all else is done. */
  lemma StuckJustAtTheTerminal(s: State)
    requires Inv(s) && s.main.SecondWait?
    ensures (forall e :: Forced(s, e) ==> !Enabled(s, e)) <==>
            s.input.Reading? && s.terminalOpen && s.keys == 0 && s.output.Ended? && s.errc == []
  {
    var e1, e2, e3, e4 := InputReads, InputReadEnds, InputWrites(false), InputSends;
    var f1, f2, f3, f4 := OutputReadEnds(true), OutputWrites(s.terminalOpen), OutputSends, MainReceives;
    assert Forced(s, e1) && Forced(s, e2) && Forced(s, e3) && Forced(s, e4);
    assert Forced(s, f1) && Forced(s, f2) && Forced(s, f3) && Forced(s, f4);
  }

  /** This happens: a server that ends the session leaves Start waiting for a key press. */
  lemma StartCanBeStuck()
    ensures var es := [OutputReadEnds(false), OutputSends, MainReceives, MainCloses];
            && ValidRun(START, es)
            && !After(START, es).main.Returned?
            && forall e :: Forced(After(START, es), e) ==> !Enabled(After(START, es), e)
  {
    var es := [OutputReadEnds(false), OutputSends, MainReceives, MainCloses];
    var s1 := Next(START, es[0]);
    var s2 := Next(s1, es[1]);
    var s3 := Next(s2, es[2]);
    var s4 := Next(s3, es[3]);
    assert es[1..][1..][1..][1..] == [] && es[1..][0] == es[1] && es[1..][1..][0] == es[2] && es[1..][1..][1..][0] == es[3];
    assert After(START, es) == After(s1, es[1..]) == After(s2, es[1..][1..]) == After(s3, es[1..][1..][1..]) == s4;
  }

  function CopierWork(c: Copier): nat {
    match c case Reading => 2 case Writing => 3 case Sending(_) => 1 case Ended(_) => 0
  }

  function MainWork(m: Main): nat {
    match m case FirstWait => 3 case Closing => 2 case SecondWait => 1 case Returned => 0
  }

  function Measure(s: State): nat {
    CopierWork(s.input) + CopierWork(s.output) + 2 * s.keys + 2 * s.chunks + MainWork(s.main)
  }

  /** Arrivals and the closing of the terminal or the controller. */
  predicate FromOutside(e: Event) { e.KeyArrives? || e.ChunkArrives? || e.TerminalCloses? || e.StopTakes? || e.StopCloses? }

  lemma CopierStepDecreases(s: State, e: Event)
    requires Enabled(s, e) && (OfInput(e) || OfOutput(e))
    ensures Measure(Next(s, e)) < Measure(s)
  {
    if OfInput(e) {
      assert Next(s, e).output == s.output && Next(s, e).main == s.main;
    } else {
      assert Next(s, e).input == s.input && Next(s, e).main == s.main;
    }
  }

  lemma StepDecreases(s: State, e: Event)
    requires Enabled(s, e) && !FromOutside(e)
    ensures Measure(Next(s, e)) < Measure(s)
  {
    if OfInput(e) || OfOutput(e) { CopierStepDecreases(s, e); }
  }

  lemma {:induction false} RunsAreBounded(s: State, es: seq<Event>)
    requires ValidRun(s, es) && forall e <- es :: !FromOutside(e)
    ensures |es| + Measure(After(s, es)) <= Measure(s)
    ensures After(s, es).terminalOpen == s.terminalOpen && (!s.sessionOpen ==> !After(s, es).sessionOpen)
    decreases |es|
  {
    if es != [] {
      StepDecreases(s, es[0]);
      RunsAreBounded(Next(s, es[0]), es[1..]);
    }
  }

  function ForcedStep(s: State): (e: Event)
    requires Inv(s) && !s.sessionOpen && !s.terminalOpen && !s.main.Returned?
    ensures Enabled(s, e) && Forced(s, e)
  {
    if s.main.Closing? then MainCloses
    else if s.errc != [] then MainReceives
    else if !s.input.Ended? then
      match s.input
      case Reading => InputReadEnds
      case Writing => InputWrites(false)
      case _ => InputSends
    else
      match s.output
      case Reading => OutputReadEnds(true)
      case Writing => OutputWrites(false)
      case _ => OutputSends
  }

  /** When the terminal is closed as well as the session, by Stop or by the end of either
      copier, a run that cannot be continued without the outside has returned. */
  lemma StartReturnsOnceTerminalCloses(s: State, es: seq<Event>)
    requires Inv(s) && !s.terminalOpen && !s.sessionOpen
    requires ValidRun(s, es) && forall e <- es :: !FromOutside(e)
    requires forall e :: Forced(After(s, es), e) ==> !Enabled(After(s, es), e)
    ensures After(s, es).main.Returned? && |es| <= Measure(s)
  {
    RunKeepsInv(s, es);
    RunsAreBounded(s, es);
    var s' := After(s, es);
    if !s'.main.Returned? {
      var e := ForcedStep(s');
    }
  }

  // ---- Blocked runs ----

  /** The input copier waits for a key at an open terminal. */
  predicate WaitsForKey(s: State) { s.input.Reading? && s.terminalOpen && s.keys == 0 }

  ghost predicate Halted(s: State) { forall e :: Forced(s, e) ==> !Enabled(s, e) }

  predicate Inside(es: seq<Event>) { forall e <- es :: !FromOutside(e) }

  /** The session is closed and Start waits for the second copier, or has returned. */
  predicate Ending(s: State) { (s.main.SecondWait? || s.main.Returned?) && !s.sessionOpen }

  lemma EndingStep(s: State, e: Event)
    requires Ending(s) && Enabled(s, e) && !FromOutside(e)
    ensures Ending(Next(s, e))
  {
    if OfInput(e) || OfOutput(e) { assert Next(s, e).main == s.main && Next(s, e).sessionOpen == s.sessionOpen; }
  }

  lemma WaitingIsKept(s: State, e: Event)
    requires Ending(s) && Enabled(s, e) && !FromOutside(e)
    ensures WaitsForKey(Next(s, e)) <==> WaitsForKey(s)
  {
    if OfInput(e) {
      assert !Next(s, e).input.Reading?;
    } else {
      assert Next(s, e).input == s.input && Next(s, e).keys == s.keys && Next(s, e).terminalOpen == s.terminalOpen;
    }
  }

  lemma {:induction false} WaitingIsKeptByRuns(s: State, es: seq<Event>)
    requires Ending(s) && ValidRun(s, es) && Inside(es)
    ensures Ending(After(s, es)) && (WaitsForKey(After(s, es)) <==> WaitsForKey(s))
    decreases |es|
  {
    if es != [] {
      EndingStep(s, es[0]);
      WaitingIsKept(s, es[0]);
      WaitingIsKeptByRuns(Next(s, es[0]), es[1..]);
    }
  }

  /** From every state the session can go on until it cannot. */
  lemma {:induction false} HaltingRun(s: State) returns (es: seq<Event>)
    ensures ValidRun(s, es) && Inside(es) && Halted(After(s, es))
    decreases Measure(s)
  {
    if Halted(s) {
      es := [];
    } else {
      var e :| Forced(s, e) && Enabled(s, e);
      StepDecreases(s, e);
      var rest := HaltingRun(Next(s, e));
      es := [e] + rest;
      assert es[1..] == rest;
    }
  }

  /** Closing the session does not wake a goroutine that waits for a key. Once Start has closed it,
      every run that cannot go on without the outside has returned, if and only if the input
      copier is not waiting at an open terminal with no key pending. */
  lemma ReturnsJustWithoutWaiting(s: State)
    requires Inv(s) && s.main.SecondWait?
    ensures (forall es :: ValidRun(s, es) && Inside(es) && Halted(After(s, es)) ==> After(s, es).main.Returned?)
            <==> !WaitsForKey(s)
  {
    if WaitsForKey(s) {
      var es := HaltingRun(s);
      WaitingIsKeptByRuns(s, es);
      RunKeepsInv(s, es);
      assert !After(s, es).main.Returned?;
    } else {
      forall es | ValidRun(s, es) && Inside(es) && Halted(After(s, es)) ensures After(s, es).main.Returned? {
        WaitingIsKeptByRuns(s, es);
        RunKeepsInv(s, es);
        if After(s, es).main.SecondWait? { StuckJustAtTheTerminal(After(s, es)); }
      }
    }
  }

  /** Whatever a Start is doing, Stop finds its session to close, unless it is closed. */
  lemma StopClosesTheSession(es: seq<Event>)
    requires ValidRun(START, es)
    ensures var s' := Next(After(START, es), StopTakes);
            s'.sessionOpen ==> Enabled(s', StopCloses) && !Next(s', StopCloses).sessionOpen
  {
    var s := START;
    RunKeepsInv(s, es);
  }

  /** What a step sends on the error channel: each copier sends, as it ends, whether it failed. */
  function SentBy(s: State, e: Event): seq<bool>
    requires Enabled(s, e)
  {
    match e
    case InputSends => [s.input.failed]
    case OutputSends => [s.output.failed]
    case _ => []
  }

  /** The values sent during a run, in order. */
  function Sent(s: State, es: seq<Event>): seq<bool>
    requires ValidRun(s, es)
    decreases |es|
  {
    if es == [] then [] else SentBy(s, es[0]) + Sent(Next(s, es[0]), es[1..])
  }

  lemma {:induction false} ResultIsFixed(s: State, es: seq<Event>)
    requires ValidRun(s, es) && !s.main.FirstWait?
    ensures After(s, es).result == s.result
    decreases |es|
  {
    if es != [] { ResultIsFixed(Next(s, es[0]), es[1..]); }
  }

  lemma SilentCopier(s: State, e: Event)
    requires Enabled(s, e) && (OfInput(e) || OfOutput(e)) && !e.InputSends? && !e.OutputSends?
    ensures Next(s, e).main == s.main && Next(s, e).errc == s.errc && SentBy(s, e) == []
  {
    if OfInput(e) { assert Next(s, e).output == s.output; } else { assert Next(s, e).input == s.input; }
  }

  lemma SilentOther(s: State, e: Event)
    requires s.main.FirstWait? && Enabled(s, e) && !OfInput(e) && !OfOutput(e) && !e.MainReceives?
    ensures Next(s, e).main == s.main && Next(s, e).errc == s.errc && SentBy(s, e) == []
  {
  }

  lemma WaitingStep(s: State, e: Event)
    requires s.main.FirstWait? && Enabled(s, e) && !e.MainReceives?
    ensures Next(s, e).main.FirstWait? && Next(s, e).errc == s.errc + SentBy(s, e)
  {
    if e.InputSends? || e.OutputSends? {
    } else if OfInput(e) || OfOutput(e) {
      SilentCopier(s, e);
    } else {
      SilentOther(s, e);
    }
  }

  lemma ReceivingStep(s: State)
    requires s.main.FirstWait? && Enabled(s, MainReceives)
    ensures Next(s, MainReceives).main.Closing? && Next(s, MainReceives).result == s.errc[0]
    ensures SentBy(s, MainReceives) == []
  {
  }

  lemma ReceivedIsFirst(s: State, es: seq<Event>)
    requires ValidRun(s, es) && es != [] && es[0] == MainReceives && s.main.FirstWait?
    ensures s.errc != [] && After(s, es).result == s.errc[0]
  {
    ReceivingStep(s);
    ResultIsFixed(Next(s, es[0]), es[1..]);
  }

  lemma SentRegroups(s: State, es: seq<Event>)
    requires ValidRun(s, es) && es != [] && es[0] != MainReceives && s.main.FirstWait?
    ensures Next(s, es[0]).errc + Sent(Next(s, es[0]), es[1..]) == s.errc + Sent(s, es)
  {
    WaitingStep(s, es[0]);
    Regrouped(s.errc, SentBy(s, es[0]), Sent(Next(s, es[0]), es[1..]), Next(s, es[0]).errc, Sent(s, es));
  }

  lemma Regrouped(a: seq<bool>, b: seq<bool>, c: seq<bool>, ab: seq<bool>, bc: seq<bool>)
    requires ab == a + b && bc == b + c
    ensures ab + c == a + bc
  {
  }

  lemma {:induction false} ResultIsFirst(s: State, es: seq<Event>)
    requires ValidRun(s, es) && s.main.FirstWait? && !After(s, es).main.FirstWait?
    ensures var values := s.errc + Sent(s, es); values != [] && After(s, es).result == values[0]
    decreases |es|
  {
    if es[0] == MainReceives {
      ReceivedIsFirst(s, es);
    } else {
      WaitingStep(s, es[0]);
      ResultIsFirst(Next(s, es[0]), es[1..]);
      SentRegroups(s, es);
    }
  }

  /** Start returns the outcome of the copier that ended first: over every run, once a value has
      been received, the result is the first value that any copier has sent. */
  lemma FirstCopierDecides(es: seq<Event>)
    requires ValidRun(START, es) && !After(START, es).main.FirstWait?
    ensures Sent(START, es) != [] && After(START, es).result == Sent(START, es)[0]
  {
    var s := START;
    ResultIsFirst(s, es);
    assert s.errc + Sent(s, es) == Sent(s, es);
  }
}
