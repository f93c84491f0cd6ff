/** The tunnel of the proxy (`bridge` in internal/wssproxy/proxy.go): two copying
    goroutines between a WebSocket and a TCP connection, and the hand-shake that closes
    both, as a transition system. An event is one action of a goroutine or of a peer. */
module Bridge {
  import opened Memory

  const BUFFER_SIZE: nat := 32 * 1024
  const DONE_CAPACITY: nat := 2

  /** Why a copier ended: its source had ended and everything was passed on, or an error. */
  datatype End = Drained | Broken

  /** A copier reads, or holds what it read together with how that read ended, or is about
      to send on `done`, or has ended. */
  datatype Copier =
    | Reading
    | Holding(chunk: Bytes, ending: ReadEnd)
    | Signalling(why: End)
    | Ended(why: End)

  datatype ReadEnd = More | EndOfStream | ReadError

  datatype Main = FirstWait | ClosingWs | ClosingTcp | SecondWait | Returned

  /** One of the two directions: bytes sent by one peer, `pending` in its connection, and
      those written to the other. `ended` says that the peer sends no more. */
  datatype Direction = Direction(copier: Copier, sent: Bytes, pending: seq<Bytes>, ended: bool, written: Bytes)

  /** `down` is TCP to WebSocket, `up` WebSocket to TCP; `wsCloses` and `tcpCloses` count the
      Close calls of `bridge`. */
  datatype State = State(down: Direction, up: Direction, done: nat, main: Main, wsCloses: nat, tcpCloses: nat)

  const FRESH: Direction := Direction(Reading, [], [], false, [])
  const START: State := State(FRESH, FRESH, 0, FirstWait, 0, 0)

  datatype Side = Down | Up

  datatype Event =
    | PeerSends(side: Side, bytes: Bytes)   // the source of that direction sends
    | PeerEnds(side: Side)
    | Reads(side: Side, chunk: Bytes, ending: ReadEnd)
    | WriteOk(side: Side)
    | WriteFails(side: Side, k: nat)        // `k` bytes still got through
    | Signals(side: Side)
    | MainReceives
    | MainCloses

  function Dir(s: State, side: Side): Direction { if side.Down? then s.down else s.up }

  function With(s: State, side: Side, d: Direction): State {
    if side.Down? then s.(down := d) else s.(up := d)
  }

  predicate WsOpen(s: State) { s.wsCloses == 0 }
  predicate TcpOpen(s: State) { s.tcpCloses == 0 }
  predicate SourceOpen(s: State, side: Side) { if side.Down? then TcpOpen(s) else WsOpen(s) }
  predicate TargetOpen(s: State, side: Side) { if side.Down? then WsOpen(s) else TcpOpen(s) }

  /** What a read may return. Downwards it is at most a buffer of what TCP has received,
      possibly together with the end or an error; upwards it is one whole message, or
      nothing and an error. The end is reported only when nothing is pending, and a read
      that reports neither bytes nor an end does not happen. */
  predicate CanRead(d: Direction, side: Side, chunk: Bytes, ending: ReadEnd) {
    && (ending.More? ==> d.pending != [] && (side.Down? ==> chunk != []))
    && (side.Up? && !ending.More? ==> chunk == [])
    && (ending.EndOfStream? ==> d.ended)
    && if side.Down? then
         && |chunk| <= BUFFER_SIZE && chunk <= Flat(d.pending)
         && (ending.EndOfStream? ==> chunk == Flat(d.pending))
       else
         && (ending.More? ==> chunk == d.pending[0])
         && (ending.EndOfStream? ==> d.pending == [])
  }

  /** A stream has no message boundaries: what TCP has left is one piece. */
  function Rest(d: Direction, side: Side, chunk: Bytes, ending: ReadEnd): seq<Bytes>
    requires CanRead(d, side, chunk, ending)
  {
    if side.Down? then (if chunk == [] then d.pending else if chunk == Flat(d.pending) then [] else [Flat(d.pending)[|chunk|..]])
    else if ending.More? then d.pending[1..]
    else d.pending
  }

  predicate Enabled(s: State, e: Event) {
    match e
    case PeerSends(side, _) => SourceOpen(s, side) && !Dir(s, side).ended
    case PeerEnds(side) => SourceOpen(s, side) && !Dir(s, side).ended
    case Reads(side, chunk, ending) => Dir(s, side).copier.Reading? && CanRead(Dir(s, side), side, chunk, ending)
    case WriteOk(side) => Dir(s, side).copier.Holding? && TargetOpen(s, side)
    case WriteFails(side, k) => Dir(s, side).copier.Holding? && k <= |Dir(s, side).copier.chunk| && (side.Down? ==> k == 0)
    case Signals(side) => Dir(s, side).copier.Signalling? && s.done < DONE_CAPACITY
    case MainReceives => (s.main.FirstWait? || s.main.SecondWait?) && s.done > 0
    case MainCloses => s.main.ClosingWs? || s.main.ClosingTcp?
  }

  /** What a copier does with the end of a read, once its bytes are written. */
  function AfterWrite(ending: ReadEnd): Copier {
    match ending
    case More => Reading
    case EndOfStream => Signalling(Drained)
    case ReadError => Signalling(Broken)
  }

  /** The TCP side skips an empty write; the other returns on an error at once. */
  function AfterRead(side: Side, chunk: Bytes, ending: ReadEnd): Copier {
    if (side.Down? && chunk == []) || (side.Up? && !ending.More?) then AfterWrite(ending) else Holding(chunk, ending)
  }

  function Next(s: State, e: Event): State
    requires Enabled(s, e)
  {
    match e
    case PeerSends(side, bytes) =>
      var d := Dir(s, side);
      With(s, side, d.(sent := d.sent + bytes, pending := d.pending + [bytes]))
    case PeerEnds(side) => With(s, side, Dir(s, side).(ended := true))
    case Reads(side, chunk, ending) =>
      var d := Dir(s, side);
      With(s, side, d.(copier := AfterRead(side, chunk, ending), pending := Rest(d, side, chunk, ending)))
    case WriteOk(side) =>
      var d := Dir(s, side);
      With(s, side, d.(copier := AfterWrite(d.copier.ending), written := d.written + d.copier.chunk))
    case WriteFails(side, k) =>
      var d := Dir(s, side);
      With(s, side, d.(copier := Signalling(Broken), written := d.written + d.copier.chunk[..k]))
    case Signals(side) =>
      var d := Dir(s, side);
      With(s, side, d.(copier := Ended(d.copier.why))).(done := s.done + 1)
    case MainReceives => s.(done := s.done - 1, main := if s.main.FirstWait? then ClosingWs else Returned)
    case MainCloses =>
      if s.main.ClosingWs? then s.(main := ClosingTcp, wsCloses := s.wsCloses + 1)
      else s.(main := SecondWait, tcpCloses := s.tcpCloses + 1)
  }

  predicate ValidRun(s: State, es: seq<Event>)
    decreases |es|
  {
    es == [] || (Enabled(s, es[0]) && ValidRun(Next(s, es[0]), es[1..]))
  }

  function After(s: State, es: seq<Event>): State
    requires ValidRun(s, es)
    decreases |es|
  {
    if es == [] then s else After(Next(s, es[0]), es[1..])
  }

  // ---- Transparency ----

  /** As long as no error has cut the direction, sent is written, held and pending. */
  predicate StreamInv(d: Direction) {
    match d.copier
    case Reading => d.sent == d.written + Flat(d.pending)
    case Holding(chunk, ending) =>
      d.sent == d.written + chunk + Flat(d.pending) && (ending.EndOfStream? ==> d.ended && Flat(d.pending) == [])
    case Signalling(why) => d.written <= d.sent && (why.Drained? ==> d.ended && d.written == d.sent)
    case Ended(why) => d.written <= d.sent && (why.Drained? ==> d.ended && d.written == d.sent)
  }

  lemma {:induction false} FlatAppend(a: seq<Bytes>, b: Bytes)
    ensures Flat(a + [b]) == Flat(a) + b
  {
    if a == [] {
      assert a + [b] == [b];
    } else {
      assert (a + [b])[1..] == a[1..] + [b];
      FlatAppend(a[1..], b);
    }
  }

  lemma RestIsRest(d: Direction, side: Side, chunk: Bytes, ending: ReadEnd)
    requires CanRead(d, side, chunk, ending)
    ensures Flat(d.pending) == chunk + Flat(Rest(d, side, chunk, ending))
  {
    var rest := Rest(d, side, chunk, ending);
    if side.Down? && chunk != [] && chunk != Flat(d.pending) {
      assert rest[1..] == [];
      assert Flat(rest) == rest[0];
    }
  }

  lemma ReadKeepsStream(s: State, side: Side, chunk: Bytes, ending: ReadEnd)
    requires Enabled(s, Reads(side, chunk, ending)) && StreamInv(Dir(s, side))
    ensures StreamInv(Dir(Next(s, Reads(side, chunk, ending)), side))
  {
    var d := Dir(s, side);
    RestIsRest(d, side, chunk, ending);
    assert d.written + (chunk + Flat(Rest(d, side, chunk, ending))) == d.written + chunk + Flat(Rest(d, side, chunk, ending));
  }

  lemma StepKeepsStream(s: State, e: Event, side: Side)
    requires Enabled(s, e) && StreamInv(Dir(s, side))
    ensures StreamInv(Dir(Next(s, e), side))
  {
    match e
    case Reads(x, chunk, ending) => if x == side { ReadKeepsStream(s, x, chunk, ending); }
    case PeerSends(x, bytes) => if x == side { SendKeepsStream(Dir(s, x), bytes); }
    case WriteFails(x, k) => if x == side { WriteKeepsPrefix(Dir(s, x), k); }
    case WriteOk(x) => if x == side { WriteKeepsPrefix(Dir(s, x), |Dir(s, x).copier.chunk|); }
    case _ =>
  }

  lemma SendKeepsStream(d: Direction, bytes: Bytes)
    requires StreamInv(d) && !d.ended
    ensures StreamInv(d.(sent := d.sent + bytes, pending := d.pending + [bytes]))
  {
    FlatAppend(d.pending, bytes);
  }

  lemma WriteKeepsPrefix(d: Direction, k: nat)
    requires StreamInv(d) && d.copier.Holding? && k <= |d.copier.chunk|
    ensures d.written + d.copier.chunk[..k] <= d.sent
    ensures k == |d.copier.chunk| ==> d.written + d.copier.chunk[..k] == d.written + d.copier.chunk
  {
    var chunk := d.copier.chunk;
    assert d.sent == d.written + chunk[..k] + (chunk[k..] + Flat(d.pending)) by {
      assert chunk == chunk[..k] + chunk[k..];
    }
  }

  lemma {:induction false} RunKeepsStream(s: State, es: seq<Event>, side: Side)
    requires ValidRun(s, es) && StreamInv(Dir(s, side))
    ensures StreamInv(Dir(After(s, es), side))
    decreases |es|
  {
    if es != [] {
      StepKeepsStream(s, es[0], side);
      RunKeepsStream(Next(s, es[0]), es[1..], side);
    }
  }

  /** Transparency, in both directions and for all sizes and interleavings: what has been
      written to one peer is a prefix of what the other has sent, and equal to it when
      that copier ended because its source had ended. */
  lemma WrittenIsPrefixOfSent(es: seq<Event>, side: Side)
    requires ValidRun(START, es)
    ensures var d := Dir(After(START, es), side);
            && d.written <= d.sent
            && ((d.copier == Signalling(Drained) || d.copier == Ended(Drained)) ==> d.written == d.sent)
  {
    RunKeepsStream(START, es, side);
    var d := Dir(After(START, es), side);
    if d.copier.Holding? { WriteKeepsPrefix(d, 0); }
  }

  /** No read reported an error and no write failed in that direction. */
  predicate Faultless(es: seq<Event>, side: Side) {
    forall e <- es :: !(e.Reads? && e.side == side && e.ending.ReadError?) && !(e.WriteFails? && e.side == side)
  }

  /** No error has been met. */
  predicate Unbroken(d: Direction) {
    match d.copier
    case Reading => true
    case Holding(_, ending) => !ending.ReadError?
    case Signalling(why) => why.Drained?
    case Ended(why) => why.Drained?
  }

  lemma {:induction false} RunKeepsUnbroken(s: State, es: seq<Event>, side: Side)
    requires ValidRun(s, es) && Faultless(es, side) && Unbroken(Dir(s, side))
    ensures Unbroken(Dir(After(s, es), side))
    decreases |es|
  {
    if es != [] {
      assert es[0] in es;
      RunKeepsUnbroken(Next(s, es[0]), es[1..], side);
    }
  }

  /** A copier ends by itself only when its source has: over every run in which no read of that
      direction reported an error and no write of it failed, what was sent is written, held or
      pending while the copier copies, and all of it is written when it has ended. */
  lemma NothingIsLostWithoutFaults(es: seq<Event>, side: Side)
    requires ValidRun(START, es)
    requires forall e <- es :: !(e.Reads? && e.side == side && e.ending.ReadError?) && !(e.WriteFails? && e.side == side)
    ensures var d := Dir(After(START, es), side);
            && (d.copier.Reading? ==> d.sent == d.written + Flat(d.pending))
            && (d.copier.Holding? ==> d.sent == d.written + d.copier.chunk + Flat(d.pending))
            && (d.copier.Signalling? || d.copier.Ended? ==> d.copier.why.Drained? && d.ended && d.sent == d.written)
  {
    RunKeepsStream(START, es, side);
    RunKeepsUnbroken(START, es, side);
  }

  // ---- Shutdown ----

  function EndedCopiers(s: State): nat {
    (if s.down.copier.Ended? then 1 else 0) + (if s.up.copier.Ended? then 1 else 0)
  }

  function ReceivedBy(m: Main): nat {
    if m.FirstWait? then 0 else if m.Returned? then 2 else 1
  }

  predicate ControlInv(s: State) {
    && EndedCopiers(s) == s.done + ReceivedBy(s.main)
    && s.wsCloses == (if s.main.FirstWait? || s.main.ClosingWs? then 0 else 1)
    && s.tcpCloses == (if s.main.SecondWait? || s.main.Returned? then 1 else 0)
  }

  lemma StepKeepsControl(s: State, e: Event)
    requires ControlInv(s) && Enabled(s, e)
    ensures ControlInv(Next(s, e))
  {
  }

  lemma {:induction false} RunKeepsControl(s: State, es: seq<Event>)
    requires ControlInv(s) && ValidRun(s, es)
    ensures ControlInv(After(s, es))
    decreases |es|
  {
    if es != [] {
      StepKeepsControl(s, es[0]);
      RunKeepsControl(Next(s, es[0]), es[1..]);
    }
  }

  /** Neither send on `done` blocks; a connection is closed at most once, and only after a
      copier has ended; and when `bridge` has returned, both copiers have ended and both
      connections were closed exactly once. */
  predicate Safe(s: State, side: Side) {
    && (Dir(s, side).copier.Signalling? ==> Enabled(s, Signals(side)))
    && s.wsCloses <= 1 && s.tcpCloses <= 1
    && (s.wsCloses > 0 || s.tcpCloses > 0 ==> EndedCopiers(s) > 0)
    && (s.main.Returned? ==> EndedCopiers(s) == 2 && s.wsCloses == 1 && s.tcpCloses == 1)
  }

  lemma ControlIsSafe(s: State, side: Side)
    requires ControlInv(s)
    ensures Safe(s, side)
  {
  }

  /** The hand-shake is safe in every reachable state. */
  lemma HandshakeIsSafe(es: seq<Event>, side: Side)
    requires ValidRun(START, es)
    ensures Safe(After(START, es), side)
  {
    var s := START;
    RunKeepsControl(s, es);
    ControlIsSafe(After(s, es), side);
  }

  /** What each Close does: that of the WebSocket ends the reads of the upward copier and fails the writes
      of the downward one, and the browser can send no more; that of TCP does the same for the
      other two and the workspace. Reads of the stream are never longer than the buffer. */
  lemma CloseCutsOneSide(s: State, bytes: Bytes, ending: ReadEnd)
    ensures s.wsCloses > 0 ==> !Enabled(s, PeerSends(Up, bytes)) && !Enabled(s, WriteOk(Down))
    ensures s.tcpCloses > 0 ==> !Enabled(s, PeerSends(Down, bytes)) && !Enabled(s, WriteOk(Up))
    ensures s.wsCloses > 0 && s.up.copier.Reading? ==> Forced(s, Reads(Up, [], ReadError)) && Enabled(s, Reads(Up, [], ReadError))
    ensures s.tcpCloses > 0 && s.down.copier.Reading? ==>
              Forced(s, Reads(Down, [], ReadError)) && Enabled(s, Reads(Down, [], ReadError))
    ensures s.wsCloses == 0 && !s.up.ended ==> Enabled(s, PeerSends(Up, bytes)) && Enabled(s, PeerEnds(Up))
    ensures s.tcpCloses == 0 && !s.down.ended ==> Enabled(s, PeerSends(Down, bytes)) && Enabled(s, PeerEnds(Down))
    ensures s.wsCloses == 0 && s.down.copier.Holding? ==> Enabled(s, WriteOk(Down))
    ensures s.tcpCloses == 0 && s.up.copier.Holding? ==> Enabled(s, WriteOk(Up))
    ensures Enabled(s, Reads(Down, bytes, ending)) ==> |bytes| <= 32768
  {
  }

  /** Events that wait for neither peer: those of `bridge` itself, and what a copier does on
      a closed connection. */
  predicate Forced(s: State, e: Event) {
    match e
    case Signals(_) => true
    case MainReceives => true
    case MainCloses => true
    case Reads(side, chunk, ending) => !SourceOpen(s, side) && chunk == [] && ending.ReadError?
    case WriteFails(side, k) => !TargetOpen(s, side) && k == 0
    case _ => false
  }

  function ForcedStep(s: State): (e: Event)
    requires ControlInv(s) && EndedCopiers(s) > 0 && !s.main.Returned?
    ensures Enabled(s, e) && Forced(s, e)
  {
    if s.main.ClosingWs? || s.main.ClosingTcp? then MainCloses
    else if s.done > 0 then MainReceives
    else
      var side := if s.down.copier.Ended? then Up else Down;
      match Dir(s, side).copier
      case Reading => Reads(side, [], ReadError)
      case Holding(_, _) => WriteFails(side, 0)
      case _ => Signals(side)
  }

  function Size(pending: seq<Bytes>): nat {
    if pending == [] then 0 else |pending[0]| + 1 + Size(pending[1..])
  }

  function CopierWork(c: Copier): nat {
    match c case Reading => 2 case Holding(_, _) => 3 case Signalling(_) => 1 case Ended(_) => 0
  }

  function DirectionWork(d: Direction): nat { CopierWork(d.copier) + 2 * Size(d.pending) }

  function MainWork(m: Main): nat {
    match m case FirstWait => 4 case ClosingWs => 3 case ClosingTcp => 2 case SecondWait => 1 case Returned => 0
  }

  function Measure(s: State): nat { DirectionWork(s.down) + DirectionWork(s.up) + MainWork(s.main) }

  lemma {:induction false} FlatFits(pending: seq<Bytes>)
    ensures |Flat(pending)| + |pending| == Size(pending)
  {
    if pending != [] { FlatFits(pending[1..]); }
  }

  lemma ReadShrinks(d: Direction, side: Side, chunk: Bytes, ending: ReadEnd)
    requires CanRead(d, side, chunk, ending)
    ensures Size(Rest(d, side, chunk, ending)) <= Size(d.pending)
    ensures AfterRead(side, chunk, ending).Holding? ==> Size(Rest(d, side, chunk, ending)) < Size(d.pending)
  {
    FlatFits(d.pending);
    var rest := Rest(d, side, chunk, ending);
    FlatFits(rest);
    RestIsRest(d, side, chunk, ending);
    if side.Down? && chunk != [] { assert d.pending != []; }
  }

  predicate OfPeer(e: Event) { e.PeerSends? || e.PeerEnds? }

  /** Every event but those of the peers brings the bridge nearer to its end. */
  lemma StepDecreases(s: State, e: Event)
    requires Enabled(s, e) && !OfPeer(e)
    ensures Measure(Next(s, e)) < Measure(s)
  {
    if e.Reads? {
      ReadShrinks(Dir(s, e.side), e.side, e.chunk, e.ending);
    }
  }

  lemma {:induction false} RunsAreBounded(s: State, es: seq<Event>)
    requires ValidRun(s, es) && forall e <- es :: !OfPeer(e)
    ensures |es| + Measure(After(s, es)) <= Measure(s)
    decreases |es|
  {
    if es != [] {
      StepDecreases(s, es[0]);
      RunsAreBounded(Next(s, es[0]), es[1..]);
    }
  }

  /** Once both connections are closed the peers can do nothing. */
  lemma PeersAreCutOff(s: State, e: Event)
    requires ControlInv(s) && (s.main.SecondWait? || s.main.Returned?) && OfPeer(e)
    ensures !Enabled(s, e)
  {
  }

  lemma {:induction false} EndedStays(s: State, es: seq<Event>)
    requires ValidRun(s, es)
    ensures EndedCopiers(s) <= EndedCopiers(After(s, es))
    decreases |es|
  {
    if es != [] { EndedStays(Next(s, es[0]), es[1..]); }
  }

  /** Termination, without assumptions on peers: once one copier has ended, a run of bridge
      and copiers that cannot be continued without waiting for a peer has returned, after
      no more steps than the measure. */
  lemma BridgeReturns(s: State, es: seq<Event>)
    requires ControlInv(s) && EndedCopiers(s) > 0
    requires ValidRun(s, es) && forall e <- es :: !OfPeer(e)
    requires forall e :: Forced(After(s, es), e) ==> !Enabled(After(s, es), e)
    ensures After(s, es).main.Returned? && EndedCopiers(After(s, es)) == 2
    ensures |es| <= Measure(s)
  {
    RunKeepsControl(s, es);
    RunsAreBounded(s, es);
    EndedStays(s, es);
    var s' := After(s, es);
    if !s'.main.Returned? {
      var e := ForcedStep(s');
    }
  }

  // ---- Progress ----

  predicate Copying(d: Direction) { d.copier.Reading? || (d.copier.Holding? && !d.copier.ending.ReadError?) }

  /** What the copier reads next: a message, a buffer of the stream, or the end. */
  function ReadNext(d: Direction, side: Side): Event {
    var all := Flat(d.pending);
    if side.Up? && d.pending != [] then Reads(side, d.pending[0], More)
    else if side.Down? && all != [] then Reads(side, all[..if |all| < 32768 then |all| else 32768], More)
    else Reads(side, [], EndOfStream)
  }

  /** Nothing is left to copy. */
  predicate Idle(d: Direction, side: Side) {
    d.copier.Reading? && Flat(d.pending) == [] && (side.Up? ==> d.pending == []) && !d.ended
  }

  lemma ReadIsPossible(s: State, side: Side)
    requires Dir(s, side).copier.Reading? && !Idle(Dir(s, side), side)
    ensures var d, e := Dir(s, side), ReadNext(Dir(s, side), side);
            Enabled(s, e) && e.Reads? && !e.ending.ReadError?
            && DirectionWork(Dir(Next(s, e), side)) < DirectionWork(d)
  {
    var d, e := Dir(s, side), ReadNext(Dir(s, side), side);
    ReadShrinks(d, side, e.chunk, e.ending);
  }

  /** The copier can go on until nothing is left or the end has been passed on. */
  lemma {:induction false} CopierCanFinish(s: State, side: Side) returns (es: seq<Event>)
    requires StreamInv(Dir(s, side)) && Copying(Dir(s, side)) && TargetOpen(s, side)
    ensures ValidRun(s, es) && Faultless(es, side) && forall e <- es :: !OfPeer(e)
    ensures var d, d' := Dir(s, side), Dir(After(s, es), side);
            && d'.sent == d'.written == d.sent && d'.ended == d.ended
            && (d.ended ==> d'.copier == Signalling(Drained))
    decreases DirectionWork(Dir(s, side))
  {
    var d := Dir(s, side);
    if Idle(d, side) {
      es := [];
    } else {
      var e := if d.copier.Holding? then WriteOk(side) else ReadNext(d, side);
      if d.copier.Reading? { ReadIsPossible(s, side); }
      StepKeepsStream(s, e, side);
      es := [e];
      var s' := Next(s, e);
      if Copying(Dir(s', side)) {
        var more := CopierCanFinish(s', side);
        es := [e] + more;
        assert es[1..] == more;
      }
    }
  }

  /** Nothing need be lost or withheld: from every state that a run without errors in one direction
      reaches, while its target is open, bridge alone can go on until all that was sent is
      written; and when the source has ended, the copier ends drained. */
  lemma EverythingCanBeDelivered(es: seq<Event>, side: Side) returns (more: seq<Event>)
    requires ValidRun(START, es) && Faultless(es, side) && TargetOpen(After(START, es), side)
    ensures ValidRun(After(START, es), more) && forall e <- more :: !e.PeerSends? && !e.PeerEnds?
    ensures var d, d' := Dir(After(START, es), side), Dir(After(After(START, es), more), side);
            && d'.written == d'.sent == d.sent
            && (d.ended ==> d'.copier == Signalling(Drained) || d'.copier == Ended(Drained))
  {
    RunKeepsStream(START, es, side);
    RunKeepsUnbroken(START, es, side);
    more := [];
    if Copying(Dir(After(START, es), side)) {
      more := CopierCanFinish(After(START, es), side);
    }
  }
}
