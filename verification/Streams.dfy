/** The buffered byte streams of the browser terminal: the WebSocket connection
    (internal/terminal/adapter/websocket.go) and the xterm.js input
    (internal/terminal/adapter/terminalio.go). Chunks arrive in a queue through JavaScript
    callbacks, and `Read` repacks them into the buffers of its callers.

    The browser acts only while Go waits. A `Turn` is one wait in a select: what the
    browser does before the select proceeds, the case that is taken, and what it does
    while a promise is awaited. Statements are for all turns. */
module Streams {
  import opened Memory
  import opened Types

  datatype Error = Closed | ClosedByServer | Cancelled | EndOfFile | Failed(reason: string)

  /** A promise of a chunk: kept or broken. */
  datatype Arrival = Resolved(bytes: Bytes) | Rejected(error: Error)

  /** `r` is the read buffer, `ch` the queue and `err` what a read reports once closed.
      `log` and `out` are history: all arrivals ever queued, all bytes handed out. */
  datatype Pipe = Pipe(
    r: Bytes,
    ch: seq<Arrival>,
    closed: bool,
    err: Option<Error>,
    cancelled: bool,
    log: seq<Arrival>,
    out: Bytes)

  /** What the browser does: deliver a message (`drop` settles the race between a cancelled
      context and the queue), a key press, a close event, a cancelled context. */
  datatype Act =
    | Message(a: Arrival, drop: bool)
    | KeyPress(key: Bytes)
    | CloseCalled
    | CloseEvent
    | Cancel

  datatype Case = ContextCase | ChunkCase | CloseCase

  datatype Turn = Turn(before: seq<Act>, pick: Case, during: seq<Act>)

  const KEY_CAPACITY: nat := 100
  const FRAME_SIZE: nat := 4096

  // ---- What the browser does ----

  function Shut(p: Pipe): Pipe {
    if p.closed then p else p.(closed := true, err := if p.err.None? then Some(Closed) else p.err)
  }

  function Queued(p: Pipe, a: Arrival): Pipe { p.(ch := p.ch + [a], log := p.log + [a]) }

  function Acted(p: Pipe, act: Act): Pipe {
    match act
    case Message(a, drop) => if p.closed then p else if p.cancelled && drop then Shut(p) else Queued(p, a)
    case KeyPress(key) => if p.closed || |p.ch| >= KEY_CAPACITY then p else Queued(p, Resolved(key))
    case CloseCalled => Shut(p)
    case CloseEvent => Shut(if p.closed then p else p.(err := Some(ClosedByServer)))
    case Cancel => p.(cancelled := true)
  }

  function ActedAll(p: Pipe, acts: seq<Act>): Pipe {
    if acts == [] then p else Acted(ActedAll(p, acts[..|acts| - 1]), acts[|acts| - 1])
  }

  // ---- Read ----

  predicate NeedsMore(p: Pipe, n: nat) {
    |p.r| == 0 || (|p.r| < n && |p.ch| > 0)
  }

  /** The end of the loop of `Read`: still waiting when the turns are used up, or leaving
      with an error or without. */
  datatype Filled = Pending(p: Pipe) | Done(p: Pipe, err: Option<Error>)

  /** The loop of `Read` for a buffer of `n` bytes. */
  function Fill(p: Pipe, n: nat, turns: seq<Turn>): Filled
    decreases |turns|
  {
    if !NeedsMore(p, n) then Done(p, None)
    else if turns == [] then Pending(p)
    else
      var t := turns[0];
      var p1 := ActedAll(p, t.before);
      match t.pick
      case ContextCase => if p1.cancelled then Done(p1, Some(Cancelled)) else Fill(p1, n, turns[1..])
      case CloseCase => if p1.closed && p1.err.Some? then Done(p1, p1.err) else Fill(p1, n, turns[1..])
      case ChunkCase =>
        if p1.ch == [] then Fill(p1, n, turns[1..])
        else
          var p2 := ActedAll(p1.(ch := p1.ch[1..]), t.during);
          match p1.ch[0]
          case Rejected(e) => Done(p2, Some(e))
          case Resolved(bytes) => Fill(p2.(r := p2.r + bytes), n, turns[1..])
  }

  function Min(a: nat, b: nat): nat { if a < b then a else b }

  /** Handing out as much of the buffer as the caller has room for. */
  function Copied(p: Pipe, n: nat): Pipe {
    var k := Min(n, |p.r|);
    p.(r := p.r[k..], out := p.out + p.r[..k])
  }

  class WebSocket {
    var pipe: Pipe
    var sent: seq<Bytes>  // the frames passed to the browser

    constructor ()
      ensures pipe == Opened(None) && sent == []
    {
      pipe := Pipe([], [], false, None, false, [], []);
      sent := [];
    }

    method Close()
      modifies this`pipe
      ensures pipe == Shut(old(pipe))
    {
      if !pipe.closed {
        if pipe.err.None? {
          pipe := pipe.(err := Some(Closed));
        }
        pipe := pipe.(closed := true);
      }
    }

    /** The callbacks for one act of the browser; they are released when closed. */
    method Callback(act: Act)
      modifies this`pipe
      ensures pipe == Acted(old(pipe), act)
      ensures act == Cancel ==> pipe == old(pipe).(cancelled := true)
      ensures old(pipe).closed && act != Cancel ==> pipe == old(pipe)
      ensures !old(pipe).closed ==>
                match act
                case Message(a, drop) =>
                  if old(pipe).cancelled && drop then pipe == old(pipe).(closed := true, err := pipe.err) && pipe.err.Some?
                  else pipe == old(pipe).(ch := old(pipe).ch + [a], log := old(pipe).log + [a])
                case CloseEvent => pipe == old(pipe).(closed := true, err := Some(ClosedByServer))
                case CloseCalled =>
                  pipe == old(pipe).(closed := true, err := if old(pipe).err.Some? then old(pipe).err else Some(Closed))
                case _ => true
    {
      match act {
        case Message(a, drop) =>
          if !pipe.closed {
            if pipe.cancelled && drop {
              Close();
            } else {
              pipe := pipe.(ch := pipe.ch + [a], log := pipe.log + [a]);
            }
          }
        case KeyPress(key) =>
          if !pipe.closed && |pipe.ch| < KEY_CAPACITY {
            pipe := pipe.(ch := pipe.ch + [Resolved(key)], log := pipe.log + [Resolved(key)]);
          }
        case CloseCalled => Close();
        case CloseEvent =>
          if !pipe.closed {
            pipe := pipe.(err := Some(ClosedByServer));
          }
          Close();
        case Cancel => pipe := pipe.(cancelled := true);
      }
    }

    method Wait(acts: seq<Act>)
      modifies this`pipe
      ensures pipe == ActedAll(old(pipe), acts)
    {
      for i := 0 to |acts|
        invariant pipe == ActedAll(old(pipe), acts[..i])
      {
        assert acts[..i + 1][..i] == acts[..i];
        Callback(acts[i]);
      }
      assert acts[..|acts|] == acts;
    }

    /** `Read` with a buffer of `n` bytes. It has not returned when `pending`. */
    method Read(n: nat, turns: seq<Turn>) returns (pending: bool, data: Bytes, err: Option<Error>)
      modifies this`pipe
      ensures var f := Fill(old(pipe), n, turns);
              && pending == f.Pending?
              && (pending ==> pipe == f.p)
              && (!pending ==> err == f.err && pipe == Copied(f.p, n) && data == f.p.r[..Min(n, |f.p.r|)])
    {
      data, err, pending := [], None, false;
      var i := 0;
      while (|pipe.r| == 0 || (|pipe.r| < n && |pipe.ch| > 0)) && err.None? && !pending
        invariant i <= |turns|
        invariant pending ==> Fill(old(pipe), n, turns) == Pending(pipe)
        invariant !pending && err.Some? ==> Fill(old(pipe), n, turns) == Done(pipe, err)
        invariant !pending && err.None? ==> Fill(old(pipe), n, turns) == Fill(pipe, n, turns[i..])
        decreases |turns| - i, !pending
      {
        if i == |turns| {
          pending := true;
        } else {
          var t := turns[i];
          assert turns[i..][1..] == turns[i + 1..];
          i := i + 1;
          Wait(t.before);
          err := ReadChunk(t);
        }
      }
      if !pending {
        var k := Min(n, |pipe.r|);
        data := pipe.r[..k];
        pipe := pipe.(r := pipe.r[k..], out := pipe.out + data);
      }
    }

    /** One select of readChunk; nothing happens when the picked case is not ready. */
    method ReadChunk(t: Turn) returns (err: Option<Error>)
      modifies this`pipe
      ensures var p := old(pipe);
              match t.pick
              case ContextCase => pipe == p && err == if p.cancelled then Some(Cancelled) else None
              case CloseCase => pipe == p && err == if p.closed then p.err else None
              case ChunkCase =>
                if p.ch == [] then pipe == p && err == None
                else
                  var p2 := ActedAll(p.(ch := p.ch[1..]), t.during);
                  match p.ch[0]
                  case Rejected(e) => pipe == p2 && err == Some(e)
                  case Resolved(bytes) => pipe == p2.(r := p2.r + bytes) && err == None
    {
      err := None;
      match t.pick {
        case ContextCase =>
          if pipe.cancelled {
            err := Some(Cancelled);
          }
        case CloseCase =>
          if pipe.closed {
            err := pipe.err;
          }
        case ChunkCase =>
          if pipe.ch != [] {
            var a := pipe.ch[0];
            pipe := pipe.(ch := pipe.ch[1..]);
            Wait(t.during);
            if a.Rejected? {
              return Some(a.error);
            }
            pipe := pipe.(r := pipe.r + a.bytes);
          }
      }
    }

    /** `Write` sends frames of at most 4096 bytes; a closed socket sends nothing. */
    method Write(b: Bytes) returns (n: nat, err: Option<Error>)
      modifies this`sent
      ensures pipe.closed ==> sent == old(sent) && n == 0 && err == pipe.err
      ensures !pipe.closed ==> sent == old(sent) + Frames(b) && n == |b| && err == None
    {
      if pipe.closed {
        return 0, pipe.err;
      }
      n, err := |b|, None;
      var rest := b;
      while |rest| > 0
        invariant sent + Frames(rest) == old(sent) + Frames(b)
      {
        var sz := if |rest| < 4096 then |rest| else 4096;
        assert Frames(rest) == [rest[..sz]] + Frames(rest[sz..]);
        sent := sent + [rest[..sz]];
        rest := rest[sz..];
      }
    }
  }

  // ---- Frames ----

  function Frames(b: Bytes): seq<Bytes> {
    if b == [] then [] else [b[..Min(|b|, FRAME_SIZE)]] + Frames(b[Min(|b|, FRAME_SIZE)..])
  }

  /** The frames of a write concatenate to what was written, and all but the last are full:
      there are as few of them as the frame size allows. */
  lemma {:induction false} FramesAreExact(b: Bytes)
    ensures Flat(Frames(b)) == b
    ensures forall i :: 0 <= i < |Frames(b)| ==> 0 < |Frames(b)[i]| <= 4096
    ensures forall i :: 0 <= i < |Frames(b)| - 1 ==> |Frames(b)[i]| == 4096
    ensures |Frames(b)| * 4096 < |b| + 4096 && |b| <= |Frames(b)| * 4096
  {
    if b != [] {
      var k := Min(|b|, FRAME_SIZE);
      FramesAreExact(b[k..]);
      var fs := Frames(b[k..]);
      assert Frames(b) == [b[..k]] + fs && Frames(b)[1..] == fs;
      assert b == b[..k] + b[k..];
      assert (|fs| + 1) * FRAME_SIZE == |fs| * FRAME_SIZE + FRAME_SIZE;
      if fs != [] { assert |b| > FRAME_SIZE; }
    }
  }

  // ---- The terminal side ----

  /** What xterm.js and the owner of the terminal do. */
  predicate OnTerminal(act: Act) { act.KeyPress? || act.CloseCalled? }

  predicate TerminalTurns(turns: seq<Turn>) {
    forall t <- turns :: !t.pick.ContextCase? && t.during == [] && (forall act <- t.before :: OnTerminal(act))
  }

  class TerminalIO {
    var pipe: Pipe

    predicate Valid()
      reads this
    {
      pipe.err == Some(EndOfFile) && !pipe.cancelled && Kept(pipe.ch)
    }

    constructor ()
      ensures Valid() && pipe == Opened(Some(EndOfFile))
    {
      pipe := Pipe([], [], false, Some(EndOfFile), false, [], []);
    }

    /** A key press is dropped when a hundred are waiting. */
    method OnData(key: Bytes)
      requires Valid()
      modifies this
      ensures Valid() && pipe == Acted(old(pipe), KeyPress(key))
      ensures old(pipe).closed || |old(pipe).ch| >= 100 ==> pipe == old(pipe)
      ensures !old(pipe).closed && |old(pipe).ch| < 100 ==>
                pipe == old(pipe).(ch := old(pipe).ch + [Resolved(key)], log := old(pipe).log + [Resolved(key)])
    {
      if pipe.closed {
        return;
      }
      if |pipe.ch| < 100 {
        pipe := pipe.(ch := pipe.ch + [Resolved(key)], log := pipe.log + [Resolved(key)]);
      }
    }

    method Close()
      requires Valid()
      modifies this
      ensures Valid() && pipe == Acted(old(pipe), CloseCalled)
      ensures pipe == old(pipe).(closed := true)
    {
      if pipe.closed {
        return;
      }
      pipe := pipe.(closed := true);
    }

    method Wait(acts: seq<Act>)
      requires Valid() && forall act <- acts :: OnTerminal(act)
      modifies this
      ensures Valid() && pipe == ActedAll(old(pipe), acts)
    {
      for i := 0 to |acts|
        invariant Valid() && pipe == ActedAll(old(pipe), acts[..i])
      {
        assert acts[..i + 1][..i] == acts[..i];
        assert OnTerminal(acts[i]);
        if acts[i].KeyPress? {
          OnData(acts[i].key);
        } else {
          Close();
        }
      }
      assert acts[..|acts|] == acts;
    }

    /** One select of readChunk; nothing happens when the picked case is not ready. */
    method ReadChunk(pick: Case) returns (err: Option<Error>)
      requires Valid()
      modifies this
      ensures Valid()
      ensures var p := old(pipe);
              if pick.ChunkCase? && p.ch != [] then
                pipe == p.(ch := p.ch[1..], r := p.r + p.ch[0].bytes) && err == None
              else pipe == p && err == if pick.CloseCase? && p.closed then Some(EndOfFile) else None
    {
      err := None;
      if pick.ChunkCase? {
        if pipe.ch != [] {
          pipe := pipe.(r := pipe.r + pipe.ch[0].bytes, ch := pipe.ch[1..]);
        }
      } else if pick.CloseCase? && pipe.closed {
        err := Some(EndOfFile);
      }
    }

    method Read(n: nat, turns: seq<Turn>) returns (pending: bool, data: Bytes, err: Option<Error>)
      requires Valid() && TerminalTurns(turns)
      modifies this
      ensures Valid()
      ensures var f := Fill(old(pipe), n, turns);
              && pending == f.Pending?
              && (pending ==> pipe == f.p)
              && (!pending ==> err == f.err && pipe == Copied(f.p, n) && data == f.p.r[..Min(n, |f.p.r|)])
    {
      data, err, pending := [], None, false;
      var i := 0;
      while (|pipe.r| == 0 || (n > |pipe.r| && |pipe.ch| > 0)) && err.None? && !pending
        invariant i <= |turns| && Valid()
        invariant pending ==> Fill(old(pipe), n, turns) == Pending(pipe)
        invariant !pending && err.Some? ==> Fill(old(pipe), n, turns) == Done(pipe, err)
        invariant !pending && err.None? ==> Fill(old(pipe), n, turns) == Fill(pipe, n, turns[i..])
        decreases |turns| - i, !pending
      {
        if i == |turns| {
          pending := true;
        } else {
          var t := turns[i];
          assert turns[i..][1..] == turns[i + 1..];
          i := i + 1;
          Wait(t.before);
          err := ReadChunk(t.pick);
        }
      }
      if !pending {
        var k := Min(n, |pipe.r|);
        data := pipe.r[..k];
        pipe := pipe.(r := pipe.r[k..], out := pipe.out + data);
      }
    }
  }

  // ---- What Read delivers ----

  /** The bytes of a sequence of arrivals; broken promises have none. */
  function Payload(log: seq<Arrival>): Bytes {
    if log == [] then []
    else Payload(log[..|log| - 1]) + (if log[|log| - 1].Resolved? then log[|log| - 1].bytes else [])
  }

  predicate Kept(log: seq<Arrival>) { forall a <- log :: a.Resolved? }

  /** How many arrivals have left the queue. */
  function Passed(p: Pipe): int { |p.log| - |p.ch| }

  /** Handed out or in the buffer are exactly the bytes of the first `k` arrivals. */
  predicate HandedOut(p: Pipe, k: int) {
    0 <= k <= |p.log| && Kept(p.log[..k]) && p.out + p.r == Payload(p.log[..k])
  }

  predicate QueueIsTail(p: Pipe) {
    |p.ch| <= |p.log| && p.log[Passed(p)..] == p.ch && (p.closed ==> p.err.Some?)
  }

  predicate Sound(p: Pipe) { QueueIsTail(p) && HandedOut(p, Passed(p)) }

  /** As Sound, except that the last arrival to leave the queue may be a broken promise. */
  predicate Ordered(p: Pipe) {
    && QueueIsTail(p)
    && (HandedOut(p, Passed(p))
        || (Passed(p) > 0 && p.log[Passed(p) - 1].Rejected? && HandedOut(p, Passed(p) - 1)))
  }

  lemma ActedKeepsSound(p: Pipe, act: Act)
    requires Sound(p)
    ensures Sound(Acted(p, act)) && Passed(Acted(p, act)) == Passed(p)
    ensures p.log <= Acted(p, act).log
  {
    var p' := Acted(p, act);
    assert p'.log[..Passed(p)] == p.log[..Passed(p)];
  }

  lemma {:induction false} ActedAllKeepsSound(p: Pipe, acts: seq<Act>)
    requires Sound(p)
    ensures Sound(ActedAll(p, acts)) && Passed(ActedAll(p, acts)) == Passed(p)
    ensures p.log <= ActedAll(p, acts).log
  {
    if acts != [] {
      ActedAllKeepsSound(p, acts[..|acts| - 1]);
      ActedKeepsSound(ActedAll(p, acts[..|acts| - 1]), acts[|acts| - 1]);
    }
  }

  lemma ChunkKeepsSound(p: Pipe)
    requires Sound(p) && p.ch != [] && p.ch[0].Resolved?
    ensures Sound(p.(ch := p.ch[1..], r := p.r + p.ch[0].bytes))
  {
    var k := Passed(p);
    assert p.log[k] == p.ch[0] && p.log[..k + 1] == p.log[..k] + [p.ch[0]];
    assert p.log[..k + 1][..k] == p.log[..k];
    assert p.log[k + 1..] == p.ch[1..];
    assert p.out + (p.r + p.ch[0].bytes) == p.out + p.r + p.ch[0].bytes;
  }

  /** A broken promise leaves the queue: its place in the log is passed, with no bytes. */
  lemma BrokenKeepsOrdered(p: Pipe, acts: seq<Act>)
    requires Sound(p) && p.ch != [] && p.ch[0].Rejected?
    ensures Ordered(ActedAll(p.(ch := p.ch[1..]), acts))
    ensures p.log <= ActedAll(p.(ch := p.ch[1..]), acts).log
  {
    var p1 := p.(ch := p.ch[1..]);
    assert p.log[Passed(p)] == p.ch[0] && p.log[Passed(p) + 1..] == p.ch[1..];
    ActedAllKeepsOrdered(p1, acts);
  }

  lemma ActedKeepsBroken(p: Pipe, act: Act)
    requires QueueIsTail(p) && Passed(p) > 0 && p.log[Passed(p) - 1].Rejected? && HandedOut(p, Passed(p) - 1)
    ensures Ordered(Acted(p, act)) && p.log <= Acted(p, act).log
  {
    var p', k := Acted(p, act), Passed(p);
    assert Passed(p') == k && p'.log[..k - 1] == p.log[..k - 1] && p'.log[k - 1] == p.log[k - 1];
  }

  lemma ActedKeepsOrdered(p: Pipe, act: Act)
    requires Ordered(p)
    ensures Ordered(Acted(p, act)) && p.log <= Acted(p, act).log
  {
    if HandedOut(p, Passed(p)) { ActedKeepsSound(p, act); } else { ActedKeepsBroken(p, act); }
  }

  lemma {:induction false} ActedAllKeepsOrdered(p: Pipe, acts: seq<Act>)
    requires Ordered(p)
    ensures Ordered(ActedAll(p, acts)) && p.log <= ActedAll(p, acts).log
  {
    if acts != [] {
      ActedAllKeepsOrdered(p, acts[..|acts| - 1]);
      ActedKeepsOrdered(ActedAll(p, acts[..|acts| - 1]), acts[|acts| - 1]);
    }
  }

  /** The order of environment and chunk does not matter to the read buffer. */
  lemma {:induction false} ActedAllLeavesBuffer(p: Pipe, acts: seq<Act>, r: Bytes)
    ensures ActedAll(p, acts).(r := r) == ActedAll(p.(r := r), acts)
    ensures ActedAll(p, acts).r == p.r && ActedAll(p, acts).out == p.out
  {
    if acts != [] { ActedAllLeavesBuffer(p, acts[..|acts| - 1], r); }
  }

  /** The pipe after a kept chunk has been taken, with what the browser did meanwhile. */
  function AfterChunk(p: Pipe, acts: seq<Act>): Pipe
    requires p.ch != [] && p.ch[0].Resolved?
  {
    var p2 := ActedAll(p.(ch := p.ch[1..]), acts);
    p2.(r := p2.r + p.ch[0].bytes)
  }

  lemma ChunkTurnKeepsSound(p: Pipe, acts: seq<Act>)
    requires Sound(p) && p.ch != [] && p.ch[0].Resolved?
    ensures Sound(AfterChunk(p, acts)) && p.log <= AfterChunk(p, acts).log
  {
    var taken := p.(ch := p.ch[1..], r := p.r + p.ch[0].bytes);
    ChunkKeepsSound(p);
    ActedAllKeepsSound(taken, acts);
    ActedAllLeavesBuffer(p.(ch := p.ch[1..]), acts, taken.r);
  }

  /** How the loop of Read goes on after its first turn. */
  lemma FillTurn(p: Pipe, n: nat, turns: seq<Turn>)
    requires NeedsMore(p, n) && turns != []
    ensures var p1, t := ActedAll(p, turns[0].before), turns[0];
            var f := Fill(p, n, turns);
            if t.pick.ChunkCase? && p1.ch != [] then
              if p1.ch[0].Rejected? then f == Done(ActedAll(p1.(ch := p1.ch[1..]), t.during), Some(p1.ch[0].error))
              else f == Fill(AfterChunk(p1, t.during), n, turns[1..])
            else f == Fill(p1, n, turns[1..]) || (f.Done? && f.p == p1 && f.err.Some?)
  {
  }

  /** What the order of the stream comes to at the end of the loop. */
  predicate InOrder(p: Pipe, f: Filled) {
    && Ordered(f.p) && p.log <= f.p.log
    && (f.Pending? || f.err.None? ==> Sound(f.p))
  }

  lemma InOrderFrom(p: Pipe, p1: Pipe, f: Filled)
    requires p.log <= p1.log && InOrder(p1, f)
    ensures InOrder(p, f)
  {
  }

  /** Whatever the browser does, the loop of Read keeps the stream in order. */
  lemma {:induction false} FillKeepsOrder(p: Pipe, n: nat, turns: seq<Turn>)
    requires Sound(p)
    ensures InOrder(p, Fill(p, n, turns))
    decreases |turns|
  {
    if NeedsMore(p, n) && turns != [] {
      var t, f := turns[0], Fill(p, n, turns);
      var p1 := ActedAll(p, t.before);
      ActedAllKeepsSound(p, t.before);
      FillTurn(p, n, turns);
      if !t.pick.ChunkCase? || p1.ch == [] {
        FillKeepsOrder(p1, n, turns[1..]);
        InOrderFrom(p, p1, Fill(p1, n, turns[1..]));
      } else if p1.ch[0].Rejected? {
        BrokenKeepsOrdered(p1, t.during);
      } else {
        ChunkTurnKeepsSound(p1, t.during);
        FillKeepsOrder(AfterChunk(p1, t.during), n, turns[1..]);
        InOrderFrom(p, AfterChunk(p1, t.during), f);
      }
    }
  }

  lemma CopyKeepsOrder(p: Pipe, n: nat)
    ensures Ordered(p) ==> Ordered(Copied(p, n))
    ensures Sound(p) ==> Sound(Copied(p, n))
  {
    var k := Min(n, |p.r|);
    assert p.out + p.r == p.out + p.r[..k] + p.r[k..];
  }

  /** A caller that reads until the first error. */
  datatype Request = Request(n: nat, turns: seq<Turn>)

  function Received(p: Pipe, requests: seq<Request>): Pipe
    decreases |requests|
  {
    if requests == [] then p
    else match Fill(p, requests[0].n, requests[0].turns)
      case Pending(p') => p'
      case Done(p', err) =>
        if err.Some? then Copied(p', requests[0].n) else Received(Copied(p', requests[0].n), requests[1..])
  }

  lemma {:induction false} ReceivedInOrder(p: Pipe, requests: seq<Request>)
    requires Sound(p)
    ensures Ordered(Received(p, requests)) && p.log <= Received(p, requests).log
    decreases |requests|
  {
    if requests != [] {
      var f := Fill(p, requests[0].n, requests[0].turns);
      FillKeepsOrder(p, requests[0].n, requests[0].turns);
      CopyKeepsOrder(f.p, requests[0].n);
      if f.Done? && f.err.None? {
        ReceivedInOrder(Copied(f.p, requests[0].n), requests[1..]);
      }
    }
  }

  /** The bytes up to the first broken promise. */
  function Intact(log: seq<Arrival>): Bytes
  {
    if log == [] then []
    else if Kept(log) then Payload(log)
    else Intact(log[..|log| - 1])
  }

  lemma {:induction false} PayloadOfPrefix(log: seq<Arrival>, k: nat)
    requires k <= |log|
    ensures Payload(log[..k]) <= Payload(log)
  {
    if k < |log| {
      PayloadOfPrefix(log[..|log| - 1], k);
      assert log[..|log| - 1][..k] == log[..k];
    } else {
      assert log[..k] == log;
    }
  }

  lemma {:induction false} IntactPrefix(log: seq<Arrival>, k: nat)
    requires k <= |log| && Kept(log[..k])
    ensures Payload(log[..k]) <= Intact(log)
  {
    if Kept(log) {
      PayloadOfPrefix(log, k);
    } else {
      assert log[..|log|] == log;
      IntactPrefix(log[..|log| - 1], k);
      assert log[..|log| - 1][..k] == log[..k];
    }
  }

  lemma OrderedIsPrefix(p: Pipe)
    requires Ordered(p)
    ensures p.out <= Intact(p.log)
    ensures Kept(p.log) ==> p.out + p.r + Payload(p.ch) == Payload(p.log)
  {
    var k := if HandedOut(p, Passed(p)) then Passed(p) else Passed(p) - 1;
    IntactPrefix(p.log, k);
    assert p.out <= p.out + p.r;
    if Kept(p.log) { NothingIsLost(p); }
  }

  lemma NothingIsLost(p: Pipe)
    requires Ordered(p) && Kept(p.log)
    ensures p.out + p.r + Payload(p.ch) == Payload(p.log)
  {
    assert p.log == p.log[..Passed(p)] + p.ch;
    PayloadOfTwo(p.log[..Passed(p)], p.ch);
  }

  lemma {:induction false} PayloadOfTwo(a: seq<Arrival>, b: seq<Arrival>)
    ensures Payload(a + b) == Payload(a) + Payload(b)
  {
    if b == [] {
      assert a + b == a;
    } else {
      assert (a + b)[..|a + b| - 1] == a + b[..|b| - 1];
      PayloadOfTwo(a, b[..|b| - 1]);
    }
  }

  function Opened(err: Option<Error>): Pipe { Pipe([], [], false, err, false, [], []) }

  /** Transparency of the reading side. For any message sizes, buffer sizes and moments of
      arrival, what a caller has received up to its first error is a prefix of what
      arrived up to the first broken promise; and when no promise was broken, what is
      missing is exactly what buffer and queue still hold. */
  lemma ReceivedIsPrefix(err: Option<Error>, requests: seq<Request>)
    ensures var p := Received(Opened(err), requests);
            && p.out <= Intact(p.log)
            && (Kept(p.log) ==> p.out + p.r + Payload(p.ch) == Payload(p.log))
  {
    assert Sound(Opened(err));
    ReceivedInOrder(Opened(err), requests);
    OrderedIsPrefix(Received(Opened(err), requests));
  }

  // ---- What arrives is what was sent ----

  /** What the browser has done by the end of the loop of Read: all of each turn that was taken. */
  function Happened(p: Pipe, n: nat, turns: seq<Turn>): seq<Act>
    decreases |turns|
  {
    if !NeedsMore(p, n) || turns == [] then []
    else
      var t := turns[0];
      var p1 := ActedAll(p, t.before);
      if t.pick.ChunkCase? && p1.ch != [] then
        if p1.ch[0].Rejected? then t.before + t.during
        else t.before + t.during + Happened(AfterChunk(p1, t.during), n, turns[1..])
      else if (t.pick.ContextCase? && p1.cancelled) || (t.pick.CloseCase? && p1.closed && p1.err.Some?) then t.before
      else t.before + Happened(p1, n, turns[1..])
  }

  /** The same over successive reads. */
  function HappenedAll(p: Pipe, requests: seq<Request>): seq<Act>
    decreases |requests|
  {
    if requests == [] then []
    else
      var r, f := requests[0], Fill(p, requests[0].n, requests[0].turns);
      if f.Done? && f.err.None? then Happened(p, r.n, r.turns) + HappenedAll(Copied(f.p, r.n), requests[1..])
      else Happened(p, r.n, r.turns)
  }

  predicate Brings(act: Act) { act.Message? || act.KeyPress? }

  function Brought(act: Act): Arrival
    requires Brings(act)
  {
    if act.Message? then act.a else Resolved(act.key)
  }

  /** Nothing is dropped: messages only, or a hundred messages and keys at most. */
  predicate Clean(acts: seq<Act>) {
    (forall act <- acts :: act.Message?) || (|acts| <= KEY_CAPACITY && forall act <- acts :: Brings(act))
  }

  /** The arrivals in the log are those of the acts, one by one. */
  predicate Arrived(log: seq<Arrival>, acts: seq<Act>) {
    |log| == |acts| && forall i :: 0 <= i < |acts| ==> Brings(acts[i]) && log[i] == Brought(acts[i])
  }

  /** `p` is a pipe, opened empty, after the acts. */
  predicate Faithful(p: Pipe, acts: seq<Act>) {
    && |p.ch| <= |p.log|
    && (Clean(acts) ==> Arrived(p.log, acts) && !p.closed && !p.cancelled)
    && (forall k :: 0 <= k <= |acts| && Clean(acts[..k]) ==> k <= |p.log| && Arrived(p.log[..k], acts[..k]))
    && (forall k :: 0 <= k < |acts| && Clean(acts[..k]) && (acts[k].CloseCalled? || acts[k].CloseEvent?) ==>
          p.closed && |p.log| == k)
  }

  lemma CleanStep(p: Pipe, acts: seq<Act>, act: Act)
    requires Faithful(p, acts) && Clean(acts + [act])
    ensures Clean(acts) && Arrived(Acted(p, act).log, acts + [act]) && !Acted(p, act).closed && !Acted(p, act).cancelled
  {
    assert act in acts + [act];
    assert forall a <- acts :: a in acts + [act];
  }

  lemma ActedKeepsFaithful(p: Pipe, acts: seq<Act>, act: Act)
    requires Faithful(p, acts)
    ensures Faithful(Acted(p, act), acts + [act])
  {
    var p', acts' := Acted(p, act), acts + [act];
    if Clean(acts') { CleanStep(p, acts, act); }
    forall k | 0 <= k <= |acts'| && Clean(acts'[..k]) ensures k <= |p'.log| && Arrived(p'.log[..k], acts'[..k]) {
      if k <= |acts| {
        assert acts'[..k] == acts[..k];
        assert p'.log[..k] == p.log[..k];
      } else {
        assert acts'[..k] == acts' && p'.log[..k] == p'.log;
      }
    }
    forall k | 0 <= k < |acts'| && Clean(acts'[..k]) && (acts'[k].CloseCalled? || acts'[k].CloseEvent?)
      ensures p'.closed && |p'.log| == k
    {
      if k < |acts| {
        assert acts'[..k] == acts[..k];
      } else {
        assert acts'[..k] == acts;
      }
    }
  }

  lemma {:induction false} ActedAllKeepsFaithful(p: Pipe, acts: seq<Act>, more: seq<Act>)
    requires Faithful(p, acts)
    ensures Faithful(ActedAll(p, more), acts + more)
  {
    if more == [] {
      assert acts + more == acts;
    } else {
      var n := |more| - 1;
      ActedAllKeepsFaithful(p, acts, more[..n]);
      ActedKeepsFaithful(ActedAll(p, more[..n]), acts + more[..n], more[n]);
      assert acts + more == acts + more[..n] + [more[n]];
    }
  }

  lemma TakenKeepsFaithful(p: Pipe, acts: seq<Act>, q: Pipe)
    requires Faithful(p, acts) && q.log == p.log && |q.ch| <= |p.ch| && q.closed == p.closed && q.cancelled == p.cancelled
    ensures Faithful(q, acts)
  {
  }

  /** The acts of the first turn: all of it when a chunk is taken. */
  function TurnActs(p: Pipe, t: Turn): seq<Act> {
    if t.pick.ChunkCase? && ActedAll(p, t.before).ch != [] then t.before + t.during else t.before
  }

  /** How the acts go on after the first turn, in step with the loop of Read. */
  lemma HappenedTurn(p: Pipe, n: nat, turns: seq<Turn>)
    requires NeedsMore(p, n) && turns != []
    ensures var p1, t := ActedAll(p, turns[0].before), turns[0];
            var f, h := Fill(p, n, turns), Happened(p, n, turns);
            if t.pick.ChunkCase? && p1.ch != [] then
              if p1.ch[0].Rejected? then f.p == ActedAll(p1.(ch := p1.ch[1..]), t.during) && h == TurnActs(p, t)
              else
                && f == Fill(AfterChunk(p1, t.during), n, turns[1..])
                && h == TurnActs(p, t) + Happened(AfterChunk(p1, t.during), n, turns[1..])
            else
              || (f.p == p1 && h == TurnActs(p, t))
              || (f == Fill(p1, n, turns[1..]) && h == TurnActs(p, t) + Happened(p1, n, turns[1..]))
  {
  }

  lemma FaithfulTurn(p: Pipe, t: Turn, acts: seq<Act>)
    requires Faithful(p, acts)
    ensures var p1 := ActedAll(p, t.before);
            if t.pick.ChunkCase? && p1.ch != [] then
              && Faithful(ActedAll(p1.(ch := p1.ch[1..]), t.during), acts + TurnActs(p, t))
              && (p1.ch[0].Resolved? ==> Faithful(AfterChunk(p1, t.during), acts + TurnActs(p, t)))
            else Faithful(p1, acts + TurnActs(p, t))
  {
    var p1 := ActedAll(p, t.before);
    ActedAllKeepsFaithful(p, acts, t.before);
    if t.pick.ChunkCase? && p1.ch != [] {
      ChunkKeepsFaithful(p1, acts + t.before, t.during);
      Regrouped(acts, t.before, t.during);
    }
  }

  lemma {:induction false} FillKeepsFaithful(p: Pipe, n: nat, turns: seq<Turn>, acts: seq<Act>)
    requires Faithful(p, acts)
    ensures Faithful(Fill(p, n, turns).p, acts + Happened(p, n, turns))
    decreases |turns|, 1
  {
    if !NeedsMore(p, n) || turns == [] {
      assert acts + [] == acts;
    } else {
      var t, p1 := turns[0], ActedAll(p, turns[0].before);
      FaithfulTurn(p, t, acts);
      HappenedTurn(p, n, turns);
      if t.pick.ChunkCase? && p1.ch != [] {
        if p1.ch[0].Resolved? { FillGoesOn(p, n, turns, acts, AfterChunk(p1, t.during)); }
      } else if Happened(p, n, turns) != TurnActs(p, t) || Fill(p, n, turns).p != p1 {
        FillGoesOn(p, n, turns, acts, p1);
      }
    }
  }

  lemma {:induction false} FillGoesOn(p: Pipe, n: nat, turns: seq<Turn>, acts: seq<Act>, next: Pipe)
    requires turns != [] && Faithful(next, acts + TurnActs(p, turns[0]))
    requires Fill(p, n, turns) == Fill(next, n, turns[1..])
    requires Happened(p, n, turns) == TurnActs(p, turns[0]) + Happened(next, n, turns[1..])
    ensures Faithful(Fill(p, n, turns).p, acts + Happened(p, n, turns))
    decreases |turns|, 0
  {
    FillKeepsFaithful(next, n, turns[1..], acts + TurnActs(p, turns[0]));
    Regrouped(acts, TurnActs(p, turns[0]), Happened(next, n, turns[1..]));
  }

  lemma Regrouped<T>(a: seq<T>, b: seq<T>, c: seq<T>)
    ensures a + b + c == a + (b + c)
  {
  }

  lemma ChunkKeepsFaithful(p: Pipe, acts: seq<Act>, during: seq<Act>)
    requires Faithful(p, acts) && p.ch != []
    ensures Faithful(ActedAll(p.(ch := p.ch[1..]), during), acts + during)
    ensures p.ch[0].Resolved? ==> Faithful(AfterChunk(p, during), acts + during)
  {
    TakenKeepsFaithful(p, acts, p.(ch := p.ch[1..]));
    ActedAllKeepsFaithful(p.(ch := p.ch[1..]), acts, during);
    if p.ch[0].Resolved? {
      TakenKeepsFaithful(ActedAll(p.(ch := p.ch[1..]), during), acts + during, AfterChunk(p, during));
    }
  }

  lemma {:induction false} ReceivedKeepsFaithful(p: Pipe, requests: seq<Request>, acts: seq<Act>)
    requires Faithful(p, acts)
    ensures Faithful(Received(p, requests), acts + HappenedAll(p, requests))
    decreases |requests|
  {
    if requests == [] {
      assert acts + [] == acts;
    } else {
      var r := requests[0];
      var f, done := Fill(p, r.n, r.turns), Happened(p, r.n, r.turns);
      FillKeepsFaithful(p, r.n, r.turns, acts);
      TakenKeepsFaithful(f.p, acts + done, Copied(f.p, r.n));
      if f.Done? && f.err.None? {
        ReceivedKeepsFaithful(Copied(f.p, r.n), requests[1..], acts + done);
        Regrouped(acts, done, HappenedAll(Copied(f.p, r.n), requests[1..]));
      }
    }
  }

  /** Nothing that the browser delivers is lost on its way into the queue. Over any reads of an opened
      pipe, as long as there have been only messages (or at most a hundred messages and key
      presses), the arrivals are these, one by one and in order; and a close ends them there. */
  lemma EverythingArrives(err: Option<Error>, requests: seq<Request>, k: nat)
    requires var acts := HappenedAll(Opened(err), requests);
             && k <= |acts|
             && ((forall i :: 0 <= i < k ==> acts[i].Message?)
                 || (k <= 100 && forall i :: 0 <= i < k ==> acts[i].Message? || acts[i].KeyPress?))
    ensures var p, acts := Received(Opened(err), requests), HappenedAll(Opened(err), requests);
            && k <= |p.log|
            && (forall i :: 0 <= i < k ==> p.log[i] == if acts[i].Message? then acts[i].a else Resolved(acts[i].key))
            && (k == |acts| ==> |p.log| == k && !p.closed)
            && (k < |acts| && (acts[k].CloseCalled? || acts[k].CloseEvent?) ==> |p.log| == k && p.closed)
  {
    var p, acts := Received(Opened(err), requests), HappenedAll(Opened(err), requests);
    assert Faithful(Opened(err), []);
    ReceivedKeepsFaithful(Opened(err), requests, []);
    assert [] + acts == acts;
    FaithfulSaysAll(p, acts, k);
  }

  lemma FaithfulSaysAll(p: Pipe, acts: seq<Act>, k: nat)
    requires Faithful(p, acts) && k <= |acts|
    requires (forall i :: 0 <= i < k ==> acts[i].Message?)
             || (k <= 100 && forall i :: 0 <= i < k ==> acts[i].Message? || acts[i].KeyPress?)
    ensures k <= |p.log|
    ensures forall i :: 0 <= i < k ==> p.log[i] == if acts[i].Message? then acts[i].a else Resolved(acts[i].key)
    ensures k == |acts| ==> |p.log| == k && !p.closed
    ensures k < |acts| && (acts[k].CloseCalled? || acts[k].CloseEvent?) ==> |p.log| == k && p.closed
  {
    assert Clean(acts[..k]);
    assert k == |acts| ==> acts[..k] == acts;
    ArrivedOneByOne(p.log, acts, k);
  }

  lemma ArrivedOneByOne(log: seq<Arrival>, acts: seq<Act>, k: nat)
    requires k <= |acts| && k <= |log| && Arrived(log[..k], acts[..k])
    ensures forall i :: 0 <= i < k ==>
              Brings(acts[i]) && log[i] == if acts[i].Message? then acts[i].a else Resolved(acts[i].key)
  {
    forall i | 0 <= i < k
      ensures Brings(acts[i]) && log[i] == if acts[i].Message? then acts[i].a else Resolved(acts[i].key)
    {
      assert log[..k][i] == log[i] && acts[..k][i] == acts[i];
    }
  }

  // ---- Read with nothing new arriving ----

  predicate Undisturbed(turns: seq<Turn>) {
    forall t <- turns :: t.before == [] && t.pick.ChunkCase? && t.during == []
  }

  lemma PayloadHead(a: Arrival, log: seq<Arrival>)
    ensures Payload([a] + log) == (if a.Resolved? then a.bytes else []) + Payload(log)
  {
    PayloadOfTwo([a], log);
    assert [a][..0] == [];
  }

  lemma ChunkMovesOver(p: Pipe)
    requires p.ch != [] && p.ch[0].Resolved?
    ensures p.r + p.ch[0].bytes + Payload(p.ch[1..]) == p.r + Payload(p.ch)
  {
    assert p.ch == [p.ch[0]] + p.ch[1..];
    PayloadHead(p.ch[0], p.ch[1..]);
  }

  lemma FillTakesChunk(p: Pipe, n: nat, turns: seq<Turn>)
    requires NeedsMore(p, n) && Undisturbed(turns) && turns != [] && p.ch != [] && p.ch[0].Resolved?
    ensures var p2 := p.(ch := p.ch[1..], r := p.r + p.ch[0].bytes);
            && Fill(p, n, turns) == Fill(p2, n, turns[1..])
            && p2.r + Payload(p2.ch) == p.r + Payload(p.ch)
  {
    assert turns[0].before == [] && turns[0].pick.ChunkCase? && turns[0].during == [];
    ChunkMovesOver(p);
  }

  lemma FillWaits(p: Pipe, n: nat, turns: seq<Turn>)
    requires NeedsMore(p, n) && Undisturbed(turns) && turns != [] && p.ch == []
    ensures Fill(p, n, turns) == Fill(p, n, turns[1..])
  {
    assert turns[0].before == [] && turns[0].pick.ChunkCase?;
  }

  /** What a read of at most `n` bytes makes of the bytes `all` that are available. */
  predicate TakesFrom(f: Filled, n: nat, all: Bytes) {
    && f.Done? && f.err.None?
    && f.p.r[..Min(n, |f.p.r|)] == all[..Min(n, |all|)]
    && Copied(f.p, n).r + Payload(f.p.ch) == all[Min(n, |all|)..]
  }

  lemma EnoughIsBuffered(p: Pipe, n: nat)
    requires !NeedsMore(p, n)
    ensures TakesFrom(Done(p, None), n, p.r + Payload(p.ch)) && p.r != []
  {
    assert p.ch == [] ==> Payload(p.ch) == [];
  }

  /** When all promises are kept and nothing new arrives, Read hands out the first
      min(n, available) bytes of buffer and queue and leaves the rest in order; with
      nothing available it waits. */
  lemma {:induction false} ReadTakesWhatThereIs(p: Pipe, n: nat, turns: seq<Turn>)
    requires Kept(p.ch) && Undisturbed(turns) && |p.ch| <= |turns|
    ensures var all := p.r + Payload(p.ch);
            if all == [] then Fill(p, n, turns) == Pending(p.(ch := []))
            else TakesFrom(Fill(p, n, turns), n, all)
    decreases |turns|
  {
    if !NeedsMore(p, n) {
      EnoughIsBuffered(p, n);
    } else if turns != [] && p.ch == [] {
      FillWaits(p, n, turns);
      ReadTakesWhatThereIs(p, n, turns[1..]);
    } else if turns != [] {
      FillTakesChunk(p, n, turns);
      ReadTakesWhatThereIs(p.(ch := p.ch[1..], r := p.r + p.ch[0].bytes), n, turns[1..]);
    }
  }

  // ---- When a read loses data ----

  /** Nothing new arrives, but a select may take any case that is ready. */
  predicate Calm(turns: seq<Turn>) {
    forall t <- turns :: t.before == [] && t.during == []
  }

  /** The read reports an error although arrivals are still queued. */
  predicate GivesUpEarly(f: Filled) { f.Done? && f.err.Some? && f.p.ch != [] }

  predicate ErrorPending(p: Pipe) { p.closed || p.cancelled }

  /** An input that fails: the connection is closed, a chunk is queued, and the select takes the
      close. The read reports the close and hands out nothing. */
  lemma CloseOvertakesChunk(bytes: Bytes, n: nat)
    ensures var p := Pipe([], [Resolved(bytes)], true, Some(Closed), false, [Resolved(bytes)], []);
            var f := Fill(p, n, [Turn([], CloseCase, [])]);
            f == Done(p, Some(Closed)) && GivesUpEarly(f) && Copied(f.p, n).out == []
  {
  }

  lemma CalmStep(p: Pipe, n: nat, turns: seq<Turn>)
    requires NeedsMore(p, n) && turns != [] && Calm(turns) && Kept(p.ch) && !ErrorPending(p)
    ensures p.ch == [] || !turns[0].pick.ChunkCase? ==> Fill(p, n, turns) == Fill(p, n, turns[1..])
    ensures p.ch != [] && turns[0].pick.ChunkCase? ==>
              Fill(p, n, turns) == Fill(p.(ch := p.ch[1..], r := p.r + p.ch[0].bytes), n, turns[1..])
  {
    assert turns[0].before == [] && turns[0].during == [];
  }

  /** Without a pending error, and with all promises kept, a read reports none. */
  lemma {:induction false} CalmReadSucceeds(p: Pipe, n: nat, turns: seq<Turn>)
    requires Calm(turns) && Kept(p.ch) && !ErrorPending(p)
    ensures var f := Fill(p, n, turns); f.Pending? || f.err.None?
    decreases |turns|
  {
    if NeedsMore(p, n) && turns != [] {
      CalmStep(p, n, turns);
      if p.ch == [] || !turns[0].pick.ChunkCase? {
        CalmReadSucceeds(p, n, turns[1..]);
      } else {
        CalmReadSucceeds(p.(ch := p.ch[1..], r := p.r + p.ch[0].bytes), n, turns[1..]);
      }
    }
  }

  /** An empty queue stays empty while nothing arrives. */
  lemma {:induction false} CalmStaysEmpty(p: Pipe, n: nat, turns: seq<Turn>)
    requires Calm(turns) && p.ch == []
    ensures Fill(p, n, turns).p.ch == []
    decreases |turns|
  {
    if NeedsMore(p, n) && turns != [] {
      assert turns[0].before == [];
      CalmStaysEmpty(p, n, turns[1..]);
    }
  }

  /** The turn in which the select takes the pending error first. */
  function Overtaking(p: Pipe): seq<Turn> { [Turn([], if p.closed then CloseCase else ContextCase, [])] }

  /** Exactly when reads are safe: with all promises kept and nothing new arriving, no choice of the
      selects makes a read of `n` bytes report an error while arrivals are queued, if and only
      if the queue is empty, or the buffer is enough for the caller, or no error is pending. */
  lemma ReadsAreSafeJustWhenOpen(p: Pipe, n: nat)
    requires Kept(p.ch) && (p.closed ==> p.err.Some?)
    ensures (forall turns :: Calm(turns) ==> !GivesUpEarly(Fill(p, n, turns)))
            <==> p.ch == [] || !NeedsMore(p, n) || !ErrorPending(p)
  {
    if p.ch == [] {
      forall turns | Calm(turns) ensures !GivesUpEarly(Fill(p, n, turns)) { CalmStaysEmpty(p, n, turns); }
    } else if !NeedsMore(p, n) {
    } else if !ErrorPending(p) {
      forall turns | Calm(turns) ensures !GivesUpEarly(Fill(p, n, turns)) { CalmReadSucceeds(p, n, turns); }
    } else {
      assert Calm(Overtaking(p));
      OvertakingGivesUp(p, n);
    }
  }

  lemma OvertakingGivesUp(p: Pipe, n: nat)
    requires p.ch != [] && NeedsMore(p, n) && ErrorPending(p) && (p.closed ==> p.err.Some?)
    ensures GivesUpEarly(Fill(p, n, Overtaking(p)))
  {
    assert ActedAll(p, []) == p;
  }

  // ---- When a promise is broken ----

  /** The place of the first broken promise, or the length. */
  function FirstBroken(ch: seq<Arrival>): (k: nat)
    ensures k <= |ch| && Kept(ch[..k]) && (k < |ch| ==> ch[k].Rejected?)
  {
    if ch == [] || ch[0].Rejected? then 0
    else
      var k := FirstBroken(ch[1..]);
      assert ch[..k + 1] == [ch[0]] + ch[1..][..k];
      k + 1
  }

  /** The read comes as far as the first broken promise. */
  predicate ReachesBroken(p: Pipe, n: nat) {
    var k := FirstBroken(p.ch);
    k < |p.ch| && (p.r + Payload(p.ch[..k]) == [] || |p.r + Payload(p.ch[..k])| < n)
  }

  lemma BrokenStep(p: Pipe, n: nat, turns: seq<Turn>)
    requires NeedsMore(p, n) && Undisturbed(turns) && turns != [] && p.ch != [] && p.ch[0].Rejected?
    ensures Fill(p, n, turns) == Done(p.(ch := p.ch[1..]), Some(p.ch[0].error))
  {
    assert turns[0].before == [] && turns[0].pick.ChunkCase? && turns[0].during == [];
  }

  /** What is left after the first arrival has been taken. */
  lemma TakenAway(p: Pipe)
    requires p.ch != [] && p.ch[0].Resolved?
    ensures var p2, k := p.(ch := p.ch[1..], r := p.r + p.ch[0].bytes), FirstBroken(p.ch);
            && k == FirstBroken(p2.ch) + 1
            && p2.r + Payload(p2.ch[..k - 1]) == p.r + Payload(p.ch[..k])
            && p2.ch[k - 1..] == p.ch[k..]
  {
    var k := FirstBroken(p.ch);
    assert p.ch[..k] == [p.ch[0]] + p.ch[1..][..k - 1];
    PayloadHead(p.ch[0], p.ch[1..][..k - 1]);
  }

  /** What a read that reaches the first broken promise makes of the queue: everything before the
      promise is in the buffer, everything after it still queued, and only its own chunk is gone. */
  predicate CostsItsChunk(p: Pipe, n: nat, f: Filled) {
    var k := FirstBroken(p.ch);
    && ((f.Done? && f.err.Some?) <==> ReachesBroken(p, n))
    && (ReachesBroken(p, n) ==>
          f == Done(p.(ch := p.ch[k + 1..], r := p.r + Payload(p.ch[..k])), Some(p.ch[k].error)))
  }

  lemma CostIsKept(p: Pipe, n: nat, f: Filled)
    requires p.ch != [] && p.ch[0].Resolved?
    requires CostsItsChunk(p.(ch := p.ch[1..], r := p.r + p.ch[0].bytes), n, f)
    ensures CostsItsChunk(p, n, f)
  {
    var p2, k := p.(ch := p.ch[1..], r := p.r + p.ch[0].bytes), FirstBroken(p.ch);
    TakenAway(p);
    if k < |p.ch| { assert p2.ch[k..] == p.ch[k + 1..] && p2.ch[k - 1] == p.ch[k]; }
  }

  /** Exactly when a broken promise ends a read, and what it costs: a read of `n` bytes that takes
      the queue as it is reports an error if and only if it comes as far as the first broken
      promise. */
  lemma {:induction false} BrokenPromiseCostsItsChunk(p: Pipe, n: nat, turns: seq<Turn>)
    requires Undisturbed(turns) && |p.ch| <= |turns|
    ensures CostsItsChunk(p, n, Fill(p, n, turns))
    decreases |turns|
  {
    if p.ch == [] {
      EmptyQueueHasNoError(p, n, turns);
    } else if !NeedsMore(p, n) {
      assert |p.r + Payload(p.ch[..FirstBroken(p.ch)])| >= |p.r|;
    } else if p.ch[0].Rejected? {
      assert p.ch[..0] == [];
      BrokenStep(p, n, turns);
    } else {
      FillTakesChunk(p, n, turns);
      BrokenPromiseCostsItsChunk(p.(ch := p.ch[1..], r := p.r + p.ch[0].bytes), n, turns[1..]);
      CostIsKept(p, n, Fill(p, n, turns));
    }
  }

  lemma {:induction false} EmptyQueueHasNoError(p: Pipe, n: nat, turns: seq<Turn>)
    requires Undisturbed(turns) && p.ch == []
    ensures var f := Fill(p, n, turns); f.Pending? || f.err.None?
    decreases |turns|
  {
    if NeedsMore(p, n) && turns != [] {
      FillWaits(p, n, turns);
      EmptyQueueHasNoError(p, n, turns[1..]);
    }
  }
}
