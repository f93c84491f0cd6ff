/** The whole tunnel between the browser's terminal and a workspace: `Write` in the browser,
    WebSocket, `bridge`, TCP, and back through `Read`. The WebSocket in between is assumed to
    deliver messages in order, possibly not all of them. */
module Tunnel {
  import opened Memory
  import opened Types
  import opened Streams
  import opened Bridge

  // ---- From the workspace to the browser ----

  /** Whatever the sizes of messages and buffers and however the two copiers, the callbacks and
      the reads interleave: what the browser has read is a prefix of what the workspace sent,
      and all of it when the copier has drained its source, every message has arrived and
      been kept, and queue and buffer are empty. */
  lemma DownIsTransparent(es: seq<Event>, err: Option<Error>, requests: seq<Request>)
    requires ValidRun(START, es)
    requires Intact(Received(Opened(err), requests).log) <= After(START, es).down.written
    ensures
      var d, p := After(START, es).down, Received(Opened(err), requests);
      && p.out <= d.sent
      && (d.copier == Ended(Drained) && Payload(p.log) == d.written && Kept(p.log) && p.ch == [] && p.r == []
          ==> p.out == d.sent)
  {
    WrittenIsPrefixOfSent(es, Down);
    ReceivedIsPrefix(err, requests);
  }

  /** The chunks that make up the log. */
  lemma {:induction false} PayloadIsFlat(log: seq<Arrival>, messages: seq<Bytes>)
    requires |log| == |messages| && forall i :: 0 <= i < |log| ==> log[i] == Resolved(messages[i])
    ensures Payload(log) == Flat(messages) && Kept(log)
  {
    if log != [] {
      var n := |log| - 1;
      PayloadIsFlat(log[..n], messages[..n]);
      FlatAppend(messages[..n], messages[n]);
      assert messages == messages[..n] + [messages[n]] && log == log[..n] + [log[n]];
    }
  }

  /** What the copier has not yet written. */
  function Uncopied(d: Direction): Bytes {
    match d.copier
    case Reading => Flat(d.pending)
    case Holding(chunk, _) => chunk + Flat(d.pending)
    case _ => []
  }

  /** Nothing is lost on the way down. The browser receives `messages`, and nothing else happens to the
      connection but a close after them; then what has been read, what buffer and queue still hold
      are exactly the messages. When they are all that the bridge has written, and no read or
      write of the bridge failed downwards, the rest of what the workspace sent is with the bridge. */
  lemma NothingIsLostDown(es: seq<Event>, err: Option<Error>, requests: seq<Request>, messages: seq<Bytes>)
    requires ValidRun(START, es)
    requires var acts, k := HappenedAll(Opened(err), requests), |messages|;
             && k <= |acts| && (forall i :: 0 <= i < k ==> acts[i].Message? && acts[i].a == Resolved(messages[i]))
             && (k < |acts| ==> acts[k].CloseCalled? || acts[k].CloseEvent?)
    requires Flat(messages) <= After(START, es).down.written
    ensures
      var d, p := After(START, es).down, Received(Opened(err), requests);
      && p.out + p.r + Payload(p.ch) == Flat(messages)
      && p.out <= d.sent
      && (Flat(messages) == d.written && Faultless(es, Down) ==> p.out + p.r + Payload(p.ch) + Uncopied(d) == d.sent)
  {
    var d, p, acts := After(START, es).down, Received(Opened(err), requests), HappenedAll(Opened(err), requests);
    EverythingArrives(err, requests, |messages|);
    assert forall i :: 0 <= i < |messages| ==> p.log[i] == Resolved(messages[i]);
    PayloadIsFlat(p.log, messages);
    ReceivedIsPrefix(err, requests);
    WrittenIsPrefixOfSent(es, Down);
    if Faultless(es, Down) {
      NothingIsLostWithoutFaults(es, Down);
      if d.copier.Holding? { Rejoined(d.written, d.copier.chunk, Flat(d.pending)); }
    }
  }

  lemma Rejoined(a: Bytes, b: Bytes, c: Bytes)
    ensures a + b + c == a + (b + c)
  {
  }

  // ---- From the browser to the workspace ----

  /** The frames of successive writes. */
  function AllFrames(writes: seq<Bytes>): seq<Bytes> {
    if writes == [] then [] else Frames(writes[0]) + AllFrames(writes[1..])
  }

  lemma {:induction false} FlatOfTwo(a: seq<Bytes>, b: seq<Bytes>)
    ensures Flat(a + b) == Flat(a) + Flat(b)
  {
    if a == [] {
      assert a + b == b;
    } else {
      assert (a + b)[1..] == a[1..] + b;
      FlatOfTwo(a[1..], b);
    }
  }

  lemma {:induction false} AllFramesAreExact(writes: seq<Bytes>)
    ensures Flat(AllFrames(writes)) == Flat(writes)
  {
    if writes != [] {
      FlatOfTwo(Frames(writes[0]), AllFrames(writes[1..]));
      FramesAreExact(writes[0]);
      AllFramesAreExact(writes[1..]);
    }
  }

  /** What the bridge has written to the workspace is a prefix of what the terminal wrote, and
      all of it when every frame was delivered and the copier has drained them. */
  lemma UpIsTransparent(es: seq<Event>, writes: seq<Bytes>, delivered: seq<Bytes>)
    requires ValidRun(START, es)
    requires delivered <= AllFrames(writes) && After(START, es).up.sent == Flat(delivered)
    ensures
      var d := After(START, es).up;
      && d.written <= Flat(writes)
      && (d.copier == Ended(Drained) && delivered == AllFrames(writes) ==> d.written == Flat(writes))
      && (Faultless(es, Up) && delivered == AllFrames(writes) ==> d.written + Uncopied(d) == Flat(writes))
  {
    WrittenIsPrefixOfSent(es, Up);
    AllFramesAreExact(writes);
    var lost := AllFrames(writes)[|delivered|..];
    assert AllFrames(writes) == delivered + lost;
    FlatOfTwo(delivered, lost);
    var d := After(START, es).up;
    if Faultless(es, Up) {
      NothingIsLostWithoutFaults(es, Up);
      if d.copier.Holding? { Rejoined(d.written, d.copier.chunk, Flat(d.pending)); }
    }
  }
}
