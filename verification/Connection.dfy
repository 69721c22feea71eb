/**
 One client connection: an input and an output buffer, three closing flags and
 an output limit, driven by readiness events.  What the kernel returns from
 `recv` and `send` is a script chosen by the environment.
 */
module Connections {
  import opened Basics
  import opened Buffers
  import opened Codec
  import opened Streams
  import opened SharedEngines
  import CacheSpec

  const READ_CHUNK_SIZE: nat := 65536
  const MAX_INPUT_BUFFER: nat := MAX_REQUEST_FRAME + READ_CHUNK_SIZE

  /** `Received([])` is the end of the stream. */
  datatype RecvResult = Received(bytes: Bytes) | RecvInterrupted | RecvWouldBlock | RecvFailed

  /** The kernel takes at most what is offered. */
  datatype SendResult = Accepted(count: nat) | SendInterrupted | SendWouldBlock | SendFailed

  datatype Events = Events(error: bool, readable: bool, hangup: bool, writable: bool)

  datatype Interest = Interest(hangup: bool, readable: bool, writable: bool)

  // ---- What the kernel's answers amount to ----

  /** How a pass of reads ends: the peer is done, the socket broke, or there is nothing more for now. */
  datatype ReadStop = PeerDone | ReadBroken | Drained

  /** The bytes a script of reads delivers before it stops. */
  function Arriving(script: seq<RecvResult>): Bytes {
    if script == [] then [] else
      match script[0]
      case Received(bytes) => if bytes == [] then [] else bytes + Arriving(script[1..])
      case RecvInterrupted => Arriving(script[1..])
      case RecvWouldBlock => []
      case RecvFailed => []
  }

  function StopOf(script: seq<RecvResult>): ReadStop {
    if script == [] then Drained else
      match script[0]
      case Received(bytes) => if bytes == [] then PeerDone else StopOf(script[1..])
      case RecvInterrupted => StopOf(script[1..])
      case RecvWouldBlock => Drained
      case RecvFailed => ReadBroken
  }

  datatype WriteStop = WriteDone | WriteBlocked | WriteBroken

  /** How many of `pending` bytes a script of sends takes before it stops. */
  function Leaving(pending: nat, script: seq<SendResult>): (n: nat)
    ensures n <= pending
  {
    if pending == 0 || script == [] then 0 else
      match script[0]
      case Accepted(count) =>
        var n := if count <= pending then count else pending;
        if count == 0 then 0 else n + Leaving(pending - n, script[1..])
      case SendInterrupted => Leaving(pending, script[1..])
      case SendWouldBlock => 0
      case SendFailed => 0
  }

  /** Whether a script of sends breaks the socket while bytes are pending. */
  predicate WriteBreaks(pending: nat, script: seq<SendResult>) {
    if pending == 0 || script == [] then false else
      match script[0]
      case Accepted(count) => count == 0 || WriteBreaks(if count <= pending then pending - count else 0, script[1..])
      case SendInterrupted => WriteBreaks(pending, script[1..])
      case SendWouldBlock => false
      case SendFailed => true
  }

  /** A script is read from the front: what it still delivers after `next` answers, in terms of the next one. */
  lemma ReadStep(script: seq<RecvResult>, next: nat)
    requires next <= |script|
    ensures next == |script| ==> Arriving(script[next..]) == [] && StopOf(script[next..]) == Drained
    ensures next < |script| ==>
              var rest, more := script[next..], script[next + 1..];
              match script[next]
              case Received(bytes) =>
                if bytes == [] then Arriving(rest) == [] && StopOf(rest) == PeerDone
                else Arriving(rest) == bytes + Arriving(more) && StopOf(rest) == StopOf(more)
              case RecvInterrupted => Arriving(rest) == Arriving(more) && StopOf(rest) == StopOf(more)
              case RecvWouldBlock => Arriving(rest) == [] && StopOf(rest) == Drained
              case RecvFailed => Arriving(rest) == [] && StopOf(rest) == ReadBroken
  {
    if next < |script| {
      assert script[next..][1..] == script[next + 1..];
    }
  }

  lemma {:induction false} WriteStep(pending: nat, script: seq<SendResult>, next: nat)
    requires next <= |script|
    ensures pending == 0 || next == |script| ==> Leaving(pending, script[next..]) == 0 && !WriteBreaks(pending, script[next..])
    ensures 0 < pending && next < |script| ==>
              var rest, more := script[next..], script[next + 1..];
              match script[next]
              case Accepted(count) =>
                if count == 0 then Leaving(pending, rest) == 0 && WriteBreaks(pending, rest)
                else
                  var n := if count <= pending then count else pending;
                  && Leaving(pending, rest) == n + Leaving(pending - n, more)
                  && WriteBreaks(pending, rest) == WriteBreaks(pending - n, more)
              case SendInterrupted =>
                Leaving(pending, rest) == Leaving(pending, more) && WriteBreaks(pending, rest) == WriteBreaks(pending, more)
              case SendWouldBlock => Leaving(pending, rest) == 0 && !WriteBreaks(pending, rest)
              case SendFailed => Leaving(pending, rest) == 0 && WriteBreaks(pending, rest)
  {
    if next < |script| {
      assert script[next..][1..] == script[next + 1..];
    }
  }

  lemma NothingToWrite(script: seq<SendResult>)
    ensures Leaving(0, script) == 0 && !WriteBreaks(0, script)
  {
  }

  /** The first `done` of the `whole` pending bytes have been sent. */
  ghost predicate Moved(before: Bytes, whole: Bytes, done: nat, sent: Bytes, pending: Bytes) {
    done <= |whole| && sent == before + whole[..done] && pending == whole[done..]
  }

  lemma MovedMore(before: Bytes, whole: Bytes, done: nat, sent: Bytes, pending: Bytes, n: nat)
    requires Moved(before, whole, done, sent, pending) && n <= |pending|
    ensures Moved(before, whole, done + n, sent + pending[..n], pending[n..])
  {
    assert whole[..done] + whole[done..][..n] == whole[..done + n];
  }

  lemma MovedNothing(before: Bytes, whole: Bytes)
    ensures Moved(before, whole, 0, before, whole)
  {
  }

  /** Decodes at the front of a buffer, and takes exactly the decoded frame out of it. */
  method DecodeFrom(input: Buffer) returns (d: Decoded<Request>)
    requires input.Valid()
    modifies input
    ensures input.Valid()
    ensures d == DecodeRequest(old(input.Contents()))
    ensures d.Complete? ==> d.length <= old(|input.Contents()|)
    ensures input.Contents() == if d.Complete? then old(input.Contents())[d.length..] else old(input.Contents())
  {
    hide DecodeRequest, Encodable;
    RequestBounds(input.Contents());
    d := DecodeRequest(input.Contents());
    if d.Complete? {
      input.Retrieve(d.length);
    }
  }

  /** How a call ended: it returned true, it returned false, or an exception left it. */
  datatype Progress = Going | Stopped | Threw

  /** A response that still fits below this bound is never refused. */
  function OutputBound(limit: nat): nat {
    if limit <= MAX_SIZE / 2 then limit else MAX_SIZE / 2
  }

  // ---- One readiness event, as a relation ----

  /** One readiness event, with what the kernel answers while it is handled. */
  datatype Round = Round(events: Events, recvs: seq<RecvResult>, sends: seq<SendResult>, rearmed: bool)

  /** `recv` returns at most what it was asked for. */
  predicate Fits(round: Round) {
    forall r :: r in round.recvs && r.Received? ==> |r.bytes| <= READ_CHUNK_SIZE
  }

  predicate Reads(events: Events) {
    !events.error && (events.readable || events.hangup)
  }

  /** The bytes one round offers to the connection. */
  function Incoming(round: Round): Bytes {
    if Reads(round.events) then Arriving(round.recvs) else []
  }

  /** In this round the peer said that it is done, or hung up. */
  predicate PeerGone(round: Round) {
    !round.events.error && (round.events.hangup || (Reads(round.events) && StopOf(round.recvs).PeerDone?))
  }

  /** A connection as a value: its history, and its flags that the history does not determine. */
  datatype View = View(log: Log, peerClosed: bool, closeImmediately: bool, socketFailed: bool, thrown: bool)

  /**
   What a connection is between two events.  It closes exactly for a cause: a
   response could not be queued, the socket failed, or everything has been written
   and the peer is gone or a protocol error has been answered.
   */
  ghost predicate Sensible(v: View, limit: nat) {
    && Coherent(v.log) && Settled(v.log) && |v.log.pending| <= limit
    && (v.log.breached ==> Overflowed(v.log, OutputBound(limit)))
    && (v.thrown ==> v.log.breached)
    && (v.closeImmediately || v.thrown <==>
          v.log.breached || v.socketFailed || (v.log.pending == [] && (v.peerClosed || v.log.failed)))
  }

  /** The round's reads went on until the kernel's script stopped them. */
  predicate ReadThrough(v: View, round: Round, v': View) {
    Reads(round.events) && !v.log.failed && !v.closeImmediately && !v'.log.failed && !v'.log.breached
  }

  predicate ReadFails(v: View, round: Round, v': View) {
    ReadThrough(v, round, v') && StopOf(round.recvs).ReadBroken?
  }

  /** The round got as far as writing. */
  predicate Writes(v: View, round: Round, v': View) {
    && !round.events.error && round.events.writable && !v.closeImmediately
    && !v'.log.breached && !ReadFails(v, round, v')
  }

  /** The bytes that were pending when the round wrote. */
  function Unsent(v: View, v': View): int {
    |v'.log.sent| + |v'.log.pending| - |v.log.sent|
  }

  /** What one round does to an open connection, and whether its worker keeps it. */
  ghost predicate RoundStep(v: View, round: Round, v': View, keep: bool) {
    var l, l' := v.log, v'.log;
    && (keep <==> !round.events.error && !v'.closeImmediately && !v'.thrown && round.rearmed)
    // What is read and executed.
    && l.executed <= l'.executed
    && l.received <= l'.received <= l.received + Incoming(round)
    && (!l'.failed && !l'.breached && !v.closeImmediately ==> l'.received == l.received + Incoming(round))
    && (l.failed || v.closeImmediately ==> l'.received == l.received && l'.executed == l.executed)
    && (l.failed ==> l'.failed)
    // What is written.
    && l.sent <= l'.sent && 0 <= Unsent(v, v')
    && |l'.sent| == |l.sent| + (if Writes(v, round, v') then Leaving(Unsent(v, v'), round.sends) else 0)
    // What the kernel said about the socket and the peer.
    && v'.socketFailed == (
         || v.socketFailed
         || ReadFails(v, round, v')
         || (Writes(v, round, v') && WriteBreaks(Unsent(v, v'), round.sends)))
    && (v'.peerClosed ==> v.peerClosed || PeerGone(round))
    && (v.peerClosed || (keep && round.events.hangup) || (ReadThrough(v, round, v') && StopOf(round.recvs).PeerDone?) ==>
          v'.peerClosed)
  }

  class Connection {
    const engine: SharedEngine
    const input: Buffer
    const output: Buffer
    const outputLimit: nat
    var peerClosed: bool
    var closeAfterWrite: bool
    var closeImmediately: bool

    ghost var received: Bytes
    ghost var queued: seq<Response>
    ghost var sent: Bytes
    /** A response could not be queued. */
    ghost var cutOff: bool
    ghost var socketFailed: bool
    /** An exception has left the connection; its worker drops it. */
    ghost var thrown: bool

    ghost predicate Wired() {
      && input != output && engine in engine.Repr
      && this !in engine.Repr && input !in engine.Repr && output !in engine.Repr
    }

    /** The requests executed and their outcomes are the calls made on the engine and what they returned. */
    ghost function History(): Log
      requires input.Valid() && output.Valid()
      reads this, input, output, engine
    {
      Log(received, input.Contents(), engine.calls, engine.outcomes, queued, sent, output.Contents(), closeAfterWrite, cutOff)
    }

    ghost predicate Consistent()
      reads this, input, output, engine, engine.Repr
    {
      && Wired()
      && input.Valid() && output.Valid() && engine.Valid()
      && |output.Contents()| <= outputLimit
      && Coherent(History())
      && (cutOff ==> (closeImmediately || thrown) && Overflowed(History(), OutputBound(outputLimit)))
      && (thrown ==> cutOff)
      && (socketFailed ==> closeImmediately)
      // No output is dropped without cause.
      && (closeImmediately ==>
            cutOff || socketFailed || (output.Contents() == [] && (peerClosed || closeAfterWrite)))
    }

    /** What holds even in the middle of processing input. */
    ghost predicate Running()
      reads this, input, output, engine, engine.Repr
    {
      && Consistent()
      // Not stuck: an open connection waits for input or has something to write.
      && (!closeImmediately && !thrown ==> (!closeAfterWrite && !peerClosed) || output.Contents() != [])
    }

    ghost predicate Valid()
      reads this, input, output, engine, engine.Repr
    {
      && Running()
      && Settled(History())
    }

    constructor (engine: SharedEngine, outputLimit: nat)
      requires engine.Valid() && engine in engine.Repr && engine.calls == [] && engine.outcomes == []
      ensures Valid() && fresh(input) && fresh(output)
      ensures this.engine == engine && this.outputLimit == outputLimit
      ensures received == [] && sent == [] && queued == [] && !cutOff && !socketFailed && !thrown
      ensures !peerClosed && !closeAfterWrite && !closeImmediately
    {
      hide Coherent, Settled, SharedEngine.Valid;
      this.engine, this.outputLimit := engine, outputLimit;
      input := new Buffer(4096);
      output := new Buffer(4096);
      peerClosed, closeAfterWrite, closeImmediately := false, false, false;
      received, queued, sent := [], [], [];
      cutOff, socketFailed, thrown := false, false, false;
      new;
      EmptyCoherent();
    }

    predicate ShouldClose()
      reads this
    {
      closeImmediately
    }

    /** Queues a response if the limit and the buffer's maximum allow it; otherwise the connection is cut off. */
    method QueueResponse(response: Response) returns (progress: Progress)
      requires output.Valid() && |output.Contents()| <= outputLimit && |response.value| <= CacheSpec.MAX_VALUE_LENGTH
      modifies this`closeImmediately, this`cutOff, this`thrown, output
      ensures output.Valid() && |output.Contents()| <= outputLimit
      ensures progress.Stopped? <==> old(|output.Contents()|) + |Frame(response)| > outputLimit
      ensures progress.Threw? <==> !progress.Stopped? && !old(output.HasRoom(|Frame(response)|))
      ensures output.Contents()
           == if progress.Going? then old(output.Contents()) + Frame(response) else old(output.Contents())
      ensures closeImmediately == (old(closeImmediately) || progress.Stopped?)
      ensures thrown == (old(thrown) || progress.Threw?)
      ensures cutOff == (old(cutOff) || !progress.Going?)
      ensures !progress.Going? ==> |output.Contents()| + |Frame(response)| > OutputBound(outputLimit)
    {
      hide EncodeResponse;
      FrameIsEncoding(response);
      var frame := EncodeResponse(response).value;
      var pending := |output.Contents()|;
      if pending > outputLimit || |frame| > outputLimit - pending {
        closeImmediately, cutOff := true, true;
        return Stopped;
      }
      var ok := output.Append(frame);
      if !ok {
        thrown, cutOff := true, true;
        return Threw;
      }
      return Going;
    }

    /** Runs one request against the engine, with exactly one call, and queues its response. */
    method Execute(request: Request) returns (progress: Progress, ghost outcome: CacheSpec.Outcome)
      requires Wired() && engine.Valid() && Encodable(request)
      requires output.Valid() && |output.Contents()| <= outputLimit
      modifies this`closeImmediately, this`cutOff, this`thrown, output, engine.Repr
      ensures engine.Valid() && Possible(request, outcome)
      ensures engine.calls == old(engine.calls) + [request] && engine.outcomes == old(engine.outcomes) + [outcome]
      ensures output.Valid() && |output.Contents()| <= outputLimit
      ensures var frame := Frame(Respond(request, outcome));
              && (progress.Stopped? <==> old(|output.Contents()|) + |frame| > outputLimit)
              && (progress.Threw? <==> !progress.Stopped? && !old(output.HasRoom(|frame|)))
              && output.Contents() == (if progress.Going? then old(output.Contents()) + frame else old(output.Contents()))
              && (!progress.Going? ==> |output.Contents()| + |frame| > OutputBound(outputLimit))
      ensures closeImmediately == (old(closeImmediately) || progress.Stopped?)
      ensures thrown == (old(thrown) || progress.Threw?)
      ensures cutOff == (old(cutOff) || !progress.Going?)
      ensures Conveys(Frame(Respond(request, outcome)), request, outcome)
    {
      hide Possible, Respond, Frame, Encodable, SharedEngine.Valid, Conveys;
      var result := engine.Call(request);
      outcome := result;
      PossibleResponses(request, outcome);
      ResponseConveys(request, outcome);
      progress := QueueResponse(Respond(request, result));
    }

    /** Decodes and executes everything the input buffer holds. */
    method ProcessInput() returns (progress: Progress)
      requires Running() && !closeAfterWrite && !closeImmediately && !thrown
      modifies this, input, output, engine.Repr
      ensures Valid() && received == old(received) && old(engine.calls) <= engine.calls
      ensures Reports(progress)
      ensures peerClosed == old(peerClosed) && socketFailed == old(socketFailed) && sent == old(sent)
    {
      hide Coherent, Overflowed, Settled, DecodeRequest, SharedEngine.Valid;
      while |input.Contents()| != 0
        invariant Running() && !closeAfterWrite && !closeImmediately && !thrown && sent == old(sent)
        invariant received == old(received) && peerClosed == old(peerClosed) && socketFailed == old(socketFailed)
        invariant old(engine.calls) <= engine.calls
        decreases |input.Contents()|
      {
        ghost var l := History();
        var d := DecodeFrom(input);
        match d {
          case Incomplete =>
            IncompleteSettles(l);
            return Going;
          case Error(requestId, fault) =>
            progress := Reject(requestId, fault, l);
            return;
          case Complete(request, length) =>
            progress := Serve(request, l);
            if !progress.Going? {
              return;
            }
        }
      }
      EmptySettles(History());
      return Going;
    }

    /** The result of a processing step tells whether a response was refused, and how. */
    ghost predicate Reports(progress: Progress)
      reads this
    {
      && (progress.Going? <==> !cutOff)
      && (progress.Stopped? <==> closeImmediately)
      && (progress.Threw? <==> thrown)
    }

    /** The rest of one round for a complete request; `l` is the history before it was decoded. */
    method Serve(request: Request, ghost l: Log) returns (progress: Progress)
      requires Wired() && input.Valid() && output.Valid() && DecodeRequest(l.unparsed).Complete?
      requires DecodeRequest(l.unparsed).length <= |l.unparsed|
      requires request == DecodeRequest(l.unparsed).frame
      requires History() == l.(unparsed := l.unparsed[DecodeRequest(l.unparsed).length..])
      requires Coherent(l) && !closeAfterWrite && !closeImmediately && !cutOff && !thrown && !socketFailed
      requires engine.Valid() && |output.Contents()| <= outputLimit
      requires peerClosed ==> output.Contents() != []
      modifies this, output, engine.Repr
      ensures Running() && received == old(received) && !closeAfterWrite
      ensures Reports(progress)
      ensures !progress.Going? ==> Settled(History())
      ensures input.Contents() == old(input.Contents())
      ensures |input.Contents()| < |l.unparsed|
      ensures peerClosed == old(peerClosed) && socketFailed == old(socketFailed) && sent == old(sent)
      ensures engine.calls == old(engine.calls) + [request] && |engine.outcomes| == |old(engine.outcomes)| + 1
      ensures var n := |engine.outcomes| - 1;
              && engine.outcomes[..n] == old(engine.outcomes)
              && queued == (if progress.Going? then old(queued) + [Respond(request, engine.outcomes[n])] else old(queued))
              && Conveys(Frame(Respond(request, engine.outcomes[n])), request, engine.outcomes[n])
    {
      hide Conveys, Coherent, Overflowed, Settled, DecodeRequest, Encodable, Possible, Respond, Frame, SharedEngine.Valid;
      RequestBounds(l.unparsed);
      ghost var outcome;
      progress, outcome := Execute(request);
      ExecuteCoherent(l, outcome);
      if progress.Going? {
        queued := queued + [Respond(request, outcome)];
        assert History() == Executed(l, outcome);
      } else {
        assert History() == Refused(l, outcome);
        RefusedOverflows(l, outcome, OutputBound(outputLimit));
        BrokenSettles(History());
      }
    }

    /** The rest of one round for a malformed header. */
    method Reject(requestId: u64, fault: Fault, ghost l: Log) returns (progress: Progress)
      requires Wired() && input.Valid() && output.Valid() && DecodeRequest(l.unparsed) == Error(requestId, fault)
      requires History() == l && Coherent(l)
      requires !closeAfterWrite && !closeImmediately && !cutOff && !thrown && !socketFailed
      requires engine.Valid() && |output.Contents()| <= outputLimit
      modifies this, input, output
      ensures Valid() && received == old(received)
      ensures Reports(progress)
      ensures peerClosed == old(peerClosed) && socketFailed == old(socketFailed) && sent == old(sent)
      ensures input.Contents() == [] && closeAfterWrite == progress.Going?
      ensures queued == if progress.Going? then old(queued) + [ErrorResponse(requestId, fault)] else old(queued)
    {
      hide Coherent, Overflowed, Settled, DecodeRequest, ErrorResponse, SharedEngine.Valid;
      FailCoherent(l);
      input.RetrieveAll();
      progress := QueueProtocolError(requestId, fault);
      if !progress.Going? {
        FailOverflows(l, OutputBound(outputLimit));
      }
      BrokenSettles(History());
    }

    method QueueProtocolError(requestId: u64, fault: Fault) returns (progress: Progress)
      requires output.Valid() && |output.Contents()| <= outputLimit
      modifies this`closeImmediately, this`cutOff, this`thrown, this`closeAfterWrite, this`queued, output
      ensures output.Valid() && |output.Contents()| <= outputLimit
      ensures var r := ErrorResponse(requestId, fault);
              && (progress.Stopped? <==> old(|output.Contents()|) + |Frame(r)| > outputLimit)
              && (progress.Threw? <==> !progress.Stopped? && !old(output.HasRoom(|Frame(r)|)))
              && output.Contents() == (if progress.Going? then old(output.Contents()) + Frame(r) else old(output.Contents()))
              && queued == (if progress.Going? then old(queued) + [r] else old(queued))
              && (!progress.Going? ==> |output.Contents()| + |Frame(r)| > OutputBound(outputLimit))
      ensures closeAfterWrite == (old(closeAfterWrite) || progress.Going?)
      ensures closeImmediately == (old(closeImmediately) || progress.Stopped?)
      ensures thrown == (old(thrown) || progress.Threw?)
      ensures cutOff == (old(cutOff) || !progress.Going?)
    {
      hide Frame;
      ErrorResponseFits(requestId, fault);
      var response := ErrorResponse(requestId, fault);
      progress := QueueResponse(response);
      if progress.Going? {
        queued := queued + [response];
        closeAfterWrite := true;
      }
    }

    /** One successful read: the bytes are appended and everything they complete is processed. */
    method Absorb(bytes: Bytes) returns (progress: Progress)
      requires Valid() && !closeAfterWrite && !closeImmediately && !thrown && |bytes| <= READ_CHUNK_SIZE
      modifies this, input, output, engine.Repr
      ensures Valid() && received == old(received) + bytes && old(engine.calls) <= engine.calls
      ensures Reports(progress)
      ensures peerClosed == old(peerClosed) && socketFailed == old(socketFailed) && sent == old(sent)
    {
      hide Coherent, Overflowed, Settled, SharedEngine.Valid;
      UnparsedIsShort(History());
      if |bytes| > MAX_INPUT_BUFFER - |input.Contents()| {
        // The input guard of the source: it would close the connection here.
        assert false;
      }
      ReceiveCoherent(History(), bytes);
      var appended := input.Append(bytes);
      received := received + bytes;
      progress := ProcessInput();
    }

    /** Nothing has happened since `l`. */
    ghost predicate Unmoved(l: Log, peer: bool, closing: bool, failed: bool)
      requires input.Valid() && output.Valid()
      reads this, input, output, engine
    {
      History() == l && peerClosed == peer && closeImmediately == closing && socketFailed == failed
    }

    /** Reads until the kernel has no more, the peer is done, or the connection is closing. */
    method HandleReadable(script: seq<RecvResult>) returns (progress: Progress)
      requires Valid() && !thrown && forall r :: r in script && r.Received? ==> |r.bytes| <= READ_CHUNK_SIZE
      modifies this, input, output, engine.Repr
      ensures Valid() && old(engine.calls) <= engine.calls
      ensures progress.Threw? <==> thrown
      ensures progress.Going? <==> !closeImmediately && !thrown
      ensures old(received) <= received <= old(received) + Arriving(script) && sent == old(sent)
      ensures old(closeAfterWrite || closeImmediately) ==>
                Unmoved(old(History()), old(peerClosed), old(closeImmediately), old(socketFailed)) && !thrown
      ensures !old(closeAfterWrite || closeImmediately) && !closeAfterWrite && !cutOff ==>
                && received == old(received) + Arriving(script)
                && peerClosed == (old(peerClosed) || StopOf(script).PeerDone?)
                && socketFailed == (old(socketFailed) || StopOf(script).ReadBroken?)
                && closeImmediately == (StopOf(script).ReadBroken? || (StopOf(script).PeerDone? && output.Contents() == []))
      ensures !old(closeAfterWrite || closeImmediately) && closeAfterWrite && !cutOff ==> !closeImmediately
      ensures closeAfterWrite || cutOff ==> peerClosed == old(peerClosed) && socketFailed == old(socketFailed)
    {
      hide Coherent, Overflowed, Settled, Arriving, StopOf, SharedEngine.Valid;
      assert script[0..] == script;
      var next := 0;
      while !closeAfterWrite && !closeImmediately
        invariant next <= |script| && Valid() && !thrown && old(received) <= received && sent == old(sent)
        invariant old(engine.calls) <= engine.calls
        invariant received + Arriving(script[next..]) == old(received) + Arriving(script)
        invariant StopOf(script[next..]) == StopOf(script)
        invariant closeImmediately == old(closeImmediately)
        invariant peerClosed == old(peerClosed) && socketFailed == old(socketFailed)
        invariant old(closeAfterWrite || closeImmediately) ==> History() == old(History())
        decreases |script| - next
      {
        var result := if next < |script| then script[next] else RecvWouldBlock;
        ReadStep(script, next);
        match result {
          case Received(bytes) =>
            next := next + 1;
            if |bytes| == 0 {
              NotePeerClosed();
              break;
            }
            progress := Absorb(bytes);
            if progress.Threw? {
              return;
            }
            if progress.Stopped? {
              break;
            }
          case RecvInterrupted =>
            next := next + 1;
          case RecvWouldBlock =>
            break;
          case RecvFailed =>
            closeImmediately, socketFailed := true, true;
            break;
        }
      }
      return if closeImmediately then Stopped else Going;
    }

    /** One successful send: the kernel has taken the first `n` pending bytes. */
    method Deliver(n: nat)
      requires Consistent() && Settled(History()) && !closeImmediately && !thrown && n <= |output.Contents()|
      modifies this`sent, output
      ensures Consistent() && Settled(History())
      ensures sent == old(sent) + old(output.Contents())[..n] && output.Contents() == old(output.Contents())[n..]
    {
      hide Coherent, Overflowed, Settled, SharedEngine.Valid;
      SendCoherent(History(), n);
      SentSettles(History(), n);
      sent := sent + output.Contents()[..n];
      output.Retrieve(n);
    }

    /** The send loop: it ends with the buffer empty, with the kernel full, or with the socket broken. */
    method Flush(script: seq<SendResult>) returns (stop: WriteStop)
      requires Consistent() && Settled(History()) && !closeImmediately && !thrown
      modifies this`sent, output
      ensures Consistent() && Settled(History())
      ensures var out := old(output.Contents());
              && Moved(old(sent), out, Leaving(|out|, script), sent, output.Contents())
              && (stop.WriteBroken? <==> WriteBreaks(|out|, script))
              && (stop.WriteBlocked? ==> output.Contents() != [])
              && (stop.WriteDone? ==> output.Contents() == [])
    {
      hide Coherent, Overflowed, Settled, Leaving, WriteBreaks, Moved, SharedEngine.Valid;
      MovedNothing(sent, output.Contents());
      assert script[0..] == script;
      var next := 0;
      ghost var whole := output.Contents();
      ghost var done: nat := 0;
      while |output.Contents()| != 0
        invariant next <= |script| && Consistent() && Settled(History())
        invariant Moved(old(sent), whole, done, sent, output.Contents())
        invariant done + |output.Contents()| == |whole|
        invariant done + Leaving(|whole| - done, script[next..]) == Leaving(|whole|, script)
        invariant WriteBreaks(|whole| - done, script[next..]) == WriteBreaks(|whole|, script)
        decreases |script| - next
      {
        var result := if next < |script| then script[next] else SendWouldBlock;
        WriteStep(|whole| - done, script, next);
        match result {
          case Accepted(count) =>
            next := next + 1;
            if count == 0 {
              return WriteBroken;
            }
            var n := if count <= |output.Contents()| then count else |output.Contents()|;
            MovedMore(old(sent), whole, done, sent, output.Contents(), n);
            Deliver(n);
            done := done + n;
          case SendInterrupted =>
            next := next + 1;
          case SendWouldBlock =>
            return WriteBlocked;
          case SendFailed =>
            return WriteBroken;
        }
      }
      WriteStep(|whole| - done, script, next);
      return WriteDone;
    }

    /** Writes until the buffer is empty or the kernel takes no more. */
    method HandleWritable(script: seq<SendResult>) returns (open: bool)
      requires Valid() && !thrown
      modifies this`sent, this`closeImmediately, this`socketFailed, output
      ensures Valid()
      ensures open <==> !closeImmediately
      ensures old(closeImmediately) ==>
                closeImmediately && sent == old(sent) && output.Contents() == old(output.Contents())
                && socketFailed == old(socketFailed)
      ensures !old(closeImmediately) ==>
                var out := old(output.Contents());
                && Moved(old(sent), out, Leaving(|out|, script), sent, output.Contents())
                && closeImmediately == (WriteBreaks(|out|, script) || (output.Contents() == [] && (closeAfterWrite || peerClosed)))
                && socketFailed == (old(socketFailed) || WriteBreaks(|out|, script))
    {
      hide Coherent, Overflowed, Settled, Leaving, WriteBreaks, Moved, SharedEngine.Valid;
      if !closeImmediately {
        var stop := Flush(script);
        if stop.WriteBroken? {
          closeImmediately, socketFailed := true, true;
          return false;
        }
        if stop.WriteBlocked? {
          return true;
        }
      }
      if |output.Contents()| == 0 && (closeAfterWrite || peerClosed) {
        closeImmediately := true;
      }
      return !closeImmediately;
    }

    method NotePeerClosed()
      requires Valid() && !thrown
      modifies this`peerClosed, this`closeImmediately
      ensures Valid() && peerClosed
      ensures closeImmediately == (old(closeImmediately) || output.Contents() == [])
    {
      hide Coherent, Overflowed, Settled, SharedEngine.Valid;
      peerClosed := true;
      if |output.Contents()| == 0 {
        closeImmediately := true;
      }
    }

    /** Progress: an open connection is always interested in reading or in writing. */
    method DesiredEvents() returns (interest: Interest)
      requires Valid() && !thrown
      ensures closeImmediately ==> interest == Interest(false, false, false)
      ensures !closeImmediately ==> interest.hangup && (interest.readable || interest.writable)
      ensures interest.writable <==> !closeImmediately && output.Contents() != []
      ensures interest.readable <==> !closeImmediately && !closeAfterWrite && !peerClosed
    {
      hide Coherent, Overflowed, Settled, SharedEngine.Valid;
      if closeImmediately {
        return Interest(false, false, false);
      }
      return Interest(true, !closeAfterWrite && !peerClosed, |output.Contents()| != 0);
    }

    /** The connection as a value. */
    ghost function AsView(): View
      requires input.Valid() && output.Valid()
      reads this, input, output, engine
    {
      View(History(), peerClosed, closeImmediately, socketFailed, thrown)
    }

    /** A worker's reaction to one readiness event; the connection is dropped when the result is false. */
    method HandleEvent(round: Round) returns (keep: bool)
      requires Valid() && !thrown && Fits(round)
      modifies this, input, output, engine.Repr
      ensures Valid()
      ensures RoundStep(old(AsView()), round, AsView(), keep)
    {
      hide Coherent, Overflowed, Settled, SharedEngine.Valid, Arriving, StopOf, Leaving, WriteBreaks, AfterRead, RoundStep;
      ghost var v := AsView();
      NothingToWrite(round.sends);
      if round.events.error {
        IdleRound(v, round);
        return false;
      }
      var progress := ReadStage(round);
      if !progress.Going? {
        ClosedByRead(v, round, AsView());
        return false;
      }
      keep := WriteStage(round, v);
    }

    /** The first part of a round: reads, if the event asks for them. */
    method ReadStage(round: Round) returns (progress: Progress)
      requires Valid() && !thrown && Fits(round) && !round.events.error
      modifies this, input, output, engine.Repr
      ensures Valid() && AfterRead(old(AsView()), round, AsView())
      ensures progress.Threw? <==> thrown
      ensures progress.Going? <==> !closeImmediately && !thrown
    {
      hide Coherent, Overflowed, Settled, SharedEngine.Valid, Arriving, StopOf;
      if round.events.readable || round.events.hangup {
        progress := HandleReadable(round.recvs);
      } else {
        progress := if closeImmediately then Stopped else Going;
      }
    }

    /** The rest of a round on a connection that is still open: writes, the hang-up, and re-arming; `v` is what the round began with. */
    method WriteStage(round: Round, ghost v: View) returns (keep: bool)
      requires Valid() && !thrown && !closeImmediately && !round.events.error
      requires !v.thrown && AfterRead(v, round, AsView())
      modifies this`sent, this`peerClosed, this`closeImmediately, this`socketFailed, output
      ensures Valid() && RoundStep(v, round, AsView(), keep)
    {
      hide Coherent, Overflowed, Settled, SharedEngine.Valid, Arriving, StopOf, Leaving, WriteBreaks;
      keep := true;
      if round.events.writable {
        keep := HandleWritable(round.sends);
      }
      if keep && round.events.hangup {
        NotePeerClosed();
        keep := !ShouldClose();
      }
      if keep && !ShouldClose() {
        keep := round.rearmed;
      }
      if ShouldClose() {
        keep := false;
      }
    }
  }

  /** What the reads of a round do. */
  ghost predicate AfterRead(v: View, round: Round, w: View) {
    && v.log.executed <= w.log.executed && w.log.sent == v.log.sent
    && v.log.received <= w.log.received <= v.log.received + Incoming(round)
    && (v.log.failed || v.closeImmediately || !Reads(round.events) ==> w == v)
    && (ReadThrough(v, round, w) ==>
          && w.log.received == v.log.received + Incoming(round)
          && w.peerClosed == (v.peerClosed || StopOf(round.recvs).PeerDone?)
          && w.socketFailed == (v.socketFailed || StopOf(round.recvs).ReadBroken?)
          && w.closeImmediately
             == (StopOf(round.recvs).ReadBroken? || (StopOf(round.recvs).PeerDone? && w.log.pending == [])))
    && (!ReadThrough(v, round, w) ==> w.peerClosed == v.peerClosed && w.socketFailed == v.socketFailed)
    && (!ReadThrough(v, round, w) && !v.closeImmediately && !w.log.breached ==> !w.closeImmediately)
  }

  /** An error event changes nothing; the worker drops the connection. */
  lemma IdleRound(v: View, round: Round)
    requires round.events.error
    ensures RoundStep(v, round, v, false)
  {
    hide Arriving;
  }

  /** A round that ends with its reads. */
  lemma ClosedByRead(v: View, round: Round, w: View)
    requires !round.events.error && !v.thrown && AfterRead(v, round, w) && (w.closeImmediately || w.thrown)
    requires w.thrown ==> w.log.breached
    requires v.log.breached ==> v.closeImmediately
    ensures RoundStep(v, round, w, false)
  {
    hide Arriving, Leaving, WriteBreaks, StopOf;
    NothingToWrite(round.sends);
  }

  /**
   What every reachable connection guarantees, for any stream of which it has been
   offered all bytes.  Requests: the engine calls made are those of a one-shot parse
   of the stream, or a prefix of them if a response could not be queued.  Responses:
   sent bytes followed by pending bytes are the frames of the responses due, which
   are the answers to those calls in order and then the stream's protocol error if
   it has one; after a cut-off, the next response due is the one that did not fit.
   */
  lemma {:induction false} ConnectionGuarantees(c: Connection, stream: Bytes)
    requires c.Valid() && Offered(c.History(), stream)
    ensures |c.engine.calls| == |c.engine.outcomes|
    ensures forall i :: 0 <= i < |c.engine.calls| ==> Possible(c.engine.calls[i], c.engine.outcomes[i])
    ensures c.cutOff || c.engine.calls == Parse(stream).requests
    ensures c.engine.calls <= Parse(stream).requests
    ensures var due := Due(c.engine.calls, c.engine.outcomes, Parse(stream));
            && |c.output.Contents()| <= c.outputLimit
            && c.queued <= due && c.sent + c.output.Contents() == Stream(c.queued)
            && if c.cutOff then
                 && (c.closeImmediately || c.thrown) && |c.engine.calls| <= |c.queued| + 1 && |c.queued| < |due|
                 && |c.output.Contents()| + |Frame(due[|c.queued|])| > OutputBound(c.outputLimit)
               else c.queued == due && (c.closeAfterWrite <==> Parse(stream).ending.Broken?)
    ensures Sensible(c.AsView(), c.outputLimit)
    ensures c.closeImmediately || c.thrown <==>
              c.cutOff || c.socketFailed
              || (c.output.Contents() == [] && (c.peerClosed || Parse(stream).ending.Broken?))
  {
    hide Settled, Offered, Parse, Possible, Due, Respond, ErrorResponse, Frame, SharedEngine.Valid, Overflowed, Coherent;
    var l := c.History();
    WholeStream(l, stream);
    QueuedIsDue(l, stream);
    SentAndPending(l);
    if c.cutOff {
      BreachHasCause(l, stream, OutputBound(c.outputLimit));
    }
  }

  lemma SentAndPending(l: Log)
    requires Coherent(l)
    ensures l.sent + l.pending == Stream(l.queued)
  {
    hide Calls, Answered, Stream;
  }
}
