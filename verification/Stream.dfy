/**
 A connection's history as a value: the bytes received, the requests executed,
 the responses queued and the bytes sent.  `Parse` is the one-shot parser that
 sees the whole stream at once; the connection is shown to agree with it
 however the stream is cut into pieces.
 */
module Streams {
  import opened Basics
  import opened Codec
  import CacheSpec

  // ---- The one-shot parser ----

  datatype Ending = Waiting(rest: Bytes) | Broken(requestId: u64, fault: Fault)

  datatype Parsed = Parsed(requests: seq<Request>, ending: Ending)

  function Parse(s: Bytes): Parsed
    decreases |s|
  {
    match DecodeRequest(s)
    case Incomplete => Parsed([], Waiting(s))
    case Error(requestId, fault) => Parsed([], Broken(requestId, fault))
    case Complete(frame, length) =>
      if length == 0 || length > |s| then Parsed([], Waiting(s)) else
        Prepend([frame], Parse(s[length..]))
  }

  function Prepend(requests: seq<Request>, p: Parsed): Parsed {
    Parsed(requests + p.requests, p.ending)
  }

  lemma PrependTwice(a: seq<Request>, b: seq<Request>, p: Parsed)
    ensures Prepend(a, Prepend(b, p)) == Prepend(a + b, p)
  {
    assert a + (b + p.requests) == (a + b) + p.requests;
  }

  lemma PrependNothing(p: Parsed)
    ensures Prepend([], p) == p
  {
    assert [] + p.requests == p.requests;
  }

  /** Parsing can stop anywhere and resume with the leftover: no request is lost, repeated or read differently. */
  lemma {:induction false} ParseAppend(s: Bytes, t: Bytes)
    ensures Parse(s).ending.Waiting? ==>
              Parse(s + t) == Prepend(Parse(s).requests, Parse(Parse(s).ending.rest + t))
    ensures Parse(s).ending.Broken? ==> Parse(s + t) == Parse(s)
    decreases |s|
  {
    hide DecodeRequest, Encodable;
    RequestBounds(s);
    match DecodeRequest(s)
    case Incomplete =>
      PrependNothing(Parse(s + t));
    case Error(requestId, fault) =>
      RequestVerdictIsStable(s, t);
    case Complete(frame, length) =>
      RequestVerdictIsStable(s, t);
      assert (s + t)[length..] == s[length..] + t;
      ParseAppend(s[length..], t);
      var tail := Parse(s[length..]);
      if tail.ending.Waiting? {
        PrependTwice([frame], tail.requests, Parse(tail.ending.rest + t));
      }
  }

  lemma {:induction false} ParseOne(s: Bytes)
    requires DecodeRequest(s).Complete?
    ensures var d := DecodeRequest(s);
            0 < d.length <= |s| && Parse(s) == Prepend([d.frame], Parse(s[d.length..]))
  {
    hide Encodable;
    RequestBounds(s);
  }

  /** The leftover of a waiting parse is itself a waiting parse, shorter than one maximum frame. */
  lemma {:induction false} WaitingRest(s: Bytes)
    requires Parse(s).ending.Waiting?
    ensures Parse(Parse(s).ending.rest) == Parsed([], Parse(s).ending)
    ensures |Parse(s).ending.rest| < MAX_REQUEST_FRAME
    decreases |s|
  {
    hide Encodable;
    RequestBounds(s);
    if DecodeRequest(s).Complete? {
      WaitingRest(s[DecodeRequest(s).length..]);
    }
  }

  // ---- Executing a request against an engine shared with other connections ----

  function CommandOf(r: Request): CacheSpec.Command {
    match r.opcode
    case GetOp => CacheSpec.Get(r.key)
    case SetOp => CacheSpec.Set(r.key, r.value, r.ttl)
    case EraseOp => CacheSpec.Erase(r.key)
  }

  /**
   What a call can return when other threads may have changed the shard in any
   way beforehand: the answer of some cache state that satisfies the invariant.
   */
  ghost predicate Possible(r: Request, outcome: CacheSpec.Outcome) {
    exists s: CacheSpec.Spec :: CacheSpec.Valid(s) && outcome == CacheSpec.Answer(s, CommandOf(r))
  }

  function Respond(r: Request, outcome: CacheSpec.Outcome): Response {
    match outcome
    case Returned(status, output) =>
      Response(r.requestId, ToWireStatus(status),
               if r.opcode.GetOp? && status == CacheSpec.Ok && output.Some? then output.value else [])
    case GenerationExhausted => Response(r.requestId, InternalError, [])
  }

  /**
   The cache's own size and TTL errors never reach the wire, because the decoder
   has rejected such requests already, and every response is small enough to be
   encoded.
   */
  lemma PossibleResponses(r: Request, outcome: CacheSpec.Outcome)
    requires Encodable(r) && Possible(r, outcome)
    ensures |Respond(r, outcome).value| <= CacheSpec.MAX_VALUE_LENGTH
    ensures Respond(r, outcome).status !in {KeyTooLarge, ValueTooLarge, InvalidTtl, ProtocolError}
  {
    var s: CacheSpec.Spec :| CacheSpec.Valid(s) && outcome == CacheSpec.Answer(s, CommandOf(r));
    hide CacheSpec.Listed, CacheSpec.Total;
  }

  lemma AnswerIsPossible(r: Request, s: CacheSpec.Spec, outcome: CacheSpec.Outcome)
    requires CacheSpec.Valid(s) && outcome == CacheSpec.Answer(s, CommandOf(r))
    ensures Possible(r, outcome)
  {
  }

  function ErrorResponse(requestId: u64, fault: Fault): Response {
    Response(requestId, ProtocolError, Ascii(RequestMessage(fault)))
  }

  lemma ErrorResponseFits(requestId: u64, fault: Fault)
    ensures |ErrorResponse(requestId, fault).value| <= 64
  {
  }

  // ---- The response stream ----

  function Frame(r: Response): (b: Bytes)
    ensures |b| >= RESPONSE_HEADER_SIZE
  {
    if |r.value| <= CacheSpec.MAX_VALUE_LENGTH then
      (ResponseHeaderFields(StatusByte(r.status), r.requestId, |r.value|, []);
       EncodeResponse(r).value)
    else seq(20, _ => 0)
  }

  function Stream(responses: seq<Response>): Bytes {
    if responses == [] then [] else Stream(responses[..|responses| - 1]) + Frame(responses[|responses| - 1])
  }

  lemma {:induction false} StreamMore(responses: seq<Response>, r: Response)
    ensures Stream(responses + [r]) == Stream(responses) + Frame(r)
  {
    assert (responses + [r])[..|responses|] == responses;
  }

  /** A frame, read as a client reads it, tells a request's outcome: its id, the status, and the value of a hit and of nothing else. */
  ghost predicate Conveys(frame: Bytes, r: Request, outcome: CacheSpec.Outcome) {
    var d := DecodeResponse(frame);
    && d.Complete? && d.length == |frame| && d.frame.requestId == r.requestId
    && match outcome
       case GenerationExhausted => d.frame.status == InternalError && d.frame.value == []
       case Returned(status, output) =>
         && (d.frame.status == Ok <==> status == CacheSpec.Ok)
         && (d.frame.status == NotFound <==> status == CacheSpec.NotFound)
         && (d.frame.status == InvalidKey <==> status == CacheSpec.InvalidKey)
         && (d.frame.status == KeyTooLarge <==> status == CacheSpec.KeyTooLarge)
         && (d.frame.status == ValueTooLarge <==> status == CacheSpec.ValueTooLarge)
         && (d.frame.status == ItemTooLarge <==> status == CacheSpec.ItemTooLarge)
         && (d.frame.status == InvalidTtl <==> status == CacheSpec.InvalidTtl)
         && (if r.opcode.GetOp? && status == CacheSpec.Ok then output == Some(d.frame.value) else d.frame.value == [])
  }

  /** A hit comes with its value. */
  lemma HitHasValue(r: Request, outcome: CacheSpec.Outcome)
    requires Possible(r, outcome) && r.opcode.GetOp? && outcome.Returned? && outcome.status == CacheSpec.Ok
    ensures outcome.output.Some?
  {
    var s: CacheSpec.Spec :| CacheSpec.Valid(s) && outcome == CacheSpec.Answer(s, CommandOf(r));
    hide CacheSpec.Valid;
  }

  lemma FrameReads(r: Response)
    requires |r.value| <= CacheSpec.MAX_VALUE_LENGTH
    ensures DecodeResponse(Frame(r)) == Complete(r, |Frame(r)|)
  {
    ResponseRoundTrip(r, []);
    hide DecodeResponse, EncodeResponse;
    FrameIsEncoding(r);
    assert Frame(r) + [] == Frame(r);
  }

  /** The response to a request conveys its outcome. */
  lemma ResponseConveys(r: Request, outcome: CacheSpec.Outcome)
    requires Encodable(r) && Possible(r, outcome)
    ensures Conveys(Frame(Respond(r, outcome)), r, outcome)
  {
    hide DecodeResponse, Frame, Possible, Encodable;
    PossibleResponses(r, outcome);
    FrameReads(Respond(r, outcome));
    if r.opcode.GetOp? && outcome.Returned? && outcome.status == CacheSpec.Ok {
      HitHasValue(r, outcome);
    }
  }

  /** A connection's history. */
  datatype Log = Log(
    received: Bytes,
    unparsed: Bytes,
    executed: seq<Request>,
    outcomes: seq<CacheSpec.Outcome>,
    queued: seq<Response>,
    sent: Bytes,
    pending: Bytes,
    failed: bool,
    breached: bool)

  /**
   The calls made are those of the one-shot parse of everything received: all of
   them, and its protocol error, unless the output limit cut the connection off,
   when they are a prefix.
   */
  ghost predicate Calls(l: Log) {
    if l.breached then !l.failed && l.executed <= Parse(l.received).requests
    else if l.failed then
      && Parse(l.received).ending.Broken? && Parse(l.received).requests == l.executed
    else Parse(l.received) == Prepend(l.executed, Parse(l.unparsed))
  }

  /** One response per executed request, in order, with its id; then at most one protocol error. */
  ghost predicate Answered(l: Log) {
    var n := |l.queued| - if l.failed then 1 else 0;
    && |l.outcomes| == |l.executed|
    && (n == |l.executed| || (l.breached && n + 1 == |l.executed|))
    && 0 <= n
    && (forall i :: 0 <= i < |l.executed| ==> Encodable(l.executed[i]) && Possible(l.executed[i], l.outcomes[i]))
    && (forall i :: 0 <= i < n ==> l.queued[i] == Respond(l.executed[i], l.outcomes[i]))
    && (l.failed ==>
          var ending := Parse(l.received).ending;
          ending.Broken? && l.queued[n] == ErrorResponse(ending.requestId, ending.fault))
  }

  ghost predicate Delivered(l: Log) {
    l.sent + l.pending == Stream(l.queued)
  }

  ghost predicate Coherent(l: Log) {
    Calls(l) && Answered(l) && Delivered(l)
  }

  lemma EmptyCoherent()
    ensures Coherent(Log([], [], [], [], [], [], [], false, false))
    ensures Settled(Log([], [], [], [], [], [], [], false, false))
  {
    PrependNothing(Parse([]));
  }

  /** Bytes arrive: whatever their number, the account stays right. */
  lemma ReceiveCoherent(l: Log, bytes: Bytes)
    requires Coherent(l) && !l.failed && !l.breached && Parse(l.unparsed) == Parsed([], Waiting(l.unparsed))
    ensures Coherent(l.(received := l.received + bytes, unparsed := l.unparsed + bytes))
  {
    hide Possible, Respond, Encodable, Calls, Stream, Parse;
    ReceiveCalls(l, bytes);
  }

  lemma ReceiveCalls(l: Log, bytes: Bytes)
    requires Calls(l) && !l.failed && !l.breached && Parse(l.unparsed) == Parsed([], Waiting(l.unparsed))
    ensures Calls(l.(received := l.received + bytes, unparsed := l.unparsed + bytes))
  {
    hide Parse;
    ParseAppend(l.received, bytes);
    assert l.executed + [] == l.executed;
    assert Parse(l.received).ending == Waiting(l.unparsed) && Parse(l.received).requests == l.executed;
  }

  lemma CallsMore(whole: Parsed, executed: seq<Request>, frame: Request, rest: Parsed)
    requires whole == Prepend(executed, Prepend([frame], rest))
    ensures whole == Prepend(executed + [frame], rest)
    ensures executed + [frame] <= whole.requests
  {
    PrependTwice(executed, [frame], rest);
  }

  lemma AnsweredMore(l: Log, frame: Request, outcome: CacheSpec.Outcome, unparsed: Bytes, pending: Bytes)
    requires Answered(l) && !l.failed && !l.breached && Encodable(frame) && Possible(frame, outcome)
    ensures var executed := l.(unparsed := unparsed, executed := l.executed + [frame], outcomes := l.outcomes + [outcome]);
            && Answered(executed.(queued := l.queued + [Respond(frame, outcome)], pending := pending))
            && Answered(executed.(breached := true))
  {
    hide Possible, Respond, Encodable, Parse;
  }

  lemma DeliveredMore(l: Log, r: Response)
    requires Delivered(l)
    ensures l.sent + (l.pending + Frame(r)) == Stream(l.queued + [r])
  {
    hide Frame, Stream;
    StreamMore(l.queued, r);
    assert l.sent + (l.pending + Frame(r)) == l.sent + l.pending + Frame(r);
  }

  /** One complete request is decoded, executed and answered. */
  lemma ExecuteCoherent(l: Log, outcome: CacheSpec.Outcome)
    requires Coherent(l) && !l.failed && !l.breached && DecodeRequest(l.unparsed).Complete?
    requires Possible(DecodeRequest(l.unparsed).frame, outcome)
    ensures 0 < DecodeRequest(l.unparsed).length <= |l.unparsed|
    ensures Coherent(Executed(l, outcome))
    ensures Coherent(Refused(l, outcome))
  {
    hide DecodeRequest, Possible, Respond, Encodable, Parse, Answered, Frame, Stream;
    var d := DecodeRequest(l.unparsed);
    RequestBounds(l.unparsed);
    ParseOne(l.unparsed);
    var rest := l.unparsed[d.length..];
    CallsMore(Parse(l.received), l.executed, d.frame, Parse(rest));
    AnsweredMore(l, d.frame, outcome, rest, l.pending + Frame(Respond(d.frame, outcome)));
    DeliveredMore(l, Respond(d.frame, outcome));
  }

  /** The request was executed and its response queued. */
  ghost function Executed(l: Log, outcome: CacheSpec.Outcome): Log
    requires DecodeRequest(l.unparsed).Complete? && DecodeRequest(l.unparsed).length <= |l.unparsed|
  {
    var d := DecodeRequest(l.unparsed);
    l.(unparsed := l.unparsed[d.length..],
       executed := l.executed + [d.frame],
       outcomes := l.outcomes + [outcome],
       queued := l.queued + [Respond(d.frame, outcome)],
       pending := l.pending + Frame(Respond(d.frame, outcome)))
  }

  /** The request was executed, but its response did not fit the output limit. */
  ghost function Refused(l: Log, outcome: CacheSpec.Outcome): Log
    requires DecodeRequest(l.unparsed).Complete? && DecodeRequest(l.unparsed).length <= |l.unparsed|
  {
    var d := DecodeRequest(l.unparsed);
    l.(unparsed := l.unparsed[d.length..],
       executed := l.executed + [d.frame],
       outcomes := l.outcomes + [outcome],
       breached := true)
  }

  /** A malformed header is answered with one protocol error, or not at all when it does not fit the limit. */
  lemma FailCoherent(l: Log)
    requires Coherent(l) && !l.failed && !l.breached && DecodeRequest(l.unparsed).Error?
    ensures var d := DecodeRequest(l.unparsed);
            var r := ErrorResponse(d.requestId, d.fault);
            && Coherent(l.(unparsed := [], queued := l.queued + [r], pending := l.pending + Frame(r), failed := true))
            && Coherent(l.(unparsed := [], breached := true))
  {
    hide Possible, Respond, Encodable, Answered, Frame, Stream, ErrorResponse;
    var d := DecodeRequest(l.unparsed);
    var r := ErrorResponse(d.requestId, d.fault);
    assert Parse(l.unparsed) == Parsed([], Broken(d.requestId, d.fault));
    hide DecodeRequest, Parse;
    assert l.executed + [] == l.executed;
    AnsweredFailure(l, d.requestId, d.fault, l.pending + Frame(r));
    DeliveredMore(l, r);
  }

  lemma AnsweredFailure(l: Log, requestId: u64, fault: Fault, pending: Bytes)
    requires Answered(l) && !l.failed && !l.breached && Parse(l.received).ending == Broken(requestId, fault)
    ensures Answered(l.(unparsed := [], queued := l.queued + [ErrorResponse(requestId, fault)], pending := pending,
                        failed := true))
    ensures Answered(l.(unparsed := [], breached := true))
  {
    hide Possible, Respond, Encodable, Parse, ErrorResponse;
  }

  /**
   The response that did not fit when the output limit cut the connection off: the
   answer to the last request executed, or the protocol error after it.
   */
  ghost predicate Overflowed(l: Log, limit: nat) {
    var n := |l.queued|;
    if n < |l.executed| == |l.outcomes|
    then |l.pending| + |Frame(Respond(l.executed[n], l.outcomes[n]))| > limit
    else
      var ending := Parse(l.received).ending;
      && ending.Broken? && l.executed == Parse(l.received).requests
      && |l.pending| + |Frame(ErrorResponse(ending.requestId, ending.fault))| > limit
  }

  lemma RefusedOverflows(l: Log, outcome: CacheSpec.Outcome, limit: nat)
    requires Coherent(l) && !l.failed && !l.breached && DecodeRequest(l.unparsed).Complete?
    requires DecodeRequest(l.unparsed).length <= |l.unparsed|
    requires |l.pending| + |Frame(Respond(DecodeRequest(l.unparsed).frame, outcome))| > limit
    ensures Overflowed(Refused(l, outcome), limit)
  {
    hide DecodeRequest, Possible, Respond, Encodable, Parse, Frame, Stream;
  }

  lemma FailOverflows(l: Log, limit: nat)
    requires Coherent(l) && !l.failed && !l.breached && DecodeRequest(l.unparsed).Error?
    requires var d := DecodeRequest(l.unparsed);
             |l.pending| + |Frame(ErrorResponse(d.requestId, d.fault))| > limit
    ensures Overflowed(l.(unparsed := [], breached := true), limit)
  {
    hide DecodeRequest, Possible, Respond, Encodable, Frame, Stream, ErrorResponse;
    assert l.executed + [] == l.executed;
  }

  /** Bytes leave: what was pending becomes sent. */
  lemma SendCoherent(l: Log, n: nat)
    requires Coherent(l) && n <= |l.pending|
    ensures Coherent(l.(sent := l.sent + l.pending[..n], pending := l.pending[n..]))
  {
    hide Possible, Respond, Encodable, Parse, Stream;
    assert l.sent + l.pending[..n] + l.pending[n..] == l.sent + l.pending;
  }

  // ---- What the history says about any two runs ----

  /** Between calls, everything that can be parsed has been. */
  ghost predicate Settled(l: Log) {
    !l.failed && !l.breached ==> Parse(l.unparsed) == Parsed([], Waiting(l.unparsed))
  }

  /** The calls of an uncut connection, and its error if any, are exactly those of the one-shot parse. */
  lemma AgreesWithOneShotParse(l: Log)
    requires Coherent(l) && Settled(l) && !l.breached
    ensures l.executed == Parse(l.received).requests
    ensures l.failed <==> Parse(l.received).ending.Broken?
    ensures !l.failed ==> Parse(l.received).ending == Waiting(l.unparsed)
  {
    hide Answered, Delivered;
    assert l.executed + [] == l.executed;
  }

  /** The connection has been offered the whole `stream`, and has read on as long as it was not closing. */
  ghost predicate Offered(l: Log, stream: Bytes) {
    l.received <= stream && (l.failed || l.breached || l.received == stream)
  }

  /**
   However `recv` cut the stream up, and although a connection stops reading at an
   error: its calls and its error are those of parsing the WHOLE stream at once, and
   if the output limit cut it off, its calls are a prefix of them.
   */
  lemma {:induction false} WholeStream(l: Log, stream: Bytes)
    requires Coherent(l) && Settled(l) && Offered(l, stream)
    ensures !l.breached ==>
              && l.executed == Parse(stream).requests
              && (l.failed <==> Parse(stream).ending.Broken?)
              && (!l.failed ==> Parse(stream).ending == Waiting(l.unparsed))
    ensures l.breached ==> l.executed <= Parse(stream).requests
    ensures Parse(l.received).ending.Broken? ==> Parse(stream) == Parse(l.received)
  {
    hide Answered, Delivered;
    var rest := stream[|l.received|..];
    assert stream == l.received + rest;
    ParseAppend(l.received, rest);
    if !l.breached {
      hide Parse, Calls;
      AgreesWithOneShotParse(l);
    }
  }

  // ---- The responses a stream calls for ----

  function Responses(calls: seq<Request>, outcomes: seq<CacheSpec.Outcome>): seq<Response>
    requires |calls| == |outcomes|
  {
    seq(|calls|, i requires 0 <= i < |calls| => Respond(calls[i], outcomes[i]))
  }

  /** One response per call, in order, and the protocol error if all requests were served and the stream is malformed. */
  function Due(calls: seq<Request>, outcomes: seq<CacheSpec.Outcome>, p: Parsed): seq<Response>
    requires |calls| == |outcomes|
  {
    Responses(calls, outcomes)
    + if calls == p.requests && p.ending.Broken? then [ErrorResponse(p.ending.requestId, p.ending.fault)] else []
  }

  /** The queue, taken apart: answers in order, then the error of what was received. */
  lemma AnsweredInOrder(l: Log)
    requires Answered(l) && !(l.failed && l.breached)
    ensures |l.executed| == |l.outcomes|
    ensures forall i :: 0 <= i < |l.executed| ==> Possible(l.executed[i], l.outcomes[i])
    ensures !l.failed && !l.breached ==> l.queued == Responses(l.executed, l.outcomes)
    ensures l.failed ==>
              && Parse(l.received).ending.Broken?
              && l.queued
                 == Responses(l.executed, l.outcomes)
                    + [ErrorResponse(Parse(l.received).ending.requestId, Parse(l.received).ending.fault)]
    ensures l.breached ==> l.queued <= Responses(l.executed, l.outcomes) && |l.executed| <= |l.queued| + 1
  {
    hide Parse, Possible, Encodable, Respond, ErrorResponse;
  }

  lemma BreachedHasNotFailed(l: Log)
    requires Coherent(l)
    ensures !(l.breached && l.failed) && Answered(l)
  {
    hide Answered, Delivered;
  }

  lemma DueWith(calls: seq<Request>, outcomes: seq<CacheSpec.Outcome>, p: Parsed)
    requires |calls| == |outcomes| && calls == p.requests
    ensures Due(calls, outcomes, p)
         == if p.ending.Broken? then Responses(calls, outcomes) + [ErrorResponse(p.ending.requestId, p.ending.fault)]
            else Responses(calls, outcomes)
  {
    hide Respond, ErrorResponse;
  }

  /** What has been queued is what is due: all of it, or, after a breach, all but the response that did not fit. */
  lemma {:induction false} QueuedIsDue(l: Log, stream: Bytes)
    requires Coherent(l) && Settled(l) && Offered(l, stream)
    ensures |l.executed| == |l.outcomes|
    ensures !l.breached ==> l.queued == Due(l.executed, l.outcomes, Parse(stream))
    ensures l.breached ==> l.queued <= Responses(l.executed, l.outcomes) && |l.executed| <= |l.queued| + 1
    ensures forall i :: 0 <= i < |l.executed| ==> Possible(l.executed[i], l.outcomes[i])
  {
    hide Coherent, Settled, Offered, Parse, Possible, Answered, Due, Responses, ErrorResponse;
    WholeStream(l, stream);
    BreachedHasNotFailed(l);
    AnsweredInOrder(l);
    if !l.breached {
      DueWith(l.executed, l.outcomes, Parse(stream));
    }
  }

  lemma DuePrefix(calls: seq<Request>, outcomes: seq<CacheSpec.Outcome>, p: Parsed, queued: seq<Response>)
    requires |calls| == |outcomes| && queued <= Responses(calls, outcomes)
    ensures queued <= Due(calls, outcomes, p)
    ensures |queued| < |calls| ==>
              |queued| < |Due(calls, outcomes, p)|
              && Due(calls, outcomes, p)[|queued|] == Respond(calls[|queued|], outcomes[|queued|])
    ensures |queued| == |calls| && calls == p.requests && p.ending.Broken? ==>
              |queued| < |Due(calls, outcomes, p)|
              && Due(calls, outcomes, p)[|queued|] == ErrorResponse(p.ending.requestId, p.ending.fault)
  {
    hide Respond, ErrorResponse;
  }

  /** After a breach, the next response due is the one that did not fit. */
  lemma {:induction false} BreachHasCause(l: Log, stream: Bytes, limit: nat)
    requires Coherent(l) && Settled(l) && Offered(l, stream) && l.breached && Overflowed(l, limit)
    ensures |l.executed| == |l.outcomes|
    ensures var due, n := Due(l.executed, l.outcomes, Parse(stream)), |l.queued|;
            n < |due| && l.queued <= due && |l.pending| + |Frame(due[n])| > limit
  {
    hide Coherent, Settled, Offered, Parse, Possible, Due, ErrorResponse, Respond, Frame;
    WholeStream(l, stream);
    QueuedIsDue(l, stream);
    DuePrefix(l.executed, l.outcomes, Parse(stream), l.queued);
  }

  /**
   Chunking independence.  Two connections that were offered the same stream, cut
   up in any two ways and against any two engines, made the same calls and met the
   same protocol error; of two that were cut off by their output limits, one made a
   prefix of the other's calls.
   */
  lemma ChunkingIndependence(a: Log, b: Log, stream: Bytes)
    requires Coherent(a) && Settled(a) && Offered(a, stream)
    requires Coherent(b) && Settled(b) && Offered(b, stream)
    ensures !a.breached && !b.breached ==>
              && a.executed == b.executed && a.failed == b.failed
              && (a.failed ==> a.queued != [] && b.queued != [] && a.queued[|a.queued| - 1] == b.queued[|b.queued| - 1])
    ensures a.breached && !b.breached ==> a.executed <= b.executed
    ensures a.breached && b.breached ==> a.executed <= b.executed || b.executed <= a.executed
  {
    WholeStream(a, stream);
    WholeStream(b, stream);
    QueuedIsDue(a, stream);
    QueuedIsDue(b, stream);
    hide Coherent, Settled, Parse, Respond, ErrorResponse, Possible;
  }

  // ---- When processing may stop ----

  lemma IncompleteSettles(l: Log)
    requires DecodeRequest(l.unparsed) == Incomplete
    ensures Settled(l)
  {
  }

  lemma EmptySettles(l: Log)
    requires l.unparsed == []
    ensures Settled(l)
  {
  }

  lemma BrokenSettles(l: Log)
    requires l.failed || l.breached
    ensures Settled(l)
  {
  }

  lemma SentSettles(l: Log, n: nat)
    requires Settled(l) && n <= |l.pending|
    ensures Settled(l.(sent := l.sent + l.pending[..n], pending := l.pending[n..]))
  {
  }

  /** The input buffer never holds a whole frame between reads, so the guard on its size cannot fire. */
  lemma UnparsedIsShort(l: Log)
    requires Settled(l) && !l.failed && !l.breached
    ensures Parse(l.unparsed) == Parsed([], Waiting(l.unparsed))
    ensures |l.unparsed| < MAX_REQUEST_FRAME
  {
    WaitingRest(l.unparsed);
  }

  lemma FrameIsEncoding(r: Response)
    requires |r.value| <= CacheSpec.MAX_VALUE_LENGTH
    ensures EncodeResponse(r) == Some(Frame(r))
  {
  }
}
