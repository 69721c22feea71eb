/**
 What a client of the server sees: the responses it decodes from the bytes it gets,
 said in terms of its own requests and of what the shards hold, without the
 functions that compute them.
 */
module SessionLaws {
  import opened Basics
  import opened Codec
  import opened Streams
  import opened EngineSteps
  import opened SharedEngines
  import opened Connections
  import opened ConnectionRuns
  import opened Sessions
  import CacheSpec
  import CacheLaws
  import SlabModel
  import TimingWheels

  // ---- Reading a stream of responses ----

  /** All complete responses at the front of a byte stream, as a client decodes them. */
  function ClientReads(s: Bytes): seq<Response>
    decreases |s|
  {
    match DecodeResponse(s)
    case Complete(frame, length) =>
      if length == 0 || length > |s| then [] else [frame] + ClientReads(s[length..])
    case _ => []
  }

  lemma FrameFirst(r: Response, rest: Bytes)
    requires |r.value| <= CacheSpec.MAX_VALUE_LENGTH
    ensures ClientReads(Frame(r) + rest) == [r] + ClientReads(rest)
  {
    ResponseRoundTrip(r, rest);
    hide DecodeResponse, EncodeResponse;
    FrameIsEncoding(r);
    assert (Frame(r) + rest)[|Frame(r)|..] == rest;
  }

  ghost predicate AllFit(responses: seq<Response>) {
    forall i :: 0 <= i < |responses| ==> |responses[i].value| <= CacheSpec.MAX_VALUE_LENGTH
  }

  lemma {:induction false} StreamFirst(responses: seq<Response>)
    requires responses != []
    ensures Stream(responses) == Frame(responses[0]) + Stream(responses[1..])
  {
    hide Frame;
    var n := |responses| - 1;
    if n == 0 {
      assert responses[..0] == [] && responses[1..] == [];
    } else {
      StreamFirst(responses[..n]);
      assert responses[..n][1..] == responses[1..][..n - 1] && responses[..n][0] == responses[0];
      var middle, last := Stream(responses[1..][..n - 1]), Frame(responses[n]);
      assert (Frame(responses[0]) + middle) + last == Frame(responses[0]) + (middle + last);
    }
  }

  /** A client decodes from a response stream exactly the responses that were put into it. */
  lemma {:induction false} ClientReadsStream(responses: seq<Response>)
    requires AllFit(responses)
    ensures ClientReads(Stream(responses)) == responses
    decreases |responses|
  {
    hide Frame, DecodeResponse;
    if responses == [] {
      assert ClientReads([]) == [] by {
        NothingToRead();
      }
    } else {
      StreamFirst(responses);
      FrameFirst(responses[0], Stream(responses[1..]));
      assert AllFit(responses[1..]) by {
        forall i | 0 <= i < |responses[1..]| ensures |responses[1..][i].value| <= CacheSpec.MAX_VALUE_LENGTH {
          assert responses[1..][i] == responses[i + 1];
        }
      }
      ClientReadsStream(responses[1..]);
    }
  }

  lemma NothingToRead()
    ensures ClientReads([]) == []
  {
  }

  // ---- Writing a stream of requests ----

  function Requests(requests: seq<Request>): Bytes {
    if requests == [] then [] else
      match EncodeRequest(requests[0])
      case Some(frame) => frame + Requests(requests[1..])
      case None => []
  }

  /** The parser takes from a stream of encoded requests exactly those requests, and goes on behind them. */
  lemma {:induction false} ParseRequests(requests: seq<Request>, rest: Bytes)
    requires forall i :: 0 <= i < |requests| ==> Encodable(requests[i])
    ensures Parse(Requests(requests) + rest) == Prepend(requests, Parse(rest))
    decreases |requests|
  {
    if requests == [] {
      assert Requests([]) + rest == rest;
      PrependNothing(Parse(rest));
    } else {
      var r, frame := requests[0], EncodeRequest(requests[0]).value;
      var more := Requests(requests[1..]) + rest;
      assert Requests(requests) + rest == frame + more;
      RequestRoundTrip(r, more);
      ParseOne(frame + more);
      assert (frame + more)[|frame|..] == more;
      ParseRequests(requests[1..], rest);
      hide Parse, DecodeRequest, EncodeRequest, Encodable;
      PrependTwice([r], requests[1..], Parse(rest));
      assert [r] + requests[1..] == requests;
    }
  }

  // ---- The right response to a request ----

  /**
   What a client gets for a request that finds its shard in state `shard`.  A GET
   gives the stored value or nothing; a SET is refused only for an empty key, for an
   item larger than the shard, or when generations are used up; a DELETE says
   whether the key was there.  Only a GET hit carries a value.
   */
  ghost predicate Right(r: Request, shard: CacheSpec.Spec, response: Response) {
    && response.requestId == r.requestId
    && if r.key == [] then response.status == InvalidKey && response.value == []
       else
         match r.opcode
         case GetOp =>
           if r.key in shard.items then response.status == Ok && response.value == shard.items[r.key].value
           else response.status == NotFound && response.value == []
         case SetOp =>
           && response.value == []
           && response.status
              == (if |r.key| + |r.value| > shard.capacity then ItemTooLarge
                  else if |shard.written| >= 18446744073709551615 then InternalError
                  else Ok)
         case EraseOp =>
           response.value == [] && response.status == if r.key in shard.items then Ok else NotFound
  }

  lemma RespondIsRight(r: Request, shard: CacheSpec.Spec)
    requires Encodable(r) && CacheSpec.Valid(shard)
    ensures Right(r, shard, Respond(r, CacheSpec.Answer(shard, CommandOf(r))))
  {
    match r.opcode
    case GetOp => CacheLaws.GetLaw(shard, r.key);
    case SetOp => CacheLaws.SetAnswer(shard, r.key, r.value, r.ttl);
    case EraseOp => CacheLaws.EraseLaw(shard, r.key);
    hide CacheSpec.Valid, CacheSpec.After;
  }

  // ---- The shards during a session ----

  ghost predicate AllValid(shards: seq<CacheSpec.Spec>) {
    shards != [] && forall i :: 0 <= i < |shards| ==> CacheSpec.Valid(shards[i])
  }

  lemma OnKeyValid(hash: Key -> nat, shards: seq<CacheSpec.Spec>, command: CacheSpec.Command)
    requires AllValid(shards)
    ensures AllValid(OnKey(hash, shards, command)) && |OnKey(hash, shards, command)| == |shards|
  {
    hide CacheSpec.Valid, CacheSpec.After, ShardIndex;
    if !command.Tick? {
      CacheSpec.StepValid(shards[ShardIndex(hash, |shards|, command.key)], command);
    }
  }

  lemma ApplyValid(hash: Key -> nat, shards: seq<CacheSpec.Spec>, step: ShardStep)
    requires AllValid(shards)
    ensures AllValid(Apply(hash, shards, step)) && |Apply(hash, shards, step)| == |shards|
  {
    hide CacheSpec.Valid, CacheSpec.After, OnKey;
    match step
    case KeyStep(command) => OnKeyValid(hash, shards, command);
    case TickStep(i) =>
      if i < |shards| {
        CacheSpec.StepValid(shards[i], CacheSpec.Tick);
      }
  }

  lemma {:induction false} ApplyAllValid(hash: Key -> nat, shards: seq<CacheSpec.Spec>, steps: seq<ShardStep>)
    requires AllValid(shards)
    ensures AllValid(ApplyAll(hash, shards, steps)) && |ApplyAll(hash, shards, steps)| == |shards|
  {
    hide AllValid, Apply;
    if steps != [] {
      ApplyAllValid(hash, shards, steps[..|steps| - 1]);
      ApplyValid(hash, ApplyAll(hash, shards, steps[..|steps| - 1]), steps[|steps| - 1]);
    }
  }

  lemma {:induction false} FoundValid(hash: Key -> nat, start: seq<CacheSpec.Spec>, others: seq<seq<ShardStep>>,
                                      calls: seq<Request>)
    requires AllValid(start)
    ensures AllValid(FoundShards(hash, start, others, calls)) && |FoundShards(hash, start, others, calls)| == |start|
    decreases |calls|
  {
    hide AllValid, ApplyAll, OnKey;
    if calls != [] {
      var n := |calls| - 1;
      FoundValid(hash, start, others, calls[..n]);
      OnKeyValid(hash, FoundShards(hash, start, others, calls[..n]), CommandOf(calls[n]));
    }
    ApplyAllValid(hash, ServedShards(hash, start, others, calls), OthersBefore(others, |calls|));
  }

  /** The shard that call number `i` finds: the one its key's hash selects, after what came before. */
  ghost function ShardAt(hash: Key -> nat, start: seq<CacheSpec.Spec>, others: seq<seq<ShardStep>>, calls: seq<Request>, i: nat)
    : CacheSpec.Spec
    requires i < |calls|
  {
    var found := FoundShards(hash, start, others, calls[..i]);
    if found == [] then CacheSpec.Empty(0) else found[hash(calls[i].key) % |found|]
  }

  lemma {:induction false} OutcomeAt(hash: Key -> nat, start: seq<CacheSpec.Spec>, others: seq<seq<ShardStep>>,
                                     calls: seq<Request>, i: nat)
    requires AllValid(start) && i < |calls|
    ensures |ServedOutcomes(hash, start, others, calls)| == |calls|
    ensures CacheSpec.Valid(ShardAt(hash, start, others, calls, i))
    ensures ServedOutcomes(hash, start, others, calls)[i]
         == CacheSpec.Answer(ShardAt(hash, start, others, calls, i), CommandOf(calls[i]))
    decreases |calls|
  {
    hide CacheSpec.Answer, CacheSpec.Valid, AllValid, FoundShards, ShardAt, AnswerKey;
    var n := |calls| - 1;
    CountOutcomes(hash, start, others, calls[..n]);
    if i < n {
      OutcomeAt(hash, start, others, calls[..n], i);
      SameShardAt(hash, start, others, calls, i);
    } else {
      LastOutcome(hash, start, others, calls);
    }
  }

  lemma SameShardAt(hash: Key -> nat, start: seq<CacheSpec.Spec>, others: seq<seq<ShardStep>>, calls: seq<Request>, i: nat)
    requires i < |calls| - 1
    ensures ShardAt(hash, start, others, calls[..|calls| - 1], i) == ShardAt(hash, start, others, calls, i)
  {
    hide FoundShards;
    assert calls[..|calls| - 1][..i] == calls[..i];
  }

  lemma LastOutcome(hash: Key -> nat, start: seq<CacheSpec.Spec>, others: seq<seq<ShardStep>>, calls: seq<Request>)
    requires AllValid(start) && calls != []
    ensures var n := |calls| - 1;
            && CacheSpec.Valid(ShardAt(hash, start, others, calls, n))
            && AnswerKey(hash, FoundShards(hash, start, others, calls[..n]), CommandOf(calls[n]))
               == CacheSpec.Answer(ShardAt(hash, start, others, calls, n), CommandOf(calls[n]))
  {
    hide CacheSpec.Answer, CacheSpec.Valid, FoundShards, ShardIndex;
    var n := |calls| - 1;
    var found := FoundShards(hash, start, others, calls[..n]);
    FoundValid(hash, start, others, calls[..n]);
    ShardIsResidue(hash, |found|, calls[n].key);
  }

  lemma {:induction false} CountOutcomes(hash: Key -> nat, start: seq<CacheSpec.Spec>, others: seq<seq<ShardStep>>,
                                         calls: seq<Request>)
    ensures |ServedOutcomes(hash, start, others, calls)| == |calls|
  {
    hide FoundShards;
    if calls != [] {
      CountOutcomes(hash, start, others, calls[..|calls| - 1]);
    }
  }

  // ---- What a client sees ----

  lemma {:induction false} ParsedIsEncodable(s: Bytes, i: nat)
    requires i < |Parse(s).requests|
    ensures Encodable(Parse(s).requests[i])
    decreases |s|
  {
    hide Encodable;
    RequestBounds(s);
    if DecodeRequest(s).Complete? && 0 < i {
      ParsedIsEncodable(s[DecodeRequest(s).length..], i - 1);
    }
  }

  /** One answer of a session is the right one, and can be encoded. */
  lemma AnswerAt(stream: Bytes, hash: Key -> nat, start: seq<CacheSpec.Spec>, others: seq<seq<ShardStep>>,
                 calls: seq<Request>, outcomes: seq<CacheSpec.Outcome>, i: nat)
    requires AllValid(start) && i < |calls| && calls <= Parse(stream).requests
    requires outcomes == ServedOutcomes(hash, start, others, calls)
    ensures |outcomes| == |calls|
    ensures Right(calls[i], ShardAt(hash, start, others, calls, i), Respond(calls[i], outcomes[i]))
    ensures |Respond(calls[i], outcomes[i]).value| <= CacheSpec.MAX_VALUE_LENGTH
  {
    hide Parse, ShardAt, ServedOutcomes, Right, Respond, CacheSpec.Valid, AllValid, Possible, Encodable, CacheSpec.Answer;
    ParsedIsEncodable(stream, i);
    OutcomeAt(hash, start, others, calls, i);
    var shard := ShardAt(hash, start, others, calls, i);
    RespondIsRight(calls[i], shard);
    AnswerIsPossible(calls[i], shard, outcomes[i]);
    PossibleResponses(calls[i], outcomes[i]);
  }

  lemma DueFits(stream: Bytes, hash: Key -> nat, start: seq<CacheSpec.Spec>, others: seq<seq<ShardStep>>,
                calls: seq<Request>, outcomes: seq<CacheSpec.Outcome>)
    requires AllValid(start) && calls <= Parse(stream).requests && |calls| == |outcomes|
    requires outcomes == ServedOutcomes(hash, start, others, calls)
    ensures AllFit(Due(calls, outcomes, Parse(stream)))
  {
    hide Parse, ServedOutcomes, Respond, AllValid, Right;
    var due := Due(calls, outcomes, Parse(stream));
    forall i | 0 <= i < |due| ensures |due[i].value| <= CacheSpec.MAX_VALUE_LENGTH {
      if i < |calls| {
        AnswerAt(stream, hash, start, others, calls, outcomes, i);
      } else {
        ErrorResponseFits(Parse(stream).ending.requestId, Parse(stream).ending.fault);
      }
    }
  }

  lemma PrefixFits(responses: seq<Response>, n: nat)
    requires AllFit(responses) && n <= |responses|
    ensures AllFit(responses[..n])
  {
  }

  /**
   Every session of `Sessions.Replay`, from the client's end.  The responses decoded
   from the bytes sent and pending are, in order, the right ones for the requests of
   the stream in the shard states they found; then, if the stream is malformed, one
   protocol error with the id of the bad header.  All are there, unless the output
   limit cut the session off, and then all but the last at most.
   */
  lemma ClientSees(stream: Bytes, hash: Key -> nat, start: seq<CacheSpec.Spec>, others: seq<seq<ShardStep>>,
                   calls: seq<Request>, outcomes: seq<CacheSpec.Outcome>, limit: nat, sent: Bytes, pending: Bytes, cutOff: bool)
    requires AllValid(start) && CallsAre(stream, hash, start, others, calls, outcomes, cutOff)
    requires BytesAre(Due(calls, outcomes, Parse(stream)), |calls|, limit, sent, pending, cutOff)
    ensures var responses, p := ClientReads(sent + pending), Parse(stream);
            && (forall i :: 0 <= i < |calls| && i < |responses| ==>
                  Right(calls[i], ShardAt(hash, start, others, calls, i), responses[i]))
            && (if cutOff then |calls| <= |responses| + 1 && |responses| <= |calls| + 1
                else calls == p.requests && |responses| == |calls| + (if p.ending.Broken? then 1 else 0))
            && (|calls| < |responses| ==>
                  && p.ending.Broken? && responses[|calls|].requestId == p.ending.requestId
                  && responses[|calls|].status == ProtocolError && responses[|calls|].value == Ascii(RequestMessage(p.ending.fault)))
  {
    hide Parse, ServedOutcomes, Respond, AllValid, Right, ShardAt, ClientReads, BytesAre, Due, AllFit, ErrorResponse;
    var due, responses := Due(calls, outcomes, Parse(stream)), ClientReads(sent + pending);
    DueFits(stream, hash, start, others, calls, outcomes);
    BytesRead(due, |calls|, limit, sent, pending, cutOff);
    DueShape(calls, outcomes, Parse(stream));
    forall i | 0 <= i < |calls| && i < |responses|
      ensures Right(calls[i], ShardAt(hash, start, others, calls, i), responses[i])
    {
      AnswerAt(stream, hash, start, others, calls, outcomes, i);
      assert responses[i] == due[i];
    }
    if |calls| < |responses| {
      assert responses[|calls|] == due[|calls|];
      ErrorResponseIs(Parse(stream).ending.requestId, Parse(stream).ending.fault);
    }
  }

  lemma ErrorResponseIs(id: u64, fault: Fault)
    ensures var r := ErrorResponse(id, fault);
            r.requestId == id && r.status == ProtocolError && r.value == Ascii(RequestMessage(fault))
  {
  }

  lemma DueShape(calls: seq<Request>, outcomes: seq<CacheSpec.Outcome>, p: Parsed)
    requires |calls| == |outcomes|
    ensures var due := Due(calls, outcomes, p);
            && |due| == |calls| + (if calls == p.requests && p.ending.Broken? then 1 else 0)
            && (forall i :: 0 <= i < |calls| ==> due[i] == Respond(calls[i], outcomes[i]))
            && (|calls| < |due| ==> p.ending.Broken? && due[|calls|] == ErrorResponse(p.ending.requestId, p.ending.fault))
  {
    hide Respond, ErrorResponse;
  }

  /** The client decodes what was due, as far as it was queued. */
  lemma BytesRead(due: seq<Response>, calls: nat, limit: nat, sent: Bytes, pending: Bytes, cutOff: bool)
    requires AllFit(due) && BytesAre(due, calls, limit, sent, pending, cutOff)
    ensures var responses := ClientReads(sent + pending);
            && responses <= due
            && if cutOff then calls <= |responses| + 1 && |responses| < |due| else responses == due
  {
    hide ClientReads, Frame, Stream, AllFit;
    var n := |due|;
    if cutOff {
      n :| 0 <= n < |due| && calls <= n + 1 && sent + pending == Stream(due[..n])
           && |pending| + |Frame(due[n])| > OutputBound(limit);
    }
    assert due[..|due|] == due;
    PrefixFits(due, n);
    ClientReadsStream(due[..n]);
  }

  /** The error texts, and that they go out as the characters they are. */
  lemma ErrorTexts(text: string)
    requires forall i :: 0 <= i < |text| ==> text[i] < 128 as char
    ensures |Ascii(text)| == |text| && forall i :: 0 <= i < |text| ==> Ascii(text)[i] as char == text[i]
    ensures RequestMessage(BadMagic) == "invalid request magic"
    ensures RequestMessage(BadVersion) == "unsupported protocol version"
    ensures RequestMessage(BadReserved) == "request reserved field must be zero"
    ensures RequestMessage(BadOpcode) == "unknown request opcode"
    ensures RequestMessage(KeyLength) == "request key length exceeds maximum"
    ensures RequestMessage(ValueLength) == "request value length exceeds maximum"
    ensures RequestMessage(UnexpectedValue) == "GET and DELETE cannot carry a value"
    ensures RequestMessage(UnexpectedTtl) == "GET and DELETE cannot carry a TTL"
    ensures RequestMessage(TtlRange) == "request TTL exceeds supported range"
  {
  }

  // ---- Two requests on one connection ----

  /** The commands that a sequence of other threads' steps brings to shard `i` of `count`. */
  function ShardCommands(hash: Key -> nat, count: nat, i: nat, steps: seq<ShardStep>): seq<CacheSpec.Command>
    requires 0 < count
  {
    if steps == [] then [] else
      ShardCommands(hash, count, i, steps[..|steps| - 1])
      + match steps[|steps| - 1]
        case KeyStep(command) => if !command.Tick? && hash(command.key) % count == i then [command] else []
        case TickStep(j) => if j == i then [CacheSpec.Tick] else []
  }

  lemma ApplyOnShard(hash: Key -> nat, shards: seq<CacheSpec.Spec>, step: ShardStep, i: nat)
    requires i < |shards|
    ensures |Apply(hash, shards, step)| == |shards|
    ensures Apply(hash, shards, step)[i] == CacheSpec.Run(shards[i], ShardCommands(hash, |shards|, i, [step]))
  {
    if step.KeyStep? && !step.command.Tick? {
      ShardIsResidue(hash, |shards|, step.command.key);
    }
    assert [step][..0] == [];
    OneCommandRun(shards[i], if step.KeyStep? then step.command else CacheSpec.Tick);
    hide ShardIndex, CacheSpec.After;
  }

  lemma OneCommandRun(s: CacheSpec.Spec, command: CacheSpec.Command)
    ensures CacheSpec.Run(s, [command]) == CacheSpec.After(s, command) && CacheSpec.Run(s, []) == s
  {
    hide CacheSpec.After;
    assert [command][..0] == [];
  }

  /** Seen from one shard, other threads' steps are a run of the commands that reach it. */
  lemma {:induction false} OneShardRuns(hash: Key -> nat, shards: seq<CacheSpec.Spec>, steps: seq<ShardStep>, i: nat)
    requires i < |shards|
    ensures |ApplyAll(hash, shards, steps)| == |shards|
    ensures ApplyAll(hash, shards, steps)[i] == CacheSpec.Run(shards[i], ShardCommands(hash, |shards|, i, steps))
  {
    hide Apply, CacheSpec.After;
    if steps != [] {
      var n := |steps| - 1;
      OneShardRuns(hash, shards, steps[..n], i);
      var earlier := ApplyAll(hash, shards, steps[..n]);
      ApplyOnShard(hash, earlier, steps[n], i);
      assert [steps[n]][..0] == [];
      RunOneMore(shards[i], ShardCommands(hash, |shards|, i, steps[..n]), ShardCommands(hash, |shards|, i, [steps[n]]));
    }
  }

  lemma RunOneMore(s: CacheSpec.Spec, commands: seq<CacheSpec.Command>, more: seq<CacheSpec.Command>)
    requires |more| <= 1
    ensures CacheSpec.Run(s, commands + more) == CacheSpec.Run(CacheSpec.Run(s, commands), more)
  {
    hide CacheSpec.After;
    if more == [] {
      assert commands + more == commands;
    } else {
      assert (commands + more)[..|commands|] == commands && more[..0] == [];
    }
  }

  lemma NothingParsed()
    ensures Parse([]) == Parsed([], Waiting([]))
  {
  }

  /** A stream of two encoded requests is parsed into these two. */
  lemma TwoRequests(first: Request, second: Request)
    requires Encodable(first) && Encodable(second)
    ensures Parse(Requests([first, second])) == Parsed([first, second], Waiting([]))
  {
    hide Parse, Encodable, Requests;
    ParseRequests([first, second], []);
    NothingParsed();
    assert Requests([first, second]) + [] == Requests([first, second]);
  }

  /** The shard of a key when the first request finds it. */
  ghost function ShardBefore(hash: Key -> nat, start: seq<CacheSpec.Spec>, others: seq<seq<ShardStep>>, key: Key): CacheSpec.Spec
    requires start != []
  {
    var found := ApplyAll(hash, start, OthersBefore(others, 0));
    if hash(key) % |start| < |found| then found[hash(key) % |start|] else CacheSpec.Empty(0)
  }

  /** What other threads bring to the key's shard between the first request and the second. */
  ghost function Between(hash: Key -> nat, start: seq<CacheSpec.Spec>, others: seq<seq<ShardStep>>, key: Key)
    : seq<CacheSpec.Command>
    requires start != []
  {
    ShardCommands(hash, |start|, hash(key) % |start|, OthersBefore(others, 1))
  }

  lemma Residue(x: nat, n: nat)
    requires 0 < n
    ensures x % n < n
  {
  }

  /** The shard states that two requests for one key find. */
  lemma TwoShards(hash: Key -> nat, start: seq<CacheSpec.Spec>, others: seq<seq<ShardStep>>, first: Request, second: Request)
    requires start != [] && AllValid(start) && first.key == second.key
    ensures ShardAt(hash, start, others, [first, second], 0) == ShardBefore(hash, start, others, first.key)
    ensures ShardAt(hash, start, others, [first, second], 1)
         == CacheSpec.Run(CacheSpec.After(ShardBefore(hash, start, others, first.key), CommandOf(first)),
                          Between(hash, start, others, first.key))
    ensures CacheSpec.Valid(ShardBefore(hash, start, others, first.key))
  {
    hide AllValid, CacheSpec.Valid, CacheSpec.After, CacheSpec.Run, ShardIndex, ApplyAll, ShardCommands, FoundShards, ServedShards;
    var calls, i := [first, second], hash(first.key) % |start|;
    assert calls[..0] == [] && calls[..1] == [first];
    var found := ApplyAll(hash, start, OthersBefore(others, 0));
    ApplyAllValid(hash, start, OthersBefore(others, 0));
    Residue(hash(first.key), |start|);
    FirstValid(found, i);
    var served := OnKey(hash, found, CommandOf(first));
    TwoFound(hash, start, others, first);
    ServedShard(hash, found, first, i);
    OneShardRuns(hash, served, OthersBefore(others, 1), i);
  }

  lemma TwoFound(hash: Key -> nat, start: seq<CacheSpec.Spec>, others: seq<seq<ShardStep>>, first: Request)
    ensures var found := ApplyAll(hash, start, OthersBefore(others, 0));
            && FoundShards(hash, start, others, []) == found
            && FoundShards(hash, start, others, [first])
               == ApplyAll(hash, OnKey(hash, found, CommandOf(first)), OthersBefore(others, 1))
  {
    hide ApplyAll, OnKey;
    assert [first][..0] == [];
  }

  lemma ServedShard(hash: Key -> nat, found: seq<CacheSpec.Spec>, first: Request, i: nat)
    requires found != [] && i == hash(first.key) % |found|
    ensures i < |found| && |OnKey(hash, found, CommandOf(first))| == |found|
    ensures OnKey(hash, found, CommandOf(first))[i] == CacheSpec.After(found[i], CommandOf(first))
  {
    hide CacheSpec.After, ShardIndex;
    ShardIsResidue(hash, |found|, first.key);
  }

  lemma FirstValid(shards: seq<CacheSpec.Spec>, i: nat)
    requires AllValid(shards) && i < |shards|
    ensures CacheSpec.Valid(shards[i])
  {
  }

  /** Fewer ticks than the rounded-up TTL have passed exactly if they do not add up to the TTL. */
  lemma TicksInMilliseconds(n: nat, ttl: int)
    requires 0 < ttl
    ensures n < TimingWheels.Ticks(ttl) <==> n * 1000 < ttl
  {
  }

  /**
   SET, then GET, from the client's end.  The value comes back exactly if the ticks
   of its shard in between do not add up to the TTL, or there is none, and no set of
   another key evicted it; otherwise the key is not found.
   */
  lemma SetThenGet(put: Request, get: Request, hash: Key -> nat, start: seq<CacheSpec.Spec>, others: seq<seq<ShardStep>>,
                   calls: seq<Request>, outcomes: seq<CacheSpec.Outcome>, limit: nat, sent: Bytes, pending: Bytes)
    requires start != [] && AllValid(start) && Encodable(put) && Encodable(get)
    requires put.opcode == SetOp && get.opcode == GetOp && get.key == put.key && put.key != []
    requires CallsAre(Requests([put, get]), hash, start, others, calls, outcomes, false)
    requires BytesAre(Due(calls, outcomes, Parse(Requests([put, get]))), |calls|, limit, sent, pending, false)
    requires var shard := ShardBefore(hash, start, others, put.key);
             |put.key| + |put.value| <= shard.capacity && |shard.written| < 18446744073709551615
    requires CacheSpec.LeavesAlone(Between(hash, start, others, put.key), put.key)
    ensures var shard, later := ShardBefore(hash, start, others, put.key), Between(hash, start, others, put.key);
            var live := (put.ttl == 0 || CacheSpec.TickCount(later) * 1000 < put.ttl)
                        && !CacheSpec.EvictedDuring(CacheSpec.After(shard, CacheSpec.Set(put.key, put.value, put.ttl)), later, put.key);
            ClientReads(sent + pending)
            == [Response(put.requestId, Ok, []),
                if live then Response(get.requestId, Ok, put.value) else Response(get.requestId, NotFound, [])]
  {
    hide Parse, Due, BytesAre, ServedOutcomes, Requests, ClientReads, ShardAt, AllValid, ShardBefore, Between, Encodable;
    hide CacheSpec.Valid, CacheSpec.After, CacheSpec.Run, CacheSpec.Answer, CacheSpec.EvictedDuring, CacheSpec.LeavesAlone;
    var key, shard, later := put.key, ShardBefore(hash, start, others, put.key), Between(hash, start, others, put.key);
    TwoRequests(put, get);
    ClientSees(Requests([put, get]), hash, start, others, calls, outcomes, limit, sent, pending, false);
    TwoShards(hash, start, others, put, get);
    EncodableSizes(put);
    SetThenGetShard(shard, key, put.value, put.ttl, later);
    assert CommandOf(put) == CacheSpec.Set(key, put.value, put.ttl);
    var responses := ClientReads(sent + pending);
    assert responses == [responses[0], responses[1]];
  }

  lemma EncodableSizes(r: Request)
    requires Encodable(r)
    ensures |r.key| <= 250 && |r.value| <= 1048576
  {
  }

  /** The same on one shard. */
  lemma SetThenGetShard(s: CacheSpec.Spec, key: Key, value: Bytes, ttl: nat, later: seq<CacheSpec.Command>)
    requires CacheSpec.Valid(s) && CacheLaws.InRange(key, value, ttl) && |key| + |value| <= s.capacity
    requires |s.written| < 18446744073709551615 && CacheSpec.LeavesAlone(later, key)
    ensures var t := CacheSpec.After(s, CacheSpec.Set(key, value, ttl));
            var live := (ttl == 0 || CacheSpec.TickCount(later) * 1000 < ttl) && !CacheSpec.EvictedDuring(t, later, key);
            var u := CacheSpec.Run(t, later);
            (key in u.items <==> live) && (live ==> u.items[key].value == value)
  {
    CacheLaws.SetAnswer(s, key, value, ttl);
    hide CacheSpec.After, CacheSpec.Run, CacheSpec.Answer, CacheSpec.EvictedDuring, CacheSpec.LeavesAlone, CacheSpec.Valid;
    var command := CacheSpec.Set(key, value, ttl);
    var t := CacheSpec.After(s, command);
    CacheSpec.SetLivesUntilDeadline(s, key, value, ttl, later);
    CacheSpec.StepValid(s, command);
    CacheSpec.RunValid(t, later);
    CacheLaws.GetLaw(CacheSpec.Run(t, later), key);
    if ttl != 0 {
      TicksInMilliseconds(CacheSpec.TickCount(later), ttl);
    }
  }

  /** DELETE, then GET: the key is not found, unless another thread has set it in between. */
  lemma EraseThenGet(erase: Request, get: Request, hash: Key -> nat, start: seq<CacheSpec.Spec>, others: seq<seq<ShardStep>>,
                     calls: seq<Request>, outcomes: seq<CacheSpec.Outcome>, limit: nat, sent: Bytes, pending: Bytes)
    requires start != [] && AllValid(start) && Encodable(erase) && Encodable(get)
    requires erase.opcode == EraseOp && get.opcode == GetOp && get.key == erase.key && erase.key != []
    requires CallsAre(Requests([erase, get]), hash, start, others, calls, outcomes, false)
    requires BytesAre(Due(calls, outcomes, Parse(Requests([erase, get]))), |calls|, limit, sent, pending, false)
    requires CacheLaws.NotSet(Between(hash, start, others, erase.key), erase.key)
    ensures ClientReads(sent + pending)
         == [Response(erase.requestId, if erase.key in ShardBefore(hash, start, others, erase.key).items then Ok else NotFound, []),
             Response(get.requestId, NotFound, [])]
  {
    hide Parse, Due, BytesAre, ServedOutcomes, Requests, ClientReads, ShardAt, AllValid, ShardBefore, Between, Encodable;
    hide CacheSpec.Valid, CacheSpec.After, CacheSpec.Run, CacheSpec.Answer, CacheLaws.NotSet;
    var key, shard, later := erase.key, ShardBefore(hash, start, others, erase.key), Between(hash, start, others, erase.key);
    TwoRequests(erase, get);
    ClientSees(Requests([erase, get]), hash, start, others, calls, outcomes, limit, sent, pending, false);
    TwoShards(hash, start, others, erase, get);
    EncodableSizes(erase);
    CacheLaws.EraseLaw(shard, key);
    CacheLaws.AbsentThroughout(CacheSpec.After(shard, CacheSpec.Erase(key)), later, key);
    assert CommandOf(erase) == CacheSpec.Erase(key);
    var responses := ClientReads(sent + pending);
    assert responses == [responses[0], responses[1]];
  }

  // ---- The session itself ----

  lemma EmptyShardsValid(shares: seq<nat>)
    requires shares != []
    ensures AllValid(EmptyShards(shares))
  {
    forall i | 0 <= i < |shares| ensures CacheSpec.Valid(EmptyShards(shares)[i]) {
      CacheSpec.EmptyIsValid(shares[i]);
    }
  }

  /**
   The whole exchange: a session runs, and the client decodes what it gets.  Its
   responses are the right ones for the requests in the stream it offered.
   */
  method Exchange(capacity: nat, count: nat, backend: SlabModel.Backend, hash: Key -> nat, others: seq<seq<ShardStep>>,
                  limit: nat, rounds: seq<Round>)
    returns (session: Option<Session>, ghost responses: seq<Response>, ghost cutOff: bool)
    requires forall round :: round in rounds ==> Fits(round)
    ensures session.None? <==> count == 0
    ensures session.Some? ==>
              var s := session.value;
              && s.handled <= |rounds|
              && var p, start := Parse(Offer(rounds[..s.handled])), EmptyShards(s.shares);
              && EvenShares(s.shares, capacity, count) && s.calls <= p.requests
              && (forall i :: 0 <= i < |s.calls| && i < |responses| ==>
                    Right(s.calls[i], ShardAt(hash, start, others, s.calls, i), responses[i]))
              && (!cutOff ==> s.calls == p.requests && |responses| == |s.calls| + (if p.ending.Broken? then 1 else 0))
  {
    hide Fits, Parse, Right, ShardAt, ClientReads, BytesAre, Due, Justified, AllValid;
    ghost var sent;
    session, sent, cutOff := Sessions.Replay(capacity, count, backend, hash, others, limit, rounds);
    responses := [];
    if session.Some? {
      var s := session.value;
      EmptyShardsValid(s.shares);
      responses := ClientReads(sent + s.pending);
      ClientSees(Offer(rounds[..s.handled]), hash, EmptyShards(s.shares), others, s.calls, s.outcomes, limit, sent, s.pending,
                 cutOff);
    }
  }
}
