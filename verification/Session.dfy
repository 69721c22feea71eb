/**
 A whole session, end to end: one connection over a sharded engine, from their
 constructors on, with an arbitrary kernel on one side and arbitrary other threads
 on the other.  The bytes that come out are determined by the bytes that go in.
 */
module Sessions {
  import opened Basics
  import opened Codec
  import opened Streams
  import opened EngineSteps
  import opened SharedEngines
  import opened Connections
  import opened ConnectionRuns
  import CacheSpec
  import Caches
  import Engines
  import SlabModel

  /** What can be observed of a session: the rounds handled before it ended, if it did, and what was done in them. */
  datatype Session = Session(
    handled: nat,
    kept: bool,
    shares: seq<nat>,
    calls: seq<Request>,
    outcomes: seq<CacheSpec.Outcome>,
    pending: Bytes)

  ghost function EmptyShards(shares: seq<nat>): seq<CacheSpec.Spec> {
    seq(|shares|, i requires 0 <= i < |shares| => CacheSpec.Empty(shares[i]))
  }

  /** The total capacity is split evenly and completely. */
  ghost predicate EvenShares(shares: seq<nat>, capacity: nat, count: nat) {
    && |shares| == count && Sum(shares) == capacity
    && forall i, j :: 0 <= i <= j < count ==> shares[j] <= shares[i] <= shares[j] + 1
  }

  /** The calls are those of the stream, and the outcomes those of the sharded reference cache. */
  ghost predicate CallsAre(stream: Bytes, hash: Key -> nat, start: seq<CacheSpec.Spec>, others: seq<seq<ShardStep>>,
                           calls: seq<Request>, outcomes: seq<CacheSpec.Outcome>, cutOff: bool) {
    && calls <= Parse(stream).requests
    && (!cutOff ==> calls == Parse(stream).requests)
    && outcomes == ServedOutcomes(hash, start, others, calls)
    && |calls| == |outcomes|
  }

  /** The bytes sent and pending are the responses due, or all of them up to one that does not fit; at most one call lacks its own. */
  ghost predicate BytesAre(due: seq<Response>, calls: nat, limit: nat, sent: Bytes, pending: Bytes, cutOff: bool) {
    && |pending| <= limit
    && if cutOff then
         exists n: nat ::
           && n < |due| && calls <= n + 1 && sent + pending == Stream(due[..n])
           && |pending| + |Frame(due[n])| > OutputBound(limit)
       else sent + pending == Stream(due)
  }

  method Connect(capacity: nat, count: nat, backend: SlabModel.Backend, hash: Key -> nat, others: seq<seq<ShardStep>>,
                 limit: nat)
    returns (connection: Option<Connection>, shares: seq<nat>)
    ensures connection.None? <==> count == 0
    ensures connection.Some? ==>
              var c := connection.value;
              && c.Valid() && fresh(c) && fresh(c.input) && fresh(c.output) && fresh(c.engine.Repr)
              && c.received == [] && c.sent == [] && !c.thrown && !c.closeImmediately && !c.peerClosed && !c.socketFailed
              && c.outputLimit == limit && EvenShares(shares, capacity, count)
              && c.engine.start == EmptyShards(shares) && c.engine.others == others && c.engine.engine.hash == hash
  {
    hide Engines.CacheEngine.Valid, Connection.Valid, Sum;
    shares := [];
    var made := Engines.MakeEngine(capacity, count, backend, hash);
    if made.None? {
      return None, [];
    }
    var engine := made.value;
    shares := ShareList(engine);
    EngineShards(engine);
    assert engine.models == EmptyShards(shares);
    var shared := new SharedEngine(engine, others);
    var c := new Connection(shared, limit);
    connection := Some(c);
  }

  method ShareList(engine: Engines.CacheEngine) returns (shares: seq<nat>)
    requires engine.Valid()
    ensures |shares| == |engine.shards| && shares == engine.shares && Sum(shares) == engine.capacity
    ensures forall i :: 0 <= i < |shares| ==> shares[i] == engine.shards[i].capacity
  {
    hide Caches.Cache.Valid, Sum;
    shares := [];
    for i := 0 to |engine.shards|
      invariant |shares| == i && forall j :: 0 <= j < i ==> shares[j] == engine.shards[j].capacity
    {
      shares := shares + [engine.shards[i].capacity];
    }
    assert shares == engine.shares;
  }

  /** Between rounds: the connection has been through `rounds`. */
  ghost predicate InSession(c: Connection, rounds: seq<Round>, kept: bool)
    reads c, c.input, c.output, c.engine, c.engine.Repr
  {
    c.Valid() && ConnectionRuns.After(c.AsView(), c.outputLimit, rounds, kept)
  }

  lemma ViewIsSensible(c: Connection)
    requires c.Valid()
    ensures Sensible(c.AsView(), c.outputLimit)
  {
    hide Coherent, Settled, Overflowed, SharedEngine.Valid;
  }

  lemma SessionBegins(c: Connection)
    requires c.Valid() && c.received == [] && !c.closeImmediately && !c.thrown && !c.peerClosed && !c.socketFailed
    ensures InSession(c, [], true)
  {
    hide Coherent, Settled, Overflowed, SharedEngine.Valid, Sensible;
    ViewIsSensible(c);
    Begins(c.AsView(), c.outputLimit);
  }

  method ServeRound(c: Connection, round: Round, ghost rounds: seq<Round>) returns (keep: bool)
    requires InSession(c, rounds, true) && Fits(round)
    modifies c, c.input, c.output, c.engine.Repr
    ensures InSession(c, rounds + [round], keep)
  {
    hide Connection.Valid, Sensible, RoundStep, Offered, Offer, PeerSeenGone, AllRearmed, SocketBroke;
    BuffersAreValid(c);
    ghost var before := c.AsView();
    keep := c.HandleEvent(round);
    BuffersAreValid(c);
    ViewIsSensible(c);
    Steps(before, c.outputLimit, rounds, round, c.AsView(), keep);
  }

  lemma BuffersAreValid(c: Connection)
    requires c.Valid()
    ensures c.input.Valid() && c.output.Valid()
  {
    hide Coherent, Settled, Overflowed, SharedEngine.Valid;
  }

  /** What the invariants say at the end of a session. */
  lemma SessionEnds(c: Connection, rounds: seq<Round>, kept: bool)
    requires InSession(c, rounds, kept)
    ensures CallsAre(Offer(rounds), c.engine.engine.hash, c.engine.start, c.engine.others, c.engine.calls, c.engine.outcomes,
                     c.cutOff)
    ensures |c.engine.calls| == |c.engine.outcomes| && c.output.Valid()
    ensures BytesAre(Due(c.engine.calls, c.engine.outcomes, Parse(Offer(rounds))), |c.engine.calls|, c.outputLimit, c.sent,
                     c.output.Contents(), c.cutOff)
    ensures Justified(rounds, kept, |c.sent|, |c.output.Contents()|, c.cutOff)
  {
    BuffersAreValid(c);
    AfterIsJustified(c.AsView(), c.outputLimit, rounds, kept);
    hide Connection.Valid, Sensible, Offered, Parse, Due, Justified, Offer, PeerSeenGone, AllRearmed, SocketBroke;
    hide CallsAre, BytesAre;
    ServedCalls(c, Offer(rounds));
    ServedBytes(c, Offer(rounds));
  }

  lemma ServedCalls(c: Connection, stream: Bytes)
    requires c.Valid() && c.input.Valid() && c.output.Valid() && Offered(c.History(), stream)
    ensures CallsAre(stream, c.engine.engine.hash, c.engine.start, c.engine.others, c.engine.calls, c.engine.outcomes, c.cutOff)
  {
    ConnectionGuarantees(c, stream);
    hide Coherent, Settled, Overflowed, Offered, Parse, Due, Possible, Engines.CacheEngine.Valid, ServedOutcomes, ServedShards;
  }

  lemma ServedBytes(c: Connection, stream: Bytes)
    requires c.Valid() && c.input.Valid() && c.output.Valid() && Offered(c.History(), stream)
    ensures |c.engine.calls| == |c.engine.outcomes|
    ensures BytesAre(Due(c.engine.calls, c.engine.outcomes, Parse(stream)), |c.engine.calls|, c.outputLimit, c.sent,
                     c.output.Contents(), c.cutOff)
  {
    hide Connection.Valid, Offered, Parse, Due, Frame, Stream, Possible, Sensible;
    ConnectionGuarantees(c, stream);
    var due, n := Due(c.engine.calls, c.engine.outcomes, Parse(stream)), |c.queued|;
    if c.cutOff {
      assert c.queued == due[..n];
    }
  }

  method ReadPending(c: Connection) returns (pending: Bytes)
    requires c.Valid()
    ensures c.output.Valid() && pending == c.output.Contents()
  {
    hide Coherent, Settled, Overflowed, SharedEngine.Valid;
    pending := c.output.Contents();
  }

  /**
   End to end.  A connection is served over a sharded engine, round by round, until
   it is dropped.  However the kernel cuts the stream, whenever it blocks, and
   whatever other threads do to the shards in between: the engine is called for
   exactly the requests of the stream, in order; each is answered as the sharded
   reference cache would; and the bytes sent and pending are the frames of those
   answers, with the protocol error last, short of a response that exceeds the
   output limit.  The connection is dropped only for a cause that the kernel gave or
   the limit, or when it has written everything and has nothing more to expect; and
   then it is dropped.
   */
  method Replay(capacity: nat, count: nat, backend: SlabModel.Backend, hash: Key -> nat, others: seq<seq<ShardStep>>,
                limit: nat, rounds: seq<Round>)
    returns (session: Option<Session>, ghost sent: Bytes, ghost cutOff: bool)
    requires forall round :: round in rounds ==> Fits(round)
    ensures session.None? <==> count == 0
    ensures session.Some? ==>
              var s := session.value;
              && s.handled <= |rounds| && (s.kept ==> s.handled == |rounds|)
              && EvenShares(s.shares, capacity, count)
              && var stream := Offer(rounds[..s.handled]);
              && CallsAre(stream, hash, EmptyShards(s.shares), others, s.calls, s.outcomes, cutOff)
              && BytesAre(Due(s.calls, s.outcomes, Parse(stream)), |s.calls|, limit, sent, s.pending, cutOff)
              && Justified(rounds[..s.handled], s.kept, |sent|, |s.pending|, cutOff)
  {
    hide Connection.Valid, ConnectionRuns.After, Offer, CallsAre, BytesAre, EvenShares, Fits, Justified;
    var connection, shares := Connect(capacity, count, backend, hash, others, limit);
    if connection.None? {
      return None, [], false;
    }
    var c := connection.value;
    var n, kept := 0, true;
    SessionBegins(c);
    assert rounds[..0] == [];
    while kept && n < |rounds|
      invariant n <= |rounds| && fresh(c) && fresh(c.input) && fresh(c.output) && fresh(c.engine.Repr)
      invariant InSession(c, rounds[..n], kept)
    {
      assert rounds[n] in rounds && rounds[..n + 1] == rounds[..n] + [rounds[n]];
      kept := ServeRound(c, rounds[n], rounds[..n]);
      n := n + 1;
    }
    SessionEnds(c, rounds[..n], kept);
    var pending := ReadPending(c);
    sent, cutOff := c.sent, c.cutOff;
    session := Some(Session(n, kept, shares, c.engine.calls, c.engine.outcomes, pending));
  }
}
