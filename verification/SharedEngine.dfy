/**
 The engine as one connection meets it.  Between two calls of the connection other
 threads may perform any number of atomic shard steps: key operations of other
 connections and ticks of single shards.  `others` says which, and is arbitrary.
 */
module SharedEngines {
  import opened Basics
  import opened CacheSpec
  import opened EngineSteps
  import opened Engines
  import Caches
  import Codec
  import Streams

  /** One atomic step of another thread. */
  datatype ShardStep = KeyStep(command: Command) | TickStep(shard: nat)

  // ---- The sharded reference ----

  function OnKey(hash: Key -> nat, shards: seq<Spec>, command: Command): seq<Spec> {
    if shards == [] || command.Tick? then shards else
      var i := ShardIndex(hash, |shards|, command.key);
      shards[i := After(shards[i], command)]
  }

  function Apply(hash: Key -> nat, shards: seq<Spec>, step: ShardStep): seq<Spec> {
    match step
    case KeyStep(command) => OnKey(hash, shards, command)
    case TickStep(i) => if i < |shards| then shards[i := After(shards[i], CacheSpec.Tick)] else shards
  }

  function ApplyAll(hash: Key -> nat, shards: seq<Spec>, steps: seq<ShardStep>): seq<Spec> {
    if steps == [] then shards else Apply(hash, ApplyAll(hash, shards, steps[..|steps| - 1]), steps[|steps| - 1])
  }

  /** What other threads do before call number `n`. */
  function OthersBefore(others: seq<seq<ShardStep>>, n: nat): seq<ShardStep> {
    if n < |others| then others[n] else []
  }

  /** The shards after a sequence of requests, with the other threads' steps in between. */
  function ServedShards(hash: Key -> nat, start: seq<Spec>, others: seq<seq<ShardStep>>, calls: seq<Codec.Request>): seq<Spec>
    decreases |calls|, 0
  {
    if calls == [] then start else
      var n := |calls| - 1;
      OnKey(hash, FoundShards(hash, start, others, calls[..n]), Streams.CommandOf(calls[n]))
  }

  /** The shards that the call after `calls` finds. */
  function FoundShards(hash: Key -> nat, start: seq<Spec>, others: seq<seq<ShardStep>>, calls: seq<Codec.Request>): seq<Spec>
    decreases |calls|, 1
  {
    ApplyAll(hash, ServedShards(hash, start, others, calls), OthersBefore(others, |calls|))
  }

  /** What the sharded reference cache answers to those requests. */
  function ServedOutcomes(hash: Key -> nat, start: seq<Spec>, others: seq<seq<ShardStep>>, calls: seq<Codec.Request>)
    : seq<Outcome>
  {
    if calls == [] then [] else
      var n := |calls| - 1;
      ServedOutcomes(hash, start, others, calls[..n])
      + [AnswerKey(hash, FoundShards(hash, start, others, calls[..n]), Streams.CommandOf(calls[n]))]
  }

  function AnswerKey(hash: Key -> nat, shards: seq<Spec>, command: Command): Outcome {
    if shards == [] || command.Tick? then Returned(NotFound, None)
    else Answer(shards[ShardIndex(hash, |shards|, command.key)], command)
  }

  lemma {:induction false} ServedMore(hash: Key -> nat, start: seq<Spec>, others: seq<seq<ShardStep>>,
                                      calls: seq<Codec.Request>, call: Codec.Request)
    ensures var found, command := FoundShards(hash, start, others, calls), Streams.CommandOf(call);
            && ServedShards(hash, start, others, calls + [call]) == OnKey(hash, found, command)
            && ServedOutcomes(hash, start, others, calls + [call])
               == ServedOutcomes(hash, start, others, calls) + [AnswerKey(hash, found, command)]
  {
    assert (calls + [call])[..|calls|] == calls;
  }

  lemma {:induction false} FoundIs(hash: Key -> nat, start: seq<Spec>, others: seq<seq<ShardStep>>, calls: seq<Codec.Request>)
    ensures FoundShards(hash, start, others, calls)
         == ApplyAll(hash, ServedShards(hash, start, others, calls), OthersBefore(others, |calls|))
  {
  }

  lemma {:induction false} ApplyMore(hash: Key -> nat, shards: seq<Spec>, steps: seq<ShardStep>, n: nat)
    requires n < |steps|
    ensures ApplyAll(hash, shards, steps[..n + 1]) == Apply(hash, ApplyAll(hash, shards, steps[..n]), steps[n])
  {
    assert steps[..n + 1][..n] == steps[..n];
  }

  // ---- The engine object, shared ----

  class SharedEngine {
    const engine: CacheEngine
    const others: seq<seq<ShardStep>>

    /** The calls this connection has made on the engine, and what they returned. */
    var calls: seq<Codec.Request>
    var outcomes: seq<Outcome>

    ghost const start: seq<Spec>
    ghost const Repr: set<object>

    ghost predicate Valid()
      reads Repr
    {
      && this in Repr && engine.Repr <= Repr && this !in engine.Repr && engine in engine.Repr
      && engine.Valid()
      && engine.models == ServedShards(engine.hash, start, others, calls)
      && outcomes == ServedOutcomes(engine.hash, start, others, calls)
    }

    constructor (engine: CacheEngine, others: seq<seq<ShardStep>>)
      requires engine.Valid()
      ensures Valid() && Repr == engine.Repr + {this}
      ensures this.engine == engine && this.others == others && start == engine.models && calls == [] && outcomes == []
    {
      hide Caches.Cache.Valid, Sum;
      this.engine, this.others := engine, others;
      calls, outcomes := [], [];
      start := engine.models;
      Repr := engine.Repr + {this};
    }

    /** Other threads run. */
    method Interfere(steps: seq<ShardStep>)
      requires this !in engine.Repr && engine.Valid()
      modifies engine.Repr
      ensures engine.Valid() && engine.models == ApplyAll(engine.hash, old(engine.models), steps)
    {
      hide CacheEngine.Valid, After, Answer, Apply;
      assert steps[..0] == [];
      for n := 0 to |steps|
        invariant engine.Valid() && engine.models == ApplyAll(engine.hash, old(engine.models), steps[..n])
      {
        ApplyMore(engine.hash, old(engine.models), steps, n);
        Perform(steps[n]);
      }
      assert steps[..|steps|] == steps;
    }

    method Perform(step: ShardStep)
      requires this !in engine.Repr && engine.Valid()
      modifies engine.Repr
      ensures engine.Valid() && engine.models == Apply(engine.hash, old(engine.models), step)
    {
      hide CacheEngine.Valid, OnKey, AnswerKey, After, CacheSpec.Valid;
      EngineShards(engine);
      match step
      case KeyStep(command) =>
        if command.Tick? {
          TickIsNoKey(engine.hash, engine.models, command);
        } else {
          var outcome := OnKeyNow(command);
        }
      case TickStep(i) =>
        if i < |engine.shards| {
          engine.TickShard(i);
        }
    }

    /** A key operation on the shards as they are. */
    method OnKeyNow(command: Command) returns (outcome: Outcome)
      requires this !in engine.Repr && engine.Valid() && !command.Tick?
      modifies engine.Repr
      ensures engine.Valid()
      ensures outcome == AnswerKey(engine.hash, old(engine.models), command)
      ensures engine.models == OnKey(engine.hash, old(engine.models), command)
    {
      hide CacheEngine.Valid, CacheEngine.Shows, Next, ShardIndex, After, Answer, CacheSpec.Valid;
      EngineShards(engine);
      ShardIsResidue(engine.hash, |engine.shards|, command.key);
      outcome := engine.Call(command);
    }

    /** One request of the connection: exactly one call, answered by the state it finds. */
    method Call(request: Codec.Request) returns (outcome: Outcome)
      requires Valid()
      modifies Repr
      ensures Valid()
      ensures calls == old(calls) + [request] && outcomes == old(outcomes) + [outcome]
      ensures Streams.Possible(request, outcome)
    {
      hide CacheEngine.Valid, Streams.Possible, ApplyAll, ServedShards, FoundShards, ServedOutcomes, OnKey, AnswerKey;
      Interfere(OthersBefore(others, |calls|));
      FoundIs(engine.hash, start, others, calls);
      ServedMore(engine.hash, start, others, calls, request);
      outcome := CallNow(request);
      calls, outcomes := calls + [request], outcomes + [outcome];
    }

    /** The call itself, on the shards as they are. */
    method CallNow(request: Codec.Request) returns (outcome: Outcome)
      requires this !in engine.Repr && engine.Valid()
      modifies engine.Repr
      ensures engine.Valid() && Streams.Possible(request, outcome)
      ensures outcome == AnswerKey(engine.hash, old(engine.models), Streams.CommandOf(request))
      ensures engine.models == OnKey(engine.hash, old(engine.models), Streams.CommandOf(request))
    {
      hide CacheEngine.Valid, OnKey, AnswerKey, Streams.Possible, CacheSpec.Valid;
      EngineShards(engine);
      KeyAnswerIsPossible(engine.hash, engine.models, request);
      outcome := OnKeyNow(Streams.CommandOf(request));
    }
  }

  lemma TickIsNoKey(hash: Key -> nat, shards: seq<Spec>, command: Command)
    requires command.Tick?
    ensures OnKey(hash, shards, command) == shards
  {
  }

  lemma KeyAnswerIsPossible(hash: Key -> nat, shards: seq<Spec>, request: Codec.Request)
    requires shards != [] && forall i :: 0 <= i < |shards| ==> CacheSpec.Valid(shards[i])
    ensures Streams.Possible(request, AnswerKey(hash, shards, Streams.CommandOf(request)))
  {
    hide CacheSpec.Valid, Answer, Streams.Possible, ShardIndex;
    var i := ShardIndex(hash, |shards|, request.key);
    Streams.AnswerIsPossible(request, shards[i], AnswerKey(hash, shards, Streams.CommandOf(request)));
  }

  lemma EngineShards(engine: CacheEngine)
    requires engine.Valid()
    ensures |engine.models| == |engine.shards| > 0
    ensures forall i :: 0 <= i < |engine.models| ==> CacheSpec.Valid(engine.models[i])
  {
    hide Caches.Cache.Stands, CacheSpec.Valid, Sum;
    forall i | 0 <= i < |engine.models| ensures CacheSpec.Valid(engine.models[i]) {
      assert engine.shards[i].Valid();
    }
  }
}
