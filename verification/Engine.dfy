/**
 The engine as one thread sees it: shards are cache objects that share nothing,
 a key is served by the shard its hash selects, and engine-wide operations walk
 all shards in order.
 */
module Engines {
  import opened Basics
  import opened CacheSpec
  import opened Caches
  import opened EngineSteps
  import SlabModel

  class CacheEngine {
    const capacity: nat
    const hash: Key -> nat
    const shards: seq<Cache>

    ghost const shares: seq<nat>
    ghost var models: seq<Spec>
    ghost const Repr: set<object>

    ghost predicate Wired() {
      && this in Repr && shards != [] && |shares| == |shards|
      && (forall i :: 0 <= i < |shards| ==> shards[i].capacity == shares[i])
      && (forall i :: 0 <= i < |shards| ==>
            shards[i] in Repr && shards[i] in shards[i].Repr && shards[i].Repr <= Repr && this !in shards[i].Repr)
      && (forall i, j :: 0 <= i < j < |shards| ==> shards[i].Repr !! shards[j].Repr)
    }

    ghost predicate Valid()
      reads Repr
    {
      && Wired()
      && |models| == |shards|
      && (forall i :: 0 <= i < |shards| ==> shards[i].Valid() && shards[i].model == models[i])
      && Sum(shares) == capacity
    }

    /** Takes ownership of separate shards; MakeEngine builds them. */
    constructor (capacity: nat, hash: Key -> nat, shards: seq<Cache>, ghost shares: seq<nat>,
                 ghost models: seq<Spec>, ghost owned: set<object>)
      requires shards != [] && |models| == |shares| == |shards|
      requires forall i :: 0 <= i < |shards| ==>
                 && shards[i].Valid() && shards[i].model == models[i] && shards[i].capacity == shares[i]
                 && shards[i] in shards[i].Repr && shards[i].Repr <= owned
      requires forall i, j :: 0 <= i < j < |shards| ==> shards[i].Repr !! shards[j].Repr
      requires Sum(shares) == capacity
      ensures Valid() && this.capacity == capacity && this.hash == hash && this.shards == shards
      ensures this.models == models && Repr == owned + {this}
    {
      hide Cache.Valid, Sum;
      this.capacity, this.hash, this.shards := capacity, hash, shards;
      this.shares, this.models := shares, models;
      Repr := owned + {this};
    }

    /** The engine as the step system sees it. */
    ghost function Layout(): Setup {
      Setup(hash, shares)
    }

    /** A state of the step system whose shards are this engine's. */
    ghost predicate Shows(s: State)
      reads this
    {
      Sized(Layout(), s) && s.shards == models
    }

    /** A key operation changes the key's shard as the reference cache would, and no other: one step of the system. */
    method Call(command: Command) returns (outcome: Outcome)
      requires Valid() && !command.Tick?
      modifies Repr
      ensures Valid()
      ensures var i := hash(command.key) % |shards|;
              && outcome == Answer(old(models)[i], command)
              && models == old(models)[i := After(old(models)[i], command)]
      ensures forall s :: old(Shows(s)) ==> Next(Layout(), s, KeyCall(command)).shards == models
    {
      hide Cache.Valid, After, Answer, Sum, ShardIndex;
      var i := ShardIndex(hash, |shards|, command.key);
      ShardIsResidue(hash, |shards|, command.key);
      outcome := Caches.Execute(shards[i], command);
      models := models[i := shards[i].model];
    }

    /** One shard's tick, as the engine-wide tick performs it. */
    method TickShard(i: nat)
      requires Valid() && i < |shards|
      modifies Repr
      ensures Valid()
      ensures |old(models)| == |shards| && models == old(models)[i := After(old(models)[i], CacheSpec.Tick)]
    {
      hide Cache.Valid, After, Sum;
      shards[i].Tick();
      models := models[i := shards[i].model];
    }

    /** Every shard ticks once; undisturbed, that is a run of the step system. */
    method Tick()
      requires Valid()
      modifies Repr
      ensures Valid()
      ensures |models| == |old(models)|
      ensures forall i :: 0 <= i < |models| ==> models[i] == After(old(models)[i], CacheSpec.Tick)
      ensures forall s :: old(Shows(s)) && s.ticking.None? ==> DoAll(Layout(), s, TickSteps(|shards|)).shards == models
    {
      hide Cache.Valid, After, Sum, DoAll;
      for n := 0 to |shards|
        invariant Valid() && |models| == |old(models)|
        invariant forall i :: 0 <= i < n ==> models[i] == After(old(models)[i], CacheSpec.Tick)
        invariant forall i :: n <= i < |models| ==> models[i] == old(models)[i]
      {
        TickShard(n);
      }
      forall s | old(Shows(s)) && s.ticking.None?
        ensures DoAll(Layout(), s, TickSteps(|shards|)).shards == models
      {
        QuietTick(Layout(), s);
      }
    }

    /** With nothing else running, a statistics call returns the true total, and usage stays within capacity. */
    method Read(statistic: Statistic) returns (total: nat)
      requires Valid()
      ensures total == Sum(Readings(statistic, models))
      ensures statistic.MemoryUsage? ==> total <= capacity
      ensures forall s, reader :: Shows(s) ==>
                var t := DoAll(Layout(), s, ReadSteps(reader, statistic, |shards|));
                reader in t.readers && t.readers[reader].total == total
    {
      hide Cache.Valid, Reading, DoAll;
      total := 0;
      for n := 0 to |shards|
        invariant total == Sum(Readings(statistic, models)[..n])
        invariant statistic.MemoryUsage? ==> total <= Sum(shares[..n])
      {
        var report := shards[n].Summarize();
        ReportReadings(models[n]);
        SumNext(Readings(statistic, models), n);
        SumNext(shares, n);
        ShardWithinShare(shards[n]);
        total := total + match statistic
          case MemoryUsage => report.memoryUsage
          case Hits => report.hits
          case Misses => report.misses
          case Evictions => report.evictions
          case Expired => report.expired;
      }
      assert Readings(statistic, models)[..|shards|] == Readings(statistic, models);
      assert shares[..|shards|] == shares;
      forall s, reader | Shows(s)
        ensures var t := DoAll(Layout(), s, ReadSteps(reader, statistic, |shards|));
                reader in t.readers && t.readers[reader].total == total
      {
        QuietRead(Layout(), s, reader, statistic);
      }
    }
  }

  lemma ReportReadings(s: Spec)
    ensures var r := ReportOf(s);
            && Reading(MemoryUsage, s) == r.memoryUsage && Reading(Hits, s) == r.hits && Reading(Misses, s) == r.misses
            && Reading(Evictions, s) == r.evictions && Reading(Expired, s) == r.expired
  {
  }

  lemma ShardWithinShare(cache: Cache)
    requires cache.Valid()
    ensures Reading(MemoryUsage, cache.model) <= cache.capacity
  {
  }

  /** The engine's constructor: None when it throws because there are no shards. */
  method MakeEngine(capacity: nat, count: nat, backend: SlabModel.Backend, hash: Key -> nat)
    returns (engine: Option<CacheEngine>)
    ensures engine.None? <==> count == 0
    ensures engine.Some? ==>
              && engine.value.Valid() && fresh(engine.value.Repr)
              && engine.value.capacity == capacity && engine.value.hash == hash && |engine.value.shards| == count
              && (forall i :: 0 <= i < count ==> engine.value.models[i] == Empty(engine.value.shards[i].capacity))
              && (forall i, j :: 0 <= i <= j < count ==>
                    engine.value.shards[j].capacity <= engine.value.shards[i].capacity <= engine.value.shards[j].capacity + 1)
  {
    hide Cache.Valid, Sum;
    var shares := SplitCapacity(capacity, count);
    if shares.None? {
      return None;
    }
    var shards: seq<Cache> := [];
    ghost var models: seq<Spec>, owned: set<object> := [], {};
    for n := 0 to count
      invariant |shards| == |models| == n && fresh(owned)
      invariant forall i :: 0 <= i < n ==>
                  && shards[i].Valid() && shards[i].model == models[i] == Empty(shares.value[i])
                  && shards[i].capacity == shares.value[i]
                  && shards[i] in shards[i].Repr && shards[i].Repr <= owned
      invariant forall i, j :: 0 <= i < j < n ==> shards[i].Repr !! shards[j].Repr
    {
      var shard := new Cache(shares.value[n], backend);
      FreshShard(shard);
      shards, models, owned := shards + [shard], models + [Empty(shares.value[n])], owned + shard.Repr;
    }
    var made := new CacheEngine(capacity, hash, shards, shares.value, models, owned);
    return Some(made);
  }

  lemma FreshShard(cache: Cache)
    requires cache.Valid()
    ensures cache in cache.Repr && cache.model.capacity == cache.capacity
  {
  }
}
