/**
 The sharded engine under concurrency.  Each shard call is one atomic step under
 that shard's mutex; engine-wide ticks and statistics visit the shards one at a
 time, with any other steps in between.
 */
module EngineSteps {
  import opened Basics
  import opened CacheSpec

  // ---- Sums over shards ----

  function Sum(s: seq<nat>): nat {
    if s == [] then 0 else Sum(s[..|s| - 1]) + s[|s| - 1]
  }

  lemma {:induction false} SumMore(s: seq<nat>, x: nat)
    ensures Sum(s + [x]) == Sum(s) + x
  {
    assert (s + [x])[..|s|] == s;
  }

  lemma SumNext(s: seq<nat>, n: nat)
    requires n < |s|
    ensures Sum(s[..n + 1]) == Sum(s[..n]) + s[n]
  {
    assert s[..n + 1] == s[..n] + [s[n]];
    SumMore(s[..n], s[n]);
  }

  lemma {:induction false} SumOrder(a: seq<nat>, b: seq<nat>)
    requires |a| == |b| && forall i :: 0 <= i < |a| ==> a[i] <= b[i]
    ensures Sum(a) <= Sum(b)
  {
    if a != [] {
      SumOrder(a[..|a| - 1], b[..|b| - 1]);
    }
  }

  lemma NoShares()
    ensures Sum([]) == 0
  {
  }

  lemma OneShareMore(base: nat, index: nat)
    ensures base * (index + 1) == base * index + base
  {
  }

  /**
   The constructor's split of the total capacity: every byte is given to some
   shard, shares differ by at most one byte, and the larger shares come first.
   None when there are no shards, which the constructor refuses.
   */
  method SplitCapacity(total: nat, count: nat) returns (shares: Option<seq<nat>>)
    ensures shares.None? <==> count == 0
    ensures shares.Some? ==>
              && |shares.value| == count && Sum(shares.value) == total
              && (forall i, j :: 0 <= i <= j < count ==> shares.value[j] <= shares.value[i] <= shares.value[j] + 1)
  {
    if count == 0 {
      return None;
    }
    hide Sum;
    var base, remainder := total / count, total % count;
    assert Sum([]) == 0 by {
      NoShares();
    }
    var capacities: seq<nat> := [];
    assert total == base * count + remainder;
    for index := 0 to count
      invariant |capacities| == index
      invariant forall i :: 0 <= i < index ==> capacities[i] == base + if i < remainder then 1 else 0
      invariant Sum(capacities) == base * index + if index < remainder then index else remainder
    {
      var share := base + if index < remainder then 1 else 0;
      SumMore(capacities, share);
      OneShareMore(base, index);
      capacities := capacities + [share];
    }
    return Some(capacities);
  }

  // ---- The system ----

  /** Which of `count` shards serves a key. */
  function ShardIndex(hash: Key -> nat, count: nat, key: Key): (i: nat)
    requires 0 < count
    ensures i < count
  {
    hash(key) % count
  }

  /** It is the hash modulo the number of shards, so every shard serves its own residue class. */
  lemma ShardIsResidue(hash: Key -> nat, count: nat, key: Key)
    requires 0 < count
    ensures var i := ShardIndex(hash, count, key);
            i == hash(key) % count && i < count && hash(key) == hash(key) / count * count + i
  {
  }

  /** A hash function and one capacity per shard. */
  datatype Setup = Setup(hash: Key -> nat, capacities: seq<nat>) {
    function ShardFor(key: Key): nat
      requires capacities != []
    {
      ShardIndex(hash, |capacities|, key)
    }
  }

  datatype Statistic = MemoryUsage | Hits | Misses | Evictions | Expired

  function Reading(statistic: Statistic, s: Spec): nat {
    match statistic
    case MemoryUsage => Total(ChargeBytes, s.mru, s.items)
    case Hits => s.hits
    case Misses => s.misses
    case Evictions => s.evictions
    case Expired => s.expired
  }

  function Readings(statistic: Statistic, shards: seq<Spec>): seq<nat> {
    seq(|shards|, i requires 0 <= i < |shards| => Reading(statistic, shards[i]))
  }

  /** A statistics call in progress; `start` remembers what the shards held when it began. */
  datatype Reader = Reader(statistic: Statistic, next: nat, total: nat, start: seq<nat>)

  /** `ticking` is how far the one ticker has got, `rounds` how many engine ticks it has finished. */
  datatype State = State(
    shards: seq<Spec>,
    commands: seq<seq<Command>>,
    ticking: Option<nat>,
    rounds: nat,
    readers: map<nat, Reader>)

  datatype Step =
    | KeyCall(command: Command)
    | TickBegin
    | TickShard
    | TickEnd
    | ReadBegin(reader: nat, statistic: Statistic)
    | ReadShard(reader: nat)

  ghost predicate Init(setup: Setup, s: State) {
    && s.shards == seq(|setup.capacities|, i requires 0 <= i < |setup.capacities| => Empty(setup.capacities[i]))
    && s.commands == seq(|setup.capacities|, _ => [])
    && s.ticking == None && s.rounds == 0 && s.readers == map[]
  }

  predicate Enabled(setup: Setup, s: State, step: Step) {
    match step
    case KeyCall(command) => !command.Tick?
    case TickBegin => s.ticking.None?
    case TickShard => s.ticking.Some? && s.ticking.value < |s.shards|
    case TickEnd => s.ticking == Some(|s.shards|)
    case ReadBegin(_, _) => true
    case ReadShard(reader) => reader in s.readers && s.readers[reader].next < |s.shards|
  }

  function OnShard(s: State, i: nat, command: Command): State
    requires i < |s.shards| && i < |s.commands|
  {
    s.(shards := s.shards[i := After(s.shards[i], command)],
       commands := s.commands[i := s.commands[i] + [command]])
  }

  function Next(setup: Setup, s: State, step: Step): State
    requires setup.capacities != [] && |s.shards| == |s.commands| == |setup.capacities| && Enabled(setup, s, step)
  {
    match step
    case KeyCall(command) => OnShard(s, setup.ShardFor(command.key), command)
    case TickBegin => s.(ticking := Some(0))
    case TickShard => OnShard(s, s.ticking.value, CacheSpec.Tick).(ticking := Some(s.ticking.value + 1))
    case TickEnd => s.(ticking := None, rounds := s.rounds + 1)
    case ReadBegin(reader, statistic) =>
      s.(readers := s.readers[reader := Reader(statistic, 0, 0, Readings(statistic, s.shards))])
    case ReadShard(reader) =>
      var r := s.readers[reader];
      s.(readers := s.readers[reader := r.(next := r.next + 1, total := r.total + Reading(r.statistic, s.shards[r.next]))])
  }

  // ---- The invariant ----

  /** Each shard is a sequential cache that has seen exactly the commands sent to it. */
  ghost predicate Sequential(setup: Setup, s: State) {
    && |s.shards| == |s.commands| == |setup.capacities|
    && forall i :: 0 <= i < |s.shards| ==>
         s.shards[i] == Run(Empty(setup.capacities[i]), s.commands[i])
  }

  /** A key is stored only in its hash shard. */
  ghost predicate Placed(setup: Setup, shards: seq<Spec>)
    requires setup.capacities != []
  {
    forall i, k :: 0 <= i < |shards| && k in shards[i].items ==> setup.ShardFor(k) == i
  }

  /** Shards the ticker has passed are one tick ahead of the others. */
  ghost predicate Clocks(s: State) {
    && (s.ticking.Some? ==> s.ticking.value <= |s.shards|)
    && forall i :: 0 <= i < |s.shards| ==>
         s.shards[i].now == s.rounds + if s.ticking.Some? && i < s.ticking.value then 1 else 0
  }

  ghost predicate Sound(setup: Setup, shards: seq<Spec>) {
    && |shards| == |setup.capacities|
    && forall i :: 0 <= i < |shards| ==> CacheSpec.Valid(shards[i]) && shards[i].capacity == setup.capacities[i]
  }

  /** A reader has added up something between what its shards held at the start and what they hold now. */
  ghost predicate ReaderOk(setup: Setup, shards: seq<Spec>, r: Reader) {
    && r.next <= |shards| == |setup.capacities| == |r.start|
    && (r.statistic.MemoryUsage? ==> r.total <= Sum(setup.capacities[..r.next]))
    && (!r.statistic.MemoryUsage? ==>
          && (forall i :: 0 <= i < |shards| ==> r.start[i] <= Reading(r.statistic, shards[i]))
          && Sum(r.start[..r.next]) <= r.total <= Sum(Readings(r.statistic, shards)[..r.next]))
  }

  ghost predicate Inv(setup: Setup, s: State) {
    && setup.capacities != []
    && Sequential(setup, s)
    && Sound(setup, s.shards)
    && Placed(setup, s.shards)
    && Clocks(s)
    && forall id :: id in s.readers ==> ReaderOk(setup, s.shards, s.readers[id])
  }

  // ---- Each step keeps it ----

  lemma CountersGrow(statistic: Statistic, s: Spec, command: Command)
    requires !statistic.MemoryUsage?
    ensures Reading(statistic, s) <= Reading(statistic, After(s, command))
    ensures After(s, command).capacity == s.capacity
  {
    hide Keep, Without, Survivors, Restrict;
  }

  lemma NoForeignKeys(s: Spec, command: Command, k: Key)
    requires k in After(s, command).items
    ensures k in s.items || (command.Set? && command.key == k)
  {
    hide Keep, Without, Survivors;
  }

  lemma ReaderAfterChange(setup: Setup, shards: seq<Spec>, shards': seq<Spec>, r: Reader)
    requires ReaderOk(setup, shards, r) && |shards'| == |shards|
    requires !r.statistic.MemoryUsage? ==>
               forall i :: 0 <= i < |shards| ==> Reading(r.statistic, shards[i]) <= Reading(r.statistic, shards'[i])
    ensures ReaderOk(setup, shards', r)
  {
    hide Reading;
    if !r.statistic.MemoryUsage? {
      SumOrder(Readings(r.statistic, shards)[..r.next], Readings(r.statistic, shards')[..r.next]);
    }
  }

  lemma UsageWithinShare(setup: Setup, shards: seq<Spec>, i: nat)
    requires Sound(setup, shards) && i < |shards|
    ensures Reading(MemoryUsage, shards[i]) <= setup.capacities[i]
  {
  }

  lemma ReaderAdvances(setup: Setup, shards: seq<Spec>, r: Reader)
    requires ReaderOk(setup, shards, r) && Sound(setup, shards) && r.next < |shards|
    ensures ReaderOk(setup, shards, r.(next := r.next + 1, total := r.total + Reading(r.statistic, shards[r.next])))
  {
    hide Sum, Reading, Sound;
    UsageWithinShare(setup, shards, r.next);
    SumNext(setup.capacities, r.next);
    SumNext(r.start, r.next);
    SumNext(Readings(r.statistic, shards), r.next);
  }

  lemma ReaderBegins(setup: Setup, shards: seq<Spec>, statistic: Statistic)
    requires |shards| == |setup.capacities|
    ensures ReaderOk(setup, shards, Reader(statistic, 0, 0, Readings(statistic, shards)))
  {
    hide Reading;
  }

  lemma {:induction false} RunMore(s: Spec, commands: seq<Command>, command: Command)
    ensures Run(s, commands + [command]) == After(Run(s, commands), command)
  {
    assert (commands + [command])[..|commands|] == commands;
  }

  lemma ShardStepSequential(setup: Setup, s: State, i: nat, command: Command)
    requires Sequential(setup, s) && i < |s.shards|
    ensures Sequential(setup, OnShard(s, i, command))
  {
    hide Run, After;
    RunMore(Empty(setup.capacities[i]), s.commands[i], command);
  }

  lemma ShardStepSound(setup: Setup, s: State, i: nat, command: Command)
    requires Sound(setup, s.shards) && |s.commands| == |s.shards| && i < |s.shards|
    ensures Sound(setup, OnShard(s, i, command).shards)
  {
    hide CacheSpec.Valid, After;
    StepValid(s.shards[i], command);
    CountersGrow(Hits, s.shards[i], command);
  }

  lemma ShardStepPlaced(setup: Setup, s: State, i: nat, command: Command)
    requires setup.capacities != [] && Placed(setup, s.shards) && |s.commands| == |s.shards| && i < |s.shards|
    requires command.Set? ==> setup.ShardFor(command.key) == i
    ensures Placed(setup, OnShard(s, i, command).shards)
  {
    hide After;
    var t := OnShard(s, i, command);
    forall j, k | 0 <= j < |t.shards| && k in t.shards[j].items ensures setup.ShardFor(k) == j {
      if j == i {
        NoForeignKeys(s.shards[i], command, k);
      }
    }
  }

  lemma ShardStepReaders(setup: Setup, s: State, i: nat, command: Command)
    requires |s.commands| == |s.shards| && i < |s.shards|
    requires forall id :: id in s.readers ==> ReaderOk(setup, s.shards, s.readers[id])
    ensures forall id :: id in s.readers ==> ReaderOk(setup, OnShard(s, i, command).shards, s.readers[id])
  {
    hide After, Reading, ReaderOk;
    var t := OnShard(s, i, command);
    forall id | id in s.readers ensures ReaderOk(setup, t.shards, s.readers[id]) {
      var r := s.readers[id];
      if !r.statistic.MemoryUsage? {
        CountersGrow(r.statistic, s.shards[i], command);
      }
      ReaderAfterChange(setup, s.shards, t.shards, r);
    }
  }

  lemma InitInv(setup: Setup, s: State)
    requires setup.capacities != [] && Init(setup, s)
    ensures Inv(setup, s)
  {
  }

  lemma StepInv(setup: Setup, s: State, step: Step)
    requires Inv(setup, s) && Enabled(setup, s, step)
    ensures Inv(setup, Next(setup, s, step))
  {
    hide Sequential, Sound, Placed, ReaderOk, After, Readings, Reading;
    assert |s.shards| == |s.commands| == |setup.capacities| by {
      Sizes(setup, s);
    }
    match step
    case KeyCall(command) =>
      var i := setup.ShardFor(command.key);
      ShardStepSequential(setup, s, i, command);
      ShardStepSound(setup, s, i, command);
      ShardStepPlaced(setup, s, i, command);
      ShardStepReaders(setup, s, i, command);
      StepCounts(s.shards[i], command);
    case TickShard =>
      var i := s.ticking.value;
      ShardStepSequential(setup, s, i, CacheSpec.Tick);
      ShardStepSound(setup, s, i, CacheSpec.Tick);
      ShardStepPlaced(setup, s, i, CacheSpec.Tick);
      ShardStepReaders(setup, s, i, CacheSpec.Tick);
      StepCounts(s.shards[i], CacheSpec.Tick);
      SameShards(setup, OnShard(s, i, CacheSpec.Tick), Next(setup, s, step));
    case TickBegin =>
      SameShards(setup, s, Next(setup, s, step));
    case TickEnd =>
      SameShards(setup, s, Next(setup, s, step));
    case ReadBegin(reader, statistic) =>
      SameShards(setup, s, Next(setup, s, step));
      ReaderBegins(setup, s.shards, statistic);
    case ReadShard(reader) =>
      SameShards(setup, s, Next(setup, s, step));
      ReaderAdvances(setup, s.shards, s.readers[reader]);
  }

  lemma Sizes(setup: Setup, s: State)
    requires Sequential(setup, s)
    ensures |s.shards| == |s.commands| == |setup.capacities|
  {
  }

  lemma SameShards(setup: Setup, s: State, t: State)
    requires t.shards == s.shards && t.commands == s.commands && Sequential(setup, s)
    ensures Sequential(setup, t)
  {
  }

  // ---- Every interleaving ----

  /** A behaviour starts empty and takes enabled steps. */
  ghost predicate Behaviour(setup: Setup, states: seq<State>, steps: seq<Step>) {
    && setup.capacities != [] && |states| == |steps| + 1
    && Init(setup, states[0])
    && forall n :: 0 <= n < |steps| ==>
         && |states[n].shards| == |states[n].commands| == |setup.capacities|
         && Enabled(setup, states[n], steps[n]) && states[n + 1] == Next(setup, states[n], steps[n])
  }

  lemma {:induction false} BehaviourInv(setup: Setup, states: seq<State>, steps: seq<Step>, n: nat)
    requires Behaviour(setup, states, steps) && n < |states|
    ensures Inv(setup, states[n])
    decreases n
  {
    hide Inv, Init, Next, Enabled;
    if n == 0 {
      InitInv(setup, states[0]);
    } else {
      BehaviourInv(setup, states, steps, n - 1);
      StepInv(setup, states[n - 1], steps[n - 1]);
    }
  }

  /** The engine's true value of a statistic at one instant. */
  ghost function Truth(statistic: Statistic, s: State): nat {
    Sum(Readings(statistic, s.shards))
  }

  /** `reader` starts a call at step `begin` and does not start another before `end`. */
  ghost predicate OneCall(steps: seq<Step>, begin: nat, end: nat, reader: nat, statistic: Statistic) {
    && begin < end <= |steps| && steps[begin] == ReadBegin(reader, statistic)
    && forall n :: begin < n < end ==> !(steps[n].ReadBegin? && steps[n].reader == reader)
  }

  lemma {:induction false} CallRemembersStart(setup: Setup, states: seq<State>, steps: seq<Step>, begin: nat, end: nat,
                                              reader: nat, statistic: Statistic)
    requires Behaviour(setup, states, steps) && OneCall(steps, begin, end, reader, statistic)
    ensures reader in states[end].readers
    ensures states[end].readers[reader].statistic == statistic
    ensures states[end].readers[reader].start == Readings(statistic, states[begin].shards)
    decreases end
  {
    hide Init, Readings;
    assert states[end] == Next(setup, states[end - 1], steps[end - 1]);
    if end != begin + 1 {
      CallRemembersStart(setup, states, steps, begin, end - 1, reader, statistic);
    }
  }

  /**
   Non-atomic statistics.  Whatever other threads do meanwhile, a finished
   counter call returns a number between the true totals at its start and at its
   end, and a usage call never returns more than the engine's capacity.
   */
  lemma FinishedCallIsBounded(setup: Setup, states: seq<State>, steps: seq<Step>, begin: nat, end: nat,
                              reader: nat, statistic: Statistic)
    requires Behaviour(setup, states, steps) && OneCall(steps, begin, end, reader, statistic)
    requires reader in states[end].readers && states[end].readers[reader].next == |setup.capacities|
    ensures var total := states[end].readers[reader].total;
            if statistic.MemoryUsage? then total <= Sum(setup.capacities)
            else Truth(statistic, states[begin]) <= total <= Truth(statistic, states[end])
  {
    assert end < |states|;
    hide Behaviour, OneCall, Sequential, Sound, Placed, Clocks, Reading;
    BehaviourInv(setup, states, steps, end);
    CallRemembersStart(setup, states, steps, begin, end, reader, statistic);
    var r := states[end].readers[reader];
    assert ReaderOk(setup, states[end].shards, r);
    assert setup.capacities[..r.next] == setup.capacities;
    assert r.start[..r.next] == r.start;
    var now := Readings(statistic, states[end].shards);
    assert now[..r.next] == now;
  }

  /**
   In every reachable state: usage is within each shard's share, a key lives only
   in its hash shard, the shard clocks are within one tick of each other, and
   every shard is exactly the sequential cache of the commands it was sent.
   */
  lemma ReachableEngine(setup: Setup, states: seq<State>, steps: seq<Step>, n: nat)
    requires Behaviour(setup, states, steps) && n < |states|
    ensures |states[n].shards| == |states[n].commands| == |setup.capacities|
    ensures forall i :: 0 <= i < |setup.capacities| ==>
              && Total(ChargeBytes, states[n].shards[i].mru, states[n].shards[i].items) <= setup.capacities[i]
              && states[n].shards[i] == Run(Empty(setup.capacities[i]), states[n].commands[i])
    ensures forall i, k :: 0 <= i < |setup.capacities| && k in states[n].shards[i].items ==>
              i == setup.hash(k) % |setup.capacities|
    ensures forall i, j :: 0 <= i < j < |setup.capacities| ==>
              0 <= states[n].shards[i].now - states[n].shards[j].now <= 1
  {
    hide Behaviour, ReaderOk;
    BehaviourInv(setup, states, steps, n);
    hide ShardIndex;
    forall i, k | 0 <= i < |setup.capacities| && k in states[n].shards[i].items
      ensures i == setup.hash(k) % |setup.capacities|
    {
      assert setup.ShardFor(k) == i;
      ShardIsResidue(setup.hash, |setup.capacities|, k);
    }
  }

  /**
   Keys whose hashes differ modulo the number of shards never disturb one another:
   what a key's shard loses the key to is a tick, an erase of the key itself, or a
   set of another key of the same residue class.
   */
  lemma LostOnlyToShardmates(setup: Setup, states: seq<State>, steps: seq<Step>, n: nat, k: Key)
    requires Behaviour(setup, states, steps) && n < |steps|
    ensures var i, step := setup.hash(k) % |setup.capacities|, steps[n];
            && i < |states[n].shards| && i < |states[n + 1].shards|
            && (step.KeyCall? && setup.hash(step.command.key) % |setup.capacities| != i ==>
                  states[n + 1].shards[i] == states[n].shards[i])
            && (k in states[n].shards[i].items && k !in states[n + 1].shards[i].items ==>
                  || step.TickShard?
                  || step == KeyCall(Erase(k))
                  || (step.KeyCall? && step.command.Set? && step.command.key != k
                      && setup.hash(step.command.key) % |setup.capacities| == i))
  {
    var s, step := states[n], steps[n];
    ShardIsResidue(setup.hash, |setup.capacities|, k);
    if step.KeyCall? {
      ShardIsResidue(setup.hash, |setup.capacities|, step.command.key);
    }
    hide ShardIndex, After;
    if step.KeyCall? {
      KeptByGetAndOwnSet(s.shards[ShardIndex(setup.hash, |setup.capacities|, k)], step.command, k);
    }
  }

  lemma KeptByGetAndOwnSet(s: Spec, command: Command, k: Key)
    ensures k in s.items && (command.Get? || (command.Set? && command.key == k) || (command.Erase? && command.key != k)) ==>
              k in After(s, command).items
  {
    hide Keep, Without;
  }

  // ---- Calls that nothing interrupts ----

  ghost predicate Sized(setup: Setup, s: State) {
    setup.capacities != [] && |s.shards| == |s.commands| == |setup.capacities|
  }

  /** The state after a sequence of steps; a step that is not enabled does nothing. */
  function DoAll(setup: Setup, s: State, steps: seq<Step>): State {
    if steps == [] then s else
      var t, step := DoAll(setup, s, steps[..|steps| - 1]), steps[|steps| - 1];
      if setup.capacities != [] && |t.shards| == |t.commands| == |setup.capacities| && Enabled(setup, t, step)
      then Next(setup, t, step) else t
  }

  ghost predicate AllEnabled(setup: Setup, s: State, steps: seq<Step>) {
    steps == [] ||
    (var t := DoAll(setup, s, steps[..|steps| - 1]);
     AllEnabled(setup, s, steps[..|steps| - 1]) && Sized(setup, t) && Enabled(setup, t, steps[|steps| - 1]))
  }

  /** One enabled step more. */
  lemma {:induction false} DoMore(setup: Setup, s: State, steps: seq<Step>, step: Step)
    requires AllEnabled(setup, s, steps) && Sized(setup, DoAll(setup, s, steps)) && Enabled(setup, DoAll(setup, s, steps), step)
    ensures AllEnabled(setup, s, steps + [step])
    ensures DoAll(setup, s, steps + [step]) == Next(setup, DoAll(setup, s, steps), step)
  {
    assert (steps + [step])[..|steps|] == steps;
  }

  function Repeat(step: Step, n: nat): seq<Step> {
    if n == 0 then [] else Repeat(step, n - 1) + [step]
  }

  /** The steps of one engine-wide tick. */
  function TickSteps(n: nat): seq<Step> {
    [TickBegin] + Repeat(TickShard, n) + [TickEnd]
  }

  /** The steps of one statistics call. */
  function ReadSteps(reader: nat, statistic: Statistic, n: nat): seq<Step> {
    [ReadBegin(reader, statistic)] + Repeat(ReadShard(reader), n)
  }

  ghost predicate TickedUpTo(s: State, t: State, n: nat) {
    && |t.shards| == |s.shards| && |t.commands| == |s.commands| && n <= |s.shards|
    && t.ticking == Some(n) && t.rounds == s.rounds && t.readers == s.readers
    && forall i :: 0 <= i < |s.shards| ==> t.shards[i] == if i < n then After(s.shards[i], CacheSpec.Tick) else s.shards[i]
  }

  lemma TickOne(setup: Setup, s: State, t: State, n: nat)
    requires Sized(setup, s) && n < |s.shards| && TickedUpTo(s, t, n)
    ensures Sized(setup, t) && Enabled(setup, t, TickShard) && TickedUpTo(s, Next(setup, t, TickShard), n + 1)
  {
    hide After;
  }

  lemma {:induction false} TickPart(setup: Setup, s: State, n: nat)
    requires Sized(setup, s) && s.ticking.None? && n <= |s.shards|
    ensures AllEnabled(setup, s, [TickBegin] + Repeat(TickShard, n))
    ensures TickedUpTo(s, DoAll(setup, s, [TickBegin] + Repeat(TickShard, n)), n)
  {
    hide AllEnabled, DoAll, TickedUpTo, Next, Enabled, Sized;
    if n == 0 {
      TickStart(setup, s);
    } else {
      TickPart(setup, s, n - 1);
      var steps := [TickBegin] + Repeat(TickShard, n - 1);
      assert steps + [TickShard] == [TickBegin] + Repeat(TickShard, n);
      TickOne(setup, s, DoAll(setup, s, steps), n - 1);
      DoMore(setup, s, steps, TickShard);
    }
  }

  lemma {:induction false} TickStart(setup: Setup, s: State)
    requires Sized(setup, s) && s.ticking.None?
    ensures AllEnabled(setup, s, [TickBegin] + Repeat(TickShard, 0))
    ensures TickedUpTo(s, DoAll(setup, s, [TickBegin] + Repeat(TickShard, 0)), 0)
  {
    hide After;
    DoMore(setup, s, [], TickBegin);
    assert [] + [TickBegin] == [TickBegin] + Repeat(TickShard, 0);
  }

  /** An engine-wide tick that nothing interrupts is a run of the step system that ticks every shard once. */
  lemma {:induction false} QuietTick(setup: Setup, s: State)
    requires Sized(setup, s) && s.ticking.None?
    ensures AllEnabled(setup, s, TickSteps(|s.shards|))
    ensures var t := DoAll(setup, s, TickSteps(|s.shards|));
            && |t.shards| == |s.shards| && t.ticking.None? && t.rounds == s.rounds + 1 && t.readers == s.readers
            && forall i :: 0 <= i < |s.shards| ==> t.shards[i] == After(s.shards[i], CacheSpec.Tick)
  {
    hide After;
    TickPart(setup, s, |s.shards|);
    hide AllEnabled, DoAll;
    DoMore(setup, s, [TickBegin] + Repeat(TickShard, |s.shards|), TickEnd);
  }

  ghost predicate ReadUpTo(s: State, t: State, reader: nat, statistic: Statistic, n: nat) {
    && t.shards == s.shards && t.commands == s.commands && t.ticking == s.ticking && t.rounds == s.rounds
    && n <= |s.shards| && reader in t.readers
    && t.readers[reader].statistic == statistic && t.readers[reader].next == n
    && t.readers[reader].total == Sum(Readings(statistic, s.shards)[..n])
  }

  lemma ReadOne(setup: Setup, s: State, t: State, reader: nat, statistic: Statistic, n: nat)
    requires Sized(setup, s) && n < |s.shards| && ReadUpTo(s, t, reader, statistic, n)
    ensures Sized(setup, t) && Enabled(setup, t, ReadShard(reader))
    ensures ReadUpTo(s, Next(setup, t, ReadShard(reader)), reader, statistic, n + 1)
  {
    hide Reading, Sum;
    SumNext(Readings(statistic, s.shards), n);
  }

  lemma {:induction false} ReadPart(setup: Setup, s: State, reader: nat, statistic: Statistic, n: nat)
    requires Sized(setup, s) && n <= |s.shards|
    ensures AllEnabled(setup, s, ReadSteps(reader, statistic, n))
    ensures ReadUpTo(s, DoAll(setup, s, ReadSteps(reader, statistic, n)), reader, statistic, n)
  {
    hide AllEnabled, DoAll, ReadUpTo, Next, Enabled, Sized;
    if n == 0 {
      ReadStart(setup, s, reader, statistic);
    } else {
      ReadPart(setup, s, reader, statistic, n - 1);
      assert ReadSteps(reader, statistic, n - 1) + [ReadShard(reader)] == ReadSteps(reader, statistic, n);
      ReadOne(setup, s, DoAll(setup, s, ReadSteps(reader, statistic, n - 1)), reader, statistic, n - 1);
      DoMore(setup, s, ReadSteps(reader, statistic, n - 1), ReadShard(reader));
    }
  }

  lemma {:induction false} ReadStart(setup: Setup, s: State, reader: nat, statistic: Statistic)
    requires Sized(setup, s)
    ensures AllEnabled(setup, s, ReadSteps(reader, statistic, 0))
    ensures ReadUpTo(s, DoAll(setup, s, ReadSteps(reader, statistic, 0)), reader, statistic, 0)
  {
    hide Reading;
    DoMore(setup, s, [], ReadBegin(reader, statistic));
    assert [] + [ReadBegin(reader, statistic)] == ReadSteps(reader, statistic, 0);
  }

  /** A statistics call that nothing interrupts is a run of the step system that returns the true total. */
  lemma {:induction false} QuietRead(setup: Setup, s: State, reader: nat, statistic: Statistic)
    requires Sized(setup, s)
    ensures AllEnabled(setup, s, ReadSteps(reader, statistic, |s.shards|))
    ensures var t := DoAll(setup, s, ReadSteps(reader, statistic, |s.shards|));
            && t.shards == s.shards && reader in t.readers && t.readers[reader].next == |s.shards|
            && t.readers[reader].total == Truth(statistic, s)
  {
    ReadPart(setup, s, reader, statistic, |s.shards|);
    hide AllEnabled, DoAll, Reading;
    assert Readings(statistic, s.shards)[..|s.shards|] == Readings(statistic, s.shards);
  }
}
