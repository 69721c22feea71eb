/**
 One shard's cache: a key map, an LRU list with stored iterators, a byte budget,
 a timing wheel and an allocator, all updated in place.  Every operation is
 proved to do to the real structures what the reference cache does to `model`.
 */
module Caches {
  import opened Basics
  import opened Memory
  import opened CacheSpec
  import CacheLaws
  import RecencyLaw
  import opened CacheRep
  import opened TimingWheels
  import opened SlabModel
  import opened SlabAccounting
  import opened ValueAllocators
  import AllocatorRuns

  class Cache {
    const capacity: nat
    const allocator: ValueAllocator
    const wheel: TimingWheel
    var memoryUsage: nat
    var hitCount: nat
    var missCount: nat
    var evictionCount: nat
    var expiredCount: nat
    var generationSource: nat
    var recency: seq<Node>
    var entries: Entries
    var nextNode: nat

    ghost var model: Spec
    ghost var owner: map<nat, Key>
    ghost const Repr: set<object>

    ghost predicate Wired() {
      && this in Repr && wheel.Repr <= Repr && allocator.Repr <= Repr
      && wheel in wheel.Repr && allocator in allocator.Repr
      && this !in wheel.Repr && this !in allocator.Repr && wheel.Repr !! allocator.Repr
    }

    ghost predicate CountersMatch()
      reads this
    {
      && model.capacity == capacity
      && model.hits == hitCount && model.misses == missCount
      && model.evictions == evictionCount && model.expired == expiredCount
    }

    ghost function Snapshot(due: multiset<Alarm>): Rep
      reads this, wheel, allocator
    {
      Rep(entries, recency, nextNode, memoryUsage, allocator.Blocks(), allocator.metrics, owner,
          wheel.pending + due, generationSource)
    }

    /**
     The structures stand for `model`, possibly in the middle of an operation:
     `spare` is a value allocated and not stored yet, `due` are events taken from
     the wheel and not handled yet.
     */
    ghost predicate Stands(spare: nat, due: multiset<Alarm>)
      requires Wired()
      reads Repr
    {
      && wheel.Valid() && allocator.Valid()
      && wheel.now == model.now
      && CountersMatch()
      && Represents(Snapshot(due), model, spare)
    }

    ghost predicate Valid()
      reads Repr
    {
      && Wired()
      && Stands(NULL, multiset{})
      && generationSource == |model.written|
      && CacheSpec.Valid(model)
    }

    ghost predicate Untouched(pending: multiset<Alarm>, source: nat)
      reads this, wheel
    {
      wheel.pending == pending && generationSource == source
    }

    /** The value being stored is never among those that are freed. */
    ghost predicate SpareKept(blocks: Blocks, spare: nat)
      reads this, allocator
    {
      spare in blocks ==> spare in allocator.Blocks() && allocator.Blocks()[spare] == blocks[spare]
    }

    constructor (capacity: nat, backend: Backend)
      ensures Valid() && fresh(Repr)
      ensures model == Empty(capacity)
      ensures allocator.backend == backend && allocator.Asked() == NoDemand()
    {
      hide Represents, ValueAllocator.Valid, TimingWheel.Valid, Demanded, CacheSpec.Valid;
      this.capacity := capacity;
      var allocator := new ValueAllocator(backend);
      var wheel := new TimingWheel();
      this.allocator, this.wheel := allocator, wheel;
      memoryUsage, hitCount, missCount, evictionCount, expiredCount, generationSource := 0, 0, 0, 0, 0, 0;
      recency, entries, nextNode := [], map[], 0;
      model, owner := Empty(capacity), map[];
      Repr := {this} + allocator.Repr + wheel.Repr;
      new;
      EmptyRepresents(capacity);
      assert wheel.pending + multiset{} == multiset{};
      EmptyIsValid(capacity);
    }

    /** Moves the key's node to the front through its stored iterator. */
    method MarkMru(key: Key, ghost spare: nat)
      requires Wired() && Stands(spare, multiset{}) && key in entries
      modifies this`recency, this`model
      ensures Stands(spare, multiset{})
      ensures model == Touch(old(model), key)
    {
      hide Represents, ValueAllocator.Valid, TimingWheel.Valid, Demanded, SpliceToFront, Without;
      TouchRepresents(Snapshot(multiset{}), model, spare, key);
      recency := SpliceToFront(recency, entries[key].position);
      model := Touch(model, key);
    }

    /** The one path by which an entry leaves the cache. */
    method RemoveEntry(key: Key, ghost spare: nat, ghost due: multiset<Alarm>)
      requires Wired() && Stands(spare, due) && key in entries
      modifies Repr
      ensures Stands(spare, due)
      ensures model == Drop(old(model), key)
      ensures Untouched(old(wheel.pending), old(generationSource)) && entries == old(entries) - {key}
      ensures SpareKept(old(allocator.Blocks()), spare)
      ensures allocator.Asked() == old(allocator.Asked())
    {
      hide Represents, ValueAllocator.Valid, TimingWheel.Valid, Demanded, PeaksTrack, EraseNode;
      var stored := entries[key];
      EntryIsReturnable(Snapshot(due), model, spare, key);
      memoryUsage := memoryUsage - (|key| + stored.entry.size);
      recency := EraseNode(recency, stored.position);
      entries := entries - {key};
      allocator.Deallocate(stored.entry.data, stored.entry.size);
      RemoveRepresents(old(Snapshot(due)), model, spare, key, allocator.Blocks(), allocator.metrics);
      owner := owner - {stored.entry.data};
      model := Drop(model, key);
    }

    method EvictLru(ghost spare: nat)
      requires Wired() && Stands(spare, multiset{}) && model.mru != []
      modifies Repr
      ensures Stands(spare, multiset{})
      ensures model == EvictLast(old(model))
      ensures Untouched(old(wheel.pending), old(generationSource))
      ensures old(model.mru) != [] && entries == old(entries) - {old(model.mru)[|old(model.mru)| - 1]}
      ensures SpareKept(old(allocator.Blocks()), spare)
      ensures allocator.Asked() == old(allocator.Asked())
    {
      hide Represents, ValueAllocator.Valid, TimingWheel.Valid, Demanded, Without;
      LastNode(Snapshot(multiset{}), model, spare);
      var lru := recency[|recency| - 1].key;
      RemoveEntry(lru, spare, multiset{});
      CountersDoNotMatter(Snapshot(multiset{}), model, model.(evictions := model.evictions + 1), spare);
      evictionCount := evictionCount + 1;
      model := model.(evictions := model.evictions + 1);
    }

    /** None when the 64-bit source is exhausted: the call then throws. */
    method NextGeneration() returns (generation: Option<nat>)
      modifies this`generationSource
      ensures if old(generationSource) == MAX_GENERATION
              then generation == None && generationSource == old(generationSource)
              else generation == Some(generationSource) && generationSource == old(generationSource) + 1
    {
      if generationSource == MAX_GENERATION {
        return None;
      }
      generationSource := generationSource + 1;
      return Some(generationSource);
    }

    /** CacheEntry's constructor: an exactly sized block holding a copy of the value. */
    method CreateEntry(value: Bytes) returns (entry: CacheEntry)
      requires Wired() && Stands(NULL, multiset{})
      modifies Repr
      ensures Stands(entry.data, multiset{})
      ensures model == old(model) && entries == old(entries) && generationSource == old(generationSource)
      ensures Holds(entry, value, allocator.Blocks())
      ensures allocator.Asked() == Demanded(old(allocator.Asked()), model, allocator.backend, value)
    {
      hide Represents, ValueAllocator.Valid, TimingWheel.Valid, Demanded, PeaksTrack;
      var data := allocator.Allocate(|value|);
      DemandGrows(old(allocator.Asked()), allocator, old(Snapshot(multiset{})), model, value, data);
      if |value| != 0 {
        allocator.Store(data, value);
      }
      SpareRepresents(old(Snapshot(multiset{})), model, allocator.Blocks(), allocator.metrics, data, value);
      entry := CacheEntry(data, |value|);
    }

    /** CacheEntry's destructor, for a value that is not stored. */
    method DestroyEntry(entry: CacheEntry)
      requires Wired() && Stands(entry.data, multiset{})
      requires entry.size == SpareBytes(allocator.Blocks(), entry.data)
      modifies Repr
      ensures Stands(NULL, multiset{})
      ensures model == old(model) && entries == old(entries) && generationSource == old(generationSource)
      ensures allocator.Asked() == old(allocator.Asked())
    {
      hide Represents, ValueAllocator.Valid, TimingWheel.Valid, Demanded, PeaksTrack;
      SpareIsReturnable(Snapshot(multiset{}), model, entry.data);
      allocator.Deallocate(entry.data, entry.size);
      UnspareRepresents(old(Snapshot(multiset{})), model, entry.data, allocator.Blocks(), allocator.metrics);
    }

    method Set(key: Key, value: Bytes, ttl: int) returns (outcome: Outcome)
      requires Valid()
      modifies Repr
      ensures Valid()
      ensures outcome == Answer(old(model), CacheSpec.Set(key, value, ttl))
      ensures model == After(old(model), CacheSpec.Set(key, value, ttl))
      ensures allocator.Asked() == DemandStep(old(allocator.Asked()), old(model), allocator.backend, CacheSpec.Set(key, value, ttl))
    {
      assert |model.written| <= MAX_GENERATION;
      hide Represents, ValueAllocator.Valid, TimingWheel.Valid, Demanded, Store, CacheSpec.Valid;
      StepValid(model, CacheSpec.Set(key, value, ttl));
      SameKeys(Snapshot(multiset{}), model, NULL);
      var keyStatus := ValidateKey(key);
      if keyStatus != Ok {
        return Returned(keyStatus, None);
      }
      if |value| > MAX_VALUE_LENGTH {
        return Returned(ValueTooLarge, None);
      }
      if ttl < 0 {
        return Returned(InvalidTtl, None);
      }
      if |key| + |value| > capacity {
        return Returned(ItemTooLarge, None);
      }
      if key in entries {
        outcome := Overwrite(key, value, ttl);
      } else {
        outcome := Insert(key, value, ttl);
      }
    }

    method Get(key: Key) returns (outcome: Outcome)
      requires Valid()
      modifies Repr
      ensures Valid()
      ensures outcome == Answer(old(model), CacheSpec.Get(key))
      ensures model == After(old(model), CacheSpec.Get(key))
      ensures allocator.Asked() == DemandStep(old(allocator.Asked()), old(model), allocator.backend, CacheSpec.Get(key))
    {
      hide Represents, ValueAllocator.Valid, TimingWheel.Valid, Demanded, CacheSpec.Valid, Without;
      StepValid(model, CacheSpec.Get(key));
      SameKeys(Snapshot(multiset{}), model, NULL);
      var keyStatus := ValidateKey(key);
      if keyStatus != Ok {
        return Returned(keyStatus, None);
      }
      if key !in entries {
        missCount := missCount + 1;
        CountersDoNotMatter(Snapshot(multiset{}), model, model.(misses := model.misses + 1), NULL);
        model := model.(misses := model.misses + 1);
        return Returned(NotFound, None);
      }
      var value := Hit(key);
      return Returned(Ok, Some(value));
    }

    /** A get that finds its key. */
    method Hit(key: Key) returns (value: Bytes)
      requires Wired() && Stands(NULL, multiset{}) && key in entries
      modifies this`recency, this`model, this`hitCount
      ensures Stands(NULL, multiset{})
      ensures key in old(model).items && value == old(model).items[key].value
      ensures model == Touch(old(model), key).(hits := old(model).hits + 1)
    {
      hide Represents, ValueAllocator.Valid, TimingWheel.Valid, Demanded, Without;
      value := ValueOf(key);
      MarkMru(key, NULL);
      hitCount := hitCount + 1;
      CountersDoNotMatter(Snapshot(multiset{}), model, model.(hits := model.hits + 1), NULL);
      model := model.(hits := model.hits + 1);
    }

    /** CacheEntry::value: the bytes in the entry's block are the value last set. */
    method ValueOf(key: Key) returns (value: Bytes)
      requires Wired() && Stands(NULL, multiset{}) && key in entries
      ensures key in model.items && value == model.items[key].value
    {
      hide Represents, ValueAllocator.Valid, TimingWheel.Valid, Demanded;
      var entry := entries[key].entry;
      EntryReads(Snapshot(multiset{}), model, NULL, key);
      if entry.size == 0 {
        return [];
      }
      value := allocator.Load(entry.data, entry.size);
    }

    method Erase(key: Key) returns (outcome: Outcome)
      requires Valid()
      modifies Repr
      ensures Valid()
      ensures outcome == Answer(old(model), CacheSpec.Erase(key))
      ensures model == After(old(model), CacheSpec.Erase(key))
      ensures allocator.Asked() == DemandStep(old(allocator.Asked()), old(model), allocator.backend, CacheSpec.Erase(key))
    {
      hide Represents, ValueAllocator.Valid, TimingWheel.Valid, Demanded, CacheSpec.Valid, Drop;
      StepValid(model, CacheSpec.Erase(key));
      SameKeys(Snapshot(multiset{}), model, NULL);
      var keyStatus := ValidateKey(key);
      if keyStatus != Ok {
        return Returned(keyStatus, None);
      }
      if key !in entries {
        return Returned(NotFound, None);
      }
      DropWritten(model, key);
      RemoveEntry(key, NULL, multiset{});
      return Returned(Ok, None);
    }

    /** One tick: every event that matches its entry removes it; every other event is stale and does nothing. */
    method Tick()
      requires Valid()
      modifies Repr
      ensures Valid()
      ensures model == After(old(model), CacheSpec.Tick)
      ensures allocator.Asked() == DemandStep(old(allocator.Asked()), old(model), allocator.backend, CacheSpec.Tick)
    {
      hide Represents, ValueAllocator.Valid, TimingWheel.Valid, Demanded, CacheSpec.Valid, Expire, Count;
      StepValid(model, CacheSpec.Tick);
      var events := TurnWheel();
      ghost var target := Expire(model);
      assert events[0..] == events;
      for i := 0 to |events|
        invariant Stands(NULL, AlarmsOf(events[i..], model.now))
        invariant Expire(model) == target
        invariant generationSource == |model.written|
        invariant allocator.Asked() == old(allocator.Asked())
      {
        assert events[i..][1..] == events[i + 1..];
        assert events[i] in events;
        HandleEvent(events[i], AlarmsOf(events[i + 1..], model.now));
      }
      assert events[|events|..] == [];
      wheel.PendingIsFuture();
      NothingDue(Snapshot(multiset{}), model);
      ExpireNone(model);
    }

    /** Turns the wheel: the events that fall due are out of it and still to be handled. */
    method TurnWheel() returns (events: seq<TimerEvent>)
      requires Wired() && Stands(NULL, multiset{})
      modifies this`model, wheel.Repr
      ensures model == old(model).(now := old(model).now + 1)
      ensures forall e :: e in events ==> e.remainingRounds == 0
      ensures Stands(NULL, AlarmsOf(events, model.now))
    {
      hide Represents, ValueAllocator.Valid, TimingWheel.Valid, Demanded, Count;
      ghost var r := Snapshot(multiset{});
      events := wheel.Tick();
      model := model.(now := model.now + 1);
      CountersDoNotMatter(r, old(model), model, NULL);
      forall a ensures r.pending[a] == (wheel.pending + AlarmsOf(events, model.now))[a] {
        AlarmsOfCount(events, model.now, a);
      }
      assert r.pending == wheel.pending + AlarmsOf(events, model.now);
    }

    /** The body of the expiry loop; `rest` are the events after this one. */
    method HandleEvent(event: TimerEvent, ghost rest: multiset<Alarm>)
      requires Wired() && event.remainingRounds == 0
      requires Stands(NULL, multiset{AlarmOf(event, model.now)} + rest)
      modifies Repr
      ensures Stands(NULL, rest)
      ensures Expire(model) == Expire(old(model)) && model.now == old(model.now)
      ensures model.written == old(model.written) && generationSource == old(generationSource)
      ensures allocator.Asked() == old(allocator.Asked())
    {
      hide Represents, ValueAllocator.Valid, TimingWheel.Valid, Demanded, Expire, Without;
      ghost var a := AlarmOf(event, model.now);
      ghost var due := multiset{a} + rest;
      if event.key !in entries || entries[event.key].generation != event.generation {
        StaleIsHarmless(Snapshot(due), model, wheel.pending + rest, a);
        return;
      }
      MatchIsDue(Snapshot(due), model, a);
      ExpireOne(model, event.key);
      RemoveEntry(event.key, NULL, due);
      expiredCount := expiredCount + 1;
      CountersDoNotMatter(Snapshot(due), model, model.(expired := model.expired + 1), NULL);
      model := model.(expired := model.expired + 1);
      StaleIsHarmless(Snapshot(due), model, wheel.pending + rest, a);
    }

    /** Draws a generation and, for a positive TTL, schedules its event. */
    method Arm(key: Key, ttl: int, ghost spare: nat) returns (generation: Option<nat>)
      requires Wired() && Stands(spare, multiset{})
      modifies this`generationSource, wheel.Repr
      ensures Stands(spare, multiset{})
      ensures generation.None? <==> old(generationSource) == MAX_GENERATION
      ensures generation.None? ==> generationSource == old(generationSource)
      ensures generation.Some? ==>
                && generationSource == old(generationSource) + 1 && generation.value == generationSource
                && JustArmed(wheel.pending, generationSource, key, Deadline(model.now, ttl))
    {
      hide Represents, ValueAllocator.Valid, TimingWheel.Valid, Demanded, JustArmed, Deadline;
      ghost var r := Snapshot(multiset{});
      generation := NextGeneration();
      if generation.None? {
        return;
      }
      ScheduleFor(key, generation.value, ttl, r, spare);
    }

    /** Schedules the event of a generation that has just been drawn; `r` is what stood before that. */
    method ScheduleFor(key: Key, generation: nat, ttl: int, ghost r: Rep, ghost spare: nat)
      requires Wired() && wheel.Valid() && allocator.Valid() && wheel.now == model.now && CountersMatch()
      requires Represents(r, model, spare) && r.source + 1 == generation == generationSource
      requires Snapshot(multiset{}) == r.(source := generation)
      modifies wheel.Repr
      ensures Stands(spare, multiset{}) && JustArmed(wheel.pending, generation, key, Deadline(model.now, ttl))
    {
      hide Represents, ValueAllocator.Valid, TimingWheel.Valid, Demanded, JustArmed;
      ghost var deadline := Deadline(model.now, ttl);
      assert r.pending == wheel.pending;
      ArmRepresents(r, model, spare, key, deadline);
      if 0 < ttl {
        wheel.Schedule(key, generation, ttl);
      }
      assert Snapshot(multiset{}) == WithAlarm(r, key, deadline);
    }

    /** A value is allocated and its timer armed, but it is not stored yet. */
    ghost predicate InFlight(key: Key, entry: CacheEntry, item: Item)
      requires Wired()
      reads Repr
    {
      && Stands(entry.data, multiset{})
      && Holds(entry, item.value, allocator.Blocks())
      && JustArmed(wheel.pending, generationSource, key, item.deadline)
      && generationSource == |model.written| + 1
      && |key| + |item.value| <= capacity
    }

    method Overwrite(key: Key, value: Bytes, ttl: int) returns (outcome: Outcome)
      requires Valid() && key in entries && 0 <= ttl && |key| + |value| <= capacity
      modifies Repr
      ensures Stands(NULL, multiset{}) && generationSource == |model.written|
      ensures if old(|model.written|) == MAX_GENERATION
              then outcome == GenerationExhausted && model == old(model)
              else outcome == Returned(Ok, None) && model == Store(old(model), key, Item(value, Deadline(old(model.now), ttl)))
      ensures allocator.Asked() == Demanded(old(allocator.Asked()), old(model), allocator.backend, value)
    {
      hide Represents, ValueAllocator.Valid, TimingWheel.Valid, Demanded, Store, CacheSpec.Valid, JustArmed, Holds, Without, Others;
      ghost var item := Item(value, Deadline(model.now, ttl));
      var newCharge := |key| + |value|;
      var replacement := CreateEntry(value);
      var oldCharge := |key| + entries[key].entry.size;
      var generation := Arm(key, ttl, replacement.data);
      if generation.None? {
        HeldSize(replacement, value, allocator.Blocks(), Snapshot(multiset{}), model);
        DestroyEntry(replacement);
        return GenerationExhausted;
      }
      KeyIsListed(Snapshot(multiset{}), model, replacement.data, key);
      TouchThenStore(model, key, item);
      MarkMru(key, replacement.data);
      assert InFlight(key, replacement, item);
      EvictOthers(key, oldCharge, newCharge, replacement, item);
      ReplaceValue(key, oldCharge, newCharge, replacement, item);
      return Returned(Ok, None);
    }

    method Insert(key: Key, value: Bytes, ttl: int) returns (outcome: Outcome)
      requires Valid() && key !in entries && 0 <= ttl && |key| + |value| <= capacity
      modifies Repr
      ensures Stands(NULL, multiset{}) && generationSource == |model.written|
      ensures if old(|model.written|) == MAX_GENERATION
              then outcome == GenerationExhausted && model == old(model)
              else outcome == Returned(Ok, None) && model == Store(old(model), key, Item(value, Deadline(old(model.now), ttl)))
      ensures allocator.Asked() == Demanded(old(allocator.Asked()), old(model), allocator.backend, value)
    {
      hide Represents, ValueAllocator.Valid, TimingWheel.Valid, Demanded, Store, CacheSpec.Valid, JustArmed, Holds, Without, Others;
      ghost var item := Item(value, Deadline(model.now, ttl));
      var newCharge := |key| + |value|;
      var newEntry := CreateEntry(value);
      var generation := Arm(key, ttl, newEntry.data);
      if generation.None? {
        HeldSize(newEntry, value, allocator.Blocks(), Snapshot(multiset{}), model);
        DestroyEntry(newEntry);
        return GenerationExhausted;
      }
      assert InFlight(key, newEntry, item);
      EvictUntilFits(key, newCharge, newEntry, item);
      StoreNew(key, newCharge, newEntry, item);
      return Returned(Ok, None);
    }

    /** The insertion loop: evicts from the tail until the new entry fits. */
    method EvictUntilFits(key: Key, newCharge: nat, ghost entry: CacheEntry, ghost item: Item)
      requires Wired() && InFlight(key, entry, item) && newCharge == |key| + |item.value|
      requires key !in entries
      modifies Repr
      ensures InFlight(key, entry, item) && key !in entries
      ensures Store(model, key, item) == Store(old(model), key, item)
      ensures memoryUsage <= capacity - newCharge
      ensures allocator.Asked() == old(allocator.Asked())
    {
      hide Represents, ValueAllocator.Valid, TimingWheel.Valid, Demanded, Store, JustArmed, Holds, Without, Others;
      ghost var target := Store(model, key, item);
      AllUsage(Snapshot(multiset{}), model, entry.data, key);
      while memoryUsage > capacity - newCharge
        invariant InFlight(key, entry, item) && key !in entries
        invariant Store(model, key, item) == target
        invariant Others(model, key) == memoryUsage
        invariant allocator.Asked() == old(allocator.Asked())
        decreases |model.mru|
      {
        AllUsage(Snapshot(multiset{}), model, entry.data, key);
        EvictThenStore(model, key, item);
        EvictLastIsFront(model, key);
        StillHolds(Snapshot(multiset{}), model, entry, item.value);
        EvictLru(entry.data);
        AllUsage(Snapshot(multiset{}), model, entry.data, key);
      }
    }

    method StoreNew(key: Key, newCharge: nat, newEntry: CacheEntry, ghost item: Item)
      requires Wired() && InFlight(key, newEntry, item) && newCharge == |key| + |item.value|
      requires key !in entries && memoryUsage <= capacity - newCharge
      modifies this
      ensures Stands(NULL, multiset{}) && generationSource == |model.written|
      ensures model == Store(old(model), key, item)
    {
      hide Represents, ValueAllocator.Valid, TimingWheel.Valid, Demanded, Store, JustArmed, Holds;
      ghost var r := Snapshot(multiset{});
      assert r.pending == wheel.pending;
      InsertPlan(r, model, key, newEntry, item);
      recency := [Node(nextNode, key)] + recency;
      entries := entries[key := StoredEntry(newEntry, nextNode, generationSource)];
      nextNode := nextNode + 1;
      memoryUsage := memoryUsage + newCharge;
      owner := Inserted(r, key, newEntry, item.value).owner;
      assert Snapshot(multiset{}) == Inserted(r, key, newEntry, item.value);
      model := Store(model, key, item);
    }

    /** The overwrite loop: evicts from the tail, never the key itself, until the new value fits. */
    method EvictOthers(key: Key, oldCharge: nat, newCharge: nat, ghost entry: CacheEntry, ghost item: Item)
      requires Wired() && InFlight(key, entry, item) && newCharge == |key| + |item.value|
      requires key in entries && oldCharge == |key| + entries[key].entry.size
      requires model.mru != [] && model.mru[0] == key
      modifies Repr
      ensures InFlight(key, entry, item)
      ensures key in entries && entries[key] == old(entries[key])
      ensures model.mru != [] && model.mru[0] == key
      ensures Store(model, key, item) == Store(old(model), key, item)
      ensures memoryUsage - oldCharge <= capacity - newCharge
      ensures allocator.Asked() == old(allocator.Asked())
    {
      hide Represents, ValueAllocator.Valid, TimingWheel.Valid, Demanded, Store, JustArmed, Holds, Without, Others;
      ghost var target := Store(model, key, item);
      OthersUsage(Snapshot(multiset{}), model, entry.data, key);
      while memoryUsage - oldCharge > capacity - newCharge
        invariant InFlight(key, entry, item)
        invariant key in entries && entries[key] == old(entries[key])
        invariant model.mru != [] && model.mru[0] == key
        invariant Store(model, key, item) == target
        invariant Others(model, key) == memoryUsage - oldCharge
        invariant allocator.Asked() == old(allocator.Asked())
        decreases |model.mru|
      {
        KeyIsListed(Snapshot(multiset{}), model, entry.data, key);
        EvictThenStore(model, key, item);
        EvictLastIsFront(model, key);
        StillHolds(Snapshot(multiset{}), model, entry, item.value);
        EvictLru(entry.data);
        OthersUsage(Snapshot(multiset{}), model, entry.data, key);
      }
    }

    /** Swaps the new block in and destroys the replacement object, which now holds the old one. */
    method ReplaceValue(key: Key, oldCharge: nat, newCharge: nat, replacement: CacheEntry, ghost item: Item)
      requires Wired() && InFlight(key, replacement, item) && newCharge == |key| + |item.value|
      requires key in entries && oldCharge == |key| + entries[key].entry.size
      requires model.mru != [] && model.mru[0] == key
      requires memoryUsage - oldCharge <= capacity - newCharge
      modifies Repr
      ensures Stands(NULL, multiset{}) && generationSource == |model.written|
      ensures allocator.Asked() == old(allocator.Asked())
      ensures model == Store(old(model), key, item)
    {
      hide Represents, ValueAllocator.Valid, TimingWheel.Valid, Demanded, Store, JustArmed, Holds, SpareBytes;
      ghost var r := Snapshot(multiset{});
      assert r.pending == wheel.pending;
      SwapPlan(r, model, key, replacement, item);
      var stored := entries[key];
      entries := entries[key := StoredEntry(replacement, stored.position, generationSource)];
      memoryUsage := memoryUsage - oldCharge + newCharge;
      owner := Swapped(r, key, replacement, item.value).owner;
      assert Snapshot(multiset{}) == Swapped(r, key, replacement, item.value);
      model := Store(model, key, item);
      DestroyEntry(stored.entry);
    }

    /** All seven allocator metrics, and the slabs of each class. */
    method Figures() returns (metrics: Metrics, slabs: seq<nat>)
      requires Valid()
      ensures metrics == allocator.metrics
      ensures AllocatorRuns.Footprint(HeldBy(model), allocator.peaks, allocator.backend, metrics, slabs)
    {
      hide Represents, ValueAllocator.Valid, TimingWheel.Valid, Demanded, CacheSpec.Valid, AllocatorRuns.Footprint, HeldBy;
      slabs := AllocatorRuns.CountSlabs(allocator);
      metrics := allocator.metrics;
      ghost var r := Snapshot(multiset{});
      EntriesAreHoused(r, model);
      AllocatorRuns.HousedFootprint(allocator, HeldBy(model), PlacesOf(r, model), TenantsOf(r, model), slabs);
    }

    /** What the accessors report. */
    method Summarize() returns (report: Report)
      requires Valid()
      ensures report == ReportOf(model)
    {
      hide Represents, ValueAllocator.Valid, TimingWheel.Valid, Demanded, CacheSpec.Valid;
      ReportMatches(Snapshot(multiset{}), model);
      report := Report(NodeKeys(recency), |entries|, memoryUsage,
                       hitCount, missCount, evictionCount, expiredCount,
                       allocator.metrics.usedBytes,
                       allocator.metrics.allocationCount - allocator.metrics.deallocationCount);
    }
  }

  function NodeKeys(nodes: seq<Node>): seq<Key> {
    seq(|nodes|, i requires 0 <= i < |nodes| => nodes[i].key)
  }

  datatype Report = Report(
    recencyOrder: seq<Key>,
    size: nat,
    memoryUsage: nat,
    hits: nat,
    misses: nat,
    evictions: nat,
    expired: nat,
    usedBytes: nat,
    outstandingAllocations: nat)

  /** What the reference cache says the same numbers are. */
  ghost function ReportOf(s: Spec): Report {
    Report(s.mru, |s.items|, Total(ChargeBytes, s.mru, s.items), s.hits, s.misses, s.evictions, s.expired,
           Total(ValueBytes, s.mru, s.items), Total(NonEmptyValues, s.mru, s.items))
  }

  lemma ReportMatches(r: Rep, model: Spec)
    requires Represents(r, model, NULL)
    ensures NodeKeys(r.nodes) == model.mru
    ensures |r.entries| == |model.items|
    ensures r.usage == Total(ChargeBytes, model.mru, model.items)
    ensures r.metrics.usedBytes == Total(ValueBytes, model.mru, model.items)
    ensures r.metrics.allocationCount - r.metrics.deallocationCount == Total(NonEmptyValues, model.mru, model.items)
  {
    hide Timers, Total;
    assert r.entries.Keys == model.items.Keys;
  }

  // ---- The allocator under a cache ----

  /** The values stored, by their place in the recency order. */
  ghost function HeldBy(s: Spec): map<nat, Bytes> {
    map i | 0 <= i < |s.mru| && s.mru[i] in s.items :: s.items[s.mru[i]].value
  }

  ghost function PlacesOf(r: Rep, s: Spec): map<nat, nat> {
    map i | 0 <= i < |s.mru| && s.mru[i] in r.entries :: r.entries[s.mru[i]].entry.data
  }

  function IndexOfKey(keys: seq<Key>, key: Key): (i: nat)
    ensures key in keys ==> i < |keys| && keys[i] == key
  {
    if keys == [] then 0 else if keys[0] == key then 0 else 1 + IndexOfKey(keys[1..], key)
  }

  ghost function TenantsOf(r: Rep, s: Spec): map<nat, nat> {
    map p | p in r.blocks && p in r.owner :: IndexOfKey(s.mru, r.owner[p])
  }

  /** The value at one place of the recency order, and its block. */
  lemma HousedAt(r: Rep, model: Spec, i: nat)
    requires Listed(model) && Owned(r.entries, model.items, r.blocks, r.owner, NULL) && i < |model.mru|
    ensures model.mru[i] in model.items && model.mru[i] in r.entries
    ensures var value, p := model.items[model.mru[i]].value, r.entries[model.mru[i]].entry.data;
            if value == [] then p == NULL
            else p in r.blocks && p in r.owner && |r.blocks[p]| == |value| && IndexOfKey(model.mru, r.owner[p]) == i
  {
    var k := model.mru[i];
    assert k in model.mru;
    assert Holds(r.entries[k].entry, model.items[k].value, r.blocks);
    if model.items[k].value != [] {
      assert r.owner[r.entries[k].entry.data] == k;
      assert IndexOfKey(model.mru, k) == i;
    }
  }

  /** A live block, and the value that has it. */
  lemma TenantAt(r: Rep, model: Spec, p: nat)
    requires Listed(model) && Owned(r.entries, model.items, r.blocks, r.owner, NULL) && p in r.blocks
    ensures p in r.owner
    ensures var i := IndexOfKey(model.mru, r.owner[p]);
            && i < |model.mru| && model.mru[i] in model.items && model.mru[i] in r.entries
            && model.items[model.mru[i]].value != [] && r.entries[model.mru[i]].entry.data == p
  {
  }

  /** Every stored value has its own block, and every live block is some stored value's. */
  lemma EntriesAreHoused(r: Rep, model: Spec)
    requires Represents(r, model, NULL)
    ensures AllocatorRuns.Housed(HeldBy(model), PlacesOf(r, model), TenantsOf(r, model), r.blocks)
  {
    hide Recency, Timers, Budget, Owned, Listed, IndexOfKey;
    forall i: nat | i < |model.mru|
      ensures model.mru[i] in model.items && model.mru[i] in r.entries
      ensures var value, p := model.items[model.mru[i]].value, r.entries[model.mru[i]].entry.data;
              if value == [] then p == NULL
              else p in r.blocks && p in r.owner && |r.blocks[p]| == |value| && IndexOfKey(model.mru, r.owner[p]) == i
    {
      HousedAt(r, model, i);
    }
    forall p | p in r.blocks
      ensures p in r.owner
      ensures var i := IndexOfKey(model.mru, r.owner[p]);
              && i < |model.mru| && model.mru[i] in model.items && model.mru[i] in r.entries
              && model.items[model.mru[i]].value != [] && r.entries[model.mru[i]].entry.data == p
    {
      TenantAt(r, model, p);
    }
  }

  ghost function NoDemand(): Demand {
    Demand(seq(CLASS_COUNT, _ => 0), 0)
  }

  /** The running peaks, with `held` taken into account. */
  ghost function Raised(peaks: seq<nat>, held: map<nat, Bytes>, backend: Backend): seq<nat> {
    seq(|peaks|, i requires 0 <= i < |peaks| => Max(peaks[i], |AllocatorRuns.InClass(held, backend, i)|))
  }

  /**
   What storing `value` asks of the allocator: its block is taken while the old
   value and every value about to be evicted still have theirs.
   */
  ghost function Demanded(d: Demand, s: Spec, backend: Backend, value: Bytes): Demand {
    if value == [] then d else
      Demand(Raised(d.peaks, HeldBy(s)[|s.mru| := value], backend), d.allocations + 1)
  }

  /** Only a set that passes its checks asks for memory, even if it then finds the generations exhausted. */
  ghost function DemandStep(d: Demand, s: Spec, backend: Backend, command: Command): Demand {
    if command.Set? && Check(s, command) == Ok then Demanded(d, s, backend, command.value) else d
  }

  ghost function DemandAfter(capacity: nat, backend: Backend, commands: seq<Command>): Demand {
    if commands == [] then NoDemand() else
      var earlier := commands[..|commands| - 1];
      DemandStep(DemandAfter(capacity, backend, earlier), Run(Empty(capacity), earlier), backend, commands[|commands| - 1])
  }

  /** Taking a block raises the peaks as the values then held demand. */
  lemma DemandGrows(d: Demand, a: ValueAllocator, r: Rep, model: Spec, value: Bytes, p: nat)
    requires Represents(r, model, NULL) && a.Valid()
    requires if value == [] then a.Asked() == d else
               && p != NULL && p !in r.blocks && p in a.Blocks() && |a.Blocks()[p]| == |value|
               && a.Blocks() == r.blocks[p := a.Blocks()[p]]
               && PeaksTrack(d.peaks, a.peaks, a.shape) && a.metrics.allocationCount == d.allocations + 1
    ensures a.Asked() == Demanded(d, model, a.backend, value)
  {
    hide Represents, ValueAllocator.Valid, HeldBy, PlacesOf, TenantsOf, AllocatorRuns.Housed, PeaksTrack, Raised;
    if value != [] {
      var n := |model.mru|;
      var held := HeldBy(model)[n := value];
      EntriesAreHoused(r, model);
      NotHeld(model);
      AllocatorRuns.PutHoused(HeldBy(model), PlacesOf(r, model), TenantsOf(r, model), r.blocks, n, value, p, a.Blocks()[p]);
      PeaksAsHeld(d.peaks, a, held, PlacesOf(r, model)[n := p], TenantsOf(r, model)[p := n]);
    }
  }

  lemma PeaksAsHeld(before: seq<nat>, a: ValueAllocator, held: map<nat, Bytes>, places: map<nat, nat>, tenant: map<nat, nat>)
    requires a.Valid() && AllocatorRuns.Housed(held, places, tenant, a.Blocks()) && PeaksTrack(before, a.peaks, a.shape)
    ensures a.peaks == Raised(before, held, a.backend)
  {
    hide ValueAllocator.Valid, LiveOf, AllocatorRuns.InClass, AllocatorRuns.Housed;
    AllocatorRuns.HealthyIsSound(a);
    hide Sound;
    forall i | 0 <= i < CLASS_COUNT
      ensures a.peaks[i] == Max(before[i], |AllocatorRuns.InClass(held, a.backend, i)|)
    {
      AllocatorRuns.LiveCount(a.shape, held, places, tenant, i);
    }
  }

  lemma NotHeld(model: Spec)
    ensures |model.mru| !in HeldBy(model)
  {
  }

  /**
   Whole-run refinement.  For every capacity, either allocator backend and every
   sequence of commands, the implementation answers exactly as the reference
   cache does and ends with the same order, size, usage and counters.  All allocator
   metrics and the slabs of each class follow from the history too; the peaks count
   a new value while the values it replaces and evicts are still there.
   */
  method Replay(capacity: nat, backend: Backend, commands: seq<Command>)
    returns (outcomes: seq<Outcome>, report: Report, metrics: Metrics, slabs: seq<nat>)
    ensures outcomes == Answers(Empty(capacity), commands)
    ensures report == ReportOf(Run(Empty(capacity), commands))
    ensures var demand := DemandAfter(capacity, backend, commands);
            && AllocatorRuns.Footprint(HeldBy(Run(Empty(capacity), commands)), demand.peaks, backend, metrics, slabs)
            && metrics.allocationCount == demand.allocations
  {
    hide Cache.Valid, After, Answer, ReportOf, DemandStep, HeldBy, AllocatorRuns.Footprint;
    var cache := new Cache(capacity, backend);
    outcomes := [];
    for i := 0 to |commands|
      invariant cache.Valid() && fresh(cache.Repr)
      invariant cache.model == Run(Empty(capacity), commands[..i])
      invariant outcomes == Answers(Empty(capacity), commands[..i])
      invariant cache.allocator.backend == backend && cache.allocator.Asked() == DemandAfter(capacity, backend, commands[..i])
    {
      assert commands[..i + 1][..i] == commands[..i];
      var outcome := Execute(cache, commands[i]);
      outcomes := outcomes + [outcome];
    }
    assert commands[..|commands|] == commands;
    report := cache.Summarize();
    metrics, slabs := cache.Figures();
  }

  /**
   What the accessors of a cache tell, in terms of its history alone: hits and misses
   are the gets answered so; every key ever inserted is counted once, as stored,
   evicted, expired or erased; the order is that of last use; usage is the stored
   values' bytes and their keys', and is within capacity.
   */
  lemma ReportTellsHistory(capacity: nat, commands: seq<Command>)
    ensures |Answers(Empty(capacity), commands)| == |commands|
    ensures var report, answers := ReportOf(Run(Empty(capacity), commands)), Answers(Empty(capacity), commands);
            && report.hits == CacheLaws.GetsAnswered(commands, answers, Ok)
            && report.misses == CacheLaws.GetsAnswered(commands, answers, NotFound)
            && report.size + report.evictions + report.expired + CacheLaws.ErasesAccepted(commands, answers)
               == CacheLaws.Insertions(capacity, commands)
            && report.size == |report.recencyOrder| && NoDuplicates(report.recencyOrder)
            && RecencyLaw.ByRecency(capacity, commands, report.recencyOrder)
            && report.usedBytes <= report.memoryUsage <= capacity
            && report.memoryUsage == report.usedBytes + Total(KeyBytes, report.recencyOrder, Run(Empty(capacity), commands).items)
            && (forall k :: k in report.recencyOrder <==> k in Run(Empty(capacity), commands).items)
  {
    hide RecencyLaw.ByRecency, Run, Answers;
    var s := Run(Empty(capacity), commands);
    EmptyIsValid(capacity);
    RunValid(Empty(capacity), commands);
    CacheLaws.CountersAreHistory(capacity, commands);
    CacheLaws.ItemsAreConserved(capacity, commands);
    CacheLaws.ListedSize(s.mru, s.items);
    RecencyLaw.RecencyIsLastUse(capacity, commands);
    ChargeSplits(s.mru, s.items);
    RunCapacity(capacity, commands);
    hide Total;
  }

  lemma {:induction false} RunCapacity(capacity: nat, commands: seq<Command>)
    ensures Run(Empty(capacity), commands).capacity == capacity
  {
    if commands != [] {
      RunCapacity(capacity, commands[..|commands| - 1]);
      hide Keep, Without, Survivors, Restrict;
    }
  }

  method Execute(cache: Cache, command: Command) returns (outcome: Outcome)
    requires cache.Valid()
    modifies cache.Repr
    ensures cache.Valid()
    ensures outcome == Answer(old(cache.model), command)
    ensures cache.model == After(old(cache.model), command)
    ensures cache.allocator.Asked()
         == DemandStep(old(cache.allocator.Asked()), old(cache.model), cache.allocator.backend, command)
  {
    hide Cache.Valid, After;
    match command {
      case Set(key, value, ttl) => outcome := cache.Set(key, value, ttl);
      case Get(key) => outcome := cache.Get(key);
      case Erase(key) => outcome := cache.Erase(key);
      case Tick =>
        cache.Tick();
        outcome := Returned(Ok, None);
    }
  }

  // ---- What holds between any two operations ----

  /**
   Cross-layer conservation: logical usage is the allocator's live bytes plus the
   key bytes, outstanding allocations are the non-empty values, usage is within
   capacity, and every live block belongs to exactly one entry.
   */
  lemma Conservation(cache: Cache)
    requires cache.Valid()
    ensures cache.memoryUsage == cache.allocator.metrics.usedBytes + Total(KeyBytes, cache.model.mru, cache.model.items)
    ensures cache.memoryUsage <= cache.capacity
    ensures cache.allocator.metrics.allocationCount
         == cache.allocator.metrics.deallocationCount + Total(NonEmptyValues, cache.model.mru, cache.model.items)
    ensures forall p :: p in cache.allocator.Blocks() ==>
              exists k :: k in cache.entries && cache.entries[k].entry.data == p
    ensures forall k, k' :: k in cache.entries && k' in cache.entries && k != k' ==>
              cache.entries[k].entry.data == NULL || cache.entries[k].entry.data != cache.entries[k'].entry.data
  {
    hide Healthy, TimingWheel.Valid, Recency, Timers, Total;
    ChargeSplits(cache.model.mru, cache.model.items);
    BlocksHaveOneOwner(cache.Snapshot(multiset{}), cache.model);
  }

  lemma BlocksHaveOneOwner(r: Rep, model: Spec)
    requires Represents(r, model, NULL)
    ensures forall p :: p in r.blocks ==> exists k :: k in r.entries && r.entries[k].entry.data == p
    ensures forall k, k' :: k in r.entries && k' in r.entries && k != k' ==>
              r.entries[k].entry.data == NULL || r.entries[k].entry.data != r.entries[k'].entry.data
  {
    hide Recency, Timers, Budget;
    forall p | p in r.blocks ensures exists k :: k in r.entries && r.entries[k].entry.data == p {
      assert r.owner[p] in r.entries;
    }
    forall k, k' | k in r.entries && k' in r.entries && k != k'
      ensures r.entries[k].entry.data == NULL || r.entries[k].entry.data != r.entries[k'].entry.data
    {
      assert Holds(r.entries[k].entry, model.items[k].value, r.blocks);
      assert Holds(r.entries[k'].entry, model.items[k'].value, r.blocks);
    }
  }

  /**
   Stale-timer safety: a live value with a deadline has exactly one wheel event
   with its key and generation, due at that deadline; a value without one has
   none.
   */
  lemma OneTimerPerDeadline(cache: Cache, key: Key)
    requires cache.Valid() && key in cache.entries
    ensures key in cache.model.items
    ensures var deadline, generation := cache.model.items[key].deadline, cache.entries[key].generation;
            && (deadline.Some? ==> cache.wheel.pending[Alarm(key, generation, deadline.value)] == 1)
            && (forall a :: a in cache.wheel.pending && a.key == key && a.generation == generation ==>
                  deadline == Some(a.due))
            && 1 <= generation <= |cache.model.written|
            && cache.model.written[generation - 1] == Write(key, cache.model.items[key])
  {
    hide Healthy, TimingWheel.Valid, Recency, Owned, Budget;
    assert cache.wheel.pending + multiset{} == cache.wheel.pending;
  }

  ghost function AlarmsOf(events: seq<TimerEvent>, now: nat): multiset<Alarm> {
    if events == [] then multiset{} else multiset{AlarmOf(events[0], now)} + AlarmsOf(events[1..], now)
  }

  lemma {:induction false} AlarmsOfCount(events: seq<TimerEvent>, now: nat, a: Alarm)
    ensures AlarmsOf(events, now)[a] == Count(events, now, a)
  {
    if events != [] {
      AlarmsOfCount(events[1..], now, a);
      assert events == [events[0]] + events[1..];
      CountConcat([events[0]], events[1..], now, a);
      CountOne(events[0], now, a);
    }
  }

  /** Stale-timer safety: an event whose generation is not the entry's may be dropped without a trace. */
  lemma StaleIsHarmless(r: Rep, model: Spec, pending: multiset<Alarm>, a: Alarm)
    requires Represents(r, model, NULL) && r.pending == multiset{a} + pending
    requires a.key in r.entries ==> r.entries[a.key].generation != a.generation
    ensures Represents(r.(pending := pending), model, NULL)
  {
    hide Recency, Owned, Budget, Listed;
    TimersDropStale(r.entries, model.items, r.pending, pending, r.source, model.written, a);
  }

  /** An event that matches was armed by the set that wrote the value, and fires at that value's deadline. */
  lemma MatchIsDue(r: Rep, model: Spec, a: Alarm)
    requires Represents(r, model, NULL) && a in r.pending && a.due == model.now
    requires a.key in r.entries && r.entries[a.key].generation == a.generation
    ensures Listed(model) && a.key in model.items && model.items[a.key].deadline == Some(model.now)
    ensures 1 <= a.generation <= |model.written| && model.written[a.generation - 1] == Write(a.key, model.items[a.key])
  {
    hide Recency, Owned, Budget;
  }

  /** When only future events are left, no stored value is due. */
  lemma NothingDue(r: Rep, model: Spec)
    requires Represents(r, model, NULL) && forall a :: a in r.pending ==> model.now < a.due
    ensures Listed(model) && forall k :: k in model.items ==> model.items[k].deadline != Some(model.now)
  {
    hide Recency, Budget;
    forall k | k in model.items && model.items[k].deadline.Some? ensures model.now < model.items[k].deadline.value {
      var a := Alarm(k, r.entries[k].generation, model.items[k].deadline.value);
      assert r.pending[a] == 1;
    }
  }

  ghost predicate SameCounters(s: Spec, t: Spec) {
    && s.capacity == t.capacity && s.now == t.now
    && s.hits == t.hits && s.misses == t.misses && s.evictions == t.evictions && s.expired == t.expired
  }

  /** Once the new value fits, swapping it in is exactly one store. */
  lemma SwapPlan(r: Rep, model: Spec, key: Key, replacement: CacheEntry, item: Item)
    requires Represents(r, model, replacement.data) && key in r.entries && model.mru != [] && model.mru[0] == key
    requires Holds(replacement, item.value, r.blocks) && JustArmed(r.pending, r.source, key, item.deadline)
    requires r.source == |model.written| + 1 && |key| + |item.value| <= model.capacity
    requires r.usage - (|key| + r.entries[key].entry.size) <= model.capacity - (|key| + |item.value|)
    ensures replacement.size == |item.value| && |key| + r.entries[key].entry.size <= r.usage
    ensures r.entries[key].entry.size == SpareBytes(r.blocks, r.entries[key].entry.data)
    ensures SameCounters(Store(model, key, item), model) && |Store(model, key, item).written| == |model.written| + 1
    ensures Represents(Swapped(r, key, replacement, item.value), Store(model, key, item), r.entries[key].entry.data)
  {
    hide Represents, Store, Holds, JustArmed, Without, Others, Total;
    KeyIsListed(r, model, replacement.data, key);
    OthersUsage(r, model, replacement.data, key);
    StoreWhenFitting(model, key, item);
    FrontStays(model, key);
    EntryIsReturnable(r, model, replacement.data, key);
    SwapRepresents(r, model, key, replacement, item);
    HeldLength(replacement, item.value, r.blocks);
    CountersDoNotMatter(Swapped(r, key, replacement, item.value), Wrote(model, key, item, model.mru), Store(model, key, item),
                        r.entries[key].entry.data);
  }

  /** Once the new entry fits, adding it is exactly one store. */
  lemma InsertPlan(r: Rep, model: Spec, key: Key, entry: CacheEntry, item: Item)
    requires Represents(r, model, entry.data) && key !in r.entries
    requires Holds(entry, item.value, r.blocks) && JustArmed(r.pending, r.source, key, item.deadline)
    requires r.source == |model.written| + 1 && |key| + |item.value| <= model.capacity
    requires r.usage <= model.capacity - (|key| + |item.value|)
    ensures SameCounters(Store(model, key, item), model) && |Store(model, key, item).written| == |model.written| + 1
    ensures Represents(Inserted(r, key, entry, item.value), Store(model, key, item), NULL)
  {
    hide Represents, Store, Holds, JustArmed, Without, Others, Total;
    AllUsage(r, model, entry.data, key);
    StoreWhenFitting(model, key, item);
    WithoutAbsent(model.mru, key);
    InsertRepresents(r, model, key, entry, item);
    CountersDoNotMatter(Inserted(r, key, entry, item.value), Wrote(model, key, item, [key] + model.mru),
                        Store(model, key, item), NULL);
  }

  lemma DropWritten(model: Spec, key: Key)
    ensures Drop(model, key).written == model.written
  {
  }

  /** An entry's block holds its value. */
  lemma EntryReads(r: Rep, model: Spec, spare: nat, key: Key)
    requires Represents(r, model, spare) && key in r.entries
    ensures var entry := r.entries[key].entry;
            && key in model.items && entry.size == |model.items[key].value|
            && (entry.size != 0 ==>
                  && entry.data in r.blocks && |r.blocks[entry.data]| == entry.size
                  && AsBytes(r.blocks[entry.data]) == model.items[key].value)
  {
    hide Recency, Timers, Budget;
    assert Holds(r.entries[key].entry, model.items[key].value, r.blocks);
    AsBytesOfAsCells(model.items[key].value);
  }

  lemma HeldLength(entry: CacheEntry, value: Bytes, blocks: Blocks)
    requires Holds(entry, value, blocks)
    ensures entry.size == |value|
  {
  }

  lemma HeldSize(entry: CacheEntry, value: Bytes, blocks: Blocks, r: Rep, model: Spec)
    requires Holds(entry, value, blocks) && Represents(r, model, entry.data) && r.blocks == blocks
    ensures entry.size == SpareBytes(blocks, entry.data)
  {
    hide Recency, Owned, Timers, Budget;
  }

  lemma KeyIsListed(r: Rep, model: Spec, spare: nat, key: Key)
    requires Represents(r, model, spare) && key in r.entries
    ensures key in model.items && key in model.mru && Listed(model)
  {
    hide Recency, Timers, Budget;
  }

  /** What the loop guard measures is the charge of all the other keys. */
  lemma OthersUsage(r: Rep, model: Spec, spare: nat, key: Key)
    requires Represents(r, model, spare) && key in r.entries
    ensures r.usage == Others(model, key) + |key| + r.entries[key].entry.size
  {
    hide Recency, Timers, Without, Total;
    KeyIsListed(r, model, spare, key);
    EntryIsReturnable(r, model, spare, key);
    TotalWithout(ChargeBytes, model.mru, model.items, key);
  }

  lemma AllUsage(r: Rep, model: Spec, spare: nat, key: Key)
    requires Represents(r, model, spare) && key !in r.entries
    ensures key !in model.items && key !in model.mru && Listed(model)
    ensures r.usage == Others(model, key)
  {
    hide Recency, Timers, Without, Total;
    WithoutAbsent(model.mru, key);
  }

  lemma {:induction false} FrontStays(model: Spec, key: Key)
    requires Listed(model) && model.mru != [] && model.mru[0] == key
    ensures [key] + Without(model.mru, key) == model.mru
  {
    hide Without;
    WithoutAt(model.mru, 0);
    assert model.mru == [key] + (model.mru[..0] + model.mru[1..]);
  }

  /** A value stays readable while its block keeps its contents. */
  lemma StillHolds(r: Rep, model: Spec, entry: CacheEntry, value: Bytes)
    requires Represents(r, model, entry.data) && Holds(entry, value, r.blocks)
    ensures forall blocks: Blocks ::
              (entry.data in r.blocks ==> entry.data in blocks && blocks[entry.data] == r.blocks[entry.data]) ==>
                Holds(entry, value, blocks)
  {
  }

  lemma CountersDoNotMatter(r: Rep, model: Spec, model': Spec, spare: nat)
    requires Represents(r, model, spare) && model'.items == model.items && model'.mru == model.mru
    requires model'.written == model.written
    ensures Represents(r, model', spare)
  {
    hide Recency, Owned, Timers;
  }

  lemma LastNode(r: Rep, model: Spec, spare: nat)
    requires Represents(r, model, spare) && model.mru != []
    ensures r.nodes != [] && r.nodes[|r.nodes| - 1].key == model.mru[|model.mru| - 1]
    ensures model.mru[|model.mru| - 1] in r.entries
  {
    hide Owned, Timers, Budget;
  }

  lemma SpareIsReturnable(r: Rep, model: Spec, spare: nat)
    requires Represents(r, model, spare)
    ensures spare != NULL ==> spare in r.blocks && 0 < |r.blocks[spare]|
    ensures NULL !in r.blocks && r.blocks - {NULL} == r.blocks
  {
    hide Recency, Timers, Budget;
  }
}
