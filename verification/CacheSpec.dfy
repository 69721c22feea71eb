/**
 The reference cache: what a shard promises, with no wheel, no generations, no
 list nodes and no memory blocks.  A value carries an absolute deadline, recency
 is a sequence of keys from most to least recently used, and time is a number.
 */
module CacheSpec {
  import opened Basics
  import TimingWheels

  const MAX_KEY_LENGTH := 250
  const MAX_VALUE_LENGTH := 1024 * 1024
  const MAX_GENERATION := 0xFFFF_FFFF_FFFF_FFFF

  datatype Status = Ok | NotFound | InvalidKey | KeyTooLarge | ValueTooLarge | ItemTooLarge | InvalidTtl

  datatype Item = Item(value: Bytes, deadline: Option<nat>)

  /** One accepted set: the key it wrote, and the value with its deadline. */
  datatype Write = Write(key: Key, item: Item)

  /** `written` are the accepted sets so far, oldest first: set number `g` drew generation `g`. */
  datatype Spec = Spec(
    capacity: nat,
    items: map<Key, Item>,
    mru: seq<Key>,
    now: nat,
    written: seq<Write>,
    hits: nat,
    misses: nat,
    evictions: nat,
    expired: nat)

  datatype Command = Set(key: Key, value: Bytes, ttl: int) | Get(key: Key) | Erase(key: Key) | Tick

  /** `output` is None when the call leaves the caller's output string alone. */
  datatype Outcome = Returned(status: Status, output: Option<Bytes>) | GenerationExhausted

  // ---- Measures over a sequence of keys ----

  datatype Measure = ChargeBytes | KeyBytes | ValueBytes | NonEmptyValues

  function Weigh(measure: Measure, key: Key, value: Bytes): nat {
    match measure
    case ChargeBytes => |key| + |value|
    case KeyBytes => |key|
    case ValueBytes => |value|
    case NonEmptyValues => if value == [] then 0 else 1
  }

  function WeighItem(measure: Measure, key: Key, items: map<Key, Item>): nat {
    if key in items then Weigh(measure, key, items[key].value) else 0
  }

  function Total(measure: Measure, keys: seq<Key>, items: map<Key, Item>): nat {
    if keys == [] then 0 else
      Total(measure, keys[..|keys| - 1], items) + WeighItem(measure, keys[|keys| - 1], items)
  }

  function Without(keys: seq<Key>, key: Key): seq<Key> {
    if keys == [] then [] else
      Without(keys[..|keys| - 1], key) + if keys[|keys| - 1] == key then [] else [keys[|keys| - 1]]
  }

  /** The keys that survive when least recently used keys are dropped until `budget` holds the rest. */
  function Keep(keys: seq<Key>, items: map<Key, Item>, budget: nat): seq<Key> {
    if Total(ChargeBytes, keys, items) <= budget then keys else
      Keep(keys[..|keys| - 1], items, budget)
  }

  function Survivors(keys: seq<Key>, items: map<Key, Item>, now: nat): seq<Key> {
    if keys == [] then [] else
      var last := keys[|keys| - 1];
      Survivors(keys[..|keys| - 1], items, now)
      + if last in items && items[last].deadline == Some(now) then [] else [last]
  }

  function Restrict(items: map<Key, Item>, keys: seq<Key>): map<Key, Item> {
    map k | k in items && k in keys :: items[k]
  }

  // ---- The commands ----

  function ValidateKey(key: Key): Status {
    if key == [] then InvalidKey
    else if |key| > MAX_KEY_LENGTH then KeyTooLarge
    else Ok
  }

  function Deadline(now: nat, ttl: int): Option<nat> {
    if 0 < ttl then Some(now + TimingWheels.Ticks(ttl)) else None
  }

  function Drop(s: Spec, key: Key): Spec {
    s.(items := s.items - {key}, mru := Without(s.mru, key))
  }

  function Touch(s: Spec, key: Key): Spec {
    s.(mru := [key] + Without(s.mru, key))
  }

  /** Stores `key` as most recently used, after evicting as few other keys as possible. */
  function Store(s: Spec, key: Key, item: Item): Spec
    requires |key| + |item.value| <= s.capacity
  {
    var others := Without(s.mru, key);
    Admit(s, key, item, others, Keep(others, s.items, s.capacity - (|key| + |item.value|)))
  }

  function Admit(s: Spec, key: Key, item: Item, others: seq<Key>, kept: seq<Key>): Spec {
    s.(items := Restrict(s.items, kept)[key := item],
       mru := [key] + kept,
       written := s.written + [Write(key, item)],
       evictions := if |kept| <= |others| then s.evictions + |others| - |kept| else s.evictions)
  }

  /** One second passes on `s`, whose clock already reads the new tick. */
  function Expire(s: Spec): Spec {
    Retain(s, Survivors(s.mru, s.items, s.now))
  }

  function Retain(s: Spec, kept: seq<Key>): Spec {
    s.(items := Restrict(s.items, kept),
       mru := kept,
       expired := if |kept| <= |s.mru| then s.expired + |s.mru| - |kept| else s.expired)
  }

  function Check(s: Spec, command: Command): Status {
    match command
    case Tick => Ok
    case Get(key) =>
      if ValidateKey(key) != Ok then ValidateKey(key) else if key in s.items then Ok else NotFound
    case Erase(key) =>
      if ValidateKey(key) != Ok then ValidateKey(key) else if key in s.items then Ok else NotFound
    case Set(key, value, ttl) =>
      if ValidateKey(key) != Ok then ValidateKey(key)
      else if |value| > MAX_VALUE_LENGTH then ValueTooLarge
      else if ttl < 0 then InvalidTtl
      else if |key| + |value| > s.capacity then ItemTooLarge
      else Ok
  }

  function Answer(s: Spec, command: Command): Outcome {
    var status := Check(s, command);
    match command
    case Set(_, _, _) =>
      if status == Ok && |s.written| >= MAX_GENERATION then GenerationExhausted else Returned(status, None)
    case Get(key) => Returned(status, if status == Ok && key in s.items then Some(s.items[key].value) else None)
    case _ => Returned(status, None)
  }

  function After(s: Spec, command: Command): Spec {
    var status := Check(s, command);
    match command
    case Tick => Expire(s.(now := s.now + 1))
    case Get(key) =>
      if status == Ok then Touch(s, key).(hits := s.hits + 1)
      else if status == NotFound then s.(misses := s.misses + 1)
      else s
    case Erase(key) => if status == Ok then Drop(s, key) else s
    case Set(key, value, ttl) =>
      if status == Ok && |s.written| < MAX_GENERATION then Store(s, key, Item(value, Deadline(s.now, ttl))) else s
  }

  function Run(s: Spec, commands: seq<Command>): Spec {
    if commands == [] then s else After(Run(s, commands[..|commands| - 1]), commands[|commands| - 1])
  }

  function Answers(s: Spec, commands: seq<Command>): seq<Outcome> {
    if commands == [] then [] else
      var earlier := commands[..|commands| - 1];
      Answers(s, earlier) + [Answer(Run(s, earlier), commands[|commands| - 1])]
  }

  function Empty(capacity: nat): Spec {
    Spec(capacity, map[], [], 0, [], 0, 0, 0, 0)
  }

  // ---- The invariant ----

  ghost predicate Listed(s: Spec) {
    && NoDuplicates(s.mru)
    && forall k :: k in s.mru <==> k in s.items
  }

  ghost predicate Bounded(items: map<Key, Item>) {
    forall k :: k in items ==> 1 <= |k| <= MAX_KEY_LENGTH && |items[k].value| <= MAX_VALUE_LENGTH
  }

  ghost predicate Future(items: map<Key, Item>, now: nat) {
    forall k :: k in items && items[k].deadline.Some? ==> now < items[k].deadline.value
  }

  ghost predicate Valid(s: Spec) {
    && Listed(s)
    && Total(ChargeBytes, s.mru, s.items) <= s.capacity
    && Bounded(s.items)
    && Future(s.items, s.now)
    && |s.written| <= MAX_GENERATION
  }

  // ---- Laws of the key-sequence functions ----

  lemma {:induction false} WithoutAbsent(keys: seq<Key>, key: Key)
    requires key !in keys
    ensures Without(keys, key) == keys
  {
    if keys != [] {
      assert keys == keys[..|keys| - 1] + [keys[|keys| - 1]];
      WithoutAbsent(keys[..|keys| - 1], key);
    }
  }

  /** In a duplicate-free list, removing a key is cutting out its one position. */
  lemma {:induction false} WithoutAt(keys: seq<Key>, i: nat)
    requires NoDuplicates(keys) && i < |keys|
    ensures Without(keys, keys[i]) == keys[..i] + keys[i + 1..]
  {
    var n := |keys| - 1;
    var front := keys[..n];
    if i == n {
      WithoutAbsent(front, keys[i]);
    } else {
      WithoutAt(front, i);
      assert keys[..i] + keys[i + 1..] == front[..i] + front[i + 1..] + [keys[n]];
    }
  }

  lemma {:induction false} WithoutMembers(keys: seq<Key>, key: Key)
    ensures forall k :: k in Without(keys, key) <==> k in keys && k != key
    ensures NoDuplicates(keys) ==> NoDuplicates(Without(keys, key))
    ensures |Without(keys, key)| <= |keys|
  {
    if keys != [] {
      var front, last := keys[..|keys| - 1], keys[|keys| - 1];
      assert keys == front + [last];
      WithoutMembers(front, key);
      if NoDuplicates(keys) {
        NoDuplicatesAppend(Without(front, key), last);
      }
    }
  }

  lemma {:induction false} WithoutFront(key: Key, keys: seq<Key>)
    requires key !in keys
    ensures Without([key] + keys, key) == keys
  {
    if keys == [] {
      assert ([key] + keys)[..0] == [];
    } else {
      var n := |keys| - 1;
      assert ([key] + keys)[..|keys|] == [key] + keys[..n];
      WithoutFront(key, keys[..n]);
      assert keys == keys[..n] + [keys[n]];
    }
  }

  /** Totals depend only on the items of the keys that are summed. */
  lemma {:induction false} TotalFrame(measure: Measure, keys: seq<Key>, items: map<Key, Item>, items': map<Key, Item>)
    requires forall k :: k in keys ==> (k in items <==> k in items') && (k in items ==> items[k].value == items'[k].value)
    ensures Total(measure, keys, items) == Total(measure, keys, items')
  {
    if keys != [] {
      assert keys[|keys| - 1] in keys;
      TotalFrame(measure, keys[..|keys| - 1], items, items');
    }
  }

  lemma {:induction false} TotalConcat(measure: Measure, a: seq<Key>, b: seq<Key>, items: map<Key, Item>)
    ensures Total(measure, a + b, items) == Total(measure, a, items) + Total(measure, b, items)
  {
    if b == [] {
      assert a + b == a;
    } else {
      var n := |b| - 1;
      assert (a + b)[..|a + b| - 1] == a + b[..n];
      TotalConcat(measure, a, b[..n], items);
    }
  }

  lemma {:induction false} TotalOne(measure: Measure, key: Key, items: map<Key, Item>)
    ensures Total(measure, [key], items) == WeighItem(measure, key, items)
  {
    assert [key][..0] == [];
    assert Total(measure, [], items) == 0;
  }

  lemma {:induction false} TotalFront(measure: Measure, key: Key, keys: seq<Key>, items: map<Key, Item>)
    ensures Total(measure, [key] + keys, items) == WeighItem(measure, key, items) + Total(measure, keys, items)
  {
    TotalConcat(measure, [key], keys, items);
    TotalOne(measure, key, items);
  }

  /** A listed key contributes its own weight, and the rest is what is left without it. */
  lemma {:induction false} TotalWithout(measure: Measure, keys: seq<Key>, items: map<Key, Item>, key: Key)
    requires NoDuplicates(keys) && key in keys
    ensures Total(measure, keys, items)
         == Total(measure, Without(keys, key), items) + WeighItem(measure, key, items)
  {
    var front, last := keys[..|keys| - 1], keys[|keys| - 1];
    assert keys == front + [last];
    if last == key {
      WithoutAbsent(front, key);
      assert Without(keys, key) == front;
    } else {
      TotalWithout(measure, front, items, key);
      var rest := Without(front, key) + [last];
      assert Without(keys, key) == rest && rest[..|rest| - 1] == Without(front, key);
    }
  }

  /** The charge of a set of entries is its key bytes plus its value bytes. */
  lemma {:induction false} ChargeSplits(keys: seq<Key>, items: map<Key, Item>)
    ensures Total(ChargeBytes, keys, items) == Total(KeyBytes, keys, items) + Total(ValueBytes, keys, items)
  {
    if keys != [] {
      ChargeSplits(keys[..|keys| - 1], items);
    }
  }

  /**
   Minimal eviction: the kept keys are a prefix of the recency order, they fit,
   and keeping one key more would not fit.
   */
  lemma {:induction false} KeepIsLongestFittingPrefix(keys: seq<Key>, items: map<Key, Item>, budget: nat)
    ensures var kept := Keep(keys, items, budget);
            && kept <= keys
            && Total(ChargeBytes, kept, items) <= budget
            && (|kept| < |keys| ==> Total(ChargeBytes, keys[..|kept| + 1], items) > budget)
  {
    if Total(ChargeBytes, keys, items) > budget {
      var front := keys[..|keys| - 1];
      KeepIsLongestFittingPrefix(front, items, budget);
      var kept := Keep(front, items, budget);
      if |kept| < |front| {
        assert keys[..|kept| + 1] == front[..|kept| + 1];
      } else {
        assert keys[..|kept| + 1] == keys;
      }
    }
  }

  lemma {:induction false} KeepFrame(keys: seq<Key>, items: map<Key, Item>, items': map<Key, Item>, budget: nat)
    requires forall k :: k in keys ==> k in items && k in items' && items[k] == items'[k]
    ensures Keep(keys, items, budget) == Keep(keys, items', budget)
  {
    TotalFrame(ChargeBytes, keys, items, items');
    if Total(ChargeBytes, keys, items) > budget {
      KeepFrame(keys[..|keys| - 1], items, items', budget);
    }
  }

  lemma {:induction false} SurvivorsMembers(keys: seq<Key>, items: map<Key, Item>, now: nat)
    ensures forall k :: k in Survivors(keys, items, now)
                   <==> k in keys && !(k in items && items[k].deadline == Some(now))
    ensures NoDuplicates(keys) ==> NoDuplicates(Survivors(keys, items, now))
    ensures |Survivors(keys, items, now)| <= |keys|
  {
    if keys != [] {
      var front, last := keys[..|keys| - 1], keys[|keys| - 1];
      assert keys == front + [last];
      SurvivorsMembers(front, items, now);
      if NoDuplicates(keys) {
        NoDuplicatesAppend(Survivors(front, items, now), last);
      }
    }
  }

  lemma {:induction false} SurvivorsTotal(measure: Measure, keys: seq<Key>, items: map<Key, Item>, now: nat)
    ensures Total(measure, Survivors(keys, items, now), items) <= Total(measure, keys, items)
  {
    if keys != [] {
      var n := |keys| - 1;
      SurvivorsTotal(measure, keys[..n], items, now);
      TotalConcat(measure, Survivors(keys[..n], items, now), [keys[n]], items);
      TotalOne(measure, keys[n], items);
      assert Survivors(keys[..n], items, now) + [] == Survivors(keys[..n], items, now);
    }
  }

  /** Removing a key that is due, or that belongs to none of the items looked at, changes no survivor. */
  lemma {:induction false} SurvivorsWithout(keys: seq<Key>, items: map<Key, Item>, now: nat, key: Key)
    requires key in items && items[key].deadline == Some(now)
    ensures Survivors(Without(keys, key), items - {key}, now) == Survivors(keys, items, now)
  {
    if keys != [] {
      var n := |keys| - 1;
      SurvivorsWithout(keys[..n], items, now, key);
      if keys[n] == key {
        assert Without(keys[..n], key) + [] == Without(keys[..n], key);
      } else {
        var rest := Without(keys[..n], key) + [keys[n]];
        assert rest[..|rest| - 1] == Without(keys[..n], key);
      }
    }
  }

  lemma {:induction false} SurvivorsAll(keys: seq<Key>, items: map<Key, Item>, now: nat)
    requires forall k :: k in keys && k in items ==> items[k].deadline != Some(now)
    ensures Survivors(keys, items, now) == keys
  {
    if keys != [] {
      assert keys == keys[..|keys| - 1] + [keys[|keys| - 1]];
      SurvivorsAll(keys[..|keys| - 1], items, now);
    }
  }

  // ---- Step laws the implementation is proved with ----

  ghost function Others(s: Spec, key: Key): nat {
    Total(ChargeBytes, Without(s.mru, key), s.items)
  }

  lemma DropListed(s: Spec, key: Key)
    requires Listed(s)
    ensures Listed(Drop(s, key))
  {
    WithoutMembers(s.mru, key);
  }

  lemma TouchListed(s: Spec, key: Key)
    requires Listed(s) && key in s.items
    ensures Listed(Touch(s, key))
    ensures Total(ChargeBytes, Touch(s, key).mru, s.items) == Total(ChargeBytes, s.mru, s.items)
  {
    WithoutMembers(s.mru, key);
    TotalFront(ChargeBytes, key, Without(s.mru, key), s.items);
    TotalWithout(ChargeBytes, s.mru, s.items, key);
  }

  /** Making the key most recently used first does not change what a store produces. */
  lemma TouchThenStore(s: Spec, key: Key, item: Item)
    requires Listed(s) && key in s.items && |key| + |item.value| <= s.capacity
    ensures Store(Touch(s, key), key, item) == Store(s, key, item)
  {
    hide Keep, Total, Without, Listed, Restrict;
    WithoutMembers(s.mru, key);
    WithoutFront(key, Without(s.mru, key));
  }

  /** What is kept does not change when the last of too many keys goes first. */
  lemma {:induction false} KeepAfterEviction(front: seq<Key>, last: Key, items: map<Key, Item>, budget: nat)
    requires last !in front && forall k :: k in front ==> k in items
    requires Total(ChargeBytes, front + [last], items) > budget
    ensures Keep(front + [last], items, budget) == Keep(front, items - {last}, budget)
    ensures Keep(front, items, budget) == Keep(front, items - {last}, budget)
    ensures last !in Keep(front, items, budget)
    ensures |Keep(front, items, budget)| <= |front|
  {
    assert (front + [last])[..|front|] == front;
    KeepFrame(front, items, items - {last}, budget);
    KeepIsLongestFittingPrefix(front, items, budget);
  }

  /** Evicting the last key removes it from the end of the list, and from nowhere else. */
  lemma {:induction false} EvictLastIsFront(s: Spec, key: Key)
    requires Listed(s) && s.mru != [] && s.mru[|s.mru| - 1] != key
    ensures Listed(EvictLast(s))
    ensures EvictLast(s).mru == s.mru[..|s.mru| - 1]
    ensures Without(s.mru, key) == Without(EvictLast(s).mru, key) + [s.mru[|s.mru| - 1]]
    ensures s.mru[|s.mru| - 1] !in Without(EvictLast(s).mru, key)
    ensures forall k :: k in Without(EvictLast(s).mru, key) ==> k in s.items
  {
    var n := |s.mru| - 1;
    WithoutAt(s.mru, n);
    assert s.mru[..n] + s.mru[n + 1..] == s.mru[..n];
    DropListed(s, s.mru[n]);
    WithoutMembers(s.mru[..n], key);
  }

  lemma AdmitAfterEviction(s: Spec, key: Key, item: Item, others: seq<Key>, last: Key, kept: seq<Key>)
    requires s.mru != [] && s.mru[|s.mru| - 1] == last && last !in kept && |kept| <= |others|
    ensures Admit(EvictLast(s), key, item, others, kept) == Admit(s, key, item, others + [last], kept)
  {
    assert Restrict(s.items - {last}, kept) == Restrict(s.items, kept);
  }

  /** Evicting the least recently used key while the new item does not fit does not change what a store produces. */
  lemma EvictThenStore(s: Spec, key: Key, item: Item)
    requires Listed(s) && |key| + |item.value| <= s.capacity
    requires Others(s, key) > s.capacity - (|key| + |item.value|)
    requires key in s.mru ==> s.mru[0] == key
    ensures s.mru != [] && s.mru[|s.mru| - 1] != key
    ensures Store(EvictLast(s), key, item) == Store(s, key, item)
    ensures key in EvictLast(s).mru ==> EvictLast(s).mru[0] == key
  {
    LastIsNotFront(s, key);
    EvictLastIsFront(s, key);
    var last, others, budget := s.mru[|s.mru| - 1], Without(EvictLast(s).mru, key), s.capacity - (|key| + |item.value|);
    KeepAfterEviction(others, last, s.items, budget);
    AdmitAfterEviction(s, key, item, others, last, Keep(others, s.items, budget));
  }

  function EvictLast(s: Spec): Spec {
    if s.mru == [] then s else Drop(s, s.mru[|s.mru| - 1]).(evictions := s.evictions + 1)
  }

  /** The key being overwritten stands at the front, so it is never the one evicted. */
  lemma LastIsNotFront(s: Spec, key: Key)
    requires NoDuplicates(s.mru) && 0 < Others(s, key)
    requires key in s.mru ==> s.mru[0] == key
    ensures s.mru != [] && s.mru[|s.mru| - 1] != key
  {
    if s.mru != [] && s.mru[|s.mru| - 1] == key {
      assert s.mru == [key] + [];
      WithoutFront(key, []);
      assert false;
    }
  }

  /** Once the item fits, a store is one map write and one move to the front. */
  lemma {:induction false} StoreWhenFitting(s: Spec, key: Key, item: Item)
    requires Listed(s) && |key| + |item.value| <= s.capacity
    requires Others(s, key) <= s.capacity - (|key| + |item.value|)
    ensures Store(s, key, item)
         == s.(items := s.items[key := item],
               mru := [key] + Without(s.mru, key),
               written := s.written + [Write(key, item)])
    ensures Total(ChargeBytes, [key] + Without(s.mru, key), s.items[key := item])
         == Others(s, key) + |key| + |item.value|
  {
    var others := Without(s.mru, key);
    WithoutMembers(s.mru, key);
    assert Restrict(s.items, others)[key := item] == s.items[key := item];
    TotalFront(ChargeBytes, key, others, s.items[key := item]);
    TotalFrame(ChargeBytes, others, s.items, s.items[key := item]);
  }

  lemma {:induction false} RetainAfterDrop(s: Spec, key: Key, kept: seq<Key>)
    requires key !in kept && |Without(s.mru, key)| == |s.mru| - 1 && |kept| <= |Without(s.mru, key)|
    ensures Retain(Drop(s, key).(expired := s.expired + 1), kept) == Retain(s, kept)
  {
    hide Without;
    assert Restrict(s.items - {key}, kept) == Restrict(s.items, kept);
  }

  lemma {:induction false} WithoutShorter(keys: seq<Key>, key: Key)
    requires NoDuplicates(keys) && key in keys
    ensures |Without(keys, key)| == |keys| - 1
  {
    var i :| 0 <= i < |keys| && keys[i] == key;
    WithoutAt(keys, i);
  }

  /** Dropping one due key and counting it does not change what expiry produces. */
  lemma ExpireOne(s: Spec, key: Key)
    requires Listed(s) && key in s.items && s.items[key].deadline == Some(s.now)
    ensures Expire(Drop(s, key).(expired := s.expired + 1)) == Expire(s)
  {
    hide Survivors, Without, Retain;
    var e := Drop(s, key).(expired := s.expired + 1);
    SurvivorsWithout(s.mru, s.items, s.now, key);
    SurvivorsMembers(s.mru, s.items, s.now);
    SurvivorsMembers(e.mru, e.items, s.now);
    WithoutShorter(s.mru, key);
    RetainAfterDrop(s, key, Survivors(s.mru, s.items, s.now));
  }

  lemma ExpireNone(s: Spec)
    requires Listed(s)
    requires forall k :: k in s.items ==> s.items[k].deadline != Some(s.now)
    ensures Expire(s) == s
  {
    SurvivorsAll(s.mru, s.items, s.now);
    assert Restrict(s.items, s.mru) == s.items;
  }

  // ---- Every command keeps the invariant ----

  lemma {:induction false} KeptIsListed(s: Spec, key: Key, budget: nat)
    requires Listed(s)
    ensures var kept := Keep(Without(s.mru, key), s.items, budget);
            && NoDuplicates(kept) && key !in kept
            && (forall k :: k in kept ==> k in s.items)
            && Total(ChargeBytes, kept, s.items) <= budget
  {
    var others := Without(s.mru, key);
    WithoutMembers(s.mru, key);
    KeepIsLongestFittingPrefix(others, s.items, budget);
    assert forall k :: k in Keep(others, s.items, budget) ==> k in others;
  }

  lemma {:induction false} AdmitListed(s: Spec, key: Key, item: Item, others: seq<Key>, kept: seq<Key>)
    requires NoDuplicates(kept) && key !in kept && forall k :: k in kept ==> k in s.items
    ensures Listed(Admit(s, key, item, others, kept))
    ensures var t := Admit(s, key, item, others, kept);
            Total(ChargeBytes, t.mru, t.items) == |key| + |item.value| + Total(ChargeBytes, kept, s.items)
  {
    var t := Admit(s, key, item, others, kept);
    TotalFront(ChargeBytes, key, kept, t.items);
    TotalFrame(ChargeBytes, kept, s.items, t.items);
  }

  lemma AdmitBounded(s: Spec, key: Key, item: Item, others: seq<Key>, kept: seq<Key>)
    requires Bounded(s.items) && Future(s.items, s.now)
    requires 1 <= |key| <= MAX_KEY_LENGTH && |item.value| <= MAX_VALUE_LENGTH
    requires item.deadline.Some? ==> s.now < item.deadline.value
    ensures Bounded(Admit(s, key, item, others, kept).items)
    ensures Future(Admit(s, key, item, others, kept).items, s.now)
  {
  }

  lemma StoreValid(s: Spec, key: Key, item: Item)
    requires Valid(s) && |s.written| < MAX_GENERATION
    requires |key| + |item.value| <= s.capacity
    requires 1 <= |key| <= MAX_KEY_LENGTH && |item.value| <= MAX_VALUE_LENGTH
    requires item.deadline.Some? ==> s.now < item.deadline.value
    ensures Valid(Store(s, key, item))
  {
    hide Keep, Without, Total, Listed, Restrict, NoDuplicates;
    var budget := s.capacity - (|key| + |item.value|);
    var others := Without(s.mru, key);
    KeptIsListed(s, key, budget);
    AdmitBounded(s, key, item, others, Keep(others, s.items, budget));
    AdmitListed(s, key, item, others, Keep(others, s.items, budget));
  }

  lemma ExpireValid(s: Spec)
    requires Listed(s) && Total(ChargeBytes, s.mru, s.items) <= s.capacity && Bounded(s.items)
    requires forall k :: k in s.items && s.items[k].deadline.Some? ==> s.now <= s.items[k].deadline.value
    requires |s.written| <= MAX_GENERATION
    ensures Valid(Expire(s))
  {
    hide Survivors, Total;
    var kept := Survivors(s.mru, s.items, s.now);
    SurvivorsMembers(s.mru, s.items, s.now);
    SurvivorsTotal(ChargeBytes, s.mru, s.items, s.now);
    RetainTotal(s, kept);
    assert Listed(Expire(s));
  }

  lemma {:induction false} RetainTotal(s: Spec, kept: seq<Key>)
    requires forall k :: k in kept ==> k in s.items
    ensures Total(ChargeBytes, kept, Retain(s, kept).items) == Total(ChargeBytes, kept, s.items)
  {
    TotalFrame(ChargeBytes, kept, s.items, Retain(s, kept).items);
  }

  lemma DropValid(s: Spec, key: Key)
    requires Valid(s) && key in s.items
    ensures Valid(Drop(s, key))
  {
    hide Without, Total, NoDuplicates;
    DropListed(s, key);
    TotalWithout(ChargeBytes, s.mru, s.items, key);
    WithoutMembers(s.mru, key);
    TotalFrame(ChargeBytes, Without(s.mru, key), s.items, s.items - {key});
  }

  lemma StepValid(s: Spec, command: Command)
    requires Valid(s)
    ensures Valid(After(s, command))
  {
    hide Store, Expire, Without, Total, NoDuplicates;
    match command
    case Tick => ExpireValid(s.(now := s.now + 1));
    case Get(key) =>
      if Check(s, command) == Ok {
        TouchListed(s, key);
      }
    case Erase(key) =>
      if Check(s, command) == Ok {
        DropValid(s, key);
      }
    case Set(key, value, ttl) =>
      if Check(s, command) == Ok && |s.written| < MAX_GENERATION {
        StoreValid(s, key, Item(value, Deadline(s.now, ttl)));
      }
  }

  /** The record of writes is the history of accepted sets, each with the deadline its TTL gave it. */
  lemma StepWrites(s: Spec, command: Command)
    ensures After(s, command).written
         == s.written
            + if command.Set? && Answer(s, command) == Returned(Ok, None)
              then [Write(command.key, Item(command.value, Deadline(s.now, command.ttl)))] else []
  {
    hide Keep, Without, Survivors, Restrict;
  }

  /** The accepted sets of a run, told from its commands and answers alone; a deadline counts the ticks before it. */
  function AcceptedSets(commands: seq<Command>, answers: seq<Outcome>): seq<Write>
    requires |commands| == |answers|
  {
    if commands == [] then [] else
      var n := |commands| - 1;
      var last := commands[n];
      AcceptedSets(commands[..n], answers[..n])
      + if last.Set? && answers[n] == Returned(Ok, None)
        then [Write(last.key, Item(last.value, Deadline(TickCount(commands[..n]), last.ttl)))] else []
  }

  /** Generation `g` names the `g`-th accepted set: the record after a whole run is the history of accepted sets. */
  lemma {:induction false} WrittenIsHistory(capacity: nat, commands: seq<Command>)
    ensures |Answers(Empty(capacity), commands)| == |commands|
    ensures Run(Empty(capacity), commands).written == AcceptedSets(commands, Answers(Empty(capacity), commands))
  {
    if commands != [] {
      var n := |commands| - 1;
      WrittenIsHistory(capacity, commands[..n]);
      StepWrites(Run(Empty(capacity), commands[..n]), commands[n]);
      RunCounts(Empty(capacity), commands[..n]);
      var answers := Answers(Empty(capacity), commands);
      assert answers[..n] == Answers(Empty(capacity), commands[..n]);
      hide After, Answer;
    }
  }

  lemma EmptyIsValid(capacity: nat)
    ensures Valid(Empty(capacity))
  {
  }

  /** In every reachable state usage is within capacity, keys and values are bounded, and no deadline has passed. */
  lemma {:induction false} RunValid(s: Spec, commands: seq<Command>)
    requires Valid(s)
    ensures Valid(Run(s, commands))
  {
    if commands != [] {
      var n := |commands| - 1;
      RunValid(s, commands[..n]);
      StepValid(Run(s, commands[..n]), commands[n]);
    }
  }

  /**
   What an accepted SET does, without saying how: the key leads with its new
   value; the kept keys are the longest run of most recently used other keys that
   fits beside it, in order and unchanged; every other key is gone and counted.
   */
  lemma {:induction false} SetEvictsMinimally(s: Spec, key: Key, value: Bytes, ttl: int)
    requires Valid(s) && Answer(s, Set(key, value, ttl)) == Returned(Ok, None)
    ensures var t, others, room := After(s, Set(key, value, ttl)), Without(s.mru, key), s.capacity - (|key| + |value|);
            && t.mru != [] && t.mru[0] == key && key in t.items && t.items[key] == Item(value, Deadline(s.now, ttl))
            && t.mru[1..] <= others
            && Total(ChargeBytes, t.mru[1..], s.items) <= room
            && (|t.mru| - 1 < |others| ==> Total(ChargeBytes, others[..|t.mru|], s.items) > room)
            && t.evictions == s.evictions + |others| - (|t.mru| - 1)
            && (forall k :: k in t.mru[1..] ==> k in s.items && k in t.items && t.items[k] == s.items[k])
  {
    hide Total, Keep, Without, NoDuplicates;
    var others, room := Without(s.mru, key), s.capacity - (|key| + |value|);
    var kept := Keep(others, s.items, room);
    KeepIsLongestFittingPrefix(others, s.items, room);
    KeptIsListed(s, key, room);
    assert After(s, Set(key, value, ttl)).mru == [key] + kept;
    assert ([key] + kept)[1..] == kept;
  }

  // ---- What a client can rely on across a whole run ----

  function TickCount(commands: seq<Command>): nat {
    if commands == [] then 0 else
      TickCount(commands[..|commands| - 1]) + if commands[|commands| - 1].Tick? then 1 else 0
  }

  /** No command writes or erases `key`. */
  ghost predicate LeavesAlone(commands: seq<Command>, key: Key) {
    forall c :: c in commands ==> (c.Set? || c.Erase? ==> c.key != key)
  }

  lemma StepCounts(s: Spec, command: Command)
    ensures After(s, command).evictions >= s.evictions
    ensures After(s, command).now == s.now + if command.Tick? then 1 else 0
  {
  }

  lemma {:induction false} RunCounts(s: Spec, commands: seq<Command>)
    ensures Run(s, commands).evictions >= s.evictions
    ensures Run(s, commands).now == s.now + TickCount(commands)
  {
    if commands != [] {
      RunCounts(s, commands[..|commands| - 1]);
      StepCounts(Run(s, commands[..|commands| - 1]), commands[|commands| - 1]);
    }
  }

  ghost predicate SameItem(s: Spec, t: Spec, key: Key) {
    && (key in s.items <==> key in t.items)
    && (key in s.items ==> s.items[key] == t.items[key])
  }

  /** A set of some other key pushes `key` out. */
  ghost predicate Evicts(s: Spec, command: Command, key: Key) {
    command.Set? && command.key != key && key in s.items && key !in After(s, command).items
  }

  /** Somewhere in the run, `key` is pushed out. */
  ghost predicate EvictedDuring(s: Spec, commands: seq<Command>, key: Key) {
    exists n :: 0 <= n < |commands| && Evicts(Run(s, commands[..n]), commands[n], key)
  }

  /** A store keeps the items of the other keys it does not evict, and adds no other key. */
  lemma StoreKeepsOthers(s: Spec, other: Key, item: Item, key: Key)
    requires |other| + |item.value| <= s.capacity && key != other
    ensures key in Store(s, other, item).items ==> SameItem(s, Store(s, other, item), key)
    ensures key !in s.items ==> key !in Store(s, other, item).items
  {
    hide Keep, Without;
  }

  lemma TickKeepsOthers(s: Spec, key: Key)
    requires Listed(s)
    ensures if key in s.items && s.items[key].deadline == Some(s.now) then key !in Expire(s).items
            else SameItem(s, Expire(s), key)
  {
    SurvivorsMembers(s.mru, s.items, s.now);
  }

  /** What one command that does not write or erase `key` does to it: keep it, expire it or evict it. */
  lemma StepKeepsItem(s: Spec, command: Command, key: Key)
    requires Valid(s)
    requires command.Set? || command.Erase? ==> command.key != key
    ensures key !in s.items ==> key !in After(s, command).items
    ensures key in s.items && command.Tick? && s.items[key].deadline == Some(s.now + 1) ==> key !in After(s, command).items
    ensures key in s.items && !(command.Tick? && s.items[key].deadline == Some(s.now + 1)) && !Evicts(s, command, key) ==>
              SameItem(s, After(s, command), key)
  {
    hide Store, Expire, Without, NoDuplicates;
    if command.Tick? {
      TickKeepsOthers(s.(now := s.now + 1), key);
    } else if command.Set? && Check(s, command) == Ok && |s.written| < MAX_GENERATION {
      StoreKeepsOthers(s, command.key, Item(command.value, Deadline(s.now, command.ttl)), key);
    }
  }

  lemma StoreHolds(s: Spec, key: Key, item: Item)
    requires |key| + |item.value| <= s.capacity
    ensures key in Store(s, key, item).items && Store(s, key, item).items[key] == item
    ensures Store(s, key, item).now == s.now
  {
  }

  /** The item is there, unchanged, exactly as long as its deadline has not passed and it was not evicted. */
  ghost predicate LiveUntil(s: Spec, key: Key, item: Item, evicted: bool) {
    if (item.deadline.None? || s.now < item.deadline.value) && !evicted
    then key in s.items && s.items[key] == item
    else key !in s.items
  }

  lemma {:induction false} EvictedMore(s: Spec, commands: seq<Command>, key: Key)
    requires commands != []
    ensures var n := |commands| - 1;
            EvictedDuring(s, commands, key)
            <==> EvictedDuring(s, commands[..n], key) || Evicts(Run(s, commands[..n]), commands[n], key)
  {
    hide Run, Evicts;
    var n := |commands| - 1;
    assert forall m :: 0 <= m < n ==> commands[..n][..m] == commands[..m];
    if EvictedDuring(s, commands[..n], key) {
      var m :| 0 <= m < n && Evicts(Run(s, commands[..n][..m]), commands[..n][m], key);
      assert Evicts(Run(s, commands[..m]), commands[m], key);
    }
    if EvictedDuring(s, commands, key) && !Evicts(Run(s, commands[..n]), commands[n], key) {
      var m :| 0 <= m < |commands| && Evicts(Run(s, commands[..m]), commands[m], key);
      assert Evicts(Run(s, commands[..n][..m]), commands[..n][m], key);
    }
  }

  lemma ItemLivesOneStep(s: Spec, key: Key, item: Item, evicted: bool, command: Command)
    requires Valid(s) && LiveUntil(s, key, item, evicted)
    requires command.Set? || command.Erase? ==> command.key != key
    ensures LiveUntil(After(s, command), key, item, evicted || Evicts(s, command, key))
  {
    hide After;
    StepCounts(s, command);
    StepKeepsItem(s, command, key);
  }

  lemma {:induction false} ItemLivesUntilDeadline(s: Spec, key: Key, item: Item, later: seq<Command>)
    requires Valid(s) && key in s.items && s.items[key] == item && LeavesAlone(later, key)
    ensures LiveUntil(Run(s, later), key, item, EvictedDuring(s, later, key))
  {
    hide EvictedDuring, Evicts, After;
    if later == [] {
      NothingEvicted(s, key);
    } else {
      var n := |later| - 1;
      var earlier, last := later[..n], later[n];
      assert last in later && forall c :: c in earlier ==> c in later;
      ItemLivesUntilDeadline(s, key, item, earlier);
      RunValid(s, earlier);
      hide Valid;
      EvictedMore(s, later, key);
      ItemLivesOneStep(Run(s, earlier), key, item, EvictedDuring(s, earlier, key), last);
    }
  }

  lemma NothingEvicted(s: Spec, key: Key)
    ensures !EvictedDuring(s, [], key)
  {
  }

  /**
   Time to live, end to end.  After an accepted SET, and as long as nobody writes
   or erases the key, a GET returns that value exactly when fewer than
   `ceil(ttl / 1000)` ticks have passed, or the TTL is zero, and no set has evicted
   the key; otherwise it finds nothing.
   */
  lemma {:induction false} SetLivesUntilDeadline(s: Spec, key: Key, value: Bytes, ttl: int, later: seq<Command>)
    requires Valid(s)
    requires Answer(s, Set(key, value, ttl)) == Returned(Ok, None)
    requires LeavesAlone(later, key)
    ensures var t := After(s, Set(key, value, ttl));
            var live := (ttl == 0 || TickCount(later) < TimingWheels.Ticks(ttl)) && !EvictedDuring(t, later, key);
            Answer(Run(t, later), Get(key)) == if live then Returned(Ok, Some(value)) else Returned(NotFound, None)
  {
    hide EvictedDuring, LeavesAlone;
    var item := Item(value, Deadline(s.now, ttl));
    StoreHolds(s, key, item);
    StepValid(s, Set(key, value, ttl));
    hide Store, Valid;
    ItemLivesUntilDeadline(Store(s, key, item), key, item, later);
    RunCounts(Store(s, key, item), later);
  }
}
