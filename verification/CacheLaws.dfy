/**
 What each command does, said from outside: when it is accepted, what it returns,
 and what it leaves behind, in numbers and positions and without the functions that
 compute them.  Then what that means over whole histories.
 */
module CacheLaws {
  import opened Basics
  import opened CacheSpec

  /** What can be seen of a cache besides its items and their order. */
  ghost predicate SameRest(s: Spec, t: Spec) {
    s.capacity == t.capacity && s.now == t.now && s.written == t.written && s.evictions == t.evictions && s.expired == t.expired
  }

  /** `short` is `long` without the one element at some position, which is `key`. */
  ghost predicate CutOut(short: seq<Key>, long: seq<Key>, key: Key) {
    exists i :: 0 <= i < |long| && long[i] == key && short == long[..i] + long[i + 1..]
  }

  lemma WithoutCutsOut(keys: seq<Key>, key: Key)
    requires NoDuplicates(keys) && key in keys
    ensures CutOut(Without(keys, key), keys, key)
  {
    hide Without;
    var i :| 0 <= i < |keys| && keys[i] == key;
    WithoutAt(keys, i);
  }

  // ---- Set ----

  /** A set's sizes and TTL are in range. */
  predicate InRange(key: Key, value: Bytes, ttl: int) {
    1 <= |key| <= 250 && |value| <= 1048576 && 0 <= ttl
  }

  /**
   When a set is accepted, and why it is refused otherwise: each status exactly
   under its own condition, the first that applies.  A refused set changes nothing.
   */
  lemma SetAnswer(s: Spec, key: Key, value: Bytes, ttl: int)
    ensures var a := Answer(s, Set(key, value, ttl));
            && (a == Returned(InvalidKey, None) <==> |key| == 0)
            && (a == Returned(KeyTooLarge, None) <==> |key| > 250)
            && (a == Returned(ValueTooLarge, None) <==> 1 <= |key| <= 250 && |value| > 1048576)
            && (a == Returned(InvalidTtl, None) <==> 1 <= |key| <= 250 && |value| <= 1048576 && ttl < 0)
            && (a == Returned(ItemTooLarge, None) <==> InRange(key, value, ttl) && |key| + |value| > s.capacity)
            && (a == GenerationExhausted <==>
                  InRange(key, value, ttl) && |key| + |value| <= s.capacity && |s.written| >= 18446744073709551615)
            && (a == Returned(Ok, None) <==>
                  InRange(key, value, ttl) && |key| + |value| <= s.capacity && |s.written| < 18446744073709551615)
            && (a != Returned(Ok, None) ==> After(s, Set(key, value, ttl)) == s)
  {
    hide Store;
  }

  /** What an accepted set leaves besides the key itself: the keys it keeps, and every other figure as it was. */
  lemma SetAccepted(s: Spec, key: Key, value: Bytes, ttl: int)
    requires Valid(s) && Answer(s, Set(key, value, ttl)) == Returned(Ok, None)
    ensures var t := After(s, Set(key, value, ttl));
            && t.capacity == s.capacity && t.now == s.now && t.hits == s.hits && t.misses == s.misses && t.expired == s.expired
            && |t.written| == |s.written| + 1
            && t.mru != [] && t.mru[0] == key && (forall k :: k in t.items <==> k == key || k in t.mru[1..])
            && (|key| + |value| == s.capacity ==> t.mru == [key] && t.items.Keys == {key})
  {
    var command := Set(key, value, ttl);
    var t := After(s, command);
    SetEvictsMinimally(s, key, value, ttl);
    StepValid(s, command);
    StepWrites(s, command);
    assert Listed(t) && t.mru == [key] + t.mru[1..];
    if |key| + |value| == s.capacity && t.mru[1..] != [] {
      HeldKeysWeigh(s, t.mru[1..]);
    }
    hide Keep, Without, Restrict, Total, NoDuplicates;
  }

  /** Stored keys are not empty, so any stored key takes room. */
  lemma HeldKeysWeigh(s: Spec, keys: seq<Key>)
    requires Valid(s) && keys != [] && forall k :: k in keys ==> k in s.items
    ensures Total(ChargeBytes, keys, s.items) > 0
  {
    var k := keys[|keys| - 1];
    assert k in keys;
  }

  // ---- Get ----

  lemma GetLaw(s: Spec, key: Key)
    requires Valid(s)
    ensures Answer(s, Get(key))
         == if |key| == 0 then Returned(InvalidKey, None)
            else if |key| > 250 then Returned(KeyTooLarge, None)
            else if key in s.items then Returned(Ok, Some(s.items[key].value))
            else Returned(NotFound, None)
    ensures var t := After(s, Get(key));
            && t.items == s.items && SameRest(s, t)
            && (1 <= |key| <= 250 && key in s.items ==>
                  && t.hits == s.hits + 1 && t.misses == s.misses
                  && t.mru != [] && t.mru[0] == key && CutOut(t.mru[1..], s.mru, key))
            && (1 <= |key| <= 250 && key !in s.items ==>
                  t.hits == s.hits && t.misses == s.misses + 1 && t.mru == s.mru)
            && (!(1 <= |key| <= 250) ==> t == s)
  {
    hide Total, Without, CutOut;
    if key in s.items {
      WithoutCutsOut(s.mru, key);
      assert ([key] + Without(s.mru, key))[1..] == Without(s.mru, key);
    }
  }

  // ---- Erase ----

  /**
   An accepted erase removes its key and nothing else: the others keep their items
   and their order, usage falls by the item's charge, and the key is not found.  It
   is accepted exactly when a get would find the key.
   */
  lemma EraseLaw(s: Spec, key: Key)
    requires Valid(s)
    ensures Answer(s, Erase(key))
         == if |key| == 0 then Returned(InvalidKey, None)
            else if |key| > 250 then Returned(KeyTooLarge, None)
            else if key in s.items then Returned(Ok, None)
            else Returned(NotFound, None)
    ensures Answer(s, Erase(key)) == Returned(Ok, None) <==>
              Answer(s, Get(key)).Returned? && Answer(s, Get(key)).status == Ok
    ensures var t := After(s, Erase(key));
            && t.hits == s.hits && t.misses == s.misses && SameRest(s, t)
            && (1 <= |key| <= 250 && key in s.items ==>
                  && key !in t.items && key !in t.mru
                  && (forall k :: k != key ==> (k in t.items <==> k in s.items) && (k in s.items ==> t.items[k] == s.items[k]))
                  && CutOut(t.mru, s.mru, key)
                  && Total(ChargeBytes, t.mru, t.items) == Total(ChargeBytes, s.mru, s.items) - (|key| + |s.items[key].value|)
                  && Answer(t, Get(key)) == Returned(NotFound, None))
            && (!(1 <= |key| <= 250 && key in s.items) ==> t == s)
  {
    if key in s.items {
      WithoutCutsOut(s.mru, key);
      WithoutMembers(s.mru, key);
      TotalWithout(ChargeBytes, s.mru, s.items, key);
      TotalFrame(ChargeBytes, Without(s.mru, key), s.items, s.items - {key});
    }
    hide Total, Without, CutOut, NoDuplicates;
  }

  /** No command sets `key`. */
  ghost predicate NotSet(commands: seq<Command>, key: Key) {
    forall c :: c in commands ==> !(c.Set? && c.key == key)
  }

  /** A key appears only by being set. */
  lemma AbsentStays(s: Spec, command: Command, key: Key)
    requires key !in s.items && !(command.Set? && command.key == key)
    ensures key !in After(s, command).items
  {
    hide Keep, Without, Survivors;
  }

  lemma {:induction false} AbsentThroughout(s: Spec, commands: seq<Command>, key: Key)
    requires key !in s.items && NotSet(commands, key)
    ensures key !in Run(s, commands).items
  {
    hide After;
    if commands != [] {
      var n := |commands| - 1;
      assert commands[n] in commands && forall c :: c in commands[..n] ==> c in commands;
      AbsentThroughout(s, commands[..n], key);
      AbsentStays(Run(s, commands[..n]), commands[n], key);
    }
  }

  /** After an accepted erase, and until the key is set again, every get misses. */
  lemma ErasedStaysGone(s: Spec, key: Key, later: seq<Command>)
    requires Valid(s) && Answer(s, Erase(key)) == Returned(Ok, None) && NotSet(later, key)
    ensures Answer(Run(After(s, Erase(key)), later), Get(key)) == Returned(NotFound, None)
  {
    EraseLaw(s, key);
    hide After, Run, Valid, NotSet;
    AbsentThroughout(After(s, Erase(key)), later, key);
  }

  // ---- Tick ----

  /** `a` stands before `b`. */
  ghost predicate Before(keys: seq<Key>, a: Key, b: Key) {
    exists i, j :: 0 <= i < j < |keys| && keys[i] == a && keys[j] == b
  }

  lemma {:induction false} SurvivorsKeepOrder(keys: seq<Key>, items: map<Key, Item>, now: nat, i: nat, j: nat)
    requires i < j < |Survivors(keys, items, now)|
    ensures Before(keys, Survivors(keys, items, now)[i], Survivors(keys, items, now)[j])
  {
    var n := |keys| - 1;
    var front, all := Survivors(keys[..n], items, now), Survivors(keys, items, now);
    SurvivorsMembers(keys[..n], items, now);
    if j < |front| {
      SurvivorsKeepOrder(keys[..n], items, now, i, j);
      var p, q :| 0 <= p < q < n && keys[..n][p] == front[i] && keys[..n][q] == front[j];
      assert keys[p] == all[i] && keys[q] == all[j];
    } else {
      assert front[i] in front;
      var p :| 0 <= p < n && keys[..n][p] == front[i];
      assert keys[p] == all[i] && keys[n] == all[j];
    }
  }

  /** One second: exactly the items whose deadline it is are gone and counted; the rest stands as it was. */
  lemma TickLaw(s: Spec)
    requires Valid(s)
    ensures Answer(s, Tick) == Returned(Ok, None)
    ensures var t := After(s, Tick);
            && t.now == s.now + 1 && t.capacity == s.capacity && t.written == s.written
            && t.hits == s.hits && t.misses == s.misses && t.evictions == s.evictions
            && (forall k :: k in t.items <==> k in s.items && s.items[k].deadline != Some(s.now + 1))
            && (forall k :: k in t.items ==> t.items[k] == s.items[k])
            && (forall k :: k in t.mru <==> k in t.items) && NoDuplicates(t.mru)
            && (forall i, j :: 0 <= i < j < |t.mru| ==> Before(s.mru, t.mru[i], t.mru[j]))
            && t.expired == s.expired + |s.items| - |t.items|
  {
    hide Total;
    var t := After(s, Tick);
    SurvivorsMembers(s.mru, s.items, s.now + 1);
    forall i, j | 0 <= i < j < |t.mru| ensures Before(s.mru, t.mru[i], t.mru[j]) {
      SurvivorsKeepOrder(s.mru, s.items, s.now + 1, i, j);
    }
    hide Survivors, Before;
    ListedSize(s.mru, s.items);
    ListedSize(t.mru, t.items);
  }

  /** A duplicate-free list of all keys is as long as the map is large. */
  lemma ListedSize(mru: seq<Key>, items: map<Key, Item>)
    requires NoDuplicates(mru) && forall k :: k in mru <==> k in items
    ensures |mru| == |items|
  {
    KeySet(mru);
    assert (set k | k in mru) == items.Keys;
  }

  lemma {:induction false} KeySet(keys: seq<Key>)
    requires NoDuplicates(keys)
    ensures |set k | k in keys| == |keys|
  {
    if keys != [] {
      var n := |keys| - 1;
      KeySet(keys[..n]);
      assert keys == keys[..n] + [keys[n]];
      assert (set k | k in keys) == (set k | k in keys[..n]) + {keys[n]};
    }
  }

  // ---- Histories ----

  /** How many gets of a history were answered with `status`. */
  function GetsAnswered(commands: seq<Command>, answers: seq<Outcome>, status: Status): nat
    requires |commands| == |answers|
  {
    if commands == [] then 0 else
      var n := |commands| - 1;
      GetsAnswered(commands[..n], answers[..n], status)
      + if commands[n].Get? && answers[n].Returned? && answers[n].status == status then 1 else 0
  }

  /** How many erases of a history were accepted. */
  function ErasesAccepted(commands: seq<Command>, answers: seq<Outcome>): nat
    requires |commands| == |answers|
  {
    if commands == [] then 0 else
      var n := |commands| - 1;
      ErasesAccepted(commands[..n], answers[..n]) + if commands[n].Erase? && answers[n] == Returned(Ok, None) then 1 else 0
  }

  lemma OneCommandCounts(s: Spec, command: Command)
    requires Valid(s)
    ensures var a, t := Answer(s, command), After(s, command);
            && t.hits == s.hits + (if command.Get? && a.Returned? && a.status == Ok then 1 else 0)
            && t.misses == s.misses + (if command.Get? && a.Returned? && a.status == NotFound then 1 else 0)
  {
    match command
    case Get(key) => GetLaw(s, key);
    case Erase(key) => EraseLaw(s, key);
    case Tick => TickLaw(s);
    case Set(key, value, ttl) =>
      SetAnswer(s, key, value, ttl);
      if Answer(s, command) == Returned(Ok, None) {
        SetAccepted(s, key, value, ttl);
      }
  }

  /** The hit and miss counters are what a client would count from its own gets. */
  lemma {:induction false} CountersAreHistory(capacity: nat, commands: seq<Command>)
    ensures |Answers(Empty(capacity), commands)| == |commands|
    ensures var s, answers := Run(Empty(capacity), commands), Answers(Empty(capacity), commands);
            s.hits == GetsAnswered(commands, answers, Ok) && s.misses == GetsAnswered(commands, answers, NotFound)
  {
    hide After, Answer, Valid;
    if commands != [] {
      var n := |commands| - 1;
      CountersAreHistory(capacity, commands[..n]);
      EmptyIsValid(capacity);
      RunValid(Empty(capacity), commands[..n]);
      OneCommandCounts(Run(Empty(capacity), commands[..n]), commands[n]);
      assert Answers(Empty(capacity), commands)[..n] == Answers(Empty(capacity), commands[..n]);
    }
  }

  /** How many accepted sets of a run stored a key that was not there. */
  function Insertions(capacity: nat, commands: seq<Command>): nat {
    if commands == [] then 0 else
      var n := |commands| - 1;
      var s := Run(Empty(capacity), commands[..n]);
      Insertions(capacity, commands[..n])
      + if commands[n].Set? && Answer(s, commands[n]) == Returned(Ok, None) && commands[n].key !in s.items then 1 else 0
  }

  /** One command's effect on the number of items is accounted for by the counters. */
  lemma OneCommandConserves(s: Spec, command: Command)
    requires Valid(s)
    ensures var a, t := Answer(s, command), After(s, command);
            && |t.items| + t.evictions + t.expired + (if command.Erase? && a == Returned(Ok, None) then 1 else 0)
               == |s.items| + s.evictions + s.expired
                  + (if command.Set? && a == Returned(Ok, None) && command.key !in s.items then 1 else 0)
  {
    match command
    case Get(key) => GetLaw(s, key);
    case Erase(key) =>
      EraseLaw(s, key);
      EraseSize(s, key);
    case Tick => TickLaw(s);
    case Set(key, value, ttl) =>
      SetAnswer(s, key, value, ttl);
      if Answer(s, command) == Returned(Ok, None) {
        SetSize(s, key, value, ttl);
      }
  }

  lemma EraseSize(s: Spec, key: Key)
    ensures key in s.items && Check(s, Erase(key)) == Ok ==> |After(s, Erase(key)).items| == |s.items| - 1
  {
    if key in s.items {
      assert (s.items - {key}).Keys == s.items.Keys - {key};
    }
  }

  lemma SetSize(s: Spec, key: Key, value: Bytes, ttl: int)
    requires Valid(s) && Answer(s, Set(key, value, ttl)) == Returned(Ok, None)
    ensures var t := After(s, Set(key, value, ttl));
            && t.expired == s.expired
            && |t.items| + t.evictions == |s.items| + s.evictions + (if key in s.items then 0 else 1)
  {
    var t := After(s, Set(key, value, ttl));
    SetAccepted(s, key, value, ttl);
    SetEvictsMinimally(s, key, value, ttl);
    StepValid(s, Set(key, value, ttl));
    hide After, Answer, Without, Total;
    ListedSize(s.mru, s.items);
    ListedSize(t.mru, t.items);
    if key in s.items {
      WithoutShorter(s.mru, key);
    } else {
      WithoutAbsent(s.mru, key);
    }
  }

  /** Conservation of items: what was ever inserted is stored, was evicted, has expired or was erased. */
  lemma {:induction false} ItemsAreConserved(capacity: nat, commands: seq<Command>)
    ensures |Answers(Empty(capacity), commands)| == |commands|
    ensures var s := Run(Empty(capacity), commands);
            |s.items| + s.evictions + s.expired + ErasesAccepted(commands, Answers(Empty(capacity), commands))
            == Insertions(capacity, commands)
  {
    hide After, Answer, Valid;
    if commands != [] {
      var n := |commands| - 1;
      ItemsAreConserved(capacity, commands[..n]);
      EmptyIsValid(capacity);
      RunValid(Empty(capacity), commands[..n]);
      OneCommandConserves(Run(Empty(capacity), commands[..n]), commands[n]);
      assert Answers(Empty(capacity), commands)[..n] == Answers(Empty(capacity), commands[..n]);
    }
  }
}
