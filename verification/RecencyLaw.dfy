/**
 Least recently used, stated without any list: the order in which keys would be
 evicted is the order of their last successful use in the command history.
 */
module RecencyLaw {
  import opened Basics
  import opened CacheSpec

  /** A command uses the key it names when it stores it or finds it. */
  predicate Uses(s: Spec, command: Command, key: Key) {
    (command.Set? || command.Get?) && command.key == key && Answer(s, command).Returned? && Answer(s, command).status == Ok
  }

  /** The number of the last command that used `key`, or zero. */
  function LastUse(capacity: nat, commands: seq<Command>, key: Key): nat {
    if commands == [] then 0 else
      var earlier := commands[..|commands| - 1];
      if Uses(Run(Empty(capacity), earlier), commands[|commands| - 1], key) then |commands|
      else LastUse(capacity, earlier, key)
  }

  lemma {:induction false} LastUseBound(capacity: nat, commands: seq<Command>, key: Key)
    ensures LastUse(capacity, commands, key) <= |commands|
  {
    hide Run, Uses;
    if commands != [] {
      LastUseBound(capacity, commands[..|commands| - 1], key);
    }
  }

  /** Strictly decreasing last use. */
  ghost predicate ByRecency(capacity: nat, commands: seq<Command>, keys: seq<Key>) {
    forall i, j :: 0 <= i < j < |keys| ==> LastUse(capacity, commands, keys[i]) > LastUse(capacity, commands, keys[j])
  }

  lemma {:induction false} ByRecencyFront(capacity: nat, commands: seq<Command>, key: Key, keys: seq<Key>)
    requires ByRecency(capacity, commands, keys)
    requires forall k :: k in keys ==> LastUse(capacity, commands, key) > LastUse(capacity, commands, k)
    ensures ByRecency(capacity, commands, [key] + keys)
  {
    hide LastUse;
    var longer := [key] + keys;
    forall i, j | 0 <= i < j < |longer|
      ensures LastUse(capacity, commands, longer[i]) > LastUse(capacity, commands, longer[j])
    {
      assert longer[j] == keys[j - 1] && keys[j - 1] in keys;
      assert 0 < i ==> longer[i] == keys[i - 1];
    }
  }

  lemma {:induction false} ByRecencyBack(capacity: nat, commands: seq<Command>, keys: seq<Key>, key: Key)
    requires ByRecency(capacity, commands, keys)
    requires forall k :: k in keys ==> LastUse(capacity, commands, k) > LastUse(capacity, commands, key)
    ensures ByRecency(capacity, commands, keys + [key])
  {
    hide LastUse;
  }

  lemma {:induction false} WithoutByRecency(capacity: nat, commands: seq<Command>, keys: seq<Key>, key: Key)
    requires ByRecency(capacity, commands, keys)
    ensures ByRecency(capacity, commands, Without(keys, key))
  {
    hide LastUse;
    if keys != [] {
      var front, last := keys[..|keys| - 1], keys[|keys| - 1];
      WithoutByRecency(capacity, commands, front, key);
      WithoutMembers(front, key);
      if last != key {
        ByRecencyBack(capacity, commands, Without(front, key), last);
      }
    }
  }

  lemma {:induction false} SurvivorsByRecency(capacity: nat, commands: seq<Command>, keys: seq<Key>,
                                              items: map<Key, Item>, now: nat)
    requires ByRecency(capacity, commands, keys)
    ensures ByRecency(capacity, commands, Survivors(keys, items, now))
  {
    hide LastUse;
    if keys != [] {
      var front, last := keys[..|keys| - 1], keys[|keys| - 1];
      SurvivorsByRecency(capacity, commands, front, items, now);
      SurvivorsMembers(front, items, now);
      if !(last in items && items[last].deadline == Some(now)) {
        ByRecencyBack(capacity, commands, Survivors(front, items, now), last);
      }
    }
  }

  lemma PrefixByRecency(capacity: nat, commands: seq<Command>, keys: seq<Key>, kept: seq<Key>)
    requires ByRecency(capacity, commands, keys) && kept <= keys
    ensures ByRecency(capacity, commands, kept)
  {
    hide LastUse;
  }

  /** Keys other than the one a command uses keep their last use. */
  lemma {:induction false} UseStays(capacity: nat, commands: seq<Command>, command: Command, keys: seq<Key>)
    requires ByRecency(capacity, commands, keys)
    requires forall k :: k in keys ==> !Uses(Run(Empty(capacity), commands), command, k)
    ensures ByRecency(capacity, commands + [command], keys)
    ensures forall k :: k in keys ==> LastUse(capacity, commands + [command], k) <= |commands|
  {
    hide Run, Uses;
    assert (commands + [command])[..|commands|] == commands;
    forall k | k in keys
      ensures LastUse(capacity, commands + [command], k) == LastUse(capacity, commands, k) <= |commands|
    {
      LastUseBound(capacity, commands, k);
    }
    forall i, j | 0 <= i < j < |keys|
      ensures LastUse(capacity, commands + [command], keys[i]) > LastUse(capacity, commands + [command], keys[j])
    {
      assert keys[i] in keys && keys[j] in keys;
    }
  }

  /** After a command that uses `key`, the key leads and the others stay in order. */
  lemma {:induction false} UseLeads(capacity: nat, commands: seq<Command>, command: Command, rest: seq<Key>)
    requires ByRecency(capacity, commands, rest)
    requires !command.Tick? && Uses(Run(Empty(capacity), commands), command, command.key) && command.key !in rest
    ensures ByRecency(capacity, commands + [command], [command.key] + rest)
  {
    UseStays(capacity, commands, command, rest);
    assert (commands + [command])[..|commands|] == commands;
    assert LastUse(capacity, commands + [command], command.key) == |commands| + 1;
    hide LastUse, Run, Uses;
    ByRecencyFront(capacity, commands + [command], command.key, rest);
  }

  lemma StoreKeepsOrder(capacity: nat, commands: seq<Command>, s: Spec, key: Key, item: Item)
    requires |key| + |item.value| <= s.capacity && ByRecency(capacity, commands, s.mru)
    ensures var t := Store(s, key, item);
            && t.mru != [] && t.mru[0] == key && key !in t.mru[1..]
            && ByRecency(capacity, commands, t.mru[1..])
  {
    hide LastUse, ByRecency, Total, Keep, Without;
    var others, budget := Without(s.mru, key), s.capacity - (|key| + |item.value|);
    WithoutByRecency(capacity, commands, s.mru, key);
    WithoutMembers(s.mru, key);
    KeepIsLongestFittingPrefix(others, s.items, budget);
    var kept := Keep(others, s.items, budget);
    PrefixByRecency(capacity, commands, others, kept);
    assert forall k :: k in kept ==> k in others;
    assert Store(s, key, item).mru == [key] + kept;
    assert ([key] + kept)[1..] == kept;
  }

  lemma {:induction false} StepByRecency(capacity: nat, commands: seq<Command>, command: Command)
    requires var s := Run(Empty(capacity), commands);
             Valid(s) && ByRecency(capacity, commands, s.mru)
    ensures ByRecency(capacity, commands + [command], After(Run(Empty(capacity), commands), command).mru)
  {
    hide ByRecency, After, Valid, Run, Uses;
    var s := Run(Empty(capacity), commands);
    if command.Tick? {
      TickByRecency(capacity, commands);
    } else if !command.Erase? && Uses(s, command, command.key) {
      LeadingByRecency(capacity, commands, command);
    } else {
      QuietByRecency(capacity, commands, command);
    }
  }

  lemma {:induction false} TickByRecency(capacity: nat, commands: seq<Command>)
    requires ByRecency(capacity, commands, Run(Empty(capacity), commands).mru)
    ensures ByRecency(capacity, commands + [Tick], After(Run(Empty(capacity), commands), Tick).mru)
  {
    hide LastUse, ByRecency, Run, Survivors;
    var s := Run(Empty(capacity), commands);
    SurvivorsByRecency(capacity, commands, s.mru, s.items, s.now + 1);
    UseStays(capacity, commands, Tick, Survivors(s.mru, s.items, s.now + 1));
  }

  lemma {:induction false} LeadingByRecency(capacity: nat, commands: seq<Command>, command: Command)
    requires !command.Tick? && !command.Erase?
    requires var s := Run(Empty(capacity), commands);
             Valid(s) && ByRecency(capacity, commands, s.mru) && Uses(s, command, command.key)
    ensures ByRecency(capacity, commands + [command], After(Run(Empty(capacity), commands), command).mru)
  {
    hide LastUse, ByRecency, Run, Listed, Total, Without, Store;
    var s, key := Run(Empty(capacity), commands), command.key;
    if command.Get? {
      WithoutByRecency(capacity, commands, s.mru, key);
      WithoutMembers(s.mru, key);
      UseLeads(capacity, commands, command, Without(s.mru, key));
    } else {
      var t := After(s, command);
      StoreKeepsOrder(capacity, commands, s, key, Item(command.value, Deadline(s.now, command.ttl)));
      UseLeads(capacity, commands, command, t.mru[1..]);
      assert t.mru == [key] + t.mru[1..];
    }
  }

  lemma {:induction false} QuietByRecency(capacity: nat, commands: seq<Command>, command: Command)
    requires !command.Tick?
    requires var s := Run(Empty(capacity), commands);
             Valid(s) && ByRecency(capacity, commands, s.mru) && (command.Erase? || !Uses(s, command, command.key))
    ensures ByRecency(capacity, commands + [command], After(Run(Empty(capacity), commands), command).mru)
  {
    hide LastUse, ByRecency, Run, Listed, Total, Without, Store;
    var s := Run(Empty(capacity), commands);
    WithoutByRecency(capacity, commands, s.mru, command.key);
    UseStays(capacity, commands, command, After(s, command).mru);
  }

  /** The recency list of every reachable state is sorted by last use. */
  lemma {:induction false} RecencyIsLastUse(capacity: nat, commands: seq<Command>)
    ensures ByRecency(capacity, commands, Run(Empty(capacity), commands).mru)
  {
    hide ByRecency, After, Valid;
    if commands == [] {
      NothingUsed(capacity);
    } else {
      var earlier := commands[..|commands| - 1];
      RecencyIsLastUse(capacity, earlier);
      EmptyIsValid(capacity);
      RunValid(Empty(capacity), earlier);
      StepByRecency(capacity, earlier, commands[|commands| - 1]);
      assert commands == earlier + [commands[|commands| - 1]];
    }
  }

  /**
   Least recently used, in every run: a key that an accepted set evicts was last
   used before every other key that the set keeps.
   */
  lemma EvictedAreOldest(capacity: nat, commands: seq<Command>, write: Command, gone: Key, kept: Key)
    requires write.Set? && Answer(Run(Empty(capacity), commands), write) == Returned(Ok, None)
    requires gone != write.key && gone in Run(Empty(capacity), commands).items
    requires gone !in After(Run(Empty(capacity), commands), write).items
    requires kept != write.key && kept in After(Run(Empty(capacity), commands), write).items
    ensures LastUse(capacity, commands, gone) < LastUse(capacity, commands, kept)
  {
    hide LastUse, Run, After, Answer, Valid, Without;
    var s := Run(Empty(capacity), commands);
    var t, others := After(s, write), Without(s.mru, write.key);
    EmptyIsValid(capacity);
    RunValid(Empty(capacity), commands);
    StepValid(s, write);
    ValidIsListed(s);
    ValidIsListed(t);
    SetEvictsMinimally(s, write.key, write.value, write.ttl);
    RecencyIsLastUse(capacity, commands);
    WithoutByRecency(capacity, commands, s.mru, write.key);
    WithoutMembers(s.mru, write.key);
    hide Listed;
    assert t.mru == [write.key] + t.mru[1..];
    assert kept in t.mru[1..] && gone !in t.mru[1..];
    var i :| 0 <= i < |t.mru[1..]| && t.mru[1..][i] == kept;
    var j :| 0 <= j < |others| && others[j] == gone;
    assert others[i] == kept && i < |t.mru[1..]| <= j;
  }

  lemma ValidIsListed(s: Spec)
    requires Valid(s)
    ensures forall k :: k in s.mru <==> k in s.items
  {
    hide Total;
  }

  lemma NothingUsed(capacity: nat)
    ensures ByRecency(capacity, [], Run(Empty(capacity), []).mru)
  {
  }
}
