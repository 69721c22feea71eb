/**
 The single-level timing wheel: 60 slots, one tick per second, and a round
 counter on every event whose TTL is longer than one revolution.

 The wheel never stores a deadline.  The ghost view recovers it: an event in
 slot `s` with `r` rounds left is due `Distance(current, s) + 60 * r` ticks from
 now, and that number does not depend on how far the wheel has turned.
 */
module TimingWheels {
  import opened Basics

  const SLOT_COUNT := 60
  const TICK_MILLISECONDS := 1000

  datatype TimerEvent = TimerEvent(key: Key, generation: nat, remainingRounds: nat)

  /** What an event means to the outside: who armed it, and at which absolute tick it fires. */
  datatype Alarm = Alarm(key: Key, generation: nat, due: nat)

  /** A positive TTL in milliseconds, rounded up to whole ticks. */
  function Ticks(ttl: int): (ticks: nat)
    requires 0 < ttl
    ensures (ticks - 1) * 1000 < ttl <= ticks * 1000
    ensures 1 <= ticks
  {
    ttl / TICK_MILLISECONDS + if ttl % TICK_MILLISECONDS != 0 then 1 else 0
  }

  /** How many ticks pass before the hand next reaches `slot`: a number in 1..60. */
  function Distance(current: nat, slot: nat): nat
    requires current < SLOT_COUNT && slot < SLOT_COUNT
  {
    if current < slot then slot - current else slot + SLOT_COUNT - current
  }

  function AlarmOf(event: TimerEvent, base: nat): Alarm {
    Alarm(event.key, event.generation, base + SLOT_COUNT * event.remainingRounds)
  }

  /** How often a slot holds alarm `a`, when the hand reaches that slot at tick `base`. */
  ghost function Count(events: seq<TimerEvent>, base: nat, a: Alarm): nat {
    if events == [] then 0 else
      Count(events[..|events| - 1], base, a) + if AlarmOf(events[|events| - 1], base) == a then 1 else 0
  }

  /** How often the first `n` slots hold alarm `a`, on a wheel whose clock reads `now`. */
  ghost function WheelCount(slots: seq<seq<TimerEvent>>, current: nat, now: nat, n: nat, a: Alarm): nat
    requires |slots| == SLOT_COUNT && current < SLOT_COUNT && n <= SLOT_COUNT
  {
    if n == 0 then 0 else
      WheelCount(slots, current, now, n - 1, a) + Count(slots[n - 1], now + Distance(current, n - 1), a)
  }

  /** The events of a slot that are due when the hand reaches it, in their order. */
  function DueIn(slot: seq<TimerEvent>): seq<TimerEvent> {
    if slot == [] then [] else
      var last := slot[|slot| - 1];
      DueIn(slot[..|slot| - 1]) + if last.remainingRounds == 0 then [last] else []
  }

  /** The others, in their order, with one round less to go. */
  function TurnedIn(slot: seq<TimerEvent>): seq<TimerEvent> {
    if slot == [] then [] else
      var last := slot[|slot| - 1];
      TurnedIn(slot[..|slot| - 1])
      + if last.remainingRounds == 0 then [] else [last.(remainingRounds := last.remainingRounds - 1)]
  }

  lemma {:induction false} CountConcat(s: seq<TimerEvent>, t: seq<TimerEvent>, base: nat, a: Alarm)
    ensures Count(s + t, base, a) == Count(s, base, a) + Count(t, base, a)
  {
    if t == [] {
      assert s + t == s;
    } else {
      var n := |t| - 1;
      assert (s + t)[..|s + t| - 1] == s + t[..n];
      CountConcat(s, t[..n], base, a);
    }
  }

  lemma {:induction false} CountOne(event: TimerEvent, base: nat, a: Alarm)
    ensures Count([event], base, a) == if AlarmOf(event, base) == a then 1 else 0
  {
    assert [event][..0] == [];
  }

  lemma {:induction false} CountDue(events: seq<TimerEvent>, base: nat, a: Alarm)
    requires 0 < Count(events, base, a)
    ensures base <= a.due
    ensures (forall e :: e in events ==> e.remainingRounds == 0) ==> a.due == base
  {
    var n := |events| - 1;
    if AlarmOf(events[n], base) == a {
      assert events[n] in events;
    } else {
      CountDue(events[..n], base, a);
    }
  }

  lemma {:induction false} WheelCountDue(slots: seq<seq<TimerEvent>>, current: nat, now: nat, n: nat, a: Alarm)
    requires |slots| == SLOT_COUNT && current < SLOT_COUNT && n <= SLOT_COUNT
    requires 0 < WheelCount(slots, current, now, n, a)
    ensures now < a.due
  {
    if 0 < Count(slots[n - 1], now + Distance(current, n - 1), a) {
      CountDue(slots[n - 1], now + Distance(current, n - 1), a);
    } else {
      WheelCountDue(slots, current, now, n - 1, a);
    }
  }

  /** Replacing one slot's list changes the wheel by exactly that slot's alarms. */
  lemma {:induction false} WheelCountUpdate(slots: seq<seq<TimerEvent>>, current: nat, now: nat, n: nat,
                                            k: nat, events: seq<TimerEvent>, a: Alarm)
    requires |slots| == SLOT_COUNT && current < SLOT_COUNT && n <= SLOT_COUNT && k < SLOT_COUNT
    ensures var base := now + Distance(current, k);
            WheelCount(slots[k := events], current, now, n, a)
            == WheelCount(slots, current, now, n, a)
               + if k < n then Count(events, base, a) - Count(slots[k], base, a) else 0
  {
    if n != 0 {
      WheelCountUpdate(slots, current, now, n - 1, k, events, a);
    }
  }

  /** One turn of the hand leaves every deadline outside the reached slot where it was. */
  lemma {:induction false} WheelCountTurn(slots: seq<seq<TimerEvent>>, current: nat, now: nat, n: nat, a: Alarm)
    requires |slots| == SLOT_COUNT && current < SLOT_COUNT && n <= SLOT_COUNT
    ensures var next := (current + 1) % SLOT_COUNT;
            WheelCount(slots, next, now + 1, n, a)
            == WheelCount(slots, current, now, n, a)
               + if next < n
                 then Count(slots[next], now + 1 + SLOT_COUNT, a) - Count(slots[next], now + 1, a)
                 else 0
  {
    if n != 0 {
      WheelCountTurn(slots, current, now, n - 1, a);
      var next := (current + 1) % SLOT_COUNT;
      assert n - 1 != next ==> now + Distance(current, n - 1) == now + 1 + Distance(next, n - 1);
    }
  }

  /** A whole tick: the swept-out events are exactly what the wheel loses. */
  lemma {:induction false} WheelCountTick(slots: seq<seq<TimerEvent>>, current: nat, now: nat,
                       events: seq<TimerEvent>, expired: seq<TimerEvent>, a: Alarm)
    requires |slots| == SLOT_COUNT && current < SLOT_COUNT
    requires Count(slots[(current + 1) % SLOT_COUNT], now + 1, a)
          == Count(events, now + 1 + SLOT_COUNT, a) + Count(expired, now + 1, a)
    ensures var next := (current + 1) % SLOT_COUNT;
            WheelCount(slots, current, now, SLOT_COUNT, a)
            == WheelCount(slots[next := events], next, now + 1, SLOT_COUNT, a) + Count(expired, now + 1, a)
  {
    var next := (current + 1) % SLOT_COUNT;
    WheelCountTurn(slots, current, now, SLOT_COUNT, a);
    WheelCountUpdate(slots, next, now + 1, SLOT_COUNT, next, events, a);
  }

  /** The slot and round count chosen for a delay of `ticks` encode exactly that delay. */
  lemma PlacementIsExact(current: nat, ticks: nat)
    requires current < SLOT_COUNT && 1 <= ticks
    ensures var slot := (current + ticks % SLOT_COUNT) % SLOT_COUNT;
            Distance(current, slot) + SLOT_COUNT * ((ticks - 1) / SLOT_COUNT) == ticks
  {
    var q, m := ticks / SLOT_COUNT, ticks % SLOT_COUNT;
    if m == 0 {
      assert (ticks - 1) / SLOT_COUNT == q - 1;
    } else {
      assert (ticks - 1) / SLOT_COUNT == q;
    }
  }

  class TimingWheel {
    const slots: array<seq<TimerEvent>>
    var currentSlot: nat

    ghost var now: nat
    ghost var pending: multiset<Alarm>
    ghost const Repr: set<object>

    ghost predicate Valid()
      reads this, Repr
    {
      && this in Repr && slots in Repr
      && slots.Length == SLOT_COUNT
      && currentSlot < SLOT_COUNT
      && forall a :: pending[a] == WheelCount(slots[..], currentSlot, now, SLOT_COUNT, a)
    }

    constructor ()
      ensures Valid() && fresh(Repr) && this in Repr
      ensures now == 0 && pending == multiset{}
    {
      slots := new seq<TimerEvent>[SLOT_COUNT](_ => []);
      currentSlot := 0;
      now, pending := 0, multiset{};
      Repr := {this, slots};
      new;
      forall a ensures WheelCount(slots[..], 0, 0, SLOT_COUNT, a) == 0 {
        EmptyWheel(slots[..], SLOT_COUNT, a);
      }
    }

    method Schedule(key: Key, generation: nat, ttl: int)
      requires Valid() && 0 < ttl
      modifies Repr
      ensures Valid()
      ensures now == old(now)
      ensures pending == old(pending) + multiset{Alarm(key, generation, now + Ticks(ttl))}
    {
      hide WheelCount, Count;
      var ticks := ttl / TICK_MILLISECONDS + if ttl % TICK_MILLISECONDS != 0 then 1 else 0;
      var targetSlot := (currentSlot + ticks % SLOT_COUNT) % SLOT_COUNT;
      var remainingRounds := (ticks - 1) / SLOT_COUNT;
      var event := TimerEvent(key, generation, remainingRounds);

      ghost var before, base := slots[..], now + Distance(currentSlot, targetSlot);
      assert AlarmOf(event, base) == Alarm(key, generation, now + Ticks(ttl)) by {
        PlacementIsExact(currentSlot, ticks);
      }
      slots[targetSlot] := slots[targetSlot] + [event];
      assert slots[..] == before[targetSlot := before[targetSlot] + [event]];
      pending := pending + multiset{Alarm(key, generation, now + Ticks(ttl))};
      forall a ensures pending[a] == WheelCount(slots[..], currentSlot, now, SLOT_COUNT, a) {
        WheelCountUpdate(before, currentSlot, now, SLOT_COUNT, targetSlot, slots[targetSlot], a);
        CountConcat(before[targetSlot], [event], base, a);
        CountOne(event, base, a);
      }
    }

    /** Turns the hand one slot and hands out the events that are due now, and only those. */
    method Tick() returns (expired: seq<TimerEvent>)
      requires Valid()
      modifies Repr
      ensures Valid()
      ensures now == old(now) + 1
      ensures forall e :: e in expired ==> e.remainingRounds == 0
      ensures forall a :: old(pending)[a] == pending[a] + Count(expired, now, a)
      ensures expired == DueIn(old(slots[(currentSlot + 1) % SLOT_COUNT]))
    {
      hide WheelCount, Count, DueIn, TurnedIn;
      var nextSlot := (currentSlot + 1) % SLOT_COUNT;
      ghost var fired;
      var events;
      events, expired, fired := Sweep(slots[nextSlot], now + 1);

      ghost var before, current := slots[..], currentSlot;
      currentSlot := nextSlot;
      slots[nextSlot] := events;
      now := now + 1;
      pending := pending - fired;
      assert slots[..] == before[nextSlot := events];
      forall a ensures old(pending)[a] == pending[a] + Count(expired, now, a)
               ensures pending[a] == WheelCount(slots[..], currentSlot, now, SLOT_COUNT, a) {
        WheelCountTick(before, current, old(now), events, expired, a);
      }
    }

    /** Whatever is still pending lies in the future. */
    lemma PendingIsFuture()
      requires Valid()
      ensures forall a :: a in pending ==> now < a.due
    {
      forall a | a in pending ensures now < a.due {
        WheelCountDue(slots[..], currentSlot, now, SLOT_COUNT, a);
      }
    }
  }

  /**
   The loop over the reached slot: events with rounds left lose one round and
   stay, the others leave the list in order.  No alarm changes its due tick.
   */
  method Sweep(slot: seq<TimerEvent>, ghost tick: nat)
    returns (events: seq<TimerEvent>, expired: seq<TimerEvent>, ghost fired: multiset<Alarm>)
    ensures expired == DueIn(slot) && events == TurnedIn(slot)
    ensures forall e :: e in expired ==> e.remainingRounds == 0
    ensures forall a :: Count(slot, tick, a) == Count(events, tick + SLOT_COUNT, a) + Count(expired, tick, a)
    ensures forall a :: fired[a] == Count(expired, tick, a)
  {
    hide Count;
    events, expired := slot, [];
    var i := 0;
    ghost var k := 0;
    while i < |events|
      invariant 0 <= i <= |events| && k <= |slot|
      invariant events[i..] == slot[k..] && events[..i] == TurnedIn(slot[..k]) && expired == DueIn(slot[..k])
      decreases |events| - i
    {
      assert slot[..k + 1][..k] == slot[..k] && events[i] == slot[k];
      ghost var done, rest := events[..i], events[i..];
      var event := events[i];
      if 0 < event.remainingRounds {
        var turned := event.(remainingRounds := event.remainingRounds - 1);
        events := events[i := turned];
        i := i + 1;
        assert events[..i] == done + [turned] && events[i..] == rest[1..];
      } else {
        expired := expired + [event];
        events := events[..i] + events[i + 1..];
        assert events[..i] == done && events[i..] == rest[1..];
      }
      k := k + 1;
    }
    assert events[..i] == events && events[i..] == [] && slot[..k] == slot;
    fired := Bag(expired, tick);
    forall a ensures Count(slot, tick, a) == Count(events, tick + SLOT_COUNT, a) + Count(expired, tick, a)
             ensures fired[a] == Count(expired, tick, a) {
      SweepCounts(slot, tick, a);
      BagCounts(expired, tick, a);
    }
    DueHasNoRounds(slot);
  }

  ghost function Bag(events: seq<TimerEvent>, base: nat): multiset<Alarm> {
    if events == [] then multiset{} else
      Bag(events[..|events| - 1], base) + multiset{AlarmOf(events[|events| - 1], base)}
  }

  lemma {:induction false} BagCounts(events: seq<TimerEvent>, base: nat, a: Alarm)
    ensures Bag(events, base)[a] == Count(events, base, a)
  {
    if events != [] {
      BagCounts(events[..|events| - 1], base, a);
    }
  }

  /** A sweep loses, doubles and postpones nothing: what stays is due one revolution later with one round less. */
  lemma {:induction false} SweepCounts(slot: seq<TimerEvent>, tick: nat, a: Alarm)
    ensures Count(slot, tick, a) == Count(TurnedIn(slot), tick + SLOT_COUNT, a) + Count(DueIn(slot), tick, a)
  {
    if slot != [] {
      var n := |slot| - 1;
      var last := slot[n];
      SweepCounts(slot[..n], tick, a);
      if last.remainingRounds == 0 {
        assert TurnedIn(slot) == TurnedIn(slot[..n]) && DueIn(slot) == DueIn(slot[..n]) + [last];
        CountConcat(DueIn(slot[..n]), [last], tick, a);
        CountOne(last, tick, a);
      } else {
        var turned := last.(remainingRounds := last.remainingRounds - 1);
        assert TurnedIn(slot) == TurnedIn(slot[..n]) + [turned] && DueIn(slot) == DueIn(slot[..n]);
        CountConcat(TurnedIn(slot[..n]), [turned], tick + SLOT_COUNT, a);
        CountOne(turned, tick + SLOT_COUNT, a);
      }
    }
  }

  lemma {:induction false} DueHasNoRounds(slot: seq<TimerEvent>)
    ensures forall e :: e in DueIn(slot) ==> e.remainingRounds == 0
  {
    if slot != [] {
      DueHasNoRounds(slot[..|slot| - 1]);
    }
  }

  lemma {:induction false} EmptyWheel(slots: seq<seq<TimerEvent>>, n: nat, a: Alarm)
    requires |slots| == SLOT_COUNT && n <= SLOT_COUNT
    requires forall s :: s in slots ==> s == []
    ensures WheelCount(slots, 0, 0, n, a) == 0
  {
    if n != 0 {
      EmptyWheel(slots, n - 1, a);
      assert slots[n - 1] in slots;
    }
  }

  // ---- Whole runs ----

  datatype WheelCommand = Arm(key: Key, generation: nat, ttl: int) | Turn

  /** How many ticks a script performs. */
  function Clock(script: seq<WheelCommand>): nat {
    if script == [] then 0 else
      Clock(script[..|script| - 1]) + if script[|script| - 1].Turn? then 1 else 0
  }

  /** How often a script arms alarm `a`, an alarm being due `ceil(ttl / 1000)` ticks after it was armed. */
  ghost function Armed(script: seq<WheelCommand>, a: Alarm): nat {
    if script == [] then 0 else
      var earlier, last := script[..|script| - 1], script[|script| - 1];
      Armed(earlier, a)
      + if last.Arm? && 0 < last.ttl && a == Alarm(last.key, last.generation, Clock(earlier) + Ticks(last.ttl))
        then 1 else 0
  }

  ghost predicate FiredAsArmed(fired: seq<seq<TimerEvent>>, script: seq<WheelCommand>) {
    forall t, a :: 0 <= t < |fired| ==> Count(fired[t], t + 1, a) == if a.due == t + 1 then Armed(script, a) else 0
  }

  ghost predicate PendingAsArmed(pending: multiset<Alarm>, now: nat, script: seq<WheelCommand>) {
    forall a :: pending[a] == if now < a.due then Armed(script, a) else 0
  }

  lemma NothingArmed()
    ensures PendingAsArmed(multiset{}, 0, []) && FiredAsArmed([], [])
  {
  }

  /** Arming once more never disturbs a tick that has already happened. */
  lemma {:induction false} ArmLater(fired: seq<seq<TimerEvent>>, pending: multiset<Alarm>, script: seq<WheelCommand>, arm: WheelCommand)
    requires arm.Arm? && 0 < arm.ttl && |fired| == Clock(script)
    requires FiredAsArmed(fired, script) && PendingAsArmed(pending, |fired|, script)
    ensures FiredAsArmed(fired, script + [arm])
    ensures PendingAsArmed(pending + multiset{Alarm(arm.key, arm.generation, |fired| + Ticks(arm.ttl))},
                           |fired|, script + [arm])
  {
    assert (script + [arm])[..|script|] == script;
    assert forall a :: Armed(script + [arm], a)
                    == Armed(script, a) + if a == Alarm(arm.key, arm.generation, |fired| + Ticks(arm.ttl)) then 1 else 0;
  }

  /** A tick moves the alarms due at its number from pending to fired. */
  lemma {:induction false} TurnOnce(fired: seq<seq<TimerEvent>>, before: multiset<Alarm>, after: multiset<Alarm>,
                 expired: seq<TimerEvent>, script: seq<WheelCommand>)
    requires |fired| == Clock(script)
    requires FiredAsArmed(fired, script) && PendingAsArmed(before, |fired|, script)
    requires forall e :: e in expired ==> e.remainingRounds == 0
    requires forall a :: a in after ==> |fired| + 1 < a.due
    requires forall a :: before[a] == after[a] + Count(expired, |fired| + 1, a)
    ensures FiredAsArmed(fired + [expired], script + [Turn])
    ensures PendingAsArmed(after, |fired| + 1, script + [Turn])
  {
    assert (script + [Turn])[..|script|] == script;
    assert forall a :: Armed(script + [Turn], a) == Armed(script, a);
    forall a ensures Count(expired, |fired| + 1, a) == if a.due == |fired| + 1 then Armed(script, a) else 0 {
      if 0 < Count(expired, |fired| + 1, a) {
        CountDue(expired, |fired| + 1, a);
      }
    }
  }

  /**
   Wheel exactness over whole runs.  For an arbitrary interleaving of schedules
   and ticks, tick number `t + 1` returns exactly the alarms armed with that due
   tick: none early, none late, none twice, none lost.
   */
  method Replay(script: seq<WheelCommand>) returns (fired: seq<seq<TimerEvent>>)
    requires forall c :: c in script && c.Arm? ==> 0 < c.ttl
    ensures |fired| == Clock(script)
    ensures FiredAsArmed(fired, script)
  {
    hide PendingAsArmed, FiredAsArmed, Armed;
    var wheel := new TimingWheel();
    fired := [];
    NothingArmed();
    for i := 0 to |script|
      invariant wheel.Valid() && fresh(wheel.Repr)
      invariant wheel.now == Clock(script[..i]) == |fired|
      invariant PendingAsArmed(wheel.pending, wheel.now, script[..i])
      invariant FiredAsArmed(fired, script[..i])
    {
      assert script[..i + 1] == script[..i] + [script[i]];
      assert script[..i + 1][..i] == script[..i];
      match script[i] {
        case Arm(key, generation, ttl) =>
          assert script[i] in script;
          ArmLater(fired, wheel.pending, script[..i], script[i]);
          wheel.Schedule(key, generation, ttl);
        case Turn =>
          ghost var before := wheel.pending;
          var expired := wheel.Tick();
          wheel.PendingIsFuture();
          TurnOnce(fired, before, wheel.pending, expired, script[..i]);
          fired := fired + [expired];
      }
    }
    assert script[..|script|] == script;
  }
}
