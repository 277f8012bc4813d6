/**
 Outbound pacing per channel (packages/adapter-slack/src/api.ts, `OutboundLimiter`).

 Time is an abstract clock that never goes back; synchronous code takes none of it and a sleep
 never ends early. A lane that is `draining` between events is asleep until its `nextAt`. Lanes
 carry their birth number, which is what object identity tells apart.
 */
module Limiter {
  import opened Collections

  datatype Priority = Delivery | Cosmetic

  datatype Lane = Lane(id: nat, nextAt: nat, deliveries: seq<nat>, cosmetics: seq<nat>, draining: bool)

  /** What a caller can observe: it asked for a slot, and it got one. */
  datatype Event =
    | Arrived(channel: nat, who: nat, priority: Priority)
    | Sent(channel: nat, who: nat, priority: Priority, at: nat)

  datatype State = State(channels: map<nat, Lane>, born: nat, now: nat, trace: seq<Event>)

  predicate Waiting(lane: Lane) {
    lane.deliveries != [] || lane.cosmetics != []
  }

  function Queued(lane: Lane): nat {
    |lane.deliveries| + |lane.cosmetics|
  }

  /** The next waiter, deliveries first. */
  function NextUp(lane: Lane): (nat, Priority)
    requires Waiting(lane)
  {
    if lane.deliveries != [] then (lane.deliveries[0], Delivery) else (lane.cosmetics[0], Cosmetic)
  }

  /** Hands the slot at `now` to the next waiter. */
  function Dispatched(lane: Lane, now: nat, interval: nat): Lane
    requires Waiting(lane)
  {
    var served :=
      if lane.deliveries != [] then lane.(deliveries := lane.deliveries[1..])
      else lane.(cosmetics := lane.cosmetics[1..]);
    served.(nextAt := Max(now, lane.nextAt) + interval)
  }

  /** The drain loop from its head: until nobody waits, or to sleep until the next slot. */
  function Drained(c: nat, lane: Lane, now: nat, interval: nat, trace: seq<Event>): (Lane, seq<Event>)
    decreases Queued(lane)
  {
    if !Waiting(lane) then (lane.(draining := false), trace)
    else if lane.nextAt > now then (lane.(draining := true), trace)
    else
      var (who, priority) := NextUp(lane);
      Drained(c, Dispatched(lane, now, interval), now, interval, trace + [Sent(c, who, priority, now)])
  }

  function Drain(s: State, c: nat, interval: nat): State
    requires c in s.channels
  {
    var (lane, trace) := Drained(c, s.channels[c], s.now, interval, s.trace);
    s.(channels := s.channels[c := lane], trace := trace)
  }

  function Enqueued(lane: Lane, who: nat, priority: Priority): Lane {
    if priority == Delivery then lane.(deliveries := lane.deliveries + [who])
    else lane.(cosmetics := lane.cosmetics + [who])
  }

  function LaneOf(s: State, c: nat): Lane {
    if c in s.channels then s.channels[c] else Lane(s.born, 0, [], [], false)
  }

  function Acquired(s: State, c: nat, who: nat, priority: Priority, interval: nat): State {
    var lane := Enqueued(LaneOf(s, c), who, priority);
    var t := s.(channels := s.channels[c := lane],
                born := if c in s.channels then s.born else s.born + 1,
                trace := s.trace + [Arrived(c, who, priority)]);
    if lane.draining then t else Drain(t, c, interval)
  }

  /** A retirement timer re-checks that its lane is still the channel's, idle, and past its cooldown. */
  predicate Retirable(s: State, c: nat, id: nat) {
    && c in s.channels && s.channels[c].id == id
    && !s.channels[c].draining && !Waiting(s.channels[c]) && s.channels[c].nextAt <= s.now
  }

  /** Timers fire at any time at all, for any lane that ever was. */
  datatype Step =
    | Tick(now: nat)
    | Acquire(channel: nat, who: nat, priority: Priority)
    | Wake(channel: nat)
    | Retire(channel: nat, id: nat)

  predicate Enabled(s: State, step: Step) {
    match step
    case Tick(now) => now >= s.now
    case Acquire(_, _, _) => true
    case Wake(c) => c in s.channels && s.channels[c].draining && s.channels[c].nextAt <= s.now
    case Retire(_, _) => true
  }

  function Apply(s: State, step: Step, interval: nat): State
    requires Enabled(s, step)
  {
    match step
    case Tick(now) => s.(now := now)
    case Acquire(c, who, priority) => Acquired(s, c, who, priority, interval)
    case Wake(c) => Drain(s, c, interval)
    case Retire(c, id) => if Retirable(s, c, id) then s.(channels := s.channels - {c}) else s
  }

  // ----- The promised wait -----

  /**
   When a lane left to itself, and woken on time, serves its waiters one after another: the time
   of the last of them.
   */
  function LastSlot(lane: Lane, now: nat, interval: nat): nat
    requires Waiting(lane)
    decreases Queued(lane)
  {
    var at := Max(now, lane.nextAt);
    var rest := Dispatched(lane, at, interval);
    if Waiting(rest) then LastSlot(rest, at, interval) else at
  }

  function Pending(s: State, c: nat, interval: nat): nat {
    if c !in s.channels then 0
    else Max(0, s.channels[c].nextAt - s.now) + Queued(s.channels[c]) * interval
  }

  lemma OneMore(n: nat, interval: nat)
    requires n > 0
    ensures n * interval == interval + (n - 1) * interval
  {}

  lemma {:induction false} LastSlotIs(lane: Lane, now: nat, interval: nat)
    requires Waiting(lane)
    ensures LastSlot(lane, now, interval) == Max(now, lane.nextAt) + (Queued(lane) - 1) * interval
    decreases Queued(lane)
  {
    var at := Max(now, lane.nextAt);
    var rest := Dispatched(lane, at, interval);
    assert Queued(rest) == Queued(lane) - 1;
    if Waiting(rest) {
      LastSlotIs(rest, at, interval);
      OneMore(Queued(rest), interval);
    } else {
      assert Queued(rest) == 0;
    }
  }

  lemma PendingIsLastSlot(s: State, c: nat, who: nat, interval: nat)
    ensures LastSlot(Enqueued(LaneOf(s, c), who, Cosmetic), s.now, interval) == s.now + Pending(s, c, interval)
  {
    LastSlotIs(Enqueued(LaneOf(s, c), who, Cosmetic), s.now, interval);
  }

  // ----- The object -----

  class OutboundLimiter {
    const minIntervalMs: nat
    var channels: map<nat, Lane>
    var born: nat
    var now: nat
    ghost var trace: seq<Event>

    ghost function View(): State
      reads this
    {
      State(channels, born, now, trace)
    }

    constructor (minIntervalMs: nat)
      ensures this.minIntervalMs == minIntervalMs && View() == State(map[], 0, 0, [])
    {
      this.minIntervalMs := minIntervalMs;
      channels, born, now, trace := map[], 0, 0, [];
    }

    /** `#drain`, from the head of its loop to its next sleep or its end. */
    method RunDrain(channel: nat)
      requires channel in channels
      modifies `channels, `trace
      ensures View() == Drain(old(View()), channel, minIntervalMs)
    {
      var lane := channels[channel];
      while lane.deliveries != [] || lane.cosmetics != []
        invariant channels == old(channels)
        invariant Drained(channel, old(channels[channel]), now, minIntervalMs, old(trace)) ==
                  Drained(channel, lane, now, minIntervalMs, trace)
        decreases Queued(lane)
      {
        if lane.nextAt > now {
          channels := channels[channel := lane.(draining := true)];
          return;
        }
        trace := trace + [Sent(channel, NextUp(lane).0, NextUp(lane).1, now)];
        var nextAt := Max(now, lane.nextAt) + minIntervalMs;
        if lane.deliveries != [] {
          lane := lane.(deliveries := lane.deliveries[1..], nextAt := nextAt);
        } else {
          lane := lane.(cosmetics := lane.cosmetics[1..], nextAt := nextAt);
        }
      }
      channels := channels[channel := lane.(draining := false)];
    }

    /** `acquire`, up to the point where the caller waits. */
    method Acquire(channel: nat, who: nat, priority: Priority)
      modifies this
      ensures View() == Acquired(old(View()), channel, who, priority, minIntervalMs)
    {
      var lane := Lane(born, 0, [], [], false);
      if channel in channels {
        lane := channels[channel];
      } else {
        born := born + 1;
      }
      lane := Enqueued(lane, who, priority);
      channels := channels[channel := lane];
      trace := trace + [Arrived(channel, who, priority)];
      if !lane.draining { RunDrain(channel); }
    }

    /** The retirement timer of lane `id`. */
    method Retire(channel: nat, id: nat)
      modifies `channels
      ensures View() == Apply(old(View()), Step.Retire(channel, id), minIntervalMs)
    {
      if channel in channels {
        var current := channels[channel];
        if current.id == id && !current.draining && current.deliveries == [] && current.cosmetics == []
           && current.nextAt <= now {
          channels := channels - {channel};
        }
      }
    }

    /** What it returns is the time until the last slot, were one more cosmetic caller to ask now. */
    method PendingMs(channel: nat) returns (ms: nat)
      ensures ms == Pending(View(), channel, minIntervalMs)
      ensures forall who ::
                LastSlot(Enqueued(LaneOf(View(), channel), who, Cosmetic), now, minIntervalMs) == now + ms
    {
      forall who
        ensures LastSlot(Enqueued(LaneOf(View(), channel), who, Cosmetic), now, minIntervalMs) ==
                now + Pending(View(), channel, minIntervalMs)
      {
        PendingIsLastSlot(View(), channel, who, minIntervalMs);
      }
      if channel !in channels { return 0; }
      var lane := channels[channel];
      ms := Max(0, lane.nextAt - now) + (|lane.deliveries| + |lane.cosmetics|) * minIntervalMs;
    }
  }
}
