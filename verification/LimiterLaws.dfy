/** Limiter safety over every history of arrivals, wake-ups and lane lifetimes. */
module LimiterLaws {
  import opened Collections
  import opened Limiter

  // ----- What the trace says -----

  function ArrivedIn(trace: seq<Event>, c: nat, p: Priority): seq<nat> {
    if trace == [] then []
    else
      var last := trace[|trace| - 1];
      ArrivedIn(trace[..|trace| - 1], c, p)
      + if last.Arrived? && last.channel == c && last.priority == p then [last.who] else []
  }

  function SentIn(trace: seq<Event>, c: nat, p: Priority): seq<nat> {
    if trace == [] then []
    else
      var last := trace[|trace| - 1];
      SentIn(trace[..|trace| - 1], c, p)
      + if last.Sent? && last.channel == c && last.priority == p then [last.who] else []
  }

  lemma TraceSnoc(trace: seq<Event>, e: Event, c: nat, p: Priority)
    ensures ArrivedIn(trace + [e], c, p) ==
            ArrivedIn(trace, c, p) + if e.Arrived? && e.channel == c && e.priority == p then [e.who] else []
    ensures SentIn(trace + [e], c, p) ==
            SentIn(trace, c, p) + if e.Sent? && e.channel == c && e.priority == p then [e.who] else []
  {
    assert (trace + [e])[..|trace + [e]| - 1] == trace;
  }

  function QueueOf(lane: Lane, p: Priority): seq<nat> {
    if p == Delivery then lane.deliveries else lane.cosmetics
  }

  /** Who waits on the channel: nobody when it has no lane. */
  function WaitingFor(s: State, c: nat, p: Priority): seq<nat> {
    if c in s.channels then QueueOf(s.channels[c], p) else []
  }

  /** Everyone who asked has been sent, in order, or waits, in order. */
  ghost predicate Conserved(trace: seq<Event>, c: nat, lane: Lane) {
    forall p :: ArrivedIn(trace, c, p) == SentIn(trace, c, p) + QueueOf(lane, p)
  }

  /** A send is never too early after another, and a cosmetic one leaves no delivery behind. */
  ghost predicate SendOk(trace: seq<Event>, k: nat, interval: nat)
    requires k < |trace|
  {
    trace[k].Sent? ==>
      var c := trace[k].channel;
      && (forall j {:trigger trace[j]} | 0 <= j < k && trace[j].Sent? && trace[j].channel == c ::
            trace[j].at + interval <= trace[k].at)
      && (trace[k].priority == Cosmetic ==> ArrivedIn(trace[..k], c, Delivery) == SentIn(trace[..k], c, Delivery))
  }

  ghost predicate SendsOk(trace: seq<Event>, interval: nat) {
    forall k {:trigger SendOk(trace, k, interval)} | 0 <= k < |trace| :: SendOk(trace, k, interval)
  }

  /** Every send on the channel is at least an interval before `at`. */
  ghost predicate Spaced(trace: seq<Event>, c: nat, interval: nat, at: nat) {
    forall j {:trigger trace[j]} | 0 <= j < |trace| && trace[j].Sent? && trace[j].channel == c ::
      trace[j].at + interval <= at
  }

  lemma SendsOkSnoc(trace: seq<Event>, e: Event, interval: nat)
    requires SendsOk(trace, interval)
    requires e.Sent? ==> Spaced(trace, e.channel, interval, e.at)
    requires e.Sent? && e.priority == Cosmetic ==>
               ArrivedIn(trace, e.channel, Delivery) == SentIn(trace, e.channel, Delivery)
    ensures SendsOk(trace + [e], interval)
  {
    var more := trace + [e];
    forall k | 0 <= k < |more|
      ensures SendOk(more, k, interval)
    {
      if k < |trace| {
        assert SendOk(trace, k, interval);
        assert more[..k] == trace[..k];
      } else {
        assert more[..k] == trace;
      }
    }
  }

  // ----- The invariant -----

  /** The lane of channel `c` accounts for everyone, is asleep exactly while someone waits, and keeps the spacing. */
  ghost predicate LaneOk(trace: seq<Event>, c: nat, lane: Lane, now: nat, interval: nat) {
    && Conserved(trace, c, lane) && (lane.draining <==> Waiting(lane))
    && Spaced(trace, c, interval, Max(now, lane.nextAt))
  }

  /** Nobody waits on a channel without a lane, and its next send may come at once. */
  ghost predicate Quiet(trace: seq<Event>, c: nat, now: nat, interval: nat) {
    && (forall p :: ArrivedIn(trace, c, p) == SentIn(trace, c, p))
    && Spaced(trace, c, interval, now)
  }

  ghost predicate ChannelOk(s: State, c: nat, interval: nat) {
    if c in s.channels then LaneOk(s.trace, c, s.channels[c], s.now, interval)
    else Quiet(s.trace, c, s.now, interval)
  }

  ghost predicate Inv(s: State, interval: nat) {
    SendsOk(s.trace, interval) && forall c {:trigger ChannelOk(s, c, interval)} :: ChannelOk(s, c, interval)
  }

  // ----- One drain -----

  /** The events `more` adds to `trace` are sends of channel `c`. */
  ghost predicate OnlySends(trace: seq<Event>, c: nat, more: seq<Event>) {
    && trace <= more
    && forall k | |trace| <= k < |more| :: more[k].Sent? && more[k].channel == c
  }

  lemma {:induction false} OthersUnmoved(trace: seq<Event>, c: nat, more: seq<Event>, d: nat, p: Priority)
    requires OnlySends(trace, c, more) && d != c
    ensures ArrivedIn(more, d, p) == ArrivedIn(trace, d, p) && SentIn(more, d, p) == SentIn(trace, d, p)
    decreases |more|
  {
    if |more| > |trace| {
      OthersUnmoved(trace, c, more[..|more| - 1], d, p);
    } else {
      assert more == trace;
    }
  }

  lemma DispatchingIsOk(c: nat, lane: Lane, now: nat, interval: nat, trace: seq<Event>)
    returns (served: Lane, more: seq<Event>)
    requires Waiting(lane) && lane.nextAt <= now
    requires Conserved(trace, c, lane) && Spaced(trace, c, interval, now) && SendsOk(trace, interval)
    ensures served == Dispatched(lane, now, interval)
    ensures more == trace + [Sent(c, NextUp(lane).0, NextUp(lane).1, now)]
    ensures Conserved(more, c, served) && Spaced(more, c, interval, served.nextAt) && SendsOk(more, interval)
  {
    var (who, priority) := NextUp(lane);
    var e := Sent(c, who, priority, now);
    served, more := Dispatched(lane, now, interval), trace + [e];
    forall p
      ensures ArrivedIn(more, c, p) == SentIn(more, c, p) + QueueOf(served, p)
    {
      TraceSnoc(trace, e, c, p);
      assert ArrivedIn(trace, c, p) == SentIn(trace, c, p) + QueueOf(lane, p);
      if p == priority {
        assert QueueOf(lane, p) == [who] + QueueOf(served, p);
      }
    }
    assert ArrivedIn(trace, c, Delivery) == SentIn(trace, c, Delivery) + QueueOf(lane, Delivery);
    SendsOkSnoc(trace, e, interval);
  }

  lemma {:induction false} DrainingIsOk(c: nat, lane: Lane, now: nat, interval: nat, trace: seq<Event>)
    requires Conserved(trace, c, lane) && Spaced(trace, c, interval, Max(now, lane.nextAt)) && SendsOk(trace, interval)
    ensures var (l, more) := Drained(c, lane, now, interval, trace);
            LaneOk(more, c, l, now, interval) && SendsOk(more, interval) && OnlySends(trace, c, more)
    decreases Queued(lane)
  {
    if Waiting(lane) && lane.nextAt <= now {
      var served, more := DispatchingIsOk(c, lane, now, interval, trace);
      DrainingIsOk(c, served, now, interval, more);
    } else {
      forall p ensures ArrivedIn(trace, c, p) == SentIn(trace, c, p) + QueueOf(lane, p) {}
    }
  }

  lemma SpacedElsewhere(trace: seq<Event>, c: nat, more: seq<Event>, d: nat, interval: nat, at: nat)
    requires OnlySends(trace, c, more) && d != c && Spaced(trace, d, interval, at)
    ensures Spaced(more, d, interval, at)
  {}

  lemma DrainIsOk(s: State, c: nat, interval: nat)
    requires c in s.channels && SendsOk(s.trace, interval)
    requires Conserved(s.trace, c, s.channels[c])
    requires Spaced(s.trace, c, interval, Max(s.now, s.channels[c].nextAt))
    requires forall d {:trigger ChannelOk(s, d, interval)} | d != c :: ChannelOk(s, d, interval)
    ensures Inv(Drain(s, c, interval), interval)
  {
    var t := Drain(s, c, interval);
    DrainingIsOk(c, s.channels[c], s.now, interval, s.trace);
    forall d
      ensures ChannelOk(t, d, interval)
    {
      if d != c { ElsewhereIsOk(s, t, c, d, interval); }
    }
  }

  lemma ElsewhereIsOk(s: State, t: State, c: nat, d: nat, interval: nat)
    requires ChannelOk(s, d, interval) && d != c && OnlySends(s.trace, c, t.trace) && t.now == s.now
    requires (d in t.channels <==> d in s.channels) && (d in s.channels ==> t.channels[d] == s.channels[d])
    ensures ChannelOk(t, d, interval)
  {
    OthersUnmoved(s.trace, c, t.trace, d, Delivery);
    OthersUnmoved(s.trace, c, t.trace, d, Cosmetic);
    var at := if d in s.channels then Max(s.now, s.channels[d].nextAt) else s.now;
    SpacedElsewhere(s.trace, c, t.trace, d, interval, at);
  }

  // ----- Every step -----

  lemma TickKeeps(s: State, now: nat, interval: nat)
    requires Inv(s, interval) && now >= s.now
    ensures Inv(s.(now := now), interval)
  {
    var t := s.(now := now);
    forall c
      ensures ChannelOk(t, c, interval)
    {
      assert ChannelOk(s, c, interval);
    }
  }

  lemma ArrivalElsewhere(s: State, t: State, e: Event, d: nat, interval: nat)
    requires ChannelOk(s, d, interval) && e.Arrived? && e.channel != d && t.trace == s.trace + [e] && t.now == s.now
    requires (d in t.channels <==> d in s.channels) && (d in s.channels ==> t.channels[d] == s.channels[d])
    ensures ChannelOk(t, d, interval)
  {
    forall p
      ensures ArrivedIn(t.trace, d, p) == ArrivedIn(s.trace, d, p) && SentIn(t.trace, d, p) == SentIn(s.trace, d, p)
    {
      TraceSnoc(s.trace, e, d, p);
    }
    ArrivalKeepsSpacing(s.trace, e, d, interval, if d in s.channels then Max(s.now, s.channels[d].nextAt) else s.now);
  }

  lemma ArrivalKeepsSpacing(trace: seq<Event>, e: Event, d: nat, interval: nat, at: nat)
    requires Spaced(trace, d, interval, at) && e.Arrived?
    ensures Spaced(trace + [e], d, interval, at)
  {}

  /** The channel with its new waiter, before anything is sent. */
  lemma ArrivalIsOk(s: State, c: nat, who: nat, priority: Priority, interval: nat, t: State)
    requires Inv(s, interval)
    requires t == s.(channels := s.channels[c := Enqueued(LaneOf(s, c), who, priority)], born := t.born,
                     trace := s.trace + [Arrived(c, who, priority)])
    ensures SendsOk(t.trace, interval)
    ensures Conserved(t.trace, c, t.channels[c])
    ensures Spaced(t.trace, c, interval, Max(t.now, t.channels[c].nextAt))
    ensures forall d {:trigger ChannelOk(t, d, interval)} | d != c :: ChannelOk(t, d, interval)
  {
    var e := Arrived(c, who, priority);
    SendsOkSnoc(s.trace, e, interval);
    assert ChannelOk(s, c, interval);
    forall p
      ensures ArrivedIn(t.trace, c, p) == SentIn(t.trace, c, p) + QueueOf(t.channels[c], p)
    {
      TraceSnoc(s.trace, e, c, p);
      assert ArrivedIn(s.trace, c, p) == SentIn(s.trace, c, p) + QueueOf(LaneOf(s, c), p);
    }
    forall d | d != c
      ensures ChannelOk(t, d, interval)
    {
      assert ChannelOk(s, d, interval);
      ArrivalElsewhere(s, t, e, d, interval);
    }
  }

  lemma AcquireKeeps(s: State, c: nat, who: nat, priority: Priority, interval: nat)
    requires Inv(s, interval)
    ensures Inv(Acquired(s, c, who, priority, interval), interval)
  {
    var lane := Enqueued(LaneOf(s, c), who, priority);
    var t := s.(channels := s.channels[c := lane],
                born := if c in s.channels then s.born else s.born + 1,
                trace := s.trace + [Arrived(c, who, priority)]);
    ArrivalIsOk(s, c, who, priority, interval, t);
    if lane.draining {
      forall d ensures ChannelOk(t, d, interval) {}
    } else {
      DrainIsOk(t, c, interval);
    }
  }

  lemma WakeKeeps(s: State, c: nat, interval: nat)
    requires Inv(s, interval) && c in s.channels
    ensures Inv(Drain(s, c, interval), interval)
  {
    assert ChannelOk(s, c, interval);
    DrainIsOk(s, c, interval);
  }

  lemma RetireKeeps(s: State, c: nat, id: nat, interval: nat)
    requires Inv(s, interval) && Retirable(s, c, id)
    ensures Inv(s.(channels := s.channels - {c}), interval)
  {
    var t := s.(channels := s.channels - {c});
    forall d
      ensures ChannelOk(t, d, interval)
    {
      assert ChannelOk(s, d, interval);
      if d == c {
        forall p
          ensures ArrivedIn(t.trace, c, p) == SentIn(t.trace, c, p)
        {
          assert ArrivedIn(s.trace, c, p) == SentIn(s.trace, c, p) + QueueOf(s.channels[c], p);
        }
      }
    }
  }

  lemma StepKeeps(s: State, step: Step, interval: nat)
    requires Inv(s, interval) && Enabled(s, step)
    ensures Inv(Apply(s, step, interval), interval)
  {
    match step
    case Tick(now) => TickKeeps(s, now, interval);
    case Acquire(c, who, priority) => AcquireKeeps(s, c, who, priority, interval);
    case Wake(c) => WakeKeeps(s, c, interval);
    case Retire(c, id) => if Retirable(s, c, id) { RetireKeeps(s, c, id, interval); }
  }

  // ----- Whole histories -----

  ghost predicate StepAt(states: seq<State>, steps: seq<Step>, interval: nat, i: nat)
    requires |states| == |steps| + 1 && i < |steps|
  {
    Enabled(states[i], steps[i]) && states[i + 1] == Apply(states[i], steps[i], interval)
  }

  ghost predicate History(states: seq<State>, steps: seq<Step>, interval: nat) {
    && |states| == |steps| + 1 && states[0] == State(map[], 0, 0, [])
    && forall i {:trigger StepAt(states, steps, interval, i)} | 0 <= i < |steps| :: StepAt(states, steps, interval, i)
  }

  lemma {:induction false} HistoryKeeps(states: seq<State>, steps: seq<Step>, interval: nat, n: nat)
    requires History(states, steps, interval) && n <= |steps|
    ensures Inv(states[n], interval)
  {
    if n == 0 {
      forall c ensures ChannelOk(states[0], c, interval) {}
    } else {
      HistoryKeeps(states, steps, interval, n - 1);
      assert StepAt(states, steps, interval, n - 1);
      StepKeeps(states[n - 1], steps[n - 1], interval);
    }
  }

  /**
   Spacing and priority, across lanes that are retired and born again: two sends on a channel
   are at least the interval apart, and when a cosmetic one is sent every delivery that had
   asked for a slot on that channel has been sent already.
   */
  lemma SendsAreSpacedAndRanked(states: seq<State>, steps: seq<Step>, interval: nat, j: nat, k: nat)
    requires History(states, steps, interval) && j < k < |states[|steps|].trace|
    requires var trace := states[|steps|].trace;
             trace[j].Sent? && trace[k].Sent? && trace[j].channel == trace[k].channel
    ensures var trace := states[|steps|].trace;
            && trace[j].at + interval <= trace[k].at
            && (trace[k].priority == Cosmetic ==>
                  ArrivedIn(trace[..k], trace[k].channel, Delivery) == SentIn(trace[..k], trace[k].channel, Delivery))
  {
    HistoryKeeps(states, steps, interval, |steps|);
    var trace := states[|steps|].trace;
    assert SendOk(trace, k, interval) && trace[j] == trace[j];
  }

  /**
   Nobody is lost, doubled or overtaken within a class: those sent, in order, followed by
   those waiting, in order, are exactly those who asked, in order. A channel without a lane
   has nobody waiting, and a lane with waiters is asleep until its next slot, never idle.
   */
  lemma WaitersAreServedInOrder(states: seq<State>, steps: seq<Step>, interval: nat, c: nat, p: Priority)
    requires History(states, steps, interval)
    ensures var s := states[|steps|];
            && ArrivedIn(s.trace, c, p) == SentIn(s.trace, c, p) + WaitingFor(s, c, p)
            && (WaitingFor(s, c, p) != [] ==> c in s.channels && s.channels[c].draining)
  {
    HistoryKeeps(states, steps, interval, |steps|);
    var s := states[|steps|];
    assert ChannelOk(s, c, interval);
    if c in s.channels {
      assert ArrivedIn(s.trace, c, p) == SentIn(s.trace, c, p) + QueueOf(s.channels[c], p);
    }
  }

  /**
   What a retirement timer does, over every history: it deletes the channel's lane if and only
   if it is that lane's, nobody waits and its cooldown is over, and it touches nothing else.
   */
  lemma TimersForgetIdleLanes(states: seq<State>, steps: seq<Step>, interval: nat, c: nat, id: nat)
    requires History(states, steps, interval) && c in states[|steps|].channels
    ensures var s := states[|steps|];
            var t := Apply(s, Retire(c, id), interval);
            && (c !in t.channels <==>
                  && s.channels[c].id == id && s.channels[c].nextAt <= s.now
                  && WaitingFor(s, c, Delivery) == [] && WaitingFor(s, c, Cosmetic) == [])
            && t.channels - {c} == s.channels - {c} && (c in t.channels ==> t == s)
            && t.trace == s.trace && t.now == s.now && t.born == s.born
  {
    HistoryKeeps(states, steps, interval, |steps|);
    assert ChannelOk(states[|steps|], c, interval);
  }

  // ----- The promised wait -----

  /** No timer of channel `c` is late, and nobody else asks for a slot on it. */
  ghost predicate Punctual(s: State, step: Step, c: nat) {
    && Enabled(s, step)
    && match step
       case Tick(now) =>
         c in s.channels && Waiting(s.channels[c]) ==> now <= Max(s.now, s.channels[c].nextAt)
       case Acquire(d, _, _) => d != c
       case Wake(_) => true
       case Retire(_, _) => true
  }

  /** `who` is the last of those waiting, and is due at `at`. */
  ghost predicate DueLast(lane: Lane, who: nat, now: nat, at: nat, interval: nat) {
    && lane.draining && lane.cosmetics != [] && lane.cosmetics[|lane.cosmetics| - 1] == who
    && LastSlot(lane, now, interval) == at
  }

  /** `who` is due at `at`, or was sent at that very moment. */
  ghost predicate OnSchedule(s: State, c: nat, who: nat, at: nat, interval: nat) {
    || (c in s.channels && DueLast(s.channels[c], who, s.now, at, interval))
    || Sent(c, who, Cosmetic, at) in s.trace
  }

  lemma {:induction false} DrainedOnSchedule(
    c: nat, lane: Lane, now: nat, interval: nat, trace: seq<Event>, who: nat, at: nat)
    requires DueLast(lane.(draining := true), who, now, at, interval)
    ensures var (l, more) := Drained(c, lane, now, interval, trace);
            trace <= more && (DueLast(l, who, now, at, interval) || Sent(c, who, Cosmetic, at) in more)
    decreases Queued(lane)
  {
    if lane.nextAt <= now {
      var (next, priority) := NextUp(lane);
      var served, more := Dispatched(lane, now, interval), trace + [Sent(c, next, priority, now)];
      LastSlotSteps(lane, now, interval);
      if Waiting(served) {
        DrainedOnSchedule(c, served, now, interval, more, who, at);
      } else {
        assert more[|trace|] == Sent(c, who, Cosmetic, at);
      }
    } else {
      LastSlotIs(lane, now, interval);
      LastSlotIs(lane.(draining := true), now, interval);
    }
  }

  /** A slot handed out on time leaves the last slot where it is. */
  lemma LastSlotSteps(lane: Lane, now: nat, interval: nat)
    requires Waiting(lane) && lane.nextAt <= now
    ensures var served := Dispatched(lane, now, interval);
            LastSlot(lane.(draining := true), now, interval) ==
            if Waiting(served) then LastSlot(served.(draining := true), now, interval) else now
  {}

  lemma {:induction false} DrainedGrows(c: nat, lane: Lane, now: nat, interval: nat, trace: seq<Event>)
    ensures trace <= Drained(c, lane, now, interval, trace).1
    decreases Queued(lane)
  {
    if Waiting(lane) && lane.nextAt <= now {
      var (who, priority) := NextUp(lane);
      DrainedGrows(c, Dispatched(lane, now, interval), now, interval, trace + [Sent(c, who, priority, now)]);
    }
  }

  lemma TraceGrows(s: State, step: Step, interval: nat)
    requires Enabled(s, step)
    ensures s.trace <= Apply(s, step, interval).trace
  {
    match step
    case Acquire(c, who, priority) =>
      DrainedGrows(c, Enqueued(LaneOf(s, c), who, priority), s.now, interval, s.trace + [Arrived(c, who, priority)]);
    case Wake(c) => DrainedGrows(c, s.channels[c], s.now, interval, s.trace);
    case Tick(_) =>
    case Retire(_, _) =>
  }

  lemma StaysOnSchedule(s: State, step: Step, c: nat, who: nat, at: nat, interval: nat)
    requires OnSchedule(s, c, who, at, interval) && Punctual(s, step, c)
    ensures OnSchedule(Apply(s, step, interval), c, who, at, interval)
  {
    TraceGrows(s, step, interval);
    if Sent(c, who, Cosmetic, at) !in s.trace {
      match step
      case Tick(now) =>
        LastSlotIs(s.channels[c], s.now, interval);
        LastSlotIs(s.channels[c], now, interval);
      case Wake(d) => if d == c { DrainedOnSchedule(c, s.channels[c], s.now, interval, s.trace, who, at); }
      case Acquire(_, _, _) =>
      case Retire(_, _) =>
    }
  }

  lemma StartsOnSchedule(s: State, c: nat, who: nat, interval: nat)
    ensures OnSchedule(
              Acquired(s, c, who, Cosmetic, interval), c, who, s.now + Pending(s, c, interval), interval)
  {
    var lane, at := Enqueued(LaneOf(s, c), who, Cosmetic), s.now + Pending(s, c, interval);
    PendingIsLastSlot(s, c, who, interval);
    LastSlotIs(lane, s.now, interval);
    LastSlotIs(lane.(draining := true), s.now, interval);
    if !lane.draining {
      DrainedOnSchedule(c, lane, s.now, interval, s.trace + [Arrived(c, who, Cosmetic)], who, at);
    }
  }

  lemma {:induction false} LastSlotIsAhead(lane: Lane, now: nat, interval: nat)
    requires Waiting(lane)
    ensures LastSlot(lane, now, interval) >= now
    decreases Queued(lane)
  {
    var at := Max(now, lane.nextAt);
    var rest := Dispatched(lane, at, interval);
    if Waiting(rest) { LastSlotIsAhead(rest, at, interval); }
  }

  ghost predicate LastWaiting(s: State, c: nat, who: nat) {
    var queue := WaitingFor(s, c, Cosmetic);
    queue != [] && queue[|queue| - 1] == who
  }

  lemma ScheduleHolds(s: State, c: nat, who: nat, at: nat, interval: nat)
    requires OnSchedule(s, c, who, at, interval)
    ensures (LastWaiting(s, c, who) && s.now <= at) || Sent(c, who, Cosmetic, at) in s.trace
  {
    if c in s.channels && DueLast(s.channels[c], who, s.now, at, interval) {
      LastSlotIsAhead(s.channels[c], s.now, interval);
    }
  }

  ghost predicate PunctualAt(states: seq<State>, steps: seq<Step>, c: nat, interval: nat, i: nat)
    requires |states| == |steps| + 1 && i < |steps|
  {
    Punctual(states[i], steps[i], c) && states[i + 1] == Apply(states[i], steps[i], interval)
  }

  lemma {:induction false} RunsOnSchedule(
    states: seq<State>, steps: seq<Step>, c: nat, who: nat, at: nat, interval: nat, n: nat)
    requires |states| == |steps| + 1 && n <= |steps| && OnSchedule(states[0], c, who, at, interval)
    requires forall i {:trigger PunctualAt(states, steps, c, interval, i)} | 0 <= i < |steps| ::
               PunctualAt(states, steps, c, interval, i)
    ensures OnSchedule(states[n], c, who, at, interval)
  {
    if n > 0 {
      RunsOnSchedule(states, steps, c, who, at, interval, n - 1);
      assert PunctualAt(states, steps, c, interval, n - 1);
      StaysOnSchedule(states[n - 1], steps[n - 1], c, who, at, interval);
    }
  }

  /**
   `pendingMs` is exact: in every run from a cosmetic caller's arrival on, with any traffic on
   other channels, none on its own, and timers that are not late, the caller still waits, and
   for no longer than promised, or was sent at exactly the promised time.
   */
  lemma PendingIsExact(s: State, c: nat, who: nat, interval: nat, states: seq<State>, steps: seq<Step>)
    requires |states| == |steps| + 1 && states[0] == Acquired(s, c, who, Cosmetic, interval)
    requires forall i {:trigger PunctualAt(states, steps, c, interval, i)} | 0 <= i < |steps| ::
               PunctualAt(states, steps, c, interval, i)
    ensures var t, at := states[|steps|], s.now + Pending(s, c, interval);
            (LastWaiting(t, c, who) && t.now <= at) || Sent(c, who, Cosmetic, at) in t.trace
  {
    StartsOnSchedule(s, c, who, interval);
    RunsOnSchedule(states, steps, c, who, s.now + Pending(s, c, interval), interval, |steps|);
    ScheduleHolds(states[|steps|], c, who, s.now + Pending(s, c, interval), interval);
  }

  /** Such a run can always go on: waiting until the next slot and waking serves at least one more. */
  lemma WakingServes(s: State, c: nat, interval: nat)
    requires c in s.channels && s.channels[c].draining && Waiting(s.channels[c])
    ensures var tick := Tick(Max(s.now, s.channels[c].nextAt));
            && Punctual(s, tick, c)
            && var t := Apply(s, tick, interval);
               Punctual(t, Wake(c), c)
               && Queued(Apply(t, Wake(c), interval).channels[c]) < Queued(s.channels[c])
  {
    var t := s.(now := Max(s.now, s.channels[c].nextAt));
    var lane := s.channels[c];
    var (who, priority) := NextUp(lane);
    DrainedShrinks(c, Dispatched(lane, t.now, interval), t.now, interval, t.trace + [Sent(c, who, priority, t.now)]);
  }

  lemma {:induction false} DrainedShrinks(c: nat, lane: Lane, now: nat, interval: nat, trace: seq<Event>)
    ensures Queued(Drained(c, lane, now, interval, trace).0) <= Queued(lane)
    decreases Queued(lane)
  {
    if Waiting(lane) && lane.nextAt <= now {
      var (who, priority) := NextUp(lane);
      DrainedShrinks(c, Dispatched(lane, now, interval), now, interval, trace + [Sent(c, who, priority, now)]);
    }
  }
}
