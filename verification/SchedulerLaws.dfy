/** The scheduler loses no trigger, runs one pass at a time, and backs off within its bounds. */
module SchedulerLaws {
  import opened Collections
  import opened Scheduler

  /** Some trigger has had no pass start since. */
  predicate Owed(trace: seq<Event>) {
    trace != [] &&
    match trace[|trace| - 1]
    case Triggered => true
    case PassStarted => false
    case _ => Owed(trace[..|trace| - 1])
  }

  /** A pass has started and not ended. */
  predicate InPass(trace: seq<Event>) {
    trace != [] &&
    match trace[|trace| - 1]
    case PassStarted => true
    case PassEnded(_) => false
    case _ => InPass(trace[..|trace| - 1])
  }

  /** The loop sleeps, or has just woken. */
  predicate Slept(trace: seq<Event>) {
    trace != [] &&
    match trace[|trace| - 1]
    case SleepStarted(_) => true
    case Triggered => Slept(trace[..|trace| - 1])
    case StopAsked => Slept(trace[..|trace| - 1])
    case _ => false
  }

  /** The retries slept for since a pass last completed. */
  function Retries(trace: seq<Event>): nat {
    if trace == [] then 0
    else
      match trace[|trace| - 1]
      case PassEnded(true) => 0
      case SleepStarted(_) => 1 + Retries(trace[..|trace| - 1])
      case _ => Retries(trace[..|trace| - 1])
  }

  function Backoff(retries: nat): nat {
    if retries == 0 then RECOVERY_RETRY_BASE_MS else Min(RECOVERY_RETRY_MAX_MS, 2 * Backoff(retries - 1))
  }

  /**
   A pass starts outside a pass, before any stop, and only for a trigger that none has answered
   or after a sleep; it ends inside one. A sleep follows a pass that did not complete and that
   nobody triggered into, and lasts as long as the backoff says, give or take a fifth. The loop
   ends because a stop was asked for, or right after a completed pass with no trigger since it
   began.
   */
  predicate EventOk(before: seq<Event>, e: Event) {
    match e
    case PassStarted => !InPass(before) && StopAsked !in before && (Owed(before) || Slept(before))
    case PassEnded(_) => InPass(before)
    case SleepStarted(delay) =>
      var backoff := Backoff(Retries(before));
      && before != [] && before[|before| - 1] == PassEnded(false) && !Owed(before) && StopAsked !in before
      && !InPass(before) && backoff <= delay <= Min(RECOVERY_RETRY_MAX_MS, backoff + backoff / 5)
    case LoopEnded =>
      StopAsked in before || (before != [] && before[|before| - 1] == PassEnded(true) && !Owed(before))
    case _ => true
  }

  ghost predicate Lawful(trace: seq<Event>) {
    forall k {:trigger trace[k]} | 0 <= k < |trace| :: EventOk(trace[..k], trace[k])
  }

  /** The backoff follows the trace; a pass that ends after a stop no longer resets it. */
  ghost predicate BackoffOk(s: State) {
    && RECOVERY_RETRY_BASE_MS <= s.backoff <= RECOVERY_RETRY_MAX_MS
    && (!s.stopped ==> s.backoff == Backoff(Retries(s.trace)))
  }

  ghost predicate Inv(s: State) {
    && Lawful(s.trace) && BackoffOk(s)
    && (InPass(s.trace) <==> s.phase == Passing)
    && (s.stopped <==> StopAsked in s.trace)
    && (Owed(s.trace) && !s.stopped ==> s.followUp && s.phase != Off && (s.phase.Sleeping? ==> s.phase.woken))
    && (s.followUp && !s.stopped ==> Owed(s.trace)) && (s.phase.Sleeping? ==> Slept(s.trace))
  }

  lemma {:induction false} BackoffIsBounded(retries: nat)
    ensures RECOVERY_RETRY_BASE_MS <= Backoff(retries) <= RECOVERY_RETRY_MAX_MS
  {
    if retries > 0 { BackoffIsBounded(retries - 1); }
  }

  lemma Noting(s: State, e: Event) returns (trace: seq<Event>)
    requires Lawful(s.trace) && EventOk(s.trace, e)
    ensures trace == Note(s, e).trace && Lawful(trace) && trace[..|trace| - 1] == s.trace && trace[|trace| - 1] == e
    ensures |trace| > 0
  {
    trace := s.trace + [e];
    forall k | 0 <= k < |trace|
      ensures EventOk(trace[..k], trace[k])
    {
      assert trace[..k] == s.trace[..k];
      if k < |s.trace| { assert trace[k] == s.trace[k]; } else { assert s.trace[..k] == s.trace; }
    }
    assert trace[..|trace| - 1] == s.trace;
  }

  lemma LoopHeadIsGood(s: State)
    requires Lawful(s.trace) && !InPass(s.trace) && BackoffOk(s)
    requires (s.stopped <==> StopAsked in s.trace) && (Owed(s.trace) || Slept(s.trace))
    ensures Inv(LoopHead(s))
  {
    var trace := Noting(s, if s.stopped then LoopEnded else PassStarted);
    assert trace == LoopHead(s).trace;
  }

  /** The delay and the next backoff are those of one more retry. */
  lemma NextBackoff(s: State, jitter: nat) returns (delay: nat, doubled: nat)
    requires BackoffOk(s) && !s.stopped && Jitter(s, jitter) && !InPass(s.trace)
    requires s.trace != [] && s.trace[|s.trace| - 1] == PassEnded(false) && !Owed(s.trace) && StopAsked !in s.trace
    ensures delay == Min(RECOVERY_RETRY_MAX_MS, s.backoff + jitter)
    ensures doubled == Min(RECOVERY_RETRY_MAX_MS, s.backoff * 2) == Backoff(Retries(s.trace) + 1)
    ensures RECOVERY_RETRY_BASE_MS <= doubled && EventOk(s.trace, SleepStarted(delay))
  {
    delay, doubled := Min(RECOVERY_RETRY_MAX_MS, s.backoff + jitter), Min(RECOVERY_RETRY_MAX_MS, s.backoff * 2);
  }

  lemma FallsAsleep(s: State, jitter: nat) returns (t: State)
    requires Lawful(s.trace) && !InPass(s.trace) && BackoffOk(s) && !s.stopped && Jitter(s, jitter)
    requires (s.stopped <==> StopAsked in s.trace) && !Owed(s.trace) && !s.followUp
    requires s.trace != [] && s.trace[|s.trace| - 1] == PassEnded(false)
    ensures t == Note(s, SleepStarted(Min(RECOVERY_RETRY_MAX_MS, s.backoff + jitter)))
                 .(phase := Sleeping(false), backoff := Min(RECOVERY_RETRY_MAX_MS, s.backoff * 2))
    ensures Inv(t)
  {
    var delay, doubled := NextBackoff(s, jitter);
    var trace := Noting(s, SleepStarted(delay));
    t := s.(trace := trace, phase := Sleeping(false), backoff := doubled);
  }

  lemma EndsHere(s: State) returns (t: State)
    requires Lawful(s.trace) && !InPass(s.trace) && BackoffOk(s)
    requires (s.stopped <==> StopAsked in s.trace) && EventOk(s.trace, LoopEnded)
    requires !s.stopped ==> !s.followUp
    ensures t == Note(s, LoopEnded).(phase := Off) && Inv(t)
  {
    var trace := Noting(s, LoopEnded);
    t := Note(s, LoopEnded).(phase := Off);
    assert t.trace == trace;
  }

  /** The state right after a pass, before the loop decides what is next. */
  lemma PassEnds(s: State, completed: bool) returns (u: State)
    requires Inv(s) && s.phase == Passing
    ensures u == if completed && !s.stopped then Note(s, PassEnded(completed)).(backoff := RECOVERY_RETRY_BASE_MS)
                 else Note(s, PassEnded(completed))
    ensures Lawful(u.trace) && !InPass(u.trace) && BackoffOk(u)
    ensures (u.stopped <==> StopAsked in u.trace) && Owed(u.trace) == Owed(s.trace)
    ensures u.trace != [] && u.trace[|u.trace| - 1] == PassEnded(completed)
  {
    var trace := Noting(s, PassEnded(completed));
    var t := Note(s, PassEnded(completed));
    u := if completed && !s.stopped then t.(backoff := RECOVERY_RETRY_BASE_MS) else t;
    assert u.trace == trace;
  }

  lemma StoppedPassIsGood(s: State, completed: bool, jitter: nat)
    requires Inv(s) && s.phase == Passing && Jitter(s, jitter) && s.stopped
    ensures Inv(PassDone(s, completed, jitter))
  {
    var u := PassEnds(s, completed);
    var t := EndsHere(u);
    assert PassDone(s, completed, jitter) == t;
  }

  lemma FollowedPassIsGood(s: State, completed: bool, jitter: nat)
    requires Inv(s) && s.phase == Passing && Jitter(s, jitter) && !s.stopped && s.followUp
    ensures Inv(PassDone(s, completed, jitter))
  {
    var u := PassEnds(s, completed);
    LoopHeadIsGood(u);
    assert PassDone(s, completed, jitter) == LoopHead(u);
  }

  lemma LonePassIsGood(s: State, completed: bool, jitter: nat)
    requires Inv(s) && s.phase == Passing && Jitter(s, jitter) && !s.stopped && !s.followUp
    ensures Inv(PassDone(s, completed, jitter))
  {
    var u := PassEnds(s, completed);
    if completed {
      var t := EndsHere(u);
      assert PassDone(s, completed, jitter) == t;
    } else {
      var t := FallsAsleep(u, jitter);
      assert PassDone(s, completed, jitter) == t;
    }
  }

  lemma PassDoneIsGood(s: State, completed: bool, jitter: nat)
    requires Inv(s) && s.phase == Passing && Jitter(s, jitter)
    ensures Inv(PassDone(s, completed, jitter))
  {
    if s.stopped {
      StoppedPassIsGood(s, completed, jitter);
    } else if s.followUp {
      FollowedPassIsGood(s, completed, jitter);
    } else {
      LonePassIsGood(s, completed, jitter);
    }
  }

  lemma TriggerIsGood(s: State)
    requires Inv(s)
    ensures Inv(Apply(s, Trigger))
  {
    if !s.stopped {
      var trace := Noting(s, Triggered);
      assert trace == Note(s, Triggered).trace;
      if s.phase == Off { LoopHeadIsGood(Note(s, Triggered)); }
    }
  }

  lemma StepKeeps(s: State, step: Step)
    requires Inv(s) && Enabled(s, step)
    ensures Inv(Apply(s, step))
  {
    match step
    case Trigger => TriggerIsGood(s);
    case Stop =>
      var trace := Noting(s, StopAsked);
      assert trace == Note(s, StopAsked).trace;
    case FinishPass(completed, jitter) => PassDoneIsGood(s, completed, jitter);
    case TimerFires =>
    case GoOn => LoopHeadIsGood(s);
  }

  // ----- Whole histories -----

  ghost predicate StepAt(states: seq<State>, steps: seq<Step>, i: nat)
    requires |states| == |steps| + 1 && i < |steps|
  {
    Enabled(states[i], steps[i]) && states[i + 1] == Apply(states[i], steps[i])
  }

  ghost predicate History(states: seq<State>, steps: seq<Step>) {
    && |states| == |steps| + 1 && states[0] == FIRST
    && forall i {:trigger StepAt(states, steps, i)} | 0 <= i < |steps| :: StepAt(states, steps, i)
  }

  lemma {:induction false} HistoryKeeps(states: seq<State>, steps: seq<Step>, n: nat)
    requires History(states, steps) && n <= |steps|
    ensures Inv(states[n])
  {
    if n > 0 {
      HistoryKeeps(states, steps, n - 1);
      assert StepAt(states, steps, n - 1);
      StepKeeps(states[n - 1], steps[n - 1]);
    }
  }

  /**
   What every history looks like: passes never overlap, every retry sleeps within its
   backoff, and the loop ends only stopped or after a completed pass nobody triggered into.
   */
  lemma HistoriesAreLawful(states: seq<State>, steps: seq<Step>, k: nat)
    requires History(states, steps) && k < |states[|steps|].trace|
    ensures var trace := states[|steps|].trace; EventOk(trace[..k], trace[k])
  {
    HistoryKeeps(states, steps, |steps|);
    var trace := states[|steps|].trace;
    assert trace[k] == trace[k];
  }

  /**
   No trigger is lost: until a stop is asked for, a trigger that no pass has answered yet
   keeps the loop going, and whichever event moves the loop next starts a pass.
   */
  lemma NoTriggerIsLost(states: seq<State>, steps: seq<Step>, step: Step)
    requires History(states, steps) && Owed(states[|steps|].trace) && !states[|steps|].stopped
    ensures var s := states[|steps|];
            && (s.phase == Passing || s.phase == Sleeping(true))
            && ((step.FinishPass? || step.GoOn?) && Enabled(s, step) ==>
                  var trace := Apply(s, step).trace;
                  trace[|trace| - 1] == PassStarted && !Owed(trace))
  {
    HistoryKeeps(states, steps, |steps|);
  }

  /**
   What comes after a pass, over every history: the loop ends when it was stopped, passes again
   when it was triggered since the pass began, ends after a completed pass and sleeps after any
   other.
   */
  lemma PassesAreFollowedUp(states: seq<State>, steps: seq<Step>, completed: bool, jitter: nat)
    requires History(states, steps) && Enabled(states[|steps|], FinishPass(completed, jitter))
    ensures var s := states[|steps|];
            var t := Apply(s, FinishPass(completed, jitter));
            && |t.trace| == |s.trace| + 2 && t.trace[..|s.trace| + 1] == s.trace + [PassEnded(completed)]
            && var next := t.trace[|s.trace| + 1];
               if StopAsked in s.trace then next == LoopEnded
               else if Owed(s.trace) then next == PassStarted
               else if completed then next == LoopEnded
               else next.SleepStarted?
  {
    HistoryKeeps(states, steps, |steps|);
  }

  /** A trigger before any stop is noted, and starts a pass at once when no loop runs. */
  lemma TriggersAreHeard(states: seq<State>, steps: seq<Step>)
    requires History(states, steps) && StopAsked !in states[|steps|].trace
    ensures var s := states[|steps|];
            Apply(s, Trigger).trace == s.trace + [Triggered] + if s.phase == Off then [PassStarted] else []
  {
    HistoryKeeps(states, steps, |steps|);
  }

  /** A sleep that nobody cuts short ends with its timer, and a retry follows unless the loop was stopped. */
  lemma SleepersRetry(states: seq<State>, steps: seq<Step>)
    requires History(states, steps) && states[|steps|].phase.Sleeping?
    ensures var s := states[|steps|];
            && Enabled(s, TimerFires) && Enabled(Apply(s, TimerFires), GoOn)
            && Apply(Apply(s, TimerFires), GoOn).trace ==
               s.trace + [if StopAsked in s.trace then LoopEnded else PassStarted]
  {
    HistoryKeeps(states, steps, |steps|);
  }

  /** Backoff doubles from one second to one minute and starts over after a completed pass. */
  lemma BackoffStaysInRange(states: seq<State>, steps: seq<Step>)
    requires History(states, steps)
    ensures var s := states[|steps|];
            && (!s.stopped ==> s.backoff == Backoff(Retries(s.trace)))
            && RECOVERY_RETRY_BASE_MS <= s.backoff <= RECOVERY_RETRY_MAX_MS
  {
    HistoryKeeps(states, steps, |steps|);
  }
}
