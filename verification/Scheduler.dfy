/**
 The Slack retry loop (packages/adapter-slack/src/recovery.ts, `RecoveryScheduler`).

 The loop stands still in two places: while a pass runs and while it sleeps before a retry.
 A wake-up only marks the sleep as over; the loop goes on in a later turn, and anything may
 happen before that. Jitter is any value in its range.
 */
module Scheduler {
  import opened Collections

  const RECOVERY_RETRY_BASE_MS: nat := 1_000
  const RECOVERY_RETRY_MAX_MS: nat := 60_000

  datatype Phase = Off | Passing | Sleeping(woken: bool)

  datatype Event =
    | Triggered
    | PassStarted
    | PassEnded(completed: bool)
    | SleepStarted(delay: nat)
    | LoopEnded
    | StopAsked

  datatype State = State(phase: Phase, followUp: bool, stopped: bool, backoff: nat, trace: seq<Event>)

  const FIRST: State := State(Off, false, false, RECOVERY_RETRY_BASE_MS, [])

  function Note(s: State, e: Event): State {
    s.(trace := s.trace + [e])
  }

  /** The head of the loop. */
  function LoopHead(s: State): State {
    if s.stopped then Note(s, LoopEnded).(phase := Off)
    else Note(s, PassStarted).(phase := Passing, followUp := false)
  }

  function Woken(p: Phase): Phase {
    if p.Sleeping? then Sleeping(true) else p
  }

  /** `jitter` is `floor(random() * backoff * 0.2)`. */
  predicate Jitter(s: State, jitter: nat) {
    5 * jitter <= s.backoff
  }

  function PassDone(s: State, completed: bool, jitter: nat): State {
    var t := Note(s, PassEnded(completed));
    if s.stopped then Note(t, LoopEnded).(phase := Off)
    else
      var u := if completed then t.(backoff := RECOVERY_RETRY_BASE_MS) else t;
      if u.followUp then LoopHead(u)
      else if completed then Note(u, LoopEnded).(phase := Off)
      else
        Note(u, SleepStarted(Min(RECOVERY_RETRY_MAX_MS, u.backoff + jitter)))
        .(phase := Sleeping(false), backoff := Min(RECOVERY_RETRY_MAX_MS, u.backoff * 2))
  }

  datatype Step =
    | Trigger
    | Stop
    | FinishPass(completed: bool, jitter: nat)
    | TimerFires
    | GoOn

  predicate Enabled(s: State, step: Step) {
    match step
    case Trigger => true
    case Stop => true
    case FinishPass(_, jitter) => s.phase == Passing && Jitter(s, jitter)
    case TimerFires => s.phase.Sleeping?
    case GoOn => s.phase == Sleeping(true)
  }

  function Apply(s: State, step: Step): State
    requires Enabled(s, step)
  {
    match step
    case Trigger =>
      if s.stopped then s
      else if s.phase != Off then Note(s, Triggered).(followUp := true, phase := Woken(s.phase))
      else LoopHead(Note(s, Triggered))
    case Stop => Note(s, StopAsked).(stopped := true, followUp := false, phase := Woken(s.phase))
    case FinishPass(completed, jitter) => PassDone(s, completed, jitter)
    case TimerFires => s.(phase := Sleeping(true))
    case GoOn => LoopHead(s)
  }

  // ----- The object -----

  class RecoveryScheduler {
    var phase: Phase
    var followUp: bool
    var stopped: bool
    var backoff: nat
    ghost var trace: seq<Event>

    ghost function View(): State
      reads this
    {
      State(phase, followUp, stopped, backoff, trace)
    }

    constructor ()
      ensures View() == FIRST
    {
      phase, followUp, stopped, backoff, trace := Off, false, false, RECOVERY_RETRY_BASE_MS, [];
    }

    method Trigger()
      modifies this
      ensures View() == Apply(old(View()), Step.Trigger)
    {
      if stopped { return; }
      trace := trace + [Triggered];
      if phase != Off {
        followUp := true;
        Wake();
        return;
      }
      StartOrEnd();
    }

    method Stop()
      modifies this
      ensures View() == Apply(old(View()), Step.Stop)
    {
      trace := trace + [StopAsked];
      stopped := true;
      followUp := false;
      Wake();
    }

    /** `wake?.()`. */
    method Wake()
      modifies `phase
      ensures View() == old(View()).(phase := Woken(old(phase)))
    {
      if phase.Sleeping? { phase := Sleeping(true); }
    }

    /** `while (!stopped)` and the start of a pass. */
    method StartOrEnd()
      modifies this
      ensures View() == LoopHead(old(View()))
    {
      if stopped {
        phase := Off;
        trace := trace + [LoopEnded];
      } else {
        followUp := false;
        phase := Passing;
        trace := trace + [PassStarted];
      }
    }

    /** The loop after its `await this.run()`, to the next await or its end. */
    method FinishPass(completed: bool, jitter: nat)
      requires phase == Passing && Jitter(View(), jitter)
      modifies this
      ensures View() == PassDone(old(View()), completed, jitter)
    {
      trace := trace + [PassEnded(completed)];
      if stopped {
        StartOrEnd();
        return;
      }
      if completed { backoff := RECOVERY_RETRY_BASE_MS; }
      if followUp {
        StartOrEnd();
        return;
      }
      if completed {
        phase := Off;
        trace := trace + [LoopEnded];
        return;
      }
      var delay := Min(RECOVERY_RETRY_MAX_MS, backoff + jitter);
      backoff := Min(RECOVERY_RETRY_MAX_MS, backoff * 2);
      phase := Sleeping(false);
      trace := trace + [SleepStarted(delay)];
    }
  }
}
