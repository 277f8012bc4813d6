/**
 Slack recovery over whole runs of passes: what each pass stores, with messages arriving in
 between and restarts from anything stored before (packages/adapter-slack/src/main.ts, the
 channel loop of `recoverMissedMessages`).

 Runs start from a stored watermark. Arrivals are newer than everything before them. A pass
 reads the channel as it was at its first page; what arrives while it goes on is on none of its
 channel pages, but the replies it reads later may be newer still.
 */
module SlackRuns {
  import opened Collections
  import opened SlackScan
  import opened SlackScanLaws

  /** The stored position of one channel. */
  datatype Cursor = Cursor(watermark: nat, continuation: Option<Continuation>)

  function OptionsFor(c: Cursor, nowMs: nat, maxPages: nat): Options {
    Options(c.watermark, if c.continuation.Some? then Some(c.continuation.value.olderThan) else None, nowMs, maxPages)
  }

  /** What the channel loop stores after a pass that resumed from `c`. */
  function Commit(c: Cursor, r: Outcome): Cursor {
    if r.failed then c
    else if r.truncated && r.continuation.Some? then c.(continuation := r.continuation)
    else
      var through := if c.continuation.Some? then Some(c.continuation.value.through) else r.advancedTo;
      Cursor(if through.Some? then through.value else c.watermark, None)
  }

  /** `finished` is what any pass or the live path got past, `saved` every position ever stored. */
  datatype Sys = Sys(history: seq<Row>, high: nat, cursor: Cursor, saved: set<Cursor>, finished: set<nat>)

  datatype Step =
    | Arrive(row: Row)
    | Elapse(high: nat)
    | LiveFinish(ts: nat)
    | Pass(port: Port, deliver: Deliver, nowMs: nat, maxPages: nat, during: seq<Row>, high: nat)
    | Restart(from: Cursor)

  function Stamped(walked: seq<nat>): set<nat> {
    set k | k in walked
  }

  /** Top-level messages that arrive, newest first, between the times `low` and `high`. */
  ghost predicate Arrivals(during: seq<Row>, low: nat, high: nat) {
    Descending(during) && low <= high && forall r | r in during :: low < r.ts <= high
  }

  ghost predicate Next(step: Step, a: Sys, b: Sys) {
    match step
    case Arrive(row) => row.ts > a.high && b == a.(history := [row] + a.history, high := row.ts)
    case Elapse(high) => high >= a.high && b == a.(high := high)
    case LiveFinish(ts) => b == a.(finished := a.finished + {ts})
    case Restart(from) => from in a.saved && b == a.(cursor := from)
    case Pass(port, deliver, nowMs, maxPages, during, high) =>
      var o := OptionsFor(a.cursor, nowMs, maxPages);
      && Arrivals(during, a.high, high)
      && Honest(Window(a.history, o.oldest, o.latest), high, port)
      && var (r, walked) := Recover(port, deliver, o);
         var c := Commit(a.cursor, r);
         b == Sys(during + a.history, high, c, a.saved + {c}, a.finished + Stamped(walked))
  }

  /**
   The pass resumed a truncated scan, was cut again, and fetched nothing of its window. Then
   there is nothing to continue from and the code takes the branch that closes the gap.
   */
  predicate EmptySlice(c: Cursor, r: Outcome) {
    c.continuation.Some? && !r.failed && r.truncated && r.continuation.None?
  }

  /** The pass closes a gap of one slice: the watermark becomes the last message it got past, be it a reply. */
  predicate Closes(c: Cursor, r: Outcome) {
    c.continuation.None? && !r.failed && !r.truncated && r.advancedTo.Some?
  }

  // ----- The invariant -----

  /** Every message in `[lo, hi]` is finished. */
  ghost predicate Finished(h: seq<Row>, finished: set<nat>, lo: int, hi: int) {
    forall r | r in h :: lo <= r.ts <= hi ==> r.ts in finished
  }

  /** Nothing is lost below the watermark, nor inside what a continuation skips. */
  ghost predicate CursorOk(h: seq<Row>, finished: set<nat>, base: nat, high: nat, c: Cursor) {
    && base <= c.watermark <= high
    && Finished(h, finished, base + 1, c.watermark)
    && (c.continuation.Some? ==>
          var Continuation(o, t) := c.continuation.value;
          c.watermark < o <= t <= high && Finished(h, finished, o, t))
  }

  /**
   What the stored position needs beyond the pass itself: an empty slice must have left nothing
   unfinished below its resume point, and a closing pass nothing that arrived meanwhile and is
   older than the last message it got past.
   */
  ghost predicate Spared(h: seq<Row>, during: seq<Row>, finished: set<nat>, c: Cursor, r: Outcome) {
    && (EmptySlice(c, r) ==> Finished(h, finished, c.watermark + 1, c.continuation.value.olderThan - 1))
    && (Closes(c, r) ==> Finished(during, finished, 0, r.advancedTo.value))
  }

  ghost predicate Snapshot(h: seq<Row>, high: nat) {
    Descending(h) && forall r | r in h :: r.ts <= high
  }

  ghost predicate Inv(s: Sys, base: nat) {
    && Snapshot(s.history, s.high) && s.cursor in s.saved
    && forall c {:trigger CursorOk(s.history, s.finished, base, s.high, c)} | c in s.saved ::
         CursorOk(s.history, s.finished, base, s.high, c)
  }

  /** A start from a stored watermark with no scan under way: nothing is claimed below it. */
  ghost predicate Init(s: Sys, base: nat) {
    && Snapshot(s.history, s.high)
    && s.cursor == Cursor(base, None) && base <= s.high && s.saved == {s.cursor}
  }

  /** A pass is harmless when whatever it skipped was finished anyway. */
  ghost predicate Harmless(step: Step, a: Sys, b: Sys) {
    step.Pass? ==>
      var r := Recover(step.port, step.deliver, OptionsFor(a.cursor, step.nowMs, step.maxPages)).0;
      Spared(a.history, step.during, b.finished, a.cursor, r)
  }

  ghost predicate StepAt(steps: seq<Step>, states: seq<Sys>, i: nat)
    requires |states| == |steps| + 1 && i < |steps|
  {
    Next(steps[i], states[i], states[i + 1]) && Harmless(steps[i], states[i], states[i + 1])
  }

  ghost predicate Behaviour(steps: seq<Step>, states: seq<Sys>, base: nat) {
    && |states| == |steps| + 1 && Init(states[0], base)
    && forall i {:trigger StepAt(steps, states, i)} | 0 <= i < |steps| :: StepAt(steps, states, i)
  }
}
