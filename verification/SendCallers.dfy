/**
 What the callers of the send gates are told (packages/adapter-discord/src/recovery.ts, `join`,
 and packages/adapter-slack/src/main.ts, `requestRecovered`).

 A pending entry is a promise: an attempt that is answered once, whoever awaits it. Callers are
 numbered as they come; the gate underneath is `SendGate`. On Discord everyone who awaits an
 attempt is told its verdict; on Slack a joiner of a successful one is told "duplicate".
 */
module SendCallers {
  import opened Collections
  import opened SendGate
  import opened SendGateLaws

  datatype Attempt = Attempt(id: nat, verdict: Option<Verdict>)

  /** The caller made the attempt, joined it, or was refused on the spot. */
  datatype Await = On(attempt: nat, own: bool) | AtOnce

  datatype Caller = Caller(id: nat, await: Await)

  /** `current` are the promises of the pending map. */
  datatype Calls = Calls(gate: State, current: map<nat, nat>, attempts: seq<Attempt>, callers: seq<Caller>)

  function Resolved(attempts: seq<Attempt>, a: nat, verdict: Verdict): seq<Attempt> {
    if a < |attempts| then attempts[a := attempts[a].(verdict := Some(verdict))] else attempts
  }

  function Arrived(s: Calls, c: Caller): Calls {
    s.(callers := s.callers + [c])
  }

  function Next(s: Calls, step: Step, limit: nat): Calls
    requires Enabled(s.gate, step)
  {
    var t := s.(gate := Apply(s.gate, step, limit));
    match step
    case Call(id) =>
      if id in s.current then Arrived(t, Caller(id, On(s.current[id], false)))
      else if id in s.gate.acked then Arrived(t, Caller(id, AtOnce))
      else
        Arrived(t.(current := s.current[id := |s.attempts|], attempts := s.attempts + [Attempt(id, None)]),
                Caller(id, On(|s.attempts|, true)))
    case Finish(id, verdict) =>
      if id in s.current
      then t.(attempts := Resolved(s.attempts, s.current[id], verdict), current := s.current - {id})
      else t
    case Answer(id, verdict) =>
      if id in s.current then t.(attempts := Resolved(s.attempts, s.current[id], verdict)) else t
    case Release(id) => t.(current := s.current - {id})
  }

  /** What a joiner makes of the verdict: on Slack it never claims a send it did not make. */
  function Shared(verdict: Verdict, slack: bool): Verdict {
    if slack && verdict in {Acked, Duplicate} then Duplicate else verdict
  }

  function ForJoiners(told: Option<Verdict>, slack: bool): Option<Verdict> {
    if told.None? then None else Some(Shared(told.value, slack))
  }

  /** What caller `k` is told, once its attempt was answered. */
  function Hears(s: Calls, k: nat, slack: bool): Option<Verdict>
    requires k < |s.callers|
  {
    match s.callers[k].await
    case AtOnce => Some(Duplicate)
    case On(a, own) =>
      if a >= |s.attempts| || s.attempts[a].verdict.None? then None
      else Some(if own then s.attempts[a].verdict.value else Shared(s.attempts[a].verdict.value, slack))
  }

  // ----- The invariant -----

  /** The promise of a pending id is an attempt for it, answered exactly if the gate says so. */
  ghost predicate PromiseOk(s: Calls, id: nat) {
    && (id in s.current <==> id in s.gate.pending)
    && (id in s.current ==>
          && s.current[id] < |s.attempts| && s.attempts[s.current[id]].id == id
          && (s.attempts[s.current[id]].verdict.Some? <==> s.gate.pending[id]))
  }

  /** An attempt without an answer is still its id's promise. */
  ghost predicate AttemptOk(s: Calls, a: nat)
    requires a < |s.attempts|
  {
    s.attempts[a].verdict.None? ==> s.attempts[a].id in s.current && s.current[s.attempts[a].id] == a
  }

  ghost predicate CallerOk(s: Calls, k: nat)
    requires k < |s.callers|
  {
    s.callers[k].await.On? ==>
      var On(a, own) := s.callers[k].await;
      && a < |s.attempts| && s.attempts[a].id == s.callers[k].id
      && (own ==> forall j | 0 <= j < k :: !OnAttempt(s, j, a))
      && (!own ==> exists j: nat :: Makes(s, j, a) && j < k)
  }

  predicate OnAttempt(s: Calls, j: nat, a: nat) {
    j < |s.callers| && s.callers[j].await.On? && s.callers[j].await.attempt == a
  }

  /** Caller `j` made attempt `a`. */
  predicate Makes(s: Calls, j: nat, a: nat) {
    j < |s.callers| && s.callers[j].await == On(a, true)
  }

  ghost predicate Attended(s: Calls, a: nat) {
    exists j: nat :: Makes(s, j, a)
  }

  ghost predicate CallsOk(s: Calls) {
    && (forall id {:trigger PromiseOk(s, id)} :: PromiseOk(s, id))
    && (forall a {:trigger AttemptOk(s, a)} {:trigger Attended(s, a)} | 0 <= a < |s.attempts| ::
          AttemptOk(s, a) && Attended(s, a))
    && (forall k {:trigger CallerOk(s, k)} | 0 <= k < |s.callers| :: CallerOk(s, k))
  }

  // ----- Every step -----

  /** A caller comes; the callers before it are as they were. */
  ghost predicate Adds(s: Calls, t: Calls) {
    && |s.callers| <= |t.callers| && (forall k | 0 <= k < |s.callers| :: t.callers[k] == s.callers[k])
    && |s.attempts| <= |t.attempts|
    && (forall a | 0 <= a < |s.attempts| ::
          t.attempts[a] == s.attempts[a] || t.attempts[a] == s.attempts[a].(verdict := t.attempts[a].verdict))
  }

  lemma OldCallersStay(s: Calls, t: Calls, k: nat)
    requires Adds(s, t) && k < |s.callers| && CallerOk(s, k)
    ensures CallerOk(t, k)
  {
    if s.callers[k].await.On? {
      var On(a, own) := s.callers[k].await;
      if own {
        assert forall j | 0 <= j < k :: OnAttempt(t, j, a) == OnAttempt(s, j, a);
      } else {
        var j: nat :| Makes(s, j, a) && j < k;
        assert Makes(t, j, a);
      }
    }
  }

  lemma StillAttended(s: Calls, t: Calls, a: nat)
    requires Adds(s, t) && Attended(s, a)
    ensures Attended(t, a)
  {
    var j :| Makes(s, j, a);
    assert Makes(t, j, a);
  }

  lemma JoinKeeps(s: Calls, id: nat, limit: nat)
    requires CallsOk(s) && id in s.current
    ensures CallsOk(Next(s, Call(id), limit))
  {
    var t, a := Next(s, Call(id), limit), s.current[id];
    assert PromiseOk(s, id);
    assert Attended(s, a);
    var j :| Makes(s, j, a);
    assert Makes(t, j, a);
    SameAttemptsStay(s, t);
  }

  lemma RefuseKeeps(s: Calls, id: nat, limit: nat)
    requires CallsOk(s) && id !in s.current && id in s.gate.acked
    ensures CallsOk(Next(s, Call(id), limit))
  {
    assert PromiseOk(s, id);
    SameAttemptsStay(s, Next(s, Call(id), limit));
  }

  /** One caller more on what there is. */
  lemma SameAttemptsStay(s: Calls, t: Calls)
    requires CallsOk(s) && Adds(s, t) && t.attempts == s.attempts && t.current == s.current
    requires t.gate.pending == s.gate.pending && |t.callers| == |s.callers| + 1 && CallerOk(t, |s.callers|)
    ensures CallsOk(t)
  {
    forall id ensures PromiseOk(t, id) { assert PromiseOk(s, id); }
    forall a | 0 <= a < |t.attempts| ensures AttemptOk(t, a) && Attended(t, a) {
      assert AttemptOk(s, a) && Attended(s, a);
      StillAttended(s, t, a);
    }
    forall k | 0 <= k < |t.callers| ensures CallerOk(t, k) {
      if k < |s.callers| { OldCallersStay(s, t, k); }
    }
  }

  lemma StartKeeps(s: Calls, id: nat, limit: nat)
    requires CallsOk(s) && id !in s.current && id !in s.gate.acked
    ensures CallsOk(Next(s, Call(id), limit))
  {
    var t, n, c := Next(s, Call(id), limit), |s.attempts|, |s.callers|;
    assert PromiseOk(s, id);
    forall d ensures PromiseOk(t, d) { assert PromiseOk(s, d); }
    assert Makes(t, c, n);
    forall a | 0 <= a < |t.attempts| ensures AttemptOk(t, a) && Attended(t, a) {
      if a < n {
        assert AttemptOk(s, a) && Attended(s, a);
        StillAttended(s, t, a);
      }
    }
    forall k | 0 <= k < |t.callers| ensures CallerOk(t, k) {
      if k < c { OldCallersStay(s, t, k); } else { NobodyYet(s, t, n); }
    }
  }

  lemma NobodyYet(s: Calls, t: Calls, n: nat)
    requires CallsOk(s) && Adds(s, t) && n == |s.attempts|
    ensures forall j | 0 <= j < |s.callers| :: !OnAttempt(t, j, n)
  {
    forall j | 0 <= j < |s.callers| ensures !OnAttempt(t, j, n) { assert CallerOk(s, j); }
  }

  /** An attempt is answered, or its promise dropped, or both. */
  lemma AnsweringKeeps(s: Calls, t: Calls, id: nat, verdict: Option<Verdict>, keep: bool)
    requires CallsOk(s) && id in s.current && t.callers == s.callers
    requires t.current == if keep then s.current else s.current - {id}
    requires t.attempts == if verdict.Some? then Resolved(s.attempts, s.current[id], verdict.value) else s.attempts
    requires verdict.Some? || (id in s.gate.pending && s.gate.pending[id])
    requires t.gate.pending == if keep then s.gate.pending[id := true] else s.gate.pending - {id}
    requires keep ==> verdict.Some?
    ensures CallsOk(t)
  {
    assert PromiseOk(s, id);
    assert Adds(s, t);
    forall d ensures PromiseOk(t, d) { assert PromiseOk(s, d); }
    forall a | 0 <= a < |t.attempts| ensures AttemptOk(t, a) && Attended(t, a) {
      assert AttemptOk(s, a) && Attended(s, a);
      StillAttended(s, t, a);
    }
    forall k | 0 <= k < |t.callers| ensures CallerOk(t, k) { OldCallersStay(s, t, k); }
  }

  lemma StepKeepsCalls(s: Calls, step: Step, limit: nat)
    requires CallsOk(s) && Enabled(s.gate, step)
    ensures CallsOk(Next(s, step, limit))
  {
    assert PromiseOk(s, step.id);
    match step
    case Call(id) =>
      if id in s.current {
        JoinKeeps(s, id, limit);
      } else if id in s.gate.acked {
        RefuseKeeps(s, id, limit);
      } else {
        StartKeeps(s, id, limit);
      }
    case Finish(id, verdict) =>
      assert s.gate.pending[id := true] - {id} == s.gate.pending - {id};
      AnsweringKeeps(s, Next(s, step, limit), id, Some(verdict), false);
    case Answer(id, verdict) => AnsweringKeeps(s, Next(s, step, limit), id, Some(verdict), true);
    case Release(id) => AnsweringKeeps(s, Next(s, step, limit), id, None, false);
  }

  // ----- Whole histories -----

  ghost predicate CallAt(states: seq<Calls>, steps: seq<Step>, limit: nat, i: nat)
    requires |states| == |steps| + 1 && i < |steps|
  {
    Enabled(states[i].gate, steps[i]) && states[i + 1] == Next(states[i], steps[i], limit)
  }

  ghost predicate CallHistory(states: seq<Calls>, steps: seq<Step>, limit: nat) {
    && |states| == |steps| + 1 && states[0] == Calls(State(map[], [], []), map[], [], [])
    && forall i {:trigger CallAt(states, steps, limit, i)} | 0 <= i < |steps| :: CallAt(states, steps, limit, i)
  }

  lemma {:induction false} CallHistoryKeeps(states: seq<Calls>, steps: seq<Step>, limit: nat, n: nat)
    requires CallHistory(states, steps, limit) && n <= |steps|
    ensures CallsOk(states[n])
  {
    if n == 0 {
      forall id ensures PromiseOk(states[0], id) {}
    } else {
      CallHistoryKeeps(states, steps, limit, n - 1);
      assert CallAt(states, steps, limit, n - 1);
      StepKeepsCalls(states[n - 1], steps[n - 1], limit);
    }
  }

  /**
   Every joiner shares the outcome of the one caller whose send it joined, an earlier caller
   for the same id: on Discord the verdict itself, on Slack "duplicate" for a successful one.
   Once nothing is in flight for an id, everyone who called with it was told something.
   */
  lemma JoinersShareTheOutcome(states: seq<Calls>, steps: seq<Step>, limit: nat, k: nat, slack: bool) returns (j: nat)
    requires CallHistory(states, steps, limit) && k < |states[|steps|].callers|
    ensures var s := states[|steps|];
            var c := s.callers[k];
            && (c.await.AtOnce? ==> Hears(s, k, slack) == Some(Duplicate))
            && (c.await.On? ==>
                  && j <= k && s.callers[j] == Caller(c.id, On(c.await.attempt, true)) && (c.await.own ==> j == k)
                  && (j < k ==> Hears(s, k, slack) == ForJoiners(Hears(s, j, slack), slack)))
            && (c.id !in s.gate.pending ==> Hears(s, k, slack).Some?)
  {
    CallHistoryKeeps(states, steps, limit, |steps|);
    var s := states[|steps|];
    var c := s.callers[k];
    assert CallerOk(s, k) && PromiseOk(s, c.id);
    j := k;
    if c.await.On? {
      assert AttemptOk(s, c.await.attempt);
      if !c.await.own {
        j :| Makes(s, j, c.await.attempt) && j < k;
        assert CallerOk(s, j);
      }
    }
  }

  /** No two callers made one attempt, so on Slack no two are told "acked" for one send. */
  lemma OneAckPerSend(states: seq<Calls>, steps: seq<Step>, limit: nat, j: nat, k: nat)
    requires CallHistory(states, steps, limit) && j < k < |states[|steps|].callers|
    requires var s := states[|steps|]; Hears(s, j, true) == Hears(s, k, true) == Some(Acked)
    ensures var s := states[|steps|];
            && s.callers[j].await.On? && s.callers[k].await.On?
            && s.callers[j].await.attempt != s.callers[k].await.attempt
  {
    CallHistoryKeeps(states, steps, limit, |steps|);
    var s := states[|steps|];
    assert CallerOk(s, k);
    assert s.callers[k].await.own && !OnAttempt(s, j, s.callers[k].await.attempt);
  }

  /** An answer once heard stays: no step takes it back, or turns it into another. */
  lemma AnswersAreFinal(states: seq<Calls>, steps: seq<Step>, limit: nat, step: Step, k: nat, slack: bool)
    requires CallHistory(states, steps, limit)
    requires var s := states[|steps|];
             Enabled(s.gate, step) && k < |s.callers| && Hears(s, k, slack).Some?
    ensures var s := states[|steps|];
            var t := Next(s, step, limit);
            k < |t.callers| && t.callers[k] == s.callers[k] && Hears(t, k, slack) == Hears(s, k, slack)
  {
    CallHistoryKeeps(states, steps, limit, |steps|);
    assert PromiseOk(states[|steps|], step.id) && CallerOk(states[|steps|], k);
  }
}
