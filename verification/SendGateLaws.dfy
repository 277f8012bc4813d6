/** Single flight, and exactly once within a window of `limit` other acknowledgements. */
module SendGateLaws {
  import opened Collections
  import opened SendGate

  /** An attempt was started and not yet let go. */
  predicate InFlight(trace: seq<Event>, id: nat) {
    trace != [] &&
    var last := trace[|trace| - 1];
    if last == Started(id) then true
    else if last == Released(id) then false
    else InFlight(trace[..|trace| - 1], id)
  }

  predicate EverAcked(trace: seq<Event>, id: nat) {
    Ended(id, Acked) in trace
  }

  /** The other ids acknowledged since `id` last was. */
  function Since(trace: seq<Event>, id: nat): set<nat> {
    if trace == [] then {}
    else
      var last, before := trace[|trace| - 1], trace[..|trace| - 1];
      if !last.Ended? || last.verdict != Acked then Since(before, id)
      else if last.id == id then {}
      else Since(before, id) + {last.id}
  }

  predicate EventOk(before: seq<Event>, e: Event, limit: nat) {
    match e
    case Started(id) => !InFlight(before, id) && (EverAcked(before, id) ==> |Since(before, id)| >= limit)
    case Joined(id) => InFlight(before, id)
    case Refused(id) => !InFlight(before, id) && EverAcked(before, id)
    case Ended(id, _) => InFlight(before, id)
    case Released(id) => InFlight(before, id)
  }

  ghost predicate Lawful(trace: seq<Event>, limit: nat) {
    forall k {:trigger trace[k]} | 0 <= k < |trace| :: EventOk(trace[..k], trace[k], limit)
  }

  /** The ids remembered after `id`. */
  function Behind(acked: seq<nat>, id: nat): (r: set<nat>)
    ensures forall x | x in r :: x in acked
  {
    if acked == [] then {}
    else
      assert acked == [acked[0]] + acked[1..];
      if acked[0] == id then Members(acked[1..]) else Behind(acked[1..], id)
  }

  /** A remembered id has exactly the later ones behind it; a forgotten one was pushed out by `limit` others. */
  ghost predicate MemoryOk(s: State, id: nat, limit: nat) {
    && (id in s.acked ==> EverAcked(s.trace, id) && Since(s.trace, id) == Behind(s.acked, id))
    && (EverAcked(s.trace, id) && id !in s.acked ==> |Since(s.trace, id)| >= limit)
  }

  ghost predicate Inv(s: State, limit: nat) {
    && Lawful(s.trace, limit) && Distinct(s.acked) && |s.acked| <= limit
    && (forall id {:trigger MemoryOk(s, id, limit)} :: MemoryOk(s, id, limit))
    && (forall id {:trigger InFlight(s.trace, id)} :: InFlight(s.trace, id) <==> id in s.pending)
    && (forall id | id in s.pending && !s.pending[id] :: id !in s.acked)
  }

  // ----- Memory -----

  lemma {:induction false} BehindSnoc(acked: seq<nat>, id: nat, x: nat)
    requires x in acked && id !in acked && Distinct(acked)
    ensures Behind(acked + [id], x) == Behind(acked, x) + {id}
  {
    assert (acked + [id])[1..] == acked[1..] + [id];
    if acked[0] != x {
      BehindSnoc(acked[1..], id, x);
    }
  }

  lemma {:induction false} BehindNew(acked: seq<nat>, id: nat)
    requires id !in acked
    ensures Behind(acked + [id], id) == {}
  {
    if acked != [] {
      assert (acked + [id])[1..] == acked[1..] + [id];
      BehindNew(acked[1..], id);
    }
  }

  lemma BehindTail(s: seq<nat>, x: nat)
    requires s != [] && Distinct(s) && x in s[1..]
    ensures Behind(s, x) == Behind(s[1..], x)
  {
    var i :| 0 <= i < |s[1..]| && s[1..][i] == x;
    assert s[i + 1] == x && s[0] != x;
  }

  lemma TraceSnoc(trace: seq<Event>, e: Event, id: nat)
    ensures EverAcked(trace + [e], id) <==> EverAcked(trace, id) || e == Ended(id, Acked)
    ensures InFlight(trace + [e], id) ==
            if e == Started(id) then true else if e == Released(id) then false else InFlight(trace, id)
    ensures Since(trace + [e], id) ==
            if !e.Ended? || e.verdict != Acked then Since(trace, id)
            else if e.id == id then {} else Since(trace, id) + {e.id}
  {
    assert (trace + [e])[..|trace + [e]| - 1] == trace;
  }

  lemma LawfulSnoc(trace: seq<Event>, e: Event, limit: nat)
    requires Lawful(trace, limit) && EventOk(trace, e, limit)
    ensures Lawful(trace + [e], limit)
  {
    var more := trace + [e];
    forall k | 0 <= k < |more|
      ensures EventOk(more[..k], more[k], limit)
    {
      assert more[..k] == trace[..k];
      if k == |trace| { assert trace[..k] == trace; } else { assert more[k] == trace[k]; }
    }
  }

  /** One more id is remembered, with room for all: the memory of `x`. */
  lemma GrowingKeeps(s: State, id: nat, limit: nat, t: State, x: nat)
    requires Distinct(s.acked) && id !in s.acked && MemoryOk(s, x, limit)
    requires t.acked == s.acked + [id] && t.trace == s.trace + [Ended(id, Acked)]
    ensures MemoryOk(t, x, limit)
  {
    TraceSnoc(s.trace, Ended(id, Acked), x);
    if x == id {
      BehindNew(s.acked, id);
    } else if x in s.acked {
      BehindSnoc(s.acked, id, x);
    } else {
      GrowingCounts(Since(s.trace, x), id);
    }
  }

  /** The oldest is forgotten: the memory of `x`. */
  lemma ForgettingKeeps(s: State, limit: nat, t: State, x: nat)
    requires Distinct(s.acked) && |s.acked| == limit + 1 && MemoryOk(s, x, limit)
    requires t.acked == s.acked[1..] && t.trace == s.trace
    ensures MemoryOk(t, x, limit)
  {
    assert s.acked == [s.acked[0]] + t.acked;
    if x in t.acked {
      BehindTail(s.acked, x);
    } else if x == s.acked[0] {
      DistinctCounts(t.acked);
    }
  }

  lemma RememberingKeeps(s: State, id: nat, limit: nat, t: State, x: nat)
    requires Distinct(s.acked) && |s.acked| <= limit && id !in s.acked && MemoryOk(s, x, limit)
    requires t.acked == Remembered(s.acked, id, limit) && t.trace == s.trace + [Ended(id, Acked)]
    ensures MemoryOk(t, x, limit)
  {
    assert Without(s.acked, id) == s.acked;
    var grown := State(t.pending, s.acked + [id], t.trace);
    GrowingKeeps(s, id, limit, grown, x);
    if |grown.acked| > limit { ForgettingKeeps(grown, limit, t, x); }
  }

  lemma GrowingCounts(a: set<nat>, id: nat)
    ensures |a + {id}| >= |a|
  {
    if id in a { assert a + {id} == a; }
  }

  // ----- Every step -----

  lemma NotingKeeps(s: State, e: Event, limit: nat, t: State)
    requires Inv(s, limit) && EventOk(s.trace, e, limit) && (e.Ended? ==> e.verdict != Acked)
    requires t.acked == s.acked && t.trace == s.trace + [e]
    requires forall id :: id in t.pending <==> (e == Started(id) || (id in s.pending && e != Released(id)))
    requires forall id | id in t.pending && !t.pending[id] :: e == Started(id) || (id in s.pending && !s.pending[id])
    requires e.Started? ==> e.id !in s.acked
    ensures Inv(t, limit)
  {
    LawfulSnoc(s.trace, e, limit);
    forall id: nat
      ensures MemoryOk(t, id, limit) && (InFlight(t.trace, id) <==> id in t.pending)
    {
      TraceSnoc(s.trace, e, id);
      assert MemoryOk(s, id, limit) && (InFlight(s.trace, id) <==> id in s.pending);
    }
  }

  lemma CallKeeps(s: State, id: nat, limit: nat)
    requires Inv(s, limit)
    ensures Inv(Apply(s, Call(id), limit), limit)
  {
    assert MemoryOk(s, id, limit) && (InFlight(s.trace, id) <==> id in s.pending);
    var t := Apply(s, Call(id), limit);
    NotingKeeps(s, t.trace[|t.trace| - 1], limit, t);
  }

  lemma RememberedIsOk(acked: seq<nat>, id: nat, limit: nat)
    requires Distinct(acked) && |acked| <= limit && id !in acked && limit >= 1
    ensures var r := Remembered(acked, id, limit);
            Distinct(r) && |r| <= limit && forall x | x in r :: x in acked || x == id
  {
    assert Without(acked, id) == acked;
  }

  lemma AnswerKeeps(s: State, id: nat, verdict: Verdict, limit: nat)
    requires Inv(s, limit) && limit >= 1 && Enabled(s, Answer(id, verdict))
    ensures Inv(Answered(s, id, verdict, limit), limit)
  {
    var t, e := Answered(s, id, verdict, limit), Ended(id, verdict);
    assert InFlight(s.trace, id) <==> id in s.pending;
    if verdict != Acked {
      NotingKeeps(s, e, limit, t);
    } else {
      LawfulSnoc(s.trace, e, limit);
      RememberedIsOk(s.acked, id, limit);
      forall x: nat
        ensures MemoryOk(t, x, limit) && (InFlight(t.trace, x) <==> x in t.pending)
      {
        assert MemoryOk(s, x, limit) && (InFlight(s.trace, x) <==> x in s.pending);
        TraceSnoc(s.trace, e, x);
        RememberingKeeps(s, id, limit, t, x);
      }
    }
  }

  lemma LettingGoKeeps(s: State, id: nat, limit: nat)
    requires Inv(s, limit) && id in s.pending
    ensures Inv(LetGo(s, id), limit)
  {
    assert InFlight(s.trace, id) <==> id in s.pending;
    NotingKeeps(s, Released(id), limit, LetGo(s, id));
  }

  lemma StepKeeps(s: State, step: Step, limit: nat)
    requires Inv(s, limit) && limit >= 1 && Enabled(s, step)
    ensures Inv(Apply(s, step, limit), limit)
  {
    match step
    case Call(id) => CallKeeps(s, id, limit);
    case Finish(id, verdict) =>
      AnswerKeeps(s, id, verdict, limit);
      LettingGoKeeps(Answered(s, id, verdict, limit), id, limit);
    case Answer(id, verdict) => AnswerKeeps(s, id, verdict, limit);
    case Release(id) => LettingGoKeeps(s, id, limit);
  }

  // ----- Whole histories -----

  ghost predicate StepAt(states: seq<State>, steps: seq<Step>, limit: nat, i: nat)
    requires |states| == |steps| + 1 && i < |steps|
  {
    Enabled(states[i], steps[i]) && states[i + 1] == Apply(states[i], steps[i], limit)
  }

  ghost predicate History(states: seq<State>, steps: seq<Step>, limit: nat) {
    && limit >= 1 && |states| == |steps| + 1 && states[0] == State(map[], [], [])
    && forall i {:trigger StepAt(states, steps, limit, i)} | 0 <= i < |steps| :: StepAt(states, steps, limit, i)
  }

  lemma {:induction false} HistoryKeeps(states: seq<State>, steps: seq<Step>, limit: nat, n: nat)
    requires History(states, steps, limit) && n <= |steps|
    ensures Inv(states[n], limit)
  {
    if n == 0 {
      forall id ensures MemoryOk(states[0], id, limit) {}
    } else {
      HistoryKeeps(states, steps, limit, n - 1);
      assert StepAt(states, steps, limit, n - 1);
      StepKeeps(states[n - 1], steps[n - 1], limit);
    }
  }

  /**
   What every interleaving of live and recovery callers looks like: a send starts only when
   none is in flight for its id, and only if the id was never acknowledged or at least
   `limit` other ids were since; joiners join the attempt in flight; and a caller is told
   "duplicate" at once only for an id that was acknowledged.
   */
  lemma SendsAreSingleFlightAndWindowed(states: seq<State>, steps: seq<Step>, limit: nat, k: nat)
    requires History(states, steps, limit) && k < |states[|steps|].trace|
    ensures var trace := states[|steps|].trace; EventOk(trace[..k], trace[k], limit)
  {
    HistoryKeeps(states, steps, limit, |steps|);
    var trace := states[|steps|].trace;
    assert trace[k] == trace[k];
  }

  /** A failed attempt leaves its id retryable: the next call for an id never acknowledged starts a send. */
  lemma FailuresStayRetryable(states: seq<State>, steps: seq<Step>, limit: nat, id: nat)
    requires History(states, steps, limit)
    requires var s := states[|steps|]; !InFlight(s.trace, id) && !EverAcked(s.trace, id)
    ensures var s := states[|steps|];
            Apply(s, Call(id), limit).trace == s.trace + [Started(id)] && |s.acked| <= limit
  {
    HistoryKeeps(states, steps, limit, |steps|);
    var s := states[|steps|];
    assert MemoryOk(s, id, limit) && (InFlight(s.trace, id) <==> id in s.pending);
  }

  /** In Discord's gate, where an answered attempt is let go at once, no id is both in flight and acknowledged. */
  lemma {:induction false} PendingAndAckedAreDisjoint(states: seq<State>, steps: seq<Step>, limit: nat, n: nat, id: nat)
    requires History(states, steps, limit) && n <= |steps|
    requires forall i | 0 <= i < |steps| :: steps[i].Call? || steps[i].Finish?
    ensures forall x | x in states[n].pending :: !states[n].pending[x]
    ensures id in states[n].pending ==> id !in states[n].acked
  {
    HistoryKeeps(states, steps, limit, n);
    if n > 0 {
      PendingAndAckedAreDisjoint(states, steps, limit, n - 1, id);
      assert StepAt(states, steps, limit, n - 1);
    }
  }
}
