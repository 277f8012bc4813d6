/**
 One send per message, live or recovered: Discord's `RecoveryGate`
 (packages/adapter-discord/src/recovery.ts) and the pending sends and `LruSet` of the Slack
 gateway (packages/adapter-slack/src/main.ts, `requestRecovered`).

 Discord answers an attempt and forgets that it was pending in one go (`Finish`). Slack
 remembers the answer first and lets go of the pending send in a later turn (`Answer`, then
 `Release`), and callers in between still join it.
 */
module SendGate {
  import opened Collections

  datatype Verdict = Acked | Duplicate | Unavailable | Threw

  datatype Event =
    | Started(id: nat)
    | Joined(id: nat)
    | Refused(id: nat)
    | Ended(id: nat, verdict: Verdict)
    | Released(id: nat)

  /** `pending` says of an in-flight id whether its attempt was answered; `acked` is oldest first. */
  datatype State = State(pending: map<nat, bool>, acked: seq<nat>, trace: seq<Event>)

  /** Remembering an id moves it to the end; beyond the limit the oldest is forgotten. */
  function Remembered(acked: seq<nat>, id: nat, limit: nat): seq<nat> {
    var s := Without(acked, id) + [id];
    if |s| > limit then s[1..] else s
  }

  datatype Step =
    | Call(id: nat)
    | Finish(id: nat, verdict: Verdict)
    | Answer(id: nat, verdict: Verdict)
    | Release(id: nat)

  predicate Enabled(s: State, step: Step) {
    match step
    case Call(_) => true
    case Finish(id, _) => id in s.pending && !s.pending[id]
    case Answer(id, _) => id in s.pending && !s.pending[id]
    case Release(id) => id in s.pending && s.pending[id]
  }

  function Answered(s: State, id: nat, verdict: Verdict, limit: nat): State {
    State(s.pending[id := true], if verdict == Acked then Remembered(s.acked, id, limit) else s.acked,
          s.trace + [Ended(id, verdict)])
  }

  function LetGo(s: State, id: nat): State {
    s.(pending := s.pending - {id}, trace := s.trace + [Released(id)])
  }

  function Apply(s: State, step: Step, limit: nat): State
    requires Enabled(s, step)
  {
    match step
    case Call(id) =>
      if id in s.pending then s.(trace := s.trace + [Joined(id)])
      else if id in s.acked then s.(trace := s.trace + [Refused(id)])
      else s.(pending := s.pending[id := false], trace := s.trace + [Started(id)])
    case Finish(id, verdict) => LetGo(Answered(s, id, verdict, limit), id)
    case Answer(id, verdict) => Answered(s, id, verdict, limit)
    case Release(id) => LetGo(s, id)
  }

  // ----- The objects -----

  class LruSet {
    const limit: nat
    var values: seq<nat>

    constructor (limit: nat)
      requires limit >= 1
      ensures this.limit == limit && values == []
    {
      this.limit := limit;
      values := [];
    }

    method AddIfAbsent(value: nat) returns (absent: bool)
      modifies this
      ensures absent <==> value !in old(values)
      ensures values == Remembered(old(values), value, limit)
    {
      absent := value !in values;
      values := Without(values, value);
      values := values + [value];
      if |values| > limit { values := values[1..]; }
    }
  }

  class RecoveryGate {
    const limit: nat
    var pending: set<nat>
    var acked: seq<nat>
    ghost var trace: seq<Event>

    ghost function View(): State
      reads this
    {
      State(map id | id in pending :: false, acked, trace)
    }

    ghost predicate Valid()
      reads this
    {
      limit >= 1 && |acked| <= limit && forall id | id in pending :: id !in acked
    }

    constructor (limit: nat)
      requires limit >= 1
      ensures Valid() && this.limit == limit && View() == State(map[], [], [])
    {
      this.limit := limit;
      pending, acked, trace := {}, [], [];
      new;
      assert View().pending == map[];
    }

    /** `join`, to the point where the attempt runs. */
    method Join(id: nat) returns (starts: bool)
      requires Valid()
      modifies this
      ensures Valid() && View() == Apply(old(View()), Call(id), limit)
      ensures starts <==> id !in old(pending) && id !in old(acked)
    {
      starts := false;
      if id in pending {
        trace := trace + [Joined(id)];
        return;
      }
      if id in acked {
        trace := trace + [Refused(id)];
        return;
      }
      starts := true;
      pending := pending + {id};
      trace := trace + [Started(id)];
      assert View().pending == old(View()).pending[id := false];
    }

    /** The attempt of `id` resolved, or threw. */
    method Settle(id: nat, verdict: Verdict)
      requires Valid() && id in pending
      modifies this
      ensures Valid() && View() == Apply(old(View()), Finish(id, verdict), limit)
    {
      pending := pending - {id};
      if verdict == Acked {
        acked := Including(acked, id);
        ForgetBeyond(limit);
      }
      trace := trace + [Ended(id, verdict), Released(id)];
      assert View().pending == old(View()).pending[id := true] - {id};
      assert trace == old(trace) + [Ended(id, verdict)] + [Released(id)];
    }

    method ForgetBeyond(limit: nat)
      modifies `acked
      ensures |old(acked)| <= limit ==> acked == old(acked)
      ensures |old(acked)| > limit ==> acked == old(acked)[|old(acked)| - limit..]
    {
      ghost var all := acked;
      while |acked| > limit
        invariant |acked| <= |all| && acked == all[|all| - |acked|..]
        invariant |all| > limit ==> |acked| >= limit
        invariant |all| <= limit ==> acked == all
      {
        acked := acked[1..];
      }
    }
  }
}
