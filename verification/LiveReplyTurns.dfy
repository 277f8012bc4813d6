/**
 When the writes of one turn can overlap, and when the table can exceed its bound
 (packages/adapter-slack/src/live-reply.ts): exact conditions, over every history.
 */
module LiveReplyTurns {
  import opened Collections
  import opened SlackChunker
  import opened LiveReply
  import opened LiveReplyLaws

  // ----- Writes of one turn -----

  /** The entry has no write under way, and its opening behind it. */
  ghost predicate Quiet(e: Entry) {
    e.busy == Free && OnlyAppends(e)
  }

  /** The part finds no entry of its turn after the sweep, and opens one. */
  predicate Reserves(s: State, input: Input) {
    Find(Swept(s).table, input.turn).None? && !input.final && input.text != []
  }

  /** Whenever a part opens another entry for its turn, the turn's earlier entries are quiet. */
  ghost predicate Calm(s: State, step: Step) {
    step.Offer? && Reserves(s, step.input) ==>
      forall a | 0 <= a < |s.entries| && s.entries[a].turn == step.input.turn :: Quiet(s.entries[a])
  }

  /** The turn has gone on to a later entry, and this one is out of the table and quiet. */
  ghost predicate LeftBehind(s: State, a: nat)
    requires a < |s.entries|
  {
    Quiet(s.entries[a]) && Slot(s.entries[a].turn, a) !in s.table
  }

  ghost predicate Superseded(s: State, a: nat)
    requires a < |s.entries|
  {
    exists b :: a < b < |s.entries| && s.entries[b].turn == s.entries[a].turn
  }

  /** Every entry whose turn has a later one is left behind. */
  ghost predicate Alone(s: State) {
    forall a {:trigger Superseded(s, a)} {:trigger LeftBehind(s, a)} | 0 <= a < |s.entries| ::
      Superseded(s, a) ==> LeftBehind(s, a)
  }

  /** At most one entry of each turn has a write under way. */
  ghost predicate OneWriter(s: State) {
    forall a, b | 0 <= a < b < |s.entries| && s.entries[a].turn == s.entries[b].turn ::
      s.entries[a].busy == Free || s.entries[b].busy == Free
  }

  lemma AloneHasOneWriter(s: State)
    requires Alone(s)
    ensures OneWriter(s)
  {
    forall a, b | 0 <= a < b < |s.entries| && s.entries[a].turn == s.entries[b].turn
      ensures s.entries[a].busy == Free
    {
      assert Superseded(s, a);
    }
  }

  /** The step touches no entry but `id`, leaves the turns alone, and puts no slot but that of `id` in the table. */
  ghost predicate Within(s: State, t: State, id: nat) {
    && |t.entries| == |s.entries|
    && (forall k {:trigger t.entries[k]} | 0 <= k < |s.entries| ::
          t.entries[k].turn == s.entries[k].turn && (k != id ==> t.entries[k] == s.entries[k]))
    && (forall x | x in t.table :: x in s.table || x.id == id)
  }

  /** A step on an entry that is not left behind, or that leaves it as quiet as it was. */
  lemma WithinStaysAlone(s: State, t: State, id: nat)
    requires Alone(s) && Within(s, t, id) && id < |s.entries|
    requires Superseded(s, id) ==> LeftBehind(t, id)
    ensures Alone(t)
  {
    forall a | 0 <= a < |t.entries| && Superseded(t, a)
      ensures LeftBehind(t, a)
    {
      assert t.entries[a].turn == s.entries[a].turn;
      var b :| a < b < |t.entries| && t.entries[b].turn == t.entries[a].turn;
      assert t.entries[b].turn == s.entries[b].turn;
      assert Superseded(s, a);
    }
  }

  lemma OfferStaysAlone(s: State, input: Input)
    requires Inv(s) && Alone(s) && Calm(s, Offer(input))
    ensures Alone(Deliver(s, input))
  {
    var w, t := Swept(s), Deliver(s, input);
    SweptIsOk(s);
    var found := Find(w.table, input.turn);
    if found.Some? {
      var id := found.value;
      assert Slot(input.turn, id) in s.table;
      assert Superseded(s, id) ==> LeftBehind(s, id);
      WithinStaysAlone(s, t, id);
    } else if Reserves(s, input) {
      ReservingStaysAlone(s, w, t, input);
    } else {
      forall a | 0 <= a < |t.entries| && Superseded(t, a) ensures LeftBehind(t, a) {
        assert Superseded(s, a);
      }
    }
  }

  lemma ReservingStaysAlone(s: State, w: State, t: State, input: Input)
    requires Alone(s) && Calm(s, Offer(input)) && Reserves(s, input)
    requires w == Swept(s) && t == Deliver(s, input) && forall x | x in w.table :: x in s.table
    ensures Alone(t)
  {
    var n := |s.entries|;
    assert forall k {:trigger t.entries[k]} | 0 <= k < n :: t.entries[k] == s.entries[k];
    forall a | 0 <= a < |t.entries| && Superseded(t, a)
      ensures LeftBehind(t, a)
    {
      var b :| a < b < |t.entries| && t.entries[b].turn == t.entries[a].turn;
      assert t.entries[a] == s.entries[a];
      if b < n {
        assert t.entries[b] == s.entries[b];
        assert Superseded(s, a);
      }
    }
  }

  lemma BeginStaysAlone(s: State, id: nat)
    requires Inv(s) && Alone(s) && Enabled(s, BeginNext(id))
    ensures Alone(Begin(s, id))
  {
    assert s.entries[id].queue[0] in s.entries[id].queue;
    BeginIsWithin(s, id);
    if Superseded(s, id) { assert LeftBehind(s, id); }
    WithinStaysAlone(s, Begin(s, id), id);
  }

  lemma BeginIsWithin(s: State, id: nat)
    requires Enabled(s, BeginNext(id))
    ensures Within(s, Begin(s, id), id)
    ensures Begin(s, id).entries[id].queue == s.entries[id].queue[1..]
  {
    var op := s.entries[id].queue[0];
    var r := SetEntry(s, id, s.entries[id].(queue := s.entries[id].queue[1..]));
    if op.Open? {
      OpeningIsWithin(r, id, op.input);
    } else {
      AppendingIsWithin(r, id, op.input);
    }
  }

  lemma OpeningIsWithin(s: State, id: nat, input: Input)
    requires id < |s.entries|
    ensures Within(s, StartOpen(s, id, input), id)
    ensures StartOpen(s, id, input).entries[id].queue == s.entries[id].queue
  {}

  lemma TouchingIsWithin(s: State, id: nat) returns (t: State)
    requires id < |s.entries|
    ensures t == Touched(s, id) && Within(s, t, id) && t.entries[id].queue == s.entries[id].queue
  {
    t := Touched(s, id);
  }

  lemma ReplacingIsWithin(s: State, t: State, id: nat, u: State)
    requires id < |s.entries| && Within(s, t, id) && t.entries[id].queue == s.entries[id].queue
    requires u.table == t.table && |u.entries| == |t.entries| && u.entries == t.entries[id := u.entries[id]]
    requires u.entries[id].turn == t.entries[id].turn && u.entries[id].queue == t.entries[id].queue
    ensures Within(s, u, id) && u.entries[id].queue == s.entries[id].queue
  {}

  lemma AppendingIsWithin(s: State, id: nat, input: Input)
    requires id < |s.entries|
    ensures Within(s, StartAppend(s, id, input), id)
    ensures StartAppend(s, id, input).entries[id].queue == s.entries[id].queue
  {
    var t := TouchingIsWithin(s, id);
    if Find(s.table, input.turn) != Some(id) || !s.entries[id].live { t := s; }
    ReplacingIsWithin(s, t, id, StartAppend(s, id, input));
  }

  lemma PostIsWithin(s: State, id: nat, ok: bool)
    requires Enabled(s, AnswerPost(id, ok))
    ensures Within(s, PostAnswered(s, id, ok), id)
    ensures PostAnswered(s, id, ok).entries[id].queue == s.entries[id].queue
  {
    var e := s.entries[id];
    if ok && |e.busy.chunks| == 1 {
      var landed := e.(live := true, parts := e.parts + [Part(e.busy.input.deliveryId, e.busy.chunks[0], true)],
                       busy := Free, shows := e.busy.chunks[0], certain := true);
      var u := SetEntry(s, id, landed);
      assert Within(s, Touched(u, id), id);
      assert Within(s, Swept(Touched(u, id)), id);
    }
  }

  lemma StepStaysAlone(s: State, step: Step)
    requires Inv(s) && Alone(s) && Enabled(s, step) && Calm(s, step)
    ensures Alone(Apply(s, step))
  {
    match step
    case Tick(_) =>
      forall a | 0 <= a < |s.entries| && Superseded(Apply(s, step), a) ensures LeftBehind(Apply(s, step), a) {
        assert Superseded(s, a);
      }
    case Offer(input) => OfferStaysAlone(s, input);
    case CloseTurn(turn) => CloseStaysAlone(s, turn);
    case BeginNext(id) => BeginStaysAlone(s, id);
    case AnswerPost(id, ok) =>
      PostIsWithin(s, id, ok);
      assert !Quiet(s.entries[id]);
      WithinStaysAlone(s, Apply(s, step), id);
    case AnswerEdit(id, answer) =>
      assert !Quiet(s.entries[id]);
      WithinStaysAlone(s, Apply(s, step), id);
  }

  lemma CloseStaysAlone(s: State, turn: nat)
    requires Alone(s)
    ensures Alone(Close(s, turn))
  {
    var id := Find(s.table, turn);
    if id.Some? && id.value < |s.entries| {
      WithinStaysAlone(s, Close(s, turn), id.value);
    }
  }

  ghost predicate CalmAt(states: seq<State>, steps: seq<Step>, i: nat)
    requires |states| == |steps| + 1 && i < |steps|
  {
    Calm(states[i], steps[i])
  }

  ghost predicate CalmHistory(states: seq<State>, steps: seq<Step>) {
    && History(states, steps)
    && forall i {:trigger CalmAt(states, steps, i)} | 0 <= i < |steps| :: CalmAt(states, steps, i)
  }

  lemma {:induction false} CalmHistoryStaysAlone(states: seq<State>, steps: seq<Step>, n: nat)
    requires CalmHistory(states, steps) && n <= |steps|
    ensures Alone(states[n])
  {
    if n > 0 {
      CalmHistoryStaysAlone(states, steps, n - 1);
      HistoryKeeps(states, steps, n - 1);
      assert StepAt(states, steps, n - 1) && CalmAt(states, steps, n - 1);
      StepStaysAlone(states[n - 1], steps[n - 1]);
    }
  }

  /**
   Writes of one turn never overlap, and a superseded entry never comes back, as long as no
   part opens another entry of its turn beside one with a write under way or still to open.
   */
  lemma WritesOfATurnDoNotOverlap(states: seq<State>, steps: seq<Step>)
    requires CalmHistory(states, steps)
    ensures OneWriter(states[|steps|]) && Alone(states[|steps|])
  {
    CalmHistoryStaysAlone(states, steps, |steps|);
    AloneHasOneWriter(states[|steps|]);
  }

  // ----- The condition is exact -----

  /** Cutting a text gives at least one chunk. */
  ghost predicate OpensHaveChunks(e: Entry) {
    forall op | op in e.queue && op.Open? :: op.input.chunks != []
  }

  lemma OpeningBegins(s: State, id: nat, input: Input)
    requires Enabled(s, BeginNext(id)) && s.entries[id].queue[0] == Open(input) && input.chunks != []
    ensures var t := Apply(s, BeginNext(id));
            && |t.entries| == |s.entries| && t.entries[id].busy.Posting?
            && forall k {:trigger t.entries[k]} | 0 <= k < |s.entries| :: t.entries[k].turn == s.entries[k].turn
                                                  && (k != id ==> t.entries[k] == s.entries[k])
  {}

  ghost predicate AllOpensHaveChunks(s: State) {
    forall id {:trigger s.entries[id]} | 0 <= id < |s.entries| :: OpensHaveChunks(s.entries[id])
  }

  lemma BeginKeepsChunks(s: State, id: nat)
    requires Enabled(s, BeginNext(id)) && AllOpensHaveChunks(s)
    ensures AllOpensHaveChunks(Begin(s, id))
  {
    BeginIsWithin(s, id);
    assert OpensHaveChunks(s.entries[id]);
    assert forall op | op in s.entries[id].queue[1..] :: op in s.entries[id].queue;
    OneQueueChanges(s, Begin(s, id), id);
  }

  lemma OneQueueChanges(s: State, t: State, id: nat)
    requires AllOpensHaveChunks(s) && Within(s, t, id) && id < |s.entries| && OpensHaveChunks(t.entries[id])
    ensures AllOpensHaveChunks(t)
  {}

  lemma OfferKeepsChunks(s: State, input: Input)
    requires AllOpensHaveChunks(s) && input.chunks != []
    ensures AllOpensHaveChunks(Deliver(s, input))
  {
    var t := Deliver(s, input);
    forall k | 0 <= k < |t.entries|
      ensures OpensHaveChunks(t.entries[k])
    {
      if k < |s.entries| {
        assert OpensHaveChunks(s.entries[k]);
        assert t.entries[k].queue == s.entries[k].queue || t.entries[k].queue == s.entries[k].queue + [Append(input)];
      }
    }
  }

  lemma StepKeepsChunks(s: State, step: Step)
    requires Enabled(s, step) && AllOpensHaveChunks(s) && (step.Offer? ==> step.input.chunks != [])
    ensures AllOpensHaveChunks(Apply(s, step))
  {
    match step
    case Offer(input) => OfferKeepsChunks(s, input);
    case BeginNext(id) => BeginKeepsChunks(s, id);
    case AnswerPost(id, ok) =>
      PostIsWithin(s, id, ok);
      assert OpensHaveChunks(s.entries[id]);
      OneQueueChanges(s, Apply(s, step), id);
    case AnswerEdit(id, answer) =>
      assert OpensHaveChunks(s.entries[id]);
      OneQueueChanges(s, Apply(s, step), id);
    case _ =>
  }

  lemma {:induction false} HistoryKeepsChunks(states: seq<State>, steps: seq<Step>, n: nat)
    requires History(states, steps) && n <= |steps|
    requires forall i | 0 <= i < |steps| && steps[i].Offer? :: steps[i].input.chunks != []
    ensures AllOpensHaveChunks(states[n])
  {
    if n > 0 {
      HistoryKeepsChunks(states, steps, n - 1);
      assert StepAt(states, steps, n - 1);
      StepKeepsChunks(states[n - 1], steps[n - 1]);
    }
  }

  /** The new entry begins, and then the old one if it had yet to open. */
  lemma OpenedBeside(s: State, input: Input, a: nat) returns (more: seq<Step>)
    requires Reserves(s, input) && input.chunks != []
    requires a < |s.entries| && s.entries[a].turn == input.turn && !Quiet(s.entries[a])
    requires EntryOk(s.entries[a]) && OpensHaveChunks(s.entries[a])
    ensures var u := Deliver(s, input);
            && |more| in {1, 2} && Enabled(u, more[0])
            && var v := Apply(u, more[0]);
               if |more| == 1 then !OneWriter(v) else Enabled(v, more[1]) && !OneWriter(Apply(v, more[1]))
  {
    var b, u := |s.entries|, Deliver(s, input);
    assert u.entries[b].queue == [Open(input)] && u.entries[a] == s.entries[a];
    OpeningBegins(u, b, input);
    var v := Apply(u, BeginNext(b));
    assert v.entries[a] == s.entries[a] && v.entries[b].turn == u.entries[b].turn;
    more := [BeginNext(b)];
    if s.entries[a].busy == Free {
      var op := s.entries[a].queue[0];
      assert op.Open? && op in s.entries[a].queue;
      OpeningBegins(v, a, op.input);
      more := [BeginNext(b), BeginNext(a)];
      var t := Apply(v, BeginNext(a));
      assert t.entries[b] == v.entries[b] && t.entries[a].turn == v.entries[a].turn;
    }
  }

  /**
   And only then: in every history a part that opens another entry of its turn beside one that
   is not quiet, for whatever reason that one left the table, leads to two writes of the turn
   under way at once, as soon as what is queued begins.
   */
  lemma UnquietTurnsOverlap(states: seq<State>, steps: seq<Step>, input: Input)
    returns (more: seq<State>, all: seq<Step>)
    requires History(states, steps) && !Calm(states[|steps|], Offer(input)) && input.chunks != []
    requires forall i | 0 <= i < |steps| && steps[i].Offer? :: steps[i].input.chunks != []
    ensures History(more, all) && |all| <= |steps| + 3 && steps + [Offer(input)] <= all
    ensures !OneWriter(more[|all|])
  {
    var s := states[|steps|];
    HistoryKeeps(states, steps, |steps|);
    HistoryKeepsChunks(states, steps, |steps|);
    var a :| 0 <= a < |s.entries| && s.entries[a].turn == input.turn && !Quiet(s.entries[a]);
    var begun := OpenedBeside(s, input, a);
    more, all := OneStepMore(states, steps, Offer(input));
    more, all := OneStepMore(more, all, begun[0]);
    if |begun| == 2 { more, all := OneStepMore(more, all, begun[1]); }
  }

  // ----- What a late opening does to the table -----

  lemma {:induction false} FindTheOnly(table: seq<Slot>, x: Slot)
    requires OneSlotEach(table) && x in table
    ensures Find(table, x.turn) == Some(x.id)
  {
    if table[0] != x {
      assert x in table[1..];
      FindTheOnly(table[1..], x);
    }
  }

  lemma {:induction false} LastStays(s: State, table: seq<Slot>, x: Slot)
    requires !Expired(s, x)
    ensures Unexpired(s, table + [x]) == Unexpired(s, table) + [x]
    decreases |table|
  {
    if table == [] {
      assert [x][1..] == [];
    } else {
      assert (table + [x])[1..] == table[1..] + [x];
      LastStays(s, table[1..], x);
    }
  }

  /** What was touched last survives the sweep. */
  lemma SweepSparesTheLast(s: State, table: seq<Slot>, x: Slot)
    requires s.table == table + [x] && !Expired(s, x)
    ensures x in Swept(s).table
  {
    LastStays(s, table, x);
    var kept := Unexpired(s, s.table);
    assert kept[|kept| - 1] == x;
  }

  /** An opening that lands takes its turn's place in the table, even from a later entry of the turn. */
  lemma LandedOpeningTakesThePlace(s: State, id: nat)
    requires Inv(s) && Enabled(s, AnswerPost(id, true)) && |s.entries[id].busy.chunks| == 1
    requires Find(s.table, s.entries[id].turn).Some?
    ensures Find(Apply(s, AnswerPost(id, true)).table, s.entries[id].turn) == Some(id)
  {
    var e := s.entries[id];
    var landed := e.(live := true, parts := e.parts + [Part(e.busy.input.deliveryId, e.busy.chunks[0], true)],
                     busy := Free, shows := e.busy.chunks[0], certain := true);
    var u := Touched(SetEntry(s, id, landed), id);
    SweepSparesTheLast(u, Removed(s.table, e.turn), Slot(e.turn, id));
    StepKeeps(s, AnswerPost(id, true));
    FindTheOnly(Apply(s, AnswerPost(id, true)).table, Slot(e.turn, id));
  }

  /** A single-chunk opening under way, alone in the table, past its expiry. */
  ghost predicate Late(s: State, a: Input) {
    && s.table == [Slot(a.turn, 0)] && |s.entries| == 1 && s.entries[0].turn == a.turn
    && s.entries[0].busy == Posting(a, a.chunks) && Expired(s, Slot(a.turn, 0))
  }

  lemma OpeningGetsLate(a: Input) returns (states: seq<State>, steps: seq<Step>)
    requires |a.chunks| == 1 && !a.final && a.text != []
    ensures History(states, steps) && |steps| == 3 && Late(states[3], a)
  {
    var s0 := State(0, [], [], []);
    var s1 := Apply(s0, Offer(a));
    var s2 := Apply(s1, BeginNext(0));
    var s3 := Apply(s2, Tick(LIVE_REPLY_TTL_MS + 1));
    HistoryGrows([s0], [], Offer(a));
    HistoryGrows([s0, s1], [Offer(a)], BeginNext(0));
    HistoryGrows([s0, s1, s2], [Offer(a), BeginNext(0)], Tick(LIVE_REPLY_TTL_MS + 1));
    states, steps := [s0, s1, s2, s3], [Offer(a), BeginNext(0), Tick(LIVE_REPLY_TTL_MS + 1)];
  }

  /** A second part opens its own entry beside the late one. */
  lemma AnotherOpens(s: State, a: Input, b: Input)
    requires Late(s, a) && b.turn == a.turn && b.chunks != [] && !b.final && b.text != []
    ensures Enabled(Deliver(s, b), BeginNext(1))
    ensures var t := Apply(Deliver(s, b), BeginNext(1));
            && !OneWriter(t) && t.entries[0] == s.entries[0] && Find(t.table, a.turn) == Some(1)
  {
    assert Unexpired(s, s.table) == [];
    var u := Deliver(s, b);
    assert u.table == [Slot(b.turn, 1)];
    OpeningBegins(u, 1, b);
    var t := Apply(u, BeginNext(1));
    assert t.entries[0] == s.entries[0] && t.entries[1].turn == u.entries[1].turn == a.turn;
    assert t.table == u.table;
  }

  /**
   A run: an opening post takes longer than the expiry, a second part of the turn opens a new
   entry beside it, so two writes of the turn overlap, and when the first post lands its entry
   takes the turn's place back.
   */
  lemma DroppedOpeningComesBack(a: Input, b: Input) returns (states: seq<State>, steps: seq<Step>)
    requires |a.chunks| == 1 && !a.final && a.text != []
    requires b.turn == a.turn && b.chunks != [] && !b.final && b.text != []
    ensures History(states, steps) && |steps| == 6
    ensures !OneWriter(states[5]) && Find(states[5].table, a.turn) == Some(1)
    ensures Find(states[6].table, a.turn) == Some(0)
  {
    states, steps := OpeningGetsLate(a);
    AnotherOpens(states[3], a, b);
    states, steps := OneStepMore(states, steps, Offer(b));
    states, steps := OneStepMore(states, steps, BeginNext(1));
    HistoryKeeps(states, steps, 5);
    LandedOpeningTakesThePlace(states[5], 0);
    states, steps := OneStepMore(states, steps, AnswerPost(0, true));
  }

  lemma OneStepMore(states: seq<State>, steps: seq<Step>, step: Step) returns (more: seq<State>, all: seq<Step>)
    requires History(states, steps) && Enabled(states[|steps|], step)
    ensures History(more, all) && |all| == |steps| + 1 && |more| == |states| + 1
    ensures all == steps + [step] && more[|all|] == Apply(states[|steps|], step)
    ensures forall i | 0 <= i < |states| :: more[i] == states[i]
  {
    HistoryGrows(states, steps, step);
    more, all := states + [Apply(states[|steps|], step)], steps + [step];
  }

  lemma HistoryGrows(states: seq<State>, steps: seq<Step>, step: Step)
    requires History(states, steps) && Enabled(states[|steps|], step)
    ensures History(states + [Apply(states[|steps|], step)], steps + [step])
  {
    var more, all := states + [Apply(states[|steps|], step)], steps + [step];
    forall i | 0 <= i < |all|
      ensures StepAt(more, all, i)
    {
      if i < |steps| { assert StepAt(states, steps, i); }
    }
  }

  // ----- The bound of the table -----

  /** The step answers the last post of an opening. */
  predicate Lands(s: State, step: Step) {
    step.AnswerPost? && step.ok && Enabled(s, step) && |s.entries[step.id].busy.chunks| == 1
  }

  /**
   After any history the table has one entry for each turn it tracks. It is within its bound of
   64 after an opening landed and after a part that opens no entry; a part that opens one leaves
   65 exactly when the sweep left 64; no other step adds to it.
   */
  lemma BoundAfterStep(states: seq<State>, steps: seq<Step>, step: Step)
    requires History(states, steps) && Enabled(states[|steps|], step)
    ensures var s := states[|steps|];
            var table := Apply(s, step).table;
            && OneSlotEach(table) && |table| <= LIVE_REPLY_MAX_ENTRIES + 1
            && if step.Offer? && Reserves(s, step.input) then
                 |table| == |Swept(s).table| + 1 && |Swept(s).table| <= LIVE_REPLY_MAX_ENTRIES
               else if step.Offer? || Lands(s, step) then |table| <= LIVE_REPLY_MAX_ENTRIES
               else |table| <= |s.table|
  {
    var s := states[|steps|];
    HistoryKeeps(states, steps, |steps|);
    var more, all := OneStepMore(states, steps, step);
    TableIsBounded(more, all);
    match step
    case Offer(_) => SweptIsOk(s);
    case BeginNext(id) => BeginAddsNoSlot(s, id);
    case AnswerPost(id, ok) => PostAddsNoSlot(s, id, ok);
    case _ =>
  }

  lemma BeginAddsNoSlot(s: State, id: nat)
    requires Inv(s) && Enabled(s, BeginNext(id))
    ensures |Begin(s, id).table| <= |s.table|
  {
    var op := s.entries[id].queue[0];
    var r := SetEntry(s, id, s.entries[id].(queue := s.entries[id].queue[1..]));
    RemovedIsOk(s.table, s.entries[id].turn);
    assert r.table == s.table;
  }

  lemma PostAddsNoSlot(s: State, id: nat, ok: bool)
    requires Inv(s) && Enabled(s, AnswerPost(id, ok))
    ensures Lands(s, AnswerPost(id, ok)) ==> |PostAnswered(s, id, ok).table| <= LIVE_REPLY_MAX_ENTRIES
    ensures !Lands(s, AnswerPost(id, ok)) ==> |PostAnswered(s, id, ok).table| <= |s.table|
  {}

  lemma AllFresh(s: State, table: seq<Slot>)
    requires s.now == 0
    ensures Unexpired(s, table) == table
  {}

  /** One more turn, at time 0. */
  lemma OneMoreTurn(s: State, n: nat, input: Input)
    requires s.now == 0 && |s.table| == n <= LIVE_REPLY_MAX_ENTRIES
    requires (forall x | x in s.table :: x.turn < n) && input.turn == n && !input.final && input.text != []
    ensures var t := Deliver(s, input);
            t.now == 0 && |t.table| == n + 1 && forall x | x in t.table :: x.turn < n + 1
  {
    AllFresh(s, s.table);
    assert Swept(s).table == s.table;
  }

  /** Offers of `n` turns, one after the other. */
  lemma {:induction false} ManyTurns(n: nat) returns (states: seq<State>, steps: seq<Step>)
    requires n <= LIVE_REPLY_MAX_ENTRIES + 1
    ensures History(states, steps) && |steps| == n
    ensures states[n].now == 0 && |states[n].table| == n && forall x | x in states[n].table :: x.turn < n
  {
    if n == 0 {
      states, steps := [State(0, [], [], [])], [];
    } else {
      states, steps := ManyTurns(n - 1);
      var input := Input(n - 1, 0, [SPACE], [[SPACE]], false);
      var s := states[n - 1];
      OneMoreTurn(s, n - 1, input);
      states, steps := OneStepMore(states, steps, Offer(input));
    }
  }

  /** Sixty-five turns that open at once fill the table beyond its bound. */
  lemma TheBoundIsExceeded() returns (states: seq<State>, steps: seq<Step>)
    ensures History(states, steps) && |states[|steps|].table| == LIVE_REPLY_MAX_ENTRIES + 1
  {
    states, steps := ManyTurns(LIVE_REPLY_MAX_ENTRIES + 1);
  }
}
