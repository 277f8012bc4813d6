/** Edits are accounted for, bounded, and never acknowledged out of order. */
module EditOutboxLaws {
  import opened Collections
  import opened EditOutbox

  /** What may have become of an edit that is no longer queued. */
  predicate Settled(trace: seq<Event>, e: Edit) {
    Acked(e) in trace || Evicted(e) in trace || exists x | x in trace :: x.Superseded? && x.edit == e
  }

  ghost predicate Accounted(s: State, e: Edit) {
    Queued(e) in s.trace ==> e in s.outbox || Settled(s.trace, e)
  }

  /** Acknowledged edits of a message are older than whatever of it is in flight or queued. */
  ghost predicate Behind(trace: seq<Event>, e: Edit) {
    forall f: Edit | Acked(f) in trace && f.message == e.message :: f.number < e.number
  }

  /**
   Each acknowledgement is of a newer edit of its message than those before it; an edit is
   superseded by a newer one of its message.
   */
  ghost predicate EventOk(before: seq<Event>, e: Event) {
    match e
    case Acked(edit) => Behind(before, edit)
    case Superseded(edit, newer) => edit.message == newer.message && edit.number < newer.number
    case _ => true
  }

  ghost predicate Lawful(trace: seq<Event>) {
    forall k {:trigger trace[k]} | 0 <= k < |trace| :: EventOk(trace[..k], trace[k])
  }

  /** The edit in flight has not been acknowledged, and what is queued of its message is not older. */
  ghost predicate FlightOk(s: State) {
    s.flush.Requesting? ==>
      var e := s.flush.edit;
      && e.number < s.next && Behind(s.trace, e)
      && forall x | x in s.outbox && x.message == e.message :: x.number >= e.number
  }

  /** The invariant but for the bound, which a call may exceed by one before it returns. */
  ghost predicate Sound(s: State) {
    && Lawful(s.trace) && OneEach(s.outbox)
    && (forall e | e in s.outbox :: e.number < s.next && Behind(s.trace, e))
    && (forall e: Edit | Acked(e) in s.trace :: e.number < s.next)
    && FlightOk(s)
    && (forall e {:trigger Accounted(s, e)} :: Accounted(s, e))
  }

  ghost predicate Inv(s: State) {
    Sound(s) && |s.outbox| <= EDIT_OUTBOX_LIMIT
  }

  lemma {:induction false} PutIsOneEach(outbox: seq<Edit>, e: Edit)
    requires OneEach(outbox)
    ensures OneEach(Put(outbox, e))
    ensures forall x | x in Put(outbox, e) && x.message == e.message :: x == e
    ensures forall x | x in outbox && x !in Put(outbox, e) :: Held(outbox, e.message) == Some(x)
  {
    if outbox != [] {
      var first, rest := outbox[0], outbox[1..];
      assert outbox == [first] + rest;
      assert forall x | x in rest :: x.message != first.message;
      if first.message == e.message {
        ConsIsOneEach(e, rest);
      } else {
        PutIsOneEach(rest, e);
        ConsIsOneEach(first, Put(rest, e));
      }
    }
  }

  lemma ConsIsOneEach(e: Edit, outbox: seq<Edit>)
    requires OneEach(outbox) && forall x | x in outbox :: x.message != e.message
    ensures OneEach([e] + outbox)
  {}

  lemma {:induction false} DroppedIsOneEach(outbox: seq<Edit>, message: nat)
    requires OneEach(outbox)
    ensures OneEach(Dropped(outbox, message))
  {
    if outbox != [] {
      DroppedIsOneEach(outbox[1..], message);
      assert forall x | x in outbox[1..] :: x.message != outbox[0].message;
      assert forall x | x in Dropped(outbox[1..], message) :: x in outbox[1..];
    }
  }

  lemma LawfulSnoc(trace: seq<Event>, e: Event)
    requires Lawful(trace) && EventOk(trace, e)
    ensures Lawful(trace + [e])
  {
    var more := trace + [e];
    forall k | 0 <= k < |more|
      ensures EventOk(more[..k], more[k])
    {
      assert more[..k] == trace[..k];
      if k == |trace| { assert trace[..k] == trace; } else { assert more[k] == trace[k]; }
    }
  }

  /** A longer trace keeps what it accounts for. */
  lemma SettledStays(trace: seq<Event>, more: seq<Event>, e: Edit)
    requires trace <= more && Settled(trace, e)
    ensures Settled(more, e)
  {
    assert forall x | x in trace :: x in more;
  }

  lemma StoredKeeps(s: State, message: nat)
    requires Sound(s)
    ensures Sound(Stored(s, message)) && |Stored(s, message).outbox| <= |s.outbox| + 1
  {
    var e, prior, t := Edit(message, s.next), Held(s.outbox, message), Stored(s, message);
    PutIsOneEach(s.outbox, e);
    LawfulSnoc(s.trace, Queued(e));
    if prior.Some? { LawfulSnoc(s.trace + [Queued(e)], Superseded(prior.value, e)); }
    forall x: Edit
      ensures Accounted(t, x)
    {
      StoredAccounts(s, message, x);
    }
  }

  lemma StoredAccounts(s: State, message: nat, x: Edit)
    requires Accounted(s, x) && OneEach(s.outbox)
    ensures Accounted(Stored(s, message), x)
  {
    var e, t := Edit(message, s.next), Stored(s, message);
    PutIsOneEach(s.outbox, e);
    if Settled(s.trace, x) {
      SettledStays(s.trace, t.trace, x);
    } else if x in s.outbox && x !in t.outbox {
      assert Superseded(x, e) in t.trace;
    }
  }

  lemma CappedKeeps(s: State)
    requires Sound(s) && |s.outbox| <= EDIT_OUTBOX_LIMIT + 1
    ensures Inv(Capped(s))
  {
    var t := Capped(s);
    if |s.outbox| > EDIT_OUTBOX_LIMIT {
      var oldest := s.outbox[0];
      LawfulSnoc(s.trace, Evicted(oldest));
      assert s.outbox == [oldest] + t.outbox;
      forall x: Edit
        ensures Accounted(t, x)
      {
        assert Accounted(s, x);
        if Settled(s.trace, x) { SettledStays(s.trace, t.trace, x); }
      }
    }
  }

  /** Moving the flush on changes nothing else. */
  lemma MovingKeeps(s: State, t: State)
    requires Inv(s) && t == s.(flush := t.flush, client := t.client)
    requires t.flush.Requesting? ==> t.flush == s.flush || t.flush.edit in s.outbox
    ensures Inv(t)
  {
    forall x: Edit
      ensures Accounted(t, x)
    {
      assert Accounted(s, x);
    }
    if t.flush.Requesting? && t.flush != s.flush {
      forall x | x in t.outbox && x.message == t.flush.edit.message
        ensures x == t.flush.edit
      {
        var i :| 0 <= i < |t.outbox| && t.outbox[i] == x;
        var j :| 0 <= j < |t.outbox| && t.outbox[j] == t.flush.edit;
      }
    }
  }

  lemma LoopHeadKeeps(s: State)
    requires Inv(s)
    ensures Inv(LoopHead(s))
  {
    MovingKeeps(s, LoopHead(s));
  }

  lemma FlushedKeeps(s: State)
    requires Inv(s)
    ensures Inv(Flushed(s))
  {
    MovingKeeps(s, Flushed(s));
  }

  /** The edit in flight is acknowledged; the flush is about to move on. */
  lemma AcknowledgedKeeps(s: State)
    requires Inv(s) && s.flush.Requesting?
    ensures Inv(Acknowledged(s, s.flush.edit).(flush := Leaving))
  {
    var e := s.flush.edit;
    var t := Acknowledged(s, e).(flush := Leaving);
    LawfulSnoc(s.trace, Acked(e));
    DroppedIsOneEach(s.outbox, e.message);
    HeldIsTheOne(s.outbox, e);
    forall x: Edit
      ensures Accounted(t, x)
    {
      assert Accounted(s, x);
      if Settled(s.trace, x) { SettledStays(s.trace, t.trace, x); }
      if x in s.outbox && x !in t.outbox { assert x == e; }
    }
    forall x | x in t.outbox
      ensures Behind(t.trace, x)
    {
      assert x in s.outbox && x != e;
    }
  }

  /** In an outbox with one edit for each message, an edit is queued exactly if it is its message's. */
  lemma HeldIsTheOne(outbox: seq<Edit>, e: Edit)
    requires OneEach(outbox)
    ensures e in outbox <==> Held(outbox, e.message) == Some(e)
    ensures e in outbox ==> forall x | x in outbox && x.message == e.message :: x == e
  {
    if e in outbox {
      var i :| 0 <= i < |outbox| && outbox[i] == e;
      var held := Held(outbox, e.message).value;
      var j :| 0 <= j < |outbox| && outbox[j] == held;
    }
  }

  lemma StepKeeps(s: State, step: Step)
    requires Inv(s) && Enabled(s, step)
    ensures Inv(Apply(s, step))
  {
    match step
    case SendEdit(message) =>
      StoredKeeps(s, message);
      CappedKeeps(Stored(s, message));
      FlushedKeeps(Capped(Stored(s, message)));
    case Kick => FlushedKeeps(s);
    case Begin => LoopHeadKeeps(s);
    case Answer(ok) =>
      if ok {
        AcknowledgedKeeps(s);
        LoopHeadKeeps(Acknowledged(s, s.flush.edit).(flush := Leaving));
      } else {
        MovingKeeps(s, Apply(s, step));
      }
    case Finally => MovingKeeps(s, Apply(s, step));
    case Connect(_) => MovingKeeps(s, Apply(s, step));
    case Disconnect => MovingKeeps(s, Apply(s, step));
  }

  // ----- Whole histories -----

  ghost predicate StepAt(states: seq<State>, steps: seq<Step>, i: nat)
    requires |states| == |steps| + 1 && i < |steps|
  {
    Enabled(states[i], steps[i]) && states[i + 1] == Apply(states[i], steps[i])
  }

  ghost predicate History(states: seq<State>, steps: seq<Step>) {
    && |states| == |steps| + 1 && states[0] == State(states[0].deferred, [], Off, None, 0, [])
    && forall i {:trigger StepAt(states, steps, i)} | 0 <= i < |steps| :: StepAt(states, steps, i)
  }

  lemma {:induction false} HistoryKeeps(states: seq<State>, steps: seq<Step>, n: nat)
    requires History(states, steps) && n <= |steps|
    ensures Inv(states[n])
  {
    if n == 0 {
      forall x: Edit ensures Accounted(states[0], x) {}
    } else {
      HistoryKeeps(states, steps, n - 1);
      assert StepAt(states, steps, n - 1);
      StepKeeps(states[n - 1], steps[n - 1]);
    }
  }

  /**
   Conservation: under every interleaving of new edits, acknowledgements, failures and
   reconnects, each edit is queued, superseded by a newer edit of its message, acknowledged,
   or evicted by the cap; and at most 256 are queued after every call.
   */
  lemma EditsAreAccountedFor(states: seq<State>, steps: seq<Step>, e: Edit)
    requires History(states, steps) && Queued(e) in states[|steps|].trace
    ensures var s := states[|steps|];
            && (e in s.outbox || Settled(s.trace, e))
            && |s.outbox| <= EDIT_OUTBOX_LIMIT
  {
    HistoryKeeps(states, steps, |steps|);
    assert Accounted(states[|steps|], e);
  }

  /** Order: of two acknowledged edits of a message, the later acknowledgement is of the newer edit. */
  lemma NewerEditsAreNeverOvertaken(states: seq<State>, steps: seq<Step>, j: nat, k: nat)
    requires History(states, steps) && j < k < |states[|steps|].trace|
    requires var trace := states[|steps|].trace;
             trace[j].Acked? && trace[k].Acked? && trace[j].edit.message == trace[k].edit.message
    ensures states[|steps|].trace[j].edit.number < states[|steps|].trace[k].edit.number
  {
    HistoryKeeps(states, steps, |steps|);
    var trace := states[|steps|].trace;
    assert EventOk(trace[..k], trace[k]);
    assert trace[..k][j] == trace[j];
  }

  // ----- The order of requests -----

  function MessagesOf(outbox: seq<Edit>): (r: seq<nat>)
    ensures |r| == |outbox| && forall i | 0 <= i < |r| :: r[i] == outbox[i].message
  {
    if outbox == [] then [] else [outbox[0].message] + MessagesOf(outbox[1..])
  }

  /** A newer edit keeps the place of the one it replaces, and any other goes to the end. */
  lemma {:induction false} PlacesAreKept(outbox: seq<Edit>, e: Edit)
    ensures MessagesOf(Put(outbox, e)) ==
            MessagesOf(outbox) + if e.message in MessagesOf(outbox) then [] else [e.message]
  {
    if outbox != [] {
      var first, rest := outbox[0], outbox[1..];
      assert MessagesOf(outbox) == [first.message] + MessagesOf(rest);
      if first.message == e.message {
        assert MessagesOf([e] + rest) == [e.message] + MessagesOf(rest);
      } else {
        PlacesAreKept(rest, e);
        var put := Put(rest, e);
        assert ([first] + put)[1..] == put;
        assert MessagesOf([first] + put) == [first.message] + MessagesOf(put);
      }
    }
  }

  /** Whatever step makes a new request asks for the first queued edit, of the client at hand. */
  lemma RequestsTakeTheFirst(s: State, step: Step)
    requires Enabled(s, step)
    ensures var t := Apply(s, step);
            t.flush.Requesting? && t.flush != s.flush ==>
              t.outbox != [] && t.client.Some? && t.flush == Requesting(t.outbox[0], t.client.value)
  {
    match step
    case SendEdit(message) => FlushTakesTheFirst(Capped(Stored(s, message)));
    case Kick => FlushTakesTheFirst(s);
    case _ =>
  }

  lemma FlushTakesTheFirst(s: State)
    ensures var t := Flushed(s);
            t.flush.Requesting? && t.flush != s.flush ==>
              t.outbox != [] && t.client.Some? && t.flush == Requesting(t.outbox[0], t.client.value)
  {}

  function Acks(edits: seq<Edit>): (r: seq<Event>)
    ensures |r| == |edits| && forall i | 0 <= i < |r| :: r[i] == Acked(edits[i])
  {
    if edits == [] then [] else [Acked(edits[0])] + Acks(edits[1..])
  }

  lemma {:induction false} DroppingTheFirst(outbox: seq<Edit>)
    requires OneEach(outbox) && outbox != []
    ensures Held(outbox, outbox[0].message) == Some(outbox[0]) && Dropped(outbox, outbox[0].message) == outbox[1..]
  {
    DroppingNone(outbox[1..], outbox[0].message);
  }

  ghost predicate AnsweredAt(states: seq<State>, i: nat)
    requires i + 1 < |states|
  {
    Enabled(states[i], Answer(true)) && states[i + 1] == Apply(states[i], Answer(true))
  }

  /**
   A flush works through the outbox in order: `n` good answers in a row acknowledge its first `n`
   edits, oldest first, and the next one is then on its way, or the flush leaves.
   */
  lemma {:induction false} DrainsInOrder(states: seq<State>, n: nat)
    requires |states| == n + 1 && Inv(states[0]) && n <= |states[0].outbox|
    requires states[0].outbox != [] && states[0].client.Some?
    requires states[0].flush == Requesting(states[0].outbox[0], states[0].client.value)
    requires forall i {:trigger AnsweredAt(states, i)} | 0 <= i < n :: AnsweredAt(states, i)
    ensures var s, t := states[0], states[n];
            && t.outbox == s.outbox[n..] && t.trace == s.trace + Acks(s.outbox[..n]) && t.client == s.client
            && t.flush == (if n < |s.outbox| then Requesting(s.outbox[n], s.client.value) else Leaving)
    decreases n
  {
    var s := states[0];
    if n == 0 {
      assert s.outbox[..0] == [] && s.trace + [] == s.trace;
    } else {
      assert AnsweredAt(states, 0);
      var t := OneInOrder(s);
      assert states[1] == t;
      if n == 1 {
        assert s.outbox[..1] == [s.outbox[0]] && Acks([s.outbox[0]]) == [Acked(s.outbox[0])];
      } else {
        forall i | 0 <= i < n - 1 ensures AnsweredAt(states[1..], i) { assert AnsweredAt(states, i + 1); }
        DrainsInOrder(states[1..], n - 1);
        OrderSplits(s.trace, s.outbox, n);
      }
    }
  }

  lemma OrderSplits(trace: seq<Event>, outbox: seq<Edit>, n: nat)
    requires 0 < n <= |outbox|
    ensures trace + [Acked(outbox[0])] + Acks(outbox[1..][..n - 1]) == trace + Acks(outbox[..n])
    ensures outbox[1..][n - 1..] == outbox[n..]
  {
    assert outbox[..n] == [outbox[0]] + outbox[1..][..n - 1];
  }

  lemma OneInOrder(s: State) returns (t: State)
    requires Inv(s) && s.outbox != [] && s.client.Some? && s.flush == Requesting(s.outbox[0], s.client.value)
    ensures t == Apply(s, Answer(true)) && Inv(t) && t.client == s.client
    ensures t.outbox == s.outbox[1..] && t.trace == s.trace + [Acked(s.outbox[0])]
    ensures t.flush == if |s.outbox| > 1 then Requesting(s.outbox[1], s.client.value) else Leaving
  {
    StepKeeps(s, Answer(true));
    DroppingTheFirst(s.outbox);
    t := Apply(s, Answer(true));
  }

  /**
   A request that failed loses nothing. Slack's flush goes on at once with the oldest edit when
   another client has connected meanwhile; any other leaves.
   */
  lemma FailuresKeepEverything(s: State)
    requires s.flush.Requesting?
    ensures var t := Apply(s, Answer(false));
            && t == s.(flush := t.flush)
            && (if s.deferred && s.client.Some? && s.client.value != s.flush.client && s.outbox != []
                then t.flush == Requesting(s.outbox[0], s.client.value) else t.flush == Leaving)
  {}

  // ----- Who carries an edit -----

  /** A flush is under way and the gateway is connected. */
  predicate AtWork(s: State) {
    s.client.Some? && (s.flush.Scheduled? || s.flush.Requesting?)
  }

  /** The requests a flush at work has before it: the queued edits, and one in flight that was replaced. */
  function Work(s: State): nat {
    |s.outbox| + if s.flush.Requesting? && s.flush.edit !in s.outbox then 1 else 0
  }

  /** The gateway stays connected and answers well. */
  predicate Gentle(step: Step) {
    step != Disconnect && step != Answer(false)
  }

  function Sends(steps: seq<Step>): nat {
    if steps == [] then 0 else Sends(steps[..|steps| - 1]) + if steps[|steps| - 1].SendEdit? then 1 else 0
  }

  function Answers(steps: seq<Step>): nat {
    if steps == [] then 0 else Answers(steps[..|steps| - 1]) + if steps[|steps| - 1].Answer? then 1 else 0
  }

  lemma SendingAddsOne(s: State, message: nat)
    requires AtWork(s) && Inv(s)
    ensures var t := Apply(s, SendEdit(message)); AtWork(t) && Work(t) <= Work(s) + 1 && t.flush == s.flush
  {
    StoringAddsOne(s, message);
    CappingAddsNothing(Stored(s, message));
  }

  lemma StoringAddsOne(s: State, message: nat)
    requires Inv(s)
    ensures Work(Stored(s, message)) <= Work(s) + 1
  {
    var e, u := Edit(message, s.next), Stored(s, message);
    PutIsOneEach(s.outbox, e);
    if s.flush.Requesting? && s.flush.edit in s.outbox && s.flush.edit !in u.outbox {
      SameSize(s.outbox, e);
    }
  }

  lemma CappingAddsNothing(s: State)
    ensures Work(Capped(s)) <= Work(s)
  {
    if |s.outbox| > EDIT_OUTBOX_LIMIT { assert s.outbox == [s.outbox[0]] + s.outbox[1..]; }
  }

  /** A replaced edit leaves the outbox as long as it was. */
  lemma {:induction false} SameSize(outbox: seq<Edit>, e: Edit)
    requires exists x :: x in outbox && x.message == e.message
    ensures |Put(outbox, e)| == |outbox|
  {
    assert outbox == [outbox[0]] + outbox[1..];
    if outbox[0].message != e.message {
      var x :| x in outbox && x.message == e.message;
      assert x in outbox[1..];
      SameSize(outbox[1..], e);
    }
  }

  lemma {:induction false} DroppingTheOne(outbox: seq<Edit>, e: Edit)
    requires OneEach(outbox) && e in outbox
    ensures |Dropped(outbox, e.message)| == |outbox| - 1
  {
    assert outbox == [outbox[0]] + outbox[1..];
    if outbox[0] == e {
      assert forall x | x in outbox[1..] :: x.message != e.message;
      DroppingNone(outbox[1..], e.message);
    } else {
      assert e in outbox[1..];
      DroppingTheOne(outbox[1..], e);
      assert outbox[0].message != e.message;
    }
  }

  lemma {:induction false} DroppingNone(outbox: seq<Edit>, message: nat)
    requires forall x | x in outbox :: x.message != message
    ensures Dropped(outbox, message) == outbox
  {
    if outbox != [] { DroppingNone(outbox[1..], message); }
  }

  /** A good answer takes one request off, and the flush leaves only an empty outbox. */
  lemma AnswerTakesOne(s: State)
    requires Inv(s) && AtWork(s) && s.flush.Requesting?
    ensures var t := Apply(s, Answer(true));
            && Work(t) == Work(s) - 1
            && (if t.outbox == [] then t.flush == Leaving else AtWork(t) && t.flush.Requesting?)
  {
    var e := s.flush.edit;
    HeldIsTheOne(s.outbox, e);
    if e in s.outbox { DroppingTheOne(s.outbox, e); }
    var u := Acknowledged(s, e);
    if u.outbox != [] { assert u.outbox[0] in u.outbox; }
  }

  /** One step of a flush at work. */
  lemma WorkStep(s: State, step: Step)
    requires Inv(s) && AtWork(s) && Enabled(s, step) && Gentle(step)
    ensures var t := Apply(s, step);
            || (t.flush == Leaving && t.outbox == [])
            || (AtWork(t) && (step.Answer? || s.flush.Requesting? ==> t.flush.Requesting?)
                && Work(t) + (if step.Answer? then 1 else 0) <= Work(s) + (if step.SendEdit? then 1 else 0))
  {
    match step
    case SendEdit(message) => SendingAddsOne(s, message);
    case Answer(_) => AnswerTakesOne(s);
    case Begin => if s.outbox != [] { assert s.outbox[0] in s.outbox; }
    case _ =>
  }

  lemma CountSnoc(steps: seq<Step>, step: Step)
    ensures Sends(steps + [step]) == Sends(steps) + if step.SendEdit? then 1 else 0
    ensures Answers(steps + [step]) == Answers(steps) + if step.Answer? then 1 else 0
  {
    assert (steps + [step])[..|steps + [step]| - 1] == steps;
  }

  /** State `i` is one in which the flush has just left, with nothing queued. */
  ghost predicate Drained(states: seq<State>, m: nat, n: nat, i: nat) {
    m <= i <= n < |states| && states[i].flush == Leaving && states[i].outbox == []
  }

  /** After `n` steps the flush at work since `m` has drained the outbox, or has this much left to do. */
  lemma {:induction false} WorkLeft(states: seq<State>, steps: seq<Step>, m: nat, n: nat) returns (i: nat)
    requires History(states, steps) && m <= n <= |steps| && AtWork(states[m])
    requires forall k | m <= k < n :: Gentle(steps[k])
    ensures || Drained(states, m, n, i)
            || (AtWork(states[n]) && (Answers(steps[m..n]) > 0 ==> states[n].flush.Requesting?)
                && Work(states[n]) + Answers(steps[m..n]) <= Work(states[m]) + Sends(steps[m..n]))
  {
    i := m;
    if n == m {
      assert steps[m..n] == [];
    } else {
      i := WorkLeft(states, steps, m, n - 1);
      if !Drained(states, m, n - 1, i) {
        HistoryKeeps(states, steps, n - 1);
        assert StepAt(states, steps, n - 1);
        WorkStep(states[n - 1], steps[n - 1]);
        CountSnoc(steps[m..n - 1], steps[n - 1]);
        assert steps[m..n] == steps[m..n - 1] + [steps[n - 1]];
        i := n;
      }
    }
  }

  /**
   A flush drains the outbox: while the gateway stays connected and answers well, after as many
   answers as there were requests to make, those for edits sent on the way included, there was
   a moment with nothing queued, and every edit sent up to then was acknowledged, superseded
   or evicted.
   */
  lemma FlushDrains(states: seq<State>, steps: seq<Step>, m: nat) returns (i: nat)
    requires History(states, steps) && m <= |steps| && AtWork(states[m])
    requires forall k | m <= k < |steps| :: Gentle(steps[k])
    requires Answers(steps[m..]) > 0 && Answers(steps[m..]) >= Work(states[m]) + Sends(steps[m..])
    ensures Drained(states, m, |steps|, i)
    ensures forall e: Edit | Queued(e) in states[i].trace :: Settled(states[i].trace, e)
  {
    assert steps[m..] == steps[m..|steps|];
    i := WorkLeft(states, steps, m, |steps|);
    HistoryKeeps(states, steps, i);
    forall e: Edit | Queued(e) in states[i].trace
      ensures Settled(states[i].trace, e)
    {
      assert Accounted(states[i], e);
    }
  }

  /** Nobody flushes: a flush that is leaving goes, and what is queued stays. */
  lemma {:induction false} NobodyCarries(states: seq<State>, steps: seq<Step>, m: nat, n: nat)
    requires History(states, steps) && m <= n <= |steps| && states[m].flush in {Leaving, Off}
    requires forall k | m <= k < n :: steps[k] != Kick && !steps[k].SendEdit?
    ensures states[n].outbox == states[m].outbox && states[n].flush in {Leaving, Off}
  {
    if n > m {
      NobodyCarries(states, steps, m, n - 1);
      assert StepAt(states, steps, n - 1);
    }
  }

  /**
   Exactly when a new edit finds someone to carry it while the gateway is connected: unless
   the previous flush has taken its last step and its `finally` has not run yet. A carried
   edit has a flush at work, which `FlushDrains` is about; the other stays queued, with no
   request for anything, until the outbox is flushed or written again.
   */
  lemma NewEditsAreCarriedUnlessLeaving(states: seq<State>, steps: seq<Step>, m: nat, message: nat)
    requires History(states, steps) && m < |steps| && steps[m] == SendEdit(message) && states[m].client.Some?
    ensures Edit(message, states[m].next) in states[m + 1].outbox
    ensures AtWork(states[m + 1]) <==> states[m].flush != Leaving
    ensures states[m].flush == Leaving && (forall k | m < k < |steps| :: steps[k] != Kick && !steps[k].SendEdit?) ==>
              Edit(message, states[m].next) in states[|steps|].outbox && states[|steps|].flush in {Leaving, Off}
  {
    HistoryKeeps(states, steps, m);
    assert StepAt(states, steps, m);
    NewEditIsQueued(states[m], message);
    if states[m].flush == Leaving && forall k | m < k < |steps| :: steps[k] != Kick && !steps[k].SendEdit? {
      NobodyCarries(states, steps, m + 1, |steps|);
    }
  }

  lemma NewEditIsQueued(s: State, message: nat)
    requires Inv(s) && s.client.Some?
    ensures var t := Apply(s, SendEdit(message));
            && Edit(message, s.next) in t.outbox && (AtWork(t) <==> s.flush != Leaving)
            && (s.flush == Leaving ==> t.flush == Leaving)
  {
    NewestSurvives(s, message);
  }

  /**
   The same for a flush that is asked for, as every connect does: with something queued and the
   gateway connected it leaves a flush at work unless the previous one is leaving. If it is, the
   request is dropped, and what is queued stays until the outbox is flushed or written again.
   */
  lemma FlushesAreHeardUnlessLeaving(states: seq<State>, steps: seq<Step>, m: nat)
    requires History(states, steps) && m < |steps| && steps[m] == Kick
    requires states[m].client.Some? && states[m].outbox != []
    ensures states[m + 1].outbox == states[m].outbox
    ensures AtWork(states[m + 1]) <==> states[m].flush != Leaving
    ensures states[m].flush == Leaving && (forall k | m < k < |steps| :: steps[k] != Kick && !steps[k].SendEdit?) ==>
              states[|steps|].outbox == states[m].outbox && states[|steps|].flush in {Leaving, Off}
  {
    assert StepAt(states, steps, m);
    if states[m].flush == Leaving && forall k | m < k < |steps| :: steps[k] != Kick && !steps[k].SendEdit? {
      NobodyCarries(states, steps, m + 1, |steps|);
    }
  }

  /**
   A flush nobody hears, as a run: an edit is sent while the gateway is away, and the connect
   that should replay it comes before the flush it gave up is forgotten.
   */
  lemma AConnectIsUnheard() returns (states: seq<State>, steps: seq<Step>)
    ensures History(states, steps) && steps == [SendEdit(7), Connect(1), Kick, Finally]
    ensures var s := states[4]; s.outbox == [Edit(7, 0)] && s.flush == Off && s.client == Some(1)
  {
    steps := [SendEdit(7), Connect(1), Kick, Finally];
    var s0 := State(false, [], Off, None, 0, []);
    var s1 := Apply(s0, SendEdit(7));
    assert s1.outbox == [Edit(7, 0)] && s1.flush == Leaving;
    var s2 := Apply(s1, Connect(1));
    var s3 := Apply(s2, Kick);
    var s4 := Apply(s3, Finally);
    states := [s0, s1, s2, s3, s4];
    forall i | 0 <= i < |steps| ensures StepAt(states, steps, i) {}
  }

  /**
   An edit nobody carries, as a run: it is sent after the answer that ended the flush and
   before that flush is forgotten, and stays queued with the gateway connected.
   */
  lemma AnEditIsStranded() returns (states: seq<State>, steps: seq<Step>)
    ensures History(states, steps) && steps == [Connect(1), SendEdit(7), Answer(true), SendEdit(8), Finally]
    ensures var s := states[5]; s.outbox == [Edit(8, 1)] && s.flush == Off && s.client == Some(1)
  {
    steps := [Connect(1), SendEdit(7), Answer(true), SendEdit(8), Finally];
    var s0 := State(false, [], Off, None, 0, []);
    var s1 := Apply(s0, Connect(1));
    var s2 := Apply(s1, SendEdit(7));
    assert s2.outbox == [Edit(7, 0)] && s2.flush == Requesting(Edit(7, 0), 1);
    DroppingTheOne(s2.outbox, Edit(7, 0));
    var s3 := Apply(s2, Answer(true));
    assert s3.outbox == [] && s3.flush == Leaving;
    var s4 := Apply(s3, SendEdit(8));
    var s5 := Apply(s4, Finally);
    states := [s0, s1, s2, s3, s4, s5];
    forall i | 0 <= i < |steps| ensures StepAt(states, steps, i) {}
  }

  /** Eviction takes the first edit, and the new one is first only when it is alone. */
  lemma NewestSurvives(s: State, message: nat)
    requires Inv(s)
    ensures Edit(message, s.next) in Capped(Stored(s, message)).outbox
  {
    var outbox := Stored(s, message).outbox;
    var e := Edit(message, s.next);
    if |outbox| > EDIT_OUTBOX_LIMIT {
      PutAtTheEnd(s.outbox, e);
      assert outbox[|outbox| - 1] == outbox[1..][|outbox| - 2];
    }
  }

  lemma {:induction false} PutAtTheEnd(outbox: seq<Edit>, e: Edit)
    requires |Put(outbox, e)| > |outbox|
    ensures Put(outbox, e) == outbox + [e]
  {
    if outbox != [] { PutAtTheEnd(outbox[1..], e); }
  }
}
