/**
 Edits that wait for the gateway (packages/adapter-discord/src/main.ts and
 packages/adapter-slack/src/main.ts, `sendEdit` and `#flushEdits`).

 The outbox is a Map in insertion order, one edit per message; setting a message again keeps
 its place. Edits are objects, told apart by a running number. One flush runs at a time; its
 promise is forgotten in a `finally` that runs in a later turn than the loop's last step, which
 is what `Leaving` stands for. Slack defers the first step of a flush (`Scheduled`), Discord
 takes it at once.
 */
module EditOutbox {
  import opened Collections

  const EDIT_OUTBOX_LIMIT: nat := 256

  datatype Edit = Edit(message: nat, number: nat)

  datatype Flush = Off | Scheduled | Requesting(edit: Edit, client: nat) | Leaving

  datatype Event =
    | Queued(edit: Edit)
    | Superseded(edit: Edit, newer: Edit)
    | Evicted(edit: Edit)
    | Acked(edit: Edit)

  datatype State = State(
    deferred: bool, outbox: seq<Edit>, flush: Flush, client: Option<nat>, next: nat, trace: seq<Event>)

  /** `Map.get`. */
  function Held(outbox: seq<Edit>, message: nat): (r: Option<Edit>)
    ensures r.Some? ==> r.value in outbox && r.value.message == message
    ensures r.None? ==> forall e | e in outbox :: e.message != message
  {
    if outbox == [] then None
    else if outbox[0].message == message then Some(outbox[0])
    else
      assert outbox == [outbox[0]] + outbox[1..];
      Held(outbox[1..], message)
  }

  ghost predicate OneEach(outbox: seq<Edit>) {
    forall i, j | 0 <= i < j < |outbox| :: outbox[i].message != outbox[j].message
  }

  /** `Map.set`: the newer edit takes the place of the older one. */
  function Put(outbox: seq<Edit>, e: Edit): (r: seq<Edit>)
    ensures |outbox| <= |r| <= |outbox| + 1 && e in r
    ensures forall x | x in r :: x == e || x in outbox
    ensures forall x | x in outbox :: x in r || x.message == e.message
  {
    if outbox == [] then [e]
    else
      assert outbox == [outbox[0]] + outbox[1..];
      if outbox[0].message == e.message then [e] + outbox[1..] else [outbox[0]] + Put(outbox[1..], e)
  }

  /** `Map.delete`. */
  function Dropped(outbox: seq<Edit>, message: nat): (r: seq<Edit>)
    ensures forall x :: x in r <==> x in outbox && x.message != message
    ensures |r| <= |outbox|
  {
    Filter(outbox, (x: Edit) => x.message != message)
  }

  function Note(s: State, e: Event): State {
    s.(trace := s.trace + [e])
  }

  /** The new edit is in; an older one of its message is superseded. */
  function Stored(s: State, message: nat): State {
    var e := Edit(message, s.next);
    var prior := Held(s.outbox, message);
    var t := Note(s, Queued(e)).(outbox := Put(s.outbox, e), next := s.next + 1);
    if prior.Some? then Note(t, Superseded(prior.value, e)) else t
  }

  function Capped(s: State): State {
    if |s.outbox| > EDIT_OUTBOX_LIMIT then Note(s, Evicted(s.outbox[0])).(outbox := s.outbox[1..]) else s
  }

  /** The head of the flush loop. */
  function LoopHead(s: State): State {
    if s.outbox == [] || s.client.None? then s.(flush := Leaving)
    else s.(flush := Requesting(s.outbox[0], s.client.value))
  }

  /** `#flushEdits`. */
  function Flushed(s: State): State {
    if s.flush != Off then s
    else if s.deferred then s.(flush := Scheduled)
    else LoopHead(s)
  }

  /** The gateway acknowledged the edit in flight. */
  function Acknowledged(s: State, edit: Edit): State {
    var t := Note(s, Acked(edit));
    if Held(s.outbox, edit.message) == Some(edit) then t.(outbox := Dropped(s.outbox, edit.message)) else t
  }

  datatype Step =
    | SendEdit(message: nat)
    | Kick
    | Begin
    | Answer(ok: bool)
    | Finally
    | Connect(client: nat)
    | Disconnect

  predicate Enabled(s: State, step: Step) {
    match step
    case Begin => s.flush == Scheduled
    case Answer(_) => s.flush.Requesting?
    case Finally => s.flush == Leaving
    case _ => true
  }

  function Apply(s: State, step: Step): State
    requires Enabled(s, step)
  {
    match step
    case SendEdit(message) => Flushed(Capped(Stored(s, message)))
    case Kick => Flushed(s)
    case Begin => LoopHead(s)
    case Answer(ok) =>
      if ok then LoopHead(Acknowledged(s, s.flush.edit))
      else if s.deferred && s.client != Some(s.flush.client) then LoopHead(s)
      else s.(flush := Leaving)
    case Finally => s.(flush := Off)
    case Connect(client) => s.(client := Some(client))
    case Disconnect => s.(client := None)
  }

  // ----- The object -----

  class Outbox {
    const deferred: bool
    var outbox: seq<Edit>
    var flush: Flush
    var client: Option<nat>
    var next: nat
    ghost var trace: seq<Event>

    ghost function View(): State
      reads this
    {
      State(deferred, outbox, flush, client, next, trace)
    }

    constructor (deferred: bool)
      ensures View() == State(deferred, [], Off, None, 0, [])
    {
      this.deferred := deferred;
      outbox, flush, client, next, trace := [], Off, None, 0, [];
    }

    method SendEdit(message: nat)
      modifies this
      ensures View() == Apply(old(View()), Step.SendEdit(message))
    {
      var edit := Edit(message, next);
      ghost var held := Held(outbox, message);
      outbox := Put(outbox, edit);
      next := next + 1;
      trace := trace + [Queued(edit)];
      if held.Some? { trace := trace + [Superseded(held.value, edit)]; }
      assert View() == Stored(old(View()), message);
      DropOldest();
      FlushEdits();
    }

    /** The cap: one edit too many pushes out the oldest. */
    method DropOldest()
      modifies `outbox, `trace
      ensures View() == Capped(old(View()))
    {
      if |outbox| > EDIT_OUTBOX_LIMIT {
        trace := trace + [Evicted(outbox[0])];
        outbox := outbox[1..];
      }
    }

    method FlushEdits()
      modifies `flush
      ensures View() == Flushed(old(View()))
    {
      if flush != Off { return; }
      if deferred {
        flush := Scheduled;
      } else {
        TakeNext();
      }
    }

    /** The head of the `for (;;)` loop, to its request or its end. */
    method TakeNext()
      modifies `flush
      ensures View() == LoopHead(old(View()))
    {
      if outbox == [] || client.None? {
        flush := Leaving;
      } else {
        flush := Requesting(outbox[0], client.value);
      }
    }

    /** The loop after its request was answered, or failed. */
    method Answered(ok: bool)
      requires flush.Requesting?
      modifies this
      ensures View() == Apply(old(View()), Answer(ok))
    {
      var edit, asked := flush.edit, flush.client;
      if ok {
        trace := trace + [Acked(edit)];
        if Held(outbox, edit.message) == Some(edit) { outbox := Dropped(outbox, edit.message); }
        TakeNext();
      } else if deferred && client != Some(asked) {
        TakeNext();
      } else {
        flush := Leaving;
      }
    }
  }
}
