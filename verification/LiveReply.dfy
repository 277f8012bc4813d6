/**
 Live replies: the parts of one turn folded into one message
 (packages/adapter-slack/src/live-reply.ts, `LiveReplyTracker`).

 An entry's promise chain is its `queue`: one operation runs at a time, and the next begins in
 a later turn. While an operation waits for the platform, everything else may happen. Entries
 are objects, so they are numbered as they are made and the table maps turns to numbers.
 */
module LiveReply {
  import opened Collections
  import opened SlackChunker

  const LIVE_REPLY_TTL_MS: nat := 1_800_000
  const LIVE_REPLY_MAX_ENTRIES: nat := 64

  datatype Part = Part(deliveryId: nat, text: Text, applied: bool)

  /** `chunks` is what cutting the text gives. */
  datatype Input = Input(turn: nat, deliveryId: nat, text: Text, chunks: seq<Text>, final: bool)

  datatype Op = Open(input: Input) | Append(input: Input)

  /** The platform call an entry waits for. */
  datatype Busy =
    | Free
    | Posting(input: Input, chunks: seq<Text>)
    | Updating(input: Input, part: nat, rendered: Text)

  /** `shows` is the live message as its last answered write left it, while `certain` says so. */
  datatype Entry = Entry(
    turn: nat, live: bool, parts: seq<Part>, open: bool, lastTouched: nat, queue: seq<Op>, busy: Busy,
    shows: Text, certain: bool)

  datatype Slot = Slot(turn: nat, id: nat)

  datatype Outcome = Posted | Folded | Replayed | Untracked | Failed

  datatype Event =
    | PostSent(id: nat, text: Text)
    | EditSent(id: nat, text: Text)
    | Settled(id: nat, deliveryId: nat, outcome: Outcome)
    | Passed(turn: nat, deliveryId: nat)

  datatype State = State(now: nat, table: seq<Slot>, entries: seq<Entry>, log: seq<Event>)

  // ----- The table, least recently touched first -----

  function Find(table: seq<Slot>, turn: nat): (r: Option<nat>)
    ensures r.Some? ==> Slot(turn, r.value) in table
    ensures r.None? ==> forall x | x in table :: x.turn != turn
  {
    if table == [] then None
    else if table[0].turn == turn then Some(table[0].id)
    else
      assert table == [table[0]] + table[1..];
      Find(table[1..], turn)
  }

  function Removed(table: seq<Slot>, turn: nat): (r: seq<Slot>)
    ensures forall x :: x in r <==> x in table && x.turn != turn
    ensures |r| <= |table|
    ensures Distinct(table) ==> Distinct(r)
  {
    Filter(table, (x: Slot) => x.turn != turn)
  }

  predicate Expired(s: State, x: Slot) {
    x.id < |s.entries| && s.now - s.entries[x.id].lastTouched > LIVE_REPLY_TTL_MS
  }

  function Unexpired(s: State, table: seq<Slot>): (r: seq<Slot>)
    ensures forall x :: x in r <==> x in table && !Expired(s, x)
    ensures |r| <= |table|
  {
    if table == [] then []
    else
      assert table == [table[0]] + table[1..];
      if Expired(s, table[0]) then Unexpired(s, table[1..]) else [table[0]] + Unexpired(s, table[1..])
  }

  /** `#sweep`: drop what expired, then the least recently touched beyond the bound. */
  function Swept(s: State): State {
    var kept := Unexpired(s, s.table);
    s.(table := if |kept| > LIVE_REPLY_MAX_ENTRIES then kept[|kept| - LIVE_REPLY_MAX_ENTRIES..] else kept)
  }

  function SetEntry(s: State, id: nat, e: Entry): State
    requires id < |s.entries|
  {
    s.(entries := s.entries[id := e])
  }

  function Log(s: State, e: Event): State {
    s.(log := s.log + [e])
  }

  /** `#touch`: the turn moves to the end of the table, if it is in it. */
  function Touched(s: State, id: nat): State
    requires id < |s.entries|
  {
    var e := s.entries[id];
    var t := SetEntry(s, id, e.(lastTouched := s.now));
    if Find(s.table, e.turn).None? then t
    else t.(table := Removed(s.table, e.turn) + [Slot(e.turn, id)])
  }

  /** `#abandon`: a failed opening gives up its reservation. */
  function Abandoned(s: State, id: nat): State
    requires id < |s.entries|
  {
    if Find(s.table, s.entries[id].turn) == Some(id) then s.(table := Removed(s.table, s.entries[id].turn)) else s
  }

  // ----- Rendering -----

  function Join(texts: seq<Text>): Text {
    if texts == [] then []
    else if |texts| == 1 then texts[0]
    else texts[0] + [NEWLINE, NEWLINE] + Join(texts[1..])
  }

  /** The texts of the applied parts, and of part `also`, in first-seen order. */
  function Rendered(parts: seq<Part>, also: Option<nat>): seq<Text>
    decreases |parts|
  {
    if parts == [] then []
    else
      var n := |parts| - 1;
      Rendered(parts[..n], also) + if parts[n].applied || also == Some(n) then [parts[n].text] else []
  }

  function Index(parts: seq<Part>, deliveryId: nat): (r: Option<nat>)
    ensures r.Some? ==> r.value < |parts| && parts[r.value].deliveryId == deliveryId
    ensures r.None? ==> forall i | 0 <= i < |parts| :: parts[i].deliveryId != deliveryId
    ensures r.Some? ==> forall i | 0 <= i < r.value :: parts[i].deliveryId != deliveryId
  {
    if parts == [] then None
    else if parts[0].deliveryId == deliveryId then Some(0)
    else
      var r := Index(parts[1..], deliveryId);
      if r.Some? then Some(r.value + 1) else None
  }

  // ----- The operations -----

  /** The operation at hand ends with this outcome for its caller. */
  function Settle(s: State, id: nat, deliveryId: nat, outcome: Outcome): State
    requires id < |s.entries|
  {
    Log(SetEntry(s, id, s.entries[id].(busy := Free)), Settled(id, deliveryId, outcome))
  }

  function Deliver(s0: State, input: Input): State {
    var s := Swept(s0);
    match Find(s.table, input.turn)
    case None =>
      if input.final || input.text == [] then Log(s, Passed(input.turn, input.deliveryId))
      else
        var reserved := Entry(input.turn, false, [], true, s.now, [Open(input)], Free, [], false);
        s.(entries := s.entries + [reserved], table := s.table + [Slot(input.turn, |s.entries|)])
    case Some(id) =>
      if id < |s.entries| then
        SetEntry(s, id, s.entries[id].(queue := s.entries[id].queue + [Append(input)]))
      else s
  }

  /** `#open`, to its first post. */
  function StartOpen(s: State, id: nat, input: Input): State
    requires id < |s.entries|
  {
    if input.chunks == [] then Settle(Abandoned(s, id), id, input.deliveryId, Untracked)
    else
      Log(SetEntry(s, id, s.entries[id].(busy := Posting(input, input.chunks))), PostSent(id, input.chunks[0]))
  }

  function PostAnswered(s: State, id: nat, ok: bool): State
    requires id < |s.entries| && s.entries[id].busy.Posting? && s.entries[id].busy.chunks != []
  {
    var e := s.entries[id];
    var Posting(input, chunks) := e.busy;
    if !ok then Settle(Abandoned(s, id), id, input.deliveryId, Failed)
    else if |chunks| > 1 then
      Log(SetEntry(s, id, e.(busy := Posting(input, chunks[1..]))), PostSent(id, chunks[1]))
    else
      var landed := e.(live := true, parts := e.parts + [Part(input.deliveryId, chunks[0], true)],
                       busy := Free, shows := chunks[0], certain := true);
      Settle(Swept(Touched(SetEntry(s, id, landed), id)), id, input.deliveryId, Posted)
  }

  /** `#append`, to its edit or its end. */
  function StartAppend(s: State, id: nat, input: Input): State
    requires id < |s.entries|
  {
    if Find(s.table, input.turn) != Some(id) || !s.entries[id].live
    then Settle(s, id, input.deliveryId, Untracked)
    else
      var t := Touched(s, id);
      var e := t.entries[id];
      var prior := Index(e.parts, input.deliveryId);
      if prior.Some? && e.parts[prior.value].applied then Settle(t, id, input.deliveryId, Replayed)
      else if !e.open then Settle(t, id, input.deliveryId, Untracked)
      else
        var parts := if prior.Some? then e.parts else e.parts + [Part(input.deliveryId, input.text, false)];
        var part := if prior.Some? then prior.value else |e.parts|;
        var rendered := Join(Rendered(parts, Some(part)));
        if |rendered| > LIMIT then
          Settle(SetEntry(t, id, e.(parts := parts, open := false)), id, input.deliveryId, Untracked)
        else
          Log(SetEntry(t, id, e.(parts := parts, busy := Updating(input, part, rendered))), EditSent(id, rendered))
  }

  datatype EditAnswer = Edited | Uneditable | Ambiguous

  function EditAnswered(s: State, id: nat, answer: EditAnswer): State
    requires id < |s.entries| && s.entries[id].busy.Updating? && s.entries[id].busy.part < |s.entries[id].parts|
  {
    var e := s.entries[id];
    var Updating(input, part, rendered) := e.busy;
    match answer
    case Edited =>
      var parts := e.parts[part := e.parts[part].(applied := true)];
      var edited := e.(parts := parts, open := e.open && !input.final, shows := rendered, certain := true);
      Settle(SetEntry(s, id, edited), id, input.deliveryId, Folded)
    case Uneditable => Settle(SetEntry(s, id, e.(open := false)), id, input.deliveryId, Untracked)
    case Ambiguous => Settle(SetEntry(s, id, e.(certain := false)), id, input.deliveryId, Failed)
  }

  /** The next queued operation of an entry begins. */
  function Begin(s: State, id: nat): State
    requires id < |s.entries| && s.entries[id].busy == Free && s.entries[id].queue != []
  {
    var op := s.entries[id].queue[0];
    var t := SetEntry(s, id, s.entries[id].(queue := s.entries[id].queue[1..]));
    if op.Open? then StartOpen(t, id, op.input) else StartAppend(t, id, op.input)
  }

  function Close(s: State, turn: nat): State {
    var id := Find(s.table, turn);
    if id.Some? && id.value < |s.entries| then SetEntry(s, id.value, s.entries[id.value].(open := false)) else s
  }

  datatype Step =
    | Tick(now: nat)
    | Offer(input: Input)
    | CloseTurn(turn: nat)
    | BeginNext(id: nat)
    | AnswerPost(id: nat, ok: bool)
    | AnswerEdit(id: nat, answer: EditAnswer)

  predicate Enabled(s: State, step: Step) {
    match step
    case Tick(now) => now >= s.now
    case Offer(_) => true
    case CloseTurn(_) => true
    case BeginNext(id) => id < |s.entries| && s.entries[id].busy == Free && s.entries[id].queue != []
    case AnswerPost(id, _) => id < |s.entries| && s.entries[id].busy.Posting? && s.entries[id].busy.chunks != []
    case AnswerEdit(id, _) =>
      id < |s.entries| && s.entries[id].busy.Updating? && s.entries[id].busy.part < |s.entries[id].parts|
  }

  function Apply(s: State, step: Step): State
    requires Enabled(s, step)
  {
    match step
    case Tick(now) => s.(now := now)
    case Offer(input) => Deliver(s, input)
    case CloseTurn(turn) => Close(s, turn)
    case BeginNext(id) => Begin(s, id)
    case AnswerPost(id, ok) => PostAnswered(s, id, ok)
    case AnswerEdit(id, answer) => EditAnswered(s, id, answer)
  }

  // ----- The object -----

  class LiveReplyTracker {
    var now: nat
    var table: seq<Slot>
    var entries: seq<Entry>
    ghost var log: seq<Event>

    ghost function View(): State
      reads this
    {
      State(now, table, entries, log)
    }

    constructor ()
      ensures View() == State(0, [], [], [])
    {
      now, table, entries, log := 0, [], [], [];
    }

    /** The first loop of `#sweep`: what expired. */
    method DropExpired()
      modifies `table
      ensures table == Unexpired(old(View()), old(table))
    {
      ghost var start := View();
      var i := 0;
      var kept: seq<Slot> := [];
      while i < |table|
        invariant 0 <= i <= |table| && View() == start
        invariant Unexpired(start, table) == kept + Unexpired(start, table[i..])
      {
        assert table[i..][0] == table[i] && table[i..][1..] == table[i + 1..];
        if !(table[i].id < |entries| && now - entries[table[i].id].lastTouched > LIVE_REPLY_TTL_MS) {
          kept := kept + [table[i]];
        }
        i := i + 1;
      }
      assert table[i..] == [];
      table := kept;
    }

    /** The second: the oldest beyond the bound. */
    method DropOldest()
      modifies `table
      ensures |old(table)| <= LIVE_REPLY_MAX_ENTRIES ==> table == old(table)
      ensures |old(table)| > LIVE_REPLY_MAX_ENTRIES ==> table == old(table)[|old(table)| - LIVE_REPLY_MAX_ENTRIES..]
    {
      ghost var all := table;
      while |table| > LIVE_REPLY_MAX_ENTRIES
        invariant |table| <= |all| && table == all[|all| - |table|..]
        invariant |all| > LIVE_REPLY_MAX_ENTRIES ==> |table| >= LIVE_REPLY_MAX_ENTRIES
        invariant |all| <= LIVE_REPLY_MAX_ENTRIES ==> table == all
      {
        table := table[1..];
      }
    }

    method Sweep()
      modifies `table
      ensures View() == Swept(old(View()))
    {
      DropExpired();
      DropOldest();
    }

    method Deliver(input: Input)
      modifies this
      ensures View() == Apply(old(View()), Offer(input))
    {
      Sweep();
      var found := Find(table, input.turn);
      if found.None? {
        if input.final || input.text == [] {
          log := log + [Passed(input.turn, input.deliveryId)];
          return;
        }
        var reserved := Entry(input.turn, false, [], true, now, [Open(input)], Free, [], false);
        table := table + [Slot(input.turn, |entries|)];
        entries := entries + [reserved];
        return;
      }
      var id := found.value;
      if id < |entries| {
        entries := entries[id := entries[id].(queue := entries[id].queue + [Append(input)])];
      }
    }

    method Touch(id: nat)
      requires id < |entries|
      modifies `entries, `table
      ensures View() == Touched(old(View()), id)
    {
      var turn := entries[id].turn;
      entries := entries[id := entries[id].(lastTouched := now)];
      if Find(table, turn).Some? {
        table := Removed(table, turn) + [Slot(turn, id)];
      }
    }

    method Finish(id: nat, deliveryId: nat, outcome: Outcome)
      requires id < |entries|
      modifies `entries, `log
      ensures View() == Settle(old(View()), id, deliveryId, outcome)
    {
      entries := entries[id := entries[id].(busy := Free)];
      log := log + [Settled(id, deliveryId, outcome)];
    }

    /** `#append`, to its edit or its end. */
    method StartAppending(id: nat, input: Input)
      requires id < |entries|
      modifies this
      ensures View() == StartAppend(old(View()), id, input)
    {
      if Find(table, input.turn) != Some(id) || !entries[id].live {
        Finish(id, input.deliveryId, Untracked);
        return;
      }
      Touch(id);
      var parts := entries[id].parts;
      var prior := Index(parts, input.deliveryId);
      if prior.Some? && parts[prior.value].applied {
        Finish(id, input.deliveryId, Replayed);
        return;
      }
      if !entries[id].open {
        Finish(id, input.deliveryId, Untracked);
        return;
      }
      var part := |parts|;
      if prior.Some? {
        part := prior.value;
      } else {
        parts := parts + [Part(input.deliveryId, input.text, false)];
      }
      var rendered := Join(Rendered(parts, Some(part)));
      if |rendered| > LIMIT {
        entries := entries[id := entries[id].(parts := parts, open := false)];
        Finish(id, input.deliveryId, Untracked);
        return;
      }
      entries := entries[id := entries[id].(parts := parts, busy := Updating(input, part, rendered))];
      log := log + [EditSent(id, rendered)];
    }

    /** `#append` after its edit was answered. */
    method AnswerEdit(id: nat, answer: EditAnswer)
      requires Enabled(View(), Step.AnswerEdit(id, answer))
      modifies this
      ensures View() == Apply(old(View()), Step.AnswerEdit(id, answer))
    {
      var input, part := entries[id].busy.input, entries[id].busy.part;
      match answer {
        case Edited =>
          var parts := entries[id].parts;
          parts := parts[part := parts[part].(applied := true)];
          entries := entries[id := entries[id].(parts := parts, open := entries[id].open && !input.final,
                                                shows := entries[id].busy.rendered, certain := true)];
          Finish(id, input.deliveryId, Folded);
        case Uneditable =>
          entries := entries[id := entries[id].(open := false)];
          Finish(id, input.deliveryId, Untracked);
        case Ambiguous =>
          entries := entries[id := entries[id].(certain := false)];
          Finish(id, input.deliveryId, Failed);
      }
    }

    /** `#open` after one of its posts was answered. */
    method AnswerPost(id: nat, ok: bool)
      requires Enabled(View(), Step.AnswerPost(id, ok))
      modifies this
      ensures View() == Apply(old(View()), Step.AnswerPost(id, ok))
    {
      var input, chunks := entries[id].busy.input, entries[id].busy.chunks;
      if !ok {
        if Find(table, entries[id].turn) == Some(id) { table := Removed(table, entries[id].turn); }
        Finish(id, input.deliveryId, Failed);
        return;
      }
      if |chunks| > 1 {
        entries := entries[id := entries[id].(busy := Posting(input, chunks[1..]))];
        log := log + [PostSent(id, chunks[1])];
        return;
      }
      var parts := entries[id].parts + [Part(input.deliveryId, chunks[0], true)];
      entries := entries[id := entries[id].(live := true, parts := parts, busy := Free,
                                            shows := chunks[0], certain := true)];
      Touch(id);
      Sweep();
      Finish(id, input.deliveryId, Posted);
    }
  }
}
