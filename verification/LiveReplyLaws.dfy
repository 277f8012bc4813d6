/** A live message is always the join of its applied parts, whatever fails in between. */
module LiveReplyLaws {
  import opened Collections
  import opened SlackChunker
  import opened LiveReply

  // ----- Entries -----

  ghost predicate OnePartEach(parts: seq<Part>) {
    forall i, j | 0 <= i < j < |parts| :: parts[i].deliveryId != parts[j].deliveryId
  }

  /** The edit in flight renders every applied part and the one it brings, and fits. */
  ghost predicate UpdateOk(e: Entry) {
    e.busy.Updating? ==>
      var Updating(input, part, rendered) := e.busy;
      && e.live && part < |e.parts| && e.parts[part].deliveryId == input.deliveryId
      && rendered == Join(Rendered(e.parts, Some(part))) && |rendered| <= LIMIT
  }

  /** Before its opening post landed an entry has no parts, and only its first operation opens it. */
  ghost predicate OpeningOk(e: Entry) {
    && (!e.live ==> e.parts == [])
    && (e.busy.Posting? ==> !e.live && e.busy.chunks != [])
    && (forall i | 0 <= i < |e.queue| && e.queue[i].Open? :: i == 0 && !e.live && e.busy == Free)
  }

  /** What the last successful write shows is the applied parts, joined. */
  ghost predicate ShowsOk(e: Entry) {
    e.certain ==> e.live && e.shows == Join(Rendered(e.parts, None))
  }

  ghost predicate EntryOk(e: Entry) {
    OnePartEach(e.parts) && UpdateOk(e) && OpeningOk(e) && ShowsOk(e)
  }

  ghost predicate EntriesOk(s: State) {
    forall id {:trigger s.entries[id]} | 0 <= id < |s.entries| :: EntryOk(s.entries[id])
  }

  // ----- Rendering -----

  lemma {:induction false} RenderedIgnores(parts: seq<Part>, also: Option<nat>)
    requires also.Some? ==> also.value >= |parts|
    ensures Rendered(parts, also) == Rendered(parts, None)
    decreases |parts|
  {
    if parts != [] { RenderedIgnores(parts[..|parts| - 1], also); }
  }

  lemma RenderedSnoc(parts: seq<Part>, p: Part, also: Option<nat>)
    ensures Rendered(parts + [p], also) ==
            Rendered(parts, also) + if p.applied || also == Some(|parts|) then [p.text] else []
  {
    assert (parts + [p])[..|parts + [p]| - 1] == parts;
  }

  /** Applying a part renders what bringing it along rendered. */
  lemma {:induction false} ApplyingRenders(parts: seq<Part>, part: nat)
    requires part < |parts|
    ensures Rendered(parts[part := parts[part].(applied := true)], None) == Rendered(parts, Some(part))
    decreases |parts|
  {
    var n := |parts| - 1;
    var applied := parts[part := parts[part].(applied := true)];
    if part < n {
      ApplyingRenders(parts[..n], part);
      assert applied[..n] == parts[..n][part := parts[part].(applied := true)];
    } else {
      assert applied[..n] == parts[..n];
      RenderedIgnores(parts[..n], Some(part));
    }
  }

  /** Where part `i` is rendered: after the rendered ones before it. */
  function Place(parts: seq<Part>, also: Option<nat>, i: nat): nat
    requires i <= |parts|
  {
    |Rendered(parts[..i], also)|
  }

  lemma {:induction false} RenderedInOrder(parts: seq<Part>, also: Option<nat>, i: nat)
    requires i < |parts| && (parts[i].applied || also == Some(i))
    ensures Place(parts, also, i) < |Rendered(parts, also)|
    ensures Rendered(parts, also)[Place(parts, also, i)] == parts[i].text
    ensures Rendered(parts[..i + 1], also) <= Rendered(parts, also)
    decreases |parts|
  {
    var n := |parts| - 1;
    if i < n {
      RenderedInOrder(parts[..n], also, i);
      assert parts[..n][..i] == parts[..i] && parts[..n][..i + 1] == parts[..i + 1];
    } else {
      assert parts[..i + 1] == parts;
    }
  }

  // ----- What only grows -----

  /** No part is lost, renamed or taken back. */
  ghost predicate Grown(e: Entry, f: Entry) {
    && |e.parts| <= |f.parts| && f.turn == e.turn
    && forall i {:trigger f.parts[i]} {:trigger e.parts[i]} | 0 <= i < |e.parts| ::
         f.parts[i] == e.parts[i] || f.parts[i] == e.parts[i].(applied := true)
  }

  ghost predicate Grows(s: State, t: State) {
    && |s.entries| <= |t.entries|
    && forall id {:trigger t.entries[id]} {:trigger s.entries[id]} | 0 <= id < |s.entries| ::
         Grown(s.entries[id], t.entries[id])
  }

  /** The part was confirmed: it is applied in its entry. */
  ghost predicate HasApplied(s: State, id: nat, deliveryId: nat) {
    id < |s.entries| && exists i :: AppliedAt(s.entries[id], i, deliveryId)
  }

  ghost predicate AppliedAt(e: Entry, i: nat, deliveryId: nat) {
    i < |e.parts| && e.parts[i].deliveryId == deliveryId && e.parts[i].applied
  }

  ghost predicate EventOk(s: State, event: Event) {
    match event
    case EditSent(_, text) => |text| <= LIMIT
    case Settled(id, deliveryId, outcome) => outcome == Posted || outcome == Folded ==> HasApplied(s, id, deliveryId)
    case _ => true
  }

  ghost predicate LogOk(s: State) {
    forall event {:trigger EventOk(s, event)} | event in s.log :: EventOk(s, event)
  }

  ghost predicate OneSlotEach(table: seq<Slot>) {
    forall i, j | 0 <= i < j < |table| :: table[i].turn != table[j].turn
  }

  ghost predicate SlotsPoint(s: State, table: seq<Slot>) {
    forall x | x in table :: x.id < |s.entries| && s.entries[x.id].turn == x.turn
  }

  function TouchedAt(s: State, x: Slot): nat {
    if x.id < |s.entries| then s.entries[x.id].lastTouched else 0
  }

  /** The table runs from the least to the most recently touched entry. */
  ghost predicate ByAge(s: State, table: seq<Slot>)
    decreases |table|
  {
    table == [] ||
    ((forall x | x in table[1..] :: TouchedAt(s, table[0]) <= TouchedAt(s, x))
     && TouchedAt(s, table[0]) <= s.now && ByAge(s, table[1..]))
  }

  ghost predicate TableOk(s: State) {
    SlotsPoint(s, s.table) && OneSlotEach(s.table) && ByAge(s, s.table) && |s.table| <= LIVE_REPLY_MAX_ENTRIES + 1
  }

  ghost predicate Inv(s: State) {
    EntriesOk(s) && LogOk(s) && TableOk(s)
  }

  lemma AppliedStays(s: State, t: State, id: nat, deliveryId: nat)
    requires Grows(s, t) && HasApplied(s, id, deliveryId)
    ensures HasApplied(t, id, deliveryId)
  {
    var i :| AppliedAt(s.entries[id], i, deliveryId);
    assert Grown(s.entries[id], t.entries[id]);
    assert AppliedAt(t.entries[id], i, deliveryId);
  }

  lemma LogStaysOk(s: State, t: State, more: seq<Event>)
    requires LogOk(s) && Grows(s, t) && t.log == s.log + more && forall event | event in more :: EventOk(t, event)
    ensures LogOk(t)
  {
    forall event | event in t.log
      ensures EventOk(t, event)
    {
      if event in s.log {
        assert EventOk(s, event);
        if event.Settled? && (event.outcome == Posted || event.outcome == Folded) {
          AppliedStays(s, t, event.id, event.deliveryId);
        }
      }
    }
  }

  /** One entry changes, and the log gains `more`. */
  lemma OneEntryChanges(s: State, t: State, id: nat, e: Entry, more: seq<Event>)
    requires EntriesOk(s) && LogOk(s) && id < |s.entries|
    requires t.entries == s.entries[id := e] && EntryOk(e) && Grown(s.entries[id], e)
    requires t.log == s.log + more && forall event | event in more :: EventOk(t, event)
    ensures EntriesOk(t) && LogOk(t)
  {
    forall k | 0 <= k < |t.entries|
      ensures EntryOk(t.entries[k]) && Grown(s.entries[k], t.entries[k])
    {
      if k != id { assert t.entries[k] == s.entries[k] && EntryOk(s.entries[k]); }
    }
    LogStaysOk(s, t, more);
  }

  // ----- The table -----

  lemma {:induction false} UnexpiredIsOk(s: State, table: seq<Slot>)
    requires OneSlotEach(table)
    ensures OneSlotEach(Unexpired(s, table))
    decreases |table|
  {
    if table != [] {
      UnexpiredIsOk(s, table[1..]);
      assert forall x | x in table[1..] :: x.turn != table[0].turn;
    }
  }

  lemma {:induction false} UnexpiredByAge(s: State, table: seq<Slot>)
    requires ByAge(s, table)
    ensures ByAge(s, Unexpired(s, table))
    decreases |table|
  {
    if table != [] {
      UnexpiredByAge(s, table[1..]);
      var rest := Unexpired(s, table[1..]);
      assert ([table[0]] + rest)[1..] == rest;
    }
  }

  lemma SuffixIsOk(table: seq<Slot>, n: nat)
    requires OneSlotEach(table) && n <= |table|
    ensures OneSlotEach(table[n..]) && forall x | x in table[n..] :: x in table
  {}

  /** Whatever comes first was touched no later than what comes after. */
  lemma {:induction false} SplitByAge(s: State, table: seq<Slot>, n: nat)
    requires ByAge(s, table) && n <= |table|
    ensures ByAge(s, table[n..])
    ensures forall x, y | x in table[..n] && y in table[n..] :: TouchedAt(s, x) <= TouchedAt(s, y)
    decreases |table|
  {
    if n > 0 {
      SplitByAge(s, table[1..], n - 1);
      assert table[1..][n - 1..] == table[n..];
      assert table[..n] == [table[0]] + table[1..][..n - 1];
      assert forall y | y in table[n..] :: y in table[1..];
    }
  }

  /** What is left of the table after the sweep. */
  lemma TableSwept(s: State) returns (table: seq<Slot>)
    requires TableOk(s)
    ensures table == Swept(s).table && |table| <= LIVE_REPLY_MAX_ENTRIES
    ensures OneSlotEach(table) && ByAge(s, table) && forall x | x in table :: x in s.table
  {
    UnexpiredIsOk(s, s.table);
    UnexpiredByAge(s, s.table);
    table := Unexpired(s, s.table);
    if |table| > LIVE_REPLY_MAX_ENTRIES {
      var n := |table| - LIVE_REPLY_MAX_ENTRIES;
      SuffixIsOk(table, n);
      SplitByAge(s, table, n);
      table := table[n..];
    }
  }

  lemma SweptIsOk(s: State)
    requires TableOk(s)
    ensures TableOk(Swept(s)) && |Swept(s).table| <= LIVE_REPLY_MAX_ENTRIES
    ensures forall x | x in Swept(s).table :: x in s.table
  {
    var table := TableSwept(s);
    SameAges(s, Swept(s), table);
  }

  lemma {:induction false} RemovedIsOk(table: seq<Slot>, turn: nat)
    requires OneSlotEach(table)
    ensures OneSlotEach(Removed(table, turn))
    ensures Find(table, turn).Some? ==> |Removed(table, turn)| < |table|
  {
    if table != [] {
      RemovedIsOk(table[1..], turn);
      assert forall x | x in table[1..] :: x.turn != table[0].turn;
      assert forall x | x in Removed(table[1..], turn) :: x in table[1..];
    }
  }

  lemma {:induction false} RemovedByAge(s: State, table: seq<Slot>, turn: nat)
    requires ByAge(s, table)
    ensures ByAge(s, Removed(table, turn))
    decreases |table|
  {
    if table != [] {
      RemovedByAge(s, table[1..], turn);
      var rest := Removed(table[1..], turn);
      assert forall x | x in rest :: x in table[1..];
      assert ([table[0]] + rest)[1..] == rest;
    }
  }

  lemma AppendedIsOk(table: seq<Slot>, x: Slot)
    requires OneSlotEach(table) && forall y | y in table :: y.turn != x.turn
    ensures OneSlotEach(table + [x])
  {}

  lemma {:induction false} AppendedByAge(s: State, table: seq<Slot>, x: Slot)
    requires ByAge(s, table) && TouchedAt(s, x) == s.now
    ensures ByAge(s, table + [x])
    decreases |table|
  {
    if table == [] {
      assert (table + [x])[1..] == [];
    } else {
      AppendedByAge(s, table[1..], x);
      assert (table + [x])[1..] == table[1..] + [x];
    }
  }

  lemma {:induction false} SameAges(s: State, t: State, table: seq<Slot>)
    requires ByAge(s, table) && t.now >= s.now && forall x | x in table :: TouchedAt(t, x) == TouchedAt(s, x)
    ensures ByAge(t, table)
    decreases |table|
  {
    if table != [] {
      assert table[0] in table && forall x | x in table[1..] :: x in table;
      SameAges(s, t, table[1..]);
    }
  }

  lemma TouchedIsOk(s: State, id: nat)
    requires TableOk(s) && id < |s.entries|
    ensures TableOk(Touched(s, id))
  {
    var turn, t := s.entries[id].turn, Touched(s, id);
    var rest := Removed(s.table, turn);
    RemovedIsOk(s.table, turn);
    RemovedByAge(s, s.table, turn);
    if Find(s.table, turn).None? {
      SameAges(s, t, s.table);
    } else {
      SameAges(s, t, rest);
      AppendedIsOk(rest, Slot(turn, id));
      AppendedByAge(t, rest, Slot(turn, id));
    }
  }

  lemma AbandonedIsOk(s: State, id: nat)
    requires TableOk(s) && id < |s.entries|
    ensures TableOk(Abandoned(s, id))
  {
    RemovedIsOk(s.table, s.entries[id].turn);
    RemovedByAge(s, s.table, s.entries[id].turn);
    if Find(s.table, s.entries[id].turn) == Some(id) { SameAges(s, Abandoned(s, id), Abandoned(s, id).table); }
  }

  // ----- Every step -----

  lemma TableStays(s: State, t: State)
    requires TableOk(s) && t.table == s.table && |t.entries| >= |s.entries| && t.now >= s.now
    requires forall id {:trigger t.entries[id]} | 0 <= id < |s.entries| ::
               t.entries[id].turn == s.entries[id].turn && t.entries[id].lastTouched == s.entries[id].lastTouched
    ensures TableOk(t)
  {
    SameAges(s, t, s.table);
  }

  lemma SweepKeeps(s: State)
    requires Inv(s)
    ensures Inv(Swept(s))
  {
    SweptIsOk(s);
    var w := Swept(s);
    assert forall id {:trigger w.entries[id]} | 0 <= id < |w.entries| :: w.entries[id] == s.entries[id];
    LogStaysOk(s, w, []);
  }

  /** A part queues behind its turn's entry. */
  lemma QueueingKeeps(s: State, id: nat, input: Input)
    requires Inv(s) && id < |s.entries|
    ensures Inv(SetEntry(s, id, s.entries[id].(queue := s.entries[id].queue + [Append(input)])))
  {
    assert EntryOk(s.entries[id]);
    var t := ReplacingKeeps(s, id, s.entries[id].(queue := s.entries[id].queue + [Append(input)]), []);
    assert s.log + [] == s.log;
  }

  /** A part opens an entry. */
  lemma ReservingKeeps(s: State, input: Input)
    requires Inv(s) && Find(s.table, input.turn).None? && |s.table| <= LIVE_REPLY_MAX_ENTRIES
    ensures var reserved := Entry(input.turn, false, [], true, s.now, [Open(input)], Free, [], false);
            Inv(s.(entries := s.entries + [reserved], table := s.table + [Slot(input.turn, |s.entries|)]))
  {
    var reserved := Entry(input.turn, false, [], true, s.now, [Open(input)], Free, [], false);
    var t := s.(entries := s.entries + [reserved], table := s.table + [Slot(input.turn, |s.entries|)]);
    NewEntryIsOk(s, t);
    LogStaysOk(s, t, []);
    SameAges(s, t, s.table);
    AppendedIsOk(s.table, Slot(input.turn, |s.entries|));
    AppendedByAge(t, s.table, Slot(input.turn, |s.entries|));
  }

  lemma OfferKeeps(s: State, input: Input)
    requires Inv(s)
    ensures Inv(Deliver(s, input))
  {
    SweepKeeps(s);
    SweptIsOk(s);
    var w := Swept(s);
    var found := Find(w.table, input.turn);
    if found.Some? {
      QueueingKeeps(w, found.value, input);
    } else if input.final || input.text == [] {
      assert forall id {:trigger w.entries[id]} | 0 <= id < |w.entries| :: w.entries[id] == w.entries[id];
      LogStaysOk(w, Deliver(s, input), [Passed(input.turn, input.deliveryId)]);
      TableStays(w, Deliver(s, input));
    } else {
      ReservingKeeps(w, input);
    }
  }

  lemma NewEntryIsOk(s: State, t: State)
    requires EntriesOk(s) && |t.entries| == |s.entries| + 1 && t.entries[..|s.entries|] == s.entries
    requires EntryOk(t.entries[|s.entries|])
    ensures EntriesOk(t) && Grows(s, t)
  {
    forall id | 0 <= id < |t.entries|
      ensures EntryOk(t.entries[id])
    {
      if id < |s.entries| { assert t.entries[id] == s.entries[id]; }
    }
  }

  lemma CloseKeeps(s: State, turn: nat)
    requires Inv(s)
    ensures Inv(Close(s, turn))
  {
    var found := Find(s.table, turn);
    if found.Some? {
      var id := found.value;
      assert EntryOk(s.entries[id]);
      OneEntryChanges(s, Close(s, turn), id, s.entries[id].(open := false), []);
      TableStays(s, Close(s, turn));
    }
  }

  /** Ending an operation without touching its parts. */
  lemma SettlingKeeps(s: State, id: nat, deliveryId: nat, outcome: Outcome)
    requires Inv(s) && id < |s.entries|
    requires outcome == Posted || outcome == Folded ==> HasApplied(s, id, deliveryId)
    requires forall i | 0 <= i < |s.entries[id].queue| :: s.entries[id].queue[i].Append?
    ensures Inv(Settle(s, id, deliveryId, outcome))
  {
    var t := Settle(s, id, deliveryId, outcome);
    var e := s.entries[id].(busy := Free);
    assert EntryOk(s.entries[id]);
    if HasApplied(s, id, deliveryId) {
      var i :| AppliedAt(s.entries[id], i, deliveryId);
      assert AppliedAt(t.entries[id], i, deliveryId);
    }
    OneEntryChanges(s, t, id, e, [Settled(id, deliveryId, outcome)]);
    TableStays(s, t);
  }

  /** Replacing one entry by a good one, with the table as it was. */
  lemma ReplacingKeeps(s: State, id: nat, e: Entry, more: seq<Event>) returns (t: State)
    requires Inv(s) && id < |s.entries| && EntryOk(e) && Grown(s.entries[id], e)
    requires e.lastTouched == s.entries[id].lastTouched
    requires forall event | event in more :: event.PostSent? || (event.EditSent? && |event.text| <= LIMIT)
    ensures t == SetEntry(s, id, e).(log := s.log + more) && Inv(t)
  {
    t := SetEntry(s, id, e).(log := s.log + more);
    OneEntryChanges(s, t, id, e, more);
    TableStays(s, t);
  }

  lemma RetablingKeeps(s: State, t: State)
    requires Inv(s) && t == s.(table := t.table) && TableOk(t)
    ensures Inv(t)
  {
    assert forall id {:trigger t.entries[id]} | 0 <= id < |t.entries| :: t.entries[id] == s.entries[id];
    LogStaysOk(s, t, []);
  }

  lemma TouchKeeps(s: State, id: nat)
    requires Inv(s) && id < |s.entries|
    ensures Inv(Touched(s, id))
  {
    assert EntryOk(s.entries[id]);
    OneEntryChanges(s, Touched(s, id), id, s.entries[id].(lastTouched := s.now), []);
    TouchedIsOk(s, id);
  }

  ghost predicate OnlyAppends(e: Entry) {
    forall i | 0 <= i < |e.queue| :: e.queue[i].Append?
  }

  lemma OpenKeeps(s: State, id: nat, input: Input)
    requires Inv(s) && id < |s.entries| && s.entries[id].busy == Free && OnlyAppends(s.entries[id])
    requires !s.entries[id].live
    ensures Inv(StartOpen(s, id, input))
  {
    var e := s.entries[id];
    assert EntryOk(e);
    if input.chunks == [] {
      AbandonedIsOk(s, id);
      RetablingKeeps(s, Abandoned(s, id));
      SettlingKeeps(Abandoned(s, id), id, input.deliveryId, Untracked);
    } else {
      var t := ReplacingKeeps(s, id, e.(busy := Posting(input, input.chunks)), [PostSent(id, input.chunks[0])]);
    }
  }

  lemma PostKeeps(s: State, id: nat, ok: bool)
    requires Inv(s) && Enabled(s, AnswerPost(id, ok))
    ensures Inv(PostAnswered(s, id, ok))
  {
    var e := s.entries[id];
    var Posting(input, chunks) := e.busy;
    assert EntryOk(e);
    if !ok {
      AbandonedIsOk(s, id);
      RetablingKeeps(s, Abandoned(s, id));
      SettlingKeeps(Abandoned(s, id), id, input.deliveryId, Failed);
    } else if |chunks| > 1 {
      var t := ReplacingKeeps(s, id, e.(busy := Posting(input, chunks[1..])), [PostSent(id, chunks[1])]);
    } else {
      LandingKeeps(s, id, input, chunks[0]);
    }
  }

  lemma LandingKeeps(s: State, id: nat, input: Input, tail: Text)
    requires Inv(s) && id < |s.entries| && s.entries[id].busy == Posting(input, [tail])
    ensures Inv(PostAnswered(s, id, true))
  {
    var e := s.entries[id];
    assert EntryOk(e);
    var part := Part(input.deliveryId, tail, true);
    var landed := e.(live := true, parts := e.parts + [part], busy := Free, shows := tail, certain := true);
    assert e.parts + [part] == [part] == [] + [part];
    RenderedSnoc([], part, None);
    var t := ReplacingKeeps(s, id, landed, []);
    assert s.log + [] == s.log;
    assert t == SetEntry(s, id, landed);
    TouchKeeps(t, id);
    SweptIsOk(Touched(t, id));
    var w := Swept(Touched(t, id));
    RetablingKeeps(Touched(t, id), w);
    assert AppliedAt(w.entries[id], 0, input.deliveryId);
    SettlingKeeps(w, id, input.deliveryId, Posted);
    assert PostAnswered(s, id, true) == Settle(w, id, input.deliveryId, Posted);
  }

  /** The parts as an append leaves them: its own is there, once, and nothing else changed. */
  lemma AppendedParts(parts: seq<Part>, input: Input) returns (more: seq<Part>, part: nat)
    requires OnePartEach(parts)
    requires Index(parts, input.deliveryId).Some? ==> !parts[Index(parts, input.deliveryId).value].applied
    ensures var prior := Index(parts, input.deliveryId);
            && more == (if prior.Some? then parts else parts + [Part(input.deliveryId, input.text, false)])
            && part == (if prior.Some? then prior.value else |parts|)
    ensures OnePartEach(more) && part < |more| && more[part].deliveryId == input.deliveryId && parts <= more
    ensures Rendered(more, None) == Rendered(parts, None)
  {
    var prior := Index(parts, input.deliveryId);
    if prior.Some? {
      more, part := parts, prior.value;
    } else {
      var p := Part(input.deliveryId, input.text, false);
      more, part := parts + [p], |parts|;
      RenderedSnoc(parts, p, None);
    }
  }

  lemma EditingKeeps(s: State, id: nat, input: Input)
    requires Inv(s) && id < |s.entries| && s.entries[id].busy == Free && OnlyAppends(s.entries[id])
    requires s.entries[id].live
    requires var prior := Index(s.entries[id].parts, input.deliveryId);
             prior.Some? ==> !s.entries[id].parts[prior.value].applied
    ensures var e := s.entries[id];
            var prior := Index(e.parts, input.deliveryId);
            var parts := if prior.Some? then e.parts else e.parts + [Part(input.deliveryId, input.text, false)];
            var part := if prior.Some? then prior.value else |e.parts|;
            var rendered := Join(Rendered(parts, Some(part)));
            if |rendered| > LIMIT
            then Inv(Settle(SetEntry(s, id, e.(parts := parts, open := false)), id, input.deliveryId, Untracked))
            else Inv(Log(SetEntry(s, id, e.(parts := parts, busy := Updating(input, part, rendered))),
                         EditSent(id, rendered)))
  {
    var e := s.entries[id];
    assert EntryOk(e);
    var parts, part := AppendedParts(e.parts, input);
    var rendered := Join(Rendered(parts, Some(part)));
    if |rendered| > LIMIT {
      var sealed := SealedIsOk(e, parts);
      OverflowKeeps(s, id, input.deliveryId, sealed);
    } else {
      var editing := EditingIsOk(e, parts, input, part, rendered);
      FittingKeeps(s, id, editing, rendered);
    }
  }

  /** The parts as they are when one more is brought along. */
  ghost predicate Appended(e: Entry, parts: seq<Part>) {
    OnePartEach(parts) && e.parts <= parts && Rendered(parts, None) == Rendered(e.parts, None)
  }

  lemma SealedIsOk(e: Entry, parts: seq<Part>) returns (sealed: Entry)
    requires EntryOk(e) && e.busy == Free && e.live && Appended(e, parts)
    ensures sealed == e.(parts := parts, open := false) && EntryOk(sealed) && Grown(e, sealed)
  {
    sealed := e.(parts := parts, open := false);
  }

  lemma EditingIsOk(e: Entry, parts: seq<Part>, input: Input, part: nat, rendered: Text) returns (editing: Entry)
    requires EntryOk(e) && e.busy == Free && e.live && Appended(e, parts) && OnlyAppends(e)
    requires part < |parts| && parts[part].deliveryId == input.deliveryId
    requires rendered == Join(Rendered(parts, Some(part))) && |rendered| <= LIMIT
    ensures editing == e.(parts := parts, busy := Updating(input, part, rendered))
    ensures EntryOk(editing) && Grown(e, editing)
  {
    editing := e.(parts := parts, busy := Updating(input, part, rendered));
  }

  lemma FittingKeeps(s: State, id: nat, editing: Entry, rendered: Text)
    requires Inv(s) && id < |s.entries| && EntryOk(editing) && Grown(s.entries[id], editing)
    requires editing.lastTouched == s.entries[id].lastTouched && |rendered| <= LIMIT
    ensures Inv(Log(SetEntry(s, id, editing), EditSent(id, rendered)))
  {
    var t := ReplacingKeeps(s, id, editing, [EditSent(id, rendered)]);
  }

  lemma OverflowKeeps(s: State, id: nat, deliveryId: nat, sealed: Entry)
    requires Inv(s) && id < |s.entries| && EntryOk(sealed) && Grown(s.entries[id], sealed)
    requires sealed.lastTouched == s.entries[id].lastTouched && OnlyAppends(sealed)
    ensures Inv(Settle(SetEntry(s, id, sealed), id, deliveryId, Untracked))
  {
    var t := ReplacingKeeps(s, id, sealed, []);
    assert s.log + [] == s.log;
    SettlingKeeps(t, id, deliveryId, Untracked);
  }

  lemma AppendKeeps(s: State, id: nat, input: Input)
    requires Inv(s) && id < |s.entries| && s.entries[id].busy == Free && OnlyAppends(s.entries[id])
    ensures Inv(StartAppend(s, id, input))
  {
    if Find(s.table, input.turn) != Some(id) || !s.entries[id].live {
      SettlingKeeps(s, id, input.deliveryId, Untracked);
    } else {
      TouchKeeps(s, id);
      var t := Touched(s, id);
      var e := t.entries[id];
      var prior := Index(e.parts, input.deliveryId);
      if prior.Some? && e.parts[prior.value].applied {
        SettlingKeeps(t, id, input.deliveryId, Replayed);
      } else if !e.open {
        SettlingKeeps(t, id, input.deliveryId, Untracked);
      } else {
        EditingKeeps(t, id, input);
      }
    }
  }

  lemma BeginKeeps(s: State, id: nat)
    requires Inv(s) && Enabled(s, BeginNext(id))
    ensures Inv(Begin(s, id))
  {
    var e := s.entries[id];
    assert EntryOk(e);
    assert e.queue == [e.queue[0]] + e.queue[1..];
    assert forall i | 0 <= i < |e.queue[1..]| :: e.queue[1..][i] == e.queue[i + 1];
    var t := ReplacingKeeps(s, id, e.(queue := e.queue[1..]), []);
    assert s.log + [] == s.log;
    assert t == SetEntry(s, id, e.(queue := e.queue[1..]));
    if e.queue[0].Open? {
      OpenKeeps(t, id, e.queue[0].input);
    } else {
      AppendKeeps(t, id, e.queue[0].input);
    }
  }

  /** The entry after its edit took hold: the part it brought is applied, and the message shows it. */
  lemma EditedEntryIsOk(e: Entry) returns (edited: Entry)
    requires EntryOk(e) && e.busy.Updating?
    ensures var Updating(input, part, rendered) := e.busy;
            edited == e.(parts := e.parts[part := e.parts[part].(applied := true)], open := e.open && !input.final,
                         busy := Free, shows := rendered, certain := true)
    ensures EntryOk(edited) && Grown(e, edited) && AppliedAt(edited, e.busy.part, e.busy.input.deliveryId)
  {
    var Updating(input, part, rendered) := e.busy;
    ApplyingRenders(e.parts, part);
    edited := e.(parts := e.parts[part := e.parts[part].(applied := true)], open := e.open && !input.final,
                 busy := Free, shows := rendered, certain := true);
  }

  lemma FoldingKeeps(s: State, id: nat)
    requires Inv(s) && Enabled(s, AnswerEdit(id, Edited))
    ensures Inv(EditAnswered(s, id, Edited))
  {
    var e := s.entries[id];
    assert EntryOk(e);
    var edited := EditedEntryIsOk(e);
    var t := ReplacingKeeps(s, id, edited, []);
    assert s.log + [] == s.log;
    assert AppliedAt(t.entries[id], e.busy.part, e.busy.input.deliveryId);
    SettlingKeeps(t, id, e.busy.input.deliveryId, Folded);
    assert EditAnswered(s, id, Edited) == Settle(t, id, e.busy.input.deliveryId, Folded);
  }

  lemma RefusalKeeps(s: State, id: nat, answer: EditAnswer)
    requires Inv(s) && Enabled(s, AnswerEdit(id, answer)) && answer != Edited
    ensures Inv(EditAnswered(s, id, answer))
  {
    var e := s.entries[id];
    assert EntryOk(e);
    var refused := if answer == Uneditable then e.(open := false) else e.(certain := false);
    var t := ReplacingKeeps(s, id, refused, []);
    assert s.log + [] == s.log;
    SettlingKeeps(t, id, e.busy.input.deliveryId, if answer == Uneditable then Untracked else Failed);
  }

  lemma StepKeeps(s: State, step: Step)
    requires Inv(s) && Enabled(s, step)
    ensures Inv(Apply(s, step))
  {
    match step
    case Tick(now) =>
      var t := s.(now := now);
      assert forall id {:trigger t.entries[id]} | 0 <= id < |t.entries| :: t.entries[id] == s.entries[id];
      LogStaysOk(s, t, []);
      TableStays(s, t);
    case Offer(input) => OfferKeeps(s, input);
    case CloseTurn(turn) => CloseKeeps(s, turn);
    case BeginNext(id) => BeginKeeps(s, id);
    case AnswerPost(id, ok) => PostKeeps(s, id, ok);
    case AnswerEdit(id, answer) =>
      if answer == Edited { FoldingKeeps(s, id); } else { RefusalKeeps(s, id, answer); }
  }

  // ----- Whole histories -----

  ghost predicate StepAt(states: seq<State>, steps: seq<Step>, i: nat)
    requires |states| == |steps| + 1 && i < |steps|
  {
    Enabled(states[i], steps[i]) && states[i + 1] == Apply(states[i], steps[i])
  }

  ghost predicate History(states: seq<State>, steps: seq<Step>) {
    && |states| == |steps| + 1 && states[0] == State(0, [], [], [])
    && forall i {:trigger StepAt(states, steps, i)} | 0 <= i < |steps| :: StepAt(states, steps, i)
  }

  lemma {:induction false} HistoryKeeps(states: seq<State>, steps: seq<Step>, n: nat)
    requires History(states, steps) && n <= |steps|
    ensures Inv(states[n])
  {
    if n > 0 {
      HistoryKeeps(states, steps, n - 1);
      assert StepAt(states, steps, n - 1);
      StepKeeps(states[n - 1], steps[n - 1]);
    }
  }

  /**
   The live message is the join of its applied parts, in first-seen order and each once:
   after every successful edit or opening, and until an edit fails without saying whether
   it took hold.
   */
  lemma LiveMessageIsTheJoinedParts(states: seq<State>, steps: seq<Step>, id: nat)
    requires History(states, steps) && id < |states[|steps|].entries|
    ensures var e := states[|steps|].entries[id];
            && OnePartEach(e.parts)
            && (e.certain ==> e.shows == Join(Rendered(e.parts, None)))
    ensures steps != [] && steps[|steps| - 1] == AnswerEdit(id, Edited) ==> states[|steps|].entries[id].certain
  {
    HistoryKeeps(states, steps, |steps|);
    assert EntryOk(states[|steps|].entries[id]);
    if steps != [] { assert StepAt(states, steps, |steps| - 1); }
  }

  /**
   No edit ever drops an applied part, even after an edit that failed ambiguously: whatever
   edit is in flight renders every part confirmed so far, in its place, and fits the limit.
   */
  lemma NoEditDropsAnAppliedPart(states: seq<State>, steps: seq<Step>, id: nat, deliveryId: nat, outcome: Outcome)
    returns (i: nat)
    requires History(states, steps)
    requires outcome == Posted || outcome == Folded
    requires Settled(id, deliveryId, outcome) in states[|steps|].log
    ensures id < |states[|steps|].entries| && AppliedAt(states[|steps|].entries[id], i, deliveryId)
    ensures var e := states[|steps|].entries[id];
            e.busy.Updating? ==>
              var texts := Rendered(e.parts, Some(e.busy.part));
              && e.busy.rendered == Join(texts) && |e.busy.rendered| <= LIMIT
              && Place(e.parts, Some(e.busy.part), i) < |texts|
              && texts[Place(e.parts, Some(e.busy.part), i)] == e.parts[i].text
  {
    HistoryKeeps(states, steps, |steps|);
    var s := states[|steps|];
    assert EventOk(s, Settled(id, deliveryId, outcome));
    i :| AppliedAt(s.entries[id], i, deliveryId);
    var e := s.entries[id];
    assert EntryOk(e);
    if e.busy.Updating? { RenderedInOrder(e.parts, Some(e.busy.part), i); }
  }

  lemma IndexOfTheOnly(parts: seq<Part>, i: nat, deliveryId: nat)
    requires OnePartEach(parts) && i < |parts| && parts[i].deliveryId == deliveryId
    ensures Index(parts, deliveryId) == Some(i)
  {}

  /** Replaying a confirmed part of a tracked turn makes no platform call, open or sealed. */
  lemma ReplayCallsNothing(states: seq<State>, steps: seq<Step>, id: nat, input: Input, outcome: Outcome)
    requires History(states, steps) && (outcome == Posted || outcome == Folded)
    requires Settled(id, input.deliveryId, outcome) in states[|steps|].log
    requires var s := states[|steps|];
             && Enabled(s, BeginNext(id)) && s.entries[id].queue[0] == Append(input)
             && Find(s.table, input.turn) == Some(id)
    ensures Begin(states[|steps|], id).log == states[|steps|].log + [Settled(id, input.deliveryId, Replayed)]
  {
    var i := NoEditDropsAnAppliedPart(states, steps, id, input.deliveryId, outcome);
    HistoryKeeps(states, steps, |steps|);
    var e := states[|steps|].entries[id];
    assert EntryOk(e);
    IndexOfTheOnly(e.parts, i, input.deliveryId);
  }

  /** At most one entry over the bound is tracked, one per turn; `LiveReplyTurns.BoundAfterStep` says when. */
  lemma TableIsBounded(states: seq<State>, steps: seq<Step>)
    requires History(states, steps)
    ensures |states[|steps|].table| <= LIVE_REPLY_MAX_ENTRIES + 1 && OneSlotEach(states[|steps|].table)
  {
    HistoryKeeps(states, steps, |steps|);
  }

  /** Entry `id` is sealed before and after, and nothing was edited for it in between. */
  ghost predicate StaysSealed(s: State, t: State, id: nat) {
    && id < |t.entries| && !t.entries[id].open && s.log <= t.log
    && forall k | |s.log| <= k < |t.log| :: !(t.log[k].EditSent? && t.log[k].id == id)
  }

  lemma AppendStaysSealed(s: State, other: nat, input: Input, id: nat)
    requires id < |s.entries| && !s.entries[id].open && other < |s.entries|
    ensures StaysSealed(s, StartAppend(s, other, input), id)
  {
    var t := Touched(s, other);
    assert t.entries[id].open == s.entries[id].open && t.log == s.log;
    if other == id && Find(s.table, input.turn) == Some(id) && s.entries[id].live {
      SealedAppendSettles(s, id, input);
    }
  }

  lemma SealedAppendSettles(s: State, id: nat, input: Input)
    requires id < |s.entries| && !s.entries[id].open && Find(s.table, input.turn) == Some(id) && s.entries[id].live
    ensures StaysSealed(s, StartAppend(s, id, input), id)
  {}

  lemma OpenStaysSealed(s: State, other: nat, input: Input, id: nat)
    requires id < |s.entries| && !s.entries[id].open && other < |s.entries|
    ensures StaysSealed(s, StartOpen(s, other, input), id)
  {}

  lemma PostStaysSealed(s: State, other: nat, ok: bool, id: nat)
    requires id < |s.entries| && !s.entries[id].open && Enabled(s, AnswerPost(other, ok))
    ensures StaysSealed(s, PostAnswered(s, other, ok), id)
  {}

  /** A sealed entry stays sealed and is never edited again: no step reopens it or sends an edit for it. */
  lemma SealedEntriesStaySealed(s: State, step: Step, id: nat)
    requires Enabled(s, step) && id < |s.entries| && !s.entries[id].open
    ensures StaysSealed(s, Apply(s, step), id)
  {
    match step
    case BeginNext(k) =>
      var op := s.entries[k].queue[0];
      var t := SetEntry(s, k, s.entries[k].(queue := s.entries[k].queue[1..]));
      if op.Open? { OpenStaysSealed(t, k, op.input, id); } else { AppendStaysSealed(t, k, op.input, id); }
    case AnswerPost(k, ok) => PostStaysSealed(s, k, ok, id);
    case _ =>
  }

  /** The sweep drops what expired and, beyond the bound, only entries touched no later than all it keeps. */
  lemma SweepDropsTheLeastRecent(states: seq<State>, steps: seq<Step>, x: Slot, y: Slot)
    requires History(states, steps)
    requires var s := states[|steps|]; x in s.table && x !in Swept(s).table && y in Swept(s).table
    ensures var s := states[|steps|]; Expired(s, x) || TouchedAt(s, x) <= TouchedAt(s, y)
  {
    HistoryKeeps(states, steps, |steps|);
    var s := states[|steps|];
    var kept := Unexpired(s, s.table);
    if !Expired(s, x) {
      var n := |kept| - LIVE_REPLY_MAX_ENTRIES;
      assert kept == kept[..n] + kept[n..];
      UnexpiredByAge(s, s.table);
      SplitByAge(s, kept, n);
    }
  }
}
