/**
 One run of the Discord missed-message recovery over one conversation
 (packages/adapter-discord/src/recovery.ts, `recoverConversation`).

 Message ids are snowflakes and are compared numerically, so they are `nat`. The history
 port and the delivery callback are arbitrary functions of the number of calls made so far,
 which covers every behaviour the network and the gateway can show in one run.
 */
module DiscordScan {
  import opened Collections

  /** `blank` stands for `content.trim() === ""`. */
  datatype Message = Message(id: nat, blank: bool)

  datatype Verdict = Acked | Duplicate | Unavailable | Skip | Candidate

  datatype Fetched = Page(messages: seq<Message>) | Unreadable(permanent: bool)

  type History = (nat, nat) -> Fetched
  type Deliver = (nat, Message) -> Verdict

  datatype Options = Options(
    cursor: nat, pageLimit: nat, maxPages: nat, uniformLimit: nat, skipEmpty: bool)

  /** What a run does to the outside world, in order. */
  datatype Event =
    | Delivered(id: nat, verdict: Verdict)
    | PassedBlank(id: nat)
    | Discarded(id: nat)

  /** The mutable variables of the run. `held` is a Map in insertion order. */
  datatype Scan = Scan(
    cursor: nat, scanCursor: nat,
    delivered: nat, duplicates: nat, skipped: nat, discarded: nat,
    held: seq<nat>, calls: nat, halted: bool, trace: seq<Event>)

  datatype Outcome = Outcome(
    advancedTo: nat, delivered: nat, duplicates: nat, skipped: nat, discarded: nat,
    held: nat, truncated: bool, failed: bool, fetchError: Option<bool>)

  function Begin(cursor: nat): Scan {
    Scan(cursor, cursor, 0, 0, 0, 0, [], 0, false, [])
  }

  function Discards(held: seq<nat>): (r: seq<Event>)
    ensures |r| == |held|
    ensures forall i | 0 <= i < |r| :: r[i] == Discarded(held[i])
  {
    if held == [] then [] else [Discarded(held[0])] + Discards(held[1..])
  }

  function WalkPast(s: Scan, id: nat): Scan {
    s.(cursor := if s.held == [] then id else s.cursor, scanCursor := id)
  }

  function React(s: Scan, id: nat, verdict: Verdict, uniformLimit: nat): Scan {
    var t := s.(calls := s.calls + 1, trace := s.trace + [Delivered(id, verdict)]);
    match verdict
    case Unavailable => t.(halted := true)
    case Candidate =>
      var held := Including(t.held, id);
      t.(held := held, scanCursor := id, halted := |held| >= uniformLimit)
    case Skip => WalkPast(t, id).(skipped := t.skipped + 1)
    case Duplicate => WalkPast(t, id).(duplicates := t.duplicates + 1)
    case Acked =>
      var proven := Without(t.held, id);
      t.(trace := t.trace + Discards(proven), discarded := t.discarded + |proven|, held := [],
         cursor := id, scanCursor := id, delivered := t.delivered + 1)
  }

  /** One iteration of the loop over a page. */
  function Process(s: Scan, m: Message, deliver: Deliver, o: Options): Scan {
    if o.skipEmpty && m.blank then
      WalkPast(s, m.id).(skipped := s.skipped + 1, trace := s.trace + [PassedBlank(m.id)])
    else
      React(s, m.id, deliver(s.calls, m), o.uniformLimit)
  }

  function ProcessAll(s: Scan, batch: seq<Message>, deliver: Deliver, o: Options): Scan
    decreases |batch|
  {
    if s.halted || batch == [] then s
    else ProcessAll(Process(s, batch[0], deliver, o), batch[1..], deliver, o)
  }

  // ----- Normalising a page: numeric sort of the messages above the scan cursor. -----

  predicate ById(m: Message, n: Message) {
    m.id <= n.id
  }

  function SortById(s: seq<Message>): seq<Message> {
    SortBy(s, ById)
  }

  function Normalized(raw: seq<Message>, after: nat): seq<Message> {
    SortById(Filter(raw, (m: Message) => m.id > after))
  }

  // ----- The paging loop. -----

  function Report(s: Scan, truncated: bool, failed: bool, fetchError: Option<bool>): Outcome {
    Outcome(s.cursor, s.delivered, s.duplicates, s.skipped, s.discarded, |s.held|, truncated, failed, fetchError)
  }

  function Close(s: Scan, truncated: bool, failed: bool, fetchError: Option<bool>): (Outcome, seq<Event>) {
    (Report(s, truncated, failed, fetchError), s.trace)
  }

  function Pages(s: Scan, page: nat, history: History, deliver: Deliver, o: Options): (Outcome, seq<Event>)
    requires page <= o.maxPages
    decreases o.maxPages - page
  {
    if page == o.maxPages then Close(s, true, s.held != [], None)
    else
      match history(page, s.scanCursor)
      case Unreadable(permanent) => Close(s, false, true, Some(permanent))
      case Page(raw) =>
        var batch := Normalized(raw, s.scanCursor);
        if batch == [] then Close(s, |raw| >= o.pageLimit, s.held != [], None)
        else
          var t := ProcessAll(s, batch, deliver, o);
          if t.halted then Close(t, false, true, None)
          else if |batch| < o.pageLimit then Close(t, false, t.held != [], None)
          else Pages(t, page + 1, history, deliver, o)
  }

  function Recover(history: History, deliver: Deliver, o: Options): (Outcome, seq<Event>) {
    Pages(Begin(o.cursor), 0, history, deliver, o)
  }

  /** The body of the source's inner loop: `run` holds its local variables. */
  method HandleMessage(start: Scan, message: Message, deliver: Deliver, o: Options) returns (run: Scan)
    requires !start.halted
    ensures run == Process(start, message, deliver, o)
  {
    run := start;
    if o.skipEmpty && message.blank {
      if |run.held| == 0 { run := run.(cursor := message.id); }
      run := run.(scanCursor := message.id, skipped := run.skipped + 1, trace := run.trace + [PassedBlank(message.id)]);
      return;
    }
    var verdict := deliver(run.calls, message);
    run := run.(calls := run.calls + 1, trace := run.trace + [Delivered(message.id, verdict)]);
    if verdict == Unavailable {
      run := run.(halted := true);
    } else if verdict == Candidate {
      run := run.(held := Including(run.held, message.id), scanCursor := message.id);
      if |run.held| >= o.uniformLimit { run := run.(halted := true); }
    } else if verdict == Skip || verdict == Duplicate {
      run := run.(scanCursor := message.id);
      if |run.held| == 0 { run := run.(cursor := message.id); }
      if verdict == Duplicate {
        run := run.(duplicates := run.duplicates + 1);
      } else {
        run := run.(skipped := run.skipped + 1);
      }
    } else {
      var proven := run.(held := Without(run.held, message.id));
      run := CommitHeld(proven);
      run := run.(cursor := message.id, scanCursor := message.id, delivered := run.delivered + 1);
    }
  }

  /** The source's inner loop. */
  method ReplayPage(start: Scan, batch: seq<Message>, deliver: Deliver, o: Options) returns (run: Scan)
    requires !start.halted
    ensures run == ProcessAll(start, batch, deliver, o)
  {
    run := start;
    var i := 0;
    while i < |batch| && !run.halted
      invariant 0 <= i <= |batch|
      invariant ProcessAll(start, batch, deliver, o) == ProcessAll(run, batch[i..], deliver, o)
    {
      assert batch[i..][0] == batch[i] && batch[i..][1..] == batch[i + 1..];
      run := HandleMessage(run, batch[i], deliver, o);
      i := i + 1;
    }
  }

  /** `commitHeld`: `onDiscard` for every held candidate, in the order they were held. */
  method CommitHeld(start: Scan) returns (run: Scan)
    ensures run == start.(trace := start.trace + Discards(start.held),
                          discarded := start.discarded + |start.held|, held := [])
  {
    run := start;
    ghost var all := Discards(start.held);
    var i := 0;
    while i < |start.held|
      invariant 0 <= i <= |start.held|
      invariant run.trace == start.trace + all[..i]
      invariant run == start.(trace := run.trace, discarded := start.discarded + i)
    {
      assert start.trace + all[..i + 1] == run.trace + [Discarded(start.held[i])];
      run := run.(trace := run.trace + [Discarded(start.held[i])], discarded := run.discarded + 1);
      i := i + 1;
    }
    assert all[..i] == all;
    run := run.(held := []);
  }

  /** The source's paging loop. */
  method RecoverConversation(history: History, deliver: Deliver, o: Options)
    returns (outcome: Outcome, trace: seq<Event>)
    ensures (outcome, trace) == Recover(history, deliver, o)
  {
    var run := Begin(o.cursor);
    var page := 0;
    while page < o.maxPages
      invariant page <= o.maxPages
      invariant !run.halted
      invariant Recover(history, deliver, o) == Pages(run, page, history, deliver, o)
    {
      var fetched := history(page, run.scanCursor);
      if fetched.Unreadable? {
        return Report(run, false, true, Some(fetched.permanent)), run.trace;
      }
      var rawBatch := fetched.messages;
      var batch := Filter(rawBatch, (m: Message) => m.id > run.scanCursor);
      if |rawBatch| >= o.pageLimit && |batch| == 0 {
        return Report(run, true, |run.held| > 0, None), run.trace;
      }
      batch := SortById(batch);
      if |batch| == 0 {
        return Report(run, false, |run.held| > 0, None), run.trace;
      }
      run := ReplayPage(run, batch, deliver, o);
      if run.halted {
        return Report(run, false, true, None), run.trace;
      }
      if |batch| < o.pageLimit {
        return Report(run, false, |run.held| > 0, None), run.trace;
      }
      page := page + 1;
    }
    return Report(run, true, |run.held| > 0, None), run.trace;
  }
}
