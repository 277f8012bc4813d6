/**
 What one Discord recovery run promises for every answer of the history port and of the
 gateway: discards need evidence, counters tell the truth, and paging is unobservable.
 */
module DiscordScanLaws {
  import opened Collections
  import opened DiscordScan

  // ----- Sorting -----

  ghost predicate Ascending(s: seq<Message>) {
    forall i, j :: 0 <= i < j < |s| ==> s[i].id <= s[j].id
  }

  ghost predicate StrictlyAscending(s: seq<Message>) {
    forall i, j :: 0 <= i < j < |s| ==> s[i].id < s[j].id
  }

  lemma SortAscends(s: seq<Message>)
    ensures Ascending(SortById(s))
  {
    SortBySorts(s, ById);
    assert SortedBy(SortById(s), ById);
    assert forall i, j :: 0 <= i < j < |SortById(s)| ==> ById(SortById(s)[i], SortById(s)[j]);
  }

  lemma NormalizedIsAbove(raw: seq<Message>, after: nat)
    ensures Ascending(Normalized(raw, after))
    ensures forall m :: m in Normalized(raw, after) <==> m in raw && m.id > after
  {
    SortAscends(Filter(raw, (m: Message) => m.id > after));
  }

  // ----- Evidence -----

  /** Trace position `i` is a discard backed by `k`, its own failure, and `j`, a later id's fresh ack. */
  ghost predicate Backed(trace: seq<Event>, i: nat, j: nat, k: nat)
    requires i < |trace|
  {
    && k < j < i
    && trace[k] == Delivered(trace[i].id, Candidate)
    && trace[j].Delivered? && trace[j].verdict == Acked && trace[j].id > trace[i].id
  }

  /**
   A discard has its backing and a higher id than every discard before it, so `onDiscard` fires
   at most once per id; deliveries come in ascending id order.
   */
  ghost predicate EventOk(trace: seq<Event>, i: nat)
    requires i < |trace|
  {
    match trace[i]
    case Discarded(id) =>
      && (exists j, k :: Backed(trace, i, j, k))
      && (forall j | 0 <= j < i && trace[j].Discarded? :: trace[j].id < id)
    case Delivered(id, _) => forall j | 0 <= j < i && trace[j].Delivered? :: trace[j].id <= id
    case PassedBlank(_) => true
  }

  ghost predicate Lawful(trace: seq<Event>) {
    forall i {:trigger EventOk(trace, i)} | 0 <= i < |trace| :: EventOk(trace, i)
  }

  datatype Tally = Tally(acked: nat, duplicates: nat, skipped: nat, discarded: nat)

  function Tallied(t: Tally, e: Event): Tally {
    match e
    case Discarded(_) => t.(discarded := t.discarded + 1)
    case PassedBlank(_) => t.(skipped := t.skipped + 1)
    case Delivered(_, Acked) => t.(acked := t.acked + 1)
    case Delivered(_, Duplicate) => t.(duplicates := t.duplicates + 1)
    case Delivered(_, Skip) => t.(skipped := t.skipped + 1)
    case Delivered(_, _) => t
  }

  function Counted(trace: seq<Event>): Tally {
    if trace == [] then Tally(0, 0, 0, 0) else Tallied(Counted(trace[..|trace| - 1]), trace[|trace| - 1])
  }

  lemma CountSnoc(trace: seq<Event>, e: Event)
    ensures Counted(trace + [e]) == Tallied(Counted(trace), e)
  {
    assert (trace + [e])[..|trace + [e]| - 1] == trace;
  }

  /** At most this many candidates are ever held while a run goes on. */
  function HeldBound(uniformLimit: nat): nat {
    Max(uniformLimit, 1) - 1
  }

  /** The most discards `acks` fresh acks can commit. */
  function Allowance(bound: nat, acks: nat): nat {
    if acks == 0 then 0 else bound + Allowance(bound, acks - 1)
  }

  lemma {:induction false} AllowanceIsProduct(bound: nat, acks: nat)
    ensures Allowance(bound, acks) == bound * acks
  {
    if acks > 0 { AllowanceIsProduct(bound, acks - 1); }
  }

  ghost predicate EventFine(trace: seq<Event>, i: nat, cursor: nat, seen: nat)
    requires i < |trace|
  {
    EventOk(trace, i) && trace[i].id <= seen && (trace[i].Discarded? ==> trace[i].id < cursor)
  }

  ghost predicate SoundTrace(trace: seq<Event>, cursor: nat, seen: nat) {
    forall i {:trigger EventFine(trace, i, cursor, seen)} | 0 <= i < |trace| :: EventFine(trace, i, cursor, seen)
  }

  /** The highest id the trace can mention: the message that stopped the run, or the scan cursor. */
  function Seen(s: Scan): nat {
    if s.halted && s.trace != [] then Max(s.scanCursor, s.trace[|s.trace| - 1].id) else s.scanCursor
  }

  ghost predicate SoundHeld(s: Scan) {
    && s.cursor <= s.scanCursor
    && (forall id | id in s.held :: s.cursor <= id <= s.scanCursor && Delivered(id, Candidate) in s.trace)
    && Rising(s.held)
  }

  ghost predicate Rising(s: seq<nat>) {
    s == [] || ((forall y | y in s[1..] :: s[0] < y) && Rising(s[1..]))
  }

  ghost predicate SoundCounts(s: Scan, bound: nat) {
    && Counted(s.trace) == Tally(s.delivered, s.duplicates, s.skipped, s.discarded)
    && s.discarded <= Allowance(bound, s.delivered)
    && (!s.halted ==> |s.held| <= bound)
  }

  ghost predicate Sound(s: Scan, o: Options) {
    && SoundTrace(s.trace, s.cursor, Seen(s))
    && SoundHeld(s)
    && SoundCounts(s, HeldBound(o.uniformLimit))
  }

  lemma DiscardsCons(trace: seq<Event>, held: seq<nat>)
    requires held != []
    ensures trace + Discards(held) == (trace + [Discarded(held[0])]) + Discards(held[1..])
  {}

  lemma {:induction false} CountDiscards(trace: seq<Event>, held: seq<nat>)
    ensures Counted(trace + Discards(held)) ==
            Counted(trace).(discarded := Counted(trace).discarded + |held|)
    decreases |held|
  {
    if held == [] {
      assert trace + Discards(held) == trace;
    } else {
      var e := Discarded(held[0]);
      CountSnoc(trace, e);
      CountDiscards(trace + [e], held[1..]);
      DiscardsCons(trace, held);
    }
  }

  lemma EventStaysOk(trace: seq<Event>, e: Event, i: nat)
    requires i < |trace| && EventOk(trace, i)
    ensures EventOk(trace + [e], i)
  {
    var t := trace + [e];
    assert t[i] == trace[i];
    if trace[i].Discarded? {
      var j, k :| Backed(trace, i, j, k);
      assert Backed(t, i, j, k);
      assert forall j | 0 <= j < i :: t[j] == trace[j];
    }
  }

  lemma TraceExtends(trace: seq<Event>, cursor: nat, seen: nat, e: Event, cursor': nat, seen': nat)
    requires SoundTrace(trace, cursor, seen) && cursor <= cursor' && seen <= seen'
    requires EventFine(trace + [e], |trace|, cursor', seen')
    ensures SoundTrace(trace + [e], cursor', seen')
  {
    var t := trace + [e];
    forall i | 0 <= i < |t|
      ensures EventFine(t, i, cursor', seen')
    {
      if i < |trace| {
        assert EventFine(trace, i, cursor, seen);
        EventStaysOk(trace, e, i);
      }
    }
  }

  /** Appending an event that is no discard, of an id no lower than any seen. */
  lemma TraceGrows(trace: seq<Event>, cursor: nat, seen: nat, e: Event, cursor': nat)
    requires SoundTrace(trace, cursor, seen) && !e.Discarded? && e.id >= seen && cursor' >= cursor
    ensures SoundTrace(trace + [e], cursor', e.id)
  {
    var t := trace + [e];
    forall j | 0 <= j < |trace|
      ensures t[j].id <= e.id
    {
      assert EventFine(trace, j, cursor, seen);
    }
    TraceExtends(trace, cursor, seen, e, cursor', e.id);
  }

  /** Committing one candidate, held since before the ack at position `a`. */
  lemma CommitOne(trace: seq<Event>, id: nat, a: nat, acked: nat)
    requires SoundTrace(trace, acked, acked) && a < |trace| && trace[a] == Delivered(acked, Acked)
    requires id < acked && Delivered(id, Candidate) in trace[..a]
    requires forall i | 0 <= i < |trace| && trace[i].Discarded? :: trace[i].id < id
    ensures SoundTrace(trace + [Discarded(id)], acked, acked)
  {
    var t := trace + [Discarded(id)];
    var k :| 0 <= k < a && trace[..a][k] == Delivered(id, Candidate);
    assert t[|trace|] == Discarded(id) && t[k] == trace[k] && t[a] == trace[a];
    assert Backed(t, |trace|, a, k);
    assert forall j | 0 <= j < |trace| :: t[j] == trace[j];
    assert EventFine(t, |trace|, acked, acked);
    TraceExtends(trace, acked, acked, Discarded(id), acked, acked);
  }

  /** Committing held candidates after the ack at position `a`, one by one. */
  lemma {:induction false} TraceCommits(trace: seq<Event>, held: seq<nat>, a: nat, acked: nat)
    requires SoundTrace(trace, acked, acked) && Rising(held)
    requires a < |trace| && trace[a] == Delivered(acked, Acked)
    requires forall id | id in held :: id < acked && Delivered(id, Candidate) in trace[..a]
    requires forall i, id | 0 <= i < |trace| && trace[i].Discarded? && id in held :: trace[i].id < id
    ensures SoundTrace(trace + Discards(held), acked, acked)
    decreases |held|
  {
    if held == [] {
      assert trace + Discards(held) == trace;
    } else {
      var t := trace + [Discarded(held[0])];
      assert held[0] in held;
      CommitOne(trace, held[0], a, acked);
      assert t[..a] == trace[..a];
      assert forall y | y in held[1..] :: y in held;
      TraceCommits(t, held[1..], a, acked);
      DiscardsCons(trace, held);
    }
  }

  lemma {:induction false} WithoutRises(s: seq<nat>, x: nat)
    requires Rising(s)
    ensures Rising(Without(s, x))
  {
    if s != [] {
      WithoutRises(s[1..], x);
      assert s[0] != x ==> Without(s, x)[1..] == Without(s[1..], x);
    }
  }

  lemma {:induction false} SnocRises(s: seq<nat>, x: nat)
    requires Rising(s) && forall y | y in s :: y < x
    ensures Rising(s + [x])
  {
    if s != [] {
      assert forall y | y in s[1..] :: y in s;
      SnocRises(s[1..], x);
      assert (s + [x])[1..] == s[1..] + [x];
      assert s[0] in s;
    }
  }

  lemma AckCounts(trace: seq<Event>, id: nat, proven: seq<nat>)
    ensures var t := Counted(trace);
            Counted(trace + [Delivered(id, Acked)] + Discards(proven)) ==
            t.(acked := t.acked + 1, discarded := t.discarded + |proven|)
  {
    CountSnoc(trace, Delivered(id, Acked));
    CountDiscards(trace + [Delivered(id, Acked)], proven);
  }

  lemma AckTraceIsSound(s: Scan, id: nat)
    requires SoundTrace(s.trace, s.cursor, s.scanCursor) && SoundHeld(s) && id >= s.scanCursor
    ensures SoundTrace(s.trace + [Delivered(id, Acked)] + Discards(Without(s.held, id)), id, id)
  {
    var proven := Without(s.held, id);
    var acked := s.trace + [Delivered(id, Acked)];
    WithoutRises(s.held, id);
    TraceGrows(s.trace, s.cursor, s.scanCursor, Delivered(id, Acked), id);
    assert acked[..|s.trace|] == s.trace;
    forall i, h | 0 <= i < |acked| && acked[i].Discarded? && h in proven
      ensures acked[i].id < h
    {
      assert EventFine(s.trace, i, s.cursor, s.scanCursor);
    }
    TraceCommits(acked, proven, |s.trace|, id);
  }

  /** The run after a fresh ack, in terms of what was held and not the message itself. */
  lemma AckFacts(s: Scan, id: nat, uniformLimit: nat) returns (t: Scan, proven: seq<nat>)
    ensures t == React(s, id, Acked, uniformLimit) && proven == Without(s.held, id)
    ensures t.trace == s.trace + [Delivered(id, Acked)] + Discards(proven)
    ensures t.held == [] && t.cursor == t.scanCursor == id && t.halted == s.halted
    ensures t.delivered == s.delivered + 1 && t.discarded == s.discarded + |proven|
    ensures t.duplicates == s.duplicates && t.skipped == s.skipped && |proven| <= |s.held|
  {
    t, proven := React(s, id, Acked, uniformLimit), Without(s.held, id);
  }

  lemma AckCountsAreSound(s: Scan, t: Scan, proven: nat, bound: nat)
    requires SoundCounts(s, bound) && !s.halted && proven <= |s.held| && t.held == []
    requires Counted(t.trace) == Counted(s.trace).(
               acked := Counted(s.trace).acked + 1, discarded := Counted(s.trace).discarded + proven)
    requires t.delivered == s.delivered + 1 && t.discarded == s.discarded + proven
    requires t.duplicates == s.duplicates && t.skipped == s.skipped
    ensures SoundCounts(t, bound)
  {
    assert Allowance(bound, t.delivered) == bound + Allowance(bound, s.delivered);
  }

  lemma AckIsSound(s: Scan, id: nat, o: Options)
    requires Sound(s, o) && !s.halted && id >= s.scanCursor
    ensures Sound(React(s, id, Acked, o.uniformLimit), o)
  {
    var t, proven := AckFacts(s, id, o.uniformLimit);
    AckTraceIsSound(s, id);
    AckCounts(s.trace, id, proven);
    AckCountsAreSound(s, t, |proven|, HeldBound(o.uniformLimit));
  }

  lemma HeldStaysSound(s: Scan, t: Scan, e: Event, id: nat)
    requires SoundHeld(s) && t.trace == s.trace + [e]
    requires t.cursor == s.cursor || (s.held == [] && t.cursor == t.scanCursor)
    requires t.scanCursor >= s.scanCursor
    requires || t.held == s.held
             || (t.held == Including(s.held, id) && e == Delivered(id, Candidate) && t.scanCursor == id)
    ensures SoundHeld(t)
  {
    assert forall x | x in s.trace :: x in t.trace;
    assert e in t.trace;
    if id !in s.held && t.held != s.held {
      SnocRises(s.held, id);
    }
  }

  lemma CountsStaySound(s: Scan, t: Scan, e: Event, bound: nat)
    requires SoundCounts(s, bound) && !s.halted && t.trace == s.trace + [e]
    requires Tally(t.delivered, t.duplicates, t.skipped, t.discarded) ==
             Tallied(Tally(s.delivered, s.duplicates, s.skipped, s.discarded), e)
    requires t.delivered == s.delivered && t.discarded == s.discarded && (!t.halted ==> |t.held| <= bound)
    ensures SoundCounts(t, bound)
  {
    CountSnoc(s.trace, e);
  }

  /** Everything but a fresh ack appends one event that is no discard, and tallies it. */
  lemma ProcessFacts(s: Scan, m: Message, deliver: Deliver, o: Options) returns (t: Scan, e: Event)
    requires !s.halted && m.id >= s.scanCursor >= s.cursor
    requires (o.skipEmpty && m.blank) || deliver(s.calls, m) != Acked
    ensures t == Process(s, m, deliver, o)
    ensures t.trace == s.trace + [e] && !e.Discarded? && e.id == m.id
    ensures t.cursor == s.cursor || (s.held == [] && t.cursor == t.scanCursor)
    ensures s.cursor <= t.cursor && s.scanCursor <= t.scanCursor <= m.id
    ensures || t.held == s.held
            || (t.held == Including(s.held, m.id) && e == Delivered(m.id, Candidate) && t.scanCursor == m.id)
    ensures Tally(t.delivered, t.duplicates, t.skipped, t.discarded) ==
            Tallied(Tally(s.delivered, s.duplicates, s.skipped, s.discarded), e)
    ensures t.delivered == s.delivered && t.discarded == s.discarded
    ensures !t.halted ==> t.held == s.held || |t.held| < o.uniformLimit
    ensures t.halted || t.scanCursor == m.id
  {
    t := Process(s, m, deliver, o);
    e := if o.skipEmpty && m.blank then PassedBlank(m.id) else Delivered(m.id, deliver(s.calls, m));
  }

  lemma StepIsSound(s: Scan, t: Scan, e: Event, id: nat, o: Options)
    requires Sound(s, o) && !s.halted && id >= s.scanCursor
    requires t.trace == s.trace + [e] && !e.Discarded? && e.id == id
    requires t.cursor == s.cursor || (s.held == [] && t.cursor == t.scanCursor)
    requires s.cursor <= t.cursor && s.scanCursor <= t.scanCursor <= id
    requires || t.held == s.held
             || (t.held == Including(s.held, id) && e == Delivered(id, Candidate) && t.scanCursor == id)
    requires Tally(t.delivered, t.duplicates, t.skipped, t.discarded) ==
             Tallied(Tally(s.delivered, s.duplicates, s.skipped, s.discarded), e)
    requires t.delivered == s.delivered && t.discarded == s.discarded
    requires !t.halted ==> t.held == s.held || |t.held| < o.uniformLimit
    requires t.halted || t.scanCursor == id
    ensures Sound(t, o)
  {
    assert t.trace[|t.trace| - 1] == e;
    TraceGrows(s.trace, s.cursor, s.scanCursor, e, t.cursor);
    HeldStaysSound(s, t, e, id);
    CountsStaySound(s, t, e, HeldBound(o.uniformLimit));
  }

  lemma ProcessIsSound(s: Scan, m: Message, deliver: Deliver, o: Options) returns (t: Scan)
    requires Sound(s, o) && !s.halted && m.id >= s.scanCursor
    ensures t == Process(s, m, deliver, o)
    ensures Sound(t, o) && t.scanCursor <= m.id
  {
    if (o.skipEmpty && m.blank) || deliver(s.calls, m) != Acked {
      var e;
      t, e := ProcessFacts(s, m, deliver, o);
      StepIsSound(s, t, e, m.id, o);
    } else {
      t := React(s, m.id, Acked, o.uniformLimit);
      AckIsSound(s, m.id, o);
    }
  }

  lemma {:induction false} ProcessAllIsSound(s: Scan, batch: seq<Message>, deliver: Deliver, o: Options)
    requires Sound(s, o) && Ascending(batch)
    requires forall m | m in batch :: m.id >= s.scanCursor
    ensures Sound(ProcessAll(s, batch, deliver, o), o)
    decreases |batch|
  {
    if !s.halted && batch != [] {
      var t := ProcessIsSound(s, batch[0], deliver, o);
      assert forall m | m in batch[1..] :: m.id >= batch[0].id;
      ProcessAllIsSound(t, batch[1..], deliver, o);
    }
  }

  lemma {:induction false} PagesAreSound(s: Scan, page: nat, history: History, deliver: Deliver, o: Options)
    returns (last: Scan)
    requires page <= o.maxPages && Sound(s, o)
    ensures Sound(last, o)
    ensures var (r, trace) := Pages(s, page, history, deliver, o);
            r == Report(last, r.truncated, r.failed, r.fetchError) && trace == last.trace
    decreases o.maxPages - page
  {
    last := s;
    if page < o.maxPages && history(page, s.scanCursor).Page? {
      var batch := Normalized(history(page, s.scanCursor).messages, s.scanCursor);
      NormalizedIsAbove(history(page, s.scanCursor).messages, s.scanCursor);
      if batch != [] {
        ProcessAllIsSound(s, batch, deliver, o);
        last := ProcessAll(s, batch, deliver, o);
        if !last.halted && |batch| >= o.pageLimit {
          last := PagesAreSound(last, page + 1, history, deliver, o);
        }
      }
    }
  }

  lemma SoundIsLawful(trace: seq<Event>, cursor: nat, seen: nat)
    requires SoundTrace(trace, cursor, seen)
    ensures Lawful(trace)
  {
    forall i | 0 <= i < |trace| ensures EventOk(trace, i) {
      assert EventFine(trace, i, cursor, seen);
    }
  }

  /**
   Discards need evidence, whatever the port and the gateway answer: every committed discard
   follows its own failure and a fresh ack of a later id, `onDiscard` fires at most once per
   id, and a run discards at most `uniformLimit - 1` messages per fresh ack, so a run with no
   ack discards nothing.
   */
  lemma DiscardsNeedEvidence(history: History, deliver: Deliver, o: Options)
    ensures var (r, trace) := Recover(history, deliver, o);
            && Lawful(trace)
            && Counted(trace) == Tally(r.delivered, r.duplicates, r.skipped, r.discarded)
            && r.discarded <= HeldBound(o.uniformLimit) * r.delivered
            && (r.delivered == 0 ==> r.discarded == 0)
  {
    var last := PagesAreSound(Begin(o.cursor), 0, history, deliver, o);
    AllowanceIsProduct(HeldBound(o.uniformLimit), last.delivered);
    SoundIsLawful(last.trace, last.cursor, Seen(last));
  }

  /** The run was stopped by an unavailable delivery, or by candidates piling up. */
  ghost predicate Stopped(trace: seq<Event>) {
    trace != [] && trace[|trace| - 1].Delivered? && trace[|trace| - 1].verdict in {Unavailable, Candidate}
  }

  /** A run stopped by the gateway is halted, or holds the candidate at hand. */
  ghost predicate Stops(s: Scan) {
    (s.halted ==> Stopped(s.trace)) && (Stopped(s.trace) ==> s.halted || s.held != [])
  }

  lemma {:induction false} HaltingShows(s: Scan, batch: seq<Message>, deliver: Deliver, o: Options)
    requires Stops(s)
    ensures Stops(ProcessAll(s, batch, deliver, o))
    decreases |batch|
  {
    if !s.halted && batch != [] {
      HaltingShows(Process(s, batch[0], deliver, o), batch[1..], deliver, o);
    }
  }

  /** A run reports failure when it holds candidates, when it was stopped, and when a fetch failed, and then only. */
  ghost predicate HonestReport(r: Outcome, trace: seq<Event>) {
    && (r.failed <==> r.held > 0 || r.fetchError.Some? || Stopped(trace))
    && (r.fetchError.Some? ==> !r.truncated)
  }

  lemma {:induction false} PagesReportHonestly(s: Scan, page: nat, history: History, deliver: Deliver, o: Options)
    requires page <= o.maxPages && !s.halted && Stops(s)
    ensures var (r, trace) := Pages(s, page, history, deliver, o); HonestReport(r, trace)
    decreases o.maxPages - page
  {
    if page < o.maxPages && history(page, s.scanCursor).Page? {
      var batch := Normalized(history(page, s.scanCursor).messages, s.scanCursor);
      var t := ProcessAll(s, batch, deliver, o);
      HaltingShows(s, batch, deliver, o);
      if batch != [] && !t.halted && |batch| >= o.pageLimit {
        PagesReportHonestly(t, page + 1, history, deliver, o);
      }
    }
  }

  /**
   No run with work left over reports success: it fails exactly when candidates are held, a
   fetch failed, or the gateway stopped it; and a run whose fetch failed never claims to be
   merely truncated.
   */
  lemma FailuresAreReported(history: History, deliver: Deliver, o: Options)
    ensures var (r, trace) := Recover(history, deliver, o); HonestReport(r, trace)
  {
    PagesReportHonestly(Begin(o.cursor), 0, history, deliver, o);
  }

  // ----- Paging is unobservable -----

  /** The messages after an anchor, in an ascending history. */
  function Above(h: seq<Message>, after: nat): (r: seq<Message>)
    ensures |r| <= |h|
  {
    if h == [] || h[0].id > after then h else Above(h[1..], after)
  }

  lemma {:induction false} AboveIsFilter(h: seq<Message>, after: nat)
    requires StrictlyAscending(h)
    ensures StrictlyAscending(Above(h, after))
    ensures forall m :: m in Above(h, after) <==> m in h && m.id > after
  {
    if h != [] {
      if h[0].id <= after { AboveIsFilter(h[1..], after); }
      assert h == [h[0]] + h[1..];
    }
  }

  /** Above the last message of a prefix lies exactly the rest. */
  lemma {:induction false} AbovePrefix(h: seq<Message>, n: nat, after: nat)
    requires StrictlyAscending(h) && 0 < n <= |Above(h, after)|
    ensures Above(h, Above(h, after)[n - 1].id) == Above(h, after)[n..]
  {
    if h[0].id <= after {
      AbovePrefix(h[1..], n, after);
      AboveIsFilter(h[1..], after);
      assert Above(h, after)[n - 1] in Above(h, after);
    } else if n == 1 {
      if |h| > 1 { assert h[1..][0].id > h[0].id; }
      assert Above(h, h[0].id) == Above(h[1..], h[0].id) == h[1..];
    } else {
      assert Above(h[1..], after) == h[1..];
      AbovePrefix(h[1..], n - 1, after);
      assert h[1..][n - 2] == h[n - 1];
    }
  }

  /** The port answers with the oldest `limit` messages after the anchor, in any order. */
  ghost predicate Honest(h: seq<Message>, history: History, limit: nat) {
    forall page, after :: Serves(h, history, limit, page, after)
  }

  ghost predicate Serves(h: seq<Message>, history: History, limit: nat, page: nat, after: nat) {
    && history(page, after).Page?
    && var gap := Above(h, after);
       multiset(history(page, after).messages) == multiset(gap[..Min(limit, |gap|)])
  }

  lemma {:induction false} SameMessagesSortAlike(s: seq<Message>, t: seq<Message>)
    requires multiset(s) == multiset(t) && Ascending(s) && StrictlyAscending(t)
    ensures s == t
  {
    assert |multiset(s)| == |multiset(t)|;
    if t != [] {
      assert s[0] in multiset(t) && t[0] in multiset(s);
      assert s == [s[0]] + s[1..] && t == [t[0]] + t[1..];
      assert s[0].id <= t[0].id && s[0] in t;
      assert multiset(s[1..]) == multiset(s) - multiset{s[0]};
      assert multiset(t[1..]) == multiset(t) - multiset{t[0]};
      SameMessagesSortAlike(s[1..], t[1..]);
    }
  }

  lemma HonestPageIsTheOldest(h: seq<Message>, raw: seq<Message>, limit: nat, after: nat)
    requires StrictlyAscending(h)
    requires multiset(raw) == multiset(Above(h, after)[..Min(limit, |Above(h, after)|)])
    ensures var gap := Above(h, after);
            Normalized(raw, after) == gap[..Min(limit, |gap|)] && |raw| == Min(limit, |gap|)
  {
    var gap := Above(h, after);
    var t := gap[..Min(limit, |gap|)];
    AboveIsFilter(h, after);
    assert |multiset(raw)| == |multiset(t)|;
    forall m | m in raw ensures m.id > after {
      assert m in multiset(raw);
      assert m in t;
      assert m in gap;
    }
    KeepsAll(raw, after);
    SortAscends(raw);
    SameMessagesSortAlike(SortById(raw), t);
  }

  lemma {:induction false} KeepsAll(s: seq<Message>, after: nat)
    requires forall m | m in s :: m.id > after
    ensures Filter(s, (m: Message) => m.id > after) == s
  {
    if s != [] {
      KeepsAll(s[1..], after);
      assert s[0] in s;
    }
  }

  /** The run as a single fold over the first `reach` messages of the gap, with no pages in sight. */
  function OneFold(s: Scan, gap: seq<Message>, reach: nat, deliver: Deliver, o: Options): (Outcome, seq<Event>) {
    var t := ProcessAll(s, gap[..Min(reach, |gap|)], deliver, o);
    if t.halted then Close(t, false, true, None) else Close(t, |gap| >= reach, t.held != [], None)
  }

  lemma {:induction false} ProcessAllSplits(s: Scan, a: seq<Message>, b: seq<Message>, deliver: Deliver, o: Options)
    ensures ProcessAll(s, a + b, deliver, o) == ProcessAll(ProcessAll(s, a, deliver, o), b, deliver, o)
    decreases |a|
  {
    if a == [] {
      assert a + b == b;
    } else if !s.halted {
      assert (a + b)[1..] == a[1..] + b;
      ProcessAllSplits(Process(s, a[0], deliver, o), a[1..], b, deliver, o);
    }
  }

  lemma {:induction false} ScanCursorFollows(s: Scan, batch: seq<Message>, deliver: Deliver, o: Options)
    requires batch != [] && !s.halted && !ProcessAll(s, batch, deliver, o).halted
    ensures ProcessAll(s, batch, deliver, o).scanCursor == batch[|batch| - 1].id
    decreases |batch|
  {
    var t := Process(s, batch[0], deliver, o);
    if t.halted {
    } else if |batch| == 1 {
      assert t.scanCursor == batch[0].id;
    } else {
      ScanCursorFollows(t, batch[1..], deliver, o);
    }
  }

  /** `pages * limit`, one page at a time. */
  function Reach(pages: nat, limit: nat): nat {
    if pages == 0 then 0 else limit + Reach(pages - 1, limit)
  }

  lemma {:induction false} ReachIsProduct(pages: nat, limit: nat)
    ensures Reach(pages, limit) == pages * limit
  {
    if pages > 0 { ReachIsProduct(pages - 1, limit); }
  }

  /** One honest page: the run ends here, or goes on above the page's last message. */
  lemma OnePage(
    s: Scan, page: nat, gap: seq<Message>, batch: seq<Message>, h: seq<Message>,
    history: History, deliver: Deliver, o: Options)
    requires StrictlyAscending(h) && Serves(h, history, o.pageLimit, page, s.scanCursor)
    requires gap == Above(h, s.scanCursor) && batch == gap[..Min(o.pageLimit, |gap|)]
    requires page < o.maxPages && o.pageLimit > 0 && !s.halted
    ensures var t := ProcessAll(s, batch, deliver, o);
            Pages(s, page, history, deliver, o) ==
            if |gap| < o.pageLimit || t.halted then OneFold(s, gap, o.pageLimit, deliver, o)
            else Pages(t, page + 1, history, deliver, o)
  {
    HonestPageIsTheOldest(h, history(page, s.scanCursor).messages, o.pageLimit, s.scanCursor);
  }

  lemma OneFoldSplits(
    s: Scan, gap: seq<Message>, batch: seq<Message>, rest: seq<Message>, limit: nat, more: nat,
    deliver: Deliver, o: Options)
    requires batch == gap[..Min(limit, |gap|)] && rest == gap[Min(limit, |gap|)..]
    ensures var t := ProcessAll(s, batch, deliver, o);
            OneFold(s, gap, limit + more, deliver, o) ==
            if |gap| < limit || t.halted then OneFold(s, gap, limit, deliver, o)
            else OneFold(t, rest, more, deliver, o)
  {
    if |gap| < limit {
      assert gap[..|gap|] == gap;
    } else {
      var window := rest[..Min(more, |rest|)];
      assert gap[..Min(limit + more, |gap|)] == batch + window;
      ProcessAllSplits(s, batch, window, deliver, o);
    }
  }

  /** After a full page the run goes on above its last message, which is where the rest of the gap lies. */
  lemma RestOfGap(
    s: Scan, gap: seq<Message>, batch: seq<Message>, rest: seq<Message>, limit: nat, h: seq<Message>,
    deliver: Deliver, o: Options)
    requires StrictlyAscending(h) && gap == Above(h, s.scanCursor) && 0 < limit <= |gap| && !s.halted
    requires batch == gap[..limit] && rest == gap[limit..]
    ensures var t := ProcessAll(s, batch, deliver, o);
            !t.halted ==> Above(h, t.scanCursor) == rest
  {
    if !ProcessAll(s, batch, deliver, o).halted {
      ScanCursorFollows(s, batch, deliver, o);
      AbovePrefix(h, limit, s.scanCursor);
    }
  }

  /** Whether the run ends on the page at hand. */
  predicate EndsOn(s: Scan, gap: seq<Message>, deliver: Deliver, o: Options) {
    |gap| < o.pageLimit || ProcessAll(s, gap[..o.pageLimit], deliver, o).halted
  }

  lemma PagesEnd(
    s: Scan, page: nat, gap: seq<Message>, h: seq<Message>, history: History, deliver: Deliver, o: Options)
    requires StrictlyAscending(h) && gap == Above(h, s.scanCursor)
    requires Serves(h, history, o.pageLimit, page, s.scanCursor)
    requires page < o.maxPages && o.pageLimit > 0 && !s.halted
    requires EndsOn(s, gap, deliver, o)
    ensures Pages(s, page, history, deliver, o) == OneFold(s, gap, o.pageLimit, deliver, o)
  {
    OnePage(s, page, gap, gap[..Min(o.pageLimit, |gap|)], h, history, deliver, o);
  }

  lemma FoldEnds(s: Scan, gap: seq<Message>, deliver: Deliver, o: Options, more: nat)
    requires EndsOn(s, gap, deliver, o)
    ensures OneFold(s, gap, o.pageLimit + more, deliver, o) == OneFold(s, gap, o.pageLimit, deliver, o)
  {
    var n := Min(o.pageLimit, |gap|);
    OneFoldSplits(s, gap, gap[..n], gap[n..], o.pageLimit, more, deliver, o);
  }

  lemma LastPage(
    s: Scan, page: nat, gap: seq<Message>, h: seq<Message>, history: History, deliver: Deliver, o: Options, more: nat)
    requires StrictlyAscending(h) && gap == Above(h, s.scanCursor)
    requires Serves(h, history, o.pageLimit, page, s.scanCursor)
    requires page < o.maxPages && o.pageLimit > 0 && !s.halted
    requires EndsOn(s, gap, deliver, o)
    ensures Pages(s, page, history, deliver, o) == OneFold(s, gap, o.pageLimit + more, deliver, o)
  {
    PagesEnd(s, page, gap, h, history, deliver, o);
    FoldEnds(s, gap, deliver, o, more);
  }

  lemma PagesGoOn(
    s: Scan, page: nat, gap: seq<Message>, h: seq<Message>, history: History, deliver: Deliver, o: Options, t: Scan)
    requires StrictlyAscending(h) && gap == Above(h, s.scanCursor)
    requires Serves(h, history, o.pageLimit, page, s.scanCursor)
    requires page < o.maxPages && o.pageLimit > 0 && !s.halted
    requires |gap| >= o.pageLimit && t == ProcessAll(s, gap[..o.pageLimit], deliver, o) && !t.halted
    ensures Pages(s, page, history, deliver, o) == Pages(t, page + 1, history, deliver, o)
  {
    OnePage(s, page, gap, gap[..o.pageLimit], h, history, deliver, o);
  }

  lemma FoldGoesOn(s: Scan, gap: seq<Message>, deliver: Deliver, o: Options, more: nat, t: Scan)
    requires |gap| >= o.pageLimit && t == ProcessAll(s, gap[..o.pageLimit], deliver, o) && !t.halted
    ensures OneFold(s, gap, o.pageLimit + more, deliver, o) == OneFold(t, gap[o.pageLimit..], more, deliver, o)
  {
    OneFoldSplits(s, gap, gap[..o.pageLimit], gap[o.pageLimit..], o.pageLimit, more, deliver, o);
  }

  /** A page that does not end the run: `t` and `rest` are where it goes on. */
  lemma FullPage(
    s: Scan, page: nat, gap: seq<Message>, h: seq<Message>, history: History, deliver: Deliver, o: Options, more: nat)
    returns (t: Scan, rest: seq<Message>)
    requires StrictlyAscending(h) && gap == Above(h, s.scanCursor)
    requires Serves(h, history, o.pageLimit, page, s.scanCursor)
    requires page < o.maxPages && o.pageLimit > 0 && !s.halted
    requires !EndsOn(s, gap, deliver, o)
    ensures !t.halted && rest == Above(h, t.scanCursor)
    ensures Pages(s, page, history, deliver, o) == Pages(t, page + 1, history, deliver, o)
    ensures OneFold(s, gap, o.pageLimit + more, deliver, o) == OneFold(t, rest, more, deliver, o)
  {
    t, rest := ProcessAll(s, gap[..o.pageLimit], deliver, o), gap[o.pageLimit..];
    RestOfGap(s, gap, gap[..o.pageLimit], rest, o.pageLimit, h, deliver, o);
    PagesGoOn(s, page, gap, h, history, deliver, o, t);
    FoldGoesOn(s, gap, deliver, o, more, t);
  }

  /** The first of at least one page: either the run ends on it, or `t` and `rest` are where it goes on. */
  lemma FirstPage(
    s: Scan, page: nat, gap: seq<Message>, h: seq<Message>, history: History, deliver: Deliver, o: Options, more: nat)
    returns (ended: bool, t: Scan, rest: seq<Message>)
    requires StrictlyAscending(h) && Honest(h, history, o.pageLimit) && gap == Above(h, s.scanCursor)
    requires page < o.maxPages && o.pageLimit > 0 && !s.halted
    ensures ended ==> Pages(s, page, history, deliver, o) == OneFold(s, gap, o.pageLimit + more, deliver, o)
    ensures !ended ==>
              && !t.halted && rest == Above(h, t.scanCursor)
              && Pages(s, page, history, deliver, o) == Pages(t, page + 1, history, deliver, o)
              && OneFold(s, gap, o.pageLimit + more, deliver, o) == OneFold(t, rest, more, deliver, o)
  {
    assert Serves(h, history, o.pageLimit, page, s.scanCursor);
    ended, t, rest := EndsOn(s, gap, deliver, o), s, gap;
    if ended {
      LastPage(s, page, gap, h, history, deliver, o, more);
    } else {
      t, rest := FullPage(s, page, gap, h, history, deliver, o, more);
    }
  }

  lemma PagesDone(
    s: Scan, page: nat, gap: seq<Message>, history: History, deliver: Deliver, o: Options, reach: nat)
    requires page == o.maxPages && !s.halted && reach == Reach(o.maxPages - page, o.pageLimit)
    ensures Agree(s, page, gap, history, deliver, o, reach)
  {
    assert gap[..0] == [];
  }

  /** The pages from here on give what one fold over `reach` messages of the gap gives. */
  ghost predicate Agree(
    s: Scan, page: nat, gap: seq<Message>, history: History, deliver: Deliver, o: Options, reach: nat)
    requires page <= o.maxPages
  {
    Pages(s, page, history, deliver, o) == OneFold(s, gap, reach, deliver, o)
  }

  lemma FirstPageAgrees(
    s: Scan, page: nat, gap: seq<Message>, h: seq<Message>, history: History, deliver: Deliver, o: Options, reach: nat)
    returns (ended: bool, t: Scan, rest: seq<Message>, more: nat)
    requires StrictlyAscending(h) && Honest(h, history, o.pageLimit) && gap == Above(h, s.scanCursor)
    requires page < o.maxPages && o.pageLimit > 0 && !s.halted
    requires reach == Reach(o.maxPages - page, o.pageLimit)
    ensures more == Reach(o.maxPages - (page + 1), o.pageLimit)
    ensures ended ==> Agree(s, page, gap, history, deliver, o, reach)
    ensures !ended ==>
              && !t.halted && rest == Above(h, t.scanCursor)
              && (Agree(t, page + 1, rest, history, deliver, o, more) ==>
                    Agree(s, page, gap, history, deliver, o, reach))
  {
    more := reach - o.pageLimit;
    ended, t, rest := FirstPage(s, page, gap, h, history, deliver, o, more);
  }

  lemma {:induction false} PagesAgree(
    s: Scan, page: nat, gap: seq<Message>, h: seq<Message>, history: History, deliver: Deliver, o: Options,
    reach: nat)
    requires StrictlyAscending(h) && Honest(h, history, o.pageLimit) && gap == Above(h, s.scanCursor)
    requires page <= o.maxPages && o.pageLimit > 0 && !s.halted
    requires reach == Reach(o.maxPages - page, o.pageLimit)
    ensures Agree(s, page, gap, history, deliver, o, reach)
    decreases o.maxPages - page
  {
    if page == o.maxPages {
      PagesDone(s, page, gap, history, deliver, o, reach);
    } else {
      var ended, t, rest, more := FirstPageAgrees(s, page, gap, h, history, deliver, o, reach);
      if !ended {
        PagesAgree(t, page + 1, rest, h, history, deliver, o, more);
      }
    }
  }

  lemma PagesFold(h: seq<Message>, history: History, deliver: Deliver, o: Options, reach: nat)
    requires StrictlyAscending(h) && Honest(h, history, o.pageLimit) && o.pageLimit > 0
    requires reach == Reach(o.maxPages, o.pageLimit)
    ensures Recover(history, deliver, o) == OneFold(Begin(o.cursor), Above(h, o.cursor), reach, deliver, o)
  {
    PagesAgree(Begin(o.cursor), 0, Above(h, o.cursor), h, history, deliver, o, reach);
  }

  /**
   Paging is unobservable: against an honest port a run is one fold over the first
   `maxPages * pageLimit` messages of the gap, and it reports `truncated` exactly when the
   gap is at least that long and nothing stopped it.
   */
  lemma PagingIsUnobservable(h: seq<Message>, history: History, deliver: Deliver, o: Options)
    requires StrictlyAscending(h) && Honest(h, history, o.pageLimit) && o.pageLimit > 0
    ensures Recover(history, deliver, o) ==
            OneFold(Begin(o.cursor), Above(h, o.cursor), o.maxPages * o.pageLimit, deliver, o)
  {
    ReachIsProduct(o.maxPages, o.pageLimit);
    PagesFold(h, history, deliver, o, o.maxPages * o.pageLimit);
  }

  /** Messages reach the callback in strictly ascending order, so none twice. */
  ghost predicate InOrder(trace: seq<Event>) {
    forall j, k | 0 <= j < k < |trace| && trace[j].Delivered? && trace[k].Delivered? :: trace[j].id < trace[k].id
  }

  ghost predicate DeliveredBelow(trace: seq<Event>, id: nat) {
    forall j | 0 <= j < |trace| && trace[j].Delivered? :: trace[j].id < id
  }

  lemma ProcessAppends(s: Scan, m: Message, deliver: Deliver, o: Options) returns (e: Event, proven: seq<nat>)
    ensures Process(s, m, deliver, o).trace == s.trace + [e] + Discards(proven) && e.id == m.id
  {
    e := if o.skipEmpty && m.blank then PassedBlank(m.id) else Delivered(m.id, deliver(s.calls, m));
    proven := if e == Delivered(m.id, Acked) then Without(s.held, m.id) else [];
    assert s.trace + [e] + [] == s.trace + [e];
  }

  lemma OrderExtends(trace: seq<Event>, e: Event, proven: seq<nat>, id: nat)
    requires InOrder(trace) && DeliveredBelow(trace, e.id) && e.id < id
    ensures InOrder(trace + [e] + Discards(proven)) && DeliveredBelow(trace + [e] + Discards(proven), id)
  {
    var t := trace + [e] + Discards(proven);
    assert forall j | 0 <= j < |trace| :: t[j] == trace[j];
    assert t[|trace|] == e;
    assert forall j | |trace| < j < |t| :: t[j].Discarded?;
  }

  lemma {:induction false} ProcessAllInOrder(s: Scan, batch: seq<Message>, deliver: Deliver, o: Options)
    requires InOrder(s.trace) && StrictlyAscending(batch)
    requires batch != [] ==> DeliveredBelow(s.trace, batch[0].id)
    ensures InOrder(ProcessAll(s, batch, deliver, o).trace)
    decreases |batch|
  {
    if !s.halted && batch != [] {
      var e, proven := ProcessAppends(s, batch[0], deliver, o);
      OrderExtends(s.trace, e, proven, if |batch| > 1 then batch[1].id else e.id + 1);
      ProcessAllInOrder(Process(s, batch[0], deliver, o), batch[1..], deliver, o);
    }
  }

  lemma FoldInOrder(gap: seq<Message>, reach: nat, deliver: Deliver, o: Options)
    requires StrictlyAscending(gap)
    ensures InOrder(OneFold(Begin(o.cursor), gap, reach, deliver, o).1)
  {
    ProcessAllInOrder(Begin(o.cursor), gap[..Min(reach, |gap|)], deliver, o);
  }

  /** Against an honest port a run hands each message to the callback at most once, in ascending order. */
  lemma DeliversInOrder(h: seq<Message>, history: History, deliver: Deliver, o: Options)
    requires StrictlyAscending(h) && Honest(h, history, o.pageLimit) && o.pageLimit > 0
    ensures InOrder(Recover(history, deliver, o).1)
  {
    var gap, reach := Above(h, o.cursor), Reach(o.maxPages, o.pageLimit);
    AboveIsFilter(h, o.cursor);
    FoldInOrder(gap, reach, deliver, o);
    PagesFold(h, history, deliver, o, reach);
  }

  // ----- Draining -----

  ghost predicate OnlyFinishes(deliver: Deliver) {
    forall call, m :: deliver(call, m) in {Acked, Duplicate, Skip}
  }

  lemma {:induction false} FinishingAdvances(s: Scan, batch: seq<Message>, deliver: Deliver, o: Options)
    requires OnlyFinishes(deliver) && !s.halted && s.held == [] && s.cursor == s.scanCursor
    ensures var t := ProcessAll(s, batch, deliver, o);
            !t.halted && t.held == [] && t.cursor == t.scanCursor
            && t.cursor == if batch == [] then s.cursor else batch[|batch| - 1].id
    decreases |batch|
  {
    if batch != [] {
      FinishingAdvances(Process(s, batch[0], deliver, o), batch[1..], deliver, o);
    }
  }

  /** Where a run of `reach` messages with finishing verdicts only advances to. */
  function After(gap: seq<Message>, reach: nat, cursor: nat): nat {
    var n := Min(reach, |gap|);
    if n == 0 then cursor else gap[n - 1].id
  }

  lemma FoldAdvances(gap: seq<Message>, reach: nat, deliver: Deliver, o: Options)
    requires OnlyFinishes(deliver)
    ensures OneFold(Begin(o.cursor), gap, reach, deliver, o).0.advancedTo == After(gap, reach, o.cursor)
  {
    FinishingAdvances(Begin(o.cursor), gap[..Min(reach, |gap|)], deliver, o);
  }

  lemma PrefixShortens(h: seq<Message>, cursor: nat, n: nat, b: nat)
    requires StrictlyAscending(h) && n <= |Above(h, cursor)| && b == After(Above(h, cursor), n, cursor)
    ensures |Above(h, b)| == |Above(h, cursor)| - n
  {
    if n > 0 { AbovePrefix(h, n, cursor); }
  }

  lemma RunShortensGap(h: seq<Message>, history: History, deliver: Deliver, o: Options, b: nat, reach: nat)
    requires StrictlyAscending(h) && o.pageLimit > 0 && reach == o.maxPages * o.pageLimit
    requires Honest(h, history, o.pageLimit) && OnlyFinishes(deliver)
    requires Recover(history, deliver, o).0.advancedTo == b
    ensures |Above(h, b)| == Max(0, |Above(h, o.cursor)| - reach)
  {
    var gap := Above(h, o.cursor);
    PagingIsUnobservable(h, history, deliver, o);
    FoldAdvances(gap, reach, deliver, o);
    PrefixShortens(h, o.cursor, Min(reach, |gap|), b);
  }

  /** Some run with these options, against an honest port and with finishing verdicts only, advances to `b`. */
  ghost predicate CleanRun(h: seq<Message>, o: Options, b: nat) {
    exists history: History, deliver: Deliver ::
      && Honest(h, history, o.pageLimit) && OnlyFinishes(deliver)
      && Recover(history, deliver, o).0.advancedTo == b
  }

  lemma CleanRunShortensGap(h: seq<Message>, o: Options, b: nat, reach: nat)
    requires StrictlyAscending(h) && o.pageLimit > 0 && CleanRun(h, o, b) && reach == o.maxPages * o.pageLimit
    ensures |Above(h, b)| == Max(0, |Above(h, o.cursor)| - reach)
  {
    var history: History, deliver: Deliver :|
      && Honest(h, history, o.pageLimit) && OnlyFinishes(deliver)
      && Recover(history, deliver, o).0.advancedTo == b;
    RunShortensGap(h, history, deliver, o, b, reach);
  }

  /** Run `i` resumes where the run before it advanced to. */
  ghost predicate Resumes(h: seq<Message>, o: Options, cursors: seq<nat>, i: nat)
    requires i < |cursors| - 1
  {
    CleanRun(h, o.(cursor := cursors[i]), cursors[i + 1])
  }

  lemma OneMoreRun(k: nat, reach: nat)
    requires k > 0
    ensures k * reach == (k - 1) * reach + reach && (k - 1) * reach >= 0
  {}

  /**
   With only ack, duplicate and skip verdicts, `k` runs, each resuming where the last one
   advanced to, leave exactly `max(0, n - k * maxPages * pageLimit)` messages of a gap of `n`.
   */
  lemma {:induction false} RunsDrainTheGap(cursors: seq<nat>, k: nat, h: seq<Message>, o: Options, reach: nat)
    requires StrictlyAscending(h) && o.pageLimit > 0 && k < |cursors| && reach == o.maxPages * o.pageLimit
    requires forall i {:trigger Resumes(h, o, cursors, i)} | 0 <= i < |cursors| - 1 :: Resumes(h, o, cursors, i)
    ensures |Above(h, cursors[k])| == Max(0, |Above(h, cursors[0])| - k * reach)
  {
    if k > 0 {
      RunsDrainTheGap(cursors, k - 1, h, o, reach);
      assert Resumes(h, o, cursors, k - 1);
      CleanRunShortensGap(h, o.(cursor := cursors[k - 1]), cursors[k], reach);
      OneMoreRun(k, reach);
    }
  }
}
