/**
 One pass of the Slack missed-message recovery over one channel
 (packages/adapter-slack/src/recovery.ts, `recoverConversation` and `staleBackfillIds`).

 Timestamps are microsecond counts, hence `nat`; `SlackTs` shows that this is the order
 `tsIsAfter` decides. The port and the delivery callback are arbitrary functions of the
 number of calls made so far. A page with a malformed timestamp raises before anything is
 delivered, so it is an unreadable page.
 */
module SlackScan {
  import opened Collections

  datatype Row = Row(ts: nat, thread: Option<nat>, bot: bool, replyCount: nat)

  datatype Delivery = Acked | Duplicate | Unavailable | Skip | Discard

  datatype Fetched = Page(rows: seq<Row>, hasMore: bool, next: Option<nat>) | Unreadable(permanent: bool)

  /** `history` and `replies` by call number, thread root (`None` for the channel) and page cursor. */
  type Port = (nat, Option<nat>, Option<nat>) -> Fetched
  type Deliver = (nat, Row, bool) -> Delivery

  /** `oldest` is the stored watermark or the bootstrap start, `latest` the resume point of a truncated scan. */
  datatype Options = Options(oldest: nat, latest: Option<nat>, nowMs: nat, maxPages: nat)

  datatype Continuation = Continuation(olderThan: nat, through: nat)

  datatype Outcome = Outcome(
    advancedTo: Option<nat>, continuation: Option<Continuation>, truncatedThreads: seq<nat>,
    delivered: nat, duplicates: nat, skipped: nat, discarded: nat,
    truncated: bool, failed: bool, fetchError: Option<bool>)

  // ----- Stale messages -----

  const STALE_MICROS: nat := 600_000_000

  function Age(nowMs: nat, ts: nat): int {
    nowMs * 1000 - ts
  }

  predicate BotSpokeAfter(ordered: seq<Row>, m: Row) {
    exists b | b in ordered :: b.bot && b.thread == m.thread && b.ts > m.ts
  }

  /** The room moved past `m`: it is old, and the bot posted in its thread later. */
  predicate IsStale(ordered: seq<Row>, nowMs: nat, m: Row) {
    !m.bot && Age(nowMs, m.ts) >= STALE_MICROS && BotSpokeAfter(ordered, m)
  }

  /** `at` is the latest bot row of each thread among the first `n`. */
  ghost predicate LatestBots(ordered: seq<Row>, n: nat, at: map<Option<nat>, nat>)
    requires n <= |ordered|
  {
    && (forall i | 0 <= i < n && ordered[i].bot :: ordered[i].thread in at && ordered[i].ts <= at[ordered[i].thread])
    && (forall k | k in at :: exists i ::
          0 <= i < n && ordered[i].bot && ordered[i].thread == k && ordered[i].ts == at[k])
  }

  /** Two scans and a table decide the quadratic question. */
  method StaleBackfillIds(ordered: seq<Row>, nowMs: nat) returns (stale: set<nat>)
    ensures forall ts :: ts in stale <==> exists m :: m in ordered && m.ts == ts && IsStale(ordered, nowMs, m)
  {
    var latestBot: map<Option<nat>, nat> := map[];
    for i := 0 to |ordered|
      invariant LatestBots(ordered, i, latestBot)
    {
      var message := ordered[i];
      if message.bot {
        var key := message.thread;
        if key !in latestBot || message.ts > latestBot[key] {
          latestBot := latestBot[key := message.ts];
        }
      }
    }
    stale := {};
    for i := 0 to |ordered|
      invariant forall ts :: ts in stale <==>
                exists j :: 0 <= j < i && ordered[j].ts == ts && IsStale(ordered, nowMs, ordered[j])
    {
      var message := ordered[i];
      if !message.bot && Age(nowMs, message.ts) >= STALE_MICROS {
        if message.thread in latestBot && latestBot[message.thread] > message.ts {
          stale := stale + {message.ts};
        }
      }
    }
  }

  // ----- Collecting pages -----

  /** The closure's variables: `messages` is a Map, so `order` keeps its keys as inserted. */
  datatype Haul = Haul(
    rows: map<nat, Row>, order: seq<nat>, oldest: Option<nat>, newest: Option<nat>,
    truncated: bool, cutThreads: seq<nat>, calls: nat)

  datatype Collected = Collected(haul: Haul, error: Option<bool>)

  const EMPTY: Haul := Haul(map[], [], None, None, false, [], 0)

  /** The rows of a page the window does not exclude. */
  predicate Wanted(raw: Row, thread: Option<nat>, o: Options) {
    && thread != Some(raw.ts) && raw.ts > o.oldest
    && (thread.None? && o.latest.Some? ==> raw.ts < o.latest.value)
  }

  function Take(h: Haul, raw: Row, thread: Option<nat>): Haul {
    var row := if thread.Some? then raw.(thread := thread) else raw;
    var g := h.(rows := h.rows[raw.ts := row], order := Including(h.order, raw.ts));
    if thread.Some? then g
    else g.(oldest := Some(if h.oldest.Some? && h.oldest.value <= raw.ts then h.oldest.value else raw.ts),
            newest := Some(if h.newest.Some? && h.newest.value >= raw.ts then h.newest.value else raw.ts))
  }

  function TakeAll(h: Haul, rows: seq<Row>, thread: Option<nat>, o: Options): Haul
    decreases |rows|
  {
    if rows == [] then h
    else TakeAll(if Wanted(rows[0], thread, o) then Take(h, rows[0], thread) else h, rows[1..], thread, o)
  }

  /** The page bound was hit, or the cursor led nowhere new. */
  function Cut(h: Haul, thread: Option<nat>): Haul {
    if thread.Some? then h.(cutThreads := h.cutThreads + [thread.value]) else h.(truncated := true)
  }

  function PageBound(o: Options): nat {
    Max(1, o.maxPages)
  }

  function Collect(h: Haul, page: nat, cursor: Option<nat>, seen: set<nat>, thread: Option<nat>, port: Port,
          o: Options): Collected
    requires page < PageBound(o)
    decreases PageBound(o) - page
  {
    var called := h.(calls := h.calls + 1);
    match port(h.calls, thread, cursor)
    case Unreadable(permanent) => Collected(called, Some(permanent))
    case Page(rows, hasMore, next) =>
      var t := TakeAll(called, rows, thread, o);
      if !hasMore && next.None? then Collected(t, None)
      else if next.None? || next.value in seen || page + 1 == PageBound(o) then Collected(Cut(t, thread), None)
      else Collect(t, page + 1, next, seen + {next.value}, thread, port, o)
  }

  predicate HasReplies(m: Row) {
    m.replyCount > 0 || m.thread == Some(m.ts)
  }

  function CollectThreads(h: Haul, roots: seq<Row>, port: Port, o: Options): Collected
    decreases |roots|
  {
    if roots == [] then Collected(h, None)
    else if !HasReplies(roots[0]) then CollectThreads(h, roots[1..], port, o)
    else
      var c := Collect(h, 0, None, {}, Some(roots[0].ts), port, o);
      if c.error.Some? then c else CollectThreads(c.haul, roots[1..], port, o)
  }

  function Rows(h: map<nat, Row>, order: seq<nat>): (r: seq<Row>)
    requires forall k | k in order :: k in h
    ensures |r| == |order|
    ensures forall i | 0 <= i < |r| :: r[i] == h[order[i]]
  {
    if order == [] then [] else [h[order[0]]] + Rows(h, order[1..])
  }

  ghost predicate WellFormed(h: Haul) {
    && Distinct(h.order)
    && (forall k :: k in h.order <==> k in h.rows)
    && (forall k | k in h.rows :: h.rows[k].ts == k)
  }

  lemma {:induction false} TakeAllIsWellFormed(h: Haul, rows: seq<Row>, thread: Option<nat>, o: Options)
    requires WellFormed(h)
    ensures WellFormed(TakeAll(h, rows, thread, o))
    decreases |rows|
  {
    if rows != [] {
      TakeAllIsWellFormed(if Wanted(rows[0], thread, o) then Take(h, rows[0], thread) else h, rows[1..], thread, o);
    }
  }

  lemma {:induction false} CollectIsWellFormed(
    h: Haul, page: nat, cursor: Option<nat>, seen: set<nat>, thread: Option<nat>, port: Port, o: Options)
    requires WellFormed(h) && page < PageBound(o)
    ensures WellFormed(Collect(h, page, cursor, seen, thread, port, o).haul)
    decreases PageBound(o) - page
  {
    var called := h.(calls := h.calls + 1);
    match port(h.calls, thread, cursor)
    case Unreadable(_) =>
    case Page(rows, hasMore, next) =>
      TakeAllIsWellFormed(called, rows, thread, o);
      var t := TakeAll(called, rows, thread, o);
      if next.Some? && next.value !in seen && page + 1 < PageBound(o) {
        CollectIsWellFormed(t, page + 1, next, seen + {next.value}, thread, port, o);
      }
  }

  lemma {:induction false} CollectThreadsIsWellFormed(h: Haul, roots: seq<Row>, port: Port, o: Options)
    requires WellFormed(h)
    ensures WellFormed(CollectThreads(h, roots, port, o).haul)
    decreases |roots|
  {
    if roots != [] {
      if HasReplies(roots[0]) {
        CollectIsWellFormed(h, 0, None, {}, Some(roots[0].ts), port, o);
        CollectThreadsIsWellFormed(Collect(h, 0, None, {}, Some(roots[0].ts), port, o).haul, roots[1..], port, o);
      } else {
        CollectThreadsIsWellFormed(h, roots[1..], port, o);
      }
    }
  }

  /** Everything the pass fetches: the channel's pages, then the replies of every root on them. */
  function Gather(port: Port, o: Options): (c: Collected)
    ensures WellFormed(c.haul)
  {
    CollectIsWellFormed(EMPTY, 0, None, {}, None, port, o);
    var c := Collect(EMPTY, 0, None, {}, None, port, o);
    if c.error.Some? then c
    else
      var roots := Rows(c.haul.rows, c.haul.order);
      CollectThreadsIsWellFormed(c.haul, roots, port, o);
      CollectThreads(c.haul, roots, port, o)
  }

  // ----- Delivering -----

  predicate Earlier(a: nat, b: nat) {
    a <= b
  }

  function SortTs(s: seq<nat>): seq<nat> {
    SortBy(s, Earlier)
  }

  /** `walked` records what the pass got past, in order, and `verdicts` how. */
  datatype Run = Run(
    advancedTo: Option<nat>, delivered: nat, duplicates: nat, skipped: nat, discarded: nat,
    calls: nat, halted: bool, walked: seq<nat>, verdicts: seq<Delivery>)

  const START: Run := Run(None, 0, 0, 0, 0, 0, false, [], [])

  function Counted(r: Run, ts: nat, d: Delivery): Run {
    var t := r.(advancedTo := Some(ts), walked := r.walked + [ts], verdicts := r.verdicts + [d]);
    match d
    case Unavailable => r.(halted := true)
    case Acked => t.(delivered := r.delivered + 1)
    case Duplicate => t.(duplicates := r.duplicates + 1)
    case Discard => t.(discarded := r.discarded + 1)
    case Skip => t.(skipped := r.skipped + 1)
  }

  function DeliverOne(r: Run, m: Row, ordered: seq<Row>, deliver: Deliver, o: Options): Run {
    if m.bot then Counted(r, m.ts, Skip)
    else Counted(r.(calls := r.calls + 1), m.ts, deliver(r.calls, m, IsStale(ordered, o.nowMs, m)))
  }

  function DeliverAll(r: Run, rest: seq<Row>, ordered: seq<Row>, deliver: Deliver, o: Options): Run
    decreases |rest|
  {
    if r.halted || rest == [] then r
    else DeliverAll(DeliverOne(r, rest[0], ordered, deliver, o), rest[1..], ordered, deliver, o)
  }

  function Report(h: Haul, r: Run, failed: bool, fetchError: Option<bool>, o: Options): Outcome {
    Outcome(
      if h.truncated then None else r.advancedTo,
      if h.truncated && h.oldest.Some? && h.newest.Some? && !failed
      then Some(Continuation(h.oldest.value, if o.latest.Some? then o.latest.value else h.newest.value))
      else None,
      h.cutThreads, r.delivered, r.duplicates, r.skipped, r.discarded, h.truncated, failed, fetchError)
  }

  function Ordered(h: Haul): seq<Row>
    requires WellFormed(h)
  {
    Rows(h.rows, SortTs(h.order))
  }

  /** The outcome of a pass, and what it got past. */
  function Recover(port: Port, deliver: Deliver, o: Options): (Outcome, seq<nat>) {
    var c := Gather(port, o);
    if c.error.Some? then (Report(c.haul, START, true, c.error, o), [])
    else
      var ordered := Ordered(c.haul);
      var r := DeliverAll(START, ordered, ordered, deliver, o);
      (Report(c.haul, r, r.halted, None, o), r.walked)
  }

  // ----- The source's loops -----

  /** `collect`: one conversation's pages into the shared map. */
  method CollectPages(start: Haul, thread: Option<nat>, port: Port, o: Options)
    returns (haul: Haul, error: Option<bool>)
    ensures Collected(haul, error) == Collect(start, 0, None, {}, thread, port, o)
  {
    haul, error := start, None;
    var cursor: Option<nat> := None;
    var cursors: set<nat> := {};
    var page := 0;
    while true
      invariant page < PageBound(o)
      invariant Collect(start, 0, None, {}, thread, port, o) == Collect(haul, page, cursor, cursors, thread, port, o)
      decreases PageBound(o) - page
    {
      var result := port(haul.calls, thread, cursor);
      haul := haul.(calls := haul.calls + 1);
      if result.Unreadable? {
        return haul, Some(result.permanent);
      }
      haul := TakePage(haul, result.rows, thread, o);
      if !result.hasMore && result.next.None? {
        return haul, None;
      }
      if result.next.None? || result.next.value in cursors || page + 1 == PageBound(o) {
        return Cut(haul, thread), None;
      }
      cursor := result.next;
      cursors := cursors + {cursor.value};
      page := page + 1;
    }
  }

  method TakePage(start: Haul, rows: seq<Row>, thread: Option<nat>, o: Options) returns (haul: Haul)
    ensures haul == TakeAll(start, rows, thread, o)
  {
    haul := start;
    var i := 0;
    while i < |rows|
      invariant 0 <= i <= |rows|
      invariant TakeAll(start, rows, thread, o) == TakeAll(haul, rows[i..], thread, o)
    {
      assert rows[i..][0] == rows[i] && rows[i..][1..] == rows[i + 1..];
      var raw := rows[i];
      if thread != Some(raw.ts) && raw.ts > o.oldest {
        if thread.Some? || o.latest.None? || raw.ts < o.latest.value {
          haul := Take(haul, raw, thread);
        }
      }
      i := i + 1;
    }
  }

  method CollectReplies(start: Haul, roots: seq<Row>, port: Port, o: Options) returns (haul: Haul, error: Option<bool>)
    ensures Collected(haul, error) == CollectThreads(start, roots, port, o)
  {
    haul, error := start, None;
    var i := 0;
    while i < |roots|
      invariant 0 <= i <= |roots|
      invariant CollectThreads(start, roots, port, o) == CollectThreads(haul, roots[i..], port, o)
    {
      assert roots[i..][0] == roots[i] && roots[i..][1..] == roots[i + 1..];
      if HasReplies(roots[i]) {
        haul, error := CollectPages(haul, Some(roots[i].ts), port, o);
        if error.Some? { return; }
      }
      i := i + 1;
    }
    error := None;
  }

  /** Deliver in timestamp order until the gateway is unavailable. */
  method DeliverOrdered(ordered: seq<Row>, deliver: Deliver, o: Options) returns (run: Run)
    requires forall i, j | 0 <= i < |ordered| && 0 <= j < |ordered| && ordered[i].ts == ordered[j].ts :: i == j
    ensures run == DeliverAll(START, ordered, ordered, deliver, o)
  {
    var stale := StaleBackfillIds(ordered, o.nowMs);
    run := START;
    var i := 0;
    while i < |ordered| && !run.halted
      invariant 0 <= i <= |ordered|
      invariant DeliverAll(START, ordered, ordered, deliver, o) == DeliverAll(run, ordered[i..], ordered, deliver, o)
    {
      assert ordered[i..][0] == ordered[i] && ordered[i..][1..] == ordered[i + 1..];
      var message := ordered[i];
      var result := Skip;
      if !message.bot {
        assert message.ts in stale <==> IsStale(ordered, o.nowMs, message);
        result := deliver(run.calls, message, message.ts in stale);
        run := run.(calls := run.calls + 1);
      }
      if result == Unavailable {
        run := run.(halted := true);
      } else {
        if result == Acked { run := run.(delivered := run.delivered + 1); }
        else if result == Duplicate { run := run.(duplicates := run.duplicates + 1); }
        else if result == Discard { run := run.(discarded := run.discarded + 1); }
        else { run := run.(skipped := run.skipped + 1); }
        run := run.(advancedTo := Some(message.ts), walked := run.walked + [message.ts],
                verdicts := run.verdicts + [result]);
      }
      i := i + 1;
    }
  }

  lemma SortTsIsStrict(s: seq<nat>)
    requires Distinct(s)
    ensures Increasing(SortTs(s))
  {
    SortBySorts(s, Earlier);
    SortByStaysDistinct(s, Earlier);
    var sorted := SortTs(s);
    assert forall i, j | 0 <= i < j < |sorted| :: Earlier(sorted[i], sorted[j]) && sorted[i] != sorted[j];
  }

  ghost predicate Increasing(s: seq<nat>) {
    forall i, j | 0 <= i < j < |s| :: s[i] < s[j]
  }

  /** A sorted map has each timestamp once, in ascending order. */
  lemma OrderedIsStrict(h: Haul)
    requires WellFormed(h)
    ensures |Ordered(h)| == |SortTs(h.order)|
    ensures forall i | 0 <= i < |Ordered(h)| :: Ordered(h)[i].ts == SortTs(h.order)[i]
    ensures forall i, j | 0 <= i < j < |Ordered(h)| :: Ordered(h)[i].ts < Ordered(h)[j].ts
  {
    SortTsIsStrict(h.order);
    var s := SortTs(h.order);
    assert forall i | 0 <= i < |s| :: s[i] in s;
  }

  method RecoverConversation(port: Port, deliver: Deliver, o: Options) returns (outcome: Outcome, walked: seq<nat>)
    ensures (outcome, walked) == Recover(port, deliver, o)
  {
    CollectIsWellFormed(EMPTY, 0, None, {}, None, port, o);
    var haul, error := CollectPages(EMPTY, None, port, o);
    if error.None? {
      haul, error := CollectReplies(haul, Rows(haul.rows, haul.order), port, o);
    }
    if error.Some? {
      return Report(haul, START, true, error, o), [];
    }
    assert Gather(port, o) == Collected(haul, None);
    OrderedIsStrict(haul);
    var run := DeliverOrdered(Ordered(haul), deliver, o);
    return Report(haul, run, run.halted, None, o), run.walked;
  }
}
