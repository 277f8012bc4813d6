/**
 No Slack run loses a message unless a resumed scan comes back empty or a reply overtakes an
 arrival, and every run over a static history drains its gap.
 */
module SlackRunsLaws {
  import opened Collections
  import opened SlackScan
  import opened SlackScanLaws
  import opened SlackRuns

  // ----- One pass -----

  /** A pass that resumed from `c` and did not fail, seen from outside: it got past `d[..m]` of its window `d`. */
  ghost predicate Passed(
    h: seq<Row>, high: nat, c: Cursor, o: Options, d: seq<Row>, m: nat, r: Outcome, walked: seq<nat>)
  {
    && o.oldest == c.watermark
    && o.latest == (if c.continuation.Some? then Some(c.continuation.value.olderThan) else None)
    && Descending(d) && (forall x :: x in d <==> x in h && InWindow(x, o.oldest, o.latest))
    && !r.failed && PassReport(r, walked, d, m, o, high)
  }

  lemma PassHappened(h: seq<Row>, high: nat, c: Cursor, port: Port, deliver: Deliver, o: Options)
    returns (d: seq<Row>, m: nat, r: Outcome, walked: seq<nat>)
    requires Snapshot(h, high) && o == OptionsFor(c, o.nowMs, o.maxPages)
    requires Honest(Window(h, o.oldest, o.latest), high, port)
    ensures (r, walked) == Recover(port, deliver, o) && d == Window(h, o.oldest, o.latest)
    ensures forall x | x in d :: Wanted(x, None, o)
    ensures !r.failed ==> Passed(h, high, c, o, d, m, r, walked)
  {
    d := Window(h, o.oldest, o.latest);
    WindowHolds(h, o.oldest, o.latest);
    m := PassReaches(port, deliver, o, d, high);
    r, walked := Recover(port, deliver, o).0, Recover(port, deliver, o).1;
  }

  /** Whatever lies at or above the `m`-th message of the window was got past. */
  lemma WindowTopIsFinished(
    h: seq<Row>, high: nat, c: Cursor, o: Options, d: seq<Row>, m: nat, r: Outcome, walked: seq<nat>, x: Row)
    requires Passed(h, high, c, o, d, m, r, walked)
    requires x in h && InWindow(x, o.oldest, o.latest)
    requires m == |d| || (m > 0 && x.ts >= d[m - 1].ts)
    ensures x.ts in walked
  {
    assert x in d;
    var i :| 0 <= i < |d| && d[i] == x;
    assert i < m;
  }

  lemma CutSliceIsSafe(
    h: seq<Row>, finished: set<nat>, base: nat, high: nat, c: Cursor, o: Options, d: seq<Row>, m: nat,
    r: Outcome, walked: seq<nat>)
    requires CursorOk(h, finished, base, high, c) && Passed(h, high, c, o, d, m, r, walked)
    requires forall k | k in walked :: k in finished
    requires r.truncated && r.continuation.Some? && Snapshot(h, high)
    ensures CursorOk(h, finished, base, high, Commit(c, r))
  {
    var Continuation(older, through) := r.continuation.value;
    assert d[m - 1] in d && d[0] in d;
    forall x | x in h && older <= x.ts <= through
      ensures x.ts in finished
    {
      if InWindow(x, o.oldest, o.latest) {
        WindowTopIsFinished(h, high, c, o, d, m, r, walked, x);
      }
    }
  }

  lemma ClosedGapIsSafe(
    h: seq<Row>, finished: set<nat>, base: nat, high: nat, c: Cursor, o: Options, d: seq<Row>, m: nat,
    r: Outcome, walked: seq<nat>)
    requires CursorOk(h, finished, base, high, c) && Passed(h, high, c, o, d, m, r, walked)
    requires forall k | k in walked :: k in finished
    requires !r.truncated
    ensures CursorOk(h, finished, base, high, Commit(c, r))
  {
    var w := Commit(c, r).watermark;
    forall x | x in h && base + 1 <= x.ts <= w
      ensures x.ts in finished
    {
      if x.ts > c.watermark && InWindow(x, o.oldest, o.latest) {
        WindowTopIsFinished(h, high, c, o, d, m, r, walked, x);
      }
    }
  }

  lemma EmptySliceIsSafeIff(h: seq<Row>, finished: set<nat>, base: nat, high: nat, c: Cursor, r: Outcome)
    requires CursorOk(h, finished, base, high, c) && EmptySlice(c, r)
    ensures CursorOk(h, finished, base, high, Commit(c, r)) <==>
            Finished(h, finished, c.watermark + 1, c.continuation.value.olderThan - 1)
  {}

  lemma CursorOkGrows(h: seq<Row>, before: set<nat>, after: set<nat>, base: nat, high: nat, c: Cursor)
    requires CursorOk(h, before, base, high, c) && before <= after
    ensures CursorOk(h, after, base, high, c)
  {}

  /** The same against the messages the pass could see. */
  lemma SightIsSafeIff(
    h: seq<Row>, high: nat, base: nat, c: Cursor, before: set<nat>, after: set<nat>, port: Port, deliver: Deliver,
    o: Options)
    requires Snapshot(h, high) && CursorOk(h, before, base, high, c)
    requires o == OptionsFor(c, o.nowMs, o.maxPages) && Honest(Window(h, o.oldest, o.latest), high, port)
    requires after == before + Stamped(Recover(port, deliver, o).1)
    ensures var r := Recover(port, deliver, o).0;
            CursorOk(h, after, base, high, Commit(c, r)) <==>
            (EmptySlice(c, r) ==> Finished(h, after, c.watermark + 1, c.continuation.value.olderThan - 1))
  {
    var d, m, r, walked := PassHappened(h, high, c, port, deliver, o);
    CursorOkGrows(h, before, after, base, high, c);
    if r.failed {
    } else if EmptySlice(c, r) {
      EmptySliceIsSafeIff(h, after, base, high, c, r);
    } else if !r.truncated {
      ClosedGapIsSafe(h, after, base, high, c, o, d, m, r, walked);
    } else if r.continuation.Some? {
      CutSliceIsSafe(h, after, base, high, c, o, d, m, r, walked);
    }
  }

  /** Arrivals are no matter to a position no newer than what was there before them. */
  lemma CursorOkStays(
    h: seq<Row>, during: seq<Row>, finished: set<nat>, base: nat, low: nat, high: nat, c: Cursor)
    requires CursorOk(h, finished, base, low, c) && Arrivals(during, low, high)
    ensures CursorOk(during + h, finished, base, high, c)
  {
    forall x | x in during + h
      ensures x in h || x.ts > low
    {}
  }

  /** And a later watermark needs those finished that it passed. */
  lemma CursorOkWithArrivals(
    h: seq<Row>, during: seq<Row>, finished: set<nat>, base: nat, low: nat, high: nat, w: nat)
    requires CursorOk(h, finished, base, high, Cursor(w, None)) && Arrivals(during, low, high) && base <= low
    ensures CursorOk(during + h, finished, base, high, Cursor(w, None)) <==> Finished(during, finished, 0, w)
  {
    forall x | x in during
      ensures x in during + h
    {}
  }

  /** A pass that does not close its gap stores nothing newer than what it could have seen at its start. */
  lemma StoresNothingNewer(
    h: seq<Row>, low: nat, high: nat, base: nat, c: Cursor, finished: set<nat>, port: Port, deliver: Deliver,
    o: Options)
    requires Snapshot(h, low) && CursorOk(h, finished, base, low, c) && low <= high
    requires o == OptionsFor(c, o.nowMs, o.maxPages) && Honest(Window(h, o.oldest, o.latest), high, port)
    requires !Closes(c, Recover(port, deliver, o).0)
    ensures var n := Commit(c, Recover(port, deliver, o).0);
            n.watermark <= low && (n.continuation.Some? ==> n.continuation.value.through <= low)
  {
    var d, m, r, walked := PassHappened(h, high, c, port, deliver, o);
    if !r.failed && r.truncated && r.continuation.Some? { assert d[0] in d; }
  }

  /**
   Exactly when a pass stores a position that loses nothing: unless it is an empty slice over
   something unfinished, or closes a gap behind a message that arrived meanwhile and is not
   finished, because a reply read later is newer.
   */
  lemma PassIsSafeIff(
    h: seq<Row>, low: nat, high: nat, base: nat, c: Cursor, before: set<nat>, after: set<nat>, during: seq<Row>,
    port: Port, deliver: Deliver, o: Options)
    requires Snapshot(h, low) && CursorOk(h, before, base, low, c) && Arrivals(during, low, high)
    requires o == OptionsFor(c, o.nowMs, o.maxPages) && Honest(Window(h, o.oldest, o.latest), high, port)
    requires after == before + Stamped(Recover(port, deliver, o).1)
    ensures var r := Recover(port, deliver, o).0;
            CursorOk(during + h, after, base, high, Commit(c, r)) <==> Spared(h, during, after, c, r)
  {
    var r := Recover(port, deliver, o).0;
    SightIsSafeIff(h, high, base, c, before, after, port, deliver, o);
    if Closes(c, r) {
      CursorOkWithArrivals(h, during, after, base, low, high, r.advancedTo.value);
    } else {
      StoresNothingNewer(h, low, high, base, c, before, port, deliver, o);
      ArrivalsAreAbove(h, during, after, base, low, high, Commit(c, r));
    }
  }

  lemma ArrivalsAreAbove(
    h: seq<Row>, during: seq<Row>, finished: set<nat>, base: nat, low: nat, high: nat, c: Cursor)
    requires Arrivals(during, low, high) && Snapshot(h, low)
    requires c.watermark <= low && (c.continuation.Some? ==> c.continuation.value.through <= low)
    ensures CursorOk(during + h, finished, base, high, c) <==> CursorOk(h, finished, base, high, c)
  {
    forall x | x in h
      ensures x in during + h
    {}
    forall x | x in during + h
      ensures x in h || x.ts > low
    {}
  }

  // ----- Every step keeps the invariant -----

  lemma ArriveKeeps(a: Sys, b: Sys, base: nat, row: Row)
    requires Inv(a, base) && Next(Arrive(row), a, b)
    ensures Inv(b, base)
  {
    forall c | c in b.saved
      ensures CursorOk(b.history, b.finished, base, b.high, c)
    {
      assert CursorOk(a.history, a.finished, base, a.high, c);
    }
  }

  lemma PassKeeps(a: Sys, b: Sys, base: nat, step: Step)
    requires Inv(a, base) && step.Pass? && Next(step, a, b) && Harmless(step, a, b)
    ensures Inv(b, base)
  {
    var o := OptionsFor(a.cursor, step.nowMs, step.maxPages);
    assert CursorOk(a.history, a.finished, base, a.high, a.cursor);
    PassIsSafeIff(
      a.history, a.high, b.high, base, a.cursor, a.finished, b.finished, step.during, step.port, step.deliver, o);
    forall c | c in b.saved
      ensures CursorOk(b.history, b.finished, base, b.high, c)
    {
      if c in a.saved {
        assert CursorOk(a.history, a.finished, base, a.high, c);
        CursorOkGrows(a.history, a.finished, b.finished, base, a.high, c);
        CursorOkStays(a.history, step.during, b.finished, base, a.high, b.high, c);
      }
    }
    SnapshotGrows(a.history, a.high, step.during, b.high);
  }

  lemma SnapshotGrows(h: seq<Row>, low: nat, during: seq<Row>, high: nat)
    requires Snapshot(h, low) && Arrivals(during, low, high)
    ensures Snapshot(during + h, high)
  {
    var all := during + h;
    forall i, j | 0 <= i < j < |all|
      ensures all[i].ts > all[j].ts
    {
      if i < |during| <= j { assert during[i] in during && h[j - |during|] in h; }
    }
  }

  lemma StepKeeps(a: Sys, b: Sys, base: nat, step: Step)
    requires Inv(a, base) && Next(step, a, b) && Harmless(step, a, b)
    ensures Inv(b, base)
  {
    match step
    case Arrive(row) => ArriveKeeps(a, b, base, row);
    case Pass(_, _, _, _, _, _) => PassKeeps(a, b, base, step);
    case Elapse(_) =>
      forall c | c in b.saved ensures CursorOk(b.history, b.finished, base, b.high, c) {
        assert CursorOk(a.history, a.finished, base, a.high, c);
      }
    case LiveFinish(_) =>
      forall c | c in b.saved ensures CursorOk(b.history, b.finished, base, b.high, c) {
        assert CursorOk(a.history, a.finished, base, a.high, c);
      }
    case Restart(_) =>
  }

  lemma InitIsGood(s: Sys, base: nat)
    requires Init(s, base)
    ensures Inv(s, base)
  {
    assert CursorOk(s.history, s.finished, base, s.high, s.cursor);
  }

  lemma {:induction false} RunsKeep(steps: seq<Step>, states: seq<Sys>, base: nat, n: nat)
    requires Behaviour(steps, states, base) && n <= |steps|
    ensures Inv(states[n], base)
  {
    if n == 0 {
      InitIsGood(states[0], base);
    } else {
      RunsKeep(steps, states, base, n - 1);
      assert StepAt(steps, states, n - 1);
      StepKeeps(states[n - 1], states[n], base, steps[n - 1]);
    }
  }

  /**
   No loss over whole runs: after any sequence of failed, cut and closing passes, arrivals,
   live deliveries and restarts from any stored position, every top-level message between
   the first watermark and the current one was got past, as was everything a continuation
   skips, provided no empty slice and no overtaking reply dropped something unfinished.
   */
  lemma NothingBelowTheWatermarkIsLost(steps: seq<Step>, states: seq<Sys>, base: nat, x: Row)
    requires Behaviour(steps, states, base) && x in states[|steps|].history
    ensures var s := states[|steps|];
            var c := s.cursor;
            && base <= c.watermark
            && (base < x.ts <= c.watermark ==> x.ts in s.finished)
            && (c.continuation.Some? && c.continuation.value.olderThan <= x.ts <= c.continuation.value.through ==>
                  x.ts in s.finished)
  {
    RunsKeep(steps, states, base, |steps|);
    var s := states[|steps|];
    assert CursorOk(s.history, s.finished, base, s.high, s.cursor);
  }

  // ----- The empty slice -----

  /** An honest port whose first page is empty and says there is more, without saying where. */
  function EmptyPages(call: nat, thread: Option<nat>, cursor: Option<nat>): Fetched {
    Page([], true, None)
  }

  function AlwaysAcks(call: nat, m: Row, stale: bool): Delivery {
    Acked
  }

  /** From this page on, nothing of the window turns up before the walk is cut. */
  predicate BlankUntilCut(call: nat, page: nat, cursor: Option<nat>, seen: set<nat>, port: Port, o: Options)
    requires page < PageBound(o)
    decreases PageBound(o) - page
  {
    var f := port(call, None, cursor);
    && f.Page? && (forall r | r in f.rows :: !Wanted(r, None, o)) && (f.hasMore || f.next.Some?)
    && (f.next.None? || f.next.value in seen || page + 1 == PageBound(o)
        || BlankUntilCut(call + 1, page + 1, f.next, seen + {f.next.value}, port, o))
  }

  ghost predicate FetchedSome(h: Haul) {
    h.oldest.Some? && h.newest.Some?
  }

  ghost predicate FetchedNone(h: Haul) {
    h.oldest.None? && h.order == [] && h.rows == map[]
  }

  lemma {:induction false} TakingTellsBlankFromWanted(h: Haul, rows: seq<Row>, o: Options)
    ensures var t := TakeAll(h, rows, None, o);
            && ((forall r | r in rows :: !Wanted(r, None, o)) ==> t == h)
            && (FetchedSome(h) || (exists r | r in rows :: Wanted(r, None, o)) ==> FetchedSome(t))
    decreases |rows|
  {
    if rows != [] {
      assert rows == [rows[0]] + rows[1..];
      TakingTellsBlankFromWanted(if Wanted(rows[0], None, o) then Take(h, rows[0], None) else h, rows[1..], o);
    }
  }

  lemma {:induction false} CollectingStaysFetched(
    h: Haul, page: nat, cursor: Option<nat>, seen: set<nat>, port: Port, o: Options)
    requires page < PageBound(o) && FetchedSome(h)
    ensures FetchedSome(Collect(h, page, cursor, seen, None, port, o).haul)
    decreases PageBound(o) - page
  {
    var called, f := h.(calls := h.calls + 1), port(h.calls, None, cursor);
    if f.Page? {
      TakingTellsBlankFromWanted(called, f.rows, o);
      if f.next.Some? && f.next.value !in seen && page + 1 < PageBound(o) {
        CollectingStaysFetched(
          TakeAll(called, f.rows, None, o), page + 1, f.next, seen + {f.next.value}, port, o);
      }
    }
  }

  lemma {:induction false} CollectingBlank(
    h: Haul, page: nat, cursor: Option<nat>, seen: set<nat>, port: Port, o: Options)
    requires page < PageBound(o) && FetchedNone(h) && !h.truncated
    ensures var c := Collect(h, page, cursor, seen, None, port, o);
            if BlankUntilCut(h.calls, page, cursor, seen, port, o)
            then c.error.None? && c.haul.truncated && FetchedNone(c.haul)
            else c.error.Some? || !c.haul.truncated || FetchedSome(c.haul)
    decreases PageBound(o) - page
  {
    var called, f := h.(calls := h.calls + 1), port(h.calls, None, cursor);
    if f.Page? {
      var t := TakeAll(called, f.rows, None, o);
      TakingTellsBlankFromWanted(called, f.rows, o);
      if f.next.Some? && f.next.value !in seen && page + 1 < PageBound(o) {
        if forall r | r in f.rows :: !Wanted(r, None, o) {
          CollectingBlank(t, page + 1, f.next, seen + {f.next.value}, port, o);
        } else {
          CollectingStaysFetched(t, page + 1, f.next, seen + {f.next.value}, port, o);
        }
      }
      TakingKeepsFlags(called, f.rows, None, o);
    }
  }

  /**
   An empty slice in terms of what the port answers: a resumed walk meets no message of its
   window, on any page, before it is cut.
   */
  lemma EmptySliceIsBlankPages(c: Cursor, port: Port, deliver: Deliver, o: Options)
    ensures EmptySlice(c, Recover(port, deliver, o).0) <==>
            c.continuation.Some? && BlankUntilCut(0, 0, None, {}, port, o)
  {
    var channel := Collect(EMPTY, 0, None, {}, None, port, o);
    CollectingBlank(EMPTY, 0, None, {}, port, o);
    CollectIsWellFormed(EMPTY, 0, None, {}, None, port, o);
    if channel.error.None? {
      ThreadsExtend(channel.haul, Rows(channel.haul.rows, channel.haul.order), port, o);
    }
    if BlankUntilCut(0, 0, None, {}, port, o) {
      assert Gather(port, o) == channel;
      assert Ordered(channel.haul) == [];
    }
  }

  // Three messages, of which the first slice fetches two and the second none.

  const LATE: Row := Row(30, None, false, 0)
  const MIDDLE: Row := Row(20, None, false, 0)
  const EARLY: Row := Row(10, None, false, 0)

  function TwoPages(call: nat, thread: Option<nat>, cursor: Option<nat>): Fetched {
    if thread.None? && cursor.None? then Page([LATE, MIDDLE], true, Some(2)) else Unreadable(false)
  }

  lemma FirstPage(o: Options) returns (g: Haul)
    requires o == Options(5, None, 0, 1)
    ensures Collect(EMPTY, 0, None, {}, None, TwoPages, o) == Collected(g, None) && WellFormed(g)
    ensures g.rows == map[30 := LATE, 20 := MIDDLE] && g.order == [30, 20]
    ensures g.oldest == Some(20) && g.newest == Some(30) && g.truncated
  {
    var h1 := Take(EMPTY.(calls := 1), LATE, None);
    var h2 := Take(h1, MIDDLE, None);
    var rows := [LATE, MIDDLE];
    assert rows[1..] == [MIDDLE];
    assert TakeAll(EMPTY.(calls := 1), rows, None, o) == TakeAll(h1, [MIDDLE], None, o) == h2;
    g := Cut(h2, None);
    CollectIsWellFormed(EMPTY, 0, None, {}, None, TwoPages, o);
  }

  lemma {:induction false} NoRepliesNoCalls(h: Haul, roots: seq<Row>, port: Port, o: Options)
    requires forall r | r in roots :: !HasReplies(r)
    ensures CollectThreads(h, roots, port, o) == Collected(h, None)
    decreases |roots|
  {
    if roots != [] { NoRepliesNoCalls(h, roots[1..], port, o); }
  }

  /** Roots without replies make no further calls. */
  lemma PlainGather(g: Haul, port: Port, o: Options)
    requires Collect(EMPTY, 0, None, {}, None, port, o) == Collected(g, None) && WellFormed(g)
    requires forall k | k in g.rows :: !HasReplies(g.rows[k])
    ensures Gather(port, o) == Collected(g, None)
  {
    NoRepliesNoCalls(g, Rows(g.rows, g.order), port, o);
  }

  /** A pass with a callback that is always there. */
  lemma PlainPass(g: Haul, port: Port, deliver: Deliver, o: Options) returns (r: Outcome, walked: seq<nat>)
    requires Gather(port, o) == Collected(g, None) && WellFormed(g) && NeverUnavailable(deliver)
    ensures (r, walked) == Recover(port, deliver, o)
    ensures !r.failed && r.truncated == g.truncated
    ensures r.continuation.Some? <==> g.truncated && FetchedSome(g)
    ensures r.continuation.Some? && o.latest.None? ==>
              r.continuation.value == Continuation(g.oldest.value, g.newest.value)
    ensures Stamped(walked) == g.rows.Keys && Increasing(walked)
    ensures !g.truncated && walked != [] ==> r.advancedTo == Some(walked[|walked| - 1])
  {
    var t := DeliveringTheHaul(g, deliver, o);
    DeliveringNeverHalts(START, Ordered(g), Ordered(g), deliver, o);
    r, walked := Report(g, t, false, None, o), t.walked;
  }

  /** The windows of the two passes, and the pages the port answers for them. */
  lemma BothWindows(h: seq<Row>)
    requires h == [LATE, MIDDLE, EARLY]
    ensures Window(h, 5, None) == h && Window(h, 5, Some(20)) == [EARLY]
    ensures Snapshot(h, 30) && Honest(h, 30, TwoPages) && Honest([EARLY], 30, EmptyPages)
  {
    assert h[1..] == [MIDDLE, EARLY] && h[1..][1..] == [EARLY] && h[1..][1..][1..] == [];
    assert Window([EARLY], 5, None) == [EARLY] && Window([EARLY], 5, Some(20)) == [EARLY];
    assert Window([MIDDLE, EARLY], 5, None) == [MIDDLE, EARLY] && Window([MIDDLE, EARLY], 5, Some(20)) == [EARLY];
  }

  /** The steps lead from each state to the next, harmless or not. */
  ghost predicate Trail(states: seq<Sys>, steps: seq<Step>)
    decreases |steps|
  {
    && |states| == |steps| + 1
    && (steps != [] ==> Next(steps[0], states[0], states[1]) && Trail(states[1..], steps[1..]))
  }

  lemma PassTo(
    a: Sys, port: Port, nowMs: nat, maxPages: nat, o: Options, g: Haul, during: seq<Row>, high: nat)
    returns (step: Step, b: Sys, r: Outcome, walked: seq<nat>)
    requires o == OptionsFor(a.cursor, nowMs, maxPages) && Honest(Window(a.history, o.oldest, o.latest), high, port)
    requires Arrivals(during, a.high, high) && Gather(port, o) == Collected(g, None) && WellFormed(g)
    ensures Trail([a, b], [step]) && b.cursor == Commit(a.cursor, r)
    ensures b.history == during + a.history && b.high == high && b.finished == a.finished + g.rows.Keys
    ensures !r.failed && r.truncated == g.truncated
    ensures r.continuation.Some? <==> g.truncated && FetchedSome(g)
    ensures r.continuation.Some? && o.latest.None? ==>
              r.continuation.value == Continuation(g.oldest.value, g.newest.value)
    ensures Stamped(walked) == g.rows.Keys && Increasing(walked)
    ensures !g.truncated && walked != [] ==> r.advancedTo == Some(walked[|walked| - 1])
  {
    r, walked := PlainPass(g, port, AlwaysAcks, o);
    var c := Commit(a.cursor, r);
    step := Pass(port, AlwaysAcks, nowMs, maxPages, during, high);
    b := Sys(during + a.history, high, c, a.saved + {c}, a.finished + Stamped(walked));
    assert Next(step, a, b);
    OneStepTrail(a, step, b);
  }

  lemma OneStepTrail(a: Sys, step: Step, b: Sys)
    requires Next(step, a, b)
    ensures Trail([a, b], [step])
  {
    assert [a, b][1..] == [b] && [step][1..] == [];
  }

  lemma TrailsJoin(a: Sys, first: Step, b: Sys, second: Step, c: Sys) returns (states: seq<Sys>, steps: seq<Step>)
    requires Trail([a, b], [first]) && Trail([b, c], [second])
    ensures Trail(states, steps) && |steps| == 2 && |states| == 3 && states[0] == a && states[2] == c
  {
    states, steps := [a, b, c], [first, second];
    assert [a, b, c][1..] == [b, c] && [first, second][1..] == [second];
    assert [a, b][1..] == [b];
  }

  lemma TopIsLast(walked: seq<nat>, keys: set<nat>, top: nat)
    requires Increasing(walked) && Stamped(walked) == keys && top in keys && forall k | k in keys :: k <= top
    ensures walked != [] && walked[|walked| - 1] == top
  {
    assert top in walked;
    var i :| 0 <= i < |walked| && walked[i] == top;
    assert walked[|walked| - 1] in walked;
    assert walked[|walked| - 1] in Stamped(walked);
  }

  /** The first pass delivers two of three messages and is to continue below them. */
  lemma FirstSlice(a: Sys) returns (step: Step, b: Sys)
    requires a.cursor == Cursor(5, None) && a.history == [LATE, MIDDLE, EARLY] && a.high == 30
    ensures Trail([a, b], [step])
    ensures b.history == a.history && b.high == a.high && b.finished == a.finished + {20, 30}
    ensures b.cursor == Cursor(5, Some(Continuation(20, 30)))
  {
    var o := Options(5, None, 0, 1);
    var g := FirstHaul(o);
    FirstWindow(a.history, o);
    var r, walked;
    step, b, r, walked := PassTo(a, TwoPages, 0, 1, o, g, [], a.high);
    assert [] + a.history == a.history;
  }

  lemma FirstHaul(o: Options) returns (g: Haul)
    requires o == Options(5, None, 0, 1)
    ensures Gather(TwoPages, o) == Collected(g, None) && WellFormed(g)
    ensures g.rows.Keys == {20, 30} && g.oldest == Some(20) && g.newest == Some(30) && g.truncated
  {
    g := FirstPage(o);
    PlainGather(g, TwoPages, o);
  }

  lemma FirstWindow(h: seq<Row>, o: Options)
    requires h == [LATE, MIDDLE, EARLY] && o.oldest == 5 && o.latest == None
    ensures Snapshot(h, 30) && Honest(Window(h, o.oldest, o.latest), 30, TwoPages)
  {
    BothWindows(h);
  }

  lemma SecondWindow(h: seq<Row>, o: Options)
    requires h == [LATE, MIDDLE, EARLY] && o.oldest == 5 && o.latest == Some(20)
    ensures Snapshot(h, 30) && Honest(Window(h, o.oldest, o.latest), 30, EmptyPages)
  {
    BothWindows(h);
  }

  lemma BlankHaul(o: Options) returns (g: Haul)
    requires o == Options(5, Some(20), 0, 20)
    ensures Gather(EmptyPages, o) == Collected(g, None) && WellFormed(g)
    ensures g.truncated && g.oldest.None? && g.rows == map[]
  {
    CollectingBlank(EMPTY, 0, None, {}, EmptyPages, o);
    g := Collect(EMPTY, 0, None, {}, None, EmptyPages, o).haul;
    CollectIsWellFormed(EMPTY, 0, None, {}, None, EmptyPages, o);
    PlainGather(g, EmptyPages, o);
  }

  /** The second pass resumes below 20 and meets an empty page that says there is more. */
  lemma SecondSlice(a: Sys) returns (step: Step, b: Sys)
    requires a.cursor == Cursor(5, Some(Continuation(20, 30))) && a.history == [LATE, MIDDLE, EARLY] && a.high == 30
    ensures Trail([a, b], [step])
    ensures b.history == a.history && b.finished == a.finished && b.cursor == Cursor(30, None)
  {
    var o := Options(5, Some(20), 0, 20);
    var g := BlankHaul(o);
    SecondWindow(a.history, o);
    var r, walked;
    step, b, r, walked := PassTo(a, EmptyPages, 0, 20, o, g, [], a.high);
    assert [] + a.history == a.history;
  }

  /**
   A lost message, as a run: a start from watermark 5 over messages 30, 20 and 10, a first
   pass cut after 30 and 20, and an empty second one, which moves the watermark to 30 with 10
   never fetched.
   */
  lemma EmptySliceLosesAMessage() returns (states: seq<Sys>, steps: seq<Step>)
    ensures Trail(states, steps) && |steps| == 2 && Init(states[0], 5)
    ensures var s := states[2];
            EARLY in s.history && s.cursor == Cursor(30, None) && EARLY.ts !in s.finished
  {
    var h := [LATE, MIDDLE, EARLY];
    var s0 := Start(h, 30, 5);
    var first, s1 := FirstSlice(s0);
    var second, s2 := SecondSlice(s1);
    states, steps := TrailsJoin(s0, first, s1, second, s2);
    assert s2.history[2] == EARLY;
  }

  lemma Start(h: seq<Row>, high: nat, base: nat) returns (s: Sys)
    requires Snapshot(h, high) && base <= high
    ensures Init(s, base) && s.history == h && s.high == high && s.cursor == Cursor(base, None) && s.finished == {}
  {
    s := Sys(h, high, Cursor(base, None), {Cursor(base, None)}, {});
  }

  // ----- The overtaking reply -----

  const PARENT: Row := Row(20, None, false, 1)
  const BETWEEN: Row := Row(30, None, false, 0)
  const REPLY: Row := Row(40, Some(20), false, 0)

  /** One root with one reply. */
  function OneThread(call: nat, thread: Option<nat>, cursor: Option<nat>): Fetched {
    if cursor.Some? then Unreadable(false)
    else if thread.None? then Page([PARENT], false, None)
    else if thread == Some(PARENT.ts) then Page([REPLY], false, None)
    else Unreadable(false)
  }

  lemma ThreadGather(o: Options) returns (g: Haul)
    requires o == Options(5, None, 0, 20)
    ensures Gather(OneThread, o) == Collected(g, None) && WellFormed(g) && !g.truncated
    ensures g.rows.Keys == {20, 40}
  {
    var h := Take(EMPTY.(calls := 1), PARENT, None);
    assert [PARENT][1..] == [];
    assert TakeAll(EMPTY.(calls := 1), [PARENT], None, o) == h;
    assert Collect(EMPTY, 0, None, {}, None, OneThread, o) == Collected(h, None);
    CollectIsWellFormed(EMPTY, 0, None, {}, None, OneThread, o);
    g := ThreadHaul(h, o);
    OneRoot(h, [PARENT], OneThread, o, g);
    assert Rows(h.rows, h.order) == [PARENT];
    g := Gather(OneThread, o).haul;
  }

  /** The replies of the one root join the haul. */
  lemma ThreadHaul(h: Haul, o: Options) returns (g: Haul)
    requires h.rows == map[20 := PARENT] && h.order == [20] && !h.truncated && o.oldest == 5
    ensures Collect(h, 0, None, {}, Some(20), OneThread, o) == Collected(g, None)
    ensures g.rows.Keys == {20, 40} && !g.truncated
  {
    g := Take(h.(calls := h.calls + 1), REPLY, Some(20));
    assert TakeAll(h.(calls := h.calls + 1), [REPLY], Some(20), o) == g;
  }

  lemma OneRoot(h: Haul, roots: seq<Row>, port: Port, o: Options, g: Haul)
    requires |roots| == 1 && HasReplies(roots[0])
    requires Collect(h, 0, None, {}, Some(roots[0].ts), port, o) == Collected(g, None)
    ensures CollectThreads(h, roots, port, o) == Collected(g, None)
  {
    assert CollectThreads(g, roots[1..], port, o) == Collected(g, None);
  }

  /**
   A lost message, as a run of one pass from a stored watermark: message 30 arrives when the
   channel was read, reply 40 before its thread is, and the watermark moves to 40.
   */
  lemma AReplyOvertakesAnArrival() returns (states: seq<Sys>, steps: seq<Step>)
    ensures Trail(states, steps) && |steps| == 1 && Init(states[0], 5)
    ensures var s := states[1];
            BETWEEN in s.history && s.cursor == Cursor(REPLY.ts, None) && BETWEEN.ts !in s.finished
  {
    var s0 := Sys([PARENT], 20, Cursor(5, None), {Cursor(5, None)}, {});
    var step, s1 := OvertakingPass(s0);
    states, steps := [s0, s1], [step];
    assert s1.history[0] == BETWEEN;
  }

  lemma OvertakingPass(a: Sys) returns (step: Step, b: Sys)
    requires a.cursor == Cursor(5, None) && a.history == [PARENT] && a.high == 20
    ensures Trail([a, b], [step]) && b.history == [BETWEEN, PARENT] && b.finished == a.finished + {20, 40}
    ensures b.cursor == Cursor(REPLY.ts, None)
  {
    var o := Options(5, None, 0, 20);
    var g := ThreadGather(o);
    assert [PARENT][1..] == [];
    assert Window([PARENT], 5, None) == [PARENT];
    var r, walked;
    step, b, r, walked := PassTo(a, OneThread, 0, 20, o, g, [BETWEEN], 40);
    assert [BETWEEN] + [PARENT] == [BETWEEN, PARENT];
    TopIsLast(walked, g.rows.Keys, 40);
  }

  // ----- Draining a static history -----

  /** A complete answer: it never fails, a page is empty only at the end, and the end is announced. */
  ghost predicate Progresses(d: seq<Row>, port: Port, call: nat, thread: Option<nat>, cursor: Option<nat>) {
    var f := port(call, thread, cursor);
    && f.Page?
    && (thread.None? && Position(cursor) <= |d| ==>
          && (Position(cursor) < |d| ==> f.rows != [])
          && (Position(cursor) + |f.rows| >= |d| ==> !f.hasMore && f.next.None?))
  }

  ghost predicate Complete(d: seq<Row>, port: Port) {
    forall call, thread, cursor {:trigger Progresses(d, port, call, thread, cursor)} ::
      Progresses(d, port, call, thread, cursor)
  }

  ghost predicate NeverUnavailable(deliver: Deliver) {
    forall call, m, stale :: deliver(call, m, stale) != Unavailable
  }

  /** The pass goes through: nothing fails, whatever the pages hold. */
  lemma {:induction false} CollectingNeverFails(
    h: Haul, page: nat, cursor: Option<nat>, seen: set<nat>, thread: Option<nat>, port: Port, o: Options, d: seq<Row>)
    requires page < PageBound(o) && Complete(d, port)
    ensures Collect(h, page, cursor, seen, thread, port, o).error.None?
    decreases PageBound(o) - page
  {
    assert Progresses(d, port, h.calls, thread, cursor);
    var f := port(h.calls, thread, cursor);
    if f.next.Some? && f.next.value !in seen && page + 1 < PageBound(o) {
      var t := TakeAll(h.(calls := h.calls + 1), f.rows, thread, o);
      CollectingNeverFails(t, page + 1, f.next, seen + {f.next.value}, thread, port, o, d);
    }
  }

  lemma {:induction false} ThreadsNeverFail(h: Haul, roots: seq<Row>, port: Port, o: Options, d: seq<Row>)
    requires Complete(d, port)
    ensures CollectThreads(h, roots, port, o).error.None?
    decreases |roots|
  {
    if roots != [] {
      if HasReplies(roots[0]) {
        CollectingNeverFails(h, 0, None, {}, Some(roots[0].ts), port, o, d);
        ThreadsNeverFail(Collect(h, 0, None, {}, Some(roots[0].ts), port, o).haul, roots[1..], port, o, d);
      } else {
        ThreadsNeverFail(h, roots[1..], port, o, d);
      }
    }
  }

  lemma {:induction false} DeliveringNeverHalts(r: Run, rest: seq<Row>, ordered: seq<Row>, deliver: Deliver, o: Options)
    requires NeverUnavailable(deliver) && !r.halted
    ensures !DeliverAll(r, rest, ordered, deliver, o).halted
    decreases |rest|
  {
    if rest != [] {
      DeliveringNeverHalts(DeliverOne(r, rest[0], ordered, deliver, o), rest[1..], ordered, deliver, o);
    }
  }

  lemma {:induction false} TakingFetches(h: Haul, rows: seq<Row>, thread: Option<nat>, o: Options)
    requires FetchedSome(h) || (thread.None? && rows != [] && Wanted(rows[0], None, o))
    ensures FetchedSome(TakeAll(h, rows, thread, o))
    decreases |rows|
  {
    if rows != [] {
      var g := if Wanted(rows[0], thread, o) then Take(h, rows[0], thread) else h;
      TakingFetches(g, rows[1..], thread, o);
    }
  }

  lemma {:induction false} CollectingFetches(
    h: Haul, page: nat, cursor: Option<nat>, seen: set<nat>, port: Port, o: Options, d: seq<Row>, high: nat)
    requires page < PageBound(o) && Complete(d, port) && Honest(d, high, port)
    requires forall r | r in d :: Wanted(r, None, o)
    requires FetchedSome(h) || (cursor.None? && d != [])
    ensures FetchedSome(Collect(h, page, cursor, seen, None, port, o).haul)
    decreases PageBound(o) - page
  {
    assert Progresses(d, port, h.calls, None, cursor) && Serves(d, high, port, h.calls, None, cursor);
    var f := port(h.calls, None, cursor);
    if cursor.None? && d != [] { assert f.rows[0] == d[0] && d[0] in d; }
    var called := h.(calls := h.calls + 1);
    TakingFetches(called, f.rows, None, o);
    if f.next.Some? && f.next.value !in seen && page + 1 < PageBound(o) {
      CollectingFetches(TakeAll(called, f.rows, None, o), page + 1, f.next, seen + {f.next.value}, port, o, d, high);
    }
  }

  /** A complete pass does not fail, closes an empty window, and otherwise fetches something of it. */
  lemma CompletePass(port: Port, deliver: Deliver, o: Options, d: seq<Row>, high: nat)
    requires Complete(d, port) && Honest(d, high, port) && NeverUnavailable(deliver)
    requires forall r | r in d :: Wanted(r, None, o)
    ensures var r := Recover(port, deliver, o).0;
            && !r.failed && (d == [] ==> !r.truncated) && (d != [] && r.truncated ==> r.continuation.Some?)
  {
    var c := Collect(EMPTY, 0, None, {}, None, port, o);
    CollectingNeverFails(EMPTY, 0, None, {}, None, port, o, d);
    CollectIsWellFormed(EMPTY, 0, None, {}, None, port, o);
    var roots := Rows(c.haul.rows, c.haul.order);
    ThreadsNeverFail(c.haul, roots, port, o, d);
    var g := Gather(port, o).haul;
    DeliveringNeverHalts(START, Ordered(g), Ordered(g), deliver, o);
    ThreadsExtend(c.haul, roots, port, o);
    if d == [] {
      assert Progresses(d, port, 0, None, None) && Serves(d, high, port, 0, None, None);
      TakingKeepsFlags(EMPTY.(calls := 1), port(0, None, None).rows, None, o);
    } else {
      CollectingFetches(EMPTY, 0, None, {}, port, o, d, high);
    }
  }

  // ----- Windows get smaller -----

  lemma {:induction false} WindowNarrows(h: seq<Row>, lo: nat, hi: Option<nat>, lo': nat, hi': Option<nat>)
    requires forall r | r in h :: InWindow(r, lo', hi') ==> InWindow(r, lo, hi)
    ensures |Window(h, lo', hi')| <= |Window(h, lo, hi)|
    ensures (exists y :: y in h && InWindow(y, lo, hi) && !InWindow(y, lo', hi')) ==>
              |Window(h, lo', hi')| < |Window(h, lo, hi)|
  {
    if h != [] {
      assert h == [h[0]] + h[1..];
      assert h[0] in h;
      WindowNarrows(h[1..], lo, hi, lo', hi');
    }
  }

  /** A continuation starts at a real message above the watermark. */
  ghost predicate Anchored(h: seq<Row>, c: Cursor) {
    c.continuation.Some? ==>
      && c.watermark < c.continuation.value.olderThan <= c.continuation.value.through
      && exists y :: y in h && y.ts == c.continuation.value.olderThan
  }

  /** Messages still above the watermark. */
  function Gap(h: seq<Row>, c: Cursor): nat {
    |Window(h, c.watermark, None)|
  }

  /** Messages the scan under way has yet to reach. */
  function Unreached(h: seq<Row>, c: Cursor): nat {
    |Window(h, c.watermark, if c.continuation.Some? then Some(c.continuation.value.olderThan) else None)|
  }

  ghost predicate Lower(h: seq<Row>, a: Cursor, b: Cursor) {
    Gap(h, b) < Gap(h, a) || (Gap(h, b) == Gap(h, a) && Unreached(h, b) < Unreached(h, a))
  }

  /** A complete pass over a static history, from `a` to `b`. */
  ghost predicate CompleteStep(h: seq<Row>, high: nat, a: Cursor, b: Cursor) {
    exists port: Port, deliver: Deliver, nowMs: nat, maxPages: nat ::
      CompleteStepWith(h, high, a, b, port, deliver, OptionsFor(a, nowMs, maxPages))
  }

  ghost predicate CompleteStepWith(
    h: seq<Row>, high: nat, a: Cursor, b: Cursor, port: Port, deliver: Deliver, o: Options)
  {
    var d := Window(h, o.oldest, o.latest);
    && o == OptionsFor(a, o.nowMs, o.maxPages)
    && Honest(d, high, port) && Complete(d, port) && NeverUnavailable(deliver)
    && b == Commit(a, Recover(port, deliver, o).0)
  }

  lemma CutLowers(
    h: seq<Row>, high: nat, a: Cursor, o: Options, d: seq<Row>, m: nat, r: Outcome, walked: seq<nat>)
    requires Anchored(h, a) && Passed(h, high, a, o, d, m, r, walked) && d == Window(h, o.oldest, o.latest)
    requires r.truncated && r.continuation.Some?
    ensures Anchored(h, Commit(a, r)) && Lower(h, a, Commit(a, r))
  {
    assert d[m - 1] in d && d[0] in d;
    WindowNarrows(h, a.watermark, o.latest, a.watermark, Some(d[m - 1].ts));
  }

  lemma CloseLowers(
    h: seq<Row>, high: nat, a: Cursor, o: Options, d: seq<Row>, m: nat, r: Outcome, walked: seq<nat>)
    requires Anchored(h, a) && Passed(h, high, a, o, d, m, r, walked) && d == Window(h, o.oldest, o.latest)
    requires !r.truncated
    ensures Commit(a, r).continuation.None? && Commit(a, r).watermark >= a.watermark
    ensures Gap(h, a) > 0 ==> Lower(h, a, Commit(a, r))
  {
    var w := Commit(a, r).watermark;
    if Gap(h, a) > 0 {
      if a.continuation.None? { assert d[0] in d && d[0].ts in walked; }
      WindowNarrows(h, a.watermark, None, w, None);
    }
  }

  /** Every complete pass lowers the measure until nothing is left above the watermark, and then it stays that way. */
  lemma CompleteStepLowers(h: seq<Row>, high: nat, a: Cursor, b: Cursor)
    requires Snapshot(h, high) && Anchored(h, a) && CompleteStep(h, high, a, b)
    ensures Anchored(h, b)
    ensures Gap(h, a) > 0 ==> Lower(h, a, b)
    ensures Gap(h, a) == 0 ==> Gap(h, b) == 0
  {
    var port: Port, deliver: Deliver, nowMs: nat, maxPages: nat :|
      CompleteStepWith(h, high, a, b, port, deliver, OptionsFor(a, nowMs, maxPages));
    var o := OptionsFor(a, nowMs, maxPages);
    var d, m, r, walked := PassHappened(h, high, a, port, deliver, o);
    CompletePass(port, deliver, o, d, high);
    if r.truncated {
      CutLowers(h, high, a, o, d, m, r, walked);
      WindowNarrows(h, a.watermark, None, a.watermark, o.latest);
    } else {
      CloseLowers(h, high, a, o, d, m, r, walked);
      WindowNarrows(h, a.watermark, None, b.watermark, None);
    }
  }

  /** A complete pass that closes a gap of one slice leaves nothing above the watermark. */
  lemma OneSliceCloses(h: seq<Row>, high: nat, a: Cursor, b: Cursor)
    requires Snapshot(h, high) && CompleteStep(h, high, a, b) && a.continuation.None? && b.continuation.None?
    ensures forall x | x in h :: x.ts <= b.watermark
    ensures a.watermark <= b.watermark
  {
    var port: Port, deliver: Deliver, nowMs: nat, maxPages: nat :|
      CompleteStepWith(h, high, a, b, port, deliver, OptionsFor(a, nowMs, maxPages));
    var o := OptionsFor(a, nowMs, maxPages);
    var d, m, r, walked := PassHappened(h, high, a, port, deliver, o);
    CompletePass(port, deliver, o, d, high);
    forall x | x in d
      ensures x.ts <= b.watermark
    {
      var i :| 0 <= i < |d| && d[i] == x;
      assert d[i].ts in walked;
    }
    WindowHolds(h, a.watermark, None);
  }

  /** The lexicographic measure as one number. */
  function Measure(h: seq<Row>, c: Cursor): nat {
    Gap(h, c) * (|h| + 1) + Unreached(h, c)
  }

  lemma {:induction false} OneRowMore(x: nat, y: nat, n: nat)
    requires y < x
    ensures y * n + n <= x * n
    decreases x
  {
    assert x * n == (x - 1) * n + n;
    if y < x - 1 { OneRowMore(x - 1, y, n); }
  }

  lemma LowerIsSmaller(h: seq<Row>, a: Cursor, b: Cursor)
    requires Lower(h, a, b)
    ensures Measure(h, b) < Measure(h, a)
  {
    if Gap(h, b) < Gap(h, a) { OneRowMore(Gap(h, a), Gap(h, b), |h| + 1); }
  }

  ghost predicate PassAt(h: seq<Row>, high: nat, cursors: seq<Cursor>, i: nat)
    requires i < |cursors| - 1
  {
    CompleteStep(h, high, cursors[i], cursors[i + 1])
  }

  /** The measure is `k` below `start`, or there is nothing left above the watermark. */
  ghost predicate Below(h: seq<Row>, c: Cursor, k: nat, start: nat) {
    Anchored(h, c) && (Gap(h, c) > 0 ==> Measure(h, c) + k <= start)
  }

  lemma OnePassBelow(h: seq<Row>, high: nat, a: Cursor, b: Cursor, k: nat, start: nat)
    requires Snapshot(h, high) && Below(h, a, k, start) && CompleteStep(h, high, a, b)
    ensures Below(h, b, k + 1, start)
  {
    CompleteStepLowers(h, high, a, b);
    if Gap(h, a) > 0 { LowerIsSmaller(h, a, b); }
  }

  lemma {:induction false} DrainsBelow(h: seq<Row>, high: nat, cursors: seq<Cursor>, k: nat, start: nat)
    requires Snapshot(h, high) && k < |cursors| && Below(h, cursors[0], 0, start)
    requires forall i {:trigger PassAt(h, high, cursors, i)} | 0 <= i < |cursors| - 1 :: PassAt(h, high, cursors, i)
    ensures Below(h, cursors[k], k, start)
  {
    if k > 0 {
      DrainsBelow(h, high, cursors, k - 1, start);
      assert PassAt(h, high, cursors, k - 1);
      OnePassBelow(h, high, cursors[k - 1], cursors[k], k - 1, start);
    }
  }

  /**
   The drain terminates: over a static history, complete passes one after another empty the
   gap after at most `Measure` of them, however small their slices are, and keep it empty.
   */
  lemma DrainTerminates(h: seq<Row>, high: nat, cursors: seq<Cursor>, k: nat)
    requires Snapshot(h, high) && k < |cursors| && Anchored(h, cursors[0])
    requires forall i {:trigger PassAt(h, high, cursors, i)} | 0 <= i < |cursors| - 1 :: PassAt(h, high, cursors, i)
    ensures Anchored(h, cursors[k])
    ensures Gap(h, cursors[k]) > 0 ==> Measure(h, cursors[k]) + k <= Measure(h, cursors[0])
    ensures k >= Measure(h, cursors[0]) ==> Gap(h, cursors[k]) == 0
  {
    DrainsBelow(h, high, cursors, k, Measure(h, cursors[0]));
    GapCounts(h, cursors[k]);
  }

  lemma GapCounts(h: seq<Row>, c: Cursor)
    ensures Gap(h, c) > 0 ==> Measure(h, c) > 0
  {
    if Gap(h, c) > 0 { assert Gap(h, c) * (|h| + 1) >= |h| + 1; }
  }
}
