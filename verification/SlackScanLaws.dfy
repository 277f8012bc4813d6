/**
 What one Slack pass establishes against an honest port: which messages of the window it got
 past, what it reports, and that everything it got past was really answered for.
 */
module SlackScanLaws {
  import opened Collections
  import opened SlackScan

  // ----- History and windows -----

  /** Top-level messages, newest first, as Slack lists them. */
  ghost predicate Descending(h: seq<Row>) {
    forall i, j | 0 <= i < j < |h| :: h[i].ts > h[j].ts
  }

  predicate InWindow(r: Row, lo: nat, hi: Option<nat>) {
    r.ts > lo && (hi.Some? ==> r.ts < hi.value)
  }

  /** The messages strictly between `lo` and, when given, `hi`. */
  function Window(h: seq<Row>, lo: nat, hi: Option<nat>): (d: seq<Row>)
    ensures |d| <= |h|
  {
    if h == [] then []
    else if InWindow(h[0], lo, hi) then [h[0]] + Window(h[1..], lo, hi)
    else Window(h[1..], lo, hi)
  }

  lemma {:induction false} WindowMembers(h: seq<Row>, lo: nat, hi: Option<nat>)
    ensures forall r :: r in Window(h, lo, hi) <==> r in h && InWindow(r, lo, hi)
  {
    if h != [] {
      WindowMembers(h[1..], lo, hi);
      assert h == [h[0]] + h[1..];
    }
  }

  lemma ConsDescends(r: Row, d: seq<Row>)
    requires Descending(d) && forall x | x in d :: x.ts < r.ts
    ensures Descending([r] + d)
  {}

  lemma {:induction false} WindowDescends(h: seq<Row>, lo: nat, hi: Option<nat>)
    requires Descending(h)
    ensures Descending(Window(h, lo, hi))
  {
    if h != [] {
      WindowDescends(h[1..], lo, hi);
      WindowMembers(h[1..], lo, hi);
      assert forall r | r in h[1..] :: r.ts < h[0].ts;
      ConsDescends(h[0], Window(h[1..], lo, hi));
    }
  }

  lemma WindowHolds(h: seq<Row>, lo: nat, hi: Option<nat>)
    ensures forall r :: r in Window(h, lo, hi) <==> r in h && InWindow(r, lo, hi)
    ensures Descending(h) ==> Descending(Window(h, lo, hi))
  {
    WindowMembers(h, lo, hi);
    if Descending(h) { WindowDescends(h, lo, hi); }
  }

  /** Where a page cursor points: a position in the window. */
  function Position(cursor: Option<nat>): nat {
    if cursor.Some? then cursor.value else 0
  }

  /** A channel page: a contiguous run of the window from the cursor on, and no claim of an end that is not one. */
  ghost predicate ChannelPage(d: seq<Row>, cursor: Option<nat>, f: Fetched)
    requires f.Page?
  {
    var from := Position(cursor);
    from <= |d| ==>
      && from + |f.rows| <= |d| && f.rows == d[from..from + |f.rows|]
      && (f.next.Some? ==> f.next.value == from + |f.rows|)
      && (!f.hasMore && f.next.None? ==> from + |f.rows| == |d|)
  }

  /** One call, on a snapshot in which nothing is newer than `high`; it may always fail. */
  ghost predicate Serves(d: seq<Row>, high: nat, port: Port, call: nat, thread: Option<nat>, cursor: Option<nat>) {
    var f := port(call, thread, cursor);
    f.Page? ==> (forall r | r in f.rows :: r.ts <= high) && (thread.None? ==> ChannelPage(d, cursor, f))
  }

  ghost predicate Honest(d: seq<Row>, high: nat, port: Port) {
    forall call, thread, cursor {:trigger Serves(d, high, port, call, thread, cursor)} ::
      Serves(d, high, port, call, thread, cursor)
  }

  // ----- Collecting -----

  /** The haul holds the first `n` messages of the window, and its ends are theirs. */
  ghost predicate Reached(h: Haul, d: seq<Row>, n: nat) {
    && n <= |d|
    && (forall i | 0 <= i < n :: d[i].ts in h.rows)
    && h.oldest == (if n == 0 then None else Some(d[n - 1].ts))
    && h.newest == (if n == 0 then None else Some(d[0].ts))
  }

  /** The haul holds nothing but messages of the window, none of them older than its `oldest`. */
  ghost predicate HoldsOnly(h: Haul, d: seq<Row>) {
    forall k | k in h.rows :: h.rows[k] in d && h.oldest.Some? && h.oldest.value <= k
  }

  ghost predicate Bounded(h: Haul, lo: nat, high: nat) {
    forall k | k in h.rows :: lo < k <= high
  }

  lemma {:induction false} TakingThePage(h: Haul, rows: seq<Row>, d: seq<Row>, n: nat, o: Options)
    requires Reached(h, d, n) && Descending(d) && n + |rows| <= |d| && rows == d[n..n + |rows|]
    requires forall r | r in d :: Wanted(r, None, o)
    ensures Reached(TakeAll(h, rows, None, o), d, n + |rows|)
    decreases |rows|
  {
    if rows != [] {
      assert rows[0] == d[n] && d[n] in d;
      var g := Take(h, rows[0], None);
      assert Reached(g, d, n + 1);
      TakingThePage(g, rows[1..], d, n + 1, o);
    }
  }

  lemma {:induction false} TakingHoldsOnly(h: Haul, rows: seq<Row>, d: seq<Row>, o: Options)
    requires HoldsOnly(h, d) && forall r | r in rows :: r in d
    ensures HoldsOnly(TakeAll(h, rows, None, o), d)
    decreases |rows|
  {
    if rows != [] {
      TakingHoldsOnly(if Wanted(rows[0], None, o) then Take(h, rows[0], None) else h, rows[1..], d, o);
    }
  }

  lemma {:induction false} TakingIsBounded(h: Haul, rows: seq<Row>, thread: Option<nat>, o: Options, high: nat)
    requires Bounded(h, o.oldest, high) && forall r | r in rows :: r.ts <= high
    ensures Bounded(TakeAll(h, rows, thread, o), o.oldest, high)
    decreases |rows|
  {
    if rows != [] {
      TakingIsBounded(if Wanted(rows[0], thread, o) then Take(h, rows[0], thread) else h, rows[1..], thread, o, high);
    }
  }

  /** `truncated` is set by a channel walk only. */
  lemma {:induction false} TakingKeepsFlags(h: Haul, rows: seq<Row>, thread: Option<nat>, o: Options)
    ensures TakeAll(h, rows, thread, o).truncated == h.truncated
    decreases |rows|
  {
    if rows != [] {
      TakingKeepsFlags(if Wanted(rows[0], thread, o) then Take(h, rows[0], thread) else h, rows[1..], thread, o);
    }
  }

  /** One page of the channel: `t` has reached where the page ends, which is where its next cursor points. */
  lemma CollectingOnePage(h: Haul, cursor: Option<nat>, f: Fetched, o: Options, d: seq<Row>, high: nat)
    returns (t: Haul, n: nat)
    requires f.Page? && (forall r | r in f.rows :: r.ts <= high) && ChannelPage(d, cursor, f)
    requires Descending(d) && forall r | r in d :: Wanted(r, None, o)
    requires Reached(h, d, Position(cursor)) && Bounded(h, o.oldest, high) && !h.truncated
    ensures t == TakeAll(h.(calls := h.calls + 1), f.rows, None, o)
    ensures Reached(t, d, n) && Bounded(t, o.oldest, high) && !t.truncated
    ensures (f.next.Some? ==> Position(f.next) == n) && (!f.hasMore && f.next.None? ==> n == |d|)
  {
    n := Position(cursor) + |f.rows|;
    t := OnePageReaches(h, f.rows, o, d, Position(cursor));
    OnePageIsBounded(h, f.rows, o, high);
  }

  lemma OnePageReaches(h: Haul, rows: seq<Row>, o: Options, d: seq<Row>, n: nat) returns (t: Haul)
    requires Reached(h, d, n) && Descending(d) && n + |rows| <= |d| && rows == d[n..n + |rows|]
    requires forall r | r in d :: Wanted(r, None, o)
    ensures t == TakeAll(h.(calls := h.calls + 1), rows, None, o) && Reached(t, d, n + |rows|)
  {
    var called := h.(calls := h.calls + 1);
    assert Reached(called, d, n);
    TakingThePage(called, rows, d, n, o);
    t := TakeAll(called, rows, None, o);
  }

  lemma OnePageIsBounded(h: Haul, rows: seq<Row>, o: Options, high: nat)
    requires Bounded(h, o.oldest, high) && !h.truncated && forall r | r in rows :: r.ts <= high
    ensures var t := TakeAll(h.(calls := h.calls + 1), rows, None, o); Bounded(t, o.oldest, high) && !t.truncated
  {
    var called := h.(calls := h.calls + 1);
    assert Bounded(called, o.oldest, high);
    TakingIsBounded(called, rows, None, o, high);
    TakingKeepsFlags(called, rows, None, o);
  }

  /** The channel walk reaches some `m` messages from the top of the window, all of them unless it is cut. */
  lemma {:induction false} CollectingTheChannel(
    h: Haul, page: nat, cursor: Option<nat>, seen: set<nat>, port: Port, o: Options, d: seq<Row>, high: nat)
    returns (m: nat)
    requires page < PageBound(o) && Honest(d, high, port) && Descending(d)
    requires forall r | r in d :: Wanted(r, None, o)
    requires Reached(h, d, Position(cursor)) && Bounded(h, o.oldest, high) && !h.truncated
    ensures var c := Collect(h, page, cursor, seen, None, port, o);
            c.error.None? ==>
              && Reached(c.haul, d, m) && Bounded(c.haul, o.oldest, high)
              && (!c.haul.truncated ==> m == |d|)
    decreases PageBound(o) - page
  {
    m := Position(cursor);
    var f := port(h.calls, None, cursor);
    assert Serves(d, high, port, h.calls, None, cursor);
    if f.Page? {
      var t;
      t, m := CollectingOnePage(h, cursor, f, o, d, high);
      var c, goesOn := CollectingGoesOn(h, page, cursor, seen, port, o, f, t);
      if goesOn {
        m := CollectingTheChannel(t, page + 1, f.next, seen + {f.next.value}, port, o, d, high);
      } else {
        assert Reached(Cut(t, None), d, m) && Bounded(Cut(t, None), o.oldest, high);
      }
    }
  }

  /** A page is the last, or the walk is cut there, or goes on behind it. */
  lemma CollectingGoesOn(
    h: Haul, page: nat, cursor: Option<nat>, seen: set<nat>, port: Port, o: Options, f: Fetched, t: Haul)
    returns (c: Collected, goesOn: bool)
    requires page < PageBound(o) && f == port(h.calls, None, cursor) && f.Page?
    requires t == TakeAll(h.(calls := h.calls + 1), f.rows, None, o)
    ensures c == Collect(h, page, cursor, seen, None, port, o)
    ensures goesOn ==> f.next.Some? && page + 1 < PageBound(o)
                       && c == Collect(t, page + 1, f.next, seen + {f.next.value}, None, port, o)
    ensures !goesOn ==> c == Collected(if !f.hasMore && f.next.None? then t else Cut(t, None), None)
    ensures !goesOn && f.next.Some? ==> f.next.value in seen || page + 1 == PageBound(o)
  {
    c := Collect(h, page, cursor, seen, None, port, o);
    goesOn := f.next.Some? && f.next.value !in seen && page + 1 < PageBound(o);
  }

  lemma {:induction false} CollectingHoldsOnly(
    h: Haul, page: nat, cursor: Option<nat>, seen: set<nat>, port: Port, o: Options, d: seq<Row>, high: nat)
    requires page < PageBound(o) && Honest(d, high, port) && Position(cursor) <= |d| && HoldsOnly(h, d)
    ensures HoldsOnly(Collect(h, page, cursor, seen, None, port, o).haul, d)
    decreases PageBound(o) - page
  {
    assert Serves(d, high, port, h.calls, None, cursor);
    var called, f := h.(calls := h.calls + 1), port(h.calls, None, cursor);
    if f.Page? {
      TakingHoldsOnly(called, f.rows, d, o);
      if f.next.Some? && f.next.value !in seen && page + 1 < PageBound(o) {
        CollectingHoldsOnly(
          TakeAll(called, f.rows, None, o), page + 1, f.next, seen + {f.next.value}, port, o, d, high);
      }
    }
  }

  /**
   A channel walk that no page stopped holds exactly the `m` newest messages of its window,
   with their ends as its own, and all of the window unless it was cut.
   */
  lemma ChannelWalkIsExact(port: Port, o: Options, d: seq<Row>, high: nat) returns (m: nat)
    requires Honest(d, high, port) && Descending(d) && forall r | r in d :: Wanted(r, None, o)
    ensures var c := Collect(EMPTY, 0, None, {}, None, port, o);
            c.error.None? ==>
              && Reached(c.haul, d, m) && (!c.haul.truncated ==> m == |d|)
              && (forall i | 0 <= i < |d| :: d[i].ts in c.haul.rows <==> i < m)
              && (forall k | k in c.haul.rows :: c.haul.rows[k] in d && c.haul.rows[k].ts == k)
  {
    var c := Collect(EMPTY, 0, None, {}, None, port, o);
    m := CollectingTheChannel(EMPTY, 0, None, {}, port, o, d, high);
    CollectingHoldsOnly(EMPTY, 0, None, {}, port, o, d, high);
    CollectIsWellFormed(EMPTY, 0, None, {}, None, port, o);
  }

  /** A reply walk adds rows and touches nothing the channel walk established. */
  ghost predicate Extends(h: Haul, g: Haul) {
    && g.oldest == h.oldest && g.newest == h.newest && g.truncated == h.truncated
    && forall k | k in h.rows :: k in g.rows
  }

  lemma {:induction false} TakingRepliesExtends(h: Haul, rows: seq<Row>, thread: Option<nat>, o: Options)
    requires thread.Some?
    ensures Extends(h, TakeAll(h, rows, thread, o))
    decreases |rows|
  {
    if rows != [] {
      TakingRepliesExtends(if Wanted(rows[0], thread, o) then Take(h, rows[0], thread) else h, rows[1..], thread, o);
    }
  }

  lemma {:induction false} RepliesExtend(
    h: Haul, page: nat, cursor: Option<nat>, seen: set<nat>, thread: Option<nat>, port: Port, o: Options)
    requires page < PageBound(o) && thread.Some?
    ensures Extends(h, Collect(h, page, cursor, seen, thread, port, o).haul)
    decreases PageBound(o) - page
  {
    var called, f := h.(calls := h.calls + 1), port(h.calls, thread, cursor);
    if f.Page? {
      TakingRepliesExtends(called, f.rows, thread, o);
      if f.next.Some? && f.next.value !in seen && page + 1 < PageBound(o) {
        RepliesExtend(TakeAll(called, f.rows, thread, o), page + 1, f.next, seen + {f.next.value}, thread, port, o);
      }
    }
  }

  lemma {:induction false} ThreadsExtend(h: Haul, roots: seq<Row>, port: Port, o: Options)
    ensures Extends(h, CollectThreads(h, roots, port, o).haul)
    decreases |roots|
  {
    if roots != [] {
      if HasReplies(roots[0]) {
        RepliesExtend(h, 0, None, {}, Some(roots[0].ts), port, o);
        ThreadsExtend(Collect(h, 0, None, {}, Some(roots[0].ts), port, o).haul, roots[1..], port, o);
      } else {
        ThreadsExtend(h, roots[1..], port, o);
      }
    }
  }

  lemma {:induction false} RepliesAreBounded(
    h: Haul, page: nat, cursor: Option<nat>, seen: set<nat>, thread: Option<nat>, port: Port, o: Options,
    d: seq<Row>, high: nat)
    requires page < PageBound(o) && Honest(d, high, port) && Bounded(h, o.oldest, high)
    ensures Bounded(Collect(h, page, cursor, seen, thread, port, o).haul, o.oldest, high)
    decreases PageBound(o) - page
  {
    assert Serves(d, high, port, h.calls, thread, cursor);
    var called, f := h.(calls := h.calls + 1), port(h.calls, thread, cursor);
    if f.Page? {
      TakingIsBounded(called, f.rows, thread, o, high);
      if f.next.Some? && f.next.value !in seen && page + 1 < PageBound(o) {
        RepliesAreBounded(
          TakeAll(called, f.rows, thread, o), page + 1, f.next, seen + {f.next.value}, thread, port, o, d, high);
      }
    }
  }

  lemma {:induction false} ThreadsAreBounded(h: Haul, roots: seq<Row>, port: Port, o: Options, d: seq<Row>, high: nat)
    requires Honest(d, high, port) && Bounded(h, o.oldest, high)
    ensures Bounded(CollectThreads(h, roots, port, o).haul, o.oldest, high)
    decreases |roots|
  {
    if roots != [] {
      if HasReplies(roots[0]) {
        RepliesAreBounded(h, 0, None, {}, Some(roots[0].ts), port, o, d, high);
        ThreadsAreBounded(Collect(h, 0, None, {}, Some(roots[0].ts), port, o).haul, roots[1..], port, o, d, high);
      } else {
        ThreadsAreBounded(h, roots[1..], port, o, d, high);
      }
    }
  }

  lemma Gathering(port: Port, o: Options, d: seq<Row>, high: nat) returns (g: Haul, m: nat)
    requires Honest(d, high, port) && Descending(d) && forall r | r in d :: Wanted(r, None, o)
    ensures g == Gather(port, o).haul && WellFormed(g)
    ensures Gather(port, o).error.None? ==>
              && Reached(g, d, m) && Bounded(g, o.oldest, high) && (!g.truncated ==> m == |d|)
  {
    g := Gather(port, o).haul;
    CollectIsWellFormed(EMPTY, 0, None, {}, None, port, o);
    m := CollectingTheChannel(EMPTY, 0, None, {}, port, o, d, high);
    var c := Collect(EMPTY, 0, None, {}, None, port, o);
    if c.error.None? {
      var roots := Rows(c.haul.rows, c.haul.order);
      ThreadsExtend(c.haul, roots, port, o);
      ThreadsAreBounded(c.haul, roots, port, o, d, high);
    }
  }

  // ----- Delivering -----

  function Stamps(rows: seq<Row>): (r: seq<nat>)
    ensures |r| == |rows| && forall i | 0 <= i < |r| :: r[i] == rows[i].ts
  {
    if rows == [] then [] else [rows[0].ts] + Stamps(rows[1..])
  }

  /** How many verdicts are `d`. */
  function Tally(verdicts: seq<Delivery>, d: Delivery): nat {
    if verdicts == [] then 0
    else Tally(verdicts[..|verdicts| - 1], d) + if verdicts[|verdicts| - 1] == d then 1 else 0
  }

  lemma TallySnoc(verdicts: seq<Delivery>, v: Delivery, d: Delivery)
    ensures Tally(verdicts + [v], d) == Tally(verdicts, d) + if v == d then 1 else 0
  {
    assert (verdicts + [v])[..|verdicts + [v]| - 1] == verdicts;
  }

  /** Each counter counts its own verdict, and nothing unavailable was got past. */
  ghost predicate Tallied(r: Run) {
    && |r.verdicts| == |r.walked| && Unavailable !in r.verdicts
    && r.delivered == Tally(r.verdicts, Acked) && r.duplicates == Tally(r.verdicts, Duplicate)
    && r.skipped == Tally(r.verdicts, Skip) && r.discarded == Tally(r.verdicts, Discard)
  }

  /** `advancedTo` is the last message got past, and the counters are right. */
  ghost predicate Tidy(r: Run) {
    && r.advancedTo == (if r.walked == [] then None else Some(r.walked[|r.walked| - 1]))
    && Tallied(r)
  }

  lemma CountingOne(r: Run, ts: nat, d: Delivery)
    requires Tidy(r)
    ensures Tidy(Counted(r, ts, d))
  {
    TallySnoc(r.verdicts, d, Acked);
    TallySnoc(r.verdicts, d, Duplicate);
    TallySnoc(r.verdicts, d, Skip);
    TallySnoc(r.verdicts, d, Discard);
  }

  lemma DeliveringOne(r: Run, m: Row, ordered: seq<Row>, deliver: Deliver, o: Options) returns (s: Run)
    requires Tidy(r) && !r.halted
    ensures s == DeliverOne(r, m, ordered, deliver, o)
    ensures Tidy(s) && s.walked == r.walked + if s.halted then [] else [m.ts]
  {
    var asked, d := r, Skip;
    if !m.bot {
      asked, d := r.(calls := r.calls + 1), deliver(r.calls, m, IsStale(ordered, o.nowMs, m));
    }
    CountingOne(asked, m.ts, d);
    s := Counted(asked, m.ts, d);
  }

  lemma TakeOneMore(a: seq<nat>, x: nat, more: seq<nat>, n: nat)
    requires n <= |more|
    ensures a + [x] + more[..n] == a + ([x] + more)[..n + 1]
  {
    assert ([x] + more)[..n + 1] == [x] + more[..n];
  }

  /** The delivery loop gets past the first `n` rows, all of them unless the gateway stopped it. */
  lemma {:induction false} Delivering(r: Run, rest: seq<Row>, ordered: seq<Row>, deliver: Deliver, o: Options)
    returns (t: Run, n: nat)
    requires Tidy(r) && !r.halted
    ensures t == DeliverAll(r, rest, ordered, deliver, o)
    ensures Tidy(t) && n <= |rest| && t.walked == r.walked + Stamps(rest)[..n] && (t.halted <==> n < |rest|)
    decreases |rest|
  {
    if rest == [] {
      t, n := r, 0;
    } else {
      var s := DeliveringOne(r, rest[0], ordered, deliver, o);
      if s.halted {
        t, n := s, 0;
      } else {
        t, n := Delivering(s, rest[1..], ordered, deliver, o);
        TakeOneMore(r.walked, rest[0].ts, Stamps(rest[1..]), n);
        n := n + 1;
      }
    }
  }

  /** Row `m` was answered with `d`: the bot's own are skipped, the others are the callback's to answer. */
  ghost predicate Answered(deliver: Deliver, ordered: seq<Row>, o: Options, m: Row, call: nat, d: Delivery) {
    m in ordered && d == if m.bot then Skip else deliver(call, m, IsStale(ordered, o.nowMs, m))
  }

  ghost predicate AnsweredFor(deliver: Deliver, ordered: seq<Row>, o: Options, ts: nat, d: Delivery) {
    exists m: Row, call: nat :: m.ts == ts && Answered(deliver, ordered, o, m, call, d)
  }

  ghost predicate AllAnswered(deliver: Deliver, ordered: seq<Row>, o: Options, r: Run) {
    && |r.verdicts| == |r.walked|
    && forall i | 0 <= i < |r.walked| :: AnsweredFor(deliver, ordered, o, r.walked[i], r.verdicts[i])
  }

  lemma AnsweringOne(r: Run, m: Row, ordered: seq<Row>, deliver: Deliver, o: Options)
    requires m in ordered && AllAnswered(deliver, ordered, o, r)
    ensures AllAnswered(deliver, ordered, o, DeliverOne(r, m, ordered, deliver, o))
  {
    var s := DeliverOne(r, m, ordered, deliver, o);
    var d := if m.bot then Skip else deliver(r.calls, m, IsStale(ordered, o.nowMs, m));
    assert Answered(deliver, ordered, o, m, r.calls, d);
    assert d != Unavailable ==> s.walked == r.walked + [m.ts] && s.verdicts == r.verdicts + [d];
  }

  lemma {:induction false} DeliveringAnswers(r: Run, rest: seq<Row>, ordered: seq<Row>, deliver: Deliver, o: Options)
    requires forall m | m in rest :: m in ordered
    requires AllAnswered(deliver, ordered, o, r)
    ensures AllAnswered(deliver, ordered, o, DeliverAll(r, rest, ordered, deliver, o))
    decreases |rest|
  {
    if !r.halted && rest != [] {
      AnsweringOne(r, rest[0], ordered, deliver, o);
      DeliveringAnswers(DeliverOne(r, rest[0], ordered, deliver, o), rest[1..], ordered, deliver, o);
    }
  }

  // ----- The pass -----

  /**
   Whatever the port and the gateway do: messages are got past in strictly ascending order,
   each with its answer, `advancedTo` of a complete scan is the last of them, and each of the
   four counters counts its own verdict.
   */
  lemma PassDeliversInOrder(port: Port, deliver: Deliver, o: Options) returns (verdicts: seq<Delivery>)
    ensures var (r, walked) := Recover(port, deliver, o);
            && Increasing(walked) && |verdicts| == |walked| && Unavailable !in verdicts
            && r.delivered == Tally(verdicts, Acked) && r.duplicates == Tally(verdicts, Duplicate)
            && r.skipped == Tally(verdicts, Skip) && r.discarded == Tally(verdicts, Discard)
            && (!r.truncated ==> r.advancedTo == if walked == [] then None else Some(walked[|walked| - 1]))
            && (r.truncated ==> r.advancedTo == None)
            && (Gather(port, o).error.None? ==>
                  forall i | 0 <= i < |walked| ::
                    AnsweredFor(deliver, Ordered(Gather(port, o).haul), o, walked[i], verdicts[i]))
  {
    var c := Gather(port, o);
    verdicts := [];
    if c.error.None? {
      var t := DeliveringTheHaul(c.haul, deliver, o);
      verdicts := t.verdicts;
    }
  }

  /** A haul in delivery order: strictly ascending, and exactly what was fetched. */
  lemma OrderedStamps(g: Haul) returns (ordered: seq<Row>, stamps: seq<nat>)
    requires WellFormed(g)
    ensures ordered == Ordered(g) && stamps == Stamps(ordered)
    ensures Increasing(stamps) && forall k :: k in stamps <==> k in g.rows
  {
    OrderedIsStrict(g);
    SortTsIsStrict(g.order);
    ordered, stamps := Ordered(g), SortTs(g.order);
    assert stamps == Stamps(ordered);
  }

  /** What a pass that did not fail reports, in terms of the `m` newest messages of its window. */
  ghost predicate PassReport(r: Outcome, walked: seq<nat>, d: seq<Row>, m: nat, o: Options, high: nat) {
    && m <= |d|
    && (forall i | 0 <= i < m :: d[i].ts in walked)
    && (!r.truncated ==> m == |d|)
    && (forall k | k in walked :: o.oldest < k <= high)
    && r.continuation == (if r.truncated && m > 0
                          then Some(Continuation(d[m - 1].ts, if o.latest.Some? then o.latest.value else d[0].ts))
                          else None)
    && (r.advancedTo.Some? ==> r.advancedTo.value in walked && forall k | k in walked :: k <= r.advancedTo.value)
    && (r.truncated ==> r.advancedTo.None?)
    && (!r.truncated && walked != [] ==> r.advancedTo.Some?)
  }

  lemma DeliveringStamps(r: Run, ordered: seq<Row>, stamps: seq<nat>, deliver: Deliver, o: Options) returns (t: Run)
    requires stamps == Stamps(ordered) && Increasing(stamps)
    requires Tidy(r) && !r.halted && r.walked == []
    ensures t == DeliverAll(r, ordered, ordered, deliver, o) && Tidy(t) && Increasing(t.walked)
    ensures !t.halted ==> t.walked == stamps
    ensures forall k | k in t.walked :: k in stamps
    ensures forall k | k in stamps && t.walked != [] && k <= t.walked[|t.walked| - 1] :: k in t.walked
    ensures AllAnswered(deliver, ordered, o, t)
  {
    var n;
    DeliveringAnswers(r, ordered, ordered, deliver, o);
    t, n := Delivering(r, ordered, ordered, deliver, o);
    PrefixIncreases(stamps, n);
    assert t.walked == stamps[..n];
    if !t.halted {
      assert n == |stamps|;
      assert stamps[..n] == stamps;
    }
  }

  lemma PrefixIncreases(s: seq<nat>, n: nat)
    requires Increasing(s) && n <= |s|
    ensures Increasing(s[..n]) && forall k | k in s[..n] :: k in s
    ensures forall k | k in s && n > 0 && k <= s[n - 1] :: k in s[..n]
  {
    forall k | k in s && n > 0 && k <= s[n - 1]
      ensures k in s[..n]
    {
      var i :| 0 <= i < |s| && s[i] == k;
      assert s[..n][i] == k;
    }
  }

  /** Delivery of a whole haul: what was got past is what was fetched, in order, up to where the gateway stopped it. */
  lemma DeliveringTheHaul(g: Haul, deliver: Deliver, o: Options) returns (t: Run)
    requires WellFormed(g)
    ensures t == DeliverAll(START, Ordered(g), Ordered(g), deliver, o) && Tidy(t) && Increasing(t.walked)
    ensures !t.halted ==> forall k :: k in t.walked <==> k in g.rows
    ensures forall k | k in t.walked :: k in g.rows
    ensures forall k | k in g.rows && t.walked != [] && k <= t.walked[|t.walked| - 1] :: k in t.walked
    ensures AllAnswered(deliver, Ordered(g), o, t)
  {
    var ordered, stamps := OrderedStamps(g);
    t := DeliveringStamps(START, ordered, stamps, deliver, o);
  }

  lemma ReportOfTheHaul(g: Haul, t: Run, d: seq<Row>, m: nat, o: Options, high: nat)
    requires Reached(g, d, m) && Bounded(g, o.oldest, high) && (!g.truncated ==> m == |d|)
    requires Tidy(t) && Increasing(t.walked) && forall k :: k in t.walked <==> k in g.rows
    ensures PassReport(Report(g, t, false, None, o), t.walked, d, m, o, high)
  {
    forall k | k in t.walked
      ensures t.advancedTo.Some? && k <= t.advancedTo.value
    {
      var i :| 0 <= i < |t.walked| && t.walked[i] == k;
    }
  }

  lemma PassReaches(port: Port, deliver: Deliver, o: Options, d: seq<Row>, high: nat) returns (m: nat)
    requires Honest(d, high, port) && Descending(d) && forall r | r in d :: Wanted(r, None, o)
    ensures var (r, walked) := Recover(port, deliver, o);
            !r.failed ==> PassReport(r, walked, d, m, o, high)
  {
    var g;
    g, m := Gathering(port, o, d, high);
    if Gather(port, o).error.None? {
      var t := DeliveringTheHaul(g, deliver, o);
      if !t.halted {
        ReportOfTheHaul(g, t, d, m, o, high);
      }
    }
  }
}
