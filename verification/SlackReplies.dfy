/**
 What a Slack pass and a thread walk fetch of the replies, and how far their pages take them
 (packages/adapter-slack/src/recovery.ts, `recoverConversation` and `recoverThread`).
 */
module SlackReplies {
  import opened Collections
  import opened SlackScan
  import opened SlackScanLaws
  import opened SlackThread

  /** The replies of every thread, as one snapshot in the order its pages list them. */
  type Threads = nat -> seq<Row>

  ghost predicate HonestThreads(threads: Threads, port: Port) {
    forall root, call, cursor {:trigger ReplyPage(threads(root), root, port, call, cursor)} ::
      ReplyPage(threads(root), root, port, call, cursor)
  }

  /** The haul holds every reply newer than the window's start among the first `n` of the thread. */
  ghost predicate HoldsReplies(h: Haul, a: seq<Row>, n: nat, root: nat, o: Options) {
    n <= |a| && forall i | 0 <= i < n && o.oldest < a[i].ts != root :: a[i].ts in h.rows
  }

  // ----- One reply walk of a pass -----

  lemma {:induction false} TakingTheReplies(h: Haul, rows: seq<Row>, a: seq<Row>, n: nat, root: nat, o: Options)
    requires HoldsReplies(h, a, n, root, o) && n + |rows| <= |a| && rows == a[n..n + |rows|]
    ensures HoldsReplies(TakeAll(h, rows, Some(root), o), a, n + |rows|, root, o)
    decreases |rows|
  {
    if rows != [] {
      assert rows[0] == a[n];
      var g := if Wanted(rows[0], Some(root), o) then Take(h, rows[0], Some(root)) else h;
      assert HoldsReplies(g, a, n + 1, root, o);
      TakingTheReplies(g, rows[1..], a, n + 1, root, o);
    }
  }

  lemma {:induction false} TakingKeepsCuts(h: Haul, rows: seq<Row>, thread: Option<nat>, o: Options)
    ensures TakeAll(h, rows, thread, o).cutThreads == h.cutThreads
    decreases |rows|
  {
    if rows != [] {
      TakingKeepsCuts(if Wanted(rows[0], thread, o) then Take(h, rows[0], thread) else h, rows[1..], thread, o);
    }
  }

  /** A walk that nothing stopped has all replies of its thread, or names it among those cut short. */
  lemma {:induction false} CollectingTheReplies(
    h: Haul, page: nat, cursor: Option<nat>, seen: set<nat>, root: nat, port: Port, o: Options, a: seq<Row>)
    returns (c: Collected)
    requires page < PageBound(o) && HonestReplies(a, root, port) && HoldsReplies(h, a, Position(cursor), root, o)
    ensures c == Collect(h, page, cursor, seen, Some(root), port, o)
    ensures c.haul.cutThreads == h.cutThreads || c.haul.cutThreads == h.cutThreads + [root]
    ensures c.error.None? && c.haul.cutThreads == h.cutThreads ==> HoldsReplies(c.haul, a, |a|, root, o)
    decreases PageBound(o) - page
  {
    c := Collect(h, page, cursor, seen, Some(root), port, o);
    assert ReplyPage(a, root, port, h.calls, cursor);
    var called, f := h.(calls := h.calls + 1), port(h.calls, Some(root), cursor);
    if f.Page? {
      var t := TakeAll(called, f.rows, Some(root), o);
      TakingTheReplies(called, f.rows, a, Position(cursor), root, o);
      TakingKeepsCuts(called, f.rows, Some(root), o);
      if f.next.Some? && f.next.value !in seen && page + 1 < PageBound(o) {
        var same := CollectingTheReplies(t, page + 1, f.next, seen + {f.next.value}, root, port, o, a);
      } else if f.hasMore || f.next.Some? {
        assert c == Collected(Cut(t, Some(root)), None);
      }
    }
  }

  // ----- All reply walks of a pass -----

  /** Every root but those named has all its replies in the haul. */
  ghost predicate RepliesOf(h: Haul, roots: seq<Row>, threads: Threads, o: Options) {
    forall m | m in roots && HasReplies(m) && m.ts !in h.cutThreads ::
      HoldsReplies(h, threads(m.ts), |threads(m.ts)|, m.ts, o)
  }

  lemma {:induction false} WalkingTheThreads(h: Haul, roots: seq<Row>, port: Port, o: Options, threads: Threads)
    returns (c: Collected)
    requires HonestThreads(threads, port)
    ensures c == CollectThreads(h, roots, port, o)
    ensures h.cutThreads <= c.haul.cutThreads && Extends(h, c.haul)
    ensures c.error.None? ==> RepliesOf(c.haul, roots, threads, o)
    decreases |roots|, 1
  {
    if roots == [] {
      c := Collected(h, None);
    } else if !HasReplies(roots[0]) {
      c := WalkingTheThreads(h, roots[1..], port, o, threads);
      assert roots == [roots[0]] + roots[1..];
    } else {
      c := WalkingOneThread(h, roots, port, o, threads);
    }
  }

  lemma {:induction false} WalkingOneThread(h: Haul, roots: seq<Row>, port: Port, o: Options, threads: Threads)
    returns (c: Collected)
    requires HonestThreads(threads, port) && roots != [] && HasReplies(roots[0])
    ensures c == CollectThreads(h, roots, port, o)
    ensures h.cutThreads <= c.haul.cutThreads && Extends(h, c.haul)
    ensures c.error.None? ==> RepliesOf(c.haul, roots, threads, o)
    decreases |roots|, 0
  {
    var root, a := roots[0].ts, threads(roots[0].ts);
    forall call, cursor ensures ReplyPage(a, root, port, call, cursor) {
      assert ReplyPage(threads(root), root, port, call, cursor);
    }
    var one := CollectingTheReplies(h, 0, None, {}, root, port, o, a);
    RepliesExtend(h, 0, None, {}, Some(root), port, o);
    if one.error.Some? {
      c := one;
    } else {
      c := WalkingTheThreads(one.haul, roots[1..], port, o, threads);
      assert roots == [roots[0]] + roots[1..];
      if c.error.None? { RootIsDone(h, one.haul, c.haul, roots[0], a, o); }
    }
  }

  /** What one walk fetched is still there after the others. */
  lemma RootIsDone(h: Haul, one: Haul, all: Haul, m: Row, a: seq<Row>, o: Options)
    requires one.cutThreads == h.cutThreads || one.cutThreads == h.cutThreads + [m.ts]
    requires one.cutThreads == h.cutThreads ==> HoldsReplies(one, a, |a|, m.ts, o)
    requires one.cutThreads <= all.cutThreads && Extends(one, all)
    ensures m.ts !in all.cutThreads ==> HoldsReplies(all, a, |a|, m.ts, o)
  {
    if one.cutThreads == h.cutThreads + [m.ts] { assert one.cutThreads[|h.cutThreads|] == m.ts; }
  }

  // ----- The pass -----

  lemma RowIn(h: Haul, k: nat)
    requires WellFormed(h) && k in h.rows
    ensures h.rows[k] in Rows(h.rows, h.order)
  {
    var j :| 0 <= j < |h.order| && h.order[j] == k;
    assert Rows(h.rows, h.order)[j] == h.rows[k];
  }

  /** The newest `m` messages are among the roots the pass went through. */
  lemma RootsAreWalked(h: Haul, d: seq<Row>, m: nat) returns (roots: seq<Row>)
    requires Reached(h, d, m) && HoldsOnly(h, d) && WellFormed(h) && Descending(d)
    ensures roots == Rows(h.rows, h.order) && forall x | x in d[..m] :: x in roots
  {
    roots := Rows(h.rows, h.order);
    forall x | x in d[..m]
      ensures x in roots
    {
      var i :| 0 <= i < m && d[..m][i] == x;
      assert d[i].ts in h.rows && h.rows[d[i].ts] == d[i];
      RowIn(h, x.ts);
    }
  }

  /** The replies of every root among the newest `m` messages, unless its thread is reported as cut short. */
  ghost predicate RepliesReached(
    d: seq<Row>, m: nat, threads: Threads, oldest: nat, truncatedThreads: seq<nat>, walked: seq<nat>)
    requires m <= |d|
  {
    forall i, reply | 0 <= i < m && (d[i].replyCount > 0 || d[i].thread == Some(d[i].ts)) ::
      d[i].ts !in truncatedThreads && reply in threads(d[i].ts) && oldest < reply.ts != d[i].ts ==>
        reply.ts in walked
  }

  lemma GatheringReplies(port: Port, o: Options, d: seq<Row>, high: nat, threads: Threads) returns (g: Haul, m: nat)
    requires Honest(d, high, port) && Descending(d) && forall r | r in d :: Wanted(r, None, o)
    requires HonestThreads(threads, port)
    ensures g == Gather(port, o).haul && WellFormed(g)
    ensures Gather(port, o).error.None? ==>
              && Reached(g, d, m) && Bounded(g, o.oldest, high) && (!g.truncated ==> m == |d|)
              && RepliesOf(g, d[..m], threads, o)
  {
    g := Gather(port, o).haul;
    m := ChannelWalkIsExact(port, o, d, high);
    var c := Collect(EMPTY, 0, None, {}, None, port, o);
    CollectIsWellFormed(EMPTY, 0, None, {}, None, port, o);
    if c.error.None? {
      CollectingHoldsOnly(EMPTY, 0, None, {}, port, o, d, high);
      var same := CollectingTheChannel(EMPTY, 0, None, {}, port, o, d, high);
      var roots := RootsAreWalked(c.haul, d, m);
      ThreadsAreBounded(c.haul, roots, port, o, d, high);
      var all := WalkingTheThreads(c.haul, roots, port, o, threads);
    }
  }

  /**
   A pass that did not fail got past the newest `m` messages of its window, all of them unless
   it was cut, and past every newer reply of each root among them whose thread it does not report
   as cut short.
   */
  lemma RepliesAreReached(port: Port, deliver: Deliver, o: Options, d: seq<Row>, high: nat, threads: Threads)
    returns (m: nat)
    requires Honest(d, high, port) && Descending(d) && forall r | r in d :: InWindow(r, o.oldest, o.latest)
    requires HonestThreads(threads, port)
    ensures var (r, walked) := Recover(port, deliver, o);
            !r.failed ==>
              PassReport(r, walked, d, m, o, high)
              && RepliesReached(d, m, threads, o.oldest, r.truncatedThreads, walked)
  {
    var g;
    g, m := GatheringReplies(port, o, d, high, threads);
    if Gather(port, o).error.None? {
      var t := DeliveringTheHaul(g, deliver, o);
      if !t.halted {
        ReportOfTheHaul(g, t, d, m, o, high);
        RepliesAreInTheHaul(g, t.walked, d, m, threads, o);
      }
    }
  }

  lemma RepliesAreInTheHaul(g: Haul, walked: seq<nat>, d: seq<Row>, m: nat, threads: Threads, o: Options)
    requires m <= |d| && RepliesOf(g, d[..m], threads, o) && forall k | k in g.rows :: k in walked
    ensures RepliesReached(d, m, threads, o.oldest, g.cutThreads, walked)
  {
    forall i, reply | 0 <= i < m && (d[i].replyCount > 0 || d[i].thread == Some(d[i].ts))
      ensures d[i].ts !in g.cutThreads && reply in threads(d[i].ts) && o.oldest < reply.ts != d[i].ts ==>
                reply.ts in walked
    {
      assert d[..m][i] == d[i];
      if d[i].ts !in g.cutThreads && reply in threads(d[i].ts) && o.oldest < reply.ts != d[i].ts {
        var a := threads(d[i].ts);
        var j :| 0 <= j < |a| && a[j] == reply;
      }
    }
  }

  // ----- What is handed over -----

  /** A reply as its thread lists it, filed under the thread's root, which is not the root itself. */
  ghost predicate FromThread(threads: Threads, row: Row) {
    row.thread.Some? && exists reply ::
      reply in threads(row.thread.value) && row == reply.(thread := row.thread) && row.ts != row.thread.value
  }

  /** The haul holds messages of the window as they are, and filed replies. */
  ghost predicate TrueRows(h: Haul, d: seq<Row>, threads: Threads) {
    forall k | k in h.rows :: h.rows[k] in d || FromThread(threads, h.rows[k])
  }

  lemma {:induction false} TakingTrueReplies(
    h: Haul, rows: seq<Row>, root: nat, o: Options, d: seq<Row>, threads: Threads)
    requires TrueRows(h, d, threads) && forall r | r in rows :: r in threads(root)
    ensures TrueRows(TakeAll(h, rows, Some(root), o), d, threads)
    decreases |rows|
  {
    if rows != [] {
      var g := if Wanted(rows[0], Some(root), o) then Take(h, rows[0], Some(root)) else h;
      if Wanted(rows[0], Some(root), o) { FiledReply(threads, rows[0], root); }
      TakingTrueReplies(g, rows[1..], root, o, d, threads);
    }
  }

  lemma FiledReply(threads: Threads, reply: Row, root: nat)
    requires reply in threads(root) && reply.ts != root
    ensures FromThread(threads, reply.(thread := Some(root)))
  {}

  lemma {:induction false} CollectingTrueReplies(
    h: Haul, page: nat, cursor: Option<nat>, seen: set<nat>, root: nat, port: Port, o: Options, d: seq<Row>,
    threads: Threads)
    requires page < PageBound(o) && HonestThreads(threads, port) && Position(cursor) <= |threads(root)|
    requires TrueRows(h, d, threads)
    ensures TrueRows(Collect(h, page, cursor, seen, Some(root), port, o).haul, d, threads)
    decreases PageBound(o) - page
  {
    assert ReplyPage(threads(root), root, port, h.calls, cursor);
    var called, f := h.(calls := h.calls + 1), port(h.calls, Some(root), cursor);
    if f.Page? {
      TakingTrueReplies(called, f.rows, root, o, d, threads);
      if f.next.Some? && f.next.value !in seen && page + 1 < PageBound(o) {
        CollectingTrueReplies(
          TakeAll(called, f.rows, Some(root), o), page + 1, f.next, seen + {f.next.value}, root, port, o, d, threads);
      }
    }
  }

  lemma {:induction false} WalkingTrueThreads(
    h: Haul, roots: seq<Row>, port: Port, o: Options, d: seq<Row>, threads: Threads)
    requires HonestThreads(threads, port) && TrueRows(h, d, threads)
    ensures TrueRows(CollectThreads(h, roots, port, o).haul, d, threads)
    decreases |roots|
  {
    if roots != [] {
      var g := h;
      if HasReplies(roots[0]) {
        CollectingTrueReplies(h, 0, None, {}, roots[0].ts, port, o, d, threads);
        g := Collect(h, 0, None, {}, Some(roots[0].ts), port, o).haul;
      }
      WalkingTrueThreads(g, roots[1..], port, o, d, threads);
    }
  }

  /**
   Whatever a pass hands over is a message of its window as it is, or a reply filed under its
   thread; no root comes back as a reply of its own thread.
   */
  lemma HandsOverTrueRows(port: Port, o: Options, d: seq<Row>, high: nat, threads: Threads)
    requires Honest(d, high, port) && HonestThreads(threads, port)
    ensures forall m | m in Ordered(Gather(port, o).haul) :: m in d || FromThread(threads, m)
  {
    var c := Collect(EMPTY, 0, None, {}, None, port, o);
    CollectIsWellFormed(EMPTY, 0, None, {}, None, port, o);
    CollectingHoldsOnly(EMPTY, 0, None, {}, port, o, d, high);
    if c.error.None? { WalkingTrueThreads(c.haul, Rows(c.haul.rows, c.haul.order), port, o, d, threads); }
    var g := Gather(port, o).haul;
    OrderedStampsAreKeys(g);
    assert TrueRows(g, d, threads);
  }

  /**
   And the callback is told that a message is stale exactly when it is at least ten minutes old
   and the bot has spoken in its thread since, as far as the pass fetched.
   */
  lemma TellsWhatIsStale(deliver: Deliver, ordered: seq<Row>, o: Options, m: Row, call: nat, d: Delivery)
    requires Answered(deliver, ordered, o, m, call, d) && !m.bot
    ensures d == deliver(call, m,
                         && o.nowMs * 1000 - m.ts >= 10 * 60 * 1_000_000
                         && exists b | b in ordered :: b.bot && b.thread == m.thread && b.ts > m.ts)
  {}

  lemma OrderedStampsAreKeys(g: Haul)
    requires WellFormed(g)
    ensures forall m | m in Ordered(g) :: m.ts in g.rows && g.rows[m.ts] == m
  {
    var order := SortTs(g.order);
    forall m | m in Ordered(g)
      ensures m.ts in g.rows && g.rows[m.ts] == m
    {
      var i :| 0 <= i < |Ordered(g)| && Ordered(g)[i] == m;
      assert order[i] in order;
    }
  }

  // ----- How far the pages take a walk -----

  /** Pages of `size`, each announcing the next until the end. */
  ghost predicate FullPage(a: seq<Row>, port: Port, thread: Option<nat>, size: nat, call: nat, cursor: Option<nat>) {
    var f, from := port(call, thread, cursor), Position(cursor);
    from <= |a| ==>
      f.Page? && f.rows == a[from..Min(from + size, |a|)]
      && (if from + size < |a| then f.next == Some(from + size) else f.next.None? && !f.hasMore)
  }

  ghost predicate FullPages(a: seq<Row>, port: Port, thread: Option<nat>, size: nat) {
    forall call, cursor {:trigger FullPage(a, port, thread, size, call, cursor)} ::
      FullPage(a, port, thread, size, call, cursor)
  }

  /** `pages * size`, one page at a time. */
  function Reach(pages: nat, size: nat): nat {
    if pages == 0 then 0 else size + Reach(pages - 1, size)
  }

  lemma {:induction false} ReachIsProduct(pages: nat, size: nat)
    ensures Reach(pages, size) == pages * size
  {
    if pages > 0 { ReachIsProduct(pages - 1, size); }
  }

  /** A walk of the pass goes on until its pages are used up, and is cut only then. */
  lemma {:induction false} WalkUsesItsPages(
    h: Haul, page: nat, cursor: Option<nat>, seen: set<nat>, thread: Option<nat>, port: Port, o: Options,
    a: seq<Row>, size: nat)
    returns (c: Collected)
    requires page < PageBound(o) && size > 0 && FullPages(a, port, thread, size)
    requires Position(cursor) <= |a| && forall x | x in seen :: x <= Position(cursor)
    ensures c == Collect(h, page, cursor, seen, thread, port, o) && c.error.None?
    ensures var cut := |a| > Position(cursor) + Reach(PageBound(o) - page, size);
            && c.haul.cutThreads == h.cutThreads + (if cut && thread.Some? then [thread.value] else [])
            && c.haul.truncated == (h.truncated || (cut && thread.None?))
    decreases PageBound(o) - page
  {
    c := Collect(h, page, cursor, seen, thread, port, o);
    assert FullPage(a, port, thread, size, h.calls, cursor);
    var called, f := h.(calls := h.calls + 1), port(h.calls, thread, cursor);
    var t := TakeAll(called, f.rows, thread, o);
    TakingKeepsCuts(called, f.rows, thread, o);
    TakingKeepsFlags(called, f.rows, thread, o);
    if f.next.Some? && page + 1 < PageBound(o) {
      var same := WalkUsesItsPages(t, page + 1, f.next, seen + {f.next.value}, thread, port, o, a, size);
    }
  }

  /** How far a channel walk over full pages gets. */
  lemma {:induction false} ChannelWalkReaches(
    h: Haul, page: nat, cursor: Option<nat>, seen: set<nat>, port: Port, o: Options, d: seq<Row>, size: nat, n: nat)
    requires page < PageBound(o) && size > 0 && FullPages(d, port, None, size) && Descending(d)
    requires n == Position(cursor) + Reach(PageBound(o) - page, size)
    requires forall r | r in d :: Wanted(r, None, o)
    requires Reached(h, d, Position(cursor)) && forall x | x in seen :: x <= Position(cursor)
    ensures Reached(Collect(h, page, cursor, seen, None, port, o).haul, d, Min(n, |d|))
    decreases PageBound(o) - page
  {
    var f, t, at := FullChannelPage(h, cursor, port, o, d, size);
    var c, goesOn := CollectingGoesOn(h, page, cursor, seen, port, o, f, t);
    if goesOn {
      ChannelWalkReaches(t, page + 1, f.next, seen + {f.next.value}, port, o, d, size, n);
    } else {
      assert Reached(Cut(t, None), d, at);
    }
  }

  lemma FullChannelPage(h: Haul, cursor: Option<nat>, port: Port, o: Options, d: seq<Row>, size: nat)
    returns (f: Fetched, t: Haul, at: nat)
    requires size > 0 && FullPages(d, port, None, size) && Descending(d) && forall r | r in d :: Wanted(r, None, o)
    requires Reached(h, d, Position(cursor))
    ensures f == port(h.calls, None, cursor) && f.Page? && t == TakeAll(h.(calls := h.calls + 1), f.rows, None, o)
    ensures at == Min(Position(cursor) + size, |d|) && Reached(t, d, at)
    ensures if at < |d| then f.next == Some(at) else f.next.None? && !f.hasMore
  {
    assert FullPage(d, port, None, size, h.calls, cursor);
    f, at := port(h.calls, None, cursor), Min(Position(cursor) + size, |d|);
    t := OnePageReaches(h, f.rows, o, d, Position(cursor));
  }

  /**
   A channel walk uses up its pages: over full pages it holds exactly the newest
   `max(1, maxPages) * size` messages of its window, and is cut exactly when there are more.
   */
  lemma ChannelUsesItsPages(port: Port, o: Options, d: seq<Row>, size: nat)
    requires size > 0 && FullPages(d, port, None, size) && Descending(d)
    requires forall r | r in d :: InWindow(r, o.oldest, o.latest)
    ensures var c := Collect(EMPTY, 0, None, {}, None, port, o);
            var n := Max(1, o.maxPages) * size;
            c.error.None? && Reached(c.haul, d, Min(n, |d|)) && (c.haul.truncated <==> |d| > n)
  {
    ReachIsProduct(PageBound(o), size);
    ChannelWalkReaches(EMPTY, 0, None, {}, port, o, d, size, Reach(PageBound(o), size));
    var c := WalkUsesItsPages(EMPTY, 0, None, {}, None, port, o, d, size);
  }

  /** A message with replies, of this timestamp, is among the rows. */
  predicate RootIn(rows: seq<Row>, k: nat) {
    exists m | m in rows :: m.ts == k && (m.replyCount > 0 || m.thread == Some(k))
  }

  lemma RootInFirst(rows: seq<Row>, k: nat)
    requires rows != []
    ensures RootIn(rows, k) <==> (rows[0].ts == k && HasReplies(rows[0])) || RootIn(rows[1..], k)
  {
    assert rows == [rows[0]] + rows[1..];
  }

  /** So does each reply walk: its thread is reported as cut short exactly when it is longer. */
  lemma {:induction false} RepliesUseTheirPages(
    h: Haul, roots: seq<Row>, port: Port, o: Options, threads: Threads, size: nat)
    returns (c: Collected)
    requires size > 0 && forall root :: FullPages(threads(root), port, Some(root), size)
    ensures c == CollectThreads(h, roots, port, o) && c.error.None?
    ensures forall k :: k in c.haul.cutThreads <==>
              k in h.cutThreads || (|threads(k)| > Max(1, o.maxPages) * size && RootIn(roots, k))
    decreases |roots|
  {
    ReachIsProduct(PageBound(o), size);
    if roots == [] {
      c := Collected(h, None);
    } else {
      assert roots == [roots[0]] + roots[1..];
      var g := h;
      if HasReplies(roots[0]) {
        var k := roots[0].ts;
        assert FullPages(threads(k), port, Some(k), size);
        var one := WalkUsesItsPages(h, 0, None, {}, Some(k), port, o, threads(k), size);
        g := one.haul;
      }
      c := RepliesUseTheirPages(g, roots[1..], port, o, threads, size);
      forall k
        ensures RootIn(roots, k) <==> (roots[0].ts == k && HasReplies(roots[0])) || RootIn(roots[1..], k)
      {
        RootInFirst(roots, k);
      }
    }
  }

  /** The roots a pass goes through are the newest `n` messages, and no others. */
  lemma RootsAreExact(h: Haul, d: seq<Row>, n: nat) returns (roots: seq<Row>)
    requires Reached(h, d, n) && HoldsOnly(h, d) && WellFormed(h) && Descending(d)
    ensures roots == Rows(h.rows, h.order) && forall x :: x in roots <==> x in d[..n]
  {
    roots := RootsAreWalked(h, d, n);
    forall x | x in roots
      ensures x in d[..n]
    {
      var j :| 0 <= j < |roots| && roots[j] == x;
      RowIsAmongTheNewest(h, d, n, h.order[j]);
    }
  }

  lemma RowIsAmongTheNewest(h: Haul, d: seq<Row>, n: nat, k: nat)
    requires Reached(h, d, n) && HoldsOnly(h, d) && WellFormed(h) && Descending(d) && k in h.rows
    ensures h.rows[k] in d[..n]
  {
    var i :| 0 <= i < |d| && d[i] == h.rows[k];
    assert d[i].ts >= d[n - 1].ts;
    assert d[..n][i] == h.rows[k];
  }

  lemma NewestRoots(port: Port, o: Options, d: seq<Row>, high: nat, n: nat) returns (h: Haul, roots: seq<Row>)
    requires Honest(d, high, port) && Descending(d)
    requires var c := Collect(EMPTY, 0, None, {}, None, port, o); c.error.None? && Reached(c.haul, d, n)
    ensures Collect(EMPTY, 0, None, {}, None, port, o) == Collected(h, None) && WellFormed(h)
    ensures roots == Rows(h.rows, h.order) && forall x :: x in roots <==> x in d[..n]
  {
    h := Collect(EMPTY, 0, None, {}, None, port, o).haul;
    CollectIsWellFormed(EMPTY, 0, None, {}, None, port, o);
    CollectingHoldsOnly(EMPTY, 0, None, {}, port, o, d, high);
    roots := RootsAreExact(h, d, n);
  }

  /**
   What a pass over full pages reports as cut: the channel exactly when its window holds more than
   `max(1, maxPages) * size` messages, and exactly those threads of the roots it reached that are
   longer than that.
   */
  lemma PassUsesItsPages(
    port: Port, deliver: Deliver, o: Options, d: seq<Row>, high: nat, threads: Threads, size: nat)
    requires Honest(d, high, port) && Descending(d) && forall r | r in d :: InWindow(r, o.oldest, o.latest)
    requires size > 0 && FullPages(d, port, None, size)
    requires forall root :: FullPages(threads(root), port, Some(root), size)
    ensures var r := Recover(port, deliver, o).0;
            var n := Max(1, o.maxPages) * size;
            && r.fetchError.None? && (r.truncated <==> |d| > n)
            && forall k :: k in r.truncatedThreads <==> |threads(k)| > n && RootIn(d[..Min(n, |d|)], k)
  {
    var n := Max(1, o.maxPages) * size;
    ChannelUsesItsPages(port, o, d, size);
    var h, roots := NewestRoots(port, o, d, high, Min(n, |d|));
    var c := RepliesUseTheirPages(h, roots, port, o, threads, size);
    NewestRootsAreCut(port, o, h, roots, c);
    ThreadsExtend(h, roots, port, o);
    assert forall k :: RootIn(d[..Min(n, |d|)], k) <==> RootIn(roots, k);
    NothingCutBefore(port, o);
  }

  lemma NewestRootsAreCut(port: Port, o: Options, h: Haul, roots: seq<Row>, c: Collected)
    requires Collect(EMPTY, 0, None, {}, None, port, o) == Collected(h, None) && WellFormed(h)
    requires roots == Rows(h.rows, h.order) && c == CollectThreads(h, roots, port, o) && c.error.None?
    ensures Gather(port, o) == c
  {}

  lemma {:induction false} ChannelCutsNoThread(
    h: Haul, page: nat, cursor: Option<nat>, seen: set<nat>, port: Port, o: Options)
    requires page < PageBound(o)
    ensures Collect(h, page, cursor, seen, None, port, o).haul.cutThreads == h.cutThreads
    decreases PageBound(o) - page
  {
    var called, f := h.(calls := h.calls + 1), port(h.calls, None, cursor);
    if f.Page? {
      TakingKeepsCuts(called, f.rows, None, o);
      if f.next.Some? && f.next.value !in seen && page + 1 < PageBound(o) {
        ChannelCutsNoThread(TakeAll(called, f.rows, None, o), page + 1, f.next, seen + {f.next.value}, port, o);
      }
    }
  }

  lemma NothingCutBefore(port: Port, o: Options)
    ensures Collect(EMPTY, 0, None, {}, None, port, o).haul.cutThreads == []
  {
    ChannelCutsNoThread(EMPTY, 0, None, {}, port, o);
  }

  // ----- What one thread walk reports -----

  /**
   What a thread walk reports, cut short or not, stopped or not, unless a page could not be
   read: `advancedTo` is the last message it got past, in strictly ascending order, and each
   counter counts its own verdict. When a page could not be read it reports nothing.
   */
  lemma ThreadWalkReports(root: nat, port: Port, deliver: Deliver, o: Options) returns (verdicts: seq<Delivery>)
    ensures var (r, walked) := RecoverReplies(root, port, deliver, o);
            && Increasing(walked) && |verdicts| == |walked| && Unavailable !in verdicts
            && r.advancedTo == (if walked == [] then None else Some(walked[|walked| - 1]))
            && r.delivered == Tally(verdicts, Acked) && r.duplicates == Tally(verdicts, Duplicate)
            && r.skipped == Tally(verdicts, Skip) && r.discarded == Tally(verdicts, Discard)
            && (r.fetchError.Some? ==> walked == [] && r.failed)
            && (Walked(root, port, o).error.None? ==>
                  forall i | 0 <= i < |walked| ::
                    AnsweredFor(deliver, Ordered(Walked(root, port, o).haul), o, walked[i], verdicts[i]))
  {
    var c := Walked(root, port, o);
    verdicts := [];
    if c.error.None? {
      var t := DeliveringTheHaul(c.haul, deliver, o);
      verdicts := t.verdicts;
    }
  }

  /** A thread walk over full pages goes on until they are used up. */
  lemma {:induction false} ThreadWalkGoesOn(
    h: Haul, page: nat, cursor: Option<nat>, root: nat, port: Port, o: Options, a: seq<Row>, size: nat, n: nat)
    requires page < PageBound(o) && size > 0 && FullPages(a, port, Some(root), size)
    requires n == Position(cursor) + Reach(PageBound(o) - page, size)
    requires HoldsReplies(h, a, Position(cursor), root, o) && !h.truncated
    ensures var c := Walk(h, page, cursor, root, port, o);
            c.error.None? && HoldsReplies(c.haul, a, Min(n, |a|), root, o) && (c.haul.truncated <==> |a| > n)
    decreases PageBound(o) - page
  {
    assert FullPage(a, port, Some(root), size, h.calls, cursor);
    var called, f := h.(calls := h.calls + 1), port(h.calls, Some(root), cursor);
    var t := TakeAll(called, f.rows, Some(root), o);
    assert HoldsReplies(called, a, Position(cursor), root, o);
    TakingTheReplies(called, f.rows, a, Position(cursor), root, o);
    TakingKeepsFlags(called, f.rows, Some(root), o);
    if f.next.Some? && page + 1 < PageBound(o) {
      ThreadWalkGoesOn(t, page + 1, f.next, root, port, o, a, size, n);
    }
  }

  /**
   A thread walk uses up its pages: over full pages it reports truncation exactly when the thread
   is longer than they are, and unless the gateway stopped it got past every newer reply among
   those they hold.
   */
  lemma ThreadUsesItsPages(root: nat, port: Port, deliver: Deliver, o: Options, a: seq<Row>, size: nat)
    requires size > 0 && FullPages(a, port, Some(root), size)
    ensures var (r, walked) := RecoverReplies(root, port, deliver, o);
            var n := Max(1, o.maxPages) * size;
            && r.fetchError.None? && (r.truncated <==> |a| > n)
            && (!r.failed ==> forall i | 0 <= i < Min(n, |a|) && o.oldest < a[i].ts != root :: a[i].ts in walked)
  {
    ReachIsProduct(PageBound(o), size);
    FullThreadWalk(root, port, deliver, o, a, size, Max(1, o.maxPages) * size);
  }

  lemma FullThreadWalk(
    root: nat, port: Port, deliver: Deliver, o: Options, a: seq<Row>, size: nat, n: nat)
    requires size > 0 && FullPages(a, port, Some(root), size) && n == Reach(PageBound(o), size)
    ensures var (r, walked) := RecoverReplies(root, port, deliver, o);
            && r.fetchError.None? && (r.truncated <==> |a| > n)
            && (!r.failed ==> forall i | 0 <= i < Min(n, |a|) && o.oldest < a[i].ts != root :: a[i].ts in walked)
  {
    var c := FullThreadHaul(root, port, o, a, size, n);
    var t := DeliveringTheHaul(c.haul, deliver, o);
  }

  lemma FullThreadHaul(root: nat, port: Port, o: Options, a: seq<Row>, size: nat, n: nat) returns (c: Collected)
    requires size > 0 && FullPages(a, port, Some(root), size) && n == Reach(PageBound(o), size)
    ensures c == Walked(root, port, o) && WellFormed(c.haul) && c.error.None?
    ensures HoldsReplies(c.haul, a, Min(n, |a|), root, o) && (c.haul.truncated <==> |a| > n)
  {
    WalkIsWellFormed(EMPTY, 0, None, root, port, o);
    ThreadWalkGoesOn(EMPTY, 0, None, root, port, o, a, size, n);
    c := Walked(root, port, o);
  }
}
