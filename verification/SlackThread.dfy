/**
 One walk over the replies of one thread, oldest first
 (packages/adapter-slack/src/recovery.ts, `recoverThread`).

 A page keeps a reply exactly as the channel scan's reply walk does, and delivery is the same;
 what differs is the order of pages, that a repeated page cursor is followed again, and that a
 walk cut short still reports how far it got.
 */
module SlackThread {
  import opened Collections
  import opened SlackScan
  import opened SlackScanLaws

  datatype ThreadOutcome = ThreadOutcome(
    advancedTo: Option<nat>, delivered: nat, duplicates: nat, skipped: nat, discarded: nat,
    truncated: bool, failed: bool, fetchError: Option<bool>)

  function Walk(h: Haul, page: nat, cursor: Option<nat>, root: nat, port: Port, o: Options): Collected
    requires page < PageBound(o)
    decreases PageBound(o) - page
  {
    var called := h.(calls := h.calls + 1);
    match port(h.calls, Some(root), cursor)
    case Unreadable(permanent) => Collected(called, Some(permanent))
    case Page(rows, hasMore, next) =>
      var t := TakeAll(called, rows, Some(root), o);
      if !hasMore && next.None? then Collected(t, None)
      else if next.None? || page + 1 == PageBound(o) then Collected(t.(truncated := true), None)
      else Walk(t, page + 1, next, root, port, o)
  }

  lemma {:induction false} WalkIsWellFormed(h: Haul, page: nat, cursor: Option<nat>, root: nat, port: Port, o: Options)
    requires WellFormed(h) && page < PageBound(o)
    ensures WellFormed(Walk(h, page, cursor, root, port, o).haul)
    decreases PageBound(o) - page
  {
    var called, f := h.(calls := h.calls + 1), port(h.calls, Some(root), cursor);
    if f.Page? {
      TakeAllIsWellFormed(called, f.rows, Some(root), o);
      if f.next.Some? && page + 1 < PageBound(o) {
        WalkIsWellFormed(TakeAll(called, f.rows, Some(root), o), page + 1, f.next, root, port, o);
      }
    }
  }

  function Walked(root: nat, port: Port, o: Options): (c: Collected)
    ensures WellFormed(c.haul)
  {
    WalkIsWellFormed(EMPTY, 0, None, root, port, o);
    Walk(EMPTY, 0, None, root, port, o)
  }

  function ThreadReport(h: Haul, r: Run, failed: bool, fetchError: Option<bool>): ThreadOutcome {
    ThreadOutcome(r.advancedTo, r.delivered, r.duplicates, r.skipped, r.discarded, h.truncated, failed, fetchError)
  }

  function RecoverReplies(root: nat, port: Port, deliver: Deliver, o: Options): (ThreadOutcome, seq<nat>) {
    var c := Walked(root, port, o);
    if c.error.Some? then (ThreadReport(c.haul, START, true, c.error), [])
    else
      var ordered := Ordered(c.haul);
      var r := DeliverAll(START, ordered, ordered, deliver, o);
      (ThreadReport(c.haul, r, r.halted, None), r.walked)
  }

  method WalkPages(root: nat, port: Port, o: Options) returns (haul: Haul, error: Option<bool>)
    ensures Collected(haul, error) == Walk(EMPTY, 0, None, root, port, o)
  {
    haul, error := EMPTY, None;
    var cursor: Option<nat> := None;
    var page := 0;
    while true
      invariant page < PageBound(o)
      invariant Walk(EMPTY, 0, None, root, port, o) == Walk(haul, page, cursor, root, port, o)
      decreases PageBound(o) - page
    {
      var result := port(haul.calls, Some(root), cursor);
      haul := haul.(calls := haul.calls + 1);
      if result.Unreadable? {
        return haul, Some(result.permanent);
      }
      haul := TakePage(haul, result.rows, Some(root), o);
      if !result.hasMore && result.next.None? {
        return haul, None;
      }
      if result.next.None? || page + 1 == PageBound(o) {
        return haul.(truncated := true), None;
      }
      cursor := result.next;
      page := page + 1;
    }
  }

  method RecoverThread(root: nat, port: Port, deliver: Deliver, o: Options)
    returns (outcome: ThreadOutcome, walked: seq<nat>)
    ensures (outcome, walked) == RecoverReplies(root, port, deliver, o)
  {
    var haul, error := WalkPages(root, port, o);
    if error.Some? {
      return ThreadReport(haul, START, true, error), [];
    }
    assert Walked(root, port, o) == Collected(haul, None);
    OrderedIsStrict(haul);
    var run := DeliverOrdered(Ordered(haul), deliver, o);
    return ThreadReport(haul, run, run.halted, None), run.walked;
  }

  // ----- What one walk establishes -----

  /** A reply page: a contiguous run of the thread from the cursor on, and no claim of an end that is not one. */
  ghost predicate ReplyPage(a: seq<Row>, root: nat, port: Port, call: nat, cursor: Option<nat>) {
    var f, from := port(call, Some(root), cursor), Position(cursor);
    f.Page? && from <= |a| ==>
      && from + |f.rows| <= |a| && f.rows == a[from..from + |f.rows|]
      && (f.next.Some? ==> f.next.value == from + |f.rows|)
      && (!f.hasMore && f.next.None? ==> from + |f.rows| == |a|)
  }

  ghost predicate HonestReplies(a: seq<Row>, root: nat, port: Port) {
    forall call, cursor {:trigger ReplyPage(a, root, port, call, cursor)} :: ReplyPage(a, root, port, call, cursor)
  }

  ghost predicate Ascending(a: seq<Row>) {
    forall i, j | 0 <= i < j < |a| :: a[i].ts < a[j].ts
  }

  /** The haul holds the replies above the cursor among the first `n` of the thread, and nothing else. */
  ghost predicate Holds(h: Haul, a: seq<Row>, n: nat, root: nat, o: Options) {
    && n <= |a|
    && (forall i | 0 <= i < n && Wanted(a[i], Some(root), o) :: a[i].ts in h.rows)
    && (forall k | k in h.rows :: exists i :: 0 <= i < n && a[i].ts == k)
  }

  lemma {:induction false} TakingReplies(h: Haul, rows: seq<Row>, a: seq<Row>, n: nat, root: nat, o: Options)
    requires Holds(h, a, n, root, o) && n + |rows| <= |a| && rows == a[n..n + |rows|]
    ensures Holds(TakeAll(h, rows, Some(root), o), a, n + |rows|, root, o)
    decreases |rows|
  {
    if rows != [] {
      assert rows[0] == a[n];
      var g := if Wanted(rows[0], Some(root), o) then Take(h, rows[0], Some(root)) else h;
      assert Holds(g, a, n + 1, root, o);
      TakingReplies(g, rows[1..], a, n + 1, root, o);
    }
  }

  lemma {:induction false} Walking(
    h: Haul, page: nat, cursor: Option<nat>, root: nat, port: Port, o: Options, a: seq<Row>) returns (m: nat)
    requires page < PageBound(o) && HonestReplies(a, root, port)
    requires Holds(h, a, Position(cursor), root, o) && !h.truncated
    ensures var c := Walk(h, page, cursor, root, port, o);
            c.error.None? ==> Holds(c.haul, a, m, root, o) && (!c.haul.truncated ==> m == |a|)
    decreases PageBound(o) - page
  {
    m := Position(cursor);
    assert ReplyPage(a, root, port, h.calls, cursor);
    var called, f := h.(calls := h.calls + 1), port(h.calls, Some(root), cursor);
    if f.Page? {
      TakingReplies(called, f.rows, a, m, root, o);
      TakingKeepsFlags(called, f.rows, Some(root), o);
      m := m + |f.rows|;
      var t, c := TakeAll(called, f.rows, Some(root), o), Walk(h, page, cursor, root, port, o);
      if !f.hasMore && f.next.None? {
        assert c == Collected(t, None);
      } else if f.next.None? || page + 1 == PageBound(o) {
        assert c == Collected(t.(truncated := true), None);
      } else {
        assert c == Walk(t, page + 1, f.next, root, port, o);
        m := Walking(t, page + 1, f.next, root, port, o, a);
      }
    }
  }

  /**
   One walk is contiguous: whatever it reports as `advancedTo`, even cut short by its page
   bound or stopped by the gateway, every reply above the stored cursor up to there was got
   past; and a walk that neither failed nor was cut short got past all of them.
   */
  lemma ThreadWalkIsContiguous(root: nat, port: Port, deliver: Deliver, o: Options, a: seq<Row>, reply: Row)
    requires HonestReplies(a, root, port) && Ascending(a) && reply in a && Wanted(reply, Some(root), o)
    ensures var (r, walked) := RecoverReplies(root, port, deliver, o);
            && (r.advancedTo.Some? && reply.ts <= r.advancedTo.value ==> reply.ts in walked)
            && (!r.failed && !r.truncated ==> reply.ts in walked)
  {
    WalkIsWellFormed(EMPTY, 0, None, root, port, o);
    var m := Walking(EMPTY, 0, None, root, port, o, a);
    var c := Walked(root, port, o);
    if c.error.None? {
      var t := DeliveringTheHaul(c.haul, deliver, o);
      ReplyIsReached(c.haul, t, a, m, root, o, reply);
    }
  }

  lemma ReplyIsReached(g: Haul, t: Run, a: seq<Row>, m: nat, root: nat, o: Options, reply: Row)
    requires Holds(g, a, m, root, o) && Ascending(a) && reply in a && Wanted(reply, Some(root), o)
    requires Tidy(t) && forall k | k in t.walked :: k in g.rows
    requires !t.halted ==> forall k | k in g.rows :: k in t.walked
    requires forall k | k in g.rows && t.walked != [] && k <= t.walked[|t.walked| - 1] :: k in t.walked
    ensures m == |a| && !t.halted ==> reply.ts in t.walked
    ensures t.advancedTo.Some? && reply.ts <= t.advancedTo.value ==> reply.ts in t.walked
  {
    var i :| 0 <= i < |a| && a[i] == reply;
    if t.advancedTo.Some? && reply.ts <= t.advancedTo.value {
      assert t.walked[|t.walked| - 1] in t.walked;
      var j :| 0 <= j < m && a[j].ts == t.advancedTo.value;
    }
  }
}
