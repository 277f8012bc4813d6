/**
 How far a Discord recovery run goes, read off its trace alone: it goes on past held
 candidates, commits each of them at the next fresh ack, and advances exactly as far as its
 answers allow (packages/adapter-discord/src/recovery.ts, `recoverConversation`).
 */
module DiscordScanProgress {
  import opened Collections
  import opened DiscordScan
  import opened DiscordScanLaws

  // ----- What a trace says -----

  /** The candidates delivered since the last fresh ack. */
  function Pending(trace: seq<Event>): set<nat> {
    if trace == [] then {}
    else
      var before := Pending(trace[..|trace| - 1]);
      match trace[|trace| - 1]
      case Delivered(id, Candidate) => before + {id}
      case Delivered(_, Acked) => {}
      case _ => before
  }

  /** The id of the last fresh ack, or the last one walked since with no candidate pending. */
  function Reached(trace: seq<Event>, start: nat): nat {
    if trace == [] then start
    else
      var before := trace[..|trace| - 1];
      match trace[|trace| - 1]
      case Delivered(id, Acked) => id
      case Delivered(id, Skip) => if Pending(before) == {} then id else Reached(before, start)
      case Delivered(id, Duplicate) => if Pending(before) == {} then id else Reached(before, start)
      case PassedBlank(id) => if Pending(before) == {} then id else Reached(before, start)
      case _ => Reached(before, start)
  }

  /** The messages dealt with, without the discards they caused. */
  function Walk(trace: seq<Event>): seq<Event> {
    if trace == [] then []
    else Walk(trace[..|trace| - 1]) + if trace[|trace| - 1].Discarded? then [] else [trace[|trace| - 1]]
  }

  function Calls(walk: seq<Event>): nat {
    if walk == [] then 0 else Calls(walk[..|walk| - 1]) + if walk[|walk| - 1].Delivered? then 1 else 0
  }

  predicate IsAck(e: Event) {
    e.Delivered? && e.verdict == Acked
  }

  lemma Snoc(trace: seq<Event>, e: Event, start: nat)
    ensures Pending(trace + [e]) == if IsAck(e) then {} else
              Pending(trace) + if e.Delivered? && e.verdict == Candidate then {e.id} else {}
    ensures Reached(trace + [e], start) ==
            if IsAck(e) then e.id
            else if Pending(trace) == {} && (e.PassedBlank? || (e.Delivered? && e.verdict in {Skip, Duplicate}))
            then e.id
            else Reached(trace, start)
    ensures Walk(trace + [e]) == Walk(trace) + if e.Discarded? then [] else [e]
    ensures Calls(trace + [e]) == Calls(trace) + if e.Delivered? then 1 else 0
  {
    assert (trace + [e])[..|trace + [e]| - 1] == trace;
  }

  /** Discards change none of it. */
  lemma {:induction false} DiscardsAreSilent(trace: seq<Event>, held: seq<nat>, start: nat)
    ensures var more := trace + Discards(held);
            && Pending(more) == Pending(trace) && Reached(more, start) == Reached(trace, start)
            && Walk(more) == Walk(trace)
    decreases |held|
  {
    if held == [] {
      assert trace + Discards(held) == trace;
    } else {
      Snoc(trace, Discarded(held[0]), start);
      DiscardsAreSilent(trace + [Discarded(held[0])], held[1..], start);
      DiscardsCons(trace, held);
    }
  }

  // ----- Candidates are answered for -----

  /** No fresh ack follows the candidate at `j`, or one did and it was discarded, or acked itself. */
  ghost predicate CandidateOk(trace: seq<Event>, j: nat)
    requires j < |trace|
  {
    trace[j].Delivered? && trace[j].verdict == Candidate ==>
      || (forall k | j < k < |trace| :: !IsAck(trace[k]))
      || Discarded(trace[j].id) in trace || Delivered(trace[j].id, Acked) in trace
  }

  ghost predicate CandidatesOk(trace: seq<Event>) {
    forall j {:trigger CandidateOk(trace, j)} | 0 <= j < |trace| :: CandidateOk(trace, j)
  }

  /** Whatever was a candidate and has had no ack since is held. */
  ghost predicate OpenOnesAreHeld(trace: seq<Event>, held: seq<nat>) {
    forall j | 0 <= j < |trace| && trace[j].Delivered? && trace[j].verdict == Candidate ::
      trace[j].id in held || exists k :: j < k < |trace| && IsAck(trace[k])
  }

  lemma QuietEventKeepsCandidates(trace: seq<Event>, e: Event, held: seq<nat>, held': seq<nat>)
    requires CandidatesOk(trace) && OpenOnesAreHeld(trace, held) && !IsAck(e)
    requires (forall id | id in held :: id in held') && (e.Delivered? && e.verdict == Candidate ==> e.id in held')
    ensures CandidatesOk(trace + [e]) && OpenOnesAreHeld(trace + [e], held')
  {
    var more := trace + [e];
    assert forall x | x in trace :: x in more;
    forall j | 0 <= j < |more|
      ensures CandidateOk(more, j)
    {
      if j < |trace| { assert CandidateOk(trace, j) && more[j] == trace[j]; }
    }
    forall j | 0 <= j < |more| && more[j].Delivered? && more[j].verdict == Candidate
      ensures more[j].id in held' || exists k :: j < k < |more| && IsAck(more[k])
    {
      if j < |trace| && trace[j].id !in held {
        var k :| j < k < |trace| && IsAck(trace[k]);
        assert IsAck(more[k]);
      }
    }
  }

  lemma AckAnswersCandidates(trace: seq<Event>, id: nat, held: seq<nat>, proven: seq<nat>)
    requires CandidatesOk(trace) && OpenOnesAreHeld(trace, held) && proven == Without(held, id)
    ensures var more := trace + [Delivered(id, Acked)] + Discards(proven);
            CandidatesOk(more) && OpenOnesAreHeld(more, [])
  {
    var ack := Delivered(id, Acked);
    var more := trace + [ack] + Discards(proven);
    assert more[|trace|] == ack;
    assert forall x | x in trace :: x in more;
    forall x | x in proven
      ensures Discarded(x) in more
    {
      var i :| 0 <= i < |proven| && proven[i] == x;
      assert more[|trace| + 1 + i] == Discarded(x);
    }
    assert forall j | |trace| < j < |more| :: more[j].Discarded?;
    forall j | 0 <= j < |more|
      ensures CandidateOk(more, j)
    {
      if j < |trace| {
        assert more[j] == trace[j] && CandidateOk(trace, j);
        AckedOneCandidate(trace, more, j, id, held);
      }
    }
    forall j | 0 <= j < |more| && more[j].Delivered? && more[j].verdict == Candidate
      ensures exists k :: j < k < |more| && IsAck(more[k])
    {
      assert j < |trace| && IsAck(more[|trace|]);
    }
  }

  lemma AckedOneCandidate(trace: seq<Event>, more: seq<Event>, j: nat, id: nat, held: seq<nat>)
    requires j < |trace| < |more| && more[j] == trace[j] && CandidateOk(trace, j) && OpenOnesAreHeld(trace, held)
    requires (forall x | x in trace :: x in more) && Delivered(id, Acked) in more
    requires forall x | x in held && x != id :: Discarded(x) in more
    ensures CandidateOk(more, j)
  {
    if trace[j].Delivered? && trace[j].verdict == Candidate && trace[j].id !in held {
      var k :| j < k < |trace| && IsAck(trace[k]);
    }
  }

  // ----- The run follows its trace -----

  /** A run stops for an unavailable gateway, or for as many candidates as count as a uniform failure. */
  ghost predicate MayStop(trace: seq<Event>, uniformLimit: nat) {
    || (trace != [] && trace[|trace| - 1].Delivered? && trace[|trace| - 1].verdict == Unavailable)
    || |Pending(trace)| >= Max(1, uniformLimit)
  }

  ghost predicate Follows(s: Scan, o: Options) {
    && Distinct(s.held) && Members(s.held) == Pending(s.trace)
    && s.cursor == Reached(s.trace, o.cursor) && s.calls == Calls(Walk(s.trace))
    && CandidatesOk(s.trace) && OpenOnesAreHeld(s.trace, s.held)
    && (s.halted ==> MayStop(s.trace, o.uniformLimit))
    && (!s.halted ==> |s.held| < Max(1, o.uniformLimit))
    && |s.held| <= Max(1, o.uniformLimit)
  }

  /** What the run does with a message: a blank one is passed, and any other handed to the callback. */
  function Dealt(m: Message, calls: nat, deliver: Deliver, o: Options): Event {
    if o.skipEmpty && m.blank then PassedBlank(m.id) else Delivered(m.id, deliver(calls, m))
  }

  lemma AckFollows(s: Scan, id: nat, o: Options) returns (t: Scan)
    requires Follows(s, o) && !s.halted
    ensures t == React(s, id, Acked, o.uniformLimit) && Follows(t, o)
    ensures Walk(t.trace) == Walk(s.trace) + [Delivered(id, Acked)]
  {
    var proven;
    t, proven := AckFacts(s, id, o.uniformLimit);
    assert t.calls == s.calls + 1;
    Snoc(s.trace, Delivered(id, Acked), o.cursor);
    Snoc(Walk(s.trace), Delivered(id, Acked), o.cursor);
    DiscardsAreSilent(s.trace + [Delivered(id, Acked)], proven, o.cursor);
    AckAnswersCandidates(s.trace, id, s.held, proven);
    assert Members([]) == {};
  }

  lemma CandidateFollows(s: Scan, id: nat, o: Options) returns (t: Scan)
    requires Follows(s, o) && !s.halted
    ensures t == React(s, id, Candidate, o.uniformLimit) && Follows(t, o)
    ensures Walk(t.trace) == Walk(s.trace) + [Delivered(id, Candidate)]
  {
    t := React(s, id, Candidate, o.uniformLimit);
    var e := Delivered(id, Candidate);
    assert t.trace == s.trace + [e] && t.calls == s.calls + 1;
    Snoc(s.trace, e, o.cursor);
    Snoc(Walk(s.trace), e, o.cursor);
    QuietEventKeepsCandidates(s.trace, e, s.held, t.held);
    assert Members(t.held) == Members(s.held) + {id};
    DistinctCounts(t.held);
  }

  /** Everything else leaves the candidates alone. */
  lemma OtherFollows(s: Scan, e: Event, t: Scan, o: Options)
    requires Follows(s, o) && !s.halted && !IsAck(e) && !e.Discarded?
    requires !(e.Delivered? && e.verdict == Candidate)
    requires t.trace == s.trace + [e] && t.held == s.held && t.calls == s.calls + if e.Delivered? then 1 else 0
    requires t.halted <==> e.Delivered? && e.verdict == Unavailable
    requires t.cursor == if s.held == [] && !t.halted then e.id else s.cursor
    ensures Follows(t, o) && Walk(t.trace) == Walk(s.trace) + [e]
  {
    Snoc(s.trace, e, o.cursor);
    Snoc(Walk(s.trace), e, o.cursor);
    QuietEventKeepsCandidates(s.trace, e, s.held, t.held);
    assert s.held != [] ==> s.held[0] in Members(s.held);
    assert s.held == [] <==> Members(s.held) == {};
  }

  lemma ProcessFollows(s: Scan, m: Message, deliver: Deliver, o: Options) returns (t: Scan)
    requires Follows(s, o) && !s.halted
    ensures t == Process(s, m, deliver, o) && Follows(t, o)
    ensures Walk(t.trace) == Walk(s.trace) + [Dealt(m, s.calls, deliver, o)]
  {
    var e := Dealt(m, s.calls, deliver, o);
    t := Process(s, m, deliver, o);
    if IsAck(e) {
      var same := AckFollows(s, m.id, o);
    } else if e.Delivered? && e.verdict == Candidate {
      var same := CandidateFollows(s, m.id, o);
    } else {
      OtherFollows(s, e, t, o);
    }
  }

  /** Step `i` of the walk deals with message `i`. */
  ghost predicate DealsAt(walk: seq<Event>, window: seq<Message>, deliver: Deliver, o: Options, i: nat)
    requires i < |walk| && i < |window|
  {
    walk[i] == Dealt(window[i], Calls(walk[..i]), deliver, o)
  }

  ghost predicate Deals(walk: seq<Event>, window: seq<Message>, deliver: Deliver, o: Options) {
    && |walk| <= |window|
    && forall i {:trigger DealsAt(walk, window, deliver, o, i)} | 0 <= i < |walk| ::
         DealsAt(walk, window, deliver, o, i)
  }

  lemma DealsOneMore(walk: seq<Event>, window: seq<Message>, deliver: Deliver, o: Options)
    requires Deals(walk, window, deliver, o) && |walk| < |window|
    ensures Deals(walk + [Dealt(window[|walk|], Calls(walk), deliver, o)], window, deliver, o)
  {
    var more := walk + [Dealt(window[|walk|], Calls(walk), deliver, o)];
    forall i | 0 <= i < |more|
      ensures DealsAt(more, window, deliver, o, i)
    {
      assert more[..i] == walk[..i];
      if i < |walk| {
        assert DealsAt(walk, window, deliver, o, i);
      } else {
        assert walk[..i] == walk;
      }
    }
  }

  /** The loop over a window deals with it from the front, all of it unless it may stop. */
  lemma {:induction false} ProcessAllFollows(
    s: Scan, window: seq<Message>, done: nat, deliver: Deliver, o: Options) returns (t: Scan)
    requires Follows(s, o) && done <= |window| && |Walk(s.trace)| == done && Deals(Walk(s.trace), window, deliver, o)
    ensures t == ProcessAll(s, window[done..], deliver, o) && Follows(t, o)
    ensures Deals(Walk(t.trace), window, deliver, o) && (!t.halted ==> |Walk(t.trace)| == |window|)
    decreases |window| - done
  {
    if s.halted || done == |window| {
      t := s;
    } else {
      assert window[done..][0] == window[done] && window[done..][1..] == window[done + 1..];
      var u := ProcessFollows(s, window[done], deliver, o);
      DealsOneMore(Walk(s.trace), window, deliver, o);
      t := ProcessAllFollows(u, window, done + 1, deliver, o);
    }
  }

  // ----- Whole runs -----

  /** What outcome and trace have to do with each other, whatever the port and the gateway answer. */
  ghost predicate TraceTells(r: Outcome, trace: seq<Event>, o: Options) {
    && r.advancedTo == Reached(trace, o.cursor)
    && r.held == |Pending(trace)| <= Max(1, o.uniformLimit)
    && CandidatesOk(trace)
  }

  lemma FollowingTells(s: Scan, o: Options, truncated: bool, failed: bool, fetchError: Option<bool>)
    requires Follows(s, o)
    ensures TraceTells(Report(s, truncated, failed, fetchError), s.trace, o)
  {
    DistinctCounts(s.held);
  }

  lemma {:induction false} LoopFollows(s: Scan, batch: seq<Message>, deliver: Deliver, o: Options) returns (t: Scan)
    requires Follows(s, o)
    ensures t == ProcessAll(s, batch, deliver, o) && Follows(t, o)
    decreases |batch|
  {
    t := s;
    if !s.halted && batch != [] {
      var u := ProcessFollows(s, batch[0], deliver, o);
      t := LoopFollows(u, batch[1..], deliver, o);
    }
  }

  lemma {:induction false} PagesFollow(s: Scan, page: nat, history: History, deliver: Deliver, o: Options)
    returns (last: Scan)
    requires page <= o.maxPages && Follows(s, o)
    ensures Follows(last, o)
    ensures var (r, trace) := Pages(s, page, history, deliver, o);
            r == Report(last, r.truncated, r.failed, r.fetchError) && trace == last.trace
    decreases o.maxPages - page
  {
    last := s;
    if page < o.maxPages && history(page, s.scanCursor).Page? {
      var batch := Normalized(history(page, s.scanCursor).messages, s.scanCursor);
      if batch != [] {
        last := LoopFollows(s, batch, deliver, o);
        if !last.halted && |batch| >= o.pageLimit {
          last := PagesFollow(last, page + 1, history, deliver, o);
        }
      }
    }
  }

  lemma BeginFollows(o: Options)
    ensures Follows(Begin(o.cursor), o)
  {
    assert Members([]) == {};
  }

  /**
   Whatever the port and the gateway answer, the outcome is what the trace says: `advancedTo`
   is the id of the last fresh ack, or the last one walked since while no candidate was
   pending; as many are held as are pending, never more than count as a uniform failure; and
   every candidate that a fresh ack followed was discarded, or acked itself.
   */
  lemma OutcomeFollowsTheTrace(history: History, deliver: Deliver, o: Options)
    ensures var (r, trace) := Recover(history, deliver, o); TraceTells(r, trace, o)
  {
    BeginFollows(o);
    var last := PagesFollow(Begin(o.cursor), 0, history, deliver, o);
    var r := Recover(history, deliver, o).0;
    FollowingTells(last, o, r.truncated, r.failed, r.fetchError);
  }

  /**
   A run goes on: against an honest port it deals with the reachable gap from the front, each
   message as it is, and with all of it unless its last answer was "unavailable" or as many
   candidates are pending as count as a uniform failure.
   */
  lemma RunsGoOn(h: seq<Message>, history: History, deliver: Deliver, o: Options)
    requires StrictlyAscending(h) && Honest(h, history, o.pageLimit) && o.pageLimit > 0
    ensures var trace := Recover(history, deliver, o).1;
            var gap := Above(h, o.cursor);
            var window := gap[..Min(o.maxPages * o.pageLimit, |gap|)];
            && Deals(Walk(trace), window, deliver, o)
            && (|Walk(trace)| < |window| ==> MayStop(trace, o.uniformLimit))
  {
    PagingIsUnobservable(h, history, deliver, o);
    FoldGoesOnToTheEnd(Above(h, o.cursor), o.maxPages * o.pageLimit, deliver, o);
  }

  lemma FoldGoesOnToTheEnd(gap: seq<Message>, reach: nat, deliver: Deliver, o: Options)
    ensures var trace := OneFold(Begin(o.cursor), gap, reach, deliver, o).1;
            var window := gap[..Min(reach, |gap|)];
            && Deals(Walk(trace), window, deliver, o)
            && (|Walk(trace)| < |window| ==> MayStop(trace, o.uniformLimit))
  {
    var window := gap[..Min(reach, |gap|)];
    BeginFollows(o);
    var t := ProcessAllFollows(Begin(o.cursor), window, 0, deliver, o);
    assert window[0..] == window;
  }
}
