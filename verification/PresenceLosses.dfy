/**
 When a change to a wanted presence entry is lost (packages/adapter-slack/src/status.ts,
 packages/adapter-discord/src/main.ts): exactly when the loop stops on the spot with the
 continuation mark set.
 */
module PresenceLosses {
  import opened Collections
  import opened Presence
  import opened PresenceLaws

  // ----- Where the loop stops -----

  function ToRemove(p: Phase): seq<Marker> {
    match p
    case SettingStatus(_, _, remove, _) => remove
    case Resolving(_, remove, _) => remove
    case Removing(_, remove, _) => remove
    case Cleaning(names) => names
    case _ => []
  }

  function ToAdd(p: Phase): seq<Marker> {
    match p
    case SettingStatus(_, _, _, add) => add
    case Resolving(_, _, add) => add
    case Removing(_, _, add) => add
    case Adding(_, add) => add
    case _ => []
  }

  predicate Last(pass: nat) {
    pass + 1 >= RECONCILE_MAX_PASSES
  }

  /**
   The answer ends the loop of a wanted entry on the spot, without another look at what is
   desired: a refused resolve in any pass, whatever was marked meanwhile; the end of the last
   pass or of the clean-up; and, while nothing is marked, a refused addition or a pass that had
   nothing but the line to set.
   */
  predicate Stops(e: Entry, ok: bool) {
    match e.phase
    case Idle => false
    case SettingStatus(pass, _, remove, add) => remove == [] && add == [] && (Last(pass) || !e.pending)
    case Resolving(_, _, _) => !ok && !e.resolved
    case Removing(pass, remove, add) => Last(pass) && |remove| == 1 && add == []
    case Adding(pass, add) => if ok then Last(pass) && |add| == 1 else Last(pass) || !e.pending
    case Cleaning(names) => |names| == 1
  }

  /** What such an answer leaves shown. */
  predicate Leaves(e: Entry, ok: bool, m: Marker) {
    if e.phase.Resolving? then m in e.shown
    else (m in e.shown && m !in ToRemove(e.phase)) || (ok && m in ToAdd(e.phase))
  }

  /** The loop is not over, or it ended with nothing marked and, as to marker `m`, what is desired. */
  predicate Looked(r: Entry, m: Marker) {
    r.phase == Idle ==> !r.pending && (m in r.shown <==> m in Desired(r))
  }

  lemma StartPassLooks(e: Entry, pass: nat, m: Marker) returns (r: Entry)
    requires pass < RECONCILE_MAX_PASSES && e.wanted
    ensures r == StartPass(e, pass) && Looked(r, m)
  {
    r := StartPass(e, pass);
    StartPassSettles(e, pass, m);
    var f := e.(pending := false);
    var remove, add := Except(f.shown, Desired(f)), Except(Desired(f), f.shown);
    if (remove != [] || add != []) && !f.kind.resolves { ChangesGoOn(f, pass, remove, add); }
  }

  /** A wanted entry with something to remove or to add goes on to do it. */
  lemma ChangesGoOn(e: Entry, pass: nat, remove: seq<Marker>, add: seq<Marker>)
    requires pass < RECONCILE_MAX_PASSES && e.wanted && (remove != [] || add != [])
    ensures AfterResolve(e, pass, remove, add).phase != Idle && AfterStatus(e, pass, remove, add).phase != Idle
  {
    if remove == [] { assert AfterResolve(e, pass, remove, add) == AddMore(e, pass, add); }
  }

  /** What follows a pass: the next one, which looks, unless it was the last. */
  lemma NextPass(e: Entry, pass: nat, m: Marker) returns (r: Entry)
    requires pass < RECONCILE_MAX_PASSES && e.wanted
    ensures r == StartPass(e, pass + 1)
    ensures if Last(pass) then r == e.(phase := Idle) else Looked(r, m)
  {
    if Last(pass) {
      r := Finish(e);
    } else {
      r := StartPassLooks(e, pass + 1, m);
    }
  }

  lemma AddMoreEnds(e: Entry, pass: nat, add: seq<Marker>, m: Marker) returns (r: Entry)
    requires pass < RECONCILE_MAX_PASSES && e.wanted
    ensures r == AddMore(e, pass, add)
    ensures if Last(pass) && add == [] then r == e.(phase := Idle) else Looked(r, m)
  {
    if add == [] {
      r := NextPass(e, pass, m);
    } else {
      r := e.(phase := Adding(pass, add));
    }
  }

  lemma StatusEnds(e: Entry, pass: nat, remove: seq<Marker>, add: seq<Marker>, m: Marker) returns (r: Entry)
    requires pass < RECONCILE_MAX_PASSES && e.wanted
    ensures r == AfterStatus(e, pass, remove, add)
    ensures if remove == [] && add == [] && (Last(pass) || !e.pending) then r == e.(phase := Idle) else Looked(r, m)
  {
    if remove != [] || add != [] {
      r := AfterStatus(e, pass, remove, add);
      ChangesGoOn(e, pass, remove, add);
    } else if e.pending {
      r := NextPass(e, pass, m);
    } else {
      r := e.(phase := Idle);
    }
  }

  lemma AdditionEnds(e: Entry, pass: nat, add: seq<Marker>, m: Marker) returns (r: Entry)
    requires e.phase == Adding(pass, add) && InLoop(e.phase) && e.wanted
    ensures r == Resumed(e, true)
    ensures if Stops(e, true) then r == Left(e, true).(phase := Idle) else Looked(r, m)
  {
    r := AddMoreEnds(Presented(e, add[0]), pass, add[1..], m);
  }

  lemma RefusalEnds(e: Entry, ok: bool, pass: nat, add: seq<Marker>, m: Marker) returns (r: Entry)
    requires e.phase == Adding(pass, add) && InLoop(e.phase) && e.wanted && !ok
    ensures r == Resumed(e, ok)
    ensures if Last(pass) || !e.pending then r == e.(phase := Idle) else Looked(r, m)
  {
    if e.pending {
      r := NextPass(e, pass, m);
      RefusalGoesOn(e, ok, pass, add, r);
    } else {
      r := e.(phase := Idle);
    }
  }

  lemma RemovalEnds(e: Entry, ok: bool, pass: nat, remove: seq<Marker>, add: seq<Marker>, m: Marker)
    returns (r: Entry)
    requires e.phase == Removing(pass, remove, add) && InLoop(e.phase) && e.wanted
    ensures r == Resumed(e, ok)
    ensures if Stops(e, ok) then r == Left(e, ok).(phase := Idle) else Looked(r, m)
  {
    var f := TookOff(e, remove[0]);
    if |remove| == 1 {
      r := AddMoreEnds(f, pass, add, m);
    } else {
      r := f.(phase := Removing(pass, remove[1..], add));
    }
  }

  lemma ResolveEnds(e: Entry, ok: bool, pass: nat, remove: seq<Marker>, add: seq<Marker>) returns (r: Entry)
    requires e.phase == Resolving(pass, remove, add) && InLoop(e.phase) && e.wanted
    ensures r == Resumed(e, ok)
    ensures if Stops(e, ok) then r == Left(e, ok).(phase := Idle) else r.phase != Idle
  {
    r := Resumed(e, ok);
    if ok || e.resolved { ChangesGoOn(e.(resolved := true), pass, remove, add); }
  }

  /** The entry after an answer that stops the loop. */
  function Left(e: Entry, ok: bool): Entry
    requires InLoop(e.phase)
  {
    match e.phase
    case SettingStatus(_, line, _, _) => e.(shownLine := line)
    case Resolving(_, _, _) => e
    case Removing(_, remove, _) => TookOff(e, remove[0])
    case Adding(_, add) => if ok then Presented(e, add[0]) else e
    case Cleaning(names) => TookOff(e, names[0])
  }

  lemma AnswerEnds(e: Entry, ok: bool, m: Marker) returns (r: Entry)
    requires InLoop(e.phase) && e.wanted
    ensures r == Resumed(e, ok)
    ensures if Stops(e, ok) then r == Left(e, ok).(phase := Idle) else Looked(r, m)
  {
    match e.phase
    case SettingStatus(pass, line, remove, add) => r := StatusEnds(e.(shownLine := line), pass, remove, add, m);
    case Resolving(pass, remove, add) => r := ResolveEnds(e, ok, pass, remove, add);
    case Removing(pass, remove, add) => r := RemovalEnds(e, ok, pass, remove, add, m);
    case Adding(pass, add) =>
      if ok {
        r := AdditionEnds(e, pass, add, m);
      } else {
        r := RefusalEnds(e, ok, pass, add, m);
      }
    case Cleaning(_) => r := Resumed(e, ok);
  }

  lemma LeftShows(e: Entry, ok: bool, m: Marker)
    requires InLoop(e.phase) && Stops(e, ok)
    ensures m in Left(e, ok).shown <==> Leaves(e, ok, m)
  {
    match e.phase
    case Removing(_, remove, _) => assert remove == [remove[0]];
    case Adding(_, add) => if ok { assert add == [add[0]]; }
    case Cleaning(names) => assert names == [names[0]];
    case _ =>
  }

  /**
   Exactly when a change to a wanted entry is lost, for every answer in every pass: a change
   came while the call was under way, and its answer stops the loop on the spot. The entry then
   shows what the pass had come to, right or wrong; in every other case the loop goes on, or
   ends with exactly the desired markers shown.
   */
  lemma ChangesAreLostIff(e: Entry, ok: bool)
    requires InLoop(e.phase) && e.wanted
    ensures var r := Resumed(e, ok);
            && (r.phase == Idle && r.pending <==> Stops(e, ok) && e.pending)
            && (Stops(e, ok) ==> r.phase == Idle && Desired(r) == Desired(e)
                                 && forall m :: m in r.shown <==> Leaves(e, ok, m))
            && (!Stops(e, ok) && r.phase == Idle ==> forall m :: m in r.shown <==> m in Desired(r))
  {
    var r := AnswerEnds(e, ok, 0);
    forall m: Marker
      ensures if Stops(e, ok) then m in r.shown <==> Leaves(e, ok, m) else Looked(r, m)
    {
      var same := AnswerEnds(e, ok, m);
      if Stops(e, ok) { LeftShows(e, ok, m); }
    }
  }

  /** With nothing marked a good answer that stops the loop leaves exactly the desired markers. */
  lemma UnmarkedLoopsEndSettled(e: Entry)
    requires Good(e) && InLoop(e.phase) && e.wanted && !e.pending && !e.phase.Cleaning? && Stops(e, true)
    ensures forall m :: m in Resumed(e, true).shown <==> m in Desired(Resumed(e, true))
  {
    ChangesAreLostIff(e, true);
    forall m: Marker
      ensures Leaves(e, true, m) <==> m in Desired(e)
    {}
  }

  /** Nothing but such an answer leaves a wanted entry with a change that no loop will look at. */
  lemma OnlyAnswersLoseChanges(states: seq<Entry>, events: seq<Event>, n: nat)
    requires Life(states, events) && n <= |events|
    requires states[n].phase == Idle && states[n].wanted && states[n].pending
    ensures n > 0 && events[n - 1].Answer? && InLoop(states[n - 1].phase)
    ensures states[n - 1].wanted && states[n - 1].pending && Stops(states[n - 1], events[n - 1].ok)
  {
    if n == 0 {
      var markers, line, wanted :| states[0] == Fresh(states[0].kind, markers, line, wanted);
      var r := StartPassLooks(Entry(states[0].kind, markers, line, wanted, [], 0, false, false, Idle, []), 0, 0);
    } else {
      assert StepAt(states, events, n - 1);
      var e, event := states[n - 1], events[n - 1];
      if event.Answer? {
        AnswersMoveTheLoopOn(e, event.ok);
        ChangesAreLostIff(e, event.ok);
      } else {
        OtherEventsLook(e, event);
      }
    }
  }

  /** A change to an entry without a loop starts one, which looks. */
  lemma OtherEventsLook(e: Entry, event: Event)
    requires !event.Answer? && React(e, event).wanted
    ensures React(e, event).phase == Idle ==> !React(e, event).pending
  {
    if e.phase == Idle {
      var f := e;
      if event.Rearm? {
        f := e.(wanted := event.wanted, markers := event.markers, line := event.line);
      } else if event.Progress? {
        f := e.(markers := event.markers, line := event.line);
      } else {
        f := e.(shownLine := 0);
      }
      var r := StartPassLooks(f, 0, 0);
    }
  }

  // ----- Two lives in which a change is lost -----

  /** A removable entry about to add the one marker it wants, in the given pass. */
  ghost predicate AboutToAdd(e: Entry, pass: nat, x: Marker) {
    && e.kind == Kind(false, false, true) && e.wanted && !e.pending && e.markers == [x] && e.shown == []
    && e.phase == Adding(pass, [x])
  }

  lemma OneMarker(x: Marker)
    ensures AsSet([x]) == [x]
  {
    assert [x][..0] == [];
  }

  /** The markers change while the addition is under way: its answer starts a pass that takes it off again. */
  lemma ChangeStartsAPass(e: Entry, pass: nat, x: Marker, y: Marker) returns (a: Entry, b: Entry)
    requires AboutToAdd(e, pass, x) && x != y && pass + 1 < RECONCILE_MAX_PASSES
    ensures a == React(e, Progress([y], 0)) && a.phase == e.phase && b == React(a, Answer(true))
    ensures b.kind == e.kind && b.wanted && !b.pending && b.markers == [y] && b.shown == [x]
    ensures b.phase == Removing(pass + 1, [x], [y])
  {
    a := e.(markers := [y], line := 0, pending := true);
    var f := Presented(a, x);
    assert f.shown == [x];
    b := OtherMarkerPass(f, pass + 1, x, y);
    LastAdditionGoesOn(a, pass, x, f, b);
  }

  lemma LastAdditionGoesOn(e: Entry, pass: nat, x: Marker, f: Entry, r: Entry)
    requires e.phase == Adding(pass, [x]) && InLoop(e.phase) && f == Presented(e, x) && r == StartPass(f, pass + 1)
    ensures React(e, Answer(true)) == r
  {
    assert AddMore(f, pass, []) == r;
  }

  /** A pass that finds one marker shown and another one desired. */
  lemma OtherMarkerPass(e: Entry, pass: nat, x: Marker, y: Marker) returns (r: Entry)
    requires e.kind == Kind(false, false, true) && e.wanted && e.markers == [y] && e.shown == [x]
    requires x != y && pass < RECONCILE_MAX_PASSES
    ensures r == StartPass(e, pass) && r == e.(pending := false, phase := Removing(pass, [x], [y]))
  {
    OneMarker(y);
    var f := e.(pending := false);
    assert Desired(f) == [y];
    assert Except([x], [y]) == [x] && Except([y], [x]) == [y];
    r := f.(phase := Removing(pass, [x], [y]));
    assert StartPass(e, pass) == AfterStatus(f, pass, [x], [y]) == r;
  }

  lemma LifeGoesOn(states: seq<Entry>, events: seq<Event>, event: Event)
    returns (more: seq<Entry>, all: seq<Event>)
    requires Life(states, events) && Possible(states[|events|], event)
    ensures Life(more, all) && |all| == |events| + 1 && more[|all|] == React(states[|events|], event)
    ensures all == events + [event] && forall i | 0 <= i <= |events| :: more[i] == states[i]
  {
    more, all := states + [React(states[|events|], event)], events + [event];
    forall i | 0 <= i < |all|
      ensures StepAt(more, all, i)
    {
      if i < |events| { assert StepAt(states, events, i); }
    }
  }

  /** A marker changed in every pass keeps the loop busy up to any pass. */
  lemma {:induction false} LifeUpToPass(pass: nat, x: Marker, y: Marker)
    returns (states: seq<Entry>, events: seq<Event>)
    requires pass < RECONCILE_MAX_PASSES && x != y
    ensures Life(states, events) && AboutToAdd(states[|events|], pass, x)
  {
    if pass == 0 {
      var e := FirstPass(x);
      states, events := [e], [];
    } else {
      states, events := LifeUpToPass(pass - 1, y, x);
      var a, b := ChangeStartsAPass(states[|events|], pass - 1, y, x);
      var c := RemovalIsNext(b, pass, y, x);
      states, events := LifeGoesOn(states, events, Progress([x], 0));
      states, events := LifeGoesOn(states, events, Answer(true));
      states, events := LifeGoesOn(states, events, Answer(true));
    }
  }

  lemma FirstPass(x: Marker) returns (e: Entry)
    ensures Born(e) && AboutToAdd(e, 0, x)
  {
    e := Fresh(Kind(false, false, true), [x], 0, true);
    OneMarker(x);
    assert Except([x], []) == [x];
  }

  lemma RemovalIsNext(e: Entry, pass: nat, x: Marker, y: Marker) returns (f: Entry)
    requires e.kind == Kind(false, false, true) && e.wanted && !e.pending && e.markers == [y] && e.shown == [x]
    requires e.phase == Removing(pass, [x], [y]) && pass < RECONCILE_MAX_PASSES
    ensures f == React(e, Answer(true)) && AboutToAdd(f, pass, y)
  {
    assert Without([x], x) == [];
    f := TookOff(e, x).(phase := Adding(pass, [y]));
    assert AddMore(TookOff(e, x), pass, [y]) == f;
  }

  /** A lost change, as a life: the markers change in each of eight passes, and the last change never shows. */
  lemma ALateChangeIsLost(x: Marker, y: Marker) returns (states: seq<Entry>, events: seq<Event>)
    requires x != y
    ensures Life(states, events)
    ensures var e := states[|events|];
            e.phase == Idle && e.wanted && e.pending && e.markers == [y] && e.shown == [x]
  {
    states, events := LifeUpToPass(RECONCILE_MAX_PASSES - 1, x, y);
    var a, b := LastChange(states[|events|], RECONCILE_MAX_PASSES - 1, x, y);
    states, events := LifeGoesOn(states, events, Progress([y], 0));
    states, events := LifeGoesOn(states, events, Answer(true));
  }

  lemma LastChange(e: Entry, pass: nat, x: Marker, y: Marker) returns (a: Entry, b: Entry)
    requires AboutToAdd(e, pass, x) && pass == RECONCILE_MAX_PASSES - 1
    ensures a == React(e, Progress([y], 0)) && a.phase == e.phase && b == React(a, Answer(true))
    ensures b.phase == Idle && b.wanted && b.pending && b.markers == [y] && b.shown == [x]
  {
    a := e.(markers := [y], line := 0, pending := true);
    var f := Presented(a, x);
    assert f.shown == [x];
    assert Resumed(a, true) == AddMore(f, pass, []) == StartPass(f, pass + 1) == Finish(f);
    b := f.(phase := Idle);
  }

  /**
   A lost change in the first pass, as a life: the message cannot be resolved, and what was asked
   for meanwhile stays marked with no loop to look at it.
   */
  lemma AFailedResolveLosesAChange(x: Marker, y: Marker) returns (states: seq<Entry>, events: seq<Event>)
    ensures Life(states, events) && events == [Progress([y], 0), Answer(false)]
    ensures var e := states[2]; e.phase == Idle && e.wanted && e.pending && e.markers == [y] && e.shown == []
  {
    var e := FirstResolve(x);
    var a, b := ResolveFails(e, y);
    states, events := [e], [];
    states, events := LifeGoesOn(states, events, Progress([y], 0));
    states, events := LifeGoesOn(states, events, Answer(false));
  }

  lemma FirstResolve(x: Marker) returns (e: Entry)
    ensures Born(e) && e.wanted && e.shown == [] && !e.resolved
    ensures e.phase.Resolving? && InLoop(e.phase)
  {
    e := Fresh(Kind(false, true, true), [x], 0, true);
    OneMarker(x);
    assert Except([x], []) == [x];
  }

  lemma ResolveFails(e: Entry, y: Marker) returns (a: Entry, b: Entry)
    requires e.wanted && e.shown == [] && !e.resolved && e.phase.Resolving? && InLoop(e.phase)
    ensures a == React(e, Progress([y], 0)) && a.phase == e.phase && b == React(a, Answer(false))
    ensures b.phase == Idle && b.wanted && b.pending && b.markers == [y] && b.shown == []
  {
    a := e.(markers := [y], line := 0, pending := true);
    b := a.(phase := Idle);
  }
}
