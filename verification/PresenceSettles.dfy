/**
 What a presence entry comes to show when it is left alone with good answers
 (packages/adapter-slack/src/status.ts, packages/adapter-discord/src/main.ts).
 */
module PresenceSettles {
  import opened Collections
  import opened Presence
  import opened PresenceLaws
  import opened PresenceLosses

  // ----- A loop left alone -----

  /** Nothing is marked, or a pass is left to look at it. */
  predicate WillLook(e: Entry) {
    !e.phase.Cleaning? && (e.pending ==> PassOf(e.phase) + 1 < RECONCILE_MAX_PASSES)
  }

  /** A pass starts with nothing marked, and only an unwanted entry is ever cleaned up. */
  lemma StartPassIsUnmarked(e: Entry, pass: nat) returns (r: Entry)
    requires pass <= RECONCILE_MAX_PASSES && e.wanted
    ensures r == StartPass(e, pass) && !r.phase.Cleaning?
    ensures r.phase != Idle ==> !r.pending
  {
    r := StartPass(e, pass);
    if pass < RECONCILE_MAX_PASSES {
      var f := e.(pending := false);
      var remove, add := Except(f.shown, Desired(f)), Except(Desired(f), f.shown);
      if !(f.kind.threaded && f.shownLine != DesiredLine(f)) {
        var same := UnmarkedDiff(f, pass, remove, add);
      }
    }
  }

  lemma UnmarkedDiff(e: Entry, pass: nat, remove: seq<Marker>, add: seq<Marker>) returns (r: Entry)
    requires pass < RECONCILE_MAX_PASSES && e.wanted && !e.pending
    ensures r == AfterStatus(e, pass, remove, add) && !r.phase.Cleaning? && !r.pending
  {
    if remove == [] && add == [] {
      r := e.(phase := Idle);
    } else if e.kind.resolves {
      r := e.(phase := Resolving(pass, remove, add));
    } else if remove != [] {
      r := e.(phase := Removing(pass, remove, add));
    } else {
      r := e.(phase := Adding(pass, add));
      assert AfterResolve(e, pass, remove, add) == AddMore(e, pass, add) == r;
    }
  }

  /** What is still marked after an answer was marked before it, in the same pass. */
  ghost predicate SamePassOrUnmarked(e: Entry, pass: nat, r: Entry) {
    && !r.phase.Cleaning?
    && (r.phase != Idle && r.pending ==> e.pending && PassOf(r.phase) == pass)
  }

  lemma AddMoreMarks(e: Entry, pass: nat, add: seq<Marker>) returns (r: Entry)
    requires pass < RECONCILE_MAX_PASSES && e.wanted
    ensures r == AddMore(e, pass, add) && SamePassOrUnmarked(e, pass, r)
  {
    if add == [] {
      r := StartPassIsUnmarked(e, pass + 1);
    } else {
      r := e.(phase := Adding(pass, add));
    }
  }

  lemma AfterResolveMarks(e: Entry, pass: nat, remove: seq<Marker>, add: seq<Marker>) returns (r: Entry)
    requires pass < RECONCILE_MAX_PASSES && e.wanted
    ensures r == AfterResolve(e, pass, remove, add) && SamePassOrUnmarked(e, pass, r)
  {
    if remove == [] {
      r := AddMoreMarks(e, pass, add);
    } else {
      r := e.(phase := Removing(pass, remove, add));
    }
  }

  lemma AfterStatusMarks(e: Entry, pass: nat, remove: seq<Marker>, add: seq<Marker>) returns (r: Entry)
    requires pass < RECONCILE_MAX_PASSES && e.wanted
    ensures r == AfterStatus(e, pass, remove, add) && SamePassOrUnmarked(e, pass, r)
  {
    if remove == [] && add == [] {
      if e.pending {
        r := StartPassIsUnmarked(e, pass + 1);
      } else {
        r := e.(phase := Idle);
      }
    } else if e.kind.resolves {
      r := e.(phase := Resolving(pass, remove, add));
    } else {
      r := AfterResolveMarks(e, pass, remove, add);
    }
  }

  lemma GoodAnswersKeepLooking(e: Entry) returns (r: Entry)
    requires InLoop(e.phase) && e.wanted && WillLook(e)
    ensures r == Resumed(e, true) && (r.phase != Idle ==> WillLook(r))
  {
    match e.phase
    case SettingStatus(pass, line, remove, add) => r := AfterStatusMarks(e.(shownLine := line), pass, remove, add);
    case Resolving(pass, remove, add) => r := AfterResolveMarks(e.(resolved := true), pass, remove, add);
    case Removing(pass, remove, add) => r := RemovalMarks(e, pass, remove, add);
    case Adding(pass, add) => r := AddMoreMarks(Presented(e, add[0]), pass, add[1..]);
  }

  lemma RemovalMarks(e: Entry, pass: nat, remove: seq<Marker>, add: seq<Marker>) returns (r: Entry)
    requires e.phase == Removing(pass, remove, add) && InLoop(e.phase) && e.wanted
    ensures r == Resumed(e, true) && SamePassOrUnmarked(e, pass, r)
  {
    var f := TookOff(e, remove[0]);
    if |remove| > 1 {
      r := f.(phase := Removing(pass, remove[1..], add));
    } else {
      r := AddMoreMarks(f, pass, add);
    }
  }

  /** The answer that ends such a loop leaves exactly the desired markers. */
  lemma LastGoodAnswer(e: Entry, m: Marker)
    requires Good(e) && InLoop(e.phase) && e.wanted && WillLook(e) && Resumed(e, true).phase == Idle
    ensures (m in Resumed(e, true).shown <==> m in Desired(e)) && !Resumed(e, true).pending
  {
    ChangesAreLostIff(e, true);
    if Stops(e, true) && !e.pending { UnmarkedLoopsEndSettled(e); }
    assert Desired(Resumed(e, true)) == Desired(e);
  }

  ghost predicate AllGood(answers: nat -> bool) {
    forall n :: answers(n)
  }

  lemma {:induction false} GoodLoopsSettle(e: Entry, answers: nat -> bool, n: nat, m: Marker)
    requires Good(e) && InLoop(e.phase) && e.wanted && WillLook(e) && AllGood(answers)
    ensures (m in Drive(e, answers, n).shown <==> m in Desired(e)) && !Drive(e, answers, n).pending
    decreases RECONCILE_MAX_PASSES + 1 - PassOf(e.phase), Stage(e.phase), Names(e.phase)
  {
    assert answers(n);
    AnswersMoveTheLoopOn(e, true);
    var r := GoodAnswersKeepLooking(e);
    if r.phase == Idle {
      LastGoodAnswer(e, m);
    } else {
      ResumeIsGood(e, true);
      OnlyLocalsMove(e, true);
      GoodLoopsSettle(r, answers, n + 1, m);
    }
  }

  /** No answer changes what is wanted. */
  lemma OnlyLocalsMove(e: Entry, ok: bool)
    requires InLoop(e.phase)
    ensures var r := Resumed(e, ok);
            r.markers == e.markers && r.line == e.line && r.wanted == e.wanted && r.kind == e.kind
  {
    match e.phase
    case Removing(_, remove, _) => assert TookOff(e, remove[0]).markers == e.markers;
    case Adding(_, add) => assert Presented(e, add[0]).markers == e.markers;
    case Cleaning(names) => assert TookOff(e, names[0]).markers == e.markers;
    case _ =>
  }

  // ----- The line -----

  /** With nothing marked the line is the one asked for, or is on its way. */
  predicate LineTracks(e: Entry) {
    e.kind.threaded && !e.pending ==>
      if e.phase.SettingStatus? then e.phase.line == DesiredLine(e) else e.shownLine == DesiredLine(e)
  }

  lemma StartPassTracksLine(e: Entry, pass: nat)
    requires pass <= RECONCILE_MAX_PASSES && (pass == RECONCILE_MAX_PASSES ==> LineTracks(e) && !e.phase.SettingStatus?)
    ensures LineTracks(StartPass(e, pass))
    decreases RECONCILE_MAX_PASSES - pass, 3
  {
    if pass < RECONCILE_MAX_PASSES {
      var f := e.(pending := false);
      if !(f.kind.threaded && f.shownLine != DesiredLine(f)) {
        LineStays(f, pass, Except(f.shown, Desired(f)), Except(Desired(f), f.shown));
      }
    }
  }

  /** Whatever follows the line within a loop keeps it right. */
  lemma LineStays(e: Entry, pass: nat, remove: seq<Marker>, add: seq<Marker>)
    requires pass < RECONCILE_MAX_PASSES && (e.kind.threaded && !e.pending ==> e.shownLine == DesiredLine(e))
    ensures LineTracks(AfterStatus(e, pass, remove, add)) && LineTracks(AfterResolve(e, pass, remove, add))
    ensures LineTracks(AddMore(e, pass, add))
    decreases RECONCILE_MAX_PASSES - pass, 0
  {
    NextPassTracksLine(e, pass);
    if remove == [] { assert AfterResolve(e, pass, remove, add) == AddMore(e, pass, add); }
  }

  lemma NextPassTracksLine(e: Entry, pass: nat)
    requires pass < RECONCILE_MAX_PASSES && (e.kind.threaded && !e.pending ==> e.shownLine == DesiredLine(e))
    ensures LineTracks(StartPass(e, pass + 1))
    decreases RECONCILE_MAX_PASSES - pass - 1, 4
  {
    if pass + 1 < RECONCILE_MAX_PASSES {
      StartPassTracksLine(e, pass + 1);
    }
  }

  lemma AnswersTrackLine(e: Entry, ok: bool)
    requires InLoop(e.phase) && LineTracks(e)
    ensures LineTracks(Resumed(e, ok))
  {
    match e.phase
    case SettingStatus(pass, line, remove, add) => LineStays(e.(shownLine := line), pass, remove, add);
    case Resolving(pass, remove, add) => LineStays(e.(resolved := true), pass, remove, add);
    case Removing(pass, remove, add) => LineStays(TookOff(e, remove[0]), pass, [], add);
    case Adding(pass, add) =>
      if ok {
        LineStays(Presented(e, add[0]), pass, [], add[1..]);
      } else {
        RefusalTracksLine(e, ok, pass, add);
      }
    case Cleaning(_) =>
  }

  lemma RefusalTracksLine(e: Entry, ok: bool, pass: nat, add: seq<Marker>)
    requires e.phase == Adding(pass, add) && InLoop(e.phase) && LineTracks(e) && !ok
    ensures LineTracks(Resumed(e, ok))
  {
    NextPassTracksLine(e, pass);
    if !e.wanted || e.pending { RefusalGoesOn(e, ok, pass, add, StartPass(e, pass + 1)); }
  }

  lemma EventsTrackLine(e: Entry, event: Event)
    requires Possible(e, event) && LineTracks(e)
    ensures LineTracks(React(e, event))
  {
    match event
    case Answer(ok) => AnswersTrackLine(e, ok);
    case Rearm(wanted, markers, line) => StartPassTracksLine(e.(wanted := wanted, markers := markers, line := line), 0);
    case Progress(markers, line) => StartPassTracksLine(e.(markers := markers, line := line), 0);
    case Reassert => StartPassTracksLine(e.(shownLine := 0), 0);
    case Retire => StartPassTracksLine(e.(wanted := false), 0);
  }

  /** In every life an entry at rest with nothing marked has the line it should have last set. */
  lemma {:induction false} LinesAreSet(states: seq<Entry>, events: seq<Event>, n: nat)
    requires Life(states, events) && n <= |events|
    ensures LineTracks(states[n])
    ensures states[n].phase == Idle && !states[n].pending && states[n].kind.threaded ==>
              states[n].shownLine == if states[n].wanted then states[n].line else 0
  {
    if n == 0 {
      var markers, line, wanted :| states[0] == Fresh(states[0].kind, markers, line, wanted);
      StartPassTracksLine(Entry(states[0].kind, markers, line, wanted, [], 0, false, false, Idle, []), 0);
    } else {
      LinesAreSet(states, events, n - 1);
      assert StepAt(states, events, n - 1);
      EventsTrackLine(states[n - 1], events[n - 1]);
    }
  }

  lemma {:induction false} DriveTracksLine(e: Entry, answers: nat -> bool, n: nat)
    requires (e.phase == Idle || InLoop(e.phase)) && LineTracks(e)
    ensures LineTracks(Drive(e, answers, n))
    decreases RECONCILE_MAX_PASSES + 1 - PassOf(e.phase), Stage(e.phase), Names(e.phase)
  {
    if e.phase != Idle {
      AnswersMoveTheLoopOn(e, answers(n));
      AnswersTrackLine(e, answers(n));
      DriveTracksLine(Resumed(e, answers(n)), answers, n + 1);
    }
  }

  // ----- What a change comes to -----

  /** A change of what is wanted: nothing else moves but the loop, which is marked or started. */
  ghost predicate Changed(e: Entry, markers: seq<Marker>, line: nat, f: Entry) {
    && f == e.(wanted := true, markers := markers, line := line, pending := f.pending, phase := f.phase)
    && (e.phase != Idle ==> f.phase == e.phase && f.pending)
    && (e.phase == Idle ==> !f.pending)
  }

  /** There is time for a change: no loop runs, or it has another pass. */
  predicate InTime(p: Phase) {
    p == Idle || (!p.Cleaning? && PassOf(p) + 1 < RECONCILE_MAX_PASSES)
  }

  lemma ChangesMark(e: Entry, markers: seq<Marker>, line: nat) returns (f: Entry)
    ensures f == Reconciled(e.(wanted := true, markers := markers, line := line)) && Changed(e, markers, line, f)
    ensures InTime(e.phase) ==> (f.phase == Idle ==> !f.pending && forall m :: m in f.shown <==> m in markers)
    ensures InTime(e.phase) && f.phase != Idle ==> WillLook(f)
  {
    var g := e.(wanted := true, markers := markers, line := line);
    f := Reconciled(g);
    if e.phase == Idle {
      var r := StartPassIsUnmarked(g, 0);
      forall m: Marker
        ensures f.phase == Idle ==> !f.pending && (m in f.shown <==> m in markers)
      {
        var same := StartPassLooks(g, 0, m);
      }
      var any := StartPassLooks(g, 0, 0);
    }
  }

  lemma ChangesShow(e: Entry, markers: seq<Marker>, line: nat, answers: nat -> bool, m: Marker) returns (f: Entry)
    requires Good(e) && InTime(e.phase) && AllGood(answers) && (e.phase == Idle || InLoop(e.phase))
    ensures f == Reconciled(e.(wanted := true, markers := markers, line := line)) && Changed(e, markers, line, f)
    ensures f.phase == Idle || InLoop(f.phase)
    ensures (m in Drive(f, answers, 0).shown <==> m in markers) && !Drive(f, answers, 0).pending
  {
    f := ChangesMark(e, markers, line);
    ReactIsGood(e, Rearm(true, markers, line));
    if e.phase == Idle { var r := StartPassMoves(e.(wanted := true, markers := markers, line := line), 0); }
    if f.phase != Idle { GoodLoopsSettle(f, answers, 0, m); }
  }

  lemma {:induction false} LifeIsInLoop(states: seq<Entry>, events: seq<Event>, n: nat)
    requires Life(states, events) && n <= |events|
    ensures states[n].phase == Idle || InLoop(states[n].phase)
  {
    LifeIsGood(states, events, n);
  }

  /**
   What is asked for comes to be shown: in every life, when a message is armed again, or a
   wanted entry is updated, while no loop runs or one has a pass to spare, nothing else of the
   entry changes, and with good answers and nothing further the loop ends with exactly the new
   markers on the message and, in a thread, the new line.
   */
  lemma ChangesComeToShow(
    states: seq<Entry>, events: seq<Event>, markers: seq<Marker>, line: nat, answers: nat -> bool, m: Marker)
    requires Life(states, events) && InTime(states[|events|].phase) && AllGood(answers)
    ensures var e := states[|events|];
            var f := React(e, Rearm(true, markers, line));
            && (e.wanted ==> React(e, Progress(markers, line)) == f)
            && Changed(e, markers, line, f) && (f.phase == Idle || InLoop(f.phase))
            && var r := Drive(f, answers, 0);
               (m in r.shown <==> m in markers) && (r.kind.threaded ==> r.shownLine == line)
  {
    LifeIsGood(states, events, |events|);
    LifeIsInLoop(states, events, |events|);
    LinesAreSet(states, events, |events|);
    var e := states[|events|];
    var f := ChangesShow(e, markers, line, answers, m);
    EventsTrackLine(e, Rearm(true, markers, line));
    DriveTracksLine(f, answers, 0);
    DrivingKeepsWishes(f, answers, 0);
  }

  lemma {:induction false} DrivingKeepsWishes(e: Entry, answers: nat -> bool, n: nat)
    requires e.phase == Idle || InLoop(e.phase)
    ensures var r := Drive(e, answers, n); r.line == e.line && r.markers == e.markers
    decreases RECONCILE_MAX_PASSES + 1 - PassOf(e.phase), Stage(e.phase), Names(e.phase)
  {
    if e.phase != Idle {
      AnswersMoveTheLoopOn(e, answers(n));
      OnlyLocalsMove(e, answers(n));
      DrivingKeepsWishes(Resumed(e, answers(n)), answers, n + 1);
    }
  }

  // ----- Setting the line again -----

  /** With no loop under way a forgotten line is set again at once. */
  lemma ReassertedLinesAreSet(e: Entry)
    requires e.phase == Idle && e.wanted && e.kind.threaded && e.line != 0
    ensures var r := React(e, Reassert); r.phase.SettingStatus? && r.phase.line == e.line
  {}

  /** An answer to any other call leaves the line as it is. */
  lemma OtherAnswersLeaveTheLine(e: Entry, ok: bool)
    requires InLoop(e.phase) && !e.phase.SettingStatus?
    ensures Resumed(e, ok).shownLine == e.shownLine
  {
    match e.phase
    case Resolving(pass, remove, add) =>
    case Removing(pass, remove, add) => assert TookOff(e, remove[0]).shownLine == e.shownLine;
    case Adding(pass, add) => assert Presented(e, add[0]).shownLine == e.shownLine;
    case Cleaning(names) => assert TookOff(e, names[0]).shownLine == e.shownLine;
  }

  /**
   Exactly when it is not set again: the answer to the call under way makes the forgotten line
   count as set if and only if that call sets this very line. Otherwise no answer but that of a
   later pass does.
   */
  lemma ReassertsAreSwallowedIff(e: Entry, ok: bool)
    requires InLoop(e.phase) && e.wanted && e.kind.threaded && e.line != 0
    ensures var f := React(e, Reassert);
            && f.shownLine == 0 && f.phase == e.phase && f.pending
            && (Resumed(f, ok).shownLine == e.line <==> e.phase.SettingStatus? && e.phase.line == e.line)
  {
    var f := React(e, Reassert);
    if f.phase.SettingStatus? {
      StatusAnswerSetsLine(f, ok);
    } else {
      OtherAnswersLeaveTheLine(f, ok);
    }
  }

  lemma StatusAnswerSetsLine(e: Entry, ok: bool)
    requires InLoop(e.phase) && e.phase.SettingStatus?
    ensures Resumed(e, ok).shownLine == e.phase.line
  {}

  /** A life in which a line is forgotten while it is being set, and counts as set all the same. */
  lemma AReassertIsSwallowed(x: Marker, line: nat) returns (states: seq<Entry>, events: seq<Event>)
    requires line != 0
    ensures Life(states, events) && events == [Reassert, Answer(true)]
    ensures states[1].shownLine == 0 && states[2].shownLine == line && states[2].wanted && states[2].line == line
  {
    var e := FirstLine(x, line);
    ReassertsAreSwallowedIff(e, true);
    OnlyLocalsMove(React(e, Reassert), true);
    states, events := [e], [];
    states, events := LifeGoesOn(states, events, Reassert);
    states, events := LifeGoesOn(states, events, Answer(true));
  }

  lemma FirstLine(x: Marker, line: nat) returns (e: Entry)
    requires line != 0
    ensures Born(e) && e.wanted && e.kind.threaded && e.line == line && InLoop(e.phase)
    ensures e.phase.SettingStatus? && e.phase.line == line
  {
    e := Fresh(Kind(true, false, true), [x], line, true);
  }
}
