/** Presence markers always come off: what the reconcile loop keeps under every interleaving. */
module PresenceLaws {
  import opened Collections
  import opened Presence

  ghost function After(live: set<Marker>, c: Call): set<Marker> {
    if c.Added? then live + {c.marker} else live - {c.marker}
  }

  /** The markers whose last call added them. */
  ghost function Live(log: seq<Call>): set<Marker> {
    if log == [] then {} else After(Live(log[..|log| - 1]), log[|log| - 1])
  }

  lemma LiveSnoc(log: seq<Call>, c: Call)
    ensures Live(log + [c]) == After(Live(log), c)
  {
    assert (log + [c])[..|log + [c]| - 1] == log;
  }

  /** Carrying out the removals and then the additions leads to what is desired now. */
  ghost predicate Tracks(e: Entry, remove: seq<Marker>, add: seq<Marker>) {
    forall m :: m in Desired(e) <==> (m in e.shown && m !in remove) || m in add
  }

  /** What is shown is what the calls left on the message, and nothing is shown on a message not yet resolved. */
  ghost predicate Faithful(e: Entry) {
    && Distinct(e.shown)
    && (e.kind.canRemove ==> forall m :: m in Live(e.log) <==> m in e.shown)
    && (e.kind.resolves && !e.resolved ==> e.shown == [])
  }

  ghost predicate PhaseOk(e: Entry) {
    match e.phase
    case Idle => !e.wanted && e.kind.canRemove ==> e.shown == []
    case SettingStatus(pass, _, remove, add) => pass < RECONCILE_MAX_PASSES && (!e.pending ==> Tracks(e, remove, add))
    case Resolving(pass, remove, add) =>
      && pass < RECONCILE_MAX_PASSES && (remove != [] || add != []) && e.kind.resolves
      && (!e.pending ==> Tracks(e, remove, add))
    case Removing(pass, remove, add) =>
      && pass < RECONCILE_MAX_PASSES && remove != [] && (e.kind.resolves ==> e.resolved)
      && (!e.pending ==> Tracks(e, remove, add))
    case Adding(pass, add) =>
      && pass < RECONCILE_MAX_PASSES && add != [] && (e.kind.resolves ==> e.resolved)
      && (!e.pending ==> Tracks(e, [], add))
    case Cleaning(names) => names != [] && forall m | m in e.shown :: m in names
  }

  ghost predicate Good(e: Entry) {
    Faithful(e) && PhaseOk(e)
  }

  // ----- The loop keeps it -----

  lemma {:induction false} StartPassIsGood(e: Entry, pass: nat)
    requires pass <= RECONCILE_MAX_PASSES && Faithful(e)
    ensures Good(StartPass(e, pass))
    decreases RECONCILE_MAX_PASSES - pass, 3
  {
    if pass < RECONCILE_MAX_PASSES {
      var f := e.(pending := false);
      AfterStatusIsGood(f, pass, Except(f.shown, Desired(f)), Except(Desired(f), f.shown));
    }
  }

  lemma {:induction false} AfterStatusIsGood(e: Entry, pass: nat, remove: seq<Marker>, add: seq<Marker>)
    requires pass < RECONCILE_MAX_PASSES && Faithful(e) && (!e.pending ==> Tracks(e, remove, add))
    ensures Good(AfterStatus(e, pass, remove, add))
    decreases RECONCILE_MAX_PASSES - pass, 2
  {
    if remove == [] && add == [] {
      if e.pending {
        StartPassIsGood(e, pass + 1);
      } else if e.shown != [] {
        assert e.shown[0] in e.shown;
      }
    } else if !e.kind.resolves {
      AfterResolveIsGood(e, pass, remove, add);
    }
  }

  lemma {:induction false} AfterResolveIsGood(e: Entry, pass: nat, remove: seq<Marker>, add: seq<Marker>)
    requires pass < RECONCILE_MAX_PASSES && Faithful(e) && (!e.pending ==> Tracks(e, remove, add))
    requires e.kind.resolves ==> e.resolved
    ensures Good(AfterResolve(e, pass, remove, add))
    decreases RECONCILE_MAX_PASSES - pass, 1
  {
    if remove == [] { AddMoreIsGood(e, pass, add); }
  }

  lemma {:induction false} AddMoreIsGood(e: Entry, pass: nat, add: seq<Marker>)
    requires pass < RECONCILE_MAX_PASSES && Faithful(e) && (!e.pending ==> Tracks(e, [], add))
    requires e.kind.resolves ==> e.resolved
    ensures Good(AddMore(e, pass, add))
    decreases RECONCILE_MAX_PASSES - pass, 0
  {
    if add == [] || !e.wanted {
      var r := StartPass(e, pass + 1);
      assert AddMore(e, pass, add) == r;
      StartPassIsGood(e, pass + 1);
    } else {
      AddingIsGood(e, pass, add);
    }
  }

  lemma AddingIsGood(e: Entry, pass: nat, add: seq<Marker>)
    requires pass < RECONCILE_MAX_PASSES && Faithful(e) && add != [] && (!e.pending ==> Tracks(e, [], add))
    requires e.kind.resolves ==> e.resolved
    ensures Good(e.(phase := Adding(pass, add)))
  {
    var f := e.(phase := Adding(pass, add));
    assert Desired(f) == Desired(e);
  }

  lemma TakingOffIsFaithful(e: Entry, m: Marker)
    requires Faithful(e)
    ensures Faithful(TookOff(e, m))
  {
    LiveSnoc(e.log, RemovalTried(m));
  }

  lemma AddingIsFaithful(e: Entry, m: Marker) returns (f: Entry)
    requires Faithful(e) && (e.kind.resolves ==> e.resolved)
    ensures f == Presented(e, m) && Faithful(f)
  {
    f := Presented(e, m);
    LiveSnoc(e.log, Added(m));
  }

  lemma RemovingIsGood(e: Entry, pass: nat, remove: seq<Marker>, add: seq<Marker>)
    requires Good(e) && e.phase == Removing(pass, remove, add)
    ensures Good(Resumed(e, true)) && Resumed(e, false) == Resumed(e, true)
  {
    var f, rest := TookOff(e, remove[0]), remove[1..];
    TakingOffIsFaithful(e, remove[0]);
    assert remove == [remove[0]] + rest;
    assert !f.pending ==> Tracks(f, rest, add);
    if |remove| == 1 {
      assert rest == [];
      AddMoreIsGood(f, pass, add);
    }
  }

  lemma AddedIsGood(e: Entry, pass: nat, add: seq<Marker>)
    requires Good(e) && e.phase == Adding(pass, add)
    ensures Good(Resumed(e, true))
  {
    var f := AddingIsFaithful(e, add[0]);
    assert add == [add[0]] + add[1..];
    AddMoreIsGood(f, pass, add[1..]);
  }

  lemma CleaningIsGood(e: Entry, names: seq<Marker>)
    requires Good(e) && e.phase == Cleaning(names)
    ensures Good(Resumed(e, true)) && Resumed(e, false) == Resumed(e, true)
  {
    var f := TookOff(e, names[0]);
    TakingOffIsFaithful(e, names[0]);
    assert names == [names[0]] + names[1..];
    if f.shown != [] { assert f.shown[0] in f.shown; }
  }

  lemma ResumeIsGood(e: Entry, ok: bool)
    requires Good(e) && InLoop(e.phase)
    ensures Good(Resumed(e, ok))
  {
    match e.phase
    case SettingStatus(pass, line, remove, add) => AfterStatusIsGood(e.(shownLine := line), pass, remove, add);
    case Resolving(pass, remove, add) =>
      if ok || e.resolved { AfterResolveIsGood(e.(resolved := true), pass, remove, add); }
    case Removing(pass, remove, add) => RemovingIsGood(e, pass, remove, add);
    case Adding(pass, add) =>
      if ok {
        AddedIsGood(e, pass, add);
      } else if !e.wanted || e.pending {
        StartPassIsGood(e, pass + 1);
      }
    case Cleaning(names) => CleaningIsGood(e, names);
  }

  lemma ReconcileIsGood(e: Entry)
    requires Faithful(e) && (e.phase != Idle ==> PhaseOk(e.(pending := true)))
    ensures Good(Reconciled(e))
  {
    if e.phase == Idle { StartPassIsGood(e, 0); }
  }

  lemma ReactIsGood(e: Entry, event: Event)
    requires Good(e) && Possible(e, event)
    ensures Good(React(e, event))
  {
    match event
    case Rearm(wanted, markers, line) => ReconcileIsGood(e.(wanted := wanted, markers := markers, line := line));
    case Progress(markers, line) => if e.wanted { ReconcileIsGood(e.(markers := markers, line := line)); }
    case Reassert => if e.wanted { ReconcileIsGood(e.(shownLine := 0)); }
    case Retire => ReconcileIsGood(e.(wanted := false));
    case Answer(ok) => ResumeIsGood(e, ok);
  }

  // ----- Whole lives of an entry -----

  ghost predicate Born(e: Entry) {
    exists markers, line, wanted :: e == Fresh(e.kind, markers, line, wanted)
  }

  ghost predicate StepAt(states: seq<Entry>, events: seq<Event>, i: nat)
    requires |states| == |events| + 1 && i < |events|
  {
    Possible(states[i], events[i]) && states[i + 1] == React(states[i], events[i])
  }

  ghost predicate Life(states: seq<Entry>, events: seq<Event>) {
    && |states| == |events| + 1 && Born(states[0])
    && (forall i {:trigger StepAt(states, events, i)} | 0 <= i < |events| :: StepAt(states, events, i))
  }

  lemma BornIsGood(e: Entry)
    requires Born(e)
    ensures Good(e)
  {
    var markers, line, wanted :| e == Fresh(e.kind, markers, line, wanted);
    var f := Entry(e.kind, markers, line, wanted, [], 0, false, false, Idle, []);
    assert Live(f.log) == {};
    ReconcileIsGood(f);
  }

  lemma {:induction false} LifeIsGood(states: seq<Entry>, events: seq<Event>, n: nat)
    requires Life(states, events) && n <= |events|
    ensures Good(states[n])
  {
    if n == 0 {
      BornIsGood(states[0]);
    } else {
      LifeIsGood(states, events, n - 1);
      assert StepAt(states, events, n - 1);
      ReactIsGood(states[n - 1], events[n - 1]);
    }
  }

  /**
   Retirement completes: under every interleaving of arming, progress, retirement and answers,
   successful or not, once no reconcile runs for an unwanted entry nothing of it is shown and
   every marker ever added had a removal tried after it was last added.
   */
  lemma RetirementCompletes(states: seq<Entry>, events: seq<Event>)
    requires Life(states, events)
    ensures var e := states[|events|];
            e.kind.canRemove && e.phase == Idle && !e.wanted ==> e.shown == [] && Live(e.log) == {}
  {
    LifeIsGood(states, events, |events|);
  }

  /** What an event may add to the log. */
  ghost predicate LogsAtMostOne(e: Entry, r: Entry) {
    && r.kind == e.kind
    && (r.log == e.log
        || exists c: Call :: r.log == e.log + [c] && (c.RemovalTried? ==> e.kind.canRemove))
  }

  lemma AnswersLogAtMostOne(e: Entry, ok: bool)
    requires InLoop(e.phase)
    ensures LogsAtMostOne(e, Resumed(e, ok))
  {
    match e.phase
    case SettingStatus(pass, line, remove, add) =>
    case Resolving(pass, remove, add) =>
    case Removing(pass, remove, add) =>
      var f := TookOff(e, remove[0]);
      assert Resumed(e, ok).log == f.log;
    case Adding(pass, add) =>
      var f := Presented(e, add[0]);
      if ok { assert Resumed(e, ok).log == f.log; }
    case Cleaning(names) =>
      var f := TookOff(e, names[0]);
      assert Resumed(e, ok).log == f.log;
  }

  lemma EventsLogAtMostOne(e: Entry, event: Event)
    requires Possible(e, event)
    ensures LogsAtMostOne(e, React(e, event))
  {
    if event.Answer? { AnswersLogAtMostOne(e, event.ok); }
  }

  /** With removals out of the question every marker added stays live. */
  lemma AddingKeepsLive(log: seq<Call>, c: Call, m: Marker)
    requires c.Added? && (m in Live(log) <==> Added(m) in log)
    ensures m in Live(log + [c]) <==> Added(m) in log + [c]
  {
    LiveSnoc(log, c);
  }

  /**
   Without a known bot id or without reactions no removal is ever tried, so whatever was added
   stays: this is exactly when retirement leaves markers behind.
   */
  lemma {:induction false} NothingComesOffWithoutRemoval(states: seq<Entry>, events: seq<Event>, n: nat, m: Marker)
    requires Life(states, events) && n <= |events| && !states[0].kind.canRemove
    ensures !states[n].kind.canRemove
    ensures m in Live(states[n].log) <==> Added(m) in states[n].log
  {
    if n > 0 {
      NothingComesOffWithoutRemoval(states, events, n - 1, m);
      assert StepAt(states, events, n - 1);
      var before, after := states[n - 1], states[n];
      EventsLogAtMostOne(before, events[n - 1]);
      if after.log != before.log {
        var c: Call :| after.log == before.log + [c] && (c.RemovalTried? ==> before.kind.canRemove);
        AddingKeepsLive(before.log, c, m);
      }
    }
  }

  // ----- The loop ends, and not before the work is done -----

  function PassOf(p: Phase): nat {
    match p
    case Idle => RECONCILE_MAX_PASSES + 1
    case SettingStatus(pass, _, _, _) => pass
    case Resolving(pass, _, _) => pass
    case Removing(pass, _, _) => pass
    case Adding(pass, _) => pass
    case Cleaning(_) => RECONCILE_MAX_PASSES
  }

  /** How much of its pass is still to come. */
  function Stage(p: Phase): nat {
    match p
    case SettingStatus(_, _, _, _) => 3
    case Resolving(_, _, _) => 2
    case Removing(_, _, _) => 1
    case _ => 0
  }

  function Names(p: Phase): nat {
    match p
    case Removing(_, remove, _) => |remove|
    case Adding(_, add) => |add|
    case Cleaning(names) => |names|
    case _ => 0
  }

  /** Between two awaits the loop changes nothing but its own place and the continuation mark. */
  predicate OnlyMoves(e: Entry, r: Entry) {
    r == e.(pending := r.pending, phase := r.phase) && (r.phase == Idle || InLoop(r.phase))
  }

  lemma {:induction false} StartPassMoves(e: Entry, pass: nat) returns (r: Entry)
    requires pass <= RECONCILE_MAX_PASSES
    ensures r == StartPass(e, pass) && OnlyMoves(e, r) && PassOf(r.phase) >= pass
    decreases RECONCILE_MAX_PASSES - pass, 3
  {
    r := StartPass(e, pass);
    if pass < RECONCILE_MAX_PASSES {
      var f := e.(pending := false);
      var same := AfterStatusMoves(f, pass, Except(f.shown, Desired(f)), Except(Desired(f), f.shown));
    }
  }

  lemma {:induction false} AfterStatusMoves(e: Entry, pass: nat, remove: seq<Marker>, add: seq<Marker>)
    returns (r: Entry)
    requires pass < RECONCILE_MAX_PASSES
    ensures r == AfterStatus(e, pass, remove, add) && OnlyMoves(e, r)
    ensures PassOf(r.phase) >= pass && (PassOf(r.phase) == pass ==> Stage(r.phase) <= 2)
    decreases RECONCILE_MAX_PASSES - pass, 2
  {
    if remove == [] && add == [] {
      if e.pending {
        r := StartPassMoves(e, pass + 1);
      } else {
        r := e.(phase := Idle);
      }
    } else if e.kind.resolves {
      r := e.(phase := Resolving(pass, remove, add));
    } else {
      r := AfterResolveMoves(e, pass, remove, add);
    }
  }

  lemma {:induction false} AfterResolveMoves(e: Entry, pass: nat, remove: seq<Marker>, add: seq<Marker>)
    returns (r: Entry)
    requires pass < RECONCILE_MAX_PASSES
    ensures r == AfterResolve(e, pass, remove, add) && OnlyMoves(e, r)
    ensures PassOf(r.phase) >= pass && (PassOf(r.phase) == pass ==> Stage(r.phase) <= 1)
    decreases RECONCILE_MAX_PASSES - pass, 1
  {
    if remove != [] {
      r := e.(phase := Removing(pass, remove, add));
    } else {
      r := AddMoreMoves(e, pass, add);
    }
  }

  lemma {:induction false} AddMoreMoves(e: Entry, pass: nat, add: seq<Marker>) returns (r: Entry)
    requires pass < RECONCILE_MAX_PASSES
    ensures r == AddMore(e, pass, add) && OnlyMoves(e, r) && PassOf(r.phase) >= pass
    ensures PassOf(r.phase) == pass ==> Stage(r.phase) == 0 && Names(r.phase) == |add|
    decreases RECONCILE_MAX_PASSES - pass, 0
  {
    if add == [] || !e.wanted {
      r := StartPassMoves(e, pass + 1);
    } else {
      r := e.(phase := Adding(pass, add));
    }
  }

  /** Later in the loop, or through with it. */
  ghost predicate Later(p: Phase, q: Phase) {
    || PassOf(q) > PassOf(p)
    || (PassOf(q) == PassOf(p) && (Stage(q) < Stage(p) || (Stage(q) == Stage(p) && Names(q) < Names(p))))
  }

  lemma AnswersMoveTheLoopOn(e: Entry, ok: bool)
    requires InLoop(e.phase)
    ensures Later(e.phase, Resumed(e, ok).phase)
    ensures Resumed(e, ok).phase == Idle || InLoop(Resumed(e, ok).phase)
    ensures Resumed(e, ok).wanted == e.wanted && Resumed(e, ok).kind == e.kind
  {
    match e.phase
    case SettingStatus(pass, line, remove, add) =>
      var r := AfterStatusMoves(e.(shownLine := line), pass, remove, add);
    case Resolving(pass, remove, add) =>
      if ok || e.resolved { var r := AfterResolveMoves(e.(resolved := true), pass, remove, add); }
    case Removing(pass, remove, add) => RemovalMovesTheLoopOn(e, ok, pass, remove, add);
    case Adding(pass, add) =>
      if ok {
        AdditionMovesTheLoopOn(e, ok, pass, add);
      } else {
        RefusalMovesTheLoopOn(e, ok, pass, add);
      }
    case Cleaning(_) =>
  }

  lemma RemovalMovesTheLoopOn(e: Entry, ok: bool, pass: nat, remove: seq<Marker>, add: seq<Marker>)
    requires e.phase == Removing(pass, remove, add) && InLoop(e.phase)
    ensures Later(e.phase, Resumed(e, ok).phase)
    ensures Resumed(e, ok).phase == Idle || InLoop(Resumed(e, ok).phase)
  {
    var r := AddMoreMoves(TookOff(e, remove[0]), pass, add);
  }

  lemma AdditionMovesTheLoopOn(e: Entry, ok: bool, pass: nat, add: seq<Marker>)
    requires e.phase == Adding(pass, add) && InLoop(e.phase) && ok
    ensures Later(e.phase, Resumed(e, ok).phase)
    ensures Resumed(e, ok).phase == Idle || InLoop(Resumed(e, ok).phase)
  {
    var r := AddMoreMoves(Presented(e, add[0]), pass, add[1..]);
  }

  lemma RefusalMovesTheLoopOn(e: Entry, ok: bool, pass: nat, add: seq<Marker>)
    requires e.phase == Adding(pass, add) && InLoop(e.phase) && !ok
    ensures Later(e.phase, Resumed(e, ok).phase)
    ensures Resumed(e, ok).phase == Idle || InLoop(Resumed(e, ok).phase)
  {
    if !e.wanted || e.pending {
      var r := StartPassMoves(e, pass + 1);
      RefusalGoesOn(e, ok, pass, add, r);
    }
  }

  /** A refused addition goes on to the next pass when something is marked, or the entry was retired. */
  lemma RefusalGoesOn(e: Entry, ok: bool, pass: nat, add: seq<Marker>, r: Entry)
    requires e.phase == Adding(pass, add) && InLoop(e.phase) && !ok && (!e.wanted || e.pending)
    requires r == StartPass(e, pass + 1)
    ensures Resumed(e, ok) == r
  {}

  /** The loop left alone with the answers to its calls. */
  ghost function Drive(e: Entry, answers: nat -> bool, n: nat): (r: Entry)
    requires e.phase == Idle || InLoop(e.phase)
    ensures r.phase == Idle && r.wanted == e.wanted && r.kind == e.kind
    decreases RECONCILE_MAX_PASSES + 1 - PassOf(e.phase), Stage(e.phase), Names(e.phase)
  {
    if e.phase == Idle then e
    else
      AnswersMoveTheLoopOn(e, answers(n));
      Drive(Resumed(e, answers(n)), answers, n + 1)
  }

  lemma {:induction false} DrivingIsGood(e: Entry, answers: nat -> bool, n: nat)
    requires Good(e)
    ensures Good(Drive(e, answers, n))
    decreases RECONCILE_MAX_PASSES + 1 - PassOf(e.phase), Stage(e.phase), Names(e.phase)
  {
    if e.phase != Idle {
      AnswersMoveTheLoopOn(e, answers(n));
      ResumeIsGood(e, answers(n));
      DrivingIsGood(Resumed(e, answers(n)), answers, n + 1);
    }
  }

  /**
   A retired entry comes clean: its reconcile ends after finitely many answers, whatever they are,
   with nothing left.
   */
  lemma RetiredEntriesComeClean(states: seq<Entry>, events: seq<Event>, answers: nat -> bool)
    requires Life(states, events)
    ensures var e := React(states[|events|], Retire);
            && (e.phase == Idle || InLoop(e.phase))
            && (e.kind.canRemove ==> Drive(e, answers, 0).shown == [] && Live(Drive(e, answers, 0).log) == {})
  {
    LifeIsGood(states, events, |events|);
    ReactIsGood(states[|events|], Retire);
    DrivingIsGood(React(states[|events|], Retire), answers, 0);
  }

  ghost predicate SettledAt(e: Entry, m: Marker) {
    e.phase == Idle ==> (m in e.shown <==> m in Desired(e))
  }

  lemma StartPassSettles(e: Entry, pass: nat, m: Marker)
    requires pass < RECONCILE_MAX_PASSES
    ensures SettledAt(StartPass(e, pass), m)
  {
    var f := e.(pending := false);
    var remove, add := Except(f.shown, Desired(f)), Except(Desired(f), f.shown);
    assert m in remove <==> m in f.shown && m !in Desired(f);
    assert m in add <==> m in Desired(f) && m !in f.shown;
    if (remove != [] || add != []) && !f.kind.resolves {
      assert AfterStatus(f, pass, remove, add) == AfterResolve(f, pass, remove, add);
      if remove == [] {
        assert add[0] in add;
        assert AfterResolve(f, pass, remove, add) == AddMore(f, pass, add);
      }
    }
  }

  lemma AddMoreSettles(e: Entry, pass: nat, add: seq<Marker>, m: Marker)
    requires pass + 1 < RECONCILE_MAX_PASSES
    ensures SettledAt(AddMore(e, pass, add), m)
  {
    StartPassSettles(e, pass + 1, m);
  }

  lemma AfterResolveSettles(e: Entry, pass: nat, remove: seq<Marker>, add: seq<Marker>, m: Marker)
    requires pass + 1 < RECONCILE_MAX_PASSES
    ensures SettledAt(AfterResolve(e, pass, remove, add), m)
  {
    AddMoreSettles(e, pass, add, m);
  }

  lemma AfterStatusSettles(e: Entry, pass: nat, remove: seq<Marker>, add: seq<Marker>, m: Marker)
    requires pass + 1 < RECONCILE_MAX_PASSES && (!e.pending ==> Tracks(e, remove, add))
    ensures SettledAt(AfterStatus(e, pass, remove, add), m)
  {
    if remove == [] && add == [] {
      if e.pending { StartPassSettles(e, pass + 1, m); }
    } else {
      AfterResolveSettles(e, pass, remove, add, m);
    }
  }

  /**
   The loop never stops early: while it has a pass to spare, an answered call ends it only
   with exactly the desired markers shown.
   */
  lemma LoopEndsSettled(e: Entry, m: Marker)
    requires Good(e) && InLoop(e.phase) && PassOf(e.phase) + 1 < RECONCILE_MAX_PASSES
    ensures var r := Resumed(e, true);
            r.phase == Idle ==> (m in r.shown <==> m in Desired(r))
  {
    match e.phase
    case SettingStatus(pass, line, remove, add) => AfterStatusSettles(e.(shownLine := line), pass, remove, add, m);
    case Resolving(pass, remove, add) => AfterResolveSettles(e.(resolved := true), pass, remove, add, m);
    case Removing(pass, remove, add) => AddMoreSettles(TookOff(e, remove[0]), pass, add, m);
    case Adding(pass, add) =>
      AddMoreSettles(Presented(e, add[0]), pass, add[1..], m);
    case Cleaning(_) =>
  }

  // ----- Unwanted entries -----

  lemma {:induction false} PassStartsNoUnwantedAddition(e: Entry, pass: nat)
    requires pass <= RECONCILE_MAX_PASSES && !e.wanted
    ensures !StartPass(e, pass).phase.Adding?
    decreases RECONCILE_MAX_PASSES - pass, 1
  {
    if pass < RECONCILE_MAX_PASSES {
      var f := e.(pending := false);
      var remove, add := Except(f.shown, Desired(f)), Except(Desired(f), f.shown);
      assert Desired(f) == [] && add == [];
      DiffStartsNoUnwantedAddition(f, pass, remove, add);
    }
  }

  lemma {:induction false} DiffStartsNoUnwantedAddition(e: Entry, pass: nat, remove: seq<Marker>, add: seq<Marker>)
    requires pass < RECONCILE_MAX_PASSES && !e.wanted
    ensures !AfterStatus(e, pass, remove, add).phase.Adding? && !AfterResolve(e, pass, remove, add).phase.Adding?
    ensures !AddMore(e, pass, add).phase.Adding?
    decreases RECONCILE_MAX_PASSES - pass, 0
  {
    PassStartsNoUnwantedAddition(e, pass + 1);
    assert AddMore(e, pass, add) == StartPass(e, pass + 1);
    if remove == [] { assert AfterResolve(e, pass, remove, add) == AddMore(e, pass, add); }
  }

  /** Retirement stops the additions: no event begins one for an unwanted entry. */
  lemma UnwantedEntriesAddNothing(e: Entry, event: Event)
    requires Possible(e, event)
    ensures var r := React(e, event);
            r.phase.Adding? && !r.wanted ==> !event.Answer? && r.phase == e.phase
  {
    var r := React(e, event);
    if !r.wanted {
      match event
      case Answer(ok) => AnswersStartNoUnwantedAddition(e, ok);
      case Rearm(wanted, markers, line) =>
        PassStartsNoUnwantedAddition(e.(wanted := false, markers := markers, line := line), 0);
      case Retire => PassStartsNoUnwantedAddition(e.(wanted := false), 0);
      case Progress(_, _) =>
      case Reassert =>
    }
  }

  lemma AnswersStartNoUnwantedAddition(e: Entry, ok: bool)
    requires InLoop(e.phase) && !e.wanted
    ensures !Resumed(e, ok).phase.Adding?
  {
    match e.phase
    case SettingStatus(pass, line, remove, add) =>
      DiffStartsNoUnwantedAddition(e.(shownLine := line), pass, remove, add);
    case Resolving(pass, remove, add) => DiffStartsNoUnwantedAddition(e.(resolved := true), pass, remove, add);
    case Removing(pass, remove, add) => DiffStartsNoUnwantedAddition(TookOff(e, remove[0]), pass, remove, add);
    case Adding(pass, add) =>
      if ok {
        DiffStartsNoUnwantedAddition(Presented(e, add[0]), pass, [], add[1..]);
      } else {
        PassStartsNoUnwantedAddition(e, pass + 1);
      }
    case Cleaning(_) =>
  }
}
