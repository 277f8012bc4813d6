/**
 Presence reactions on one message: the reconcile loop of `WorkingStatus`
 (packages/adapter-slack/src/status.ts, packages/adapter-discord/src/main.ts).

 Every `await` of the loop is a place where it can stand still while anything else happens, so
 the loop is a machine: `phase` is the call in flight together with the local variables the
 loop still needs, and `Resumed` runs it from the answer of that call to the next one.

 Slack entries may have a status line and can always remove; Discord entries resolve their
 message first and can remove only when the bot's id and the message's reactions are known.
 Markers and lines of text are abstract: `markers` and `line` are what the current snapshot
 asks for, and 0 is the empty line.
 */
module Presence {
  import opened Collections

  const RECONCILE_MAX_PASSES: nat := 8

  type Marker = nat

  datatype Phase =
    | Idle
    | SettingStatus(pass: nat, line: nat, remove: seq<Marker>, add: seq<Marker>)
    | Resolving(pass: nat, remove: seq<Marker>, add: seq<Marker>)
    | Removing(pass: nat, remove: seq<Marker>, add: seq<Marker>)
    | Adding(pass: nat, add: seq<Marker>)
    | Cleaning(names: seq<Marker>)

  /** What reached the platform: a reaction that was added, or a removal that was tried. */
  datatype Call = Added(marker: Marker) | RemovalTried(marker: Marker)

  datatype Kind = Kind(threaded: bool, resolves: bool, canRemove: bool)

  datatype Entry = Entry(
    kind: Kind, markers: seq<Marker>, line: nat, wanted: bool, shown: seq<Marker>, shownLine: nat,
    pending: bool, resolved: bool, phase: Phase, log: seq<Call>)

  /** `new Set(...)`: the first of each marker, in order. */
  function AsSet(s: seq<Marker>): (r: seq<Marker>)
    ensures Distinct(r) && forall m :: m in r <==> m in s
  {
    if s == [] then []
    else
      assert s == s[..|s| - 1] + [s[|s| - 1]];
      Including(AsSet(s[..|s| - 1]), s[|s| - 1])
  }

  function Desired(e: Entry): seq<Marker> {
    if e.wanted then AsSet(e.markers) else []
  }

  function Except(s: seq<Marker>, t: seq<Marker>): (r: seq<Marker>)
    ensures forall m :: m in r <==> m in s && m !in t
  {
    Filter(s, m => m !in t)
  }

  function DesiredLine(e: Entry): nat {
    if e.wanted && e.kind.threaded then e.line else 0
  }

  /** The phases hold what the loop put there. */
  predicate InLoop(p: Phase) {
    match p
    case Idle => false
    case SettingStatus(pass, _, _, _) => pass < RECONCILE_MAX_PASSES
    case Resolving(pass, remove, add) => pass < RECONCILE_MAX_PASSES && (remove != [] || add != [])
    case Removing(pass, remove, _) => pass < RECONCILE_MAX_PASSES && remove != []
    case Adding(pass, add) => pass < RECONCILE_MAX_PASSES && add != []
    case Cleaning(names) => names != []
  }

  // ----- From one await to the next -----

  /** The head of the loop. */
  function StartPass(e: Entry, pass: nat): (r: Entry)
    requires pass <= RECONCILE_MAX_PASSES
    ensures r == e.(pending := r.pending, phase := r.phase)
    decreases RECONCILE_MAX_PASSES - pass, 3
  {
    if pass == RECONCILE_MAX_PASSES then Finish(e)
    else
      var f := e.(pending := false);
      var remove, add := Except(f.shown, Desired(f)), Except(Desired(f), f.shown);
      if f.kind.threaded && f.shownLine != DesiredLine(f)
      then f.(phase := SettingStatus(pass, DesiredLine(f), remove, add))
      else AfterStatus(f, pass, remove, add)
  }

  function AfterStatus(e: Entry, pass: nat, remove: seq<Marker>, add: seq<Marker>): (r: Entry)
    requires pass < RECONCILE_MAX_PASSES
    ensures r == e.(pending := r.pending, phase := r.phase)
    decreases RECONCILE_MAX_PASSES - pass, 2
  {
    if remove == [] && add == [] then if !e.pending then e.(phase := Idle) else StartPass(e, pass + 1)
    else if e.kind.resolves then e.(phase := Resolving(pass, remove, add))
    else AfterResolve(e, pass, remove, add)
  }

  function AfterResolve(e: Entry, pass: nat, remove: seq<Marker>, add: seq<Marker>): (r: Entry)
    requires pass < RECONCILE_MAX_PASSES
    ensures r == e.(pending := r.pending, phase := r.phase)
    decreases RECONCILE_MAX_PASSES - pass, 1
  {
    if remove != [] then e.(phase := Removing(pass, remove, add)) else AddMore(e, pass, add)
  }

  function AddMore(e: Entry, pass: nat, add: seq<Marker>): (r: Entry)
    requires pass < RECONCILE_MAX_PASSES
    ensures r == e.(pending := r.pending, phase := r.phase)
    decreases RECONCILE_MAX_PASSES - pass, 0
  {
    if add == [] || !e.wanted then StartPass(e, pass + 1) else e.(phase := Adding(pass, add))
  }

  /** The pass budget is used up: a retired entry's markers come off before the loop ends. */
  function Finish(e: Entry): Entry {
    if !e.wanted && e.shown != [] && e.kind.canRemove then e.(phase := Cleaning(e.shown)) else e.(phase := Idle)
  }

  function TookOff(e: Entry, m: Marker): Entry {
    e.(shown := Without(e.shown, m), log := if e.kind.canRemove then e.log + [RemovalTried(m)] else e.log)
  }

  function Presented(e: Entry, m: Marker): Entry {
    e.(shown := Including(e.shown, m), log := e.log + [Added(m)])
  }

  /** The call in flight is answered, with success or failure, and the loop runs on. */
  function Resumed(e: Entry, ok: bool): Entry
    requires InLoop(e.phase)
  {
    match e.phase
    case SettingStatus(pass, line, remove, add) => AfterStatus(e.(shownLine := line), pass, remove, add)
    case Resolving(pass, remove, add) =>
      if ok || e.resolved then AfterResolve(e.(resolved := true), pass, remove, add) else e.(phase := Idle)
    case Removing(pass, remove, add) =>
      var f := TookOff(e, remove[0]);
      if |remove| > 1 then f.(phase := Removing(pass, remove[1..], add)) else AddMore(f, pass, add)
    case Adding(pass, add) =>
      if ok then
        AddMore(Presented(e, add[0]), pass, add[1..])
      else if e.wanted && !e.pending then e.(phase := Idle)
      else StartPass(e, pass + 1)
    case Cleaning(names) =>
      var f := TookOff(e, names[0]);
      f.(phase := if |names| > 1 then Cleaning(names[1..]) else Idle)
  }

  // ----- What happens around the loop -----

  function Reconciled(e: Entry): Entry {
    if e.phase != Idle then e.(pending := true) else StartPass(e, 0)
  }

  /** A new entry for a message, wanted or not. */
  function Fresh(kind: Kind, markers: seq<Marker>, line: nat, wanted: bool): Entry {
    Reconciled(Entry(kind, markers, line, wanted, [], 0, false, false, Idle, []))
  }

  datatype Event =
    | Rearm(wanted: bool, markers: seq<Marker>, line: nat)
    | Progress(markers: seq<Marker>, line: nat)
    | Reassert
    | Retire
    | Answer(ok: bool)

  predicate Possible(e: Entry, event: Event) {
    event.Answer? ==> InLoop(e.phase)
  }

  function React(e: Entry, event: Event): Entry
    requires Possible(e, event)
  {
    match event
    case Rearm(wanted, markers, line) => Reconciled(e.(wanted := wanted, markers := markers, line := line))
    case Progress(markers, line) => if e.wanted then Reconciled(e.(markers := markers, line := line)) else e
    case Reassert => if e.wanted then Reconciled(e.(shownLine := 0)) else e
    case Retire => Reconciled(e.(wanted := false))
    case Answer(ok) => Resumed(e, ok)
  }

  // ----- The object -----

  /**
   One entry as the adapter keeps it: the fields change in place, in the source's order. The
   call in flight and the locals of the suspended loop are its `phase`.
   */
  class PresenceEntry {
    const kind: Kind
    var markers: seq<Marker>
    var line: nat
    var wanted: bool
    var shown: seq<Marker>
    var shownLine: nat
    var pending: bool
    var resolved: bool
    var phase: Phase
    var log: seq<Call>

    function View(): Entry
      reads this
    {
      Entry(kind, markers, line, wanted, shown, shownLine, pending, resolved, phase, log)
    }

    constructor (kind: Kind, markers: seq<Marker>, line: nat, wanted: bool)
      ensures View() == Entry(kind, markers, line, wanted, [], 0, false, false, Idle, [])
    {
      this.kind, this.markers, this.line, this.wanted := kind, markers, line, wanted;
      shown, shownLine, pending, resolved, phase, log := [], 0, false, false, Idle, [];
    }

    /** `#reconcile`: join the loop that runs, or start one. */
    method Reconcile()
      modifies this
      ensures View() == Reconciled(old(View()))
    {
      if phase != Idle {
        pending := true;
        return;
      }
      RunPass(0);
    }

    /** The pass loop from its head to the next await, or past its last pass. */
    method RunPass(pass: nat)
      requires pass <= RECONCILE_MAX_PASSES
      modifies this
      ensures View() == StartPass(old(View()), pass)
      decreases RECONCILE_MAX_PASSES - pass, 2
    {
      if pass == RECONCILE_MAX_PASSES {
        phase := if !wanted && shown != [] && kind.canRemove then Cleaning(shown) else Idle;
        return;
      }
      pending := false;
      var desired := if wanted then AsSet(markers) else [];
      var remove, add := Except(shown, desired), Except(desired, shown);
      var desiredLine := if wanted && kind.threaded then line else 0;
      ghost var start := View();
      if kind.threaded && shownLine != desiredLine {
        phase := SettingStatus(pass, desiredLine, remove, add);
        return;
      }
      assert StartPass(old(View()), pass) == AfterStatus(start, pass, remove, add);
      RunDiff(pass, remove, add);
    }

    /** The loop goes on from the answer to the call in flight. */
    method Resume(ok: bool)
      requires InLoop(phase)
      modifies this
      ensures View() == Resumed(old(View()), ok)
    {
      match phase
      case SettingStatus(pass, line, remove, add) =>
        shownLine := line;
        RunDiff(pass, remove, add);
      case Resolving(pass, remove, add) =>
        if ok || resolved {
          resolved := true;
          RunChanges(pass, remove, add);
        } else {
          phase := Idle;
        }
      case Removing(pass, remove, add) =>
        TakeOff(remove[0]);
        RunChanges(pass, remove[1..], add);
      case Adding(pass, add) => AfterAddition(pass, add, ok);
      case Cleaning(names) =>
        TakeOff(names[0]);
        phase := if |names| > 1 then Cleaning(names[1..]) else Idle;
    }

    /** A removal was answered, well or badly: the marker counts as gone. */
    method TakeOff(m: Marker)
      modifies `shown, `log
      ensures View() == TookOff(old(View()), m)
    {
      if kind.canRemove { log := log + [RemovalTried(m)]; }
      shown := Without(shown, m);
    }

    /** A refused addition ends the loop, unless the entry was retired or changed meanwhile. */
    method AfterAddition(pass: nat, add: seq<Marker>, ok: bool)
      requires phase == Adding(pass, add) && InLoop(phase)
      modifies this
      ensures View() == Resumed(old(View()), ok)
    {
      if ok {
        PutOn(add[0]);
        RunChanges(pass, [], add[1..]);
      } else if wanted && !pending {
        phase := Idle;
      } else {
        RunPass(pass + 1);
      }
    }

    method PutOn(m: Marker)
      modifies `shown, `log
      ensures View() == Presented(old(View()), m)
    {
      shown := Including(shown, m);
      log := log + [Added(m)];
    }

    /** Nothing left to do ends the loop or, if something changed meanwhile, goes on to the next pass. */
    method RunDiff(pass: nat, remove: seq<Marker>, add: seq<Marker>)
      requires pass < RECONCILE_MAX_PASSES
      modifies this
      ensures View() == AfterStatus(old(View()), pass, remove, add)
      decreases RECONCILE_MAX_PASSES - pass, 1
    {
      if remove == [] && add == [] {
        if pending { RunPass(pass + 1); } else { phase := Idle; }
      } else if kind.resolves {
        phase := Resolving(pass, remove, add);
      } else {
        RunChanges(pass, remove, add);
      }
    }

    /** The rest of a pass: what is left to remove, then what is left to add while the entry is wanted. */
    method RunChanges(pass: nat, remove: seq<Marker>, add: seq<Marker>)
      requires pass < RECONCILE_MAX_PASSES
      modifies this
      ensures View() == AfterResolve(old(View()), pass, remove, add)
      decreases RECONCILE_MAX_PASSES - pass, 0
    {
      if remove != [] {
        phase := Removing(pass, remove, add);
      } else if add != [] && wanted {
        phase := Adding(pass, add);
      } else {
        RunPass(pass + 1);
      }
    }

    /** `#retire`. */
    method Retire()
      modifies this
      ensures View() == React(old(View()), Event.Retire)
    {
      wanted := false;
      Reconcile();
    }

    /** `arm` of a message that is armed already. */
    method Rearm(wanted: bool, markers: seq<Marker>, line: nat)
      modifies this
      ensures View() == React(old(View()), Event.Rearm(wanted, markers, line))
    {
      this.wanted, this.markers, this.line := wanted, markers, line;
      Reconcile();
    }

    /** `update`, with the transition already decided. */
    method Update(markers: seq<Marker>, line: nat)
      modifies this
      ensures View() == React(old(View()), Progress(markers, line))
    {
      if !wanted { return; }
      this.markers, this.line := markers, line;
      Reconcile();
    }

    /** `reassert`, and the refresh timer: the line is set again. */
    method Reassert()
      modifies this
      ensures View() == React(old(View()), Event.Reassert)
    {
      if !wanted { return; }
      shownLine := 0;
      Reconcile();
    }
  }
}
