/**
 Discord recovery over whole lives of the adapter: passes, live traffic, an ordered save
 chain whose writes may fail, and crashes that fall back to the last write that landed
 (packages/adapter-discord/src/main.ts, the recovery part of `ReconnectingGateway`).

 `finished` and `refused` record what really happened at the gateway; `base` and `buried`
 travel with each snapshot and record where its watermarks began and which messages it gave
 up; `letters` are all dead letters that counted when it was taken, also those the bounded log
 has dropped since.
 */
module DiscordRuns {
  import opened Collections
  import opened DiscordScan
  import opened DiscordScanLaws
  import opened DiscordStore
  import opened DiscordStoreLaws

  /** Every message that ever exists: its id and its conversation. */
  type World = map<nat, nat>

  datatype Snapshot = Snapshot(store: State, base: map<nat, nat>, buried: set<nat>, letters: seq<Letter>)

  datatype Pass =
    | Idle
    | Running(conversation: nat, start: nat, scan: Scan, batch: seq<Message>)

  datatype Sys = Sys(
    mem: Snapshot, queue: seq<Snapshot>, disk: Snapshot,
    pass: Pass, recoverable: set<nat>,
    finished: set<nat>, refused: map<nat, nat>)

  datatype Step =
    | BeginPass(conversation: nat, bootstrap: nat, recoverable: set<nat>)
    | FetchPage(raw: seq<Message>)
    | PassBlankMessage
    | FailAttempt(terminal: bool, store: State)
    | Settle(verdict: Verdict)
    | EndPass(store: State)
    | RetainCursors(store: State)
    | LiveAck(id: nat)
    | SaveLands
    | SaveFails
    | Crash

  function Refusals(refused: map<nat, nat>, id: nat): nat {
    if id in refused then refused[id] else 0
  }

  /**
   A page from an honest port while messages keep arriving: distinct messages of the
   conversation above the anchor, with no gap below the highest of them.
   */
  ghost predicate HonestPage(w: World, c: nat, after: nat, raw: seq<Message>) {
    && (forall i, j | 0 <= i < j < |raw| :: raw[i].id != raw[j].id)
    && (forall m | m in raw :: m.id in w && w[m.id] == c && m.id > after)
    && (forall id, m | id in w && w[id] == c && after < id && m in raw && id <= m.id ::
          Has(raw, id))
  }

  ghost predicate Has(batch: seq<Message>, id: nat) {
    exists n | n in batch :: n.id == id
  }

  // ----- The transitions -----

  function Persisted(s: Sys, mem: Snapshot): Sys {
    s.(mem := mem, queue := s.queue + [mem])
  }

  /** `onDiscard` for one candidate: dead-letter it and persist, then forget its attempts and persist. */
  function Bury(s: Sys, id: nat, conversation: nat): Sys {
    var attempts := if id in s.mem.store.attempts then s.mem.store.attempts[id].terminalAttempts else MAX_ATTEMPTS;
    var l := Letter(id, conversation, attempts);
    var lettered := s.mem.(store := RecordDeadLetter(s.mem.store, l, DEAD_LETTER_CAP),
                           buried := s.mem.buried + {id},
                           letters := WithOneMore(s.mem.letters, l, DEAD_LETTER_CAP));
    var s1 := Persisted(s, lettered);
    Persisted(s1, lettered.(store := ClearAttempt(lettered.store, id)))
  }

  function BuryAll(s: Sys, held: seq<nat>, conversation: nat): Sys
    decreases |held|
  {
    if held == [] then s else BuryAll(Bury(s, held[0], conversation), held[1..], conversation)
  }

  /** Dropping the ledger entry of a message that landed. */
  function Forget(s: Sys, id: nat): Sys {
    Persisted(s, s.mem.(store := ClearAttempt(s.mem.store, id)))
  }

  function Finish(s: Sys, id: nat): Sys {
    s.(finished := s.finished + {id})
  }

  /** The callback's verdict on the message at hand, with everything it and the run do about it. */
  function Settled(s: Sys, verdict: Verdict): Sys
    requires s.pass.Running? && s.pass.batch != []
  {
    var Running(c, start, scan, batch) := s.pass;
    var id := batch[0].id;
    var next := s.(pass := Running(c, start, React(scan, id, verdict, UNIFORM_LIMIT), batch[1..]));
    match verdict
    case Unavailable => Persisted(next, next.mem)
    case Candidate => Persisted(next, next.mem)
    case Skip => Finish(next, id)
    case Duplicate => Forget(Finish(next, id), id)
    case Acked => BuryAll(Forget(Finish(next, id), id), Without(scan.held, id), c)
  }

  const UNIFORM_LIMIT: nat := 3

  ghost predicate Next(w: World, step: Step, a: Sys, b: Sys) {
    match step
    case BeginPass(c, bootstrap, recoverable) =>
      && a.pass.Idle? && c in recoverable
      && var stored := Effective(a.mem.store, c);
         var start := if stored.Some? then stored.value else bootstrap;
         b == a.(pass := Running(c, start, Begin(start), []), recoverable := recoverable)
    case FetchPage(raw) =>
      && a.pass.Running? && a.pass.batch == [] && !a.pass.scan.halted
      && HonestPage(w, a.pass.conversation, a.pass.scan.scanCursor, raw)
      && b == a.(pass := a.pass.(batch := Normalized(raw, a.pass.scan.scanCursor)))
    case PassBlankMessage =>
      && a.pass.Running? && a.pass.batch != [] && !a.pass.scan.halted
      && a.pass.batch[0].blank
      && var id := a.pass.batch[0].id;
         b == Finish(a, id).(pass := a.pass.(scan := WalkPast(a.pass.scan, id), batch := a.pass.batch[1..]))
    case FailAttempt(terminal, store) =>
      && a.pass.Running? && a.pass.batch != [] && !a.pass.scan.halted && !a.pass.batch[0].blank
      && var id := a.pass.batch[0].id;
         && Records(a.mem.store, id, a.pass.conversation, terminal, ATTEMPT_LEDGER_CAP, store)
         && b == a.(mem := a.mem.(store := store),
                    refused := if terminal then a.refused[id := Refusals(a.refused, id) + 1] else a.refused)
    case Settle(verdict) =>
      && a.pass.Running? && a.pass.batch != [] && !a.pass.scan.halted && !a.pass.batch[0].blank
      && (verdict == Candidate ==>
            var id := a.pass.batch[0].id;
            id in a.mem.store.attempts && a.mem.store.attempts[id].terminalAttempts >= MAX_ATTEMPTS)
      && b == Settled(a, verdict)
    case EndPass(store) =>
      && a.pass.Running?
      && Advances(a.mem.store, a.pass.conversation, a.pass.scan.cursor, a.recoverable, store)
      && var base := if Effective(a.mem.store, a.pass.conversation).Some? then a.mem.base
                     else a.mem.base[a.pass.conversation := a.pass.start];
         b == Persisted(a, a.mem.(store := store, base := base)).(pass := Idle)
    case RetainCursors(store) =>
      && a.pass.Idle? && Retains(a.mem.store, a.recoverable, QUARANTINE_CAP, store)
      && b == Persisted(a, a.mem.(store := store))
    case LiveAck(id) => b == Finish(a, id)
    case SaveLands => a.queue != [] && b == a.(disk := a.queue[0], queue := a.queue[1..])
    case SaveFails => a.queue != [] && b == a.(queue := a.queue[1..])
    case Crash => b == a.(mem := a.disk, queue := [], pass := Idle, recoverable := {})
  }

  // ----- The invariant -----

  /** The watermarks of a snapshot lose nothing: what they passed since `base` is finished or buried with it. */
  ghost predicate Covers(w: World, finished: set<nat>, x: Snapshot) {
    && (forall c | Effective(x.store, c).Some? :: c in x.base)
    && (forall id | id in w && Effective(x.store, w[id]).Some? ::
          x.base[w[id]] < id <= Effective(x.store, w[id]).value ==> id in finished || id in x.buried)
  }

  /** The counts of a snapshot are no higher than what the gateway really refused. */
  ghost predicate Truthful(refused: map<nat, nat>, x: Snapshot) {
    && (forall id :: TerminalCount(x.store.attempts, id) <= Refusals(refused, id))
    && (forall id | id in x.buried :: Refusals(refused, id) >= MAX_ATTEMPTS)
  }

  ghost predicate Counts(letters: seq<Letter>, id: nat) {
    exists l | l in letters :: l.id == id
  }

  /**
   The stored log holds the last letters that counted and the stored digest tallies them all;
   each is filed under its message's conversation, and every message given up has one.
   */
  ghost predicate Logged(w: World, x: Snapshot) {
    && x.store.deadLetters == LastOf(x.letters, DEAD_LETTER_CAP)
    && (forall c {:trigger DigestOf(x.store, x.letters, c)} :: DigestOf(x.store, x.letters, c))
    && (forall l | l in x.letters :: l.id in w ==> w[l.id] == l.conversation)
    && (forall id | id in x.buried :: Counts(x.letters, id))
  }

  ghost predicate Good(w: World, finished: set<nat>, refused: map<nat, nat>, x: Snapshot) {
    Disjoint(x.store) && Covers(w, finished, x) && Truthful(refused, x) && Logged(w, x)
  }

  /** The message belongs to the conversation and was terminally refused often enough. */
  ghost predicate MayBury(w: World, s: Sys, c: nat, id: nat) {
    id in w && w[id] == c && Refusals(s.refused, id) >= MAX_ATTEMPTS
  }

  /** Within a run: everything up to the cursor is done with, and held candidates lie strictly above it. */
  ghost predicate Scanned(w: World, s: Sys, c: nat, start: nat, scan: Scan) {
    && start <= scan.cursor <= scan.scanCursor
    && (forall id | id in scan.held :: scan.cursor < id <= scan.scanCursor && MayBury(w, s, c, id))
    && (forall id | id in w && w[id] == c && start < id <= scan.scanCursor ::
          id in s.finished || id in s.mem.buried || id in scan.held)
  }

  /** The rest of the page: ascending, above the scan cursor, and without a gap. */
  ghost predicate Pending(w: World, c: nat, scanCursor: nat, batch: seq<Message>) {
    && StrictlyAscending(batch)
    && (forall m | m in batch :: m.id in w && w[m.id] == c && m.id > scanCursor)
    && (forall id, m | id in w && w[id] == c && scanCursor < id && m in batch && id <= m.id ::
          Has(batch, id))
  }

  ghost predicate PassOk(w: World, s: Sys) {
    s.pass.Running? ==>
      var Running(c, start, scan, batch) := s.pass;
      && c in s.recoverable
      && (Effective(s.mem.store, c).Some? ==> Effective(s.mem.store, c).value == start && c in s.mem.base)
      && Scanned(w, s, c, start, scan)
      && (!scan.halted ==> Pending(w, c, scan.scanCursor, batch))
  }

  /** A snapshot in memory, on its way to disk, or on disk. */
  ghost predicate Holds(s: Sys, x: Snapshot) {
    x == s.mem || x == s.disk || x in s.queue
  }

  ghost predicate AllGood(w: World, s: Sys) {
    forall x {:trigger Holds(s, x)} | Holds(s, x) :: Good(w, s.finished, s.refused, x)
  }

  ghost predicate Inv(w: World, s: Sys) {
    AllGood(w, s) && PassOk(w, s)
  }

  /** A start from any store whose counts are truthful: nothing is claimed below its watermarks. */
  ghost predicate Init(w: World, s: Sys) {
    && s.mem == s.disk && s.queue == [] && s.pass.Idle?
    && Disjoint(s.disk.store) && Truthful(s.refused, s.disk) && Logged(w, s.disk)
    && (forall c | Effective(s.disk.store, c).Some? ::
          c in s.disk.base && s.disk.base[c] == Effective(s.disk.store, c).value)
  }
}
