/** Every step of every run keeps the invariant of `DiscordRuns`, so no crash loses a message. */
module DiscordRunsLaws {
  import opened Collections
  import opened DiscordScan
  import opened DiscordScanLaws
  import opened DiscordStore
  import opened DiscordStoreLaws
  import opened DiscordRuns

  // ----- Frames -----

  /** What happened at the gateway only grows. */
  ghost predicate Grows(s: Sys, t: Sys) {
    && (forall id | id in s.finished :: id in t.finished)
    && (forall id :: Refusals(s.refused, id) <= Refusals(t.refused, id))
  }

  lemma GoodGrows(w: World, s: Sys, t: Sys, x: Snapshot)
    requires Good(w, s.finished, s.refused, x) && Grows(s, t)
    ensures Good(w, t.finished, t.refused, x)
  {}

  /** A step that writes no new snapshot. */
  lemma AllGoodGrows(w: World, s: Sys, t: Sys)
    requires AllGood(w, s) && Grows(s, t)
    requires (t.mem == s.mem || t.mem == s.disk) && (t.disk == s.disk || t.disk in s.queue)
    requires forall x | x in t.queue :: x in s.queue
    ensures AllGood(w, t)
  {
    forall x | Holds(t, x)
      ensures Good(w, t.finished, t.refused, x)
    {
      assert Holds(s, x);
      GoodGrows(w, s, t, x);
    }
  }

  /** A step that only rewrites the snapshot in memory. */
  lemma RewriteIsGood(w: World, s: Sys, t: Sys)
    requires AllGood(w, s) && Grows(s, t) && t.disk == s.disk && t.queue == s.queue
    requires Good(w, t.finished, t.refused, t.mem)
    ensures AllGood(w, t)
  {
    forall x | Holds(t, x)
      ensures Good(w, t.finished, t.refused, x)
    {
      if x != t.mem {
        assert Holds(s, x);
        GoodGrows(w, s, t, x);
      }
    }
  }

  lemma MemIsGood(w: World, s: Sys)
    requires AllGood(w, s)
    ensures Good(w, s.finished, s.refused, s.mem)
  {
    assert Holds(s, s.mem);
  }

  /** Only the log, the digest and what they are measured against matter to it. */
  lemma LoggedStays(w: World, x: Snapshot, y: Snapshot)
    requires Logged(w, x) && y.buried == x.buried && y.letters == x.letters
    requires y.store.deadLetters == x.store.deadLetters && y.store.digest == x.store.digest
    ensures Logged(w, y)
  {
    forall c
      ensures DigestOf(y.store, y.letters, c)
    {
      assert DigestOf(x.store, x.letters, c);
    }
  }

  /** Same watermarks, same history: only the ledger moved. */
  lemma GoodLedger(w: World, finished: set<nat>, refused: map<nat, nat>, x: Snapshot, y: Snapshot)
    requires Good(w, finished, refused, x) && y.base == x.base && y.buried == x.buried && y.letters == x.letters
    requires y.store.recoveredThrough == x.store.recoveredThrough && y.store.quarantined == x.store.quarantined
    requires y.store.deadLetters == x.store.deadLetters && y.store.digest == x.store.digest
    requires forall id :: TerminalCount(y.store.attempts, id) <= Refusals(refused, id)
    ensures Good(w, finished, refused, y)
  {
    assert forall c :: Effective(y.store, c) == Effective(x.store, c);
    LoggedStays(w, x, y);
  }

  lemma ForgettingIsGood(w: World, s: Sys, x: Snapshot, id: nat)
    requires Good(w, s.finished, s.refused, x)
    ensures Good(w, s.finished, s.refused, x.(store := ClearAttempt(x.store, id)))
  {
    GoodLedger(w, s.finished, s.refused, x, x.(store := ClearAttempt(x.store, id)));
  }

  /** The snapshot with one more dead letter. */
  function Lettering(x: Snapshot, l: Letter): Snapshot {
    Snapshot(RecordDeadLetter(x.store, l, DEAD_LETTER_CAP), x.base, x.buried + {l.id},
             WithOneMore(x.letters, l, DEAD_LETTER_CAP))
  }

  lemma LetteringIsGood(w: World, s: Sys, x: Snapshot, l: Letter)
    requires Good(w, s.finished, s.refused, x) && MayBury(w, s, l.conversation, l.id)
    ensures Good(w, s.finished, s.refused, Lettering(x, l))
  {
    LetteringIsLogged(w, x, l);
    LetteringCovers(w, s.finished, x, l);
    LetteringIsTruthful(s.refused, x, l);
  }

  lemma LetteringCovers(w: World, finished: set<nat>, x: Snapshot, l: Letter)
    requires Disjoint(x.store) && Covers(w, finished, x)
    ensures Disjoint(Lettering(x, l).store) && Covers(w, finished, Lettering(x, l))
  {
    var y := Lettering(x, l);
    forall c: nat
      ensures Effective(y.store, c) == Effective(x.store, c)
    {}
  }

  lemma LetteringIsTruthful(refused: map<nat, nat>, x: Snapshot, l: Letter)
    requires Truthful(refused, x) && Refusals(refused, l.id) >= MAX_ATTEMPTS
    ensures Truthful(refused, Lettering(x, l))
  {}

  lemma LetteringIsLogged(w: World, x: Snapshot, l: Letter)
    requires Logged(w, x) && l.id in w && w[l.id] == l.conversation
    ensures Logged(w, Lettering(x, l))
  {
    var y := Lettering(x, l);
    assert DigestOf(x.store, x.letters, l.conversation);
    forall c
      ensures DigestOf(y.store, y.letters, c) && y.store.deadLetters == LastOf(y.letters, DEAD_LETTER_CAP)
    {
      assert DigestOf(x.store, x.letters, c);
      OneMoreLetter(x.store, x.letters, l, DEAD_LETTER_CAP, c);
    }
    OneMoreLetter(x.store, x.letters, l, DEAD_LETTER_CAP, l.conversation);
    LettersGrow(x.letters, l);
  }

  /** A letter counts from then on, or did already. */
  lemma LettersGrow(letters: seq<Letter>, l: Letter)
    ensures var more := WithOneMore(letters, l, DEAD_LETTER_CAP);
            && Counts(more, l.id) && (forall k | k in more :: k in letters || k == l)
            && forall k | k in letters :: k in more
  {
    if exists k | k in LastOf(letters, DEAD_LETTER_CAP) :: k.id == l.id {
      var k :| k in LastOf(letters, DEAD_LETTER_CAP) && k.id == l.id;
      assert k in letters;
    } else {
      assert l in letters + [l];
    }
  }

  // ----- Burying -----

  /** Nothing but snapshots and their burials changed. */
  ghost predicate SameButBuried(s: Sys, t: Sys) {
    && t.disk == s.disk && t.pass == s.pass && t.recoverable == s.recoverable
    && t.finished == s.finished && t.refused == s.refused
    && t.mem.base == s.mem.base
    && t.mem.store.recoveredThrough == s.mem.store.recoveredThrough
    && t.mem.store.quarantined == s.mem.store.quarantined
    && (forall id | id in s.mem.buried :: id in t.mem.buried)
  }

  lemma PersistIsGood(w: World, s: Sys, x: Snapshot)
    requires AllGood(w, s) && Good(w, s.finished, s.refused, x)
    ensures AllGood(w, Persisted(s, x))
  {
    var t := Persisted(s, x);
    forall z | Holds(t, z)
      ensures Good(w, t.finished, t.refused, z)
    {
      assert z == x || Holds(s, z);
    }
  }

  lemma BuryIsGood(w: World, s: Sys, id: nat, c: nat) returns (t: Sys)
    requires AllGood(w, s) && MayBury(w, s, c, id)
    ensures t == Bury(s, id, c)
    ensures AllGood(w, t) && SameButBuried(s, t) && id in t.mem.buried
  {
    t := Bury(s, id, c);
    var attempts := if id in s.mem.store.attempts then s.mem.store.attempts[id].terminalAttempts else MAX_ATTEMPTS;
    var l := Letter(id, c, attempts);
    var x := Lettering(s.mem, l);
    MemIsGood(w, s);
    LetteringIsGood(w, s, s.mem, l);
    PersistIsGood(w, s, x);
    var s1 := Persisted(s, x);
    ForgettingIsGood(w, s1, x, id);
    PersistIsGood(w, s1, x.(store := ClearAttempt(x.store, id)));
  }

  lemma SameButBuriedTwice(s: Sys, t: Sys, u: Sys)
    requires SameButBuried(s, t) && SameButBuried(t, u)
    ensures SameButBuried(s, u)
    ensures forall id | id in t.mem.buried :: id in u.mem.buried
  {}

  /** Burying the first of several: what is left to bury, and from which state. */
  lemma BuryFirstIsGood(w: World, s: Sys, held: seq<nat>, c: nat) returns (t: Sys, rest: seq<nat>)
    requires AllGood(w, s) && held != [] && forall id | id in held :: MayBury(w, s, c, id)
    ensures |rest| < |held| && BuryAll(s, held, c) == BuryAll(t, rest, c)
    ensures AllGood(w, t) && SameButBuried(s, t)
    ensures forall id | id in rest :: MayBury(w, t, c, id)
    ensures forall id | id in held :: id in rest || id in t.mem.buried
  {
    rest := held[1..];
    assert held == [held[0]] + rest;
    assert forall id | id in held :: id in rest || id == held[0];
    assert forall id | id in rest :: id in held;
    assert BuryAll(s, held, c) == BuryAll(Bury(s, held[0], c), rest, c);
    t := BuryIsGood(w, s, held[0], c);
  }

  lemma {:induction false} BuryAllIsGood(w: World, s: Sys, held: seq<nat>, c: nat) returns (t: Sys)
    requires AllGood(w, s) && forall id | id in held :: MayBury(w, s, c, id)
    ensures t == BuryAll(s, held, c)
    ensures AllGood(w, t) && SameButBuried(s, t)
    ensures forall id | id in held :: id in t.mem.buried
    decreases |held|
  {
    if held == [] {
      t := s;
    } else {
      var t1, rest := BuryFirstIsGood(w, s, held, c);
      t := BuryAllIsGood(w, t1, rest, c);
      SameButBuriedTwice(s, t1, t);
    }
  }

  // ----- Pages -----

  ghost predicate UniqueIds(s: seq<Message>) {
    forall i, j | 0 <= i < j < |s| :: s[i].id != s[j].id
  }

  lemma {:induction false} FilterKeepsUnique(raw: seq<Message>, keep: Message -> bool)
    requires UniqueIds(raw)
    ensures UniqueIds(Filter(raw, keep))
  {
    if raw != [] {
      FilterKeepsUnique(raw[1..], keep);
      assert forall m | m in raw[1..] :: m.id != raw[0].id;
      assert forall m | m in Filter(raw[1..], keep) :: m in raw[1..];
    }
  }

  lemma SortKeepsUnique(s: seq<Message>)
    requires UniqueIds(s)
    ensures StrictlyAscending(SortById(s))
  {
    SortAscends(s);
    SortByStaysDistinct(s, ById);
    assert forall m, n | m in s && n in s && m.id == n.id :: m == n;
    assert forall m | m in SortById(s) :: m in s;
  }

  lemma HonestPageIsPending(w: World, c: nat, after: nat, raw: seq<Message>)
    requires HonestPage(w, c, after, raw)
    ensures Pending(w, c, after, Normalized(raw, after))
  {
    var batch := Normalized(raw, after);
    FilterKeepsUnique(raw, (m: Message) => m.id > after);
    SortKeepsUnique(Filter(raw, (m: Message) => m.id > after));
    NormalizedIsAbove(raw, after);
    forall id, m | id in w && w[id] == c && after < id && m in batch && id <= m.id
      ensures Has(batch, id)
    {
      assert m in raw && Has(raw, id);
      var n :| n in raw && n.id == id;
      assert n in batch;
    }
  }

  lemma FirstIsLowest(batch: seq<Message>)
    requires StrictlyAscending(batch) && batch != []
    ensures StrictlyAscending(batch[1..])
    ensures forall m | m in batch :: m == batch[0] || (m in batch[1..] && m.id > batch[0].id)
  {
    assert batch == [batch[0]] + batch[1..];
  }

  lemma RestHas(batch: seq<Message>, id: nat)
    requires batch != [] && Has(batch, id) && id != batch[0].id
    ensures Has(batch[1..], id)
  {
    var n :| n in batch && n.id == id;
    assert batch == [batch[0]] + batch[1..];
    assert n in batch[1..];
  }

  /** Taking the first message of a page: nothing of the conversation lies between the cursor and it. */
  lemma PendingMovesOn(w: World, c: nat, scanCursor: nat, batch: seq<Message>)
    requires Pending(w, c, scanCursor, batch) && batch != []
    ensures forall id | id in w && w[id] == c && scanCursor < id <= batch[0].id :: id == batch[0].id
    ensures Pending(w, c, batch[0].id, batch[1..])
  {
    FirstIsLowest(batch);
    var first, rest := batch[0], batch[1..];
    assert first in batch && forall m | m in rest :: m in batch;
    forall id | id in w && w[id] == c && scanCursor < id <= first.id
      ensures id == first.id
    {
      assert Has(batch, id);
      var n :| n in batch && n.id == id;
    }
    forall id, m | id in w && w[id] == c && first.id < id && m in rest && id <= m.id
      ensures Has(rest, id)
    {
      assert Has(batch, id);
      RestHas(batch, id);
    }
  }

  // ----- One step -----

  lemma BeginPassKeeps(w: World, a: Sys, b: Sys, c: nat, bootstrap: nat, recoverable: set<nat>)
    requires Inv(w, a) && Next(w, BeginPass(c, bootstrap, recoverable), a, b)
    ensures Inv(w, b)
  {
    MemIsGood(w, a);
    AllGoodGrows(w, a, b);
  }

  lemma FetchPageKeeps(w: World, a: Sys, b: Sys, raw: seq<Message>)
    requires Inv(w, a) && Next(w, FetchPage(raw), a, b)
    ensures Inv(w, b)
  {
    AllGoodGrows(w, a, b);
    HonestPageIsPending(w, a.pass.conversation, a.pass.scan.scanCursor, raw);
  }

  /** Moving the scan past a message that is finished, buried, or now held. */
  lemma ScannedMovesOn(w: World, s: Sys, t: Sys, c: nat, start: nat, scan: Scan, batch: seq<Message>, next: Scan)
    requires Scanned(w, s, c, start, scan) && Pending(w, c, scan.scanCursor, batch) && batch != []
    requires Grows(s, t) && forall id | id in s.mem.buried :: id in t.mem.buried
    requires next.scanCursor == batch[0].id
    requires next.cursor == scan.cursor || next.cursor == batch[0].id
    requires batch[0].id in t.finished || batch[0].id in next.held
    requires forall id | id in scan.held :: id in next.held || id in t.mem.buried
    requires forall id | id in next.held :: next.cursor < id <= batch[0].id && MayBury(w, t, c, id)
    ensures Scanned(w, t, c, start, next)
  {
    PendingMovesOn(w, c, scan.scanCursor, batch);
    assert batch[0] in batch;
  }

  lemma PassBlankKeeps(w: World, a: Sys, b: Sys)
    requires Inv(w, a) && Next(w, PassBlankMessage, a, b)
    ensures Inv(w, b)
  {
    AllGoodGrows(w, a, b);
    var Running(c, start, scan, batch) := a.pass;
    assert batch[0] in batch;
    ScannedMovesOn(w, a, b, c, start, scan, batch, b.pass.scan);
    PendingMovesOn(w, c, scan.scanCursor, batch);
  }

  /** A failed attempt rewrites the ledger in memory and nothing else, and its counts stay truthful. */
  ghost predicate Failed(a: Sys, b: Sys) {
    && b == a.(mem := b.mem, refused := b.refused) && Grows(a, b)
    && b.mem.base == a.mem.base && b.mem.buried == a.mem.buried && b.mem.letters == a.mem.letters
    && b.mem.store.recoveredThrough == a.mem.store.recoveredThrough
    && b.mem.store.quarantined == a.mem.store.quarantined
    && b.mem.store.deadLetters == a.mem.store.deadLetters && b.mem.store.digest == a.mem.store.digest
    && forall j :: TerminalCount(b.mem.store.attempts, j) <= Refusals(b.refused, j)
  }

  lemma RecordIsTruthful(
    s: State, id: nat, c: nat, terminal: bool, r: State, refused: map<nat, nat>, refused': map<nat, nat>)
    requires Records(s, id, c, terminal, ATTEMPT_LEDGER_CAP, r)
    requires forall j :: TerminalCount(s.attempts, j) <= Refusals(refused, j)
    requires refused' == if terminal then refused[id := Refusals(refused, id) + 1] else refused
    ensures r.recoveredThrough == s.recoveredThrough && r.quarantined == s.quarantined
    ensures r.deadLetters == s.deadLetters && r.digest == s.digest
    ensures forall j :: TerminalCount(r.attempts, j) <= Refusals(refused', j)
  {
    RecordCountsOnce(s, id, c, terminal, ATTEMPT_LEDGER_CAP, r, id);
    forall j: nat
      ensures TerminalCount(r.attempts, j) <= Refusals(refused', j)
    {
      RecordCountsOnce(s, id, c, terminal, ATTEMPT_LEDGER_CAP, r, j);
    }
  }

  lemma FailAttemptIsTruthful(w: World, a: Sys, b: Sys, terminal: bool, store: State)
    requires Truthful(a.refused, a.mem) && Next(w, FailAttempt(terminal, store), a, b)
    ensures Failed(a, b)
  {
    RecordIsTruthful(
      a.mem.store, a.pass.batch[0].id, a.pass.conversation, terminal, store, a.refused, b.refused);
  }

  lemma FailAttemptKeeps(w: World, a: Sys, b: Sys, terminal: bool, store: State)
    requires Inv(w, a) && Next(w, FailAttempt(terminal, store), a, b)
    ensures Inv(w, b)
  {
    MemIsGood(w, a);
    FailAttemptIsTruthful(w, a, b, terminal, store);
    FailedIsGood(w, a, b);
  }

  lemma FailedIsGood(w: World, a: Sys, b: Sys)
    requires Inv(w, a) && Failed(a, b)
    ensures Inv(w, b)
  {
    MemIsGood(w, a);
    GoodGrows(w, a, b, a.mem);
    GoodLedger(w, b.finished, b.refused, a.mem, b.mem);
    RewriteIsGood(w, a, b);
    FailedPassOk(w, a, b);
  }

  lemma FailedPassOk(w: World, a: Sys, b: Sys)
    requires PassOk(w, a) && Grows(a, b) && b.pass == a.pass && b.recoverable == a.recoverable
    requires b.mem.base == a.mem.base && b.mem.buried == a.mem.buried
    requires b.mem.store.recoveredThrough == a.mem.store.recoveredThrough
    requires b.mem.store.quarantined == a.mem.store.quarantined
    ensures PassOk(w, b)
  {}

  /** The run's own part of a verdict, before anything is persisted. */
  function Reacted(a: Sys, verdict: Verdict): Sys
    requires a.pass.Running? && a.pass.batch != []
  {
    var Running(c, start, scan, batch) := a.pass;
    a.(pass := Running(c, start, React(scan, batch[0].id, verdict, UNIFORM_LIMIT), batch[1..]))
  }

  /** The pass part of the invariant after a verdict that moved the scan. */
  lemma ReactedPassOk(w: World, a: Sys, verdict: Verdict, t: Sys)
    requires PassOk(w, a) && a.pass.Running? && a.pass.batch != [] && !a.pass.scan.halted && verdict != Unavailable
    requires t.pass == Reacted(a, verdict).pass && t.recoverable == a.recoverable && Grows(a, t)
    requires t.mem.base == a.mem.base && forall id | id in a.mem.buried :: id in t.mem.buried
    requires t.mem.store.recoveredThrough == a.mem.store.recoveredThrough
    requires t.mem.store.quarantined == a.mem.store.quarantined
    requires verdict == Candidate ==> Refusals(t.refused, a.pass.batch[0].id) >= MAX_ATTEMPTS
    requires verdict != Candidate ==> a.pass.batch[0].id in t.finished
    requires verdict == Acked ==> forall id | id in Without(a.pass.scan.held, a.pass.batch[0].id) :: id in t.mem.buried
    ensures PassOk(w, t)
  {
    var Running(c, start, scan, batch) := a.pass;
    assert batch[0] in batch;
    PendingMovesOn(w, c, scan.scanCursor, batch);
    ScannedMovesOn(w, a, t, c, start, scan, batch, t.pass.scan);
  }

  lemma SettleKeeps(w: World, a: Sys, b: Sys, verdict: Verdict)
    requires Inv(w, a) && Next(w, Settle(verdict), a, b)
    ensures Inv(w, b)
  {
    var Running(c, start, scan, batch) := a.pass;
    var id := batch[0].id;
    var moved := Reacted(a, verdict);
    AllGoodGrows(w, a, moved);
    match verdict {
      case Unavailable =>
        MemIsGood(w, moved);
        PersistIsGood(w, moved, moved.mem);
      case Candidate =>
        MemIsGood(w, moved);
        PersistIsGood(w, moved, moved.mem);
        ReactedPassOk(w, a, verdict, b);
      case Skip =>
        AllGoodGrows(w, moved, b);
        ReactedPassOk(w, a, verdict, b);
      case Duplicate =>
        LandingKeeps(w, moved, id);
        ReactedPassOk(w, a, verdict, b);
      case Acked =>
        LandingKeeps(w, moved, id);
        AckedKeeps(w, a, Forget(Finish(moved, id), id), b);
    }
  }

  lemma AckedKeeps(w: World, a: Sys, landed: Sys, b: Sys)
    requires Inv(w, a) && a.pass.Running? && a.pass.batch != [] && !a.pass.scan.halted
    requires landed == Forget(Finish(Reacted(a, Acked), a.pass.batch[0].id), a.pass.batch[0].id) && AllGood(w, landed)
    requires b == BuryAll(landed, Without(a.pass.scan.held, a.pass.batch[0].id), a.pass.conversation)
    ensures Inv(w, b)
  {
    var held := Without(a.pass.scan.held, a.pass.batch[0].id);
    assert forall h | h in held :: h in a.pass.scan.held;
    var t := BuryAllIsGood(w, landed, held, a.pass.conversation);
    ReactedPassOk(w, a, Acked, t);
  }

  lemma LandingKeeps(w: World, s: Sys, id: nat)
    requires AllGood(w, s)
    ensures AllGood(w, Forget(Finish(s, id), id))
  {
    var t := Finish(s, id);
    AllGoodGrows(w, s, t);
    MemIsGood(w, t);
    ForgettingIsGood(w, t, t.mem, id);
    PersistIsGood(w, t, t.mem.(store := ClearAttempt(t.mem.store, id)));
  }

  lemma EndPassKeeps(w: World, a: Sys, b: Sys, store: State)
    requires Inv(w, a) && Next(w, EndPass(store), a, b)
    ensures Inv(w, b)
  {
    AdvancingIsGood(w, a, store, b.mem);
    PersistIsGood(w, a, b.mem);
    AllGoodGrows(w, Persisted(a, b.mem), b);
  }

  /** The watermark of `c` rose to the cursor; every other one stayed or was evicted. */
  ghost predicate AdvancedTo(s: State, c: nat, cursor: nat, r: State, d: nat) {
    && (d == c ==> Effective(r, d) ==
                   Some(if Effective(s, d).Some? then Max(Effective(s, d).value, cursor) else cursor))
    && (d != c ==> Effective(r, d) == Effective(s, d) || Effective(r, d) == None)
  }

  lemma AdvancingMovesWatermarks(s: State, c: nat, cursor: nat, allowed: set<nat>, r: State)
    requires Disjoint(s) && c in allowed && Advances(s, c, cursor, allowed, r)
    ensures Disjoint(r) && r.attempts == s.attempts && r.deadLetters == s.deadLetters && r.digest == s.digest
    ensures forall d :: AdvancedTo(s, c, cursor, r, d)
  {
    AdvanceIsMonotone(s, c, cursor, allowed, r, c);
    forall d ensures AdvancedTo(s, c, cursor, r, d) {
      AdvanceIsMonotone(s, c, cursor, allowed, r, d);
    }
  }

  lemma AdvancingIsGood(w: World, a: Sys, store: State, x: Snapshot)
    requires Inv(w, a) && a.pass.Running?
    requires Advances(a.mem.store, a.pass.conversation, a.pass.scan.cursor, a.recoverable, store)
    requires x == Snapshot(store,
                           if Effective(a.mem.store, a.pass.conversation).Some? then a.mem.base
                           else a.mem.base[a.pass.conversation := a.pass.start],
                           a.mem.buried, a.mem.letters)
    ensures Good(w, a.finished, a.refused, x)
  {
    var c, cursor := a.pass.conversation, a.pass.scan.cursor;
    MemIsGood(w, a);
    AdvancingMovesWatermarks(a.mem.store, c, cursor, a.recoverable, store);
    forall d | Effective(x.store, d).Some?
      ensures d in x.base
    {
      assert AdvancedTo(a.mem.store, c, cursor, store, d);
    }
    forall id | id in w && Effective(x.store, w[id]).Some?
      ensures x.base[w[id]] < id <= Effective(x.store, w[id]).value ==> id in a.finished || id in x.buried
    {
      assert AdvancedTo(a.mem.store, c, cursor, store, w[id]);
    }
    LoggedStays(w, a.mem, x);
  }

  /** Retention in terms of effective watermarks alone. */
  lemma RetentionMovesWatermarks(s: State, allowed: set<nat>, r: State)
    requires Disjoint(s) && Retains(s, allowed, QUARANTINE_CAP, r)
    ensures Disjoint(r) && r.attempts == s.attempts && r.deadLetters == s.deadLetters && r.digest == s.digest
    ensures forall d :: Effective(r, d) == Effective(s, d) || Effective(r, d) == None
  {
    RetentionIsWellParked(s, allowed, QUARANTINE_CAP, r);
    forall d
      ensures Effective(r, d) == Effective(s, d) || Effective(r, d) == None
    {
      RetentionKeepsWatermarks(s, allowed, QUARANTINE_CAP, r, d);
    }
  }

  lemma FewerWatermarksAreGood(w: World, finished: set<nat>, refused: map<nat, nat>, x: Snapshot, y: Snapshot)
    requires Good(w, finished, refused, x) && y.base == x.base && y.buried == x.buried && y.letters == x.letters
    requires Disjoint(y.store) && y.store.attempts == x.store.attempts
    requires y.store.deadLetters == x.store.deadLetters && y.store.digest == x.store.digest
    requires forall d :: Effective(y.store, d) == Effective(x.store, d) || Effective(y.store, d) == None
    ensures Good(w, finished, refused, y)
  {
    LoggedStays(w, x, y);
  }

  lemma RetainKeeps(w: World, a: Sys, b: Sys, store: State)
    requires Inv(w, a) && Next(w, RetainCursors(store), a, b)
    ensures Inv(w, b)
  {
    MemIsGood(w, a);
    RetentionMovesWatermarks(a.mem.store, a.recoverable, store);
    FewerWatermarksAreGood(w, a.finished, a.refused, a.mem, b.mem);
    PersistIsGood(w, a, b.mem);
  }

  lemma SavesKeep(w: World, a: Sys, b: Sys, lands: bool)
    requires Inv(w, a) && Next(w, if lands then SaveLands else SaveFails, a, b)
    ensures Inv(w, b)
  {
    assert a.queue[0] in a.queue;
    AllGoodGrows(w, a, b);
  }

  lemma StepKeeps(w: World, step: Step, a: Sys, b: Sys)
    requires Inv(w, a) && Next(w, step, a, b)
    ensures Inv(w, b)
  {
    match step
    case BeginPass(c, bootstrap, recoverable) => BeginPassKeeps(w, a, b, c, bootstrap, recoverable);
    case FetchPage(raw) => FetchPageKeeps(w, a, b, raw);
    case PassBlankMessage => PassBlankKeeps(w, a, b);
    case FailAttempt(terminal, store) => FailAttemptKeeps(w, a, b, terminal, store);
    case Settle(verdict) => SettleKeeps(w, a, b, verdict);
    case EndPass(store) => EndPassKeeps(w, a, b, store);
    case RetainCursors(store) => RetainKeeps(w, a, b, store);
    case LiveAck(id) => AllGoodGrows(w, a, b);
    case SaveLands => SavesKeep(w, a, b, true);
    case SaveFails => SavesKeep(w, a, b, false);
    case Crash => AllGoodGrows(w, a, b);
  }

  // ----- Whole runs -----

  ghost predicate StepAt(w: World, steps: seq<Step>, states: seq<Sys>, i: nat)
    requires |states| == |steps| + 1 && i < |steps|
  {
    Next(w, steps[i], states[i], states[i + 1])
  }

  ghost predicate Behaviour(w: World, steps: seq<Step>, states: seq<Sys>) {
    && |states| == |steps| + 1 && Init(w, states[0])
    && forall i {:trigger StepAt(w, steps, states, i)} | 0 <= i < |steps| :: StepAt(w, steps, states, i)
  }

  lemma InitIsGood(w: World, s: Sys)
    requires Init(w, s)
    ensures Inv(w, s)
  {}

  lemma {:induction false} RunsKeep(w: World, steps: seq<Step>, states: seq<Sys>, n: nat)
    requires Behaviour(w, steps, states) && n <= |steps|
    ensures Inv(w, states[n])
  {
    if n == 0 {
      InitIsGood(w, states[0]);
    } else {
      RunsKeep(w, steps, states, n - 1);
      assert StepAt(w, steps, states, n - 1);
      StepKeeps(w, steps[n - 1], states[n - 1], states[n]);
    }
  }

  /**
   Dead letter `i` as the store has it: filed under its conversation, tallied there with all
   others by the digest, and in the log unless fifty more have counted since.
   */
  ghost predicate DeadLettered(x: Snapshot, id: nat, c: nat, i: nat) {
    && i < |x.letters| && x.letters[i].id == id && x.letters[i].conversation == c
    && x.letters[i] in Of(x.letters, c)
    && c in x.store.digest && x.store.digest[c].count == |Of(x.letters, c)|
    && (|x.letters| - i <= DEAD_LETTER_CAP ==> x.letters[i] in x.store.deadLetters)
  }

  lemma {:induction false} LettersAreFiled(letters: seq<Letter>, i: nat)
    requires i < |letters|
    ensures letters[i] in Of(letters, letters[i].conversation)
    decreases |letters|
  {
    if i < |letters| - 1 { LettersAreFiled(letters[..|letters| - 1], i); }
  }

  lemma BuriedIsDeadLettered(w: World, x: Snapshot, id: nat) returns (i: nat)
    requires Logged(w, x) && id in x.buried && id in w
    ensures DeadLettered(x, id, w[id], i)
  {
    assert Counts(x.letters, id);
    var l :| l in x.letters && l.id == id;
    i :| 0 <= i < |x.letters| && x.letters[i] == l;
    LettersAreFiled(x.letters, i);
    assert DigestOf(x.store, x.letters, w[id]);
    if |x.letters| - i <= DEAD_LETTER_CAP {
      var dropped := Max(0, |x.letters| - DEAD_LETTER_CAP);
      assert x.store.deadLetters[i - dropped] == l;
    }
  }

  /**
   No loss with crashes: in every durable state of every run, each message between where a
   stored watermark began and where it stands was acked, already known, or skipped, or was
   terminally refused at least three times and is dead-lettered in that very state: the
   stored digest counts it, and the stored log holds it unless fifty later letters counted.
   */
  lemma NoCrashLosesAMessage(w: World, steps: seq<Step>, states: seq<Sys>, id: nat) returns (i: nat)
    requires Behaviour(w, steps, states) && id in w
    ensures var s := states[|steps|];
            var x := s.disk;
            var mark := Effective(x.store, w[id]);
            mark.Some? ==>
              && w[id] in x.base
              && (x.base[w[id]] < id <= mark.value ==>
                    id in s.finished || (Refusals(s.refused, id) >= MAX_ATTEMPTS && DeadLettered(x, id, w[id], i)))
  {
    RunsKeep(w, steps, states, |steps|);
    var s := states[|steps|];
    assert Holds(s, s.disk);
    i := 0;
    if id in s.disk.buried { i := BuriedIsDeadLettered(w, s.disk, id); }
  }

  // ----- The ledger in memory -----

  lemma {:induction false} BuryingForgets(s: Sys, held: seq<nat>, c: nat)
    ensures var t := BuryAll(s, held, c).mem.store.attempts;
            && (forall id | id in held :: id !in t)
            && (forall id | id !in held :: id in t <==> id in s.mem.store.attempts)
            && (forall id | id in t :: t[id] == s.mem.store.attempts[id])
    decreases |held|
  {
    if held != [] {
      assert held == [held[0]] + held[1..];
      BuryingForgets(Bury(s, held[0], c), held[1..], c);
    }
  }

  /**
   A message that landed, or was known, has no ledger entry once its verdict is in, nor has any
   candidate its ack proved discardable; every other entry stays as it was.
   */
  lemma SettlingForgets(w: World, a: Sys, b: Sys, verdict: Verdict)
    requires Next(w, Settle(verdict), a, b) && verdict in {Acked, Duplicate}
    ensures var id, before, after := a.pass.batch[0].id, a.mem.store.attempts, b.mem.store.attempts;
            var gone := if verdict == Acked then Including(Without(a.pass.scan.held, id), id) else [id];
            && (forall x | x in gone :: x !in after)
            && (forall x | x !in gone :: x in after <==> x in before)
            && (forall x | x in after :: after[x] == before[x])
  {
    var Running(c, start, scan, batch) := a.pass;
    var id := batch[0].id;
    var next := a.(pass := Running(c, start, React(scan, id, verdict, UNIFORM_LIMIT), batch[1..]));
    if verdict == Acked { BuryingForgets(Forget(Finish(next, id), id), Without(scan.held, id), c); }
  }

  /** The step records no attempt of the message and does not fall back to what is on disk. */
  predicate Unrecorded(step: Step, a: Sys, id: nat) {
    && !step.Crash?
    && (step.FailAttempt? && a.pass.Running? && a.pass.batch != [] ==> a.pass.batch[0].id != id)
  }

  lemma StaysForgotten(w: World, step: Step, a: Sys, b: Sys, id: nat)
    requires Next(w, step, a, b) && id !in a.mem.store.attempts && Unrecorded(step, a, id)
    ensures id !in b.mem.store.attempts
  {
    match step
    case Settle(verdict) => if verdict in {Acked, Duplicate} { SettlingForgets(w, a, b, verdict); }
    case FailAttempt(terminal, store) =>
      var at := a.pass.batch[0].id;
      RecordSparesHeads(
        a.mem.store, at, a.pass.conversation, terminal, ATTEMPT_LEDGER_CAP, store, at);
    case EndPass(store) => KeepsLedger(a.mem.store, a.pass.conversation, a.pass.scan.cursor, a.recoverable, store);
    case _ =>
  }

  lemma KeepsLedger(s: State, c: nat, cursor: nat, allowed: set<nat>, r: State)
    requires Advances(s, c, cursor, allowed, r)
    ensures r.attempts == s.attempts
  {}

  /** And so it stays over any part of a run until the message fails again, or the adapter crashes. */
  lemma {:induction false} ForgottenUntilItFails(
    w: World, steps: seq<Step>, states: seq<Sys>, id: nat, m: nat, n: nat)
    requires Behaviour(w, steps, states) && m <= n <= |steps| && id !in states[m].mem.store.attempts
    requires forall k | m <= k < n :: Unrecorded(steps[k], states[k], id)
    ensures id !in states[n].mem.store.attempts
  {
    if n > m {
      ForgottenUntilItFails(w, steps, states, id, m, n - 1);
      assert StepAt(w, steps, states, n - 1);
      StaysForgotten(w, steps[n - 1], states[n - 1], states[n], id);
    }
  }

  // ----- Progress becomes durable -----

  /** The end of a run moves its conversation's watermark to the cursor, in memory and in the last save queued. */
  lemma EndingAdvances(w: World, a: Sys, b: Sys, store: State)
    requires Inv(w, a) && Next(w, EndPass(store), a, b)
    ensures Effective(b.mem.store, a.pass.conversation) == Some(a.pass.scan.cursor)
    ensures b.queue == a.queue + [b.mem] && b.pass.Idle?
  {
    MemIsGood(w, a);
    AdvanceIsMonotone(
      a.mem.store, a.pass.conversation, a.pass.scan.cursor, a.recoverable, store, a.pass.conversation);
  }

  /** When the queued saves land one by one the last of them is what is on disk. */
  lemma {:induction false} SavesLand(w: World, states: seq<Sys>, n: nat)
    requires |states| == n + 1 && |states[0].queue| >= n > 0
    requires forall i {:trigger LandsAt(w, states, i)} | 0 <= i < n :: LandsAt(w, states, i)
    ensures states[n].disk == states[0].queue[n - 1] && states[n].queue == states[0].queue[n..]
    ensures states[n].mem == states[0].mem
  {
    assert LandsAt(w, states, n - 1);
    if n > 1 {
      var before := states[..n];
      forall i | 0 <= i < n - 1
        ensures LandsAt(w, before, i)
      {
        assert LandsAt(w, states, i);
      }
      SavesLand(w, before, n - 1);
    }
  }

  ghost predicate LandsAt(w: World, states: seq<Sys>, i: nat)
    requires i + 1 < |states|
  {
    Next(w, SaveLands, states[i], states[i + 1])
  }

  /** While a run goes on, no held discard candidate is ever at or below the cursor that may become durable. */
  lemma HeldStaysAboveTheCursor(w: World, steps: seq<Step>, states: seq<Sys>, id: nat)
    requires Behaviour(w, steps, states)
    requires states[|steps|].pass.Running? && id in states[|steps|].pass.scan.held
    ensures states[|steps|].pass.scan.cursor < id
    ensures Refusals(states[|steps|].refused, id) >= MAX_ATTEMPTS
  {
    RunsKeep(w, steps, states, |steps|);
  }

  /** Reachable stores never have an id both live and parked, so retention never overwrites a watermark. */
  lemma LiveAndParkedStayDisjoint(w: World, steps: seq<Step>, states: seq<Sys>)
    requires Behaviour(w, steps, states)
    ensures Disjoint(states[|steps|].mem.store) && Disjoint(states[|steps|].disk.store)
  {
    RunsKeep(w, steps, states, |steps|);
    assert Holds(states[|steps|], states[|steps|].mem) && Holds(states[|steps|], states[|steps|].disk);
  }
}
