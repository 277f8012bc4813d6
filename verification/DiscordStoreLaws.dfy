/**
 What the Discord cursor store keeps: parked watermarks survive, and the attempt ledger
 never forgets the message that blocks its conversation.
 */
module DiscordStoreLaws {
  import opened Collections
  import opened DiscordStore

  // ----- Watermarks -----

  /** Live and parked keys are disjoint after every retention, whatever the store held before. */
  ghost predicate WellParked(s: State, cap: nat) {
    Disjoint(s) && |s.quarantined.Keys| <= cap
  }

  /** The parking lot before its bound was applied. */
  lemma BeforeTheBound(s: State, allowed: set<nat>, cap: nat, r: State) returns (parked: map<nat, Parked>)
    requires Retains(s, allowed, cap, r)
    ensures ParksRest(s, allowed, parked, r.sequence) && KeepsNewest(parked, cap, r.quarantined)
    ensures |parked.Keys| <= cap ==> forall c | c in parked :: c in r.quarantined
  {
    parked :| ParksRest(s, allowed, parked, r.sequence) && KeepsNewest(parked, cap, r.quarantined);
    if |parked.Keys| <= cap {
      SameSizeSubset(r.quarantined.Keys, parked.Keys);
    }
  }

  lemma SameSizeSubset(a: set<nat>, b: set<nat>)
    requires a <= b && |a| == |b|
    ensures a == b
  {
    assert b == a + (b - a);
  }

  lemma RetentionIsWellParked(s: State, allowed: set<nat>, cap: nat, r: State)
    requires Retains(s, allowed, cap, r)
    ensures WellParked(r, cap)
  {
    var parked := BeforeTheBound(s, allowed, cap, r);
  }

  /**
   `c` lost its place to `cap` others, none of them parked earlier: a parked entry was of the
   lowest order, and one that was still live lost out to entries parked in the same call.
   */
  ghost predicate EvictedFor(s: State, c: nat, cap: nat, r: State) {
    && c !in r.recoveredThrough && c !in r.quarantined
    && |r.quarantined.Keys| == cap
    && (c in s.quarantined ==> forall k | k in r.quarantined :: s.quarantined[c].order <= r.quarantined[k].order)
    && (c !in s.quarantined ==> forall k | k in r.quarantined :: s.sequence < r.quarantined[k].order)
  }

  lemma EvictedIsOldest(
    s: State, allowed: set<nat>, cap: nat, r: State, c: nat, parked: map<nat, Parked>)
    requires ParksRest(s, allowed, parked, r.sequence) && KeepsNewest(parked, cap, r.quarantined)
    requires c in parked && c !in r.quarantined && c !in r.recoveredThrough
    requires |parked.Keys| <= cap ==> c in r.quarantined
    ensures EvictedFor(s, c, cap, r)
  {
    forall k | k in r.quarantined
      ensures parked[c].order <= r.quarantined[k].order
    {
      assert Older(Orders(parked), c, k);
    }
  }

  /** Retention moves watermarks between the two maps and loses one only to lowest-order eviction. */
  lemma RetentionKeepsWatermarks(s: State, allowed: set<nat>, cap: nat, r: State, c: nat)
    requires Retains(s, allowed, cap, r)
    requires c in s.recoveredThrough && c in s.quarantined ==> c in allowed
    ensures Effective(r, c) == Effective(s, c)
            || (Effective(s, c).Some? && c !in allowed && EvictedFor(s, c, cap, r))
    ensures c in allowed ==> c !in r.quarantined
    ensures c !in allowed ==> c !in r.recoveredThrough
  {
    var parked := BeforeTheBound(s, allowed, cap, r);
    if c in parked && c !in r.quarantined {
      EvictedIsOldest(s, allowed, cap, r, c, parked);
    }
  }

  lemma RoomForAll(s: State, allowed: set<nat>, cap: nat, r: State) returns (parked: map<nat, Parked>)
    requires Retains(s, allowed, cap, r) && |Parkable(s, allowed)| <= cap
    ensures ParksRest(s, allowed, parked, r.sequence)
    ensures forall c :: c in r.quarantined <==> c in parked
    ensures forall c | c in r.quarantined :: r.quarantined[c] == parked[c]
  {
    parked := BeforeTheBound(s, allowed, cap, r);
    assert parked.Keys == Parkable(s, allowed);
  }

  /**
   Exactly when retention is lossless with room to spare: an id must not be both live and
   parked under another watermark, because the second loop overwrites what the first parked.
   */
  lemma RetentionIsFaithfulIff(s: State, allowed: set<nat>, cap: nat, r: State)
    requires Retains(s, allowed, cap, r) && |Parkable(s, allowed)| <= cap
    ensures (forall c :: Effective(r, c) == Effective(s, c)) <==>
            (forall c | c in s.recoveredThrough && c in s.quarantined && c !in allowed ::
               s.recoveredThrough[c] == s.quarantined[c].watermark)
  {
    var parked := RoomForAll(s, allowed, cap, r);
    forall c: nat
      ensures Effective(r, c) == Effective(s, c) <==>
              (c in s.recoveredThrough && c in s.quarantined && c !in allowed ==>
                 s.recoveredThrough[c] == s.quarantined[c].watermark)
    {}
  }

  /** A store in which the live watermark is lost: conversation 1 is live at 5 and parked at 3. */
  lemma ALiveWatermarkIsLost(s: State, r: State)
    requires s == State(map[1 := 5], map[1 := Parked(3, 1)], map[], [], map[], 1)
    requires Retains(s, {}, QUARANTINE_CAP, r)
    ensures Effective(s, 1) == Some(5) && Effective(r, 1) == Some(3)
  {
    assert Parkable(s, {}) == {1};
    var parked := RoomForAll(s, {}, QUARANTINE_CAP, r);
  }

  /** Everything retention parks: known and not recoverable. */
  function Parkable(s: State, allowed: set<nat>): set<nat> {
    set c | c in s.recoveredThrough.Keys + s.quarantined.Keys && c !in allowed
  }

  lemma SubsetCounts(a: set<nat>, b: set<nat>)
    requires a <= b
    ensures |a| <= |b|
  {
    assert b == a + (b - a);
  }

  /** Nothing left to move: everything live is recoverable, nothing parked is, and the bound holds. */
  ghost predicate AtRest(s: State, allowed: set<nat>, cap: nat) {
    && (forall c | c in s.recoveredThrough :: c in allowed)
    && (forall c | c in s.quarantined :: c !in allowed)
    && |s.quarantined.Keys| <= cap
  }

  lemma RetentionAtRest(s: State, allowed: set<nat>, cap: nat, r: State)
    requires AtRest(s, allowed, cap) && Retains(s, allowed, cap, r)
    ensures r == s
  {
    var parked := BeforeTheBound(s, allowed, cap, r);
    assert parked.Keys == s.quarantined.Keys;
    assert r.quarantined == s.quarantined;
    assert r.recoveredThrough == s.recoveredThrough;
    assert Gone(s, allowed) == {};
  }

  /** Retaining twice is retaining once. */
  lemma RetentionIsIdempotent(s: State, allowed: set<nat>, cap: nat, r: State, q: State)
    requires Retains(s, allowed, cap, r) && Retains(r, allowed, cap, q)
    ensures q == r
  {
    var parked := BeforeTheBound(s, allowed, cap, r);
    assert AtRest(r, allowed, cap);
    RetentionAtRest(r, allowed, cap, q);
  }

  /** A channel dropped from the configuration and added back resumes from its watermark. */
  lemma ReAddingRestores(
    s: State, without: set<nat>, r: State, with: set<nat>, q: State, cap: nat, c: nat)
    requires Disjoint(s) && c in s.recoveredThrough && c !in without && c in with
    requires Retains(s, without, cap, r) && Retains(r, with, cap, q)
    requires |Parkable(s, without)| <= cap
    ensures c in q.recoveredThrough && q.recoveredThrough[c] == s.recoveredThrough[c]
  {
    RetentionIsFaithfulIff(s, without, cap, r);
    RetentionIsWellParked(s, without, cap, r);
    RetentionKeepsWatermarks(r, with, cap, q, c);
    assert Effective(q, c) == Effective(r, c) == Effective(s, c);
  }

  /** A watermark write for a recoverable conversation only raises it, and disturbs no other one. */
  lemma AdvanceIsMonotone(s: State, c: nat, id: nat, allowed: set<nat>, r: State, d: nat)
    requires Disjoint(s) && c in allowed && Advances(s, c, id, allowed, r)
    ensures Disjoint(r)
    ensures d == c ==> Effective(r, d) == Some(if Effective(s, d).Some? then Max(Effective(s, d).value, id) else id)
    ensures d != c ==> Effective(r, d) == Effective(s, d)
                       || (Effective(s, d).Some? && d !in allowed && EvictedFor(s, d, QUARANTINE_CAP, r))
    ensures r.attempts == s.attempts && r.deadLetters == s.deadLetters && r.digest == s.digest
  {
    if r != s {
      var t := s.(recoveredThrough := s.recoveredThrough[c := id]);
      RetentionIsWellParked(t, allowed, QUARANTINE_CAP, r);
      RetentionKeepsWatermarks(t, allowed, QUARANTINE_CAP, r, d);
    }
  }

  // ----- The attempt ledger -----

  datatype Op = Record(id: nat, conversation: nat, terminal: bool) | Clear(id: nat)

  ghost predicate LedgerStep(s: State, op: Op, r: State, cap: nat) {
    match op
    case Record(id, conversation, terminal) => Records(s, id, conversation, terminal, cap, r)
    case Clear(id) => r == ClearAttempt(s, id)
  }

  function Failures(ops: seq<Op>, id: nat): nat {
    if ops == [] then 0
    else Failures(ops[..|ops| - 1], id) + if ops[|ops| - 1].Record? && ops[|ops| - 1].id == id then 1 else 0
  }

  function TerminalFailures(ops: seq<Op>, id: nat): nat {
    if ops == [] then 0
    else
      var last := ops[|ops| - 1];
      TerminalFailures(ops[..|ops| - 1], id) + if last.Record? && last.id == id && last.terminal then 1 else 0
  }

  /** The ledger with the attempt counted, and the leaders and protected set the record was made with. */
  lemma TheLeaders(s: State, id: nat, conversation: nat, terminal: bool, cap: nat, r: State)
    returns (before: map<nat, Attempt>, heads: map<nat, nat>, newest: map<nat, nat>, active: set<nat>)
    requires Records(s, id, conversation, terminal, cap, r)
    ensures RecordsWith(before, id, heads, newest, active, cap, r.attempts)
    ensures before == Bumped(s, id, conversation, terminal)
  {
    before := Bumped(s, id, conversation, terminal);
    heads, newest, active :| RecordsWith(before, id, heads, newest, active, cap, r.attempts);
  }

  ghost predicate HeadOfLine(m: map<nat, Attempt>, id: nat) {
    id in m && forall j | j in m && m[j].conversation == m[id].conversation :: id <= j
  }

  /** Eviction changes no surviving entry and spares the current message and every head of line. */
  lemma RecordSparesHeads(s: State, id: nat, conversation: nat, terminal: bool, cap: nat, r: State, x: nat)
    requires Records(s, id, conversation, terminal, cap, r)
    requires x == id || HeadOfLine(Bumped(s, id, conversation, terminal), x)
    ensures x in r.attempts
    ensures forall j | j in r.attempts :: j in Bumped(s, id, conversation, terminal)
                                          && r.attempts[j] == Bumped(s, id, conversation, terminal)[j]
  {
    var before, heads, newest, active := TheLeaders(s, id, conversation, terminal, cap, r);
    if x != id {
      var c := before[x].conversation;
      assert Leads(before, before.Keys, c, heads[c], newest[c]) && LedBy(before, x, heads[c], newest[c]);
      assert Protected(x, id, heads, newest);
    }
  }

  /** One record touches nothing but the ledger, and raises no count but its own, by at most one. */
  lemma RecordCountsOnce(s: State, id: nat, conversation: nat, terminal: bool, cap: nat, r: State, x: nat)
    requires Records(s, id, conversation, terminal, cap, r)
    ensures r.recoveredThrough == s.recoveredThrough && r.quarantined == s.quarantined
    ensures r.deadLetters == s.deadLetters && r.digest == s.digest
    ensures TerminalCount(r.attempts, x) <= TerminalCount(s.attempts, x) + if x == id && terminal then 1 else 0
  {
    RecordSparesHeads(s, id, conversation, terminal, cap, r, id);
  }

  /** `x` is recorded for `c` and nothing recorded for `c` is lower. */
  ghost predicate Blocks(s: State, x: nat, c: nat) {
    && x in s.attempts && s.attempts[x].conversation == c
    && (forall j | j in s.attempts && s.attempts[j].conversation == c :: x <= j)
  }

  /** The operation neither clears the blocker, nor moves it, nor records a lower id of its conversation. */
  ghost predicate Respects(op: Op, x: nat, c: nat) {
    match op
    case Record(id, conversation, _) => (id == x ==> conversation == c) && (conversation == c ==> x <= id)
    case Clear(id) => id != x
  }

  lemma StepKeepsBlocker(s: State, op: Op, r: State, cap: nat, x: nat, c: nat)
    requires Blocks(s, x, c) && LedgerStep(s, op, r, cap) && Respects(op, x, c)
    ensures Blocks(r, x, c)
    ensures r.attempts[x].attempts == s.attempts[x].attempts + if op.Record? && op.id == x then 1 else 0
    ensures r.attempts[x].terminalAttempts ==
            s.attempts[x].terminalAttempts + if op.Record? && op.id == x && op.terminal then 1 else 0
    ensures r.attempts[x].order == s.attempts[x].order
  {
    if op.Record? {
      BumpKeepsHead(s, op.id, op.conversation, op.terminal, x, c);
      RecordSparesHeads(s, op.id, op.conversation, op.terminal, cap, r, x);
    }
  }

  lemma BumpKeepsHead(s: State, id: nat, conversation: nat, terminal: bool, x: nat, c: nat)
    requires Blocks(s, x, c) && Respects(Record(id, conversation, terminal), x, c)
    ensures HeadOfLine(Bumped(s, id, conversation, terminal), x)
    ensures Bumped(s, id, conversation, terminal)[x].conversation == c
  {}

  /** After a clear the message that blocks a conversation is the lowest of the rest. */
  lemma ClearingPromotes(s: State, id: nat, x: nat, c: nat)
    ensures Blocks(ClearAttempt(s, id), x, c) <==>
            && x != id && x in s.attempts && s.attempts[x].conversation == c
            && forall j | j != id && j in s.attempts && s.attempts[j].conversation == c :: x <= j
  {
    var r := ClearAttempt(s, id);
    forall j | j != id && j in s.attempts
      ensures j in r.attempts && r.attempts[j] == s.attempts[j]
    {}
  }

  /** Eviction also spares the newest entry of every conversation. */
  lemma RecordSparesNewest(s: State, id: nat, conversation: nat, terminal: bool, cap: nat, r: State, x: nat)
    requires Records(s, id, conversation, terminal, cap, r)
    requires var m := Bumped(s, id, conversation, terminal);
             && x in m
             && forall j | j in m && j != x && m[j].conversation == m[x].conversation :: m[j].order < m[x].order
    ensures x in r.attempts
  {
    var before, heads, newest, active := TheLeaders(s, id, conversation, terminal, cap, r);
    var c := before[x].conversation;
    assert Leads(before, before.Keys, c, heads[c], newest[c]) && LedBy(before, x, heads[c], newest[c]);
    assert Protected(x, id, heads, newest);
  }

  /** The message leads its conversation, by id or by order, as far as these entries go. */
  ghost predicate LeadsByIdOrOrder(m: map<nat, Attempt>, x: nat) {
    && x in m
    && (|| (forall j | j in m && m[j].conversation == m[x].conversation :: x <= j)
        || (forall j | j in m && m[j].conversation == m[x].conversation :: m[j].order <= m[x].order))
  }

  /**
   Within the cap nothing is evicted; beyond it an entry goes only if every survivor is the
   recorded one, leads its conversation, or was first recorded no earlier.
   */
  lemma RecordEvictsOldest(s: State, id: nat, conversation: nat, terminal: bool, cap: nat, r: State)
    requires Records(s, id, conversation, terminal, cap, r)
    ensures |Bumped(s, id, conversation, terminal).Keys| <= cap ==>
              r.attempts == Bumped(s, id, conversation, terminal)
    ensures EvictsByAge(Bumped(s, id, conversation, terminal), id, r.attempts)
  {
    var m, heads, newest, active := TheLeaders(s, id, conversation, terminal, cap, r);
    if |m.Keys| <= cap { EvictsNone(m, active, cap, r.attempts, id, heads, newest); }
    EvictionIsByAge(m, id, heads, newest, active, cap, r.attempts);
  }

  ghost predicate EvictsByAge(m: map<nat, Attempt>, id: nat, after: map<nat, Attempt>) {
    forall d, e | d in m && d !in after && e in after && e in m ::
      e == id || LeadsByIdOrOrder(m, e) || m[d].order <= m[e].order
  }

  lemma EvictionIsByAge(
    m: map<nat, Attempt>, id: nat, heads: map<nat, nat>, newest: map<nat, nat>, active: set<nat>, cap: nat,
    after: map<nat, Attempt>)
    requires RecordsWith(m, id, heads, newest, active, cap, after)
    ensures EvictsByAge(m, id, after)
  {
    forall d, e | d in m && d !in after && e in after && e in m
      ensures e == id || LeadsByIdOrOrder(m, e) || m[d].order <= m[e].order
    {
      if e in active {
        if e != id { ActiveLeads(m, heads, newest, id, e); }
      } else {
        assert Older(LedgerOrders(m), d, e);
      }
    }
  }

  lemma ActiveLeads(m: map<nat, Attempt>, heads: map<nat, nat>, newest: map<nat, nat>, id: nat, e: nat)
    requires Leaders(m, m.Keys, heads, newest) && Protected(e, id, heads, newest) && e != id
    ensures LeadsByIdOrOrder(m, e)
  {
    var c :| (c in heads && heads[c] == e) || (c in newest && newest[c] == e);
    assert Leads(m, m.Keys, c, heads[c], newest[c]);
    forall j | j in m && m[j].conversation == c
      ensures heads[c] <= j && m[j].order <= m[newest[c]].order
    {
      assert LedBy(m, j, heads[c], newest[c]);
    }
  }

  lemma EvictsNone(
    m: map<nat, Attempt>, active: set<nat>, cap: nat, after: map<nat, Attempt>, id: nat, heads: map<nat, nat>,
    newest: map<nat, nat>)
    requires RecordsWith(m, id, heads, newest, active, cap, after) && |m.Keys| <= cap
    ensures after == m
  {
    assert after.Keys <= m.Keys;
    assert |after.Keys| >= |m.Keys|;
    SubsetCounts(after.Keys, m.Keys);
    SameSizeSubset(after.Keys, m.Keys);
  }

  ghost predicate OpAt(states: seq<State>, ops: seq<Op>, cap: nat, x: nat, c: nat, i: nat)
    requires |states| == |ops| + 1 && i < |ops|
  {
    LedgerStep(states[i], ops[i], states[i + 1], cap) && Respects(ops[i], x, c)
  }

  /**
   After the first `n` operations of any run that keeps `x` the lowest recorded id of its
   conversation, its counts are exact.
   */
  lemma {:induction false} LedgerNeverForgetsABlocker(
    states: seq<State>, ops: seq<Op>, cap: nat, x: nat, c: nat, n: nat)
    requires |states| == |ops| + 1 && Blocks(states[0], x, c) && n <= |ops|
    requires forall i {:trigger OpAt(states, ops, cap, x, c, i)} | 0 <= i < |ops| :: OpAt(states, ops, cap, x, c, i)
    ensures var start, now := states[0].attempts, states[n].attempts;
            && Blocks(states[n], x, c)
            && now[x].attempts == start[x].attempts + Failures(ops[..n], x)
            && now[x].terminalAttempts == start[x].terminalAttempts + TerminalFailures(ops[..n], x)
            && now[x].order == start[x].order
  {
    if n > 0 {
      LedgerNeverForgetsABlocker(states, ops, cap, x, c, n - 1);
      assert OpAt(states, ops, cap, x, c, n - 1);
      StepKeepsBlocker(states[n - 1], ops[n - 1], states[n], cap, x, c);
      assert ops[..n][..n - 1] == ops[..n - 1];
    }
  }

  lemma {:induction false} ValuesBounded(m: map<nat, nat>)
    ensures |m.Values| <= |m.Keys|
    decreases |m.Keys|
  {
    if m.Keys == {} {
      assert m.Values == {};
    } else {
      var k :| k in m;
      var rest := m - {k};
      ValuesBounded(rest);
      assert m.Keys == rest.Keys + {k};
      assert m.Values <= rest.Values + {m[k]};
      SubsetCounts(m.Values, rest.Values + {m[k]});
    }
  }

  lemma ActiveBounded(
    m: map<nat, Attempt>, id: nat, heads: map<nat, nat>, newest: map<nat, nat>, active: set<nat>)
    requires Leaders(m, m.Keys, heads, newest)
    requires forall x :: x in active <==> Protected(x, id, heads, newest)
    ensures |active| <= 1 + 2 * |heads.Keys|
  {
    ValuesBounded(heads);
    ValuesBounded(newest);
    assert active == {id} + heads.Values + newest.Values;
  }

  lemma HeadsCover(
    before: map<nat, Attempt>, id: nat, heads: map<nat, nat>, newest: map<nat, nat>, active: set<nat>, cap: nat,
    after: map<nat, Attempt>)
    requires RecordsWith(before, id, heads, newest, active, cap, after)
    ensures |heads.Keys| <= |Conversations(after)|
  {
    forall c | c in heads
      ensures c in Conversations(after)
    {
      assert Leads(before, before.Keys, c, heads[c], newest[c]);
      assert Protected(heads[c], id, heads, newest);
      assert after[heads[c]].conversation == c;
    }
    SubsetCounts(heads.Keys, Conversations(after));
  }

  lemma RecordedSize(before: map<nat, Attempt>, active: set<nat>, cap: nat, after: map<nat, Attempt>)
    returns (size: nat)
    requires EvictsInactive(before, active, cap, after)
    ensures size == |after.Keys| && size <= Max(cap, |active|)
  {
    size := |after.Keys|;
  }

  lemma LedgerSizes(
    before: map<nat, Attempt>, id: nat, heads: map<nat, nat>, newest: map<nat, nat>, active: set<nat>, cap: nat,
    after: map<nat, Attempt>)
    returns (protected: nat, conversations: nat)
    requires RecordsWith(before, id, heads, newest, active, cap, after)
    ensures |after.Keys| <= Max(cap, protected)
    ensures protected <= 1 + 2 * conversations
    ensures conversations <= |Conversations(after)|
  {
    protected, conversations := |active|, |heads.Keys|;
    var size := RecordedSize(before, active, cap, after);
    ActiveBounded(before, id, heads, newest, active);
    HeadsCover(before, id, heads, newest, active, cap, after);
  }

  /** After every record the ledger is within its cap, or holds at most the current entry plus two per conversation. */
  lemma LedgerIsBounded(s: State, id: nat, conversation: nat, terminal: bool, cap: nat, r: State)
    requires Records(s, id, conversation, terminal, cap, r)
    ensures |r.attempts.Keys| <= Max(cap, 1 + 2 * |Conversations(r.attempts)|)
  {
    var before, heads, newest, active := TheLeaders(s, id, conversation, terminal, cap, r);
    var protected, conversations := LedgerSizes(before, id, heads, newest, active, cap, r.attempts);
  }

  // ----- Dead letters -----

  function Recorded(s: State, letters: seq<Letter>, cap: nat): State
    decreases |letters|
  {
    if letters == [] then s
    else RecordDeadLetter(Recorded(s, letters[..|letters| - 1], cap), letters[|letters| - 1], cap)
  }

  /** The letters that counted: a letter whose id is in the retained window is a replay. */
  function Counted(letters: seq<Letter>, cap: nat): seq<Letter>
    decreases |letters|
  {
    if letters == [] then []
    else
      WithOneMore(Counted(letters[..|letters| - 1], cap), letters[|letters| - 1], cap)
  }

  function WithOneMore(before: seq<Letter>, l: Letter, cap: nat): seq<Letter> {
    if exists k | k in LastOf(before, cap) :: k.id == l.id then before else before + [l]
  }

  /** The letters of one conversation. */
  function Of(letters: seq<Letter>, c: nat): seq<Letter>
    decreases |letters|
  {
    if letters == [] then []
    else
      var last := letters[|letters| - 1];
      Of(letters[..|letters| - 1], c) + if last.conversation == c then [last] else []
  }

  ghost predicate DigestOf(s: State, letters: seq<Letter>, c: nat) {
    var mine := Of(letters, c);
    if mine == [] then c !in s.digest
    else c in s.digest && s.digest[c] == Digest(|mine|, mine[0].id, mine[|mine| - 1].id)
  }

  lemma LastOfSnoc(letters: seq<Letter>, l: Letter, cap: nat)
    ensures LastOf(LastOf(letters, cap) + [l], cap) == LastOf(letters + [l], cap)
  {}

  lemma OfSnoc(letters: seq<Letter>, l: Letter, c: nat)
    ensures Of(letters + [l], c) == Of(letters, c) + if l.conversation == c then [l] else []
  {
    assert (letters + [l])[..|letters + [l]| - 1] == letters;
  }

  lemma OneMoreLetter(s: State, before: seq<Letter>, l: Letter, cap: nat, c: nat)
    requires s.deadLetters == LastOf(before, cap) && DigestOf(s, before, c) && DigestOf(s, before, l.conversation)
    ensures RecordDeadLetter(s, l, cap).deadLetters == LastOf(WithOneMore(before, l, cap), cap)
    ensures DigestOf(RecordDeadLetter(s, l, cap), WithOneMore(before, l, cap), c)
  {
    if !Lettered(s, l.id) {
      LastOfSnoc(before, l, cap);
      OfSnoc(before, l, c);
    }
  }

  /**
   The log keeps the last `cap` letters that counted, and the digest never forgets: for each
   conversation it has their exact number, the first and the last, however many were dropped.
   */
  lemma {:induction false} DigestNeverForgets(s: State, letters: seq<Letter>, cap: nat, c: nat)
    requires s.deadLetters == [] && s.digest == map[]
    ensures Recorded(s, letters, cap).deadLetters == LastOf(Counted(letters, cap), cap)
    ensures DigestOf(Recorded(s, letters, cap), Counted(letters, cap), c)
    decreases |letters|
  {
    if letters != [] {
      var init, l := letters[..|letters| - 1], letters[|letters| - 1];
      DigestNeverForgets(s, init, cap, c);
      DigestNeverForgets(s, init, cap, l.conversation);
      OneMoreLetter(Recorded(s, init, cap), Counted(init, cap), l, cap, c);
    }
  }
}
