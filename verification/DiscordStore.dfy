/**
 The Discord cursor store: per-conversation watermarks with a parking lot, the cross-pass
 attempt ledger and the dead-letter log (packages/adapter-discord/src/recovery.ts).

 Conversation and message ids are snowflakes, hence `nat`. `Object.entries` yields the keys
 of a record in some order the algorithms must not depend on, so the methods enumerate maps
 in an arbitrary order and their contracts are relations.
 */
module DiscordStore {
  import opened Collections

  const QUARANTINE_CAP: nat := 100
  const DEAD_LETTER_CAP: nat := 50
  const ATTEMPT_LEDGER_CAP: nat := 200
  const MAX_ATTEMPTS: nat := 3

  /** `order` is the source's `seq`, its explicit insertion sequence. */
  datatype Parked = Parked(watermark: nat, order: nat)

  datatype Attempt = Attempt(conversation: nat, attempts: nat, terminalAttempts: nat, order: nat)

  datatype Letter = Letter(id: nat, conversation: nat, attempts: nat)

  datatype Digest = Digest(count: nat, firstId: nat, lastId: nat)

  datatype State = State(
    recoveredThrough: map<nat, nat>,
    quarantined: map<nat, Parked>,
    attempts: map<nat, Attempt>,
    deadLetters: seq<Letter>,
    digest: map<nat, Digest>,
    sequence: nat)

  // ----- Oldest-first eviction, shared by the parking lot and the ledger. -----

  /** `d` was recorded no later than `e`. */
  ghost predicate Older(order: map<nat, nat>, d: nat, e: nat) {
    d in order && e in order && order[d] <= order[e]
  }

  /** `dropped` are `k` members of `pool` (all of it when it is smaller) of the lowest orders. */
  ghost predicate LowestOf(order: map<nat, nat>, pool: set<nat>, dropped: set<nat>, k: nat)
    requires pool <= order.Keys
  {
    && (forall d | d in dropped :: d in pool)
    && |dropped| == Min(k, |pool|)
    && (forall d, e {:trigger Older(order, d, e)} | d in dropped && e in pool && e !in dropped :: Older(order, d, e))
  }

  /** `Object.keys` of a record, in some order. */
  method Entries(keys: set<nat>) returns (s: seq<nat>)
    ensures Distinct(s) && |s| == |keys|
    ensures forall x :: x in s <==> x in keys
  {
    s := [];
    var todo := keys;
    while todo != {}
      invariant todo <= keys
      invariant Distinct(s) && |s| + |todo| == |keys|
      invariant forall x :: x in s <==> x in keys && x !in todo
      decreases todo
    {
      var x :| x in todo;
      todo := todo - {x};
      s := s + [x];
    }
  }

  function Rank(order: map<nat, nat>, x: nat): nat {
    if x in order then order[x] else 0
  }

  /** The ids sorted by ascending order. */
  function SortByOrder(order: map<nat, nat>, s: seq<nat>): seq<nat> {
    SortBy(s, (x: nat, y: nat) => Rank(order, x) <= Rank(order, y))
  }

  lemma SortByOrderSorts(order: map<nat, nat>, s: seq<nat>)
    ensures forall i, j | 0 <= i < j < |SortByOrder(order, s)| ::
              Rank(order, SortByOrder(order, s)[i]) <= Rank(order, SortByOrder(order, s)[j])
    ensures Distinct(s) ==> Distinct(SortByOrder(order, s))
  {
    var before := (x: nat, y: nat) => Rank(order, x) <= Rank(order, y);
    SortBySorts(s, before);
    if Distinct(s) { SortByStaysDistinct(s, before); }
    var sorted := SortBy(s, before);
    assert forall i, j | 0 <= i < j < |sorted| :: before(sorted[i], sorted[j]);
  }

  /** Sort the pool by order and take its first `k`. */
  method Oldest(order: map<nat, nat>, pool: set<nat>, k: nat) returns (dropped: set<nat>)
    requires pool <= order.Keys
    ensures LowestOf(order, pool, dropped, k)
  {
    var entries := Entries(pool);
    var sorted := SortByOrder(order, entries);
    SortByOrderSorts(order, entries);
    var n := Min(k, |sorted|);
    DistinctCounts(entries);
    DistinctCounts(sorted[..n]);
    dropped := Members(sorted[..n]);
    assert forall x | x in sorted[..n] :: x in sorted;
    assert forall i | 0 <= i < n :: sorted[..n][i] == sorted[i];
    forall d, e | d in dropped && e in pool && e !in dropped
      ensures Older(order, d, e)
    {
      var i :| 0 <= i < n && sorted[i] == d;
      var j :| 0 <= j < |sorted| && sorted[j] == e;
    }
  }

  // ----- Watermarks and their parking lot. -----

  function Effective(s: State, c: nat): Option<nat> {
    if c in s.recoveredThrough then Some(s.recoveredThrough[c])
    else if c in s.quarantined then Some(s.quarantined[c].watermark)
    else None
  }

  ghost predicate Disjoint(s: State) {
    forall c | c in s.recoveredThrough :: c !in s.quarantined
  }

  function Orders(parked: map<nat, Parked>): map<nat, nat> {
    map c | c in parked :: parked[c].order
  }

  /** Newly parked watermarks carry distinct orders above every earlier one. */
  ghost predicate NewlyParked(s: State, parked: map<nat, Parked>, sequence: nat) {
    && (forall c | c in parked :: c in s.recoveredThrough && parked[c].watermark == s.recoveredThrough[c])
    && (forall c | c in parked :: s.sequence < parked[c].order <= sequence)
    && (forall c, d | c in parked && d in parked && c != d :: parked[c].order != parked[d].order)
  }

  /** Everything recoverable is live, and a live watermark beats a parked one. */
  ghost predicate Graduates(s: State, allowed: set<nat>, live: map<nat, nat>) {
    && (forall c :: c in live <==> (c in s.recoveredThrough || c in s.quarantined) && c in allowed)
    && (forall c | c in live ::
          live[c] == if c in s.recoveredThrough then s.recoveredThrough[c] else s.quarantined[c].watermark)
  }

  /** Everything else is parked: an id already parked keeps its entry, a new one gets a fresh order. */
  ghost predicate ParksRest(s: State, allowed: set<nat>, parked: map<nat, Parked>, sequence: nat) {
    && (forall c :: c in parked <==> (c in s.recoveredThrough || c in s.quarantined) && c !in allowed)
    && (forall c | c in parked && c in s.quarantined :: parked[c] == s.quarantined[c])
    && (forall c | c in parked && c !in s.quarantined ::
          parked[c].watermark == s.recoveredThrough[c] && s.sequence < parked[c].order <= sequence)
  }

  /** The parking lot keeps its `cap` entries of the highest order. */
  ghost predicate KeepsNewest(parked: map<nat, Parked>, cap: nat, kept: map<nat, Parked>) {
    && (forall c | c in kept :: c in parked && kept[c] == parked[c])
    && |kept.Keys| == Min(cap, |parked.Keys|)
    && (forall d, e {:trigger Older(Orders(parked), d, e)} | d in parked && d !in kept && e in kept ::
          Older(Orders(parked), d, e))
  }

  /** The live conversations that are no longer recoverable. */
  function Gone(s: State, allowed: set<nat>): set<nat> {
    set c | c in s.recoveredThrough && c !in allowed
  }

  ghost predicate Retains(s: State, allowed: set<nat>, cap: nat, r: State) {
    && r.attempts == s.attempts && r.deadLetters == s.deadLetters && r.digest == s.digest
    && r.sequence == s.sequence + |Gone(s, allowed)|
    && Graduates(s, allowed, r.recoveredThrough)
    && exists parked :: ParksRest(s, allowed, parked, r.sequence) && KeepsNewest(parked, cap, r.quarantined)
  }

  lemma ParkOne(s: State, parked: map<nat, Parked>, id: nat, sequence: nat)
    requires sequence > 0 && NewlyParked(s, parked, sequence - 1) && sequence - 1 >= s.sequence
    requires id in s.recoveredThrough && id !in parked
    ensures var more := parked[id := Parked(s.recoveredThrough[id], sequence)];
            NewlyParked(s, more, sequence) && more.Keys == parked.Keys + {id} && |more.Keys| == |parked.Keys| + 1
  {
    var more := parked[id := Parked(s.recoveredThrough[id], sequence)];
    assert more.Keys == parked.Keys + {id};
  }

  /** `retainRecoveryCursors`, first loop: live watermarks stay or get parked. */
  method SplitLive(s: State, allowed: set<nat>)
    returns (live: map<nat, nat>, parked: map<nat, Parked>, sequence: nat)
    ensures forall c :: c in live <==> c in s.recoveredThrough && c in allowed
    ensures forall c | c in live :: live[c] == s.recoveredThrough[c]
    ensures forall c :: c in parked <==> c in s.recoveredThrough && c !in allowed
    ensures sequence == s.sequence + |parked.Keys|
    ensures NewlyParked(s, parked, sequence)
  {
    live, parked, sequence := map[], map[], s.sequence;
    var todo := s.recoveredThrough.Keys;
    while todo != {}
      invariant todo <= s.recoveredThrough.Keys
      invariant forall c :: c in live <==> c in s.recoveredThrough && c !in todo && c in allowed
      invariant forall c | c in live :: live[c] == s.recoveredThrough[c]
      invariant forall c :: c in parked <==> c in s.recoveredThrough && c !in todo && c !in allowed
      invariant sequence == s.sequence + |parked.Keys|
      invariant NewlyParked(s, parked, sequence)
      decreases todo
    {
      var id :| id in todo;
      todo := todo - {id};
      if id in allowed {
        live := live[id := s.recoveredThrough[id]];
      } else {
        sequence := sequence + 1;
        ParkOne(s, parked, id, sequence);
        parked := parked[id := Parked(s.recoveredThrough[id], sequence)];
      }
    }
  }

  /** `retainRecoveryCursors`, second loop: parked watermarks graduate or keep their entry. */
  method MergeParked(s: State, allowed: set<nat>, live: map<nat, nat>, parked: map<nat, Parked>)
    returns (live': map<nat, nat>, parked': map<nat, Parked>)
    ensures forall c :: c in live' <==> c in live || (c in s.quarantined && c in allowed)
    ensures forall c | c in live' :: live'[c] == if c in live then live[c] else s.quarantined[c].watermark
    ensures forall c :: c in parked' <==> c in parked || (c in s.quarantined && c !in allowed)
    ensures forall c | c in parked' ::
              parked'[c] == if c in s.quarantined && c !in allowed then s.quarantined[c] else parked[c]
  {
    live', parked' := live, parked;
    var todo := s.quarantined.Keys;
    while todo != {}
      invariant todo <= s.quarantined.Keys
      invariant forall c :: c in live' <==> c in live || (c in s.quarantined && c !in todo && c in allowed)
      invariant forall c | c in live' :: live'[c] == if c in live then live[c] else s.quarantined[c].watermark
      invariant forall c :: c in parked' <==> c in parked || (c in s.quarantined && c !in todo && c !in allowed)
      invariant forall c | c in parked' ::
                  parked'[c] ==
                  if c in s.quarantined && c !in todo && c !in allowed then s.quarantined[c] else parked[c]
      decreases todo
    {
      var id :| id in todo;
      todo := todo - {id};
      if id in allowed {
        if id !in live' { live' := live'[id := s.quarantined[id].watermark]; }
      } else {
        parked' := parked'[id := s.quarantined[id]];
      }
    }
  }

  lemma Partition(u: set<nat>, a: set<nat>, b: set<nat>)
    requires forall x | x in a :: x in u
    requires forall x :: x in b <==> x in u && x !in a
    ensures |u| == |a| + |b|
  {
    assert u == a + b;
  }

  lemma DroppingKeepsNewest(parked: map<nat, Parked>, cap: nat, dropped: set<nat>, kept: map<nat, Parked>)
    requires LowestOf(Orders(parked), parked.Keys, dropped, Max(0, |parked.Keys| - cap))
    requires forall c :: c in kept <==> c in parked && c !in dropped
    requires forall c | c in kept :: kept[c] == parked[c]
    ensures KeepsNewest(parked, cap, kept)
  {
    Partition(parked.Keys, dropped, kept.Keys);
    forall d, e | d in parked && d !in kept && e in kept
      ensures Older(Orders(parked), d, e)
    {}
  }

  /** `retainRecoveryCursors`: partition every known watermark, then bound the parking lot. */
  method RetainRecoveryCursors(s: State, allowed: set<nat>, cap: nat) returns (r: State)
    ensures Retains(s, allowed, cap, r)
  {
    var live, newly, sequence := SplitLive(s, allowed);
    assert newly.Keys == Gone(s, allowed);
    var recovered, parked := MergeParked(s, allowed, live, newly);
    assert ParksRest(s, allowed, parked, sequence);
    var dropped := Oldest(Orders(parked), parked.Keys, Max(0, |parked.Keys| - cap));
    var kept := parked - dropped;
    DroppingKeepsNewest(parked, cap, dropped, kept);
    r := s.(recoveredThrough := recovered, quarantined := kept, sequence := sequence);
  }

  /** `advanceRecovered`: only a later id moves a watermark. */
  method AdvanceRecovered(s: State, c: nat, id: nat, allowed: set<nat>) returns (r: State)
    ensures Advances(s, c, id, allowed, r)
  {
    var existing := Effective(s, c);
    if existing.Some? && id <= existing.value { return s; }
    r := RetainRecoveryCursors(s.(recoveredThrough := s.recoveredThrough[c := id]), allowed, QUARANTINE_CAP);
  }

  ghost predicate Advances(s: State, c: nat, id: nat, allowed: set<nat>, r: State) {
    var existing := Effective(s, c);
    if existing.Some? && id <= existing.value then r == s
    else Retains(s.(recoveredThrough := s.recoveredThrough[c := id]), allowed, QUARANTINE_CAP, r)
  }

  // ----- The attempt ledger. -----

  function LedgerOrders(m: map<nat, Attempt>): map<nat, nat> {
    map id | id in m :: m[id].order
  }

  function Conversations(m: map<nat, Attempt>): set<nat> {
    set id | id in m :: m[id].conversation
  }

  /** Among the entries `done`, `head` is the lowest id of `c` and `newest` has its highest order. */
  ghost predicate Leads(m: map<nat, Attempt>, done: set<nat>, c: nat, head: nat, newest: nat) {
    && head in m && head in done && m[head].conversation == c
    && newest in m && newest in done && m[newest].conversation == c
    && (forall j {:trigger LedBy(m, j, head, newest)} | j in m && j in done && m[j].conversation == c ::
          LedBy(m, j, head, newest))
  }

  ghost predicate LedBy(m: map<nat, Attempt>, j: nat, head: nat, newest: nat)
    requires j in m && newest in m
  {
    head <= j && m[j].order <= m[newest].order
  }

  /** One head and one newest entry per conversation among `done`. */
  ghost predicate Leaders(m: map<nat, Attempt>, done: set<nat>, heads: map<nat, nat>, newest: map<nat, nat>) {
    && heads.Keys == newest.Keys
    && (forall c | c in heads :: Leads(m, done, c, heads[c], newest[c]))
    && (forall id | id in m && id in done :: m[id].conversation in heads)
  }

  function Bumped(s: State, id: nat, conversation: nat, terminal: bool): map<nat, Attempt> {
    var t := if terminal then 1 else 0;
    s.attempts[id :=
      if id in s.attempts then
        Attempt(conversation, s.attempts[id].attempts + 1, s.attempts[id].terminalAttempts + t, s.attempts[id].order)
      else Attempt(conversation, 1, t, s.sequence + 1)]
  }

  function TerminalCount(m: map<nat, Attempt>, id: nat): nat {
    if id in m then m[id].terminalAttempts else 0
  }

  /** The entries cap eviction must spare: the current one and the leaders. */
  ghost predicate Protected(id: nat, current: nat, heads: map<nat, nat>, newest: map<nat, nat>) {
    id == current || id in heads.Values || id in newest.Values
  }

  /** Entries are evicted oldest first, never a protected one, and only while over the cap. */
  ghost predicate EvictsInactive(before: map<nat, Attempt>, active: set<nat>, cap: nat, after: map<nat, Attempt>) {
    && (forall id | id in after :: id in before && after[id] == before[id])
    && (forall id | id in active :: id in after)
    && |after.Keys| == Max(Min(cap, |before.Keys|), |active|)
    && (forall d, e {:trigger Older(LedgerOrders(before), d, e)} |
          d in before && d !in after && e in after && e !in active :: Older(LedgerOrders(before), d, e))
  }

  ghost predicate Records(s: State, id: nat, conversation: nat, terminal: bool, cap: nat, r: State) {
    && r.recoveredThrough == s.recoveredThrough && r.quarantined == s.quarantined
    && r.deadLetters == s.deadLetters && r.digest == s.digest
    && r.sequence == (if id in s.attempts then s.sequence else s.sequence + 1)
    && exists heads, newest, active ::
         RecordsWith(Bumped(s, id, conversation, terminal), id, heads, newest, active, cap, r.attempts)
  }

  ghost predicate RecordsWith(
    before: map<nat, Attempt>, id: nat, heads: map<nat, nat>, newest: map<nat, nat>, active: set<nat>, cap: nat,
    after: map<nat, Attempt>)
  {
    && Leaders(before, before.Keys, heads, newest)
    && (forall x :: x in active <==> Protected(x, id, heads, newest))
    && EvictsInactive(before, active, cap, after)
  }

  lemma OneMoreLeader(m: map<nat, Attempt>, done: set<nat>, heads: map<nat, nat>, newest: map<nat, nat>, id: nat)
    requires Leaders(m, done, heads, newest) && id in m && id !in done
    ensures var c := m[id].conversation;
            var heads' := if c !in heads || heads[c] > id then heads[c := id] else heads;
            var newest' := if c !in newest || m[id].order > m[newest[c]].order then newest[c := id] else newest;
            Leaders(m, done + {id}, heads', newest')
  {
    var c := m[id].conversation;
    if c in heads { assert Leads(m, done, c, heads[c], newest[c]); }
    var heads' := if c !in heads || heads[c] > id then heads[c := id] else heads;
    var newest' := if c !in newest || m[id].order > m[newest[c]].order then newest[c := id] else newest;
    forall d | d in heads'
      ensures Leads(m, done + {id}, d, heads'[d], newest'[d])
    {
      forall j | j in m && j in done + {id} && m[j].conversation == d
        ensures LedBy(m, j, heads'[d], newest'[d])
      {
        if j in done { assert Leads(m, done, d, heads[d], newest[d]) && LedBy(m, j, heads[d], newest[d]); }
      }
    }
  }

  /** `activeLedgerIds`, its loop: the best head and newest entry seen per conversation. */
  method FindLeaders(m: map<nat, Attempt>) returns (heads: map<nat, nat>, newest: map<nat, nat>)
    ensures Leaders(m, m.Keys, heads, newest)
  {
    heads, newest := map[], map[];
    var todo := m.Keys;
    ghost var done: set<nat> := {};
    while todo != {}
      invariant todo <= m.Keys && done <= m.Keys
      invariant forall id | id in m :: id in todo <==> id !in done
      invariant Leaders(m, done, heads, newest)
      decreases todo
    {
      var id :| id in todo;
      var c := m[id].conversation;
      assert c in newest ==> Leads(m, done, c, heads[c], newest[c]);
      OneMoreLeader(m, done, heads, newest, id);
      newest := if c !in newest || m[id].order > m[newest[c]].order then newest[c := id] else newest;
      heads := if c !in heads || heads[c] > id then heads[c := id] else heads;
      todo, done := todo - {id}, done + {id};
    }
    assert done == m.Keys;
  }

  /** `activeLedgerIds`. */
  method ActiveLedgerIds(m: map<nat, Attempt>, current: nat)
    returns (active: set<nat>, heads: map<nat, nat>, newest: map<nat, nat>)
    requires current in m
    ensures Leaders(m, m.Keys, heads, newest)
    ensures forall x :: x in active <==> Protected(x, current, heads, newest)
    ensures forall x | x in active :: x in m
  {
    heads, newest := FindLeaders(m);
    active := {current} + heads.Values + newest.Values;
  }

  /** `recordAttempt`, its cap eviction. */
  method EvictOverflow(before: map<nat, Attempt>, active: set<nat>, cap: nat) returns (after: map<nat, Attempt>)
    requires forall x | x in active :: x in before
    ensures EvictsInactive(before, active, cap, after)
  {
    var overflow := |before.Keys| - cap;
    var evictable := set x | x in before && x !in active;
    var dropped: set<nat> := {};
    if overflow > 0 {
      dropped := Oldest(LedgerOrders(before), evictable, overflow);
    }
    after := map x | x in before && x !in dropped :: before[x];
    DroppingEvictsInactive(before, active, evictable, cap, dropped, after);
  }

  /** `recordAttempt`. */
  method RecordAttempt(s: State, id: nat, conversation: nat, terminal: bool, cap: nat) returns (r: State)
    ensures Records(s, id, conversation, terminal, cap, r)
  {
    var before := Bumped(s, id, conversation, terminal);
    var active, heads, newest := ActiveLedgerIds(before, id);
    var after := EvictOverflow(before, active, cap);
    assert RecordsWith(before, id, heads, newest, active, cap, after);
    r := s.(attempts := after, sequence := if id in s.attempts then s.sequence else s.sequence + 1);
  }

  lemma DroppingEvictsInactive(
    before: map<nat, Attempt>, active: set<nat>, evictable: set<nat>, cap: nat, dropped: set<nat>,
    after: map<nat, Attempt>)
    requires forall x | x in active :: x in before
    requires forall x :: x in evictable <==> x in before && x !in active
    requires LowestOf(LedgerOrders(before), evictable, dropped, Max(0, |before.Keys| - cap))
    requires forall x :: x in after <==> x in before && x !in dropped
    requires forall x | x in after :: after[x] == before[x]
    ensures EvictsInactive(before, active, cap, after)
  {
    Partition(before.Keys, active, evictable);
    Partition(before.Keys, dropped, after.Keys);
    forall d, e | d in before && d !in after && e in after && e !in active
      ensures Older(LedgerOrders(before), d, e)
    {}
  }

  /** `clearAttempt`: the entry of a message that landed or was given up goes, and no other one. */
  function ClearAttempt(s: State, id: nat): (r: State)
    ensures id !in r.attempts && r == s.(attempts := r.attempts)
    ensures forall x | x != id :: x in r.attempts <==> x in s.attempts
    ensures forall x | x in r.attempts :: r.attempts[x] == s.attempts[x]
  {
    s.(attempts := s.attempts - {id})
  }

  // ----- Dead letters. -----

  predicate Lettered(s: State, id: nat) {
    exists l | l in s.deadLetters :: l.id == id
  }

  function LastOf(letters: seq<Letter>, cap: nat): seq<Letter> {
    letters[Max(0, |letters| - cap)..]
  }

  /** `recordDeadLetter`: idempotent while the id is in the retained window; the digest never forgets. */
  function RecordDeadLetter(s: State, l: Letter, cap: nat): State {
    if Lettered(s, l.id) then s
    else
      var prior := if l.conversation in s.digest then s.digest[l.conversation] else Digest(0, l.id, l.id);
      s.(deadLetters := LastOf(s.deadLetters + [l], cap),
         digest := s.digest[l.conversation := Digest(prior.count + 1, prior.firstId, l.id)])
  }
}
