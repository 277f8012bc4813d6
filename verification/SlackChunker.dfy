/**
 Cutting a long Slack message into chunks without losing code fences
 (packages/adapter-slack/src/mrkdwn.ts, `chunkSlackMessage`).

 Text is a sequence of UTF-16 code units, as in JavaScript. "\n" is the only line terminator
 and a fence remembers only whether it opens, since the text of an opener is never reused.
 */
module SlackChunker {
  import opened Collections

  type Unit = u: int | 0 <= u < 0x10000
  type Text = seq<Unit>

  const TAB: Unit := 9
  const NEWLINE: Unit := 10
  const SPACE: Unit := 32
  const TICK: Unit := 96

  const LIMIT: nat := 4000

  const FENCE_OPENER: Text := [TICK, TICK, TICK, NEWLINE]
  const FENCE_CLOSER: Text := [NEWLINE, TICK, TICK, TICK]

  predicate High(u: Unit) {
    0xD800 <= u <= 0xDBFF
  }

  predicate Low(u: Unit) {
    0xDC00 <= u <= 0xDFFF
  }

  // ----- What a fence is -----

  /** The line opens or closes a fence: three backticks after spaces and tabs. */
  predicate IsFence(line: Text) {
    if line == [] then false
    else if line[0] == SPACE || line[0] == TAB then IsFence(line[1..])
    else |line| >= 3 && line[0] == line[1] == line[2] == TICK
  }

  /** The index of the first line terminator, or the length. */
  function FirstNewline(s: Text): (r: nat)
    ensures r <= |s| && (r < |s| ==> s[r] == NEWLINE)
    ensures forall i | 0 <= i < r :: s[i] != NEWLINE
  {
    if s == [] || s[0] == NEWLINE then 0 else 1 + FirstNewline(s[1..])
  }

  /** The number of fence lines that are complete within `s`. */
  function Fences(s: Text): nat
    decreases |s|
  {
    var k := FirstNewline(s);
    if k == |s| then 0 else (if IsFence(s[..k + 1]) then 1 else 0) + Fences(s[k + 1..])
  }

  /** The position is inside a fence: an odd number of fence lines ends at or before it. */
  predicate InFence(text: Text, at: nat)
    requires at <= |text|
  {
    Fences(text[..at]) % 2 == 1
  }

  ghost predicate Boundary(text: Text, at: nat) {
    0 < at <= |text| && text[at - 1] == NEWLINE
  }

  ghost predicate LineStart(text: Text, at: nat) {
    at == 0 || Boundary(text, at)
  }

  // ----- Where a chunk may end -----

  /** Some line of the text is a fence, even an unterminated last one. */
  ghost predicate HasFence(text: Text) {
    exists start: nat, end: nat :: FenceLine(text, start, end)
  }

  ghost predicate FenceLine(text: Text, start: nat, end: nat) {
    && start < end <= |text| && LineStart(text, start)
    && (end == |text| || text[end - 1] == NEWLINE)
    && (forall i | start <= i < end - 1 :: text[i] != NEWLINE)
    && IsFence(text[start..end])
  }

  /** What precedes the text of a chunk that starts at `at`. */
  function Opener(text: Text, at: nat): Text
    requires at <= |text|
  {
    if InFence(text, at) then FENCE_OPENER else []
  }

  /** What follows the text of a chunk that ends at `at` before the end of the message. */
  function Closer(text: Text, at: nat): Text
    requires at <= |text|
  {
    if InFence(text, at) then FENCE_CLOSER else []
  }

  function Budget(text: Text, at: nat): nat
    requires at <= |text|
  {
    LIMIT - |Opener(text, at)|
  }

  /** The last place a chunk from `at` may end: room for a closer is kept in any text with fences. */
  ghost function WindowEnd(text: Text, at: nat): nat
    requires at <= |text|
  {
    at + Budget(text, at) - if HasFence(text) then |FENCE_CLOSER| else 0
  }

  /** The line boundaries after `a` and up to `w`. */
  ghost predicate Candidate(text: Text, a: nat, w: nat, b: nat) {
    a < b <= w && Boundary(text, b)
  }

  /**
   The chosen end of a chunk: the last line boundary outside a fence, or failing that the
   last line boundary, or failing that a hard break that splits no surrogate pair.
   */
  ghost predicate BestCut(text: Text, a: nat, w: nat, b: nat)
    requires w < |text|
  {
    || (Candidate(text, a, w, b) && !InFence(text, b)
        && forall c: nat | Candidate(text, a, w, c) && c > b :: InFence(text, c))
    || (Candidate(text, a, w, b)
        && (forall c: nat | Candidate(text, a, w, c) :: InFence(text, c) && c <= b))
    || ((forall c: nat :: !Candidate(text, a, w, c))
        && b == if w > a && High(text[w - 1]) && Low(text[w]) then w - 1 else w)
  }

  /** The chunk of `text[a..b]`. */
  function Piece(text: Text, a: nat, b: nat, last: bool): Text
    requires a <= b <= |text|
  {
    Opener(text, a) + text[a..b] + if last then [] else Closer(text, b)
  }

  /** A chunk from `a` takes everything that is left when that fits, and otherwise ends at the best cut. */
  ghost predicate CutOk(text: Text, a: nat, b: nat, last: bool)
    requires a <= |text|
  {
    if |text| - a <= Budget(text, a) then last && b == |text|
    else
      && !last && a < b <= WindowEnd(text, a) < |text|
      && BestCut(text, a, WindowEnd(text, a), b)
  }

  ghost predicate PieceOk(text: Text, chunk: Text, a: nat, b: nat, last: bool) {
    && a <= b <= |text| && CutOk(text, a, b, last)
    && chunk == Piece(text, a, b, last) && |chunk| <= LIMIT
  }

  ghost predicate PieceAt(text: Text, chunks: seq<Text>, cuts: seq<nat>, i: nat)
    requires i < |chunks| && i + 1 < |cuts|
  {
    PieceOk(text, chunks[i], cuts[i], cuts[i + 1], i + 1 == |chunks|)
  }

  /** The chunks are the pieces between the cuts, and each cut is the one the algorithm promises. */
  ghost predicate Chunked(text: Text, chunks: seq<Text>, cuts: seq<nat>) {
    && |cuts| == |chunks| + 1 > 1 && cuts[0] == 0
    && (forall i {:trigger PieceAt(text, chunks, cuts, i)} | 0 <= i < |chunks| :: PieceAt(text, chunks, cuts, i))
  }

  // ----- Counting fences -----

  lemma FirstNewlineIs(s: Text, k: nat)
    requires k < |s| && s[k] == NEWLINE && forall i | 0 <= i < k :: s[i] != NEWLINE
    ensures FirstNewline(s) == k
  {}

  /** Counting splits at a line start. */
  lemma {:induction false} FencesSplit(a: Text, b: Text)
    requires LineStart(a, |a|)
    ensures Fences(a + b) == Fences(a) + Fences(b)
    decreases |a|
  {
    if a == [] {
      assert a + b == b;
    } else {
      var k := FirstNewline(a);
      FirstNewlineIs(a + b, k);
      assert (a + b)[..k + 1] == a[..k + 1];
      assert (a + b)[k + 1..] == a[k + 1..] + b;
      FencesSplit(a[k + 1..], b);
    }
  }

  /** Text within one line completes no fence. */
  lemma NoFenceWithinALine(s: Text)
    requires forall i | 0 <= i < |s| :: s[i] != NEWLINE
    ensures Fences(s) == 0
  {}

  lemma OneLine(line: Text)
    requires line != [] && line[|line| - 1] == NEWLINE && forall i | 0 <= i < |line| - 1 :: line[i] != NEWLINE
    ensures Fences(line) == if IsFence(line) then 1 else 0
  {
    FirstNewlineIs(line, |line| - 1);
    assert line[..|line|] == line && line[|line|..] == [];
  }

  /** From a line start to somewhere within its line the count stays. */
  lemma FencesWithinALine(text: Text, p: nat, at: nat)
    requires p <= at <= |text| && LineStart(text, p) && forall i | p <= i < at :: text[i] != NEWLINE
    ensures Fences(text[..at]) == Fences(text[..p])
  {
    assert text[..at] == text[..p] + text[p..at];
    FencesSplit(text[..p], text[p..at]);
    NoFenceWithinALine(text[p..at]);
  }

  /** At the end of a line it grows by one if the line is a fence. */
  lemma FencesPastALine(text: Text, p: nat, end: nat)
    requires p < end <= |text| && LineStart(text, p) && text[end - 1] == NEWLINE
    requires forall i | p <= i < end - 1 :: text[i] != NEWLINE
    ensures Fences(text[..end]) == Fences(text[..p]) + if IsFence(text[p..end]) then 1 else 0
  {
    assert text[..end] == text[..p] + text[p..end];
    FencesSplit(text[..p], text[p..end]);
    OneLine(text[p..end]);
  }

  // ----- The fence scan -----

  datatype Fence = Fence(start: nat, end: nat, open: bool)

  /** The fences are the fence lines of the text so far, in order, opening and closing in turn. */
  ghost predicate Lists(text: Text, fences: seq<Fence>) {
    && (forall i | 0 <= i < |fences| :: FenceLine(text, fences[i].start, fences[i].end))
    && (forall i | 0 <= i < |fences| :: fences[i].open == (i % 2 == 0))
    && (forall i, j | 0 <= i < j < |fences| :: fences[i].end <= fences[j].start)
  }

  /** Up to position `at` the first `Fences(text[..at])` of them have ended. */
  ghost predicate Counts(text: Text, fences: seq<Fence>, at: nat)
    requires at <= |text|
  {
    && Fences(text[..at]) <= |fences|
    && forall i | 0 <= i < |fences| :: fences[i].end <= at <==> i < Fences(text[..at])
  }

  ghost predicate CountsBelow(text: Text, fences: seq<Fence>, p: nat)
    requires p <= |text|
  {
    forall at {:trigger Counts(text, fences, at)} | 0 <= at <= p && at < |text| :: Counts(text, fences, at)
  }

  /** The state of the scan at a line start `p`. */
  ghost predicate Scanned(text: Text, fences: seq<Fence>, p: nat)
    requires p <= |text|
  {
    && Lists(text, fences) && CountsBelow(text, fences, p)
    && (forall i | 0 <= i < |fences| :: fences[i].end <= p)
    && (p < |text| ==> LineStart(text, p) && |fences| == Fences(text[..p]))
    && ListsAll(text, fences, p)
  }

  ghost predicate Listed(fences: seq<Fence>, start: nat, end: nat) {
    exists f | f in fences :: f.start == start && f.end == end
  }

  /** No fence line that starts before `p` is missing, not even one that ends the text. */
  ghost predicate ListsAll(text: Text, fences: seq<Fence>, p: nat) {
    forall start: nat, end: nat | start < p && FenceLine(text, start, end) :: Listed(fences, start, end)
  }

  ghost predicate LineAt(text: Text, p: nat, end: nat) {
    && p < end <= |text| && (end == |text| || text[end - 1] == NEWLINE)
    && forall i | p <= i < end - 1 :: text[i] != NEWLINE
  }

  /** Two line ends after the same start are the same. */
  lemma LineEndsOnce(text: Text, p: nat, e: nat, f: nat)
    requires LineAt(text, p, e) && LineAt(text, p, f)
    ensures e == f
  {}

  lemma NoOtherStart(text: Text, p: nat, end: nat, start: nat)
    requires LineAt(text, p, end) && LineStart(text, start) && p <= start < end
    ensures start == p
  {}

  lemma FenceWithinLine(text: Text, p: nat, end: nat, start: nat, e: nat)
    requires LineAt(text, p, end) && FenceLine(text, start, e) && p <= start < end
    ensures start == p && e == end
  {
    NoOtherStart(text, p, end, start);
    LineEndsOnce(text, p, e, end);
  }

  lemma AllEnded(text: Text, fences: seq<Fence>, at: nat)
    requires at <= |text| && Fences(text[..at]) == |fences| && forall i | 0 <= i < |fences| :: fences[i].end <= at
    ensures Counts(text, fences, at)
  {}

  lemma NextNotEnded(text: Text, fences: seq<Fence>, f: Fence, at: nat)
    requires at <= |text| && Counts(text, fences, at) && f.end > at
    ensures Counts(text, fences + [f], at)
  {}

  lemma CountsAlongALine(text: Text, fences: seq<Fence>, p: nat, end: nat, more: seq<Fence>, at: nat)
    requires p < |text| && Scanned(text, fences, p) && LineAt(text, p, end)
    requires more == if IsFence(text[p..end]) then fences + [Fence(p, end, |fences| % 2 == 0)] else fences
    requires at <= end && at < |text|
    ensures Counts(text, more, at)
  {
    if at == end {
      FencesPastALine(text, p, end);
      AllEnded(text, more, at);
    } else {
      if at <= p {
        assert Counts(text, fences, at);
      } else {
        FencesWithinALine(text, p, at);
        AllEnded(text, fences, at);
      }
      NextNotEnded(text, fences, Fence(p, end, |fences| % 2 == 0), at);
    }
  }

  lemma ListsOneMore(text: Text, fences: seq<Fence>, p: nat, end: nat)
    requires Lists(text, fences) && (forall i | 0 <= i < |fences| :: fences[i].end <= p)
    requires FenceLine(text, p, end)
    ensures Lists(text, fences + [Fence(p, end, |fences| % 2 == 0)])
  {}

  lemma ListsAllOneMore(text: Text, fences: seq<Fence>, p: nat, end: nat, more: seq<Fence>)
    requires ListsAll(text, fences, p) && LineAt(text, p, end)
    requires more == if IsFence(text[p..end]) then fences + [Fence(p, end, |fences| % 2 == 0)] else fences
    ensures ListsAll(text, more, end)
  {
    forall start: nat, e: nat | start < end && FenceLine(text, start, e)
      ensures Listed(more, start, e)
    {
      if start < p {
        var f :| f in fences && f.start == start && f.end == e;
        assert f in more;
      } else {
        FenceWithinLine(text, p, end, start, e);
        assert more[|fences|] in more;
      }
    }
  }

  lemma OneMoreLine(text: Text, fences: seq<Fence>, p: nat, end: nat, more: seq<Fence>)
    requires p < |text| && Scanned(text, fences, p) && LineAt(text, p, end)
    requires more == if IsFence(text[p..end]) then fences + [Fence(p, end, |fences| % 2 == 0)] else fences
    ensures Scanned(text, more, end)
  {
    forall at | 0 <= at <= end && at < |text|
      ensures Counts(text, more, at)
    {
      CountsAlongALine(text, fences, p, end, more, at);
    }
    if end < |text| { FencesPastALine(text, p, end); }
    if IsFence(text[p..end]) { ListsOneMore(text, fences, p, end); }
    ListsAllOneMore(text, fences, p, end, more);
  }

  /** `matchAll` of the fence pattern: one line after the other. */
  method FindFences(text: Text) returns (fences: seq<Fence>)
    ensures Lists(text, fences) && ListsAll(text, fences, |text|) && CountsBelow(text, fences, |text|)
    ensures fences != [] <==> HasFence(text)
  {
    fences := [];
    var open := false;
    var p := 0;
    assert Fences(text[..0]) == 0;
    while p < |text|
      invariant p <= |text| && Scanned(text, fences, p)
      invariant open <==> |fences| % 2 == 1
      decreases |text| - p
    {
      var end := EndOfLine(text, p);
      ghost var before := fences;
      if IsFence(text[p..end]) {
        open := !open;
        fences := fences + [Fence(p, end, open)];
      }
      OneMoreLine(text, before, p, end, fences);
      p := end;
    }
    if fences != [] { assert FenceLine(text, fences[0].start, fences[0].end); }
  }

  method EndOfLine(text: Text, p: nat) returns (end: nat)
    requires p < |text|
    ensures LineAt(text, p, end)
  {
    end := p;
    while end < |text| && text[end] != NEWLINE
      invariant p <= end <= |text| && forall i | p <= i < end :: text[i] != NEWLINE
    {
      end := end + 1;
    }
    if end < |text| { end := end + 1; }
  }

  // ----- The source's helpers -----

  /** `text.lastIndexOf("\n", from)`: a negative start counts as 0. */
  function LastNewline(text: Text, from: int): (r: int)
    requires from < |text|
    ensures -1 <= r < |text| && (r >= 0 ==> text[r] == NEWLINE && r <= Max(from, 0))
    ensures forall i | r < i <= from :: text[i] != NEWLINE
    decreases from
  {
    if from <= 0 then if text != [] && text[0] == NEWLINE then 0 else -1
    else if text[from] == NEWLINE then from
    else LastNewline(text, from - 1)
  }

  /** `stateAt`: whether the last fence that ended opens one. */
  method StateAt(text: Text, fences: seq<Fence>, position: nat) returns (open: bool)
    requires Lists(text, fences) && CountsBelow(text, fences, |text|) && position < |text|
    ensures open <==> InFence(text, position)
  {
    assert Counts(text, fences, position);
    open := false;
    var i := 0;
    while i < |fences| && fences[i].end <= position
      invariant 0 <= i <= |fences| && i <= Fences(text[..position])
      invariant open <==> i % 2 == 1
    {
      open := fences[i].open;
      i := i + 1;
    }
  }

  /** `fences.find`: the fence line that crosses `end`. */
  method FindCrossing(text: Text, fences: seq<Fence>, end: nat) returns (crossing: Option<Fence>)
    requires Lists(text, fences)
    ensures crossing.Some? ==> crossing.value in fences && crossing.value.start < end < crossing.value.end
    ensures crossing.None? ==> forall f | f in fences :: !(f.start < end < f.end)
  {
    for i := 0 to |fences|
      invariant forall f | f in fences[..i] :: !(f.start < end < f.end)
    {
      if fences[i].start < end && fences[i].end > end { return Some(fences[i]); }
    }
    assert fences[..|fences|] == fences;
    return None;
  }

  /** No line boundary lies inside a fence line, so pulling the window back to its start loses none. */
  lemma CrossingHidesNoBoundary(text: Text, a: nat, w: nat, start: nat, end: nat)
    requires FenceLine(text, start, end) && a < start < w < end
    ensures Candidate(text, a, start, start)
    ensures forall b: nat :: Candidate(text, a, w, b) <==> Candidate(text, a, start, b)
  {}

  /** The backward search for a line boundary outside a fence. */
  method FindPreferred(text: Text, fences: seq<Fence>, offset: nat, end: nat, newline: nat) returns (preferred: nat)
    requires Lists(text, fences) && CountsBelow(text, fences, |text|) && end < |text|
    requires newline == 0 || (newline <= end && Boundary(text, newline))
    requires forall b: nat | Candidate(text, offset, end, b) :: b <= newline
    ensures preferred > offset ==>
              && Candidate(text, offset, end, preferred) && !InFence(text, preferred)
              && forall c: nat | Candidate(text, offset, end, c) && c > preferred :: InFence(text, c)
    ensures preferred <= offset ==> forall c: nat | Candidate(text, offset, end, c) :: InFence(text, c)
  {
    preferred := 0;
    var candidate: nat := newline;
    while candidate > offset
      invariant candidate == 0 || (candidate <= end && Boundary(text, candidate))
      invariant forall c: nat | Candidate(text, offset, end, c) && c > candidate :: InFence(text, c)
      decreases candidate
    {
      var open := StateAt(text, fences, candidate);
      if !open {
        return candidate;
      }
      if candidate == 1 { NothingOpensAtOne(text); }
      candidate := LastNewline(text, candidate - 2) + 1;
    }
  }

  /** Why the search ends at 1, where `lastIndexOf` would find the same line again. */
  lemma NothingOpensAtOne(text: Text)
    requires Boundary(text, 1)
    ensures !InFence(text, 1)
  {
    OneLine(text[..1]);
  }

  /** The first two cases of a best cut depend on the candidates alone. */
  lemma BestCandidate(text: Text, a: nat, w: nat, v: nat, b: nat)
    requires v <= w < |text| && forall c: nat :: Candidate(text, a, w, c) <==> Candidate(text, a, v, c)
    requires Candidate(text, a, v, b)
    requires forall c: nat | Candidate(text, a, v, c) && c > b :: InFence(text, c)
    requires InFence(text, b) ==> forall c: nat | Candidate(text, a, v, c) :: InFence(text, c) && c <= b
    ensures BestCut(text, a, w, b) && a < b <= w
  {}

  lemma HardBreak(text: Text, a: nat, w: nat, b: nat)
    requires w < |text| && forall c: nat :: !Candidate(text, a, w, c)
    requires b == if w > a && High(text[w - 1]) && Low(text[w]) then w - 1 else w
    ensures BestCut(text, a, w, b)
  {}

  /** The window's end, pulled back to the start of a fence line that crosses it. */
  method PullBack(text: Text, fences: seq<Fence>, offset: nat, window: nat) returns (end: nat)
    requires Lists(text, fences) && offset < window < |text|
    ensures offset < end <= window && (end == window || Boundary(text, end))
    ensures forall c: nat :: Candidate(text, offset, window, c) <==> Candidate(text, offset, end, c)
  {
    end := window;
    var crossing := FindCrossing(text, fences, end);
    if crossing.Some? && crossing.value.start > offset {
      CrossingHidesNoBoundary(text, offset, end, crossing.value.start, crossing.value.end);
      end := crossing.value.start;
    }
  }

  /** The choice of `end`, from the end of the window back. */
  method ChooseCut(text: Text, fences: seq<Fence>, offset: nat, window: nat) returns (end: nat)
    requires Lists(text, fences) && CountsBelow(text, fences, |text|)
    requires offset + 1 < window < |text|
    ensures offset < end <= window && BestCut(text, offset, window, end)
  {
    end := PullBack(text, fences, offset, window);
    ghost var v := end;
    var newline := LastNewline(text, end - 1) + 1;
    var preferred := FindPreferred(text, fences, offset, end, newline);
    if preferred > offset {
      end := preferred;
      BestCandidate(text, offset, window, v, end);
    } else if newline > offset {
      end := newline;
      BestCandidate(text, offset, window, v, end);
    }
    assert end == window || text[end - 1] == NEWLINE;
    if end > offset && High(text[end - 1]) && Low(text[end]) {
      end := end - 1;
    }
    if newline <= offset { HardBreak(text, offset, window, end); }
  }

  /** The chunks made so far end at `offset`, and none of them is the last. */
  ghost predicate Partly(text: Text, chunks: seq<Text>, cuts: seq<nat>, offset: nat) {
    && |cuts| == |chunks| + 1 && cuts[0] == 0 && cuts[|chunks|] == offset
    && (forall i {:trigger chunks[i]} | 0 <= i < |chunks| :: PieceOk(text, chunks[i], cuts[i], cuts[i + 1], false))
  }

  lemma OneMorePiece(text: Text, chunks: seq<Text>, cuts: seq<nat>, offset: nat, chunk: Text, end: nat)
    requires Partly(text, chunks, cuts, offset) && PieceOk(text, chunk, offset, end, false)
    ensures Partly(text, chunks + [chunk], cuts + [end], end)
  {}

  lemma LastPiece(text: Text, chunks: seq<Text>, cuts: seq<nat>, offset: nat, chunk: Text)
    requires Partly(text, chunks, cuts, offset) && PieceOk(text, chunk, offset, |text|, true)
    ensures Chunked(text, chunks + [chunk], cuts + [|text|])
  {
    var all, ends := chunks + [chunk], cuts + [|text|];
    forall i | 0 <= i < |all|
      ensures PieceAt(text, all, ends, i)
    {
      if i < |chunks| { assert all[i] == chunks[i]; }
    }
  }

  /** The chunks the rule of best cuts gives; `SlackChunkerLaws.ChunkingIsUnique` shows that there is one answer. */
  ghost predicate Chunking(text: Text, chunks: seq<Text>) {
    exists cuts: seq<nat> :: Chunked(text, chunks, cuts)
  }

  method ChunkSlackMessage(text: Text) returns (chunks: seq<Text>)
    ensures Chunking(text, chunks)
  {
    assert text[..0] == [];
    if |text| <= LIMIT {
      assert text[0..|text|] == text;
      assert Chunked(text, [text], [0, |text|]);
      return [text];
    }
    var fences := FindFences(text);
    ghost var cuts: seq<nat> := [0];
    chunks := [];
    var offset := 0;
    var prefix: Text := [];
    while offset < |text|
      invariant offset < |text| && prefix == Opener(text, offset)
      invariant Partly(text, chunks, cuts, offset)
      decreases |text| - offset
    {
      var budget := LIMIT - |prefix|;
      if |text| - offset <= budget {
        LastPiece(text, chunks, cuts, offset, prefix + text[offset..]);
        assert Chunked(text, chunks + [prefix + text[offset..]], cuts + [|text|]);
        chunks := chunks + [prefix + text[offset..]];
        return;
      }
      var end := offset + budget;
      if |fences| > 0 { end := offset + budget - |FENCE_CLOSER|; }
      end := ChooseCut(text, fences, offset, end);
      assert Counts(text, fences, end);
      var opener := StateAt(text, fences, end);
      var chunk := prefix + text[offset..end] + if opener then FENCE_CLOSER else [];
      OneMorePiece(text, chunks, cuts, offset, chunk, end);
      chunks := chunks + [chunk];
      cuts := cuts + [end];
      prefix := if opener then FENCE_OPENER else [];
      offset := end;
    }
  }
}
