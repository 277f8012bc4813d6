/**
 What cutting a message promises: nothing is lost, no surrogate pair is split, the result is
 determined by the rule of best cuts, and short lines keep their meaning.
 */
module SlackChunkerLaws {
  import opened Collections
  import opened SlackChunker

  // ----- Conservation -----

  /** A chunk without its synthetic fences. */
  function Body(text: Text, chunk: Text, a: nat, b: nat): Text
    requires a <= b <= |text|
  {
    var from := |Opener(text, a)|;
    if from + (b - a) <= |chunk| then chunk[from..from + (b - a)] else []
  }

  ghost predicate CutAt(text: Text, cuts: seq<nat>, i: nat)
    requires i + 1 < |cuts|
  {
    cuts[i] <= cuts[i + 1] <= |text|
  }

  ghost predicate Cuts(text: Text, chunks: seq<Text>, cuts: seq<nat>) {
    |cuts| == |chunks| + 1 && forall i | 0 <= i < |chunks| :: CutAt(text, cuts, i)
  }

  /** The bodies of the first `n` chunks, joined. */
  ghost function Joined(text: Text, chunks: seq<Text>, cuts: seq<nat>, n: nat): Text
    requires Cuts(text, chunks, cuts) && n <= |chunks|
  {
    if n == 0 then []
    else
      var last := chunks[n - 1];
      assert CutAt(text, cuts, n - 1);
      Joined(text, chunks, cuts, n - 1) + Body(text, last, cuts[n - 1], cuts[n])
  }

  lemma PieceHasItsBody(text: Text, chunk: Text, a: nat, b: nat, last: bool) returns (body: Text)
    requires PieceOk(text, chunk, a, b, last)
    ensures body == Body(text, chunk, a, b) && body == text[a..b]
  {
    body := Body(text, chunk, a, b);
  }

  lemma ChunkedIsCut(text: Text, chunks: seq<Text>, cuts: seq<nat>)
    requires Chunked(text, chunks, cuts)
    ensures Cuts(text, chunks, cuts) && cuts[|chunks|] == |text|
  {
    forall i | 0 <= i < |chunks|
      ensures CutAt(text, cuts, i)
    {
      assert PieceAt(text, chunks, cuts, i);
    }
    var n := |chunks| - 1;
    assert PieceAt(text, chunks, cuts, n);
  }

  lemma JoiningOneMore(text: Text, a: nat, b: nat, joined: Text, body: Text)
    requires a <= b <= |text| && joined == text[..a] && body == text[a..b]
    ensures joined + body == text[..b]
  {}

  lemma {:induction false} JoiningRestores(text: Text, chunks: seq<Text>, cuts: seq<nat>, n: nat)
    requires Chunked(text, chunks, cuts) && Cuts(text, chunks, cuts) && n <= |chunks|
    ensures cuts[n] <= |text| && Joined(text, chunks, cuts, n) == text[..cuts[n]]
  {
    if n > 0 {
      JoiningRestores(text, chunks, cuts, n - 1);
      assert CutAt(text, cuts, n - 1);
      var last, before := chunks[n - 1], Joined(text, chunks, cuts, n - 1);
      assert PieceAt(text, chunks, cuts, n - 1);
      var body := PieceHasItsBody(text, last, cuts[n - 1], cuts[n], n == |chunks|);
      JoiningOneMore(text, cuts[n - 1], cuts[n], before, body);
    }
  }

  /** The bodies of the chunks, joined, are the message, and every chunk fits into Slack's limit. */
  lemma ChunkingConserves(text: Text, chunks: seq<Text>, cuts: seq<nat>)
    requires Chunked(text, chunks, cuts)
    ensures Cuts(text, chunks, cuts) && Joined(text, chunks, cuts, |chunks|) == text
    ensures forall i | 0 <= i < |chunks| :: |chunks[i]| <= LIMIT
  {
    ChunkedIsCut(text, chunks, cuts);
    JoiningRestores(text, chunks, cuts, |chunks|);
    assert text[..|text|] == text;
    forall i | 0 <= i < |chunks|
      ensures |chunks[i]| <= LIMIT
    {
      assert PieceAt(text, chunks, cuts, i);
    }
  }

  // ----- Cuts -----

  ghost predicate EndsWith(s: Text, tail: Text) {
    |tail| <= |s| && s[|s| - |tail|..] == tail
  }

  /**
   No cut splits a surrogate pair; a chunk has a closer exactly when the next one has an
   opener; and a closer is used only when no line boundary outside a fence fits the window.
   */
  lemma CutsAreClean(text: Text, chunks: seq<Text>, cuts: seq<nat>, i: nat)
    requires Chunked(text, chunks, cuts) && i + 1 < |chunks|
    ensures cuts[i] < cuts[i + 1] < |text| && !(High(text[cuts[i + 1] - 1]) && Low(text[cuts[i + 1]]))
    ensures EndsWith(chunks[i], Closer(text, cuts[i + 1])) && Opener(text, cuts[i + 1]) <= chunks[i + 1]
    ensures Closer(text, cuts[i + 1]) == FENCE_CLOSER <==> Opener(text, cuts[i + 1]) == FENCE_OPENER
    ensures Closer(text, cuts[i + 1]) == FENCE_CLOSER ==>
              forall c: nat | Candidate(text, cuts[i], WindowEnd(text, cuts[i]), c) :: InFence(text, c)
  {
    assert PieceAt(text, chunks, cuts, i) && PieceAt(text, chunks, cuts, i + 1);
  }

  // ----- Fences -----

  /** A fence line is spaces and tabs, and then three backticks. */
  lemma {:induction false} FencesAreThreeBackticks(line: Text, n: nat)
    requires n <= |line| && (forall i | 0 <= i < n :: line[i] == 32 || line[i] == 9)
    requires n < |line| ==> line[n] != 32 && line[n] != 9
    ensures IsFence(line) <==> n + 3 <= |line| && line[n..n + 3] == [96, 96, 96]
  {
    if n > 0 {
      FencesAreThreeBackticks(line[1..], n - 1);
      if n + 3 <= |line| { assert line[1..][n - 1..n + 2] == line[n..n + 3]; }
    } else if |line| >= 3 {
      assert line[0..3] == [line[0], line[1], line[2]];
    }
  }

  // ----- Chunks are as long as they can be -----

  /** What a chunk from `a` to `b` has to fit: its opener, its text, and a closer in any text with fences. */
  ghost function Needs(text: Text, a: nat, b: nat): int
    requires a <= |text|
  {
    |Opener(text, a)| + (b - a) + if HasFence(text) then 4 else 0
  }

  /**
   A message is cut only where it must be: a chunk that is not the last is followed by more than
   fits into 4000 units, and ends behind every line boundary outside fences that fits; with no
   line boundary to end at, it is full but for half a surrogate pair.
   */
  lemma ChunksAreFull(text: Text, chunks: seq<Text>, cuts: seq<nat>, i: nat)
    requires Chunked(text, chunks, cuts) && i + 1 < |chunks|
    ensures cuts[i] < cuts[i + 1] <= |text| && |Opener(text, cuts[i])| + (|text| - cuts[i]) > 4000
    ensures forall c: nat | c > cuts[i + 1] && Boundary(text, c) && Needs(text, cuts[i], c) <= 4000 ::
              InFence(text, c)
    ensures (forall c: nat | c > cuts[i] && Boundary(text, c) :: Needs(text, cuts[i], c) > 4000) ==>
              Needs(text, cuts[i], cuts[i + 1]) >= 3999
  {
    assert PieceAt(text, chunks, cuts, i);
    var a, w := cuts[i], WindowEnd(text, cuts[i]);
    forall c: nat
      ensures Candidate(text, a, w, c) <==> a < c && Boundary(text, c) && Needs(text, a, c) <= 4000
    {}
  }

  /** And a message that fits is not cut. */
  lemma ShortMessagesAreWhole(text: Text, chunks: seq<Text>, cuts: seq<nat>)
    requires Chunked(text, chunks, cuts) && |text| <= 4000
    ensures chunks == [text]
  {
    assert text[..0] == [] && Fences([]) == 0 && text[0..|text|] == text;
    assert Opener(text, 0) == [] && Budget(text, 0) == LIMIT;
    assert PieceAt(text, chunks, cuts, 0);
    assert chunks[0] == Piece(text, 0, |text|, true) == text;
    assert |chunks| == 1;
  }

  // ----- The rule determines the chunks -----

  lemma BestCutIsUnique(text: Text, a: nat, w: nat, b: nat, c: nat)
    requires w < |text| && BestCut(text, a, w, b) && BestCut(text, a, w, c)
    ensures b == c
  {}

  /** Two pieces from the same place are the same. */
  lemma PieceIsUnique(text: Text, a: nat, x: Text, b: nat, last: bool, y: Text, c: nat, final: bool)
    requires PieceOk(text, x, a, b, last) && PieceOk(text, y, a, c, final)
    ensures b == c && x == y && last == final
  {
    if |text| - a > Budget(text, a) {
      BestCutIsUnique(text, a, WindowEnd(text, a), b, c);
    }
  }

  lemma NextPieceIsUnique(
    text: Text, chunks: seq<Text>, cuts: seq<nat>, others: seq<Text>, otherCuts: seq<nat>, m: nat)
    requires Chunked(text, chunks, cuts) && Chunked(text, others, otherCuts)
    requires m < |chunks| && m < |others| && cuts[m] == otherCuts[m]
    ensures cuts[m + 1] == otherCuts[m + 1] && chunks[m] == others[m]
    ensures m + 1 == |chunks| <==> m + 1 == |others|
  {
    assert PieceAt(text, chunks, cuts, m) && PieceAt(text, others, otherCuts, m);
    PieceIsUnique(
      text, cuts[m], chunks[m], cuts[m + 1], m + 1 == |chunks|, others[m], otherCuts[m + 1], m + 1 == |others|);
  }

  lemma {:induction false} CutsAreUnique(
    text: Text, chunks: seq<Text>, cuts: seq<nat>, others: seq<Text>, otherCuts: seq<nat>, n: nat)
    requires Chunked(text, chunks, cuts) && Chunked(text, others, otherCuts)
    requires n <= |chunks| && n <= |others|
    ensures cuts[n] == otherCuts[n]
    ensures chunks[..n] == others[..n]
    ensures n > 0 ==> (n == |chunks| <==> n == |others|)
  {
    if n > 0 {
      CutsAreUnique(text, chunks, cuts, others, otherCuts, n - 1);
      NextPieceIsUnique(text, chunks, cuts, others, otherCuts, n - 1);
    }
  }

  /** The rule of best cuts leaves no freedom: there is one way to chunk a message. */
  lemma ChunkingIsUnique(text: Text, chunks: seq<Text>, cuts: seq<nat>, others: seq<Text>, otherCuts: seq<nat>)
    requires Chunked(text, chunks, cuts) && Chunked(text, others, otherCuts)
    ensures chunks == others
  {
    var n := Min(|chunks|, |others|);
    CutsAreUnique(text, chunks, cuts, others, otherCuts, n);
    assert |chunks| == |others| && chunks[..n] == chunks && others[..n] == others;
  }

  // ----- Meaning -----

  const SHORT_LINE: nat := 3992

  /** Every line, with its newline, is at most 3992 units. */
  ghost predicate ShortLines(text: Text) {
    forall p: nat, e: nat | LineStart(text, p) && LineAt(text, p, e) :: e - p <= SHORT_LINE
  }

  function LineEnd(text: Text, p: nat): nat
    requires p < |text|
  {
    var k := p + FirstNewline(text[p..]);
    if k < |text| then k + 1 else k
  }

  lemma LineEndsThere(text: Text, p: nat)
    requires p < |text|
    ensures LineAt(text, p, LineEnd(text, p))
  {
    var s := text[p..];
    forall i | p <= i < LineEnd(text, p) - 1
      ensures text[i] != NEWLINE
    {
      assert s[i - p] != NEWLINE;
    }
  }

  /** With short lines the window always holds a line boundary, so no line is ever broken. */
  lemma ShortLinesCutAtBoundaries(text: Text, a: nat, b: nat)
    requires ShortLines(text) && a < |text| && LineStart(text, a) && CutOk(text, a, b, false)
    ensures Boundary(text, b)
  {
    var e := LineEnd(text, a);
    LineEndsThere(text, a);
    assert e - a <= SHORT_LINE;
    assert Candidate(text, a, WindowEnd(text, a), e);
  }

  lemma {:induction false} CutsAreLineStarts(text: Text, chunks: seq<Text>, cuts: seq<nat>, i: nat)
    requires Chunked(text, chunks, cuts) && ShortLines(text) && i < |chunks|
    ensures cuts[i] <= |text| && LineStart(text, cuts[i])
  {
    if i > 0 {
      CutsAreLineStarts(text, chunks, cuts, i - 1);
      assert PieceAt(text, chunks, cuts, i - 1);
      ShortLinesCutAtBoundaries(text, cuts[i - 1], cuts[i]);
    }
  }

  lemma FencesOfOneLine(line: Text)
    requires line == FENCE_OPENER || line == [NEWLINE]
    ensures LineStart(line, |line|) && Fences(line) == if line == [NEWLINE] then 0 else 1
  {
    OneLine(line);
  }

  /** An opener stands for the whole message before its chunk. */
  lemma OpenerStandsIn(text: Text, a: nat) returns (opener: Text)
    requires a <= |text|
    ensures opener == Opener(text, a) && LineStart(opener, |opener|) && Fences(opener) == Fences(text[..a]) % 2
  {
    opener := Opener(text, a);
    if opener != [] { FencesOfOneLine(opener); }
  }

  lemma ParityAdds(x: nat, y: nat, more: nat)
    requires x == y % 2
    ensures (x + more) % 2 == (y + more) % 2
  {}

  lemma SplitCounts(front: Text, rest: Text) returns (x: nat, y: nat, sum: nat)
    requires LineStart(front, |front|)
    ensures x == Fences(front) && sum == Fences(front + rest) && y == Fences(rest) && sum == x + y
  {
    FencesSplit(front, rest);
    x, y, sum := Fences(front), Fences(rest), Fences(front + rest);
  }

  lemma SameParity(before: Text, opener: Text, rest: Text) returns (left: nat, right: nat)
    requires LineStart(before, |before|) && LineStart(opener, |opener|) && Fences(opener) == Fences(before) % 2
    ensures left == Fences(opener + rest) && right == Fences(before + rest) && left % 2 == right % 2
  {
    var x, more, y, same;
    x, more, left := SplitCounts(opener, rest);
    y, same, right := SplitCounts(before, rest);
    ParityAdds(x, y, more);
  }

  lemma SplitAt(text: Text, a: nat, p: nat)
    requires a <= p <= |text|
    ensures text[..p] == text[..a] + text[a..p]
  {}

  lemma EndsAtALineStart(text: Text, a: nat, p: nat, opener: Text)
    requires a <= p <= |text| && LineStart(text, p) && LineStart(opener, |opener|)
    ensures LineStart(opener + text[a..p], |opener + text[a..p]|)
  {
    if p > a {
      assert (opener + text[a..p])[|opener| + (p - a) - 1] == text[p - 1];
    } else {
      assert opener + text[a..p] == opener;
    }
  }

  /** The opener carries the fence state across the cut. */
  lemma StateCarriesOver(text: Text, a: nat, p: nat) returns (front: Text)
    requires a <= p <= |text| && LineStart(text, a) && LineStart(text, p)
    ensures front == Opener(text, a) + text[a..p]
    ensures Fences(front) % 2 == Fences(text[..p]) % 2 && LineStart(front, |front|)
  {
    var opener := OpenerStandsIn(text, a);
    front := opener + text[a..p];
    SplitAt(text, a, p);
    var left, right := SameParity(text[..a], opener, text[a..p]);
    EndsAtALineStart(text, a, p, opener);
  }

  /** Where position `p` of the message is in the chunk of `text[a..b]`. */
  function Within(text: Text, a: nat, p: nat): nat
    requires a <= p && a <= |text|
  {
    |Opener(text, a)| + (p - a)
  }

  /**
   A line of the message is in its chunk as it was: at a line start, with the same text, inside or
   outside a fence as before.
   */
  ghost predicate SameLine(text: Text, chunk: Text, a: nat, b: nat, p: nat)
    requires a <= p < b <= |text|
  {
    var q := Within(text, a, p);
    && q <= |chunk| && LineStart(chunk, q)
    && text[p..b] <= chunk[q..]
    && (InFence(chunk, q) <==> InFence(text, p))
  }

  lemma Continues(front: Text, body: Text, tail: Text)
    ensures (front + body + tail)[..|front|] == front
    ensures body <= (front + body + tail)[|front|..]
  {
    assert (front + body + tail)[|front|..] == body + tail;
  }

  lemma SliceSplits(text: Text, a: nat, p: nat, b: nat)
    requires a <= p <= b <= |text|
    ensures text[a..b] == text[a..p] + text[p..b]
  {}

  lemma PieceContinues(text: Text, a: nat, b: nat, last: bool, p: nat, front: Text) returns (chunk: Text, tail: Text)
    requires a <= p < b <= |text| && front == Opener(text, a) + text[a..p]
    ensures chunk == Piece(text, a, b, last) == front + text[p..b] + tail
    ensures |front| == Within(text, a, p)
  {
    chunk, tail := Piece(text, a, b, last), if last then [] else Closer(text, b);
    SliceSplits(text, a, p, b);
  }

  lemma FrontIsALineStart(chunk: Text, front: Text, body: Text, tail: Text)
    requires chunk == front + body + tail && LineStart(front, |front|)
    ensures LineStart(chunk, |front|)
  {
    if front != [] { assert chunk[|front| - 1] == front[|front| - 1]; }
  }

  lemma LinesStayThemselves(text: Text, a: nat, b: nat, last: bool, p: nat)
    requires a <= p < b <= |text| && LineStart(text, a) && LineStart(text, p)
    ensures SameLine(text, Piece(text, a, b, last), a, b, p)
  {
    var front := StateCarriesOver(text, a, p);
    var chunk, tail := PieceContinues(text, a, b, last, p, front);
    Continues(front, text[p..b], tail);
    FrontIsALineStart(chunk, front, text[p..b], tail);
  }

  /** The fence lines of a text read to its end: a newline after it completes its last line. */
  function AllFences(s: Text): nat {
    Fences(s + [NEWLINE])
  }

  lemma AFenceMore(front: Text, line: Text, end: Text)
    requires LineStart(front, |front|) && line == [NEWLINE] && end == FENCE_OPENER
    ensures Fences(front + (line + end)) == Fences(front) + 1
  {
    FencesOfOneLine(line);
    FencesOfOneLine(end);
    FencesSplit(front, line + end);
    FencesSplit(line, end);
  }

  lemma ClosedThenRead(front: Text, line: Text, closer: Text, end: Text)
    requires line == [NEWLINE] && end == FENCE_OPENER && closer == FENCE_CLOSER
    ensures front + closer + [NEWLINE] == front + (line + end)
  {
    assert closer + [NEWLINE] == line + end;
  }

  lemma PieceIsBalanced(text: Text, a: nat, b: nat)
    requires a < b <= |text| && LineStart(text, a) && Boundary(text, b)
    ensures AllFences(Piece(text, a, b, false)) % 2 == 0
  {
    var front := StateCarriesOver(text, a, b);
    var line := [NEWLINE];
    if InFence(text, b) {
      AFenceMore(front, line, FENCE_OPENER);
      ClosedThenRead(front, line, FENCE_CLOSER, FENCE_OPENER);
    } else {
      FencesOfOneLine(line);
      FencesSplit(front, line);
      assert Piece(text, a, b, false) == front;
    }
  }

  /**
   Chunking preserves meaning: when every line is short, each line of the message starts a
   line of its chunk with the same text, inside or outside a code fence exactly as in the
   message, and every chunk but the last has an even number of fence lines.
   */
  lemma ChunkingPreservesMeaning(text: Text, chunks: seq<Text>, cuts: seq<nat>, i: nat, p: nat)
    requires Chunked(text, chunks, cuts) && ShortLines(text)
    requires i < |chunks| && cuts[i] <= p < cuts[i + 1] && LineStart(text, p)
    ensures cuts[i + 1] <= |text| && SameLine(text, chunks[i], cuts[i], cuts[i + 1], p)
    ensures i + 1 < |chunks| ==> AllFences(chunks[i]) % 2 == 0
  {
    CutsAreLineStarts(text, chunks, cuts, i);
    assert PieceAt(text, chunks, cuts, i);
    LinesStayThemselves(text, cuts[i], cuts[i + 1], i + 1 == |chunks|, p);
    if i + 1 < |chunks| {
      ShortLinesCutAtBoundaries(text, cuts[i], cuts[i + 1]);
      PieceIsBalanced(text, cuts[i], cuts[i + 1]);
    }
  }
}
