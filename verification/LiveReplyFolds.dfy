/**
 When a part is folded into its turn's live message, and that an opening posts its whole text
 (packages/adapter-slack/src/live-reply.ts, `#open` and `#append`).
 */
module LiveReplyFolds {
  import opened Collections
  import opened SlackChunker
  import opened LiveReply
  import opened LiveReplyLaws
  import opened LiveReplyTurns

  // ----- What an edit ought to say -----

  /** The texts, in order, with an empty line between any two. */
  function Message(texts: seq<Text>): Text {
    if texts == [] then []
    else if |texts| == 1 then texts[0]
    else Message(texts[..|texts| - 1]) + [NEWLINE, NEWLINE] + texts[|texts| - 1]
  }

  /** The texts of the parts that are applied, or have this delivery id, as first seen. */
  function TextsWith(parts: seq<Part>, deliveryId: nat): seq<Text> {
    if parts == [] then []
    else
      (if parts[0].applied || parts[0].deliveryId == deliveryId then [parts[0].text] else [])
      + TextsWith(parts[1..], deliveryId)
  }

  predicate Seen(parts: seq<Part>, deliveryId: nat) {
    exists p | p in parts :: p.deliveryId == deliveryId
  }

  /** The message with the part folded in: where it was first seen, or else at the end. */
  function FoldedMessage(parts: seq<Part>, input: Input): Text {
    Message(TextsWith(parts, input.deliveryId) + if Seen(parts, input.deliveryId) then [] else [input.text])
  }

  lemma {:induction false} JoinIsMessage(texts: seq<Text>)
    ensures Join(texts) == Message(texts)
    decreases |texts|
  {
    if |texts| > 1 {
      var n := |texts| - 1;
      JoinIsMessage(texts[1..]);
      if n > 1 {
        JoinIsMessage(texts[..n]);
        JoinIsMessage(texts[1..n]);
        assert texts[1..][..n - 1] == texts[1..n] && texts[..n][1..] == texts[1..n];
        assert texts[1..][n - 1] == texts[n];
      }
    }
  }

  lemma {:induction false} TextsWithSnoc(parts: seq<Part>, p: Part, deliveryId: nat)
    ensures TextsWith(parts + [p], deliveryId) ==
            TextsWith(parts, deliveryId) + if p.applied || p.deliveryId == deliveryId then [p.text] else []
    decreases |parts|
  {
    if parts == [] {
      assert parts + [p] == [p];
    } else {
      assert (parts + [p])[1..] == parts[1..] + [p];
      TextsWithSnoc(parts[1..], p, deliveryId);
    }
  }

  /** What the code renders for part `also` is what its delivery id asks for. */
  lemma {:induction false} RenderedIsTextsWith(parts: seq<Part>, also: Option<nat>, deliveryId: nat)
    requires forall i | 0 <= i < |parts| :: parts[i].deliveryId == deliveryId <==> also == Some(i)
    ensures Rendered(parts, also) == TextsWith(parts, deliveryId)
    decreases |parts|
  {
    if parts != [] {
      var n := |parts| - 1;
      RenderedIsTextsWith(parts[..n], also, deliveryId);
      TextsWithSnoc(parts[..n], parts[n], deliveryId);
      assert parts[..n] + [parts[n]] == parts;
    }
  }

  // ----- An append -----

  /** A part that begins to be folded into its turn's live, open message. */
  ghost predicate BeginsFold(s: State, id: nat, input: Input) {
    && Enabled(s, BeginNext(id)) && s.entries[id].queue[0] == Append(input)
    && Find(s.table, input.turn) == Some(id) && s.entries[id].live && s.entries[id].open
    && forall p | p in s.entries[id].parts && p.deliveryId == input.deliveryId :: !p.applied
  }

  lemma RenderedIsFolded(e: Entry, input: Input) returns (parts: seq<Part>, part: nat)
    requires OnePartEach(e.parts)
    ensures var prior := Index(e.parts, input.deliveryId);
            && parts == (if prior.Some? then e.parts else e.parts + [Part(input.deliveryId, input.text, false)])
            && part == (if prior.Some? then prior.value else |e.parts|)
    ensures Join(Rendered(parts, Some(part))) == FoldedMessage(e.parts, input)
  {
    var prior := Index(e.parts, input.deliveryId);
    if prior.Some? {
      parts, part := e.parts, prior.value;
      assert e.parts[part] in e.parts;
      RenderedIsTextsWith(parts, Some(part), input.deliveryId);
      assert TextsWith(parts, input.deliveryId) + [] == TextsWith(parts, input.deliveryId);
    } else {
      parts, part := e.parts + [Part(input.deliveryId, input.text, false)], |e.parts|;
      RenderedIsTextsWith(parts, Some(part), input.deliveryId);
      TextsWithSnoc(e.parts, Part(input.deliveryId, input.text, false), input.deliveryId);
    }
    JoinIsMessage(Rendered(parts, Some(part)));
  }

  /**
   A part that fits is folded: over every history, a part of a tracked, live, open turn that is
   not applied yet sends exactly one edit, which shows the applied parts and the new one in
   first-seen order, if and only if that message is at most 4000 units; otherwise it sends
   nothing and seals the entry.
   */
  lemma PartsThatFitAreFolded(states: seq<State>, steps: seq<Step>, id: nat, input: Input)
    requires History(states, steps) && BeginsFold(states[|steps|], id, input)
    ensures var s := states[|steps|];
            var t := Apply(s, BeginNext(id));
            var message := FoldedMessage(s.entries[id].parts, input);
            && id < |t.entries|
            && (t.log == s.log + [EditSent(id, message)] <==> |message| <= 4000)
            && (|message| <= 4000 ==> t.entries[id].open && t.entries[id].busy.Updating?
                                      && t.entries[id].busy.input == input)
            && (|message| > 4000 ==> !t.entries[id].open
                                     && t.log == s.log + [Settled(id, input.deliveryId, Untracked)])
  {
    HistoryKeeps(states, steps, |steps|);
    var s := states[|steps|];
    assert EntryOk(s.entries[id]);
    var r := SetEntry(s, id, s.entries[id].(queue := s.entries[id].queue[1..]));
    var u := FoldBegins(r, id, input);
    assert Apply(s, BeginNext(id)) == u;
    if u.log == s.log + [Settled(id, input.deliveryId, Untracked)] {
      assert u.log[|s.log|] == Settled(id, input.deliveryId, Untracked);
    }
  }

  lemma FoldBegins(s: State, id: nat, input: Input) returns (t: State)
    requires id < |s.entries| && Find(s.table, input.turn) == Some(id)
    requires s.entries[id].live && s.entries[id].open && OnePartEach(s.entries[id].parts)
    requires forall p | p in s.entries[id].parts && p.deliveryId == input.deliveryId :: !p.applied
    ensures t == StartAppend(s, id, input) && id < |t.entries|
    ensures var message := FoldedMessage(s.entries[id].parts, input);
            if |message| <= 4000 then
              && t.log == s.log + [EditSent(id, message)] && t.entries[id].open
              && t.entries[id].busy.Updating? && t.entries[id].busy.input == input
            else !t.entries[id].open && t.log == s.log + [Settled(id, input.deliveryId, Untracked)]
  {
    var parts, part := RenderedIsFolded(s.entries[id], input);
    var prior := Index(s.entries[id].parts, input.deliveryId);
    assert prior.Some? ==> !s.entries[id].parts[prior.value].applied;
    var message := FoldedMessage(s.entries[id].parts, input);
    if |message| <= 4000 {
      t := FoldFits(s, id, input, parts, part, message);
    } else {
      t := FoldOverflows(s, id, input, parts, part, message);
    }
  }

  /** The append found its place: the part is new, or was seen and is not applied. */
  ghost predicate Placed(s: State, id: nat, input: Input, parts: seq<Part>, part: nat, message: Text) {
    && id < |s.entries| && Find(s.table, input.turn) == Some(id) && s.entries[id].live && s.entries[id].open
    && message == Join(Rendered(parts, Some(part)))
    && var prior := Index(s.entries[id].parts, input.deliveryId);
       && (prior.Some? ==> !s.entries[id].parts[prior.value].applied)
       && parts == (if prior.Some? then s.entries[id].parts
                    else s.entries[id].parts + [Part(input.deliveryId, input.text, false)])
       && part == (if prior.Some? then prior.value else |s.entries[id].parts|)
  }

  lemma FoldFits(s: State, id: nat, input: Input, parts: seq<Part>, part: nat, message: Text) returns (t: State)
    requires Placed(s, id, input, parts, part, message) && |message| <= 4000
    ensures t == StartAppend(s, id, input) && id < |t.entries| && t.log == s.log + [EditSent(id, message)]
    ensures t.entries[id].open && t.entries[id].busy == Updating(input, part, message)
  {
    t := StartAppend(s, id, input);
  }

  lemma FoldOverflows(s: State, id: nat, input: Input, parts: seq<Part>, part: nat, message: Text) returns (t: State)
    requires Placed(s, id, input, parts, part, message) && |message| > 4000
    ensures t == StartAppend(s, id, input) && id < |t.entries|
    ensures t.log == s.log + [Settled(id, input.deliveryId, Untracked)] && !t.entries[id].open
  {
    t := StartAppend(s, id, input);
  }

  /**
   The answer to an edit decides: a success applies the part, shows what was sent and leaves the
   entry open unless the part was the last of its turn; a refusal seals the entry; anything else
   leaves the part for a later edit.
   */
  lemma EditAnswersDecide(states: seq<State>, steps: seq<Step>, id: nat, answer: EditAnswer)
    requires History(states, steps) && Enabled(states[|steps|], AnswerEdit(id, answer))
    ensures var e := states[|steps|].entries[id];
            var f := Apply(states[|steps|], AnswerEdit(id, answer)).entries[id];
            && f.busy == Free && f.queue == e.queue
            && (answer == Edited ==>
                  && AppliedAt(f, e.busy.part, e.busy.input.deliveryId) && f.shows == e.busy.rendered
                  && (f.open <==> e.open && !e.busy.input.final))
            && (answer == Uneditable ==> !f.open && f.parts == e.parts)
            && (answer == Ambiguous ==> f.open == e.open && f.parts == e.parts)
  {
    HistoryKeeps(states, steps, |steps|);
    assert EntryOk(states[|steps|].entries[id]);
  }

  /** Closing a turn seals its tracked entry. */
  lemma ClosingSeals(states: seq<State>, steps: seq<Step>, turn: nat)
    requires History(states, steps) && Find(states[|steps|].table, turn).Some?
    ensures var s, id := states[|steps|], Find(states[|steps|].table, turn).value;
            id < |s.entries| && !Apply(s, CloseTurn(turn)).entries[id].open
  {
    HistoryKeeps(states, steps, |steps|);
    var s := states[|steps|];
    assert Slot(turn, Find(s.table, turn).value) in s.table;
  }

  // ----- An opening -----

  /** The texts posted for an entry, in order. */
  function Posts(log: seq<Event>, id: nat): seq<Text> {
    if log == [] then []
    else
      var last := log[|log| - 1];
      Posts(log[..|log| - 1], id) + if last.PostSent? && last.id == id then [last.text] else []
  }

  lemma PostsSnoc(log: seq<Event>, e: Event, id: nat)
    ensures Posts(log + [e], id) == Posts(log, id) + if e.PostSent? && e.id == id then [e.text] else []
  {
    assert (log + [e])[..|log + [e]| - 1] == log;
  }

  /** While it opens, an entry has posted all but the chunks still to come; before that, nothing. */
  ghost predicate PostsOk(s: State, id: nat) {
    if id >= |s.entries| then Posts(s.log, id) == []
    else
      var e := s.entries[id];
      && (e.busy.Posting? ==>
            && e.busy.chunks != [] && Posts(s.log, id) + e.busy.chunks[1..] == e.busy.input.chunks
            && Posts(s.log, id) != [] && Posts(s.log, id)[|Posts(s.log, id)| - 1] == e.busy.chunks[0])
      && (e.queue != [] && e.queue[0].Open? ==> e.busy == Free && Posts(s.log, id) == [])
  }

  ghost predicate AllPostsOk(s: State) {
    forall id {:trigger PostsOk(s, id)} :: PostsOk(s, id)
  }

  /** Nothing is posted and no entry but a new one changes more than its queue, at its end. */
  ghost predicate OnlyQueues(s: State, t: State, id: nat) {
    && |t.entries| >= |s.entries|
    && (id < |s.entries| ==>
          && t.entries[id].busy == s.entries[id].busy
          && var before, after := s.entries[id].queue, t.entries[id].queue;
             after == before || (|after| == |before| + 1 && after[..|before|] == before && after[|before|].Append?))
    && (|s.entries| <= id < |t.entries| ==> t.entries[id].busy == Free)
  }

  lemma QueueingKeepsPosts(s: State, t: State, id: nat)
    requires PostsOk(s, id) && OnlyQueues(s, t, id) && Posts(t.log, id) == Posts(s.log, id)
    ensures PostsOk(t, id)
  {}

  lemma OfferKeepsPosts(s: State, input: Input)
    requires Inv(s) && AllPostsOk(s)
    ensures AllPostsOk(Deliver(s, input))
  {
    var t := Deliver(s, input);
    forall id
      ensures PostsOk(t, id)
    {
      assert PostsOk(s, id);
      OfferOnlyQueues(s, input, id);
      if t.log != s.log { PostsSnoc(s.log, Passed(input.turn, input.deliveryId), id); }
      QueueingKeepsPosts(s, t, id);
    }
  }

  lemma OfferOnlyQueues(s: State, input: Input, id: nat)
    ensures var t := Deliver(s, input);
            OnlyQueues(s, t, id) && (t.log == s.log || t.log == s.log + [Passed(input.turn, input.deliveryId)])
  {
    var t := Deliver(s, input);
    if id < |s.entries| {
      assert t.entries[id] == s.entries[id]
             || t.entries[id] == s.entries[id].(queue := s.entries[id].queue + [Append(input)]);
    }
  }

  /** A step on entry `at` that posts nothing. */
  lemma QuietStepKeepsPosts(s: State, t: State, at: nat, event: Event)
    requires AllPostsOk(s) && Within(s, t, at) && at < |s.entries|
    requires t.log == s.log + [event] && !event.PostSent? && !t.entries[at].busy.Posting?
    requires t.entries[at].queue != [] ==> t.entries[at].queue[0].Append?
    ensures AllPostsOk(t)
  {
    forall id
      ensures PostsOk(t, id)
    {
      assert PostsOk(s, id);
      PostsSnoc(s.log, event, id);
    }
  }

  /** A step on entry `at` that posts its next chunk. */
  lemma PostingKeepsPosts(s: State, t: State, at: nat, input: Input, chunks: seq<Text>)
    requires AllPostsOk(s) && Within(s, t, at) && at < |s.entries| && chunks != []
    requires t.log == s.log + [PostSent(at, chunks[0])] && t.entries[at].busy == Posting(input, chunks)
    requires Posts(s.log, at) + chunks == input.chunks
    requires t.entries[at].queue != [] ==> t.entries[at].queue[0].Append?
    ensures AllPostsOk(t)
  {
    NextPostIsOk(s, t, at, input, chunks);
    forall id
      ensures PostsOk(t, id)
    {
      if id != at {
        assert PostsOk(s, id);
        PostsSnoc(s.log, PostSent(at, chunks[0]), id);
      }
    }
  }

  lemma NextPostIsOk(s: State, t: State, at: nat, input: Input, chunks: seq<Text>)
    requires at < |t.entries| && chunks != [] && Posts(s.log, at) + chunks == input.chunks
    requires t.log == s.log + [PostSent(at, chunks[0])] && t.entries[at].busy == Posting(input, chunks)
    requires t.entries[at].queue != [] ==> t.entries[at].queue[0].Append?
    ensures PostsOk(t, at)
  {
    var posts := Posts(s.log, at);
    PostsSnoc(s.log, PostSent(at, chunks[0]), at);
    assert posts + [chunks[0]] + chunks[1..] == posts + chunks;
  }

  lemma BeginKeepsPosts(s: State, id: nat)
    requires Inv(s) && AllPostsOk(s) && Enabled(s, BeginNext(id))
    ensures AllPostsOk(Begin(s, id))
  {
    var t, e := Begin(s, id), s.entries[id];
    var op := e.queue[0];
    BeginIsWithin(s, id);
    assert EntryOk(e) && PostsOk(s, id);
    assert t.entries[id].queue != [] ==> t.entries[id].queue[0] == e.queue[1];
    if op.Open? && op.input.chunks != [] {
      assert [] + op.input.chunks == op.input.chunks;
      PostingKeepsPosts(s, t, id, op.input, op.input.chunks);
    } else if op.Open? {
      QuietStepKeepsPosts(s, t, id, Settled(id, op.input.deliveryId, Untracked));
    } else {
      var event := AppendLogsOne(s, id);
      QuietStepKeepsPosts(s, t, id, event);
    }
  }

  lemma AppendLogsOne(s: State, id: nat) returns (event: Event)
    requires Enabled(s, BeginNext(id)) && s.entries[id].queue[0].Append?
    ensures var t := Begin(s, id);
            id < |t.entries| && t.log == s.log + [event] && !event.PostSent? && !t.entries[id].busy.Posting?
  {
    var r := SetEntry(s, id, s.entries[id].(queue := s.entries[id].queue[1..]));
    var t;
    t, event := StartedAppendLogsOne(r, id, s.entries[id].queue[0].input);
  }

  lemma StartedAppendLogsOne(s: State, id: nat, input: Input) returns (t: State, event: Event)
    requires id < |s.entries| && !s.entries[id].busy.Posting?
    ensures t == StartAppend(s, id, input) && id < |t.entries|
    ensures t.log == s.log + [event] && !event.PostSent? && !t.entries[id].busy.Posting?
  {
    t := StartAppend(s, id, input);
    event := t.log[|t.log| - 1];
  }

  lemma PostKeepsPosts(s: State, id: nat, ok: bool)
    requires Inv(s) && AllPostsOk(s) && Enabled(s, AnswerPost(id, ok))
    ensures AllPostsOk(PostAnswered(s, id, ok))
  {
    var e, t := s.entries[id], PostAnswered(s, id, ok);
    PostIsWithin(s, id, ok);
    assert EntryOk(e) && PostsOk(s, id);
    if ok && |e.busy.chunks| > 1 {
      PostingKeepsPosts(s, t, id, e.busy.input, e.busy.chunks[1..]);
    } else {
      var outcome := if ok then Posted else Failed;
      QuietStepKeepsPosts(s, t, id, Settled(id, e.busy.input.deliveryId, outcome));
    }
  }

  lemma EditKeepsPosts(s: State, id: nat, answer: EditAnswer)
    requires Inv(s) && AllPostsOk(s) && Enabled(s, AnswerEdit(id, answer))
    ensures AllPostsOk(EditAnswered(s, id, answer))
  {
    var t := EditAnswered(s, id, answer);
    assert EntryOk(s.entries[id]);
    QuietStepKeepsPosts(s, t, id, t.log[|t.log| - 1]);
  }

  lemma StepKeepsPosts(s: State, step: Step)
    requires Inv(s) && AllPostsOk(s) && Enabled(s, step)
    ensures AllPostsOk(Apply(s, step))
  {
    match step
    case Offer(input) => OfferKeepsPosts(s, input);
    case BeginNext(id) => BeginKeepsPosts(s, id);
    case AnswerPost(id, ok) => PostKeepsPosts(s, id, ok);
    case AnswerEdit(id, answer) => EditKeepsPosts(s, id, answer);
    case Tick(_) => SealingKeepsPosts(s, Apply(s, step));
    case CloseTurn(_) => SealingKeepsPosts(s, Apply(s, step));
  }

  lemma SealingKeepsPosts(s: State, t: State)
    requires AllPostsOk(s) && t.log == s.log && |t.entries| == |s.entries|
    requires forall k {:trigger t.entries[k]} | 0 <= k < |s.entries| ::
               t.entries[k].busy == s.entries[k].busy && t.entries[k].queue == s.entries[k].queue
    ensures AllPostsOk(t)
  {
    forall id ensures PostsOk(t, id) { assert PostsOk(s, id); }
  }

  lemma {:induction false} HistoryKeepsPosts(states: seq<State>, steps: seq<Step>, n: nat)
    requires History(states, steps) && n <= |steps|
    ensures AllPostsOk(states[n])
  {
    if n == 0 {
      forall id ensures PostsOk(states[0], id) {}
    } else {
      HistoryKeepsPosts(states, steps, n - 1);
      HistoryKeeps(states, steps, n - 1);
      assert StepAt(states, steps, n - 1);
      StepKeepsPosts(states[n - 1], steps[n - 1]);
    }
  }

  /**
   An opening that lands has posted its whole text: over every history the posts of its entry
   are exactly the chunks, in order, and the last of them is the live message.
   */
  lemma OpeningsPostEverything(states: seq<State>, steps: seq<Step>, id: nat)
    requires History(states, steps) && Lands(states[|steps|], AnswerPost(id, true))
    ensures var s := states[|steps|];
            var input := s.entries[id].busy.input;
            var t := Apply(s, AnswerPost(id, true));
            && Posts(t.log, id) == input.chunks != [] && t.entries[id].live
            && t.entries[id].parts == [Part(input.deliveryId, input.chunks[|input.chunks| - 1], true)]
            && t.entries[id].shows == input.chunks[|input.chunks| - 1]
  {
    HistoryKeeps(states, steps, |steps|);
    HistoryKeepsPosts(states, steps, |steps|);
    var s := states[|steps|];
    assert EntryOk(s.entries[id]) && PostsOk(s, id);
    var input, last := s.entries[id].busy.input, s.entries[id].busy.chunks[0];
    var t := OpeningLands(s, id, input, last);
    PostsSnoc(s.log, Settled(id, input.deliveryId, Posted), id);
    assert Posts(s.log, id) + [] == Posts(s.log, id);
  }

  lemma OpeningLands(s: State, id: nat, input: Input, last: Text) returns (t: State)
    requires Enabled(s, AnswerPost(id, true)) && s.entries[id].busy == Posting(input, [last])
    requires s.entries[id].parts == []
    ensures t == Apply(s, AnswerPost(id, true)) && id < |t.entries|
    ensures t.log == s.log + [Settled(id, input.deliveryId, Posted)] && t.entries[id].live
    ensures t.entries[id].parts == [Part(input.deliveryId, last, true)] && t.entries[id].shows == last
  {
    t := Apply(s, AnswerPost(id, true));
    assert [] + [Part(input.deliveryId, last, true)] == [Part(input.deliveryId, last, true)];
  }

  /** A failed opening gives its turn up, so that the next part opens anew. */
  lemma FailedOpeningsLetGo(states: seq<State>, steps: seq<Step>, id: nat)
    requires History(states, steps) && Enabled(states[|steps|], AnswerPost(id, false))
    ensures var s := states[|steps|];
            var t := Apply(s, AnswerPost(id, false));
            && Find(t.table, s.entries[id].turn) != Some(id) && t.entries[id].busy == Free
            && Posts(t.log, id) == Posts(s.log, id)
  {
    var s := states[|steps|];
    HistoryKeeps(states, steps, |steps|);
    PostsSnoc(s.log, Settled(id, s.entries[id].busy.input.deliveryId, Failed), id);
  }
}
