/** From the agent's packets on the server to the message the client commits. */
module EndToEnd {
  import opened Prelude
  import opened Packets
  import opened SseParser
  import opened ChatStream
  import opened TimelineLaws
  import opened ReplayLaws
  import opened ChatClient
  import opened Wire
  import opened ClientLaws
  import opened CommitLaws

  // --------------------------------------------------------------- schedules

  lemma {:induction false} InputsAppend<T>(a: seq<Moment<T>>, b: seq<Moment<T>>)
    ensures Inputs(a + b) == Inputs(a) + Inputs(b)
    decreases |b|
  {
    if b == [] {
      AppendNil(a);
      AppendNil(Inputs(a));
    } else {
      var init, last := b[..|b| - 1], b[|b| - 1];
      assert (a + b)[..|a + b| - 1] == a + init && (a + b)[|a + b| - 1] == last;
      InputsAppend(a, init);
      AppendAssoc(Inputs(a), Inputs(init), if last.Take? then [last.input] else []);
    }
  }

  lemma InputsOne<T>(m: Moment<T>)
    ensures Inputs([m]) == if m.Take? then [m.input] else []
  {
    assert [m][..0] == [];
  }

  lemma {:induction false} InputsOfTakes(evs: seq<SseEvent>)
    ensures Inputs(Takes(evs)) == evs
    decreases |evs|
  {
    if evs != [] {
      var n := |evs| - 1;
      InputsOfTakes(evs[..n]);
      assert Takes(evs)[..n] == Takes(evs[..n]) && evs == evs[..n] + [evs[n]];
    }
  }

  lemma FeedFirst(chunk: string, rest: seq<string>, leftover: string)
    ensures var split := OneShot(leftover + chunk);
            Feed([chunk] + rest, leftover) == Then(split, Feed(rest, split.leftover))
  {
    assert ([chunk] + rest)[1..] == rest;
  }

  /** The events that the handlers get are those of the chunks read. */
  lemma {:induction false} HandledEvents(ticks: seq<Moment<string>>, leftover: string)
    ensures Inputs(Handled(ticks, leftover)) == BlockEvents(Feed(Inputs(ticks), leftover).blocks)
    decreases |ticks|
  {
    if ticks != [] {
      var first, rest := ticks[0], ticks[1..];
      assert ticks == [first] + rest;
      InputsAppend([first], rest);
      InputsOne(first);
      if first.Take? {
        var split := OneShot(leftover + first.input);
        HandledEvents(rest, split.leftover);
        FeedFirst(first.input, Inputs(rest), leftover);
        BlockEventsAppend(split.blocks, Feed(Inputs(rest), split.leftover).blocks);
        InputsAppend(Takes(BlockEvents(split.blocks)), Handled(rest, split.leftover));
        InputsOfTakes(BlockEvents(split.blocks));
      } else {
        HandledEvents(rest, leftover);
        NoInput(Render, Handled(rest, leftover));
        NoInput(Effect, Handled(rest, leftover));
        AppendNil(Inputs(rest));
      }
    }
  }

  lemma NoInput(m: Moment<SseEvent>, ms: seq<Moment<SseEvent>>)
    requires !m.Take?
    ensures Inputs([m] + ms) == Inputs(ms)
  {
    InputsAppend([m], ms);
    InputsOne(m);
    AppendNil(Inputs(ms));
  }

  /** The chunks of a schedule are a cutting of these items, as the server renders them. */
  ghost predicate Reads(codec: Codec, ticks: seq<Moment<string>>, items: seq<WireItem>) {
    GoodItems(items) && Concat(Inputs(ticks)) == RenderAll(codec, items)
  }

  lemma ReadsParse(codec: Codec, ticks: seq<Moment<string>>, items: seq<WireItem>)
    requires Faithful(codec) && Reads(codec, ticks, items)
    ensures Inputs(Handled(ticks, "")) == EventsOfPackets(codec, PacketsOf(items))
    ensures Feed(Inputs(ticks), "").leftover == ""
  {
    HandledEvents(ticks, "");
    ChunkedStreamParses(codec, items, Inputs(ticks));
  }

  /** How many packets the ref shows when the last packet of a stream is handled. */
  function Seen(ticks: seq<Moment<string>>): Option<nat> { SeenAtLast(Handled(ticks, "")) }

  /** A client that reads `start`, a body and `finish`: it delivers the timeline of the body if
      and only if the ref showed all of it. */
  lemma FramedTurnCommits(codec: Codec, c: Client, turn: Sending, id: Id, sessionId: Id, body: seq<Packet>,
                          items: seq<WireItem>, ticks: seq<Moment<string>>)
    requires Faithful(codec) && Stamped(body) && NewTo(c, turn.clientMessageId) && Reads(codec, ticks, items)
    requires PacketsOf(items) == [Start(id, sessionId)] + body + [Finish("stop", id)]
    ensures var ps, d := [Start(id, sessionId)] + body, AtEnd(codec, Send(c, turn), ticks);
            Finished(d, turn, ps, id, Seen(ticks), c.committed) &&
            (Delivered(d, c.committed, PairOf(turn, id, FoldAll(EMPTY, body))) <==> Complete(ps, Seen(ticks))) &&
            (AllShown(ps, Seen(ticks)) ==> Complete(ps, Seen(ticks)))
    ensures Feed(Inputs(ticks), "").leftover == ""
  {
    var ps := [Start(id, sessionId)] + body;
    ReadsParse(codec, ticks, items);
    StampedBehindStart(id, sessionId, body);
    SendFollows(c, turn, ps);
    FinishCommitsTheRef(codec, Send(c, turn), turn, ps, id, Handled(ticks, ""));
    DeliversExactly(AtEnd(codec, Send(c, turn), ticks), turn, ps, id, Seen(ticks), c.committed);
    AllShownIsComplete(ps, Seen(ticks));
  }

  lemma StampedBehindStart(id: Id, sessionId: Id, body: seq<Packet>)
    requires Stamped(body)
    ensures Stamped([Start(id, sessionId)] + body)
    ensures FoldAll(EMPTY, [Start(id, sessionId)] + body) == FoldAll(EMPTY, body)
  {
    var ps := [Start(id, sessionId)] + body;
    assert forall i :: 0 <= i < |ps| ==> ps[i] == if i == 0 then Start(id, sessionId) else body[i - 1];
    assert ps[1..] == body;
  }

  /** At every moment of a read, whatever was rendered: the reducer's own turn has the events
      and the text of the packets handled so far. */
  lemma ReducerShows(codec: Codec, c: Client, turn: Sending, ps: seq<Packet>, ms: seq<Moment<SseEvent>>)
    requires Faithful(codec) && Stamped(ps) && NewTo(c, turn.clientMessageId)
    requires Inputs(ms) <= EventsOfPackets(codec, ps)
    ensures var d, t := DoAll(codec, Send(c, turn), ms), After(ps, |Inputs(ms)|);
            d.chat.Some? && d.committed == c.committed &&
            ServerEventsFromTurn(d.chat.value) == InOrder(t) && TurnText(d.chat.value) == AssistantContent(t) &&
            (d.chat.value.status == Failed <==> t.sawError)
  {
    SendFollows(c, turn, ps);
    ClientMirrorsServer(codec, Send(c, turn), turn, ps, ms);
    var t := After(ps, |Inputs(ms)|);
    FoldKeepsSane(EMPTY, ps[..|Inputs(ms)|]);
    AdaptedEventsAgree(DoAll(codec, Send(c, turn), ms).chat.value, t);
    JoinedTextAgrees(InOrder(t));
  }

  // --------------------------------------------------------------- live turns

  /** An agent's packets, of well-named tools. */
  ghost predicate FromAgent(ps: seq<Packet>) { AgentOnly(ps) && AllNamed(ps) }

  predicate AllPlain(s: string) { forall i :: 0 <= i < |s| ==> 'a' <= s[i] <= 'z' || s[i] == '_' }

  lemma PlainIsNoSpace(c: char)
    requires 'a' <= c <= 'z' || c == '_'
    ensures !IsJsSpace(c)
  {
  }

  lemma PlainIsWellNamed(tool: string)
    requires tool != "" && AllPlain(tool)
    ensures WellNamed(tool)
  {
    forall i | 0 <= i < |tool| ensures !IsJsSpace(tool[i]) { PlainIsNoSpace(tool[i]); }
  }

  /** Every registered tool has a name that survives the trip. */
  lemma RegistryIsWellNamed(tool: string)
    requires tool in TOOL_NAMES
    ensures WellNamed(tool)
  {
    assert AllPlain("search_memories") && AllPlain("manage_memory");
    assert tool == "search_memories" || tool == "manage_memory";
    PlainIsWellNamed(tool);
  }

  lemma {:induction false} NumberedIsStamped(a: Assigner, ps: seq<Packet>)
    requires FromAgent(ps) && (a.lastKind == Some(TextKind) ==> a.textStep.Some?)
    ensures Stamped(Number(a, ps))
    decreases |ps|
  {
    if ps != [] {
      assert forall i :: 0 <= i < |ps[1..]| ==> ps[1..][i] == ps[i + 1];
      NumberedIsStamped(Assign(a, ps[0]).0, ps[1..]);
      var qs := Number(a, ps);
      assert forall i :: 0 <= i < |qs| ==> qs[i] == if i == 0 then Stamp(a, ps[0]) else Number(Assign(a, ps[0]).0, ps[1..])[i - 1];
    }
  }

  /** The pair of a message and a stored row. */
  function RowPair(turn: Sending, row: AssistantRow): Committed {
    Committed(turn.clientMessageId, turn.userText, row.id, row.content, row.events)
  }

  /** The numbered packets of a live turn, without `finish`. */
  function LiveBody(ps: seq<Packet>, id: Id, sessionId: Id): seq<Packet> { [Start(id, sessionId)] + Number(FRESH, ps) }

  lemma LiveBodyIsStamped(ps: seq<Packet>, id: Id, sessionId: Id)
    requires FromAgent(ps)
    ensures Stamped(Number(FRESH, ps)) && Stamped(LiveBody(ps, id, sessionId))
    ensures FoldAll(EMPTY, LiveBody(ps, id, sessionId)) == LiveTimeline(ps)
  {
    NumberedIsStamped(FRESH, ps);
    StampedBehindStart(id, sessionId, Number(FRESH, ps));
  }

  /** A stored turn, for every agent stream, every chunking, every place of keep-alive
      comments and every schedule of renders and effects between the reads: the client commits the
      stored row if and only if its ref already showed the whole timeline when `finish` came.
      It does when no content came after the render that the ref shows; and when the stream
      repeats nothing, only then. */
  lemma StoredTurnEndToEnd(codec: Codec, c: Client, turn: Sending, ps: seq<Packet>, id: Id, sessionId: Id,
                           items: seq<WireItem>, ticks: seq<Moment<string>>)
    requires Faithful(codec) && FromAgent(ps) && NewTo(c, turn.clientMessageId) && Reads(codec, ticks, items)
    requires Persists(ps, false) && PacketsOf(items) == LiveWire(ps, id, sessionId, false)
    ensures var sent, row := LiveBody(ps, id, sessionId), LiveRow(ps, id, sessionId);
            var delivered := Delivered(AtEnd(codec, Send(c, turn), ticks), c.committed, RowPair(turn, row));
            (delivered <==> Complete(sent, Seen(ticks))) &&
            (AllShown(sent, Seen(ticks)) ==> delivered) &&
            (NoRepeats(ps) ==> (delivered <==> AllShown(sent, Seen(ticks))))
    ensures Feed(Inputs(ticks), "").leftover == ""
  {
    LiveBodyIsStamped(ps, id, sessionId);
    FramedTurnCommits(codec, c, turn, id, sessionId, Number(FRESH, ps), items, ticks);
    if NoRepeats(ps) {
      LiveTurnAdds(ps, id, sessionId);
      CompleteIsAllShown(LiveBody(ps, id, sessionId), Seen(ticks));
    }
  }

  /** How many of the agent's packets are among the first `n` packets sent. */
  function AgentPart(n: nat): nat { if n == 0 then 0 else n - 1 }

  lemma AfterLive(ps: seq<Packet>, id: Id, sessionId: Id, n: nat)
    requires n <= |LiveBody(ps, id, sessionId)|
    ensures AgentPart(n) <= |ps| && After(LiveBody(ps, id, sessionId), n) == LiveTimeline(ps[..AgentPart(n)])
  {
    var sent := LiveBody(ps, id, sessionId);
    if n == 0 {
      assert sent[..0] == [] && ps[..0] == [];
    } else {
      var k := n - 1;
      TakeDrop(ps, k);
      NumberAppend(FRESH, ps[..k], ps[k..]);
      TakeAppend(Number(FRESH, ps[..k]), Number(AssignerAfter(FRESH, ps[..k]), ps[k..]), k);
      assert sent[..n] == [Start(id, sessionId)] + Number(FRESH, ps)[..k];
      assert sent[..n][1..] == Number(FRESH, ps[..k]);
    }
  }

  /** What is committed otherwise: the row that a turn would have stored that ended where the
      ref's render found it, so of the text exactly the deltas up to there. */
  lemma CommitsWhatWasShown(codec: Codec, c: Client, turn: Sending, ps: seq<Packet>, id: Id, sessionId: Id,
                            items: seq<WireItem>, ticks: seq<Moment<string>>)
    requires Faithful(codec) && FromAgent(ps) && NewTo(c, turn.clientMessageId) && Reads(codec, ticks, items)
    requires Persists(ps, false) && PacketsOf(items) == LiveWire(ps, id, sessionId, false)
    requires Seen(ticks).Some?
    ensures var k := AgentPart(Seen(ticks).value);
            k <= |ps| && LiveRow(ps[..k], id, sessionId).content == Deltas(ps[..k]) &&
            Delivered(AtEnd(codec, Send(c, turn), ticks), c.committed, RowPair(turn, LiveRow(ps[..k], id, sessionId)))
  {
    var n := Seen(ticks).value;
    LiveBodyIsStamped(ps, id, sessionId);
    FramedTurnCommits(codec, c, turn, id, sessionId, Number(FRESH, ps), items, ticks);
    AfterLive(ps, id, sessionId, n);
    TextConservation(ps[..AgentPart(n)]);
  }

  /** The reducer's own turn, at any moment between the last content and `finish`: it shows
      exactly the row that is stored, under every schedule. */
  lemma StoredTurnIsShown(codec: Codec, c: Client, turn: Sending, ps: seq<Packet>, id: Id, sessionId: Id,
                          ms: seq<Moment<SseEvent>>)
    requires Faithful(codec) && FromAgent(ps) && NewTo(c, turn.clientMessageId) && Persists(ps, false)
    requires Inputs(ms) == EventsOfPackets(codec, LiveBody(ps, id, sessionId))
    ensures var d, row := DoAll(codec, Send(c, turn), ms), LiveRow(ps, id, sessionId);
            d.chat.Some? && d.committed == c.committed &&
            Some(ServerEventsFromTurn(d.chat.value)) == row.events && TurnText(d.chat.value) == row.content
  {
    LiveBodyIsStamped(ps, id, sessionId);
    ReducerShows(codec, c, turn, LiveBody(ps, id, sessionId), ms);
    var sent := LiveBody(ps, id, sessionId);
    assert sent[..|sent|] == sent;
  }

  // ------------------------------------------------- `finish` in a read with content

  lemma {:induction false} HandledAppend(a: seq<Moment<string>>, b: seq<Moment<string>>, leftover: string)
    ensures Handled(a + b, leftover) == Handled(a, leftover) + Handled(b, Feed(Inputs(a), leftover).leftover)
    decreases |a|
  {
    if a == [] {
      AppendNil(b);
      AppendNil(Handled(b, leftover));
    } else {
      var first, rest := a[0], a[1..];
      assert a == [first] + rest;
      InputsAppend([first], rest);
      InputsOne(first);
      DropAppend(a, b, 1);
      if first.Take? {
        var split := OneShot(leftover + first.input);
        HandledAppend(rest, b, split.leftover);
        FeedFirst(first.input, Inputs(rest), leftover);
        AppendAssoc(Takes(BlockEvents(split.blocks)), Handled(rest, split.leftover),
                    Handled(b, Feed(Inputs(a), leftover).leftover));
      } else {
        HandledAppend(rest, b, leftover);
        AppendNil(Inputs(rest));
        AppendAssoc([if first.Render? then Render else Effect], Handled(rest, leftover),
                    Handled(b, Feed(Inputs(a), leftover).leftover));
      }
    }
  }

  /** The marks cannot be ahead of what was taken. */
  lemma {:induction false} MarksBehind<T>(ms: seq<Moment<T>>)
    ensures var m := MarksOf(ms);
            m.taken == |Inputs(ms)| && (m.rendered.Some? ==> m.rendered.value <= m.taken) &&
            (m.seen.Some? ==> m.seen.value <= m.taken)
  {
    if ms != [] { MarksBehind(ms[..|ms| - 1]); }
  }

  lemma {:induction false} SeenBehindInputs<T>(ms: seq<Moment<T>>, tail: seq<Moment<T>>)
    requires Inputs(tail) == []
    ensures SeenAtLast(ms + tail) == SeenAtLast(ms)
    decreases |tail|
  {
    if tail == [] {
      AppendNil(ms);
    } else {
      var init := tail[..|tail| - 1];
      assert (ms + tail)[..|ms + tail| - 1] == ms + init && (ms + tail)[|ms + tail| - 1] == tail[|tail| - 1];
      SeenBehindInputs(ms, init);
    }
  }

  lemma {:induction false} TakesKeepSeen(ms: seq<Moment<SseEvent>>, evs: seq<SseEvent>)
    ensures MarksOf(ms + Takes(evs)).seen == MarksOf(ms).seen
    decreases |evs|
  {
    if evs == [] {
      AppendNil(ms);
    } else {
      var n := |evs| - 1;
      assert (ms + Takes(evs))[..|ms| + n] == ms + Takes(evs[..n]);
      TakesKeepSeen(ms, evs[..n]);
    }
  }

  lemma SeenBeforeTakes(ms: seq<Moment<SseEvent>>, evs: seq<SseEvent>)
    requires evs != []
    ensures SeenAtLast(ms + Takes(evs)) == MarksOf(ms).seen
  {
    var n := |evs| - 1;
    assert (ms + Takes(evs))[..|ms| + n] == ms + Takes(evs[..n]);
    TakesKeepSeen(ms, evs[..n]);
  }

  /** The read of `chunk` hands out the last events of the stream. */
  ghost predicate LastRead(before: seq<Moment<string>>, chunk: string, after: seq<Moment<string>>) {
    var split := OneShot(Feed(Inputs(before), "").leftover + chunk);
    BlockEvents(split.blocks) != [] && Inputs(Handled(after, split.leftover)) == []
  }

  /** No render reaches the ref inside a read: `finish` sees what the ref showed before the
      read that brought it, so at most the packets of the earlier reads. */
  lemma FinishSeesEarlierReads(before: seq<Moment<string>>, chunk: string, after: seq<Moment<string>>)
    requires LastRead(before, chunk, after)
    ensures Seen(before + [Take(chunk)] + after) == MarksOf(Handled(before, "")).seen
    ensures MarksOf(Handled(before, "")).seen.Some? ==>
              MarksOf(Handled(before, "")).seen.value <= |BlockEvents(Feed(Inputs(before), "").blocks)|
  {
    var ms, left := Handled(before, ""), Feed(Inputs(before), "").leftover;
    var split := OneShot(left + chunk);
    AppendAssoc(before, [Take(chunk)], after);
    HandledAppend(before, [Take(chunk)] + after, "");
    assert ([Take(chunk)] + after)[1..] == after;
    AppendAssoc(ms, Takes(BlockEvents(split.blocks)), Handled(after, split.leftover));
    SeenBehindInputs(ms + Takes(BlockEvents(split.blocks)), Handled(after, split.leftover));
    SeenBeforeTakes(ms, BlockEvents(split.blocks));
    MarksBehind(ms);
    HandledEvents(before, "");
  }

  /** So a stored turn that repeats nothing is never delivered when the read that brings
      `finish` also brings content. */
  lemma FinishBesideContentLoses(codec: Codec, c: Client, turn: Sending, ps: seq<Packet>, id: Id, sessionId: Id,
                                 items: seq<WireItem>, before: seq<Moment<string>>, chunk: string,
                                 after: seq<Moment<string>>, i: nat)
    requires Faithful(codec) && FromAgent(ps) && NoRepeats(ps) && NewTo(c, turn.clientMessageId)
    requires Reads(codec, before + [Take(chunk)] + after, items) && LastRead(before, chunk, after)
    requires Persists(ps, false) && PacketsOf(items) == LiveWire(ps, id, sessionId, false)
    requires |BlockEvents(Feed(Inputs(before), "").blocks)| <= i < |LiveBody(ps, id, sessionId)|
    requires LiveBody(ps, id, sessionId)[i].IsContent()
    ensures !Delivered(AtEnd(codec, Send(c, turn), before + [Take(chunk)] + after), c.committed,
                       RowPair(turn, LiveRow(ps, id, sessionId)))
  {
    FinishSeesEarlierReads(before, chunk, after);
    StoredTurnEndToEnd(codec, c, turn, ps, id, sessionId, items, before + [Take(chunk)] + after);
  }

  /** A stored turn whose whole wire arrives in one read: never delivered, and when the ref
      showed the turn at all an empty answer is committed in its place. */
  lemma OneReadIsLost(codec: Codec, c: Client, turn: Sending, ps: seq<Packet>, id: Id, sessionId: Id,
                      items: seq<WireItem>, before: seq<Moment<string>>, after: seq<Moment<string>>)
    requires Faithful(codec) && FromAgent(ps) && NewTo(c, turn.clientMessageId) && GoodItems(items)
    requires Persists(ps, false) && PacketsOf(items) == LiveWire(ps, id, sessionId, false)
    requires Inputs(before) == [] && Inputs(after) == []
    ensures var d := AtEnd(codec, Send(c, turn), before + [Take(RenderAll(codec, items))] + after);
            !Delivered(d, c.committed, RowPair(turn, LiveRow(ps, id, sessionId))) &&
            (MarksOf(Handled(before, "")).seen.Some? ==>
               Delivered(d, c.committed, Committed(turn.clientMessageId, turn.userText, id, "", None)))
  {
    var ticks := before + [Take(RenderAll(codec, items))] + after;
    OneReadReads(codec, items, before, after);
    OneReadIsLast(codec, items, before, after);
    FinishSeesEarlierReads(before, RenderAll(codec, items), after);
    AtMostStartSeen(codec, c, turn, ps, id, sessionId, items, ticks);
  }

  lemma OneReadReads(codec: Codec, items: seq<WireItem>, before: seq<Moment<string>>, after: seq<Moment<string>>)
    requires GoodItems(items) && Inputs(before) == [] && Inputs(after) == []
    ensures Reads(codec, before + [Take(RenderAll(codec, items))] + after, items)
  {
    var text := RenderAll(codec, items);
    InputsAppend(before + [Take(text)], after);
    InputsAppend(before, [Take(text)]);
    InputsOne(Take(text));
    assert Inputs(before + [Take(text)] + after) == [text] && [text][1..] == [];
    AppendNil(text);
  }

  /** A ref that showed no packet of a stored turn. */
  lemma AtMostStartSeen(codec: Codec, c: Client, turn: Sending, ps: seq<Packet>, id: Id, sessionId: Id,
                        items: seq<WireItem>, ticks: seq<Moment<string>>)
    requires Faithful(codec) && FromAgent(ps) && NewTo(c, turn.clientMessageId) && Reads(codec, ticks, items)
    requires Persists(ps, false) && PacketsOf(items) == LiveWire(ps, id, sessionId, false)
    requires Seen(ticks).Some? ==> Seen(ticks).value == 0
    ensures var d := AtEnd(codec, Send(c, turn), ticks);
            !Delivered(d, c.committed, RowPair(turn, LiveRow(ps, id, sessionId))) &&
            (Seen(ticks).Some? ==> Delivered(d, c.committed, Committed(turn.clientMessageId, turn.userText, id, "", None)))
  {
    StoredTurnEndToEnd(codec, c, turn, ps, id, sessionId, items, ticks);
    LiveBodyIsStamped(ps, id, sessionId);
    assert LiveBody(ps, id, sessionId)[..0] == [];
    if Seen(ticks).Some? {
      CommitsWhatWasShown(codec, c, turn, ps, id, sessionId, items, ticks);
      assert ps[..0] == [];
    }
  }

  lemma OneReadIsLast(codec: Codec, items: seq<WireItem>, before: seq<Moment<string>>, after: seq<Moment<string>>)
    requires Faithful(codec) && GoodItems(items) && PacketsOf(items) != []
    requires Inputs(before) == [] && Inputs(after) == []
    ensures LastRead(before, RenderAll(codec, items), after)
    ensures BlockEvents(Feed(Inputs(before), "").blocks) == []
  {
    var text := RenderAll(codec, items);
    assert Feed([], "") == Split([], "") && "" + text == text;
    WholeStreamParses(codec, items);
    HandledEvents(after, OneShot(text).leftover);
    assert BlockEvents([]) == [];
  }

  /** The frames of a one-word answer. */
  function OneDelta(delta: string, id: Id, sessionId: Id): seq<WireItem> {
    [Frame(Start(id, sessionId)), Frame(TextDelta(Some(1), delta)), Frame(Finish("stop", id))]
  }

  /** The agent's side of it. */
  function OneWord(delta: string): seq<Packet> { [TextDelta(None, delta)] }

  /** The smallest case: a one-word answer that is stored, read at once, and lost. */
  lemma OneDeltaIsLost(codec: Codec, c: Client, turn: Sending, delta: string, id: Id, sessionId: Id)
    requires Faithful(codec) && NewTo(c, turn.clientMessageId) && delta != ""
    ensures Persists(OneWord(delta), false) && LiveRow(OneWord(delta), id, sessionId).content == delta
    ensures PacketsOf(OneDelta(delta, id, sessionId)) == LiveWire(OneWord(delta), id, sessionId, false)
    ensures Delivered(AtEnd(codec, Send(c, turn), [Render, Effect, Take(RenderAll(codec, OneDelta(delta, id, sessionId)))]),
                      c.committed, Committed(turn.clientMessageId, turn.userText, id, "", None))
  {
    OneDeltaIsStored(delta);
    OneDeltaFrames(delta, id, sessionId);
    RefreshReachesTheRef();
    OneReadIsLost(codec, c, turn, OneWord(delta), id, sessionId, OneDelta(delta, id, sessionId), REFRESH, []);
    RefreshThen(RenderAll(codec, OneDelta(delta, id, sessionId)));
  }

  lemma RefreshThen(text: string)
    ensures REFRESH + [Take(text)] + [] == [Render, Effect, Take(text)]
  {
  }

  lemma OneDeltaFrames(delta: string, id: Id, sessionId: Id)
    requires Number(FRESH, OneWord(delta)) == [TextDelta(Some(1), delta)]
    requires Persists(OneWord(delta), false)
    ensures GoodItems(OneDelta(delta, id, sessionId)) && FromAgent(OneWord(delta))
    ensures PacketsOf(OneDelta(delta, id, sessionId)) == LiveWire(OneWord(delta), id, sessionId, false)
  {
    ThreeFrames(Frame(Start(id, sessionId)), Frame(TextDelta(Some(1), delta)), Frame(Finish("stop", id)));
  }

  const REFRESH: seq<Moment<string>> := [Render, Effect]

  lemma RefreshReachesTheRef()
    ensures Inputs(REFRESH) == [] && MarksOf(Handled(REFRESH, "")).seen == Some(0)
  {
    var ms: seq<Moment<SseEvent>> := [Render, Effect];
    assert REFRESH[1..] == [Effect] && REFRESH[1..][1..] == [] && REFRESH[..1] == [Render] && REFRESH[..1][..0] == [];
    assert Handled(REFRESH[1..], "") == [Effect];
    assert Handled(REFRESH, "") == ms && ms[..1] == [Render] && ms[..1][..0] == [];
  }

  lemma OneDeltaIsStored(delta: string)
    ensures var ps := OneWord(delta);
            Number(FRESH, ps) == [TextDelta(Some(1), delta)] && Persists(ps, false) && Deltas(ps) == delta &&
            AssistantContent(LiveTimeline(ps)) == delta
  {
    var ps := OneWord(delta);
    assert ps[1..] == [] && [TextDelta(Some(1), delta)][1..] == [];
    NumberShort(FRESH, ps);
    FoldShort(EMPTY, Number(FRESH, ps));
    assert 1 in LiveTimeline(ps).events;
    TextConservation(ps);
    AppendNil(delta);
  }

  lemma ThreeFrames(a: WireItem, b: WireItem, c: WireItem)
    requires a.Frame? && b.Frame? && c.Frame?
    ensures PacketsOf([a, b, c]) == [a.packet, b.packet, c.packet]
  {
    assert [a, b, c][1..] == [b, c] && [b, c][1..] == [c] && [c][1..] == [];
    assert PacketsOf([c]) == [c.packet] && PacketsOf([b, c]) == [b.packet, c.packet];
  }

  // ---------------------------------------------------------- turns without a row

  /** A turn that is not stored (an error, no content, or a refused write): nothing is
      committed under any schedule, and the turn in flight shows exactly the server's timeline
      and text. */
  lemma UnstoredTurnEndToEnd(codec: Codec, c: Client, turn: Sending, ps: seq<Packet>, id: Id, sessionId: Id, conflict: bool,
                             items: seq<WireItem>, ticks: seq<Moment<string>>)
    requires Faithful(codec) && FromAgent(ps) && NewTo(c, turn.clientMessageId) && Reads(codec, ticks, items)
    requires !Persists(ps, conflict) && PacketsOf(items) == LiveWire(ps, id, sessionId, conflict)
    ensures var d := AtEnd(codec, Send(c, turn), ticks);
            var t := LiveTimeline(ps);
            d.committed == c.committed && d.chat.Some? &&
            (d.chat.value.status == Failed <==> t.sawError) &&
            ServerEventsFromTurn(d.chat.value) == InOrder(t) &&
            TurnText(d.chat.value) == AssistantContent(t) == Deltas(ps)
  {
    var sent := LiveBody(ps, id, sessionId);
    ReadsParse(codec, ticks, items);
    LiveBodyIsStamped(ps, id, sessionId);
    AppendNil(sent);
    ReducerShows(codec, c, turn, sent, Handled(ticks, ""));
    assert sent[..|sent|] == sent;
    TextConservation(ps);
  }

  // ------------------------------------------------------------- replayed turns

  lemma {:induction false} ReplayIsStamped(es: seq<Event>)
    requires forall i :: 0 <= i < |es| ==> (es[i].ToolEvent? ==> WellNamed(es[i].tool))
    ensures Stamped(Replay(es))
    decreases |es|
  {
    if es != [] {
      ReplayIsStamped(es[..|es| - 1]);
      var a, b := Replay(es[..|es| - 1]), ReplayEvent(es[|es| - 1]);
      assert forall i :: 0 <= i < |a + b| ==> (a + b)[i] == if i < |a| then a[i] else b[i - |a|];
      assert forall i :: 0 <= i < |b| ==> b[i].IsContent() && b[i].step.Some? && PacketNamed(b[i]);
    }
  }

  /** A replayed row, under every schedule: a client that is sent the replay of a well-formed
      row commits that row if and only if no content was handled after the render that its ref
      shows. */
  lemma ReplayEndToEnd(codec: Codec, c: Client, turn: Sending, row: AssistantRow,
                       items: seq<WireItem>, ticks: seq<Moment<string>>)
    requires Faithful(codec) && NewTo(c, turn.clientMessageId) && Reads(codec, ticks, items)
    requires row.events.Some? && row.events.value != [] && Ascending(row.events.value) && AllSettled(row.events.value)
    requires row.content == JoinText(row.events.value)
    requires forall i :: 0 <= i < |row.events.value| ==> (row.events.value[i].ToolEvent? ==> WellNamed(row.events.value[i].tool))
    requires PacketsOf(items) == [Start(row.id, row.sessionId)] + Replay(row.events.value) + [Finish("stop", row.id)]
    ensures Delivered(AtEnd(codec, Send(c, turn), ticks), c.committed, RowPair(turn, row))
            <==> AllShown([Start(row.id, row.sessionId)] + Replay(row.events.value), Seen(ticks))
  {
    var es := row.events.value;
    ReplayIsStamped(es);
    FramedTurnCommits(codec, c, turn, row.id, row.sessionId, Replay(es), items, ticks);
    ReplayAdds(es);
    StartAdds(row.id, row.sessionId, Replay(es));
    CompleteIsAllShown([Start(row.id, row.sessionId)] + Replay(es), Seen(ticks));
    RowOfReplay(turn, row);
  }

  lemma RowOfReplay(turn: Sending, row: AssistantRow)
    requires row.events.Some? && row.events.value != [] && Ascending(row.events.value) && AllSettled(row.events.value)
    requires row.content == JoinText(row.events.value)
    ensures PairOf(turn, row.id, FoldAll(EMPTY, Replay(row.events.value))) == RowPair(turn, row)
  {
    var es := row.events.value;
    ReplayFolds(es);
    InOrderByStep(es);
    ByStepKeys(es, es[0].step);
  }
}
