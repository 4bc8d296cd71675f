/** What the client makes of a stream of events: routing, reducing and adapting agree with
    the server's timeline, and what `finish` commits depends on which renders came before it
    (mobile/lib/api/packet-router.ts, mobile/lib/chat). */
module ClientLaws {
  import opened Prelude
  import opened Packets
  import opened SseParser
  import opened ChatStream
  import opened TimelineLaws
  import opened ReplayLaws
  import opened ChatClient
  import opened Wire

  // ---------------------------------------------------------------- routing

  /** What a packet means to the client. */
  function Meaning(p: Packet): Handling {
    match p
    case Start(id, _) => Dispatch(PacketStart(id))
    case TextDelta(Some(s), delta) => Dispatch(PacketText(s, delta))
    case ToolStart(Some(s), id, tool) => Dispatch(PacketToolStart(s, id, tool))
    case ToolCall(Some(s), id, tool, arguments) => Dispatch(PacketToolCall(s, id, tool, arguments))
    case ToolEnd(Some(s), id, tool, status, result, error) => Dispatch(PacketToolEnd(s, id, tool, status, result, error))
    case ErrorPacket(code, message) => Dispatch(PacketError(code, message))
    case Finish(_, id) => Commit(id)
    case _ => Ignore
  }

  lemma LastCharDecides(s: string, suffix: string, other: string)
    requires suffix != "" && other != "" && suffix[|suffix| - 1] != other[|other| - 1]
    ensures !EndsWith(s + suffix, other)
    ensures s + suffix != other
  {
    var t := s + suffix;
    assert t[|t| - 1] == suffix[|suffix| - 1];
    if |other| <= |t| {
      assert t[|t| - |other|..][|other| - 1] == t[|t| - 1];
    }
  }

  lemma EndsWithSelf(s: string, suffix: string)
    ensures EndsWith(s + suffix, suffix) && (s + suffix)[..|s + suffix| - |suffix|] == s
  {
  }

  /** A tool packet's type is none of the envelope types and gives its tool back. */
  lemma StartTypes(tool: string)
    ensures var t := tool + "_start";
            t !in {"start", "finish", "error", "text_delta"} && ToolNameFromType(t) == Some(tool)
  {
    LastCharDecides(tool, "_start", "finish");
    LastCharDecides(tool, "_start", "error");
    LastCharDecides(tool, "_start", "text_delta");
    EndsWithSelf(tool, "_start");
    assert |tool + "_start"| != |"start"|;
  }

  lemma CallTypes(tool: string)
    ensures var t := tool + "_call";
            t !in {"start", "finish", "error", "text_delta"} && ToolNameFromType(t) == Some(tool) && !EndsWith(t, "_start")
  {
    LastCharDecides(tool, "_call", "start");
    LastCharDecides(tool, "_call", "finish");
    LastCharDecides(tool, "_call", "error");
    LastCharDecides(tool, "_call", "text_delta");
    LastCharDecides(tool, "_call", "_start");
    EndsWithSelf(tool, "_call");
  }

  lemma EndTypes(tool: string)
    ensures var t := tool + "_end";
            t !in {"start", "finish", "error", "text_delta"} && ToolNameFromType(t) == Some(tool)
              && !EndsWith(t, "_start") && !EndsWith(t, "_call")
  {
    LastCharDecides(tool, "_end", "start");
    LastCharDecides(tool, "_end", "finish");
    LastCharDecides(tool, "_end", "error");
    LastCharDecides(tool, "_end", "text_delta");
    LastCharDecides(tool, "_end", "_start");
    LastCharDecides(tool, "_end", "_call");
    EndsWithSelf(tool, "_end");
  }

  lemma RoutesStart(codec: Codec, p: Packet)
    requires codec.load(codec.dump(p)) == Some(p) && PacketNamed(p) && p.ToolStart?
    ensures RoutePacket(codec, EventOfPacket(codec, p)) == Meaning(p)
  {
    StartTypes(p.tool);
    EndsWithSelf(p.tool, "_start");
  }

  lemma RoutesCall(codec: Codec, p: Packet)
    requires codec.load(codec.dump(p)) == Some(p) && PacketNamed(p) && p.ToolCall?
    ensures RoutePacket(codec, EventOfPacket(codec, p)) == Meaning(p)
  {
    CallTypes(p.tool);
    EndsWithSelf(p.tool, "_call");
  }

  lemma RoutesEnd(codec: Codec, p: Packet)
    requires codec.load(codec.dump(p)) == Some(p) && PacketNamed(p) && p.ToolEnd?
    ensures RoutePacket(codec, EventOfPacket(codec, p)) == Meaning(p)
  {
    EndTypes(p.tool);
    EndsWithSelf(p.tool, "_end");
  }

  lemma RoutesEnvelope(codec: Codec, p: Packet)
    requires codec.load(codec.dump(p)) == Some(p) && !p.IsTool()
    ensures RoutePacket(codec, EventOfPacket(codec, p)) == Meaning(p)
  {
  }

  /** The router recovers the meaning of every well-named packet from its wire form. */
  lemma RoutingRecoversMeaning(codec: Codec, p: Packet)
    requires Faithful(codec) && PacketNamed(p)
    ensures RoutePacket(codec, EventOfPacket(codec, p)) == Meaning(p)
  {
    assert codec.load(codec.dump(p)) == Some(p);
    if p.ToolStart? {
      RoutesStart(codec, p);
    } else if p.ToolCall? {
      RoutesCall(codec, p);
    } else if p.ToolEnd? {
      RoutesEnd(codec, p);
    } else {
      RoutesEnvelope(codec, p);
    }
  }

  // -------------------------------------------------------------- simulation

  function AsState(e: Event): EventState {
    match e
    case TextEvent(step, content) => TextState(step, content)
    case ToolEvent(step, id, tool, arguments, status, result, error) =>
      ToolState(step, id, tool, arguments, status, result, error)
  }

  function AsStates(events: map<nat, Event>): map<nat, EventState> {
    map s | s in events :: AsState(events[s])
  }

  /** The client's turn shows the server's timeline. */
  ghost predicate Mirrors(turn: ActiveTurn, t: Timeline) {
    turn.events == AsStates(t.events) && (turn.status == Failed <==> t.sawError)
  }

  lemma AsStatesUpdate(events: map<nat, Event>, s: nat, e: Event)
    ensures AsStates(events[s := e]) == AsStates(events)[s := AsState(e)]
  {
  }

  /** One packet keeps the two sides equal. */
  lemma SimulationStep(turn: ActiveTurn, t: Timeline, p: Packet)
    requires Mirrors(turn, t) && !p.Finish? && (p.IsContent() ==> p.step.Some?)
    ensures Meaning(p).Dispatch? || Meaning(p).Ignore?
    ensures var chat := if Meaning(p).Dispatch? then Reduce(Some(turn), Meaning(p).action) else Some(turn);
            chat.Some? && Mirrors(chat.value, FoldPacket(t, p)) &&
            chat.value.clientMessageId == turn.clientMessageId && chat.value.userText == turn.userText
  {
    match p {
      case TextDelta(Some(s), _) => AsStatesUpdate(t.events, s, FoldPacket(t, p).events[s]);
      case ToolStart(Some(s), _, _) => AsStatesUpdate(t.events, s, FoldPacket(t, p).events[s]);
      case ToolCall(Some(s), _, _, _) => AsStatesUpdate(t.events, s, FoldPacket(t, p).events[s]);
      case ToolEnd(Some(s), _, _, _, _, _) => AsStatesUpdate(t.events, s, FoldPacket(t, p).events[s]);
      case _ =>
    }
  }

  // ------------------------------------------------------- the adapted views

  lemma InsertLast(e: EventState, es: seq<EventState>)
    requires es != [] ==> es[|es| - 1].step < e.step
    ensures InsertByStep(e, es) == es + [e]
  {
  }

  lemma {:induction false} SortedStaysSorted(es: seq<EventState>)
    requires forall i, j :: 0 <= i < j < |es| ==> es[i].step < es[j].step
    ensures SortByStep(es) == es
    decreases |es|
  {
    if es != [] {
      var init, last := es[..|es| - 1], es[|es| - 1];
      SortedStaysSorted(init);
      InsertLast(last, init);
      assert es == init + [last];
    }
  }

  /** The client's sorted list is the server's. */
  lemma AdaptedEventsAgree(turn: ActiveTurn, t: Timeline)
    requires turn.events == AsStates(t.events) && Sane(t)
    ensures ServerEventsFromTurn(turn) == InOrder(t)
  {
    var vs := ValuesAgree(turn, t);
    SortedStaysSorted(vs);
    MappedAgree(vs, InOrder(t));
  }

  lemma MappedAgree(vs: seq<EventState>, es: seq<Event>)
    requires |vs| == |es| && forall i :: 0 <= i < |vs| ==> ToServerEvent(vs[i]) == es[i]
    ensures MapEvents(vs) == es
  {
  }

  lemma ValueAgrees(turn: ActiveTurn, t: Timeline, i: nat)
    requires turn.events == AsStates(t.events) && turn.events.Keys == t.events.Keys && Sane(t) && i < |Values(turn.events)|
    ensures i < |InOrder(t)| && i < |Sorted(t.events.Keys)|
    ensures ToServerEvent(Values(turn.events)[i]) == InOrder(t)[i]
    ensures Values(turn.events)[i].step == Sorted(t.events.Keys)[i]
  {
    var k := Sorted(t.events.Keys)[i];
    assert k in Sorted(t.events.Keys) && k in t.events && turn.events[k] == AsState(t.events[k]);
  }

  lemma ValuesAgree(turn: ActiveTurn, t: Timeline) returns (vs: seq<EventState>)
    requires turn.events == AsStates(t.events) && Sane(t)
    ensures vs == Values(turn.events) && |vs| == |InOrder(t)|
    ensures forall i :: 0 <= i < |vs| ==> ToServerEvent(vs[i]) == InOrder(t)[i]
    ensures forall i, j :: 0 <= i < j < |vs| ==> vs[i].step < vs[j].step
  {
    vs := Values(turn.events);
    assert turn.events.Keys == t.events.Keys;
    forall i | 0 <= i < |vs| ensures ToServerEvent(vs[i]) == InOrder(t)[i] && vs[i].step == Sorted(t.events.Keys)[i] {
      ValueAgrees(turn, t, i);
    }
  }

  lemma {:induction false} JoinedTextAgrees(es: seq<Event>)
    ensures Concat(TextParts(es)) == JoinText(es)
  {
    if es != [] {
      JoinedTextAgrees(es[1..]);
      if es[0].TextEvent? { assert ([es[0].content] + TextParts(es[1..]))[1..] == TextParts(es[1..]); }
      else { AppendNil(TextParts(es[1..])); AppendNil(JoinText(es[1..])); }
    }
  }

  /** The pair made of a turn that shows a timeline holds the timeline's content and events. */
  lemma CommitAgrees(turn: ActiveTurn, t: Timeline, id: Id)
    requires turn.events == AsStates(t.events) && Sane(t)
    ensures CommitTurn(turn, id) == PairOf(Sending(turn.clientMessageId, turn.userText), id, t)
  {
    AdaptedEventsAgree(turn, t);
    JoinedTextAgrees(InOrder(t));
    if t.events == map[] {
      assert Sorted(t.events.Keys) == [];
    } else {
      var s :| s in t.events;
      assert s in Sorted(t.events.Keys);
    }
  }

  /** The pair of messages with a timeline's content and events. */
  function PairOf(turn: Sending, id: Id, t: Timeline): Committed {
    Committed(turn.clientMessageId, turn.userText, id, AssistantContent(t), EventsList(t))
  }

  // ------------------------------------------------------ following a stream

  /** Numbered content and the other packets that do not end a turn. */
  ghost predicate Stamped(ps: seq<Packet>) {
    forall i :: 0 <= i < |ps| ==> PacketNamed(ps[i]) && !ps[i].Finish? && (ps[i].IsContent() ==> ps[i].step.Some?)
  }

  /** The timeline after the first `n` packets. */
  function After(ps: seq<Packet>, n: nat): Timeline
    requires n <= |ps|
  {
    FoldAll(EMPTY, ps[..n])
  }

  /** A state that shows the first `n` packets of a turn, or one from before the turn. */
  ghost predicate Shows(state: ChatState, turn: Sending, ps: seq<Packet>, n: Option<nat>) {
    match n
    case None => state.Some? ==> state.value.clientMessageId != turn.clientMessageId
    case Some(k) =>
      && k <= |ps| && state.Some?
      && Sending(state.value.clientMessageId, state.value.userText) == turn
      && Mirrors(state.value, After(ps, k))
  }

  /** The reducer, the last render and the ref each show as many packets as the marks say. */
  ghost predicate Following(c: Client, turn: Sending, ps: seq<Packet>, m: Marks, history: seq<Committed>) {
    && Shows(c.chat, turn, ps, Some(m.taken)) && Shows(c.rendered, turn, ps, m.rendered) && Shows(c.ref, turn, ps, m.seen)
    && c.committed == history
  }

  /** The client has seen nothing of this message before. */
  predicate NewTo(c: Client, clientMessageId: Id) {
    && (c.rendered.Some? ==> c.rendered.value.clientMessageId != clientMessageId)
    && (c.ref.Some? ==> c.ref.value.clientMessageId != clientMessageId)
  }

  lemma SendFollows(c: Client, turn: Sending, ps: seq<Packet>)
    requires NewTo(c, turn.clientMessageId)
    ensures Following(Send(c, turn), turn, ps, Marks(0, None, None), c.committed)
  {
    assert ps[..0] == [] && AsStates(map[]) == map[];
  }

  lemma AfterNext(ps: seq<Packet>, n: nat)
    requires n < |ps|
    ensures After(ps, n + 1) == FoldPacket(After(ps, n), ps[n])
  {
    assert ps[..n + 1] == ps[..n] + [ps[n]];
    FoldAllAppend(EMPTY, ps[..n], [ps[n]]);
    FoldShort(After(ps, n), [ps[n]]);
  }

  /** The reducer takes the next packet. */
  lemma TakeFollows(codec: Codec, c: Client, turn: Sending, ps: seq<Packet>, n: nat)
    requires Faithful(codec) && Stamped(ps) && n < |ps| && Shows(c.chat, turn, ps, Some(n))
    ensures var d := HandleEvent(codec, c, EventOfPacket(codec, ps[n]));
            Shows(d.chat, turn, ps, Some(n + 1)) && d == c.(chat := d.chat)
  {
    RoutingRecoversMeaning(codec, ps[n]);
    SimulationStep(c.chat.value, After(ps, n), ps[n]);
    AfterNext(ps, n);
  }

  /** Over every numbered stream and every schedule, the reducer's turn mirrors the server's
      timeline, and the last render and the ref mirror it as it was. */
  lemma {:induction false} ClientMirrorsServer(codec: Codec, c: Client, turn: Sending, ps: seq<Packet>,
                                               ms: seq<Moment<SseEvent>>)
    requires Faithful(codec) && Stamped(ps) && Following(c, turn, ps, Marks(0, None, None), c.committed)
    requires Inputs(ms) <= EventsOfPackets(codec, ps)
    ensures MarksOf(ms).taken == |Inputs(ms)|
    ensures Following(DoAll(codec, c, ms), turn, ps, MarksOf(ms), c.committed)
  {
    if ms != [] {
      var init, last := ms[..|ms| - 1], ms[|ms| - 1];
      assert Inputs(init) <= Inputs(ms);
      ClientMirrorsServer(codec, c, turn, ps, init);
      if last.Take? {
        var n := |Inputs(init)|;
        assert last.input == Inputs(ms)[n] == EventsOfPackets(codec, ps)[n];
        TakeFollows(codec, DoAll(codec, c, init), turn, ps, n);
      }
    }
  }

  /** The id that the last `start` announced. */
  function LastStart(ps: seq<Packet>): Option<Id> {
    if ps == [] then None
    else if ps[|ps| - 1].Start? then Some(ps[|ps| - 1].assistantId)
    else LastStart(ps[..|ps| - 1])
  }

  /** The message of the last error. */
  function LastError(ps: seq<Packet>): Option<string> {
    if ps == [] then None
    else if ps[|ps| - 1].ErrorPacket? then Some(ps[|ps| - 1].message)
    else LastError(ps[..|ps| - 1])
  }

  /** The reply's id and the error that the turn shows are the last that were sent. */
  predicate ShowsEnvelope(state: ChatState, ps: seq<Packet>) {
    state.Some? && state.value.assistantMessageId == LastStart(ps) && state.value.errorMessage == LastError(ps)
  }

  lemma TakeShowsEnvelope(codec: Codec, c: Client, ps: seq<Packet>, n: nat)
    requires Faithful(codec) && Stamped(ps) && n < |ps| && ShowsEnvelope(c.chat, ps[..n])
    ensures ShowsEnvelope(HandleEvent(codec, c, EventOfPacket(codec, ps[n])).chat, ps[..n + 1])
  {
    RoutingRecoversMeaning(codec, ps[n]);
    assert ps[..n + 1][..n] == ps[..n] && ps[..n + 1][n] == ps[n];
  }

  /** Over every numbered stream and schedule, the turn in flight carries the id that was announced
      and the message of the last error. */
  lemma {:induction false} EnvelopeReachesTheClient(codec: Codec, c: Client, turn: Sending, ps: seq<Packet>,
                                                    ms: seq<Moment<SseEvent>>)
    requires Faithful(codec) && Stamped(ps) && Inputs(ms) <= EventsOfPackets(codec, ps)
    ensures ShowsEnvelope(DoAll(codec, Send(c, turn), ms).chat, ps[..|Inputs(ms)|])
  {
    if ms == [] {
      assert ps[..0] == [];
    } else {
      var init, last := ms[..|ms| - 1], ms[|ms| - 1];
      assert Inputs(init) <= Inputs(ms);
      EnvelopeReachesTheClient(codec, c, turn, ps, init);
      if last.Take? {
        var n := |Inputs(init)|;
        assert last.input == Inputs(ms)[n] == EventsOfPackets(codec, ps)[n];
        TakeShowsEnvelope(codec, DoAll(codec, Send(c, turn), init), ps, n);
      }
    }
  }

  // ------------------------------------------------------------ what `finish` does

  /** After `finish`: the pair of what the ref showed was committed; and when the ref came from
      before this turn, no pair of this turn was. */
  ghost predicate Finished(d: Client, turn: Sending, ps: seq<Packet>, id: Id, seen: Option<nat>, history: seq<Committed>) {
    match seen
    case Some(n) =>
      n <= |ps| && d.chat == None && d.committed == history + [PairOf(turn, id, After(ps, n))]
    case None =>
      || (d.chat.Some? && d.committed == history)
      || (d.chat == None && |d.committed| == |history| + 1 && d.committed[..|history|] == history
          && d.committed[|history|].userMessageId != turn.clientMessageId)
  }

  lemma FinishTaken(codec: Codec, c: Client, turn: Sending, ps: seq<Packet>, m: Marks, id: Id, history: seq<Committed>)
    requires Faithful(codec) && Following(c, turn, ps, m, history)
    ensures Finished(HandleEvent(codec, c, EventOfPacket(codec, Finish("stop", id))), turn, ps, id, m.seen, history)
  {
    var ev := EventOfPacket(codec, Finish("stop", id));
    RoutingRecoversMeaning(codec, Finish("stop", id));
    CommitHandled(codec, c, ev, id);
    RefCommitted(c, HandleEvent(codec, c, ev), turn, ps, m, id, history);
  }

  lemma CommitHandled(codec: Codec, c: Client, ev: SseEvent, id: Id)
    requires RoutePacket(codec, ev) == Commit(id)
    ensures HandleEvent(codec, c, ev) ==
            if c.ref.None? then c else c.(chat := None, committed := c.committed + [CommitTurn(c.ref.value, id)])
  {
  }

  lemma RefCommitted(c: Client, d: Client, turn: Sending, ps: seq<Packet>, m: Marks, id: Id, history: seq<Committed>)
    requires Following(c, turn, ps, m, history)
    requires d == if c.ref.None? then c else c.(chat := None, committed := c.committed + [CommitTurn(c.ref.value, id)])
    ensures Finished(d, turn, ps, id, m.seen, history)
  {
    if m.seen.Some? {
      FoldKeepsSane(EMPTY, ps[..m.seen.value]);
      CommitAgrees(c.ref.value, After(ps, m.seen.value), id);
    }
  }

  /** Over every stream that ends in `finish` and every schedule: the pair that the client
      commits is the timeline as the ref showed it when `finish` was handled. */
  lemma {:induction false} FinishCommitsTheRef(codec: Codec, c: Client, turn: Sending, ps: seq<Packet>, id: Id,
                                               ms: seq<Moment<SseEvent>>)
    requires Faithful(codec) && Stamped(ps) && Following(c, turn, ps, Marks(0, None, None), c.committed)
    requires Inputs(ms) == EventsOfPackets(codec, ps + [Finish("stop", id)])
    ensures Finished(DoAll(codec, c, ms), turn, ps, id, SeenAtLast(ms), c.committed)
    decreases |ms|
  {
    var init, last := ms[..|ms| - 1], ms[|ms| - 1];
    if last.Take? {
      assert Inputs(init) == EventsOfPackets(codec, ps) && last.input == EventOfPacket(codec, Finish("stop", id)) by {
        assert Inputs(ms) == Inputs(init) + [last.input];
        LastOfBoth(Inputs(init), last.input, EventsOfPackets(codec, ps), EventOfPacket(codec, Finish("stop", id)));
      }
      ClientMirrorsServer(codec, c, turn, ps, init);
      FinishTaken(codec, DoAll(codec, c, init), turn, ps, MarksOf(init), id, c.committed);
    } else {
      AppendNil(Inputs(init));
      FinishCommitsTheRef(codec, c, turn, ps, id, init);
    }
  }

  lemma LastOfBoth<T>(a: seq<T>, x: T, b: seq<T>, y: T)
    ensures a + [x] == b + [y] ==> a == b && x == y
  {
    if a + [x] == b + [y] {
      assert (a + [x])[..|a|] == a && (b + [y])[..|b|] == b;
      assert (a + [x])[|a|] == x && (b + [y])[|b|] == y;
    }
  }
}
