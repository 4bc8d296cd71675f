/** The mobile client: the packet router (mobile/lib/api/packet-router.ts), the turn
    reducer (mobile/lib/chat/reducer.ts), its adapter to the stored shape
    (mobile/lib/chat/adapter.ts) and the handlers that join them
    (mobile/lib/chat/use-chat-stream.ts). */
module ChatClient {
  import opened Prelude
  import opened Packets
  import opened SseParser
  import opened ChatStream

  // ---------------------------------------------------------------- reducer

  datatype EventState =
    | TextState(step: nat, content: string)
    | ToolState(step: nat, toolCallId: string, tool: string, arguments: Option<Json>,
                status: Option<Status>, result: Option<Json>, error: Option<string>)

  datatype TurnStatus = Streaming | Failed

  datatype ActiveTurn = ActiveTurn(
    clientMessageId: Id,
    assistantMessageId: Option<Id>,
    userText: string,
    events: map<nat, EventState>,
    status: TurnStatus,
    errorMessage: Option<string>)

  /** `ChatState`: the turn in flight, if any. */
  type ChatState = Option<ActiveTurn>

  datatype Action =
    | TurnStart(clientMessageId: Id, userText: string)
    | PacketStart(assistantMessageId: Id)
    | PacketText(step: nat, delta: string)
    | PacketToolStart(step: nat, toolCallId: string, tool: string)
    | PacketToolCall(step: nat, toolCallId: string, tool: string, arguments: Json)
    | PacketToolEnd(step: nat, toolCallId: string, tool: string,
                    status: Status, result: Option<Json>, error: Option<string>)
    | PacketError(code: string, message: string)
    | TurnClear

  function BaseTool(events: map<nat, EventState>, step: nat, toolCallId: string, tool: string): EventState {
    if step in events && events[step].ToolState? then events[step]
    else ToolState(step, toolCallId, tool, None, None, None, None)
  }

  function Reduce(state: ChatState, action: Action): ChatState {
    if action.TurnStart? then Some(ActiveTurn(action.clientMessageId, None, action.userText, map[], Streaming, None))
    else if action.TurnClear? || state.None? then None
    else
      var turn := state.value;
      match action
      case PacketStart(id) => Some(turn.(assistantMessageId := Some(id)))
      case PacketText(step, delta) =>
        var next := if step in turn.events && turn.events[step].TextState?
                    then turn.events[step].(content := turn.events[step].content + delta)
                    else TextState(step, delta);
        Some(turn.(events := turn.events[step := next]))
      case PacketToolStart(step, id, tool) =>
        Some(turn.(events := turn.events[step := BaseTool(turn.events, step, id, tool)]))
      case PacketToolCall(step, id, tool, arguments) =>
        var next := BaseTool(turn.events, step, id, tool).(arguments := Some(arguments));
        Some(turn.(events := turn.events[step := next]))
      case PacketToolEnd(step, id, tool, status, result, error) =>
        var next := BaseTool(turn.events, step, id, tool).(status := Some(status), result := result, error := error);
        Some(turn.(events := turn.events[step := next]))
      case PacketError(code, message) => Some(turn.(status := Failed, errorMessage := Some(message)))
      case _ => state
  }

  // ----------------------------------------------------------------- router

  /** JSON in and out: what the server prints and what `JSON.parse` reads. */
  datatype Codec = Codec(dump: Packet -> string, load: string -> Option<Packet>)

  /** The tool name in a tool packet's `type`. */
  function ToolNameFromType(typ: string): Option<string> {
    if EndsWith(typ, "_start") then Some(typ[..|typ| - 6])
    else if EndsWith(typ, "_call") then Some(typ[..|typ| - 5])
    else if EndsWith(typ, "_end") then Some(typ[..|typ| - 4])
    else None
  }

  /** What the client does with one event: dispatch an action, commit the turn, or nothing. */
  datatype Handling = Dispatch(action: Action) | Commit(assistantId: Id) | Ignore

  /** `onToolStart`, `onToolCall` and `onToolEnd`: they need a step and a tool name. */
  function HandleTool(p: Packet, phase: string): Handling
    requires p.IsTool()
  {
    match (ToolNameFromType(WireType(p)), p.step)
    case (Some(tool), Some(step)) =>
      if tool == "" then Ignore
      else if phase == "_start" then Dispatch(PacketToolStart(step, p.toolCallId, tool))
      else if phase == "_call" && p.ToolCall? then Dispatch(PacketToolCall(step, p.toolCallId, tool, p.arguments))
      else if phase == "_end" && p.ToolEnd? then
        Dispatch(PacketToolEnd(step, p.toolCallId, tool, p.status, p.result, p.error))
      else Ignore
    case _ => Ignore
  }

  /** `routePacket` with the handlers of `useChatStream`. */
  function RoutePacket(codec: Codec, ev: SseEvent): Handling {
    match codec.load(ev.data)
    case None => Ignore
    case Some(p) =>
      if ev.event == "start" then (if p.Start? then Dispatch(PacketStart(p.assistantId)) else Ignore)
      else if ev.event == "finish" then (if p.Finish? then Commit(p.assistantId) else Ignore)
      else if ev.event == "error" then (if p.ErrorPacket? then Dispatch(PacketError(p.code, p.message)) else Ignore)
      else if ev.event == "text_delta" then
        (if p.TextDelta? && p.step.Some? then Dispatch(PacketText(p.step.value, p.delta)) else Ignore)
      else if !p.IsTool() then Ignore
      else if EndsWith(ev.event, "_start") then HandleTool(p, "_start")
      else if EndsWith(ev.event, "_call") then HandleTool(p, "_call")
      else if EndsWith(ev.event, "_end") then HandleTool(p, "_end")
      else Ignore
  }

  // ---------------------------------------------------------------- adapter

  function ToServerEvent(state: EventState): Event {
    match state
    case TextState(step, content) => TextEvent(step, content)
    case ToolState(step, id, tool, arguments, status, result, error) =>
      ToolEvent(step, id, tool, arguments, status, result, error)
  }

  /** A stable sort by step, the last element inserted into the sorted others. */
  function InsertByStep(e: EventState, es: seq<EventState>): seq<EventState> {
    if es != [] && e.step < es[|es| - 1].step
    then InsertByStep(e, es[..|es| - 1]) + [es[|es| - 1]]
    else es + [e]
  }

  function SortByStep(es: seq<EventState>): seq<EventState> {
    if es == [] then [] else InsertByStep(es[|es| - 1], SortByStep(es[..|es| - 1]))
  }

  function MapEvents(es: seq<EventState>): (r: seq<Event>)
    ensures |r| == |es| && forall i :: 0 <= i < |es| ==> r[i] == ToServerEvent(es[i])
  {
    seq(|es|, i requires 0 <= i < |es| => ToServerEvent(es[i]))
  }

  /** `Object.values` of a record with integer keys: in key order. */
  function Values(events: map<nat, EventState>): (es: seq<EventState>)
    ensures |es| == |Sorted(events.Keys)|
    ensures forall i :: 0 <= i < |es| ==> Sorted(events.Keys)[i] in events && es[i] == events[Sorted(events.Keys)[i]]
  {
    var keys := Sorted(events.Keys);
    assert forall i :: 0 <= i < |keys| ==> keys[i] in events.Keys;
    seq(|keys|, i requires 0 <= i < |keys| => events[keys[i]])
  }

  function ServerEventsFromTurn(turn: ActiveTurn): seq<Event> { MapEvents(SortByStep(Values(turn.events))) }

  /** The contents of the text events. */
  function TextParts(es: seq<Event>): seq<string> {
    if es == [] then []
    else (if es[0].TextEvent? then [es[0].content] else []) + TextParts(es[1..])
  }

  function TurnText(turn: ActiveTurn): string { Concat(TextParts(ServerEventsFromTurn(turn))) }

  // ------------------------------------------------------------- the handlers

  /** The pair of messages that a finished turn hands to the history cache. */
  datatype Committed = Committed(userMessageId: Id, userText: string,
                                 assistantId: Id, content: string, events: Option<seq<Event>>)

  /** The reducer's state, the state that was last rendered, `activeTurnRef`, and the pairs
      handed over so far. */
  datatype Client = Client(chat: ChatState, rendered: ChatState, ref: ChatState, committed: seq<Committed>)

  function CommitTurn(turn: ActiveTurn, assistantId: Id): Committed {
    var events := ServerEventsFromTurn(turn);
    Committed(turn.clientMessageId, turn.userText, assistantId, Concat(TextParts(events)),
              if |events| > 0 then Some(events) else None)
  }

  /** `finish` commits the turn in the ref, which need not be the reducer's. */
  function HandleEvent(codec: Codec, c: Client, ev: SseEvent): Client {
    match RoutePacket(codec, ev)
    case Dispatch(action) => c.(chat := Reduce(c.chat, action))
    case Commit(id) =>
      if c.ref.None? then c
      else c.(chat := Reduce(c.chat, TurnClear), committed := c.committed + [CommitTurn(c.ref.value, id)])
    case Ignore => c
  }

  /** The message that a turn answers. */
  datatype Sending = Sending(clientMessageId: Id, userText: string)

  /** The client right after `sendMessage` dispatched `turn/start`. */
  function Send(c: Client, turn: Sending): Client {
    c.(chat := Reduce(c.chat, TurnStart(turn.clientMessageId, turn.userText)))
  }

  // ------------------------------------------------------------ the schedule

  /** One thing that happens while a stream is read: an input arrives, a render takes the
      reducer's state, or the effect of the last render runs. */
  datatype Moment<T> = Take(input: T) | Render | Effect

  /** The inputs of a schedule, in order. */
  function Inputs<T>(ms: seq<Moment<T>>): seq<T> {
    if ms == [] then []
    else Inputs(ms[..|ms| - 1]) + (if ms[|ms| - 1].Take? then [ms[|ms| - 1].input] else [])
  }

  function Do(codec: Codec, c: Client, moment: Moment<SseEvent>): Client {
    match moment
    case Take(ev) => HandleEvent(codec, c, ev)
    case Render => c.(rendered := c.chat)
    case Effect => c.(ref := c.rendered)
  }

  function DoAll(codec: Codec, c: Client, ms: seq<Moment<SseEvent>>): Client {
    if ms == [] then c else Do(codec, DoAll(codec, c, ms[..|ms| - 1]), ms[|ms| - 1])
  }

  function Takes(evs: seq<SseEvent>): (ms: seq<Moment<SseEvent>>)
    ensures |ms| == |evs| && forall i :: 0 <= i < |ms| ==> ms[i] == Take(evs[i])
  {
    seq(|evs|, i requires 0 <= i < |evs| => Take(evs[i]))
  }

  /** A schedule of chunks, event by event. The events of one chunk are handled in one loop, so
      no render and no effect comes between them. */
  function Handled(ticks: seq<Moment<string>>, leftover: string): seq<Moment<SseEvent>>
    decreases |ticks|
  {
    if ticks == [] then []
    else
      match ticks[0]
      case Take(chunk) =>
        var split := OneShot(leftover + chunk);
        Takes(BlockEvents(split.blocks)) + Handled(ticks[1..], split.leftover)
      case Render => [Render] + Handled(ticks[1..], leftover)
      case Effect => [Effect] + Handled(ticks[1..], leftover)
  }

  /** What the client is left with when a stream has been read. */
  function AtEnd(codec: Codec, c: Client, ticks: seq<Moment<string>>): Client {
    DoAll(codec, c, Handled(ticks, ""))
  }

  /** How many inputs had been taken in all, at the last render, and at the render that the
      ref shows. */
  datatype Marks = Marks(taken: nat, rendered: Option<nat>, seen: Option<nat>)

  function MarksOf<T>(ms: seq<Moment<T>>): Marks {
    if ms == [] then Marks(0, None, None)
    else
      var m := MarksOf(ms[..|ms| - 1]);
      match ms[|ms| - 1]
      case Take(_) => m.(taken := m.taken + 1)
      case Render => m.(rendered := Some(m.taken))
      case Effect => m.(seen := m.rendered)
  }

  /** How many inputs the ref shows when the last one is taken; none if no render of this
      turn has reached it. */
  function SeenAtLast<T>(ms: seq<Moment<T>>): Option<nat> {
    if ms == [] then None
    else if ms[|ms| - 1].Take? then MarksOf(ms[..|ms| - 1]).seen
    else SeenAtLast(ms[..|ms| - 1])
  }
}
