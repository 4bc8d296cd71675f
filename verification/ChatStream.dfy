/** Step numbering, the server's timeline and its replay (app/api/_chat_stream.py). */
module ChatStream {
  import opened Prelude
  import opened Packets

  // -------------------------------------------------------------- numbering

  /** The fields of a `StepAssigner`. */
  datatype Assigner = Assigner(next: nat, textStep: Option<nat>, toolSteps: map<string, nat>, lastKind: Option<Kind>)

  const FRESH: Assigner := Assigner(1, None, map[], None)

  /** The assigner after a packet, and the step the packet gets. */
  function Assign(a: Assigner, p: Packet): (Assigner, Option<nat>) {
    if p.TextDelta? then
      var b := if a.lastKind == Some(TextKind) then a else a.(textStep := Some(a.next), next := a.next + 1);
      (b.(lastKind := Some(TextKind)), b.textStep)
    else if p.IsTool() then
      var b := if p.toolCallId in a.toolSteps then a
               else a.(toolSteps := a.toolSteps[p.toolCallId := a.next], next := a.next + 1, textStep := None);
      (b.(lastKind := Some(ToolKind)), Some(b.toolSteps[p.toolCallId]))
    else (a, None)
  }

  /** The packet as it goes on the wire. */
  function Stamp(a: Assigner, p: Packet): Packet {
    match Assign(a, p).1
    case Some(s) => p.WithStep(s)
    case None => p
  }

  /** The numbered packet stream of a turn. */
  function Number(a: Assigner, ps: seq<Packet>): (qs: seq<Packet>)
    ensures |qs| == |ps|
    decreases |ps|
  {
    if ps == [] then [] else [Stamp(a, ps[0])] + Number(Assign(a, ps[0]).0, ps[1..])
  }

  function AssignerAfter(a: Assigner, ps: seq<Packet>): Assigner
    decreases |ps|
  {
    if ps == [] then a else AssignerAfter(Assign(a, ps[0]).0, ps[1..])
  }

  // --------------------------------------------------------------- timeline

  /** The fields of a `StreamState`. */
  datatype Timeline = Timeline(events: map<nat, Event>, sawError: bool)

  const EMPTY: Timeline := Timeline(map[], false)

  /** The record that a tool packet at `step` refines. */
  function ToolRecord(t: Timeline, step: nat, toolCallId: string, tool: string): Event {
    if step in t.events && t.events[step].ToolEvent? then t.events[step]
    else ToolEvent(step, toolCallId, tool, None, None, None, None)
  }

  function FoldPacket(t: Timeline, p: Packet): Timeline {
    match p
    case TextDelta(Some(s), delta) =>
      var e := if s in t.events && t.events[s].TextEvent?
               then t.events[s].(content := t.events[s].content + delta)
               else TextEvent(s, delta);
      t.(events := t.events[s := e])
    case ErrorPacket(_, _) => t.(sawError := true)
    case ToolStart(Some(s), id, tool) =>
      t.(events := t.events[s := ToolRecord(t, s, id, tool)])
    case ToolCall(Some(s), id, tool, args) =>
      t.(events := t.events[s := ToolRecord(t, s, id, tool).(arguments := Some(args))])
    case ToolEnd(Some(s), id, tool, status, result, error) =>
      t.(events := t.events[s := ToolRecord(t, s, id, tool).(status := Some(status), result := result, error := error)])
    case _ => t
  }

  function FoldAll(t: Timeline, ps: seq<Packet>): Timeline
    decreases |ps|
  {
    if ps == [] then t else FoldAll(FoldPacket(t, ps[0]), ps[1..])
  }

  // ---------------------------------------------------------- sorted views

  ghost predicate Increasing(s: seq<nat>) { forall i, j :: 0 <= i < j < |s| ==> s[i] < s[j] }

  predicate Least(s: set<nat>, m: nat) { m in s && forall x :: x in s ==> m <= x }

  lemma LeastExists(s: set<nat>, y: nat)
    requires y in s
    ensures exists m :: Least(s, m)
    decreases y
  {
    if x :| x in s && x < y {
      LeastExists(s, x);
    } else {
      assert Least(s, y);
    }
  }

  lemma LeastInFront(s: set<nat>, m: nat, rest: seq<nat>)
    requires Least(s, m) && Increasing(rest) && forall x :: x in rest <==> x in s - {m}
    ensures Increasing([m] + rest) && forall x :: x in [m] + rest <==> x in s
  {
    var all := [m] + rest;
    forall i, j | 0 <= i < j < |all| ensures all[i] < all[j] {
      assert all[j] == rest[j - 1] && rest[j - 1] in rest;
    }
  }

  /** `sorted(keys)`. */
  function Sorted(s: set<nat>): (r: seq<nat>)
    ensures Increasing(r)
    ensures forall x :: x in r <==> x in s
  {
    if s == {} then []
    else
      assert exists m :: Least(s, m) by {
        var y :| y in s;
        LeastExists(s, y);
      }
      var m :| Least(s, m);
      var rest := Sorted(s - {m});
      LeastInFront(s, m, rest);
      [m] + rest
  }

  function EventsAt(events: map<nat, Event>, steps: seq<nat>): (es: seq<Event>)
    requires forall s :: s in steps ==> s in events
    ensures |es| == |steps| && forall i :: 0 <= i < |es| ==> es[i] == events[steps[i]]
  {
    seq(|steps|, i requires 0 <= i < |steps| => events[steps[i]])
  }

  /** The timeline's events in step order. */
  function InOrder(t: Timeline): seq<Event> { EventsAt(t.events, Sorted(t.events.Keys)) }

  function EventsList(t: Timeline): Option<seq<Event>> {
    if t.events == map[] then None else Some(InOrder(t))
  }

  /** The contents of the text events of a list, joined. */
  function JoinText(es: seq<Event>): string {
    if es == [] then ""
    else (if es[0].TextEvent? then es[0].content else "") + JoinText(es[1..])
  }

  function AssistantContent(t: Timeline): string { JoinText(InOrder(t)) }

  predicate ShouldPersist(t: Timeline) { !t.sawError && t.events != map[] }

  // ------------------------------------------------------------ the classes

  class StepAssigner {
    var next: nat
    var textStep: Option<nat>
    var toolSteps: map<string, nat>
    var lastKind: Option<Kind>

    constructor ()
      ensures View() == FRESH
    {
      next, textStep, toolSteps, lastKind := 1, None, map[], None;
    }

    function View(): Assigner
      reads this
    {
      Assigner(next, textStep, toolSteps, lastKind)
    }

    method StepFor(packet: Packet) returns (step: Option<nat>)
      modifies this
      ensures (View(), step) == Assign(old(View()), packet)
    {
      if packet.TextDelta? {
        if lastKind != Some(TextKind) {
          textStep := Some(next);
          next := next + 1;
        }
        lastKind := Some(TextKind);
        return textStep;
      } else if packet.IsTool() {
        var id := packet.toolCallId;
        if id !in toolSteps {
          toolSteps := toolSteps[id := next];
          next := next + 1;
          textStep := None;
        }
        lastKind := Some(ToolKind);
        return Some(toolSteps[id]);
      }
      return None;
    }
  }

  class StreamState {
    var events: map<nat, Event>
    var sawError: bool

    constructor ()
      ensures View() == EMPTY
    {
      events, sawError := map[], false;
    }

    function View(): Timeline
      reads this
    {
      Timeline(events, sawError)
    }

    method Fold(packet: Packet)
      modifies this
      ensures View() == FoldPacket(old(View()), packet)
    {
      match packet {
        case TextDelta(Some(step), delta) =>
          if step in events && events[step].TextEvent? {
            events := events[step := events[step].(content := events[step].content + delta)];
          } else {
            events := events[step := TextEvent(step, delta)];
          }
        case ErrorPacket(_, _) =>
          sawError := true;
        case ToolStart(Some(step), id, tool) =>
          var record := EnsureToolRecord(step, id, tool);
        case ToolCall(Some(step), id, tool, arguments) =>
          var record := EnsureToolRecord(step, id, tool);
          events := events[step := record.(arguments := Some(arguments))];
        case ToolEnd(Some(step), id, tool, status, result, error) =>
          var record := EnsureToolRecord(step, id, tool);
          events := events[step := record.(status := Some(status), result := result, error := error)];
        case _ =>
      }
    }

    /** `_tool_record`: the stored record of a step, created when there is none. */
    method EnsureToolRecord(step: nat, toolCallId: string, tool: string) returns (record: Event)
      modifies this
      ensures record == ToolRecord(old(View()), step, toolCallId, tool) && record.ToolEvent?
      ensures events == old(events)[step := record] && sawError == old(sawError)
    {
      if step in events && events[step].ToolEvent? { return events[step]; }
      record := ToolEvent(step, toolCallId, tool, None, None, None, None);
      events := events[step := record];
    }
  }

  // -------------------------------------------------------------- the turns

  /** What `run_agent_stream` yields: text, tool and error packets. The envelope is the
      chat layer's. */
  ghost predicate AgentOnly(packets: seq<Packet>) {
    forall i :: 0 <= i < |packets| ==> packets[i].IsContent() || packets[i].ErrorPacket?
  }

  predicate KnownPacket(p: Packet) { p.IsTool() ==> p.tool in TOOL_NAMES }

  /** Every tool packet is of a registered tool. */
  ghost predicate Registered(packets: seq<Packet>) { forall i :: 0 <= i < |packets| ==> KnownPacket(packets[i]) }

  /** An assistant row of `messages`. */
  datatype AssistantRow = AssistantRow(id: Id, sessionId: Id, content: string, events: Option<seq<Event>>)

  /** What a live turn does with the packets of its agent: the timeline, the packets
      on the wire and the row it stores. A conflict is the database's refusal of a
      second reply to the same message. */
  function LiveTimeline(packets: seq<Packet>): Timeline { FoldAll(EMPTY, Number(FRESH, packets)) }

  predicate Persists(packets: seq<Packet>, conflict: bool) { ShouldPersist(LiveTimeline(packets)) && !conflict }

  function LiveRow(packets: seq<Packet>, id: Id, sessionId: Id): AssistantRow {
    var t := LiveTimeline(packets);
    AssistantRow(id, sessionId, AssistantContent(t), EventsList(t))
  }

  function LiveWire(packets: seq<Packet>, id: Id, sessionId: Id, conflict: bool): seq<Packet> {
    [Start(id, sessionId)] + Number(FRESH, packets) +
    (if Persists(packets, conflict) then [Finish("stop", id)] else [])
  }

  method StreamTurn(packets: seq<Packet>, id: Id, sessionId: Id, conflict: bool)
    returns (wire: seq<Packet>, row: Option<AssistantRow>)
    ensures wire == LiveWire(packets, id, sessionId, conflict)
    ensures row == if Persists(packets, conflict) then Some(LiveRow(packets, id, sessionId)) else None
  {
    wire := [Start(id, sessionId)];
    var assigner := new StepAssigner();
    var state := new StreamState();
    ghost var start := wire;
    assert packets[0..] == packets;
    for i := 0 to |packets|
      invariant fresh(assigner) && fresh(state)
      invariant Midway(start, packets, i, assigner.View(), state.View(), wire)
    {
      MidwayStep(start, packets, i, assigner.View(), state.View(), wire);
      var packet := packets[i];
      var step := assigner.StepFor(packet);
      if step.Some? && packet.IsContent() {
        packet := packet.WithStep(step.value);
      }
      state.Fold(packet);
      wire := wire + [packet];
    }
    MidwayEnds(start, packets, assigner.View(), state.View(), wire);
    if state.sawError || state.events == map[] || conflict {
      AppendNil(wire);
      return wire, None;
    }
    row := Some(AssistantRow(id, sessionId, AssistantContent(state.View()), EventsList(state.View())));
    wire := wire + [Finish("stop", id)];
  }

  /** After `i` packets: what was sent after `start`, and what is still to be numbered and
      folded. */
  ghost predicate Midway(start: seq<Packet>, packets: seq<Packet>, i: nat, a: Assigner, t: Timeline, wire: seq<Packet>) {
    && i <= |packets|
    && start + Number(FRESH, packets) == wire + Number(a, packets[i..])
    && LiveTimeline(packets) == FoldAll(t, Number(a, packets[i..]))
  }

  lemma MidwayStep(start: seq<Packet>, packets: seq<Packet>, i: nat, a: Assigner, t: Timeline, wire: seq<Packet>)
    requires i < |packets| && Midway(start, packets, i, a, t, wire)
    ensures var q := Stamp(a, packets[i]);
            Midway(start, packets, i + 1, Assign(a, packets[i]).0, FoldPacket(t, q), wire + [q])
  {
    DropDrop(packets, i, 1);
    var q := Stamp(a, packets[i]);
    var rest := Number(Assign(a, packets[i]).0, packets[i + 1..]);
    assert Number(a, packets[i..]) == [q] + rest;
    assert ([q] + rest)[1..] == rest;
    AppendAssoc(wire, [q], rest);
  }

  lemma MidwayEnds(start: seq<Packet>, packets: seq<Packet>, a: Assigner, t: Timeline, wire: seq<Packet>)
    requires Midway(start, packets, |packets|, a, t, wire)
    ensures wire == start + Number(FRESH, packets) && t == LiveTimeline(packets)
  {
    AppendNil(wire);
  }

  /** The packets that `replay_stream` regenerates for one stored event. */
  function ReplayEvent(e: Event): seq<Packet> {
    match e
    case TextEvent(step, content) => [TextDelta(Some(step), content)]
    case ToolEvent(step, id, tool, arguments, status, result, error) =>
      [ToolStart(Some(step), id, tool)]
      + (if arguments.Some? then [ToolCall(Some(step), id, tool, arguments.value)] else [])
      + (if status.Some? then [ToolEnd(Some(step), id, tool, status.value, result, error)] else [])
  }

  function Replay(es: seq<Event>): seq<Packet> {
    if es == [] then [] else Replay(es[..|es| - 1]) + ReplayEvent(es[|es| - 1])
  }

  predicate KnownTool(e: Event) { e.ToolEvent? ==> e.tool in TOOL_NAMES }

  /** How many events precede the first one of an unregistered tool. */
  function KnownPrefix(es: seq<Event>): (n: nat)
    ensures n <= |es| && (forall i :: 0 <= i < n ==> KnownTool(es[i])) && (n < |es| ==> !KnownTool(es[n]))
  {
    if es == [] || !KnownTool(es[0]) then 0 else 1 + KnownPrefix(es[1..])
  }

  function StoredEvents(row: AssistantRow): seq<Event> {
    if row.events.Some? then row.events.value else []
  }

  lemma KnownStep(es: seq<Event>, i: nat)
    requires i < |es| && i <= KnownPrefix(es)
    ensures if KnownTool(es[i]) then i < KnownPrefix(es) else i == KnownPrefix(es)
  {
  }

  lemma ReplaySnoc(es: seq<Event>, i: nat, before: seq<Packet>)
    requires i < |es|
    ensures before + Replay(es[..i + 1]) == (before + Replay(es[..i])) + ReplayEvent(es[i])
  {
    assert es[..i + 1][..i] == es[..i];
    AppendAssoc(before, Replay(es[..i]), ReplayEvent(es[i]));
  }

  /** Replays a stored row. An event of an unregistered tool raises `KeyError` after
      the packets of the events before it. */
  method ReplayStream(cached: AssistantRow) returns (wire: seq<Packet>, raised: bool)
    ensures raised == (KnownPrefix(StoredEvents(cached)) < |StoredEvents(cached)|)
    ensures wire == [Start(cached.id, cached.sessionId)]
                  + Replay(StoredEvents(cached)[..KnownPrefix(StoredEvents(cached))])
                  + (if raised then [] else [Finish("stop", cached.id)])
  {
    wire := [Start(cached.id, cached.sessionId)];
    var es := StoredEvents(cached);
    ghost var start, known := wire, KnownPrefix(es);
    for i := 0 to |es|
      invariant i <= known
      invariant wire == start + Replay(es[..i])
    {
      var event := es[i];
      ReplaySnoc(es, i, start);
      KnownStep(es, i);
      if event.ToolEvent? && event.tool !in TOOL_NAMES {
        AppendNil(wire);
        return wire, true;
      }
      wire := wire + ReplayEvent(event);
    }
    assert es[..|es|] == es;
    wire := wire + [Finish("stop", cached.id)];
    raised := false;
  }
}
