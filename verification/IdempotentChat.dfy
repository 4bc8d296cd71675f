/** The chat endpoint as a protocol (app/api/chat.py, app/api/_chat_stream.py): any number
    of requests, whose database steps interleave in any order with each other and with
    sessions being created and deleted. */
module IdempotentChat {
  import opened Locations
  import opened Prelude
  import opened Packets
  import opened ChatStream
  import opened ReplayLaws
  import opened ChatStore

  // ------------------------------------------------------------- the protocol

  datatype Request = Request(userId: Id, sessionId: Id, clientMessageId: Id, message: string,
                             location: Option<ClientLocation>)

  /** How far a request has come. */
  datatype Phase =
    | Arrived
    | SessionFound
    | UserRecorded
    | Running(assistantId: Id)
    | Done(wire: seq<Packet>)
    | SessionMissing

  datatype State = State(store: Store, requests: seq<Request>, phases: seq<Phase>, issued: set<Id>)

  /** One database transaction of one request, or a session created or deleted. */
  datatype Action =
    | GetSession(r: nat)
    | RecordUser(r: nat, now: int)
    | Lookup(r: nat, newId: Id)
    | Complete(r: nat, packets: seq<Packet>, now: int)
    | DeleteSession(userId: Id, sessionId: Id)
    | CreateSession(userId: Id, id: Id, title: Option<string>, now: int)

  /** What a replay of a stored row sends. */
  function ReplayWire(id: Id, m: Message): seq<Packet> {
    var es := if m.events.Some? then m.events.value else [];
    [Start(id, m.sessionId)] + Replay(es[..KnownPrefix(es)]) + (if KnownPrefix(es) < |es| then [] else [Finish("stop", id)])
  }

  ghost function ReplyTo(messages: map<Id, Message>, parent: Id): Id
    requires HasReply(messages, parent)
    ensures IsReply(messages, ReplyTo(messages, parent), parent)
  {
    var id :| IsReply(messages, id, parent); id
  }

  ghost predicate Enabled(s: State, a: Action)
    requires |s.phases| == |s.requests|
  {
    match a
    case GetSession(r) => r < |s.phases| && s.phases[r].Arrived?
    case RecordUser(r, _) => r < |s.phases| && s.phases[r].SessionFound? && s.requests[r].sessionId in s.store.sessions
    case Lookup(r, newId) =>
      // `uuid4` does not repeat an id that exists or was handed out.
      r < |s.phases| && s.phases[r].UserRecorded? && newId !in s.store.messages && newId !in s.issued
    case Complete(r, packets, _) =>
      r < |s.phases| && s.phases[r].Running? && s.requests[r].sessionId in s.store.sessions
      && AgentOnly(packets) && Registered(packets)
    case DeleteSession(_, _) => true
    case CreateSession(_, id, _, _) => id !in s.store.sessions
  }

  ghost function Next(s: State, a: Action): State
    requires |s.phases| == |s.requests| && Enabled(s, a)
  {
    match a
    case GetSession(r) =>
      var q := s.requests[r];
      s.(phases := s.phases[r := if SessionVisible(s.store, q.userId, q.sessionId) then SessionFound else SessionMissing])
    case RecordUser(r, now) =>
      var q := s.requests[r];
      s.(store := WithUserMessage(s.store, q.userId, q.sessionId, q.clientMessageId, q.message,
                                   LatOf(q.location), LngOf(q.location), now),
         phases := s.phases[r := UserRecorded])
    case Lookup(r, newId) =>
      var q := s.requests[r];
      if HasReply(s.store.messages, q.clientMessageId) then
        var id := ReplyTo(s.store.messages, q.clientMessageId);
        s.(phases := s.phases[r := Done(ReplayWire(id, s.store.messages[id]))])
      else
        s.(phases := s.phases[r := Running(newId)], issued := s.issued + {newId})
    case Complete(r, packets, now) =>
      var q := s.requests[r];
      var id := s.phases[r].assistantId;
      var conflict := Refuses(s.store, id, q.clientMessageId);
      var wire := LiveWire(packets, id, q.sessionId, conflict);
      var store := if Persists(packets, conflict) then
          var row := LiveRow(packets, id, q.sessionId);
          WithAssistantMessage(s.store, q.userId, q.sessionId, q.clientMessageId, row.content, row.events, id, now)
        else s.store;
      s.(store := store, phases := s.phases[r := Done(wire)])
    case DeleteSession(userId, sessionId) =>
      s.(store := WithoutSession(s.store, userId, sessionId))
    case CreateSession(userId, id, title, now) =>
      s.(store := WithSession(s.store, userId, id, title, now))
  }

  /** A disabled action does nothing. */
  ghost function Step(s: State, a: Action): State
    requires |s.phases| == |s.requests|
    ensures |Step(s, a).phases| == |Step(s, a).requests| && Step(s, a).requests == s.requests
  {
    if Enabled(s, a) then Next(s, a) else s
  }

  ghost function Execute(s: State, actions: seq<Action>): (t: State)
    requires |s.phases| == |s.requests|
    ensures |t.phases| == |t.requests| && t.requests == s.requests
  {
    if actions == [] then s else Step(Execute(s, actions[..|actions| - 1]), actions[|actions| - 1])
  }

  // ------------------------------------------------------------- the invariant

  /** A stored reply is a turn that a replay can rebuild. */
  ghost predicate GoodReply(m: Message) {
    m.parent.Some? ==>
      && m.role == AssistantRole && m.events.Some? && m.events.value != []
      && Ascending(m.events.value) && AllSettled(m.events.value) && m.content == JoinText(m.events.value)
  }

  /** The response announced `id` in `start` and confirmed it in `finish`. */
  predicate Finishes(wire: seq<Packet>, id: Id) {
    |wire| >= 2 && wire[0].Start? && wire[0].assistantId == id && wire[|wire| - 1] == Finish("stop", id)
  }

  predicate EmitsFinish(wire: seq<Packet>) { wire != [] && wire[|wire| - 1].Finish? }

  /** What the packets of a response fold into. */
  function Shown(wire: seq<Packet>): seq<Event> { InOrder(FoldAll(EMPTY, wire)) }

  /** Packets that a client can follow: numbered content of registered tools, and errors. */
  ghost predicate Stepped(ps: seq<Packet>) {
    forall i :: 0 <= i < |ps| ==> KnownPacket(ps[i]) && (ps[i].ErrorPacket? || (ps[i].IsContent() && ps[i].step.Some?))
  }

  /** What lies between `start` and `finish`. */
  function Middle(wire: seq<Packet>): seq<Packet>
    requires |wire| >= 2
  {
    wire[1..|wire| - 1]
  }

  /** A finished response names a stored reply to its message, shows its events, and can be
      followed by a client. */
  ghost predicate Confirmed(s: Store, q: Request, wire: seq<Packet>) {
    |wire| >= 2 && Stepped(Middle(wire)) &&
    exists id :: Finishes(wire, id) && id in s.messages && s.messages[id].parent == Some(q.clientMessageId)
                 && s.messages[id].events == Some(Shown(wire))
  }

  ghost predicate Inv(s: State) {
    && |s.phases| == |s.requests|
    && UniqueReplies(s.store.messages)
    && (forall id :: id in s.store.messages ==> GoodReply(s.store.messages[id]))
    && (forall r :: 0 <= r < |s.phases| && s.phases[r].Done? && EmitsFinish(s.phases[r].wire) ==>
          Confirmed(s.store, s.requests[r], s.phases[r].wire))
  }

  /** Nothing of a stored message changes but its deletion mark, which is never taken back,
      and no message goes away. */
  ghost predicate Keeps(s: Store, t: Store) {
    forall id :: id in s.messages ==>
      && id in t.messages && t.messages[id].(deleted := s.messages[id].deleted) == s.messages[id]
      && (s.messages[id].deleted ==> t.messages[id].deleted)
  }

  // -------------------------------------------------------- folding a response

  lemma FramedFold(id: Id, sessionId: Id, body: seq<Packet>, end: seq<Packet>)
    requires end == [] || end == [Finish("stop", id)]
    ensures FoldAll(EMPTY, [Start(id, sessionId)] + body + end) == FoldAll(EMPTY, body)
  {
    FoldAllAppend(EMPTY, [Start(id, sessionId)] + body, end);
    FoldAllAppend(EMPTY, [Start(id, sessionId)], body);
    FoldShort(EMPTY, [Start(id, sessionId)]);
    FoldShort(FoldAll(EMPTY, body), end);
  }

  lemma ShownOfFramed(id: Id, sessionId: Id, body: seq<Packet>, end: seq<Packet>)
    requires end == [] || end == [Finish("stop", id)]
    ensures Shown([Start(id, sessionId)] + body + end) == InOrder(FoldAll(EMPTY, body))
  {
    FramedFold(id, sessionId, body, end);
  }

  lemma {:induction false} NumberedNeverFinishes(a: Assigner, ps: seq<Packet>, i: nat)
    requires AgentOnly(ps) && i < |ps|
    ensures !Number(a, ps)[i].Finish?
    decreases |ps|
  {
    if i > 0 {
      assert forall j :: 0 <= j < |ps[1..]| ==> ps[1..][j] == ps[j + 1];
      NumberedNeverFinishes(Assign(a, ps[0]).0, ps[1..], i - 1);
    }
  }

  lemma {:induction false} ReplayNeverFinishes(es: seq<Event>, i: nat)
    requires i < |Replay(es)|
    ensures !Replay(es)[i].Finish?
    decreases |es|
  {
    var init := Replay(es[..|es| - 1]);
    if i < |init| { ReplayNeverFinishes(es[..|es| - 1], i); }
  }

  /** A live turn sends `finish` exactly when it stores its row. */
  lemma LiveWireFinishes(packets: seq<Packet>, id: Id, sessionId: Id, conflict: bool)
    requires AgentOnly(packets)
    ensures var wire := LiveWire(packets, id, sessionId, conflict);
            EmitsFinish(wire) == Persists(packets, conflict) && (Persists(packets, conflict) ==> Finishes(wire, id))
  {
    var body := Number(FRESH, packets);
    if body != [] { NumberedNeverFinishes(FRESH, packets, |body| - 1); }
  }

  /** What a live turn stores is tidy. */
  lemma LiveTurnIsTidy(packets: seq<Packet>)
    ensures var t := LiveTimeline(packets);
            Ascending(InOrder(t)) && AllSettled(InOrder(t)) && (t.events != map[] ==> InOrder(t) != [])
  {
    var t := LiveTimeline(packets);
    FoldKeepsSane(EMPTY, Number(FRESH, packets));
    InOrderIsTidy(t);
    if t.events != map[] {
      var s :| s in t.events;
      assert s in Sorted(t.events.Keys);
    }
  }

  lemma MiddleOfFramed(id: Id, sessionId: Id, body: seq<Packet>)
    ensures Middle([Start(id, sessionId)] + body + [Finish("stop", id)]) == body
  {
  }

  lemma SteppedConcat(a: seq<Packet>, b: seq<Packet>)
    requires Stepped(a) && Stepped(b)
    ensures Stepped(a + b)
  {
  }

  lemma {:induction false} NumberedIsStepped(a: Assigner, ps: seq<Packet>)
    requires AgentOnly(ps) && Registered(ps) && (a.lastKind == Some(TextKind) ==> a.textStep.Some?)
    ensures Stepped(Number(a, ps))
    decreases |ps|
  {
    if ps != [] {
      assert forall j :: 0 <= j < |ps[1..]| ==> ps[1..][j] == ps[j + 1];
      NumberedIsStepped(Assign(a, ps[0]).0, ps[1..]);
      assert KnownPacket(ps[0]) && Stepped([Stamp(a, ps[0])]);
      SteppedConcat([Stamp(a, ps[0])], Number(Assign(a, ps[0]).0, ps[1..]));
    }
  }

  ghost predicate AllKnown(es: seq<Event>) { forall i :: 0 <= i < |es| ==> KnownTool(es[i]) }

  lemma {:induction false} ReplayIsStepped(es: seq<Event>)
    requires AllKnown(es)
    ensures Stepped(Replay(es))
    decreases |es|
  {
    if es != [] {
      ReplayIsStepped(es[..|es| - 1]);
      assert KnownTool(es[|es| - 1]);
      SteppedConcat(Replay(es[..|es| - 1]), ReplayEvent(es[|es| - 1]));
    }
  }

  /** The row that a live turn stores is a good reply, and shows what was streamed. */
  lemma LiveTurnConfirms(packets: seq<Packet>, id: Id, sessionId: Id, conflict: bool)
    requires AgentOnly(packets) && Registered(packets)
    ensures var wire := LiveWire(packets, id, sessionId, conflict);
            var t := LiveTimeline(packets);
            EmitsFinish(wire) == Persists(packets, conflict) &&
            (Persists(packets, conflict) ==>
               Finishes(wire, id) && Stepped(Middle(wire)) && EventsList(t) == Some(Shown(wire)) && InOrder(t) != []
                 && Ascending(InOrder(t)) && AllSettled(InOrder(t)))
  {
    LiveWireFinishes(packets, id, sessionId, conflict);
    LiveTurnIsTidy(packets);
    ShownOfFramed(id, sessionId, Number(FRESH, packets), if Persists(packets, conflict) then [Finish("stop", id)] else []);
    NumberedIsStepped(FRESH, packets);
    MiddleOfFramed(id, sessionId, Number(FRESH, packets));
  }

  /** The replay of a good reply finishes only when it is whole, and then shows the row. */
  lemma ReplayConfirms(id: Id, m: Message)
    requires GoodReply(m) && m.parent.Some?
    ensures var wire := ReplayWire(id, m);
            (EmitsFinish(wire) <==> AllKnown(m.events.value)) &&
            (EmitsFinish(wire) ==> Finishes(wire, id) && Stepped(Middle(wire)) && m.events == Some(Shown(wire)))
  {
    var es := m.events.value;
    var known := es[..KnownPrefix(es)];
    var body := Replay(known);
    if KnownPrefix(es) < |es| {
      if body != [] { ReplayNeverFinishes(known, |body| - 1); }
      AppendNil([Start(id, m.sessionId)] + body);
    } else {
      assert known == es;
      ShownOfFramed(id, m.sessionId, body, [Finish("stop", id)]);
      ReplayIsStepped(es);
      MiddleOfFramed(id, m.sessionId, body);
      ReplayFolds(es);
      InOrderByStep(es);
    }
  }

  // ---------------------------------------------------------- one step at a time

  lemma ConfirmedStays(s: Store, t: Store, q: Request, wire: seq<Packet>)
    requires Keeps(s, t) && Confirmed(s, q, wire)
    ensures Confirmed(t, q, wire)
  {
    var id :| Finishes(wire, id) && id in s.messages && s.messages[id].parent == Some(q.clientMessageId)
              && s.messages[id].events == Some(Shown(wire));
    assert id in t.messages && t.messages[id].parent == Some(q.clientMessageId);
  }

  /** The store invariant, and what a step may do to the store. */
  ghost predicate GoodStore(s: Store) {
    UniqueReplies(s.messages) && forall id :: id in s.messages ==> GoodReply(s.messages[id])
  }

  lemma UserInsertKeeps(s: Store, q: Request, now: int)
    requires GoodStore(s) && q.sessionId in s.sessions
    ensures var t := WithUserMessage(s, q.userId, q.sessionId, q.clientMessageId, q.message,
                                     LatOf(q.location), LngOf(q.location), now);
            GoodStore(t) && Keeps(s, t)
  {
    var t := WithUserMessage(s, q.userId, q.sessionId, q.clientMessageId, q.message,
                             LatOf(q.location), LngOf(q.location), now);
    assert forall a, p :: IsReply(t.messages, a, p) <==> IsReply(s.messages, a, p);
  }

  /** Inserting a good reply where there is none keeps the store good. */
  lemma GoodReplyKeeps(s: Store, t: Store, q: Request, id: Id)
    requires GoodStore(s) && !Refuses(s, id, q.clientMessageId)
    requires id in t.messages && t.messages == s.messages[id := t.messages[id]]
    requires GoodReply(t.messages[id]) && t.messages[id].parent == Some(q.clientMessageId)
    ensures GoodStore(t) && Keeps(s, t)
  {
    assert forall a, p :: IsReply(t.messages, a, p) ==> IsReply(s.messages, a, p) || (a == id && p == q.clientMessageId);
  }

  lemma ReplyInsertKeeps(s: Store, q: Request, packets: seq<Packet>, id: Id, now: int)
    requires GoodStore(s) && q.sessionId in s.sessions && !Refuses(s, id, q.clientMessageId)
    requires AgentOnly(packets) && Registered(packets) && Persists(packets, false)
    ensures var row := LiveRow(packets, id, q.sessionId);
            var t := WithAssistantMessage(s, q.userId, q.sessionId, q.clientMessageId, row.content, row.events, id, now);
            GoodStore(t) && Keeps(s, t) && Confirmed(t, q, LiveWire(packets, id, q.sessionId, false))
  {
    LiveTurnConfirms(packets, id, q.sessionId, false);
    var row := LiveRow(packets, id, q.sessionId);
    var t := WithAssistantMessage(s, q.userId, q.sessionId, q.clientMessageId, row.content, row.events, id, now);
    GoodReplyKeeps(s, t, q, id);
  }

  lemma DeleteKeeps(s: Store, userId: Id, sessionId: Id)
    requires GoodStore(s)
    ensures var t := WithoutSession(s, userId, sessionId); GoodStore(t) && Keeps(s, t)
  {
    var t := WithoutSession(s, userId, sessionId);
    assert forall a, p :: IsReply(t.messages, a, p) ==> IsReply(s.messages, a, p);
  }

  /** The requests' part of the invariant survives any growth of the store. */
  lemma ResponsesStay(s: State, t: State, r: int)
    requires Inv(s) && Keeps(s.store, t.store) && t.requests == s.requests && |t.phases| == |s.phases|
    requires forall i :: 0 <= i < |s.phases| && i != r ==> t.phases[i] == s.phases[i]
    requires 0 <= r < |t.phases| && t.phases[r].Done? && EmitsFinish(t.phases[r].wire) ==>
               Confirmed(t.store, t.requests[r], t.phases[r].wire)
    requires GoodStore(t.store)
    ensures Inv(t)
  {
    forall i | 0 <= i < |t.phases| && t.phases[i].Done? && EmitsFinish(t.phases[i].wire)
      ensures Confirmed(t.store, t.requests[i], t.phases[i].wire)
    {
      if i != r { ConfirmedStays(s.store, t.store, s.requests[i], s.phases[i].wire); }
    }
  }

  lemma StepKeepsInv(s: State, a: Action)
    requires Inv(s)
    ensures Inv(Step(s, a)) && Keeps(s.store, Step(s, a).store)
  {
    if Enabled(s, a) {
      var t := Next(s, a);
      match a {
        case GetSession(r) => ResponsesStay(s, t, r);
        case RecordUser(r, now) =>
          UserInsertKeeps(s.store, s.requests[r], now);
          ResponsesStay(s, t, r);
        case Lookup(r, newId) => LookupKeepsInv(s, r, newId);
        case Complete(r, packets, now) => CompleteKeepsInv(s, r, packets, now);
        case DeleteSession(userId, sessionId) =>
          DeleteKeeps(s.store, userId, sessionId);
          ResponsesStay(s, t, -1);
        case CreateSession(_, _, _, _) => ResponsesStay(s, t, -1);
      }
    }
  }

  lemma LookupKeepsInv(s: State, r: nat, newId: Id)
    requires Inv(s) && Enabled(s, Lookup(r, newId))
    ensures var t := Next(s, Lookup(r, newId)); Inv(t) && t.store == s.store
  {
    var t := Next(s, Lookup(r, newId));
    var q := s.requests[r];
    if HasReply(s.store.messages, q.clientMessageId) {
      var id := ReplyTo(s.store.messages, q.clientMessageId);
      ReplayConfirms(id, s.store.messages[id]);
    }
    ResponsesStay(s, t, r);
  }

  lemma CompleteKeepsInv(s: State, r: nat, packets: seq<Packet>, now: int)
    requires Inv(s) && Enabled(s, Complete(r, packets, now))
    ensures var t := Next(s, Complete(r, packets, now)); Inv(t) && Keeps(s.store, t.store)
  {
    var t := Next(s, Complete(r, packets, now));
    var q := s.requests[r];
    var id := s.phases[r].assistantId;
    var conflict := Refuses(s.store, id, q.clientMessageId);
    LiveTurnConfirms(packets, id, q.sessionId, conflict);
    if Persists(packets, conflict) { ReplyInsertKeeps(s.store, q, packets, id, now); }
    ResponsesStay(s, t, r);
  }

  lemma {:induction false} RunKeepsInv(s: State, actions: seq<Action>)
    requires Inv(s)
    ensures Inv(Execute(s, actions)) && Keeps(s.store, Execute(s, actions).store)
    decreases |actions|
  {
    if actions != [] {
      RunKeepsInv(s, actions[..|actions| - 1]);
      StepKeepsInv(Execute(s, actions[..|actions| - 1]), actions[|actions| - 1]);
    }
  }

  // ------------------------------------------------------------- main results

  /** A server before any request: sound rows, and every request still to arrive. */
  ghost predicate Fresh(s: State) {
    |s.phases| == |s.requests| && GoodStore(s.store) && forall r :: 0 <= r < |s.phases| ==> s.phases[r] == Arrived
  }

  /** Over every interleaving, with session deletes anywhere: a stored message keeps the
      content it was first stored with, no message has two live replies, and `finish` is
      sent only for a stored reply to the request's message, under the id that `start`
      announced, showing that reply's events. */
  lemma InterleavingsAreSafe(s: State, actions: seq<Action>, id: Id, r: nat)
    requires Fresh(s)
    ensures var t := Execute(s, actions);
            UniqueReplies(t.store.messages) &&
            (id in s.store.messages ==> id in t.store.messages && t.store.messages[id].content == s.store.messages[id].content) &&
            (r < |t.phases| && t.phases[r].Done? && EmitsFinish(t.phases[r].wire) ==>
               Confirmed(t.store, t.requests[r], t.phases[r].wire))
  {
    RunKeepsInv(s, actions);
  }

  /** The user row keeps the content of the first request that recorded it. */
  lemma FirstContentStays(s: State, before: seq<Action>, after: seq<Action>, id: Id)
    requires Fresh(s) && id in Execute(s, before).store.messages
    ensures id in Execute(s, before + after).store.messages
    ensures Execute(s, before + after).store.messages[id].content == Execute(s, before).store.messages[id].content
  {
    RunKeepsInv(s, before);
    ExecuteAppend(s, before, after);
    RunKeepsInv(Execute(s, before), after);
  }

  lemma {:induction false} ExecuteAppend(s: State, a: seq<Action>, b: seq<Action>)
    requires |s.phases| == |s.requests|
    ensures Execute(s, a + b) == Execute(Execute(s, a), b)
    decreases |b|
  {
    if b == [] {
      AppendNil(a);
    } else {
      assert (a + b)[..|a + b| - 1] == a + b[..|b| - 1];
      ExecuteAppend(s, a, b[..|b| - 1]);
    }
  }

  ghost predicate NoDelete(actions: seq<Action>) {
    forall i :: 0 <= i < |actions| ==> !actions[i].DeleteSession?
  }

  /** Every reply that was confirmed to a client is live. */
  ghost predicate ConfirmedLive(s: State) {
    |s.phases| == |s.requests| &&
    forall r, id :: 0 <= r < |s.phases| && s.phases[r].Done? && Finishes(s.phases[r].wire, id) ==>
      IsReply(s.store.messages, id, s.requests[r].clientMessageId)
  }

  lemma LiveStep(s: State, a: Action)
    requires Inv(s) && ConfirmedLive(s) && !a.DeleteSession?
    ensures ConfirmedLive(Step(s, a))
    ensures forall id, p :: IsReply(s.store.messages, id, p) ==> IsReply(Step(s, a).store.messages, id, p)
  {
    if Enabled(s, a) {
      var t := Next(s, a);
      assert forall id, p :: IsReply(s.store.messages, id, p) ==> IsReply(t.store.messages, id, p);
      match a {
        case Lookup(r, newId) => LookupIsLive(s, r, newId);
        case Complete(r, packets, now) => CompleteIsLive(s, r, packets, now);
        case _ =>
      }
    }
  }

  lemma LookupIsLive(s: State, r: nat, newId: Id)
    requires Inv(s) && ConfirmedLive(s) && Enabled(s, Lookup(r, newId))
    ensures ConfirmedLive(Next(s, Lookup(r, newId)))
  {
    var t := Next(s, Lookup(r, newId));
    forall i, id | 0 <= i < |t.phases| && t.phases[i].Done? && Finishes(t.phases[i].wire, id)
      ensures IsReply(t.store.messages, id, t.requests[i].clientMessageId)
    {
      if i == r {
        var reply := ReplyTo(s.store.messages, s.requests[r].clientMessageId);
        assert t.phases[r].wire[0] == Start(reply, s.store.messages[reply].sessionId);
      } else {
        assert s.phases[i] == t.phases[i];
      }
    }
  }

  lemma CompleteIsLive(s: State, r: nat, packets: seq<Packet>, now: int)
    requires Inv(s) && ConfirmedLive(s) && Enabled(s, Complete(r, packets, now))
    ensures ConfirmedLive(Next(s, Complete(r, packets, now)))
  {
    var t := Next(s, Complete(r, packets, now));
    var q, mine := s.requests[r], s.phases[r].assistantId;
    var conflict := Refuses(s.store, mine, q.clientMessageId);
    LiveTurnConfirms(packets, mine, q.sessionId, conflict);
    forall i, id | 0 <= i < |t.phases| && t.phases[i].Done? && Finishes(t.phases[i].wire, id)
      ensures IsReply(t.store.messages, id, t.requests[i].clientMessageId)
    {
      if i == r {
        assert t.phases[r].wire[0] == Start(mine, q.sessionId);
        assert EmitsFinish(t.phases[r].wire);
      } else {
        assert s.phases[i] == t.phases[i];
        assert IsReply(s.store.messages, id, s.requests[i].clientMessageId);
      }
    }
  }

  lemma {:induction false} RunIsLive(s: State, actions: seq<Action>)
    requires Inv(s) && ConfirmedLive(s) && NoDelete(actions)
    ensures ConfirmedLive(Execute(s, actions))
    ensures forall id, p :: IsReply(s.store.messages, id, p) ==> IsReply(Execute(s, actions).store.messages, id, p)
    decreases |actions|
  {
    if actions != [] {
      var init := actions[..|actions| - 1];
      assert forall i :: 0 <= i < |init| ==> init[i] == actions[i];
      RunIsLive(s, init);
      RunKeepsInv(s, init);
      LiveStep(Execute(s, init), actions[|actions| - 1]);
    }
  }

  /** Without session deletes, all responses that finish for one message, first runs and
      retries alike, carry one id and show one timeline. */
  lemma FinishesAgree(s: State, actions: seq<Action>, t: State, r1: nat, r2: nat)
    requires Fresh(s) && NoDelete(actions) && t == Execute(s, actions)
    requires r1 < |t.phases| && r2 < |t.phases| && t.phases[r1].Done? && t.phases[r2].Done?
    requires EmitsFinish(t.phases[r1].wire) && EmitsFinish(t.phases[r2].wire)
    requires t.requests[r1].clientMessageId == t.requests[r2].clientMessageId
    ensures var w1, w2 := t.phases[r1].wire, t.phases[r2].wire;
            w1[|w1| - 1] == w2[|w2| - 1] && w1[0].Start? && w2[0].Start? &&
            w1[0].assistantId == w2[0].assistantId && Shown(w1) == Shown(w2)
  {
    RunKeepsInv(s, actions);
    RunIsLive(s, actions);
    ConfirmedAgree(t, r1, r2);
  }

  lemma ConfirmedAgree(t: State, r1: nat, r2: nat)
    requires Inv(t) && ConfirmedLive(t)
    requires r1 < |t.phases| && r2 < |t.phases| && t.phases[r1].Done? && t.phases[r2].Done?
    requires EmitsFinish(t.phases[r1].wire) && EmitsFinish(t.phases[r2].wire)
    requires t.requests[r1].clientMessageId == t.requests[r2].clientMessageId
    ensures var w1, w2 := t.phases[r1].wire, t.phases[r2].wire;
            w1[|w1| - 1] == w2[|w2| - 1] && w1[0].Start? && w2[0].Start? &&
            w1[0].assistantId == w2[0].assistantId && Shown(w1) == Shown(w2)
  {
    var w1, w2 := t.phases[r1].wire, t.phases[r2].wire;
    var q1, q2 := t.requests[r1], t.requests[r2];
    assert Confirmed(t.store, q1, w1) && Confirmed(t.store, q2, w2);
    var a :| Finishes(w1, a) && a in t.store.messages && t.store.messages[a].parent == Some(q1.clientMessageId)
             && t.store.messages[a].events == Some(Shown(w1));
    var b :| Finishes(w2, b) && b in t.store.messages && t.store.messages[b].parent == Some(q2.clientMessageId)
             && t.store.messages[b].events == Some(Shown(w2));
    assert IsReply(t.store.messages, a, q1.clientMessageId) && IsReply(t.store.messages, b, q1.clientMessageId);
    assert a == b;
  }

  /** Every stored tool event is of a registered tool. */
  ghost predicate ToolsKnown(s: Store) {
    forall id :: id in s.messages && s.messages[id].events.Some? ==> AllKnown(s.messages[id].events.value)
  }

  ghost predicate TimelineKnown(t: Timeline) { forall s :: s in t.events ==> KnownTool(t.events[s]) }

  lemma {:induction false} FoldKeepsKnown(t: Timeline, ps: seq<Packet>)
    requires TimelineKnown(t) && Registered(ps)
    ensures TimelineKnown(FoldAll(t, ps))
    decreases |ps|
  {
    if ps != [] {
      assert KnownPacket(ps[0]) && forall i :: 0 <= i < |ps[1..]| ==> ps[1..][i] == ps[i + 1];
      FoldKeepsKnown(FoldPacket(t, ps[0]), ps[1..]);
    }
  }

  lemma LiveRowIsKnown(packets: seq<Packet>)
    requires AgentOnly(packets) && Registered(packets)
    ensures AllKnown(InOrder(LiveTimeline(packets)))
  {
    var t := LiveTimeline(packets);
    NumberedIsStepped(FRESH, packets);
    FoldKeepsKnown(EMPTY, Number(FRESH, packets));
    assert forall i :: 0 <= i < |InOrder(t)| ==> Sorted(t.events.Keys)[i] in Sorted(t.events.Keys);
  }

  lemma StepKeepsTools(s: State, a: Action)
    requires |s.phases| == |s.requests| && ToolsKnown(s.store)
    ensures ToolsKnown(Step(s, a).store)
  {
    if Enabled(s, a) && a.Complete? { LiveRowIsKnown(a.packets); }
  }

  /** A lookup that finds a live reply answers with the whole of it. */
  lemma LookupReplaysWhole(s: State, r: nat, newId: Id)
    requires Inv(s) && ToolsKnown(s.store) && Enabled(s, Lookup(r, newId))
    requires HasReply(s.store.messages, s.requests[r].clientMessageId)
    ensures var id := ReplyTo(s.store.messages, s.requests[r].clientMessageId);
            var p := Next(s, Lookup(r, newId)).phases[r];
            p.Done? && EmitsFinish(p.wire) && Finishes(p.wire, id) && s.store.messages[id].events == Some(Shown(p.wire))
  {
    var id := ReplyTo(s.store.messages, s.requests[r].clientMessageId);
    ReplayConfirms(id, s.store.messages[id]);
  }

  /** A retry is on its way to the lookup, or was answered with a whole replay. */
  predicate Retrying(p: Phase) {
    p.Arrived? || p.SessionFound? || p.UserRecorded? || p.SessionMissing? || (p.Done? && EmitsFinish(p.wire))
  }

  lemma {:induction false} RetriesStay(s: State, actions: seq<Action>, r: nat)
    requires Inv(s) && ConfirmedLive(s) && NoDelete(actions)
    requires r < |s.phases| && HasReply(s.store.messages, s.requests[r].clientMessageId)
    requires ToolsKnown(s.store) && Retrying(s.phases[r])
    ensures Retrying(Execute(s, actions).phases[r]) && ToolsKnown(Execute(s, actions).store)
    decreases |actions|
  {
    if actions != [] {
      var init, a := actions[..|actions| - 1], actions[|actions| - 1];
      assert forall i :: 0 <= i < |init| ==> init[i] == actions[i];
      RetriesStay(s, init, r);
      RunIsLive(s, init);
      RunKeepsInv(s, init);
      RetryStep(s, Execute(s, init), a, r);
    }
  }

  lemma RetryStep(s: State, t: State, a: Action, r: nat)
    requires |t.phases| == |t.requests| && r < |t.phases|
    requires HasReply(s.store.messages, t.requests[r].clientMessageId)
    requires forall id, p :: IsReply(s.store.messages, id, p) ==> IsReply(t.store.messages, id, p)
    requires Inv(t) && ToolsKnown(t.store) && Retrying(t.phases[r])
    ensures Retrying(Step(t, a).phases[r]) && ToolsKnown(Step(t, a).store)
  {
    StepKeepsTools(t, a);
    if Enabled(t, a) && a.Lookup? && a.r == r {
      var id :| IsReply(s.store.messages, id, t.requests[r].clientMessageId);
      assert IsReply(t.store.messages, id, t.requests[r].clientMessageId);
      LookupReplaysWhole(t, r, a.newId);
    }
  }

  /** Once a message has a live reply, and while no session is deleted, no request for it
      starts the agent again; and a request that is answered is answered with a live reply
      to the message, whole, from `start` to `finish`. */
  lemma RetriesReplay(s: State, actions: seq<Action>, t: State, r: nat)
    requires Inv(s) && ConfirmedLive(s) && NoDelete(actions) && t == Execute(s, actions)
    requires r < |s.phases| && HasReply(s.store.messages, s.requests[r].clientMessageId)
    requires ToolsKnown(s.store) && Retrying(s.phases[r])
    ensures !t.phases[r].Running?
    ensures t.phases[r].Done? ==>
              exists id :: Finishes(t.phases[r].wire, id)
                && IsReply(t.store.messages, id, t.requests[r].clientMessageId)
                && t.store.messages[id].events == Some(Shown(t.phases[r].wire))
  {
    RetriesStay(s, actions, r);
    RunKeepsInv(s, actions);
    RunIsLive(s, actions);
    if t.phases[r].Done? { assert Confirmed(t.store, t.requests[r], t.phases[r].wire); }
  }

  /** Whatever the stored rows are, a message with a live reply is not run again. */
  lemma {:induction false} NoSecondRun(s: State, actions: seq<Action>, r: nat)
    requires Inv(s) && ConfirmedLive(s) && NoDelete(actions)
    requires r < |s.phases| && HasReply(s.store.messages, s.requests[r].clientMessageId) && !s.phases[r].Running?
    ensures !Execute(s, actions).phases[r].Running?
    decreases |actions|
  {
    if actions != [] {
      var init := actions[..|actions| - 1];
      assert forall i :: 0 <= i < |init| ==> init[i] == actions[i];
      NoSecondRun(s, init, r);
      RunIsLive(s, init);
      var id :| IsReply(s.store.messages, id, s.requests[r].clientMessageId);
      assert IsReply(Execute(s, init).store.messages, id, s.requests[r].clientMessageId);
    }
  }

  // ----------------------------------------------------- the endpoint in one go

  /** Sessions are only ever marked deleted, so a request that found its session can
      always take its next step. */
  ghost predicate SessionsExist(s: State) {
    |s.phases| == |s.requests| &&
    forall r :: 0 <= r < |s.phases| && (s.phases[r].SessionFound? || s.phases[r].UserRecorded? || s.phases[r].Running?) ==>
      s.requests[r].sessionId in s.store.sessions
  }

  lemma {:induction false} SessionsStay(s: State, actions: seq<Action>)
    requires SessionsExist(s)
    ensures SessionsExist(Execute(s, actions))
    decreases |actions|
  {
    if actions != [] { SessionsStay(s, actions[..|actions| - 1]); }
  }

  /** The `chat` route for one request, undisturbed: the four steps of the protocol. */
  method Chat(db: ChatDb, q: Request, packets: seq<Packet>, newId: Id, now: int) returns (response: Phase)
    requires UniqueReplies(db.messages) && AgentOnly(packets) && Registered(packets)
    requires newId !in db.messages && newId != q.clientMessageId
    modifies db
    ensures var s0 := State(old(db.View()), [q], [Arrived], {});
            var s1 := Step(s0, GetSession(0));
            var s2 := Step(s1, RecordUser(0, now));
            var s3 := Step(s2, Lookup(0, newId));
            var s4 := Step(s3, Complete(0, packets, now));
            db.View() == s4.store && response == s4.phases[0]
  {
    ghost var s0 := State(db.View(), [q], [Arrived], {});
    ghost var s1 := Step(s0, GetSession(0));
    var visible := db.GetSession(q.userId, q.sessionId);
    if !visible { return SessionMissing; }
    ghost var s2 := Step(s1, RecordUser(0, now));
    var row := db.RecordUserMessage(q.userId, q.sessionId, q.clientMessageId, q.message,
                                    LatOf(q.location), LngOf(q.location), now);
    ghost var s3 := Step(s2, Lookup(0, newId));
    assert s2.store == db.View() && s2.phases == [UserRecorded];
    SameReplies(s0.store, s2.store);
    var cached := db.FindAssistantForUserMessage(q.clientMessageId);
    if cached.Some? {
      var m := db.messages[cached.value];
      assert ReplyTo(db.messages, q.clientMessageId) == cached.value;
      var wire, raised := ReplayStream(AssistantRow(cached.value, m.sessionId, m.content, m.events));
      return Done(wire);
    }
    response := RunTurn(db, q, packets, newId, now, s3);
  }

  lemma SameReplies(s: Store, t: Store)
    requires UniqueReplies(s.messages)
    requires t.messages == s.messages ||
               exists id: Id, m: Message :: id !in s.messages && m.parent.None? && t.messages == s.messages[id := m]
    ensures UniqueReplies(t.messages)
  {
    assert forall a, p :: IsReply(t.messages, a, p) <==> IsReply(s.messages, a, p);
  }

  /** `stream_turn` with its insert at the end. */
  method RunTurn(db: ChatDb, q: Request, packets: seq<Packet>, id: Id, now: int, ghost s: State) returns (response: Phase)
    requires s == State(db.View(), [q], [Running(id)], s.issued) && q.sessionId in db.sessions
    requires AgentOnly(packets) && Registered(packets)
    modifies db
    ensures var t := Step(s, Complete(0, packets, now));
            db.View() == t.store && response == t.phases[0]
  {
    var wire, row := StreamTurn(packets, id, q.sessionId, false);
    if row.Some? {
      var stored := db.RecordAssistantMessage(q.userId, q.sessionId, q.clientMessageId,
                                              row.value.content, row.value.events, id, now);
      if !stored {
        wire := wire[..|wire| - 1];  // `finish` is yielded only after the insert
      }
    }
    response := Done(wire);
  }
}
