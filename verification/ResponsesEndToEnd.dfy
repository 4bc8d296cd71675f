/** From the protocol to the phone: what a client is left with after any finished response,
    live or replayed (app/api/chat.py, app/api/_chat_stream.py, mobile/lib). */
module ResponsesEndToEnd {
  import opened Prelude
  import opened Packets
  import opened ChatStream
  import opened ChatStore
  import opened SseParser
  import opened ReplayLaws
  import opened ChatClient
  import opened Wire
  import opened ClientLaws
  import opened CommitLaws
  import opened EndToEnd
  import Protocol = IdempotentChat

  lemma SteppedIsStamped(ps: seq<Packet>)
    requires Protocol.Stepped(ps)
    ensures Stamped(ps)
  {
    forall i | 0 <= i < |ps| && ps[i].IsTool() ensures PacketNamed(ps[i]) {
      assert KnownPacket(ps[i]);
      RegistryIsWellNamed(ps[i].tool);
    }
  }

  /** A finished response is `start`, a body and `finish`. */
  lemma FinishedIsFramed(wire: seq<Packet>, id: Id) returns (sessionId: Id)
    requires Protocol.Finishes(wire, id)
    ensures wire == [Start(id, sessionId)] + Protocol.Middle(wire) + [Finish("stop", id)]
  {
    sessionId := wire[0].sessionId;
  }

  /** The pair of a message and a stored reply to it. */
  function ReplyPair(turn: Sending, id: Id, m: Message): Committed {
    Committed(turn.clientMessageId, turn.userText, id, m.content, m.events)
  }

  /** A response without its `finish`. */
  function Sent(wire: seq<Packet>): seq<Packet> { if wire == [] then [] else wire[..|wire| - 1] }

  /** What the body of a finished response folds into is the stored reply. */
  lemma BodyIsStored(id: Id, sessionId: Id, body: seq<Packet>, m: Message)
    requires Protocol.GoodReply(m) && m.parent.Some?
    requires m.events == Some(Protocol.Shown([Start(id, sessionId)] + body + [Finish("stop", id)]))
    ensures AssistantContent(FoldAll(EMPTY, body)) == m.content && EventsList(FoldAll(EMPTY, body)) == m.events
  {
    Protocol.ShownOfFramed(id, sessionId, body, [Finish("stop", id)]);
    var t := FoldAll(EMPTY, body);
    assert t.events.Keys == {} ==> Sorted(t.events.Keys) == [];
  }

  lemma FinishedWireCommits(codec: Codec, c: Client, turn: Sending, wire: seq<Packet>, id: Id, m: Message,
                            items: seq<WireItem>, ticks: seq<Moment<string>>)
    requires Faithful(codec) && NewTo(c, turn.clientMessageId) && Reads(codec, ticks, items) && PacketsOf(items) == wire
    requires Protocol.Finishes(wire, id) && Protocol.Stepped(Protocol.Middle(wire))
    requires Protocol.GoodReply(m) && m.parent.Some? && m.events == Some(Protocol.Shown(wire))
    ensures var d := AtEnd(codec, Send(c, turn), ticks);
            Finished(d, turn, Sent(wire), id, Seen(ticks), c.committed) &&
            (Delivered(d, c.committed, ReplyPair(turn, id, m)) <==> Complete(Sent(wire), Seen(ticks))) &&
            (AllShown(Sent(wire), Seen(ticks)) ==> Complete(Sent(wire), Seen(ticks)))
  {
    var sessionId := FinishedIsFramed(wire, id);
    var body := Protocol.Middle(wire);
    assert Sent(wire) == [Start(id, sessionId)] + body;
    SteppedIsStamped(body);
    FramedTurnCommits(codec, c, turn, id, sessionId, body, items, ticks);
    BodyIsStored(id, sessionId, body, m);
  }

  /** Over every interleaving of requests and session deletes, for every finished response,
      whether it was run or replayed, wherever keep-alive comments fall, however the stream is
      cut and whatever is rendered between the reads: the client commits exactly the stored reply
      to its message if and only if its ref already showed the whole reply when `finish` came. */
  lemma ResponsesReachTheClient(codec: Codec, s: Protocol.State, actions: seq<Protocol.Action>, t: Protocol.State, r: nat,
                                c: Client, userText: string, items: seq<WireItem>, ticks: seq<Moment<string>>)
    returns (id: Id)
    requires Protocol.Fresh(s) && t == Protocol.Execute(s, actions)
    requires r < |t.phases| && t.phases[r].Done? && Protocol.EmitsFinish(t.phases[r].wire)
    requires Faithful(codec) && Reads(codec, ticks, items) && PacketsOf(items) == t.phases[r].wire
    requires NewTo(c, t.requests[r].clientMessageId)
    ensures var turn, wire := Sending(t.requests[r].clientMessageId, userText), t.phases[r].wire;
            var d := AtEnd(codec, Send(c, turn), ticks);
            Protocol.Finishes(wire, id) &&
            id in t.store.messages && t.store.messages[id].parent == Some(turn.clientMessageId) &&
            Finished(d, turn, Sent(wire), id, Seen(ticks), c.committed) &&
            (Delivered(d, c.committed, ReplyPair(turn, id, t.store.messages[id])) <==> Complete(Sent(wire), Seen(ticks))) &&
            (AllShown(Sent(wire), Seen(ticks)) ==> Complete(Sent(wire), Seen(ticks)))
  {
    var q, wire := t.requests[r], t.phases[r].wire;
    Protocol.RunKeepsInv(s, actions);
    assert Protocol.Confirmed(t.store, q, wire);
    id :| Protocol.Finishes(wire, id) && id in t.store.messages && t.store.messages[id].parent == Some(q.clientMessageId)
          && t.store.messages[id].events == Some(Protocol.Shown(wire));
    FinishedWireCommits(codec, c, Sending(q.clientMessageId, userText), wire, id, t.store.messages[id], items, ticks);
  }

  /** The reads of a schedule are some cutting of the packets' frames, with comments anywhere
      between. */
  ghost predicate Carries(codec: Codec, ticks: seq<Moment<string>>, wire: seq<Packet>) {
    exists items :: Reads(codec, ticks, items) && PacketsOf(items) == wire
  }

  /** Both requests sent the same message and got a finished response. */
  predicate BothFinished(t: Protocol.State, r1: nat, r2: nat) {
    && r1 < |t.phases| && r1 < |t.requests| && t.phases[r1].Done? && Protocol.EmitsFinish(t.phases[r1].wire)
    && r2 < |t.phases| && r2 < |t.requests| && t.phases[r2].Done? && Protocol.EmitsFinish(t.phases[r2].wire)
    && t.requests[r1].clientMessageId == t.requests[r2].clientMessageId
  }

  /** The timeline that the ref showed when `finish` came. */
  function RefTimeline(wire: seq<Packet>, ticks: seq<Moment<string>>): Timeline {
    match Seen(ticks)
    case Some(n) => if n <= |Sent(wire)| then After(Sent(wire), n) else EMPTY
    case None => EMPTY
  }

  /** Two clients that each handed over one more pair handed over the same one. */
  predicate SamePair(c1: Client, d1: Client, c2: Client, d2: Client) {
    |d1.committed| == |c1.committed| + 1 && |d2.committed| == |c2.committed| + 1 &&
    d1.committed[|c1.committed|] == d2.committed[|c2.committed|]
  }

  lemma SamePairExactly(c1: Client, d1: Client, wire1: seq<Packet>, ticks1: seq<Moment<string>>,
                        c2: Client, d2: Client, wire2: seq<Packet>, ticks2: seq<Moment<string>>, turn: Sending, id: Id)
    requires Finished(d1, turn, Sent(wire1), id, Seen(ticks1), c1.committed) && Seen(ticks1).Some?
    requires Finished(d2, turn, Sent(wire2), id, Seen(ticks2), c2.committed) && Seen(ticks2).Some?
    ensures SamePair(c1, d1, c2, d2) <==> RefTimeline(wire1, ticks1).events == RefTimeline(wire2, ticks2).events
  {
    var t1, t2 := RefTimeline(wire1, ticks1), RefTimeline(wire2, ticks2);
    FoldKeepsSane(EMPTY, Sent(wire1)[..Seen(ticks1).value]);
    FoldKeepsSane(EMPTY, Sent(wire2)[..Seen(ticks2).value]);
    PairsDetermine(turn, id, t1, t2);
    assert d1.committed[|c1.committed|] == PairOf(turn, id, t1) && d2.committed[|c2.committed|] == PairOf(turn, id, t2);
  }

  /** Without session deletes, take any two finished responses to one message, the first run
      or a retry, each read by a client under its own schedule. There is one pair that each
      client delivers if and only if its ref showed its whole response; and two clients whose
      refs had reached the turn hand over the same pair if and only if the refs showed the same
      events. */
  lemma RetriesCommitTheSame(codec: Codec, s: Protocol.State, actions: seq<Protocol.Action>, t: Protocol.State,
                             r1: nat, r2: nat, c1: Client, c2: Client,
                             ticks1: seq<Moment<string>>, ticks2: seq<Moment<string>>, userText: string)
    returns (pair: Committed)
    requires Faithful(codec) && Protocol.Fresh(s) && Protocol.NoDelete(actions) && t == Protocol.Execute(s, actions)
    ensures BothFinished(t, r1, r2) && Carries(codec, ticks1, t.phases[r1].wire) && Carries(codec, ticks2, t.phases[r2].wire)
            && NewTo(c1, t.requests[r1].clientMessageId) && NewTo(c2, t.requests[r1].clientMessageId) ==>
              var turn := Sending(t.requests[r1].clientMessageId, userText);
              var d1, d2 := AtEnd(codec, Send(c1, turn), ticks1), AtEnd(codec, Send(c2, turn), ticks2);
              var wire1, wire2 := t.phases[r1].wire, t.phases[r2].wire;
              (Delivered(d1, c1.committed, pair) <==> Complete(Sent(wire1), Seen(ticks1))) &&
              (Delivered(d2, c2.committed, pair) <==> Complete(Sent(wire2), Seen(ticks2))) &&
              (Seen(ticks1).Some? && Seen(ticks2).Some? ==>
                 (SamePair(c1, d1, c2, d2) <==> RefTimeline(wire1, ticks1).events == RefTimeline(wire2, ticks2).events))
  {
    pair := Committed(0, userText, 0, "", None);
    if BothFinished(t, r1, r2) && Carries(codec, ticks1, t.phases[r1].wire) && Carries(codec, ticks2, t.phases[r2].wire)
       && NewTo(c1, t.requests[r1].clientMessageId) && NewTo(c2, t.requests[r1].clientMessageId) {
      var turn := Sending(t.requests[r1].clientMessageId, userText);
      var items1 :| Reads(codec, ticks1, items1) && PacketsOf(items1) == t.phases[r1].wire;
      var items2 :| Reads(codec, ticks2, items2) && PacketsOf(items2) == t.phases[r2].wire;
      Protocol.FinishesAgree(s, actions, t, r1, r2);
      var a := ResponsesReachTheClient(codec, s, actions, t, r1, c1, userText, items1, ticks1);
      var b := ResponsesReachTheClient(codec, s, actions, t, r2, c2, userText, items2, ticks2);
      assert a == b;
      pair := ReplyPair(turn, a, t.store.messages[a]);
      if Seen(ticks1).Some? && Seen(ticks2).Some? {
        SamePairExactly(c1, AtEnd(codec, Send(c1, turn), ticks1), t.phases[r1].wire, ticks1,
                        c2, AtEnd(codec, Send(c2, turn), ticks2), t.phases[r2].wire, ticks2, turn, a);
      }
    }
  }
}
