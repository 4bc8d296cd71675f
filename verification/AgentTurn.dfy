/** One chat turn from the model's answer to the phone: the agent loop, the server's
    numbering and storing, the wire, and the client (app/agents/runtime.py,
    app/api/_chat_stream.py, mobile/lib/api, mobile/lib/chat). */
module AgentTurn {
  import opened Prelude
  import opened Packets
  import opened AgentRuntime
  import opened ChatStream
  import opened TimelineLaws
  import opened ReplayLaws
  import opened ChatClient
  import opened Wire
  import opened ClientLaws
  import opened CommitLaws
  import opened EndToEnd
  import opened AgentLaws

  /** Text that is not empty, errors, and packets of registered tools. */
  predicate Allowed(tools: set<string>, p: Packet) {
    (p.IsContent() || p.ErrorPacket?) && (p.IsTool() ==> p.tool in tools) && (p.TextDelta? ==> p.delta != "")
  }

  ghost predicate AllAllowed(tools: set<string>, ps: seq<Packet>) {
    forall i :: 0 <= i < |ps| ==> Allowed(tools, ps[i])
  }

  lemma AllowedConcat(tools: set<string>, a: seq<Packet>, b: seq<Packet>)
    requires AllAllowed(tools, a) && AllAllowed(tools, b)
    ensures AllAllowed(tools, a + b)
  {
  }

  lemma {:induction false} TextIsAllowed(tools: set<string>, chunks: seq<Chunk>)
    ensures AllAllowed(tools, TextPackets(chunks))
  {
    if chunks != [] { TextIsAllowed(tools, chunks[..|chunks| - 1]); }
  }

  lemma ToolStepIsAllowed(w: World, tc: PartialCall, messages: seq<Msg>)
    ensures AllAllowed(w.tools, ToolStep(w, tc, messages).packets)
  {
  }

  lemma {:induction false} ToolStepsAreAllowed(w: World, calls: seq<PartialCall>, messages: seq<Msg>)
    ensures AllAllowed(w.tools, ToolSteps(w, calls, messages).packets)
    decreases |calls|
  {
    if calls != [] {
      var first := ToolStep(w, calls[0], messages);
      ToolStepIsAllowed(w, calls[0], messages);
      if first.raised.None? {
        ToolStepsAreAllowed(w, calls[1..], messages + first.appended);
        AllowedConcat(w.tools, first.packets, ToolSteps(w, calls[1..], messages + first.appended).packets);
      }
    }
  }

  lemma ThreeAllowed(tools: set<string>, a: seq<Packet>, b: seq<Packet>, c: seq<Packet>)
    requires AllAllowed(tools, a) && AllAllowed(tools, b) && AllAllowed(tools, c)
    ensures AllAllowed(tools, a + b + c)
  {
    AllowedConcat(tools, a, b);
    AllowedConcat(tools, a + b, c);
  }

  /** The packets of a trace, turn by turn. */
  ghost predicate TraceAllowed(tools: set<string>, trace: Trace)
    decreases trace
  {
    match trace
    case Capped => true
    case Failed(text, _) => AllAllowed(tools, text)
    case Stopped(text, _) => AllAllowed(tools, text)
    case Raised(text, _, step) => AllAllowed(tools, text) && AllAllowed(tools, step.packets)
    case Continued(text, _, step, more) =>
      AllAllowed(tools, text) && AllAllowed(tools, step.packets) && TraceAllowed(tools, more)
  }

  lemma TurnIsAllowed(w: World, messages: seq<Msg>, n: nat)
    requires n > 0 && w.provider(messages).failure.None?
    requires TraceAllowed(w.tools, TraceOf(w, NextMessages(w, messages), n - 1))
    ensures TraceAllowed(w.tools, TraceOf(w, messages, n))
  {
    var turn := TurnOf(w.provider(messages).chunks);
    var step := ToolSteps(w, turn.toolCalls, messages + [AssistantMessage(turn)]);
    var text := TextPackets(w.provider(messages).chunks);
    TextIsAllowed(w.tools, w.provider(messages).chunks);
    ToolStepsAreAllowed(w, turn.toolCalls, messages + [AssistantMessage(turn)]);
    if !WantsTools(turn) {
      assert TraceOf(w, messages, n) == Stopped(text, turn);
    } else if step.raised.Some? {
      assert TraceOf(w, messages, n) == Raised(text, turn, step);
    } else {
      var rest := TraceOf(w, messages + [AssistantMessage(turn)] + step.appended, n - 1);
      assert TraceOf(w, messages, n) == Continued(text, turn, step, rest);
    }
  }

  lemma FailureIsAllowed(w: World, messages: seq<Msg>, n: nat)
    requires n > 0 && w.provider(messages).failure.Some?
    ensures TraceAllowed(w.tools, TraceOf(w, messages, n))
  {
    TextIsAllowed(w.tools, w.provider(messages).chunks);
  }

  lemma {:induction false} TracesAreAllowed(w: World, messages: seq<Msg>, n: nat)
    ensures TraceAllowed(w.tools, TraceOf(w, messages, n))
    decreases n
  {
    if n > 0 {
      var stream := w.provider(messages);
      if stream.failure.Some? {
        FailureIsAllowed(w, messages, n);
      } else {
        TracesAreAllowed(w, NextMessages(w, messages), n - 1);
        TurnIsAllowed(w, messages, n);
      }
    }
  }

  lemma {:induction false} ReplayedIsAllowed(tools: set<string>, messages: seq<Msg>, trace: Trace)
    requires TraceAllowed(tools, trace)
    ensures AllAllowed(tools, Replayed(messages, trace).packets)
    decreases trace
  {
    match trace {
      case Failed(text, errorName) =>
        AllowedConcat(tools, text, [Failure(errorName)]);
      case Raised(text, turn, step) =>
        ThreeAllowed(tools, text, step.packets, [Failure(RaisedName(step))]);
      case Continued(text, turn, step, more) =>
        var answered := messages + [AssistantMessage(turn)] + step.appended;
        ReplayedIsAllowed(tools, answered, more);
        ThreeAllowed(tools, text, step.packets, Replayed(answered, more).packets);
      case _ =>
    }
  }

  lemma RunsAreAllowed(w: World, base: seq<Msg>)
    ensures AllAllowed(w.tools, AgentRun(w, base).packets)
  {
    LoopIsReplayed(w, base, MAX_TOOL_TURNS);
    TracesAreAllowed(w, base, MAX_TOOL_TURNS);
    ReplayedIsAllowed(w.tools, base, TraceOf(w, base, MAX_TOOL_TURNS));
  }

  /** Every run of the agent, whatever the provider and the tools do, is a stream that the
      server and the client can carry. */
  lemma RunsComeFromAgent(w: World, base: seq<Msg>)
    requires w.tools <= TOOL_NAMES
    ensures FromAgent(AgentRun(w, base).packets) && Registered(AgentRun(w, base).packets)
  {
    var ps := AgentRun(w, base).packets;
    RunsAreAllowed(w, base);
    forall i | 0 <= i < |ps| && ps[i].IsTool() ensures PacketNamed(ps[i]) && KnownPacket(ps[i]) {
      assert Allowed(w.tools, ps[i]);
      RegistryIsWellNamed(ps[i].tool);
    }
  }

  ghost predicate HasError(ps: seq<Packet>) { exists i :: 0 <= i < |ps| && ps[i].ErrorPacket? }

  ghost predicate HasContent(ps: seq<Packet>) { exists i :: 0 <= i < |ps| && ps[i].IsContent() }

  lemma FirstOrRest(ps: seq<Packet>)
    requires ps != []
    ensures HasError(ps) <==> ps[0].ErrorPacket? || HasError(ps[1..])
    ensures HasContent(ps) <==> ps[0].IsContent() || HasContent(ps[1..])
  {
    var rest := ps[1..];
    if i :| 0 <= i < |rest| && rest[i].ErrorPacket? { assert ps[i + 1].ErrorPacket?; }
    if i :| 0 <= i < |rest| && rest[i].IsContent() { assert ps[i + 1].IsContent(); }
    if i :| 0 < i < |ps| && ps[i].ErrorPacket? { assert rest[i - 1].ErrorPacket?; }
    if i :| 0 < i < |ps| && ps[i].IsContent() { assert rest[i - 1].IsContent(); }
  }

  lemma OnePacketShows(a: Assigner, t: Timeline, p: Packet)
    requires Linked(a, t)
    ensures FoldPacket(t, Stamp(a, p)).sawError == (t.sawError || p.ErrorPacket?)
    ensures FoldPacket(t, Stamp(a, p)).events != map[] <==> t.events != map[] || p.IsContent()
  {
    if p.IsContent() {
      FitsStep(a, t, p);
      assert Stamp(a, p).step.value in FoldPacket(t, Stamp(a, p)).events;
    }
  }

  lemma {:induction false} PacketsShow(a: Assigner, t: Timeline, ps: seq<Packet>)
    requires Linked(a, t)
    ensures FoldAll(t, Number(a, ps)).sawError <==> t.sawError || HasError(ps)
    ensures FoldAll(t, Number(a, ps)).events != map[] <==> t.events != map[] || HasContent(ps)
    decreases |ps|
  {
    if ps != [] {
      var b, u := Assign(a, ps[0]).0, FoldPacket(t, Stamp(a, ps[0]));
      OnePacketShows(a, t, ps[0]);
      LinkedStep(a, t, ps[0]);
      NumberUnfold(a, ps);
      PacketsShow(b, u, ps[1..]);
      FirstOrRest(ps);
    }
  }

  /** A turn is stored, and `finish` sent, if and only if the database takes it, the agent sent
      some text or tool packet, and no error. */
  lemma StoredExactly(ps: seq<Packet>, conflict: bool)
    ensures Persists(ps, conflict) <==> !conflict && HasContent(ps) && !HasError(ps)
  {
    PacketsShow(FRESH, EMPTY, ps);
  }

  lemma EndingInErrorHasError(ps: seq<Packet>)
    ensures EndsInError(ps) ==> HasError(ps)
  {
  }

  /** The row of a stored turn holds exactly the words that the run added to the model's
      transcript. */
  lemma StoredWordsAreSpoken(w: World, base: seq<Msg>, id: Id, sessionId: Id)
    requires Persists(AgentRun(w, base).packets, false)
    ensures var r := AgentRun(w, base);
            Spoken(r.transcript) == Spoken(base) + LiveRow(r.packets, id, sessionId).content
  {
    var r := AgentRun(w, base);
    StreamMatchesTranscript(w, base);
    StoredExactly(r.packets, false);
    EndingInErrorHasError(r.packets);
    TextConservation(r.packets);
  }

  // ------------------------------------------------- runs that repeat nothing

  ghost predicate NoneRepeats(ps: seq<Packet>) { forall i, j :: 0 <= i < j < |ps| ==> !Repeats(ps[i], ps[j]) }

  lemma NoneRepeatsBehind(ps: seq<Packet>, n: nat)
    requires n <= |ps| && NoneRepeats(ps[n..])
    requires forall i, j :: 0 <= i < j < n ==> !Repeats(ps[i], ps[j])
    requires forall i, k :: 0 <= i < n <= k < |ps| ==> !SameCall(ps[i], ps[k])
    ensures NoneRepeats(ps)
  {
    forall i, j | 0 <= i < j < |ps| ensures !Repeats(ps[i], ps[j]) {
      if i >= n { assert ps[n..][i - n] == ps[i] && ps[n..][j - n] == ps[j]; }
    }
  }

  lemma FirstBlockRepeatsNothing(ps: seq<Packet>, n: nat, i: nat, j: nat)
    requires Body(ps) && ps != [] && n == FirstBlock(ps) && i < j < n
    ensures j < |ps| && !Repeats(ps[i], ps[j])
  {
    FirstBlockShape(ps, n);
  }

  /** Calls of a body with distinct ids say everything once. */
  lemma {:induction false} BodyRepeatsNothing(ps: seq<Packet>)
    requires Body(ps) && Distinct(StartIds(ps))
    ensures NoneRepeats(ps)
    decreases |ps|
  {
    if ps != [] {
      var n := FirstBlock(ps);
      BlockIds(ps, n);
      var rest := ps[n..];
      DistinctTail(StartIds(ps), StartIds(rest));
      BodyRepeatsNothing(rest);
      forall i, j | 0 <= i < j < n ensures !Repeats(ps[i], ps[j]) { FirstBlockRepeatsNothing(ps, n, i, j); }
      forall i, k | 0 <= i < n <= k < |ps| ensures !SameCall(ps[i], ps[k]) {
        assert rest[k - n] == ps[k];
        if rest[k - n].IsTool() { CallsAreStarted(rest, k - n); }
      }
      NoneRepeatsBehind(ps, n);
    }
  }

  lemma GrammaticalRepeatsNothing(ps: seq<Packet>)
    requires Grammatical(ps) && Distinct(StartIds(ps))
    ensures NoneRepeats(ps)
  {
    if Body(ps) {
      BodyRepeatsNothing(ps);
    } else {
      var body, e := ps[..|ps| - 1], ps[|ps| - 1];
      assert ps == body + [e];
      ErrorStartsNothing(body, e);
      BodyRepeatsNothing(body);
      assert forall i :: 0 <= i < |body| ==> ps[i] == body[i];
    }
  }

  /** With distinct call ids every packet of a run says something new. */
  lemma RunsRepeatNothing(w: World, base: seq<Msg>)
    requires Distinct(StartIds(AgentRun(w, base).packets))
    ensures NoRepeats(AgentRun(w, base).packets)
  {
    var ps := AgentRun(w, base).packets;
    RunsAreGrammatical(w, base);
    GrammaticalRepeatsNothing(ps);
    RunsAreAllowed(w, base);
    assert forall i :: 0 <= i < |ps| ==> Allowed(w.tools, ps[i]);
  }

  /** From the model to the phone: for every provider, every tool behaviour, every place of
      keep-alive comments, every chunking and every schedule of renders, a turn that is stored
      leaves the client with exactly the stored row if and only if its ref showed the whole timeline
      when `finish` came; with distinct call ids, if and only if no content came after the
      render that the ref shows. The row's text is what the model was recorded to have said. */
  lemma ModelToPhone(codec: Codec, w: World, base: seq<Msg>, c: Client, turn: Sending, id: Id, sessionId: Id,
                     items: seq<WireItem>, ticks: seq<Moment<string>>)
    requires Faithful(codec) && w.tools <= TOOL_NAMES && NewTo(c, turn.clientMessageId) && Reads(codec, ticks, items)
    requires Persists(AgentRun(w, base).packets, false)
    requires PacketsOf(items) == LiveWire(AgentRun(w, base).packets, id, sessionId, false)
    ensures var r := AgentRun(w, base);
            var row, sent := LiveRow(r.packets, id, sessionId), LiveBody(r.packets, id, sessionId);
            var delivered := Delivered(AtEnd(codec, Send(c, turn), ticks), c.committed, RowPair(turn, row));
            (delivered <==> Complete(sent, Seen(ticks))) &&
            (AllShown(sent, Seen(ticks)) ==> delivered) &&
            (Distinct(StartIds(r.packets)) ==> (delivered <==> AllShown(sent, Seen(ticks)))) &&
            Spoken(r.transcript) == Spoken(base) + row.content
  {
    var ps := AgentRun(w, base).packets;
    RunsComeFromAgent(w, base);
    if Distinct(StartIds(ps)) { RunsRepeatNothing(w, base); }
    StoredTurnEndToEnd(codec, c, turn, ps, id, sessionId, items, ticks);
    StoredWordsAreSpoken(w, base, id, sessionId);
  }
}
