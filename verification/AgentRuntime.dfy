/** The agent's tool loop (app/agents/runtime.py): one provider stream per turn, the
    transcript it extends, and the packets it emits. */
module AgentRuntime {
  import opened Prelude
  import opened Packets

  // --------------------------------------------------------- the outside world

  /** `delta.tool_calls[i].function`, and the fragment around it. */
  datatype FunctionPart = FunctionPart(name: Option<string>, arguments: Option<string>)

  datatype Fragment = Fragment(index: int, id: Option<string>, fn: Option<FunctionPart>)

  datatype Chunk =
    | NoChoices
    | Choice(content: Option<string>, toolCalls: seq<Fragment>, finishReason: Option<string>)

  /** One tool call being assembled. */
  datatype PartialCall = PartialCall(id: string, name: string, args: string)

  datatype Msg =
    | System(text: string)
    | User(text: string)
    | Assistant(content: Option<string>, calls: seq<PartialCall>)
    | ToolMsg(toolCallId: string, text: string)

  /** A provider response: the chunks that arrive, and the exception that ends them, if any. */
  datatype ModelStream = ModelStream(chunks: seq<Chunk>, failure: Option<string>)

  datatype Outcome = Returned(result: Json) | Recoverable(errorLabel: string) | Fatal(errorName: string)

  /** Everything the loop calls into: the provider, the registered tools, the validation of
      their arguments and their results. A run never sees the same transcript twice, so
      functions of the transcript describe every behaviour these can show in one run. */
  datatype World = World(
    provider: seq<Msg> -> ModelStream,
    tools: set<string>,
    validate: (string, string) -> Result<Json, string>,
    run: (string, Json, seq<Msg>) -> Outcome,
    errorJson: string -> string)

  // ------------------------------------------------------ tool-call reassembly

  predicate Given(s: Option<string>) { s.Some? && s.value != "" }

  /** The running accumulator: an insertion-ordered dictionary. */
  datatype Calls = Calls(order: seq<int>, byIdx: map<int, PartialCall>)

  const NO_CALLS: Calls := Calls([], map[])

  function Refine(entry: PartialCall, tc: Fragment): PartialCall {
    var e1 := if Given(tc.id) then entry.(id := tc.id.value) else entry;
    if tc.fn.None? then e1
    else
      var fn := tc.fn.value;
      var e2 := if Given(fn.name) then e1.(name := fn.name.value) else e1;
      if Given(fn.arguments) then e2.(args := e2.args + fn.arguments.value) else e2
  }

  function FoldFragment(c: Calls, tc: Fragment): Calls {
    var d := if tc.index in c.byIdx then c
             else Calls(c.order + [tc.index], c.byIdx[tc.index := PartialCall("", "", "")]);
    d.(byIdx := d.byIdx[tc.index := Refine(d.byIdx[tc.index], tc)])
  }

  function FoldFragments(c: Calls, fs: seq<Fragment>): Calls {
    if fs == [] then c else FoldFragment(FoldFragments(c, fs[..|fs| - 1]), fs[|fs| - 1])
  }

  /** Every index in the order has an entry. */
  predicate Entered(c: Calls) { forall i :: 0 <= i < |c.order| ==> c.order[i] in c.byIdx }

  /** `list(by_idx.values())`. */
  function CallList(c: Calls): (r: seq<PartialCall>)
    requires Entered(c)
    ensures |r| == |c.order| && forall i :: 0 <= i < |r| ==> r[i] == c.byIdx[c.order[i]]
  {
    seq(|c.order|, i requires 0 <= i < |c.order| => c.byIdx[c.order[i]])
  }

  lemma {:induction false} FoldKeepsEntered(fs: seq<Fragment>)
    ensures Entered(FoldFragments(NO_CALLS, fs))
  {
    if fs != [] { FoldKeepsEntered(fs[..|fs| - 1]); }
  }

  class ToolCallAccumulator {
    var order: seq<int>
    var byIdx: map<int, PartialCall>

    constructor ()
      ensures View() == NO_CALLS
    {
      order, byIdx := [], map[];
    }

    function View(): Calls
      reads this
    {
      Calls(order, byIdx)
    }

    /** `_fold_tool_call_deltas`. */
    method FoldDeltas(deltas: seq<Fragment>)
      modifies this
      ensures View() == FoldFragments(old(View()), deltas)
    {
      for i := 0 to |deltas|
        invariant View() == FoldFragments(old(View()), deltas[..i])
      {
        var tc := deltas[i];
        assert deltas[..i + 1][..i] == deltas[..i];
        if tc.index !in byIdx {
          order := order + [tc.index];
          byIdx := byIdx[tc.index := PartialCall("", "", "")];
        }
        var entry := byIdx[tc.index];
        if Given(tc.id) { entry := entry.(id := tc.id.value); }
        if tc.fn.Some? {
          var fn := tc.fn.value;
          if Given(fn.name) { entry := entry.(name := fn.name.value); }
          if Given(fn.arguments) { entry := entry.(args := entry.args + fn.arguments.value); }
        }
        byIdx := byIdx[tc.index := entry];
      }
      assert deltas[..|deltas|] == deltas;
    }
  }

  // ------------------------------------------------------------- one model turn

  datatype TurnResult = TurnResult(text: string, toolCalls: seq<PartialCall>, finishReason: Option<string>)

  function Fragments(chunks: seq<Chunk>): seq<Fragment> {
    if chunks == [] then []
    else
      var last := chunks[|chunks| - 1];
      Fragments(chunks[..|chunks| - 1]) + (if last.Choice? then last.toolCalls else [])
  }

  /** The non-empty content fragments, as packets. */
  function TextPackets(chunks: seq<Chunk>): seq<Packet> {
    if chunks == [] then []
    else
      var last := chunks[|chunks| - 1];
      TextPackets(chunks[..|chunks| - 1]) +
      (if last.Choice? && Given(last.content) then [TextDelta(None, last.content.value)] else [])
  }

  function StreamText(chunks: seq<Chunk>): string {
    if chunks == [] then ""
    else
      var last := chunks[|chunks| - 1];
      StreamText(chunks[..|chunks| - 1]) + (if last.Choice? && Given(last.content) then last.content.value else "")
  }

  function FinishReason(chunks: seq<Chunk>): Option<string> {
    if chunks == [] then None
    else
      var last := chunks[|chunks| - 1];
      if last.Choice? && Given(last.finishReason) then last.finishReason else FinishReason(chunks[..|chunks| - 1])
  }

  function TurnOf(chunks: seq<Chunk>): TurnResult {
    var calls := FoldFragments(NO_CALLS, Fragments(chunks));
    FoldKeepsEntered(Fragments(chunks));
    TurnResult(StreamText(chunks), CallList(calls), FinishReason(chunks))
  }

  function AssistantMessage(turn: TurnResult): Msg {
    Assistant(if turn.text != "" then Some(turn.text) else None, turn.toolCalls)
  }

  // -------------------------------------------------------------- one tool call

  /** What a stretch of the loop does: packets out, messages appended, exception raised. */
  datatype Step = Step(packets: seq<Packet>, appended: seq<Msg>, raised: Option<string>)

  function ToolStep(w: World, tc: PartialCall, messages: seq<Msg>): Step {
    if tc.name !in w.tools then Step([], [], Some("KeyError"))
    else
      match w.validate(tc.name, if tc.args == "" then "{}" else tc.args)
      case Err(errorLabel) =>
        Step([ToolStart(None, tc.id, tc.name), ToolEnd(None, tc.id, tc.name, StatusError, None, Some(errorLabel))],
             [ToolMsg(tc.id, w.errorJson(errorLabel))], None)
      case Ok(args) =>
        var begun := [ToolStart(None, tc.id, tc.name), ToolCall(None, tc.id, tc.name, args)];
        match w.run(tc.name, args, messages)
        case Returned(result) =>
          Step(begun + [ToolEnd(None, tc.id, tc.name, StatusOk, Some(result), None)], [ToolMsg(tc.id, result)], None)
        case Recoverable(errorLabel) =>
          Step(begun + [ToolEnd(None, tc.id, tc.name, StatusError, None, Some(errorLabel))],
               [ToolMsg(tc.id, w.errorJson(errorLabel))], None)
        case Fatal(errorName) =>
          Step(begun + [ToolEnd(None, tc.id, tc.name, StatusError, None, Some(errorName))], [], Some(errorName))
  }

  function ToolSteps(w: World, calls: seq<PartialCall>, messages: seq<Msg>): Step
    decreases |calls|
  {
    if calls == [] then Step([], [], None)
    else
      var first := ToolStep(w, calls[0], messages);
      if first.raised.Some? then first
      else
        var rest := ToolSteps(w, calls[1..], messages + first.appended);
        Step(first.packets + rest.packets, first.appended + rest.appended, rest.raised)
  }

  // ------------------------------------------------------------------- the loop

  const MAX_TOOL_TURNS: nat := 10

  /** A whole run: packets out, the transcripts sent to the provider, the final transcript. */
  datatype Run = Run(packets: seq<Packet>, requests: seq<seq<Msg>>, transcript: seq<Msg>)

  function Failure(errorName: string): Packet { ErrorPacket("agent_failed", errorName) }

  const CAP_EXCEEDED: Packet := ErrorPacket("agent_max_turns", "tool loop exceeded cap")

  /** The loop with `n` turns left. */
  function Loop(w: World, messages: seq<Msg>, n: nat): Run
    decreases n
  {
    if n == 0 then Run([CAP_EXCEEDED], [], messages)
    else
      var stream := w.provider(messages);
      var text := TextPackets(stream.chunks);
      if stream.failure.Some? then Run(text + [Failure(stream.failure.value)], [messages], messages)
      else
        var turn := TurnOf(stream.chunks);
        var asked := messages + [AssistantMessage(turn)];
        if turn.finishReason != Some("tool_calls") || turn.toolCalls == [] then Run(text, [messages], asked)
        else
          var step := ToolSteps(w, turn.toolCalls, asked);
          var answered := asked + step.appended;
          if step.raised.Some? then Run(text + step.packets + [Failure(step.raised.value)], [messages], answered)
          else
            var rest := Loop(w, answered, n - 1);
            Run(text + step.packets + rest.packets, [messages] + rest.requests, rest.transcript)
  }

  function AgentRun(w: World, base: seq<Msg>): Run { Loop(w, base, MAX_TOOL_TURNS) }

  class Transcript {
    var messages: seq<Msg>

    constructor (base: seq<Msg>)
      ensures messages == base
    {
      messages := base;
    }
  }

  method StreamOneTurn(w: World, messages: seq<Msg>) returns (packets: seq<Packet>, turn: TurnResult, raised: Option<string>)
    ensures packets == TextPackets(w.provider(messages).chunks)
    ensures raised == w.provider(messages).failure
    ensures raised.None? ==> turn == TurnOf(w.provider(messages).chunks)
  {
    var textParts, finishReason: Option<string> := "", None;
    var byIdx := new ToolCallAccumulator();
    packets := [];
    var stream := w.provider(messages);
    var chunks := stream.chunks;
    for i := 0 to |chunks|
      invariant fresh(byIdx)
      invariant packets == TextPackets(chunks[..i]) && textParts == StreamText(chunks[..i])
      invariant byIdx.View() == FoldFragments(NO_CALLS, Fragments(chunks[..i]))
      invariant finishReason == FinishReason(chunks[..i])
    {
      var chunk := chunks[i];
      ChunkStep(chunks, i);
      if chunk.NoChoices? { continue; }
      if Given(chunk.content) {
        textParts := textParts + chunk.content.value;
        packets := packets + [TextDelta(None, chunk.content.value)];
      }
      if chunk.toolCalls != [] { byIdx.FoldDeltas(chunk.toolCalls); }
      if Given(chunk.finishReason) { finishReason := chunk.finishReason; }
    }
    assert chunks[..|chunks|] == chunks;
    FoldKeepsEntered(Fragments(chunks));
    turn := TurnResult(textParts, CallList(byIdx.View()), finishReason);
    raised := stream.failure;
  }

  lemma ChunkStep(chunks: seq<Chunk>, i: nat)
    requires i < |chunks|
    ensures var before, now, c := chunks[..i], chunks[..i + 1], chunks[i];
            var tcs := if c.Choice? then c.toolCalls else [];
            FoldFragments(NO_CALLS, Fragments(now)) == FoldFragments(FoldFragments(NO_CALLS, Fragments(before)), tcs) &&
            TextPackets(now) == TextPackets(before) + (if c.Choice? && Given(c.content) then [TextDelta(None, c.content.value)] else []) &&
            StreamText(now) == StreamText(before) + (if c.Choice? && Given(c.content) then c.content.value else "") &&
            FinishReason(now) == if c.Choice? && Given(c.finishReason) then c.finishReason else FinishReason(before)
  {
    assert chunks[..i + 1][..i] == chunks[..i];
    var c := chunks[i];
    FoldFragmentsAppend(NO_CALLS, Fragments(chunks[..i]), if c.Choice? then c.toolCalls else []);
  }

  lemma {:induction false} FoldFragmentsAppend(c: Calls, a: seq<Fragment>, b: seq<Fragment>)
    ensures FoldFragments(c, a + b) == FoldFragments(FoldFragments(c, a), b)
    decreases |b|
  {
    if b == [] {
      AppendNil(a);
    } else {
      assert (a + b)[..|a + b| - 1] == a + b[..|b| - 1];
      FoldFragmentsAppend(c, a, b[..|b| - 1]);
    }
  }

  /** `_surface_tool_error`. */
  method SurfaceToolError(w: World, tc: PartialCall, log: Transcript, errorLabel: string, startEmitted: bool)
    returns (packets: seq<Packet>)
    modifies log
    ensures packets == (if startEmitted then [] else [ToolStart(None, tc.id, tc.name)])
                     + [ToolEnd(None, tc.id, tc.name, StatusError, None, Some(errorLabel))]
    ensures log.messages == old(log.messages) + [ToolMsg(tc.id, w.errorJson(errorLabel))]
  {
    packets := [];
    if !startEmitted { packets := packets + [ToolStart(None, tc.id, tc.name)]; }
    packets := packets + [ToolEnd(None, tc.id, tc.name, StatusError, None, Some(errorLabel))];
    log.messages := log.messages + [ToolMsg(tc.id, w.errorJson(errorLabel))];
  }

  method RunOneTool(w: World, tc: PartialCall, log: Transcript) returns (packets: seq<Packet>, raised: Option<string>)
    modifies log
    ensures var step := ToolStep(w, tc, old(log.messages));
            packets == step.packets && raised == step.raised && log.messages == old(log.messages) + step.appended
  {
    if tc.name !in w.tools { return [], Some("KeyError"); }
    match w.validate(tc.name, if tc.args == "" then "{}" else tc.args) {
      case Err(errorLabel) =>
        packets := SurfaceToolError(w, tc, log, errorLabel, false);
        return packets, None;
      case Ok(args) =>
        packets := [ToolStart(None, tc.id, tc.name)];
        packets := packets + [ToolCall(None, tc.id, tc.name, args)];
        match w.run(tc.name, args, log.messages) {
          case Recoverable(errorLabel) =>
            var more := SurfaceToolError(w, tc, log, errorLabel, true);
            return packets + more, None;
          case Fatal(errorName) =>
            packets := packets + [ToolEnd(None, tc.id, tc.name, StatusError, None, Some(errorName))];
            return packets, Some(errorName);
          case Returned(result) =>
            packets := packets + [ToolEnd(None, tc.id, tc.name, StatusOk, Some(result), None)];
            log.messages := log.messages + [ToolMsg(tc.id, result)];
            return packets, None;
        }
    }
  }

  /** The inner `for tc in turn.tool_calls` loop. */
  method RunTools(w: World, calls: seq<PartialCall>, log: Transcript) returns (packets: seq<Packet>, raised: Option<string>)
    modifies log
    ensures var step := ToolSteps(w, calls, old(log.messages));
            packets == step.packets && raised == step.raised && log.messages == old(log.messages) + step.appended
  {
    packets, raised := [], None;
    ghost var start, done := log.messages, Step([], [], None);
    assert calls[0..] == calls;
    ThenStepUnit(ToolSteps(w, calls, log.messages));
    for i := 0 to |calls|
      invariant done == Step(packets, done.appended, None) && log.messages == start + done.appended
      invariant ToolSteps(w, calls, start) == ThenStep(done, ToolSteps(w, calls[i..], log.messages))
    {
      ghost var first := ToolStep(w, calls[i], log.messages);
      ToolStepsUnfold(w, calls, i, log.messages, done, start);
      var more, failed := RunOneTool(w, calls[i], log);
      packets := packets + more;
      if failed.Some? { return packets, failed; }
      done := ThenStep(done, first);
    }
    AppendNil(packets);
    AppendNil(done.appended);
  }

  function ThenStep(a: Step, b: Step): Step { Step(a.packets + b.packets, a.appended + b.appended, b.raised) }

  lemma ThenStepUnit(s: Step)
    ensures ThenStep(Step([], [], None), s) == s
  {
  }

  lemma ToolStepsUnfold(w: World, calls: seq<PartialCall>, i: nat, now: seq<Msg>, done: Step, start: seq<Msg>)
    requires i < |calls| && now == start + done.appended
    ensures var first := ToolStep(w, calls[i], now);
            now + first.appended == start + ThenStep(done, first).appended &&
            ThenStep(done, ToolSteps(w, calls[i..], now)) ==
              if first.raised.Some? then ThenStep(done, first)
              else ThenStep(ThenStep(done, first), ToolSteps(w, calls[i + 1..], now + first.appended))
  {
    var first := ToolStep(w, calls[i], now);
    assert calls[i..][0] == calls[i];
    DropDrop(calls, i, 1);
    AppendAssoc(start, done.appended, first.appended);
    if first.raised.None? {
      var rest := ToolSteps(w, calls[i + 1..], now + first.appended);
      AppendAssoc(done.packets, first.packets, rest.packets);
      AppendAssoc(done.appended, first.appended, rest.appended);
    }
  }

  /** The outer loop. Every exception becomes a final error packet. */
  method RunAgentStream(w: World, log: Transcript) returns (packets: seq<Packet>, requests: seq<seq<Msg>>)
    modifies log
    ensures var run := AgentRun(w, old(log.messages));
            packets == run.packets && requests == run.requests && log.messages == run.transcript
  {
    packets, requests := [], [];
    ThenRunUnit(AgentRun(w, log.messages));
    for n := MAX_TOOL_TURNS downto 0
      invariant AgentRun(w, old(log.messages)) == ThenRun(packets, requests, Loop(w, log.messages, n))
    {
      LoopUnfold(w, log.messages, n + 1, packets, requests);
      requests := requests + [log.messages];
      var text, turn, raised := StreamOneTurn(w, log.messages);
      packets := packets + text;
      if raised.Some? { return packets + [Failure(raised.value)], requests; }
      log.messages := log.messages + [AssistantMessage(turn)];
      if turn.finishReason != Some("tool_calls") || turn.toolCalls == [] { return packets, requests; }
      var more, failed := RunTools(w, turn.toolCalls, log);
      packets := packets + more;
      if failed.Some? { return packets + [Failure(failed.value)], requests; }
    }
    AppendNil(requests);
    packets := packets + [CAP_EXCEEDED];
  }

  function ThenRun(packets: seq<Packet>, requests: seq<seq<Msg>>, rest: Run): Run {
    Run(packets + rest.packets, requests + rest.requests, rest.transcript)
  }

  lemma ThenRunUnit(r: Run)
    ensures ThenRun([], [], r) == r
  {
  }

  lemma LoopUnfold(w: World, messages: seq<Msg>, n: nat, packets: seq<Packet>, requests: seq<seq<Msg>>)
    requires n > 0
    ensures var stream := w.provider(messages);
            var sent, asked := packets + TextPackets(stream.chunks), requests + [messages];
            var turn := TurnOf(stream.chunks);
            var said := messages + [AssistantMessage(turn)];
            var step := ToolSteps(w, turn.toolCalls, said);
            ThenRun(packets, requests, Loop(w, messages, n)) ==
              if stream.failure.Some? then Run(sent + [Failure(stream.failure.value)], asked, messages)
              else if turn.finishReason != Some("tool_calls") || turn.toolCalls == [] then Run(sent, asked, said)
              else if step.raised.Some? then Run(sent + step.packets + [Failure(step.raised.value)], asked, said + step.appended)
              else ThenRun(sent + step.packets, asked, Loop(w, said + step.appended, n - 1))
  {
    var stream := w.provider(messages);
    var text := TextPackets(stream.chunks);
    var turn := TurnOf(stream.chunks);
    var said := messages + [AssistantMessage(turn)];
    var step := ToolSteps(w, turn.toolCalls, said);
    if stream.failure.Some? {
      AppendAssoc(packets, text, [Failure(stream.failure.value)]);
    } else if turn.finishReason != Some("tool_calls") || turn.toolCalls == [] {
    } else if step.raised.Some? {
      AssocFour(packets, text, step.packets, [Failure(step.raised.value)]);
    } else {
      var rest := Loop(w, said + step.appended, n - 1);
      AssocFour(packets, text, step.packets, rest.packets);
      AppendAssoc(requests, [messages], rest.requests);
    }
  }

  lemma AssocFour<T>(a: seq<T>, b: seq<T>, c: seq<T>, d: seq<T>)
    ensures a + ((b + c) + d) == ((a + b) + c) + d
  {
  }
}
