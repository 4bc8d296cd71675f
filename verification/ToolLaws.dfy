/** What the model asked for and what its tools got: every run of the agent is a list of
    rounds in which each call is spelled by the stream, validated, run and answered
    (app/agents/runtime.py). */
module ToolLaws {
  import opened Prelude
  import opened Packets
  import opened AgentRuntime
  import opened AgentLaws

  // ------------------------------------------------------------ one model answer

  /** The non-empty texts of a stream. */
  function Contents(chunks: seq<Chunk>): seq<string> {
    if chunks == [] then []
    else (if chunks[0].Choice? && Given(chunks[0].content) then [chunks[0].content.value] else []) + Contents(chunks[1..])
  }

  /** The call fragments of a stream. */
  function Pieces(chunks: seq<Chunk>): seq<Fragment> {
    if chunks == [] then [] else (if chunks[0].Choice? then chunks[0].toolCalls else []) + Pieces(chunks[1..])
  }

  /** The reason that came last, if one came. */
  ghost predicate LastReason(chunks: seq<Chunk>, reason: Option<string>) {
    match reason
    case None => forall i :: 0 <= i < |chunks| && chunks[i].Choice? ==> !Given(chunks[i].finishReason)
    case Some(_) =>
      exists i :: 0 <= i < |chunks| && chunks[i].Choice? && Given(reason) && chunks[i].finishReason == reason
                  && forall j :: i < j < |chunks| && chunks[j].Choice? ==> !Given(chunks[j].finishReason)
  }

  lemma {:induction false} ContentsSnoc(chunks: seq<Chunk>, c: Chunk)
    ensures Contents(chunks + [c]) == Contents(chunks) + (if c.Choice? && Given(c.content) then [c.content.value] else [])
    decreases |chunks|
  {
    if chunks == [] {
      assert ([] + [c])[1..] == [];
    } else {
      DropAppend(chunks, [c], 1);
      ContentsSnoc(chunks[1..], c);
    }
  }

  lemma {:induction false} PiecesSnoc(chunks: seq<Chunk>, c: Chunk)
    ensures Pieces(chunks + [c]) == Pieces(chunks) + (if c.Choice? then c.toolCalls else [])
    decreases |chunks|
  {
    if chunks == [] {
      assert ([] + [c])[1..] == [];
      AppendNil(if c.Choice? then c.toolCalls else []);
    } else {
      DropAppend(chunks, [c], 1);
      PiecesSnoc(chunks[1..], c);
      AppendAssoc(if chunks[0].Choice? then chunks[0].toolCalls else [], Pieces(chunks[1..]), if c.Choice? then c.toolCalls else []);
    }
  }

  /** Text packets that carry these texts, one each. */
  predicate Carry(ps: seq<Packet>, texts: seq<string>) {
    |ps| == |texts| && forall i :: 0 <= i < |ps| ==> ps[i] == TextDelta(None, texts[i])
  }

  lemma ReasonSnoc(chunks: seq<Chunk>, c: Chunk, reason: Option<string>)
    requires LastReason(chunks, reason)
    ensures LastReason(chunks + [c], if c.Choice? && Given(c.finishReason) then c.finishReason else reason)
  {
    var all := chunks + [c];
    assert forall i :: 0 <= i < |chunks| ==> all[i] == chunks[i];
    if c.Choice? && Given(c.finishReason) {
      assert all[|chunks|] == c;
    } else if reason.Some? {
      var i :| 0 <= i < |chunks| && chunks[i].Choice? && chunks[i].finishReason == reason
               && forall j :: i < j < |chunks| && chunks[j].Choice? ==> !Given(chunks[j].finishReason);
      assert all[i].finishReason == reason;
    }
  }

  /** What a stream says, said of the stream's chunks in order. */
  lemma {:induction false} StreamSays(chunks: seq<Chunk>)
    ensures Carry(TextPackets(chunks), Contents(chunks)) && StreamText(chunks) == Concat(Contents(chunks))
    ensures Fragments(chunks) == Pieces(chunks) && LastReason(chunks, FinishReason(chunks))
    decreases |chunks|
  {
    if chunks != [] {
      var init, c := chunks[..|chunks| - 1], chunks[|chunks| - 1];
      assert chunks == init + [c];
      StreamSays(init);
      ContentsSnoc(init, c);
      PiecesSnoc(init, c);
      ReasonSnoc(init, c, FinishReason(init));
      if c.Choice? && Given(c.content) {
        ConcatAppend(Contents(init), [c.content.value]);
        ConcatOne(c.content.value);
      } else {
        AppendNil(Contents(init));
        AppendNil(StreamText(init));
        AppendNil(TextPackets(init));
      }
    }
  }

  lemma ConcatOne(s: string)
    ensures Concat([s]) == s
  {
    assert [s][1..] == [] && Concat<char>([]) == [];
    AppendNil(s);
  }

  // ------------------------------------------------------------------- one call

  /** One call that was handled: the transcript it saw, its packets, and its answer, which is
      missing when the call raised. */
  datatype Use = Use(call: PartialCall, seen: seq<Msg>, packets: seq<Packet>, answer: Option<Msg>)

  /** Every packet is about the call. */
  predicate About(ps: seq<Packet>, call: PartialCall) {
    forall i :: 0 <= i < |ps| ==> ps[i].IsTool() && ps[i].toolCallId == call.id && ps[i].tool == call.name
  }

  /** The call ended with this outcome. */
  predicate EndsWithOutcome(ps: seq<Packet>, status: Status, result: Option<Json>, error: Option<string>) {
    ps != [] && ps[|ps| - 1].ToolEnd? && ps[|ps| - 1].status == status && ps[|ps| - 1].result == result && ps[|ps| - 1].error == error
  }

  /** The arguments that a call spells, an empty string standing for no arguments. */
  function SpelledArguments(args: string): string { if args == "" then "{}" else args }

  /** The answer to a call, as text. */
  predicate AnsweredWith(u: Use, text: string) { u.answer == Some(ToolMsg(u.call.id, text)) }

  /** What the validated arguments led to. */
  predicate Ran(w: World, u: Use, args: Json) {
    && |u.packets| == 3 && u.packets[0].ToolStart? && u.packets[1].ToolCall? && u.packets[1].arguments == args
    && match w.run(u.call.name, args, u.seen)
       case Returned(result) => EndsWithOutcome(u.packets, StatusOk, Some(result), None) && AnsweredWith(u, result)
       case Recoverable(e) => EndsWithOutcome(u.packets, StatusError, None, Some(e)) && AnsweredWith(u, w.errorJson(e))
       case Fatal(e) => EndsWithOutcome(u.packets, StatusError, None, Some(e)) && u.answer.None?
  }

  /** The arguments that the model spelled are validated; refused ones go back to the model, and
      validated ones go to the tool, whose outcome goes on the wire and into the transcript. */
  predicate UseFits(w: World, u: Use) {
    About(u.packets, u.call) &&
    if u.call.name !in w.tools then u.packets == [] && u.answer.None?
    else
      match w.validate(u.call.name, SpelledArguments(u.call.args))
      case Err(e) =>
        |u.packets| == 2 && u.packets[0].ToolStart? && EndsWithOutcome(u.packets, StatusError, None, Some(e))
        && AnsweredWith(u, w.errorJson(e))
      case Ok(args) => Ran(w, u, args)
  }

  // ------------------------------------------------------------ the calls of a round

  function AnswersOf(uses: seq<Use>): seq<Msg> {
    if uses == [] then []
    else (if uses[0].answer.Some? then [uses[0].answer.value] else []) + AnswersOf(uses[1..])
  }

  function SentBy(uses: seq<Use>): seq<Packet> {
    if uses == [] then [] else uses[0].packets + SentBy(uses[1..])
  }

  /** The exception that a call raises, if any. */
  function RaisedBy(w: World, u: Use): Option<string> {
    if u.call.name !in w.tools then Some("KeyError")
    else
      match w.validate(u.call.name, SpelledArguments(u.call.args))
      case Err(_) => None
      case Ok(args) => match w.run(u.call.name, args, u.seen) case Fatal(e) => Some(e) case _ => None
  }

  /** The last call raised. */
  predicate Broken(uses: seq<Use>) { uses != [] && uses[|uses| - 1].answer.None? }

  /** The calls were taken in order, each after the answers to those before it, until one raised. */
  predicate UsesFit(w: World, calls: seq<PartialCall>, asked: seq<Msg>, uses: seq<Use>) {
    && |uses| <= |calls| && (|uses| < |calls| ==> Broken(uses))
    && (forall k :: 0 <= k < |uses| ==>
          uses[k].call == calls[k] && uses[k].seen == asked + AnswersOf(uses[..k]) && UseFits(w, uses[k]))
    && (forall k :: 0 <= k < |uses| - 1 ==> uses[k].answer.Some?)
  }

  lemma StepIsUse(w: World, tc: PartialCall, messages: seq<Msg>) returns (u: Use)
    ensures var step := ToolStep(w, tc, messages);
            u.call == tc && u.seen == messages && u.packets == step.packets && UseFits(w, u) &&
            step.appended == (if u.answer.Some? then [u.answer.value] else []) &&
            step.raised == RaisedBy(w, u) && (step.raised.Some? <==> u.answer.None?)
  {
    var step := ToolStep(w, tc, messages);
    u := Use(tc, messages, step.packets, if step.appended == [] then None else Some(step.appended[0]));
  }

  lemma UsesCons(w: World, calls: seq<PartialCall>, asked: seq<Msg>, u: Use, rest: seq<Use>)
    requires calls != [] && u.call == calls[0] && u.seen == asked && UseFits(w, u) && u.answer.Some?
    requires UsesFit(w, calls[1..], asked + [u.answer.value], rest)
    ensures UsesFit(w, calls, asked, [u] + rest)
  {
    var uses := [u] + rest;
    forall k | 0 <= k < |uses|
      ensures uses[k].call == calls[k] && uses[k].seen == asked + AnswersOf(uses[..k]) && UseFits(w, uses[k])
    {
      if k == 0 {
        AppendNil(asked);
      } else {
        assert uses[..k] == [u] + rest[..k - 1] && uses[..k][1..] == rest[..k - 1];
        AppendAssoc(asked, [u.answer.value], AnswersOf(rest[..k - 1]));
        assert uses[k] == rest[k - 1] && calls[k] == calls[1..][k - 1];
      }
    }
    forall k | 0 <= k < |uses| - 1 ensures uses[k].answer.Some? {
      if k > 0 { assert uses[k] == rest[k - 1]; }
    }
    if |uses| < |calls| { assert uses[|uses| - 1] == rest[|rest| - 1]; }
  }

  lemma {:induction false} ToolStepsAreUses(w: World, calls: seq<PartialCall>, asked: seq<Msg>) returns (uses: seq<Use>)
    ensures var step := ToolSteps(w, calls, asked);
            UsesFit(w, calls, asked, uses) && step.packets == SentBy(uses) && step.appended == AnswersOf(uses) &&
            step.raised == (if Broken(uses) then RaisedBy(w, uses[|uses| - 1]) else None) &&
            (Broken(uses) ==> step.raised.Some?)
    decreases |calls|
  {
    if calls == [] {
      uses := [];
    } else {
      var u := StepIsUse(w, calls[0], asked);
      if u.answer.None? {
        uses := [u];
        assert uses[1..] == [] && uses[..0] == [];
        AppendNil(asked);
        AppendNil(u.packets);
      } else {
        var rest := ToolStepsAreUses(w, calls[1..], asked + [u.answer.value]);
        uses := [u] + rest;
        assert uses[1..] == rest;
        UsesCons(w, calls, asked, u, rest);
        BrokenBehind(u, rest);
      }
    }
  }

  lemma BrokenBehind(u: Use, rest: seq<Use>)
    requires u.answer.Some?
    ensures Broken([u] + rest) <==> Broken(rest)
    ensures rest != [] ==> ([u] + rest)[|[u] + rest| - 1] == rest[|rest| - 1]
  {
  }

  // ----------------------------------------------------------------- whole runs

  /** One round: the transcript that was sent to the model, the indexes of the calls it spelled,
      the calls, and what became of them. */
  datatype Round = Round(asked: seq<Msg>, order: seq<int>, calls: seq<PartialCall>, text: seq<Packet>, uses: seq<Use>)

  /** The assistant message of a round. */
  function Said(w: World, rd: Round): Msg {
    var text := Concat(Contents(w.provider(rd.asked).chunks));
    Assistant(if text == "" then None else Some(text), rd.calls)
  }

  /** The transcript behind a round; a failing stream leaves it as it was. */
  function Behind(w: World, rd: Round): seq<Msg> {
    if w.provider(rd.asked).failure.Some? then rd.asked else rd.asked + [Said(w, rd)] + AnswersOf(rd.uses)
  }

  /** The calls are what the stream's fragments spell: one per index, by first appearance. */
  ghost predicate SpelledBy(fs: seq<Fragment>, order: seq<int>, calls: seq<PartialCall>) {
    && |calls| == |order| && (forall k :: 0 <= k < |calls| ==> calls[k] == Spelled(Own(fs, order[k])))
    && (forall i :: i in order <==> Own(fs, i) != [])
    && (forall a, b :: 0 <= a < b < |order| ==> AppearsBefore(fs, order[a], order[b]))
  }

  /** The model asked for tools. */
  ghost predicate AsksForTools(w: World, rd: Round) {
    w.provider(rd.asked).failure.None? && LastReason(w.provider(rd.asked).chunks, Some("tool_calls")) && rd.calls != []
  }

  ghost predicate RoundFits(w: World, rd: Round) {
    && Carry(rd.text, Contents(w.provider(rd.asked).chunks))
    && SpelledBy(Pieces(w.provider(rd.asked).chunks), rd.order, rd.calls)
    && (if AsksForTools(w, rd) then UsesFit(w, rd.calls, rd.asked + [Said(w, rd)], rd.uses) else rd.uses == [])
  }

  /** The round is followed by another one, if there are turns left. */
  ghost predicate GoesOn(w: World, rd: Round) { AsksForTools(w, rd) && !Broken(rd.uses) }

  function SentIn(rounds: seq<Round>): seq<Packet> {
    if rounds == [] then [] else rounds[0].text + SentBy(rounds[0].uses) + SentIn(rounds[1..])
  }

  /** What ends a run after its last round. */
  ghost predicate EndsRun(w: World, rd: Round, tail: seq<Packet>) {
    if w.provider(rd.asked).failure.Some? then tail == [ErrorPacket("agent_failed", w.provider(rd.asked).failure.value)]
    else if Broken(rd.uses) then exists e :: RaisedBy(w, rd.uses[|rd.uses| - 1]) == Some(e) && tail == [ErrorPacket("agent_failed", e)]
    else if AsksForTools(w, rd) then tail == [ErrorPacket("agent_max_turns", "tool loop exceeded cap")]
    else tail == []
  }

  /** A round starts where the one before it stopped. */
  ghost predicate Succeeds(w: World, rounds: seq<Round>, i: int)
    requires 0 < i < |rounds|
  {
    GoesOn(w, rounds[i - 1]) && rounds[i].asked == Behind(w, rounds[i - 1])
  }

  /** Rounds that follow each other from a transcript on. */
  ghost predicate Chain(w: World, messages: seq<Msg>, rounds: seq<Round>) {
    && rounds != [] && rounds[0].asked == messages
    && (forall i :: 0 <= i < |rounds| ==> RoundFits(w, rounds[i]))
    && (forall i :: 0 < i < |rounds| ==> Succeeds(w, rounds, i))
  }

  /** The transcripts that the rounds sent. */
  function Asked(rounds: seq<Round>): (r: seq<seq<Msg>>)
    ensures |r| == |rounds| && forall i :: 0 <= i < |r| ==> r[i] == rounds[i].asked
  {
    seq(|rounds|, i requires 0 <= i < |rounds| => rounds[i].asked)
  }

  /** The rounds are the run: they ask what it asked, send what it sent, and follow each other
      until an answer asks for no tools, fails, or has a call that raises, or `n` are done. */
  ghost predicate Explains(w: World, messages: seq<Msg>, n: nat, r: Run, rounds: seq<Round>, tail: seq<Packet>) {
    && Chain(w, messages, rounds) && |rounds| <= n && r.requests == Asked(rounds)
    && r.transcript == Behind(w, rounds[|rounds| - 1]) && (GoesOn(w, rounds[|rounds| - 1]) ==> |rounds| == n)
    && EndsRun(w, rounds[|rounds| - 1], tail) && r.packets == SentIn(rounds) + tail
  }

  /** The round against what the loop computes. */
  ghost predicate Computes(w: World, rd: Round) {
    var stream := w.provider(rd.asked);
    var turn := TurnOf(stream.chunks);
    && rd.text == TextPackets(stream.chunks) && rd.calls == turn.toolCalls && Said(w, rd) == AssistantMessage(turn)
    && (AsksForTools(w, rd) <==> stream.failure.None? && turn.finishReason == Some("tool_calls") && turn.toolCalls != [])
    && (if AsksForTools(w, rd) then ComputesCalls(w, rd, ToolSteps(w, turn.toolCalls, rd.asked + [AssistantMessage(turn)]))
        else rd.uses == [])
  }

  ghost predicate ComputesCalls(w: World, rd: Round, step: Step) {
    && step.packets == SentBy(rd.uses) && step.appended == AnswersOf(rd.uses)
    && step.raised == (if Broken(rd.uses) then RaisedBy(w, rd.uses[|rd.uses| - 1]) else None)
    && (Broken(rd.uses) ==> step.raised.Some?)
  }

  /** The round that starts from a transcript. */
  lemma RoundFrom(w: World, messages: seq<Msg>) returns (rd: Round)
    ensures rd.asked == messages && RoundFits(w, rd) && Computes(w, rd)
  {
    var chunks := w.provider(messages).chunks;
    var turn := TurnOf(chunks);
    StreamSays(chunks);
    ReasonIsUnique(chunks, FinishReason(chunks), Some("tool_calls"));
    rd := Round(messages, FoldFragments(NO_CALLS, Fragments(chunks)).order, turn.toolCalls, TextPackets(chunks), []);
    CallsAreSpelled(chunks);
    if AsksForTools(w, rd) {
      var uses := ToolStepsAreUses(w, turn.toolCalls, messages + [AssistantMessage(turn)]);
      rd := rd.(uses := uses);
    }
  }

  lemma ReasonIsUnique(chunks: seq<Chunk>, a: Option<string>, b: Option<string>)
    requires LastReason(chunks, a) && Given(b)
    ensures LastReason(chunks, b) <==> a == b
  {
    if LastReason(chunks, b) {
      var i :| 0 <= i < |chunks| && chunks[i].Choice? && chunks[i].finishReason == b
               && forall j :: i < j < |chunks| && chunks[j].Choice? ==> !Given(chunks[j].finishReason);
      if a.Some? {
        var k :| 0 <= k < |chunks| && chunks[k].Choice? && Given(a) && chunks[k].finishReason == a
                 && forall j :: k < j < |chunks| && chunks[j].Choice? ==> !Given(chunks[j].finishReason);
        assert i == k;
      }
    }
  }

  lemma CallsAreSpelled(chunks: seq<Chunk>)
    ensures SpelledBy(Pieces(chunks), FoldFragments(NO_CALLS, Fragments(chunks)).order, TurnOf(chunks).toolCalls)
  {
    var fs := Fragments(chunks);
    var c := FoldFragments(NO_CALLS, fs);
    StreamSays(chunks);
    ReassemblyIsPerIndex(fs);
    FoldKeepsEntered(fs);
    forall i ensures i in c.order <==> Own(fs, i) != [] { assert i in c.order <==> i in c.byIdx; }
    forall k | 0 <= k < |c.order| ensures TurnOf(chunks).toolCalls[k] == Spelled(Own(fs, c.order[k])) {
      assert c.order[k] in c.order;
    }
  }

  /** A run of one round. */
  lemma OneRoundRun(w: World, rd: Round, n: nat, tail: seq<Packet>)
    requires n > 0 && RoundFits(w, rd) && EndsRun(w, rd, tail) && (GoesOn(w, rd) ==> n == 1)
    ensures Explains(w, rd.asked, n, Run(rd.text + SentBy(rd.uses) + tail, [rd.asked], Behind(w, rd)), [rd], tail)
  {
    SentAlone(rd);
    assert Asked([rd]) == [rd.asked];
  }

  lemma SentAlone(rd: Round)
    ensures SentIn([rd]) == rd.text + SentBy(rd.uses)
  {
    assert [rd][1..] == [] && SentIn([]) == [];
    AppendNil(rd.text + SentBy(rd.uses));
  }

  lemma SucceedsCons(w: World, rd: Round, rounds: seq<Round>, i: int)
    requires GoesOn(w, rd) && rounds != [] && rounds[0].asked == Behind(w, rd) && 0 < i <= |rounds|
    requires i > 1 ==> Succeeds(w, rounds, i - 1)
    ensures Succeeds(w, [rd] + rounds, i)
  {
    var all := [rd] + rounds;
    assert all[i] == rounds[i - 1];
    if i > 1 { assert all[i - 1] == rounds[i - 2]; }
  }

  lemma AllCons<T>(p: T -> bool, x: T, xs: seq<T>)
    requires p(x) && forall i :: 0 <= i < |xs| ==> p(xs[i])
    ensures forall i :: 0 <= i < |[x] + xs| ==> p(([x] + xs)[i])
  {
  }

  lemma ChainCons(w: World, rd: Round, rounds: seq<Round>)
    requires RoundFits(w, rd) && GoesOn(w, rd) && Chain(w, Behind(w, rd), rounds)
    ensures Chain(w, rd.asked, [rd] + rounds)
  {
    AllCons((x: Round) => RoundFits(w, x), rd, rounds);
    forall i | 0 < i < |[rd] + rounds| ensures Succeeds(w, [rd] + rounds, i) {
      if i > 1 { assert Succeeds(w, rounds, i - 1); }
      SucceedsCons(w, rd, rounds, i);
    }
  }

  lemma SentCons(rd: Round, rounds: seq<Round>, tail: seq<Packet>)
    ensures SentIn([rd] + rounds) + tail == rd.text + SentBy(rd.uses) + (SentIn(rounds) + tail)
    ensures Asked([rd] + rounds) == [rd.asked] + Asked(rounds)
  {
    assert ([rd] + rounds)[1..] == rounds;
    AppendAssoc(rd.text + SentBy(rd.uses), SentIn(rounds), tail);
  }

  /** A round in front of a run. */
  lemma RoundInFrontOf(w: World, rd: Round, n: nat, r: Run, rounds: seq<Round>, tail: seq<Packet>)
    requires RoundFits(w, rd) && GoesOn(w, rd) && Explains(w, Behind(w, rd), n, r, rounds, tail)
    ensures Explains(w, rd.asked, n + 1, Run(rd.text + SentBy(rd.uses) + r.packets, [rd.asked] + r.requests, r.transcript),
                     [rd] + rounds, tail)
  {
    ChainCons(w, rd, rounds);
    SentCons(rd, rounds, tail);
    assert ([rd] + rounds)[|rounds|] == rounds[|rounds| - 1];
  }

  /** A loop that stops after its first round. */
  lemma LoopStops(w: World, rd: Round, n: nat) returns (tail: seq<Packet>)
    requires n > 0 && Computes(w, rd) && (GoesOn(w, rd) ==> n == 1)
    ensures EndsRun(w, rd, tail)
    ensures Loop(w, rd.asked, n) == Run(rd.text + SentBy(rd.uses) + tail, [rd.asked], Behind(w, rd))
  {
    var stream := w.provider(rd.asked);
    AppendNil(rd.text);
    if stream.failure.Some? {
      tail := [ErrorPacket("agent_failed", stream.failure.value)];
    } else if !AsksForTools(w, rd) {
      tail := [];
      AppendNil(rd.asked + [Said(w, rd)]);
    } else if Broken(rd.uses) {
      tail := [ErrorPacket("agent_failed", RaisedBy(w, rd.uses[|rd.uses| - 1]).value)];
    } else {
      tail := [CAP_EXCEEDED];
      assert Loop(w, Behind(w, rd), 0) == Run([CAP_EXCEEDED], [], Behind(w, rd));
    }
  }

  lemma LoopGoesOn(w: World, rd: Round, n: nat)
    requires n > 0 && Computes(w, rd) && GoesOn(w, rd)
    ensures var rest := Loop(w, Behind(w, rd), n - 1);
            Loop(w, rd.asked, n) == Run(rd.text + SentBy(rd.uses) + rest.packets, [rd.asked] + rest.requests, rest.transcript)
  {
  }

  lemma {:induction false} LoopIsExplained(w: World, messages: seq<Msg>, n: nat)
    returns (rounds: seq<Round>, tail: seq<Packet>)
    requires n > 0
    ensures Explains(w, messages, n, Loop(w, messages, n), rounds, tail)
    decreases n
  {
    var rd := RoundFrom(w, messages);
    if GoesOn(w, rd) && n > 1 {
      var rest, end := LoopIsExplained(w, Behind(w, rd), n - 1);
      LoopGoesOn(w, rd, n);
      RoundInFrontOf(w, rd, n - 1, Loop(w, Behind(w, rd), n - 1), rest, end);
      rounds, tail := [rd] + rest, end;
    } else {
      var end := LoopStops(w, rd, n);
      OneRoundRun(w, rd, n, end);
      rounds, tail := [rd], end;
    }
  }

  /** Every run, whatever the provider and the tools do, is explained by its rounds: at most ten,
      each starting from the transcript that the one before left; its calls are those that the
      fragments of its stream spell, and each call taken is validated with exactly the arguments that
      its fragments join to, run with what validation made of them, and answered, on the wire and
      in the transcript, with what came of it. The run goes on if and only if the model's last
      finish reason asks for tools, it named some, and none raised; otherwise it ends with what
      stopped it. */
  lemma RunsAreExplained(w: World, base: seq<Msg>) returns (rounds: seq<Round>, tail: seq<Packet>)
    ensures Explains(w, base, 10, AgentRun(w, base), rounds, tail)
  {
    rounds, tail := LoopIsExplained(w, base, MAX_TOOL_TURNS);
  }

  /** The outcome of a call, in its packets and its answer. */
  lemma UseReads(w: World, u: Use, args: string)
    requires UseFits(w, u) && u.call.name in w.tools && u.call.args == args
    ensures match w.validate(u.call.name, if args == "" then "{}" else args)
            case Err(e) => u.answer == Some(ToolMsg(u.call.id, w.errorJson(e))) && forall p :: p in u.packets ==> !p.ToolCall?
            case Ok(parsed) =>
              |u.packets| == 3 && u.packets[1] == ToolCall(u.packets[1].step, u.call.id, u.call.name, parsed) &&
              (w.run(u.call.name, parsed, u.seen).Returned? ==>
                 u.answer == Some(ToolMsg(u.call.id, w.run(u.call.name, parsed, u.seen).result)))
  {
  }

  lemma UseOfRound(w: World, base: seq<Msg>, rounds: seq<Round>, tail: seq<Packet>, i: nat, k: nat)
    requires Explains(w, base, 10, AgentRun(w, base), rounds, tail) && i < |rounds| && k < |rounds[i].uses|
    ensures i < |AgentRun(w, base).requests| && rounds[i].asked == AgentRun(w, base).requests[i]
    ensures UseFits(w, rounds[i].uses[k]) && k < |rounds[i].order|
    ensures rounds[i].uses[k].call == Spelled(Own(Pieces(w.provider(rounds[i].asked).chunks), rounds[i].order[k]))
  {
    assert RoundFits(w, rounds[i]);
    assert rounds[i].uses[k].call == rounds[i].calls[k];
  }

  /** So the k-th call of a round gets the joined fragments of its index, and whatever that
      leads to is on the wire and in the transcript of the next request. */
  lemma ArgumentsReachTheTool(w: World, base: seq<Msg>, rounds: seq<Round>, tail: seq<Packet>, i: nat, k: nat)
    requires Explains(w, base, 10, AgentRun(w, base), rounds, tail) && i < |rounds| && k < |rounds[i].uses|
    requires rounds[i].uses[k].call.name in w.tools
    ensures i < |AgentRun(w, base).requests| && k < |rounds[i].order|
    ensures var u := rounds[i].uses[k];
            var own := Own(Pieces(w.provider(AgentRun(w, base).requests[i]).chunks), rounds[i].order[k]);
            var joined := Concat(Parts(own, ArgsPart));
            match w.validate(u.call.name, if joined == "" then "{}" else joined)
            case Err(e) => u.answer == Some(ToolMsg(u.call.id, w.errorJson(e))) && forall p :: p in u.packets ==> !p.ToolCall?
            case Ok(parsed) =>
              |u.packets| == 3 && u.packets[1] == ToolCall(u.packets[1].step, u.call.id, u.call.name, parsed) &&
              (w.run(u.call.name, parsed, u.seen).Returned? ==>
                 u.answer == Some(ToolMsg(u.call.id, w.run(u.call.name, parsed, u.seen).result)))
  {
    UseOfRound(w, base, rounds, tail, i, k);
    var own := Own(Pieces(w.provider(rounds[i].asked).chunks), rounds[i].order[k]);
    UseReads(w, rounds[i].uses[k], Concat(Parts(own, ArgsPart)));
  }
}
