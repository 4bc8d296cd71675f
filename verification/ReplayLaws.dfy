/** Replaying a stored turn: which rows a replay rebuilds exactly, and which rows a
    fresh numbering of the replay reproduces step by step. */
module ReplayLaws {
  import opened Prelude
  import opened Packets
  import opened ChatStream
  import opened TimelineLaws

  lemma {:induction false} FoldAllAppend(t: Timeline, a: seq<Packet>, b: seq<Packet>)
    ensures FoldAll(t, a + b) == FoldAll(FoldAll(t, a), b)
    decreases |a|
  {
    if a == [] {
      AppendNil(b);
    } else {
      DropAppend(a, b, 1);
      FoldAllAppend(FoldPacket(t, a[0]), a[1..], b);
    }
  }

  lemma {:induction false} NumberAppend(a: Assigner, x: seq<Packet>, y: seq<Packet>)
    ensures Number(a, x + y) == Number(a, x) + Number(AssignerAfter(a, x), y)
    ensures AssignerAfter(a, x + y) == AssignerAfter(AssignerAfter(a, x), y)
    decreases |x|
  {
    if x == [] {
      AppendNil(y);
    } else {
      DropAppend(x, y, 1);
      NumberAppend(Assign(a, x[0]).0, x[1..], y);
      AppendAssoc([Stamp(a, x[0])], Number(Assign(a, x[0]).0, x[1..]), Number(AssignerAfter(a, x), y));
    }
  }

  // ------------------------------------------------ rebuilding the timeline

  ghost predicate Ascending(es: seq<Event>) { forall i, j :: 0 <= i < j < |es| ==> es[i].step < es[j].step }

  ghost predicate AllSettled(es: seq<Event>) { forall i :: 0 <= i < |es| ==> es[i].Settled() }

  function ByStep(es: seq<Event>): map<nat, Event> {
    if es == [] then map[]
    else var last := es[|es| - 1]; ByStep(es[..|es| - 1])[last.step := last]
  }

  /** Every stored event is keyed by its own step and settled. */
  ghost predicate Sane(t: Timeline) {
    forall s :: s in t.events ==> t.events[s].step == s && t.events[s].Settled()
  }

  lemma {:induction false} FoldKeepsSane(t: Timeline, ps: seq<Packet>)
    requires Sane(t)
    ensures Sane(FoldAll(t, ps))
    decreases |ps|
  {
    if ps != [] { FoldKeepsSane(FoldPacket(t, ps[0]), ps[1..]); }
  }

  lemma FoldThree(t: Timeline, p: Packet, mid: seq<Packet>, end: seq<Packet>)
    requires |mid| <= 1 && |end| <= 1
    ensures var t1 := FoldPacket(t, p);
            var t2 := if mid == [] then t1 else FoldPacket(t1, mid[0]);
            FoldAll(t, [p] + mid + end) == if end == [] then t2 else FoldPacket(t2, end[0])
  {
    FoldAllAppend(t, [p] + mid, end);
    FoldAllAppend(t, [p], mid);
    FoldShort(t, [p]);
    FoldShort(FoldPacket(t, p), mid);
    FoldShort(FoldAll(t, [p] + mid), end);
  }

  lemma FoldShort(t: Timeline, ps: seq<Packet>)
    requires |ps| <= 1
    ensures FoldAll(t, ps) == if ps == [] then t else FoldPacket(t, ps[0])
  {
    if ps != [] { assert ps[1..] == []; }
  }

  lemma ReplayOne(t: Timeline, e: Event)
    requires e.step !in t.events && e.Settled()
    ensures FoldAll(t, ReplayEvent(e)) == t.(events := t.events[e.step := e])
  {
    match e {
      case TextEvent(step, content) =>
        FoldShort(t, ReplayEvent(e));
      case ToolEvent(step, id, tool, arguments, status, result, error) =>
        FoldThree(t, ToolStart(Some(step), id, tool),
                  if arguments.Some? then [ToolCall(Some(step), id, tool, arguments.value)] else [],
                  if status.Some? then [ToolEnd(Some(step), id, tool, status.value, result, error)] else []);
    }
  }

  lemma {:induction false} ByStepKeys(es: seq<Event>, s: nat)
    ensures s in ByStep(es) <==> exists i :: 0 <= i < |es| && es[i].step == s
  {
    if es != [] {
      var init := es[..|es| - 1];
      ByStepKeys(init, s);
      if i :| 0 <= i < |init| && init[i].step == s { assert es[i].step == s; }
      if i :| 0 <= i < |es| && es[i].step == s {
        if i < |init| { assert init[i].step == s; }
      }
    }
  }

  lemma {:induction false} ReplayFolds(es: seq<Event>)
    requires Ascending(es) && AllSettled(es)
    ensures FoldAll(EMPTY, Replay(es)) == Timeline(ByStep(es), false)
    decreases |es|
  {
    if es != [] {
      var init, last := es[..|es| - 1], es[|es| - 1];
      ReplayFolds(init);
      ByStepKeys(init, last.step);
      FoldAllAppend(EMPTY, Replay(init), ReplayEvent(last));
      ReplayOne(Timeline(ByStep(init), false), last);
    }
  }

  lemma {:induction false} ByStepAt(es: seq<Event>, i: nat)
    requires Ascending(es) && i < |es|
    ensures es[i].step in ByStep(es) && ByStep(es)[es[i].step] == es[i]
    decreases |es|
  {
    if i < |es| - 1 { ByStepAt(es[..|es| - 1], i); }
  }

  function StepsOf(es: seq<Event>): (steps: seq<nat>)
    ensures |steps| == |es| && forall i :: 0 <= i < |es| ==> steps[i] == es[i].step
  {
    seq(|es|, i requires 0 <= i < |es| => es[i].step)
  }

  /** The stored list read back in step order is the list itself. */
  lemma InOrderByStep(es: seq<Event>)
    requires Ascending(es)
    ensures InOrder(Timeline(ByStep(es), false)) == es
  {
    var steps, t := StepsOf(es), Timeline(ByStep(es), false);
    forall x ensures x in steps <==> x in t.events.Keys {
      ByStepKeys(es, x);
      if i :| 0 <= i < |es| && es[i].step == x { assert steps[i] == x; }
    }
    IncreasingUnique(steps, Sorted(t.events.Keys));
    forall i | 0 <= i < |es| ensures InOrder(t)[i] == es[i] { ByStepAt(es, i); }
  }

  lemma InOrderIsTidy(t: Timeline)
    requires Sane(t)
    ensures Ascending(InOrder(t)) && AllSettled(InOrder(t))
  {
    var steps, es := Sorted(t.events.Keys), InOrder(t);
    assert forall i :: 0 <= i < |es| ==> steps[i] in t.events && es[i].step == steps[i];
  }

  /** Folding the replay of a stored list gives the list back exactly when its steps
      ascend and no unfinished call carries an outcome. */
  lemma ReplayRebuildsExactly(es: seq<Event>)
    requires es != []
    ensures EventsList(FoldAll(EMPTY, Replay(es))) == Some(es) <==> Ascending(es) && AllSettled(es)
  {
    var t := FoldAll(EMPTY, Replay(es));
    FoldKeepsSane(EMPTY, Replay(es));
    InOrderIsTidy(t);
    if Ascending(es) && AllSettled(es) {
      ReplayFolds(es);
      InOrderByStep(es);
    }
  }

  lemma ByStepHasKey(t: Timeline, es: seq<Event>, s: nat)
    requires Sane(t) && es == InOrder(t)
    ensures s in ByStep(es) <==> s in t.events
  {
    var steps := Sorted(t.events.Keys);
    assert forall i :: 0 <= i < |es| ==> steps[i] in t.events && es[i].step == steps[i];
    ByStepKeys(es, s);
    if s in t.events {
      var i :| 0 <= i < |steps| && steps[i] == s;
      assert es[i].step == s;
    }
  }

  lemma ByStepHasValue(t: Timeline, es: seq<Event>, s: nat)
    requires Sane(t) && es == InOrder(t) && Ascending(es) && s in t.events
    ensures s in ByStep(es) && ByStep(es)[s] == t.events[s]
  {
    var steps := Sorted(t.events.Keys);
    var i :| 0 <= i < |steps| && steps[i] == s;
    assert es[i] == t.events[s] && es[i].step == s;
    ByStepAt(es, i);
  }

  lemma ByStepOfInOrder(t: Timeline)
    requires Sane(t)
    ensures ByStep(InOrder(t)) == t.events
  {
    InOrderIsTidy(t);
    forall s ensures s in ByStep(InOrder(t)) <==> s in t.events { ByStepHasKey(t, InOrder(t), s); }
    forall s | s in t.events ensures ByStep(InOrder(t))[s] == t.events[s] { ByStepHasValue(t, InOrder(t), s); }
  }

  /** Replay refines live: whatever packets an agent produced, folding the replay of
      the stored events rebuilds the live timeline. */
  lemma ReplayRefinesLive(ps: seq<Packet>)
    ensures FoldAll(EMPTY, Replay(InOrder(LiveTimeline(ps)))) == Timeline(LiveTimeline(ps).events, false)
  {
    var t := LiveTimeline(ps);
    FoldKeepsSane(EMPTY, Number(FRESH, ps));
    InOrderIsTidy(t);
    ReplayFolds(InOrder(t));
    ByStepOfInOrder(t);
  }

  // --------------------------------------------------- renumbering a replay

  /** The first packet of an event's replay decides the step of all of them. */
  function Opener(e: Event): Packet { ReplayEvent(e)[0] }

  function StepGiven(a: Assigner, e: Event): nat {
    if e.TextEvent? then (if a.lastKind == Some(TextKind) && a.textStep.Some? then a.textStep.value else a.next)
    else if e.toolCallId in a.toolSteps then a.toolSteps[e.toolCallId] else a.next
  }

  lemma NumberReplayEvent(a: Assigner, e: Event)
    requires a.lastKind == Some(TextKind) ==> a.textStep.Some?
    ensures Number(a, ReplayEvent(e)) == ReplayEvent(e.(step := StepGiven(a, e)))
    ensures AssignerAfter(a, ReplayEvent(e)) == Assign(a, Opener(e)).0
  {
    match e {
      case TextEvent(_, _) =>
        NumberShort(a, ReplayEvent(e));
      case ToolEvent(_, _, _, _, _, _, _) =>
        NumberReplayedTool(a, e, StepGiven(a, e));
    }
  }

  /** The packets that may follow `start`, at a step. */
  function CallPart(e: Event, s: nat): seq<Packet>
    requires e.ToolEvent?
  {
    if e.arguments.Some? then [ToolCall(Some(s), e.toolCallId, e.tool, e.arguments.value)] else []
  }

  function EndPart(e: Event, s: nat): seq<Packet>
    requires e.ToolEvent?
  {
    if e.status.Some? then [ToolEnd(Some(s), e.toolCallId, e.tool, e.status.value, e.result, e.error)] else []
  }

  lemma RestepParts(e: Event, s: nat)
    requires e.ToolEvent?
    ensures Restep(CallPart(e, e.step), s) == CallPart(e, s) && Restep(EndPart(e, e.step), s) == EndPart(e, s)
  {
    assert Restep([], s) == [];
    if e.arguments.Some? { assert CallPart(e, e.step)[1..] == []; }
    if e.status.Some? { assert EndPart(e, e.step)[1..] == []; }
  }

  lemma NumberReplayedTool(a: Assigner, e: Event, s: nat)
    requires e.ToolEvent? && s == Assign(a, ToolStart(Some(e.step), e.toolCallId, e.tool)).0.toolSteps[e.toolCallId]
    ensures Number(a, ReplayEvent(e)) == [ToolStart(Some(s), e.toolCallId, e.tool)] + CallPart(e, s) + EndPart(e, s)
    ensures AssignerAfter(a, ReplayEvent(e)) == Assign(a, Opener(e)).0
  {
    NumberCall(a, ToolStart(Some(e.step), e.toolCallId, e.tool), CallPart(e, e.step), EndPart(e, e.step));
    RestepParts(e, s);
  }

  function Restep(ps: seq<Packet>, s: nat): seq<Packet> {
    if ps == [] then [] else [ps[0].WithStep(s)] + Restep(ps[1..], s)
  }

  /** The packets of a call that is open keep its step and change nothing. */
  lemma NumberOpenCall(b: Assigner, ps: seq<Packet>, id: string)
    requires id in b.toolSteps && b.lastKind == Some(ToolKind) && |ps| <= 1
    requires forall p :: p in ps ==> p.IsTool() && p.toolCallId == id
    ensures Number(b, ps) == Restep(ps, b.toolSteps[id]) && AssignerAfter(b, ps) == b
  {
    NumberShort(b, ps);
    if ps != [] {
      assert ps[0] in ps && ps[1..] == [];
      assert Restep([], b.toolSteps[id]) == [];
    }
  }

  /** The packets of one call share the step of the first. */
  lemma NumberCall(a: Assigner, first: Packet, mid: seq<Packet>, end: seq<Packet>)
    requires first.IsTool() && |mid| <= 1 && |end| <= 1
    requires forall p :: p in mid || p in end ==> p.IsTool() && p.toolCallId == first.toolCallId
    ensures var b := Assign(a, first).0;
            var s := b.toolSteps[first.toolCallId];
            Number(a, [first] + mid + end) == [first.WithStep(s)] + Restep(mid, s) + Restep(end, s) &&
            AssignerAfter(a, [first] + mid + end) == b
  {
    var b := Assign(a, first).0;
    NumberAppend(a, [first] + mid, end);
    NumberAppend(a, [first], mid);
    NumberShort(a, [first]);
    NumberOpenCall(b, mid, first.toolCallId);
    NumberOpenCall(b, end, first.toolCallId);
  }

  lemma NumberShort(a: Assigner, ps: seq<Packet>)
    requires |ps| <= 1
    ensures Number(a, ps) == if ps == [] then [] else [Stamp(a, ps[0])]
    ensures AssignerAfter(a, ps) == if ps == [] then a else Assign(a, ps[0]).0
  {
    if ps != [] { assert ps[1..] == []; }
  }

  ghost predicate Canonical(es: seq<Event>) {
    && (forall i :: 0 <= i < |es| ==> es[i].step == i + 1)
    && (forall i :: 0 < i < |es| ==> !(es[i - 1].TextEvent? && es[i].TextEvent?))
    && (forall i, j :: 0 <= i < j < |es| && es[i].ToolEvent? && es[j].ToolEvent? ==>
          es[i].toolCallId != es[j].toolCallId)
  }

  /** A fresh assigner after the replay of a canonical list. */
  ghost predicate Follows(a: Assigner, es: seq<Event>) {
    && a.next == |es| + 1
    && (a.lastKind == Some(TextKind) ==> a.textStep == Some(|es|))
    && (a.lastKind == Some(TextKind) <==> es != [] && es[|es| - 1].TextEvent?)
    && (forall id :: id in a.toolSteps <==> exists i :: 0 <= i < |es| && es[i].ToolEvent? && es[i].toolCallId == id)
    && (forall id :: id in a.toolSteps ==> a.toolSteps[id] <= |es|)
  }

  lemma CanonicalPrefix(es: seq<Event>)
    requires es != [] && Canonical(es)
    ensures Canonical(es[..|es| - 1])
  {
    var init := es[..|es| - 1];
    assert forall i :: 0 <= i < |init| ==> init[i] == es[i];
    forall i | 0 < i < |init| ensures !(init[i - 1].TextEvent? && init[i].TextEvent?) {
      assert init[i - 1] == es[i - 1];
    }
  }

  /** Whether the last event continues a canonical list. */
  predicate Continues(a: Assigner, es: seq<Event>, e: Event) {
    && e.step == |es| + 1
    && (e.TextEvent? ==> a.lastKind != Some(TextKind))
    && (e.ToolEvent? ==> e.toolCallId !in a.toolSteps)
  }

  lemma CanonicalExtends(a: Assigner, es: seq<Event>, e: Event)
    requires Canonical(es) && Follows(a, es)
    ensures Canonical(es + [e]) <==> Continues(a, es, e)
  {
    var fs := es + [e];
    assert forall i :: 0 <= i < |es| ==> fs[i] == es[i];
    assert fs[|es|] == e;
    if Canonical(fs) {
      if es != [] { assert !(fs[|es|].TextEvent? && fs[|es| - 1].TextEvent?); }
    }
    if Continues(a, es, e) {
      forall i | 0 < i < |fs| ensures !(fs[i - 1].TextEvent? && fs[i].TextEvent?) {
        assert fs[i - 1] == es[i - 1];
      }
    }
  }

  lemma FollowsExtends(a: Assigner, es: seq<Event>, e: Event)
    requires Follows(a, es) && Continues(a, es, e)
    ensures Follows(Assign(a, Opener(e)).0, es + [e])
  {
    var b, fs := Assign(a, Opener(e)).0, es + [e];
    assert forall i :: 0 <= i < |es| ==> fs[i] == es[i];
    assert fs[|es|] == e;
    forall id ensures id in b.toolSteps <==> exists i :: 0 <= i < |fs| && fs[i].ToolEvent? && fs[i].toolCallId == id {
      if id in a.toolSteps {
        var i :| 0 <= i < |es| && es[i].ToolEvent? && es[i].toolCallId == id;
        assert fs[i].toolCallId == id;
      } else if e.ToolEvent? && e.toolCallId == id {
        assert fs[|es|].toolCallId == id;
      }
    }
  }

  lemma StepGivenContinues(a: Assigner, es: seq<Event>, e: Event)
    requires Follows(a, es) && (es != [] ==> es[|es| - 1].step == |es|)
    requires es != [] ==> es[|es| - 1].step < e.step
    ensures StepGiven(a, e) == e.step <==> Continues(a, es, e)
  {
  }

  lemma RenumberLast(a: Assigner, init: seq<Event>, e: Event)
    requires Ascending(init + [e]) && Canonical(init) && Follows(a, init)
    ensures Number(a, ReplayEvent(e)) == ReplayEvent(e) <==> Canonical(init + [e])
    ensures Canonical(init + [e]) ==> Follows(AssignerAfter(a, ReplayEvent(e)), init + [e])
  {
    if init != [] {
      assert (init + [e])[|init| - 1] == init[|init| - 1] && (init + [e])[|init|] == e;
      assert init[|init| - 1].step < e.step;
      assert init[|init| - 1].step == |init| - 1 + 1;
    }
    NumberReplayEvent(a, e);
    StepGivenContinues(a, init, e);
    CanonicalExtends(a, init, e);
    SameReplayEvent(e, StepGiven(a, e));
    if Continues(a, init, e) { FollowsExtends(a, init, e); }
  }

  lemma {:induction false} RenumberPrefix(es: seq<Event>)
    requires Ascending(es)
    ensures Number(FRESH, Replay(es)) == Replay(es) <==> Canonical(es)
    ensures Canonical(es) ==> Follows(AssignerAfter(FRESH, Replay(es)), es)
    decreases |es|
  {
    if es != [] {
      var init, e := es[..|es| - 1], es[|es| - 1];
      assert es == init + [e];
      RenumberPrefix(init);
      var a := AssignerAfter(FRESH, Replay(init));
      NumberAppend(FRESH, Replay(init), ReplayEvent(e));
      SplitEqual(Number(FRESH, Replay(init)), Replay(init), Number(a, ReplayEvent(e)), ReplayEvent(e));
      if Canonical(init) {
        RenumberLast(a, init, e);
      } else if Canonical(es) {
        CanonicalPrefix(es);
      }
    }
  }

  lemma SplitEqual<T>(a: seq<T>, a': seq<T>, b: seq<T>, b': seq<T>)
    requires |a| == |a'| && |b| == |b'|
    ensures a + b == a' + b' <==> a == a' && b == b'
  {
    assert (a + b)[..|a|] == a && (a + b)[|a|..] == b;
    assert (a' + b')[..|a|] == a' && (a' + b')[|a|..] == b';
  }

  lemma SameReplayEvent(e: Event, s: nat)
    ensures ReplayEvent(e.(step := s)) == ReplayEvent(e) <==> s == e.step
  {
    if ReplayEvent(e.(step := s)) == ReplayEvent(e) {
      assert ReplayEvent(e.(step := s))[0].step == Some(s);
      assert ReplayEvent(e)[0].step == Some(e.step);
    }
  }

  /** A fresh assigner gives every packet of a replay its stored step exactly when the
      steps are 1..n, no two text events are neighbours and tool ids are distinct. */
  lemma RenumberingReproducesExactly(es: seq<Event>)
    requires Ascending(es)
    ensures Number(FRESH, Replay(es)) == Replay(es) <==> Canonical(es)
  {
    RenumberPrefix(es);
  }

  // ---------------------------------------------- contiguous tool lifecycles

  predicate SameCall(p: Packet, q: Packet) { p.IsTool() && q.IsTool() && p.toolCallId == q.toolCallId }

  /** The packets of one tool call come one after the other. */
  ghost predicate Contiguous(ps: seq<Packet>) {
    forall i, j, k :: 0 <= i < j < k < |ps| && SameCall(ps[i], ps[k]) ==> SameCall(ps[i], ps[j])
  }

  /** The last content packet of the stream is a text delta. */
  ghost predicate EndsInText(ps: seq<Packet>) {
    exists q :: 0 <= q < |ps| && ps[q].TextDelta? && forall j :: q < j < |ps| ==> !ps[j].IsContent()
  }

  ghost predicate CallSeen(ps: seq<Packet>, id: string) {
    exists m :: 0 <= m < |ps| && ps[m].IsTool() && ps[m].toolCallId == id
  }

  /** What numbering knows about a contiguous stream. */
  ghost predicate Tidy(ps: seq<Packet>, a: Assigner, t: Timeline) {
    && Linked(a, t)
    && (forall id :: id in a.toolSteps ==> CallSeen(ps, id))
    && (a.lastKind == None ==> a.next == 1)
    && (a.lastKind == Some(ToolKind) ==> a.next >= 2 && !TextAt(t, a.next - 1))
    && (a.lastKind == Some(TextKind) ==> EndsInText(ps))
    && (forall s :: 1 <= s && s + 1 < a.next ==> !(TextAt(t, s) && TextAt(t, s + 1)))
  }

  lemma CallSeenGrows(ps: seq<Packet>, p: Packet, id: string)
    requires CallSeen(ps, id)
    ensures CallSeen(ps + [p], id)
  {
    var m :| 0 <= m < |ps| && ps[m].IsTool() && ps[m].toolCallId == id;
    assert (ps + [p])[m] == ps[m];
  }

  /** A call that is open cannot be resumed after text. */
  lemma NoResumption(ps: seq<Packet>, p: Packet)
    requires Contiguous(ps + [p]) && p.IsTool() && CallSeen(ps, p.toolCallId)
    ensures !EndsInText(ps)
  {
    if EndsInText(ps) {
      var q :| 0 <= q < |ps| && ps[q].TextDelta? && forall j :: q < j < |ps| ==> !ps[j].IsContent();
      var m :| 0 <= m < |ps| && ps[m].IsTool() && ps[m].toolCallId == p.toolCallId;
      var all := ps + [p];
      assert all[m] == ps[m] && all[q] == ps[q] && all[|ps|] == p;
      assert m < q;
      assert SameCall(all[m], all[|ps|]);
    }
  }

  lemma EndsInTextSnoc(ps: seq<Packet>, p: Packet)
    ensures p.TextDelta? ==> EndsInText(ps + [p])
    ensures !p.IsContent() && EndsInText(ps) ==> EndsInText(ps + [p])
  {
    var all := ps + [p];
    if p.TextDelta? {
      assert all[|ps|] == p;
    } else if !p.IsContent() && EndsInText(ps) {
      var q :| 0 <= q < |ps| && ps[q].TextDelta? && forall j :: q < j < |ps| ==> !ps[j].IsContent();
      assert all[q] == ps[q];
      forall j | q < j < |all| ensures !all[j].IsContent() {
        if j < |ps| { assert all[j] == ps[j]; }
      }
    }
  }

  /** Which steps are text after one more packet. */
  lemma TextStepsAfter(a: Assigner, t: Timeline, p: Packet)
    requires Linked(a, t)
    ensures var b, u := Assign(a, p).0, FoldPacket(t, Stamp(a, p));
            forall s :: TextAt(u, s) <==> TextAt(t, s) || (p.TextDelta? && s == b.next - 1)
  {
  }

  lemma CallsSeenAfter(ps: seq<Packet>, p: Packet, a: Assigner, id: string)
    requires id in Assign(a, p).0.toolSteps && (id in a.toolSteps ==> CallSeen(ps, id))
    ensures CallSeen(ps + [p], id)
  {
    if id in a.toolSteps { CallSeenGrows(ps, p, id); } else { assert (ps + [p])[|ps|] == p; }
  }

  /** After a tool packet the last step is a tool's. */
  lemma TidyTool(ps: seq<Packet>, p: Packet, a: Assigner, t: Timeline)
    requires Tidy(ps, a, t) && Contiguous(ps + [p])
    ensures var b, u := Assign(a, p).0, FoldPacket(t, Stamp(a, p));
            b.lastKind == Some(ToolKind) ==> b.next >= 2 && !TextAt(u, b.next - 1)
  {
    TextStepsAfter(a, t, p);
    if p.IsTool() && p.toolCallId in a.toolSteps { NoResumption(ps, p); }
    match a.lastKind {
      case None =>
      case Some(TextKind) =>
      case Some(ToolKind) =>
    }
  }

  /** No two text events are neighbours. */
  lemma TidyTexts(ps: seq<Packet>, p: Packet, a: Assigner, t: Timeline)
    requires Tidy(ps, a, t)
    ensures var b, u := Assign(a, p).0, FoldPacket(t, Stamp(a, p));
            forall s :: 1 <= s && s + 1 < b.next ==> !(TextAt(u, s) && TextAt(u, s + 1))
  {
    TextStepsAfter(a, t, p);
    match a.lastKind {
      case None =>
      case Some(TextKind) =>
      case Some(ToolKind) =>
    }
  }

  lemma TidyStep(ps: seq<Packet>, p: Packet, a: Assigner, t: Timeline)
    requires Tidy(ps, a, t) && Contiguous(ps + [p])
    ensures Tidy(ps + [p], Assign(a, p).0, FoldPacket(t, Stamp(a, p)))
  {
    var b := Assign(a, p).0;
    EndsInTextSnoc(ps, p);
    forall id | id in b.toolSteps ensures CallSeen(ps + [p], id) { CallsSeenAfter(ps, p, a, id); }
    TidyTool(ps, p, a, t);
    TidyTexts(ps, p, a, t);
    LinkedStep(a, t, p);
  }

  lemma {:induction false} TidyAlways(ps: seq<Packet>)
    requires Contiguous(ps)
    ensures Tidy(ps, AssignerAfter(FRESH, ps), LiveTimeline(ps))
    decreases |ps|
  {
    if ps != [] {
      var init, p := ps[..|ps| - 1], ps[|ps| - 1];
      assert ps == init + [p];
      forall i, j, k | 0 <= i < j < k < |init| && SameCall(init[i], init[k]) ensures SameCall(init[i], init[j]) {
        assert ps[i] == init[i] && ps[j] == init[j] && ps[k] == init[k];
      }
      TidyAlways(init);
      var a := AssignerAfter(FRESH, init);
      NumberAppend(FRESH, init, [p]);
      NumberShort(a, [p]);
      FoldAllAppend(EMPTY, Number(FRESH, init), [Stamp(a, p)]);
      FoldShort(LiveTimeline(init), [Stamp(a, p)]);
      TidyStep(init, p, a, LiveTimeline(init));
    }
  }

  lemma TidyIsCanonical(ps: seq<Packet>, a: Assigner, t: Timeline, es: seq<Event>)
    requires Tidy(ps, a, t) && |es| == a.next - 1
    requires forall i :: 0 <= i < |es| ==> i + 1 in t.events && es[i] == t.events[i + 1]
    ensures Canonical(es)
  {
    forall i | 0 < i < |es| ensures !(es[i - 1].TextEvent? && es[i].TextEvent?) {
      assert es[i - 1] == t.events[i - 1 + 1];
      assert !(TextAt(t, i) && TextAt(t, i + 1));
    }
  }

  lemma TidyInOrder(ps: seq<Packet>, a: Assigner, t: Timeline, n: nat)
    requires Tidy(ps, a, t) && a.next == n + 1 && Sorted(t.events.Keys) == FirstSteps(n)
    ensures Canonical(InOrder(t))
  {
    var es := InOrder(t);
    forall i | 0 <= i < n ensures |es| == n && i + 1 in t.events && es[i] == t.events[i + 1] { InOrderAt(t, n, i); }
    TidyIsCanonical(ps, a, t, es);
  }

  /** With steps 1..n the i-th event is the one of step i + 1. */
  lemma InOrderAt(t: Timeline, n: nat, i: nat)
    requires Sorted(t.events.Keys) == FirstSteps(n) && i < n
    ensures |InOrder(t)| == n && i + 1 in t.events && InOrder(t)[i] == t.events[i + 1]
  {
    assert FirstSteps(n)[i] == i + 1 && i + 1 in Sorted(t.events.Keys);
  }

  lemma ContiguousTurnsAreCanonical(ps: seq<Packet>)
    requires Contiguous(ps)
    ensures Canonical(InOrder(LiveTimeline(ps)))
  {
    var t := LiveTimeline(ps);
    TidyAlways(ps);
    StepsAreConsecutive(ps);
    TidyInOrder(ps, AssignerAfter(FRESH, ps), t, |t.events|);
  }

  /** When calls are contiguous, the stored turn alternates text and tools, and a
      fresh numbering of its replay reproduces every step. */
  lemma ContiguousTurnsRenumber(ps: seq<Packet>, es: seq<Event>)
    requires Contiguous(ps) && es == InOrder(LiveTimeline(ps))
    ensures Canonical(es) && Number(FRESH, Replay(es)) == Replay(es)
  {
    ContiguousTurnsAreCanonical(ps);
    assert Ascending(es);
    RenumberingReproducesExactly(es);
  }
}
