/** What numbering and folding keep over every packet stream: the steps are 1..n and
    never change kind, and the stored text is the text that was streamed. */
module TimelineLaws {
  import opened Prelude
  import opened Packets
  import opened ChatStream

  // ------------------------------------------------------ the joint invariant

  ghost predicate ToolAt(t: Timeline, s: nat, id: string) {
    s in t.events && t.events[s].ToolEvent? && t.events[s].toolCallId == id
  }

  predicate TextAt(t: Timeline, s: nat) { s in t.events && t.events[s].TextEvent? }

  /** The numbering state and the timeline describe the same steps. */
  ghost predicate Linked(a: Assigner, t: Timeline) {
    && a.next >= 1
    && (forall s :: s in t.events <==> 1 <= s < a.next)
    && (forall s :: s in t.events ==> t.events[s].step == s && t.events[s].Settled())
    && (a.lastKind == Some(TextKind) ==> a.textStep == Some(a.next - 1) && TextAt(t, a.next - 1))
    && (forall id :: id in a.toolSteps ==> ToolAt(t, a.toolSteps[id], id))
    && (forall s :: s in t.events && t.events[s].ToolEvent? ==>
          t.events[s].toolCallId in a.toolSteps && a.toolSteps[t.events[s].toolCallId] == s)
  }

  lemma LinkedText(a: Assigner, t: Timeline, p: Packet)
    requires Linked(a, t) && p.TextDelta?
    ensures Linked(Assign(a, p).0, FoldPacket(t, Stamp(a, p)))
  {
  }

  /** A refined record of a call that has a step. */
  lemma LinkedKnown(a: Assigner, t: Timeline, e: Event)
    requires Linked(a, t) && e.ToolEvent? && e.Settled() && e.toolCallId in a.toolSteps && e.step == a.toolSteps[e.toolCallId]
    ensures Linked(a.(lastKind := Some(ToolKind)), t.(events := t.events[e.step := e]))
  {
    assert ToolAt(t, e.step, e.toolCallId);
  }

  /** The first record of a call. */
  lemma LinkedNew(a: Assigner, t: Timeline, e: Event)
    requires Linked(a, t) && e.ToolEvent? && e.Settled() && e.toolCallId !in a.toolSteps && e.step == a.next
    ensures Linked(Assigner(a.next + 1, None, a.toolSteps[e.toolCallId := a.next], Some(ToolKind)),
                   t.(events := t.events[a.next := e]))
  {
  }

  lemma LinkedTool(a: Assigner, t: Timeline, p: Packet)
    requires Linked(a, t) && p.IsTool()
    ensures Linked(Assign(a, p).0, FoldPacket(t, Stamp(a, p)))
  {
    var u := FoldPacket(t, Stamp(a, p));
    if p.toolCallId in a.toolSteps {
      var s := a.toolSteps[p.toolCallId];
      assert ToolAt(t, s, p.toolCallId);
      LinkedKnown(a, t, u.events[s]);
    } else {
      LinkedNew(a, t, u.events[a.next]);
    }
  }

  lemma LinkedStep(a: Assigner, t: Timeline, p: Packet)
    requires Linked(a, t)
    ensures Linked(Assign(a, p).0, FoldPacket(t, Stamp(a, p)))
  {
    if p.TextDelta? {
      LinkedText(a, t, p);
    } else if p.IsTool() {
      LinkedTool(a, t, p);
    }
  }

  lemma {:induction false} LinkedAlways(a: Assigner, t: Timeline, ps: seq<Packet>)
    requires Linked(a, t)
    ensures Linked(AssignerAfter(a, ps), FoldAll(t, Number(a, ps)))
    decreases |ps|
  {
    if ps != [] {
      LinkedStep(a, t, ps[0]);
      NumberUnfold(a, ps);
      LinkedAlways(Assign(a, ps[0]).0, FoldPacket(t, Stamp(a, ps[0])), ps[1..]);
    }
  }

  lemma NumberUnfold(a: Assigner, ps: seq<Packet>)
    requires ps != []
    ensures Number(a, ps)[0] == Stamp(a, ps[0])
    ensures Number(a, ps)[1..] == Number(Assign(a, ps[0]).0, ps[1..])
  {
  }

  // ------------------------------------------------------------ step numbers

  /** 1, 2, ..., n. */
  function FirstSteps(n: nat): (s: seq<nat>)
    ensures |s| == n && forall i :: 0 <= i < n ==> s[i] == i + 1
  {
    seq(n, i => i + 1)
  }

  lemma IncreasingUnique(a: seq<nat>, b: seq<nat>)
    requires Increasing(a) && Increasing(b)
    requires forall x :: x in a <==> x in b
    ensures a == b
  {
    OrderedIsUnique((x: nat, y: nat) => x < y, a, b);
  }

  /** The allocated steps are exactly 1..n and are the keys of the timeline. */
  lemma StepsAreConsecutive(ps: seq<Packet>)
    ensures var t := LiveTimeline(ps);
            Sorted(t.events.Keys) == FirstSteps(|t.events|) &&
            AssignerAfter(FRESH, ps).next == |t.events| + 1
  {
    var a, t := AssignerAfter(FRESH, ps), LiveTimeline(ps);
    LinkedAlways(FRESH, EMPTY, ps);
    KeysAreFirst(t.events, a.next - 1);
  }

  lemma KeysAreFirst(events: map<nat, Event>, n: nat)
    requires forall s :: s in events <==> 1 <= s <= n
    ensures Sorted(events.Keys) == FirstSteps(n) && |events| == n
  {
    var f := FirstSteps(n);
    forall x ensures x in f <==> x in events.Keys {
      if x in events.Keys { assert f[x - 1] == x; }
    }
    IncreasingUnique(Sorted(events.Keys), f);
    CountFirst(events.Keys, n);
    assert |events| == |events.Keys|;
  }

  lemma {:induction false} CountFirst(s: set<nat>, n: nat)
    requires forall x :: x in s <==> 1 <= x <= n
    ensures |s| == n
  {
    if n == 0 {
      assert s == {};
    } else {
      CountFirst(s - {n}, n - 1);
    }
  }

  /** The packet stamped `q` belongs to the event at its step. */
  ghost predicate Fits(t: Timeline, q: Packet) {
    (q.TextDelta? ==> q.step.Some? && TextAt(t, q.step.value)) &&
    (q.IsTool() ==> q.step.Some? && ToolAt(t, q.step.value, q.toolCallId))
  }

  lemma FitsStep(a: Assigner, t: Timeline, p: Packet)
    requires Linked(a, t)
    ensures Fits(FoldPacket(t, Stamp(a, p)), Stamp(a, p))
  {
  }

  lemma FitsStays(a: Assigner, t: Timeline, p: Packet, q: Packet)
    requires Linked(a, t) && Fits(t, q)
    ensures Fits(FoldPacket(t, Stamp(a, p)), q)
  {
  }

  lemma {:induction false} FitsAlways(a: Assigner, t: Timeline, ps: seq<Packet>, q: Packet)
    requires Linked(a, t) && (Fits(t, q) || q in Number(a, ps))
    ensures Fits(FoldAll(t, Number(a, ps)), q)
    decreases |ps|
  {
    if ps != [] {
      var b, u := Assign(a, ps[0]).0, FoldPacket(t, Stamp(a, ps[0]));
      LinkedStep(a, t, ps[0]);
      FitsStep(a, t, ps[0]);
      NumberUnfold(a, ps);
      if Fits(t, q) { FitsStays(a, t, ps[0], q); }
      FitsAlways(b, u, ps[1..], q);
    }
  }

  /** No step ever changes kind, and two tool packets share a step exactly when they
      share a call id. */
  lemma StepsIdentifyBlocks(ps: seq<Packet>, q: Packet, r: Packet)
    requires q in Number(FRESH, ps) && r in Number(FRESH, ps)
    requires q.IsContent() && r.IsContent()
    ensures q.step.Some? && r.step.Some?
    ensures q.step == r.step ==> q.TextDelta? == r.TextDelta?
    ensures q.IsTool() && r.IsTool() ==> (q.step == r.step <==> q.toolCallId == r.toolCallId)
  {
    LinkedAlways(FRESH, EMPTY, ps);
    FitsAlways(FRESH, EMPTY, ps, q);
    FitsAlways(FRESH, EMPTY, ps, r);
  }

  // -------------------------------------------------------- text conservation

  function Delta(p: Packet): string { if p.TextDelta? then p.delta else "" }

  /** Every text delta of a stream, in arrival order. */
  function Deltas(ps: seq<Packet>): string {
    if ps == [] then "" else Delta(ps[0]) + Deltas(ps[1..])
  }

  function ContentAt(t: Timeline, s: nat): string { if TextAt(t, s) then t.events[s].content else "" }

  /** The text of steps 1..n. */
  function TextUpTo(t: Timeline, n: int): string
    decreases n
  {
    if n <= 0 then "" else TextUpTo(t, n - 1) + ContentAt(t, n)
  }

  lemma {:induction false} TextUpToSame(t: Timeline, u: Timeline, n: int)
    requires forall s :: 1 <= s <= n ==> ContentAt(t, s) == ContentAt(u, s)
    ensures TextUpTo(t, n) == TextUpTo(u, n)
    decreases n
  {
    if n > 0 { TextUpToSame(t, u, n - 1); }
  }

  lemma TextStep(a: Assigner, t: Timeline, p: Packet)
    requires Linked(a, t)
    ensures TextUpTo(FoldPacket(t, Stamp(a, p)), Assign(a, p).0.next - 1) == TextUpTo(t, a.next - 1) + Delta(p)
  {
    if p.TextDelta? {
      TextStepText(a, t, p);
    } else {
      TextStepOther(a, t, p);
    }
  }

  lemma TextStepText(a: Assigner, t: Timeline, p: Packet)
    requires Linked(a, t) && p.TextDelta?
    ensures TextUpTo(FoldPacket(t, Stamp(a, p)), Assign(a, p).0.next - 1) == TextUpTo(t, a.next - 1) + p.delta
  {
    if a.lastKind == Some(TextKind) {
      TextGrows(t, FoldPacket(t, Stamp(a, p)), a.next - 1, p.delta);
    } else {
      TextOpens(t, FoldPacket(t, Stamp(a, p)), a.next, p.delta);
    }
  }

  /** The last text event grows. */
  lemma TextGrows(t: Timeline, u: Timeline, n: nat, delta: string)
    requires n >= 1 && TextAt(t, n) && TextAt(u, n) && u.events[n].content == t.events[n].content + delta
    requires forall s :: s != n ==> ContentAt(t, s) == ContentAt(u, s)
    ensures TextUpTo(u, n) == TextUpTo(t, n) + delta
  {
    TextUpToSame(t, u, n - 1);
    AppendAssoc(TextUpTo(t, n - 1), t.events[n].content, delta);
  }

  /** A text event is opened behind the others. */
  lemma TextOpens(t: Timeline, u: Timeline, n: nat, delta: string)
    requires n >= 1 && TextAt(u, n) && u.events[n].content == delta
    requires forall s :: s != n ==> ContentAt(t, s) == ContentAt(u, s)
    ensures TextUpTo(u, n) == TextUpTo(t, n - 1) + delta
  {
    TextUpToSame(t, u, n - 1);
  }

  lemma TextStepOther(a: Assigner, t: Timeline, p: Packet)
    requires Linked(a, t) && !p.TextDelta?
    ensures TextUpTo(FoldPacket(t, Stamp(a, p)), Assign(a, p).0.next - 1) == TextUpTo(t, a.next - 1)
  {
    var b, u := Assign(a, p).0, FoldPacket(t, Stamp(a, p));
    OtherIsSilent(a, t, p);
    TextUpToSame(t, u, a.next - 1);
    if b.next != a.next { AppendNil(TextUpTo(u, a.next - 1)); }
  }

  /** A packet without text leaves every text as it was. */
  lemma OtherIsSilent(a: Assigner, t: Timeline, p: Packet)
    requires Linked(a, t) && !p.TextDelta?
    ensures forall s :: ContentAt(FoldPacket(t, Stamp(a, p)), s) == ContentAt(t, s)
    ensures Assign(a, p).0.next != a.next ==> Assign(a, p).0.next == a.next + 1 && ContentAt(t, a.next) == ""
  {
    if p.IsTool() && p.toolCallId in a.toolSteps { assert ToolAt(t, a.toolSteps[p.toolCallId], p.toolCallId); }
  }

  /** The text of the timeline after a stretch of packets. */
  function TextAfter(a: Assigner, t: Timeline, ps: seq<Packet>): string
    decreases |ps|
  {
    if ps == [] then TextUpTo(t, a.next - 1)
    else TextAfter(Assign(a, ps[0]).0, FoldPacket(t, Stamp(a, ps[0])), ps[1..])
  }

  lemma {:induction false} TextAfterFold(a: Assigner, t: Timeline, ps: seq<Packet>)
    ensures TextAfter(a, t, ps) == TextUpTo(FoldAll(t, Number(a, ps)), AssignerAfter(a, ps).next - 1)
    decreases |ps|
  {
    if ps != [] {
      NumberUnfold(a, ps);
      TextAfterFold(Assign(a, ps[0]).0, FoldPacket(t, Stamp(a, ps[0])), ps[1..]);
    }
  }

  /** One packet more, as texts: what was there, what it adds and what follows. */
  lemma RegroupText(before: string, delta: string, rest: string, now: string, whole: string, all: string)
    requires now == before + delta && whole == now + rest && all == delta + rest
    ensures whole == before + all
  {
    AppendAssoc(before, delta, rest);
  }

  lemma {:induction false} TextAlways(a: Assigner, t: Timeline, ps: seq<Packet>)
    requires Linked(a, t)
    ensures TextAfter(a, t, ps) == TextUpTo(t, a.next - 1) + Deltas(ps)
    decreases |ps|
  {
    if ps == [] {
      AppendNil(TextUpTo(t, a.next - 1));
    } else {
      var b, u := Assign(a, ps[0]).0, FoldPacket(t, Stamp(a, ps[0]));
      TextStep(a, t, ps[0]);
      LinkedStep(a, t, ps[0]);
      TextAlways(b, u, ps[1..]);
      RegroupText(TextUpTo(t, a.next - 1), Delta(ps[0]), Deltas(ps[1..]), TextUpTo(u, b.next - 1),
                  TextAfter(a, t, ps), Deltas(ps));
    }
  }

  lemma {:induction false} JoinTextAppend(a: seq<Event>, b: seq<Event>)
    ensures JoinText(a + b) == JoinText(a) + JoinText(b)
  {
    if a == [] {
      AppendNil(b);
    } else {
      DropAppend(a, b, 1);
      JoinTextAppend(a[1..], b);
    }
  }

  lemma {:induction false} JoinIsTextUpTo(t: Timeline, n: nat)
    requires forall s :: 1 <= s <= n ==> s in t.events
    ensures JoinText(EventsAt(t.events, FirstSteps(n))) == TextUpTo(t, n)
  {
    if n > 0 {
      JoinIsTextUpTo(t, n - 1);
      var es, init := EventsAt(t.events, FirstSteps(n)), EventsAt(t.events, FirstSteps(n - 1));
      assert es == init + [t.events[n]];
      JoinTextAppend(init, [t.events[n]]);
      JoinTextOne(t.events[n]);
    }
  }

  lemma JoinTextOne(e: Event)
    ensures JoinText([e]) == if e.TextEvent? then e.content else ""
  {
    assert [e][1..] == [];
  }

  lemma ContentIsTextUpTo(t: Timeline, n: nat)
    requires Sorted(t.events.Keys) == FirstSteps(n)
    ensures AssistantContent(t) == TextUpTo(t, n)
  {
    forall s | 1 <= s <= n ensures s in t.events {
      assert FirstSteps(n)[s - 1] == s;
      assert s in Sorted(t.events.Keys);
    }
    JoinIsTextUpTo(t, n);
  }

  lemma TextAtEnd(ps: seq<Packet>)
    ensures TextUpTo(LiveTimeline(ps), AssignerAfter(FRESH, ps).next - 1) == Deltas(ps)
  {
    TextAlways(FRESH, EMPTY, ps);
    TextAfterFold(FRESH, EMPTY, ps);
    assert TextUpTo(EMPTY, FRESH.next - 1) == "";
    AppendNil(Deltas(ps));
  }

  /** The stored content is every delta of the turn in arrival order, whatever tool
      packets come between them and however tool ids are reused. */
  lemma TextConservation(ps: seq<Packet>)
    ensures AssistantContent(LiveTimeline(ps)) == Deltas(ps)
  {
    TextAtEnd(ps);
    StepsAreConsecutive(ps);
    ContentIsTextUpTo(LiveTimeline(ps), |LiveTimeline(ps).events|);
  }
}
