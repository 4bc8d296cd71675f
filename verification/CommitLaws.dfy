/** When the pair that a client commits is the whole turn. The ref that `finish` reads is set
    by an effect of a render, so a turn is committed as it was last rendered
    (mobile/lib/chat/use-chat-stream.ts). */
module CommitLaws {
  import opened Prelude
  import opened Packets
  import opened SseParser
  import opened ChatStream
  import opened TimelineLaws
  import opened ReplayLaws
  import opened ChatClient
  import opened Wire
  import opened ClientLaws

  /** What the ref shows is already the whole timeline. */
  ghost predicate Complete(ps: seq<Packet>, seen: Option<nat>) {
    seen.Some? && seen.value <= |ps| && After(ps, seen.value).events == FoldAll(EMPTY, ps).events
  }

  /** No content was handled between the render that the ref shows and `finish`. */
  predicate AllShown(ps: seq<Packet>, seen: Option<nat>) {
    seen.Some? && forall i :: seen.value <= i < |ps| ==> !ps[i].IsContent()
  }

  /** The turn was cleared, and exactly this pair was handed over. */
  predicate Delivered(d: Client, history: seq<Committed>, pair: Committed) {
    d.chat == None && d.committed == history + [pair]
  }

  lemma InOrderHasAll(t: Timeline, s: nat)
    requires Sane(t) && s in t.events
    ensures t.events[s] in InOrder(t)
  {
    var steps := Sorted(t.events.Keys);
    var i :| 0 <= i < |steps| && steps[i] == s;
    assert InOrder(t)[i] == t.events[s];
  }

  lemma InOrderHasOnly(t: Timeline, e: Event)
    requires Sane(t) && e in InOrder(t)
    ensures e.step in t.events && t.events[e.step] == e
  {
    var steps := Sorted(t.events.Keys);
    var i :| 0 <= i < |InOrder(t)| && InOrder(t)[i] == e;
    assert steps[i] in t.events && e == t.events[steps[i]];
  }

  lemma ListDeterminesEvent(t: Timeline, u: Timeline, s: nat)
    requires Sane(t) && Sane(u) && InOrder(t) == InOrder(u) && s in t.events
    ensures s in u.events && u.events[s] == t.events[s]
  {
    InOrderHasAll(t, s);
    InOrderHasOnly(u, t.events[s]);
  }

  lemma SameMaps(a: map<nat, Event>, b: map<nat, Event>)
    requires forall s :: s in a ==> s in b && b[s] == a[s]
    requires forall s :: s in b ==> s in a
    ensures a == b
  {
  }

  /** A timeline's list determines its events. */
  lemma ListsDetermine(t: Timeline, u: Timeline)
    requires Sane(t) && Sane(u) && InOrder(t) == InOrder(u)
    ensures t.events == u.events
  {
    forall s | s in t.events ensures s in u.events && u.events[s] == t.events[s] { ListDeterminesEvent(t, u, s); }
    forall s | s in u.events ensures s in t.events { ListDeterminesEvent(u, t, s); }
    SameMaps(t.events, u.events);
  }

  lemma PairsDetermine(turn: Sending, id: Id, t: Timeline, u: Timeline)
    requires Sane(t) && Sane(u)
    ensures PairOf(turn, id, t) == PairOf(turn, id, u)
            <==> t.events == u.events
  {
    if EventsList(t) == EventsList(u) && t.events != map[] { ListsDetermine(t, u); }
  }

  /** The client delivers the whole turn if and only if the ref already showed all of it. */
  lemma DeliversExactly(d: Client, turn: Sending, ps: seq<Packet>, id: Id, seen: Option<nat>, history: seq<Committed>)
    requires Finished(d, turn, ps, id, seen, history)
    ensures Delivered(d, history, PairOf(turn, id, FoldAll(EMPTY, ps))) <==> Complete(ps, seen)
  {
    var t := FoldAll(EMPTY, ps);
    FoldKeepsSane(EMPTY, ps);
    if seen.Some? {
      FoldKeepsSane(EMPTY, ps[..seen.value]);
      PairsDetermine(turn, id, After(ps, seen.value), t);
      SameTail(history, PairOf(turn, id, After(ps, seen.value)),
               PairOf(turn, id, t));
    } else if |d.committed| == |history| + 1 {
      OtherTail(history, d.committed, PairOf(turn, id, t));
    }
  }

  lemma OtherTail<T>(a: seq<T>, b: seq<T>, x: T)
    requires |b| == |a| + 1 && b[|a|] != x
    ensures b != a + [x]
  {
    assert (a + [x])[|a|] == x;
  }

  lemma SameTail<T>(a: seq<T>, x: T, y: T)
    ensures a + [x] == a + [y] <==> x == y
  {
    assert (a + [x])[|a|] == x && (a + [y])[|a|] == y;
  }

  // ------------------------------------------------------- the checkable condition

  lemma {:induction false} QuietFold(t: Timeline, ps: seq<Packet>)
    requires forall i :: 0 <= i < |ps| ==> !ps[i].IsContent()
    ensures FoldAll(t, ps).events == t.events
    decreases |ps|
  {
    if ps != [] {
      assert forall i :: 0 <= i < |ps[1..]| ==> ps[1..][i] == ps[i + 1];
      QuietFold(FoldPacket(t, ps[0]), ps[1..]);
    }
  }

  lemma SplitFold(ps: seq<Packet>, n: nat)
    requires n <= |ps|
    ensures FoldAll(EMPTY, ps) == FoldAll(After(ps, n), ps[n..])
  {
    TakeDrop(ps, n);
    FoldAllAppend(EMPTY, ps[..n], ps[n..]);
  }

  /** Nothing unseen is enough. */
  lemma AllShownIsComplete(ps: seq<Packet>, seen: Option<nat>)
    requires seen.Some? ==> seen.value <= |ps|
    ensures AllShown(ps, seen) ==> Complete(ps, seen)
  {
    if AllShown(ps, seen) {
      SplitFold(ps, seen.value);
      assert forall i :: 0 <= i < |ps[seen.value..]| ==> ps[seen.value..][i] == ps[seen.value + i];
      QuietFold(After(ps, seen.value), ps[seen.value..]);
    }
  }

  /** The packet puts something on the timeline that was not there. */
  predicate Adds(t: Timeline, p: Packet) {
    p.IsContent() && p.step.Some? &&
    var s := p.step.value;
    s !in t.events ||
    match p
    case TextDelta(_, delta) => t.events[s].TextEvent? && delta != ""
    case ToolCall(_, _, _, _) => t.events[s].ToolEvent? && t.events[s].arguments.None?
    case ToolEnd(_, _, _, _, _, _) => t.events[s].ToolEvent? && t.events[s].status.None?
    case _ => false
  }

  /** Every content packet of the stream adds something. */
  predicate AddsFrom(t: Timeline, ps: seq<Packet>)
    decreases |ps|
  {
    ps != [] ==> (ps[0].IsContent() ==> Adds(t, ps[0])) && AddsFrom(FoldPacket(t, ps[0]), ps[1..])
  }

  /** An event with at least as much on it. */
  predicate Extends(e: Event, f: Event) {
    match e
    case TextEvent(_, content) => f.TextEvent? && |content| <= |f.content|
    case ToolEvent(_, _, _, arguments, status, _, _) =>
      f.ToolEvent? && (arguments.Some? ==> f.arguments.Some?) && (status.Some? ==> f.status.Some?)
  }

  ghost predicate Grown(t: Timeline, u: Timeline) {
    forall s :: s in t.events ==> s in u.events && Extends(t.events[s], u.events[s])
  }

  lemma AddedAt(t: Timeline, p: Packet) returns (s: nat)
    requires Adds(t, p)
    ensures Grown(t, FoldPacket(t, p))
    ensures s in FoldPacket(t, p).events && (s in t.events ==> !Extends(FoldPacket(t, p).events[s], t.events[s]))
  {
    s := p.step.value;
  }

  lemma {:induction false} GrowsAlong(t: Timeline, ps: seq<Packet>)
    requires AddsFrom(t, ps)
    ensures Grown(t, FoldAll(t, ps))
    decreases |ps|
  {
    if ps != [] {
      if ps[0].IsContent() { var s := AddedAt(t, ps[0]); }
      GrowsAlong(FoldPacket(t, ps[0]), ps[1..]);
    }
  }

  /** Once something was added the timeline is never again what it was. */
  lemma {:induction false} ContentShows(t: Timeline, ps: seq<Packet>, i: nat)
    requires AddsFrom(t, ps) && i < |ps| && ps[i].IsContent()
    ensures FoldAll(t, ps).events != t.events
    decreases |ps|
  {
    var u := FoldPacket(t, ps[0]);
    if ps[0].IsContent() {
      var s := AddedAt(t, ps[0]);
      GrowsAlong(u, ps[1..]);
    } else {
      assert ps[1..][i - 1] == ps[i];
      ContentShows(u, ps[1..], i - 1);
    }
  }

  lemma {:induction false} AddsFromAppend(t: Timeline, a: seq<Packet>, b: seq<Packet>)
    ensures AddsFrom(t, a + b) <==> AddsFrom(t, a) && AddsFrom(FoldAll(t, a), b)
    decreases |a|
  {
    if a == [] {
      AppendNil(b);
    } else {
      DropAppend(a, b, 1);
      AddsFromAppend(FoldPacket(t, a[0]), a[1..], b);
    }
  }

  lemma UnseenContentShows(ps: seq<Packet>, n: nat, i: nat)
    requires AddsFrom(EMPTY, ps) && n <= i < |ps| && ps[i].IsContent()
    ensures After(ps, n).events != FoldAll(EMPTY, ps).events
  {
    var seen, rest := ps[..n], ps[n..];
    SplitFold(ps, n);
    TakeDrop(ps, n);
    AddsFromAppend(EMPTY, seen, rest);
    assert rest[i - n] == ps[i];
    ContentShows(FoldAll(EMPTY, seen), rest, i - n);
  }

  /** Where every content packet adds something, the ref showed the whole turn if and only if
      no content was handled after the render it shows. */
  lemma CompleteIsAllShown(ps: seq<Packet>, seen: Option<nat>)
    requires AddsFrom(EMPTY, ps) && (seen.Some? ==> seen.value <= |ps|)
    ensures Complete(ps, seen) <==> AllShown(ps, seen)
  {
    AllShownIsComplete(ps, seen);
    if seen.Some? && !AllShown(ps, seen) {
      var i :| seen.value <= i < |ps| && ps[i].IsContent();
      UnseenContentShows(ps, seen.value, i);
    }
  }

  // -------------------------------------------------- which streams always add

  /** `q` says again what `p` said of the same call. */
  predicate Repeats(p: Packet, q: Packet) {
    SameCall(p, q) && (q.ToolStart? || (p.ToolCall? && q.ToolCall?) || (p.ToolEnd? && q.ToolEnd?))
  }

  /** No delta is empty, a call starts with its first packet, and has one set of arguments
      and one end. */
  ghost predicate NoRepeats(ps: seq<Packet>) {
    && (forall i :: 0 <= i < |ps| && ps[i].TextDelta? ==> ps[i].delta != "")
    && (forall i, j :: 0 <= i < j < |ps| ==> !Repeats(ps[i], ps[j]))
  }

  ghost predicate Said(ps: seq<Packet>, id: string, call: bool) {
    exists m :: 0 <= m < |ps| && (if call then ps[m].ToolCall? else ps[m].ToolEnd?) && ps[m].toolCallId == id
  }

  /** What an event has was said of its call. */
  ghost predicate RecordedAt(h: seq<Packet>, e: Event) {
    e.ToolEvent? ==>
      (e.arguments.Some? ==> Said(h, e.toolCallId, true)) && (e.status.Some? ==> Said(h, e.toolCallId, false))
  }

  /** What is on the timeline was said by an earlier packet. */
  ghost predicate Recorded(h: seq<Packet>, a: Assigner, t: Timeline) {
    && Linked(a, t)
    && (forall id :: id in a.toolSteps ==> CallSeen(h, id))
    && (forall s :: s in t.events ==> RecordedAt(h, t.events[s]))
  }

  lemma SaidGrows(h: seq<Packet>, p: Packet, id: string, call: bool)
    requires Said(h, id, call) || ((if call then p.ToolCall? else p.ToolEnd?) && p.toolCallId == id)
    ensures Said(h + [p], id, call)
  {
    if Said(h, id, call) {
      var m :| 0 <= m < |h| && (if call then h[m].ToolCall? else h[m].ToolEnd?) && h[m].toolCallId == id;
      assert (h + [p])[m] == h[m];
    } else {
      assert (h + [p])[|h|] == p;
    }
  }

  lemma RecordedLonger(h: seq<Packet>, p: Packet, e: Event)
    requires RecordedAt(h, e)
    ensures RecordedAt(h + [p], e)
  {
    if e.ToolEvent? && e.arguments.Some? { SaidGrows(h, p, e.toolCallId, true); }
    if e.ToolEvent? && e.status.Some? { SaidGrows(h, p, e.toolCallId, false); }
  }

  /** The record that a packet leaves at its step. */
  lemma RecordedNow(h: seq<Packet>, t: Timeline, p: Packet, s: nat)
    requires p.IsTool() && (s in t.events ==> ToolAt(t, s, p.toolCallId) && RecordedAt(h, t.events[s]))
    ensures RecordedAt(h + [p], FoldPacket(t, p.WithStep(s)).events[s])
  {
    if s in t.events { RecordedLonger(h, p, t.events[s]); }
    if p.ToolCall? { SaidGrows(h, p, p.toolCallId, true); }
    if p.ToolEnd? { SaidGrows(h, p, p.toolCallId, false); }
  }

  lemma RecordedEverywhere(h: seq<Packet>, a: Assigner, t: Timeline, p: Packet, s: nat)
    requires Recorded(h, a, t) && s in FoldPacket(t, Stamp(a, p)).events
    ensures RecordedAt(h + [p], FoldPacket(t, Stamp(a, p)).events[s])
  {
    if p.IsTool() && Assign(a, p).1 == Some(s) {
      if p.toolCallId in a.toolSteps { assert ToolAt(t, s, p.toolCallId); }
      RecordedNow(h, t, p, s);
    } else if s in t.events {
      RecordedLonger(h, p, t.events[s]);
    }
  }

  lemma RecordedStep(h: seq<Packet>, a: Assigner, t: Timeline, p: Packet)
    requires Recorded(h, a, t)
    ensures Recorded(h + [p], Assign(a, p).0, FoldPacket(t, Stamp(a, p)))
  {
    var b, u := Assign(a, p).0, FoldPacket(t, Stamp(a, p));
    LinkedStep(a, t, p);
    forall id | id in b.toolSteps ensures CallSeen(h + [p], id) { CallsSeenAfter(h, p, a, id); }
    forall s | s in u.events ensures RecordedAt(h + [p], u.events[s]) { RecordedEverywhere(h, a, t, p, s); }
  }

  lemma SaidIsRepeated(h: seq<Packet>, p: Packet)
    requires (p.ToolCall? && Said(h, p.toolCallId, true)) || (p.ToolEnd? && Said(h, p.toolCallId, false))
    ensures exists i :: 0 <= i < |h| && Repeats(h[i], p)
  {
    if p.ToolCall? {
      var m :| 0 <= m < |h| && h[m].ToolCall? && h[m].toolCallId == p.toolCallId;
      assert Repeats(h[m], p);
    } else {
      var m :| 0 <= m < |h| && h[m].ToolEnd? && h[m].toolCallId == p.toolCallId;
      assert Repeats(h[m], p);
    }
  }

  lemma SeenIsRepeated(h: seq<Packet>, p: Packet)
    requires p.ToolStart? && CallSeen(h, p.toolCallId)
    ensures exists i :: 0 <= i < |h| && Repeats(h[i], p)
  {
    var m :| 0 <= m < |h| && h[m].IsTool() && h[m].toolCallId == p.toolCallId;
    assert Repeats(h[m], p);
  }

  /** A packet that adds nothing is empty or repeats an earlier one. */
  lemma NewPacketAdds(h: seq<Packet>, a: Assigner, t: Timeline, p: Packet)
    requires Recorded(h, a, t) && p.IsContent()
    ensures Adds(t, Stamp(a, p)) || (p.TextDelta? && p.delta == "") || exists i :: 0 <= i < |h| && Repeats(h[i], p)
  {
    if p.IsTool() && p.toolCallId in a.toolSteps {
      var s := a.toolSteps[p.toolCallId];
      assert ToolAt(t, s, p.toolCallId) && RecordedAt(h, t.events[s]);
      if p.ToolStart? {
        SeenIsRepeated(h, p);
      } else if p.ToolCall? && t.events[s].arguments.Some? {
        SaidIsRepeated(h, p);
      } else if p.ToolEnd? && t.events[s].status.Some? {
        SaidIsRepeated(h, p);
      }
    }
  }

  lemma {:induction false} NumberedAdds(h: seq<Packet>, a: Assigner, t: Timeline, ps: seq<Packet>)
    requires Recorded(h, a, t) && NoRepeats(h + ps)
    ensures AddsFrom(t, Number(a, ps))
    decreases |ps|
  {
    if ps != [] {
      var p, rest := ps[0], ps[1..];
      assert (h + ps)[|h|] == p && forall i :: 0 <= i < |h| ==> (h + ps)[i] == h[i];
      assert (h + [p]) + rest == h + ps;
      if p.IsContent() { NewPacketAdds(h, a, t, p); }
      RecordedStep(h, a, t, p);
      NumberUnfold(a, ps);
      NumberedAdds(h + [p], Assign(a, p).0, FoldPacket(t, Stamp(a, p)), rest);
    }
  }

  lemma StartAdds(id: Id, sessionId: Id, body: seq<Packet>)
    requires AddsFrom(EMPTY, body)
    ensures AddsFrom(EMPTY, [Start(id, sessionId)] + body)
  {
    assert ([Start(id, sessionId)] + body)[1..] == body;
  }

  /** A live turn that repeats nothing. */
  lemma LiveTurnAdds(ps: seq<Packet>, id: Id, sessionId: Id)
    requires NoRepeats(ps)
    ensures AddsFrom(EMPTY, [Start(id, sessionId)] + Number(FRESH, ps))
  {
    AppendNil(ps);
    NumberedAdds([], FRESH, EMPTY, ps);
    StartAdds(id, sessionId, Number(FRESH, ps));
  }

  lemma AddsShort(t: Timeline, ps: seq<Packet>)
    requires |ps| <= 1 && (ps != [] ==> Adds(t, ps[0]))
    ensures AddsFrom(t, ps)
  {
    if ps != [] { assert ps[1..] == []; }
  }

  lemma ReplayEventAdds(t: Timeline, e: Event)
    requires e.step !in t.events
    ensures AddsFrom(t, ReplayEvent(e))
  {
    if e.TextEvent? {
      AddsShort(t, ReplayEvent(e));
    } else {
      var first, mid, end := [Opener(e)], CallPart(e, e.step), EndPart(e, e.step);
      AddsShort(t, first);
      FoldShort(t, first);
      AddsShort(FoldAll(t, first), mid);
      FoldShort(FoldAll(t, first), mid);
      AddsShort(FoldAll(FoldAll(t, first), mid), end);
      AddsFromAppend(t, first, mid);
      FoldAllAppend(t, first, mid);
      AddsFromAppend(t, first + mid, end);
    }
  }

  lemma {:induction false} ReplayAdds(es: seq<Event>)
    requires Ascending(es) && AllSettled(es)
    ensures AddsFrom(EMPTY, Replay(es))
    decreases |es|
  {
    if es != [] {
      var init, last := es[..|es| - 1], es[|es| - 1];
      ReplayAdds(init);
      ReplayFolds(init);
      ByStepKeys(init, last.step);
      ReplayEventAdds(Timeline(ByStep(init), false), last);
      AddsFromAppend(EMPTY, Replay(init), ReplayEvent(last));
    }
  }
}
