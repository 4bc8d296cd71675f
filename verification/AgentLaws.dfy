/** What every run of the agent loop keeps: reassembled tool calls, the grammar of the
    packets, and the shape of the transcript at each model request. */
module AgentLaws {
  import opened Prelude
  import opened Packets
  import opened AgentRuntime
  import opened ReplayLaws
  import opened ChatStream
  import opened TimelineLaws

  // ------------------------------------------------------ tool-call reassembly

  /** The fragments tagged with one index, in arrival order. */
  function Own(fs: seq<Fragment>, i: int): seq<Fragment> {
    if fs == [] then []
    else
      var last := fs[|fs| - 1];
      Own(fs[..|fs| - 1], i) + (if last.index == i then [last] else [])
  }

  function IdPart(tc: Fragment): string { if Given(tc.id) then tc.id.value else "" }

  function NamePart(tc: Fragment): string {
    if tc.fn.Some? && Given(tc.fn.value.name) then tc.fn.value.name.value else ""
  }

  function ArgsPart(tc: Fragment): string {
    if tc.fn.Some? && Given(tc.fn.value.arguments) then tc.fn.value.arguments.value else ""
  }

  /** The last non-empty string of a list, or "". */
  function LastGiven(parts: seq<string>): string {
    if parts == [] then ""
    else if parts[|parts| - 1] != "" then parts[|parts| - 1] else LastGiven(parts[..|parts| - 1])
  }

  function Parts(fs: seq<Fragment>, part: Fragment -> string): (r: seq<string>)
    ensures |r| == |fs| && forall i :: 0 <= i < |r| ==> r[i] == part(fs[i])
  {
    seq(|fs|, i requires 0 <= i < |fs| => part(fs[i]))
  }

  /** The call that a list of fragments of one index spells. */
  function Spelled(fs: seq<Fragment>): PartialCall {
    PartialCall(LastGiven(Parts(fs, IdPart)), LastGiven(Parts(fs, NamePart)), Concat(Parts(fs, ArgsPart)))
  }

  lemma SpelledSnoc(fs: seq<Fragment>, tc: Fragment)
    ensures Spelled(fs + [tc]) == Refine(Spelled(fs), tc)
  {
    PartsSnoc(fs, tc, IdPart);
    PartsSnoc(fs, tc, NamePart);
    PartsSnoc(fs, tc, ArgsPart);
    LastGivenSnoc(Parts(fs, IdPart), IdPart(tc));
    LastGivenSnoc(Parts(fs, NamePart), NamePart(tc));
    ConcatAppend(Parts(fs, ArgsPart), [ArgsPart(tc)]);
    assert Concat([ArgsPart(tc)]) == ArgsPart(tc) + Concat([]) == ArgsPart(tc);
  }

  lemma PartsSnoc(fs: seq<Fragment>, tc: Fragment, part: Fragment -> string)
    ensures Parts(fs + [tc], part) == Parts(fs, part) + [part(tc)]
  {
  }

  lemma LastGivenSnoc(parts: seq<string>, s: string)
    ensures LastGiven(parts + [s]) == if s != "" then s else LastGiven(parts)
  {
    assert (parts + [s])[..|parts|] == parts;
  }

  ghost predicate AppearsBefore(fs: seq<Fragment>, i: int, j: int) {
    exists p :: 0 <= p < |fs| && fs[p].index == i && forall q :: 0 <= q <= p ==> fs[q].index != j
  }

  /** The accumulator holds what the fragments spell, one entry per index, in the order
      of first appearance. */
  ghost predicate Reassembled(fs: seq<Fragment>, c: Calls) {
    && (forall i :: i in c.byIdx <==> Own(fs, i) != [])
    && (forall i :: i in c.byIdx ==> c.byIdx[i] == Spelled(Own(fs, i)))
    && (forall i :: i in c.order <==> i in c.byIdx)
    && (forall a, b :: 0 <= a < b < |c.order| ==> AppearsBefore(fs, c.order[a], c.order[b]))
  }

  lemma AppearsBeforeGrows(fs: seq<Fragment>, tc: Fragment, i: int, j: int)
    requires AppearsBefore(fs, i, j)
    ensures AppearsBefore(fs + [tc], i, j)
  {
    var p :| 0 <= p < |fs| && fs[p].index == i && forall q :: 0 <= q <= p ==> fs[q].index != j;
    var gs := fs + [tc];
    assert gs[p] == fs[p];
    forall q | 0 <= q <= p ensures gs[q].index != j { assert gs[q] == fs[q]; }
  }

  lemma {:induction false} OwnEmpty(fs: seq<Fragment>, i: int)
    ensures Own(fs, i) == [] <==> forall p :: 0 <= p < |fs| ==> fs[p].index != i
  {
    if fs != [] {
      var init := fs[..|fs| - 1];
      OwnEmpty(init, i);
      assert forall p :: 0 <= p < |init| ==> init[p] == fs[p];
    }
  }

  lemma OwnSnoc(fs: seq<Fragment>, tc: Fragment, i: int)
    ensures Own(fs + [tc], i) == Own(fs, i) + (if tc.index == i then [tc] else [])
  {
    assert (fs + [tc])[..|fs|] == fs;
  }

  lemma OrderSnoc(fs: seq<Fragment>, tc: Fragment, c: Calls)
    requires Reassembled(fs, c)
    ensures var d := FoldFragment(c, tc);
            forall a, b :: 0 <= a < b < |d.order| ==> AppearsBefore(fs + [tc], d.order[a], d.order[b])
  {
    var d := FoldFragment(c, tc);
    forall a, b | 0 <= a < b < |d.order| ensures AppearsBefore(fs + [tc], d.order[a], d.order[b]) {
      if b < |c.order| {
        AppearsBeforeGrows(fs, tc, c.order[a], c.order[b]);
      } else {
        var i := c.order[a];
        assert i in c.order;
        OwnEmpty(fs, i);
        OwnEmpty(fs, tc.index);
        var p :| 0 <= p < |fs| && fs[p].index == i;
        assert AppearsBefore(fs, i, tc.index);
        AppearsBeforeGrows(fs, tc, i, tc.index);
      }
    }
  }

  lemma ReassembledSnoc(fs: seq<Fragment>, tc: Fragment, c: Calls)
    requires Reassembled(fs, c)
    ensures Reassembled(fs + [tc], FoldFragment(c, tc))
  {
    var d := FoldFragment(c, tc);
    OrderSnoc(fs, tc, c);
    forall i ensures (i in d.byIdx <==> Own(fs + [tc], i) != []) && (i in d.byIdx ==> d.byIdx[i] == Spelled(Own(fs + [tc], i))) {
      OwnSnoc(fs, tc, i);
      if i == tc.index {
        SpelledSnoc(Own(fs, i), tc);
        assert Own(fs, i) == [] ==> Spelled(Own(fs, i)) == PartialCall("", "", "");
      } else {
        AppendNil(Own(fs, i));
      }
    }
  }

  /** Whatever the interleaving, each index ends with its own fragments' last non-empty
      id and name and their arguments joined in order; the calls are listed by first
      appearance. */
  lemma {:induction false} ReassemblyIsPerIndex(fs: seq<Fragment>)
    ensures Reassembled(fs, FoldFragments(NO_CALLS, fs))
  {
    if fs != [] {
      var init, tc := fs[..|fs| - 1], fs[|fs| - 1];
      assert fs == init + [tc];
      ReassemblyIsPerIndex(init);
      ReassembledSnoc(init, tc, FoldFragments(NO_CALLS, init));
    }
  }

  lemma SameCallsPerIndex(fs: seq<Fragment>, c: Calls, gs: seq<Fragment>, d: Calls)
    requires Reassembled(fs, c) && Reassembled(gs, d)
    requires forall i :: Own(fs, i) == Own(gs, i)
    ensures c.byIdx == d.byIdx
  {
    forall i ensures (i in c.byIdx <==> i in d.byIdx) && (i in c.byIdx ==> c.byIdx[i] == d.byIdx[i]) {
      assert Own(fs, i) == Own(gs, i);
    }
  }

  predicate AllDistinct(s: seq<int>) { forall i, j :: 0 <= i < j < |s| ==> s[i] != s[j] }

  predicate AllIn(byIdx: map<int, PartialCall>, order: seq<int>) { forall k :: 0 <= k < |order| ==> order[k] in byIdx }

  function CallsAt(byIdx: map<int, PartialCall>, order: seq<int>): (r: seq<PartialCall>)
    requires AllIn(byIdx, order)
    ensures |r| == |order| && forall i :: 0 <= i < |r| ==> r[i] == byIdx[order[i]]
  {
    seq(|order|, i requires 0 <= i < |order| => byIdx[order[i]])
  }

  lemma CallsAround(byIdx: map<int, PartialCall>, front: seq<int>, x: int, back: seq<int>)
    requires AllIn(byIdx, front) && x in byIdx && AllIn(byIdx, back)
    ensures AllIn(byIdx, front + back) && AllIn(byIdx, front + [x] + back)
    ensures multiset(CallsAt(byIdx, front + [x] + back)) == multiset(CallsAt(byIdx, front + back)) + multiset{byIdx[x]}
  {
    var f, b := CallsAt(byIdx, front), CallsAt(byIdx, back);
    assert CallsAt(byIdx, front + [x] + back) == f + [byIdx[x]] + b;
    assert CallsAt(byIdx, front + back) == f + b;
  }

  lemma DistinctAround(front: seq<int>, x: int, back: seq<int>)
    requires AllDistinct(front + [x] + back)
    ensures AllDistinct(front + back) && forall i :: i in front + back <==> i in front + [x] + back && i != x
  {
    var all, rest := front + [x] + back, front + back;
    assert forall k :: 0 <= k < |rest| ==> rest[k] == all[if k < |front| then k else k + 1];
    assert all[|front|] == x;
  }

  lemma SameCallsAround(byIdx: map<int, PartialCall>, x: int, rest: seq<int>, front: seq<int>, back: seq<int>)
    requires x in byIdx && AllIn(byIdx, rest) && AllIn(byIdx, front) && AllIn(byIdx, back) && AllIn(byIdx, front + back)
    requires multiset(CallsAt(byIdx, rest)) == multiset(CallsAt(byIdx, front + back))
    ensures AllIn(byIdx, [x] + rest) && AllIn(byIdx, front + [x] + back)
    ensures multiset(CallsAt(byIdx, [x] + rest)) == multiset(CallsAt(byIdx, front + [x] + back))
  {
    AppendNil([x]);
    AppendNil(rest);
    CallsAround(byIdx, [], x, rest);
    CallsAround(byIdx, front, x, back);
  }

  /** Where an element lies. */
  lemma SplitAt(b: seq<int>, x: int) returns (front: seq<int>, back: seq<int>)
    requires x in b
    ensures b == front + [x] + back
  {
    var k :| 0 <= k < |b| && b[k] == x;
    front, back := b[..k], b[k + 1..];
  }

  /** Without their common element the two orders still have the same elements. */
  lemma RestsAreSame(x: int, rest: seq<int>, front: seq<int>, back: seq<int>)
    requires AllDistinct([x] + rest) && AllDistinct(front + [x] + back)
    requires forall i :: i in [x] + rest <==> i in front + [x] + back
    ensures AllDistinct(rest) && AllDistinct(front + back) && forall i :: i in rest <==> i in front + back
  {
    AppendNil([x]);
    AppendNil(rest);
    DistinctAround([], x, rest);
    DistinctAround(front, x, back);
  }

  lemma {:induction false} OrdersHaveSameCalls(byIdx: map<int, PartialCall>, a: seq<int>, b: seq<int>)
    requires AllDistinct(a) && AllDistinct(b) && (forall i :: i in a <==> i in b) && AllIn(byIdx, a) && AllIn(byIdx, b)
    ensures multiset(CallsAt(byIdx, a)) == multiset(CallsAt(byIdx, b))
    decreases |a|
  {
    if a == [] {
      HasFirst(b);
    } else {
      HasFirst(a);
      var x, rest := a[0], a[1..];
      var front, back := SplitAt(b, x);
      assert a == [x] + rest;
      RestsAreSame(x, rest, front, back);
      PartsAreIn(byIdx, x, front, back);
      OrdersHaveSameCalls(byIdx, rest, front + back);
      SameCallsAround(byIdx, x, rest, front, back);
    }
  }

  lemma PartsAreIn(byIdx: map<int, PartialCall>, x: int, front: seq<int>, back: seq<int>)
    requires AllIn(byIdx, front + [x] + back)
    ensures AllIn(byIdx, front) && AllIn(byIdx, back) && AllIn(byIdx, front + back)
  {
    var all := front + [x] + back;
    assert forall k :: 0 <= k < |front| ==> front[k] == all[k];
    assert forall k :: 0 <= k < |back| ==> back[k] == all[|front| + 1 + k];
  }

  lemma AppearanceIsAsymmetric(fs: seq<Fragment>, i: int, j: int)
    requires AppearsBefore(fs, i, j)
    ensures !AppearsBefore(fs, j, i)
  {
    var p :| 0 <= p < |fs| && fs[p].index == i && forall q :: 0 <= q <= p ==> fs[q].index != j;
    forall q | 0 <= q < |fs| && fs[q].index == j ensures exists m :: 0 <= m <= q && fs[m].index == i { assert p < q; }
  }

  /** The indexes of two streams appear for the first time in the same order. */
  ghost predicate SameAppearances(fs: seq<Fragment>, gs: seq<Fragment>) {
    forall i, j :: AppearsBefore(fs, i, j) <==> AppearsBefore(gs, i, j)
  }

  lemma OrderIsAppearance(fs: seq<Fragment>, c: Calls)
    requires Reassembled(fs, c)
    ensures AllDistinct(c.order) && AllIn(c.byIdx, c.order)
  {
    forall a, b | 0 <= a < b < |c.order| ensures c.order[a] != c.order[b] {
      AppearanceIsAsymmetric(fs, c.order[a], c.order[b]);
    }
    assert forall k :: 0 <= k < |c.order| ==> c.order[k] in c.order;
  }

  lemma OrdersAgree(fs: seq<Fragment>, c: Calls, gs: seq<Fragment>, d: Calls)
    requires Reassembled(fs, c) && Reassembled(gs, d) && SameAppearances(fs, gs)
    requires forall i :: i in c.order <==> i in d.order
    ensures c.order == d.order
  {
    forall i, j | AppearsBefore(fs, i, j) ensures !AppearsBefore(fs, j, i) { AppearanceIsAsymmetric(fs, i, j); }
    var before := (i: int, j: int) => AppearsBefore(fs, i, j);
    assert Ordered(before, c.order) && Ordered(before, d.order) && Asymmetric(before);
    forall i ensures i in c.order <==> i in d.order { }
    OrderedIsUnique(before, c.order, d.order);
  }

  /** Two streams whose fragments agree index by index reassemble the same calls, however
      they interleave different indexes and split fragments over chunks; and in the same
      order when their indexes first appear in the same order. */
  lemma InterleavingDoesNotMatter(xs: seq<Chunk>, ys: seq<Chunk>)
    requires forall i :: Own(Fragments(xs), i) == Own(Fragments(ys), i)
    ensures multiset(TurnOf(xs).toolCalls) == multiset(TurnOf(ys).toolCalls)
    ensures SameAppearances(Fragments(xs), Fragments(ys)) ==> TurnOf(xs).toolCalls == TurnOf(ys).toolCalls
  {
    var fs, gs := Fragments(xs), Fragments(ys);
    var c, d := FoldFragments(NO_CALLS, fs), FoldFragments(NO_CALLS, gs);
    ReassemblyIsPerIndex(fs);
    ReassemblyIsPerIndex(gs);
    SameCallsPerIndex(fs, c, gs, d);
    OrderIsAppearance(fs, c);
    OrderIsAppearance(gs, d);
    OrdersHaveSameCalls(c.byIdx, c.order, d.order);
    assert TurnOf(xs).toolCalls == CallsAt(c.byIdx, c.order) && TurnOf(ys).toolCalls == CallsAt(d.byIdx, d.order);
    if SameAppearances(fs, gs) { OrdersAgree(fs, c, gs, d); }
  }

  // ------------------------------------------------------------ packet grammar

  /** `start, end(error)` for a call whose arguments are rejected. */
  predicate RejectedCall(ps: seq<Packet>) {
    |ps| >= 2 && ps[0].ToolStart? && ps[1].ToolEnd? && SameCall(ps[0], ps[1]) && ps[0].tool == ps[1].tool
    && ps[1].status == StatusError && ps[1].result.None? && ps[1].error.Some?
  }

  /** `start, call, end`, with a result when it went well and an error otherwise. */
  predicate ExecutedCall(ps: seq<Packet>) {
    |ps| >= 3 && ps[0].ToolStart? && ps[1].ToolCall? && ps[2].ToolEnd?
    && SameCall(ps[0], ps[1]) && SameCall(ps[0], ps[2]) && ps[0].tool == ps[1].tool == ps[2].tool
    && (ps[2].status == StatusOk <==> ps[2].result.Some?) && (ps[2].status == StatusError <==> ps[2].error.Some?)
  }

  /** Text deltas and whole call blocks, nothing else. */
  predicate Body(ps: seq<Packet>)
    decreases |ps|
  {
    || ps == []
    || (ps[0].TextDelta? && Body(ps[1..]))
    || (RejectedCall(ps) && Body(ps[2..]))
    || (ExecutedCall(ps) && Body(ps[3..]))
  }

  /** A body, and at most one error packet, at the very end. */
  predicate Grammatical(ps: seq<Packet>) {
    Body(ps) || (ps != [] && ps[|ps| - 1].ErrorPacket? && Body(ps[..|ps| - 1]))
  }

  /** The length of the block that a body starts with. */
  function FirstBlock(ps: seq<Packet>): nat
    requires ps != []
  {
    if ps[0].TextDelta? then 1 else if RejectedCall(ps) && Body(ps[2..]) then 2 else 3
  }

  lemma {:induction false} BodyConcat(a: seq<Packet>, b: seq<Packet>)
    requires Body(a) && Body(b)
    ensures Body(a + b)
    decreases |a|
  {
    if a == [] {
      AppendNil(b);
    } else {
      var n := FirstBlock(a);
      DropAppend(a, b, n);
      BodyConcat(a[n..], b);
    }
  }

  lemma {:induction false} TextIsBody(chunks: seq<Chunk>)
    ensures Body(TextPackets(chunks))
  {
    if chunks != [] {
      TextIsBody(chunks[..|chunks| - 1]);
      var last := chunks[|chunks| - 1];
      var more := if last.Choice? && Given(last.content) then [TextDelta(None, last.content.value)] else [];
      if more != [] { assert more[1..] == []; }
      BodyConcat(TextPackets(chunks[..|chunks| - 1]), more);
    }
  }

  lemma ToolIsBody(w: World, tc: PartialCall, messages: seq<Msg>)
    ensures Body(ToolStep(w, tc, messages).packets)
  {
    var ps := ToolStep(w, tc, messages).packets;
    if |ps| == 2 { assert RejectedCall(ps) && ps[2..] == []; }
    if |ps| == 3 { assert ExecutedCall(ps) && ps[3..] == []; }
  }

  lemma {:induction false} ToolsAreBody(w: World, calls: seq<PartialCall>, messages: seq<Msg>)
    ensures Body(ToolSteps(w, calls, messages).packets)
    decreases |calls|
  {
    if calls != [] {
      var first := ToolStep(w, calls[0], messages);
      ToolIsBody(w, calls[0], messages);
      if first.raised.None? {
        ToolsAreBody(w, calls[1..], messages + first.appended);
        BodyConcat(first.packets, ToolSteps(w, calls[1..], messages + first.appended).packets);
      }
    }
  }

  lemma GrammaticalError(body: seq<Packet>, e: Packet)
    requires Body(body) && e.ErrorPacket?
    ensures Grammatical(body + [e])
  {
    assert (body + [e])[..|body|] == body;
  }

  lemma GrammaticalConcat(a: seq<Packet>, b: seq<Packet>)
    requires Body(a) && Grammatical(b)
    ensures Grammatical(a + b)
  {
    if Body(b) {
      BodyConcat(a, b);
    } else {
      var init := b[..|b| - 1];
      BodyConcat(a, init);
      assert (a + b)[..|a + b| - 1] == a + init;
      assert (a + b)[|a + b| - 1] == b[|b| - 1];
    }
  }

  function StartIds(ps: seq<Packet>): seq<string> {
    if ps == [] then [] else (if ps[0].ToolStart? then [ps[0].toolCallId] else []) + StartIds(ps[1..])
  }

  function EndIds(ps: seq<Packet>): seq<string> {
    if ps == [] then [] else (if ps[0].ToolEnd? then [ps[0].toolCallId] else []) + EndIds(ps[1..])
  }

  // ------------------------------------------------ contiguous call lifecycles

  ghost predicate Distinct(ids: seq<string>) { forall i, j :: 0 <= i < j < |ids| ==> ids[i] != ids[j] }

  /** A call packet of a body belongs to a call that was started. */
  lemma {:induction false} CallsAreStarted(ps: seq<Packet>, k: nat)
    requires Body(ps) && k < |ps| && ps[k].IsTool()
    ensures ps[k].toolCallId in StartIds(ps)
    decreases |ps|
  {
    var n := FirstBlock(ps);
    BlockIds(ps, n);
    if k >= n {
      CallsAreStarted(ps[n..], k - n);
      assert ps[k] == ps[n..][k - n];
    }
  }

  /** The ids that a block starts. */
  lemma StartsOfBlock(p: Packet, more: seq<Packet>)
    requires |more| <= 2 && forall i :: 0 <= i < |more| ==> !more[i].ToolStart?
    ensures StartIds([p] + more) == if p.ToolStart? then [p.toolCallId] else []
  {
    assert ([p] + more)[1..] == more;
    if |more| >= 1 { assert |more[1..]| <= 1; }
    if |more| == 2 { assert more[1..][1..] == []; }
  }

  lemma FirstBlockShape(ps: seq<Packet>, n: nat)
    requires Body(ps) && ps != [] && n == FirstBlock(ps)
    ensures n <= |ps| && Body(ps[n..])
    ensures n > 1 <==> ps[0].ToolStart?
    ensures forall k :: 1 <= k < n ==> ps[k].IsTool() && !ps[k].ToolStart? && ps[k].toolCallId == ps[0].toolCallId
  {
  }

  /** A packet, some that start nothing, and the rest. */
  lemma StartIdsBehind(ps: seq<Packet>, n: nat)
    requires 1 <= n <= 3 && n <= |ps| && (n > 1 <==> ps[0].ToolStart?)
    requires forall k :: 1 <= k < n ==> !ps[k].ToolStart?
    ensures StartIds(ps) == (if n == 1 then [] else [ps[0].toolCallId]) + StartIds(ps[n..])
  {
    var head, rest := ps[..n], ps[n..];
    TakeDrop(ps, n);
    assert head == [ps[0]] + head[1..];
    StartsOfBlock(ps[0], head[1..]);
    StartIdsAppend(head, rest);
  }

  /** The ids started by a body: its first block's, then the rest's. */
  lemma BlockIds(ps: seq<Packet>, n: nat)
    requires Body(ps) && ps != [] && n == FirstBlock(ps)
    ensures n <= |ps| && Body(ps[n..])
    ensures StartIds(ps) == (if n == 1 then [] else [ps[0].toolCallId]) + StartIds(ps[n..])
    ensures n > 1 ==> forall k :: 0 <= k < n ==> ps[k].IsTool() && ps[k].toolCallId == ps[0].toolCallId
  {
    FirstBlockShape(ps, n);
    StartIdsBehind(ps, n);
  }

  lemma EndIdsCons(p: Packet, rest: seq<Packet>)
    ensures EndIds([p] + rest) == (if p.ToolEnd? then [p.toolCallId] else []) + EndIds(rest)
  {
    assert ([p] + rest)[1..] == rest;
  }

  lemma {:induction false} EndIdsAppend(a: seq<Packet>, b: seq<Packet>)
    ensures EndIds(a + b) == EndIds(a) + EndIds(b)
  {
    if a == [] {
      AppendNil(b);
    } else {
      var p, rest := a[0], a[1..];
      assert a == [p] + rest && a + b == [p] + (rest + b);
      EndIdsCons(p, rest);
      EndIdsCons(p, rest + b);
      EndIdsAppend(rest, b);
      AppendAssoc(if p.ToolEnd? then [p.toolCallId] else [], EndIds(rest), EndIds(b));
    }
  }

  /** The ids that a block ends. */
  lemma EndsOfBlock(ps: seq<Packet>, n: nat)
    requires Body(ps) && ps != [] && n == FirstBlock(ps)
    ensures EndIds(ps[..n]) == if n == 1 then [] else [ps[0].toolCallId]
  {
    FirstBlockShape(ps, n);
    var head := ps[..n];
    if n == 2 {
      assert head == [ps[0], ps[1]] && head[1..] == [ps[1]];
      assert EndIds([ps[1]]) == [ps[0].toolCallId] by { assert [ps[1]][1..] == []; }
    } else if n == 3 {
      assert head == [ps[0], ps[1], ps[2]] && head[1..] == [ps[1], ps[2]] && head[1..][1..] == [ps[2]];
      assert EndIds([ps[2]]) == [ps[0].toolCallId] by { assert [ps[2]][1..] == []; }
    } else {
      assert head == [ps[0]] && head[1..] == [];
    }
  }

  /** Every started call is ended once, in the order of the starts. */
  lemma {:induction false} StartsMatchEnds(ps: seq<Packet>)
    requires Body(ps)
    ensures StartIds(ps) == EndIds(ps)
    decreases |ps|
  {
    if ps != [] {
      var n := FirstBlock(ps);
      BlockIds(ps, n);
      EndsOfBlock(ps, n);
      TakeDrop(ps, n);
      EndIdsAppend(ps[..n], ps[n..]);
      StartsMatchEnds(ps[n..]);
    }
  }

  /** A block in front of a contiguous stream that does not use its call again. */
  lemma ContiguousBehind(ps: seq<Packet>, n: nat)
    requires n <= |ps| && Contiguous(ps[n..])
    requires forall i, j :: 0 <= i < n && 0 <= j < n && ps[i].IsTool() ==> SameCall(ps[i], ps[j])
    requires forall i, k :: 0 <= i < n <= k < |ps| ==> !SameCall(ps[i], ps[k])
    ensures Contiguous(ps)
  {
    var rest := ps[n..];
    forall i, j, k | 0 <= i < j < k < |ps| && SameCall(ps[i], ps[k]) ensures SameCall(ps[i], ps[j]) {
      if i >= n { assert rest[i - n] == ps[i] && rest[j - n] == ps[j] && rest[k - n] == ps[k]; }
    }
  }

  lemma {:induction false} BodyIsContiguous(ps: seq<Packet>)
    requires Body(ps) && Distinct(StartIds(ps))
    ensures Contiguous(ps)
    decreases |ps|
  {
    if ps != [] {
      var n := FirstBlock(ps);
      BlockIds(ps, n);
      var rest := ps[n..];
      DistinctTail(StartIds(ps), StartIds(rest));
      BodyIsContiguous(rest);
      forall i, k | 0 <= i < n <= k < |ps| ensures !SameCall(ps[i], ps[k]) {
        assert rest[k - n] == ps[k];
        if rest[k - n].IsTool() { CallsAreStarted(rest, k - n); }
      }
      ContiguousBehind(ps, n);
    }
  }

  lemma DistinctTail(ids: seq<string>, rest: seq<string>)
    requires Distinct(ids) && (ids == rest || (ids != [] && ids[1..] == rest))
    ensures Distinct(rest) && (ids != rest ==> ids[0] !in rest)
  {
    if ids != rest { assert forall i :: 0 <= i < |rest| ==> rest[i] == ids[i + 1]; }
  }

  lemma ContiguousWithError(body: seq<Packet>, e: Packet)
    requires Contiguous(body) && e.ErrorPacket?
    ensures Contiguous(body + [e])
  {
    var ps := body + [e];
    forall i, j, k | 0 <= i < j < k < |ps| && SameCall(ps[i], ps[k]) ensures SameCall(ps[i], ps[j]) {
      assert k < |body|;
      assert ps[i] == body[i] && ps[j] == body[j] && ps[k] == body[k];
    }
  }

  lemma StartIdsCons(p: Packet, rest: seq<Packet>)
    ensures StartIds([p] + rest) == (if p.ToolStart? then [p.toolCallId] else []) + StartIds(rest)
  {
    assert ([p] + rest)[1..] == rest;
  }

  lemma {:induction false} StartIdsAppend(a: seq<Packet>, b: seq<Packet>)
    ensures StartIds(a + b) == StartIds(a) + StartIds(b)
  {
    if a == [] {
      AppendNil(b);
    } else {
      var p, rest := a[0], a[1..];
      assert a == [p] + rest && a + b == [p] + (rest + b);
      StartIdsCons(p, rest);
      StartIdsCons(p, rest + b);
      StartIdsAppend(rest, b);
      AppendAssoc(if p.ToolStart? then [p.toolCallId] else [], StartIds(rest), StartIds(b));
    }
  }

  lemma ErrorStartsNothing(body: seq<Packet>, e: Packet)
    requires e.ErrorPacket?
    ensures StartIds(body + [e]) == StartIds(body)
  {
    StartIdsAppend(body, [e]);
    assert [e][1..] == [] && StartIds([]) == [];
    AppendNil(StartIds(body));
  }

  lemma GrammaticalIsContiguous(ps: seq<Packet>)
    requires Grammatical(ps) && Distinct(StartIds(ps))
    ensures Contiguous(ps)
  {
    if Body(ps) {
      BodyIsContiguous(ps);
    } else {
      var body, e := ps[..|ps| - 1], ps[|ps| - 1];
      assert ps == body + [e];
      ErrorStartsNothing(body, e);
      BodyIsContiguous(body);
      ContiguousWithError(body, e);
    }
  }

  /** When the provider gives the calls of a run distinct ids, the stored turn
      alternates text and tools, and a fresh numbering of its replay reproduces every step. */
  lemma AgentTurnsRenumber(w: World, base: seq<Msg>, es: seq<Event>)
    requires Distinct(StartIds(AgentRun(w, base).packets))
    requires es == InOrder(LiveTimeline(AgentRun(w, base).packets))
    ensures Canonical(es) && Number(FRESH, Replay(es)) == Replay(es)
  {
    RunsAreGrammatical(w, base);
    GrammaticalIsContiguous(AgentRun(w, base).packets);
    ContiguousTurnsRenumber(AgentRun(w, base).packets, es);
  }

  // ---------------------------------------------------------- the transcript

  predicate IsRound(ms: seq<Msg>, n: nat) {
    && |ms| > n > 0 && ms[0].Assistant? && |ms[0].calls| == n
    && forall k :: 1 <= k <= n ==> ms[k].ToolMsg? && ms[k].toolCallId == ms[0].calls[k - 1].id
  }

  /** `n` rounds: each an assistant message with calls, then one answer per call, with the
      same ids in the same order. */
  predicate Rounds(ms: seq<Msg>, n: nat)
    decreases n
  {
    if n == 0 then ms == []
    else ms != [] && ms[0].Assistant? && IsRound(ms, |ms[0].calls|) && Rounds(ms[1 + |ms[0].calls|..], n - 1)
  }

  lemma RoundExtends(a: seq<Msg>, b: seq<Msg>, n: nat)
    requires IsRound(a, n)
    ensures IsRound(a + b, n)
  {
    assert (a + b)[0] == a[0];
    assert forall k :: 1 <= k <= n ==> (a + b)[k] == a[k];
  }

  /** Exactly one round. */
  predicate WholeRound(r: seq<Msg>) {
    r != [] && r[0].Assistant? && |r| == 1 + |r[0].calls| && IsRound(r, |r[0].calls|)
  }

  lemma FirstRound(ms: seq<Msg>, n: nat) returns (round: seq<Msg>, rest: seq<Msg>)
    requires n > 0 && Rounds(ms, n)
    ensures ms == round + rest && WholeRound(round) && Rounds(rest, n - 1)
  {
    var k := 1 + |ms[0].calls|;
    round, rest := ms[..k], ms[k..];
    TakeDrop(ms, k);
    assert forall i :: 0 <= i < k ==> round[i] == ms[i];
  }

  lemma RoundThen(round: seq<Msg>, rest: seq<Msg>, m: nat)
    requires WholeRound(round)
    ensures Rounds(round + rest, m) <==> m > 0 && Rounds(rest, m - 1)
  {
    RoundExtends(round, rest, |round[0].calls|);
    assert (round + rest)[0] == round[0];
    DropAppend(round, rest, |round|);
    AppendNil(rest);
  }

  lemma RoundInFront(head: seq<Msg>, tail: seq<Msg>, n: nat, b: seq<Msg>, m: nat)
    requires WholeRound(head)
    requires m > 0 ==> (Rounds(tail + b, m - 1) <==> m - 1 >= n && Rounds(b, m - 1 - n))
    ensures Rounds((head + tail) + b, m) <==> m >= n + 1 && Rounds(b, m - n - 1)
  {
    AppendAssoc(head, tail, b);
    RoundThen(head, tail + b, m);
  }

  /** Rounds join and split only where a round ends. */
  lemma {:induction false} RoundsConcat(a: seq<Msg>, n: nat, b: seq<Msg>, m: nat)
    requires Rounds(a, n)
    ensures Rounds(a + b, m) <==> m >= n && Rounds(b, m - n)
    decreases n
  {
    if n == 0 {
      AppendNil(b);
    } else {
      var head, tail := FirstRound(a, n);
      if m > 0 { RoundsConcat(tail, n - 1, b, m - 1); }
      RoundInFront(head, tail, n - 1, b, m);
    }
  }

  /** The answers of a stretch of calls: one per call unless an exception cut it short. */
  lemma {:induction false} AnswersMatchCalls(w: World, calls: seq<PartialCall>, messages: seq<Msg>)
    ensures var step := ToolSteps(w, calls, messages);
            |step.appended| <= |calls| && (step.raised.None? <==> |step.appended| == |calls|) &&
            forall k :: 0 <= k < |step.appended| ==> step.appended[k].ToolMsg? && step.appended[k].toolCallId == calls[k].id
    decreases |calls|
  {
    if calls != [] {
      var first := ToolStep(w, calls[0], messages);
      if first.raised.None? {
        AnswersMatchCalls(w, calls[1..], messages + first.appended);
        var rest := ToolSteps(w, calls[1..], messages + first.appended);
        assert |first.appended| == 1;
        forall k | 0 <= k < 1 + |rest.appended|
          ensures (first.appended + rest.appended)[k].ToolMsg? && (first.appended + rest.appended)[k].toolCallId == calls[k].id
        {
          if k > 0 { assert calls[k] == calls[1..][k - 1]; }
        }
      }
    }
  }

  lemma OneRound(turn: TurnResult, answers: seq<Msg>)
    requires turn.toolCalls != [] && |answers| == |turn.toolCalls|
    requires forall k :: 0 <= k < |answers| ==> answers[k].ToolMsg? && answers[k].toolCallId == turn.toolCalls[k].id
    ensures Rounds([AssistantMessage(turn)] + answers, 1)
  {
    var ms := [AssistantMessage(turn)] + answers;
    assert forall k :: 1 <= k <= |answers| ==> ms[k] == answers[k - 1];
    assert ms[1 + |answers|..] == [];
  }

  /** A transcript is the base followed by exactly `n` rounds. */
  ghost predicate AfterRounds(base: seq<Msg>, ms: seq<Msg>, n: nat) {
    base <= ms && Rounds(ms[|base|..], n)
  }

  /** The requests of a run that starts after `k` rounds. */
  ghost predicate GoodRequests(base: seq<Msg>, requests: seq<seq<Msg>>, k: nat) {
    forall i :: 0 <= i < |requests| ==> AfterRounds(base, requests[i], k + i)
  }

  lemma AnotherRound(base: seq<Msg>, ms: seq<Msg>, k: nat, turn: TurnResult, answers: seq<Msg>)
    requires AfterRounds(base, ms, k) && Rounds([AssistantMessage(turn)] + answers, 1)
    ensures AfterRounds(base, ms + [AssistantMessage(turn)] + answers, k + 1)
  {
    var round := [AssistantMessage(turn)] + answers;
    AppendAssoc(ms, [AssistantMessage(turn)], answers);
    DropAppend(ms, round, |base|);
    RoundsConcat(ms[|base|..], k, round, k + 1);
  }

  /** The run ends by the cap: the last packet is the cap's error. */
  predicate HitsCap(r: Run) { r.packets != [] && r.packets[|r.packets| - 1] == CAP_EXCEEDED }

  lemma {:induction false} BodyHasNoErrors(ps: seq<Packet>, i: nat)
    requires Body(ps) && i < |ps|
    ensures !ps[i].ErrorPacket?
    decreases |ps|
  {
    var n := FirstBlock(ps);
    if i >= n {
      BodyHasNoErrors(ps[n..], i - n);
      assert ps[n..][i - n] == ps[i];
    }
  }

  lemma BodyNeverHitsCap(ps: seq<Packet>)
    requires Body(ps)
    ensures ps != [] ==> ps[|ps| - 1] != CAP_EXCEEDED
  {
    if ps != [] { BodyHasNoErrors(ps, |ps| - 1); }
  }

  /** An assistant message without all of its answers is not a round. */
  lemma UnfinishedRound(base: seq<Msg>, ms: seq<Msg>, k: nat, turn: TurnResult, answers: seq<Msg>, m: nat)
    requires AfterRounds(base, ms, k)
    requires |answers| < |turn.toolCalls| || (answers == [] && turn.toolCalls == [])
    ensures !AfterRounds(base, ms + [AssistantMessage(turn)] + answers, m)
  {
    var round := [AssistantMessage(turn)] + answers;
    AppendAssoc(ms, [AssistantMessage(turn)], answers);
    DropAppend(ms, round, |base|);
    assert round[0] == AssistantMessage(turn);
    if AfterRounds(base, ms + [AssistantMessage(turn)] + answers, m) {
      RoundsConcat(ms[|base|..], k, round, m);
    }
  }

  lemma RoundsCount(base: seq<Msg>, ms: seq<Msg>, k: nat, m: nat)
    requires AfterRounds(base, ms, k) && AfterRounds(base, ms, m)
    ensures k == m
  {
    AppendNil(ms[|base|..]);
    RoundsConcat(ms[|base|..], k, [], m);
  }

  /** Each request extends the one before it. */
  ghost predicate Growing(requests: seq<seq<Msg>>) {
    forall i :: 0 < i < |requests| ==> requests[i - 1] < requests[i]
  }

  /** What a run from `messages`, `k` rounds after the base and with `n` turns left, shows. */
  ghost predicate GoodRun(base: seq<Msg>, messages: seq<Msg>, k: nat, n: nat, r: Run) {
    && GoodRequests(base, r.requests, k) && Growing(r.requests)
    && |r.requests| <= n && (n > 0 ==> |r.requests| > 0 && r.requests[0] == messages)
    && messages <= r.transcript
    && (HitsCap(r) <==> AfterRounds(base, r.transcript, k + n))
  }

  lemma SingleRequest(base: seq<Msg>, messages: seq<Msg>, k: nat, n: nat, r: Run)
    requires n > 0 && AfterRounds(base, messages, k) && r.requests == [messages] && messages <= r.transcript
    requires !HitsCap(r) && !AfterRounds(base, r.transcript, k + n)
    ensures GoodRun(base, messages, k, n, r)
  {
  }

  lemma MoreRequests(base: seq<Msg>, messages: seq<Msg>, k: nat, n: nat, answered: seq<Msg>, sent: seq<Packet>, rest: Run)
    requires n > 0 && AfterRounds(base, messages, k) && messages < answered && Body(sent)
    requires GoodRun(base, answered, k + 1, n - 1, rest)
    ensures GoodRun(base, messages, k, n, Run(sent + rest.packets, [messages] + rest.requests, rest.transcript))
  {
    var r := Run(sent + rest.packets, [messages] + rest.requests, rest.transcript);
    BodyNeverHitsCap(sent);
    assert forall i :: 0 < i < |r.requests| ==> r.requests[i] == rest.requests[i - 1];
    forall i | 0 <= i < |r.requests| ensures AfterRounds(base, r.requests[i], k + i) {
      if i > 0 { assert AfterRounds(base, rest.requests[i - 1], k + 1 + (i - 1)); }
    }
    forall i | 0 < i < |r.requests| ensures r.requests[i - 1] < r.requests[i] {
      if i > 1 { assert rest.requests[i - 2] < rest.requests[i - 1]; }
    }
    if rest.packets != [] {
      assert r.packets[|r.packets| - 1] == rest.packets[|rest.packets| - 1];
    } else {
      AppendNil(sent);
    }
  }

  lemma FailureIsNotCap(packets: seq<Packet>, e: string, requests: seq<seq<Msg>>, transcript: seq<Msg>)
    ensures !HitsCap(Run(packets + [Failure(e)], requests, transcript))
  {
    assert "agent_failed" != "agent_max_turns" by { assert |"agent_failed"| != |"agent_max_turns"|; }
  }

  lemma StopIsGood(base: seq<Msg>, messages: seq<Msg>, k: nat, n: nat, text: seq<Packet>, turn: TurnResult)
    requires n > 0 && AfterRounds(base, messages, k) && Body(text)
    ensures GoodRun(base, messages, k, n, Run(text, [messages], messages + [AssistantMessage(turn)]))
  {
    var asked := messages + [AssistantMessage(turn)];
    BodyNeverHitsCap(text);
    UnfinishedRound(base, messages, k, turn, [], k + n);
    AppendNil(asked);
    SingleRequest(base, messages, k, n, Run(text, [messages], asked));
  }

  lemma RaiseIsGood(base: seq<Msg>, messages: seq<Msg>, k: nat, n: nat, sent: seq<Packet>, turn: TurnResult, step: Step)
    requires n > 0 && AfterRounds(base, messages, k) && step.raised.Some?
    requires |step.appended| < |turn.toolCalls|
    ensures GoodRun(base, messages, k, n,
                    Run(sent + [Failure(RaisedName(step))], [messages], messages + [AssistantMessage(turn)] + step.appended))
  {
    var answered := messages + [AssistantMessage(turn)] + step.appended;
    FailureIsNotCap(sent, step.raised.value, [messages], answered);
    UnfinishedRound(base, messages, k, turn, step.appended, k + n);
    AppendAssoc(messages, [AssistantMessage(turn)], step.appended);
    SingleRequest(base, messages, k, n, Run(sent + [Failure(step.raised.value)], [messages], answered));
  }

  predicate WantsTools(turn: TurnResult) { turn.finishReason == Some("tool_calls") && turn.toolCalls != [] }

  /** How a run went, turn by turn: the cap, a failing answer, a final answer, a call that
      raised, or a turn that was answered in full and another one. */
  datatype Trace =
    | Capped
    | Failed(text: seq<Packet>, errorName: string)
    | Stopped(text: seq<Packet>, turn: TurnResult)
    | Raised(text: seq<Packet>, turn: TurnResult, step: Step)
    | Continued(text: seq<Packet>, turn: TurnResult, step: Step, rest: Trace)

  function TraceOf(w: World, messages: seq<Msg>, n: nat): Trace
    decreases n
  {
    if n == 0 then Capped
    else
      var stream := w.provider(messages);
      var text := TextPackets(stream.chunks);
      if stream.failure.Some? then Failed(text, stream.failure.value)
      else
        var turn := TurnOf(stream.chunks);
        var asked := messages + [AssistantMessage(turn)];
        if !WantsTools(turn) then Stopped(text, turn)
        else
          var step := ToolSteps(w, turn.toolCalls, asked);
          if step.raised.Some? then Raised(text, turn, step)
          else Continued(text, turn, step, TraceOf(w, asked + step.appended, n - 1))
  }

  /** The transcript behind an answer and the answers to its calls. */
  function NextMessages(w: World, messages: seq<Msg>): seq<Msg> {
    var turn := TurnOf(w.provider(messages).chunks);
    var asked := messages + [AssistantMessage(turn)];
    asked + ToolSteps(w, turn.toolCalls, asked).appended
  }

  function RaisedName(step: Step): string { if step.raised.Some? then step.raised.value else "" }

  /** The run that a trace amounts to. */
  function Replayed(messages: seq<Msg>, trace: Trace): Run
    decreases trace
  {
    match trace
    case Capped => Run([CAP_EXCEEDED], [], messages)
    case Failed(text, errorName) => Run(text + [Failure(errorName)], [messages], messages)
    case Stopped(text, turn) => Run(text, [messages], messages + [AssistantMessage(turn)])
    case Raised(text, turn, step) =>
      Run(text + step.packets + [Failure(RaisedName(step))], [messages], messages + [AssistantMessage(turn)] + step.appended)
    case Continued(text, turn, step, more) =>
      var rest := Replayed(messages + [AssistantMessage(turn)] + step.appended, more);
      Run(text + step.packets + rest.packets, [messages] + rest.requests, rest.transcript)
  }

  /** The loop with `n` turns left is what its trace amounts to. */
  ghost predicate LoopReplayed(w: World, messages: seq<Msg>, n: nat) {
    Loop(w, messages, n) == Replayed(messages, TraceOf(w, messages, n))
  }

  /** A turn without failure and its trace, given those behind it. */
  lemma TurnIsReplayed(w: World, messages: seq<Msg>, n: nat)
    requires n > 0 && w.provider(messages).failure.None?
    requires LoopReplayed(w, NextMessages(w, messages), n - 1)
    ensures LoopReplayed(w, messages, n)
  {
    var turn := TurnOf(w.provider(messages).chunks);
    var text := TextPackets(w.provider(messages).chunks);
    var step := ToolSteps(w, turn.toolCalls, messages + [AssistantMessage(turn)]);
    if !WantsTools(turn) {
      assert TraceOf(w, messages, n) == Stopped(text, turn);
    } else if step.raised.Some? {
      RaiseIsReplayed(w, messages, n, turn, text, step);
    } else {
      ContinueIsReplayed(w, messages, n, turn, text, step);
    }
  }

  lemma RaiseIsReplayed(w: World, messages: seq<Msg>, n: nat, turn: TurnResult, text: seq<Packet>, step: Step)
    requires n > 0 && w.provider(messages).failure.None? && turn == TurnOf(w.provider(messages).chunks) && WantsTools(turn)
    requires text == TextPackets(w.provider(messages).chunks)
    requires step == ToolSteps(w, turn.toolCalls, messages + [AssistantMessage(turn)]) && step.raised.Some?
    ensures LoopReplayed(w, messages, n)
  {
    assert TraceOf(w, messages, n) == Raised(text, turn, step);
  }

  lemma ContinueIsReplayed(w: World, messages: seq<Msg>, n: nat, turn: TurnResult, text: seq<Packet>, step: Step)
    requires n > 0 && w.provider(messages).failure.None? && turn == TurnOf(w.provider(messages).chunks) && WantsTools(turn)
    requires text == TextPackets(w.provider(messages).chunks)
    requires step == ToolSteps(w, turn.toolCalls, messages + [AssistantMessage(turn)]) && step.raised.None?
    requires LoopReplayed(w, NextMessages(w, messages), n - 1)
    ensures LoopReplayed(w, messages, n)
  {
    assert NextMessages(w, messages) == messages + [AssistantMessage(turn)] + step.appended;
    assert TraceOf(w, messages, n) == Continued(text, turn, step, TraceOf(w, NextMessages(w, messages), n - 1));
  }

  lemma FailureIsReplayed(w: World, messages: seq<Msg>, n: nat)
    requires n > 0 && w.provider(messages).failure.Some?
    ensures LoopReplayed(w, messages, n)
  {
    var stream := w.provider(messages);
    assert TraceOf(w, messages, n) == Failed(TextPackets(stream.chunks), stream.failure.value);
  }

  lemma CapIsReplayed(w: World, messages: seq<Msg>)
    ensures LoopReplayed(w, messages, 0)
  {
    assert TraceOf(w, messages, 0) == Capped;
  }

  ghost predicate AllReplayed(w: World, n: nat) { forall messages :: LoopReplayed(w, messages, n) }

  lemma AllCapsReplayed(w: World)
    ensures AllReplayed(w, 0)
  {
    forall messages ensures LoopReplayed(w, messages, 0) { CapIsReplayed(w, messages); }
  }

  lemma AllStepsReplayed(w: World, n: nat)
    requires n > 0 && AllReplayed(w, n - 1)
    ensures AllReplayed(w, n)
  {
    forall messages ensures LoopReplayed(w, messages, n) {
      assert LoopReplayed(w, NextMessages(w, messages), n - 1);
      StepIsReplayed(w, messages, n);
    }
  }

  lemma {:induction false} LoopsAreReplayed(w: World, n: nat)
    ensures AllReplayed(w, n)
  {
    if n == 0 {
      AllCapsReplayed(w);
    } else {
      LoopsAreReplayed(w, n - 1);
      AllStepsReplayed(w, n);
    }
  }

  lemma LoopIsReplayed(w: World, messages: seq<Msg>, n: nat)
    ensures Loop(w, messages, n) == Replayed(messages, TraceOf(w, messages, n))
  {
    LoopsAreReplayed(w, n);
    assert LoopReplayed(w, messages, n);
  }

  lemma StepIsReplayed(w: World, messages: seq<Msg>, n: nat)
    requires n > 0
    requires LoopReplayed(w, NextMessages(w, messages), n - 1)
    ensures LoopReplayed(w, messages, n)
  {
    if w.provider(messages).failure.Some? {
      FailureIsReplayed(w, messages, n);
    } else {
      TurnIsReplayed(w, messages, n);
    }
  }

  /** What is known of a turn and of the answers to its calls. */
  ghost predicate Answers(text: seq<Packet>, turn: TurnResult, step: Step) {
    && Body(text) && Body(step.packets)
    && Deltas(text) == turn.text && Deltas(step.packets) == ""
    && |step.appended| <= |turn.toolCalls| && (step.raised.None? <==> |step.appended| == |turn.toolCalls|)
    && (forall i :: 0 <= i < |step.appended| ==>
          step.appended[i].ToolMsg? && step.appended[i].toolCallId == turn.toolCalls[i].id)
  }

  lemma TurnAnswers(w: World, chunks: seq<Chunk>, asked: seq<Msg>)
    ensures Answers(TextPackets(chunks), TurnOf(chunks), ToolSteps(w, TurnOf(chunks).toolCalls, asked))
  {
    var calls := TurnOf(chunks).toolCalls;
    TextIsBody(chunks);
    TextPacketsSpell(chunks);
    AnswersMatchCalls(w, calls, asked);
    ToolsAreBody(w, calls, asked);
    ToolPacketsAreSilent(w, calls, asked);
  }

  /** A trace that a run of at most `n` turns can leave. */
  ghost predicate Possible(trace: Trace, n: nat)
    decreases trace
  {
    match trace
    case Capped => n == 0
    case Failed(text, _) => n > 0 && Body(text)
    case Stopped(text, turn) => n > 0 && Body(text) && Deltas(text) == turn.text
    case Raised(text, turn, step) => n > 0 && Answers(text, turn, step) && step.raised.Some?
    case Continued(text, turn, step, rest) =>
      n > 0 && Answers(text, turn, step) && step.raised.None? && turn.toolCalls != [] && Possible(rest, n - 1)
  }

  /** One turn of the trace, given the turns after it. */
  lemma TurnIsPossible(w: World, messages: seq<Msg>, n: nat)
    requires n > 0 && w.provider(messages).failure.None?
    requires Possible(TraceOf(w, NextMessages(w, messages), n - 1), n - 1)
    ensures Possible(TraceOf(w, messages, n), n)
  {
    var turn := TurnOf(w.provider(messages).chunks);
    var step := ToolSteps(w, turn.toolCalls, messages + [AssistantMessage(turn)]);
    var text := TextPackets(w.provider(messages).chunks);
    TurnAnswers(w, w.provider(messages).chunks, messages + [AssistantMessage(turn)]);
    assert Answers(text, turn, step);
    if !WantsTools(turn) {
      assert TraceOf(w, messages, n) == Stopped(text, turn);
    } else if step.raised.Some? {
      assert TraceOf(w, messages, n) == Raised(text, turn, step);
    } else {
      var rest := TraceOf(w, messages + [AssistantMessage(turn)] + step.appended, n - 1);
      assert TraceOf(w, messages, n) == Continued(text, turn, step, rest);
    }
  }

  lemma {:induction false} TracesArePossible(w: World, messages: seq<Msg>, n: nat)
    ensures Possible(TraceOf(w, messages, n), n)
    decreases n
  {
    if n > 0 {
      var stream := w.provider(messages);
      if stream.failure.Some? {
        TextIsBody(stream.chunks);
      } else {
        TracesArePossible(w, NextMessages(w, messages), n - 1);
        TurnIsPossible(w, messages, n);
      }
    }
  }

  lemma FailedIsGood(base: seq<Msg>, messages: seq<Msg>, k: nat, n: nat, text: seq<Packet>, errorName: string)
    requires n > 0 && AfterRounds(base, messages, k)
    ensures GoodRun(base, messages, k, n, Run(text + [Failure(errorName)], [messages], messages))
  {
    var r := Run(text + [Failure(errorName)], [messages], messages);
    FailureIsNotCap(text, errorName, [messages], messages);
    if AfterRounds(base, messages, k + n) { RoundsCount(base, messages, k, k + n); }
    SingleRequest(base, messages, k, n, r);
  }

  lemma ContinuedIsGood(base: seq<Msg>, messages: seq<Msg>, k: nat, n: nat,
                        text: seq<Packet>, turn: TurnResult, step: Step, answered: seq<Msg>, rest: Run)
    requires n > 0 && AfterRounds(base, messages, k) && Answers(text, turn, step)
    requires step.raised.None? && turn.toolCalls != []
    requires answered == messages + [AssistantMessage(turn)] + step.appended
    requires AfterRounds(base, answered, k + 1) ==> GoodRun(base, answered, k + 1, n - 1, rest)
    ensures AfterRounds(base, answered, k + 1)
    ensures GoodRun(base, messages, k, n, Run(text + step.packets + rest.packets, [messages] + rest.requests, rest.transcript))
  {
    BodyConcat(text, step.packets);
    OneRound(turn, step.appended);
    AnotherRound(base, messages, k, turn, step.appended);
    AppendAssoc(messages, [AssistantMessage(turn)], step.appended);
    MoreRequests(base, messages, k, n, answered, text + step.packets, rest);
  }

  lemma LastTurnIsGood(base: seq<Msg>, messages: seq<Msg>, k: nat, n: nat, trace: Trace)
    requires AfterRounds(base, messages, k) && Possible(trace, n) && !trace.Continued?
    ensures GoodRun(base, messages, k, n, Replayed(messages, trace))
  {
    match trace {
      case Capped =>
      case Failed(text, errorName) =>
        FailedIsGood(base, messages, k, n, text, errorName);
      case Stopped(text, turn) =>
        StopIsGood(base, messages, k, n, text, turn);
      case Raised(text, turn, step) =>
        RaiseIsGood(base, messages, k, n, text + step.packets, turn, step);
    }
  }

  lemma {:induction false} PossibleIsGood(base: seq<Msg>, messages: seq<Msg>, k: nat, n: nat, trace: Trace)
    requires AfterRounds(base, messages, k) && Possible(trace, n)
    ensures GoodRun(base, messages, k, n, Replayed(messages, trace))
    decreases trace
  {
    if trace.Continued? {
      var answered := messages + [AssistantMessage(trace.turn)] + trace.step.appended;
      if AfterRounds(base, answered, k + 1) { PossibleIsGood(base, answered, k + 1, n - 1, trace.rest); }
      ContinuedIsGood(base, messages, k, n, trace.text, trace.turn, trace.step, answered, Replayed(answered, trace.rest));
    } else {
      LastTurnIsGood(base, messages, k, n, trace);
    }
  }

  lemma {:induction false} PossibleIsGrammatical(messages: seq<Msg>, n: nat, trace: Trace)
    requires Possible(trace, n)
    ensures Grammatical(Replayed(messages, trace).packets)
    decreases trace
  {
    match trace {
      case Capped =>
        GrammaticalError([], CAP_EXCEEDED);
        assert [] + [CAP_EXCEEDED] == [CAP_EXCEEDED];
      case Failed(text, errorName) =>
        GrammaticalError(text, Failure(errorName));
      case Stopped(text, turn) =>
      case Raised(text, turn, step) =>
        BodyConcat(text, step.packets);
        GrammaticalError(text + step.packets, Failure(RaisedName(step)));
      case Continued(text, turn, step, more) =>
        var answered := messages + [AssistantMessage(turn)] + step.appended;
        PossibleIsGrammatical(answered, n - 1, more);
        BodyConcat(text, step.packets);
        GrammaticalConcat(text + step.packets, Replayed(answered, more).packets);
    }
  }

  /** Every run, whatever provider and tools do, emits text deltas and whole call blocks,
      and at most one error packet, as its last. */
  lemma RunsAreGrammatical(w: World, base: seq<Msg>)
    ensures Grammatical(AgentRun(w, base).packets)
  {
    TracesArePossible(w, base, MAX_TOOL_TURNS);
    LoopIsReplayed(w, base, MAX_TOOL_TURNS);
    PossibleIsGrammatical(base, MAX_TOOL_TURNS, TraceOf(w, base, MAX_TOOL_TURNS));
  }

  lemma ErrorEndsNothing(body: seq<Packet>, e: Packet)
    requires e.ErrorPacket?
    ensures EndIds(body + [e]) == EndIds(body)
  {
    EndIdsAppend(body, [e]);
    assert [e][1..] == [] && EndIds([]) == [];
    AppendNil(EndIds(body));
  }

  lemma BodyIsBalanced(ps: seq<Packet>)
    requires Body(ps)
    ensures StartIds(ps) == EndIds(ps) && forall i :: 0 <= i < |ps| ==> !ps[i].ErrorPacket?
  {
    StartsMatchEnds(ps);
    forall i | 0 <= i < |ps| ensures !ps[i].ErrorPacket? { BodyHasNoErrors(ps, i); }
  }

  lemma GrammaticalIsBalanced(ps: seq<Packet>)
    requires Grammatical(ps)
    ensures StartIds(ps) == EndIds(ps)
    ensures forall i :: 0 <= i < |ps| - 1 ==> !ps[i].ErrorPacket?
  {
    if Body(ps) {
      BodyIsBalanced(ps);
    } else {
      var body, e := ps[..|ps| - 1], ps[|ps| - 1];
      BodyIsBalanced(body);
      assert ps == body + [e] && forall i :: 0 <= i < |body| ==> ps[i] == body[i];
      ErrorStartsNothing(body, e);
      ErrorEndsNothing(body, e);
    }
  }

  /** In every run each started call is ended once, in the order of the starts, and no
      error packet comes before the last packet. */
  lemma RunsAreBalanced(w: World, base: seq<Msg>)
    ensures var ps := AgentRun(w, base).packets;
            StartIds(ps) == EndIds(ps) && forall i :: 0 <= i < |ps| - 1 ==> !ps[i].ErrorPacket?
  {
    RunsAreGrammatical(w, base);
    GrammaticalIsBalanced(AgentRun(w, base).packets);
  }

  /** At every model request of every run the transcript is the base followed by one whole
      round per earlier request; requests extend each other and there are at most ten; and
      the run ends by the cap exactly when ten whole rounds were answered. */
  lemma TranscriptsAreWellFormed(w: World, base: seq<Msg>)
    ensures var r := AgentRun(w, base);
            1 <= |r.requests| <= MAX_TOOL_TURNS && Growing(r.requests) &&
            (forall i :: 0 <= i < |r.requests| ==> AfterRounds(base, r.requests[i], i)) &&
            (HitsCap(r) <==> AfterRounds(base, r.transcript, MAX_TOOL_TURNS))
  {
    assert Rounds(base[|base|..], 0);
    TracesArePossible(w, base, MAX_TOOL_TURNS);
    LoopIsReplayed(w, base, MAX_TOOL_TURNS);
    PossibleIsGood(base, base, 0, MAX_TOOL_TURNS, TraceOf(w, base, MAX_TOOL_TURNS));
    var r := AgentRun(w, base);
    assert forall i :: 0 <= i < |r.requests| ==> AfterRounds(base, r.requests[i], 0 + i);
  }

  // ------------------------------------------------- the words of the transcript

  /** What the assistant said in a stretch of transcript. */
  function Spoken(ms: seq<Msg>): string {
    if ms == [] then ""
    else (if ms[0].Assistant? && ms[0].content.Some? then ms[0].content.value else "") + Spoken(ms[1..])
  }

  lemma {:induction false} SpokenAppend(a: seq<Msg>, b: seq<Msg>)
    ensures Spoken(a + b) == Spoken(a) + Spoken(b)
  {
    if a == [] {
      AppendNil(b);
    } else {
      DropAppend(a, b, 1);
      SpokenAppend(a[1..], b);
    }
  }

  lemma {:induction false} AnswersAreSilent(ms: seq<Msg>)
    requires forall k :: 0 <= k < |ms| ==> ms[k].ToolMsg?
    ensures Spoken(ms) == ""
  {
    if ms != [] {
      assert forall k :: 0 <= k < |ms[1..]| ==> ms[1..][k] == ms[k + 1];
      AnswersAreSilent(ms[1..]);
    }
  }

  lemma {:induction false} DeltasAppend(a: seq<Packet>, b: seq<Packet>)
    ensures Deltas(a + b) == Deltas(a) + Deltas(b)
  {
    if a == [] {
      AppendNil(b);
    } else {
      DropAppend(a, b, 1);
      DeltasAppend(a[1..], b);
    }
  }

  lemma DeltasOne(p: Packet)
    ensures Deltas([p]) == Delta(p)
  {
    assert [p][1..] == [];
  }

  lemma {:induction false} TextPacketsSpell(chunks: seq<Chunk>)
    ensures Deltas(TextPackets(chunks)) == StreamText(chunks)
  {
    if chunks != [] {
      var last := chunks[|chunks| - 1];
      TextPacketsSpell(chunks[..|chunks| - 1]);
      var before := TextPackets(chunks[..|chunks| - 1]);
      if last.Choice? && Given(last.content) {
        DeltasAppend(before, [TextDelta(None, last.content.value)]);
        DeltasOne(TextDelta(None, last.content.value));
      } else {
        AppendNil(before);
        AppendNil(StreamText(chunks[..|chunks| - 1]));
      }
    }
  }

  lemma {:induction false} ToolPacketsAreSilent(w: World, calls: seq<PartialCall>, messages: seq<Msg>)
    ensures Deltas(ToolSteps(w, calls, messages).packets) == ""
    decreases |calls|
  {
    if calls != [] {
      var first := ToolStep(w, calls[0], messages);
      NoTextNoDeltas(first.packets);
      if first.raised.None? {
        var rest := ToolSteps(w, calls[1..], messages + first.appended);
        ToolPacketsAreSilent(w, calls[1..], messages + first.appended);
        DeltasAppend(first.packets, rest.packets);
      }
    }
  }

  lemma {:induction false} NoTextNoDeltas(ps: seq<Packet>)
    requires forall i :: 0 <= i < |ps| ==> !ps[i].TextDelta?
    ensures Deltas(ps) == ""
  {
    if ps != [] {
      assert forall i :: 0 <= i < |ps[1..]| ==> ps[1..][i] == ps[i + 1];
      NoTextNoDeltas(ps[1..]);
    }
  }

  /** The text that a failing last answer had sent before it failed. */
  function LostText(w: World, r: Run): string {
    if r.requests == [] then ""
    else
      var last := w.provider(r.requests[|r.requests| - 1]);
      if last.failure.Some? then StreamText(last.chunks) else ""
  }

  function LostBy(trace: Trace): string
    decreases trace
  {
    match trace
    case Failed(text, _) => Deltas(text)
    case Continued(_, _, _, more) => LostBy(more)
    case _ => ""
  }

  lemma TurnSpeaks(messages: seq<Msg>, turn: TurnResult, answers: seq<Msg>)
    requires forall k :: 0 <= k < |answers| ==> answers[k].ToolMsg?
    ensures Spoken(messages + [AssistantMessage(turn)] + answers) == Spoken(messages) + turn.text
  {
    SpokenAppend(messages + [AssistantMessage(turn)], answers);
    SpokenAppend(messages, [AssistantMessage(turn)]);
    AnswersAreSilent(answers);
    assert [AssistantMessage(turn)][1..] == [];
    assert Spoken([AssistantMessage(turn)]) == turn.text;
  }

  /** The words so far and those sent, against the transcript's words and the lost ones. */
  ghost predicate Speaks(soFar: string, r: Run, lost: string) {
    soFar + Deltas(r.packets) == Spoken(r.transcript) + lost
  }

  lemma ContinueSpeaks(soFar: string, sent: seq<Packet>, requests: seq<seq<Msg>>, rest: Run, lost: string)
    requires Speaks(soFar + Deltas(sent), rest, lost)
    ensures Speaks(soFar, Run(sent + rest.packets, requests, rest.transcript), lost)
  {
    DeltasAppend(sent, rest.packets);
    AppendAssoc(soFar, Deltas(sent), Deltas(rest.packets));
  }

  lemma ContinuedSpeaks(messages: seq<Msg>, text: seq<Packet>, turn: TurnResult, step: Step, rest: Run, lost: string)
    requires Answers(text, turn, step)
    requires Speaks(Spoken(messages + [AssistantMessage(turn)] + step.appended), rest, lost)
    ensures Speaks(Spoken(messages), Run(text + step.packets + rest.packets, [messages] + rest.requests, rest.transcript), lost)
  {
    TurnSpeaks(messages, turn, step.appended);
    DeltasAppend(text, step.packets);
    AppendNil(turn.text);
    ContinueSpeaks(Spoken(messages), text + step.packets, [messages] + rest.requests, rest, lost);
  }

  lemma RaisedSpeaks(messages: seq<Msg>, text: seq<Packet>, turn: TurnResult, step: Step)
    requires Answers(text, turn, step)
    ensures Speaks(Spoken(messages), Replayed(messages, Raised(text, turn, step)), "")
  {
    var answered, e := messages + [AssistantMessage(turn)] + step.appended, Failure(RaisedName(step));
    TurnSpeaks(messages, turn, step.appended);
    DeltasAppend(text, step.packets);
    AppendNil(turn.text);
    DeltasAppend(text + step.packets, [e]);
    DeltasOne(e);
    AppendNil(Spoken(answered));
  }

  lemma ShortRunsSpeak(messages: seq<Msg>, trace: Trace)
    requires trace.Capped? || trace.Failed? || (trace.Stopped? && Deltas(trace.text) == trace.turn.text)
    ensures Speaks(Spoken(messages), Replayed(messages, trace), LostBy(trace))
  {
    match trace {
      case Capped =>
        DeltasOne(CAP_EXCEEDED);
      case Failed(text, errorName) =>
        DeltasAppend(text, [Failure(errorName)]);
        DeltasOne(Failure(errorName));
        AppendNil(Deltas(text));
      case Stopped(text, turn) =>
        TurnSpeaks(messages, turn, []);
        AppendNil(messages + [AssistantMessage(turn)]);
        AppendNil(Spoken(messages) + turn.text);
      case _ =>
    }
  }

  lemma {:induction false} PossibleSpeaks(messages: seq<Msg>, n: nat, trace: Trace)
    requires Possible(trace, n)
    ensures Speaks(Spoken(messages), Replayed(messages, trace), LostBy(trace))
    decreases trace
  {
    match trace {
      case Raised(text, turn, step) =>
        RaisedSpeaks(messages, text, turn, step);
      case Continued(text, turn, step, more) =>
        var answered := messages + [AssistantMessage(turn)] + step.appended;
        PossibleSpeaks(answered, n - 1, more);
        ContinuedSpeaks(messages, text, turn, step, Replayed(answered, more), LostBy(more));
      case _ =>
        ShortRunsSpeak(messages, trace);
    }
  }

  predicate EndsInError(ps: seq<Packet>) { ps != [] && ps[|ps| - 1].ErrorPacket? }

  /** A run behind an answer that did not fail loses what it loses alone. */
  lemma LostBehind(w: World, messages: seq<Msg>, sent: seq<Packet>, rest: Run)
    requires w.provider(messages).failure.None?
    ensures LostText(w, Run(sent + rest.packets, [messages] + rest.requests, rest.transcript)) == LostText(w, rest)
    ensures EndsInError(rest.packets) ==> EndsInError(sent + rest.packets)
  {
    var requests := [messages] + rest.requests;
    if rest.requests != [] { assert requests[|requests| - 1] == rest.requests[|rest.requests| - 1]; }
  }

  /** What a trace loses is what its last answer lost; such a run ends in an error packet. */
  ghost predicate LosesItsLast(w: World, messages: seq<Msg>, trace: Trace) {
    var r := Replayed(messages, trace);
    LostBy(trace) == LostText(w, r) && (LostBy(trace) != "" ==> EndsInError(r.packets))
  }

  /** The answers of a trace failed where the provider did. */
  ghost predicate Witnessed(w: World, messages: seq<Msg>, trace: Trace)
    decreases trace
  {
    match trace
    case Capped => true
    case Failed(text, _) =>
      w.provider(messages).failure.Some? && Deltas(text) == StreamText(w.provider(messages).chunks)
    case Stopped(_, _) => w.provider(messages).failure.None?
    case Raised(_, _, _) => w.provider(messages).failure.None?
    case Continued(_, turn, step, more) =>
      w.provider(messages).failure.None? && Witnessed(w, messages + [AssistantMessage(turn)] + step.appended, more)
  }

  lemma TurnIsWitnessed(w: World, messages: seq<Msg>, n: nat)
    requires n > 0 && w.provider(messages).failure.None?
    requires Witnessed(w, NextMessages(w, messages), TraceOf(w, NextMessages(w, messages), n - 1))
    ensures Witnessed(w, messages, TraceOf(w, messages, n))
  {
    var turn := TurnOf(w.provider(messages).chunks);
    var step := ToolSteps(w, turn.toolCalls, messages + [AssistantMessage(turn)]);
    var text := TextPackets(w.provider(messages).chunks);
    if !WantsTools(turn) {
      assert TraceOf(w, messages, n) == Stopped(text, turn);
    } else if step.raised.Some? {
      assert TraceOf(w, messages, n) == Raised(text, turn, step);
    } else {
      var rest := TraceOf(w, messages + [AssistantMessage(turn)] + step.appended, n - 1);
      assert TraceOf(w, messages, n) == Continued(text, turn, step, rest);
    }
  }

  lemma FailureIsWitnessed(w: World, messages: seq<Msg>, n: nat)
    requires n > 0 && w.provider(messages).failure.Some?
    ensures Witnessed(w, messages, TraceOf(w, messages, n))
  {
    TextPacketsSpell(w.provider(messages).chunks);
  }

  lemma {:induction false} TracesAreWitnessed(w: World, messages: seq<Msg>, n: nat)
    ensures Witnessed(w, messages, TraceOf(w, messages, n))
    decreases n
  {
    if n > 0 {
      var stream := w.provider(messages);
      if stream.failure.Some? {
        FailureIsWitnessed(w, messages, n);
      } else {
        TracesAreWitnessed(w, NextMessages(w, messages), n - 1);
        TurnIsWitnessed(w, messages, n);
      }
    }
  }

  lemma {:induction false} LostIsLast(w: World, messages: seq<Msg>, trace: Trace)
    requires Witnessed(w, messages, trace)
    ensures LosesItsLast(w, messages, trace)
    decreases trace
  {
    if trace.Continued? {
      var answered := messages + [AssistantMessage(trace.turn)] + trace.step.appended;
      LostIsLast(w, answered, trace.rest);
      LostBehind(w, messages, trace.text + trace.step.packets, Replayed(answered, trace.rest));
    }
  }

  /** The streamed text is what the transcript says the assistant said, and the text of a
      failing last answer; so the two agree exactly when no such answer had sent text. */
  lemma StreamMatchesTranscript(w: World, base: seq<Msg>)
    ensures var r := AgentRun(w, base);
            Spoken(base) + Deltas(r.packets) == Spoken(r.transcript) + LostText(w, r) &&
            (Spoken(base) + Deltas(r.packets) == Spoken(r.transcript) <==> LostText(w, r) == "") &&
            (LostText(w, r) != "" ==> EndsInError(r.packets))
  {
    TracesArePossible(w, base, MAX_TOOL_TURNS);
    LoopIsReplayed(w, base, MAX_TOOL_TURNS);
    PossibleSpeaks(base, MAX_TOOL_TURNS, TraceOf(w, base, MAX_TOOL_TURNS));
    TracesAreWitnessed(w, base, MAX_TOOL_TURNS);
    LostIsLast(w, base, TraceOf(w, base, MAX_TOOL_TURNS));
    AppendNil(Spoken(AgentRun(w, base).transcript));
  }
}
