/** The client's incremental parser for the event stream
    (mobile/lib/api/sse-parser.ts) and the read loop that threads its leftover
    (mobile/lib/api/chat-stream.ts). */
module SseParser {
  import opened Prelude

  datatype SseEvent = SseEvent(event: string, data: string)

  /** Complete blocks cut from a buffer, and the text after the last of them. */
  datatype Split = Split(blocks: seq<string>, leftover: string)

  // ---------------------------------------------------------------- parsing

  /** `s.replace(/\r\n/g, "\n")`; a CR that is not followed by LF stays. */
  function NormalizeCrLf(s: string): string {
    if s == "" then ""
    else if |s| >= 2 && s[0] == '\r' && s[1] == '\n' then "\n" + NormalizeCrLf(s[2..])
    else [s[0]] + NormalizeCrLf(s[1..])
  }

  predicate SeparatorAt(s: string, i: int) {
    0 <= i && i + 1 < |s| && s[i] == '\n' && s[i + 1] == '\n'
  }

  /** `s.indexOf("\n\n", from)`. */
  function IndexOfSeparator(s: string, from: nat): (k: int)
    requires from <= |s|
    ensures k < 0 ==> forall i :: from <= i ==> !SeparatorAt(s, i)
    ensures k >= 0 ==> from <= k && SeparatorAt(s, k) && forall i :: from <= i < k ==> !SeparatorAt(s, i)
    decreases |s| - from
  {
    if from + 1 >= |s| then -1
    else if SeparatorAt(s, from) then from
    else IndexOfSeparator(s, from + 1)
  }

  /** First `s`, then `t` on what follows. */
  function Then(s: Split, t: Split): Split { Split(s.blocks + t.blocks, t.leftover) }

  /** The blocks of a buffer, each ended by the first blank line after it. */
  function SplitBuffer(buffer: string): Split
    decreases |buffer|
  {
    var k := IndexOfSeparator(buffer, 0);
    if k < 0 then Split([], buffer)
    else Then(Split([buffer[..k]], ""), SplitBuffer(buffer[k + 2..]))
  }

  /** `block.split("\n")`. */
  function Lines(block: string): (lines: seq<string>)
    ensures |lines| >= 1
    decreases |block|
  {
    if block == "" then [""]
    else
      var rest := Lines(block[1..]);
      if block[0] == '\n' then [""] + rest else [[block[0]] + rest[0]] + rest[1..]
  }

  /** The value of the last line that starts with `field`. */
  function LastField(lines: seq<string>, field: string): Option<string>
    decreases |lines|
  {
    if lines == [] then None
    else
      var last := lines[|lines| - 1];
      if StartsWith(last, field) then Some(last[|field|..])
      else LastField(lines[..|lines| - 1], field)
  }

  /** What a block says: the last `event: ` and the last `data: ` value, or nothing
      when one of the two is missing. */
  function BlockEvent(block: string): Option<SseEvent> {
    match (LastField(Lines(block), "event: "), LastField(Lines(block), "data: "))
    case (Some(e), Some(d)) => Some(SseEvent(Trim(IsJsSpace, e), d))
    case _ => None
  }

  /** The zero or one events of a block. */
  function EventOf(block: string): seq<SseEvent> {
    match BlockEvent(block) case Some(e) => [e] case None => []
  }

  function BlockEvents(blocks: seq<string>): seq<SseEvent> {
    if blocks == [] then [] else EventOf(blocks[0]) + BlockEvents(blocks[1..])
  }

  /** The events and leftover of one call on a whole text. */
  function OneShot(text: string): Split { SplitBuffer(NormalizeCrLf(text)) }

  /** Threads the leftover through one call per chunk. */
  function Feed(chunks: seq<string>, leftover: string): Split
    decreases |chunks|
  {
    if chunks == [] then Split([], leftover)
    else
      var first := OneShot(leftover + chunks[0]);
      Then(first, Feed(chunks[1..], first.leftover))
  }

  lemma LastFieldStep(lines: seq<string>, i: nat, field: string)
    requires i < |lines|
    ensures LastField(lines[..i + 1], field) ==
            if StartsWith(lines[i], field) then Some(lines[i][|field|..]) else LastField(lines[..i], field)
  {
    assert lines[..i + 1][..i] == lines[..i];
  }

  lemma FieldsByFirstChar(line: string)
    ensures |line| == 0 || StartsWith(line, ":") || StartsWith(line, "data: ") ==> !StartsWith(line, "event: ")
    ensures |line| == 0 || StartsWith(line, ":") ==> !StartsWith(line, "data: ")
  {
    if StartsWith(line, "event: ") { assert line[0] == line[..7][0] == 'e'; }
    if StartsWith(line, "data: ") { assert line[0] == line[..6][0] == 'd'; }
    if StartsWith(line, ":") { assert line[0] == line[..1][0] == ':'; }
  }

  function TrimName(name: Option<string>): Option<string> {
    match name case Some(e) => Some(Trim(IsJsSpace, e)) case None => None
  }

  method ParseBlock(block: string) returns (parsed: Option<SseEvent>)
    ensures parsed == BlockEvent(block)
  {
    var event: Option<string>, data: Option<string> := None, None;
    var lines := Lines(block);
    for i := 0 to |lines|
      invariant event == TrimName(LastField(lines[..i], "event: "))
      invariant data == LastField(lines[..i], "data: ")
    {
      var line := lines[i];
      LastFieldStep(lines, i, "event: ");
      LastFieldStep(lines, i, "data: ");
      FieldsByFirstChar(line);
      if |line| == 0 { continue; }
      if StartsWith(line, ":") { continue; }
      if StartsWith(line, "event: ") {
        event := Some(Trim(IsJsSpace, line[7..]));
      } else if StartsWith(line, "data: ") {
        data := Some(line[6..]);
      }
    }
    assert lines[..|lines|] == lines;
    if event == None || data == None { return None; }
    return Some(SseEvent(event.value, data.value));
  }

  method SplitSseBlocks(chunk: string, leftover: string) returns (events: seq<SseEvent>, newLeftover: string)
    ensures events == BlockEvents(OneShot(leftover + chunk).blocks)
    ensures newLeftover == OneShot(leftover + chunk).leftover
  {
    var buffer := NormalizeCrLf(leftover + chunk);
    events := [];
    ghost var done := Split([], "");
    var cursor := 0;
    SplitStarts(buffer);
    while true
      invariant 0 <= cursor <= |buffer|
      invariant events == BlockEvents(done.blocks)
      invariant SplitBuffer(buffer) == Then(done, SplitBuffer(buffer[cursor..]))
      decreases |buffer| - cursor
    {
      var sep := IndexOfSeparator(buffer, cursor);
      if sep < 0 { break; }
      var block := buffer[cursor..sep];
      SplitAdvances(SplitBuffer(buffer), buffer, cursor, done, block);
      EventsAdvance(done.blocks, block);
      cursor := sep + 2;
      var parsed := ParseBlock(block);
      done := Then(done, Split([block], ""));
      if parsed.Some? { events := events + [parsed.value]; }
    }
    SplitStops(buffer, cursor, done);
    newLeftover := buffer[cursor..];
  }

  lemma SplitStarts(buffer: string)
    ensures BlockEvents([]) == []
    ensures SplitBuffer(buffer) == Then(Split([], ""), SplitBuffer(buffer[0..]))
  {
    assert buffer[0..] == buffer;
    ThenUnit(SplitBuffer(buffer));
  }

  lemma SplitStops(buffer: string, cursor: nat, done: Split)
    requires cursor <= |buffer| && IndexOfSeparator(buffer, cursor) < 0
    requires SplitBuffer(buffer) == Then(done, SplitBuffer(buffer[cursor..]))
    ensures SplitBuffer(buffer) == Split(done.blocks, buffer[cursor..])
  {
    IndexInSuffix(buffer, cursor);
    AppendNil(done.blocks);
  }

  /** One turn of the cursor loop cuts one block. */
  lemma SplitAdvances(whole: Split, buffer: string, cursor: nat, done: Split, block: string)
    requires cursor <= |buffer| && IndexOfSeparator(buffer, cursor) >= 0
    requires block == buffer[cursor..IndexOfSeparator(buffer, cursor)]
    requires whole == Then(done, SplitBuffer(buffer[cursor..]))
    ensures whole == Then(Then(done, Split([block], "")), SplitBuffer(buffer[IndexOfSeparator(buffer, cursor) + 2..]))
  {
    var sep := IndexOfSeparator(buffer, cursor);
    CutNextBlock(buffer, cursor, sep);
    ThenAssoc(done, Split([block], ""), SplitBuffer(buffer[sep + 2..]));
  }

  lemma EventsAdvance(blocks: seq<string>, block: string)
    ensures BlockEvents(blocks + [block]) == BlockEvents(blocks) + EventOf(block)
  {
    BlockEventsAppend(blocks, [block]);
    assert [block][1..] == [] && BlockEvents([]) == [];
  }

  /** The read loop of `streamChat`: every chunk is split with the leftover of
      the one before it; the handlers see the events in this order. */
  method StreamChat(chunks: seq<string>) returns (events: seq<SseEvent>, leftover: string)
    ensures events == BlockEvents(Feed(chunks, "").blocks)
    ensures leftover == Feed(chunks, "").leftover
  {
    events, leftover := [], "";
    ghost var done := Split([], "");
    FeedStarts(chunks);
    for i := 0 to |chunks|
      invariant events == BlockEvents(done.blocks)
      invariant Feed(chunks, "") == Then(done, Feed(chunks[i..], leftover))
    {
      done := FeedAdvances(chunks, i, leftover, done);
      var more, rest := SplitSseBlocks(chunks[i], leftover);
      events, leftover := events + more, rest;
    }
    FeedStops(chunks, leftover, done);
  }

  lemma FeedStarts(chunks: seq<string>)
    ensures BlockEvents([]) == []
    ensures Feed(chunks, "") == Then(Split([], ""), Feed(chunks[0..], ""))
  {
    assert chunks[0..] == chunks;
    ThenUnit(Feed(chunks, ""));
  }

  lemma FeedStops(chunks: seq<string>, leftover: string, done: Split)
    requires Feed(chunks, "") == Then(done, Feed(chunks[|chunks|..], leftover))
    ensures Feed(chunks, "") == Split(done.blocks, leftover)
  {
    AppendNil(done.blocks);
  }

  lemma FeedAdvances(chunks: seq<string>, i: nat, leftover: string, done: Split) returns (next: Split)
    requires i < |chunks|
    requires Feed(chunks, "") == Then(done, Feed(chunks[i..], leftover))
    ensures var step := OneShot(leftover + chunks[i]);
            Feed(chunks, "") == Then(next, Feed(chunks[i + 1..], step.leftover)) &&
            BlockEvents(next.blocks) == BlockEvents(done.blocks) + BlockEvents(step.blocks)
  {
    var step := OneShot(leftover + chunks[i]);
    DropDrop(chunks, i, 1);
    ThenAssoc(done, step, Feed(chunks[i + 1..], step.leftover));
    BlockEventsAppend(done.blocks, step.blocks);
    next := Then(done, step);
  }

  lemma ThenAssoc(r: Split, s: Split, t: Split)
    ensures Then(r, Then(s, t)) == Then(Then(r, s), t)
  {
    AppendAssoc(r.blocks, s.blocks, t.blocks);
  }

  lemma ThenUnit(s: Split)
    ensures Then(Split([], ""), s) == s
    ensures Then(s, Split([], s.leftover)) == s
  {
  }

  lemma SplitParts(buffer: string, k: nat, block: string, rest: string)
    requires k == IndexOfSeparator(buffer, 0) && buffer[..k] == block && buffer[k + 2..] == rest
    ensures SplitBuffer(buffer) == Then(Split([block], ""), SplitBuffer(rest))
  {
  }

  lemma CutNextBlock(buffer: string, cursor: nat, sep: nat)
    requires cursor <= |buffer| && sep == IndexOfSeparator(buffer, cursor)
    ensures SplitBuffer(buffer[cursor..])
         == Then(Split([buffer[cursor..sep]], ""), SplitBuffer(buffer[sep + 2..]))
  {
    IndexInSuffix(buffer, cursor);
    DropDrop(buffer, cursor, sep - cursor + 2);
    TakeOfDrop(buffer, cursor, sep - cursor);
    SplitParts(buffer[cursor..], sep - cursor, buffer[cursor..sep], buffer[sep + 2..]);
  }

  lemma {:induction false} BlockEventsAppend(a: seq<string>, b: seq<string>)
    ensures BlockEvents(a + b) == BlockEvents(a) + BlockEvents(b)
  {
    if a == [] {
      assert a + b == b;
    } else {
      assert (a + b)[1..] == a[1..] + b;
      BlockEventsAppend(a[1..], b);
    }
  }

  lemma IndexInSuffix(s: string, from: nat)
    requires from <= |s|
    ensures var k, m := IndexOfSeparator(s, from), IndexOfSeparator(s[from..], 0);
            if k < 0 then m < 0 else m == k - from
  {
    var k, m := IndexOfSeparator(s, from), IndexOfSeparator(s[from..], 0);
    assert forall i {:trigger SeparatorAt(s[from..], i)} :: 0 <= i ==> SeparatorAt(s[from..], i) == SeparatorAt(s, i + from);
    if k >= 0 {
      assert SeparatorAt(s[from..], k - from);
    }
  }

  // ------------------------------------------------------- normalisation laws

  predicate EndsInCr(s: string) { s != "" && s[|s| - 1] == '\r' }

  predicate EndsInLf(s: string) { s != "" && s[|s| - 1] == '\n' }

  predicate CrLfAt(s: string, i: int) {
    0 <= i && i + 1 < |s| && s[i] == '\r' && s[i + 1] == '\n'
  }

  predicate CrCrLfAt(s: string, i: int) {
    0 <= i && i + 2 < |s| && s[i] == '\r' && s[i + 1] == '\r' && s[i + 2] == '\n'
  }

  ghost predicate HasCrLf(s: string) { exists i :: CrLfAt(s, i) }

  ghost predicate HasCrCrLf(s: string) { exists i :: CrCrLfAt(s, i) }

  lemma {:induction false} NormalizeConcat(x: string, y: string)
    requires !(EndsInCr(x) && y != "" && y[0] == '\n')
    ensures NormalizeCrLf(x + y) == NormalizeCrLf(x) + NormalizeCrLf(y)
    decreases |x|
  {
    if x == "" {
      assert x + y == y;
    } else if |x| >= 2 && x[0] == '\r' && x[1] == '\n' {
      DropAppend(x, y, 2);
      NormalizeConcat(x[2..], y);
    } else {
      DropAppend(x, y, 1);
      NormalizeConcat(x[1..], y);
    }
  }

  lemma {:induction false} NormalizeFixed(x: string)
    requires !HasCrLf(x)
    ensures NormalizeCrLf(x) == x
  {
    if x != "" {
      assert !CrLfAt(x, 0);
      assert forall i :: CrLfAt(x[1..], i) ==> CrLfAt(x, i + 1);
      NormalizeFixed(x[1..]);
    }
  }

  /** Normalising never lengthens, and shortens exactly the texts with a CR LF. */
  lemma {:induction false} NormalizeShrinks(x: string)
    ensures |NormalizeCrLf(x)| <= |x|
    ensures |NormalizeCrLf(x)| < |x| <==> HasCrLf(x)
  {
    if x == "" {
    } else if CrLfAt(x, 0) {
      NormalizeShrinks(x[2..]);
    } else {
      NormalizeShrinks(x[1..]);
      assert forall i {:trigger CrLfAt(x[1..], i)} :: 0 <= i ==> CrLfAt(x[1..], i) == CrLfAt(x, i + 1);
      if HasCrLf(x) {
        var i :| CrLfAt(x, i);
        assert CrLfAt(x[1..], i - 1);
      }
    }
  }

  lemma {:induction false} NormalizeKeepsEnds(x: string)
    requires x != ""
    ensures var n := NormalizeCrLf(x);
            n != "" && n[|n| - 1] == x[|x| - 1] &&
            (n[0] == '\n' ==> x[0] == '\n' || CrLfAt(x, 0))
  {
    if CrLfAt(x, 0) {
      if |x| > 2 { NormalizeKeepsEnds(x[2..]); }
    } else {
      if |x| > 1 { NormalizeKeepsEnds(x[1..]); }
    }
  }

  /** Without CR CR LF, one pass removes every CR LF. */
  lemma {:induction false} NormalizeRemovesCrLf(x: string)
    requires !HasCrCrLf(x)
    ensures !HasCrLf(NormalizeCrLf(x))
  {
    var n := NormalizeCrLf(x);
    if x == "" {
    } else {
      var drop := if CrLfAt(x, 0) then 2 else 1;
      var tail := x[drop..];
      forall i | CrCrLfAt(tail, i) ensures false { assert CrCrLfAt(x, i + drop); }
      NormalizeRemovesCrLf(tail);
      var m := NormalizeCrLf(tail);
      assert n == [n[0]] + m;
      if HasCrLf(n) {
        var i :| CrLfAt(n, i);
        if i > 0 {
          assert CrLfAt(m, i - 1);
        } else {
          NormalizeKeepsEnds(tail);
          if CrLfAt(tail, 0) { assert CrCrLfAt(x, 0); }
        }
      }
    }
  }

  lemma PrefixWithoutCrCrLf(x: string, y: string)
    ensures HasCrCrLf(x) ==> HasCrCrLf(x + y)
  {
    if i :| CrCrLfAt(x, i) { assert CrCrLfAt(x + y, i); }
  }

  /** A CR LF cut in two between `x + CR` and `LF + y`. */
  lemma NormalizeAcrossCut(x: string, y: string)
    ensures NormalizeCrLf(x + "\r") == NormalizeCrLf(x) + "\r"
    ensures NormalizeCrLf((x + "\r") + ("\n" + y)) == NormalizeCrLf(x) + NormalizeCrLf("\r\n" + y)
  {
    assert NormalizeCrLf("\r") == "\r";
    NormalizeConcat(x, "\r");
    NormalizeConcat(x, "\r\n" + y);
    assert (x + "\r") + ("\n" + y) == x + ("\r\n" + y);
  }

  /** Normalising a prefix early changes nothing, unless the prefix has a CR CR LF. */
  lemma NormalizeAgain(x: string, y: string)
    requires !HasCrCrLf(x)
    ensures NormalizeCrLf(NormalizeCrLf(x) + y) == NormalizeCrLf(x + y)
  {
    if EndsInCr(x) && y != "" && y[0] == '\n' {
      var x', y' := x[..|x| - 1], y[1..];
      assert x == x' + "\r" && y == "\n" + y';
      PrefixWithoutCrCrLf(x', "\r");
      NormalizeTwice(x');
      NormalizeAcrossCut(x', y');
      NormalizeAcrossCut(NormalizeCrLf(x'), y');
    } else {
      NormalizeTwice(x);
      NormalizeConcat(NormalizeCrLf(x), y);
      NormalizeConcat(x, y);
    }
  }

  lemma NormalizeTwice(x: string)
    requires !HasCrCrLf(x)
    ensures NormalizeCrLf(NormalizeCrLf(x)) == NormalizeCrLf(x)
    ensures EndsInCr(NormalizeCrLf(x)) <==> EndsInCr(x)
  {
    if x != "" { NormalizeKeepsEnds(x); }
    NormalizeRemovesCrLf(x);
    NormalizeFixed(NormalizeCrLf(x));
  }

  // ----------------------------------------------------------- splitting laws

  lemma FirstSeparatorStays(a: string, b: string)
    requires IndexOfSeparator(a, 0) >= 0
    ensures IndexOfSeparator(a + b, 0) == IndexOfSeparator(a, 0)
  {
    var k := IndexOfSeparator(a, 0);
    assert SeparatorAt(a + b, k);
    assert forall i :: 0 <= i < k ==> SeparatorAt(a + b, i) == SeparatorAt(a, i);
  }

  /** Text that has been cut into blocks is never looked at again. */
  lemma {:induction false} SplitConcat(a: string, b: string)
    ensures SplitBuffer(a + b) == Then(SplitBuffer(a), SplitBuffer(SplitBuffer(a).leftover + b))
    decreases |a|
  {
    var k := IndexOfSeparator(a, 0);
    if k < 0 {
      ThenUnit(SplitBuffer(a + b));
    } else {
      FirstSeparatorStays(a, b);
      DropAppend(a, b, k + 2);
      TakeAppend(a, b, k);
      var tail := SplitBuffer(a[k + 2..]);
      SplitConcat(a[k + 2..], b);
      ThenAssoc(Split([a[..k]], ""), tail, SplitBuffer(tail.leftover + b));
    }
  }

  lemma SeparatorOfPrefix(a: string, n: nat, i: int)
    requires n <= |a|
    ensures SeparatorAt(a[..n], i) ==> SeparatorAt(a, i)
  {
  }

  lemma FirstSeparatorAlone(a: string)
    requires IndexOfSeparator(a, 0) >= 0
    ensures IndexOfSeparator(a[..IndexOfSeparator(a, 0) + 2], 0) == IndexOfSeparator(a, 0)
  {
    var k := IndexOfSeparator(a, 0);
    assert SeparatorAt(a[..k + 2], k);
    var m := IndexOfSeparator(a[..k + 2], 0);
    SeparatorOfPrefix(a, k + 2, m);
  }

  /** A text that ends with its first separator is one block in front of anything. */
  lemma FrontBlock(head: string, rest: string, k: nat)
    requires |head| == k + 2 && IndexOfSeparator(head, 0) == k
    ensures SplitBuffer(head + rest) == Then(Split([head[..k]], ""), SplitBuffer(rest))
  {
    FirstSeparatorStays(head, rest);
    TakeAppend(head, rest, k);
    DropAppend(head, rest, k + 2);
    AppendNil(rest);
    SplitParts(head + rest, k, head[..k], rest);
  }

  lemma CutFront(a: string) returns (head: string, tail: string)
    requires IndexOfSeparator(a, 0) >= 0
    ensures a == head + tail && |head| >= 2 && IndexOfSeparator(head, 0) == |head| - 2
    ensures SplitBuffer(a) == Then(Split([head[..|head| - 2]], ""), SplitBuffer(tail))
  {
    var k := IndexOfSeparator(a, 0);
    FirstSeparatorAlone(a);
    TakeDrop(a, k + 2);
    head, tail := a[..k + 2], a[k + 2..];
    FrontBlock(head, tail, k);
  }

  lemma EndOfConcat(head: string, rest: string)
    requires |head| >= 2 && SeparatorAt(head, |head| - 2) && (rest != "" ==> SeparatorAt(rest, |rest| - 2))
    ensures SeparatorAt(head + rest, |head + rest| - 2)
  {
    if rest == "" { AppendNil(head); }
  }

  /** The leftover is a suffix of the buffer; what precedes it ends in LF, splits into
      the same blocks and leaves nothing. */
  lemma {:induction false} LeftoverIsSuffix(a: string) returns (done: string)
    ensures a == done + SplitBuffer(a).leftover
    ensures done != "" ==> SeparatorAt(done, |done| - 2)
    ensures SplitBuffer(done) == Split(SplitBuffer(a).blocks, "")
    decreases |a|
  {
    if IndexOfSeparator(a, 0) < 0 {
      done := "";
    } else {
      var head, tail := CutFront(a);
      var rest := LeftoverIsSuffix(tail);
      AppendAssoc(head, rest, SplitBuffer(tail).leftover);
      done := head + rest;
      FrontBlock(head, rest, |head| - 2);
      EndOfConcat(head, rest);
    }
  }

  lemma CutBeforeLeftover(a: string, b: string)
    requires !HasCrLf(a)
    ensures SplitBuffer(NormalizeCrLf(a + b)) == Then(SplitBuffer(a), OneShot(SplitBuffer(a).leftover + b))
  {
    var l := SplitBuffer(a).leftover;
    var done := LeftoverIsSuffix(a);
    forall i | CrLfAt(done, i) ensures false { assert CrLfAt(a, i); }
    NormalizeFixed(done);
    NormalizeConcat(done, l + b);
    AppendAssoc(done, l, b);
    SplitConcat(done, NormalizeCrLf(l + b));
    AppendNil(NormalizeCrLf(l + b));
  }

  // ------------------------------------------------------- chunk invariance

  /** The text before the last chunk has no CR CR LF. */
  ghost predicate CleanBeforeLast(seen: string, chunks: seq<string>)
    decreases |chunks|
  {
    chunks == [] || (!HasCrCrLf(seen) && CleanBeforeLast(seen + chunks[0], chunks[1..]))
  }

  lemma {:induction false} FeedFrom(chunks: seq<string>, seen: string)
    requires CleanBeforeLast(seen, chunks)
    ensures OneShot(seen + Concat(chunks)) == Then(OneShot(seen), Feed(chunks, OneShot(seen).leftover))
    decreases |chunks|
  {
    if chunks == [] {
      AppendNil(seen);
      ThenUnit(OneShot(seen));
    } else {
      var next := FeedOne(seen, chunks[0], chunks[1..]);
      AppendAssoc(seen, chunks[0], Concat(chunks[1..]));
      FeedFrom(chunks[1..], seen + chunks[0]);
      ThenAssoc(OneShot(seen), next, Feed(chunks[1..], next.leftover));
      FeedHead(chunks, OneShot(seen).leftover);
    }
  }

  /** One more chunk after the text seen so far. */
  lemma FeedOne(seen: string, chunk: string, rest: seq<string>) returns (next: Split)
    requires !HasCrCrLf(seen)
    ensures next == OneShot(OneShot(seen).leftover + chunk)
    ensures OneShot(seen + chunk) == Then(OneShot(seen), next)
  {
    next := OneShot(OneShot(seen).leftover + chunk);
    NormalizeRemovesCrLf(seen);
    NormalizeAgain(seen, chunk);
    CutBeforeLeftover(NormalizeCrLf(seen), chunk);
  }

  lemma FeedHead(chunks: seq<string>, leftover: string)
    requires chunks != []
    ensures var next := OneShot(leftover + chunks[0]);
            Feed(chunks, leftover) == Then(next, Feed(chunks[1..], next.leftover))
  {
  }

  lemma {:induction false} CleanIsCleanBefore(chunks: seq<string>, seen: string)
    requires !HasCrCrLf(seen + Concat(chunks))
    ensures CleanBeforeLast(seen, chunks)
    decreases |chunks|
  {
    if chunks != [] {
      PrefixWithoutCrCrLf(seen, Concat(chunks));
      AppendAssoc(seen, chunks[0], Concat(chunks[1..]));
      CleanIsCleanBefore(chunks[1..], seen + chunks[0]);
    }
  }

  lemma FeedIsOneShot(chunks: seq<string>)
    requires CleanBeforeLast("", chunks)
    ensures Feed(chunks, "") == OneShot(Concat(chunks))
  {
    AppendNil(Concat(chunks));
    FeedFrom(chunks, "");
    assert OneShot("") == Split([], "");
    ThenUnit(Feed(chunks, ""));
  }

  /** Chunk boundaries do not matter: on a stream without CR CR LF any chunking
      gives the blocks, the events and the leftover of one call on the whole. */
  lemma ChunkInvariance(chunks: seq<string>)
    requires !HasCrCrLf(Concat(chunks))
    ensures Feed(chunks, "") == OneShot(Concat(chunks))
    ensures BlockEvents(Feed(chunks, "").blocks) == BlockEvents(OneShot(Concat(chunks)).blocks)
  {
    AppendNil(Concat(chunks));
    CleanIsCleanBefore(chunks, "");
    FeedIsOneShot(chunks);
  }

  /** Characters of the blocks, separators included. */
  function BlocksLength(blocks: seq<string>): nat {
    if blocks == [] then 0 else |blocks[0]| + 2 + BlocksLength(blocks[1..])
  }

  /** Characters accounted for by a split. */
  function Weight(s: Split): nat { BlocksLength(s.blocks) + |s.leftover| }

  lemma {:induction false} BlocksLengthAppend(a: seq<string>, b: seq<string>)
    ensures BlocksLength(a + b) == BlocksLength(a) + BlocksLength(b)
  {
    if a == [] {
      AppendNil(b);
    } else {
      DropAppend(a, b, 1);
      BlocksLengthAppend(a[1..], b);
    }
  }

  lemma {:induction false} WeightOfSplit(a: string)
    ensures Weight(SplitBuffer(a)) == |a|
    decreases |a|
  {
    var k := IndexOfSeparator(a, 0);
    if k >= 0 {
      WeightOfSplit(a[k + 2..]);
      BlocksLengthAppend([a[..k]], SplitBuffer(a[k + 2..]).blocks);
      assert [a[..k]][1..] == [];
    }
  }

  /** Two calls lose exactly the characters that normalising drops. */
  lemma WeightOfTwoCalls(l: string, more: string)
    ensures var first := OneShot(l);
            Weight(Then(first, OneShot(first.leftover + more)))
              == |NormalizeCrLf(l)| - |first.leftover| + |NormalizeCrLf(first.leftover + more)|
  {
    var first := OneShot(l);
    var second := OneShot(first.leftover + more);
    WeightOfSplit(NormalizeCrLf(l));
    WeightOfSplit(NormalizeCrLf(first.leftover + more));
    BlocksLengthAppend(first.blocks, second.blocks);
  }

  /** A text that ends in CR LF, cut after a separator, leaves its last two characters. */
  lemma LastTwoStay(done: string, l: string)
    requires var n := done + l; |n| >= 2 && n[|n| - 2] == '\r' && n[|n| - 1] == '\n'
    requires done != "" ==> SeparatorAt(done, |done| - 2)
    ensures |l| >= 2 && l[|l| - 2] == '\r' && l[|l| - 1] == '\n'
  {
    LastTwoOfConcat(done, l);
  }

  lemma LastTwoOfConcat(done: string, l: string)
    ensures |l| == 0 && |done| >= 2 ==> (done + l)[|done| - 2] == done[|done| - 2]
    ensures |l| == 1 && |done| >= 1 ==> (done + l)[|done| - 1] == done[|done| - 1]
  {
  }

  lemma NormalizedCrCrLf(head: string) returns (n: string)
    ensures NormalizeCrLf(head + "\r\r\n") == n + "\r\n"
  {
    n := NormalizeCrLf(head);
    assert (head + "\r") + "\r\n" == head + "\r\r\n";
    NormalizeConcat(head + "\r", "\r\n");
    NormalizeConcat(head, "\r");
    assert NormalizeCrLf("\r\n") == "\n" && NormalizeCrLf("\r") == "\r";
    AppendAssoc(n, "\r", "\n");
    assert "\r" + "\n" == "\r\n";
  }

  /** A text that ends in CR CR LF leaves a CR LF behind. */
  lemma LeavesCrLf(a: string)
    requires |a| >= 3 && CrCrLfAt(a, |a| - 3)
    ensures HasCrLf(OneShot(a).leftover) && EndsInLf(OneShot(a).leftover)
  {
    var head := a[..|a| - 3];
    assert a == head + "\r\r\n";
    var n := NormalizedCrCrLf(head);
    var l := OneShot(a).leftover;
    var done := LeftoverIsSuffix(NormalizeCrLf(a));
    LastTwoStay(done, l);
    assert CrLfAt(l, |l| - 2);
  }

  /** Cut right after the CR CR LF, the parser loses a CR. */
  lemma CrCrLfBreaksChunking(a: string, b: string)
    requires |a| >= 3 && CrCrLfAt(a, |a| - 3)
    ensures Weight(Feed([a, b], "")) < Weight(OneShot(a + b))
  {
    LeavesCrLf(a);
    var l := OneShot(a).leftover;
    NormalizeShrinks(l);
    NormalizeConcat(l, b);
    WeightOfTwoCalls(a, b);
    FeedTwo(a, b);
    NormalizeConcat(a, b);
    WeightOfSplit(NormalizeCrLf(a + b));
  }

  lemma FeedTwo(a: string, b: string)
    ensures Feed([a, b], "") == Then(OneShot(a), OneShot(OneShot(a).leftover + b))
  {
    var second := OneShot(OneShot(a).leftover + b);
    assert "" + a == a && [a, b][1..] == [b] && [b][1..] == [];
    ThenUnit(second);
    assert Feed([b], OneShot(a).leftover) == second;
  }

  ghost predicate AnyChunkingAgrees(s: string) {
    forall chunks :: Concat(chunks) == s ==> Feed(chunks, "") == OneShot(s)
  }

  lemma ConcatTwo(a: string, b: string)
    ensures Concat([a, b]) == a + b
  {
    assert [a, b][1..] == [b] && [b][1..] == [];
    assert Concat([b]) == b + Concat([]) == b;
  }

  /** The witness against a text with a CR CR LF: cut right after it. */
  lemma CutAfter(s: string, i: nat) returns (a: string, b: string)
    requires CrCrLfAt(s, i)
    ensures s == a + b && |a| == i + 3 && Concat([a, b]) == s && Feed([a, b], "") != OneShot(s)
  {
    a, b := s[..i + 3], s[i + 3..];
    TakeDrop(s, i + 3);
    CrCrLfBreaksChunking(a, b);
    ConcatTwo(a, b);
  }

  /** Exactly the streams without CR CR LF parse alike under every chunking. */
  lemma ChunkInvarianceExactly(s: string)
    ensures AnyChunkingAgrees(s) <==> !HasCrCrLf(s)
  {
    if i :| CrCrLfAt(s, i) {
      var a, b := CutAfter(s, i);
    } else {
      forall chunks | Concat(chunks) == s ensures Feed(chunks, "") == OneShot(s) {
        ChunkInvariance(chunks);
      }
    }
  }

  /** Chunks as a decoder hands them over: none of them is empty. */
  predicate NonEmpty(chunks: seq<string>) { forall i :: 0 <= i < |chunks| ==> chunks[i] != "" }

  ghost predicate AnyRealChunkingAgrees(s: string) {
    forall chunks :: NonEmpty(chunks) && Concat(chunks) == s ==> Feed(chunks, "") == OneShot(s)
  }

  ghost predicate CrCrLfOnlyAtEnd(s: string) { forall i :: CrCrLfAt(s, i) ==> i + 3 == |s| }

  lemma StrictPrefixIsClean(x: string, y: string)
    requires CrCrLfOnlyAtEnd(x + y) && y != ""
    ensures !HasCrCrLf(x)
  {
    forall i ensures !CrCrLfAt(x, i) {
      assert CrCrLfAt(x, i) ==> CrCrLfAt(x + y, i);
    }
  }

  lemma {:induction false} RealChunksAreClean(chunks: seq<string>, seen: string)
    requires NonEmpty(chunks) && CrCrLfOnlyAtEnd(seen + Concat(chunks))
    ensures CleanBeforeLast(seen, chunks)
    decreases |chunks|
  {
    if chunks != [] {
      assert |Concat(chunks)| >= |chunks[0]| > 0;
      StrictPrefixIsClean(seen, Concat(chunks));
      AppendAssoc(seen, chunks[0], Concat(chunks[1..]));
      RealChunksAreClean(chunks[1..], seen + chunks[0]);
    }
  }

  /** With chunks that are never empty, exactly the streams whose only CR CR LF is their
      very end parse alike besides. */
  lemma RealChunkInvarianceExactly(s: string)
    ensures AnyRealChunkingAgrees(s) <==> CrCrLfOnlyAtEnd(s)
  {
    if i :| CrCrLfAt(s, i) && i + 3 != |s| {
      var a, b := CutAfter(s, i);
      assert NonEmpty([a, b]);
    } else {
      forall chunks | NonEmpty(chunks) && Concat(chunks) == s ensures Feed(chunks, "") == OneShot(s) {
        AppendNil(s);
        RealChunksAreClean(chunks, "");
        FeedIsOneShot(chunks);
      }
    }
  }

  // --------------------------------------------------------- what a block says

  /** The last line that starts with the field. */
  predicate LastLine(lines: seq<string>, field: string, i: nat) {
    i < |lines| && StartsWith(lines[i], field) && forall k :: i < k < |lines| ==> !StartsWith(lines[k], field)
  }

  lemma {:induction false} LastFieldIsLastLine(lines: seq<string>, field: string)
    ensures LastField(lines, field).None? <==> forall k :: 0 <= k < |lines| ==> !StartsWith(lines[k], field)
    ensures LastField(lines, field).Some? ==>
              exists i: nat :: LastLine(lines, field, i) && LastField(lines, field).value == lines[i][|field|..]
    decreases |lines|
  {
    if lines != [] {
      var n := |lines| - 1;
      if StartsWith(lines[n], field) {
        assert LastLine(lines, field, n);
      } else {
        LastFieldIsLastLine(lines[..n], field);
        if LastField(lines, field).Some? {
          var i: nat :| LastLine(lines[..n], field, i) && LastField(lines[..n], field).value == lines[..n][i][|field|..];
          assert LastLine(lines, field, i);
        }
      }
    }
  }

  /** A block is an event if and only if it has an event line and a data line; the last of each
      counts, the first one without the space around it. */
  lemma BlockSays(block: string)
    ensures var lines := Lines(block);
            BlockEvent(block).None? <==>
              (forall k :: 0 <= k < |lines| ==> !StartsWith(lines[k], "event: ")) ||
              (forall k :: 0 <= k < |lines| ==> !StartsWith(lines[k], "data: "))
    ensures BlockEvent(block).Some? ==>
              exists i: nat, k: nat :: LastLine(Lines(block), "event: ", i) && LastLine(Lines(block), "data: ", k)
                && BlockEvent(block).value == SseEvent(Trim(IsJsSpace, Lines(block)[i][7..]), Lines(block)[k][6..])
  {
    var lines := Lines(block);
    LastFieldIsLastLine(lines, "event: ");
    LastFieldIsLastLine(lines, "data: ");
    if BlockEvent(block).Some? {
      var i: nat :| LastLine(lines, "event: ", i) && LastField(lines, "event: ").value == lines[i][|"event: "|..];
      var k: nat :| LastLine(lines, "data: ", k) && LastField(lines, "data: ").value == lines[k][|"data: "|..];
      assert BlockEvent(block).value == SseEvent(Trim(IsJsSpace, lines[i][7..]), lines[k][6..]);
    }
  }

  /** Lines put together again, with a line feed between them. */
  function Joined(lines: seq<string>): string {
    if lines == [] then "" else if |lines| == 1 then lines[0] else lines[0] + "\n" + Joined(lines[1..])
  }

  /** The lines of a block hold no line feed, and are the block when put together again. */
  lemma {:induction false} LinesAreTheBlock(block: string)
    ensures Joined(Lines(block)) == block
    ensures forall i, k :: 0 <= i < |Lines(block)| && 0 <= k < |Lines(block)[i]| ==> Lines(block)[i][k] != '\n'
    decreases |block|
  {
    if block != "" {
      var rest := Lines(block[1..]);
      LinesAreTheBlock(block[1..]);
      if block[0] == '\n' {
        assert ([""] + rest)[1..] == rest;
        assert block == "" + "\n" + block[1..];
      } else {
        FirstLineGrows(block[0], rest);
        assert block == [block[0]] + block[1..];
      }
    }
  }

  lemma FirstLineGrows(c: char, lines: seq<string>)
    requires lines != []
    ensures Joined([[c] + lines[0]] + lines[1..]) == [c] + Joined(lines)
  {
    var all := [[c] + lines[0]] + lines[1..];
    assert all[1..] == lines[1..];
    if |lines| > 1 {
      assert ([c] + lines[0]) + "\n" + Joined(lines[1..]) == [c] + (lines[0] + "\n" + Joined(lines[1..]));
    }
  }
}
