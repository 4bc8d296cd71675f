/** The server's frames on the wire and what the client's parser makes of them: any chunking
    of the frames gives one event per packet (app/api/_chat_stream.py, mobile/lib/api/sse-parser.ts). */
module Wire {
  import opened Prelude
  import opened Packets
  import opened SseParser
  import opened ChatClient

  // ---------------------------------------------------------------- the wire

  predicate NoBreak(s: string) { forall i :: 0 <= i < |s| ==> s[i] != '\r' && s[i] != '\n' }

  /** JSON text keeps every packet and has no raw CR or LF (section 7 of RFC 8259). */
  ghost predicate Faithful(codec: Codec) {
    forall p :: codec.load(codec.dump(p)) == Some(p) && NoBreak(codec.dump(p))
  }

  predicate WellNamed(tool: string) {
    tool != "" && forall i :: 0 <= i < |tool| ==> !IsJsSpace(tool[i])
  }

  predicate PacketNamed(p: Packet) { p.IsTool() ==> WellNamed(p.tool) }

  ghost predicate AllNamed(ps: seq<Packet>) { forall i :: 0 <= i < |ps| ==> PacketNamed(ps[i]) }

  function Line(s: string): string { s + "\r\n" }

  /** What the server writes: a framed packet, or a keep-alive comment. */
  datatype WireItem = Frame(packet: Packet) | Comment(text: string)

  function Render(codec: Codec, item: WireItem): string {
    match item
    case Frame(p) => Line("event: " + WireType(p)) + Line("data: " + codec.dump(p)) + Line("")
    case Comment(text) => Line(":" + text) + Line("")
  }

  function RenderAll(codec: Codec, items: seq<WireItem>): string {
    if items == [] then "" else Render(codec, items[0]) + RenderAll(codec, items[1..])
  }

  predicate GoodItem(item: WireItem) {
    match item
    case Frame(p) => PacketNamed(p)
    case Comment(text) => NoBreak(text)
  }

  ghost predicate GoodItems(items: seq<WireItem>) { forall i :: 0 <= i < |items| ==> GoodItem(items[i]) }

  function PacketsOf(items: seq<WireItem>): seq<Packet> {
    if items == [] then []
    else (if items[0].Frame? then [items[0].packet] else []) + PacketsOf(items[1..])
  }

  function EventOfPacket(codec: Codec, p: Packet): SseEvent { SseEvent(WireType(p), codec.dump(p)) }

  // ------------------------------------------------------ no stray carriage return

  predicate Paired(s: string) { forall i :: 0 <= i < |s| && s[i] == '\r' ==> i + 1 < |s| && s[i + 1] == '\n' }

  lemma PairedConcat(a: string, b: string)
    requires Paired(a) && Paired(b)
    ensures Paired(a + b)
  {
    forall i | 0 <= i < |a + b| && (a + b)[i] == '\r' ensures i + 1 < |a + b| && (a + b)[i + 1] == '\n' {
      if i < |a| { assert a[i] == '\r'; } else { assert b[i - |a|] == '\r'; }
    }
  }

  lemma PairedLine(s: string)
    requires NoBreak(s)
    ensures Paired(Line(s))
  {
    var l := Line(s);
    assert forall i :: 0 <= i < |s| ==> l[i] == s[i];
  }

  lemma PairedHasNoCrCrLf(s: string)
    requires Paired(s)
    ensures !HasCrCrLf(s)
  {
    forall i ensures !CrCrLfAt(s, i) {
      if 0 <= i < |s| { assert s[i] == '\r' ==> i + 1 < |s| && s[i + 1] == '\n'; }
    }
  }

  lemma NormalizeLine(s: string)
    requires NoBreak(s)
    ensures NormalizeCrLf(Line(s)) == s + "\n"
  {
    forall i | CrLfAt(s, i) ensures false { }
    NormalizeFixed(s);
    NormalizeConcat(s, "\r\n");
    assert NormalizeCrLf("\r\n") == "\n";
  }

  lemma NormalizeAfterLine(s: string, rest: string)
    requires NoBreak(s)
    ensures NormalizeCrLf(Line(s) + rest) == s + "\n" + NormalizeCrLf(rest)
  {
    NormalizeLine(s);
    NormalizeConcat(Line(s), rest);
  }

  // ------------------------------------------------------------ one wire item

  lemma NoBreakConcat(a: string, b: string)
    requires NoBreak(a) && NoBreak(b)
    ensures NoBreak(a + b)
  {
  }

  lemma NamedHasNoBreak(p: Packet)
    requires PacketNamed(p)
    ensures NoBreak(WireType(p)) && NoBreak("event: " + WireType(p))
  {
    if p.IsTool() {
      assert NoBreak(p.tool) by {
        forall i | 0 <= i < |p.tool| ensures p.tool[i] != '\r' && p.tool[i] != '\n' {
          assert !IsJsSpace(p.tool[i]);
        }
      }
      NoBreakConcat(p.tool, "_start");
      NoBreakConcat(p.tool, "_call");
      NoBreakConcat(p.tool, "_end");
    }
    NoBreakConcat("event: ", WireType(p));
  }

  /** The block of an item, as the splitter sees it. */
  function Block(codec: Codec, item: WireItem): string {
    match item
    case Frame(p) => "event: " + WireType(p) + "\n" + ("data: " + codec.dump(p))
    case Comment(text) => ":" + text
  }

  /** No line of a block is empty, so it has no separator and does not end in one. */
  ghost predicate SolidBlock(b: string) {
    b != "" && b[|b| - 1] != '\n' && forall i :: !SeparatorAt(b, i)
  }

  /** A separator that starts before the end of `b` is one of `b`, or starts with its last
      character. */
  lemma InsideBlock(b: string, tail: string, i: int)
    ensures SeparatorAt(b + tail, i) && i + 1 < |b| ==> SeparatorAt(b, i)
    ensures SeparatorAt(b + tail, i) && i + 1 == |b| ==> b[|b| - 1] == '\n'
  {
  }

  lemma CutSolidBlock(b: string, rest: string)
    requires SolidBlock(b)
    ensures SplitBuffer(b + "\n\n" + rest) == Then(Split([b], ""), SplitBuffer(rest))
  {
    var s := b + "\n\n" + rest;
    assert SeparatorAt(s, |b|);
    var k := IndexOfSeparator(s, 0);
    AppendAssoc(b, "\n\n", rest);
    InsideBlock(b, "\n\n" + rest, k);
    assert k == |b|;
    assert s[..k] == b && s[k + 2..] == rest;
  }

  lemma NormalizeItem(codec: Codec, item: WireItem, rest: string)
    requires Faithful(codec) && GoodItem(item)
    ensures NormalizeCrLf(Render(codec, item) + rest) == Block(codec, item) + "\n\n" + NormalizeCrLf(rest)
    ensures SolidBlock(Block(codec, item))
    ensures Paired(Render(codec, item))
  {
    match item {
      case Frame(p) =>
        NamedHasNoBreak(p);
        NoBreakConcat("data: ", codec.dump(p));
        TwoLines("event: " + WireType(p), "data: " + codec.dump(p), rest);
      case Comment(text) =>
        NoBreakConcat(":", text);
        OneLine(":" + text, rest);
    }
  }

  lemma OneLine(a: string, rest: string)
    requires NoBreak(a) && a != ""
    ensures NormalizeCrLf(Line(a) + Line("") + rest) == a + "\n\n" + NormalizeCrLf(rest)
    ensures SolidBlock(a) && Paired(Line(a) + Line(""))
  {
    AppendAssoc(Line(a), Line(""), rest);
    NormalizeAfterLine(a, Line("") + rest);
    NormalizeAfterLine("", rest);
    assert a + "\n" + ("" + "\n" + NormalizeCrLf(rest)) == a + "\n\n" + NormalizeCrLf(rest);
    PairedLine(a);
    PairedLine("");
    PairedConcat(Line(a), Line(""));
  }

  lemma TwoLines(a: string, b: string, rest: string)
    requires NoBreak(a) && NoBreak(b) && a != "" && b != ""
    ensures NormalizeCrLf(Line(a) + Line(b) + Line("") + rest) == (a + "\n" + b) + "\n\n" + NormalizeCrLf(rest)
    ensures SolidBlock(a + "\n" + b) && Paired(Line(a) + Line(b) + Line(""))
  {
    OneLine(b, rest);
    assert Line(a) + Line(b) + Line("") + rest == Line(a) + (Line(b) + Line("") + rest);
    NormalizeAfterLine(a, Line(b) + Line("") + rest);
    assert a + "\n" + (b + "\n\n" + NormalizeCrLf(rest)) == (a + "\n" + b) + "\n\n" + NormalizeCrLf(rest);
    PairedLine(a);
    AppendAssoc(Line(a), Line(b), Line(""));
    PairedConcat(Line(a), Line(b) + Line(""));
    TwoLinesAreSolid(a, b);
  }

  lemma TwoLinesAreSolid(a: string, b: string)
    requires NoBreak(a) && NoBreak(b) && a != "" && b != ""
    ensures SolidBlock(a + "\n" + b)
  {
    var x := a + "\n" + b;
    assert x[|x| - 1] == b[|b| - 1];
    forall i ensures !SeparatorAt(x, i) { NoSeparatorInTwo(a, b, i); }
  }

  lemma NoSeparatorInTwo(a: string, b: string, i: int)
    requires NoBreak(a) && NoBreak(b) && b != ""
    ensures !SeparatorAt(a + "\n" + b, i)
  {
    var x := a + "\n" + b;
    if 0 <= i < |a| {
      assert x[i] == a[i];
    } else if i == |a| {
      assert x[i + 1] == b[0];
    } else if |a| < i < |x| {
      assert x[i] == b[i - |a| - 1];
    }
  }

  // ---------------------------------------------------------- parsing a block

  predicate NoLf(s: string) { forall i :: 0 <= i < |s| ==> s[i] != '\n' }

  lemma {:induction false} LinesOfFlat(a: string)
    requires NoLf(a)
    ensures Lines(a) == [a]
  {
    if a != "" {
      assert forall i :: 0 <= i < |a[1..]| ==> a[1..][i] == a[i + 1];
      LinesOfFlat(a[1..]);
      assert [a[0]] + a[1..] == a;
    }
  }

  lemma {:induction false} LinesOfTwo(a: string, b: string)
    requires NoLf(a) && NoLf(b)
    ensures Lines(a + "\n" + b) == [a, b]
  {
    var x := a + "\n" + b;
    if a == "" {
      assert x[0] == '\n' && x[1..] == b;
      LinesOfFlat(b);
    } else {
      assert x[0] == a[0] && x[1..] == a[1..] + "\n" + b;
      assert forall i :: 0 <= i < |a[1..]| ==> a[1..][i] == a[i + 1];
      LinesOfTwo(a[1..], b);
      assert [a[0]] + a[1..] == a;
    }
  }

  lemma StartsWithSelf(prefix: string, s: string)
    ensures StartsWith(prefix + s, prefix) && (prefix + s)[|prefix|..] == s
  {
  }

  lemma LastOfTwo(a: string, b: string, field: string)
    ensures LastField([a, b], field) ==
            if StartsWith(b, field) then Some(b[|field|..])
            else if StartsWith(a, field) then Some(a[|field|..]) else None
  {
    assert [a, b][..1] == [a] && [a][..0] == [];
    assert LastField([a], field) == if StartsWith(a, field) then Some(a[|field|..]) else None;
  }

  lemma LastOfOne(a: string, field: string)
    ensures LastField([a], field) == if StartsWith(a, field) then Some(a[|field|..]) else None
  {
    assert [a][..0] == [];
  }

  lemma TypeIsTrimmed(p: Packet)
    requires PacketNamed(p)
    ensures Trim(IsJsSpace, WireType(p)) == WireType(p)
  {
    var t := WireType(p);
    if p.IsTool() { assert t[0] == p.tool[0]; }
    assert Clean(IsJsSpace, t);
  }

  lemma CommentParses(text: string)
    requires NoBreak(text)
    ensures EventOf(":" + text) == []
  {
    NoBreakConcat(":", text);
    LinesOfFlat(":" + text);
    StartsWithSelf(":", text);
    FieldsByFirstChar(":" + text);
    LastOfOne(":" + text, "event: ");
  }

  /** A block of two lines. */
  function TwoFields(name: string, data: string): string { ("event: " + name) + "\n" + ("data: " + data) }

  lemma TwoLineEvent(e: string, d: string, name: string, data: string)
    requires NoLf(e) && NoLf(d)
    requires e == "event: " + name && d == "data: " + data
    ensures EventOf(e + "\n" + d) == [SseEvent(Trim(IsJsSpace, name), data)]
  {
    StartsWithSelf("event: ", name);
    StartsWithSelf("data: ", data);
    LinesOfTwo(e, d);
    FieldsByFirstChar(d);
    FieldsByFirstChar(e);
    LastOfTwo(e, d, "event: ");
    LastOfTwo(e, d, "data: ");
  }

  lemma NoLfConcat(a: string, b: string)
    requires NoLf(a) && NoLf(b)
    ensures NoLf(a + b)
  {
  }

  lemma TwoFieldsParse(name: string, data: string)
    requires NoLf(name) && NoLf(data)
    ensures EventOf(TwoFields(name, data)) == [SseEvent(Trim(IsJsSpace, name), data)]
  {
    NoLfConcat("event: ", name);
    NoLfConcat("data: ", data);
    TwoLineEvent("event: " + name, "data: " + data, name, data);
  }

  lemma FrameParses(codec: Codec, p: Packet)
    requires Faithful(codec) && PacketNamed(p)
    ensures EventOf(Block(codec, Frame(p))) == [EventOfPacket(codec, p)]
  {
    NamedHasNoBreak(p);
    TwoFieldsParse(WireType(p), codec.dump(p));
    TypeIsTrimmed(p);
  }

  // ------------------------------------------------- a CR CR LF changes an event

  lemma UnfinishedBlock(b: string)
    requires SolidBlock(b)
    ensures SplitBuffer(b + "\n") == Split([], b + "\n")
  {
    var s := b + "\n";
    forall i ensures !SeparatorAt(s, i) { InsideBlock(b, "\n", i); }
  }

  lemma OneSolidBlock(b: string)
    requires SolidBlock(b)
    ensures SplitBuffer(b + "\n\n") == Split([b], "")
  {
    CutSolidBlock(b, "");
    AppendNil(b + "\n\n");
    assert SplitBuffer("") == Split([], "");
    AppendNil([b]);
  }

  lemma SolidWithCr(b: string)
    requires SolidBlock(b)
    ensures SolidBlock(b + "\r")
  {
    forall i ensures !SeparatorAt(b + "\r", i) { InsideBlock(b, "\r", i); }
  }

  lemma NormalizeTail(b: string, tail: string)
    requires forall i :: 0 <= i < |b| ==> b[i] != '\r'
    ensures NormalizeCrLf(b + tail) == b + NormalizeCrLf(tail)
  {
    NormalizeFixed(b);
    NormalizeConcat(b, tail);
  }

  lemma NormalizedTails()
    ensures NormalizeCrLf("\r\n\n") == "\n\n"
    ensures NormalizeCrLf("\r\r\n\n") == "\r\n\n"
    ensures NormalizeCrLf("\r\r\n") == "\r\n"
  {
    NormalizeTail("\n", "");
    assert NormalizeCrLf("\n") == "\n";
    assert "\r\n\n"[2..] == "\n" && "\r\n"[2..] == "";
    assert NormalizeCrLf("\r\n") == "\n";
    assert "\r\r\n\n"[1..] == "\r\n\n" && "\r\r\n"[1..] == "\r\n";
  }

  lemma Regroup(b: string, x: string, y: string, xy: string)
    requires x + y == xy
    ensures (b + x) + y == b + xy
  {
    AppendAssoc(b, x, y);
  }

  /** What normalising does to the end of a block that has no CR of its own. */
  lemma NormalizedEnds(b: string)
    requires forall i :: 0 <= i < |b| ==> b[i] != '\r'
    ensures NormalizeCrLf(b + "\r\r\n\n") == (b + "\r") + "\n\n"
    ensures NormalizeCrLf(b + "\r\r\n") == (b + "\r") + "\n"
    ensures NormalizeCrLf(b + "\r\n\n") == b + "\n\n"
  {
    NormalizeTail(b, "\r\r\n\n");
    NormalizeTail(b, "\r\r\n");
    NormalizeTail(b, "\r\n\n");
    NormalizedTails();
    Regroup(b, "\r", "\n\n", "\r\n\n");
    Regroup(b, "\r", "\n", "\r\n");
  }

  lemma DataEndsInCr(name: string, data: string)
    ensures TwoFields(name, data) + "\r" == TwoFields(name, data + "\r")
  {
    AppendAssoc(("event: " + name) + "\n", "data: " + data, "\r");
    AppendAssoc("data: ", data, "\r");
  }

  lemma FieldsAreSolid(name: string, data: string)
    requires NoBreak(name) && NoBreak(data)
    ensures SolidBlock(TwoFields(name, data)) && forall i :: 0 <= i < |TwoFields(name, data)| ==> TwoFields(name, data)[i] != '\r'
  {
    NoBreakConcat("event: ", name);
    NoBreakConcat("data: ", data);
    TwoLines("event: " + name, "data: " + data, "");
  }

  /** A block that is followed by CR CR LF LF: read at once it ends in CR, and cut before
      the last LF it does not. */
  lemma BlocksDependOnChunking(b: string)
    requires SolidBlock(b) && forall i :: 0 <= i < |b| ==> b[i] != '\r'
    ensures OneShot(b + "\r\r\n\n").blocks == [b + "\r"]
    ensures Feed([b + "\r\r\n", "\n"], "").blocks == [b]
  {
    NormalizedEnds(b);
    SolidWithCr(b);
    OneSolidBlock(b + "\r");
    UnfinishedBlock(b + "\r");
    TwoChunks(b);
    OneSolidBlock(b);
  }

  /** So the data of an event depends on how the stream was cut. */
  lemma EventsDependOnChunking(name: string, data: string)
    requires NoBreak(name) && NoBreak(data)
    ensures var b, n := TwoFields(name, data), Trim(IsJsSpace, name);
            BlockEvents(OneShot(b + "\r\r\n\n").blocks) == [SseEvent(n, data + "\r")] &&
            BlockEvents(Feed([b + "\r\r\n", "\n"], "").blocks) == [SseEvent(n, data)]
  {
    var b := TwoFields(name, data);
    FieldsAreSolid(name, data);
    BlocksDependOnChunking(b);
    DataEndsInCr(name, data);
    TwoFieldsParse(name, data + "\r");
    TwoFieldsParse(name, data);
    OneBlockEvents(b + "\r");
    OneBlockEvents(b);
  }

  lemma OneBlockEvents(b: string)
    ensures BlockEvents([b]) == EventOf(b)
  {
    assert [b][1..] == [] && BlockEvents([]) == [];
  }

  lemma TwoChunks(b: string)
    requires OneShot(b + "\r\r\n") == Split([], (b + "\r") + "\n")
    ensures Feed([b + "\r\r\n", "\n"], "") == OneShot(b + "\r\n\n")
  {
    var x := b + "\r\r\n";
    assert [x, "\n"][1..] == ["\n"] && ["\n"][1..] == [];
    assert "" + x == x && ((b + "\r") + "\n") + "\n" == b + "\r\n\n";
    ThenUnit(OneShot(b + "\r\n\n"));
    assert Feed(["\n"], (b + "\r") + "\n") == OneShot(b + "\r\n\n");
  }

  // ---------------------------------------------------- the stream as a whole

  function EventsOfPackets(codec: Codec, ps: seq<Packet>): (evs: seq<SseEvent>)
    ensures |evs| == |ps| && forall i :: 0 <= i < |evs| ==> evs[i] == EventOfPacket(codec, ps[i])
  {
    seq(|ps|, i requires 0 <= i < |ps| => EventOfPacket(codec, ps[i]))
  }

  lemma {:induction false} WholeStreamParses(codec: Codec, items: seq<WireItem>)
    requires Faithful(codec) && GoodItems(items)
    ensures OneShot(RenderAll(codec, items)).leftover == ""
    ensures BlockEvents(OneShot(RenderAll(codec, items)).blocks) == EventsOfPackets(codec, PacketsOf(items))
    ensures Paired(RenderAll(codec, items))
  {
    if items != [] {
      var item, rest := items[0], items[1..];
      assert GoodItem(items[0]) && forall i :: 0 <= i < |rest| ==> rest[i] == items[i + 1];
      WholeStreamParses(codec, rest);
      var text := RenderAll(codec, rest);
      NormalizeItem(codec, item, text);
      PairedConcat(Render(codec, item), text);
      CutSolidBlock(Block(codec, item), NormalizeCrLf(text));
      ItemEvents(codec, item, OneShot(text).blocks, PacketsOf(rest));
    }
  }

  lemma ItemEvents(codec: Codec, item: WireItem, blocks: seq<string>, ps: seq<Packet>)
    requires Faithful(codec) && GoodItem(item)
    requires BlockEvents(blocks) == EventsOfPackets(codec, ps)
    ensures BlockEvents([Block(codec, item)] + blocks)
         == EventsOfPackets(codec, (if item.Frame? then [item.packet] else []) + ps)
  {
    FirstBlockEvents(Block(codec, item), blocks);
    match item {
      case Frame(p) =>
        FrameParses(codec, p);
        EventsCons(codec, p, ps);
      case Comment(text) =>
        CommentParses(text);
        AppendNil(ps);
        AppendNil(BlockEvents(blocks));
    }
  }

  lemma FirstBlockEvents(b: string, blocks: seq<string>)
    ensures BlockEvents([b] + blocks) == EventOf(b) + BlockEvents(blocks)
  {
    assert ([b] + blocks)[1..] == blocks;
  }

  lemma EventsCons(codec: Codec, p: Packet, ps: seq<Packet>)
    ensures EventsOfPackets(codec, [p] + ps) == [EventOfPacket(codec, p)] + EventsOfPackets(codec, ps)
  {
  }

  /** Any chunking of the rendered stream gives one event per packet, in order, and
      leaves nothing over. */
  lemma ChunkedStreamParses(codec: Codec, items: seq<WireItem>, chunks: seq<string>)
    requires Faithful(codec) && GoodItems(items) && Concat(chunks) == RenderAll(codec, items)
    ensures BlockEvents(Feed(chunks, "").blocks) == EventsOfPackets(codec, PacketsOf(items))
    ensures Feed(chunks, "").leftover == ""
  {
    WholeStreamParses(codec, items);
    PairedHasNoCrCrLf(RenderAll(codec, items));
    ChunkInvariance(chunks);
  }
}
