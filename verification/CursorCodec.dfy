/** The opaque page cursor (app/services/_memory_helpers.py): a versioned JSON object in
    unpadded base64url (section 5 of RFC 4648). */
module CursorCodec {
  import opened Calendar
  import opened Prelude

  type Byte = b: nat | b < 256

  // ------------------------------------------------------------------- base64

  /** The character of a digit in the URL-safe alphabet. */
  function Char64(d: nat): (c: char)
    requires d < 64
    ensures c != '=' && c as int < 128
    ensures Value64(c) == Some(d)
  {
    if d < 26 then 'A' + d as char
    else if d < 52 then 'a' + (d - 26) as char
    else if d < 62 then '0' + (d - 52) as char
    else if d == 62 then '-' else '_'
  }

  /** The digit of a character; the decoder also takes the standard `+` and `/`. */
  function Value64(c: char): (d: Option<nat>)
    ensures d.Some? ==> d.value < 64
  {
    if 'A' <= c <= 'Z' then Some((c - 'A') as nat)
    else if 'a' <= c <= 'z' then Some((c - 'a') as nat + 26)
    else if '0' <= c <= '9' then Some((c - '0') as nat + 52)
    else if c == '-' || c == '+' then Some(62)
    else if c == '_' || c == '/' then Some(63)
    else None
  }

  /** The digits of a group of one, two or three bytes. */
  function GroupDigits(g: seq<Byte>): (ds: seq<nat>)
    requires 1 <= |g| <= 3
    ensures |ds| == |g| + 1 && forall i :: 0 <= i < |ds| ==> ds[i] < 64
  {
    if |g| == 1 then [g[0] / 4, g[0] % 4 * 16]
    else if |g| == 2 then [g[0] / 4, g[0] % 4 * 16 + g[1] / 16, g[1] % 16 * 4]
    else [g[0] / 4, g[0] % 4 * 16 + g[1] / 16, g[1] % 16 * 4 + g[2] / 64, g[2] % 64]
  }

  function Chars(ds: seq<nat>): (s: string)
    requires forall i :: 0 <= i < |ds| ==> ds[i] < 64
    ensures |s| == |ds| && forall i :: 0 <= i < |s| ==> s[i] == Char64(ds[i])
  {
    seq(|ds|, i requires 0 <= i < |ds| => Char64(ds[i]))
  }

  function Equals(n: nat): (s: string)
    ensures |s| == n && forall i :: 0 <= i < n ==> s[i] == '='
  {
    seq(n, i => '=')
  }

  /** `base64.urlsafe_b64encode`. */
  function Encode64(bs: seq<Byte>): string {
    if bs == [] then ""
    else if |bs| < 3 then Chars(GroupDigits(bs)) + Equals(3 - |bs|)
    else Chars(GroupDigits(bs[..3])) + Encode64(bs[3..])
  }

  /** `rstrip("=")`. */
  function StripPadding(s: string): string
    decreases |s|
  {
    if s != "" && s[|s| - 1] == '=' then StripPadding(s[..|s| - 1]) else s
  }

  /** The state of the decoder: digits of the group read so far, the bits kept from the
      last digit, and the padding seen in this group. */
  datatype Scan = Scan(quad: nat, kept: nat, pads: nat)

  predicate ScanOk(st: Scan) {
    st.quad < 4 && (st.quad == 1 ==> st.kept < 64) && (st.quad == 2 ==> st.kept < 16) && (st.quad == 3 ==> st.kept < 4)
  }

  predicate Ascii(c: char) { c as int < 128 }

  /** The bytes that one more digit completes. */
  function Emitted(st: Scan, d: nat): seq<Byte>
    requires ScanOk(st) && d < 64
  {
    if st.quad == 0 then []
    else if st.quad == 1 then [st.kept * 4 + d / 16]
    else if st.quad == 2 then [st.kept * 16 + d / 4]
    else [st.kept * 64 + d]
  }

  function Advance(st: Scan, d: nat): (r: Scan)
    requires ScanOk(st) && d < 64
    ensures ScanOk(r)
  {
    if st.quad == 0 then Scan(1, d, 0)
    else if st.quad == 1 then Scan(2, d % 16, 0)
    else if st.quad == 2 then Scan(3, d % 4, 0)
    else Scan(0, 0, 0)
  }

  /** `base64.urlsafe_b64decode`: characters outside the alphabet are skipped, padding that
      completes a group ends the input, and an incomplete group is an error. */
  function Decode64(s: string, st: Scan): Option<seq<Byte>>
    requires ScanOk(st)
    decreases |s|
  {
    if s == "" then (if st.quad == 0 then Some([]) else None)
    else if s[0] == '=' then
      if st.quad >= 2 && st.quad + st.pads + 1 >= 4 then Some([])
      else Decode64(s[1..], if st.quad >= 2 then st.(pads := st.pads + 1) else st)
    else
      match Value64(s[0])
      case None => Decode64(s[1..], st)
      case Some(d) => Prepend(Emitted(st, d), Decode64(s[1..], Advance(st, d)))
  }

  function Prepend(bytes: seq<Byte>, rest: Option<seq<Byte>>): Option<seq<Byte>> {
    match rest
    case Some(bs) => Some(bytes + bs)
    case None => None
  }

  const START: Scan := Scan(0, 0, 0)

  /** A non-ASCII string is refused before decoding. */
  function UrlsafeDecode(s: string): Option<seq<Byte>> {
    if forall i :: 0 <= i < |s| ==> Ascii(s[i]) then Decode64(s, START) else None
  }

  /** `-len(cursor) % 4`. */
  function MissingPad(n: int): nat { (-n) % 4 }

  function Repad(s: string): string { s + Equals(MissingPad(|s|)) }

  // ------------------------------------------------------ base64 round trip

  lemma {:induction false} StripNothing(s: string, n: nat)
    requires s != "" ==> s[|s| - 1] != '='
    ensures StripPadding(s + Equals(n)) == s
    decreases n
  {
    if n == 0 {
      assert s + Equals(0) == s;
    } else {
      assert (s + Equals(n))[..|s| + n - 1] == s + Equals(n - 1);
      StripNothing(s, n - 1);
    }
  }

  /** The encoding without its padding. */
  function Unpadded(bs: seq<Byte>): (s: string)
    ensures forall i :: 0 <= i < |s| ==> s[i] != '=' && Ascii(s[i])
  {
    if bs == [] then ""
    else if |bs| < 3 then Chars(GroupDigits(bs))
    else Chars(GroupDigits(bs[..3])) + Unpadded(bs[3..])
  }

  function PadCount(n: int): nat { (-n) % 3 }

  /** `enc` is `un`, the encoding of `n` bytes without padding, with its padding. */
  predicate IsPadded(enc: string, un: string, n: nat) {
    enc == un + Equals(PadCount(n)) && PadCount(n) == MissingPad(|un|)
  }

  lemma PadArithmetic(n: nat, m: nat)
    ensures PadCount(n + 3) == PadCount(n)
    ensures MissingPad(m + 4) == MissingPad(m)
  {
  }

  lemma PaddedStep(head: string, enc: string, un: string, n: nat)
    requires |head| == 4 && IsPadded(enc, un, n)
    ensures IsPadded(head + enc, head + un, n + 3)
  {
    PadArithmetic(n, |un|);
    AppendAssoc(head, un, Equals(PadCount(n)));
  }

  lemma ShortGroup(bs: seq<Byte>) returns (head: string)
    requires 1 <= |bs| < 3
    ensures Encode64(bs) == head + Equals(3 - |bs|) && Unpadded(bs) == head && |head| == |bs| + 1
  {
    head := Chars(GroupDigits(bs));
  }

  lemma ShortIsPadded(head: string, n: nat)
    requires 1 <= n < 3 && |head| == n + 1
    ensures IsPadded(head + Equals(3 - n), head, n)
  {
    assert PadCount(1) == MissingPad(2) == 2 && PadCount(2) == MissingPad(3) == 1;
  }

  lemma FullGroup(bs: seq<Byte>) returns (head: string, rest: seq<Byte>)
    requires |bs| >= 3
    ensures |head| == 4 && |rest| == |bs| - 3
    ensures Encode64(bs) == head + Encode64(rest) && Unpadded(bs) == head + Unpadded(rest)
  {
    head, rest := Chars(GroupDigits(bs[..3])), bs[3..];
  }

  lemma {:induction false} EncodeIsPadded(bs: seq<Byte>)
    ensures IsPadded(Encode64(bs), Unpadded(bs), |bs|)
    decreases |bs|
  {
    if |bs| >= 3 {
      var head, rest := FullGroup(bs);
      EncodeIsPadded(rest);
      PaddedStep(head, Encode64(rest), Unpadded(rest), |rest|);
    } else if |bs| >= 1 {
      var head := ShortGroup(bs);
      ShortIsPadded(head, |bs|);
    } else {
      assert bs == [] && Equals(0) == "";
    }
  }

  /** Stripping the padding and putting it back by the length gives the encoding back. */
  lemma RepadRestores(bs: seq<Byte>)
    ensures StripPadding(Encode64(bs)) == Unpadded(bs)
    ensures Repad(Unpadded(bs)) == Encode64(bs)
  {
    EncodeIsPadded(bs);
    StripNothing(Unpadded(bs), PadCount(|bs|));
  }

  lemma ReadDigit(d: nat, rest: string, st: Scan)
    requires d < 64 && ScanOk(st)
    ensures Decode64([Char64(d)] + rest, st) == Prepend(Emitted(st, d), Decode64(rest, Advance(st, d)))
  {
    assert ([Char64(d)] + rest)[1..] == rest;
  }

  lemma PrependTwice(a: seq<Byte>, b: seq<Byte>, rest: Option<seq<Byte>>)
    ensures Prepend(a, Prepend(b, rest)) == Prepend(a + b, rest)
  {
    if rest.Some? { AppendAssoc(a, b, rest.value); }
  }

  /** Two digits hold the first byte of a group. */
  lemma ReadTwo(d0: nat, d1: nat, first: Byte, rest: string)
    requires d0 < 64 && d1 < 64 && first == d0 * 4 + d1 / 16
    ensures Decode64([Char64(d0)] + ([Char64(d1)] + rest), START)
         == Prepend([first], Decode64(rest, Scan(2, d1 % 16, 0)))
  {
    ReadDigit(d0, [Char64(d1)] + rest, START);
    ReadDigit(d1, rest, Scan(1, d0, 0));
    PrependTwice([], [first], Decode64(rest, Scan(2, d1 % 16, 0)));
    assert [] + [first] == [first];
  }

  /** Two more hold the other bytes. */
  lemma ReadTwoMore(kept: nat, d2: nat, d3: nat, second: Byte, third: Byte, rest: string)
    requires kept < 16 && d2 < 64 && d3 < 64 && second == kept * 16 + d2 / 4 && third == d2 % 4 * 64 + d3
    ensures Decode64([Char64(d2)] + ([Char64(d3)] + rest), Scan(2, kept, 0)) == Prepend([second, third], Decode64(rest, START))
  {
    ReadDigit(d2, [Char64(d3)] + rest, Scan(2, kept, 0));
    ReadDigit(d3, rest, Scan(3, d2 % 4, 0));
    PrependTwice([second], [third], Decode64(rest, START));
    assert [second] + [third] == [second, third];
  }

  lemma GroupBytes(g: seq<Byte>)
    requires 1 <= |g| <= 3
    ensures var ds := GroupDigits(g);
            ds[0] * 4 + ds[1] / 16 == g[0] &&
            (|g| >= 2 ==> ds[1] % 16 * 16 + ds[2] / 4 == g[1]) &&
            (|g| == 3 ==> ds[2] % 4 * 64 + ds[3] == g[2])
  {
  }

  lemma FourChars(ds: seq<nat>, rest: string)
    requires |ds| == 4 && forall i :: 0 <= i < 4 ==> ds[i] < 64
    ensures Chars(ds) + rest == [Char64(ds[0])] + ([Char64(ds[1])] + ([Char64(ds[2])] + ([Char64(ds[3])] + rest)))
  {
  }

  lemma ReadThree(g: seq<Byte>, rest: string)
    requires |g| == 3
    ensures Decode64(Chars(GroupDigits(g)) + rest, START) == Prepend(g, Decode64(rest, START))
  {
    var ds := GroupDigits(g);
    GroupBytes(g);
    FourChars(ds, rest);
    ReadTwo(ds[0], ds[1], g[0], [Char64(ds[2])] + ([Char64(ds[3])] + rest));
    ReadTwoMore(ds[1] % 16, ds[2], ds[3], g[1], g[2], rest);
    PrependTwice([g[0]], [g[1], g[2]], Decode64(rest, START));
    assert [g[0]] + [g[1], g[2]] == g;
  }

  /** The padding that completes a group ends the input. */
  lemma ReadPadding(kept: nat)
    ensures kept < 16 ==> Decode64(Equals(2), Scan(2, kept, 0)) == Some([])
    ensures kept < 4 ==> Decode64(Equals(1), Scan(3, kept, 0)) == Some([])
  {
    if kept < 16 {
      assert Equals(2)[1..] == Equals(1);
      assert Decode64(Equals(1), Scan(2, kept, 1)) == Some([]);
    }
  }

  lemma ReadOneByte(g: seq<Byte>)
    requires |g| == 1
    ensures Decode64(Chars(GroupDigits(g)) + Equals(2), START) == Some(g)
  {
    var ds := GroupDigits(g);
    GroupBytes(g);
    assert Chars(ds) + Equals(2) == [Char64(ds[0])] + ([Char64(ds[1])] + Equals(2));
    ReadTwo(ds[0], ds[1], g[0], Equals(2));
    ReadPadding(ds[1] % 16);
    assert [g[0]] + [] == g;
  }

  lemma ReadTwoBytes(g: seq<Byte>)
    requires |g| == 2
    ensures Decode64(Chars(GroupDigits(g)) + Equals(1), START) == Some(g)
  {
    var ds := GroupDigits(g);
    GroupBytes(g);
    var r1 := [Char64(ds[2])] + Equals(1);
    assert Chars(ds) + Equals(1) == [Char64(ds[0])] + ([Char64(ds[1])] + r1);
    ReadTwo(ds[0], ds[1], g[0], r1);
    ReadDigit(ds[2], Equals(1), Scan(2, ds[1] % 16, 0));
    ReadPadding(ds[2] % 4);
    PrependTwice([g[0]], [g[1]], Some([]));
    assert [g[0]] + [g[1]] + [] == g;
  }

  lemma {:induction false} DecodeEncode64(bs: seq<Byte>)
    ensures Decode64(Encode64(bs), START) == Some(bs)
    decreases |bs|
  {
    if bs == [] {
    } else if |bs| == 1 {
      ReadOneByte(bs);
    } else if |bs| == 2 {
      ReadTwoBytes(bs);
    } else {
      DecodeEncode64(bs[3..]);
      ReadThree(bs[..3], Encode64(bs[3..]));
      assert bs[..3] + bs[3..] == bs;
    }
  }

  lemma UrlsafeRoundTrip(bs: seq<Byte>)
    ensures UrlsafeDecode(Repad(StripPadding(Encode64(bs)))) == Some(bs)
  {
    RepadRestores(bs);
    EncodeIsPadded(bs);
    DecodeEncode64(bs);
  }

  // ------------------------------------------------------------ dates and ids

  function DigitChar(base: nat, d: nat): (c: char)
    requires d < base && base in {10, 16}
    ensures c != '-' && DigitValue(base, c) == Some(d)
  {
    if d < 10 then '0' + d as char else 'a' + (d - 10) as char
  }

  function DigitValue(base: nat, c: char): (d: Option<nat>)
    requires base in {10, 16}
    ensures d.Some? ==> d.value < base
  {
    if '0' <= c <= '9' then Some((c - '0') as nat)
    else if base == 16 && 'a' <= c <= 'f' then Some((c - 'a') as nat + 10)
    else if base == 16 && 'A' <= c <= 'F' then Some((c - 'A') as nat + 10)
    else None
  }

  function Pow(base: nat, k: nat): nat { if k == 0 then 1 else base * Pow(base, k - 1) }

  /** The last `k` digits of a number, with leading zeros. */
  function Digits(base: nat, n: nat, k: nat): (s: string)
    requires base in {10, 16}
    ensures |s| == k && forall i :: 0 <= i < k ==> s[i] != '-'
    decreases k
  {
    if k == 0 then "" else Digits(base, n / base, k - 1) + [DigitChar(base, n % base)]
  }

  /** `int(s, base)` of a string of digits. */
  function ParseDigits(base: nat, s: string): Option<nat>
    requires base in {10, 16}
    decreases |s|
  {
    if s == "" then Some(0)
    else
      match (ParseDigits(base, s[..|s| - 1]), DigitValue(base, s[|s| - 1]))
      case (Some(n), Some(d)) => Some(n * base + d)
      case _ => None
  }

  /** A text of `k` digits is a number below the `k`-th power. */
  lemma {:induction false} ParsedIsSmall(base: nat, s: string)
    requires base in {10, 16}
    ensures ParseDigits(base, s).Some? ==> ParseDigits(base, s).value < Pow(base, |s|)
    decreases |s|
  {
    if s != "" {
      var init := s[..|s| - 1];
      ParsedIsSmall(base, init);
      if ParseDigits(base, s).Some? {
        OneMoreDigit(base, ParseDigits(base, init).value, DigitValue(base, s[|s| - 1]).value, Pow(base, |init|));
      }
    }
  }

  lemma OneMoreDigit(base: nat, n: nat, d: nat, p: nat)
    requires base in {10, 16} && n < p && d < base
    ensures n * base + d < base * p
  {
    if base == 10 { assert n * 10 + d < 10 * p; } else { assert n * 16 + d < 16 * p; }
  }

  lemma DivisionShrinks(base: nat, n: nat, p: nat)
    requires base in {10, 16} && n < base * p
    ensures n / base < p && n / base * base + n % base == n
  {
    if base == 10 { assert n < 10 * p; } else { assert n < 16 * p; }
  }

  lemma ParseSnoc(base: nat, s: string, n: nat, d: nat)
    requires base in {10, 16} && d < base && ParseDigits(base, s) == Some(n)
    ensures ParseDigits(base, s + [DigitChar(base, d)]) == Some(n * base + d)
  {
    assert (s + [DigitChar(base, d)])[..|s|] == s;
  }

  lemma {:induction false} DigitsRoundTrip(base: nat, n: nat, k: nat)
    requires base in {10, 16} && n < Pow(base, k)
    ensures ParseDigits(base, Digits(base, n, k)) == Some(n)
    decreases k
  {
    if k > 0 {
      DivisionShrinks(base, n, Pow(base, k - 1));
      DigitsRoundTrip(base, n / base, k - 1);
      ParseSnoc(base, Digits(base, n / base, k - 1), n / base, n % base);
    }
  }

  /** `date.isoformat`. */
  function IsoFormat(d: Date): string {
    Digits(10, d.year, 4) + "-" + Digits(10, d.month, 2) + "-" + Digits(10, d.day, 2)
  }

  /** `date.fromisoformat` on the extended form. */
  function FromIsoFormat(s: string): Option<Day> {
    if |s| != 10 || s[4] != '-' || s[7] != '-' then None
    else
      match (ParseDigits(10, s[..4]), ParseDigits(10, s[5..7]), ParseDigits(10, s[8..]))
      case (Some(y), Some(m), Some(d)) => if ValidDate(Date(y, m, d)) then Some(Date(y, m, d)) else None
      case _ => None
  }

  lemma IsoRoundTrip(d: Day)
    ensures FromIsoFormat(IsoFormat(d)) == Some(d)
  {
    var y, m, n := Digits(10, d.year, 4), Digits(10, d.month, 2), Digits(10, d.day, 2);
    var s := IsoFormat(d);
    assert s[..4] == y && s[5..7] == m && s[8..] == n && s[4] == '-' && s[7] == '-';
    assert Pow(10, 1) == 10 && Pow(10, 2) == 100 && Pow(10, 3) == 1000 && Pow(10, 4) == 10000;
    DigitsRoundTrip(10, d.year, 4);
    DigitsRoundTrip(10, d.month, 2);
    DigitsRoundTrip(10, d.day, 2);
  }

  /** A UUID is a number of 32 hexadecimal digits. */
  lemma IdsHaveDigits()
    ensures Pow(16, 32) == ID_LIMIT
  {
    assert Pow(16, 8) == 0x1_0000_0000;
    PowAdd(16, 8, 8);
    PowAdd(16, 16, 16);
  }

  lemma {:induction false} PowAdd(base: nat, a: nat, b: nat)
    ensures Pow(base, a + b) == Pow(base, a) * Pow(base, b)
  {
    if a > 0 {
      PowAdd(base, a - 1, b);
      MulAssoc(base, Pow(base, a - 1), Pow(base, b));
    }
  }

  lemma MulAssoc(a: nat, b: nat, c: nat)
    ensures a * (b * c) == a * b * c
  {
  }

  /** A text with a hyphen after each group of the given sizes. */
  function Hyphenated(h: string, sizes: seq<nat>): string
    decreases |sizes|
  {
    if sizes == [] then h
    else
      var n := Min(sizes[0], |h|);
      h[..n] + ("-" + Hyphenated(h[n..], sizes[1..]))
  }

  /** `str(uuid)`: groups of 8, 4, 4, 4 and 12. */
  function UuidText(id: Id): string { Hyphenated(Digits(16, id, 32), [8, 4, 4, 4]) }

  /** `replace("-", "")`. */
  function WithoutHyphens(s: string): string {
    if s == "" then "" else (if s[0] == '-' then "" else [s[0]]) + WithoutHyphens(s[1..])
  }

  predicate NoHyphen(s: string) { forall i :: 0 <= i < |s| ==> s[i] != '-' }

  /** `UUID(text)` on hyphenated or plain digits. */
  function UuidFromText(s: string): Option<Id> {
    var h := WithoutHyphens(s);
    if |h| != 32 then None
    else
      match ParseDigits(16, h)
      case Some(n) => ParsedIsSmall(16, h); IdsHaveDigits(); Some(n)
      case None => None
  }

  lemma {:induction false} HyphensInParts(a: string, b: string)
    requires NoHyphen(a)
    ensures WithoutHyphens(a + b) == a + WithoutHyphens(b)
  {
    if a == "" {
      AppendNil(b);
    } else {
      DropAppend(a, b, 1);
      HyphensInParts(a[1..], b);
      assert a == [a[0]] + a[1..];
    }
  }

  lemma OneGroup(head: string, rest: string)
    requires NoHyphen(head)
    ensures WithoutHyphens(head + ("-" + rest)) == head + WithoutHyphens(rest)
  {
    HyphensInParts(head, "-" + rest);
    assert ("-" + rest)[1..] == rest;
  }

  lemma {:induction false} HyphensGoAway(h: string, sizes: seq<nat>)
    requires NoHyphen(h)
    ensures WithoutHyphens(Hyphenated(h, sizes)) == h
    decreases |sizes|
  {
    if sizes == [] {
      HyphensInParts(h, "");
      AppendNil(h);
    } else {
      var n := Min(sizes[0], |h|);
      var head, tail := h[..n], h[n..];
      HyphensGoAway(tail, sizes[1..]);
      OneGroup(head, Hyphenated(tail, sizes[1..]));
      TakeDrop(h, n);
    }
  }

  lemma UuidRoundTrip(id: Id)
    ensures UuidFromText(UuidText(id)) == Some(id)
  {
    IdsHaveDigits();
    HyphensGoAway(Digits(16, id, 32), [8, 4, 4, 4]);
    DigitsRoundTrip(16, id, 32);
  }

  // ------------------------------------------------------------------ cursors

  /** What `json.loads` says of a decoded cursor: not an object, or an object with the
      fields that are looked at; a field that is not of the right type counts as absent. */
  datatype Payload = NotAnObject | Object(version: Option<int>, ed: Option<string>, id: Option<string>)

  /** JSON printing and parsing. */
  datatype Json = Json(dumps: (int, string, string) -> seq<Byte>, loads: seq<Byte> -> Option<Payload>)

  ghost predicate FaithfulJson(j: Json) {
    forall v, ed, id :: j.loads(j.dumps(v, ed, id)) == Some(Object(Some(v), Some(ed), Some(id)))
  }

  const CURSOR_VERSION: int := 1

  datatype CursorError = Malformed | UnsupportedVersion | MissingFields | UnparsableField

  function EncodeCursor(j: Json, date: Day, id: Id): string {
    StripPadding(Encode64(j.dumps(CURSOR_VERSION, IsoFormat(date), UuidText(id))))
  }

  function DecodeCursor(j: Json, cursor: string): Result<(Day, Id), CursorError> {
    match UrlsafeDecode(Repad(cursor))
    case None => Err(Malformed)
    case Some(raw) =>
      match j.loads(raw)
      case None => Err(Malformed)
      case Some(NotAnObject) => Err(Malformed)
      case Some(Object(version, ed, id)) =>
        if version != Some(CURSOR_VERSION) then Err(UnsupportedVersion)
        else if ed.None? || id.None? then Err(MissingFields)
        else
          match (FromIsoFormat(ed.value), UuidFromText(id.value))
          case (Some(d), Some(i)) => Ok((d, i))
          case _ => Err(UnparsableField)
  }

  /** Every date and id come back from their cursor. */
  lemma CursorRoundTrip(j: Json, date: Day, id: Id)
    requires FaithfulJson(j)
    ensures DecodeCursor(j, EncodeCursor(j, date, id)) == Ok((date, id))
  {
    UrlsafeRoundTrip(j.dumps(CURSOR_VERSION, IsoFormat(date), UuidText(id)));
    IsoRoundTrip(date);
    UuidRoundTrip(id);
  }

  /** No padding character is left in a cursor. */
  lemma CursorsHaveNoPadding(j: Json, date: Day, id: Id)
    ensures '=' !in EncodeCursor(j, date, id)
  {
    RepadRestores(j.dumps(CURSOR_VERSION, IsoFormat(date), UuidText(id)));
  }

  /** A cursor of any version, date text and id text, made as ours are. */
  function CursorOf(j: Json, version: int, date: string, id: string): string {
    StripPadding(Encode64(j.dumps(version, date, id)))
  }

  /** Another version is refused; and of this version exactly the cursors whose date and id can
      be read are taken, for what they say. */
  lemma CursorsAreTakenExactly(j: Json, version: int, date: string, id: string)
    requires FaithfulJson(j)
    ensures DecodeCursor(j, CursorOf(j, version, date, id)) ==
              if version != 1 then Err(UnsupportedVersion)
              else if FromIsoFormat(date).None? || UuidFromText(id).None? then Err(UnparsableField)
              else Ok((FromIsoFormat(date).value, UuidFromText(id).value))
  {
    UrlsafeRoundTrip(j.dumps(version, date, id));
  }

  /** A string that does not decode, and JSON that is no object, are malformed; an object of this
      version without one of the fields is missing it. */
  lemma OtherCursorsAreErrors(j: Json, cursor: string)
    ensures var raw := UrlsafeDecode(Repad(cursor));
            (raw.None? || j.loads(raw.value).None? || j.loads(raw.value) == Some(NotAnObject) ==>
               DecodeCursor(j, cursor) == Err(Malformed)) &&
            (raw.Some? && j.loads(raw.value).Some? && j.loads(raw.value).value.Object? ==>
               var o := j.loads(raw.value).value;
               (o.version != Some(1) ==> DecodeCursor(j, cursor) == Err(UnsupportedVersion)) &&
               (o.version == Some(1) && (o.ed.None? || o.id.None?) ==> DecodeCursor(j, cursor) == Err(MissingFields)))
  {
  }
}
