/** Option and Result, and the string operations of the two source languages
    that the model needs. */
module Prelude {

  datatype Option<+T> = None | Some(value: T)

  datatype Result<+T, +E> = Ok(value: T) | Err(error: E)

  const ID_LIMIT: nat := 0x1_0000_0000_0000_0000_0000_0000_0000_0000

  /** A UUID. */
  type Id = n: nat | n < ID_LIMIT

  function Min(a: int, b: int): int { if a <= b then a else b }

  function Max(a: int, b: int): int { if a <= b then b else a }

  predicate StartsWith(s: string, prefix: string) {
    |prefix| <= |s| && s[..|prefix|] == prefix
  }

  predicate EndsWith(s: string, suffix: string) {
    |suffix| <= |s| && s[|s| - |suffix|..] == suffix
  }

  /** `"".join(parts)`. */
  function Concat<T>(parts: seq<seq<T>>): seq<T> {
    if parts == [] then [] else parts[0] + Concat(parts[1..])
  }

  lemma {:induction false} ConcatAppend<T>(a: seq<seq<T>>, b: seq<seq<T>>)
    ensures Concat(a + b) == Concat(a) + Concat(b)
  {
    if a == [] {
      assert a + b == b;
    } else {
      assert (a + b)[1..] == a[1..] + b;
      ConcatAppend(a[1..], b);
    }
  }

  /** Characters removed by JavaScript's `trim` (white space and line terminators). */
  predicate IsJsSpace(c: char) {
    c in "\t\n\U{000B}\U{000C}\r \U{00A0}\U{1680}\U{2028}\U{2029}\U{202F}\U{205F}\U{3000}\U{FEFF}"
    || '\U{2000}' <= c <= '\U{200A}'
  }

  /** Characters removed by Python's `str.strip`. */
  predicate IsPySpace(c: char) {
    c in "\t\n\U{000B}\U{000C}\r \U{0085}\U{00A0}\U{1680}\U{2028}\U{2029}\U{202F}\U{205F}\U{3000}"
    || '\U{001C}' <= c <= '\U{001F}' || '\U{2000}' <= c <= '\U{200A}'
  }

  lemma HasFirst<T>(s: seq<T>)
    ensures s != [] ==> s[0] in s
  {
  }

  lemma TakeAppend<T>(a: seq<T>, b: seq<T>, k: nat)
    requires k <= |a|
    ensures (a + b)[..k] == a[..k]
  {
  }

  lemma DropAppend<T>(a: seq<T>, b: seq<T>, k: nat)
    requires k <= |a|
    ensures (a + b)[k..] == a[k..] + b
  {
  }

  lemma DropDrop<T>(a: seq<T>, m: nat, n: nat)
    requires m + n <= |a|
    ensures a[m..][n..] == a[m + n..]
  {
  }

  lemma TakeOfDrop<T>(a: seq<T>, m: nat, n: nat)
    requires m + n <= |a|
    ensures a[m..][..n] == a[m..m + n]
  {
  }

  lemma TakeDrop<T>(a: seq<T>, m: nat)
    requires m <= |a|
    ensures a == a[..m] + a[m..]
  {
  }

  lemma AppendAssoc<T>(a: seq<T>, b: seq<T>, c: seq<T>)
    ensures (a + b) + c == a + (b + c)
  {
  }

  lemma AppendNil<T>(a: seq<T>)
    ensures a + [] == a && [] + a == a
  {
  }

  // -------------------------------------------------------------- ordered lists

  /** Every element comes before the later ones. */
  ghost predicate Ordered<T>(before: (T, T) -> bool, s: seq<T>) {
    forall i, j :: 0 <= i < j < |s| ==> before(s[i], s[j])
  }

  ghost predicate Asymmetric<T(!new)>(before: (T, T) -> bool) {
    forall x, y :: before(x, y) ==> !before(y, x)
  }

  lemma OrderedTail<T(!new)>(before: (T, T) -> bool, s: seq<T>, x: T)
    requires Asymmetric(before) && Ordered(before, s) && s != []
    ensures x in s[1..] <==> x in s && x != s[0]
  {
    if x in s && x != s[0] {
      var i :| 0 <= i < |s| && s[i] == x;
      assert s[1..][i - 1] == x;
    }
    if x in s[1..] {
      var i :| 0 <= i < |s[1..]| && s[1..][i] == x;
      assert s[i + 1] == x && before(s[0], s[i + 1]);
    }
  }

  lemma OrderedHead<T>(before: (T, T) -> bool, s: seq<T>, x: T)
    requires Ordered(before, s) && x in s
    ensures x == s[0] || before(s[0], x)
  {
  }

  /** A set has one ordered list. */
  lemma {:induction false} OrderedIsUnique<T(!new)>(before: (T, T) -> bool, a: seq<T>, b: seq<T>)
    requires Asymmetric(before) && Ordered(before, a) && Ordered(before, b)
    requires forall x :: x in a <==> x in b
    ensures a == b
    decreases |a|
  {
    if a == [] {
      HasFirst(b);
    } else {
      HasFirst(a);
      OrderedHead(before, a, b[0]);
      OrderedHead(before, b, a[0]);
      forall x ensures x in a[1..] <==> x in b[1..] {
        OrderedTail(before, a, x);
        OrderedTail(before, b, x);
      }
      OrderedIsUnique(before, a[1..], b[1..]);
      assert a == [a[0]] + a[1..] && b == [b[0]] + b[1..];
    }
  }

  predicate Clean(space: char -> bool, s: string) {
    s != "" ==> !space(s[0]) && !space(s[|s| - 1])
  }

  /** Removes the longest prefix and suffix of `space` characters. */
  function Trim(space: char -> bool, s: string): (r: string)
    ensures Clean(space, r)
    ensures Clean(space, s) ==> r == s
    decreases |s|
  {
    if s == "" then s
    else if space(s[0]) then Trim(space, s[1..])
    else if space(s[|s| - 1]) then Trim(space, s[..|s| - 1])
    else s
  }
}
