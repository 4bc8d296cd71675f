/** Keyset pagination, as the session, message and memory lists do it
    (app/services/sessions.py, app/services/memory.py): a page is the first rows past
    the cursor, and the cursor of the next page is the last row of this one. */
module Keyset {
  import opened Prelude

  /** The sort key of a row: a timestamp or date, then the id. */
  datatype Key = Key(at: int, id: Id)

  datatype Direction = Asc | Desc

  const MAX_PAGE_LIMIT: int := 200

  function ClampLimit(limit: int): int { Max(1, Min(limit, MAX_PAGE_LIMIT)) }

  /** `a` is listed before `b`. */
  predicate Before(d: Direction, a: Key, b: Key) {
    match d
    case Asc => a.at < b.at || (a.at == b.at && a.id < b.id)
    case Desc => a.at > b.at || (a.at == b.at && a.id > b.id)
  }

  ghost predicate Listed(d: Direction, ks: seq<Key>) {
    forall i, j :: 0 <= i < j < |ks| ==> Before(d, ks[i], ks[j])
  }

  predicate First(d: Direction, s: set<Key>, k: Key) {
    k in s && forall x :: x in s ==> x == k || Before(d, k, x)
  }

  lemma {:induction false} FirstExists(d: Direction, s: set<Key>)
    requires s != {}
    ensures exists k :: First(d, s, k)
    decreases |s|
  {
    var y :| y in s;
    var rest := s - {y};
    if rest == {} {
      assert s == {y};
      assert First(d, s, y);
    } else {
      FirstExists(d, rest);
      var m :| First(d, rest, m);
      var k := if Before(d, m, y) then m else y;
      assert forall x :: x in s ==> x == y || x in rest;
      assert First(d, s, k);
    }
  }

  /** `ORDER BY key`: the one ordered list of the set. */
  function OrderBy(d: Direction, s: set<Key>): (ks: seq<Key>)
    ensures Listed(d, ks)
    ensures forall k :: k in ks <==> k in s
    decreases |s|
  {
    if s == {} then []
    else
      FirstExists(d, s);
      var k :| First(d, s, k);
      [k] + OrderBy(d, s - {k})
  }

  /** `WHERE key` is past the cursor. */
  function Past(d: Direction, s: set<Key>, cursor: Option<Key>): (r: set<Key>)
    ensures forall k :: k in r <==> k in s && (cursor.Some? ==> Before(d, cursor.value, k))
  {
    if cursor.None? then s else set k | k in s && Before(d, cursor.value, k)
  }

  datatype Page = Page(rows: seq<Key>, next: Option<Key>)

  /** The first `limit` rows past the cursor; one more row is fetched to see whether
      there is a next page. */
  function PageOf(d: Direction, s: set<Key>, cursor: Option<Key>, limit: int): Page {
    var n := ClampLimit(limit);
    var found := OrderBy(d, Past(d, s, cursor));
    if |found| > n then Page(found[..n], Some(found[n - 1])) else Page(found, None)
  }

  // ------------------------------------------------------------ walking pages

  /** One fetch of a walk: the rows that are live then, and the page size asked for. */
  datatype Fetch = Fetch(live: set<Key>, limit: int)

  /** The rows that a walk has returned. */
  function Walk(d: Direction, fetches: seq<Fetch>, cursor: Option<Key>): seq<Key>
    decreases |fetches|
  {
    if fetches == [] then []
    else
      var page := PageOf(d, fetches[0].live, cursor, fetches[0].limit);
      page.rows + (if page.next.None? then [] else Walk(d, fetches[1..], page.next))
  }

  /** A fetch answered that there is no next page. */
  predicate Completed(d: Direction, fetches: seq<Fetch>, cursor: Option<Key>)
    decreases |fetches|
  {
    fetches != [] &&
    var next := PageOf(d, fetches[0].live, cursor, fetches[0].limit).next;
    next.None? || Completed(d, fetches[1..], next)
  }

  ghost predicate LiveThroughout(fetches: seq<Fetch>, k: Key) {
    forall i :: 0 <= i < |fetches| ==> k in fetches[i].live
  }

  ghost predicate LiveOnce(fetches: seq<Fetch>, k: Key) {
    exists i :: 0 <= i < |fetches| && k in fetches[i].live
  }

  ghost predicate AllPast(d: Direction, ks: seq<Key>, cursor: Option<Key>) {
    cursor.Some? ==> forall i :: 0 <= i < |ks| ==> Before(d, cursor.value, ks[i])
  }

  lemma FoundIsPast(d: Direction, s: set<Key>, cursor: Option<Key>)
    ensures var found := OrderBy(d, Past(d, s, cursor));
            AllPast(d, found, cursor) && forall i :: 0 <= i < |found| ==> found[i] in s
  {
    var found := OrderBy(d, Past(d, s, cursor));
    assert forall i :: 0 <= i < |found| ==> found[i] in found && found[i] in Past(d, s, cursor);
  }

  /** What is cut off comes after the cut. */
  lemma CutOffComesLater(d: Direction, found: seq<Key>, n: nat, k: Key)
    requires Listed(d, found) && 0 < n < |found| && k in found
    ensures k in found[..n] || Before(d, found[n - 1], k)
  {
    var i :| 0 <= i < |found| && found[i] == k;
    if i < n { assert found[..n][i] == k; }
  }

  /** A page is in order and past its cursor; the rows it leaves out come after it. */
  lemma PageIsCut(d: Direction, s: set<Key>, cursor: Option<Key>, limit: int)
    ensures var page := PageOf(d, s, cursor, limit);
            Listed(d, page.rows) && AllPast(d, page.rows, cursor) &&
            (forall k :: k in page.rows ==> k in s) &&
            (page.next.Some? ==> page.rows != [] && page.rows[|page.rows| - 1] == page.next.value) &&
            (forall k :: k in Past(d, s, cursor) && k !in page.rows ==> page.next.Some? && Before(d, page.next.value, k))
  {
    var page, n := PageOf(d, s, cursor, limit), ClampLimit(limit);
    var found := OrderBy(d, Past(d, s, cursor));
    FoundIsPast(d, s, cursor);
    forall k | k in Past(d, s, cursor) ensures k in page.rows || (page.next.Some? && Before(d, page.next.value, k)) {
      assert k in found;
      if |found| > n { CutOffComesLater(d, found, n, k); }
    }
  }

  lemma ListedConcat(d: Direction, a: seq<Key>, b: seq<Key>)
    requires Listed(d, a) && Listed(d, b) && a != [] && AllPast(d, b, Some(a[|a| - 1]))
    ensures Listed(d, a + b)
  {
    var last := a[|a| - 1];
    forall i, j | 0 <= i < j < |a + b| ensures Before(d, (a + b)[i], (a + b)[j]) {
      if i < |a| <= j {
        assert Before(d, last, b[j - |a|]);
        if i < |a| - 1 { assert Before(d, a[i], last); }
      }
    }
  }

  lemma AllPastConcat(d: Direction, a: seq<Key>, b: seq<Key>, cursor: Option<Key>)
    requires a != [] && AllPast(d, a, cursor) && AllPast(d, b, Some(a[|a| - 1]))
    ensures AllPast(d, a + b, cursor)
  {
    if cursor.Some? {
      var last := a[|a| - 1];
      forall i | 0 <= i < |a + b| ensures Before(d, cursor.value, (a + b)[i]) {
        if i >= |a| { assert Before(d, cursor.value, last) && Before(d, last, b[i - |a|]); }
      }
    }
  }

  lemma {:induction false} WalkIsOrdered(d: Direction, fetches: seq<Fetch>, cursor: Option<Key>)
    ensures Listed(d, Walk(d, fetches, cursor)) && AllPast(d, Walk(d, fetches, cursor), cursor)
    decreases |fetches|
  {
    if fetches != [] {
      PageIsCut(d, fetches[0].live, cursor, fetches[0].limit);
      var page := PageOf(d, fetches[0].live, cursor, fetches[0].limit);
      if page.next.Some? {
        WalkIsOrdered(d, fetches[1..], page.next);
        ListedConcat(d, page.rows, Walk(d, fetches[1..], page.next));
        AllPastConcat(d, page.rows, Walk(d, fetches[1..], page.next), cursor);
      } else {
        AppendNil(page.rows);
      }
    }
  }

  lemma {:induction false} WalkFindsLive(d: Direction, fetches: seq<Fetch>, cursor: Option<Key>, k: Key)
    requires Completed(d, fetches, cursor) && LiveThroughout(fetches, k)
    requires cursor.Some? ==> Before(d, cursor.value, k)
    ensures k in Walk(d, fetches, cursor)
    decreases |fetches|
  {
    PageIsCut(d, fetches[0].live, cursor, fetches[0].limit);
    var page := PageOf(d, fetches[0].live, cursor, fetches[0].limit);
    if k !in page.rows {
      assert k in Past(d, fetches[0].live, cursor);
      assert forall i :: 0 <= i < |fetches[1..]| ==> fetches[1..][i] == fetches[i + 1];
      WalkFindsLive(d, fetches[1..], page.next, k);
    }
  }

  lemma {:induction false} WalkInventsNothing(d: Direction, fetches: seq<Fetch>, cursor: Option<Key>, k: Key)
    requires k in Walk(d, fetches, cursor)
    ensures LiveOnce(fetches, k)
    decreases |fetches|
  {
    PageIsCut(d, fetches[0].live, cursor, fetches[0].limit);
    var page := PageOf(d, fetches[0].live, cursor, fetches[0].limit);
    if k in page.rows {
      assert k in fetches[0].live;
    } else {
      WalkInventsNothing(d, fetches[1..], page.next, k);
      var i :| 0 <= i < |fetches[1..]| && k in fetches[1..][i].live;
      assert k in fetches[i + 1].live;
    }
  }

  function Count(ks: seq<Key>, k: Key): nat { multiset(ks)[k] }

  lemma {:induction false} OrderedCountsOnce(d: Direction, ks: seq<Key>, k: Key)
    requires Listed(d, ks)
    ensures Count(ks, k) == if k in ks then 1 else 0
    decreases |ks|
  {
    if ks != [] {
      var init, last := ks[..|ks| - 1], ks[|ks| - 1];
      assert ks == init + [last];
      OrderedCountsOnce(d, init, k);
      forall i | 0 <= i < |init| ensures init[i] != last {
        assert Before(d, ks[i], ks[|ks| - 1]);
      }
    }
  }

  /** While rows come and go between the fetches, a completed walk lists in order, returns
      every row that was live throughout exactly once, no row twice, and only rows that
      were live at some fetch; for both directions and any page sizes. */
  lemma WalkUnderChange(d: Direction, fetches: seq<Fetch>, k: Key)
    requires Completed(d, fetches, None)
    ensures var listed := Walk(d, fetches, None);
            Listed(d, listed) && Count(listed, k) <= 1 &&
            (LiveThroughout(fetches, k) ==> Count(listed, k) == 1) &&
            (Count(listed, k) == 1 ==> LiveOnce(fetches, k))
  {
    WalkIsOrdered(d, fetches, None);
    OrderedCountsOnce(d, Walk(d, fetches, None), k);
    if LiveThroughout(fetches, k) { WalkFindsLive(d, fetches, None, k); }
    if k in Walk(d, fetches, None) { WalkInventsNothing(d, fetches, None, k); }
  }

  // ------------------------------------------------------------ a fixed table

  lemma OneListing(d: Direction, a: seq<Key>, b: seq<Key>)
    requires Listed(d, a) && Listed(d, b) && forall k :: k in a <==> k in b
    ensures a == b
  {
    OrderedIsUnique((x, y) => Before(d, x, y), a, b);
  }

  ghost predicate Fixed(fetches: seq<Fetch>, s: set<Key>) {
    forall i :: 0 <= i < |fetches| ==> fetches[i].live == s
  }

  /** Every page that is not the last moves the cursor past at least one row. */
  lemma PastShrinks(d: Direction, s: set<Key>, cursor: Option<Key>, limit: int)
    requires PageOf(d, s, cursor, limit).next.Some?
    ensures |Past(d, s, PageOf(d, s, cursor, limit).next)| < |Past(d, s, cursor)|
  {
    var page := PageOf(d, s, cursor, limit);
    PageIsCut(d, s, cursor, limit);
    var k := page.next.value;
    assert k in page.rows;
    var i :| 0 <= i < |page.rows| && page.rows[i] == k;
    assert k in Past(d, s, cursor) && k !in Past(d, s, page.next);
    assert Past(d, s, page.next) <= Past(d, s, cursor) - {k};
    SubsetSize(Past(d, s, page.next), Past(d, s, cursor) - {k});
  }

  lemma {:induction false} SubsetSize<T>(a: set<T>, b: set<T>)
    requires a <= b
    ensures |a| <= |b|
    decreases |a|
  {
    if a != {} {
      var x :| x in a;
      SubsetSize(a - {x}, b - {x});
    }
  }

  lemma {:induction false} FixedWalkCompletes(d: Direction, fetches: seq<Fetch>, s: set<Key>, cursor: Option<Key>)
    requires Fixed(fetches, s) && |fetches| > |Past(d, s, cursor)|
    ensures Completed(d, fetches, cursor)
    decreases |fetches|
  {
    var page := PageOf(d, s, cursor, fetches[0].limit);
    assert fetches[0].live == s;
    if page.next.Some? {
      PastShrinks(d, s, cursor, fetches[0].limit);
      assert forall i :: 0 <= i < |fetches[1..]| ==> fetches[1..][i] == fetches[i + 1];
      FixedWalkCompletes(d, fetches[1..], s, page.next);
    }
  }

  /** On a table that does not change, a walk ends after at most one fetch per row and
      one more, and its pages put together are the whole list in order. */
  lemma FixedWalkIsTheList(d: Direction, fetches: seq<Fetch>, s: set<Key>)
    requires Fixed(fetches, s)
    ensures |fetches| > |s| ==> Completed(d, fetches, None)
    ensures Completed(d, fetches, None) ==> Walk(d, fetches, None) == OrderBy(d, s)
  {
    if |fetches| > |s| { FixedWalkCompletes(d, fetches, s, None); }
    if Completed(d, fetches, None) {
      var listed := Walk(d, fetches, None);
      WalkIsOrdered(d, fetches, None);
      forall k ensures k in listed <==> k in OrderBy(d, s) {
        if k in s { WalkFindsLive(d, fetches, None, k); }
        if k in listed {
          WalkInventsNothing(d, fetches, None, k);
        }
      }
      OneListing(d, listed, OrderBy(d, s));
    }
  }
}
