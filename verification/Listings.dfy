/** The three cursor-paginated lists as a client sees them: opaque cursor strings, and
    tables that change between fetches (app/services/sessions.py, app/services/memory.py). */
module Listings {
  import opened Calendar
  import opened Prelude
  import opened Keyset
  import Codec = CursorCodec
  import Memory = MemoryService
  import Store = ChatStore
  import Turns = IdempotentChat

  // ------------------------------------------------------- one list, any table

  /** The rows that a list matches, with the time or date that they are sorted by. */
  type Matches = map<Id, int>

  function Keys(v: Matches): (ks: set<Key>)
    ensures forall k :: k in ks <==> k.id in v && v[k.id] == k.at
  {
    set id | id in v :: Key(v[id], id)
  }

  datatype Cursors = Cursors(encode: Key -> string, decode: string -> Result<Key, Codec.CursorError>)

  /** The cursor of every row decodes to that row. */
  ghost predicate Honest(c: Cursors, v: Matches) {
    forall k :: k in Keys(v) ==> c.decode(c.encode(k)) == Ok(k)
  }

  function Ids(ks: seq<Key>): (ids: seq<Id>)
    ensures |ids| == |ks| && forall i :: 0 <= i < |ks| ==> ids[i] == ks[i].id
  {
    seq(|ks|, i requires 0 <= i < |ks| => ks[i].id)
  }

  datatype Listing = Listing(ids: seq<Id>, next: Option<string>)

  function Shown(c: Cursors, page: Page): Listing {
    Listing(Ids(page.rows), if page.next.Some? then Some(c.encode(page.next.value)) else None)
  }

  /** One call of a list: a malformed cursor is an error. */
  function List(c: Cursors, d: Direction, v: Matches, cursor: Option<string>, limit: int): Result<Listing, Codec.CursorError> {
    match cursor
    case None => Ok(Shown(c, PageOf(d, Keys(v), None, limit)))
    case Some(text) =>
      match c.decode(text)
      case Err(e) => Err(e)
      case Ok(k) => Ok(Shown(c, PageOf(d, Keys(v), Some(k), limit)))
  }

  /** Where a call starts: after the row that its cursor names. */
  function StartsAfter(c: Cursors, cursor: Option<string>): Option<Key> {
    match cursor
    case None => None
    case Some(text) => match c.decode(text) case Ok(k) => Some(k) case Err(_) => None
  }

  predicate PastStart(d: Direction, after: Option<Key>, k: Key) { after.Some? ==> Before(d, after.value, k) }

  /** Matching rows past a place, in order, at most a page of them. */
  ghost predicate InPlace(d: Direction, v: Matches, after: Option<Key>, limit: int, ids: seq<Id>) {
    && |ids| <= ClampLimit(limit)
    && (forall i :: 0 <= i < |ids| ==> ids[i] in v && PastStart(d, after, Key(v[ids[i]], ids[i])))
    && (forall i, j :: 0 <= i < j < |ids| ==> Before(d, Key(v[ids[i]], ids[i]), Key(v[ids[j]], ids[j])))
  }

  /** A matching row past the place that is not listed. */
  predicate LeftOut(d: Direction, v: Matches, after: Option<Key>, ids: seq<Id>, id: Id) {
    id in v && id !in ids && PastStart(d, after, Key(v[id], id))
  }

  /** What is left out comes later than what is listed. */
  ghost predicate RestIsLater(d: Direction, v: Matches, after: Option<Key>, ids: seq<Id>)
    requires forall i :: 0 <= i < |ids| ==> ids[i] in v
  {
    forall i, id :: 0 <= i < |ids| && LeftOut(d, v, after, ids, id) ==>
      Before(d, Key(v[ids[i]], ids[i]), Key(v[id], id))
  }

  /** The next cursor, made from the last row of a full page, is there exactly when a row is
      left out. */
  ghost predicate NextIsRight(c: Cursors, d: Direction, v: Matches, after: Option<Key>, limit: int, page: Listing)
    requires forall i :: 0 <= i < |page.ids| ==> page.ids[i] in v
  {
    && (page.next.Some? <==> exists id :: LeftOut(d, v, after, page.ids, id))
    && (page.next.Some? ==>
          var n := ClampLimit(limit);
          |page.ids| == n && page.next == Some(c.encode(Key(v[page.ids[n - 1]], page.ids[n - 1]))))
  }

  /** The first rows after a place. */
  ghost predicate FirstRows(c: Cursors, d: Direction, v: Matches, after: Option<Key>, limit: int, page: Listing) {
    && InPlace(d, v, after, limit, page.ids)
    && RestIsLater(d, v, after, page.ids)
    && NextIsRight(c, d, v, after, limit, page)
  }

  /** A page with a next cursor is full and leaves a row out. */
  lemma PageLeaves(d: Direction, s: set<Key>, after: Option<Key>, limit: int) returns (left: Key)
    requires PageOf(d, s, after, limit).next.Some?
    ensures |PageOf(d, s, after, limit).rows| == ClampLimit(limit)
    ensures left in Past(d, s, after) && left !in PageOf(d, s, after, limit).rows
  {
    var n := ClampLimit(limit);
    var found := OrderBy(d, Past(d, s, after));
    left := found[n];
    assert left in found;
    forall i | 0 <= i < n ensures found[i] != left { assert Before(d, found[i], found[n]); }
  }

  /** What a page leaves out comes after each of its rows. */
  lemma LeftComesLater(d: Direction, s: set<Key>, after: Option<Key>, limit: int, i: nat, k: Key)
    requires var rows := PageOf(d, s, after, limit).rows; i < |rows| && k !in rows
    requires k in Past(d, s, after)
    ensures PageOf(d, s, after, limit).next.Some? && Before(d, PageOf(d, s, after, limit).rows[i], k)
  {
    var page := PageOf(d, s, after, limit);
    PageIsCut(d, s, after, limit);
    assert Before(d, page.next.value, k);
    if i < |page.rows| - 1 { assert Before(d, page.rows[i], page.rows[|page.rows| - 1]); }
  }

  lemma ShownIsInPlace(d: Direction, v: Matches, after: Option<Key>, limit: int)
    ensures InPlace(d, v, after, limit, Ids(PageOf(d, Keys(v), after, limit).rows))
    ensures forall k :: k in PageOf(d, Keys(v), after, limit).rows ==> k.id in v && k == Key(v[k.id], k.id)
  {
    var page := PageOf(d, Keys(v), after, limit);
    PageIsCut(d, Keys(v), after, limit);
    assert forall i :: 0 <= i < |page.rows| ==> page.rows[i] in page.rows;
  }

  lemma LeftOutIsLeft(d: Direction, v: Matches, after: Option<Key>, limit: int, id: Id)
    ensures var rows := PageOf(d, Keys(v), after, limit).rows;
            LeftOut(d, v, after, Ids(rows), id) <==>
              id in v && Key(v[id], id) in Past(d, Keys(v), after) && Key(v[id], id) !in rows
  {
    PageIsCut(d, Keys(v), after, limit);
    if id in v { OnPage(v, PageOf(d, Keys(v), after, limit).rows, id); }
  }

  lemma ShownRestIsLater(d: Direction, v: Matches, after: Option<Key>, limit: int)
    requires InPlace(d, v, after, limit, Ids(PageOf(d, Keys(v), after, limit).rows))
    ensures RestIsLater(d, v, after, Ids(PageOf(d, Keys(v), after, limit).rows))
  {
    var rows := PageOf(d, Keys(v), after, limit).rows;
    ShownIsInPlace(d, v, after, limit);
    forall i, id | 0 <= i < |rows| && LeftOut(d, v, after, Ids(rows), id)
      ensures Before(d, Key(v[Ids(rows)[i]], Ids(rows)[i]), Key(v[id], id))
    {
      LeftOutIsLeft(d, v, after, limit, id);
      LeftComesLater(d, Keys(v), after, limit, i, Key(v[id], id));
      assert rows[i] in rows;
    }
  }

  lemma ShownNextIsRight(c: Cursors, d: Direction, v: Matches, after: Option<Key>, limit: int)
    requires InPlace(d, v, after, limit, Ids(PageOf(d, Keys(v), after, limit).rows))
    ensures NextIsRight(c, d, v, after, limit, Shown(c, PageOf(d, Keys(v), after, limit)))
  {
    var page := PageOf(d, Keys(v), after, limit);
    PageIsCut(d, Keys(v), after, limit);
    if page.next.Some? {
      var left := PageLeaves(d, Keys(v), after, limit);
      LeftOutIsLeft(d, v, after, limit, left.id);
      assert LeftOut(d, v, after, Ids(page.rows), left.id);
      ShownIsInPlace(d, v, after, limit);
      assert page.next.value in page.rows;
    } else {
      forall id ensures !LeftOut(d, v, after, Ids(page.rows), id) { LeftOutIsLeft(d, v, after, limit, id); }
    }
  }

  lemma ShownIsFirstRows(c: Cursors, d: Direction, v: Matches, after: Option<Key>, limit: int)
    ensures FirstRows(c, d, v, after, limit, Shown(c, PageOf(d, Keys(v), after, limit)))
  {
    ShownIsInPlace(d, v, after, limit);
    ShownRestIsLater(d, v, after, limit);
    ShownNextIsRight(c, d, v, after, limit);
  }

  lemma OnPage(v: Matches, ks: seq<Key>, id: Id)
    requires id in v && forall k :: k in ks ==> k in Keys(v)
    ensures id in Ids(ks) <==> Key(v[id], id) in ks
  {
    if id in Ids(ks) {
      var i :| 0 <= i < |ks| && Ids(ks)[i] == id;
      assert ks[i] in ks;
    }
    if Key(v[id], id) in ks {
      var i :| 0 <= i < |ks| && ks[i] == Key(v[id], id);
      assert Ids(ks)[i] == id;
    }
  }

  /** One visit of a walk: what the table holds then, and the page size asked for. */
  datatype Visit = Visit(matches: Matches, limit: int)

  /** What a client has after its visits, and whether it saw the last page. */
  datatype Trip = Trip(ids: seq<Id>, done: bool)

  /** A client that hands each `next_cursor` back until there is none. */
  function Follow(c: Cursors, d: Direction, visits: seq<Visit>, cursor: Option<string>): Result<Trip, Codec.CursorError>
    decreases |visits|
  {
    if visits == [] then Ok(Trip([], false))
    else
      match List(c, d, visits[0].matches, cursor, visits[0].limit)
      case Err(e) => Err(e)
      case Ok(page) =>
        if page.next.None? then Ok(Trip(page.ids, true))
        else
          match Follow(c, d, visits[1..], page.next)
          case Err(e) => Err(e)
          case Ok(rest) => Ok(Trip(page.ids + rest.ids, rest.done))
  }

  function Fetched(visits: seq<Visit>): (fetches: seq<Fetch>)
    ensures |fetches| == |visits|
    ensures forall i :: 0 <= i < |visits| ==> fetches[i] == Fetch(Keys(visits[i].matches), visits[i].limit)
  {
    seq(|visits|, i requires 0 <= i < |visits| => Fetch(Keys(visits[i].matches), visits[i].limit))
  }

  ghost predicate AllHonest(c: Cursors, visits: seq<Visit>) {
    forall i :: 0 <= i < |visits| ==> Honest(c, visits[i].matches)
  }

  /** The string and the key name the same place. */
  predicate Names(c: Cursors, cursor: Option<string>, k: Option<Key>) {
    if cursor.None? then k.None? else k.Some? && c.decode(cursor.value) == Ok(k.value)
  }

  lemma IdsConcat(a: seq<Key>, b: seq<Key>)
    ensures Ids(a + b) == Ids(a) + Ids(b)
  {
  }

  /** Walking with the strings is walking with the keys. */
  lemma {:induction false} FollowIsWalk(c: Cursors, d: Direction, visits: seq<Visit>, cursor: Option<string>, k: Option<Key>)
    requires AllHonest(c, visits) && Names(c, cursor, k)
    ensures Follow(c, d, visits, cursor) == Ok(Trip(Ids(Walk(d, Fetched(visits), k)), Completed(d, Fetched(visits), k)))
    decreases |visits|
  {
    if visits != [] {
      var v := visits[0];
      var page := PageOf(d, Keys(v.matches), k, v.limit);
      PageIsCut(d, Keys(v.matches), k, v.limit);
      assert Fetched(visits)[1..] == Fetched(visits[1..]);
      if page.next.Some? {
        assert page.next.value in page.rows && page.next.value in Keys(v.matches);
        FollowIsWalk(c, d, visits[1..], Some(c.encode(page.next.value)), page.next);
        IdsConcat(page.rows, Walk(d, Fetched(visits[1..]), page.next));
      } else {
        AppendNil(page.rows);
      }
    }
  }

  // ------------------------------------------------------ lists under change

  ghost predicate AlwaysListed(visits: seq<Visit>, id: Id) {
    forall i :: 0 <= i < |visits| ==> id in visits[i].matches
  }

  ghost predicate OnceListed(visits: seq<Visit>, id: Id) {
    exists i :: 0 <= i < |visits| && id in visits[i].matches
  }

  /** The row never moves in the order. */
  ghost predicate Unmoved(visits: seq<Visit>, id: Id, at: int) {
    forall i :: 0 <= i < |visits| && id in visits[i].matches ==> visits[i].matches[id] == at
  }

  function Times(ids: seq<Id>, id: Id): nat { multiset(ids)[id] }

  lemma {:induction false} TimesIsCount(ks: seq<Key>, id: Id, at: int)
    requires forall k :: k in ks && k.id == id ==> k.at == at
    ensures Times(Ids(ks), id) == Count(ks, Key(at, id))
    decreases |ks|
  {
    if ks != [] {
      var init, last := ks[..|ks| - 1], ks[|ks| - 1];
      assert ks == init + [last];
      IdsConcat(init, [last]);
      assert Ids([last]) == [last.id];
      assert last in ks && forall k :: k in init ==> k in ks;
      TimesIsCount(init, id, at);
    }
  }

  lemma WalkedTimes(d: Direction, visits: seq<Visit>, id: Id, at: int)
    requires Unmoved(visits, id, at)
    ensures Times(Ids(Walk(d, Fetched(visits), None)), id) == Count(Walk(d, Fetched(visits), None), Key(at, id))
  {
    var fetches := Fetched(visits);
    forall x | x in Walk(d, fetches, None) && x.id == id ensures x.at == at {
      WalkInventsNothing(d, fetches, None, x);
      var i :| 0 <= i < |fetches| && x in fetches[i].live;
      assert id in visits[i].matches;
    }
    TimesIsCount(Walk(d, fetches, None), id, at);
  }

  lemma AlwaysIsLive(visits: seq<Visit>, id: Id, at: int)
    requires Unmoved(visits, id, at)
    ensures LiveThroughout(Fetched(visits), Key(at, id)) <==> AlwaysListed(visits, id)
    ensures LiveOnce(Fetched(visits), Key(at, id)) <==> OnceListed(visits, id)
  {
    var fetches := Fetched(visits);
    forall i | 0 <= i < |visits| ensures Key(at, id) in fetches[i].live <==> id in visits[i].matches { }
  }

  /** A finished walk lists a row that does not move at most once; exactly once when it
      matched at every visit; and never a row that matched at none. */
  lemma ListingUnderChange(c: Cursors, d: Direction, visits: seq<Visit>, id: Id, at: int)
    requires AllHonest(c, visits) && Unmoved(visits, id, at)
    ensures Follow(c, d, visits, None).Ok?
    ensures var trip := Follow(c, d, visits, None).value;
            trip.done ==>
              && Times(trip.ids, id) <= 1
              && (AlwaysListed(visits, id) ==> Times(trip.ids, id) == 1)
              && (Times(trip.ids, id) == 1 ==> OnceListed(visits, id))
  {
    FollowIsWalk(c, d, visits, None, None);
    WalkedTimes(d, visits, id, at);
    AlwaysIsLive(visits, id, at);
    if Completed(d, Fetched(visits), None) { WalkUnderChange(d, Fetched(visits), Key(at, id)); }
  }

  /** On a table that does not change, the pages put together are the sorted list, after at
      most one visit per row and one more. */
  lemma ListingOfFixedTable(c: Cursors, d: Direction, visits: seq<Visit>, v: Matches)
    requires Honest(c, v) && forall i :: 0 <= i < |visits| ==> visits[i].matches == v
    ensures Follow(c, d, visits, None).Ok?
    ensures var trip := Follow(c, d, visits, None).value;
            (|visits| > |Keys(v)| ==> trip.done) && (trip.done ==> trip.ids == Ids(OrderBy(d, Keys(v))))
  {
    FollowIsWalk(c, d, visits, None, None);
    FixedWalkIsTheList(d, Fetched(visits), Keys(v));
  }

  // --------------------------------------------- rows that move during a walk

  lemma {:induction false} TimesOfAbsent(ks: seq<Key>, id: Id)
    requires forall x :: x in ks ==> x.id != id
    ensures Times(Ids(ks), id) == 0
  {
    forall i | 0 <= i < |ks| ensures Ids(ks)[i] != id { assert ks[i] in ks; }
    assert id !in Ids(ks);
  }

  /** A page lists a row at most once, and exactly when its key is in the page. */
  lemma OnOnePage(d: Direction, v: Matches, cursor: Option<Key>, limit: int, id: Id)
    ensures var page := PageOf(d, Keys(v), cursor, limit);
            Times(Ids(page.rows), id) == if id in v && Key(v[id], id) in page.rows then 1 else 0
  {
    var page := PageOf(d, Keys(v), cursor, limit);
    PageIsCut(d, Keys(v), cursor, limit);
    if id in v {
      TimesIsCount(page.rows, id, v[id]);
      OrderedCountsOnce(d, page.rows, Key(v[id], id));
    } else {
      TimesOfAbsent(page.rows, id);
    }
  }

  lemma InPageIsBeforeNext(d: Direction, v: Matches, cursor: Option<Key>, limit: int, k: Key)
    requires var page := PageOf(d, Keys(v), cursor, limit); k in page.rows && page.next.Some?
    ensures !Before(d, PageOf(d, Keys(v), cursor, limit).next.value, k)
  {
    var page := PageOf(d, Keys(v), cursor, limit);
    PageIsCut(d, Keys(v), cursor, limit);
    var i :| 0 <= i < |page.rows| && page.rows[i] == k;
    if i < |page.rows| - 1 { assert Before(d, page.rows[i], page.rows[|page.rows| - 1]); }
  }

  /** The rest of the walk after a page that names `next`. */
  lemma RestOfWalk(d: Direction, visits: seq<Visit>, cursor: Option<Key>, id: Id)
    requires visits != []
    ensures var page := PageOf(d, Keys(visits[0].matches), cursor, visits[0].limit);
            Times(Ids(Walk(d, Fetched(visits), cursor)), id) == Times(Ids(page.rows), id)
              + (if page.next.None? then 0 else Times(Ids(Walk(d, Fetched(visits[1..]), page.next)), id))
  {
    var page := PageOf(d, Keys(visits[0].matches), cursor, visits[0].limit);
    assert Fetched(visits)[1..] == Fetched(visits[1..]);
    if page.next.None? { AppendNil(page.rows); } else { IdsConcat(page.rows, Walk(d, Fetched(visits[1..]), page.next)); }
  }

  /** The row matches and lies past the cursor. */
  predicate Ahead(d: Direction, v: Matches, cursor: Option<Key>, id: Id) {
    id in v && PastStart(d, cursor, Key(v[id], id))
  }

  /** How often, between two fetches, the row comes to lie past the cursor: it is added there,
      or moves there. */
  function Entries(d: Direction, visits: seq<Visit>, cursor: Option<Key>, id: Id): nat
    decreases |visits|
  {
    if |visits| < 2 then 0
    else
      var next := PageOf(d, Keys(visits[0].matches), cursor, visits[0].limit).next;
      if next.None? then 0
      else
        (if !Ahead(d, visits[0].matches, next, id) && Ahead(d, visits[1].matches, next, id) then 1 else 0)
        + Entries(d, visits[1..], next, id)
  }

  /** How often it ceases to, unread: it is removed, or moves back over the cursor. */
  function Exits(d: Direction, visits: seq<Visit>, cursor: Option<Key>, id: Id): nat
    decreases |visits|
  {
    if |visits| < 2 then 0
    else
      var next := PageOf(d, Keys(visits[0].matches), cursor, visits[0].limit).next;
      if next.None? then 0
      else
        (if Ahead(d, visits[0].matches, next, id) && !Ahead(d, visits[1].matches, next, id) then 1 else 0)
        + Exits(d, visits[1..], next, id)
  }

  /** A page lists what lies past its cursor and not past the next one. */
  lemma ListedOnPage(d: Direction, v: Matches, cursor: Option<Key>, limit: int, id: Id)
    ensures var page := PageOf(d, Keys(v), cursor, limit);
            Times(Ids(page.rows), id) ==
              (if Ahead(d, v, cursor, id) && (page.next.None? || !Ahead(d, v, page.next, id)) then 1 else 0)
    ensures var page := PageOf(d, Keys(v), cursor, limit);
            page.next.Some? && Ahead(d, v, page.next, id) ==> Ahead(d, v, cursor, id)
  {
    var page := PageOf(d, Keys(v), cursor, limit);
    OnOnePage(d, v, cursor, limit, id);
    PageIsCut(d, Keys(v), cursor, limit);
    if id in v {
      var k := Key(v[id], id);
      assert k in Past(d, Keys(v), cursor) <==> Ahead(d, v, cursor, id);
      if k in page.rows {
        var i :| 0 <= i < |page.rows| && page.rows[i] == k;
        if page.next.Some? { InPageIsBeforeNext(d, v, cursor, limit, k); }
      }
      if page.next.Some? { NextIsPast(d, v, cursor, limit, k); }
    }
  }

  lemma NextIsPast(d: Direction, v: Matches, cursor: Option<Key>, limit: int, k: Key)
    requires PageOf(d, Keys(v), cursor, limit).next.Some?
    ensures var next := PageOf(d, Keys(v), cursor, limit).next;
            Before(d, next.value, k) ==> PastStart(d, cursor, k)
  {
    PageIsCut(d, Keys(v), cursor, limit);
  }

  /** Conservation, for every row however it comes, goes and moves between the fetches: the times
      that a finished walk lists it, and the times that it left unread, are the times that it
      came to lie past the cursor. */
  lemma {:induction false} WalkCounts(d: Direction, visits: seq<Visit>, cursor: Option<Key>, id: Id)
    requires Completed(d, Fetched(visits), cursor)
    ensures Times(Ids(Walk(d, Fetched(visits), cursor)), id) + Exits(d, visits, cursor, id)
         == (if Ahead(d, visits[0].matches, cursor, id) then 1 else 0) + Entries(d, visits, cursor, id)
    decreases |visits|
  {
    var v := visits[0];
    var page := PageOf(d, Keys(v.matches), cursor, v.limit);
    RestOfWalk(d, visits, cursor, id);
    ListedOnPage(d, v.matches, cursor, v.limit, id);
    if page.next.Some? {
      assert Fetched(visits)[1..] == Fetched(visits[1..]);
      WalkCounts(d, visits[1..], page.next, id);
    }
  }

  /** The same of a client that hands cursor strings back. */
  lemma ListingCounts(c: Cursors, d: Direction, visits: seq<Visit>, id: Id)
    requires AllHonest(c, visits)
    ensures Follow(c, d, visits, None).Ok?
    ensures var trip := Follow(c, d, visits, None).value;
            trip.done ==>
              && visits != []
              && Times(trip.ids, id) + Exits(d, visits, None, id)
                 == (if id in visits[0].matches then 1 else 0) + Entries(d, visits, None, id)
  {
    FollowIsWalk(c, d, visits, None, None);
    if Completed(d, Fetched(visits), None) { WalkCounts(d, visits, None, id); }
  }

  // ----------------------------------------------------------------- memories

  /** The filters of `list_memories`. */
  function MemoryMatches(rows: map<Id, Memory.Row>, userId: Id, from: Option<Day>, to: Option<Day>): Matches {
    map id | id in rows && Memory.Live(rows, id, userId)
             && (from.Some? ==> !Earlier(rows[id].eventDate, from.value))
             && (to.Some? ==> !Earlier(to.value, rows[id].eventDate)) :: DateNumber(rows[id].eventDate)
  }

  function MemoryCursors(j: Codec.Json): Cursors {
    Cursors((k: Key) => Codec.EncodeCursor(j, NumberDate(k.at), k.id),
            text => match Codec.DecodeCursor(j, text)
                    case Err(e) => Err(e)
                    case Ok(found) => Ok(Key(DateNumber(found.0), found.1)))
  }

  /** From the latest date to the earliest, and within a date from the largest id down. */
  ghost predicate ByCalendar(rows: map<Id, Memory.Row>, ids: seq<Id>) {
    forall i, j :: 0 <= i < j < |ids| ==>
      ids[i] in rows && ids[j] in rows &&
      (Earlier(rows[ids[j]].eventDate, rows[ids[i]].eventDate) ||
       (rows[ids[j]].eventDate == rows[ids[i]].eventDate && ids[j] < ids[i]))
  }

  lemma KeysOrderDays(a: Day, b: Day, i: Id, j: Id)
    ensures Before(Desc, Key(DateNumber(a), i), Key(DateNumber(b), j)) <==> Earlier(b, a) || (b == a && j < i)
  {
    NumbersOrderDays(b, a);
    DaysAreNumbers(a);
    DaysAreNumbers(b);
  }

  /** The key order of the memory list is the calendar's. */
  lemma ListedByCalendar(rows: map<Id, Memory.Row>, userId: Id, from: Option<Day>, to: Option<Day>,
                         after: Option<Key>, limit: int, ids: seq<Id>)
    ensures InPlace(Desc, MemoryMatches(rows, userId, from, to), after, limit, ids) ==> ByCalendar(rows, ids)
  {
    var v := MemoryMatches(rows, userId, from, to);
    if InPlace(Desc, v, after, limit, ids) {
      forall i, j | 0 <= i < j < |ids|
        ensures ids[i] in rows && ids[j] in rows &&
                (Earlier(rows[ids[j]].eventDate, rows[ids[i]].eventDate) ||
                 (rows[ids[j]].eventDate == rows[ids[i]].eventDate && ids[j] < ids[i]))
      {
        assert Before(Desc, Key(v[ids[i]], ids[i]), Key(v[ids[j]], ids[j]));
        KeysOrderDays(rows[ids[i]].eventDate, rows[ids[j]].eventDate, ids[i], ids[j]);
      }
    }
  }

  function ListMemories(j: Codec.Json, rows: map<Id, Memory.Row>, userId: Id, from: Option<Day>, to: Option<Day>,
                        cursor: Option<string>, limit: int): (r: Result<Listing, Codec.CursorError>)
    ensures r.Err? <==> cursor.Some? && Codec.DecodeCursor(j, cursor.value).Err?
    ensures r.Ok? ==>
              FirstRows(MemoryCursors(j), Desc, MemoryMatches(rows, userId, from, to),
                        StartsAfter(MemoryCursors(j), cursor), limit, r.value)
    ensures r.Ok? ==> ByCalendar(rows, r.value.ids)
  {
    var c, v := MemoryCursors(j), MemoryMatches(rows, userId, from, to);
    var r := List(c, Desc, v, cursor, limit);
    ShownIsFirstRows(c, Desc, v, StartsAfter(c, cursor), limit);
    ListedByCalendar(rows, userId, from, to, StartsAfter(c, cursor), limit, if r.Ok? then r.value.ids else []);
    r
  }

  lemma MemoryCursorsAreHonest(j: Codec.Json, rows: map<Id, Memory.Row>, userId: Id, from: Option<Day>, to: Option<Day>)
    requires Codec.FaithfulJson(j)
    ensures Honest(MemoryCursors(j), MemoryMatches(rows, userId, from, to))
  {
    forall k | k in Keys(MemoryMatches(rows, userId, from, to))
      ensures MemoryCursors(j).decode(MemoryCursors(j).encode(k)) == Ok(k)
    {
      Codec.CursorRoundTrip(j, NumberDate(k.at), k.id);
      DaysAreNumbers(rows[k.id].eventDate);
    }
  }

  datatype MemoryVisit = MemoryVisit(rows: map<Id, Memory.Row>, limit: int)

  function MemoryVisits(visits: seq<MemoryVisit>, userId: Id, from: Option<Day>, to: Option<Day>): (r: seq<Visit>)
    ensures |r| == |visits|
  {
    seq(|visits|, i requires 0 <= i < |visits| => Visit(MemoryMatches(visits[i].rows, userId, from, to), visits[i].limit))
  }

  lemma MemoryVisitsAreHonest(j: Codec.Json, visits: seq<MemoryVisit>, userId: Id, from: Option<Day>, to: Option<Day>)
    requires Codec.FaithfulJson(j)
    ensures AllHonest(MemoryCursors(j), MemoryVisits(visits, userId, from, to))
  {
    forall i | 0 <= i < |visits| ensures Honest(MemoryCursors(j), MemoryVisits(visits, userId, from, to)[i].matches) {
      MemoryCursorsAreHonest(j, visits[i].rows, userId, from, to);
    }
  }

  /** While memories are created, edited and deleted between the fetches, a finished walk
      over a date range lists a memory as often as it came to lie past the cursor, less the
      times that it left unread. So one whose date stays the same is listed at most once, and
      exactly once when it was live and in the range throughout. */
  lemma MemoryPages(j: Codec.Json, visits: seq<MemoryVisit>, userId: Id, from: Option<Day>, to: Option<Day>, id: Id, at: int)
    requires Codec.FaithfulJson(j)
    ensures Follow(MemoryCursors(j), Desc, MemoryVisits(visits, userId, from, to), None).Ok?
    ensures var vs := MemoryVisits(visits, userId, from, to);
            var trip := Follow(MemoryCursors(j), Desc, vs, None).value;
            trip.done ==>
              && vs != []
              && Times(trip.ids, id) + Exits(Desc, vs, None, id)
                 == (if id in vs[0].matches then 1 else 0) + Entries(Desc, vs, None, id)
              && (Unmoved(vs, id, at) ==>
                    Times(trip.ids, id) <= 1 && (AlwaysListed(vs, id) ==> Times(trip.ids, id) == 1))
  {
    var vs := MemoryVisits(visits, userId, from, to);
    MemoryVisitsAreHonest(j, visits, userId, from, to);
    ListingCounts(MemoryCursors(j), Desc, vs, id);
    if Unmoved(vs, id, at) { ListingUnderChange(MemoryCursors(j), Desc, vs, id, at); }
  }

  /** Two rows, read one to a page. */
  function TwoRows(first: int, second: int): Matches { map[1 := first, 2 := second] }

  lemma FirstOfTwo(first: int, second: int)
    requires second < first
    ensures PageOf(Desc, Keys(TwoRows(first, second)), None, 1).next == Some(Key(first, 1))
  {
    var s := Keys(TwoRows(first, second));
    PageIsCut(Desc, s, None, 1);
    assert Key(first, 1) in Past(Desc, s, None) && Key(second, 2) in Past(Desc, s, None);
  }

  /** The first row, already read, now lies behind the second. */
  lemma SecondOfTwo(first: int, second: int, moved: int)
    requires moved < second < first
    ensures PageOf(Desc, Keys(TwoRows(moved, second)), Some(Key(first, 1)), 1).next == Some(Key(second, 2))
    ensures PageOf(Desc, Keys(TwoRows(moved, second)), Some(Key(second, 2)), 1).next.None?
  {
    var s := Keys(TwoRows(moved, second));
    PageIsCut(Desc, s, Some(Key(first, 1)), 1);
    assert Key(second, 2) in Past(Desc, s, Some(Key(first, 1))) && Key(moved, 1) in Past(Desc, s, Some(Key(first, 1)));
    assert Past(Desc, s, Some(Key(second, 2))) == {Key(moved, 1)};
    OneRowIsLast(s, Some(Key(second, 2)), Key(moved, 1));
  }

  lemma OneRowIsLast(s: set<Key>, cursor: Option<Key>, k: Key)
    requires Past(Desc, s, cursor) == {k}
    ensures PageOf(Desc, s, cursor, 1).next.None?
  {
    var found := OrderBy(Desc, Past(Desc, s, cursor));
    if |found| > 1 { TwoDiffer(Desc, found); }
  }

  lemma TwoDiffer(d: Direction, ks: seq<Key>)
    requires Listed(d, ks) && |ks| > 1
    ensures ks[0] in ks && ks[1] in ks && ks[0] != ks[1]
  {
    assert Before(d, ks[0], ks[1]);
  }

  /** The visits of a walk during which the first row moves behind the second. */
  function MovedVisits(first: int, second: int, moved: int): seq<Visit> {
    [Visit(TwoRows(first, second), 1), Visit(TwoRows(moved, second), 1), Visit(TwoRows(moved, second), 1)]
  }

  /** One fetch of a walk that goes on. */
  lemma NextVisit(d: Direction, visits: seq<Visit>, cursor: Option<Key>, next: Key, id: Id)
    requires |visits| >= 2 && PageOf(d, Keys(visits[0].matches), cursor, visits[0].limit).next == Some(next)
    ensures Completed(d, Fetched(visits), cursor) <==> Completed(d, Fetched(visits[1..]), Some(next))
    ensures Entries(d, visits, cursor, id) == Entries(d, visits[1..], Some(next), id)
            + (if !Ahead(d, visits[0].matches, Some(next), id) && Ahead(d, visits[1].matches, Some(next), id) then 1 else 0)
    ensures Exits(d, visits, cursor, id) == Exits(d, visits[1..], Some(next), id)
            + (if Ahead(d, visits[0].matches, Some(next), id) && !Ahead(d, visits[1].matches, Some(next), id) then 1 else 0)
  {
    assert Fetched(visits)[1..] == Fetched(visits[1..]);
  }

  /** The last fetch. */
  lemma LastVisit(d: Direction, visits: seq<Visit>, cursor: Option<Key>, id: Id)
    requires |visits| == 1 && PageOf(d, Keys(visits[0].matches), cursor, visits[0].limit).next.None?
    ensures Completed(d, Fetched(visits), cursor) && Entries(d, visits, cursor, id) == 0 && Exits(d, visits, cursor, id) == 0
  {
  }

  lemma MovedReturns(first: int, second: int, moved: int)
    requires moved < second < first
    ensures var vs := MovedVisits(first, second, moved);
            Completed(Desc, Fetched(vs), None) && Entries(Desc, vs, None, 1) == 1 && Exits(Desc, vs, None, 1) == 0
  {
    var vs := MovedVisits(first, second, moved);
    FirstOfTwo(first, second);
    SecondOfTwo(first, second, moved);
    NextVisit(Desc, vs, None, Key(first, 1), 1);
    NextVisit(Desc, vs[1..], Some(Key(first, 1)), Key(second, 2), 1);
    LastVisit(Desc, vs[1..][1..], Some(Key(second, 2)), 1);
  }

  lemma ReturnedIsListedTwice(c: Cursors, visits: seq<Visit>, id: Id)
    requires AllHonest(c, visits) && Completed(Desc, Fetched(visits), None) && id in visits[0].matches
    requires Entries(Desc, visits, None, id) == 1 && Exits(Desc, visits, None, id) == 0
    ensures var trip := Follow(c, Desc, visits, None); trip.Ok? && trip.value.done && Times(trip.value.ids, id) == 2
  {
    FollowIsWalk(c, Desc, visits, None, None);
    WalkCounts(Desc, visits, None, id);
  }

  lemma MovedIsListedTwice(c: Cursors, visits: seq<Visit>, first: int, second: int, moved: int)
    requires moved < second < first && visits == MovedVisits(first, second, moved) && AllHonest(c, visits)
    ensures var trip := Follow(c, Desc, visits, None);
            AlwaysListed(visits, 1) && trip.Ok? && trip.value.done && Times(trip.value.ids, 1) == 2
  {
    MovedReturns(first, second, moved);
    ReturnedIsListedTwice(c, visits, 1);
  }

  const ANY_DATE: Memory.Patch := Memory.Patch(None, None, None, None, None, None, None)

  /** Two live memories of one user with different texts. */
  ghost predicate TwoMemories(s: Memory.Store, userId: Id, first: Day, second: Day) {
    && s.rows.Keys == {1, 2} && Memory.Live(s.rows, 1, userId) && Memory.Live(s.rows, 2, userId)
    && s.rows[1].id == 1 && s.rows[1].contentHash != s.rows[2].contentHash
    && s.rows[1].eventDate == first && s.rows[2].eventDate == second
  }

  lemma MatchesOfTwo(rows: map<Id, Memory.Row>, userId: Id)
    requires rows.Keys == {1, 2} && Memory.Live(rows, 1, userId) && Memory.Live(rows, 2, userId)
    ensures MemoryMatches(rows, userId, None, None) == TwoRows(DateNumber(rows[1].eventDate), DateNumber(rows[2].eventDate))
  {
  }

  /** `update_memory` with a date. */
  lemma DateIsMoved(env: Memory.Env, s: Memory.Store, userId: Id, first: Day, second: Day, moved: Day, o: Memory.Outcome)
    requires TwoMemories(s, userId, first, second)
    ensures TwoMemories(Memory.Effect(env, s, Memory.Update(userId, 1, ANY_DATE.(eventDate := Some(moved)), o)),
                        userId, moved, second)
  {
    var p := ANY_DATE.(eventDate := Some(moved));
    var row := Memory.Patched(env, s.rows[1], p);
    assert Memory.PatchError(env, s.rows[1], p).None?;
    forall other | other != row.id ensures !Memory.Holds(s.rows, other, row.userId, row.contentHash) {
      assert other in s.rows ==> other in s.rows.Keys;
    }
  }

  /** A memory that was read and then given an earlier date is listed again, although it was
      there all the time: whatever the remote index does, for any three dates. */
  lemma EditedMemoryIsListedTwice(j: Codec.Json, env: Memory.Env, s: Memory.Store, userId: Id,
                                  first: Day, second: Day, moved: Day, o: Memory.Outcome)
    requires Codec.FaithfulJson(j) && TwoMemories(s, userId, first, second) && Earlier(moved, second) && Earlier(second, first)
    ensures var t := Memory.Effect(env, s, Memory.Update(userId, 1, ANY_DATE.(eventDate := Some(moved)), o));
            var vs := MemoryVisits([MemoryVisit(s.rows, 1), MemoryVisit(t.rows, 1), MemoryVisit(t.rows, 1)], userId, None, None);
            var trip := Follow(MemoryCursors(j), Desc, vs, None);
            AlwaysListed(vs, 1) && trip.Ok? && trip.value.done && Times(trip.value.ids, 1) == 2
  {
    var t := Memory.Effect(env, s, Memory.Update(userId, 1, ANY_DATE.(eventDate := Some(moved)), o));
    var visits := [MemoryVisit(s.rows, 1), MemoryVisit(t.rows, 1), MemoryVisit(t.rows, 1)];
    DateIsMoved(env, s, userId, first, second, moved, o);
    VisitsOfMoved(s.rows, t.rows, userId);
    NumbersOrderDays(moved, second);
    NumbersOrderDays(second, first);
    MemoryVisitsAreHonest(j, visits, userId, None, None);
    MovedIsListedTwice(MemoryCursors(j), MemoryVisits(visits, userId, None, None),
                       DateNumber(first), DateNumber(second), DateNumber(moved));
  }

  lemma VisitsOfMoved(before: map<Id, Memory.Row>, after: map<Id, Memory.Row>, userId: Id)
    requires before.Keys == {1, 2} && Memory.Live(before, 1, userId) && Memory.Live(before, 2, userId)
    requires after.Keys == {1, 2} && Memory.Live(after, 1, userId) && Memory.Live(after, 2, userId)
    requires after[2].eventDate == before[2].eventDate
    ensures MemoryVisits([MemoryVisit(before, 1), MemoryVisit(after, 1), MemoryVisit(after, 1)], userId, None, None)
         == MovedVisits(DateNumber(before[1].eventDate), DateNumber(before[2].eventDate), DateNumber(after[1].eventDate))
  {
    MatchesOfTwo(before, userId);
    MatchesOfTwo(after, userId);
  }

  // ----------------------------------------------------- sessions and messages

  /** `isoformat` and `fromisoformat` of a timestamp. */
  datatype Stamps = Stamps(format: int -> string, parse: string -> Option<int>)

  /** The timestamps that a list holds are read back as they were written. */
  ghost predicate FaithfulStamps(st: Stamps, v: Matches) {
    forall id :: id in v ==> st.parse(st.format(v[id])) == Some(v[id])
  }

  ghost predicate AllFaithful(st: Stamps, visits: seq<Visit>) {
    forall i :: 0 <= i < |visits| ==> FaithfulStamps(st, visits[i].matches)
  }

  /** The cursor of the session and message lists: every defect is the same error. */
  function StampCursors(j: Codec.Json, st: Stamps): Cursors {
    Cursors((k: Key) => EncodeStamp(j, st, k), text => DecodeStamp(j, st, text))
  }

  function EncodeStamp(j: Codec.Json, st: Stamps, k: Key): string {
    Codec.StripPadding(Codec.Encode64(j.dumps(Codec.CURSOR_VERSION, st.format(k.at), Codec.UuidText(k.id))))
  }

  function DecodeStamp(j: Codec.Json, st: Stamps, text: string): Result<Key, Codec.CursorError> {
    match Codec.UrlsafeDecode(Codec.Repad(text))
    case None => Err(Codec.Malformed)
    case Some(raw) =>
      match j.loads(raw)
      case Some(Object(Some(version), Some(ts), Some(rid))) =>
        if version != Codec.CURSOR_VERSION then Err(Codec.Malformed)
        else
          (match (st.parse(ts), Codec.UuidFromText(rid))
           case (Some(at), Some(id)) => Ok(Key(at, id))
           case _ => Err(Codec.Malformed))
      case _ => Err(Codec.Malformed)
  }

  lemma StampRoundTrip(j: Codec.Json, st: Stamps, k: Key)
    requires Codec.FaithfulJson(j) && st.parse(st.format(k.at)) == Some(k.at)
    ensures DecodeStamp(j, st, EncodeStamp(j, st, k)) == Ok(k)
  {
    Codec.UrlsafeRoundTrip(j.dumps(Codec.CURSOR_VERSION, st.format(k.at), Codec.UuidText(k.id)));
    Codec.UuidRoundTrip(k.id);
  }

  /** Of the cursors made as ours are, exactly those of this version whose time and id can be
      read are taken, for what they say. */
  lemma StampCursorsAreTakenExactly(j: Codec.Json, st: Stamps, version: int, ts: string, id: string)
    requires Codec.FaithfulJson(j)
    ensures DecodeStamp(j, st, Codec.CursorOf(j, version, ts, id)) ==
              if version != 1 || st.parse(ts).None? || Codec.UuidFromText(id).None? then Err(Codec.Malformed)
              else Ok(Key(st.parse(ts).value, Codec.UuidFromText(id).value))
  {
    Codec.UrlsafeRoundTrip(j.dumps(version, ts, id));
  }

  lemma StampCursorsAreHonest(j: Codec.Json, st: Stamps, v: Matches)
    requires Codec.FaithfulJson(j) && FaithfulStamps(st, v)
    ensures Honest(StampCursors(j, st), v)
  {
    forall k | k in Keys(v) ensures StampCursors(j, st).decode(StampCursors(j, st).encode(k)) == Ok(k) {
      StampRoundTrip(j, st, k);
    }
  }

  function SessionMatches(s: Store.Store, userId: Id): Matches {
    map id | id in s.sessions && Store.SessionVisible(s, userId, id) :: s.sessions[id].lastMessageAt
  }

  function ListSessions(c: Cursors, s: Store.Store, userId: Id, cursor: Option<string>, limit: int):
    (r: Result<Listing, Codec.CursorError>)
    ensures r.Err? <==> cursor.Some? && c.decode(cursor.value).Err?
    ensures r.Ok? ==> FirstRows(c, Desc, SessionMatches(s, userId), StartsAfter(c, cursor), limit, r.value)
  {
    ShownIsFirstRows(c, Desc, SessionMatches(s, userId), StartsAfter(c, cursor), limit);
    List(c, Desc, SessionMatches(s, userId), cursor, limit)
  }

  function MessageMatches(s: Store.Store, sessionId: Id): Matches {
    map id | id in s.messages && s.messages[id].sessionId == sessionId && !s.messages[id].deleted :: s.messages[id].createdAt
  }

  function ListSessionMessages(c: Cursors, s: Store.Store, sessionId: Id, d: Direction, cursor: Option<string>, limit: int):
    (r: Result<Listing, Codec.CursorError>)
    ensures r.Err? <==> cursor.Some? && c.decode(cursor.value).Err?
    ensures r.Ok? ==> FirstRows(c, d, MessageMatches(s, sessionId), StartsAfter(c, cursor), limit, r.value)
  {
    ShownIsFirstRows(c, d, MessageMatches(s, sessionId), StartsAfter(c, cursor), limit);
    List(c, d, MessageMatches(s, sessionId), cursor, limit)
  }

  /** What happens between two fetches, and the page size of the second. */
  datatype Leg = Leg(actions: seq<Turns.Action>, limit: int)

  /** The visits of a client that reads a session while chat turns and deletes go on. */
  ghost function MessageVisits(s: Turns.State, sessionId: Id, legs: seq<Leg>): (r: seq<Visit>)
    requires |s.phases| == |s.requests|
    ensures |r| == |legs|
    decreases |legs|
  {
    if legs == [] then []
    else
      var t := Turns.Execute(s, legs[0].actions);
      [Visit(MessageMatches(t.store, sessionId), legs[0].limit)] + MessageVisits(t, sessionId, legs[1..])
  }

  /** A message that is in `m` keeps its place in the visits; one that is gone stays gone. */
  ghost predicate Settling(m: Store.Message, id: Id, sessionId: Id, visits: seq<Visit>) {
    && Unmoved(visits, id, m.createdAt)
    && (m.deleted || m.sessionId != sessionId ==> forall i :: 0 <= i < |visits| ==> id !in visits[i].matches)
    && (forall i, j :: 0 <= i < j < |visits| && id in visits[j].matches ==> id in visits[i].matches)
  }

  lemma {:induction false} MessagesSettle(s: Turns.State, sessionId: Id, legs: seq<Leg>, id: Id)
    requires Turns.Inv(s) && id in s.store.messages
    ensures Settling(s.store.messages[id], id, sessionId, MessageVisits(s, sessionId, legs))
    decreases |legs|
  {
    if legs != [] {
      var t := Turns.Execute(s, legs[0].actions);
      Turns.RunKeepsInv(s, legs[0].actions);
      MessagesSettle(t, sessionId, legs[1..], id);
      var first, rest := Visit(MessageMatches(t.store, sessionId), legs[0].limit), MessageVisits(t, sessionId, legs[1..]);
      SettlingStep(s.store.messages[id], t.store.messages[id], id, sessionId, first, rest);
    }
  }

  lemma SettlingStep(m: Store.Message, n: Store.Message, id: Id, sessionId: Id, first: Visit, rest: seq<Visit>)
    requires n.createdAt == m.createdAt && n.sessionId == m.sessionId && (m.deleted ==> n.deleted)
    requires id in first.matches <==> n.sessionId == sessionId && !n.deleted
    requires id in first.matches ==> first.matches[id] == n.createdAt
    requires Settling(n, id, sessionId, rest)
    ensures Settling(m, id, sessionId, [first] + rest)
  {
    var all := [first] + rest;
    assert forall i :: 1 <= i < |all| ==> all[i] == rest[i - 1];
  }

  /** A message sits at one place for the whole walk, whenever it arrives. */
  lemma {:induction false} MessagesDoNotMove(s: Turns.State, sessionId: Id, legs: seq<Leg>, id: Id) returns (at: int)
    requires Turns.Inv(s)
    ensures Unmoved(MessageVisits(s, sessionId, legs), id, at)
    decreases |legs|
  {
    if id in s.store.messages {
      MessagesSettle(s, sessionId, legs, id);
      at := s.store.messages[id].createdAt;
    } else if legs == [] {
      at := 0;
    } else {
      var t := Turns.Execute(s, legs[0].actions);
      Turns.RunKeepsInv(s, legs[0].actions);
      at := MessagesDoNotMove(t, sessionId, legs[1..], id);
      if id in t.store.messages {
        at := t.store.messages[id].createdAt;
        MessagesSettle(t, sessionId, legs[1..], id);
      }
      var first, rest := Visit(MessageMatches(t.store, sessionId), legs[0].limit), MessageVisits(t, sessionId, legs[1..]);
      assert forall i :: 1 <= i < |[first] + rest| ==> ([first] + rest)[i] == rest[i - 1];
    }
  }

  /** Once a message was seen and is still there, it was there all the time between. */
  lemma MessagesStayBetween(s: Turns.State, sessionId: Id, legs: seq<Leg>, id: Id)
    requires Turns.Inv(s) && legs != []
    requires var vs := MessageVisits(s, sessionId, legs); id in vs[0].matches && id in vs[|vs| - 1].matches
    ensures AlwaysListed(MessageVisits(s, sessionId, legs), id)
  {
    var t := Turns.Execute(s, legs[0].actions);
    Turns.RunKeepsInv(s, legs[0].actions);
    MessagesSettle(t, sessionId, legs[1..], id);
    var vs, rest := MessageVisits(s, sessionId, legs), MessageVisits(t, sessionId, legs[1..]);
    assert forall i :: 1 <= i < |vs| ==> vs[i] == rest[i - 1];
    forall i | 0 <= i < |vs| ensures id in vs[i].matches {
      if 1 <= i < |vs| - 1 { assert id in rest[|rest| - 1].matches && id in rest[i - 1].matches; }
    }
  }

  lemma StampVisitsAreHonest(j: Codec.Json, st: Stamps, visits: seq<Visit>)
    requires Codec.FaithfulJson(j) && AllFaithful(st, visits)
    ensures AllHonest(StampCursors(j, st), visits)
  {
    forall i | 0 <= i < |visits| ensures Honest(StampCursors(j, st), visits[i].matches) {
      StampCursorsAreHonest(j, st, visits[i].matches);
    }
  }

  /** While chat turns and session deletes interleave with the fetches in any way, a
      finished walk over a session's messages lists no message twice, and lists every
      message that the first fetch could see and that is still live at the last. */
  lemma MessagePages(j: Codec.Json, st: Stamps, d: Direction, s: Turns.State, sessionId: Id, legs: seq<Leg>, id: Id)
    requires Codec.FaithfulJson(j) && Turns.Inv(s) && AllFaithful(st, MessageVisits(s, sessionId, legs))
    ensures Follow(StampCursors(j, st), d, MessageVisits(s, sessionId, legs), None).Ok?
    ensures var vs := MessageVisits(s, sessionId, legs);
            var trip := Follow(StampCursors(j, st), d, vs, None).value;
            trip.done ==>
              && vs != [] && Times(trip.ids, id) <= 1
              && (id in vs[0].matches && id in vs[|vs| - 1].matches ==> Times(trip.ids, id) == 1)
  {
    var vs := MessageVisits(s, sessionId, legs);
    var at := MessagesDoNotMove(s, sessionId, legs, id);
    StampVisitsAreHonest(j, st, vs);
    ListingUnderChange(StampCursors(j, st), d, vs, id, at);
    if legs != [] && id in vs[0].matches && id in vs[|vs| - 1].matches {
      MessagesStayBetween(s, sessionId, legs, id);
    }
  }

  // ------------------------------------------------- sessions move when they are used

  /** The row only ever moves to a later time. */
  ghost predicate Rising(visits: seq<Visit>, id: Id) {
    forall i, j :: 0 <= i < j < |visits| && id in visits[i].matches && id in visits[j].matches ==>
      visits[i].matches[id] <= visits[j].matches[id]
  }

  lemma RisingRest(visits: seq<Visit>, id: Id)
    requires visits != [] && Rising(visits, id)
    ensures Rising(visits[1..], id) && Fetched(visits)[1..] == Fetched(visits[1..])
    ensures AlwaysListed(visits, id) ==> AlwaysListed(visits[1..], id)
  {
    assert forall i :: 0 <= i < |visits[1..]| ==> visits[1..][i] == visits[i + 1];
  }

  /** A key that a later visit lists is not earlier than the row's place at the first. */
  lemma ListedLater(visits: seq<Visit>, x: Key)
    requires visits != [] && Rising(visits, x.id) && x.id in visits[0].matches && LiveOnce(Fetched(visits)[1..], x)
    ensures visits[0].matches[x.id] <= x.at
  {
    var rest := Fetched(visits)[1..];
    var i :| 0 <= i < |rest| && x in rest[i].live;
    assert x.id in visits[i + 1].matches && visits[i + 1].matches[x.id] == x.at;
  }

  /** What lies past the cursor does not come back to a row that lies before it. */
  lemma NotListedAgain(visits: seq<Visit>, next: Key, id: Id)
    requires visits != [] && Rising(visits, id) && id in visits[0].matches
    requires !Before(Desc, next, Key(visits[0].matches[id], id))
    ensures forall x :: x in Walk(Desc, Fetched(visits[1..]), Some(next)) ==> x.id != id
  {
    var listed := Walk(Desc, Fetched(visits[1..]), Some(next));
    WalkIsOrdered(Desc, Fetched(visits[1..]), Some(next));
    assert Fetched(visits)[1..] == Fetched(visits[1..]);
    forall x | x in listed ensures x.id != id {
      var i :| 0 <= i < |listed| && listed[i] == x;
      assert Before(Desc, next, listed[i]);
      WalkInventsNothing(Desc, Fetched(visits[1..]), Some(next), x);
      if x.id == id { ListedLater(visits, x); }
    }
  }

  /** Between two fetches the row jumps from behind the cursor to before it. */
  predicate Jumps(visits: seq<Visit>, cursor: Option<Key>, id: Id)
    decreases |visits|
  {
    |visits| >= 2 &&
    var next := PageOf(Desc, Keys(visits[0].matches), cursor, visits[0].limit).next;
    next.Some? &&
    ((id in visits[0].matches && id in visits[1].matches
      && Before(Desc, next.value, Key(visits[0].matches[id], id))
      && !Before(Desc, next.value, Key(visits[1].matches[id], id)))
     || Jumps(visits[1..], next, id))
  }

  /** A row that is not past the cursor stays there, so it does not jump either. */
  lemma {:induction false} NoJumpBehind(visits: seq<Visit>, cursor: Key, id: Id)
    requires visits != [] && Rising(visits, id) && AlwaysListed(visits, id)
    requires !Before(Desc, cursor, Key(visits[0].matches[id], id))
    ensures !Jumps(visits, Some(cursor), id)
    decreases |visits|
  {
    var v := visits[0];
    var page := PageOf(Desc, Keys(v.matches), Some(cursor), v.limit);
    PageIsCut(Desc, Keys(v.matches), Some(cursor), v.limit);
    if |visits| >= 2 && page.next.Some? {
      RisingRest(visits, id);
      assert Before(Desc, cursor, page.next.value);
      assert v.matches[id] <= visits[1].matches[id];
      NoJumpBehind(visits[1..], page.next.value, id);
    }
  }

  lemma {:induction false} RisingOnce(visits: seq<Visit>, cursor: Option<Key>, id: Id)
    requires Rising(visits, id)
    ensures Times(Ids(Walk(Desc, Fetched(visits), cursor)), id) <= 1
    decreases |visits|
  {
    if visits != [] {
      var v := visits[0];
      var page := PageOf(Desc, Keys(v.matches), cursor, v.limit);
      RestOfWalk(Desc, visits, cursor, id);
      OnOnePage(Desc, v.matches, cursor, v.limit, id);
      RisingRest(visits, id);
      if page.next.Some? {
        RisingOnce(visits[1..], page.next, id);
        if id in v.matches && Key(v.matches[id], id) in page.rows {
          InPageIsBeforeNext(Desc, v.matches, cursor, v.limit, Key(v.matches[id], id));
          NotListedAgain(visits, page.next.value, id);
          TimesOfAbsent(Walk(Desc, Fetched(visits[1..]), page.next), id);
        }
      }
    }
  }

  lemma {:induction false} ListedUnlessItJumps(visits: seq<Visit>, cursor: Option<Key>, id: Id)
    requires Rising(visits, id) && AlwaysListed(visits, id) && Completed(Desc, Fetched(visits), cursor)
    requires cursor.Some? ==> Before(Desc, cursor.value, Key(visits[0].matches[id], id))
    ensures Times(Ids(Walk(Desc, Fetched(visits), cursor)), id) == if Jumps(visits, cursor, id) then 0 else 1
    decreases |visits|
  {
    var v := visits[0];
    var k := Key(v.matches[id], id);
    var page := PageOf(Desc, Keys(v.matches), cursor, v.limit);
    PageIsCut(Desc, Keys(v.matches), cursor, v.limit);
    RestOfWalk(Desc, visits, cursor, id);
    OnOnePage(Desc, v.matches, cursor, v.limit, id);
    RisingRest(visits, id);
    assert k in Past(Desc, Keys(v.matches), cursor);
    if page.next.Some? {
      var next := page.next.value;
      if k in page.rows {
        InPageIsBeforeNext(Desc, v.matches, cursor, v.limit, k);
        NotListedAgain(visits, next, id);
        TimesOfAbsent(Walk(Desc, Fetched(visits[1..]), page.next), id);
        if |visits| >= 2 { NoJumpBehind(visits[1..], next, id); }
      } else if Before(Desc, next, Key(visits[1].matches[id], id)) {
        ListedUnlessItJumps(visits[1..], page.next, id);
      } else {
        OvertakenIsMissed(visits[1..], next, id);
      }
    }
  }

  lemma OvertakenIsMissed(visits: seq<Visit>, cursor: Key, id: Id)
    requires visits != [] && Rising(visits, id) && AlwaysListed(visits, id)
    requires !Before(Desc, cursor, Key(visits[0].matches[id], id))
    ensures Times(Ids(Walk(Desc, Fetched(visits), Some(cursor))), id) == 0
  {
    var still := [visits[0]] + visits;
    assert forall i :: 1 <= i < |still| ==> still[i] == visits[i - 1];
    assert still[1..] == visits;
    NotListedAgain(still, cursor, id);
    TimesOfAbsent(Walk(Desc, Fetched(visits), Some(cursor)), id);
  }

  /** A walk lists no rising row twice; one that always matched is listed exactly when it
      never jumped over the cursor. */
  lemma RisingPages(c: Cursors, visits: seq<Visit>, id: Id)
    requires AllHonest(c, visits) && Rising(visits, id)
    ensures Follow(c, Desc, visits, None).Ok?
    ensures var trip := Follow(c, Desc, visits, None).value;
            trip.done == Completed(Desc, Fetched(visits), None) && Times(trip.ids, id) <= 1 &&
            (trip.done && AlwaysListed(visits, id) ==> (Times(trip.ids, id) == 1 <==> !Jumps(visits, None, id)))
  {
    FollowIsWalk(c, Desc, visits, None, None);
    RisingOnce(visits, None, id);
    if AlwaysListed(visits, id) && Completed(Desc, Fetched(visits), None) { ListedUnlessItJumps(visits, None, id); }
  }

  // ------------------------------------------------- the clock of a run

  /** The time at which an action writes, if it writes. */
  function TimeOf(a: Turns.Action, before: int): int {
    if a.RecordUser? then a.now else if a.Complete? then a.now else if a.CreateSession? then a.now else before
  }

  function ClockAfter(actions: seq<Turns.Action>, start: int): int {
    if actions == [] then start else TimeOf(actions[|actions| - 1], ClockAfter(actions[..|actions| - 1], start))
  }

  /** The clock that the actions read does not go back. */
  predicate InTime(actions: seq<Turns.Action>, start: int) {
    actions == [] ||
    (InTime(actions[..|actions| - 1], start) && ClockAfter(actions[..|actions| - 1], start) <= ClockAfter(actions, start))
  }

  predicate LegsInTime(legs: seq<Leg>, start: int)
    decreases |legs|
  {
    legs == [] || (InTime(legs[0].actions, start) && LegsInTime(legs[1..], ClockAfter(legs[0].actions, start)))
  }

  /** No session was last used after the clock. */
  ghost predicate NotAhead(s: Store.Store, clock: int) {
    forall id :: id in s.sessions ==> s.sessions[id].lastMessageAt <= clock
  }

  /** Sessions stay, and are never used earlier than before. */
  ghost predicate SessionsRise(s: Store.Store, t: Store.Store) {
    forall id :: id in s.sessions ==> id in t.sessions && s.sessions[id].lastMessageAt <= t.sessions[id].lastMessageAt
  }

  lemma SessionStep(s: Turns.State, a: Turns.Action, clock: int)
    requires |s.phases| == |s.requests| && NotAhead(s.store, clock) && clock <= TimeOf(a, clock)
    ensures NotAhead(Turns.Step(s, a).store, TimeOf(a, clock)) && SessionsRise(s.store, Turns.Step(s, a).store)
  {
  }

  lemma {:induction false} SessionsRun(s: Turns.State, actions: seq<Turns.Action>, start: int)
    requires |s.phases| == |s.requests| && NotAhead(s.store, start) && InTime(actions, start)
    ensures var t := Turns.Execute(s, actions);
            NotAhead(t.store, ClockAfter(actions, start)) && SessionsRise(s.store, t.store)
    decreases |actions|
  {
    if actions != [] {
      var init, last := actions[..|actions| - 1], actions[|actions| - 1];
      SessionsRun(s, init, start);
      SessionStep(Turns.Execute(s, init), last, ClockAfter(init, start));
    }
  }

  /** The visits of a client that reads the session list while chat turns and deletes go on. */
  ghost function SessionVisits(s: Turns.State, userId: Id, legs: seq<Leg>): (r: seq<Visit>)
    requires |s.phases| == |s.requests|
    ensures |r| == |legs|
    decreases |legs|
  {
    if legs == [] then []
    else
      var t := Turns.Execute(s, legs[0].actions);
      [Visit(SessionMatches(t.store, userId), legs[0].limit)] + SessionVisits(t, userId, legs[1..])
  }

  /** A row rises through the visits, from a time on. */
  ghost predicate RisingFrom(visits: seq<Visit>, id: Id, at: int) {
    Rising(visits, id) && forall i :: 0 <= i < |visits| && id in visits[i].matches ==> at <= visits[i].matches[id]
  }

  lemma RisingInFront(first: Visit, rest: seq<Visit>, id: Id, at: int, later: int)
    requires RisingFrom(rest, id, later) && at <= later
    requires id in first.matches ==> first.matches[id] == later
    ensures RisingFrom([first] + rest, id, at)
  {
    var all := [first] + rest;
    assert forall i :: 1 <= i < |all| ==> all[i] == rest[i - 1];
  }

  lemma RisingUnseen(first: Visit, rest: seq<Visit>, id: Id)
    requires Rising(rest, id) && id !in first.matches
    ensures Rising([first] + rest, id)
  {
    var all := [first] + rest;
    assert forall i :: 1 <= i < |all| ==> all[i] == rest[i - 1];
  }

  /** Every session rises through the visits, whenever it is created. */
  lemma {:induction false} SessionsAreRising(s: Turns.State, userId: Id, legs: seq<Leg>, start: int, id: Id)
    requires |s.phases| == |s.requests| && NotAhead(s.store, start) && LegsInTime(legs, start)
    ensures Rising(SessionVisits(s, userId, legs), id)
    ensures id in s.store.sessions ==> RisingFrom(SessionVisits(s, userId, legs), id, s.store.sessions[id].lastMessageAt)
    decreases |legs|
  {
    if legs != [] {
      var t := Turns.Execute(s, legs[0].actions);
      var first, rest := Visit(SessionMatches(t.store, userId), legs[0].limit), SessionVisits(t, userId, legs[1..]);
      SessionsRun(s, legs[0].actions, start);
      SessionsAreRising(t, userId, legs[1..], ClockAfter(legs[0].actions, start), id);
      if id in t.store.sessions {
        var later := t.store.sessions[id].lastMessageAt;
        RisingInFront(first, rest, id, if id in s.store.sessions then s.store.sessions[id].lastMessageAt else later, later);
      } else {
        RisingUnseen(first, rest, id);
      }
    }
  }

  /** The session list moves a session to the front when it is used. While sessions are created,
      used and deleted between the fetches in any way, and the clock does not go back, a walk
      lists no session twice, and a session that was visible throughout is listed exactly
      when no use carried it over the cursor between two fetches. */
  lemma SessionPages(j: Codec.Json, st: Stamps, s: Turns.State, userId: Id, legs: seq<Leg>, start: int, id: Id)
    requires Codec.FaithfulJson(j)
    requires |s.phases| == |s.requests| && NotAhead(s.store, start) && LegsInTime(legs, start)
    requires AllFaithful(st, SessionVisits(s, userId, legs))
    ensures Follow(StampCursors(j, st), Desc, SessionVisits(s, userId, legs), None).Ok?
    ensures var vs := SessionVisits(s, userId, legs);
            var trip := Follow(StampCursors(j, st), Desc, vs, None).value;
            Times(trip.ids, id) <= 1 &&
            (trip.done && AlwaysListed(vs, id) ==> (Times(trip.ids, id) == 1 <==> !Jumps(vs, None, id)))
  {
    var vs := SessionVisits(s, userId, legs);
    SessionsAreRising(s, userId, legs, start, id);
    StampVisitsAreHonest(j, st, vs);
    RisingPages(StampCursors(j, st), vs, id);
  }

  lemma SecondPage()
    ensures PageOf(Desc, Keys(TwoRows(30, 40)), Some(Key(30, 1)), 1).next.None?
  {
    assert Past(Desc, Keys(TwoRows(30, 40)), Some(Key(30, 1))) == {};
  }

  lemma JumpsInTwo(a: Visit, b: Visit, next: Key, id: Id)
    requires PageOf(Desc, Keys(a.matches), None, a.limit).next == Some(next)
    requires id in a.matches && id in b.matches
    requires Before(Desc, next, Key(a.matches[id], id)) && !Before(Desc, next, Key(b.matches[id], id))
    ensures Jumps([a, b], None, id)
  {
  }

  lemma DoneInTwo(a: Visit, b: Visit, next: Key)
    requires PageOf(Desc, Keys(a.matches), None, a.limit).next == Some(next)
    requires PageOf(Desc, Keys(b.matches), Some(next), b.limit).next.None?
    ensures Completed(Desc, Fetched([a, b]), None)
  {
    assert Fetched([a, b])[1..] == [Fetch(Keys(b.matches), b.limit)];
  }

  /** A user with two sessions, and a request that is about to use the second. */
  function TwoSessions(userId: Id, text: string): Turns.State {
    Turns.State(Store.Store(map[1 := Store.Session(userId, None, 30, false), 2 := Store.Session(userId, None, 20, false)], map[]),
                [Turns.Request(userId, 2, 3, text, None)], [Turns.SessionFound], {})
  }

  const FIRST_PAGE: Visit := Visit(TwoRows(30, 20), 1)

  const SECOND_PAGE: Visit := Visit(TwoRows(30, 40), 1)

  /** The second session is used between two fetches. */
  function UsedBetween(): seq<Leg> { [Leg([], 1), Leg([Turns.RecordUser(0, 40)], 1)] }

  lemma VisitsOfTwo(userId: Id, text: string)
    ensures SessionVisits(TwoSessions(userId, text), userId, UsedBetween()) == [FIRST_PAGE, SECOND_PAGE]
  {
    var s, legs := TwoSessions(userId, text), UsedBetween();
    var t := Turns.Step(s, Turns.RecordUser(0, 40));
    OneAction(s, Turns.RecordUser(0, 40));
    assert SessionMatches(s.store, userId) == TwoRows(30, 20);
    assert SessionMatches(t.store, userId) == TwoRows(30, 40);
    assert legs[1..] == [legs[1]] && legs[1..][1..] == [];
    assert SessionVisits(t, userId, []) == [];
    assert SessionVisits(s, userId, legs[1..]) == [SECOND_PAGE];
  }

  lemma SecondJumps(visits: seq<Visit>)
    requires visits == [FIRST_PAGE, SECOND_PAGE]
    ensures Rising(visits, 2) && AlwaysListed(visits, 2) && Jumps(visits, None, 2) && Completed(Desc, Fetched(visits), None)
  {
    FirstOfTwo(30, 20);
    SecondPage();
    JumpsInTwo(FIRST_PAGE, SECOND_PAGE, Key(30, 1), 2);
    DoneInTwo(FIRST_PAGE, SECOND_PAGE, Key(30, 1));
  }

  /** Such a jump happens: the second session is used after the first page was read, and the
      finished walk does not list it although it was visible throughout. */
  lemma UsedSessionIsMissed(j: Codec.Json, st: Stamps, userId: Id, text: string)
    requires Codec.FaithfulJson(j) && FaithfulStamps(st, TwoRows(30, 20)) && FaithfulStamps(st, TwoRows(30, 40))
    ensures var vs := SessionVisits(TwoSessions(userId, text), userId, UsedBetween());
            var trip := Follow(StampCursors(j, st), Desc, vs, None);
            AlwaysListed(vs, 2) && trip.Ok? && trip.value.done && Times(trip.value.ids, 2) == 0
  {
    var vs := SessionVisits(TwoSessions(userId, text), userId, UsedBetween());
    VisitsOfTwo(userId, text);
    SecondJumps(vs);
    TwoVisitsAreFaithful(st, vs);
    StampVisitsAreHonest(j, st, vs);
    JumperIsMissed(StampCursors(j, st), vs, 2);
  }

  lemma TwoVisitsAreFaithful(st: Stamps, visits: seq<Visit>)
    requires visits == [FIRST_PAGE, SECOND_PAGE]
    requires FaithfulStamps(st, TwoRows(30, 20)) && FaithfulStamps(st, TwoRows(30, 40))
    ensures AllFaithful(st, visits)
  {
  }

  lemma JumperIsMissed(c: Cursors, visits: seq<Visit>, id: Id)
    requires AllHonest(c, visits) && Rising(visits, id) && AlwaysListed(visits, id)
    requires Jumps(visits, None, id) && Completed(Desc, Fetched(visits), None)
    ensures var trip := Follow(c, Desc, visits, None); trip.Ok? && trip.value.done && Times(trip.value.ids, id) == 0
  {
    RisingPages(c, visits, id);
  }

  lemma OneAction(s: Turns.State, a: Turns.Action)
    requires |s.phases| == |s.requests|
    ensures Turns.Execute(s, []) == s && Turns.Execute(s, [a]) == Turns.Step(s, a)
  {
    assert [a][..0] == [];
  }
}
