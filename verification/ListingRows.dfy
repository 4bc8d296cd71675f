/** The three lists said of the table's own rows: which rows a page shows, in which order, and
    which it leaves for later (app/services/memory.py, app/services/sessions.py). */
module ListingRows {
  import opened Calendar
  import opened Prelude
  import opened Keyset
  import opened Listings
  import Codec = CursorCodec
  import Memory = MemoryService
  import Store = ChatStore
  import Turns = IdempotentChat

  // ----------------------------------------------------------------- page sizes

  /** The page size that a caller asked for, brought between 1 and 200. */
  function PageSize(limit: int): int { if limit < 1 then 1 else if limit > 200 then 200 else limit }

  /** A page is no larger than that, and full when another one follows. */
  predicate Sized(page: Listing, limit: int) {
    |page.ids| <= PageSize(limit) && (page.next.Some? ==> |page.ids| == PageSize(limit))
  }

  lemma PagesAreSized(c: Cursors, d: Direction, v: Matches, after: Option<Key>, limit: int, page: Listing)
    requires FirstRows(c, d, v, after, limit, page)
    ensures Sized(page, limit)
  {
  }

  // ------------------------------------------------------------------- memories

  /** A live memory of the user, in the range of dates that was asked for, ends included. */
  predicate Wanted(row: Memory.Row, userId: Id, from: Option<Day>, to: Option<Day>) {
    && row.userId == userId && !row.deleted
    && (from.Some? ==> row.eventDate == from.value || Earlier(from.value, row.eventDate))
    && (to.Some? ==> row.eventDate == to.value || Earlier(row.eventDate, to.value))
  }

  /** The memory is listed after this date and id: it is of an earlier date, or of the same with
      a smaller id. */
  predicate Follows(date: Day, id: Id, place: (Day, Id)) {
    Earlier(date, place.0) || (date == place.0 && id < place.1)
  }

  /** Where a list starts: behind the date and id in its cursor. */
  predicate Starts(j: Codec.Json, cursor: Option<string>, date: Day, id: Id) {
    cursor.Some? && Codec.DecodeCursor(j, cursor.value).Ok? ==> Follows(date, id, Codec.DecodeCursor(j, cursor.value).value)
  }

  /** A memory that is wanted, behind the cursor. */
  predicate Due(j: Codec.Json, rows: map<Id, Memory.Row>, userId: Id, from: Option<Day>, to: Option<Day>,
                cursor: Option<string>, id: Id) {
    id in rows && Wanted(rows[id], userId, from, to) && Starts(j, cursor, rows[id].eventDate, id)
  }

  /** The memory comes after another one. */
  predicate ListedAfter(rows: map<Id, Memory.Row>, a: Id, b: Id) {
    a in rows && b in rows && Follows(rows[b].eventDate, b, (rows[a].eventDate, a))
  }

  /** Exactly the wanted memories behind the cursor, in order, as many as fit. */
  ghost predicate ShowsMemories(j: Codec.Json, rows: map<Id, Memory.Row>, userId: Id, from: Option<Day>, to: Option<Day>,
                                cursor: Option<string>, limit: int, page: Listing) {
    && (forall i :: 0 <= i < |page.ids| ==> Due(j, rows, userId, from, to, cursor, page.ids[i]))
    && (forall a, b :: 0 <= a < b < |page.ids| ==> ListedAfter(rows, page.ids[a], page.ids[b]))
    && (forall id :: Due(j, rows, userId, from, to, cursor, id) && id !in page.ids ==>
          page.next.Some? && forall i :: 0 <= i < |page.ids| ==> ListedAfter(rows, page.ids[i], id))
    && Sized(page, limit)
  }

  lemma DaysAreOrdered(a: Day, b: Day)
    ensures a == b || Earlier(a, b) <==> !Earlier(b, a)
  {
  }

  lemma MatchesAreWanted(rows: map<Id, Memory.Row>, userId: Id, from: Option<Day>, to: Option<Day>, id: Id)
    ensures var v := MemoryMatches(rows, userId, from, to);
            (id in v <==> id in rows && Wanted(rows[id], userId, from, to)) &&
            (id in v ==> v[id] == DateNumber(rows[id].eventDate))
  {
    if id in rows {
      if from.Some? { DaysAreOrdered(from.value, rows[id].eventDate); }
      if to.Some? { DaysAreOrdered(rows[id].eventDate, to.value); }
    }
  }

  lemma CursorIsPlace(j: Codec.Json, cursor: Option<string>, date: Day, id: Id)
    requires cursor.Some? ==> Codec.DecodeCursor(j, cursor.value).Ok?
    ensures PastStart(Desc, StartsAfter(MemoryCursors(j), cursor), Key(DateNumber(date), id)) <==> Starts(j, cursor, date, id)
  {
    if cursor.Some? {
      var place := Codec.DecodeCursor(j, cursor.value).value;
      KeysOrderDays(place.0, date, place.1, id);
    }
  }

  /** What the list matches and starts from, said of the rows. */
  ghost predicate ReadsRows(j: Codec.Json, rows: map<Id, Memory.Row>, userId: Id, from: Option<Day>, to: Option<Day>,
                            cursor: Option<string>, v: Matches, after: Option<Key>) {
    && (forall id :: id in v && PastStart(Desc, after, Key(v[id], id)) <==> Due(j, rows, userId, from, to, cursor, id))
    && (forall a, b :: a in v && b in v && Before(Desc, Key(v[a], a), Key(v[b], b)) ==> ListedAfter(rows, a, b))
  }

  lemma MemoryListReadsRows(j: Codec.Json, rows: map<Id, Memory.Row>, userId: Id, from: Option<Day>, to: Option<Day>,
                            cursor: Option<string>)
    requires cursor.Some? ==> Codec.DecodeCursor(j, cursor.value).Ok?
    ensures ReadsRows(j, rows, userId, from, to, cursor, MemoryMatches(rows, userId, from, to),
                      StartsAfter(MemoryCursors(j), cursor))
  {
    var v, after := MemoryMatches(rows, userId, from, to), StartsAfter(MemoryCursors(j), cursor);
    forall id ensures id in v && PastStart(Desc, after, Key(v[id], id)) <==> Due(j, rows, userId, from, to, cursor, id) {
      MatchesAreWanted(rows, userId, from, to, id);
      if id in v { CursorIsPlace(j, cursor, rows[id].eventDate, id); }
    }
    forall a, b | a in v && b in v && Before(Desc, Key(v[a], a), Key(v[b], b)) ensures ListedAfter(rows, a, b) {
      MatchesAreWanted(rows, userId, from, to, a);
      MatchesAreWanted(rows, userId, from, to, b);
      KeysOrderDays(rows[a].eventDate, rows[b].eventDate, a, b);
    }
  }

  lemma FirstRowsShow(j: Codec.Json, rows: map<Id, Memory.Row>, userId: Id, from: Option<Day>, to: Option<Day>,
                      cursor: Option<string>, limit: int, c: Cursors, v: Matches, after: Option<Key>, page: Listing)
    requires ReadsRows(j, rows, userId, from, to, cursor, v, after) && FirstRows(c, Desc, v, after, limit, page)
    ensures ShowsMemories(j, rows, userId, from, to, cursor, limit, page)
  {
    PagesAreSized(c, Desc, v, after, limit, page);
    forall id | Due(j, rows, userId, from, to, cursor, id) && id !in page.ids
      ensures page.next.Some? && forall i :: 0 <= i < |page.ids| ==> ListedAfter(rows, page.ids[i], id)
    {
      assert LeftOut(Desc, v, after, page.ids, id);
    }
  }

  /** A page of the memory list shows exactly live memories of the user within the dates, ends
      included, behind the cursor, from the latest date down; one of these that it does not show
      comes after all of it and means a next page. A cursor that cannot be read is an error. */
  lemma MemoriesListed(j: Codec.Json, rows: map<Id, Memory.Row>, userId: Id, from: Option<Day>, to: Option<Day>,
                       cursor: Option<string>, limit: int)
    ensures var r := ListMemories(j, rows, userId, from, to, cursor, limit);
            (r.Err? <==> cursor.Some? && Codec.DecodeCursor(j, cursor.value).Err?) &&
            (r.Ok? ==> ShowsMemories(j, rows, userId, from, to, cursor, limit, r.value))
  {
    var r := ListMemories(j, rows, userId, from, to, cursor, limit);
    if r.Ok? {
      MemoryListReadsRows(j, rows, userId, from, to, cursor);
      FirstRowsShow(j, rows, userId, from, to, cursor, limit, MemoryCursors(j), MemoryMatches(rows, userId, from, to),
                    StartsAfter(MemoryCursors(j), cursor), r.value);
    }
  }

  /** While memories are created, edited and deleted between the fetches, a finished walk lists
      a memory that keeps its date at most once, and exactly once when at every fetch it was a live
      memory of the user within the dates. */
  lemma MemoriesUnderChange(j: Codec.Json, visits: seq<MemoryVisit>, userId: Id, from: Option<Day>, to: Option<Day>,
                            id: Id, date: Day)
    requires Codec.FaithfulJson(j)
    requires forall i :: 0 <= i < |visits| && id in visits[i].rows ==> visits[i].rows[id].eventDate == date
    ensures var r := Follow(MemoryCursors(j), Desc, MemoryVisits(visits, userId, from, to), None);
            r.Ok? &&
            (r.value.done ==>
               && Times(r.value.ids, id) <= 1
               && ((forall i :: 0 <= i < |visits| ==> id in visits[i].rows && Wanted(visits[i].rows[id], userId, from, to)) ==>
                     Times(r.value.ids, id) == 1))
  {
    var vs := MemoryVisits(visits, userId, from, to);
    forall i | 0 <= i < |visits|
      ensures id in vs[i].matches <==> id in visits[i].rows && Wanted(visits[i].rows[id], userId, from, to)
      ensures id in vs[i].matches ==> vs[i].matches[id] == DateNumber(date)
    {
      MatchesAreWanted(visits[i].rows, userId, from, to, id);
    }
    MemoryPages(j, visits, userId, from, to, id, DateNumber(date));
  }

  // ------------------------------------------------------------------- sessions

  /** The session is the user's and not deleted. */
  predicate Own(s: Store.Store, userId: Id, id: Id) {
    id in s.sessions && s.sessions[id].userId == userId && !s.sessions[id].deleted
  }

  /** A time and id that are listed after others: an earlier time, or the same with a smaller id. */
  predicate Older(at: int, id: Id, place: Key) { at < place.at || (at == place.at && id < place.id) }

  /** Exactly the user's sessions behind the cursor, by last activity. */
  ghost predicate ShowsSessions(s: Store.Store, userId: Id, start: Option<Key>, limit: int, page: Listing) {
    && (forall i :: 0 <= i < |page.ids| ==>
          Own(s, userId, page.ids[i]) && SessionPast(s, page.ids[i], start))
    && (forall a, b :: 0 <= a < b < |page.ids| ==> UsedBefore(s, page.ids[b], page.ids[a]))
    && (forall id :: Own(s, userId, id) && SessionPast(s, id, start) && id !in page.ids ==>
          page.next.Some? && forall i :: 0 <= i < |page.ids| ==> UsedBefore(s, id, page.ids[i]))
    && Sized(page, limit)
  }

  predicate SessionPast(s: Store.Store, id: Id, start: Option<Key>) {
    id in s.sessions && (start.Some? ==> Older(s.sessions[id].lastMessageAt, id, start.value))
  }

  predicate UsedBefore(s: Store.Store, a: Id, b: Id) {
    a in s.sessions && b in s.sessions && Older(s.sessions[a].lastMessageAt, a, Key(s.sessions[b].lastMessageAt, b))
  }

  lemma SessionListReadsRows(s: Store.Store, userId: Id, start: Option<Key>, a: Id, b: Id)
    ensures var v := SessionMatches(s, userId);
            (a in v && PastStart(Desc, start, Key(v[a], a)) <==> Own(s, userId, a) && SessionPast(s, a, start)) &&
            (a in v && b in v && Before(Desc, Key(v[a], a), Key(v[b], b)) ==> UsedBefore(s, b, a))
  {
  }

  lemma FirstSessionsShow(c: Cursors, s: Store.Store, userId: Id, start: Option<Key>, limit: int, page: Listing)
    requires FirstRows(c, Desc, SessionMatches(s, userId), start, limit, page)
    ensures ShowsSessions(s, userId, start, limit, page)
  {
    var v := SessionMatches(s, userId);
    PagesAreSized(c, Desc, v, start, limit, page);
    forall i | 0 <= i < |page.ids| ensures Own(s, userId, page.ids[i]) && SessionPast(s, page.ids[i], start) {
      SessionListReadsRows(s, userId, start, page.ids[i], page.ids[i]);
    }
    forall a, b | 0 <= a < b < |page.ids| ensures UsedBefore(s, page.ids[b], page.ids[a]) {
      SessionListReadsRows(s, userId, start, page.ids[a], page.ids[b]);
    }
    forall id | Own(s, userId, id) && SessionPast(s, id, start) && id !in page.ids
      ensures page.next.Some? && forall i :: 0 <= i < |page.ids| ==> UsedBefore(s, id, page.ids[i])
    {
      SessionListReadsRows(s, userId, start, id, id);
      assert LeftOut(Desc, v, start, page.ids, id);
      forall i | 0 <= i < |page.ids| ensures UsedBefore(s, id, page.ids[i]) {
        SessionListReadsRows(s, userId, start, page.ids[i], id);
      }
    }
  }

  /** A page of the session list shows exactly the user's sessions that are not deleted, behind
      the cursor, the last used first; one that it does not show comes after all of it and means
      a next page. */
  lemma SessionsListed(c: Cursors, s: Store.Store, userId: Id, cursor: Option<string>, limit: int)
    ensures var r := ListSessions(c, s, userId, cursor, limit);
            (r.Err? <==> cursor.Some? && c.decode(cursor.value).Err?) &&
            (r.Ok? ==> ShowsSessions(s, userId, StartsAfter(c, cursor), limit, r.value))
  {
    var r := ListSessions(c, s, userId, cursor, limit);
    if r.Ok? { FirstSessionsShow(c, s, userId, StartsAfter(c, cursor), limit, r.value); }
  }

  // ------------------------------------------------------------------- messages

  /** The message is in the session and not deleted. */
  predicate InSession(s: Store.Store, sessionId: Id, id: Id) {
    id in s.messages && s.messages[id].sessionId == sessionId && !s.messages[id].deleted
  }

  /** One message comes after a place, forwards or backwards in time. */
  predicate Beyond(d: Direction, s: Store.Store, id: Id, place: Key) {
    id in s.messages &&
    if d == Asc then s.messages[id].createdAt > place.at || (s.messages[id].createdAt == place.at && id > place.id)
    else Older(s.messages[id].createdAt, id, place)
  }

  predicate BeyondMessage(d: Direction, s: Store.Store, id: Id, other: Id) {
    other in s.messages && Beyond(d, s, id, Key(s.messages[other].createdAt, other))
  }

  /** A message of the session that is not deleted, behind the place. */
  predicate MessageDue(d: Direction, s: Store.Store, sessionId: Id, start: Option<Key>, id: Id) {
    InSession(s, sessionId, id) && (start.Some? ==> Beyond(d, s, id, start.value))
  }

  ghost predicate ShowsMessages(d: Direction, s: Store.Store, sessionId: Id, start: Option<Key>, limit: int, page: Listing) {
    && (forall i :: 0 <= i < |page.ids| ==> MessageDue(d, s, sessionId, start, page.ids[i]))
    && (forall a, b :: 0 <= a < b < |page.ids| ==> BeyondMessage(d, s, page.ids[b], page.ids[a]))
    && (forall id :: MessageDue(d, s, sessionId, start, id) && id !in page.ids ==>
          page.next.Some? && forall i :: 0 <= i < |page.ids| ==> BeyondMessage(d, s, id, page.ids[i]))
    && Sized(page, limit)
  }

  lemma MessageListReadsRows(d: Direction, s: Store.Store, sessionId: Id, start: Option<Key>, a: Id, b: Id)
    ensures var v := MessageMatches(s, sessionId);
            (a in v && PastStart(d, start, Key(v[a], a)) <==> MessageDue(d, s, sessionId, start, a)) &&
            (a in v && b in v && Before(d, Key(v[a], a), Key(v[b], b)) ==> BeyondMessage(d, s, b, a))
  {
  }

  lemma FirstMessagesShow(c: Cursors, d: Direction, s: Store.Store, sessionId: Id, start: Option<Key>, limit: int, page: Listing)
    requires FirstRows(c, d, MessageMatches(s, sessionId), start, limit, page)
    ensures ShowsMessages(d, s, sessionId, start, limit, page)
  {
    var v := MessageMatches(s, sessionId);
    PagesAreSized(c, d, v, start, limit, page);
    forall i | 0 <= i < |page.ids| ensures MessageDue(d, s, sessionId, start, page.ids[i]) {
      MessageListReadsRows(d, s, sessionId, start, page.ids[i], page.ids[i]);
    }
    forall a, b | 0 <= a < b < |page.ids| ensures BeyondMessage(d, s, page.ids[b], page.ids[a]) {
      MessageListReadsRows(d, s, sessionId, start, page.ids[a], page.ids[b]);
    }
    forall id | MessageDue(d, s, sessionId, start, id) && id !in page.ids
      ensures page.next.Some? && forall i :: 0 <= i < |page.ids| ==> BeyondMessage(d, s, id, page.ids[i])
    {
      MessageListReadsRows(d, s, sessionId, start, id, id);
      assert LeftOut(d, v, start, page.ids, id);
      forall i | 0 <= i < |page.ids| ensures BeyondMessage(d, s, id, page.ids[i]) {
        MessageListReadsRows(d, s, sessionId, start, page.ids[i], id);
      }
    }
  }

  /** A page of a session's messages shows exactly its messages that are not deleted, behind the
      cursor, in the direction that was asked for; one that it does not show comes after all of it
      and means a next page. */
  lemma MessagesListed(c: Cursors, s: Store.Store, sessionId: Id, d: Direction, cursor: Option<string>, limit: int)
    ensures var r := ListSessionMessages(c, s, sessionId, d, cursor, limit);
            (r.Err? <==> cursor.Some? && c.decode(cursor.value).Err?) &&
            (r.Ok? ==> ShowsMessages(d, s, sessionId, StartsAfter(c, cursor), limit, r.value))
  {
    var r := ListSessionMessages(c, s, sessionId, d, cursor, limit);
    if r.Ok? { FirstMessagesShow(c, d, s, sessionId, StartsAfter(c, cursor), limit, r.value); }
  }

  // ------------------------------------------------------- walks during chat turns

  /** The state that the i-th fetch reads. */
  ghost function StateAt(s: Turns.State, legs: seq<Leg>, i: nat): (t: Turns.State)
    requires |s.phases| == |s.requests| && i < |legs|
    decreases i
  {
    var t := Turns.Execute(s, legs[0].actions);
    if i == 0 then t else StateAt(t, legs[1..], i - 1)
  }

  lemma {:induction false} MessageVisitAt(s: Turns.State, sessionId: Id, legs: seq<Leg>, i: nat)
    requires |s.phases| == |s.requests| && i < |legs|
    ensures MessageVisits(s, sessionId, legs)[i].matches == MessageMatches(StateAt(s, legs, i).store, sessionId)
    decreases i
  {
    if i > 0 { MessageVisitAt(Turns.Execute(s, legs[0].actions), sessionId, legs[1..], i - 1); }
  }

  lemma {:induction false} SessionVisitAt(s: Turns.State, userId: Id, legs: seq<Leg>, i: nat)
    requires |s.phases| == |s.requests| && i < |legs|
    ensures SessionVisits(s, userId, legs)[i].matches == SessionMatches(StateAt(s, legs, i).store, userId)
    decreases i
  {
    if i > 0 { SessionVisitAt(Turns.Execute(s, legs[0].actions), userId, legs[1..], i - 1); }
  }

  /** The first fetch can see the message in the session, and it is not deleted at the last. */
  ghost predicate SeenThroughout(s: Turns.State, sessionId: Id, legs: seq<Leg>, id: Id)
    requires |s.phases| == |s.requests|
  {
    && legs != [] && InSession(StateAt(s, legs, 0).store, sessionId, id)
    && InSession(StateAt(s, legs, |legs| - 1).store, sessionId, id)
  }

  /** While chat turns and deletes go on between the fetches, a finished walk over a session's
      messages lists none twice, and exactly once each message that the first fetch could see in
      the session and that is not deleted at the last. */
  lemma MessagesUnderChange(j: Codec.Json, st: Stamps, d: Direction, s: Turns.State, sessionId: Id, legs: seq<Leg>, id: Id)
    requires Codec.FaithfulJson(j) && Turns.Inv(s) && AllFaithful(st, MessageVisits(s, sessionId, legs))
    ensures var r := Follow(StampCursors(j, st), d, MessageVisits(s, sessionId, legs), None);
            r.Ok? &&
            (r.value.done ==>
               && legs != [] && Times(r.value.ids, id) <= 1
               && (SeenThroughout(s, sessionId, legs, id) ==> Times(r.value.ids, id) == 1))
  {
    MessagePages(j, st, d, s, sessionId, legs, id);
    if legs != [] {
      MessageVisitAt(s, sessionId, legs, 0);
      MessageVisitAt(s, sessionId, legs, |legs| - 1);
    }
  }

  /** The same of the session list, with a clock that does not go back: a session of the user that
      was not deleted at any fetch is listed exactly once, unless a use carried it over the
      cursor; then it is not listed. */
  lemma SessionsUnderChange(j: Codec.Json, st: Stamps, s: Turns.State, userId: Id, legs: seq<Leg>, start: int, id: Id)
    requires Codec.FaithfulJson(j)
    requires |s.phases| == |s.requests| && NotAhead(s.store, start) && LegsInTime(legs, start)
    requires AllFaithful(st, SessionVisits(s, userId, legs))
    ensures var vs := SessionVisits(s, userId, legs);
            var r := Follow(StampCursors(j, st), Desc, vs, None);
            r.Ok? && Times(r.value.ids, id) <= 1 &&
            (r.value.done && (forall i :: 0 <= i < |legs| ==> Own(StateAt(s, legs, i).store, userId, id)) ==>
               (Times(r.value.ids, id) == 1 <==> !Jumps(vs, None, id)))
  {
    var vs := SessionVisits(s, userId, legs);
    forall i | 0 <= i < |legs| ensures id in vs[i].matches <==> Own(StateAt(s, legs, i).store, userId, id) {
      SessionVisitAt(s, userId, legs, i);
    }
    SessionPages(j, st, s, userId, legs, start, id);
  }
}
