/** Whose messages are whose: over every interleaving of requests, what is stored, where, and
    where it is listed (app/services/sessions.py, app/api/chat.py). */
module MessageLaws {
  import opened Locations
  import opened Prelude
  import opened Packets
  import opened ChatStream
  import opened TimelineLaws
  import opened ChatStore
  import opened IdempotentChat
  import Lists = Listings
  import Rows = ListingRows
  import Codec = CursorCodec
  import Keyset

  // ------------------------------------------------------- where a row came from

  /** The row is the request's own message, stored at `now`. */
  predicate IsUserRow(q: Request, id: Id, m: Message, now: int) {
    && id == q.clientMessageId && m.role == UserRole && m.content == q.message && m.parent.None? && m.events.None?
    && m.sessionId == q.sessionId && m.userId == q.userId && m.createdAt == now
    && m.lat == (if q.location.None? then None else Some(q.location.value.lat))
    && m.lng == (if q.location.None? then None else Some(q.location.value.lng))
  }

  /** The row is the reply of an agent run to the request's message, stored at `now`. */
  ghost predicate IsReplyRow(q: Request, packets: seq<Packet>, m: Message, now: int) {
    && m.role == AssistantRole && m.parent == Some(q.clientMessageId)
    && m.sessionId == q.sessionId && m.userId == q.userId && m.createdAt == now
    && m.content == Deltas(packets) && m.events == Some(InOrder(LiveTimeline(packets)))
    && m.lat.None? && m.lng.None?
  }

  /** The action stored the row. */
  ghost predicate Wrote(requests: seq<Request>, a: Action, id: Id, m: Message) {
    || (a.RecordUser? && a.r < |requests| && IsUserRow(requests[a.r], id, m, a.now))
    || (a.Complete? && a.r < |requests| && IsReplyRow(requests[a.r], a.packets, m, a.now))
  }

  /** A row but for its deletion mark. */
  predicate SameRow(m: Message, n: Message) {
    && m.sessionId == n.sessionId && m.userId == n.userId && m.role == n.role && m.content == n.content
    && m.events == n.events && m.parent == n.parent && m.createdAt == n.createdAt && m.lat == n.lat && m.lng == n.lng
  }

  lemma CompleteWrites(s: State, r: nat, packets: seq<Packet>, now: int, id: Id)
    requires |s.phases| == |s.requests| && Enabled(s, Complete(r, packets, now)) && id !in s.store.messages
    requires id in Next(s, Complete(r, packets, now)).store.messages
    ensures IsReplyRow(s.requests[r], packets, Next(s, Complete(r, packets, now)).store.messages[id], now)
  {
    TextConservation(packets);
  }

  /** A row that a step adds is the row of its request; the others stay as they were. */
  lemma StepWrites(s: State, a: Action, id: Id)
    requires |s.phases| == |s.requests| && id in Step(s, a).store.messages
    ensures var m := Step(s, a).store.messages[id];
            if id in s.store.messages then SameRow(s.store.messages[id], m) else Wrote(s.requests, a, id, m) && !m.deleted
  {
    if Enabled(s, a) && a.Complete? && id !in s.store.messages { CompleteWrites(s, a.r, a.packets, a.now, id); }
  }

  lemma StepKeepsRows(s: State, a: Action, id: Id)
    requires |s.phases| == |s.requests| && id in s.store.messages
    ensures id in Step(s, a).store.messages
  {
  }

  /** Over every run: a message that was not there before was stored by one action of the run, and
      is exactly what that action's request sent, or its agent answered, in the request's session
      and under its user; nothing of it has changed since. */
  lemma {:induction false} RowsComeFromRequests(s: State, actions: seq<Action>, id: Id)
    requires |s.phases| == |s.requests| && id in Execute(s, actions).store.messages
    ensures var m := Execute(s, actions).store.messages[id];
            if id in s.store.messages then SameRow(s.store.messages[id], m)
            else exists i :: 0 <= i < |actions| && Wrote(s.requests, actions[i], id, m)
    decreases |actions|
  {
    if actions != [] {
      var init, a := actions[..|actions| - 1], actions[|actions| - 1];
      var t := Execute(s, init);
      StepWrites(t, a, id);
      if id in t.store.messages {
        RowsComeFromRequests(s, init, id);
        if id !in s.store.messages {
          var i :| 0 <= i < |init| && Wrote(s.requests, init[i], id, t.store.messages[id]);
          assert actions[i] == init[i];
          SameRowWrote(s.requests, actions[i], id, t.store.messages[id], Step(t, a).store.messages[id]);
        }
      } else {
        assert id !in s.store.messages by {
          if id in s.store.messages { RunKeepsRows(s, init, id); }
        }
        assert actions[|actions| - 1] == a;
      }
    }
  }

  lemma SameRowWrote(requests: seq<Request>, a: Action, id: Id, m: Message, n: Message)
    requires Wrote(requests, a, id, m) && SameRow(m, n)
    ensures Wrote(requests, a, id, n)
  {
  }

  lemma {:induction false} RunKeepsRows(s: State, actions: seq<Action>, id: Id)
    requires |s.phases| == |s.requests| && id in s.store.messages
    ensures id in Execute(s, actions).store.messages
    decreases |actions|
  {
    if actions != [] {
      RunKeepsRows(s, actions[..|actions| - 1], id);
      StepKeepsRows(Execute(s, actions[..|actions| - 1]), actions[|actions| - 1], id);
    }
  }

  /** Every reply that a run stores lies in the session of a request for the message it answers,
      and belongs to that request's user. */
  lemma RepliesBelong(s: State, actions: seq<Action>, id: Id)
    requires |s.phases| == |s.requests| && id in Execute(s, actions).store.messages && id !in s.store.messages
    requires Execute(s, actions).store.messages[id].role == AssistantRole
    ensures var m := Execute(s, actions).store.messages[id];
            exists r :: 0 <= r < |s.requests| && m.parent == Some(s.requests[r].clientMessageId)
                        && m.sessionId == s.requests[r].sessionId && m.userId == s.requests[r].userId
  {
    RowsComeFromRequests(s, actions, id);
    var i :| 0 <= i < |actions| && Wrote(s.requests, actions[i], id, Execute(s, actions).store.messages[id]);
    assert actions[i].Complete?;
  }

  lemma {:induction false} FetchesKeepRows(s: State, legs: seq<Lists.Leg>, id: Id, i: nat)
    requires Inv(s) && id in s.store.messages && i < |legs|
    ensures var u := Rows.StateAt(s, legs, i);
            id in u.store.messages && u.store.messages[id].sessionId == s.store.messages[id].sessionId &&
            (s.store.messages[id].deleted ==> u.store.messages[id].deleted)
    decreases i
  {
    RunKeepsInv(s, legs[0].actions);
    if i > 0 { FetchesKeepRows(Execute(s, legs[0].actions), legs[1..], id, i - 1); }
  }

  /** What is not deleted at the last fetch was there at the first. */
  lemma LiveSinceTheFirst(s: State, legs: seq<Lists.Leg>, id: Id)
    requires Inv(s) && id in s.store.messages && legs != []
    requires id in Rows.StateAt(s, legs, |legs| - 1).store.messages
    requires !Rows.StateAt(s, legs, |legs| - 1).store.messages[id].deleted
    ensures Rows.SeenThroughout(s, s.store.messages[id].sessionId, legs, id)
  {
    FetchesKeepRows(s, legs, id, 0);
    FetchesKeepRows(s, legs, id, |legs| - 1);
    if |legs| > 1 {
      RunKeepsInv(s, legs[0].actions);
      FetchesKeepRows(Execute(s, legs[0].actions), legs[1..], id, |legs| - 2);
    }
  }

  /** The row of a request: its own message, or a reply of its run. */
  ghost predicate RowOf(q: Request, id: Id, m: Message) {
    m.sessionId == q.sessionId && m.userId == q.userId && (id == q.clientMessageId || m.parent == Some(q.clientMessageId))
  }

  /** Such a row is in the list of its session as long as it is not deleted: every finished walk
      that starts after it was stored, whatever goes on meanwhile, lists it exactly once. */
  lemma StoredRowsAreListed(j: Codec.Json, st: Lists.Stamps, d: Keyset.Direction, s: State, actions: seq<Action>,
                            legs: seq<Lists.Leg>, id: Id)
    returns (r: nat)
    requires Codec.FaithfulJson(j) && Fresh(s)
    requires id in Execute(s, actions).store.messages && id !in s.store.messages
    requires legs != [] && id in Rows.StateAt(Execute(s, actions), legs, |legs| - 1).store.messages
    requires !Rows.StateAt(Execute(s, actions), legs, |legs| - 1).store.messages[id].deleted
    requires var sid := Execute(s, actions).store.messages[id].sessionId;
             Lists.AllFaithful(st, Lists.MessageVisits(Execute(s, actions), sid, legs))
    ensures r < |s.requests| && RowOf(s.requests[r], id, Execute(s, actions).store.messages[id])
    ensures var vs := Lists.MessageVisits(Execute(s, actions), s.requests[r].sessionId, legs);
            var trip := Lists.Follow(Lists.StampCursors(j, st), d, vs, None);
            trip.Ok? && (trip.value.done ==> Lists.Times(trip.value.ids, id) == 1)
  {
    var t := Execute(s, actions);
    RowsComeFromRequests(s, actions, id);
    var i :| 0 <= i < |actions| && Wrote(s.requests, actions[i], id, t.store.messages[id]);
    r := actions[i].r;
    RunKeepsInv(s, actions);
    LiveSinceTheFirst(t, legs, id);
    Rows.MessagesUnderChange(j, st, d, t, t.store.messages[id].sessionId, legs, id);
  }

  // ---------------------------------------------------- what a response announces

  /** The response starts with the session of the message's stored reply, if that is the one it
      names, or of the request itself. */
  ghost predicate Announces(s: Store, q: Request, wire: seq<Packet>) {
    && wire != [] && wire[0].Start?
    && (wire[0].sessionId == q.sessionId || IsReplyIn(s, wire[0].assistantId, q.clientMessageId, wire[0].sessionId))
    && (EmitsFinish(wire) ==> IsReplyIn(s, wire[0].assistantId, q.clientMessageId, wire[0].sessionId))
  }

  /** A reply to the message is stored under this id, in this session. */
  predicate IsReplyIn(s: Store, id: Id, parent: Id, sessionId: Id) {
    id in s.messages && s.messages[id].parent == Some(parent) && s.messages[id].sessionId == sessionId
  }

  ghost predicate AllAnnounce(s: State) {
    |s.phases| == |s.requests| &&
    forall r :: 0 <= r < |s.phases| && s.phases[r].Done? ==> Announces(s.store, s.requests[r], s.phases[r].wire)
  }

  lemma AnnouncesLater(s: State, a: Action, q: Request, wire: seq<Packet>)
    requires |s.phases| == |s.requests| && Announces(s.store, q, wire)
    ensures Announces(Step(s, a).store, q, wire)
  {
    forall id | id in s.store.messages
      ensures id in Step(s, a).store.messages && SameRow(s.store.messages[id], Step(s, a).store.messages[id])
    {
      StepKeepsRows(s, a, id);
      StepWrites(s, a, id);
    }
  }

  lemma LookupAnnounces(s: State, r: nat, newId: Id)
    requires |s.phases| == |s.requests| && Enabled(s, Lookup(r, newId)) && Next(s, Lookup(r, newId)).phases[r].Done?
    ensures Announces(Next(s, Lookup(r, newId)).store, s.requests[r], Next(s, Lookup(r, newId)).phases[r].wire)
  {
  }

  lemma CompleteAnnounces(s: State, r: nat, packets: seq<Packet>, now: int)
    requires |s.phases| == |s.requests| && Enabled(s, Complete(r, packets, now))
    ensures Announces(Next(s, Complete(r, packets, now)).store, s.requests[r], Next(s, Complete(r, packets, now)).phases[r].wire)
  {
    var q, id := s.requests[r], s.phases[r].assistantId;
    LiveWireFinishes(packets, id, q.sessionId, Refuses(s.store, id, q.clientMessageId));
  }

  lemma StepAnnounces(s: State, a: Action)
    requires AllAnnounce(s)
    ensures AllAnnounce(Step(s, a))
  {
    var t := Step(s, a);
    forall r: nat | r < |t.phases| && t.phases[r].Done? ensures Announces(t.store, t.requests[r], t.phases[r].wire) {
      if s.phases[r] == t.phases[r] {
        AnnouncesLater(s, a, s.requests[r], s.phases[r].wire);
      } else if a.Lookup? {
        LookupAnnounces(s, r, a.newId);
      } else {
        CompleteAnnounces(s, r, a.packets, a.now);
      }
    }
  }

  /** Over every interleaving: a response announces in `start` the session it belongs to, the
      request's own, or that of the stored reply it replays; a finished one always that of the
      stored reply under the id that it announces. */
  lemma {:induction false} ResponsesAnnounceTheirSession(s: State, actions: seq<Action>)
    requires AllAnnounce(s)
    ensures AllAnnounce(Execute(s, actions))
    decreases |actions|
  {
    if actions != [] {
      ResponsesAnnounceTheirSession(s, actions[..|actions| - 1]);
      StepAnnounces(Execute(s, actions[..|actions| - 1]), actions[|actions| - 1]);
    }
  }

  /** What a retry is answered with: a lookup that replays, replays a reply to the message that is
      stored and not deleted, and one that runs the agent found none. */
  lemma LookupsFindLiveReplies(s: State, r: nat, newId: Id)
    requires |s.phases| == |s.requests| && Enabled(s, Lookup(r, newId))
    ensures var p, cid := Next(s, Lookup(r, newId)).phases[r], s.requests[r].clientMessageId;
            (p.Done? ==> p.wire != [] && p.wire[0].Start? && LiveReply(s.store, p.wire[0].assistantId, cid)) &&
            (p.Running? <==> forall id :: !LiveReply(s.store, id, cid))
  {
    var cid := s.requests[r].clientMessageId;
    forall id ensures IsReply(s.store.messages, id, cid) <==> LiveReply(s.store, id, cid) { }
  }

  predicate LiveReply(s: Store, id: Id, parent: Id) {
    id in s.messages && s.messages[id].parent == Some(parent) && !s.messages[id].deleted
  }

  /** Over every interleaving no message has two replies that are not deleted. */
  lemma RepliesAreUnique(s: State, actions: seq<Action>, a: Id, b: Id, parent: Id)
    requires Fresh(s) && LiveReply(Execute(s, actions).store, a, parent) && LiveReply(Execute(s, actions).store, b, parent)
    ensures a == b
  {
    RunKeepsInv(s, actions);
    var t := Execute(s, actions).store;
    assert IsReply(t.messages, a, parent) && IsReply(t.messages, b, parent);
  }

  /** A request that was answered stays answered, with the same packets. */
  lemma {:induction false} AnswersAreFinal(s: State, actions: seq<Action>, r: nat)
    requires |s.phases| == |s.requests| && r < |s.phases| && (s.phases[r].Done? || s.phases[r].SessionMissing?)
    ensures Execute(s, actions).phases[r] == s.phases[r]
    decreases |actions|
  {
    if actions != [] { AnswersAreFinal(s, actions[..|actions| - 1], r); }
  }

  // ------------------------------------------------------------------- sessions

  /** The session is the user's and not deleted. */
  predicate Owns(s: Store, userId: Id, sessionId: Id) { Rows.Own(s, userId, sessionId) }

  /** A session is deleted with exactly its own messages, and only by its user; nothing else of any
      row changes, and a second time nothing at all. */
  lemma DeleteMarksExactly(s: State, userId: Id, sessionId: Id, id: Id)
    requires |s.phases| == |s.requests|
    ensures var t := Step(s, DeleteSession(userId, sessionId)).store;
            t.messages.Keys == s.store.messages.Keys && t.sessions.Keys == s.store.sessions.Keys &&
            (id in s.store.messages ==>
               SameRow(s.store.messages[id], t.messages[id]) &&
               (t.messages[id].deleted <==>
                  s.store.messages[id].deleted
                  || (Owns(s.store, userId, sessionId) && s.store.messages[id].sessionId == sessionId))) &&
            (id in s.store.sessions ==>
               t.sessions[id].userId == s.store.sessions[id].userId && t.sessions[id].title == s.store.sessions[id].title &&
               t.sessions[id].lastMessageAt == s.store.sessions[id].lastMessageAt &&
               (t.sessions[id].deleted <==> s.store.sessions[id].deleted || (Owns(s.store, userId, sessionId) && id == sessionId)))
  {
  }

  /** The title of a session that has none: the beginning of the first message stored in it. */
  function TitleFrom(content: string): string { if |content| <= 60 then content else content[..60] }

  /** The step stores this message in the session. */
  ghost predicate Stores(s: State, a: Action, sessionId: Id, id: Id)
    requires |s.phases| == |s.requests|
  {
    id in Step(s, a).store.messages && id !in s.store.messages && Step(s, a).store.messages[id].sessionId == sessionId
  }

  /** A step that stores a message in a session stamps it with the message's time, and names it
      after the message if it had no title and the message is a user's. */
  lemma StoringStampsTheSession(s: State, a: Action, sessionId: Id, id: Id)
    requires |s.phases| == |s.requests| && sessionId in s.store.sessions && Stores(s, a, sessionId, id)
    ensures var t := Step(s, a).store;
            var m, x := t.messages[id], s.store.sessions[sessionId];
            sessionId in t.sessions && t.sessions[sessionId].userId == x.userId &&
            t.sessions[sessionId].lastMessageAt == m.createdAt &&
            t.sessions[sessionId].title ==
              (if x.title.None? && m.role == UserRole then Some(TitleFrom(m.content)) else x.title)
  {
    var m := Step(s, a).store.messages[id];
    assert |m.content| <= 60 ==> m.content[..|m.content|] == m.content;
  }

  /** A step that stores nothing in a session leaves its time and title. */
  lemma OthersKeepTheSession(s: State, a: Action, sessionId: Id)
    requires |s.phases| == |s.requests| && sessionId in s.store.sessions
    requires forall id :: !Stores(s, a, sessionId, id)
    ensures var t := Step(s, a).store;
            sessionId in t.sessions && t.sessions[sessionId].userId == s.store.sessions[sessionId].userId &&
            t.sessions[sessionId].lastMessageAt == s.store.sessions[sessionId].lastMessageAt &&
            t.sessions[sessionId].title == s.store.sessions[sessionId].title
  {
    if Enabled(s, a) && a.RecordUser? { assert !Stores(s, a, sessionId, s.requests[a.r].clientMessageId); }
    if Enabled(s, a) && a.Complete? { assert !Stores(s, a, sessionId, s.phases[a.r].assistantId); }
  }

  /** A session starts as it was asked for, live, used at the time of its creation; nothing else
      changes. */
  lemma SessionsStartAsAsked(s: State, userId: Id, id: Id, title: Option<string>, now: int)
    requires |s.phases| == |s.requests| && id !in s.store.sessions
    ensures var t := Step(s, CreateSession(userId, id, title, now)).store;
            t.messages == s.store.messages && id in t.sessions && Owns(t, userId, id) &&
            t.sessions[id].title == title && t.sessions[id].lastMessageAt == now &&
            forall other :: other != id ==>
              (other in t.sessions <==> other in s.store.sessions) &&
              (other in s.store.sessions ==> t.sessions[other] == s.store.sessions[other])
  {
  }

  /** The i-th action stores this message of a user in the session. */
  ghost predicate Speaks(s: State, actions: seq<Action>, i: nat, sessionId: Id, id: Id)
    requires |s.phases| == |s.requests| && i < |actions|
  {
    && Stores(Execute(s, actions[..i]), actions[i], sessionId, id)
    && Step(Execute(s, actions[..i]), actions[i]).store.messages[id].role == UserRole
  }

  ghost predicate SpeaksAt(s: State, actions: seq<Action>, i: nat, sessionId: Id)
    requires |s.phases| == |s.requests| && i < |actions|
  {
    exists id :: Speaks(s, actions, i, sessionId, id)
  }

  /** The i-th action is the first to store a message of a user in the session. */
  ghost predicate SpeaksFirst(s: State, actions: seq<Action>, i: nat, sessionId: Id)
    requires |s.phases| == |s.requests| && i < |actions|
  {
    SpeaksAt(s, actions, i, sessionId) && forall j :: 0 <= j < i ==> !SpeaksAt(s, actions, j, sessionId)
  }

  /** The session is named after the i-th action's message. */
  ghost predicate NamedBy(s: State, actions: seq<Action>, i: nat, sessionId: Id, title: Option<string>)
    requires |s.phases| == |s.requests| && i < |actions|
  {
    exists id :: Speaks(s, actions, i, sessionId, id)
                 && title == Some(TitleFrom(Step(Execute(s, actions[..i]), actions[i]).store.messages[id].content))
  }

  lemma PrefixSpeaks(s: State, init: seq<Action>, a: Action, i: nat, sessionId: Id)
    requires |s.phases| == |s.requests| && i < |init|
    ensures SpeaksAt(s, init + [a], i, sessionId) <==> SpeaksAt(s, init, i, sessionId)
    ensures forall title :: NamedBy(s, init, i, sessionId, title) ==> NamedBy(s, init + [a], i, sessionId, title)
  {
    assert (init + [a])[..i] == init[..i];
    forall id ensures Speaks(s, init + [a], i, sessionId, id) <==> Speaks(s, init, i, sessionId, id) {
    }
  }

  lemma LastSpeaks(s: State, init: seq<Action>, a: Action, sessionId: Id)
    requires |s.phases| == |s.requests|
    requires sessionId in Execute(s, init).store.sessions
    ensures var x := Execute(s, init).store.sessions[sessionId];
            var t := Execute(s, init + [a]).store;
            sessionId in t.sessions && t.sessions[sessionId].userId == x.userId &&
            (if SpeaksAt(s, init + [a], |init|, sessionId) && x.title.None?
             then NamedBy(s, init + [a], |init|, sessionId, t.sessions[sessionId].title)
             else t.sessions[sessionId].title == x.title)
  {
    var u, actions := Execute(s, init), init + [a];
    assert actions[..|init|] == init && actions[..|actions| - 1] == init;
    if id :| Stores(u, a, sessionId, id) {
      StoringStampsTheSession(u, a, sessionId, id);
      if Step(u, a).store.messages[id].role == UserRole {
        assert Speaks(s, actions, |init|, sessionId, id);
      } else if other :| Speaks(s, actions, |init|, sessionId, other) {
        OneRowAtATime(u, a, id, other);
      }
    } else {
      OthersKeepTheSession(u, a, sessionId);
    }
  }

  /** A step stores one message at most. */
  lemma OneRowAtATime(s: State, a: Action, id: Id, other: Id)
    requires |s.phases| == |s.requests|
    requires id in Step(s, a).store.messages && id !in s.store.messages
    requires other in Step(s, a).store.messages && other !in s.store.messages
    ensures id == other
  {
  }

  lemma NamesStay(s: State, init: seq<Action>, a: Action, sessionId: Id, title: Option<string>)
    requires |s.phases| == |s.requests|
    requires exists i :: 0 <= i < |init| && SpeaksFirst(s, init, i, sessionId) && NamedBy(s, init, i, sessionId, title)
    ensures exists i :: 0 <= i < |init + [a]| && SpeaksFirst(s, init + [a], i, sessionId)
                        && NamedBy(s, init + [a], i, sessionId, title)
  {
    var i :| 0 <= i < |init| && SpeaksFirst(s, init, i, sessionId) && NamedBy(s, init, i, sessionId, title);
    PrefixSpeaks(s, init, a, i, sessionId);
    forall j | 0 <= j < i ensures !SpeaksAt(s, init + [a], j, sessionId) { PrefixSpeaks(s, init, a, j, sessionId); }
    assert SpeaksFirst(s, init + [a], i, sessionId);
  }

  lemma SilenceEnds(s: State, init: seq<Action>, a: Action, sessionId: Id)
    requires |s.phases| == |s.requests|
    requires forall i :: 0 <= i < |init| ==> !SpeaksAt(s, init, i, sessionId)
    ensures if SpeaksAt(s, init + [a], |init|, sessionId) then SpeaksFirst(s, init + [a], |init|, sessionId)
            else forall i :: 0 <= i < |init + [a]| ==> !SpeaksAt(s, init + [a], i, sessionId)
  {
    forall i | 0 <= i < |init| ensures !SpeaksAt(s, init + [a], i, sessionId) { PrefixSpeaks(s, init, a, i, sessionId); }
  }

  /** What a run makes of the title of a session: a title stays, and a session without one is named
      after the first message of a user that the run stores in it, and has no title before. */
  ghost predicate TitledBy(s: State, actions: seq<Action>, sessionId: Id, given: Option<string>, title: Option<string>)
    requires |s.phases| == |s.requests|
  {
    if given.Some? then title == given
    else if title.None? then forall i :: 0 <= i < |actions| ==> !SpeaksAt(s, actions, i, sessionId)
    else exists i :: 0 <= i < |actions| && SpeaksFirst(s, actions, i, sessionId) && NamedBy(s, actions, i, sessionId, title)
  }

  lemma TitledSnoc(s: State, init: seq<Action>, a: Action, sessionId: Id, given: Option<string>,
                   before: Option<string>, after: Option<string>)
    requires |s.phases| == |s.requests| && TitledBy(s, init, sessionId, given, before)
    requires if SpeaksAt(s, init + [a], |init|, sessionId) && before.None?
             then NamedBy(s, init + [a], |init|, sessionId, after) else after == before
    ensures TitledBy(s, init + [a], sessionId, given, after)
  {
    if given.None? {
      if before.Some? { NamesStay(s, init, a, sessionId, before); } else { SilenceEnds(s, init, a, sessionId); }
    }
  }

  /** Over every run from a session, its user stays, and its title is as the run makes it. */
  lemma {:induction false} TitlesAreTheFirstWords(s: State, actions: seq<Action>, sessionId: Id)
    requires |s.phases| == |s.requests| && sessionId in s.store.sessions
    ensures var x := s.store.sessions[sessionId];
            var t := Execute(s, actions).store;
            sessionId in t.sessions && t.sessions[sessionId].userId == x.userId &&
            TitledBy(s, actions, sessionId, x.title, t.sessions[sessionId].title)
    decreases |actions|
  {
    if actions != [] {
      var n := |actions| - 1;
      TitlesAreTheFirstWords(s, actions[..n], sessionId);
      LastSpeaks(s, actions[..n], actions[n], sessionId);
      assert actions == actions[..n] + [actions[n]];
      TitledSnoc(s, actions[..n], actions[n], sessionId, s.store.sessions[sessionId].title,
                 Execute(s, actions[..n]).store.sessions[sessionId].title, Execute(s, actions).store.sessions[sessionId].title);
    }
  }

  // --------------------------------------------------------------- only one's own

  /** The session exists and is the user's. */
  predicate Belongs(s: Store, sessionId: Id, userId: Id) { sessionId in s.sessions && s.sessions[sessionId].userId == userId }

  /** Requests that were let in, and rows, are all in sessions of their user. */
  ghost predicate KeptApart(s: State) {
    && |s.phases| == |s.requests|
    && (forall r :: 0 <= r < |s.phases| && (s.phases[r].SessionFound? || s.phases[r].UserRecorded? || s.phases[r].Running?) ==>
          Belongs(s.store, s.requests[r].sessionId, s.requests[r].userId))
    && (forall id :: id in s.store.messages ==>
          Belongs(s.store, s.store.messages[id].sessionId, s.store.messages[id].userId))
  }

  lemma SessionsKeepTheirUser(s: State, a: Action, sessionId: Id, userId: Id)
    requires |s.phases| == |s.requests| && Belongs(s.store, sessionId, userId)
    ensures Belongs(Step(s, a).store, sessionId, userId)
  {
  }

  lemma NewRowsBelong(s: State, a: Action, id: Id)
    requires KeptApart(s) && id in Step(s, a).store.messages
    ensures var m := Step(s, a).store.messages[id]; Belongs(Step(s, a).store, m.sessionId, m.userId)
  {
    StepWrites(s, a, id);
    var m := Step(s, a).store.messages[id];
    if id in s.store.messages {
      SessionsKeepTheirUser(s, a, m.sessionId, m.userId);
    } else {
      SessionsKeepTheirUser(s, a, s.requests[a.r].sessionId, s.requests[a.r].userId);
    }
  }

  lemma StepKeepsApart(s: State, a: Action)
    requires KeptApart(s)
    ensures KeptApart(Step(s, a))
  {
    var t := Step(s, a);
    forall r | 0 <= r < |t.phases| && (t.phases[r].SessionFound? || t.phases[r].UserRecorded? || t.phases[r].Running?)
      ensures Belongs(t.store, t.requests[r].sessionId, t.requests[r].userId)
    {
      if !s.phases[r].Arrived? { SessionsKeepTheirUser(s, a, s.requests[r].sessionId, s.requests[r].userId); }
    }
    forall id | id in t.store.messages ensures Belongs(t.store, t.store.messages[id].sessionId, t.store.messages[id].userId) {
      NewRowsBelong(s, a, id);
    }
  }

  /** Over every run no message is ever stored in another user's session: a request is let in only
      to a session of its user. */
  lemma {:induction false} UsersAreKeptApart(s: State, actions: seq<Action>)
    requires KeptApart(s)
    ensures KeptApart(Execute(s, actions))
    decreases |actions|
  {
    if actions != [] {
      UsersAreKeptApart(s, actions[..|actions| - 1]);
      StepKeepsApart(Execute(s, actions[..|actions| - 1]), actions[|actions| - 1]);
    }
  }

  /** A request is let in if and only if its session is its user's and not deleted at that moment. */
  lemma LetInExactly(s: State, r: nat)
    requires |s.phases| == |s.requests| && r < |s.phases| && s.phases[r].Arrived?
    ensures Step(s, GetSession(r)).phases[r].SessionFound? <==> Owns(s.store, s.requests[r].userId, s.requests[r].sessionId)
    ensures !Step(s, GetSession(r)).phases[r].SessionFound? ==> Step(s, GetSession(r)).phases[r].SessionMissing?
  {
  }
}
