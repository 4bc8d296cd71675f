/** What the memory operations do to the fields of a row, and what the index shows of them
    (app/services/memory.py). */
module MemoryFields {
  import opened Calendar
  import opened Locations
  import opened Prelude
  import opened MemoryService
  import opened MemoryLaws

  // ------------------------------------------------------------------ an update

  /** A field that was given reads back, one that was left out is as before. */
  predicate Assigned<T(==)>(given: Option<T>, before: T, after: T) {
    match given case Some(value) => after == value case None => after == before
  }

  /** What no operation changes after a row was created. */
  predicate SameOrigin(before: Row, after: Row) {
    after.id == before.id && after.userId == before.userId && after.createdAt == before.createdAt
  }

  /** The row after an update, field by field. */
  predicate ReadsBack(env: Env, p: Patch, before: Row, after: Row) {
    && Assigned(p.eventDate, before.eventDate, after.eventDate)
    && Assigned(p.eventTime, before.eventTime, after.eventTime)
    && Assigned(p.eventTz, before.eventTz, after.eventTz)
    && Assigned(p.lat, before.lat, after.lat)
    && Assigned(p.lng, before.lng, after.lng)
    && Assigned(p.locationLabel, before.locationLabel, after.locationLabel)
    && after.text == (if p.text.Some? then Strip(p.text.value) else before.text)
    && after.contentHash == env.canonicalHash(after.text)
    && SameOrigin(before, after)
  }

  /** The rows hold the same memory; what is known of the index may differ. */
  predicate SameMemory(a: Row, b: Row) {
    && a.text == b.text && a.contentHash == b.contentHash && a.eventDate == b.eventDate && a.eventTime == b.eventTime
    && a.eventTz == b.eventTz && a.lat == b.lat && a.lng == b.lng && a.locationLabel == b.locationLabel && SameOrigin(a, b)
  }

  /** What became of a send of the row: synced without an error, or unsynced with its name. */
  predicate Reports(after: Row, o: Outcome) {
    if o.Succeeds? then after.status.Synced? && after.externalError.None? && after.externalId == Some(after.id)
    else after.status.Unsynced? && after.externalError == Some(o.errorName)
  }

  /** Only this row may differ. */
  ghost predicate OnlyRowChanged(s: Store, t: Store, id: Id) {
    id in t.rows && forall i :: i != id ==> (i in t.rows <==> i in s.rows) && (i in s.rows ==> t.rows[i] == s.rows[i])
  }

  lemma PatchedReadsBack(env: Env, before: Row, p: Patch)
    requires before.contentHash == env.canonicalHash(before.text)
    ensures ReadsBack(env, p, before, Patched(env, before, p))
    ensures Patched(env, before, p).deleted == before.deleted && Patched(env, before, p).externalId == before.externalId
  {
  }

  lemma AddReports(s: Store, row: Row, o: Outcome)
    ensures var t := SendAdd(s, row, o);
            OnlyRowChanged(s, t, row.id) && SameMemory(row, t.rows[row.id]) && t.rows[row.id].deleted == row.deleted &&
            Reports(t.rows[row.id], o)
  {
  }

  lemma PatchReports(s: Store, row: Row, contentChanged: bool, o: Outcome)
    requires row.externalId == Some(row.id) && row.id in s.docs
    ensures var t := SendPatch(s, row, contentChanged, o);
            OnlyRowChanged(s, t, row.id) && SameMemory(row, t.rows[row.id]) && t.rows[row.id].deleted == row.deleted &&
            Reports(t.rows[row.id], o)
  {
  }

  lemma SameReadsBack(env: Env, p: Patch, before: Row, mid: Row, after: Row)
    requires ReadsBack(env, p, before, mid) && SameMemory(mid, after)
    ensures ReadsBack(env, p, before, after)
  {
  }

  /** The store after an accepted update. */
  lemma UpdateSends(env: Env, s: Store, userId: Id, id: Id, p: Patch, o: Outcome)
    requires Sound(env, s) && UpdateError(env, s, userId, id, p).None?
    ensures var row := Patched(env, s.rows[id], p);
            Effect(env, s, Update(userId, id, p, o)) ==
              (if row.externalId.None? then SendAdd(s, row, o) else SendPatch(s, row, TextChanges(s.rows[id], p), o))
    ensures Live(s.rows, id, userId) && BodySound(env, s.rows[id]) && s.rows[id].id == id
    ensures s.rows[id].externalId.Some? ==> s.rows[id].externalId == Some(id) && id in s.docs
  {
    if s.rows[id].externalId.Some? { assert Indexed(s, s.rows[id]); }
  }

  /** An accepted update writes every field that it was given and no other, reports the remote
      outcome, and leaves all other rows alone. */
  lemma UpdateReadsBack(env: Env, s: Store, userId: Id, id: Id, p: Patch, o: Outcome)
    requires Sound(env, s) && Refusal(env, s, Update(userId, id, p, o)).None?
    ensures var t := Effect(env, s, Update(userId, id, p, o));
            id in s.rows && OnlyRowChanged(s, t, id) && ReadsBack(env, p, s.rows[id], t.rows[id]) &&
            !t.rows[id].deleted && Reports(t.rows[id], o)
  {
    UpdateSends(env, s, userId, id, p, o);
    var before := s.rows[id];
    var row := Patched(env, before, p);
    PatchedReadsBack(env, before, p);
    if row.externalId.None? { AddReports(s, row, o); } else { PatchReports(s, row, TextChanges(before, p), o); }
    SameReadsBack(env, p, before, row, Effect(env, s, Update(userId, id, p, o)).rows[id]);
  }

  /** The row and the index after a patch that found no document. */
  predicate NothingToPatch(s: Store, t: Store, id: Id, o: Outcome) {
    && t.docs == s.docs && id in t.rows && t.rows[id].status.Unsynced?
    && t.rows[id].externalError == Some(if o.FailsUntouched? then o.errorName else "MemoryClientNotFoundError")
  }

  /** When the document of a memory is missing from the index, an accepted update or a retry puts
      nothing there, leaves the memory unsynced and says so, whatever the call would have done. */
  lemma MissingDocumentIsReported(env: Env, s: Store, op: Op)
    requires (op.Update? || (op.Sync? && op.id in s.rows && s.rows[op.id].status.Unsynced?)) && Refusal(env, s, op).None?
    requires op.id in s.rows && s.rows[op.id].id == op.id
    requires s.rows[op.id].externalId.Some? && s.rows[op.id].externalId.value !in s.docs
    ensures NothingToPatch(s, Effect(env, s, op), op.id, op.outcome)
  {
  }

  // ---------------------------------------------------------- two updates in a row

  function Later<T>(first: Option<T>, second: Option<T>): Option<T> { if second.Some? then second else first }

  /** One update with the later values on top. */
  function OnTop(p: Patch, q: Patch): Patch {
    Patch(Later(p.text, q.text), Later(p.eventDate, q.eventDate), Later(p.eventTime, q.eventTime), Later(p.eventTz, q.eventTz),
          Later(p.lat, q.lat), Later(p.lng, q.lng), Later(p.locationLabel, q.locationLabel))
  }

  lemma ReadsBackTwice(env: Env, p: Patch, q: Patch, a: Row, b: Row, c: Row)
    requires ReadsBack(env, p, a, b) && ReadsBack(env, q, b, c)
    ensures ReadsBack(env, OnTop(p, q), a, c)
  {
  }

  lemma ReadsBackOnce(env: Env, p: Patch, a: Row, b: Row, c: Row)
    requires ReadsBack(env, p, a, b) && ReadsBack(env, p, a, c)
    ensures SameMemory(b, c)
  {
  }

  // ------------------------------------------------------- when it is accepted

  /** Coordinates come in pairs, and in range. */
  predicate OnEarth(lat: Option<real>, lng: Option<real>) {
    || (lat.None? && lng.None?)
    || (lat.Some? && lng.Some? && -90.0 <= lat.value <= 90.0 && -180.0 <= lng.value <= 180.0)
  }

  /** No other live memory of the user has this text, as hashed. */
  ghost predicate TextIsFree(env: Env, rows: map<Id, Row>, userId: Id, id: Id, text: string) {
    forall i :: i in rows && i != id && rows[i].userId == userId && !rows[i].deleted ==>
      rows[i].contentHash != env.canonicalHash(text)
  }

  /** The text that an update leaves. */
  function TextAfter(p: Patch, before: Row): string { if p.text.Some? then Strip(p.text.value) else before.text }

  /** The values of an update are such as a row may have. */
  predicate GoodValues(env: Env, p: Patch, before: Row) {
    && (p.eventTz.Some? ==> env.zoneExists(p.eventTz.value))
    && (p.text.Some? ==> Strip(p.text.value) != "")
    && OnEarth(if p.lat.Some? then p.lat.value else before.lat, if p.lng.Some? then p.lng.value else before.lng)
  }

  lemma CollidesIsTaken(env: Env, rows: map<Id, Row>, row: Row)
    requires row.contentHash == env.canonicalHash(row.text)
    ensures Collides(rows, row) <==> !TextIsFree(env, rows, row.userId, row.id, row.text)
  {
    if Collides(rows, row) {
      var other :| other != row.id && Holds(rows, other, row.userId, row.contentHash);
    }
    if i :| i in rows && i != row.id && rows[i].userId == row.userId && !rows[i].deleted
            && rows[i].contentHash == env.canonicalHash(row.text) {
      assert Holds(rows, i, row.userId, row.contentHash);
    }
  }

  lemma KeptTextIsFree(env: Env, s: Store, userId: Id, id: Id)
    requires Sound(env, s) && Live(s.rows, id, userId)
    ensures TextIsFree(env, s.rows, userId, id, s.rows[id].text)
  {
    forall i | i in s.rows && i != id && s.rows[i].userId == userId && !s.rows[i].deleted
      ensures s.rows[i].contentHash != env.canonicalHash(s.rows[id].text)
    {
      assert Holds(s.rows, id, userId, s.rows[id].contentHash);
      if s.rows[i].contentHash == s.rows[id].contentHash { assert Holds(s.rows, i, userId, s.rows[id].contentHash); }
    }
  }

  lemma PatchErrorExactly(env: Env, row: Row, p: Patch)
    requires BodySound(env, row)
    ensures PatchError(env, row, p) == if GoodValues(env, p, row) then None else Some(ValidationError)
  {
  }

  /** What an update is answered, exactly: not found unless the memory is the user's and live;
      invalid unless its zone exists, its text is not blank and the resulting coordinates are a
      pair in range; a duplicate if another live memory of the user has the resulting text; and
      otherwise accepted. No other constraint ever refuses it. */
  lemma UpdateAnswersExactly(env: Env, s: Store, userId: Id, id: Id, p: Patch)
    requires Sound(env, s)
    ensures UpdateError(env, s, userId, id, p) ==
              if !(id in s.rows && s.rows[id].userId == userId && !s.rows[id].deleted) then Some(NotFound)
              else if !GoodValues(env, p, s.rows[id]) then Some(ValidationError)
              else if !TextIsFree(env, s.rows, userId, id, TextAfter(p, s.rows[id])) then Some(Duplicate)
              else None
  {
    if Live(s.rows, id, userId) {
      var before := s.rows[id];
      var row := Patched(env, before, p);
      PatchErrorExactly(env, before, p);
      PatchedReadsBack(env, before, p);
      CollidesIsTaken(env, s.rows, row);
      KeptTextIsFree(env, s, userId, id);
    }
  }

  lemma SecondIsAcceptedAlone(env: Env, s: Store, m: Store, userId: Id, id: Id, p: Patch, q: Patch)
    requires Live(s.rows, id, userId) && GoodValues(env, p, s.rows[id])
    requires OnlyRowChanged(s, m, id) && ReadsBack(env, p, s.rows[id], m.rows[id])
    requires GoodValues(env, q, m.rows[id]) && TextIsFree(env, m.rows, userId, id, TextAfter(q, m.rows[id]))
    ensures GoodValues(env, OnTop(p, q), s.rows[id])
    ensures TextIsFree(env, s.rows, userId, id, TextAfter(OnTop(p, q), s.rows[id]))
  {
    forall i | i in s.rows && i != id && s.rows[i].userId == userId && !s.rows[i].deleted
      ensures s.rows[i].contentHash != env.canonicalHash(TextAfter(OnTop(p, q), s.rows[id]))
    {
      assert i in m.rows && m.rows[i] == s.rows[i];
    }
  }

  /** Two updates in a row, when both are accepted, leave the memory that one update with the later
      values on top leaves, and that one is accepted too. */
  lemma UpdatesCompose(env: Env, s: Store, userId: Id, id: Id, p: Patch, q: Patch, o1: Outcome, o2: Outcome, o: Outcome)
    requires Sound(env, s) && Refusal(env, s, Update(userId, id, p, o1)).None?
    requires Refusal(env, Effect(env, s, Update(userId, id, p, o1)), Update(userId, id, q, o2)).None?
    ensures Refusal(env, s, Update(userId, id, OnTop(p, q), o)).None?
    ensures var t := Effect(env, Effect(env, s, Update(userId, id, p, o1)), Update(userId, id, q, o2));
            var u := Effect(env, s, Update(userId, id, OnTop(p, q), o));
            id in t.rows && id in u.rows && SameMemory(t.rows[id], u.rows[id])
  {
    var m := Effect(env, s, Update(userId, id, p, o1));
    UpdateSound(env, s, Update(userId, id, p, o1));
    UpdateReadsBack(env, s, userId, id, p, o1);
    UpdateAnswersExactly(env, s, userId, id, p);
    UpdateAnswersExactly(env, m, userId, id, q);
    SecondIsAcceptedAlone(env, s, m, userId, id, p, q);
    UpdateAnswersExactly(env, s, userId, id, OnTop(p, q));
    UpdateReadsBack(env, m, userId, id, q, o2);
    UpdateReadsBack(env, s, userId, id, OnTop(p, q), o);
    var t, u := Effect(env, m, Update(userId, id, q, o2)), Effect(env, s, Update(userId, id, OnTop(p, q), o));
    ReadsBackTwice(env, p, q, s.rows[id], m.rows[id], t.rows[id]);
    ReadsBackOnce(env, OnTop(p, q), s.rows[id], t.rows[id], u.rows[id]);
  }

  // ---------------------------------------------------------------- the index

  /** The document shows the memory's date, zone, creation time, a label that is not empty, and
      the coordinates if both are there; its time of day stays with the row. */
  predicate ShowsFields(doc: Doc, row: Row) {
    && doc.metadata.eventDate == row.eventDate && doc.metadata.eventTz == row.eventTz
    && doc.metadata.createdAt == row.createdAt
    && doc.metadata.locationLabel == (if row.locationLabel == Some("") then None else row.locationLabel)
    && (doc.metadata.coordinates.Some? <==> row.lat.Some? && row.lng.Some?)
    && (row.lat.Some? && row.lng.Some? ==> doc.metadata.coordinates.value == (row.lat.value, row.lng.value))
  }

  lemma MetadataShowsFields(row: Row, doc: Doc)
    requires doc.metadata == BuildMetadata(row)
    ensures ShowsFields(doc, row)
  {
  }

  /** Over every run, a live memory that is marked synced is shown by its document field by field. */
  lemma IndexShowsFields(env: Env, ops: seq<Op>, id: Id)
    ensures var s := RunOps(env, NOTHING, ops);
            id in s.rows && !s.rows[id].deleted && s.rows[id].status.Synced? ==>
              id in s.docs && ShowsFields(s.docs[id], s.rows[id])
  {
    IndexAgreement(env, ops, id);
    var s := RunOps(env, NOTHING, ops);
    if id in s.rows && !s.rows[id].deleted && s.rows[id].status.Synced? { MetadataShowsFields(s.rows[id], s.docs[id]); }
  }

  /** After an accepted update whose remote call succeeds the document shows what was given. */
  lemma UpdateIsShown(env: Env, s: Store, userId: Id, id: Id, p: Patch)
    requires Sound(env, s) && Refusal(env, s, Update(userId, id, p, Succeeds)).None?
    ensures var t := Effect(env, s, Update(userId, id, p, Succeeds));
            id in t.docs && id in t.rows && ShowsFields(t.docs[id], t.rows[id]) &&
            (p.eventDate.Some? ==> t.docs[id].metadata.eventDate == p.eventDate.value) &&
            (p.eventTz.Some? ==> t.docs[id].metadata.eventTz == p.eventTz.value) &&
            (p.text.Some? && Strip(p.text.value) != s.rows[id].text ==> t.docs[id].content == Strip(p.text.value))
  {
    var t := Effect(env, s, Update(userId, id, p, Succeeds));
    UpdateReadsBack(env, s, userId, id, p, Succeeds);
    UpdateAgreesExactly(env, s, userId, id, p, Succeeds);
    MetadataShowsFields(t.rows[id], t.docs[id]);
  }

  // ------------------------------------------------------------ the other operations

  /** A new row holds what was asked for, live, under the id that it was asked for under if one
      was, and stamped with the time of the request. */
  predicate HoldsDraft(env: Env, op: Op, row: Row)
    requires op.Create?
  {
    && row.userId == op.userId && row.id == (if op.idempotencyId.Some? then op.idempotencyId.value else op.freshId)
    && row.text == Strip(op.draft.text) && row.contentHash == env.canonicalHash(Strip(op.draft.text))
    && row.eventDate == op.draft.eventDate && row.eventTime == op.draft.eventTime && row.eventTz == op.draft.eventTz
    && row.lat == op.draft.lat && row.lng == op.draft.lng && row.locationLabel == op.draft.locationLabel
    && row.createdAt == op.now && !row.deleted
  }

  predicate GoodDraft(env: Env, d: Draft) {
    Strip(d.text) != "" && env.zoneExists(d.eventTz) && OnEarth(d.lat, d.lng)
  }

  /** The user's row under the idempotency id. */
  predicate Known(rows: map<Id, Row>, op: Op)
    requires op.Create?
  {
    op.idempotencyId.Some? && op.idempotencyId.value in rows && rows[op.idempotencyId.value].userId == op.userId
  }

  /** A create that is not refused answers with a live memory of the user: the one under its
      idempotency id, or one with its text; and what it inserts holds what was asked for. It is
      refused if and only if its values are bad, its idempotency id was used for a memory that is
      deleted, or the id it would take is taken. */
  lemma CreateAnswersExactly(env: Env, s: Store, op: Op)
    requires Sound(env, s) && op.Create?
    ensures (Refusal(env, s, op) == Some(ValidationError) <==> !GoodDraft(env, op.draft))
    ensures (Refusal(env, s, op) == Some(IdempotencyReused) <==>
               GoodDraft(env, op.draft) && Known(s.rows, op) && s.rows[op.idempotencyId.value].deleted)
    ensures Refusal(env, s, op).Some? ==> Effect(env, s, op) == s
    ensures Refusal(env, s, op).None? ==>
              var t, answer := Effect(env, s, op), Answer(env, s, op);
              answer.Ok? && answer.value in t.rows && t.rows[answer.value].userId == op.userId && !t.rows[answer.value].deleted &&
              (if Known(s.rows, op) then answer.value == op.idempotencyId.value && t == s
               else t.rows[answer.value].contentHash == env.canonicalHash(Strip(op.draft.text))) &&
              (answer.value !in s.rows ==>
                 HoldsDraft(env, op, t.rows[answer.value]) && Reports(t.rows[answer.value], op.outcome) &&
                 OnlyRowChanged(s, t, answer.value)) &&
              (answer.value in s.rows ==> t == s)
  {
    var plan := PlanOf(env, s, op);
    if plan.Insert? { AddReports(s, plan.row, op.outcome); }
  }

  /** A delete marks the user's memory deleted and changes no other field of it and no other row;
      with a document id it reports the remote outcome, without one it changes nothing else. */
  lemma DeleteReadsBack(env: Env, s: Store, userId: Id, id: Id, o: Outcome)
    requires Sound(env, s) && Live(s.rows, id, userId)
    ensures Refusal(env, s, Delete(userId, id, o)).None?
    ensures var t := Effect(env, s, Delete(userId, id, o));
            OnlyRowChanged(s, t, id) && t.rows[id].deleted && SameMemory(s.rows[id], t.rows[id]) &&
            t.rows[id].externalId == s.rows[id].externalId &&
            (if s.rows[id].externalId.None?
             then t.rows[id].status == s.rows[id].status && t.rows[id].externalError == s.rows[id].externalError && t.docs == s.docs
             else ReportsDelete(t.rows[id], o))
  {
  }

  /** What became of a remote delete. */
  predicate ReportsDelete(after: Row, o: Outcome) {
    if o.Succeeds? then after.status.Synced? && after.externalError.None?
    else after.status.PendingDelete? && after.externalError == Some(o.errorName)
  }

  lemma RowSent(s: Store, t: Store, row: Row, sent: Row)
    requires row.id in s.rows && s.rows[row.id] == row && t.rows == s.rows[row.id := sent]
    requires SameMemory(row, sent) && sent.deleted == row.deleted
    ensures OnlyRowChanged(s, t, row.id) && SameMemory(row, t.rows[row.id]) && t.rows[row.id].deleted == row.deleted
  {
  }

  lemma PatchSent(s: Store, row: Row, contentChanged: bool, o: Outcome)
    requires row.id in s.rows && s.rows[row.id] == row && row.externalId.Some?
    ensures var t := SendPatch(s, row, contentChanged, o);
            OnlyRowChanged(s, t, row.id) && SameMemory(row, t.rows[row.id]) && t.rows[row.id].deleted == row.deleted
  {
    RowSent(s, SendPatch(s, row, contentChanged, o), row, SendPatch(s, row, contentChanged, o).rows[row.id]);
  }

  lemma DeleteSent(s: Store, row: Row, o: Outcome)
    requires row.id in s.rows && s.rows[row.id] == row && row.externalId.Some?
    ensures var t := SendDelete(s, row, o);
            OnlyRowChanged(s, t, row.id) && SameMemory(row, t.rows[row.id]) && t.rows[row.id].deleted == row.deleted
  {
    RowSent(s, SendDelete(s, row, o), row, SendDelete(s, row, o).rows[row.id]);
  }

  lemma SyncKeepsMemory(env: Env, s: Store, userId: Id, id: Id, o: Outcome)
    requires Sound(env, s) && id in s.rows && s.rows[id].userId == userId
    ensures var t := Effect(env, s, Sync(userId, id, o));
            OnlyRowChanged(s, t, id) && SameMemory(s.rows[id], t.rows[id]) && t.rows[id].deleted == s.rows[id].deleted
  {
    var row := s.rows[id];
    match row.status {
      case Synced =>
      case Unsynced => if row.externalId.None? { AddReports(s, row, o); } else { PatchSent(s, row, true, o); }
      case PendingDelete => DeleteSent(s, row, o);
    }
  }

  lemma SyncReports(env: Env, s: Store, row: Row, o: Outcome)
    requires Sound(env, s) && row.id in s.rows && s.rows[row.id] == row
    requires row.deleted && row.status.Unsynced? ==> row.externalId.None?
    ensures var t := SyncEffect(s, row, o);
            row.id in t.rows &&
            match row.status
            case Synced => t == s
            case Unsynced => Reports(t.rows[row.id], o)
            case PendingDelete => ReportsDelete(t.rows[row.id], o)
  {
    if row.status.Unsynced? {
      if row.externalId.None? {
        AddReports(s, row, o);
      } else {
        assert Indexed(s, row);
        PatchReports(s, row, true, o);
      }
    }
  }

  /** A deleted row that waits for a first add has no document id. */
  predicate Settled(row: Row) { row.deleted && row.status.Unsynced? ==> row.externalId.None? }

  ghost predicate AllSettled(rows: map<Id, Row>) { forall id :: id in rows ==> Settled(rows[id]) }

  lemma TouchedStaysSettled(env: Env, s: Store, op: Op, id: Id)
    requires Sound(env, s) && id in s.rows && Settled(s.rows[id]) && !op.Create? && op.id == id
    ensures id in Effect(env, s, op).rows && Settled(Effect(env, s, op).rows[id])
  {
    if op.Update? && Refusal(env, s, op).None? { UpdateReadsBack(env, s, op.userId, id, op.patch, op.outcome); }
    if op.Delete? && Live(s.rows, id, op.userId) { DeleteReadsBack(env, s, op.userId, id, op.outcome); }
  }

  lemma OpKeepsSettled(env: Env, s: Store, op: Op)
    requires Sound(env, s) && AllSettled(s.rows)
    ensures AllSettled(Effect(env, s, op).rows)
  {
    var t := Effect(env, s, op);
    var touched := EffectIsLocal(env, s, op);
    forall id | id in t.rows ensures Settled(t.rows[id]) {
      if op.Create? {
        CreateAnswersExactly(env, s, op);
      } else if id == touched {
        if id in s.rows { TouchedStaysSettled(env, s, op, id); }
      }
    }
  }

  lemma {:induction false} RunsKeepSettled(env: Env, ops: seq<Op>)
    ensures AllSettled(RunOps(env, NOTHING, ops).rows)
    decreases |ops|
  {
    if ops != [] {
      RunsKeepSettled(env, ops[..|ops| - 1]);
      RunSound(env, NOTHING, ops[..|ops| - 1]);
      OpKeepsSettled(env, RunOps(env, NOTHING, ops[..|ops| - 1]), ops[|ops| - 1]);
    }
  }

  /** In every run, a sync changes no field of a memory, and reports the retry that its status
      asked for. */
  lemma SyncReadsBack(env: Env, ops: seq<Op>, userId: Id, id: Id, o: Outcome)
    requires var s := RunOps(env, NOTHING, ops); id in s.rows && s.rows[id].userId == userId
    ensures var s := RunOps(env, NOTHING, ops);
            var t := Effect(env, s, Sync(userId, id, o));
            OnlyRowChanged(s, t, id) && SameMemory(s.rows[id], t.rows[id]) && t.rows[id].deleted == s.rows[id].deleted &&
            match s.rows[id].status
            case Synced => t == s
            case Unsynced => Reports(t.rows[id], o)
            case PendingDelete => ReportsDelete(t.rows[id], o)
  {
    var s := RunOps(env, NOTHING, ops);
    RunSound(env, NOTHING, ops);
    RunsKeepSettled(env, ops);
    SyncKeepsMemory(env, s, userId, id, o);
    SyncReports(env, s, s.rows[id], o);
  }

  /** Deletes and syncs of somebody else's memory, or of none, are refused and change nothing. */
  lemma StrangersAreRefused(env: Env, s: Store, op: Op)
    requires (op.Delete? || op.Sync?) && !(op.id in s.rows && s.rows[op.id].userId == op.userId)
    ensures Refusal(env, s, op) == Some(NotFound) && Effect(env, s, op) == s
  {
  }

  // --------------------------------------------------------------------- the log

  /** What a log of calls leaves of a document. An add writes it and a patch rewrites it, if they
      land; a delete removes it, and one that reports a failure may have done so or not. */
  ghost predicate Leaves(calls: seq<Call>, id: Id, doc: Option<Doc>)
    decreases |calls|
  {
    if calls == [] then doc.None?
    else
      var init, c := calls[..|calls| - 1], calls[|calls| - 1];
      if c.id != id then Leaves(init, id, doc)
      else
        match c
        case AddCall(_, content, metadata, _, landed) =>
          if landed then doc == Some(Doc(content, metadata)) else Leaves(init, id, doc)
        case PatchCall(_, newContent, metadata, _, landed) =>
          if landed then (exists before :: Leaves(init, id, Some(before)) && doc == Some(Rewritten(before, newContent, metadata)))
          else Leaves(init, id, doc)
        case DeleteCall(_, ok) => doc.None? || (!ok && Leaves(init, id, doc))
  }

  function Rewritten(before: Doc, newContent: Option<string>, metadata: Metadata): Doc {
    Doc(if newContent.Some? then newContent.value else before.content, metadata)
  }

  function DocOf(docs: map<Id, Doc>, id: Id): Option<Doc> { if id in docs then Some(docs[id]) else None }

  ghost predicate LogExplains(s: Store) { forall id :: Leaves(s.calls, id, DocOf(s.docs, id)) }

  /** A call that is reported to have worked did. */
  predicate Honest(c: Call) { !c.DeleteCall? && c.ok ==> c.landed }

  /** A send logs one call, and touches no document but its own. */
  ghost predicate Logs(s: Store, t: Store) {
    exists c :: t.calls == s.calls + [c] && Honest(c) && Leaves(t.calls, c.id, DocOf(t.docs, c.id))
                && forall id :: id != c.id ==> DocOf(t.docs, id) == DocOf(s.docs, id)
  }

  lemma LogsExplain(s: Store, t: Store)
    requires LogExplains(s) && Logs(s, t)
    ensures LogExplains(t)
  {
    var c :| t.calls == s.calls + [c] && Honest(c) && Leaves(t.calls, c.id, DocOf(t.docs, c.id))
             && forall id :: id != c.id ==> DocOf(t.docs, id) == DocOf(s.docs, id);
    assert t.calls[..|t.calls| - 1] == s.calls;
  }

  lemma AddLogs(s: Store, row: Row, o: Outcome)
    requires LogExplains(s)
    ensures Logs(s, SendAdd(s, row, o))
  {
    var t := SendAdd(s, row, o);
    var c := t.calls[|t.calls| - 1];
    assert t.calls[..|t.calls| - 1] == s.calls && t.calls == s.calls + [c];
    assert Leaves(s.calls, c.id, DocOf(s.docs, c.id));
  }

  lemma PatchLogs(s: Store, row: Row, contentChanged: bool, o: Outcome)
    requires LogExplains(s) && row.externalId.Some?
    ensures Logs(s, SendPatch(s, row, contentChanged, o))
  {
    var t := SendPatch(s, row, contentChanged, o);
    var c := t.calls[|t.calls| - 1];
    assert t.calls[..|t.calls| - 1] == s.calls && t.calls == s.calls + [c];
    assert Leaves(s.calls, c.id, DocOf(s.docs, c.id));
  }

  lemma DeleteLogs(s: Store, row: Row, o: Outcome)
    requires LogExplains(s) && row.externalId.Some?
    ensures Logs(s, SendDelete(s, row, o))
  {
    var t := SendDelete(s, row, o);
    var c := t.calls[|t.calls| - 1];
    assert t.calls[..|t.calls| - 1] == s.calls && t.calls == s.calls + [c];
    assert Leaves(s.calls, c.id, DocOf(s.docs, c.id));
  }

  /** What every operation does to the index is one logged call, or nothing at all. */
  lemma OpLogs(env: Env, s: Store, op: Op)
    requires Sound(env, s) && LogExplains(s)
    ensures var t := Effect(env, s, op); Logs(s, t) || (t.calls == s.calls && t.docs == s.docs)
  {
    if Refusal(env, s, op).None? {
      match op {
        case Create(_, _, _, _, _, o) =>
          var plan := PlanOf(env, s, op);
          if plan.Insert? { AddLogs(s, plan.row, o); }
        case Update(userId, id, p, o) =>
          var row := Patched(env, s.rows[id], p);
          UpdateSends(env, s, userId, id, p, o);
          if row.externalId.None? { AddLogs(s, row, o); } else { PatchLogs(s, row, TextChanges(s.rows[id], p), o); }
        case Delete(userId, id, o) => if s.rows[id].externalId.Some? { DeleteLogs(s, s.rows[id].(deleted := true), o); }
        case Sync(userId, id, o) => SyncLogs(s, s.rows[id], o);
      }
    }
  }

  lemma SyncLogs(s: Store, row: Row, o: Outcome)
    requires LogExplains(s)
    ensures var t := SyncEffect(s, row, o); Logs(s, t) || (t.calls == s.calls && t.docs == s.docs)
  {
    if row.status.PendingDelete? {
      if row.externalId.Some? { DeleteLogs(s, row, o); }
    } else if row.status.Unsynced? {
      if row.externalId.None? { AddLogs(s, row, o); } else { PatchLogs(s, row, true, o); }
    }
  }

  /** Over every run, the index holds what the logged calls leave of it, and no call that landed
      nowhere is logged as a success. */
  lemma {:induction false} RunsAreLogged(env: Env, ops: seq<Op>)
    ensures var s := RunOps(env, NOTHING, ops);
            LogExplains(s) && forall i :: 0 <= i < |s.calls| ==> Honest(s.calls[i])
    decreases |ops|
  {
    if ops != [] {
      var s := RunOps(env, NOTHING, ops[..|ops| - 1]);
      var op := ops[|ops| - 1];
      RunsAreLogged(env, ops[..|ops| - 1]);
      RunSound(env, NOTHING, ops[..|ops| - 1]);
      OpLogs(env, s, op);
      if Logs(s, Effect(env, s, op)) { LogsExplain(s, Effect(env, s, op)); }
    }
  }

  // ------------------------------------------------------------------- every run

  /** The zone exists, and coordinates are a pair in range. */
  ghost predicate FieldsValid(env: Env, rows: map<Id, Row>) {
    forall id :: id in rows ==> env.zoneExists(rows[id].eventTz) && OnEarth(rows[id].lat, rows[id].lng)
  }

  lemma SameFieldsValid(env: Env, s: Store, t: Store, id: Id)
    requires FieldsValid(env, s.rows) && OnlyRowChanged(s, t, id)
    requires env.zoneExists(t.rows[id].eventTz) && OnEarth(t.rows[id].lat, t.rows[id].lng)
    ensures FieldsValid(env, t.rows)
  {
  }

  lemma OpKeepsFieldsValid(env: Env, s: Store, op: Op)
    requires Sound(env, s) && FieldsValid(env, s.rows)
    ensures FieldsValid(env, Effect(env, s, op).rows)
  {
    if Refusal(env, s, op).None? {
      match op {
        case Create(_, _, _, _, _, _) =>
          CreateAnswersExactly(env, s, op);
          if Answer(env, s, op).value !in s.rows { SameFieldsValid(env, s, Effect(env, s, op), Answer(env, s, op).value); }
        case Update(userId, id, p, o) =>
          UpdateReadsBack(env, s, userId, id, p, o);
          UpdateAnswersExactly(env, s, userId, id, p);
          SameFieldsValid(env, s, Effect(env, s, op), id);
        case Delete(userId, id, o) =>
          if !s.rows[id].deleted {
            DeleteReadsBack(env, s, userId, id, o);
            SameFieldsValid(env, s, Effect(env, s, op), id);
          }
        case Sync(userId, id, o) => SyncKeepsFieldsValid(env, s, op);
      }
    }
  }

  lemma SyncKeepsFieldsValid(env: Env, s: Store, op: Op)
    requires Sound(env, s) && FieldsValid(env, s.rows) && op.Sync? && Refusal(env, s, op).None?
    ensures FieldsValid(env, Effect(env, s, op).rows)
  {
    SyncKeepsMemory(env, s, op.userId, op.id, op.outcome);
    SameFieldsValid(env, s, Effect(env, s, op), op.id);
  }

  /** Over every run, each memory is in a zone that exists, and its coordinates are both missing or
      both there and on earth. */
  lemma {:induction false} RunsKeepFieldsValid(env: Env, ops: seq<Op>)
    ensures FieldsValid(env, RunOps(env, NOTHING, ops).rows)
    decreases |ops|
  {
    if ops != [] {
      RunsKeepFieldsValid(env, ops[..|ops| - 1]);
      RunSound(env, NOTHING, ops[..|ops| - 1]);
      OpKeepsFieldsValid(env, RunOps(env, NOTHING, ops[..|ops| - 1]), ops[|ops| - 1]);
    }
  }
}
