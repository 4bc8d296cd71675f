/** What every run of the memory operations keeps, whatever the remote calls do. */
module MemoryLaws {
  import opened Calendar
  import opened Locations
  import opened Prelude
  import opened MemoryService

  // ------------------------------------------------------------- the invariant

  predicate BodySound(env: Env, row: Row) {
    && row.text != "" && Strip(row.text) == row.text
    && row.contentHash == env.canonicalHash(row.text)
    && ValidLocation(row.lat, row.lng)
    && (row.externalId.Some? ==> row.externalId == Some(row.id))
  }

  predicate StatusSound(row: Row) {
    && (row.status.PendingDelete? ==> row.deleted && row.externalId.Some?)
    && (row.status.Synced? ==> row.externalId.Some?)
    && (row.status.Synced? <==> row.externalError.None?)
  }

  predicate Concerns(c: Call, id: Id) { c.id == id }

  predicate CarriesContent(c: Call) { c.AddCall? || (c.PatchCall? && c.newContent.Some?) }

  /** The last call about a row. */
  function LastCall(calls: seq<Call>, id: Id): Option<Call>
    decreases |calls|
  {
    if calls == [] then None
    else if Concerns(calls[|calls| - 1], id) then Some(calls[|calls| - 1])
    else LastCall(calls[..|calls| - 1], id)
  }

  /** The last call that sent a row's content. */
  function LastContentCall(calls: seq<Call>, id: Id): Option<Call>
    decreases |calls|
  {
    if calls == [] then None
    else
      var c := calls[|calls| - 1];
      if Concerns(c, id) && CarriesContent(c) then Some(c) else LastContentCall(calls[..|calls| - 1], id)
  }

  /** The content that last reached the index for a row. */
  function LastLanded(calls: seq<Call>, id: Id): Option<string>
    decreases |calls|
  {
    if calls == [] then None
    else
      var c := calls[|calls| - 1];
      if Concerns(c, id) && CarriesContent(c) && c.landed then Some(if c.AddCall? then c.content else c.newContent.value)
      else LastLanded(calls[..|calls| - 1], id)
  }

  /** A metadata-only update went through after a text send had failed, and no content has
      been sent since. */
  predicate TextLeftBehind(calls: seq<Call>, id: Id) {
    var last, content := LastCall(calls, id), LastContentCall(calls, id);
    content.Some? && !content.value.ok && last.Some? && last.value.ok && last.value.PatchCall? && last.value.newContent.None?
  }

  /** A live row with a remote document, against that document and the calls so far. */
  ghost predicate Indexed(s: Store, row: Row) {
    && row.id in s.docs
    && LastContentCall(s.calls, row.id).Some?
    && LastLanded(s.calls, row.id) == Some(s.docs[row.id].content)
    && (LastContentCall(s.calls, row.id).value.ok ==> s.docs[row.id].content == row.text)
    && (row.status.Synced? ==> s.docs[row.id].metadata == BuildMetadata(row))
    && (row.status.Synced? && !LastContentCall(s.calls, row.id).value.ok ==> TextLeftBehind(s.calls, row.id))
  }

  ghost predicate HashesUnique(rows: map<Id, Row>) {
    forall a, b, u, h :: Holds(rows, a, u, h) && Holds(rows, b, u, h) ==> a == b
  }

  ghost predicate RowsSound(env: Env, rows: map<Id, Row>) {
    forall id :: id in rows ==> rows[id].id == id && BodySound(env, rows[id]) && StatusSound(rows[id])
  }

  ghost predicate AllIndexed(s: Store) {
    forall id :: id in s.rows && !s.rows[id].deleted && s.rows[id].externalId.Some? ==> Indexed(s, s.rows[id])
  }

  ghost predicate Sound(env: Env, s: Store) {
    RowsSound(env, s.rows) && HashesUnique(s.rows) && AllIndexed(s)
  }

  // ------------------------------------------------------------- one remote send

  lemma LastCallSnoc(calls: seq<Call>, c: Call, id: Id)
    ensures LastCall(calls + [c], id) == if Concerns(c, id) then Some(c) else LastCall(calls, id)
    ensures LastContentCall(calls + [c], id) == if Concerns(c, id) && CarriesContent(c) then Some(c) else LastContentCall(calls, id)
    ensures LastLanded(calls + [c], id) ==
              if Concerns(c, id) && CarriesContent(c) && c.landed
              then Some(if c.AddCall? then c.content else c.newContent.value) else LastLanded(calls, id)
  {
    assert (calls + [c])[..|calls|] == calls;
  }

  /** A send about one row leaves the index agreement of the others alone. */
  lemma OthersStayIndexed(s: Store, t: Store, c: Call, row: Row)
    requires Indexed(s, row) && c.id != row.id && t.calls == s.calls + [c]
    requires row.id in t.docs && t.docs[row.id] == s.docs[row.id]
    ensures Indexed(t, row)
  {
    LastCallSnoc(s.calls, c, row.id);
  }

  /** A send that leaves its own row indexed leaves all rows indexed. */
  lemma WriteKeepsIndexed(s: Store, t: Store, c: Call, id: Id)
    requires AllIndexed(s) && (forall i :: i in s.rows ==> s.rows[i].id == i)
    requires t.calls == s.calls + [c] && c.id == id && id in t.rows
    requires forall i :: i != id ==> (i in t.rows <==> i in s.rows) && (i in s.rows ==> t.rows[i] == s.rows[i])
    requires forall i :: i != id && i in s.docs ==> i in t.docs && t.docs[i] == s.docs[i]
    requires !t.rows[id].deleted && t.rows[id].externalId.Some? ==> Indexed(t, t.rows[id])
    ensures AllIndexed(t)
  {
    forall i | i in t.rows && !t.rows[i].deleted && t.rows[i].externalId.Some? ensures Indexed(t, t.rows[i]) {
      if i != id { OthersStayIndexed(s, t, c, s.rows[i]); }
    }
  }

  /** The row that a send may write: sound, and its hash free among the live rows. */
  ghost predicate Writable(env: Env, s: Store, row: Row) {
    BodySound(env, row) && (!row.deleted ==> !Collides(s.rows, row))
  }

  lemma WriteKeepsRows(env: Env, rows: map<Id, Row>, row: Row)
    requires RowsSound(env, rows) && HashesUnique(rows)
    requires BodySound(env, row) && StatusSound(row) && (!row.deleted ==> !Collides(rows, row))
    ensures RowsSound(env, rows[row.id := row]) && HashesUnique(rows[row.id := row])
  {
    var next := rows[row.id := row];
    forall a, b, u, h | Holds(next, a, u, h) && Holds(next, b, u, h) ensures a == b {
      if a != row.id { assert Holds(rows, a, u, h); }
      if b != row.id { assert Holds(rows, b, u, h); }
    }
  }

  lemma SendAddSound(env: Env, s: Store, row: Row, o: Outcome)
    requires Sound(env, s) && Writable(env, s, row) && row.externalId.None?
    ensures Sound(env, SendAdd(s, row, o))
  {
    var t := SendAdd(s, row, o);
    var c := t.calls[|s.calls|];
    assert t.calls == s.calls + [c];
    WriteKeepsRows(env, s.rows, t.rows[row.id]);
    LastCallSnoc(s.calls, c, row.id);
    WriteKeepsIndexed(s, t, c, row.id);
  }

  /** The patched row itself: content sent now, or as before. */
  lemma PatchedStaysIndexed(s: Store, row: Row, contentChanged: bool, o: Outcome)
    requires row.externalId == Some(row.id) && row.id in s.rows && s.rows[row.id].id == row.id && Indexed(s, s.rows[row.id])
    requires !contentChanged ==> row.text == s.rows[row.id].text
    ensures var t := SendPatch(s, row, contentChanged, o); Indexed(t, t.rows[row.id])
  {
    var t := SendPatch(s, row, contentChanged, o);
    var c := t.calls[|s.calls|];
    assert t.calls == s.calls + [c];
    LastCallSnoc(s.calls, c, row.id);
  }

  lemma SendPatchIndexed(s: Store, row: Row, contentChanged: bool, o: Outcome)
    requires AllIndexed(s) && (forall i :: i in s.rows ==> s.rows[i].id == i)
    requires row.externalId == Some(row.id) && row.id in s.rows
    requires !row.deleted ==> !s.rows[row.id].deleted && s.rows[row.id].externalId.Some?
    requires !contentChanged ==> row.text == s.rows[row.id].text
    ensures AllIndexed(SendPatch(s, row, contentChanged, o))
  {
    var t := SendPatch(s, row, contentChanged, o);
    var c := t.calls[|s.calls|];
    assert t.calls == s.calls + [c];
    if !row.deleted { PatchedStaysIndexed(s, row, contentChanged, o); }
    WriteKeepsIndexed(s, t, c, row.id);
  }

  lemma SendPatchSound(env: Env, s: Store, row: Row, contentChanged: bool, o: Outcome)
    requires Sound(env, s) && Writable(env, s, row) && row.externalId.Some? && row.id in s.rows
    requires !row.status.PendingDelete?
    requires !row.deleted ==> !s.rows[row.id].deleted && s.rows[row.id].externalId.Some?
    requires !contentChanged ==> row.text == s.rows[row.id].text
    ensures Sound(env, SendPatch(s, row, contentChanged, o))
  {
    WriteKeepsRows(env, s.rows, SendPatch(s, row, contentChanged, o).rows[row.id]);
    SendPatchIndexed(s, row, contentChanged, o);
  }

  lemma SendDeleteSound(env: Env, s: Store, row: Row, o: Outcome)
    requires Sound(env, s) && BodySound(env, row) && row.externalId.Some? && row.deleted
    ensures Sound(env, SendDelete(s, row, o))
  {
    var t := SendDelete(s, row, o);
    var c := t.calls[|s.calls|];
    assert t.calls == s.calls + [c];
    WriteKeepsRows(env, s.rows, t.rows[row.id]);
    forall id | id in t.rows && !t.rows[id].deleted && t.rows[id].externalId.Some? ensures Indexed(t, t.rows[id]) {
      if id != row.id { OthersStayIndexed(s, t, c, s.rows[id]); }
    }
  }

  lemma StripIsStripped(s: string)
    ensures Strip(Strip(s)) == Strip(s)
  {
  }

  // -------------------------------------------------------------- one operation

  lemma CreateSound(env: Env, s: Store, op: Op)
    requires Sound(env, s) && op.Create?
    ensures Sound(env, Effect(env, s, op))
  {
    var plan := PlanOf(env, s, op);
    if plan.Insert? {
      StripIsStripped(op.draft.text);
      assert !Taken(s.rows, op.userId, plan.row.contentHash);
      SendAddSound(env, s, plan.row, op.outcome);
    }
  }

  lemma PatchedIsWritable(env: Env, s: Store, id: Id, p: Patch)
    requires Sound(env, s) && id in s.rows && PatchError(env, s.rows[id], p).None?
    requires !Collides(s.rows, Patched(env, s.rows[id], p))
    ensures Writable(env, s, Patched(env, s.rows[id], p))
  {
    if p.text.Some? { StripIsStripped(p.text.value); }
  }

  lemma UpdateSound(env: Env, s: Store, op: Op)
    requires Sound(env, s) && op.Update?
    ensures Sound(env, Effect(env, s, op))
  {
    if Refusal(env, s, op).None? {
      var before := s.rows[op.id];
      var row := Patched(env, before, op.patch);
      PatchedIsWritable(env, s, op.id, op.patch);
      if row.externalId.None? {
        SendAddSound(env, s, row, op.outcome);
      } else {
        SendPatchSound(env, s, row, TextChanges(before, op.patch), op.outcome);
      }
    }
  }

  lemma BuryLocally(env: Env, s: Store, id: Id)
    requires Sound(env, s) && id in s.rows && s.rows[id].externalId.None?
    ensures Sound(env, s.(rows := s.rows[id := s.rows[id].(deleted := true)]))
  {
    var row := s.rows[id].(deleted := true);
    var t := s.(rows := s.rows[id := row]);
    WriteKeepsRows(env, s.rows, row);
    forall i | i in t.rows && !t.rows[i].deleted && t.rows[i].externalId.Some? ensures Indexed(t, t.rows[i]) {
      assert Indexed(s, s.rows[i]);
    }
  }

  lemma DeleteSound(env: Env, s: Store, op: Op)
    requires Sound(env, s) && op.Delete?
    ensures Sound(env, Effect(env, s, op))
  {
    if Refusal(env, s, op).None? && !s.rows[op.id].deleted {
      if s.rows[op.id].externalId.None? {
        BuryLocally(env, s, op.id);
      } else {
        SendDeleteSound(env, s, s.rows[op.id].(deleted := true), op.outcome);
      }
    }
  }

  lemma NoCollisionWithItself(env: Env, s: Store, id: Id)
    requires Sound(env, s) && id in s.rows
    ensures Writable(env, s, s.rows[id])
  {
    var row := s.rows[id];
    if !row.deleted { assert Holds(s.rows, id, row.userId, row.contentHash); }
  }

  lemma SyncSound(env: Env, s: Store, op: Op)
    requires Sound(env, s) && op.Sync?
    ensures Sound(env, Effect(env, s, op))
  {
    if Refusal(env, s, op).None? {
      var row := s.rows[op.id];
      NoCollisionWithItself(env, s, op.id);
      if row.status.Unsynced? {
        if row.externalId.None? {
          SendAddSound(env, s, row, op.outcome);
        } else {
          SendPatchSound(env, s, row, true, op.outcome);
        }
      } else if row.status.PendingDelete? {
        SendDeleteSound(env, s, row, op.outcome);
      }
    }
  }

  lemma OpSound(env: Env, s: Store, op: Op)
    requires Sound(env, s)
    ensures Sound(env, Effect(env, s, op))
  {
    match op {
      case Create(_, _, _, _, _, _) => CreateSound(env, s, op);
      case Update(_, _, _, _) => UpdateSound(env, s, op);
      case Delete(_, _, _) => DeleteSound(env, s, op);
      case Sync(_, _, _) => SyncSound(env, s, op);
    }
  }

  lemma {:induction false} RunSound(env: Env, s: Store, ops: seq<Op>)
    requires Sound(env, s)
    ensures Sound(env, RunOps(env, s, ops))
    decreases |ops|
  {
    if ops != [] {
      RunSound(env, s, ops[..|ops| - 1]);
      OpSound(env, RunOps(env, s, ops[..|ops| - 1]), ops[|ops| - 1]);
    }
  }

  // ------------------------------------------------------------- main results

  const NOTHING: Store := Store(map[], map[], [])

  /** Over every run with failing and ambiguous remote calls: a live row marked synced has
      a document with exactly its metadata. The document has its text exactly when the last
      content that reached the index is that text, and it does unless a metadata-only update
      went through after a failed text send and no content was sent since. */
  lemma IndexAgreement(env: Env, ops: seq<Op>, id: Id)
    ensures var s := RunOps(env, NOTHING, ops);
            id in s.rows && !s.rows[id].deleted && s.rows[id].status.Synced? ==>
              s.rows[id].externalId == Some(id) && id in s.docs &&
              s.docs[id].metadata == BuildMetadata(s.rows[id]) &&
              (s.docs[id].content == s.rows[id].text <==> LastLanded(s.calls, id) == Some(s.rows[id].text)) &&
              (s.docs[id].content == s.rows[id].text || TextLeftBehind(s.calls, id))
  {
    RunSound(env, NOTHING, ops);
    var s := RunOps(env, NOTHING, ops);
    if id in s.rows && !s.rows[id].deleted && s.rows[id].status.Synced? {
      assert Indexed(s, s.rows[id]);
    }
  }

  /** Over every run: a pending delete is a deleted row with a document id, synced rows
      have a document id and no error, and all others have one; texts are stripped and not
      empty, hashes are those of the texts, coordinates are paired and in range, and no two
      live rows of a user share a hash. */
  lemma StoreInvariant(env: Env, ops: seq<Op>, a: Id, b: Id)
    ensures var rows := RunOps(env, NOTHING, ops).rows;
            (a in rows ==> rows[a].id == a && BodySound(env, rows[a]) && StatusSound(rows[a])) &&
            (a in rows && b in rows && a != b && !rows[a].deleted && !rows[b].deleted && rows[a].userId == rows[b].userId ==>
               rows[a].contentHash != rows[b].contentHash)
  {
    RunSound(env, NOTHING, ops);
    var rows := RunOps(env, NOTHING, ops).rows;
    if a in rows && b in rows && !rows[a].deleted && !rows[b].deleted && rows[a].userId == rows[b].userId
       && rows[a].contentHash == rows[b].contentHash {
      assert Holds(rows, a, rows[a].userId, rows[a].contentHash) && Holds(rows, b, rows[a].userId, rows[a].contentHash);
    }
  }

  /** The branch that `sync_memory` calls inconsistent (a pending delete without a document
      id) is never taken, and a pending delete is never live. */
  lemma InconsistentBranchIsDead(env: Env, ops: seq<Op>, id: Id)
    ensures var rows := RunOps(env, NOTHING, ops).rows;
            id in rows && rows[id].status.PendingDelete? ==> rows[id].externalId.Some? && rows[id].deleted
  {
    RunSound(env, NOTHING, ops);
  }

  // ---------------------------------------------------------- text left behind

  const NO_PATCH: Patch := Patch(None, None, None, None, None, None, None)

  /** Create, a text update whose send fails, then a date update that goes through. */
  function LeaveTextBehind(userId: Id, d: Draft, id: Id, text: string, date: Day): seq<Op> {
    [Create(userId, d, Some(id), id, 0, Succeeds),
     Update(userId, id, NO_PATCH.(text := Some(text)), FailsUntouched("MemoryClientTransientError")),
     Update(userId, id, NO_PATCH.(eventDate := Some(date)), Succeeds)]
  }

  lemma RunSnoc(env: Env, s: Store, ops: seq<Op>, op: Op)
    ensures RunOps(env, s, ops + [op]) == Effect(env, RunOps(env, s, ops), op)
  {
    assert (ops + [op])[..|ops|] == ops;
  }

  lemma RunThree(env: Env, s: Store, a: Op, b: Op, c: Op)
    ensures RunOps(env, s, [a, b, c]) == Effect(env, Effect(env, Effect(env, s, a), b), c)
  {
    RunSnoc(env, s, [], a);
    RunSnoc(env, s, [a], b);
    RunSnoc(env, s, [a, b], c);
    assert [] + [a] == [a] && [a] + [b] == [a, b] && [a, b] + [c] == [a, b, c];
  }

  predicate Stripped(s: string) { s != "" && Clean(IsPySpace, s) }

  /** The exception of the index agreement does happen: such a run ends with a live row
      marked synced, without an error, whose document has another text. */
  lemma SyncedRowCanHaveOldText(env: Env, userId: Id, d: Draft, id: Id, text: string, date: Day)
    requires env.zoneExists(d.eventTz) && ValidLocation(d.lat, d.lng)
    requires Stripped(d.text) && Stripped(text) && text != d.text
    ensures var s := RunOps(env, NOTHING, LeaveTextBehind(userId, d, id, text, date));
            id in s.rows && !s.rows[id].deleted && s.rows[id].status.Synced? && s.rows[id].externalError.None? &&
            id in s.docs && s.docs[id].content == d.text && s.rows[id].text == text
  {
    var ops := LeaveTextBehind(userId, d, id, text, date);
    RunThree(env, NOTHING, ops[0], ops[1], ops[2]);
    var row := NewRow(env, userId, d, id, 0);
    assert PlanOf(env, NOTHING, ops[0]) == Insert(row);
    var s1 := Effect(env, NOTHING, ops[0]);
    assert s1 == SendAdd(NOTHING, row, Succeeds);
    StepTwo(env, s1, userId, id, row, text);
    var s2 := Effect(env, s1, ops[1]);
    StepThree(env, s2, userId, id, date);
  }

  /** One row and its document. */
  ghost predicate OnlyRow(s: Store, userId: Id, id: Id, content: string) {
    && s.rows.Keys == {id} && s.rows[id].id == id && s.rows[id].userId == userId && !s.rows[id].deleted
    && s.rows[id].externalId == Some(id) && ValidLocation(s.rows[id].lat, s.rows[id].lng)
    && id in s.docs && s.docs[id].content == content
  }

  lemma StepTwo(env: Env, s: Store, userId: Id, id: Id, row: Row, text: string)
    requires id in s.rows && OnlyRow(s, userId, id, s.rows[id].text) && Strip(text) != "" && Strip(text) != s.rows[id].text
    ensures var t := Effect(env, s, Update(userId, id, NO_PATCH.(text := Some(text)), FailsUntouched("MemoryClientTransientError")));
            OnlyRow(t, userId, id, s.rows[id].text) && t.rows[id].text == Strip(text)
  {
    var p := NO_PATCH.(text := Some(text));
    assert PatchError(env, s.rows[id], p).None?;
    assert !Collides(s.rows, Patched(env, s.rows[id], p));
  }

  lemma StepThree(env: Env, s: Store, userId: Id, id: Id, date: Day)
    requires id in s.rows && id in s.docs && OnlyRow(s, userId, id, s.docs[id].content)
    ensures var t := Effect(env, s, Update(userId, id, NO_PATCH.(eventDate := Some(date)), Succeeds));
            OnlyRow(t, userId, id, s.docs[id].content) && t.rows[id].text == s.rows[id].text &&
            t.rows[id].status.Synced? && t.rows[id].externalError.None?
  {
    var p := NO_PATCH.(eventDate := Some(date));
    assert PatchError(env, s.rows[id], p).None?;
    assert !Collides(s.rows, Patched(env, s.rows[id], p));
  }

  /** The document has the row's text. */
  predicate TextAgrees(s: Store, id: Id) { id in s.docs && id in s.rows && s.docs[id].content == s.rows[id].text }

  /** An update that ends synced leaves the right text exactly when it sends the text: the
      text changed, there was no document yet, or the text agreed before. */
  lemma UpdateAgreesExactly(env: Env, s: Store, userId: Id, id: Id, p: Patch, o: Outcome)
    requires Sound(env, s) && UpdateError(env, s, userId, id, p).None?
    requires Effect(env, s, Update(userId, id, p, o)).rows[id].status.Synced?
    ensures var t := Effect(env, s, Update(userId, id, p, o));
            id in t.docs && t.docs[id].metadata == BuildMetadata(t.rows[id]) &&
            (TextAgrees(t, id) <==> s.rows[id].externalId.None? || TextChanges(s.rows[id], p) || TextAgrees(s, id))
  {
    if s.rows[id].externalId.Some? { assert Indexed(s, s.rows[id]); }
  }

  /** A sync that ends synced repairs exactly the rows that were marked unsynced. */
  lemma SyncAgreesExactly(env: Env, s: Store, userId: Id, id: Id, o: Outcome)
    requires Sound(env, s) && Live(s.rows, id, userId)
    requires Effect(env, s, Sync(userId, id, o)).rows[id].status.Synced?
    ensures var t := Effect(env, s, Sync(userId, id, o));
            id in t.docs && t.docs[id].metadata == BuildMetadata(t.rows[id]) &&
            (TextAgrees(t, id) <==> s.rows[id].status.Unsynced? || TextAgrees(s, id))
  {
    if s.rows[id].externalId.Some? { assert Indexed(s, s.rows[id]); }
  }

  // ---------------------------------------------------------- deletion is final

  /** A row that was deleted while it had a document: its document is gone, or its delete
      is pending. */
  ghost predicate Buried(s: Store, id: Id) {
    && id in s.rows && s.rows[id].id == id && s.rows[id].deleted && s.rows[id].externalId == Some(id)
    && (s.rows[id].status.PendingDelete? || (s.rows[id].status.Synced? && id !in s.docs))
  }

  /** The calls made since `before` that concern a row are deletes. */
  ghost predicate OnlyDeletesSince(before: seq<Call>, calls: seq<Call>, id: Id) {
    before <= calls && forall i :: |before| <= i < |calls| && Concerns(calls[i], id) ==> calls[i].DeleteCall?
  }

  /** Only one row and its document may differ, and at most one call was made, about them. */
  ghost predicate Local(s: Store, t: Store, id: Id) {
    && (forall i :: i != id ==> (i in t.rows <==> i in s.rows) && (i in s.rows ==> t.rows[i] == s.rows[i]))
    && (forall i :: i != id ==> (i in t.docs <==> i in s.docs) && (i in s.docs ==> t.docs[i] == s.docs[i]))
    && (t.calls == s.calls || exists c :: t.calls == s.calls + [c] && c.id == id)
  }

  lemma SendAddIsLocal(s: Store, row: Row, o: Outcome)
    ensures Local(s, SendAdd(s, row, o), row.id)
  {
    var t := SendAdd(s, row, o);
    assert t.calls == s.calls + [t.calls[|s.calls|]];
  }

  lemma SendPatchIsLocal(s: Store, row: Row, contentChanged: bool, o: Outcome)
    requires row.externalId == Some(row.id)
    ensures Local(s, SendPatch(s, row, contentChanged, o), row.id)
  {
    var t := SendPatch(s, row, contentChanged, o);
    assert t.calls == s.calls + [t.calls[|s.calls|]];
  }

  lemma SendDeleteIsLocal(s: Store, row: Row, o: Outcome)
    requires row.externalId == Some(row.id)
    ensures Local(s, SendDelete(s, row, o), row.id)
  {
    assert SendDelete(s, row, o).calls == s.calls + [DeleteCall(row.id, o.Succeeds?)];
  }

  lemma CreateIsLocal(env: Env, s: Store, op: Op) returns (touched: Id)
    requires op.Create?
    ensures Local(s, Effect(env, s, op), touched)
    ensures touched in s.rows ==> Effect(env, s, op) == s
  {
    var plan := PlanOf(env, s, op);
    touched := if plan.Insert? then plan.row.id else op.freshId;
    if plan.Insert? { SendAddIsLocal(s, plan.row, op.outcome); }
  }

  lemma UpdateIsLocal(env: Env, s: Store, op: Op)
    requires Sound(env, s) && op.Update?
    ensures Local(s, Effect(env, s, op), op.id)
  {
    if Refusal(env, s, op).None? {
      var row := Patched(env, s.rows[op.id], op.patch);
      if row.externalId.None? {
        SendAddIsLocal(s, row, op.outcome);
      } else {
        SendPatchIsLocal(s, row, TextChanges(s.rows[op.id], op.patch), op.outcome);
      }
    }
  }

  lemma DeleteIsLocal(env: Env, s: Store, op: Op)
    requires Sound(env, s) && op.Delete?
    ensures Local(s, Effect(env, s, op), op.id)
  {
    if Refusal(env, s, op).None? && s.rows[op.id].externalId.Some? {
      SendDeleteIsLocal(s, s.rows[op.id].(deleted := true), op.outcome);
    }
  }

  lemma SyncIsLocal(env: Env, s: Store, op: Op)
    requires Sound(env, s) && op.Sync?
    ensures Local(s, Effect(env, s, op), op.id)
  {
    if Refusal(env, s, op).None? {
      var row := s.rows[op.id];
      match row.status {
        case Synced =>
        case Unsynced =>
          if row.externalId.None? { SendAddIsLocal(s, row, op.outcome); } else { SendPatchIsLocal(s, row, true, op.outcome); }
        case PendingDelete =>
          SendDeleteIsLocal(s, row, op.outcome);
      }
    }
  }

  /** Every operation writes one row, makes at most one call, about that row's document,
      and leaves all other rows and documents as they were; a create that writes, writes a
      row that was not there. */
  lemma EffectIsLocal(env: Env, s: Store, op: Op) returns (touched: Id)
    requires Sound(env, s)
    ensures Local(s, Effect(env, s, op), touched)
    ensures !op.Create? ==> touched == op.id
    ensures op.Create? && touched in s.rows ==> Effect(env, s, op) == s
  {
    match op {
      case Create(_, _, _, _, _, _) => touched := CreateIsLocal(env, s, op);
      case Update(_, id, _, _) => touched := id; UpdateIsLocal(env, s, op);
      case Delete(_, id, _) => touched := id; DeleteIsLocal(env, s, op);
      case Sync(_, id, _) => touched := id; SyncIsLocal(env, s, op);
    }
  }

  /** An operation on the buried row itself makes at most a delete call. */
  lemma BuriedTouched(env: Env, s: Store, op: Op, id: Id)
    requires Sound(env, s) && Buried(s, id) && (op.Update? || op.Delete? || op.Sync?) && op.id == id
    ensures var t := Effect(env, s, op);
            Buried(t, id) && (t.calls == s.calls || exists c :: t.calls == s.calls + [c] && c.DeleteCall?)
  {
    if op.Sync? && Refusal(env, s, op).None? && s.rows[id].status.PendingDelete? {
      var t := Effect(env, s, op);
      assert t.calls == s.calls + [DeleteCall(id, op.outcome.Succeeds?)];
    }
  }

  /** An operation on another row leaves it alone. */
  lemma BuriedElsewhere(s: Store, t: Store, touched: Id, id: Id)
    requires Buried(s, id) && Local(s, t, touched) && touched != id
    ensures Buried(t, id) && OnlyDeletesSince(s.calls, t.calls, id)
  {
    if t.calls != s.calls {
      var c :| t.calls == s.calls + [c] && c.id == touched;
    }
  }

  lemma BuriedStep(env: Env, s: Store, op: Op, id: Id)
    requires Sound(env, s) && Buried(s, id)
    ensures Buried(Effect(env, s, op), id) && OnlyDeletesSince(s.calls, Effect(env, s, op).calls, id)
  {
    var touched := EffectIsLocal(env, s, op);
    if touched != id {
      BuriedElsewhere(s, Effect(env, s, op), touched, id);
    } else if !op.Create? {
      BuriedTouched(env, s, op, id);
    }
  }

  lemma {:induction false} BuriedRun(env: Env, s: Store, ops: seq<Op>, id: Id)
    requires Sound(env, s) && Buried(s, id)
    ensures Buried(RunOps(env, s, ops), id) && OnlyDeletesSince(s.calls, RunOps(env, s, ops).calls, id)
    decreases |ops|
  {
    if ops != [] {
      var init := ops[..|ops| - 1];
      BuriedRun(env, s, init, id);
      RunSound(env, s, init);
      BuriedStep(env, RunOps(env, s, init), ops[|ops| - 1], id);
    }
  }

  /** What happens without a document id: one sync re-creates the deleted memory remotely. */
  lemma SyncResurrects(env: Env, s: Store, userId: Id, id: Id, o: Outcome)
    requires Sound(env, s) && Live(s.rows, id, userId) && s.rows[id].externalId.None?
    ensures var t := Effect(env, Effect(env, s, Delete(userId, id, o)), Sync(userId, id, Succeeds));
            t.rows[id].deleted && t.rows[id].status.Synced? && id in t.docs && t.docs[id].content == s.rows[id].text
  {
  }

  /** Every later run leaves the row deleted, its document gone once it is synced, and makes
      only delete calls about it. */
  ghost predicate StaysDeleted(env: Env, s: Store, id: Id) {
    forall ops :: var t := RunOps(env, s, ops);
      id in t.rows && t.rows[id].deleted && (t.rows[id].status.Synced? ==> id !in t.docs) &&
      OnlyDeletesSince(s.calls, t.calls, id)
  }

  /** Deleting a live row is final exactly when the row carries a document id: without one
      a later sync adds it to the index. */
  lemma DeletionIsFinalExactly(env: Env, s: Store, userId: Id, id: Id, o: Outcome)
    requires Sound(env, s) && Live(s.rows, id, userId)
    ensures StaysDeleted(env, Effect(env, s, Delete(userId, id, o)), id) <==> s.rows[id].externalId.Some?
  {
    var op := Delete(userId, id, o);
    var t := Effect(env, s, op);
    DeleteSound(env, s, op);
    if s.rows[id].externalId.Some? {
      assert Buried(t, id);
      forall ops ensures var u := RunOps(env, t, ops);
        id in u.rows && u.rows[id].deleted && (u.rows[id].status.Synced? ==> id !in u.docs) &&
        OnlyDeletesSince(t.calls, u.calls, id)
      {
        BuriedRun(env, t, ops, id);
      }
    } else {
      SyncResurrects(env, s, userId, id, o);
      var sync := Sync(userId, id, Succeeds);
      RunSnoc(env, t, [], sync);
      assert [] + [sync] == [sync] && RunOps(env, t, [sync]) == Effect(env, t, sync);
    }
  }

  // ------------------------------------------------ documents left behind by a delete

  /** A row without a document id has a document exactly when an add for it landed although
      it was reported to have failed. */
  ghost predicate LooseAt(s: Store, id: Id) {
    id !in s.rows || s.rows[id].externalId.None? ==> (id in s.docs <==> LastLanded(s.calls, id).Some?)
  }

  ghost predicate Loose(s: Store) { forall id :: LooseAt(s, id) }

  lemma LooseElsewhere(s: Store, t: Store, touched: Id, id: Id)
    requires LooseAt(s, id) && Local(s, t, touched) && touched != id
    ensures LooseAt(t, id)
  {
    if t.calls != s.calls {
      var c :| t.calls == s.calls + [c] && c.id == touched;
      LastCallSnoc(s.calls, c, id);
    }
  }

  lemma LooseAdd(s: Store, row: Row, o: Outcome)
    requires LooseAt(s, row.id) && (row.id in s.rows ==> s.rows[row.id].externalId.None?)
    ensures LooseAt(SendAdd(s, row, o), row.id)
  {
    var t := SendAdd(s, row, o);
    var c := t.calls[|s.calls|];
    assert t.calls == s.calls + [c];
    LastCallSnoc(s.calls, c, row.id);
  }

  lemma LooseUpdate(env: Env, s: Store, op: Op)
    requires Sound(env, s) && Loose(s) && op.Update?
    ensures LooseAt(Effect(env, s, op), op.id)
  {
    assert LooseAt(s, op.id);
    if Refusal(env, s, op).None? && s.rows[op.id].externalId.None? {
      LooseAdd(s, Patched(env, s.rows[op.id], op.patch), op.outcome);
    }
  }

  lemma LooseSync(env: Env, s: Store, op: Op)
    requires Sound(env, s) && Loose(s) && op.Sync?
    ensures LooseAt(Effect(env, s, op), op.id)
  {
    assert LooseAt(s, op.id);
    if Refusal(env, s, op).None? && s.rows[op.id].externalId.None? && s.rows[op.id].status.Unsynced? {
      LooseAdd(s, s.rows[op.id], op.outcome);
    }
  }

  lemma LooseTouched(env: Env, s: Store, op: Op, touched: Id)
    requires Sound(env, s) && Loose(s) && (op.Create? || touched == op.id)
    requires Local(s, Effect(env, s, op), touched) && (op.Create? && touched in s.rows ==> Effect(env, s, op) == s)
    ensures LooseAt(Effect(env, s, op), touched)
  {
    assert LooseAt(s, touched);
    match op {
      case Create(_, _, _, _, _, _) =>
        var plan := PlanOf(env, s, op);
        if plan.Insert? && plan.row.id == touched { LooseAdd(s, plan.row, op.outcome); }
      case Update(_, _, _, _) => LooseUpdate(env, s, op);
      case Delete(_, _, _) =>
      case Sync(_, _, _) => LooseSync(env, s, op);
    }
  }

  lemma LooseStep(env: Env, s: Store, op: Op)
    requires Sound(env, s) && Loose(s)
    ensures Loose(Effect(env, s, op))
  {
    var touched := EffectIsLocal(env, s, op);
    forall id ensures LooseAt(Effect(env, s, op), id) {
      if id == touched {
        LooseTouched(env, s, op, touched);
      } else {
        LooseElsewhere(s, Effect(env, s, op), touched, id);
      }
    }
  }

  lemma {:induction false} RunLoose(env: Env, ops: seq<Op>)
    ensures Loose(RunOps(env, NOTHING, ops))
    decreases |ops|
  {
    if ops != [] {
      RunLoose(env, ops[..|ops| - 1]);
      RunSound(env, NOTHING, ops[..|ops| - 1]);
      LooseStep(env, RunOps(env, NOTHING, ops[..|ops| - 1]), ops[|ops| - 1]);
    }
  }

  /** After the delete of a live row in any run its document is gone exactly when: the row
      carried a document id and the remote delete took effect; or it carried none, and no
      add for it had landed. */
  lemma DeletedDocumentIsGoneExactly(env: Env, ops: seq<Op>, userId: Id, id: Id, o: Outcome)
    requires Live(RunOps(env, NOTHING, ops).rows, id, userId)
    ensures var s := RunOps(env, NOTHING, ops);
            var t := Effect(env, s, Delete(userId, id, o));
            (id !in t.docs <==> if s.rows[id].externalId.Some? then !o.FailsUntouched? else LastLanded(s.calls, id).None?) &&
            (s.rows[id].externalId.None? ==> t.calls == s.calls)
  {
    var s := RunOps(env, NOTHING, ops);
    RunSound(env, NOTHING, ops);
    RunLoose(env, ops);
    assert LooseAt(s, id);
    if s.rows[id].externalId.Some? { assert Indexed(s, s.rows[id]); }
  }

  /** Such an add happens: reported as failed after it took effect, its document outlives the
      delete of the memory, whatever the delete's remote outcome would have been. */
  lemma FailedAddIsLeftBehind(env: Env, userId: Id, d: Draft, id: Id, now: int, errorName: string, o: Outcome)
    requires ValidDraft(env, d)
    ensures var s := Effect(env, NOTHING, Create(userId, d, None, id, now, FailsApplied(errorName)));
            var t := Effect(env, s, Delete(userId, id, o));
            Live(s.rows, id, userId) && t.rows[id].deleted && t.calls == s.calls &&
            id in t.docs && t.docs[id].content == Strip(d.text)
  {
    assert PlanOf(env, NOTHING, Create(userId, d, None, id, now, FailsApplied(errorName)))
        == Insert(NewRow(env, userId, d, id, now));
  }

  /** A deleted row without a document id. */
  ghost predicate Unlinked(s: Store, id: Id) {
    id in s.rows && s.rows[id].id == id && s.rows[id].deleted && s.rows[id].externalId.None?
  }

  ghost predicate Unsynchronised(ops: seq<Op>, id: Id) {
    forall i :: 0 <= i < |ops| ==> !(ops[i].Sync? && ops[i].id == id)
  }

  lemma UnlinkedStep(env: Env, s: Store, op: Op, id: Id)
    requires Sound(env, s) && Unlinked(s, id) && !(op.Sync? && op.id == id)
    ensures var t := Effect(env, s, op);
            Unlinked(t, id) && (id in t.docs <==> id in s.docs) && (id in s.docs ==> t.docs[id] == s.docs[id])
  {
    var touched := EffectIsLocal(env, s, op);
  }

  /** A document that a delete left behind is there for good: nothing but a sync of its row
      ever touches it again. */
  lemma {:induction false} LeftDocumentStays(env: Env, s: Store, ops: seq<Op>, id: Id)
    requires Sound(env, s) && Unlinked(s, id) && Unsynchronised(ops, id)
    ensures var t := RunOps(env, s, ops);
            Unlinked(t, id) && (id in t.docs <==> id in s.docs) && (id in s.docs ==> t.docs[id] == s.docs[id])
    decreases |ops|
  {
    if ops != [] {
      var init := ops[..|ops| - 1];
      assert forall i :: 0 <= i < |init| ==> init[i] == ops[i];
      LeftDocumentStays(env, s, init, id);
      RunSound(env, s, init);
      UnlinkedStep(env, RunOps(env, s, init), ops[|ops| - 1], id);
    }
  }

  // -------------------------------------------------------------- idempotence

  /** The row that a create answers with, or its error. */
  ghost function Answer(env: Env, s: Store, op: Op): Result<Id, MemoryError>
    requires op.Create?
  {
    match PlanOf(env, s, op)
    case Reject(e) => Err(e)
    case Existing(id) => Ok(id)
    case Insert(row) => Ok(row.id)
  }

  /** The same create request; ids drawn, clock and remote outcome may differ. */
  predicate SameCreate(a: Op, b: Op) {
    a.Create? && b.Create? && a.userId == b.userId && a.draft == b.draft && a.idempotencyId == b.idempotencyId
  }

  /** Whatever is already there answers again. */
  lemma DedupedAgain(env: Env, rows: map<Id, Row>, op: Op, again: Op, first: CreatePlan, second: CreatePlan)
    requires HashesUnique(rows) && SameCreate(op, again) && first.Existing?
    requires PlansCreate(env, rows, op.userId, op.draft, op.idempotencyId, op.freshId, op.now, first)
    requires PlansCreate(env, rows, again.userId, again.draft, again.idempotencyId, again.freshId, again.now, second)
    ensures second == first
  {
    var digest := env.canonicalHash(Strip(op.draft.text));
    if Holds(rows, first.id, op.userId, digest) { assert Taken(rows, op.userId, digest); }
  }

  /** With a live row of this text, under this idempotency id if there is one, a create
      answers with that row. */
  lemma HeldIsAnswered(env: Env, rows: map<Id, Row>, op: Op, id: Id, plan: CreatePlan)
    requires op.Create? && HashesUnique(rows) && ValidDraft(env, op.draft)
    requires Holds(rows, id, op.userId, env.canonicalHash(Strip(op.draft.text)))
    requires op.idempotencyId.Some? ==> op.idempotencyId.value == id
    requires PlansCreate(env, rows, op.userId, op.draft, op.idempotencyId, op.freshId, op.now, plan)
    ensures plan == Existing(id)
  {
    if op.idempotencyId.None? {
      assert Taken(rows, op.userId, env.canonicalHash(Strip(op.draft.text)));
    }
  }

  lemma InsertedAgain(env: Env, s: Store, op: Op, again: Op)
    requires Sound(env, s) && op.Create? && PlanOf(env, s, op).Insert?
    requires SameCreate(op, again)
    ensures PlanOf(env, Effect(env, s, op), again) == Existing(PlanOf(env, s, op).row.id)
  {
    var row, t := PlanOf(env, s, op).row, Effect(env, s, op);
    CreateSound(env, s, op);
    assert Holds(t.rows, row.id, op.userId, row.contentHash);
    HeldIsAnswered(env, t.rows, again, row.id, PlanOf(env, t, again));
  }

  /** Repeating a create at once, with the same text and idempotency id, returns the same
      row, changes nothing and calls nobody, whatever became of the first remote call. */
  lemma CreateIsIdempotent(env: Env, s: Store, op: Op, again: Op)
    requires Sound(env, s) && op.Create? && Refusal(env, s, op).None?
    requires SameCreate(op, again)
    ensures var t := Effect(env, s, op);
            Effect(env, t, again) == t && Answer(env, t, again) == Answer(env, s, op)
  {
    if PlanOf(env, s, op).Existing? {
      DedupedAgain(env, s.rows, op, again, PlanOf(env, s, op), PlanOf(env, s, again));
    } else {
      InsertedAgain(env, s, op, again);
    }
  }
}
