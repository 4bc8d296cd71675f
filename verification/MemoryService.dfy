/** The memory rows and the remote index derived from them (app/services/memory.py,
    app/models/memory.py). */
module MemoryService {
  import opened Calendar
  import opened Locations
  import opened Prelude

  type Digest = nat

  // ------------------------------------------------------------------ the data

  datatype ExternalStatus = Synced | Unsynced | PendingDelete

  datatype Row = Row(
    id: Id, userId: Id, text: string, eventDate: Day, eventTime: Option<int>, eventTz: string,
    lat: Option<real>, lng: Option<real>, locationLabel: Option<string>, contentHash: Digest,
    externalId: Option<Id>, status: ExternalStatus, externalError: Option<string>, createdAt: int, deleted: bool)

  datatype Metadata = Metadata(eventDate: Day, eventTz: string, createdAt: int,
                               locationLabel: Option<string>, coordinates: Option<(real, real)>)

  /** A document of the remote index, which is keyed by the row's id. */
  datatype Doc = Doc(content: string, metadata: Metadata)

  /** A call to the remote index: whether it reported success, and whether it took effect,
      which the service does not get to know. */
  datatype Call =
    | AddCall(id: Id, content: string, metadata: Metadata, ok: bool, landed: bool)
    | PatchCall(id: Id, newContent: Option<string>, metadata: Metadata, ok: bool, landed: bool)
    | DeleteCall(id: Id, ok: bool)

  /** How a remote call turns out; it may fail after it took effect. */
  datatype Outcome = Succeeds | FailsUntouched(errorName: string) | FailsApplied(errorName: string)

  datatype Store = Store(rows: map<Id, Row>, docs: map<Id, Doc>, calls: seq<Call>)

  datatype MemoryError = NotFound | Duplicate | ValidationError | IdempotencyReused | IntegrityError

  /** `canonical_hash`, and whether a time-zone name exists. */
  datatype Env = Env(canonicalHash: string -> Digest, zoneExists: string -> bool)

  function Strip(s: string): string { Trim(IsPySpace, s) }

  function BuildMetadata(row: Row): Metadata {
    Metadata(row.eventDate, row.eventTz, row.createdAt,
             if row.locationLabel.Some? && row.locationLabel.value != "" then row.locationLabel else None,
             if row.lat.Some? && row.lng.Some? then Some((row.lat.value, row.lng.value)) else None)
  }

  // ---------------------------------------------------------- the remote index

  function Applied(docs: map<Id, Doc>, id: Id, doc: Doc, o: Outcome): map<Id, Doc> {
    if o.FailsUntouched? then docs else docs[id := doc]
  }

  /** The error that a call raises, if any. */
  function Raised(o: Outcome): Option<string> { if o.Succeeds? then None else Some(o.errorName) }

  /** A patch of a document that is not there is refused whatever else happens. */
  function PatchOutcome(docs: map<Id, Doc>, id: Id, o: Outcome): Outcome {
    if id !in docs && !o.FailsUntouched? then FailsUntouched("MemoryClientNotFoundError") else o
  }

  function Failed(row: Row, errorName: string): Row {
    row.(status := Unsynced, externalError := Some(errorName))
  }

  /** `_send_to_supermemory_add`, then the commit. */
  function SendAdd(s: Store, row: Row, o: Outcome): Store {
    var sent := if o.Succeeds? then row.(externalId := Some(row.id), status := Synced, externalError := None)
                else Failed(row, o.errorName);
    Store(s.rows[row.id := sent], Applied(s.docs, row.id, Doc(row.text, BuildMetadata(row)), o),
          s.calls + [AddCall(row.id, row.text, BuildMetadata(row), o.Succeeds?, !o.FailsUntouched?)])
  }

  /** `_send_to_supermemory_patch`, then the commit. */
  function SendPatch(s: Store, row: Row, contentChanged: bool, o: Outcome): Store
    requires row.externalId.Some?
  {
    var doc := row.externalId.value;
    var actual := PatchOutcome(s.docs, doc, o);
    var content := if contentChanged then Some(row.text) else None;
    var patched := if doc in s.docs
                   then Applied(s.docs, doc, Doc(if contentChanged then row.text else s.docs[doc].content, BuildMetadata(row)), actual)
                   else s.docs;
    var sent := if actual.Succeeds? then row.(status := Synced, externalError := None) else Failed(row, actual.errorName);
    Store(s.rows[row.id := sent], patched,
          s.calls + [PatchCall(doc, content, BuildMetadata(row), actual.Succeeds?, !actual.FailsUntouched?)])
  }

  /** A remote delete; an absent document counts as deleted. */
  function SendDelete(s: Store, row: Row, o: Outcome): Store
    requires row.externalId.Some?
  {
    var doc := row.externalId.value;
    var sent := if o.Succeeds? then row.(status := Synced, externalError := None)
                else row.(status := PendingDelete, externalError := Some(o.errorName));
    Store(s.rows[row.id := sent], if o.FailsUntouched? then s.docs else s.docs - {doc},
          s.calls + [DeleteCall(doc, o.Succeeds?)])
  }

  // ------------------------------------------------------------- the operations

  datatype Draft = Draft(text: string, eventDate: Day, eventTz: string, eventTime: Option<int>,
                         lat: Option<real>, lng: Option<real>, locationLabel: Option<string>)

  /** The fields of an update; `None` is a field that the caller left out. */
  datatype Patch = Patch(text: Option<string>, eventDate: Option<Day>, eventTime: Option<Option<int>>,
                         eventTz: Option<string>, lat: Option<Option<real>>, lng: Option<Option<real>>,
                         locationLabel: Option<Option<string>>)

  predicate Live(rows: map<Id, Row>, id: Id, userId: Id) {
    id in rows && rows[id].userId == userId && !rows[id].deleted
  }

  /** A live row of the user with this hash: what `ux_memories_user_content_hash` looks at. */
  predicate Holds(rows: map<Id, Row>, id: Id, userId: Id, digest: Digest) {
    Live(rows, id, userId) && rows[id].contentHash == digest
  }

  ghost predicate Taken(rows: map<Id, Row>, userId: Id, digest: Digest) {
    exists id :: Holds(rows, id, userId, digest)
  }

  predicate ValidDraft(env: Env, d: Draft) {
    Strip(d.text) != "" && env.zoneExists(d.eventTz) && ValidLocation(d.lat, d.lng)
  }

  function NewRow(env: Env, userId: Id, d: Draft, id: Id, now: int): Row {
    var text := Strip(d.text);
    Row(id, userId, text, d.eventDate, d.eventTime, d.eventTz, d.lat, d.lng, d.locationLabel,
        env.canonicalHash(text), None, Unsynced, None, now, false)
  }

  /** What `create_memory` decides before it writes anything. */
  datatype CreatePlan = Reject(error: MemoryError) | Existing(id: Id) | Insert(row: Row)

  ghost predicate PlansCreate(env: Env, rows: map<Id, Row>, userId: Id, d: Draft, idempotencyId: Option<Id>,
                              freshId: Id, now: int, plan: CreatePlan) {
    var digest := env.canonicalHash(Strip(d.text));
    var id := if idempotencyId.Some? then idempotencyId.value else freshId;
    if !ValidDraft(env, d) then plan == Reject(ValidationError)
    else if idempotencyId.Some? && id in rows && rows[id].userId == userId then
      plan == if rows[id].deleted then Reject(IdempotencyReused) else Existing(id)
    else if Taken(rows, userId, digest) then
      plan.Existing? && Holds(rows, plan.id, userId, digest)
    else if id in rows then plan == Reject(IntegrityError)
    else plan == Insert(NewRow(env, userId, d, id, now))
  }

  lemma PlanExists(env: Env, rows: map<Id, Row>, userId: Id, d: Draft, idempotencyId: Option<Id>, freshId: Id, now: int)
    ensures exists plan :: PlansCreate(env, rows, userId, d, idempotencyId, freshId, now, plan)
  {
    var digest := env.canonicalHash(Strip(d.text));
    var id := if idempotencyId.Some? then idempotencyId.value else freshId;
    var plan :=
      if !ValidDraft(env, d) then Reject(ValidationError)
      else if idempotencyId.Some? && id in rows && rows[id].userId == userId then
        if rows[id].deleted then Reject(IdempotencyReused) else Existing(id)
      else if Taken(rows, userId, digest) then (var h :| Holds(rows, h, userId, digest); Existing(h))
      else if id in rows then Reject(IntegrityError)
      else Insert(NewRow(env, userId, d, id, now));
    assert PlansCreate(env, rows, userId, d, idempotencyId, freshId, now, plan);
  }

  /** The validations of `update_memory`, in its order. */
  function PatchError(env: Env, row: Row, p: Patch): Option<MemoryError> {
    if p.eventTz.Some? && !env.zoneExists(p.eventTz.value) then Some(ValidationError)
    else if (p.lat.Some? || p.lng.Some?)
         && !ValidLocation(if p.lat.Some? then p.lat.value else row.lat, if p.lng.Some? then p.lng.value else row.lng)
    then Some(ValidationError)
    else if p.text.Some? && Strip(p.text.value) == "" then Some(ValidationError)
    else None
  }

  predicate TextChanges(row: Row, p: Patch) { p.text.Some? && Strip(p.text.value) != row.text }

  function Patched(env: Env, row: Row, p: Patch): Row {
    var r := if TextChanges(row, p)
             then row.(text := Strip(p.text.value), contentHash := env.canonicalHash(Strip(p.text.value))) else row;
    r.(eventDate := if p.eventDate.Some? then p.eventDate.value else r.eventDate,
       eventTime := if p.eventTime.Some? then p.eventTime.value else r.eventTime,
       eventTz := if p.eventTz.Some? then p.eventTz.value else r.eventTz,
       lat := if p.lat.Some? then p.lat.value else r.lat,
       lng := if p.lng.Some? then p.lng.value else r.lng,
       locationLabel := if p.locationLabel.Some? then p.locationLabel.value else r.locationLabel)
  }

  /** Another live row of the user already has the row's hash. */
  ghost predicate Collides(rows: map<Id, Row>, row: Row) {
    exists other :: other != row.id && Holds(rows, other, row.userId, row.contentHash)
  }

  ghost function UpdateError(env: Env, s: Store, userId: Id, id: Id, p: Patch): Option<MemoryError> {
    if !Live(s.rows, id, userId) then Some(NotFound)
    else if PatchError(env, s.rows[id], p).Some? then PatchError(env, s.rows[id], p)
    else if Collides(s.rows, Patched(env, s.rows[id], p)) then
      Some(if TextChanges(s.rows[id], p) then Duplicate else IntegrityError)
    else None
  }

  datatype Op =
    | Create(userId: Id, draft: Draft, idempotencyId: Option<Id>, freshId: Id, now: int, outcome: Outcome)
    | Update(userId: Id, id: Id, patch: Patch, outcome: Outcome)
    | Delete(userId: Id, id: Id, outcome: Outcome)
    | Sync(userId: Id, id: Id, outcome: Outcome)

  ghost function PlanOf(env: Env, s: Store, op: Op): (plan: CreatePlan)
    requires op.Create?
    ensures PlansCreate(env, s.rows, op.userId, op.draft, op.idempotencyId, op.freshId, op.now, plan)
  {
    PlanExists(env, s.rows, op.userId, op.draft, op.idempotencyId, op.freshId, op.now);
    var plan :| PlansCreate(env, s.rows, op.userId, op.draft, op.idempotencyId, op.freshId, op.now, plan);
    plan
  }

  /** The error of an operation, if it is refused. */
  ghost function Refusal(env: Env, s: Store, op: Op): Option<MemoryError> {
    match op
    case Create(_, _, _, _, _, _) =>
      var plan := PlanOf(env, s, op);
      if plan.Reject? then Some(plan.error) else None
    case Update(userId, id, p, _) => UpdateError(env, s, userId, id, p)
    case Delete(userId, id, _) => if id in s.rows && s.rows[id].userId == userId then None else Some(NotFound)
    case Sync(userId, id, _) => if id in s.rows && s.rows[id].userId == userId then None else Some(NotFound)
  }

  ghost function SyncEffect(s: Store, row: Row, o: Outcome): Store {
    match row.status
    case Synced => s
    case Unsynced => if row.externalId.None? then SendAdd(s, row, o) else SendPatch(s, row, true, o)
    case PendingDelete =>
      if row.externalId.None? then s.(rows := s.rows[row.id := row.(status := Synced, externalError := None)])
      else SendDelete(s, row, o)
  }

  /** The store after an operation. */
  ghost function Effect(env: Env, s: Store, op: Op): Store {
    if Refusal(env, s, op).Some? then s
    else
      match op
      case Create(_, _, _, _, _, o) =>
        var plan := PlanOf(env, s, op);
        if plan.Insert? then SendAdd(s, plan.row, o) else s
      case Update(_, id, p, o) =>
        var row := Patched(env, s.rows[id], p);
        if row.externalId.None? then SendAdd(s, row, o) else SendPatch(s, row, TextChanges(s.rows[id], p), o)
      case Delete(_, id, o) =>
        var row := s.rows[id];
        if row.deleted then s
        else if row.externalId.None? then s.(rows := s.rows[id := row.(deleted := true)])
        else SendDelete(s, row.(deleted := true), o)
      case Sync(_, id, o) => SyncEffect(s, s.rows[id], o)
  }

  ghost function RunOps(env: Env, s: Store, ops: seq<Op>): Store {
    if ops == [] then s else Effect(env, RunOps(env, s, ops[..|ops| - 1]), ops[|ops| - 1])
  }

  // ---------------------------------------------------------------- the service

  class MemoryTable {
    const env: Env
    var rows: map<Id, Row>
    var docs: map<Id, Doc>
    var calls: seq<Call>

    constructor (env: Env)
      ensures View() == Store(map[], map[], []) && this.env == env
    {
      this.env := env;
      rows, docs, calls := map[], map[], [];
    }

    function View(): Store
      reads this
    {
      Store(rows, docs, calls)
    }

    /** `client.add`. */
    method Add(id: Id, content: string, metadata: Metadata, o: Outcome) returns (error: Option<string>)
      modifies this`docs, this`calls
      ensures error == Raised(o) && docs == Applied(old(docs), id, Doc(content, metadata), o)
      ensures calls == old(calls) + [AddCall(id, content, metadata, o.Succeeds?, !o.FailsUntouched?)]
    {
      calls := calls + [AddCall(id, content, metadata, o.Succeeds?, !o.FailsUntouched?)];
      if !o.FailsUntouched? { docs := docs[id := Doc(content, metadata)]; }
      return if o.Succeeds? then None else Some(o.errorName);
    }

    /** `client.patch`. */
    method SendPatchCall(id: Id, content: Option<string>, metadata: Metadata, o: Outcome) returns (error: Option<string>)
      modifies this`docs, this`calls
      ensures var actual := PatchOutcome(old(docs), id, o);
              error == Raised(actual) &&
              docs == (if id in old(docs)
                       then Applied(old(docs), id, Doc(if content.Some? then content.value else old(docs)[id].content, metadata), actual)
                       else old(docs)) &&
              calls == old(calls) + [PatchCall(id, content, metadata, actual.Succeeds?, !actual.FailsUntouched?)]
    {
      var actual := PatchOutcome(docs, id, o);
      calls := calls + [PatchCall(id, content, metadata, actual.Succeeds?, !actual.FailsUntouched?)];
      if id in docs && !actual.FailsUntouched? {
        docs := docs[id := Doc(if content.Some? then content.value else docs[id].content, metadata)];
      }
      return Raised(actual);
    }

    /** `client.delete`. */
    method SendDeleteCall(id: Id, o: Outcome) returns (error: Option<string>)
      modifies this`docs, this`calls
      ensures error == Raised(o) && docs == (if o.FailsUntouched? then old(docs) else old(docs) - {id})
      ensures calls == old(calls) + [DeleteCall(id, o.Succeeds?)]
    {
      calls := calls + [DeleteCall(id, o.Succeeds?)];
      if !o.FailsUntouched? { docs := docs - {id}; }
      return Raised(o);
    }

    method SendToSupermemoryAdd(row: Row, o: Outcome)
      modifies this
      ensures View() == SendAdd(old(View()), row, o)
    {
      var error := Add(row.id, row.text, BuildMetadata(row), o);
      var sent := row;
      if error.Some? {
        sent := sent.(status := Unsynced);
        sent := sent.(externalError := error);
      } else {
        sent := sent.(externalId := Some(row.id));
        sent := sent.(status := Synced);
        sent := sent.(externalError := None);
      }
      rows := rows[row.id := sent];
    }

    method SendToSupermemoryPatch(row: Row, contentChanged: bool, o: Outcome)
      requires row.externalId.Some?
      modifies this
      ensures View() == SendPatch(old(View()), row, contentChanged, o)
    {
      var error := SendPatchCall(row.externalId.value, if contentChanged then Some(row.text) else None, BuildMetadata(row), o);
      var sent := row;
      if error.Some? {
        sent := sent.(status := Unsynced);
        sent := sent.(externalError := error);
      } else {
        sent := sent.(status := Synced);
        sent := sent.(externalError := None);
      }
      rows := rows[row.id := sent];
    }

    method CreateMemory(userId: Id, d: Draft, idempotencyId: Option<Id>, freshId: Id, now: int, o: Outcome)
      returns (r: Result<Id, MemoryError>)
      modifies this
      ensures exists plan ::
                PlansCreate(env, old(rows), userId, d, idempotencyId, freshId, now, plan) &&
                r == (match plan case Reject(e) => Err(e) case Existing(id) => Ok(id) case Insert(row) => Ok(row.id)) &&
                View() == if plan.Insert? then SendAdd(old(View()), plan.row, o) else old(View())
    {
      ghost var rows0 := rows;
      var text := Strip(d.text);
      if text == "" || !env.zoneExists(d.eventTz) || !ValidLocation(d.lat, d.lng) {
        assert PlansCreate(env, rows0, userId, d, idempotencyId, freshId, now, Reject(ValidationError));
        return Err(ValidationError);
      }
      if idempotencyId.Some? && idempotencyId.value in rows && rows[idempotencyId.value].userId == userId {
        var existing := rows[idempotencyId.value];
        if existing.deleted {
          assert PlansCreate(env, rows0, userId, d, idempotencyId, freshId, now, Reject(IdempotencyReused));
          return Err(IdempotencyReused);
        }
        assert PlansCreate(env, rows0, userId, d, idempotencyId, freshId, now, Existing(idempotencyId.value));
        return Ok(idempotencyId.value);
      }
      var digest := env.canonicalHash(text);
      if other :| other in rows && Holds(rows, other, userId, digest) {
        assert PlansCreate(env, rows0, userId, d, idempotencyId, freshId, now, Existing(other));
        return Ok(other);
      }
      var id := if idempotencyId.Some? then idempotencyId.value else freshId;
      if id in rows {
        assert PlansCreate(env, rows0, userId, d, idempotencyId, freshId, now, Reject(IntegrityError));
        return Err(IntegrityError);
      }
      var row := Row(id, userId, text, d.eventDate, d.eventTime, d.eventTz, d.lat, d.lng, d.locationLabel,
                     digest, None, Unsynced, None, now, false);
      assert PlansCreate(env, rows0, userId, d, idempotencyId, freshId, now, Insert(row));
      SendToSupermemoryAdd(row, o);
      return Ok(id);
    }

    /** The validations of `update_memory`: nothing is assigned before they pass. */
    method CheckPatch(row: Row, p: Patch) returns (error: Option<MemoryError>)
      ensures error == PatchError(env, row, p)
    {
      if p.eventTz.Some? && !env.zoneExists(p.eventTz.value) { return Some(ValidationError); }
      if p.lat.Some? || p.lng.Some? {
        var newLat := if p.lat.Some? then p.lat.value else row.lat;
        var newLng := if p.lng.Some? then p.lng.value else row.lng;
        if !ValidLocation(newLat, newLng) { return Some(ValidationError); }
      }
      if p.text.Some? && Strip(p.text.value) == "" { return Some(ValidationError); }
      return None;
    }

    /** The field assignments of `update_memory`. */
    method AssignPatch(before: Row, p: Patch) returns (row: Row, textChanged: bool)
      ensures row == Patched(env, before, p) && textChanged == TextChanges(before, p)
    {
      row, textChanged := before, false;
      if p.text.Some? && Strip(p.text.value) != row.text {
        row := row.(text := Strip(p.text.value));
        row := row.(contentHash := env.canonicalHash(row.text));
        textChanged := true;
      }
      if p.eventDate.Some? { row := row.(eventDate := p.eventDate.value); }
      if p.eventTime.Some? { row := row.(eventTime := p.eventTime.value); }
      if p.eventTz.Some? { row := row.(eventTz := p.eventTz.value); }
      if p.lat.Some? { row := row.(lat := p.lat.value); }
      if p.lng.Some? { row := row.(lng := p.lng.value); }
      if p.locationLabel.Some? { row := row.(locationLabel := p.locationLabel.value); }
    }

    method UpdateMemory(userId: Id, id: Id, p: Patch, o: Outcome) returns (r: Result<Id, MemoryError>)
      modifies this
      ensures var op := Update(userId, id, p, o);
              View() == Effect(env, old(View()), op) &&
              r == match Refusal(env, old(View()), op) case Some(e) => Err(e) case None => Ok(id)
    {
      if id !in rows || rows[id].userId != userId || rows[id].deleted { return Err(NotFound); }
      var error := CheckPatch(rows[id], p);
      if error.Some? { return Err(error.value); }
      var row, textChanged := AssignPatch(rows[id], p);
      if other :| other in rows && other != row.id && Holds(rows, other, row.userId, row.contentHash) {
        return Err(if textChanged then Duplicate else IntegrityError);
      }
      if row.externalId.None? {
        SendToSupermemoryAdd(row, o);
      } else {
        SendToSupermemoryPatch(row, textChanged, o);
      }
      return Ok(id);
    }

    method DeleteMemory(userId: Id, id: Id, o: Outcome) returns (r: Result<Id, MemoryError>)
      modifies this
      ensures var op := Delete(userId, id, o);
              View() == Effect(env, old(View()), op) &&
              r == match Refusal(env, old(View()), op) case Some(e) => Err(e) case None => Ok(id)
    {
      if id !in rows || rows[id].userId != userId { return Err(NotFound); }
      var row := rows[id];
      if row.deleted { return Ok(id); }
      row := row.(deleted := true);
      if row.externalId.None? {
        rows := rows[id := row];
      } else {
        DeleteRemotely(row, o);
      }
      return Ok(id);
    }

    /** The remote delete of `delete_memory` and of a `pending_delete` retry. */
    method DeleteRemotely(row: Row, o: Outcome)
      requires row.externalId.Some?
      modifies this
      ensures View() == SendDelete(old(View()), row, o)
    {
      var error := SendDeleteCall(row.externalId.value, o);
      var sent := row;
      if error.Some? {
        sent := sent.(status := PendingDelete);
        sent := sent.(externalError := error);
      } else {
        sent := sent.(status := Synced);
        sent := sent.(externalError := None);
      }
      rows := rows[row.id := sent];
    }

    method SyncMemory(userId: Id, id: Id, o: Outcome) returns (r: Result<Id, MemoryError>)
      modifies this
      ensures var op := Sync(userId, id, o);
              View() == Effect(env, old(View()), op) &&
              r == match Refusal(env, old(View()), op) case Some(e) => Err(e) case None => Ok(id)
    {
      if id !in rows || rows[id].userId != userId { return Err(NotFound); }
      var row := rows[id];
      match row.status {
        case Synced =>
        case Unsynced =>
          if row.externalId.None? {
            SendToSupermemoryAdd(row, o);
          } else {
            SendToSupermemoryPatch(row, true, o);
          }
        case PendingDelete =>
          if row.externalId.None? {
            rows := rows[row.id := row.(status := Synced, externalError := None)];
          } else {
            DeleteRemotely(row, o);
          }
      }
      return Ok(id);
    }
  }
}
