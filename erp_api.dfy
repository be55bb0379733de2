/**
 * The invoice handlers of the ERP API: idempotent creation, simulated
 * stamping, cancellation by certification uuid, lookups and the paged list.
 *
 * Each handler is specified by a function on a `State` (the table and the
 * wall clock); the class `InvoiceApi` holds that state in fields and its
 * methods perform the handler's steps in order, proved to end in the state
 * and reply the function gives.
 */
module ErpApi {
  import opened Wrappers
  import opened Models

  /** `time.sleep(0.5)` in `_stamp_now`, in microseconds. */
  const StampDelay: Time := 500000

  /** The default `limit` of `GET /invoices`. */
  const DefaultLimit: nat := 20

  /** `InvoiceOut`: the projection of a row sent back to clients. */
  datatype InvoiceOut = InvoiceOut(
    id: Id,
    status: Status,
    uuid: Option<Uuid>,
    xmlUrl: Option<string>,
    errors: seq<string>)

  /** The four cancellation reason codes "01" to "04". */
  datatype CancelReason = Reason01 | Reason02 | Reason03 | Reason04

  /** `CancelIn`: the optional cancellation body. */
  datatype CancelIn = CancelIn(motivo: CancelReason, uuidSustituto: Option<Uuid>)

  /** `CancelOut`: the reply to a cancellation. */
  datatype CancelOut = CancelOut(uuid: Uuid, status: Status)

  /** A single-row lookup's reply: the value, or 404 "Invoice not found". */
  datatype Lookup<+T> = Found(value: T) | NotFound

  /**
   * A concurrent creation request with the same idempotency key whose
   * commit lands between this request's lookup and its own commit: the id
   * it drew and the payload it carries.
   */
  datatype Racer = Racer(id: Id, payload: string)

  /** What the handlers share: the committed table and the wall clock. */
  datatype State = State(db: Table, clock: Time)

  /** The projection `{id, status, uuid, xml_url, errors: []}` of a row. */
  function Project(inv: Invoice): InvoiceOut
  {
    InvoiceOut(inv.id, inv.status, inv.uuid, inv.xmlUrl, [])
  }

  /** The projections of a list of rows, in order. */
  function Projections(rows: seq<Invoice>): (r: seq<InvoiceOut>)
    ensures |r| == |rows|
    ensures forall i :: 0 <= i < |rows| ==> r[i] == Project(rows[i])
  {
    seq(|rows|, i requires 0 <= i < |rows| => Project(rows[i]))
  }

  /** The row `create_invoice` builds: pending, no uuid, no xml_url, both timestamps `now`. */
  function NewRecord(id: Id, key: Key, payload: string, now: Time): (r: Invoice)
    ensures r.id == id && r.idempotencyKey == key && r.payload == Some(payload)
    ensures r.status == Pending && r.uuid.None? && r.xmlUrl.None?
    ensures RowInvariant(r, now) && r.createdAt == r.updatedAt == now
  {
    Invoice(id, key, Pending, None, None, Some(payload), now, now)
  }

  /**
   * What every row satisfies under these handlers: it was last touched no
   * later than now and no earlier than its creation, no handler ever sets
   * `xml_url`, every row carries its payload, a row has a certification
   * uuid exactly when it is no longer pending, and `cancel_rejected` is
   * never written.
   */
  ghost predicate RowInvariant(r: Invoice, clock: Time)
  {
    && r.createdAt <= r.updatedAt <= clock
    && r.xmlUrl.None?
    && r.payload.Some?
    && (r.status == Pending <==> r.uuid.None?)
    && r.status != CancelRejected
  }

  /** The schema's constraints plus the row invariant. */
  ghost predicate Inv(s: State)
  {
    Constraints(s.db) && forall id :: id in s.db ==> RowInvariant(s.db[id], s.clock)
  }

  /** Wall-clock time passing between requests: the table is kept and the invariant still holds. */
  function Elapse(s: State, elapsed: nat): (s': State)
    requires Inv(s)
    ensures Inv(s') && s'.db == s.db && s'.clock == s.clock + elapsed
  {
    State(s.db, s.clock + elapsed)
  }

  /** The steps a status may take: stay, get stamped, or get cancelled once stamped. */
  predicate Transition(a: Status, b: Status)
  {
    a == b || (a == Pending && b == Stamped) || (a == Stamped && b == CancelAccepted)
  }

  /**
   * `_stamp_now(id)`: after the simulated delay, a stored row becomes
   * `stamped` with the fresh certification uuid and a refreshed
   * `updated_at`; everything else about it and every other row is kept.
   * An unknown id changes no row. The current status is not consulted.
   */
  function Stamp(s: State, id: Id, certUuid: Uuid): (s': State)
    requires Inv(s) && !UuidTaken(s.db, certUuid)
    ensures Inv(s')
    ensures s'.clock == s.clock + StampDelay
    ensures s'.db.Keys == s.db.Keys
    ensures forall o :: o in s.db && o != id ==> s'.db[o] == s.db[o]
    ensures id !in s.db ==> s'.db == s.db
    ensures id in s.db ==>
      var (was, now) := (s.db[id], s'.db[id]);
      && now.status == Stamped && now.uuid == Some(certUuid) && now.updatedAt == s'.clock
      && now.id == was.id && now.idempotencyKey == was.idempotencyKey && now.payload == was.payload
      && now.xmlUrl == was.xmlUrl && now.createdAt == was.createdAt
    ensures id in s.db ==> FindByUuid(s'.db, certUuid) == Some(s'.db[id])
  {
    var now := s.clock + StampDelay;
    match FindById(s.db, id)
    case None => State(s.db, now)
    case Some(inv) =>
      var committed := Update(s.db, inv.(status := Stamped, uuid := Some(certUuid), updatedAt := now));
      assert committed.Ok?;
      State(committed.value, now)
  }

  /** The `uuid4()` values a creation draws are new: its row id, its stamp uuid, and a racer's id. */
  ghost predicate FreshDraws(s: State, newId: Id, stampUuid: Uuid, racer: Option<Racer>)
  {
    && newId !in s.db
    && !UuidTaken(s.db, stampUuid)
    && (racer.Some? ==> racer.value.id !in s.db && racer.value.id != newId)
  }

  /**
   * `create_invoice(payload, idempotency_key)`.
   * Replay: a key already held returns that row's projection and changes nothing.
   * Conflict: when a racer with the same key committed first, our insert is
   * rejected, rolled back, and the racer's row is returned; no second row exists.
   * Novel: exactly one row is added under the new id, stamped before the
   * reply, while the reply still says pending with no uuid.
   * Every path leaves exactly the replied id stored under the key, and
   * never alters a row that existed before.
   */
  function Create(s: State, key: Key, payload: string, newId: Id, stampUuid: Uuid, racer: Option<Racer>)
    : (res: (State, InvoiceOut))
    requires Inv(s) && FreshDraws(s, newId, stampUuid, racer)
    ensures Inv(res.0)
    ensures KeyTaken(s.db, key) ==> res.0 == s && res.1 == Project(FindByKey(s.db, key).value)
    ensures !KeyTaken(s.db, key) && racer.Some? ==>
      && res.0.clock == s.clock
      && res.0.db.Keys == s.db.Keys + {racer.value.id}
      && res.0.db[racer.value.id] == NewRecord(racer.value.id, key, racer.value.payload, s.clock)
      && newId !in res.0.db
      && res.1 == Project(res.0.db[racer.value.id])
    ensures !KeyTaken(s.db, key) && racer.None? ==>
      && res.0.clock == s.clock + StampDelay
      && res.0.db.Keys == s.db.Keys + {newId}
      && res.0.db[newId] == Invoice(newId, key, Stamped, Some(stampUuid), None, Some(payload), s.clock, res.0.clock)
      && res.1 == InvoiceOut(newId, Pending, None, None, [])
    ensures forall id :: id in s.db ==> id in res.0.db && res.0.db[id] == s.db[id]
    ensures FindByKey(res.0.db, key).Some? && FindByKey(res.0.db, key).value.id == res.1.id
  {
    match FindByKey(s.db, key)
    case Some(existing) => (s, Project(existing))
    case None =>
      var s1 := match racer
        case None => s
        case Some(other) =>
          var theirs := Insert(s.db, NewRecord(other.id, key, other.payload, s.clock));
          assert theirs.Ok?;
          State(theirs.value, s.clock);
      match Insert(s1.db, NewRecord(newId, key, payload, s1.clock))
      case Err(_) =>
        var winner := FindByKey(s1.db, key);
        assert winner.Some?;
        (s1, Project(winner.value))
      case Ok(t) =>
        (Stamp(State(t, s1.clock), newId, stampUuid), InvoiceOut(newId, Pending, None, None, []))
  }

  /**
   * `cancel_invoice(uuid)`: an unknown certification uuid is NotFound and
   * changes nothing; otherwise the row carrying it becomes `cancel_accepted`
   * whatever its status was, with `updated_at` refreshed, every other row is
   * kept, and the reply echoes the uuid. The body is not consulted.
   */
  function Cancel(s: State, uuid: Uuid, body: Option<CancelIn>): (res: (State, Lookup<CancelOut>))
    requires Inv(s)
    ensures Inv(res.0)
    ensures res.0.clock == s.clock && res.0.db.Keys == s.db.Keys
    ensures res.1.NotFound? <==> !UuidTaken(s.db, uuid)
    ensures res.1.NotFound? ==> res.0 == s
    ensures res.1.Found? ==> res.1.value == CancelOut(uuid, CancelAccepted)
    ensures forall id :: id in s.db ==>
      res.0.db[id] == if s.db[id].uuid == Some(uuid)
                      then s.db[id].(status := CancelAccepted, updatedAt := s.clock)
                      else s.db[id]
  {
    match FindByUuid(s.db, uuid)
    case None => (s, NotFound)
    case Some(inv) =>
      var cancelled := inv.(status := CancelAccepted, updatedAt := s.clock);
      var committed := Update(s.db, cancelled);
      assert committed.Ok?;
      (State(committed.value, s.clock), Found(CancelOut(cancelled.uuid.value, cancelled.status)))
  }

  /**
   * `get_invoice(id)`: NotFound exactly when no row has that id; otherwise
   * that row's status and uuid, with no xml_url and no errors.
   */
  function GetById(s: State, id: Id): (r: Lookup<InvoiceOut>)
    requires Inv(s)
    ensures r.NotFound? <==> id !in s.db
    ensures r.Found? ==>
      && r.value.id == id && r.value.status == s.db[id].status && r.value.uuid == s.db[id].uuid
      && r.value.xmlUrl.None? && r.value.errors == []
  {
    match FindById(s.db, id)
    case None => NotFound
    case Some(inv) => Found(Project(inv))
  }

  /**
   * `get_invoice_by_uuid(uuid)`: NotFound exactly when no row carries that
   * certification uuid; otherwise the projection of the one row that does,
   * which is never pending.
   */
  function GetByUuid(s: State, uuid: Uuid): (r: Lookup<InvoiceOut>)
    requires Inv(s)
    ensures r.NotFound? <==> !UuidTaken(s.db, uuid)
    ensures r.Found? ==>
      && r.value.id in s.db && r.value == Project(s.db[r.value.id])
      && r.value.uuid == Some(uuid) && r.value.status != Pending && r.value.errors == []
  {
    match FindByUuid(s.db, uuid)
    case None => NotFound
    case Some(inv) => Found(Project(inv))
  }

  /** The invoice service: the shared table and the clock, changed in place by the handlers. */
  class InvoiceApi {
    var db: Table
    var clock: Time

    function Snapshot(): State
      reads this
    {
      State(db, clock)
    }

    ghost predicate Valid()
      reads this
    {
      Inv(Snapshot())
    }

    /** An empty table at time zero. */
    constructor ()
      ensures Valid() && db == map[] && clock == 0
    {
      db := map[];
      clock := 0;
    }

    /** Wall-clock time passing between requests. */
    method AdvanceClock(elapsed: nat)
      requires Valid()
      modifies this
      ensures Valid() && Snapshot() == Elapse(old(Snapshot()), elapsed)
    {
      clock := clock + elapsed;
    }

    /** `_stamp_now`: sleep, fetch the row, mark it stamped, commit. */
    method StampNow(invoiceId: Id, freshUuid: Uuid)
      requires Valid() && !UuidTaken(db, freshUuid)
      modifies this
      ensures Valid()
      ensures Snapshot() == Stamp(old(Snapshot()), invoiceId, freshUuid)
    {
      ghost var before := Snapshot();
      ghost var after := Stamp(before, invoiceId, freshUuid);
      clock := clock + StampDelay;
      var inv := FindById(db, invoiceId);
      if inv.None? {
        assert Snapshot() == after;
        return;
      }
      var stamped := inv.value.(status := Stamped, uuid := Some(freshUuid), updatedAt := clock);
      var committed := Update(db, stamped);
      assert committed.Ok?;
      db := committed.value;
      assert Snapshot() == after;
    }

    /**
     * `create_invoice`: look the key up; otherwise add a pending row and
     * commit, rolling back to the record already holding the key when the
     * commit is rejected; then stamp the new row and reply pending.
     */
    method CreateInvoice(payload: string, idempotencyKey: Key, newId: Id, stampUuid: Uuid, racer: Option<Racer>)
      returns (out: InvoiceOut)
      requires Valid() && FreshDraws(Snapshot(), newId, stampUuid, racer)
      modifies this
      ensures Valid()
      ensures (Snapshot(), out) == Create(old(Snapshot()), idempotencyKey, payload, newId, stampUuid, racer)
    {
      var existing := FindByKey(db, idempotencyKey);
      if existing.Some? {
        return Project(existing.value);
      }
      if racer.Some? {
        var theirs := Insert(db, NewRecord(racer.value.id, idempotencyKey, racer.value.payload, clock));
        assert theirs.Ok?;
        db := theirs.value;
      }
      var inv := NewRecord(newId, idempotencyKey, payload, clock);
      var committed := Insert(db, inv);
      if committed.Err? {
        var winner := FindByKey(db, idempotencyKey);
        assert winner.Some?;
        return Project(winner.value);
      }
      db := committed.value;
      StampNow(newId, stampUuid);
      out := InvoiceOut(newId, Pending, None, None, []);
    }

    /** `get_invoice`. */
    method GetInvoice(invoiceId: Id) returns (r: Lookup<InvoiceOut>)
      requires Valid()
      ensures r == GetById(Snapshot(), invoiceId)
    {
      var inv := FindById(db, invoiceId);
      if inv.None? {
        return NotFound;
      }
      r := Found(Project(inv.value));
    }

    /** `get_invoice_by_uuid`. */
    method GetInvoiceByUuid(uuid: Uuid) returns (r: Lookup<InvoiceOut>)
      requires Valid()
      ensures r == GetByUuid(Snapshot(), uuid)
    {
      var inv := FindByUuid(db, uuid);
      if inv.None? {
        return NotFound;
      }
      r := Found(Project(inv.value));
    }

    /** `cancel_invoice`: find by uuid, mark cancel_accepted, commit. */
    method CancelInvoice(uuid: Uuid, body: Option<CancelIn>) returns (r: Lookup<CancelOut>)
      requires Valid()
      modifies this
      ensures Valid()
      ensures (Snapshot(), r) == Cancel(old(Snapshot()), uuid, body)
    {
      var inv := FindByUuid(db, uuid);
      if inv.None? {
        return NotFound;
      }
      var cancelled := inv.value.(status := CancelAccepted, updatedAt := clock);
      var committed := Update(db, cancelled);
      assert committed.Ok?;
      db := committed.value;
      r := Found(CancelOut(cancelled.uuid.value, cancelled.status));
    }

    /**
     * `list_invoices(skip, limit)`: the rows newest first, the first `skip`
     * dropped and at most `limit` kept, each projected.
     */
    method ListInvoices(skip: nat, limit: nat) returns (out: seq<InvoiceOut>)
      requires Valid()
      ensures exists rows :: NewestFirst(db, rows) && out == Projections(Page(rows, skip, limit))
      ensures |out| == if skip >= |db| then 0 else if |db| - skip < limit then |db| - skip else limit
    {
      var rows := SelectNewestFirst(db);
      var page := Page(rows, skip, limit);
      out := [];
      for i := 0 to |page|
        invariant |out| == i
        invariant forall k :: 0 <= k < i ==> out[k] == Project(page[k])
      {
        out := out + [Project(page[i])];
      }
      assert out == Projections(page);
    }
  }
}
