/**
 * The `invoices` table: one row per invoice, keyed by `id`, with a unique
 * non-null `idempotency_key` and a unique nullable `uuid` (the certification
 * id). The database is modelled as a map from primary key to row; a commit
 * that would break a key constraint is rejected with an `IntegrityError`.
 */
module Models {
  import opened Wrappers

  type Id = string
  type Key = string
  type Uuid = string
  /** A `DateTime` reading of the wall clock, in microseconds. */
  type Time = nat

  /** The status column. The handlers only ever write these literals. */
  datatype Status = Pending | Stamped | CancelAccepted | CancelRejected

  /** The literal stored in the status column and sent over the wire. */
  function StatusName(s: Status): string
  {
    match s
    case Pending => "pending"
    case Stamped => "stamped"
    case CancelAccepted => "cancel_accepted"
    case CancelRejected => "cancel_rejected"
  }

  /** Distinct statuses are stored as distinct literals, so the column tells them apart. */
  lemma StatusNamesDistinct(a: Status, b: Status)
    ensures StatusName(a) == StatusName(b) <==> a == b
  {
  }

  /** One row of `invoices`. `uuid`, `xmlUrl` and `payload` are the nullable columns. */
  datatype Invoice = Invoice(
    id: Id,
    idempotencyKey: Key,
    status: Status,
    uuid: Option<Uuid>,
    xmlUrl: Option<string>,
    payload: Option<string>,
    createdAt: Time,
    updatedAt: Time)

  /** The rows of the table, by primary key. */
  type Table = map<Id, Invoice>

  /** The constraint a rejected commit violated. */
  datatype IntegrityError =
    | PrimaryKeyViolation
    | IdempotencyKeyViolation   // uq_invoices_idempotency_key
    | UuidViolation

  /** `id` is the primary key: each row is stored under its own id. */
  ghost predicate PrimaryKey(t: Table)
  {
    forall id :: id in t ==> t[id].id == id
  }

  /** `idempotency_key` is unique: no two rows share one. */
  ghost predicate KeyUnique(t: Table)
  {
    forall a, b :: a in t && b in t && t[a].idempotencyKey == t[b].idempotencyKey ==> a == b
  }

  /** `uuid` is unique where it is not null. */
  ghost predicate UuidUnique(t: Table)
  {
    forall a, b :: a in t && b in t && t[a].uuid.Some? && t[a].uuid == t[b].uuid ==> a == b
  }

  /** Every constraint the schema declares on the table. */
  ghost predicate Constraints(t: Table)
  {
    PrimaryKey(t) && KeyUnique(t) && UuidUnique(t)
  }

  /** Some row other than `self` holds idempotency key `k`. */
  predicate KeyHeldByOther(t: Table, k: Key, self: Id)
  {
    exists id :: id in t && id != self && t[id].idempotencyKey == k
  }

  /** Some row other than `self` holds certification uuid `u`. */
  predicate UuidHeldByOther(t: Table, u: Uuid, self: Id)
  {
    exists id :: id in t && id != self && t[id].uuid == Some(u)
  }

  /** Some row holds idempotency key `k`. */
  predicate KeyTaken(t: Table, k: Key)
  {
    exists id :: id in t && t[id].idempotencyKey == k
  }

  /** Some row holds certification uuid `u`. */
  predicate UuidTaken(t: Table, u: Uuid)
  {
    exists id :: id in t && t[id].uuid == Some(u)
  }

  /**
   * Committing a new row (`db.add` then `db.commit`): rejected exactly when
   * its id, its idempotency key or its non-null uuid is already in use;
   * otherwise the table gains that one row and keeps every constraint.
   */
  function Insert(t: Table, row: Invoice): (r: Result<Table, IntegrityError>)
    requires Constraints(t)
    ensures r.Err? <==> (row.id in t || KeyTaken(t, row.idempotencyKey)
                         || (row.uuid.Some? && UuidTaken(t, row.uuid.value)))
    ensures r.Err? && KeyTaken(t, row.idempotencyKey) && row.id !in t ==> r.error == IdempotencyKeyViolation
    ensures r.Ok? ==> r.value.Keys == t.Keys + {row.id} && r.value[row.id] == row
    ensures r.Ok? ==> forall id :: id in t ==> r.value[id] == t[id]
    ensures r.Ok? ==> Constraints(r.value)
  {
    if row.id in t then Err(PrimaryKeyViolation)
    else if KeyTaken(t, row.idempotencyKey) then Err(IdempotencyKeyViolation)
    else if row.uuid.Some? && UuidTaken(t, row.uuid.value) then Err(UuidViolation)
    else Ok(t[row.id := row])
  }

  /**
   * Committing an in-place change to a stored row: rejected exactly when the
   * changed row would share its idempotency key or its non-null uuid with
   * another row; otherwise only that row is replaced and every constraint holds.
   */
  function Update(t: Table, row: Invoice): (r: Result<Table, IntegrityError>)
    requires Constraints(t)
    requires row.id in t
    ensures r.Err? <==> (KeyHeldByOther(t, row.idempotencyKey, row.id)
                         || (row.uuid.Some? && UuidHeldByOther(t, row.uuid.value, row.id)))
    ensures r.Ok? ==> r.value.Keys == t.Keys && r.value[row.id] == row
    ensures r.Ok? ==> forall id :: id in t && id != row.id ==> r.value[id] == t[id]
    ensures r.Ok? ==> Constraints(r.value)
  {
    if KeyHeldByOther(t, row.idempotencyKey, row.id) then Err(IdempotencyKeyViolation)
    else if row.uuid.Some? && UuidHeldByOther(t, row.uuid.value, row.id) then Err(UuidViolation)
    else Ok(t[row.id := row])
  }

  /** `db.get(Invoice, id)`: the row with that primary key, if any. */
  function FindById(t: Table, id: Id): (r: Option<Invoice>)
    requires PrimaryKey(t)
    ensures r.None? <==> id !in t
    ensures r.Some? ==> r.value.id == id && r.value == t[id]
  {
    if id in t then Some(t[id]) else None
  }

  /**
   * `filter(idempotency_key == k).one_or_none()`: none exactly when no row
   * holds the key, and otherwise the one row that does.
   */
  function FindByKey(t: Table, k: Key): (r: Option<Invoice>)
    requires Constraints(t)
    ensures r.None? <==> !KeyTaken(t, k)
    ensures r.Some? ==> r.value.idempotencyKey == k && r.value.id in t && t[r.value.id] == r.value
    ensures forall id :: id in t && t[id].idempotencyKey == k ==> r == Some(t[id])
  {
    if KeyTaken(t, k) then
      var id :| id in t && t[id].idempotencyKey == k;
      Some(t[id])
    else
      None
  }

  /**
   * `filter(uuid == u).one_or_none()`: none exactly when no row carries the
   * certification uuid, and otherwise the one row that does.
   */
  function FindByUuid(t: Table, u: Uuid): (r: Option<Invoice>)
    requires Constraints(t)
    ensures r.None? <==> !UuidTaken(t, u)
    ensures r.Some? ==> r.value.uuid == Some(u) && r.value.id in t && t[r.value.id] == r.value
    ensures forall id :: id in t && t[id].uuid == Some(u) ==> r == Some(t[id])
  {
    if UuidTaken(t, u) then
      var id :| id in t && t[id].uuid == Some(u);
      Some(t[id])
    else
      None
  }

  /**
   * `rows` lists every row of `t` exactly once, newest `created_at` first
   * (rows created at the same instant may come in either order).
   */
  ghost predicate NewestFirst(t: Table, rows: seq<Invoice>)
  {
    && |rows| == |t|
    && (forall i :: 0 <= i < |rows| ==> rows[i].id in t && t[rows[i].id] == rows[i])
    && (forall i, j :: 0 <= i < j < |rows| ==> rows[i].id != rows[j].id)
    && (forall id :: id in t ==> exists i :: 0 <= i < |rows| && rows[i].id == id)
    && (forall i, j :: 0 <= i < j < |rows| ==> rows[i].createdAt >= rows[j].createdAt)
  }

  /** A finite non-empty set of stored ids has a member created no earlier than any other. */
  lemma {:induction false} NewestExists(t: Table, s: set<Id>)
    requires s != {} && s <= t.Keys
    ensures exists id :: id in s && forall o :: o in s ==> t[o].createdAt <= t[id].createdAt
  {
    var x :| x in s;
    if s != {x} {
      var rest := s - {x};
      NewestExists(t, rest);
      var y :| y in rest && forall o :: o in rest ==> t[o].createdAt <= t[y].createdAt;
      if t[x].createdAt <= t[y].createdAt {
        assert forall o :: o in s ==> t[o].createdAt <= t[y].createdAt;
      } else {
        assert forall o :: o in s ==> t[o].createdAt <= t[x].createdAt;
      }
    }
  }

  /** Every listed row is a stored row not in `remaining`, listed once. */
  ghost predicate ListedOnce(t: Table, rows: seq<Invoice>, remaining: set<Id>)
  {
    && (forall i :: 0 <= i < |rows| ==> rows[i].id in t && t[rows[i].id] == rows[i] && rows[i].id !in remaining)
    && (forall i, j :: 0 <= i < j < |rows| ==> rows[i].id != rows[j].id)
  }

  /** Every stored row not in `remaining` is listed. */
  ghost predicate Covers(t: Table, rows: seq<Invoice>, remaining: set<Id>)
  {
    forall id :: id in t && id !in remaining ==> exists i :: 0 <= i < |rows| && rows[i].id == id
  }

  /** Listed rows come newest first, and none is older than a row still remaining. */
  ghost predicate OrderedBefore(t: Table, rows: seq<Invoice>, remaining: set<Id>)
    requires remaining <= t.Keys
  {
    && (forall i, j :: 0 <= i < j < |rows| ==> rows[i].createdAt >= rows[j].createdAt)
    && (forall i, o :: 0 <= i < |rows| && o in remaining ==> rows[i].createdAt >= t[o].createdAt)
  }

  /**
   * `rows` lists, newest first, exactly the rows whose ids are not in
   * `remaining`, and none of them is older than a row still remaining.
   */
  ghost predicate SelectedSoFar(t: Table, rows: seq<Invoice>, remaining: set<Id>)
  {
    && remaining <= t.Keys
    && |rows| + |remaining| == |t.Keys|
    && ListedOnce(t, rows, remaining)
    && Covers(t, rows, remaining)
    && OrderedBefore(t, rows, remaining)
  }

  lemma ListedOnceNext(t: Table, rows: seq<Invoice>, remaining: set<Id>, next: Id)
    requires PrimaryKey(t) && ListedOnce(t, rows, remaining) && next in remaining && remaining <= t.Keys
    ensures ListedOnce(t, rows + [t[next]], remaining - {next})
  {
  }

  lemma CoversNext(t: Table, rows: seq<Invoice>, remaining: set<Id>, next: Id)
    requires PrimaryKey(t) && Covers(t, rows, remaining) && next in remaining && remaining <= t.Keys
    ensures Covers(t, rows + [t[next]], remaining - {next})
  {
    var rows', remaining' := rows + [t[next]], remaining - {next};
    forall id | id in t && id !in remaining'
      ensures exists i :: 0 <= i < |rows'| && rows'[i].id == id
    {
      if id == next {
        assert rows'[|rows|].id == id;
      } else {
        var i :| 0 <= i < |rows| && rows[i].id == id;
        assert rows'[i].id == id;
      }
    }
  }

  lemma OrderedNext(t: Table, rows: seq<Invoice>, remaining: set<Id>, next: Id)
    requires remaining <= t.Keys && OrderedBefore(t, rows, remaining)
    requires next in remaining && forall o :: o in remaining ==> t[o].createdAt <= t[next].createdAt
    ensures OrderedBefore(t, rows + [t[next]], remaining - {next})
  {
  }

  /** Moving the newest remaining row to the end of the selection keeps it newest-first. */
  lemma SelectNext(t: Table, rows: seq<Invoice>, remaining: set<Id>, next: Id)
    requires PrimaryKey(t) && SelectedSoFar(t, rows, remaining)
    requires next in remaining && forall o :: o in remaining ==> t[o].createdAt <= t[next].createdAt
    ensures SelectedSoFar(t, rows + [t[next]], remaining - {next})
  {
    assert |remaining - {next}| == |remaining| - 1;
    ListedOnceNext(t, rows, remaining, next);
    CoversNext(t, rows, remaining, next);
    OrderedNext(t, rows, remaining, next);
  }

  /**
   * `query(Invoice).order_by(created_at.desc()).all()`: every row, newest first.
   */
  method SelectNewestFirst(t: Table) returns (rows: seq<Invoice>)
    requires PrimaryKey(t)
    ensures NewestFirst(t, rows)
  {
    rows := [];
    var remaining := t.Keys;
    while remaining != {}
      invariant SelectedSoFar(t, rows, remaining)
      decreases remaining
    {
      NewestExists(t, remaining);
      var next :| next in remaining && forall o :: o in remaining ==> t[o].createdAt <= t[next].createdAt;
      SelectNext(t, rows, remaining, next);
      rows := rows + [t[next]];
      remaining := remaining - {next};
    }
    assert |t.Keys| == |t|;
  }

  /**
   * `.offset(skip).limit(limit)`: the rows after the first `skip`, at most `limit` of them.
   */
  function Page<T>(rows: seq<T>, skip: nat, limit: nat): (r: seq<T>)
    ensures |r| == if skip >= |rows| then 0 else if |rows| - skip < limit then |rows| - skip else limit
    ensures forall i :: 0 <= i < |r| ==> r[i] == rows[skip + i]
  {
    var from := if skip < |rows| then skip else |rows|;
    var rest := rows[from..];
    if limit < |rest| then rest[..limit] else rest
  }
}
