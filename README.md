# Idempotent invoice lifecycle of the CFDI ERP API

This project models the invoice handlers of a demonstration invoicing API
(CFDI, the Mexican electronic invoice) and proves properties of the model.
A client posts an invoice with an `idempotency-key` header. The API stores the
invoice once per key. It "stamps" the invoice at once: a simulated fiscal
certification that gives it a certification `uuid`. Clients can then read it
by internal id or by uuid, list invoices newest first, and cancel an invoice
by uuid.

Files:

- `wrappers.dfy`: `Option` (nullable columns, absent rows) and `Result` (commits).
- `models.dfy`, module `Models`: the `invoices` table. It holds the `Invoice`
  row, the table as a map from primary key to row, and the schema's
  constraints. `Insert` and `Update` are commits, rejected with an
  `IntegrityError` when they would break a constraint. `FindById`,
  `FindByKey` and `FindByUuid` are the single-row queries.
  `SelectNewestFirst` is the `ORDER BY created_at DESC` query and `Page` is
  its offset/limit.
- `erp_api.dfy`, module `ErpApi`: the handlers. Each handler is a function
  on a `State` (table plus wall clock): `Stamp`, `Create`, `Cancel`,
  `GetById`, `GetByUuid`. The class `InvoiceApi` keeps that state in fields
  `db` and `clock`. Its methods perform the handler's steps in order, and
  their `ensures` tie the new fields and the reply to those functions.
  `Inv` is the store invariant every handler keeps. It holds the schema's
  constraints, plus these five, one per row (`RowInvariant`):
  `created_at <= updated_at <= now`; no handler sets `xml_url`; every row
  carries its payload; a row has a uuid exactly when it is no longer
  pending; `cancel_rejected` is never written.
- `erp_api_properties.dfy`, module `ErpApiProperties`: lemmas that relate
  several calls.

Modelling choices:

- Time is a `clock` field in microseconds. `datetime.utcnow()` reads it.
  `time.sleep(0.5)` in `_stamp_now` advances it by `StampDelay = 500000`.
  `AdvanceClock` stands for wall-clock time passing between requests. The two
  `utcnow()` calls that fill `created_at` and `updated_at` of a new row are
  read as one instant.
- `uuid4()` draws arrive as arguments: `newId`, `stampUuid` and a racer's
  id. `FreshDraws` requires each to be new.
- The unique-key race in `create_invoice` needs no concurrency here. The
  argument `racer: Option<Racer>` is a concurrent request with the same key.
  When present, it commits its own pending row between this request's lookup
  and this request's commit. The commit is then rejected by `Insert` with
  `IdempotencyKeyViolation`. The handler rolls back and replies the racer's
  row.
- The payload is opaque text: the result of `json.dumps`.
- The status column is modelled as the four literals of `InvoiceOut`. Only
  `pending`, `stamped` and `cancel_accepted` are ever written.

Behaviour of the code that the model keeps as written:

- The code's reply to a novel key is always
  `{id, "pending", null, null, []}`, though the row is already stamped when
  the reply is sent. So a replay of the same key does not reply exactly what
  the first call replied. The id is the same, but the second reply shows
  `stamped` and the uuid (`NovelReplyIsStale`).
- There is no `failed` status and no provider call that can fail. Stamping
  always succeeds.
- Cancellation sets `cancel_accepted` whatever the row's status was. It
  ignores the body (reason code, substitute uuid) and never yields
  `cancel_rejected`. A pending row cannot be cancelled: it has no uuid to be
  found by (`CancelNeverReachesPending`).
- `_stamp_now` does not look at the current status. It is only called on a
  row that was just inserted as pending.

## Model

| member | source | states |
|---|---|---|
| Models.StatusName | apps/erp_api/main.py:52 | the literal stored in the status column and sent back for each status: "pending", "stamped", "cancel_accepted", "cancel_rejected" |
| Models.StatusNamesDistinct | apps/db/models.py:13 | two statuses have the same stored literal exactly when they are the same status |
| Models.Constraints | apps/db/models.py:9-14 | the schema's constraints: every row is stored under its own primary key, no two rows share an idempotency key, no two rows share a non-null uuid |
| Models.Insert | apps/db/models.py:9-14 | a new row is rejected exactly when its id, its idempotency key or its non-null uuid is already used (a reused key reports the `uq_invoices_idempotency_key` violation); otherwise the table gains exactly that row and keeps every constraint |
| Models.Update | apps/db/models.py:9-14 | committing a changed row is rejected exactly when another row holds its key or its non-null uuid; otherwise only that row changes and every constraint holds |
| Models.FindById | apps/erp_api/main.py:130 | `db.get` is empty exactly when the id is not stored, otherwise it yields the row stored under it, whose id is that id |
| Models.FindByKey | apps/erp_api/main.py:85 | `one_or_none` by idempotency key is empty exactly when no row holds the key, otherwise it yields the one row that does |
| Models.FindByUuid | apps/erp_api/main.py:147 | `one_or_none` by uuid is empty exactly when no row carries it, otherwise it yields the one row that does |
| Models.SelectNewestFirst | apps/erp_api/main.py:157 | the query lists every stored row exactly once, as stored, in non-increasing `created_at` order |
| Models.NewestExists | apps/erp_api/main.py:157 | any non-empty set of stored rows has a newest member, so the descending order exists |
| Models.Page | apps/erp_api/main.py:157 | `offset(skip).limit(limit)` keeps the rows from position `skip` on, at most `limit` of them, in order |
| ErpApi.Project | apps/erp_api/main.py:87-93 | the `InvoiceOut` reply built from a row: its id, status, uuid and `xml_url`, with empty `errors` (the same dict at lines 113-119, 133, 160-166 and 174) |
| ErpApi.Projections | apps/erp_api/main.py:158-167 | the replies for a list of rows, one per row, in the same order |
| ErpApi.NewRecord | apps/erp_api/main.py:96-106 | the row `create_invoice` builds is pending with no uuid and no `xml_url`, carries the payload, has `created_at == updated_at == now`, and satisfies the row invariant |
| ErpApi.RowInvariant | apps/db/models.py:13-18 | per row: `created_at <= updated_at <= now`, `xml_url` null, payload present, uuid null exactly while pending, never `cancel_rejected` |
| ErpApi.Inv | apps/db/models.py:9-18 | the store invariant: the schema's constraints, and the row invariant for every row |
| ErpApi.Elapse | apps/erp_api/main.py:104-105 | wall-clock time passing between requests: the clock that `utcnow()` reads moves on, the table is kept, and the invariant still holds |
| ErpApi.Stamp | apps/erp_api/main.py:65-73 | after the delay, a stored row becomes stamped with the fresh uuid and a refreshed `updated_at`; its id, key, payload, `xml_url` and `created_at` and all other rows are unchanged; an absent id changes no row; the uuid then finds that row; the store invariant is kept |
| ErpApi.Create | apps/erp_api/main.py:79-124 | replay returns the projection of the row holding the key and changes nothing; on a unique-key conflict the racer's row is the only one added and is replied; a novel key adds exactly one row under the new id, stamped, while the reply is `{new_id, pending, null, null, []}`; on every path existing rows are untouched and the key ends up held by the replied id |
| ErpApi.Cancel | apps/erp_api/main.py:145-153 | an unknown uuid is NotFound and changes nothing; otherwise exactly the row with that uuid becomes `cancel_accepted` with `updated_at` refreshed, the reply echoes the uuid, and the invariant is kept |
| ErpApi.GetById | apps/erp_api/main.py:128-133 | NotFound exactly when the id is not stored; otherwise the row's id, status and uuid with no `xml_url` and empty `errors` |
| ErpApi.GetByUuid | apps/erp_api/main.py:169-174 | NotFound exactly when no row carries the uuid; otherwise the projection of that stored row, which is never pending, with empty `errors` |
| ErpApi.InvoiceApi.constructor | apps/db/models.py:7-8 | the starting point: an empty `invoices` table at time zero, which satisfies the invariant |
| ErpApi.InvoiceApi.AdvanceClock | apps/erp_api/main.py:104-105 | wall-clock time passing between requests: the fields become `Elapse` of the old fields |
| ErpApi.InvoiceApi.StampNow | apps/erp_api/main.py:65-73 | the in-place steps of `_stamp_now` leave the fields equal to `Stamp` of the old fields and keep the invariant |
| ErpApi.InvoiceApi.CreateInvoice | apps/erp_api/main.py:79-124 | lookup, add, commit or rollback-and-requery, then stamp: fields and reply equal `Create` of the old fields |
| ErpApi.InvoiceApi.CancelInvoice | apps/erp_api/main.py:145-153 | fields and reply equal `Cancel` of the old fields |
| ErpApi.InvoiceApi.GetInvoice | apps/erp_api/main.py:128-133 | the reply is `GetById` of the current fields |
| ErpApi.InvoiceApi.GetInvoiceByUuid | apps/erp_api/main.py:169-174 | the reply is `GetByUuid` of the current fields |
| ErpApi.InvoiceApi.ListInvoices | apps/erp_api/main.py:155-167 | the reply is the projections of a newest-first listing of the table with `skip` dropped and at most `limit` kept; its length is `min(limit, max(0, rows - skip)) for the stored row count` |
| ErpApiProperties.CreateLeavesExactlyOne | apps/erp_api/main.py:84-119 | after any creation, exactly one row holds the key, and it is the replied id |
| ErpApiProperties.CreateAgainIsReplay | apps/erp_api/main.py:85-93 | a second creation with the same key changes nothing and replies the same id, as the current projection of that row; the stored payload is the first writer's |
| ErpApiProperties.NovelReplyIsStale | apps/erp_api/main.py:121-124 | the novel-key reply says pending with no uuid, while the replay right after says stamped with the uuid |
| ErpApiProperties.LookupsAgree | apps/erp_api/main.py:169-174 | for a row with a uuid, lookup by id and lookup by uuid both find it and reply the same projection |
| ErpApiProperties.CertUuidsDistinct | apps/db/models.py:14 | two distinct rows never carry the same certification uuid |
| ErpApiProperties.CancelNeverReachesPending | apps/erp_api/main.py:145-150 | a successful cancellation finds only a stamped or already cancelled row |
| ErpApiProperties.CancelIdempotent | apps/erp_api/main.py:145-153 | cancelling again at the same instant, with any body, changes nothing and replies the same |
| ErpApiProperties.CancelAgainLater | apps/erp_api/main.py:145-153 | cancelling again after any time has passed gives the same reply and changes nothing but the cancelled row's `updated_at`, which becomes the later time |
| ErpApiProperties.DefaultListIsFirstPage | apps/erp_api/main.py:156 | the list's defaults `skip=0`, `limit=20` select the first twenty rows, or all rows when there are fewer |
| ErpApiProperties.HandlersMoveForward | apps/erp_api/main.py:50-153 | creation and cancellation keep every existing row, and each row's status only stays, goes pending to stamped, or goes stamped to cancel_accepted |
| ErpApiProperties.StampPendingMovesForward | apps/erp_api/main.py:65-73 | stamping a pending row is a forward step and puts no row back to pending |
| ErpApiProperties.AbcScenario | apps/erp_api/main.py:79-153 | from an empty table: create "abc-1" replies pending; repeating it replies the same row, now stamped with its uuid; the uuid lookup agrees; cancelling an unknown uuid is NotFound |

## Left out

- HTTP routing, header/body binding, status codes (202, 404 is `NotFound`) and `/health`: framework plumbing.
- `InvoiceIn`, `Party`, `Concepto`: the handlers take a plain dict; the payload is opaque text, and `json.dumps` is not modelled.
- Authentication (`apps/core/auth.py`), XML building (`apps/cfdi_engine/builder.py`) and the fake certification provider (`apps/pac_adapter/fake.py`): not used by these handlers.
- Real concurrency between requests: only one interleaving of the unique-key race is modelled. The racer's row commits between lookup and commit, and it is read back before the racer stamps it.
- `uuid4()` randomness: fresh values are arguments with freshness preconditions. A colliding uuid, and the unhandled `IntegrityError` it would raise at the stamping commit, fall outside the model.
- The session's commit/rollback bookkeeping: a rejected commit leaves the committed table as it was, and that is all that is modelled.
- Logging and the wall clock's resolution: time is a microsecond counter, and the two `utcnow()` calls for a new row read one instant.
- The wall clock never runs backwards here: `Time`, `Elapse` and `AdvanceClock` only move it forward. `datetime.utcnow()` can step back when the system clock is reset. The `created_at <= updated_at <= now` part of `RowInvariant` holds only under this assumption.
- Negative `skip` or `limit`: they are natural numbers here. What a database does with negative values differs between engines.
- The status string column is open-ended in the schema. It is modelled as the four literals the API declares.
- ErpApi.InvoiceApi.ListInvoices: rows created at the same instant may come in either order, as SQL `ORDER BY` leaves ties undefined. The reply is therefore stated for some newest-first listing, not for one fixed order.
