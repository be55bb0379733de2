/**
 * Properties of the invoice lifecycle that relate several handler calls:
 * idempotent replay, first writer wins, one row per key after a race,
 * agreement of the two lookups, cancellation idempotence and the
 * forward-only status machine.
 */
module ErpApiProperties {
  import opened Wrappers
  import opened Models
  import opened ErpApi

  /** The ids of the rows holding idempotency key `k`. */
  function HoldersOf(t: Table, k: Key): set<Id>
  {
    set id | id in t && t[id].idempotencyKey == k
  }

  /**
   * Race safety: whichever path a creation takes, afterwards exactly one row
   * holds its idempotency key, and it is the row whose id was replied.
   */
  lemma CreateLeavesExactlyOne(s: State, key: Key, payload: string, newId: Id, stampUuid: Uuid, racer: Option<Racer>)
    requires Inv(s) && FreshDraws(s, newId, stampUuid, racer)
    ensures var (s', out) := Create(s, key, payload, newId, stampUuid, racer);
            HoldersOf(s'.db, key) == {out.id} && |HoldersOf(s'.db, key)| == 1
  {
  }

  /**
   * Idempotent creation: a second creation with the same key, whatever its
   * payload, racer and fresh draws, changes nothing and replies the same id,
   * and the stored payload is the first writer's.
   */
  lemma CreateAgainIsReplay(s: State, key: Key,
                            p1: string, id1: Id, u1: Uuid, r1: Option<Racer>,
                            p2: string, id2: Id, u2: Uuid, r2: Option<Racer>)
    requires Inv(s) && FreshDraws(s, id1, u1, r1)
    requires FreshDraws(Create(s, key, p1, id1, u1, r1).0, id2, u2, r2)
    ensures var (s1, out1) := Create(s, key, p1, id1, u1, r1);
            var (s2, out2) := Create(s1, key, p2, id2, u2, r2);
            && s2 == s1
            && out2.id == out1.id
            && GetById(s1, out1.id) == Found(out2)
            && s2.db[out2.id].payload ==
                 if KeyTaken(s.db, key) then FindByKey(s.db, key).value.payload
                 else if r1.Some? then Some(r1.value.payload)
                 else Some(p1)
  {
  }

  /**
   * The reply to a novel key is stale: it says pending with no uuid, while
   * the stored row is already stamped, so a replay of the same key replies
   * something different from the first reply (same id, different status and uuid).
   */
  lemma NovelReplyIsStale(s: State, key: Key, payload: string, newId: Id, stampUuid: Uuid,
                          p2: string, id2: Id, u2: Uuid, r2: Option<Racer>)
    requires Inv(s) && FreshDraws(s, newId, stampUuid, None) && !KeyTaken(s.db, key)
    requires FreshDraws(Create(s, key, payload, newId, stampUuid, None).0, id2, u2, r2)
    ensures var (s1, out1) := Create(s, key, payload, newId, stampUuid, None);
            var out2 := Create(s1, key, p2, id2, u2, r2).1;
            && out1 == InvoiceOut(newId, Pending, None, None, [])
            && out2 == InvoiceOut(newId, Stamped, Some(stampUuid), None, [])
            && out2 != out1
  {
  }

  /**
   * Lookup consistency: for a row with a certification uuid, the lookup by
   * id and the lookup by uuid reply the same projection.
   */
  lemma LookupsAgree(s: State, id: Id)
    requires Inv(s) && id in s.db && s.db[id].uuid.Some?
    ensures GetById(s, id) == GetByUuid(s, s.db[id].uuid.value)
    ensures GetById(s, id).Found?
  {
  }

  /** Two distinct rows never share a certification uuid. */
  lemma CertUuidsDistinct(s: State, a: Id, b: Id)
    requires Inv(s) && a in s.db && b in s.db && a != b
    requires s.db[a].uuid.Some? && s.db[b].uuid.Some?
    ensures s.db[a].uuid != s.db[b].uuid
  {
  }

  /**
   * A cancellation only ever reaches a stamped or already cancelled row:
   * a pending row has no uuid to be found by.
   */
  lemma CancelNeverReachesPending(s: State, uuid: Uuid, body: Option<CancelIn>)
    requires Inv(s)
    ensures Cancel(s, uuid, body).1.Found? ==>
              var inv := FindByUuid(s.db, uuid).value;
              inv.status == Stamped || inv.status == CancelAccepted
  {
  }

  /** Cancelling twice at the same instant is the same as cancelling once, whatever the bodies. */
  lemma CancelIdempotent(s: State, uuid: Uuid, b1: Option<CancelIn>, b2: Option<CancelIn>)
    requires Inv(s)
    ensures var (s1, r1) := Cancel(s, uuid, b1);
            Cancel(s1, uuid, b2) == (s1, r1)
  {
    var (s1, r1) := Cancel(s, uuid, b1);
    var (s2, r2) := Cancel(s1, uuid, b2);
    if r1.Found? {
      var id := FindByUuid(s.db, uuid).value.id;
      assert s1.db[id].uuid == Some(uuid);
      assert UuidTaken(s1.db, uuid);
      assert s2.db == s1.db;
    } else {
      assert s1 == s;
    }
  }

  /**
   * Cancelling again after any time has passed replies the same and changes
   * nothing but the cancelled row's `updated_at`, which becomes the later time.
   */
  lemma CancelAgainLater(s: State, uuid: Uuid, b1: Option<CancelIn>, b2: Option<CancelIn>, elapsed: nat)
    requires Inv(s)
    ensures var (s1, r1) := Cancel(s, uuid, b1);
            var later := Elapse(s1, elapsed);
            var (s2, r2) := Cancel(later, uuid, b2);
            && r2 == r1
            && s2.clock == later.clock
            && s2.db.Keys == s1.db.Keys
            && forall id :: id in s1.db ==>
                 s2.db[id] == if s1.db[id].uuid == Some(uuid)
                              then s1.db[id].(updatedAt := later.clock)
                              else s1.db[id]
  {
    var (s1, r1) := Cancel(s, uuid, b1);
    var later := Elapse(s1, elapsed);
    if r1.Found? {
      var id := FindByUuid(s.db, uuid).value.id;
      assert s1.db[id].uuid == Some(uuid);
      assert UuidTaken(later.db, uuid);
    } else {
      assert s1 == s;
    }
  }

  /** The list's default query, `skip=0` and `limit=20`, is the first twenty rows, or all of them. */
  lemma DefaultListIsFirstPage(rows: seq<Invoice>)
    ensures Page(rows, 0, DefaultLimit) == if |rows| <= DefaultLimit then rows else rows[..DefaultLimit]
  {
  }

  /** Creation moves no existing row's status, and cancellation moves one only forward. */
  lemma HandlersMoveForward(s: State, key: Key, payload: string, newId: Id, stampUuid: Uuid,
                            racer: Option<Racer>, uuid: Uuid, body: Option<CancelIn>)
    requires Inv(s) && FreshDraws(s, newId, stampUuid, racer)
    ensures var s' := Create(s, key, payload, newId, stampUuid, racer).0;
            forall id :: id in s.db ==> id in s'.db && Transition(s.db[id].status, s'.db[id].status)
    ensures var s' := Cancel(s, uuid, body).0;
            forall id :: id in s.db ==> id in s'.db && Transition(s.db[id].status, s'.db[id].status)
  {
  }

  /** Stamping a pending row is a forward step; no handler ever returns a row to pending. */
  lemma StampPendingMovesForward(s: State, id: Id, certUuid: Uuid)
    requires Inv(s) && !UuidTaken(s.db, certUuid)
    requires id in s.db && s.db[id].status == Pending
    ensures Transition(s.db[id].status, Stamp(s, id, certUuid).db[id].status)
    ensures forall o :: o in s.db && s.db[o].status != Pending ==> Stamp(s, id, certUuid).db[o].status != Pending
  {
  }

  /**
   * The documented scenario: a first creation with key "abc-1" replies
   * pending and stores a stamped row with a certification uuid; repeating it
   * with another payload changes nothing and replies that stamped row; the
   * uuid finds the same row; cancelling an unknown uuid is NotFound.
   */
  lemma AbcScenario()
    ensures
      var s0 := State(map[], 0);
      var (s1, out1) := Create(s0, "abc-1", "{\"moneda\":\"MXN\"}", "inv-1", "cfdi-1", None);
      var (s2, out2) := Create(s1, "abc-1", "{\"moneda\":\"USD\"}", "inv-2", "cfdi-2", None);
      && out1 == InvoiceOut("inv-1", Pending, None, None, [])
      && s2 == s1
      && out2 == InvoiceOut("inv-1", Stamped, Some("cfdi-1"), None, [])
      && GetByUuid(s2, "cfdi-1") == Found(out2)
      && Cancel(s2, "unknown", None).1 == NotFound
  {
  }
}
