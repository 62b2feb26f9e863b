/**
  The idempotency ledger (`IdemRepo`) over the `idempotency_keys` table, whose
  key column is unique. Starting a request is an insert that does nothing when
  the key is already there, followed by a read of the row by key alone;
  saving a result sets the row's status code and order id.

  As written, no path of `TryStartIdempotent` reports `ok = true`: even the
  call that has just inserted a fresh row reads that row back, finds no order
  id and reports a conflict. `Variant.Intended` is the evidently intended
  behaviour (report `ok = true` when the insert took effect); `AsWritten` is
  the code. The order workflow is written against either.
 */
module IdempotencyRepository {
  import opened Base
  import opened Database

  datatype Variant = AsWritten | Intended

  /** What `TryStartIdempotent` returns: `(ok, savedStatus, savedOrderID, err)`. */
  datatype StartReply = StartReply(ok: bool, savedStatus: int, savedOrderId: int, err: Option<Error>)

  /** `INSERT ... ON CONFLICT DO NOTHING`: the ledger after the insert. */
  function Started(rows: map<string, IdemRow>, userID: int, key: string, reqHash: string): map<string, IdemRow>
  {
    if key in rows then rows else rows[key := IdemRow(userID, reqHash, None, None)]
  }

  /** The reply built from the row read back by key (lines 40-43): NULL status reads as 0. */
  function ReplyFromRow(row: IdemRow): StartReply
  {
    var status := match row.statusCode case Some(s) => s case None => 0;
    match row.orderId
    case Some(id) => StartReply(false, status, id, None)
    case None => StartReply(false, status, 0, Some(ErrIdempotencyConflict))
  }

  /** The reply of `TryStartIdempotent` on ledger `rows` when the statements in `failing` fail. */
  function Reply(variant: Variant, rows: map<string, IdemRow>, failing: set<Op>,
                 userID: int, key: string, reqHash: string): StartReply
  {
    if InsertKey in failing then StartReply(false, 0, 0, Some(DbFailure(InsertKey)))
    else if variant == Intended && key !in rows then StartReply(true, 0, 0, None)
    else if SelectKey in failing then StartReply(false, 0, 0, Some(DbFailure(SelectKey)))
    else ReplyFromRow(Started(rows, userID, key, reqHash)[key])
  }

  /** `UPDATE idempotency_keys SET status_code, order_id WHERE key = $3`: the ledger after it. */
  function Saved(rows: map<string, IdemRow>, key: string, status: int, orderID: int): map<string, IdemRow>
  {
    if key in rows then rows[key := rows[key].(statusCode := Some(status), orderId := Some(orderID))] else rows
  }

  /** The insert adds only a fresh key and never alters a row that is already there. */
  lemma InsertIfAbsent(rows: map<string, IdemRow>, userID: int, key: string, reqHash: string)
    ensures Started(rows, userID, key, reqHash).Keys == rows.Keys + {key}
    ensures forall k :: k in rows ==> Started(rows, userID, key, reqHash)[k] == rows[k]
    ensures key !in rows ==> Started(rows, userID, key, reqHash)[key] == IdemRow(userID, reqHash, None, None)
  {
  }

  /** As written, the reply is never `ok`, whatever the ledger holds. */
  lemma AsWrittenNeverStarts(rows: map<string, IdemRow>, failing: set<Op>, userID: int, key: string, reqHash: string)
    ensures !Reply(AsWritten, rows, failing, userID, key, reqHash).ok
  {
  }

  /** As written, the very call that inserts a fresh key reports an idempotency conflict. */
  lemma AsWrittenFreshKeyConflicts(rows: map<string, IdemRow>, failing: set<Op>, userID: int, key: string, reqHash: string)
    requires key !in rows && InsertKey !in failing && SelectKey !in failing
    ensures Reply(AsWritten, rows, failing, userID, key, reqHash) == StartReply(false, 0, 0, Some(ErrIdempotencyConflict))
  {
  }

  /** The intended ledger reports `ok` exactly when the insert took effect. */
  lemma IntendedStartsExactlyOnFreshKey(rows: map<string, IdemRow>, failing: set<Op>, userID: int, key: string, reqHash: string)
    requires InsertKey !in failing
    ensures Reply(Intended, rows, failing, userID, key, reqHash).ok <==> key !in rows
  {
  }

  /** The lookup is by key alone: a row another user created under the key is what is reported. */
  lemma KeyedByKeyAlone(variant: Variant, rows: map<string, IdemRow>, failing: set<Op>, userID: int, key: string, reqHash: string)
    requires key in rows && InsertKey !in failing && SelectKey !in failing
    ensures Reply(variant, rows, failing, userID, key, reqHash) == ReplyFromRow(rows[key])
  {
  }

  /** Saving touches the row of that key only. */
  lemma SaveTouchesOneRow(rows: map<string, IdemRow>, key: string, status: int, orderID: int)
    ensures Saved(rows, key, status, orderID).Keys == rows.Keys
    ensures forall k :: k in rows && k != key ==> Saved(rows, key, status, orderID)[k] == rows[k]
  {
  }

  /** A saved result is what the next start with the same key reports, whoever asks. */
  lemma SavedResultIsReplayed(variant: Variant, rows: map<string, IdemRow>, failing: set<Op>,
                              key: string, status: int, orderID: int, userID: int, reqHash: string)
    requires key in rows && InsertKey !in failing && SelectKey !in failing
    ensures Reply(variant, Saved(rows, key, status, orderID), failing, userID, key, reqHash)
         == StartReply(false, status, orderID, None)
  {
  }

  class IdemRepo {
    const db: Db
    const variant: Variant

    constructor (db: Db, variant: Variant)
      ensures this.db == db && this.variant == variant
    {
      this.db := db;
      this.variant := variant;
    }

    method TryStartIdempotent(userID: int, key: string, reqHash: string)
      returns (ok: bool, savedStatus: int, savedOrderID: int, err: Option<Error>)
      modifies db`idempotencyKeys, db`calls
      ensures db.calls == old(db.calls) + [Call.TryStartIdempotent(userID, key)]
      ensures StartReply(ok, savedStatus, savedOrderID, err)
           == Reply(variant, old(db.idempotencyKeys), db.failing, userID, key, reqHash)
      ensures db.idempotencyKeys == if InsertKey in db.failing then old(db.idempotencyKeys)
                                    else Started(old(db.idempotencyKeys), userID, key, reqHash)
    {
      db.calls := db.calls + [Call.TryStartIdempotent(userID, key)];
      if InsertKey in db.failing {
        return false, 0, 0, Some(DbFailure(InsertKey));
      }
      var inserted := key !in db.idempotencyKeys;
      db.idempotencyKeys := Started(db.idempotencyKeys, userID, key, reqHash);
      if variant == Intended && inserted {
        return true, 0, 0, None;
      }
      if SelectKey in db.failing {
        return false, 0, 0, Some(DbFailure(SelectKey));
      }
      var row := db.idempotencyKeys[key];
      var status := match row.statusCode case Some(s) => s case None => 0;
      if row.orderId.Some? {
        return false, status, row.orderId.value, None;
      }
      return false, status, 0, Some(ErrIdempotencyConflict);
    }

    method SaveIdempotentResult(key: string, status: int, orderID: int) returns (err: Option<Error>)
      modifies db`idempotencyKeys, db`calls
      ensures db.calls == old(db.calls) + [Call.SaveIdempotentResult(key, status, orderID)]
      ensures err == if UpdateKey in db.failing then Some(DbFailure(UpdateKey)) else None
      ensures db.idempotencyKeys == if err.None? then Saved(old(db.idempotencyKeys), key, status, orderID)
                                    else old(db.idempotencyKeys)
    {
      db.calls := db.calls + [Call.SaveIdempotentResult(key, status, orderID)];
      if UpdateKey in db.failing {
        return Some(DbFailure(UpdateKey));
      }
      db.idempotencyKeys := Saved(db.idempotencyKeys, key, status, orderID);
      err := None;
    }
  }
}
