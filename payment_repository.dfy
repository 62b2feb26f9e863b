/**
  The Postgres payment repository (`PaymentRepo`): the client secret drawn
  from the system's random source, the payment intent created together with
  the `new -> awaiting_payment` step of its order, and the confirmation that
  marks the intent `succeeded` and the order `paid` in one transaction.
 */
module PaymentRepository {
  import opened Base
  import opened Database
  import opened OrderStatus

  const StatusRequiresConfirmation := "requires_confirmation"
  const StatusSucceeded := "succeeded"

  /** The number of random bytes in a client secret. */
  const SecretBytes := 16

  // ---------------------------------------------------------------------
  // Lower-case hexadecimal, as `hex.EncodeToString` writes it

  predicate IsLowerHex(c: char)
  {
    ('0' <= c <= '9') || ('a' <= c <= 'f')
  }

  function HexDigit(d: int): (c: char)
    requires 0 <= d < 16
    ensures IsLowerHex(c)
  {
    if d < 10 then ('0' as int + d) as char else ('a' as int + d - 10) as char
  }

  function HexValue(c: char): int
    requires IsLowerHex(c)
  {
    if c <= '9' then c as int - '0' as int else c as int - 'a' as int + 10
  }

  /** Two lower-case hex digits per byte, high nibble first. */
  function Hex(bytes: seq<byte>): (s: string)
    ensures |s| == 2 * |bytes|
    ensures forall i :: 0 <= i < |s| ==> IsLowerHex(s[i])
  {
    if bytes == [] then []
    else
      var b := bytes[|bytes| - 1] as int;
      Hex(bytes[..|bytes| - 1]) + [HexDigit(b / 16), HexDigit(b % 16)]
  }

  /** The bytes a lower-case hex string of even length spells. */
  function Unhex(s: string): seq<byte>
    requires |s| % 2 == 0
    requires forall i :: 0 <= i < |s| ==> IsLowerHex(s[i])
  {
    if s == [] then []
    else Unhex(s[..|s| - 2]) + [(16 * HexValue(s[|s| - 2]) + HexValue(s[|s| - 1])) as byte]
  }

  lemma HexDigitValue(d: int)
    requires 0 <= d < 16
    ensures HexValue(HexDigit(d)) == d
  {
  }

  /** The encoding loses nothing: the secret determines the random bytes it was made from. */
  lemma {:induction false} HexRoundTrip(bytes: seq<byte>)
    ensures Unhex(Hex(bytes)) == bytes
  {
    if bytes != [] {
      var prefix := bytes[..|bytes| - 1];
      var b := bytes[|bytes| - 1] as int;
      var s := Hex(bytes);
      assert s[..|s| - 2] == Hex(prefix);
      HexDigitValue(b / 16);
      HexDigitValue(b % 16);
      HexRoundTrip(prefix);
      assert bytes == prefix + [bytes[|bytes| - 1]];
    }
  }

  /**
    `randSecret`: fills an `n`-byte buffer from the random source and returns
    it hex-encoded. `random` is what the source yields; a source that cannot
    fill the buffer is an error.
   */
  method RandSecret(n: nat, random: seq<byte>) returns (secret: string, err: Option<Error>)
    ensures err.None? <==> |random| >= n
    ensures err.None? ==> secret == Hex(random[..n]) && |secret| == 2 * n
    ensures err.Some? ==> err == Some(ErrNoEntropy) && secret == ""
  {
    var b := new byte[n];
    if |random| < n {
      return "", Some(ErrNoEntropy);
    }
    for i := 0 to n
      invariant b[..i] == random[..i]
    {
      b[i] := random[i];
    }
    assert b[..] == b[..n];
    secret, err := Hex(b[..]), None;
  }

  // ---------------------------------------------------------------------
  // Creating an intent

  /** The error of `CreateIntent` for order `orderID`, or None. */
  function IntentError(orders: map<int, OrderRow>, failing: set<Op>, orderID: int, random: seq<byte>): Option<Error>
  {
    if |random| < SecretBytes then Some(ErrNoEntropy)
    else if InsertIntent in failing then Some(Wrapped(CreateIntentFailed, Some(DbFailure(InsertIntent))))
    else if orderID in orders && orders[orderID].status == StatusNew then None
    else Some(Wrapped(CreateIntentFailed, Some(ErrNoRows)))
  }

  /** The intent row `CreateIntent` inserts, under id `id`: the amount is the stored total of the order. */
  function NewIntent(orders: map<int, OrderRow>, id: int, orderID: int, random: seq<byte>): Intent
    requires orderID in orders && |random| >= SecretBytes
  {
    Intent(id, orderID, orders[orderID].totalAmount, StatusRequiresConfirmation, Hex(random[..SecretBytes]))
  }

  /** An intent is created only for a `new` order, whose secret is 32 lower-case hex characters. */
  lemma CreatedIntentShape(orders: map<int, OrderRow>, failing: set<Op>, id: int, orderID: int, random: seq<byte>)
    requires IntentError(orders, failing, orderID, random).None?
    ensures orderID in orders && orders[orderID].status == StatusNew
    ensures |NewIntent(orders, id, orderID, random).clientSecret| == 32
    ensures forall i :: 0 <= i < 32 ==> IsLowerHex(NewIntent(orders, id, orderID, random).clientSecret[i])
    ensures IsValidStatusTransition(StatusNew, StatusAwaitingPayment)
  {
  }

  // ---------------------------------------------------------------------
  // Confirming an intent

  /** The `WHERE` clause of the confirmation update. */
  predicate Pending(x: Intent, orderID: int, clientSecret: string)
  {
    x.orderId == orderID && x.clientSecret == clientSecret && x.status == StatusRequiresConfirmation
  }

  predicate HasPending(intents: seq<Intent>, orderID: int, clientSecret: string)
  {
    exists i :: 0 <= i < |intents| && Pending(intents[i], orderID, clientSecret)
  }

  /** `UPDATE payment_intents SET status = 'succeeded' WHERE ...`: every pending match is updated. */
  function Confirmed(intents: seq<Intent>, orderID: int, clientSecret: string): seq<Intent>
  {
    seq(|intents|, i requires 0 <= i < |intents| =>
      if Pending(intents[i], orderID, clientSecret) then intents[i].(status := StatusSucceeded) else intents[i])
  }

  /** The first updated row, the one `Scan` reads back; `|intents|` when there is none. */
  function FirstPending(intents: seq<Intent>, orderID: int, clientSecret: string): (k: nat)
    ensures k <= |intents|
    ensures k < |intents| ==> Pending(intents[k], orderID, clientSecret)
    ensures forall j :: 0 <= j < k ==> !Pending(intents[j], orderID, clientSecret)
    ensures k == |intents| <==> !HasPending(intents, orderID, clientSecret)
  {
    if intents == [] then 0
    else if Pending(intents[0], orderID, clientSecret) then 0
    else
      var k := FirstPending(intents[1..], orderID, clientSecret);
      assert forall j :: 1 <= j < |intents| ==> intents[1..][j - 1] == intents[j];
      1 + k
  }

  /** The error of `ConfirmIntent` on tables `t`, or None. */
  function ConfirmError(t: Tables, failing: set<Op>, orderID: int, clientSecret: string): Option<Error>
  {
    if Begin in failing then Some(Wrapped(BeginTxFailed, Some(DbFailure(Begin))))
    else if ConfirmUpdate in failing then Some(Wrapped(ConfirmIntentFailed, Some(DbFailure(ConfirmUpdate))))
    else if !HasPending(t.intents, orderID, clientSecret) then Some(Wrapped(ConfirmIntentFailed, Some(ErrNoRows)))
    else if PayOrder in failing then Some(Wrapped(UpdateOrderStatusFailed, Some(DbFailure(PayOrder))))
    else if !(orderID in t.orders && t.orders[orderID].status == StatusAwaitingPayment) then
      Some(Wrapped(OrderNotAwaitingPayment, None))
    else if CommitTx in failing then Some(Wrapped(CommitFailed, Some(DbFailure(CommitTx))))
    else None
  }

  /** The tables after a committed confirmation. */
  function ConfirmedTables(t: Tables, orderID: int, clientSecret: string): Tables
    requires orderID in t.orders
  {
    t.(intents := Confirmed(t.intents, orderID, clientSecret),
       orders := t.orders[orderID := t.orders[orderID].(status := StatusPaid)])
  }

  /** The calls `ConfirmIntent` makes: itself, then the commit it reaches and the deferred rollback. */
  function ConfirmCalls(t: Tables, failing: set<Op>, orderID: int, clientSecret: string): seq<Call>
  {
    var err := ConfirmError(t, failing, orderID, clientSecret);
    [Call.ConfirmIntent(orderID, clientSecret)]
      + if Begin in failing then []
        else if err.None? || err == Some(Wrapped(CommitFailed, Some(DbFailure(CommitTx)))) then [Call.Commit, Call.Rollback]
        else [Call.Rollback]
  }

  /**
    A committed confirmation leaves no intent newly `succeeded` whose order is
    not `paid`: every row it changed belongs to the order, which it paid.
   */
  lemma {:induction false} ConfirmedIntentsHavePaidOrders(t: Tables, failing: set<Op>, orderID: int, clientSecret: string)
    requires ConfirmError(t, failing, orderID, clientSecret).None?
    ensures orderID in t.orders && t.orders[orderID].status == StatusAwaitingPayment
    ensures var t' := ConfirmedTables(t, orderID, clientSecret);
      forall i :: 0 <= i < |t'.intents| && t'.intents[i] != t.intents[i] ==>
        && Pending(t.intents[i], orderID, clientSecret)
        && t'.intents[i] == t.intents[i].(status := StatusSucceeded)
        && t'.intents[i].orderId in t'.orders && t'.orders[t'.intents[i].orderId].status == StatusPaid
  {
    var t' := ConfirmedTables(t, orderID, clientSecret);
    assert |t'.intents| == |t.intents|;
  }

  /** Only pending rows of that order and secret change, and only their status. */
  lemma ConfirmTouchesOnlyPending(intents: seq<Intent>, orderID: int, clientSecret: string)
    ensures |Confirmed(intents, orderID, clientSecret)| == |intents|
    ensures forall i :: 0 <= i < |intents| && !Pending(intents[i], orderID, clientSecret) ==>
      Confirmed(intents, orderID, clientSecret)[i] == intents[i]
    ensures forall i :: 0 <= i < |intents| ==>
      Confirmed(intents, orderID, clientSecret)[i] == intents[i].(status := Confirmed(intents, orderID, clientSecret)[i].status)
  {
  }

  /** A second confirmation with the same secret finds nothing left to confirm. */
  lemma ConfirmedLeavesNothingPending(intents: seq<Intent>, orderID: int, clientSecret: string)
    ensures !HasPending(Confirmed(intents, orderID, clientSecret), orderID, clientSecret)
  {
  }

  class PaymentRepo {
    const db: Db

    constructor (db: Db)
      ensures this.db == db
    {
      this.db := db;
    }

    /**
      Draws a secret, then in one statement moves the order from `new` to
      `awaiting_payment` and inserts an intent for its stored total; when the
      order is not `new` (or absent) neither happens and no row comes back.
     */
    method CreateIntent(o: Order, random: seq<byte>) returns (pi: Intent, err: Option<Error>)
      requires db.Valid()
      modifies db`orders, db`intents, db`nextId, db`calls
      ensures db.Valid()
      ensures db.calls == old(db.calls) + [Call.CreateIntent(o.id)]
      ensures err == IntentError(old(db.orders), db.failing, o.id, random)
      ensures err.None? ==>
        && pi == NewIntent(old(db.orders), pi.id, o.id, random)
        && (forall i :: 0 <= i < |old(db.intents)| ==> old(db.intents)[i].id != pi.id)
        && db.orders == old(db.orders)[o.id := old(db.orders)[o.id].(status := StatusAwaitingPayment)]
        && db.intents == old(db.intents) + [pi]
      ensures err.Some? ==> db.orders == old(db.orders) && db.intents == old(db.intents)
    {
      db.calls := db.calls + [Call.CreateIntent(o.id)];
      pi := Intent(0, 0, 0, "", "");
      var secret, e := RandSecret(SecretBytes, random);
      if e.Some? {
        return pi, e;
      }
      if InsertIntent in db.failing {
        return pi, Some(Wrapped(CreateIntentFailed, Some(DbFailure(InsertIntent))));
      }
      if !(o.id in db.orders && db.orders[o.id].status == StatusNew) {
        return pi, Some(Wrapped(CreateIntentFailed, Some(ErrNoRows)));
      }
      var row := db.orders[o.id];
      db.orders := db.orders[o.id := row.(status := StatusAwaitingPayment)];
      pi := Intent(db.nextId, o.id, row.totalAmount, StatusRequiresConfirmation, secret);
      db.intents := db.intents + [pi];
      db.nextId := db.nextId + 1;
      err := None;
    }

    /**
      In one transaction: mark the pending intents of the order with this
      secret `succeeded`, then move the order from `awaiting_payment` to
      `paid`, then commit. Any failure leaves both tables as they were.
     */
    method ConfirmIntent(orderID: int, clientSecret: string) returns (pi: Intent, err: Option<Error>)
      requires db.Valid()
      modifies db
      ensures db.Valid()
      ensures db.failing == old(db.failing) && db.idempotencyKeys == old(db.idempotencyKeys)
      ensures db.calls == old(db.calls) + ConfirmCalls(old(db.Snapshot()), db.failing, orderID, clientSecret)
      ensures err == ConfirmError(old(db.Snapshot()), db.failing, orderID, clientSecret)
      ensures err.None? ==>
        && orderID in old(db.orders)
        && db.Snapshot() == ConfirmedTables(old(db.Snapshot()), orderID, clientSecret)
        && pi == db.intents[FirstPending(old(db.intents), orderID, clientSecret)]
      ensures err.Some? ==> db.Snapshot() == old(db.Snapshot())
    {
      db.calls := db.calls + [Call.ConfirmIntent(orderID, clientSecret)];
      pi := Intent(0, 0, 0, "", "");
      if Begin in db.failing {
        return pi, Some(Wrapped(BeginTxFailed, Some(DbFailure(Begin))));
      }
      var tx := new Tx(db);
      var row;
      row, err := ConfirmInTx(tx, orderID, clientSecret);
      var rollbackErr := tx.Rollback();
      if err.None? {
        pi := row;
      }
    }

    /** The statements inside the transaction of `ConfirmIntent`, up to and including the commit. */
    method ConfirmInTx(tx: Tx, orderID: int, clientSecret: string) returns (row: Intent, err: Option<Error>)
      requires tx.db == db && tx.Valid() && !tx.done && tx.snapshot == db.Snapshot() && Begin !in db.failing
      modifies db, tx
      ensures tx.Valid()
      ensures db.failing == old(db.failing) && db.idempotencyKeys == old(db.idempotencyKeys)
      ensures err == ConfirmError(tx.snapshot, db.failing, orderID, clientSecret)
      ensures tx.done <==> err.None? || err == Some(Wrapped(CommitFailed, Some(DbFailure(CommitTx))))
      ensures db.calls == old(db.calls) + if tx.done then [Call.Commit] else []
      ensures err.None? ==>
        && orderID in tx.snapshot.orders
        && db.Snapshot() == ConfirmedTables(tx.snapshot, orderID, clientSecret)
        && row == db.intents[FirstPending(tx.snapshot.intents, orderID, clientSecret)]
      ensures err.Some? && tx.done ==> db.Snapshot() == tx.snapshot
      ensures !tx.done ==>
        db.Snapshot() == if ConfirmUpdate in db.failing || !HasPending(tx.snapshot.intents, orderID, clientSecret) then tx.snapshot
                         else tx.snapshot.(intents := Confirmed(tx.snapshot.intents, orderID, clientSecret))
    {
      row := Intent(0, 0, 0, "", "");
      if ConfirmUpdate in db.failing {
        return row, Some(Wrapped(ConfirmIntentFailed, Some(DbFailure(ConfirmUpdate))));
      }
      var k := FirstPending(db.intents, orderID, clientSecret);
      if k == |db.intents| {
        return row, Some(Wrapped(ConfirmIntentFailed, Some(ErrNoRows)));
      }
      db.intents := Confirmed(db.intents, orderID, clientSecret);
      row := db.intents[k];
      if PayOrder in db.failing {
        return row, Some(Wrapped(UpdateOrderStatusFailed, Some(DbFailure(PayOrder))));
      }
      if !(orderID in db.orders && db.orders[orderID].status == StatusAwaitingPayment) {
        return row, Some(Wrapped(OrderNotAwaitingPayment, None));
      }
      db.orders := db.orders[orderID := db.orders[orderID].(status := StatusPaid)];
      assert db.Snapshot() == ConfirmedTables(tx.snapshot, orderID, clientSecret);
      var e := tx.Commit();
      err := if e.Some? then Some(Wrapped(CommitFailed, e)) else None;
    }
  }
}
