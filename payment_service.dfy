/**
  The payment service of `internal/payment`: both operations first fetch the
  order as the user's own (the ownership check), return that error unchanged
  when it fails, and otherwise hand over to the payment repository and return
  its result unchanged.
 */
module PaymentService {
  import opened Base
  import opened Database
  import opened OrderRepository
  import opened OrderStatus
  import opened PaymentRepository

  /** The order exists and belongs to the user. */
  predicate Owns(orders: map<int, OrderRow>, userID: int, orderID: int)
  {
    orderID in orders && orders[orderID].userId == userID
  }

  /** The error of the ownership fetch, or None. */
  function OwnershipError(orders: map<int, OrderRow>, failing: set<Op>, userID: int, orderID: int): Option<Error>
  {
    if SelectOrder in failing then Some(DbFailure(SelectOrder))
    else if Owns(orders, userID, orderID) then None
    else Some(ErrNoRows)
  }

  /** Another user's order is never let through, whatever else holds. */
  lemma ForeignOrderRefused(orders: map<int, OrderRow>, failing: set<Op>, userID: int, orderID: int)
    requires orderID in orders && orders[orderID].userId != userID
    ensures OwnershipError(orders, failing, userID, orderID).Some?
  {
  }

  class Service {
    const payRepo: PaymentRepo
    const ordRepo: OrderRepo

    ghost predicate Valid()
      reads payRepo.db
    {
      payRepo.db.Valid() && ordRepo.db == payRepo.db
    }

    constructor (payRepo: PaymentRepo, ordRepo: OrderRepo)
      ensures this.payRepo == payRepo && this.ordRepo == ordRepo
    {
      this.payRepo := payRepo;
      this.ordRepo := ordRepo;
    }

    method CreateIntent(userID: int, orderID: int, random: seq<byte>) returns (pi: Intent, err: Option<Error>)
      requires Valid()
      modifies payRepo.db`orders, payRepo.db`intents, payRepo.db`nextId, payRepo.db`calls
      ensures Valid()
      ensures OwnershipError(old(payRepo.db.orders), payRepo.db.failing, userID, orderID).Some? ==>
        && err == OwnershipError(old(payRepo.db.orders), payRepo.db.failing, userID, orderID)
        && payRepo.db.orders == old(payRepo.db.orders) && payRepo.db.intents == old(payRepo.db.intents)
        && payRepo.db.calls == old(payRepo.db.calls) + [Call.GetOrderWithItems(userID, orderID)]
      ensures OwnershipError(old(payRepo.db.orders), payRepo.db.failing, userID, orderID).None? ==>
        && payRepo.db.calls == old(payRepo.db.calls) + [Call.GetOrderWithItems(userID, orderID), Call.CreateIntent(orderID)]
        && err == IntentError(old(payRepo.db.orders), payRepo.db.failing, orderID, random)
        && (err.None? ==>
              && pi == NewIntent(old(payRepo.db.orders), pi.id, orderID, random)
              && payRepo.db.orders == old(payRepo.db.orders)[orderID := old(payRepo.db.orders)[orderID].(status := StatusAwaitingPayment)]
              && payRepo.db.intents == old(payRepo.db.intents) + [pi])
        && (err.Some? ==> payRepo.db.orders == old(payRepo.db.orders) && payRepo.db.intents == old(payRepo.db.intents))
    {
      var o, e := ordRepo.GetOrderWithItems(userID, orderID);
      if e.Some? {
        return Intent(0, 0, 0, "", ""), e;
      }
      pi, err := payRepo.CreateIntent(o, random);
    }

    method Confirm(userID: int, orderID: int, clientSecret: string) returns (pi: Intent, err: Option<Error>)
      requires Valid()
      modifies payRepo.db
      ensures Valid()
      ensures OwnershipError(old(payRepo.db.orders), payRepo.db.failing, userID, orderID).Some? ==>
        && err == OwnershipError(old(payRepo.db.orders), payRepo.db.failing, userID, orderID)
        && payRepo.db.Snapshot() == old(payRepo.db.Snapshot())
        && payRepo.db.calls == old(payRepo.db.calls) + [Call.GetOrderWithItems(userID, orderID)]
      ensures OwnershipError(old(payRepo.db.orders), payRepo.db.failing, userID, orderID).None? ==>
        && payRepo.db.calls == old(payRepo.db.calls) + [Call.GetOrderWithItems(userID, orderID)]
             + ConfirmCalls(old(payRepo.db.Snapshot()), payRepo.db.failing, orderID, clientSecret)
        && err == ConfirmError(old(payRepo.db.Snapshot()), payRepo.db.failing, orderID, clientSecret)
        && (err.None? ==>
              && orderID in old(payRepo.db.orders)
              && payRepo.db.Snapshot() == ConfirmedTables(old(payRepo.db.Snapshot()), orderID, clientSecret)
              && pi == payRepo.db.intents[FirstPending(old(payRepo.db.intents), orderID, clientSecret)])
        && (err.Some? ==> payRepo.db.Snapshot() == old(payRepo.db.Snapshot()))
    {
      var o, e := ordRepo.GetOrderWithItems(userID, orderID);
      if e.Some? {
        return Intent(0, 0, 0, "", ""), e;
      }
      pi, err := payRepo.ConfirmIntent(orderID, clientSecret);
    }
  }
}
