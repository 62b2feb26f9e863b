/**
  The order workflow of `internal/order`: creating an order from the user's
  cart (an optional idempotency pre-check, the cart and price reads, the
  total, then one transaction that reserves stock line by line, writes the
  order, its lines and clears the cart, and finally the idempotency result),
  and the administrative status changes `Ship`, `Deliver` and `Cancel`.

  The service is written against the repository interfaces; its collaborators
  here are `OrderRepo` and `IdemRepo` over one database, and every call it
  makes is recorded in `Db.calls`.
 */
module OrderService {
  import opened Base
  import opened Database
  import opened OrderStatus
  import opened OrderRepository
  import opened IdempotencyRepository

  /**
    The target of `Deliver`. `status.go` declares no such status and no
    transition into it; the string is the one the constant's name spells.
   */
  const StatusDelivered := "delivered"

  /** The request fingerprint: the text `hashRequest` digests (the digest itself is not modelled). */
  function HashRequest(userID: int): string
  {
    "create_order:" + Decimal(userID)
  }

  // ---------------------------------------------------------------------
  // Pricing the cart

  function ProductIdsOf(lines: seq<CartItemLite>): seq<int>
  {
    seq(|lines|, i requires 0 <= i < |lines| => lines[i].productId)
  }

  /** The map `GetProductsPrices` returns for these ids. */
  function PricesFor(products: map<int, Product>, ids: seq<int>): map<int, int>
  {
    map id | id in ids && id in products :: products[id].price
  }

  predicate AllPriced(lines: seq<CartItemLite>, prices: map<int, int>)
  {
    forall i :: 0 <= i < |lines| ==> lines[i].productId in prices
  }

  /** The first cart line whose product has no price. */
  function FirstUnpriced(lines: seq<CartItemLite>, prices: map<int, int>): (k: nat)
    requires !AllPriced(lines, prices)
    ensures k < |lines| && lines[k].productId !in prices
    ensures forall j :: 0 <= j < k ==> lines[j].productId in prices
  {
    if lines[0].productId !in prices then 0
    else
      assert !AllPriced(lines[1..], prices) by {
        var i :| 0 <= i < |lines| && lines[i].productId !in prices;
        assert lines[1..][i - 1] == lines[i];
      }
      1 + FirstUnpriced(lines[1..], prices)
  }

  /** The order lines: each cart line with the price read for its product. */
  function Priced(lines: seq<CartItemLite>, prices: map<int, int>): seq<OrderItem>
    requires AllPriced(lines, prices)
  {
    if lines == [] then []
    else
      var last := lines[|lines| - 1];
      Priced(lines[..|lines| - 1], prices) + [OrderItem(last.productId, last.quantity, prices[last.productId])]
  }

  /** The order total: the sum of price times quantity over the lines. */
  function Total(items: seq<OrderItem>): int
  {
    if items == [] then 0
    else Total(items[..|items| - 1]) + items[|items| - 1].price * items[|items| - 1].quantity
  }

  /** The order lines are the cart lines in cart order, each with the price read before the transaction. */
  lemma {:induction false} PricedFollowsCart(lines: seq<CartItemLite>, prices: map<int, int>)
    requires AllPriced(lines, prices)
    ensures |Priced(lines, prices)| == |lines|
    ensures forall i :: 0 <= i < |lines| ==>
      Priced(lines, prices)[i] == OrderItem(lines[i].productId, lines[i].quantity, prices[lines[i].productId])
  {
    if lines != [] {
      PricedFollowsCart(lines[..|lines| - 1], prices);
    }
  }

  /** Lines with non-negative prices and quantities have a non-negative total. */
  lemma {:induction false} TotalNonNegative(items: seq<OrderItem>)
    requires forall i :: 0 <= i < |items| ==> items[i].price >= 0 && items[i].quantity >= 0
    ensures Total(items) >= 0
  {
    if items != [] {
      TotalNonNegative(items[..|items| - 1]);
    }
  }

  /** What `CreateFromCart` has in hand before it opens the transaction. */
  datatype Prepared = Prepared(items: seq<OrderItem>, total: int) | NotPrepared(err: Error)

  /** The cart lines the workflow reads for the user. */
  function CartLines(t: Tables, userID: int): seq<CartItemLite>
  {
    Lite(RowsOf(t.cartItems, userID))
  }

  /** Steps 1-3 of the workflow on tables `t`: read the cart, read the prices, price every line. */
  function Prepare(t: Tables, failing: set<Op>, userID: int): Prepared
  {
    var lines := CartLines(t, userID);
    if SelectCart in failing then NotPrepared(Wrapped(EmptyCart, Some(DbFailure(SelectCart))))
    else if lines == [] then NotPrepared(Wrapped(EmptyCart, None))
    else if SelectPrices in failing then NotPrepared(Wrapped(CannotGetPrices, Some(DbFailure(SelectPrices))))
    else
      var prices := PricesFor(t.products, ProductIdsOf(lines));
      if !AllPriced(lines, prices) then
        NotPrepared(Wrapped(PriceNotFound(lines[FirstUnpriced(lines, prices)].productId), None))
      else
        Prepared(Priced(lines, prices), Total(Priced(lines, prices)))
  }

  /** The calls steps 1-3 make. */
  function PrepareCalls(t: Tables, failing: set<Op>, userID: int): seq<Call>
  {
    var lines := CartLines(t, userID);
    [Call.GetCartItemsForUser(userID)]
      + if SelectCart in failing || lines == [] then [] else [Call.GetProductsPrices(ProductIdsOf(lines))]
  }

  /** A prepared order has one line per cart line, priced from the catalogue, and their total. */
  lemma PreparedOrderMatchesCart(t: Tables, failing: set<Op>, userID: int)
    requires Prepare(t, failing, userID).Prepared?
    ensures var lines := CartLines(t, userID);
            var p := Prepare(t, failing, userID);
            && lines != []
            && |p.items| == |lines|
            && (forall i :: 0 <= i < |lines| ==>
                  lines[i].productId in t.products
                  && p.items[i] == OrderItem(lines[i].productId, lines[i].quantity, t.products[lines[i].productId].price))
            && p.total == Total(p.items)
  {
    var lines := CartLines(t, userID);
    var prices := PricesFor(t.products, ProductIdsOf(lines));
    PricedFollowsCart(lines, prices);
    forall i | 0 <= i < |lines|
      ensures lines[i].productId in t.products
    {
      assert lines[i].productId in prices;
    }
  }

  /**
    With non-negative catalogue prices and cart quantities, the total an
    order is created with is non-negative.
   */
  lemma PreparedTotalNonNegative(t: Tables, failing: set<Op>, userID: int)
    requires Prepare(t, failing, userID).Prepared?
    requires forall id :: id in t.products ==> t.products[id].price >= 0
    requires forall r :: r in t.cartItems ==> r.quantity >= 0
    ensures Prepare(t, failing, userID).total >= 0
  {
    PreparedOrderMatchesCart(t, failing, userID);
    var p := Prepare(t, failing, userID);
    var rows := RowsOf(t.cartItems, userID);
    forall i | 0 <= i < |p.items|
      ensures p.items[i].price >= 0 && p.items[i].quantity >= 0
    {
      assert rows[i] in rows;
    }
    TotalNonNegative(p.items);
  }

  /** A cart product missing from the catalogue stops the workflow before the transaction. */
  lemma UnknownProductStopsBeforeTransaction(t: Tables, failing: set<Op>, userID: int, i: int)
    requires SelectCart !in failing && SelectPrices !in failing
    requires 0 <= i < |CartLines(t, userID)| && CartLines(t, userID)[i].productId !in t.products
    ensures Prepare(t, failing, userID).NotPrepared?
    ensures Prepare(t, failing, userID).err.Wrapped? && Prepare(t, failing, userID).err.context.PriceNotFound?
  {
    var lines := CartLines(t, userID);
    assert lines[i].productId !in PricesFor(t.products, ProductIdsOf(lines));
  }

  // ---------------------------------------------------------------------
  // Reserving stock, line by line

  /** Every line, in order, finds enough stock left by the lines before it. */
  predicate Reservable(products: map<int, Product>, items: seq<OrderItem>)
  {
    items == []
    || (Reservable(products, items[..|items| - 1])
        && CanDecrement(Reserved'(products, items[..|items| - 1]), items[|items| - 1].productId, items[|items| - 1].quantity))
  }

  /** The products table after decrementing the stock of every line, in order. */
  function Reserved(products: map<int, Product>, items: seq<OrderItem>): map<int, Product>
    requires Reservable(products, items)
  {
    Reserved'(products, items)
  }

  function Reserved'(products: map<int, Product>, items: seq<OrderItem>): map<int, Product>
  {
    if items == [] then products
    else
      var before := Reserved'(products, items[..|items| - 1]);
      var last := items[|items| - 1];
      if last.productId in before then Decremented(before, last.productId, last.quantity) else before
  }

  /** The total quantity the lines ask of one product. */
  function QuantityOf(items: seq<OrderItem>, productId: int): int
  {
    if items == [] then 0
    else QuantityOf(items[..|items| - 1], productId)
         + if items[|items| - 1].productId == productId then items[|items| - 1].quantity else 0
  }

  /**
    A reservation takes from each product exactly the quantity its lines ask
    for, leaves prices and every other product alone, and (from valid stock)
    leaves no stock negative.
   */
  lemma {:induction false} ReservedStock(products: map<int, Product>, items: seq<OrderItem>)
    requires Reservable(products, items)
    ensures Reserved(products, items).Keys == products.Keys
    ensures forall p :: p in products ==>
      Reserved(products, items)[p] == products[p].(stock := products[p].stock - QuantityOf(items, p))
    ensures (forall p :: p in products ==> products[p].stock >= 0) ==>
      forall p :: p in products ==> Reserved(products, items)[p].stock >= 0
  {
    if items != [] {
      var prefix := items[..|items| - 1];
      ReservedStock(products, prefix);
    }
  }

  /** The first line whose decrement finds too little stock. */
  function ShortageAt(products: map<int, Product>, items: seq<OrderItem>): (k: nat)
    requires !Reservable(products, items)
    ensures k < |items|
  {
    var prefix := items[..|items| - 1];
    if !Reservable(products, prefix) then ShortageAt(products, prefix) else |items| - 1
  }

  /** When lines before `i` succeed and line `i` does not, line `i` is the shortage. */
  lemma {:induction false} ShortageIsFirstFailure(products: map<int, Product>, items: seq<OrderItem>, i: nat)
    requires i < |items| && Reservable(products, items[..i])
    requires !CanDecrement(Reserved(products, items[..i]), items[i].productId, items[i].quantity)
    ensures !Reservable(products, items) && ShortageAt(products, items) == i
    decreases |items|
  {
    var prefix := items[..|items| - 1];
    if |items| == i + 1 {
      assert prefix == items[..i];
    } else {
      assert prefix[..i] == items[..i];
      ShortageIsFirstFailure(products, prefix, i);
    }
  }

  lemma ReservableStep(products: map<int, Product>, items: seq<OrderItem>, i: nat)
    requires i < |items| && Reservable(products, items[..i])
    requires CanDecrement(Reserved(products, items[..i]), items[i].productId, items[i].quantity)
    ensures Reservable(products, items[..i + 1])
    ensures Reserved(products, items[..i + 1]) == Decremented(Reserved(products, items[..i]), items[i].productId, items[i].quantity)
  {
    assert items[..i + 1][..i] == items[..i];
  }

  /** The reservation loop goes through: stock suffices and the update statement works. */
  predicate ReserveOk(failing: set<Op>, products: map<int, Product>, items: seq<OrderItem>)
  {
    Reservable(products, items) && (UpdateStock in failing ==> items == [])
  }

  /** The line at which the reservation loop stops. */
  function FailIndex(failing: set<Op>, products: map<int, Product>, items: seq<OrderItem>): (k: nat)
    requires !ReserveOk(failing, products, items)
    ensures k < |items|
  {
    if UpdateStock in failing && items != [] then 0 else ShortageAt(products, items)
  }

  function DecrementCalls(items: seq<OrderItem>): seq<Call>
  {
    if items == [] then []
    else DecrementCalls(items[..|items| - 1]) + [Call.DecrementStock(items[|items| - 1].productId, items[|items| - 1].quantity)]
  }

  /** The error of steps 5-9, from reserving stock to the commit, or None when they all succeed. */
  function PlaceError(failing: set<Op>, products: map<int, Product>, items: seq<OrderItem>): Option<Error>
  {
    if !ReserveOk(failing, products, items) then
      var cause := if UpdateStock in failing then DbFailure(UpdateStock) else ErrNoRows;
      Some(Wrapped(StockNotEnough(items[FailIndex(failing, products, items)].productId), Some(cause)))
    else if InsertOrder in failing then Some(Wrapped(CannotCreateOrder, Some(DbFailure(InsertOrder))))
    else if InsertItems in failing then Some(Wrapped(CannotInsertItems, Some(DbFailure(InsertItems))))
    else if DeleteCart in failing then Some(Wrapped(CannotClearCart, Some(DbFailure(DeleteCart))))
    else if CommitTx in failing then Some(Wrapped(CannotCommitTx, Some(DbFailure(CommitTx))))
    else None
  }

  /** The error of steps 4-9, from BEGIN to the commit. */
  function TxError(failing: set<Op>, products: map<int, Product>, items: seq<OrderItem>): Option<Error>
  {
    if Begin in failing then Some(Wrapped(CannotBeginTx, Some(DbFailure(Begin))))
    else PlaceError(failing, products, items)
  }

  /** The tables after a committed order: stock reserved, order and lines written, the user's cart emptied. */
  function Placed(t: Tables, userID: int, orderID: int, items: seq<OrderItem>, total: int): Tables
    requires Reservable(t.products, items)
  {
    Tables(Reserved(t.products, items),
           WithoutUser(t.cartItems, userID),
           t.orders[orderID := OrderRow(userID, StatusNew, total)],
           t.orderItems[orderID := items],
           t.intents)
  }

  /** The calls of a committed transaction. */
  function PlaceCalls(userID: int, orderID: int, items: seq<OrderItem>, total: int): seq<Call>
  {
    DecrementCalls(items)
      + [Call.CreateOrder(OrderRow(userID, StatusNew, total)), Call.BulkInsertItems(orderID, items),
         Call.ClearCart(userID), Call.Commit]
  }

  /**
    Steps 6-8 on tables `t`, the order taking id `nextId`: the header, its
    lines and the emptied cart, up to the first statement that fails.
   */
  function Written(t: Tables, nextId: int, failing: set<Op>, userID: int, items: seq<OrderItem>, total: int): Tables
  {
    var orders := t.orders[nextId := OrderRow(userID, StatusNew, total)];
    if InsertOrder in failing then t
    else if InsertItems in failing then t.(orders := orders)
    else if DeleteCart in failing then t.(orders := orders, orderItems := t.orderItems[nextId := items])
    else t.(orders := orders, orderItems := t.orderItems[nextId := items], cartItems := WithoutUser(t.cartItems, userID))
  }

  /** The calls steps 6-8 make, up to the first statement that fails. */
  function WriteCalls(nextId: int, failing: set<Op>, userID: int, items: seq<OrderItem>, total: int): seq<Call>
  {
    [Call.CreateOrder(OrderRow(userID, StatusNew, total))]
      + if InsertOrder in failing then []
        else [Call.BulkInsertItems(nextId, items)] + if InsertItems in failing then [] else [Call.ClearCart(userID)]
  }

  /** Every statement of steps 5-8 succeeds, so the commit is attempted. */
  predicate CommitReached(failing: set<Op>, products: map<int, Product>, items: seq<OrderItem>)
  {
    ReserveOk(failing, products, items) && InsertOrder !in failing && InsertItems !in failing && DeleteCart !in failing
  }

  /**
    The tables inside the transaction once steps 5-8 have run on `t`: every
    statement up to the first failure has taken effect, none after it.
   */
  function Staged(t: Tables, nextId: int, failing: set<Op>, userID: int, items: seq<OrderItem>, total: int): Tables
  {
    if !ReserveOk(failing, t.products, items) then
      t.(products := Reserved'(t.products, items[..FailIndex(failing, t.products, items)]))
    else Written(t.(products := Reserved(t.products, items)), nextId, failing, userID, items, total)
  }

  /** The calls of steps 5-8, up to the first statement that fails. */
  function StagedCalls(nextId: int, failing: set<Op>, products: map<int, Product>, userID: int,
                       items: seq<OrderItem>, total: int): seq<Call>
  {
    if !ReserveOk(failing, products, items) then DecrementCalls(items[..FailIndex(failing, products, items) + 1])
    else DecrementCalls(items) + WriteCalls(nextId, failing, userID, items, total)
  }

  /** Once the commit is attempted, the staged tables are those of a placed order. */
  lemma StagedBeforeCommitIsPlaced(t: Tables, nextId: int, failing: set<Op>, userID: int, items: seq<OrderItem>, total: int)
    requires CommitReached(failing, t.products, items)
    ensures Staged(t, nextId, failing, userID, items, total) == Placed(t, userID, nextId, items, total)
    ensures StagedCalls(nextId, failing, t.products, userID, items, total) + [Call.Commit]
         == PlaceCalls(userID, nextId, items, total)
  {
  }

  /**
    Steps 4-10 on tables `t`, ledger `ledger` and the id sequence at
    `nextId`, `pre` being the calls made before BEGIN: the outcome
    `(id, err)` and the tables `t'`, the ledger `ledger'` and the calls
    afterwards. Every error before the commit leaves the tables as they were
    and ends with the deferred rollback; a failure to save the idempotency
    result comes after the commit, so the order stays placed.
   */
  ghost predicate Transacted(t: Tables, ledger: map<string, IdemRow>, nextId: int, pre: seq<Call>, failing: set<Op>,
                             userID: int, idemKey: Option<string>, items: seq<OrderItem>, total: int,
                             id: int, err: Option<Error>, t': Tables, ledger': map<string, IdemRow>, calls: seq<Call>)
  {
    var txErr := TxError(failing, t.products, items);
    if txErr.Some? then
      && id == 0 && err == txErr && t' == t && ledger' == ledger
      && calls == pre + [Call.BeginTx]
           + if Begin in failing then []
             else StagedCalls(nextId, failing, t.products, userID, items, total)
                  + (if CommitReached(failing, t.products, items) then [Call.Commit] else []) + [Call.Rollback]
    else if idemKey.Some? && UpdateKey in failing then
      && id == 0 && err == Some(Wrapped(CannotSaveIdempotentResult, Some(DbFailure(UpdateKey))))
      && ledger' == ledger
      && nextId !in t.orders && t' == Placed(t, userID, nextId, items, total)
      && calls == pre + [Call.BeginTx] + PlaceCalls(userID, nextId, items, total)
           + [Call.SaveIdempotentResult(idemKey.value, StatusCreated, nextId), Call.Rollback]
    else
      && err == None && id == nextId && 0 < id && id !in t.orders
      && t' == Placed(t, userID, id, items, total)
      && ledger' == (if idemKey.Some? then Saved(ledger, idemKey.value, StatusCreated, id) else ledger)
      && calls == pre + [Call.BeginTx] + PlaceCalls(userID, id, items, total)
           + (if idemKey.Some? then [Call.SaveIdempotentResult(idemKey.value, StatusCreated, id)] else [])
           + [Call.Rollback]
  }

  /** Steps 1-10 after the pre-check, on what `Prepare` made of the cart. */
  ghost predicate FromCart(t: Tables, ledger: map<string, IdemRow>, nextId: int, pre: seq<Call>, failing: set<Op>,
                           userID: int, idemKey: Option<string>, prepared: Prepared,
                           id: int, err: Option<Error>, t': Tables, ledger': map<string, IdemRow>, calls: seq<Call>)
  {
    match prepared
    case NotPrepared(e) => id == 0 && err == Some(e) && t' == t && ledger' == ledger && calls == pre
    case Prepared(items, total) =>
      Transacted(t, ledger, nextId, pre, failing, userID, idemKey, items, total, id, err, t', ledger', calls)
  }

  /** What the pre-check makes of a reply that does not let the workflow proceed. */
  function Shortcut(r: StartReply): (result: (int, Option<Error>))
    requires r.err.Some? || !r.ok
  {
    if r.err.Some? then (0, Some(Wrapped(CannotStartIdempotent, r.err)))
    else if r.savedStatus == StatusCreated && r.savedOrderId != 0 then (r.savedOrderId, None)
    else (0, Some(ErrIdempotencyConflict))
  }

  predicate Proceeds(r: StartReply)
  {
    r.err.None? && r.ok
  }

  /** The pre-check returns a saved order id only for a completed result, and never an id with an error. */
  lemma ShortcutReturnsOnlyCompletedResults(r: StartReply)
    requires r.err.Some? || !r.ok
    ensures Shortcut(r).1.None? <==> r.err.None? && r.savedStatus == StatusCreated && r.savedOrderId != 0
    ensures Shortcut(r).1.None? ==> Shortcut(r).0 == r.savedOrderId
    ensures Shortcut(r).1.Some? ==> Shortcut(r).0 == 0
    ensures r.err.None? && !(r.savedStatus == StatusCreated && r.savedOrderId != 0) ==>
              Shortcut(r).1 == Some(ErrIdempotencyConflict)
  {
  }

  // ---------------------------------------------------------------------
  // Status changes

  /**
    What `Ship`, `Deliver` and `Cancel` do to the orders table: read the
    status, check the transition to `to`, then compare-and-set from the status
    just read.
   */
  ghost predicate StatusChange(before: map<int, OrderRow>, after: map<int, OrderRow>, failing: set<Op>,
                               orderID: int, to: string, err: Option<Error>)
  {
    if SelectStatus in failing then err == Some(DbFailure(SelectStatus)) && after == before
    else if orderID !in before then err == Some(ErrOrderNotFound) && after == before
    else
      var from := before[orderID].status;
      if !IsValidStatusTransition(from, to) then
        err == Some(Wrapped(InvalidTransition(from, to), Some(ErrInvalidStatusTransition))) && after == before
      else if UpdateStatus in failing then err == Some(DbFailure(UpdateStatus)) && after == before
      else err == None && after == before[orderID := before[orderID].(status := to)]
  }

  /**
    The statements a status change issues: the status read, then the
    compare-and-set only when the read succeeded and the transition is allowed.
   */
  function StatusCalls(before: map<int, OrderRow>, failing: set<Op>, orderID: int, to: string): seq<Call>
  {
    [Call.GetOrderStatus(orderID)]
      + if SelectStatus in failing || orderID !in before || !IsValidStatusTransition(before[orderID].status, to) then []
        else [Call.UpdateOrderStatus(orderID, before[orderID].status, to)]
  }

  /** A rejected transition is reported as `ErrInvalidStatusTransition` and changes nothing. */
  lemma RejectedTransitionChangesNothing(before: map<int, OrderRow>, after: map<int, OrderRow>, failing: set<Op>,
                                         orderID: int, to: string, err: Option<Error>)
    requires StatusChange(before, after, failing, orderID, to, err)
    requires SelectStatus !in failing && orderID in before && !IsValidStatusTransition(before[orderID].status, to)
    ensures err.Some? && Is(err.value, ErrInvalidStatusTransition) && after == before
  {
  }

  /** A successful change moved the order from a status the table allows. */
  lemma SuccessfulChangeFollowsTable(before: map<int, OrderRow>, after: map<int, OrderRow>, failing: set<Op>,
                                     orderID: int, to: string, err: Option<Error>)
    requires StatusChange(before, after, failing, orderID, to, err) && err.None?
    ensures orderID in before && IsValidStatusTransition(before[orderID].status, to)
    ensures after == before[orderID := before[orderID].(status := to)]
  {
  }

  lemma CancelAllowedFrom(from: string)
    ensures IsValidStatusTransition(from, StatusCancelled)
        <==> from == StatusNew || from == StatusAwaitingPayment || from == StatusPaid || from == StatusCancelled
  {
  }

  lemma ShipAllowedFrom(from: string)
    ensures IsValidStatusTransition(from, StatusShipped) <==> from == StatusPaid || from == StatusShipped
  {
  }

  /** `Deliver` passes validation only from "delivered" itself, so never from a shipped order. */
  lemma DeliverAllowedOnlyFromDelivered(from: string)
    ensures IsValidStatusTransition(from, StatusDelivered) <==> from == StatusDelivered
    ensures !IsValidStatusTransition(StatusShipped, StatusDelivered)
  {
  }

  // ---------------------------------------------------------------------
  // The service

  class Service {
    const repo: OrderRepo
    const idemRepo: IdemRepo?

    ghost predicate Valid()
      reads repo.db
    {
      repo.db.Valid() && (idemRepo != null ==> idemRepo.db == repo.db)
    }

    constructor (repo: OrderRepo, idemRepo: IdemRepo?)
      ensures this.repo == repo && this.idemRepo == idemRepo
    {
      this.repo := repo;
      this.idemRepo := idemRepo;
    }

    predicate UsesIdempotency(idemKey: string)
    {
      idemKey != "" && idemRepo != null
    }

    /** What the idempotency repository answers the pre-check in the current state. */
    ghost function StartReplyFor(userID: int, idemKey: string): StartReply
      requires idemRepo != null
      reads repo.db
    {
      Reply(idemRepo.variant, repo.db.idempotencyKeys, repo.db.failing, userID, idemKey, HashRequest(userID))
    }

    /** The ledger after the pre-check's insert. */
    ghost function LedgerAfterStart(userID: int, idemKey: string): map<string, IdemRow>
      reads repo.db
    {
      if InsertKey in repo.db.failing then repo.db.idempotencyKeys
      else Started(repo.db.idempotencyKeys, userID, idemKey, HashRequest(userID))
    }

    /** Collects the product ids of the cart lines. */
    method CollectProductIds(cartItems: seq<CartItemLite>) returns (productIDs: seq<int>)
      ensures |productIDs| == |cartItems|
      ensures forall i :: 0 <= i < |cartItems| ==> productIDs[i] == cartItems[i].productId
    {
      productIDs := [];
      for i := 0 to |cartItems|
        invariant |productIDs| == i
        invariant forall j :: 0 <= j < i ==> productIDs[j] == cartItems[j].productId
      {
        productIDs := productIDs + [cartItems[i].productId];
      }
    }

    /**
      Prices every cart line and sums the total; stops at the first line whose
      product has no price and reports that product.
     */
    method BuildOrderItems(cartItems: seq<CartItemLite>, prices: map<int, int>)
      returns (totalAmount: int, orderItems: seq<OrderItem>, missing: Option<int>)
      ensures missing.None? <==> AllPriced(cartItems, prices)
      ensures missing.Some? ==> missing.value == cartItems[FirstUnpriced(cartItems, prices)].productId
      ensures missing.None? ==> orderItems == Priced(cartItems, prices) && totalAmount == Total(orderItems)
    {
      totalAmount, orderItems := 0, [];
      for i := 0 to |cartItems|
        invariant AllPriced(cartItems[..i], prices)
        invariant orderItems == Priced(cartItems[..i], prices)
        invariant totalAmount == Total(orderItems)
      {
        var item := cartItems[i];
        if item.productId !in prices {
          return 0, [], Some(item.productId);
        }
        var price := prices[item.productId];
        var line := OrderItem(item.productId, item.quantity, price);
        assert cartItems[..i + 1][..i] == cartItems[..i];
        assert (orderItems + [line])[..|orderItems|] == orderItems;
        totalAmount := totalAmount + price * item.quantity;
        orderItems := orderItems + [line];
      }
      assert cartItems[..|cartItems|] == cartItems;
      missing := None;
    }

    /** Steps 1-3: the cart, the prices, the priced lines and their total. */
    method PrepareOrder(userID: int) returns (orderItems: seq<OrderItem>, totalAmount: int, err: Option<Error>)
      modifies repo.db`calls
      ensures Prepare(repo.db.Snapshot(), repo.db.failing, userID)
           == if err.None? then Prepared(orderItems, totalAmount) else NotPrepared(err.value)
      ensures repo.db.calls == old(repo.db.calls) + PrepareCalls(repo.db.Snapshot(), repo.db.failing, userID)
    {
      var cartItems, e := repo.GetCartItemsForUser(userID);
      if e.Some? || |cartItems| == 0 {
        return [], 0, Some(Wrapped(EmptyCart, e));
      }
      var productIDs := CollectProductIds(cartItems);
      assert productIDs == ProductIdsOf(cartItems);
      var prices, e' := repo.GetProductsPrices(productIDs);
      if e'.Some? {
        return [], 0, Some(Wrapped(CannotGetPrices, e'));
      }
      forall id
        ensures id in prices <==> id in PricesFor(repo.db.products, productIDs)
      {
      }
      assert prices == PricesFor(repo.db.products, productIDs);
      var missing;
      totalAmount, orderItems, missing := BuildOrderItems(cartItems, prices);
      if missing.Some? {
        return [], 0, Some(Wrapped(PriceNotFound(missing.value), None));
      }
      err := None;
    }

    /** Step 5: decrement the stock of every line, in order, stopping at the first failure. */
    method ReserveStock(tx: Tx, orderItems: seq<OrderItem>) returns (err: Option<Error>)
      requires tx.db == repo.db && tx.Valid() && !tx.done
      modifies repo.db`products, repo.db`calls
      ensures tx.Valid()
      ensures err == if ReserveOk(repo.db.failing, old(repo.db.products), orderItems) then None
                     else PlaceError(repo.db.failing, old(repo.db.products), orderItems)
      ensures err.None? ==>
        && repo.db.products == Reserved(old(repo.db.products), orderItems)
        && repo.db.calls == old(repo.db.calls) + DecrementCalls(orderItems)
      ensures err.Some? ==>
        && Reservable(old(repo.db.products), orderItems[..FailIndex(repo.db.failing, old(repo.db.products), orderItems)])
        && repo.db.products
           == Reserved(old(repo.db.products), orderItems[..FailIndex(repo.db.failing, old(repo.db.products), orderItems)])
        && repo.db.calls == old(repo.db.calls)
             + DecrementCalls(orderItems[..FailIndex(repo.db.failing, old(repo.db.products), orderItems) + 1])
    {
      ghost var products0 := repo.db.products;
      for i := 0 to |orderItems|
        invariant tx.Valid()
        invariant Reservable(products0, orderItems[..i]) && repo.db.products == Reserved(products0, orderItems[..i])
        invariant i > 0 ==> UpdateStock !in repo.db.failing
        invariant repo.db.calls == old(repo.db.calls) + DecrementCalls(orderItems[..i])
      {
        var item := orderItems[i];
        var e := repo.DecrementStock(tx, item.productId, item.quantity);
        assert orderItems[..i + 1][..i] == orderItems[..i];
        if e.Some? {
          if UpdateStock !in repo.db.failing {
            ShortageIsFirstFailure(products0, orderItems, i);
          }
          return Some(Wrapped(StockNotEnough(item.productId), e));
        }
        ReservableStep(products0, orderItems, i);
      }
      assert orderItems[..|orderItems|] == orderItems;
      err := None;
    }

    /** Steps 6-8: the order header, its lines, and the emptied cart. */
    method WriteOrder(tx: Tx, userID: int, orderItems: seq<OrderItem>, totalAmount: int)
      returns (orderID: int, err: Option<Error>)
      requires tx.db == repo.db && tx.Valid() && !tx.done
      modifies repo.db`orders, repo.db`nextId, repo.db`orderItems, repo.db`cartItems, repo.db`calls
      ensures tx.Valid()
      ensures err == if InsertOrder in repo.db.failing then Some(Wrapped(CannotCreateOrder, Some(DbFailure(InsertOrder))))
                     else if InsertItems in repo.db.failing then Some(Wrapped(CannotInsertItems, Some(DbFailure(InsertItems))))
                     else if DeleteCart in repo.db.failing then Some(Wrapped(CannotClearCart, Some(DbFailure(DeleteCart))))
                     else None
      ensures orderID == if err.None? then old(repo.db.nextId) else 0
      ensures err.None? ==> 0 < orderID && orderID !in old(repo.db.orders)
      ensures repo.db.Snapshot()
           == Written(old(repo.db.Snapshot()), old(repo.db.nextId), repo.db.failing, userID, orderItems, totalAmount)
      ensures repo.db.nextId == old(repo.db.nextId) + if InsertOrder in repo.db.failing then 0 else 1
      ensures repo.db.calls
           == old(repo.db.calls) + WriteCalls(old(repo.db.nextId), repo.db.failing, userID, orderItems, totalAmount)
    {
      ghost var t := repo.db.Snapshot();
      ghost var orders := t.orders[repo.db.nextId := OrderRow(userID, StatusNew, totalAmount)];
      var e;
      orderID, e := repo.CreateOrder(tx, OrderRow(userID, StatusNew, totalAmount));
      if e.Some? {
        assert repo.db.Snapshot() == t;
        return 0, Some(Wrapped(CannotCreateOrder, e));
      }
      assert repo.db.Snapshot() == t.(orders := orders);
      e := repo.BulkInsertItems(tx, orderID, orderItems);
      if e.Some? {
        return 0, Some(Wrapped(CannotInsertItems, e));
      }
      assert repo.db.Snapshot() == t.(orders := orders, orderItems := t.orderItems[orderID := orderItems]);
      e := repo.ClearCart(tx, userID);
      if e.Some? {
        return 0, Some(Wrapped(CannotClearCart, e));
      }
      err := None;
    }

    /** Steps 6-9 once the stock is reserved: write the order, then COMMIT. */
    method WriteAndCommit(tx: Tx, userID: int, orderItems: seq<OrderItem>, totalAmount: int)
      returns (orderID: int, err: Option<Error>)
      requires tx.db == repo.db && tx.Valid() && !tx.done
      modifies repo.db, tx
      ensures tx.Valid()
      ensures repo.db.failing == old(repo.db.failing)
      ensures repo.db.idempotencyKeys == old(repo.db.idempotencyKeys)
      ensures err == if InsertOrder in repo.db.failing then Some(Wrapped(CannotCreateOrder, Some(DbFailure(InsertOrder))))
                     else if InsertItems in repo.db.failing then Some(Wrapped(CannotInsertItems, Some(DbFailure(InsertItems))))
                     else if DeleteCart in repo.db.failing then Some(Wrapped(CannotClearCart, Some(DbFailure(DeleteCart))))
                     else if CommitTx in repo.db.failing then Some(Wrapped(CannotCommitTx, Some(DbFailure(CommitTx))))
                     else None
      ensures orderID == if err.None? then old(repo.db.nextId) else 0
      ensures err.None? ==> 0 < orderID && orderID !in old(repo.db.orders)
      ensures tx.done <==> InsertOrder !in repo.db.failing && InsertItems !in repo.db.failing && DeleteCart !in repo.db.failing
      ensures repo.db.calls == old(repo.db.calls)
        + WriteCalls(old(repo.db.nextId), repo.db.failing, userID, orderItems, totalAmount)
        + if tx.done then [Call.Commit] else []
      ensures !tx.done || err.None? ==>
        repo.db.Snapshot() == Written(old(repo.db.Snapshot()), old(repo.db.nextId), repo.db.failing, userID, orderItems, totalAmount)
      ensures tx.done && err.Some? ==> repo.db.Snapshot() == tx.snapshot
    {
      orderID, err := WriteOrder(tx, userID, orderItems, totalAmount);
      if err.Some? {
        return 0, err;
      }
      ghost var written := repo.db.calls;
      var e := tx.Commit();
      if e.Some? {
        return 0, Some(Wrapped(CannotCommitTx, e));
      }
      assert repo.db.calls == written + [Call.Commit];
    }

    /**
      Steps 5-9 inside the open transaction: reserve the stock, write the
      order, commit. On an error the deferred rollback undoes what was done.
     */
    method PlaceOrder(tx: Tx, userID: int, orderItems: seq<OrderItem>, totalAmount: int)
      returns (orderID: int, err: Option<Error>)
      requires tx.db == repo.db && tx.Valid() && !tx.done && tx.snapshot == repo.db.Snapshot()
      modifies repo.db, tx
      ensures tx.Valid()
      ensures repo.db.failing == old(repo.db.failing)
      ensures repo.db.idempotencyKeys == old(repo.db.idempotencyKeys)
      ensures err == PlaceError(repo.db.failing, tx.snapshot.products, orderItems)
      ensures orderID == if err.None? then old(repo.db.nextId) else 0
      ensures tx.done <==> CommitReached(repo.db.failing, tx.snapshot.products, orderItems)
      ensures repo.db.calls == old(repo.db.calls)
        + StagedCalls(old(repo.db.nextId), repo.db.failing, tx.snapshot.products, userID, orderItems, totalAmount)
        + if tx.done then [Call.Commit] else []
      ensures !tx.done ==>
        repo.db.Snapshot() == Staged(tx.snapshot, old(repo.db.nextId), repo.db.failing, userID, orderItems, totalAmount)
      ensures tx.done && err.Some? ==> repo.db.Snapshot() == tx.snapshot
      ensures err.None? ==>
        && 0 < orderID && orderID !in tx.snapshot.orders
        && repo.db.Snapshot() == Placed(tx.snapshot, userID, orderID, orderItems, totalAmount)
    {
      ghost var nextId := repo.db.nextId;
      err := ReserveStock(tx, orderItems);
      if err.Some? {
        return 0, err;
      }
      ghost var reserved := repo.db.Snapshot();
      assert reserved == tx.snapshot.(products := Reserved(tx.snapshot.products, orderItems));
      ghost var reservedCalls := repo.db.calls;
      orderID, err := WriteAndCommit(tx, userID, orderItems, totalAmount);
      ghost var writeCalls := WriteCalls(nextId, repo.db.failing, userID, orderItems, totalAmount);
      assert reservedCalls + writeCalls == old(repo.db.calls) + (DecrementCalls(orderItems) + writeCalls);
      if tx.done {
        StagedBeforeCommitIsPlaced(tx.snapshot, nextId, repo.db.failing, userID, orderItems, totalAmount);
      }
    }

    /**
      Steps 4-10: BEGIN, the transaction, the idempotency result, and the
      deferred rollback (after a commit it only reports that the transaction
      is done, and that report is dropped).
     */
    method Transact(userID: int, idemKey: string, orderItems: seq<OrderItem>, totalAmount: int)
      returns (id: int, err: Option<Error>)
      requires Valid()
      modifies repo.db
      ensures Valid() && repo.db.failing == old(repo.db.failing)
      ensures Transacted(old(repo.db.Snapshot()), old(repo.db.idempotencyKeys), old(repo.db.nextId), old(repo.db.calls), repo.db.failing,
                         userID, if UsesIdempotency(idemKey) then Some(idemKey) else None, orderItems, totalAmount,
                         id, err, repo.db.Snapshot(), repo.db.idempotencyKeys, repo.db.calls)
    {
      var tx, e := repo.BeginTx();
      if e.Some? {
        return 0, Some(Wrapped(CannotBeginTx, e));
      }
      id, err := Complete(tx, userID, idemKey, orderItems, totalAmount, old(repo.db.calls));
    }

    /** Steps 5-10 once BEGIN has succeeded, `pre` being the calls made before it. */
    method Complete(tx: Tx, userID: int, idemKey: string, orderItems: seq<OrderItem>, totalAmount: int,
                    ghost pre: seq<Call>)
      returns (id: int, err: Option<Error>)
      requires Valid() && tx.db == repo.db && tx.Valid() && !tx.done && tx.snapshot == repo.db.Snapshot()
      requires Begin !in repo.db.failing && repo.db.calls == pre + [Call.BeginTx]
      modifies repo.db, tx
      ensures Valid() && repo.db.failing == old(repo.db.failing)
      ensures Transacted(tx.snapshot, old(repo.db.idempotencyKeys), old(repo.db.nextId), pre, repo.db.failing,
                         userID, if UsesIdempotency(idemKey) then Some(idemKey) else None, orderItems, totalAmount,
                         id, err, repo.db.Snapshot(), repo.db.idempotencyKeys, repo.db.calls)
    {
      var orderID;
      orderID, err := PlaceOrder(tx, userID, orderItems, totalAmount);
      if err.Some? {
        var rollbackErr := tx.Rollback();
        return 0, err;
      }
      err := Record(tx, idemKey, orderID);
      id := if err.None? then orderID else 0;
    }

    /**
      Step 10 after a commit: save the idempotency result (with a key), then
      the deferred rollback, which finds the transaction done and changes
      nothing.
     */
    method Record(tx: Tx, idemKey: string, orderID: int) returns (err: Option<Error>)
      requires Valid() && tx.db == repo.db && tx.Valid() && tx.done
      modifies repo.db, tx
      ensures Valid() && tx.done
      ensures repo.db.Snapshot() == old(repo.db.Snapshot())
      ensures repo.db.failing == old(repo.db.failing)
      ensures err == if UsesIdempotency(idemKey) && UpdateKey in repo.db.failing
                     then Some(Wrapped(CannotSaveIdempotentResult, Some(DbFailure(UpdateKey)))) else None
      ensures repo.db.idempotencyKeys == if UsesIdempotency(idemKey) && err.None?
                                         then Saved(old(repo.db.idempotencyKeys), idemKey, StatusCreated, orderID)
                                         else old(repo.db.idempotencyKeys)
      ensures repo.db.calls == old(repo.db.calls)
        + (if UsesIdempotency(idemKey) then [Call.SaveIdempotentResult(idemKey, StatusCreated, orderID)] else [])
        + [Call.Rollback]
    {
      err := None;
      if idemKey != "" && idemRepo != null {
        var e := idemRepo.SaveIdempotentResult(idemKey, StatusCreated, orderID);
        if e.Some? {
          err := Some(Wrapped(CannotSaveIdempotentResult, e));
        }
      }
      var rollbackErr := tx.Rollback();
    }

    /** Steps 1-10, once the pre-check (if any) has let the request through. */
    method CreateChecked(userID: int, idemKey: string) returns (id: int, err: Option<Error>)
      requires Valid()
      modifies repo.db
      ensures Valid()
      ensures repo.db.failing == old(repo.db.failing)
      ensures FromCart(old(repo.db.Snapshot()), old(repo.db.idempotencyKeys), old(repo.db.nextId),
                       old(repo.db.calls) + PrepareCalls(old(repo.db.Snapshot()), repo.db.failing, userID),
                       repo.db.failing, userID, if UsesIdempotency(idemKey) then Some(idemKey) else None,
                       Prepare(old(repo.db.Snapshot()), repo.db.failing, userID),
                       id, err, repo.db.Snapshot(), repo.db.idempotencyKeys, repo.db.calls)
    {
      var orderItems, totalAmount, e := PrepareOrder(userID);
      if e.Some? {
        return 0, e;
      }
      id, err := Transact(userID, idemKey, orderItems, totalAmount);
    }

    /**
      Creates an order from the user's cart. With a key (and a ledger) the
      request first goes through the idempotency pre-check; then the cart is
      read and priced, and one transaction reserves the stock, writes the order
      and its lines and clears the cart.
     */
    method CreateFromCart(userID: int, idemKey: string) returns (id: int, err: Option<Error>)
      requires Valid()
      modifies repo.db
      ensures Valid()
      ensures repo.db.failing == old(repo.db.failing)
      ensures err.Some? ==> id == 0
      ensures err.None? ==> id != 0
      ensures UsesIdempotency(idemKey) && !Proceeds(old(StartReplyFor(userID, idemKey))) ==>
        && (id, err) == Shortcut(old(StartReplyFor(userID, idemKey)))
        && repo.db.Snapshot() == old(repo.db.Snapshot())
        && repo.db.idempotencyKeys == old(LedgerAfterStart(userID, idemKey))
        && repo.db.calls == old(repo.db.calls) + [Call.TryStartIdempotent(userID, idemKey)]
      ensures !UsesIdempotency(idemKey) || Proceeds(old(StartReplyFor(userID, idemKey))) ==>
        var t := old(repo.db.Snapshot());
        var uses := UsesIdempotency(idemKey);
        var pre := old(repo.db.calls) + (if uses then [Call.TryStartIdempotent(userID, idemKey)] else [])
                   + PrepareCalls(t, repo.db.failing, userID);
        var ledger := if uses then old(LedgerAfterStart(userID, idemKey)) else old(repo.db.idempotencyKeys);
        FromCart(t, ledger, old(repo.db.nextId), pre, repo.db.failing, userID, if uses then Some(idemKey) else None,
                 Prepare(t, repo.db.failing, userID), id, err, repo.db.Snapshot(), repo.db.idempotencyKeys, repo.db.calls)
      // the ledger as written never lets a keyed request reach the transaction
      ensures UsesIdempotency(idemKey) && idemRepo.variant == AsWritten ==>
        && repo.db.Snapshot() == old(repo.db.Snapshot())
        && repo.db.calls == old(repo.db.calls) + [Call.TryStartIdempotent(userID, idemKey)]
    {
      ghost var uses := UsesIdempotency(idemKey);
      if uses {
        AsWrittenNeverStarts(repo.db.idempotencyKeys, repo.db.failing, userID, idemKey, HashRequest(userID));
      }
      if idemKey != "" && idemRepo != null {
        var reqHash := HashRequest(userID);
        var ok, savedStatus, savedOrderID, e := idemRepo.TryStartIdempotent(userID, idemKey, reqHash);
        if e.Some? {
          return 0, Some(Wrapped(CannotStartIdempotent, e));
        }
        if !ok {
          if savedStatus == StatusCreated && savedOrderID != 0 {
            return savedOrderID, None;
          }
          return 0, Some(ErrIdempotencyConflict);
        }
        assert repo.db.idempotencyKeys == old(LedgerAfterStart(userID, idemKey));
        assert repo.db.calls == old(repo.db.calls) + [Call.TryStartIdempotent(userID, idemKey)];
      }
      ghost var t := repo.db.Snapshot();
      assert t == old(repo.db.Snapshot());
      ghost var ledger := repo.db.idempotencyKeys;
      ghost var pre := old(repo.db.calls) + (if uses then [Call.TryStartIdempotent(userID, idemKey)] else [])
                       + PrepareCalls(t, repo.db.failing, userID);
      assert pre == repo.db.calls + PrepareCalls(t, repo.db.failing, userID);
      assert ledger == if uses then old(LedgerAfterStart(userID, idemKey)) else old(repo.db.idempotencyKeys);
      id, err := CreateChecked(userID, idemKey);
    }

    /** One of the user's orders with its lines; another user's order is reported as missing. */
    method GetOrder(userID: int, orderID: int) returns (o: Order, err: Option<Error>)
      modifies repo.db`calls
      ensures repo.db.calls == old(repo.db.calls) + [Call.GetOrderWithItems(userID, orderID)]
      ensures err.None? <==> SelectOrder !in repo.db.failing && orderID in repo.db.orders
                             && repo.db.orders[orderID].userId == userID
      ensures err.None? ==> o.id == orderID && o.userId == userID && o.status == repo.db.orders[orderID].status
    {
      o, err := repo.GetOrderWithItems(userID, orderID);
    }

    /** `repoStatus`: an order's status, with "no rows" reported as `ErrOrderNotFound`. */
    method RepoStatus(orderID: int) returns (status: string, err: Option<Error>)
      modifies repo.db`calls
      ensures repo.db.calls == old(repo.db.calls) + [Call.GetOrderStatus(orderID)]
      ensures err == if SelectStatus in repo.db.failing then Some(DbFailure(SelectStatus))
                     else if orderID !in repo.db.orders then Some(ErrOrderNotFound)
                     else None
      ensures err.None? ==> status == repo.db.orders[orderID].status
    {
      var st, e := repo.GetOrderStatus(orderID);
      if e.Some? && Is(e.value, ErrNoRows) {
        return "", Some(ErrOrderNotFound);
      }
      return st, e;
    }

    /** The body `Ship`, `Deliver` and `Cancel` share: read, validate, compare-and-set. */
    method MoveTo(orderID: int, to: string) returns (err: Option<Error>)
      modifies repo.db`orders, repo.db`calls
      ensures repo.db.failing == old(repo.db.failing)
      ensures StatusChange(old(repo.db.orders), repo.db.orders, repo.db.failing, orderID, to, err)
      ensures repo.db.calls == old(repo.db.calls) + StatusCalls(old(repo.db.orders), repo.db.failing, orderID, to)
    {
      var from, e := RepoStatus(orderID);
      if e.Some? {
        return e;
      }
      if !IsValidStatusTransition(from, to) {
        return Some(Wrapped(InvalidTransition(from, to), Some(ErrInvalidStatusTransition)));
      }
      err := repo.UpdateOrderStatus(orderID, from, to);
    }

    method Ship(orderID: int) returns (err: Option<Error>)
      modifies repo.db`orders, repo.db`calls
      ensures StatusChange(old(repo.db.orders), repo.db.orders, repo.db.failing, orderID, StatusShipped, err)
      ensures repo.db.calls == old(repo.db.calls) + StatusCalls(old(repo.db.orders), repo.db.failing, orderID, StatusShipped)
    {
      err := MoveTo(orderID, StatusShipped);
    }

    method Deliver(orderID: int) returns (err: Option<Error>)
      modifies repo.db`orders, repo.db`calls
      ensures StatusChange(old(repo.db.orders), repo.db.orders, repo.db.failing, orderID, StatusDelivered, err)
      ensures repo.db.calls == old(repo.db.calls) + StatusCalls(old(repo.db.orders), repo.db.failing, orderID, StatusDelivered)
    {
      err := MoveTo(orderID, StatusDelivered);
    }

    method Cancel(orderID: int) returns (err: Option<Error>)
      modifies repo.db`orders, repo.db`calls
      ensures StatusChange(old(repo.db.orders), repo.db.orders, repo.db.failing, orderID, StatusCancelled, err)
      ensures repo.db.calls == old(repo.db.calls) + StatusCalls(old(repo.db.orders), repo.db.failing, orderID, StatusCancelled)
    {
      err := MoveTo(orderID, StatusCancelled);
    }
  }
}
