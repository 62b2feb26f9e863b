/**
  The Postgres order repository (`OrderRepo`): the transaction it opens, the
  cart and price reads the order workflow starts from, and the guarded stock
  decrement it runs inside the transaction. The remaining methods of the
  `order.Repository` interface (creating the order, its lines, clearing the
  cart, reading and changing an order's status, reading one order) are
  declared by the interface but their SQL is not part of this model; they are
  given plain table semantics here, and their contracts say only what any
  implementation of the interface must do.
 */
module OrderRepository {
  import opened Base
  import opened Database

  /** A row of `SELECT id, price FROM products WHERE id IN (...)`. */
  datatype PriceRow = PriceRow(id: int, price: int)

  /**
    The rows the price query returns: one per requested product that exists,
    however often it is requested, in the order of first request.
   */
  function PriceRows(products: map<int, Product>, ids: seq<int>): seq<PriceRow>
  {
    if ids == [] then []
    else
      var prefix := ids[..|ids| - 1];
      var id := ids[|ids| - 1];
      if id in products && id !in prefix then PriceRows(products, prefix) + [PriceRow(id, products[id].price)]
      else PriceRows(products, prefix)
  }

  /** The map the loop over the rows fills in, row by row. */
  function PriceMap(rows: seq<PriceRow>): map<int, int>
  {
    if rows == [] then map[] else PriceMap(rows[..|rows| - 1])[rows[|rows| - 1].id := rows[|rows| - 1].price]
  }

  /** The price map holds exactly the requested products that exist, each with its price. */
  lemma {:induction false} PriceMapOfRows(products: map<int, Product>, ids: seq<int>)
    ensures forall id :: id in PriceMap(PriceRows(products, ids)) <==> id in ids && id in products
    ensures forall id :: id in PriceMap(PriceRows(products, ids)) ==> PriceMap(PriceRows(products, ids))[id] == products[id].price
  {
    if ids != [] {
      var prefix := ids[..|ids| - 1];
      var id := ids[|ids| - 1];
      assert ids == prefix + [id];
      PriceMapOfRows(products, prefix);
      var rows := PriceRows(products, prefix);
      if id in products && id !in prefix {
        assert (rows + [PriceRow(id, products[id].price)])[..|rows|] == rows;
      }
    }
  }

  /** The guard of the stock update: the product exists and has enough stock. */
  predicate CanDecrement(products: map<int, Product>, productId: int, quantity: int)
  {
    productId in products && products[productId].stock >= quantity
  }

  /** `SET stock = stock - $1 WHERE id = $2`: the products table after the update. */
  function Decremented(products: map<int, Product>, productId: int, quantity: int): map<int, Product>
    requires productId in products
  {
    products[productId := products[productId].(stock := products[productId].stock - quantity)]
  }

  /** The update changes the stock of that one product by exactly the quantity, and nothing else. */
  lemma DecrementTouchesOneRow(products: map<int, Product>, productId: int, quantity: int, other: int)
    requires CanDecrement(products, productId, quantity)
    ensures Decremented(products, productId, quantity).Keys == products.Keys
    ensures Decremented(products, productId, quantity)[productId].stock == products[productId].stock - quantity
    ensures Decremented(products, productId, quantity)[productId].price == products[productId].price
    ensures other != productId && other in products ==> Decremented(products, productId, quantity)[other] == products[other]
  {
  }

  /** The guard alone keeps stock non-negative, whatever the quantity. */
  lemma DecrementKeepsStockNonNegative(products: map<int, Product>, productId: int, quantity: int)
    requires CanDecrement(products, productId, quantity)
    requires forall p :: p in products ==> products[p].stock >= 0
    ensures forall p :: p in Decremented(products, productId, quantity) ==> Decremented(products, productId, quantity)[p].stock >= 0
  {
  }

  class OrderRepo {
    const db: Db

    constructor (db: Db)
      ensures this.db == db
    {
      this.db := db;
    }

    /** Opens a (read committed) transaction. */
    method BeginTx() returns (tx: Tx?, err: Option<Error>)
      requires db.Valid()
      modifies db`calls
      ensures db.calls == old(db.calls) + [Call.BeginTx]
      ensures err == if Begin in db.failing then Some(DbFailure(Begin)) else None
      ensures tx != null <==> err.None?
      ensures tx != null ==> fresh(tx) && tx.db == db && tx.snapshot == db.Snapshot() && !tx.done && tx.Valid()
    {
      db.calls := db.calls + [Call.BeginTx];
      if Begin in db.failing {
        return null, Some(DbFailure(Begin));
      }
      tx := new Tx(db);
      err := None;
    }

    /** The `(product_id, quantity)` pairs of the user's cart rows. */
    method GetCartItemsForUser(userID: int) returns (items: seq<CartItemLite>, err: Option<Error>)
      modifies db`calls
      ensures db.calls == old(db.calls) + [Call.GetCartItemsForUser(userID)]
      ensures err == if SelectCart in db.failing then Some(DbFailure(SelectCart)) else None
      ensures items == if err.None? then Lite(RowsOf(db.cartItems, userID)) else []
    {
      db.calls := db.calls + [Call.GetCartItemsForUser(userID)];
      if SelectCart in db.failing {
        return [], Some(DbFailure(SelectCart));
      }
      items, err := Lite(RowsOf(db.cartItems, userID)), None;
    }

    /** The price of every requested product that exists, keyed by product id. */
    method GetProductsPrices(productIDs: seq<int>) returns (m: map<int, int>, err: Option<Error>)
      modifies db`calls
      ensures db.calls == old(db.calls) + [Call.GetProductsPrices(productIDs)]
      ensures err == if |productIDs| == 0 then Some(ErrEmptyInList)
                     else if SelectPrices in db.failing then Some(DbFailure(SelectPrices))
                     else None
      ensures err.None? ==> forall id :: id in m <==> id in productIDs && id in db.products
      ensures err.None? ==> forall id :: id in m ==> m[id] == db.products[id].price
      ensures err.Some? ==> m == map[]
    {
      db.calls := db.calls + [Call.GetProductsPrices(productIDs)];
      if |productIDs| == 0 {
        return map[], Some(ErrEmptyInList);
      }
      if SelectPrices in db.failing {
        return map[], Some(DbFailure(SelectPrices));
      }
      var rows := PriceRows(db.products, productIDs);
      m := map[];
      for i := 0 to |rows|
        invariant m == PriceMap(rows[..i])
      {
        assert rows[..i + 1][..i] == rows[..i];
        m := m[rows[i].id := rows[i].price];
      }
      assert rows[..|rows|] == rows;
      PriceMapOfRows(db.products, productIDs);
      err := None;
    }

    /**
      `UPDATE products SET stock = stock - $1 WHERE id = $2 AND stock >= $1`
      inside the transaction; no row affected is `sql.ErrNoRows`.
     */
    method DecrementStock(tx: Tx, productID: int, quantity: int) returns (err: Option<Error>)
      requires tx.db == db && tx.Valid()
      modifies db`products, db`calls
      ensures tx.Valid()
      ensures db.calls == old(db.calls) + [Call.DecrementStock(productID, quantity)]
      ensures err == if tx.done then Some(ErrTxDone)
                     else if UpdateStock in db.failing then Some(DbFailure(UpdateStock))
                     else if CanDecrement(old(db.products), productID, quantity) then None
                     else Some(ErrNoRows)
      ensures db.products == if err.None? then Decremented(old(db.products), productID, quantity) else old(db.products)
    {
      db.calls := db.calls + [Call.DecrementStock(productID, quantity)];
      if tx.done {
        return Some(ErrTxDone);
      }
      if UpdateStock in db.failing {
        return Some(DbFailure(UpdateStock));
      }
      if !CanDecrement(db.products, productID, quantity) {
        return Some(ErrNoRows);
      }
      DecrementKeepsStockNonNegative(db.products, productID, quantity);
      db.products := Decremented(db.products, productID, quantity);
      err := None;
    }

    /** Inserts an order header and returns its new id. */
    method CreateOrder(tx: Tx, order: OrderRow) returns (id: int, err: Option<Error>)
      requires tx.db == db && tx.Valid()
      modifies db`orders, db`nextId, db`calls
      ensures tx.Valid()
      ensures db.calls == old(db.calls) + [Call.CreateOrder(order)]
      ensures err == if tx.done then Some(ErrTxDone)
                     else if InsertOrder in db.failing then Some(DbFailure(InsertOrder))
                     else None
      ensures err.None? ==> 0 < id && id !in old(db.orders) && db.orders == old(db.orders)[id := order]
      ensures err.Some? ==> id == 0 && db.orders == old(db.orders)
      ensures id == if err.None? then old(db.nextId) else 0
      ensures db.nextId == if err.None? then old(db.nextId) + 1 else old(db.nextId)
    {
      db.calls := db.calls + [Call.CreateOrder(order)];
      if tx.done {
        return 0, Some(ErrTxDone);
      }
      if InsertOrder in db.failing {
        return 0, Some(DbFailure(InsertOrder));
      }
      id := db.nextId;
      db.orders := db.orders[id := order];
      db.nextId := db.nextId + 1;
      err := None;
    }

    /** Stores the lines of an order. */
    method BulkInsertItems(tx: Tx, orderID: int, items: seq<OrderItem>) returns (err: Option<Error>)
      requires tx.db == db && tx.Valid()
      modifies db`orderItems, db`calls
      ensures tx.Valid()
      ensures db.calls == old(db.calls) + [Call.BulkInsertItems(orderID, items)]
      ensures err == if tx.done then Some(ErrTxDone)
                     else if InsertItems in db.failing then Some(DbFailure(InsertItems))
                     else None
      ensures db.orderItems == if err.None? then old(db.orderItems)[orderID := items] else old(db.orderItems)
    {
      db.calls := db.calls + [Call.BulkInsertItems(orderID, items)];
      if tx.done {
        return Some(ErrTxDone);
      }
      if InsertItems in db.failing {
        return Some(DbFailure(InsertItems));
      }
      db.orderItems := db.orderItems[orderID := items];
      err := None;
    }

    /** Deletes every cart row of the user, inside the transaction. */
    method ClearCart(tx: Tx, userID: int) returns (err: Option<Error>)
      requires tx.db == db && tx.Valid()
      modifies db`cartItems, db`calls
      ensures tx.Valid()
      ensures db.calls == old(db.calls) + [Call.ClearCart(userID)]
      ensures err == if tx.done then Some(ErrTxDone)
                     else if DeleteCart in db.failing then Some(DbFailure(DeleteCart))
                     else None
      ensures db.cartItems == if err.None? then WithoutUser(old(db.cartItems), userID) else old(db.cartItems)
    {
      db.calls := db.calls + [Call.ClearCart(userID)];
      if tx.done {
        return Some(ErrTxDone);
      }
      if DeleteCart in db.failing {
        return Some(DbFailure(DeleteCart));
      }
      db.cartItems := WithoutUser(db.cartItems, userID);
      err := None;
    }

    /** The current status of an order; `sql.ErrNoRows` when there is no such order. */
    method GetOrderStatus(orderID: int) returns (status: string, err: Option<Error>)
      modifies db`calls
      ensures db.calls == old(db.calls) + [Call.GetOrderStatus(orderID)]
      ensures err == if SelectStatus in db.failing then Some(DbFailure(SelectStatus))
                     else if orderID !in db.orders then Some(ErrNoRows)
                     else None
      ensures err.None? ==> status == db.orders[orderID].status
    {
      db.calls := db.calls + [Call.GetOrderStatus(orderID)];
      if SelectStatus in db.failing {
        return "", Some(DbFailure(SelectStatus));
      }
      if orderID !in db.orders {
        return "", Some(ErrNoRows);
      }
      status, err := db.orders[orderID].status, None;
    }

    /**
      Compare-and-set of an order's status: succeeds only while the status is
      still `from`; otherwise nothing changes and an error is returned.
     */
    method UpdateOrderStatus(orderID: int, from: string, to: string) returns (err: Option<Error>)
      modifies db`orders, db`calls
      ensures db.calls == old(db.calls) + [Call.UpdateOrderStatus(orderID, from, to)]
      ensures err == if UpdateStatus in db.failing then Some(DbFailure(UpdateStatus))
                     else if orderID in old(db.orders) && old(db.orders)[orderID].status == from then None
                     else Some(ErrNoRows)
      ensures db.orders == if err.None? then old(db.orders)[orderID := old(db.orders)[orderID].(status := to)] else old(db.orders)
    {
      db.calls := db.calls + [Call.UpdateOrderStatus(orderID, from, to)];
      if UpdateStatus in db.failing {
        return Some(DbFailure(UpdateStatus));
      }
      if orderID !in db.orders || db.orders[orderID].status != from {
        return Some(ErrNoRows);
      }
      db.orders := db.orders[orderID := db.orders[orderID].(status := to)];
      err := None;
    }

    /** One order with its lines, only when it belongs to the user. */
    method GetOrderWithItems(userID: int, orderID: int) returns (o: Order, err: Option<Error>)
      modifies db`calls
      ensures db.calls == old(db.calls) + [Call.GetOrderWithItems(userID, orderID)]
      ensures err == if SelectOrder in db.failing then Some(DbFailure(SelectOrder))
                     else if orderID in db.orders && db.orders[orderID].userId == userID then None
                     else Some(ErrNoRows)
      ensures err.None? ==> o.id == orderID && o.userId == userID
      ensures err.None? ==> o.status == db.orders[orderID].status && o.totalAmount == db.orders[orderID].totalAmount
      ensures err.None? ==> o.items == if orderID in db.orderItems then db.orderItems[orderID] else []
    {
      db.calls := db.calls + [Call.GetOrderWithItems(userID, orderID)];
      o := Order(0, 0, "", 0, []);
      if SelectOrder in db.failing {
        return o, Some(DbFailure(SelectOrder));
      }
      if orderID !in db.orders || db.orders[orderID].userId != userID {
        return o, Some(ErrNoRows);
      }
      var row := db.orders[orderID];
      var items := if orderID in db.orderItems then db.orderItems[orderID] else [];
      o, err := Order(orderID, row.userId, row.status, row.totalAmount, items), None;
    }
  }
}
