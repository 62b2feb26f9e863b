/**
  The Postgres database every repository of the marketplace holds a handle to,
  modelled as one object whose fields are its tables, and the transaction
  handle (`order.Tx`, `*sqlx.Tx`) as a snapshot of the transactional tables
  taken at BEGIN and restored on ROLLBACK.

  Besides the tables the object carries two pieces of model state:
  `failing`, the statements that fail for infrastructure reasons, and the ghost
  `calls`, the sequence of repository calls the services have made (what
  the mocks of the unit tests record).
 */
module Database {
  import opened Base

  datatype Product = Product(price: int, stock: int)

  /** A row of `cart_items`. */
  datatype CartRow = CartRow(id: int, userId: int, productId: int, quantity: int)

  /** `order.CartItemLite`: the two columns the order workflow reads from a cart row. */
  datatype CartItemLite = CartItemLite(productId: int, quantity: int)

  /** A row of `orders` (its id is the map key). */
  datatype OrderRow = OrderRow(userId: int, status: string, totalAmount: int)

  /** `order.OrderItem`: one line of an order, with the unit price captured at purchase. */
  datatype OrderItem = OrderItem(productId: int, quantity: int, price: int)

  /** `payment.Intent`, a row of `payment_intents`. */
  datatype Intent = Intent(id: int, orderId: int, amount: int, status: string, clientSecret: string)

  /** A row of `idempotency_keys` (its key is the map key); NULL columns are None. */
  datatype IdemRow = IdemRow(userId: int, requestHash: string, statusCode: Option<int>, orderId: Option<int>)

  /** The tables a transaction covers: what BEGIN snapshots and ROLLBACK restores. */
  datatype Tables = Tables(
    products: map<int, Product>,
    cartItems: seq<CartRow>,
    orders: map<int, OrderRow>,
    orderItems: map<int, seq<OrderItem>>,
    intents: seq<Intent>)

  /** `order.Order` as the repository returns it, with its lines. */
  datatype Order = Order(id: int, userId: int, status: string, totalAmount: int, items: seq<OrderItem>)

  /** One call into a repository made by a service. */
  datatype Call =
    | TryStartIdempotent(userId: int, key: string)
    | SaveIdempotentResult(key: string, status: int, orderId: int)
    | GetCartItemsForUser(userId: int)
    | GetProductsPrices(productIds: seq<int>)
    | BeginTx
    | DecrementStock(productId: int, quantity: int)
    | CreateOrder(order: OrderRow)
    | BulkInsertItems(orderId: int, items: seq<OrderItem>)
    | ClearCart(userId: int)
    | Commit
    | Rollback
    | GetOrderStatus(orderId: int)
    | UpdateOrderStatus(orderId: int, from: string, to: string)
    | GetOrderWithItems(userId: int, orderId: int)
    | CreateIntent(orderId: int)
    | ConfirmIntent(orderId: int, clientSecret: string)

  /**
    What the schema guarantees of the tables: stock is never negative and every
    id handed out by the sequence is below `nextId`.
   */
  ghost predicate TablesValid(t: Tables, nextId: int)
  {
    && (forall p :: p in t.products ==> t.products[p].stock >= 0)
    && (forall i :: 0 <= i < |t.cartItems| ==> t.cartItems[i].id < nextId)
    && (forall id :: id in t.orders ==> 0 < id < nextId)
    && (forall i :: 0 <= i < |t.intents| ==> t.intents[i].id < nextId)
  }

  /** `WHERE user_id = $1`: the rows of one user, in table order. */
  function RowsOf(rows: seq<CartRow>, userId: int): (r: seq<CartRow>)
    ensures forall x :: x in r <==> x in rows && x.userId == userId
    ensures |r| <= |rows|
  {
    if rows == [] then []
    else
      var rest := RowsOf(rows[..|rows| - 1], userId);
      var last := rows[|rows| - 1];
      assert rows == rows[..|rows| - 1] + [last];
      if last.userId == userId then rest + [last] else rest
  }

  /** `DELETE FROM cart_items WHERE user_id = $1`: the rows that survive. */
  function WithoutUser(rows: seq<CartRow>, userId: int): (r: seq<CartRow>)
    ensures forall x :: x in r <==> x in rows && x.userId != userId
  {
    if rows == [] then []
    else
      var rest := WithoutUser(rows[..|rows| - 1], userId);
      var last := rows[|rows| - 1];
      assert rows == rows[..|rows| - 1] + [last];
      if last.userId != userId then rest + [last] else rest
  }

  /** `DELETE FROM cart_items WHERE user_id = $1 AND product_id = $2`: the rows that survive. */
  function WithoutLine(rows: seq<CartRow>, userId: int, productId: int): (r: seq<CartRow>)
    ensures forall x :: x in r <==> x in rows && !(x.userId == userId && x.productId == productId)
  {
    if rows == [] then []
    else
      var rest := WithoutLine(rows[..|rows| - 1], userId, productId);
      var last := rows[|rows| - 1];
      assert rows == rows[..|rows| - 1] + [last];
      if !(last.userId == userId && last.productId == productId) then rest + [last] else rest
  }

  /** `SELECT product_id, quantity`: the two columns of each row. */
  function Lite(rows: seq<CartRow>): seq<CartItemLite>
  {
    seq(|rows|, i requires 0 <= i < |rows| => CartItemLite(rows[i].productId, rows[i].quantity))
  }

  class Db {
    var products: map<int, Product>
    var cartItems: seq<CartRow>
    var orders: map<int, OrderRow>
    var orderItems: map<int, seq<OrderItem>>
    var intents: seq<Intent>
    var idempotencyKeys: map<string, IdemRow>
    /** The next value of the id sequence (sequences are not rolled back). */
    var nextId: int
    /** The statements that fail for infrastructure reasons. */
    var failing: set<Op>
    ghost var calls: seq<Call>

    ghost predicate Valid()
      reads this`products, this`cartItems, this`orders, this`orderItems, this`intents, this`nextId
    {
      1 <= nextId && TablesValid(Snapshot(), nextId)
    }

    /** The current contents of the transactional tables. */
    function Snapshot(): Tables
      reads this`products, this`cartItems, this`orders, this`orderItems, this`intents
    {
      Tables(products, cartItems, orders, orderItems, intents)
    }

    /** An empty database whose statements never fail. */
    constructor ()
      ensures Valid()
      ensures Snapshot() == Tables(map[], [], map[], map[], [])
      ensures idempotencyKeys == map[] && nextId == 1 && failing == {} && calls == []
    {
      products, cartItems, orders, orderItems, intents := map[], [], map[], map[], [];
      idempotencyKeys, nextId, failing, calls := map[], 1, {}, [];
    }

    /** Puts the transactional tables back to `t`; nothing else changes. */
    method Restore(t: Tables)
      modifies this
      ensures Snapshot() == t
      ensures idempotencyKeys == old(idempotencyKeys) && nextId == old(nextId)
      ensures failing == old(failing) && calls == old(calls)
    {
      products, cartItems, orders, orderItems, intents := t.products, t.cartItems, t.orders, t.orderItems, t.intents;
    }
  }

  /**
    An open transaction. Statements run in it change the tables directly; the
    snapshot taken at BEGIN is what a rollback, or a failed commit, restores.
   */
  class Tx {
    const db: Db
    const snapshot: Tables
    var done: bool

    ghost predicate Valid()
      reads this, db
    {
      db.Valid() && TablesValid(snapshot, db.nextId)
    }

    constructor (db: Db)
      ensures this.db == db && snapshot == db.Snapshot() && !done
    {
      this.db := db;
      snapshot := db.Snapshot();
      done := false;
    }

    method Commit() returns (err: Option<Error>)
      requires Valid()
      modifies this, db
      ensures Valid() && done
      ensures err == (if old(done) then Some(ErrTxDone)
                      else if CommitTx in db.failing then Some(DbFailure(CommitTx))
                      else None)
      ensures db.Snapshot() == (if !old(done) && err.Some? then snapshot else old(db.Snapshot()))
      ensures db.idempotencyKeys == old(db.idempotencyKeys) && db.nextId == old(db.nextId)
      ensures db.failing == old(db.failing) && db.calls == old(db.calls) + [Call.Commit]
    {
      db.calls := db.calls + [Call.Commit];
      if done {
        return Some(ErrTxDone);
      }
      done := true;
      if CommitTx in db.failing {
        // the server aborts a transaction whose commit fails
        db.Restore(snapshot);
        return Some(DbFailure(CommitTx));
      }
      return None;
    }

    method Rollback() returns (err: Option<Error>)
      requires Valid()
      modifies this, db
      ensures Valid() && done
      ensures err == if old(done) then Some(ErrTxDone) else None
      ensures db.Snapshot() == if old(done) then old(db.Snapshot()) else snapshot
      ensures db.idempotencyKeys == old(db.idempotencyKeys) && db.nextId == old(db.nextId)
      ensures db.failing == old(db.failing) && db.calls == old(db.calls) + [Call.Rollback]
    {
      db.calls := db.calls + [Call.Rollback];
      if done {
        return Some(ErrTxDone);
      }
      done := true;
      db.Restore(snapshot);
      return None;
    }
  }
}
