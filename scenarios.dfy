/**
  The unit tests of the order service, and a few further runs of the
  workflows, replayed on concrete databases. Each method builds a database,
  runs the operation and asserts what the test asserts; the verifier checks
  every assertion from the contracts alone.
 */
module Scenarios {
  import opened Base
  import opened Database
  import opened OrderStatus
  import opened OrderRepository
  import opened IdempotencyRepository
  import opened OrderService
  import opened PaymentRepository
  import opened CartRepository
  import PaymentService

  /** Products 10 and 20, priced 1000 and 2000, with the given stock. */
  function Catalogue(stock10: nat, stock20: nat): map<int, Product>
  {
    map[10 := Product(1000, stock10), 20 := Product(2000, stock20)]
  }

  /** User 1's cart: two of product 10 at 1000 and one of product 20 at 2000. */
  method CartDatabase(stock10: nat, stock20: nat) returns (db: Db)
    ensures fresh(db) && db.Valid()
    ensures db.Snapshot() == Tables(Catalogue(stock10, stock20),
                                    [Row1, Row2], map[], map[], [])
    ensures db.idempotencyKeys == map[] && db.nextId == 3 && db.failing == {} && db.calls == []
  {
    db := new Db();
    db.products := Catalogue(stock10, stock20);
    db.cartItems := [Row1, Row2];
    db.nextId := 3;
  }

  const Row1 := CartRow(1, 1, 10, 2)
  const Row2 := CartRow(2, 1, 20, 1)
  const Item1 := OrderItem(10, 2, 1000)
  const Item2 := OrderItem(20, 1, 2000)

  lemma CartRowsOfUser()
    ensures RowsOf([Row1, Row2], 1) == [Row1, Row2]
  {
    assert [Row1][..0] == [];
    assert RowsOf([Row1], 1) == [Row1];
    assert [Row1, Row2][..1] == [Row1];
  }

  lemma CartPriced(prices: map<int, int>)
    requires prices == map[10 := 1000, 20 := 2000]
    ensures AllPriced([CartItemLite(10, 2), CartItemLite(20, 1)], prices)
    ensures Priced([CartItemLite(10, 2), CartItemLite(20, 1)], prices) == [Item1, Item2]
  {
    var lines := [CartItemLite(10, 2), CartItemLite(20, 1)];
    var first := [CartItemLite(10, 2)];
    assert lines[..1] == first;
    assert first[..0] == [];
    assert Priced([], prices) == [];
    assert Priced(first, prices) == [Item1];
    assert Priced(lines, prices) == Priced(first, prices) + [Item2];
  }

  lemma CartTotal()
    ensures Total([Item1, Item2]) == 4000
  {
    assert [Item1, Item2][..1] == [Item1];
    assert [Item1][..0] == [];
    assert Total([]) == 0;
    assert Total([Item1]) == 2000;
    assert Total([Item1, Item2]) == Total([Item1]) + 2000;
  }

  lemma CartPrices(products: map<int, Product>, stock10: nat, stock20: nat)
    requires products == Catalogue(stock10, stock20)
    ensures PricesFor(products, [10, 20]) == map[10 := 1000, 20 := 2000]
  {
    var prices := PricesFor(products, [10, 20]);
    assert prices.Keys == {10, 20} by {
      forall id ensures id in prices <==> id == 10 || id == 20 {
        assert id in [10, 20] <==> id == 10 || id == 20;
      }
    }
  }

  lemma CartLinesOfUser(t: Tables)
    requires t.cartItems == [Row1, Row2]
    ensures CartLines(t, 1) == [CartItemLite(10, 2), CartItemLite(20, 1)]
    ensures ProductIdsOf(CartLines(t, 1)) == [10, 20]
  {
    CartRowsOfUser();
  }

  lemma CartScenario(t: Tables, stock10: nat, stock20: nat)
    requires t == Tables(Catalogue(stock10, stock20),
                         [Row1, Row2], map[], map[], [])
    ensures CartLines(t, 1) == [CartItemLite(10, 2), CartItemLite(20, 1)]
    ensures Prepare(t, {}, 1) == Prepared([Item1, Item2], 4000)
    ensures PrepareCalls(t, {}, 1) == [Call.GetCartItemsForUser(1), Call.GetProductsPrices([10, 20])]
  {
    CartLinesOfUser(t);
    CartPrices(t.products, stock10, stock20);
    CartPriced(map[10 := 1000, 20 := 2000]);
    CartTotal();
  }

  lemma CartReservation(stock10: nat, stock20: nat)
    requires stock10 >= 2 && stock20 >= 1
    ensures Reservable(Catalogue(stock10, stock20), [Item1, Item2])
    ensures Reserved(Catalogue(stock10, stock20), [Item1, Item2]) == Catalogue(stock10 - 2, stock20 - 1)
    ensures DecrementCalls([Item1, Item2]) == [Call.DecrementStock(10, 2), Call.DecrementStock(20, 1)]
  {
    var products := Catalogue(stock10, stock20);
    assert [Item1, Item2][..1] == [Item1];
    assert [Item1][..0] == [];
    assert Reserved'(products, [Item1]) == Catalogue(stock10 - 2, stock20);
    assert Reservable(products, [Item1]);
    assert DecrementCalls([Item1]) == [Call.DecrementStock(10, 2)];
  }

  lemma CartShortage(stock10: nat)
    requires stock10 >= 2
    ensures !Reservable(Catalogue(stock10, 0), [Item1, Item2])
    ensures FailIndex({}, Catalogue(stock10, 0), [Item1, Item2]) == 1
    ensures DecrementCalls([Item1, Item2]) == [Call.DecrementStock(10, 2), Call.DecrementStock(20, 1)]
  {
    var products := Catalogue(stock10, 0);
    var items := [Item1, Item2];
    assert items[..1] == [Item1];
    assert [Item1][..0] == [];
    assert Reserved'(products, [Item1]) == Catalogue(stock10 - 2, 0);
    assert Reservable(products, [Item1]);
    ShortageIsFirstFailure(products, items, 1);
    assert DecrementCalls([Item1]) == [Call.DecrementStock(10, 2)];
  }

  lemma CartShortAtFirstLine(stock20: nat)
    ensures !Reservable(Catalogue(1, stock20), [Item1, Item2])
    ensures FailIndex({}, Catalogue(1, stock20), [Item1, Item2]) == 0
    ensures DecrementCalls([Item1, Item2][..1]) == [Call.DecrementStock(10, 2)]
  {
    var items := [Item1, Item2];
    assert items[..0] == [];
    assert items[..1] == [Item1];
    assert [Item1][..0] == [];
    ShortageIsFirstFailure(Catalogue(1, stock20), items, 0);
  }

  /**
    The transaction over user 1's cart with enough stock places the order,
    keyed or not; `prefix` holds the calls made before the cart is read.
   */
  lemma CartPlaced(stock10: nat, stock20: nat, t: Tables, ledger: map<string, IdemRow>, nextId: int, prefix: seq<Call>,
                   idemKey: Option<string>, id: int, err: Option<Error>, t': Tables,
                   ledger': map<string, IdemRow>, calls: seq<Call>)
    requires stock10 >= 2 && stock20 >= 1
    requires t == Tables(Catalogue(stock10, stock20), [Row1, Row2], map[], map[], [])
    requires FromCart(t, ledger, nextId, prefix + PrepareCalls(t, {}, 1), {}, 1, idemKey, Prepare(t, {}, 1),
                      id, err, t', ledger', calls)
    ensures err.None? && id > 0 && id == nextId
    ensures t'.products == Catalogue(stock10 - 2, stock20 - 1)
    ensures t'.orders == map[id := OrderRow(1, StatusNew, 4000)]
    ensures t'.orderItems == map[id := [Item1, Item2]]
    ensures RowsOf(t'.cartItems, 1) == []
    ensures ledger' == if idemKey.Some? then Saved(ledger, idemKey.value, StatusCreated, id) else ledger
    ensures calls == prefix + [Call.GetCartItemsForUser(1), Call.GetProductsPrices([10, 20]),
                               Call.BeginTx, Call.DecrementStock(10, 2), Call.DecrementStock(20, 1),
                               Call.CreateOrder(OrderRow(1, StatusNew, 4000)), Call.BulkInsertItems(id, [Item1, Item2]),
                               Call.ClearCart(1), Call.Commit]
                     + (if idemKey.Some? then [Call.SaveIdempotentResult(idemKey.value, StatusCreated, id)] else [])
                     + [Call.Rollback]
  {
    CartScenario(t, stock10, stock20);
    CartReservation(stock10, stock20);
    ClearedCartListsEmpty(t.cartItems, 1);
  }

  /** Too little stock for the first line: rolled back after one decrement, nothing changed. */
  lemma CartRefusedAtFirstLine(stock20: nat, t: Tables, ledger: map<string, IdemRow>, nextId: int, id: int,
                               err: Option<Error>, t': Tables, ledger': map<string, IdemRow>, calls: seq<Call>)
    requires t == Tables(Catalogue(1, stock20), [Row1, Row2], map[], map[], [])
    requires FromCart(t, ledger, nextId, [] + [] + PrepareCalls(t, {}, 1), {}, 1, None, Prepare(t, {}, 1),
                      id, err, t', ledger', calls)
    ensures id == 0 && err == Some(Wrapped(StockNotEnough(10), Some(ErrNoRows)))
    ensures t' == t && ledger' == ledger
    ensures calls == [Call.GetCartItemsForUser(1), Call.GetProductsPrices([10, 20]),
                      Call.BeginTx, Call.DecrementStock(10, 2), Call.Rollback]
  {
    CartScenario(t, 1, stock20);
    CartShortAtFirstLine(stock20);
  }

  /** Too little stock for the second line: the first line's decrement is rolled back too. */
  lemma CartRefusedAtSecondLine(stock10: nat, t: Tables, ledger: map<string, IdemRow>, nextId: int, id: int,
                                err: Option<Error>, t': Tables, ledger': map<string, IdemRow>, calls: seq<Call>)
    requires stock10 >= 2
    requires t == Tables(Catalogue(stock10, 0), [Row1, Row2], map[], map[], [])
    requires FromCart(t, ledger, nextId, [] + [] + PrepareCalls(t, {}, 1), {}, 1, None, Prepare(t, {}, 1),
                      id, err, t', ledger', calls)
    ensures id == 0 && err == Some(Wrapped(StockNotEnough(20), Some(ErrNoRows)))
    ensures t' == t && ledger' == ledger
    ensures calls == [Call.GetCartItemsForUser(1), Call.GetProductsPrices([10, 20]), Call.BeginTx,
                      Call.DecrementStock(10, 2), Call.DecrementStock(20, 1), Call.Rollback]
  {
    CartScenario(t, stock10, 0);
    CartShortage(stock10);
    assert [Item1, Item2][..2] == [Item1, Item2];
  }

  /** service_test.go, success without a key: two lines with enough stock are placed as one order. */
  method SuccessWithoutKey()
  {
    var db := CartDatabase(10, 10);
    ghost var t := db.Snapshot();
    var repo := new OrderRepo(db);
    var svc := new Service(repo, null);
    var id, err := svc.CreateFromCart(1, "");
    CartPlaced(10, 10, t, db.idempotencyKeys, 3, [] + [], None, id, err, db.Snapshot(), db.idempotencyKeys, db.calls);
    assert err.None? && id == 3;
    assert db.Snapshot().orders[id].totalAmount == 4000;
    assert db.Snapshot().products == Catalogue(8, 9);
    assert RowsOf(db.Snapshot().cartItems, 1) == [];
  }

  /**
    service_test.go, first call with a key, then the same request again: with
    the intended ledger the first call places the order and saves its id
    under the key; the second call with the same key returns that id and
    places nothing.
   */
  method SuccessWithKeyThenReplay()
  {
    var db := CartDatabase(10, 10);
    ghost var t := db.Snapshot();
    var repo := new OrderRepo(db);
    var idem := new IdemRepo(db, Intended);
    var svc := new Service(repo, idem);
    assert Proceeds(svc.StartReplyFor(1, "k1"));
    ghost var ledger := svc.LedgerAfterStart(1, "k1");
    var id, err := svc.CreateFromCart(1, "k1");
    CartPlaced(10, 10, t, ledger, 3, [] + [Call.TryStartIdempotent(1, "k1")], Some("k1"),
               id, err, db.Snapshot(), db.idempotencyKeys, db.calls);
    assert err.None? && id > 0;
    assert db.idempotencyKeys == Saved(ledger, "k1", StatusCreated, id);

    ghost var placed := db.Snapshot();
    SavedResultIsReplayed(Intended, ledger, {}, "k1", StatusCreated, id, 1, HashRequest(1));
    var id2, err2 := svc.CreateFromCart(1, "k1");
    assert err2.None? && id2 == id;
    assert db.Snapshot() == placed;
    assert db.orders == map[id := OrderRow(1, StatusNew, 4000)];
  }

  /**
    The first call with a fresh key, against the ledger as written: it
    already reports a conflict, so nothing is placed.
   */
  method AsWrittenLedgerRefusesFreshKey()
  {
    var db := CartDatabase(10, 10);
    var repo := new OrderRepo(db);
    var idem := new IdemRepo(db, AsWritten);
    var svc := new Service(repo, idem);
    AsWrittenFreshKeyConflicts(map[], {}, 1, "k1", HashRequest(1));
    var id, err := svc.CreateFromCart(1, "k1");
    assert id == 0 && err == Some(Wrapped(CannotStartIdempotent, Some(ErrIdempotencyConflict)));
    assert Is(err.value, ErrIdempotencyConflict);
    assert db.orders == map[] && db.products == Catalogue(10, 10);
  }

  /** service_test.go, second call: a saved result is returned without touching the cart. */
  method SecondCallReturnsSaved()
  {
    var db := CartDatabase(10, 10);
    db.idempotencyKeys := map["k1" := IdemRow(1, HashRequest(1), Some(StatusCreated), Some(555))];
    var repo := new OrderRepo(db);
    var idem := new IdemRepo(db, AsWritten);
    var svc := new Service(repo, idem);
    var id, err := svc.CreateFromCart(1, "k1");
    assert id == 555 && err.None?;
    assert db.calls == [Call.TryStartIdempotent(1, "k1")];
  }

  /**
    service_test.go, key busy without a result: the ledger answers "not ok,
    status 0, order 0" without an error, so the service itself reports the
    bare conflict and the cart is not read.
   */
  method ConflictWhenKeyBusy()
  {
    var db := CartDatabase(10, 10);
    db.idempotencyKeys := map["k1" := IdemRow(1, HashRequest(1), None, Some(0))];
    var repo := new OrderRepo(db);
    var idem := new IdemRepo(db, Intended);
    var svc := new Service(repo, idem);
    var id, err := svc.CreateFromCart(1, "k1");
    assert id == 0 && err == Some(ErrIdempotencyConflict);
    assert db.calls == [Call.TryStartIdempotent(1, "k1")];
  }

  /**
    A key whose row has no result yet: the ledger itself reports the
    conflict as an error, which the service wraps; the cart is not read.
   */
  method UnfinishedKeyReportedByLedger()
  {
    var db := CartDatabase(10, 10);
    db.idempotencyKeys := map["k1" := IdemRow(1, HashRequest(1), None, None)];
    var repo := new OrderRepo(db);
    var idem := new IdemRepo(db, Intended);
    var svc := new Service(repo, idem);
    var id, err := svc.CreateFromCart(1, "k1");
    assert id == 0 && err == Some(Wrapped(CannotStartIdempotent, Some(ErrIdempotencyConflict)));
    assert db.calls == [Call.TryStartIdempotent(1, "k1")];
  }

  /** service_test.go, empty cart: an error and no transaction. */
  method EmptyCartFails()
  {
    var db := new Db();
    var repo := new OrderRepo(db);
    var svc := new Service(repo, null);
    var id, err := svc.CreateFromCart(1, "");
    assert Prepare(Tables(map[], [], map[], map[], []), {}, 1) == NotPrepared(Wrapped(EmptyCart, None));
    assert id == 0 && err == Some(Wrapped(EmptyCart, None));
    assert db.calls == [Call.GetCartItemsForUser(1)];
  }

  /** service_test.go, stock error on the first line: rolled back before any order is written. */
  method StockFailsOnFirstLine()
  {
    var db := CartDatabase(1, 10);
    ghost var t := db.Snapshot();
    var repo := new OrderRepo(db);
    var svc := new Service(repo, null);
    var id, err := svc.CreateFromCart(1, "");
    CartRefusedAtFirstLine(10, t, db.idempotencyKeys, 3, id, err, db.Snapshot(), db.idempotencyKeys, db.calls);
    assert id == 0 && err.Some? && db.Snapshot() == t;
    assert Call.CreateOrder(OrderRow(1, StatusNew, 4000)) !in db.calls;
  }

  /**
    The second line finds no stock, so the first line's decrement is rolled
    back too: no order exists and the cart is unchanged.
   */
  method StockFailsOnSecondLine()
  {
    var db := CartDatabase(10, 0);
    ghost var t := db.Snapshot();
    var repo := new OrderRepo(db);
    var svc := new Service(repo, null);
    var id, err := svc.CreateFromCart(1, "");
    CartRefusedAtSecondLine(10, t, db.idempotencyKeys, 3, id, err, db.Snapshot(), db.idempotencyKeys, db.calls);
    assert id == 0 && Is(err.value, ErrNoRows);
    assert db.Snapshot().products[10].stock == 10;
    assert db.Snapshot().orders == map[] && db.Snapshot().cartItems == [Row1, Row2];
  }

  /** Cancelling a shipped order: refused by the status table, and the order stays shipped. */
  method CancelShippedFails()
  {
    var db := new Db();
    db.orders := map[7 := OrderRow(1, StatusShipped, 4000)];
    db.nextId := 8;
    var repo := new OrderRepo(db);
    var svc := new Service(repo, null);
    var err := svc.Cancel(7);
    assert !IsValidStatusTransition(StatusShipped, StatusCancelled);
    assert err.Some? && Is(err.value, ErrInvalidStatusTransition);
    assert db.orders[7].status == StatusShipped;
  }

  /** A payment intent for an order that is already paid: refused, and the order keeps its status. */
  method IntentForPaidOrderFails()
  {
    var db := new Db();
    db.orders := map[7 := OrderRow(1, StatusPaid, 4000)];
    db.nextId := 8;
    var payRepo := new PaymentRepo(db);
    var ordRepo := new OrderRepo(db);
    var svc := new PaymentService.Service(payRepo, ordRepo);
    var random := seq(16, i => 0 as byte);
    assert PaymentService.OwnershipError(db.orders, db.failing, 1, 7) == None;
    var pi, err := svc.CreateIntent(1, 7, random);
    assert err == Some(Wrapped(CreateIntentFailed, Some(ErrNoRows)));
    assert db.intents == [] && db.orders[7].status == StatusPaid;
  }
}