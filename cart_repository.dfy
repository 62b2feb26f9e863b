/**
  The Postgres cart repository (`CartRepo`) over the `cart_items` table: a
  sequence of rows, each with its own id. Adding a line always inserts a new
  row (an existing line for the same product is not merged); listing filters
  by user; the two deletes remove the rows of one user, or of one user and one
  product.
 */
module CartRepository {
  import opened Base
  import opened Database

  /** Deleting a user's rows a second time finds nothing more to delete. */
  lemma {:induction false} ClearIsIdempotent(rows: seq<CartRow>, userId: int)
    ensures WithoutUser(WithoutUser(rows, userId), userId) == WithoutUser(rows, userId)
  {
    if rows != [] {
      var prefix := rows[..|rows| - 1];
      var last := rows[|rows| - 1];
      var w := WithoutUser(prefix, userId);
      ClearIsIdempotent(prefix, userId);
      if last.userId != userId {
        assert (w + [last])[..|w + [last]| - 1] == w;
      }
    }
  }

  /** Deleting a user's line for a product a second time finds nothing more to delete. */
  lemma {:induction false} RemoveIsIdempotent(rows: seq<CartRow>, userId: int, productId: int)
    ensures WithoutLine(WithoutLine(rows, userId, productId), userId, productId) == WithoutLine(rows, userId, productId)
  {
    if rows != [] {
      var prefix := rows[..|rows| - 1];
      var last := rows[|rows| - 1];
      var w := WithoutLine(prefix, userId, productId);
      RemoveIsIdempotent(prefix, userId, productId);
      if !(last.userId == userId && last.productId == productId) {
        assert (w + [last])[..|w + [last]| - 1] == w;
      }
    }
  }

  /** After clearing a user's cart, listing it gives nothing. */
  lemma ClearedCartListsEmpty(rows: seq<CartRow>, userId: int)
    ensures RowsOf(WithoutUser(rows, userId), userId) == []
  {
  }

  /** Clearing one user's cart leaves every other user's listing exactly as it was, in order. */
  lemma {:induction false} ClearKeepsOtherCarts(rows: seq<CartRow>, userId: int, other: int)
    requires other != userId
    ensures RowsOf(WithoutUser(rows, userId), other) == RowsOf(rows, other)
  {
    if rows != [] {
      var prefix := rows[..|rows| - 1];
      var last := rows[|rows| - 1];
      var w := WithoutUser(prefix, userId);
      ClearKeepsOtherCarts(prefix, userId, other);
      assert RowsOf(rows, other) == RowsOf(prefix, other) + if last.userId == other then [last] else [];
      if last.userId != userId {
        assert WithoutUser(rows, userId) == w + [last];
        assert (w + [last])[..|w + [last]| - 1] == w;
        assert RowsOf(w + [last], other) == RowsOf(w, other) + if last.userId == other then [last] else [];
      } else {
        assert WithoutUser(rows, userId) == w;
      }
    }
  }

  /** Removing one user's line leaves every other user's listing exactly as it was, in order. */
  lemma {:induction false} RemoveKeepsOtherCarts(rows: seq<CartRow>, userId: int, productId: int, other: int)
    requires other != userId
    ensures RowsOf(WithoutLine(rows, userId, productId), other) == RowsOf(rows, other)
  {
    if rows != [] {
      var prefix := rows[..|rows| - 1];
      var last := rows[|rows| - 1];
      var w := WithoutLine(prefix, userId, productId);
      RemoveKeepsOtherCarts(prefix, userId, productId, other);
      assert RowsOf(rows, other) == RowsOf(prefix, other) + if last.userId == other then [last] else [];
      if !(last.userId == userId && last.productId == productId) {
        assert WithoutLine(rows, userId, productId) == w + [last];
        assert (w + [last])[..|w + [last]| - 1] == w;
        assert RowsOf(w + [last], other) == RowsOf(w, other) + if last.userId == other then [last] else [];
      } else {
        assert WithoutLine(rows, userId, productId) == w;
      }
    }
  }

  /** An added row is listed after the user's earlier rows, even when they hold the same product. */
  lemma AddedRowListedLast(rows: seq<CartRow>, row: CartRow)
    ensures RowsOf(rows + [row], row.userId) == RowsOf(rows, row.userId) + [row]
  {
    assert (rows + [row])[..|rows|] == rows;
  }

  /** Rows that survive a delete were all in the table, so their ids were all handed out. */
  lemma SurvivorsKeepIds(rows: seq<CartRow>, rest: seq<CartRow>, nextId: int)
    requires forall i :: 0 <= i < |rows| ==> rows[i].id < nextId
    requires forall x :: x in rest ==> x in rows
    ensures forall i :: 0 <= i < |rest| ==> rest[i].id < nextId
  {
    forall i | 0 <= i < |rest|
      ensures rest[i].id < nextId
    {
      assert rest[i] in rest;
    }
  }

  class CartRepo {
    const db: Db

    constructor (db: Db)
      ensures this.db == db
    {
      this.db := db;
    }

    /** Inserts one new row and returns its id. */
    method AddItem(userID: int, productID: int, quantity: int) returns (id: int, err: Option<Error>)
      requires db.Valid()
      modifies db`cartItems, db`nextId
      ensures db.Valid()
      ensures err == if InsertCartRow in db.failing then Some(Wrapped(CartInsertFailed, Some(DbFailure(InsertCartRow)))) else None
      ensures err.None? ==>
        && 0 < id
        && (forall i :: 0 <= i < |old(db.cartItems)| ==> old(db.cartItems)[i].id != id)
        && db.cartItems == old(db.cartItems) + [CartRow(id, userID, productID, quantity)]
      ensures err.Some? ==> id == 0 && db.cartItems == old(db.cartItems)
    {
      if InsertCartRow in db.failing {
        return 0, Some(Wrapped(CartInsertFailed, Some(DbFailure(InsertCartRow))));
      }
      id := db.nextId;
      db.cartItems := db.cartItems + [CartRow(id, userID, productID, quantity)];
      db.nextId := db.nextId + 1;
      err := None;
    }

    /** The rows of one user, in table order. */
    method ListItems(userID: int) returns (items: seq<CartRow>, err: Option<Error>)
      ensures err == if SelectCartRows in db.failing then Some(Wrapped(CartReadFailed, Some(DbFailure(SelectCartRows)))) else None
      ensures err.None? ==> items == RowsOf(db.cartItems, userID)
      ensures err.Some? ==> items == []
    {
      if SelectCartRows in db.failing {
        return [], Some(Wrapped(CartReadFailed, Some(DbFailure(SelectCartRows))));
      }
      items, err := RowsOf(db.cartItems, userID), None;
    }

    /** Deletes the user's rows for one product; deleting nothing is not an error. */
    method RemoveItem(userID: int, productID: int) returns (err: Option<Error>)
      requires db.Valid()
      modifies db`cartItems
      ensures db.Valid()
      ensures err == if DeleteCartLine in db.failing then Some(Wrapped(CartDeleteFailed, Some(DbFailure(DeleteCartLine)))) else None
      ensures db.cartItems == if err.None? then WithoutLine(old(db.cartItems), userID, productID) else old(db.cartItems)
    {
      if DeleteCartLine in db.failing {
        return Some(Wrapped(CartDeleteFailed, Some(DbFailure(DeleteCartLine))));
      }
      var rest := WithoutLine(db.cartItems, userID, productID);
      SurvivorsKeepIds(db.cartItems, rest, db.nextId);
      db.cartItems := rest;
      err := None;
    }

    /** Deletes every row of the user; an empty cart is not an error. */
    method Clear(userID: int) returns (err: Option<Error>)
      requires db.Valid()
      modifies db`cartItems
      ensures db.Valid()
      ensures err == if DeleteCartRows in db.failing then Some(Wrapped(CartClearFailed, Some(DbFailure(DeleteCartRows)))) else None
      ensures db.cartItems == if err.None? then WithoutUser(old(db.cartItems), userID) else old(db.cartItems)
    {
      if DeleteCartRows in db.failing {
        return Some(Wrapped(CartClearFailed, Some(DbFailure(DeleteCartRows))));
      }
      var rest := WithoutUser(db.cartItems, userID);
      SurvivorsKeepIds(db.cartItems, rest, db.nextId);
      db.cartItems := rest;
      err := None;
    }
  }
}
