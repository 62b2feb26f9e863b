/**
  Values shared by every part of the marketplace model: an Option type, bytes,
  the database statements that can fail for reasons outside the model, and the
  Go error values the core returns, with `errors.Is` over `%w` wrapping.
 */
module Base {

  datatype Option<+T> = None | Some(value: T)

  newtype byte = x: int | 0 <= x < 256

  /** The HTTP status the order service records for a created order (`http.StatusCreated`). */
  const StatusCreated: int := 201

  /**
    The SQL statements whose infrastructure failure (connection loss, a cancelled
    context, ...) the model can inject through `Db.failing`.
   */
  datatype Op =
    | Begin           // BEGIN (BeginTx / BeginTxx)
    | CommitTx        // COMMIT
    | SelectCart      // SELECT ... FROM cart_items (order side)
    | SelectPrices    // SELECT id, price FROM products
    | UpdateStock     // UPDATE products SET stock = stock - $1
    | InsertOrder     // INSERT INTO orders
    | InsertItems     // INSERT INTO order_items
    | DeleteCart      // DELETE FROM cart_items (order side)
    | SelectStatus    // SELECT status FROM orders
    | UpdateStatus    // UPDATE orders SET status
    | SelectOrder     // SELECT ... FROM orders (with items)
    | InsertKey       // INSERT INTO idempotency_keys
    | SelectKey       // SELECT ... FROM idempotency_keys
    | UpdateKey       // UPDATE idempotency_keys
    | InsertIntent    // WITH upd AS (UPDATE orders ...) INSERT INTO payment_intents
    | ConfirmUpdate   // UPDATE payment_intents SET status = 'succeeded'
    | PayOrder        // UPDATE orders SET status = 'paid'
    | InsertCartRow   // INSERT INTO cart_items
    | SelectCartRows  // SELECT ... FROM cart_items (cart side)
    | DeleteCartLine  // DELETE FROM cart_items WHERE user_id AND product_id
    | DeleteCartRows  // DELETE FROM cart_items WHERE user_id (cart side)

  /** The place of an `fmt.Errorf` call: the text it adds in front of the error it wraps. */
  datatype Context =
    | CannotStartIdempotent
    | EmptyCart
    | CannotGetPrices
    | PriceNotFound(productId: int)
    | CannotBeginTx
    | StockNotEnough(productId: int)
    | CannotCreateOrder
    | CannotInsertItems
    | CannotClearCart
    | CannotCommitTx
    | CannotSaveIdempotentResult
    | InvalidTransition(from: string, to: string)
    | CreateIntentFailed
    | BeginTxFailed
    | ConfirmIntentFailed
    | UpdateOrderStatusFailed
    | OrderNotAwaitingPayment
    | CommitFailed
    | CartInsertFailed
    | CartReadFailed
    | CartDeleteFailed
    | CartClearFailed

  datatype Error =
    | ErrNoRows                 // sql.ErrNoRows
    | ErrTxDone                 // sql.ErrTxDone: the transaction was already committed or rolled back
    | ErrIdempotencyConflict    // order.ErrIdempotencyConflict
    | ErrInvalidStatusTransition
    | ErrOrderNotFound
    | ErrEmptyInList            // sqlx.In refuses an empty slice
    | ErrNoEntropy              // crypto/rand could not fill the buffer
    | DbFailure(op: Op)         // an injected infrastructure failure
    | Wrapped(context: Context, cause: Option<Error>)
      // fmt.Errorf("<context>: %w", cause); cause None when nothing (or nil) is wrapped

  /** `errors.Is`: the error itself or any error in its `%w` chain equals the target. */
  predicate Is(err: Error, target: Error)
  {
    err == target || (err.Wrapped? && err.cause.Some? && Is(err.cause.value, target))
  }

  function DigitChar(d: nat): char
    requires d < 10
  {
    "0123456789"[d]
  }

  /** The decimal text of a natural number, as `%d` prints it. */
  function Digits(n: nat): string
    decreases n
  {
    if n < 10 then [DigitChar(n)] else Digits(n / 10) + [DigitChar(n % 10)]
  }

  function Decimal(n: int): string
  {
    if n < 0 then "-" + Digits(-n) else Digits(n)
  }
}
