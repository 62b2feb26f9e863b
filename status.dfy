/**
  The order-status state machine of `internal/order/status.go`: six status
  strings, a fixed transition table, and the check every status change goes
  through. A status may always "move" to itself.
 */
module OrderStatus {

  const StatusNew := "new"
  const StatusAwaitingPayment := "awaiting_payment"
  const StatusPaid := "paid"
  const StatusShipped := "shipped"
  const StatusCompleted := "completed"
  const StatusCancelled := "cancelled"

  /** The table: for each status that has successors, the statuses it may move to. */
  const AllowedStatusTransitions: map<string, set<string>> := map[
    StatusNew := {StatusAwaitingPayment, StatusCancelled},
    StatusAwaitingPayment := {StatusPaid, StatusCancelled},
    StatusPaid := {StatusShipped, StatusCancelled},
    StatusShipped := {StatusCompleted}
  ]

  /** The lifecycle written out edge by edge: the reference the table is checked against. */
  ghost predicate Edge(from: string, to: string)
  {
    || (from == StatusNew && to == StatusAwaitingPayment)
    || (from == StatusNew && to == StatusCancelled)
    || (from == StatusAwaitingPayment && to == StatusPaid)
    || (from == StatusAwaitingPayment && to == StatusCancelled)
    || (from == StatusPaid && to == StatusShipped)
    || (from == StatusPaid && to == StatusCancelled)
    || (from == StatusShipped && to == StatusCompleted)
  }

  /** A status with an entry in the table. */
  predicate IsKnownSource(s: string)
  {
    s == StatusNew || s == StatusAwaitingPayment || s == StatusPaid || s == StatusShipped
  }

  function IsValidStatusTransition(from: string, to: string): (ok: bool)
    ensures ok <==> from == to || Edge(from, to)
  {
    if from == to then true
    else if from !in AllowedStatusTransitions then false
    else to in AllowedStatusTransitions[from]
  }

  lemma SelfTransitionAlwaysValid(s: string)
    ensures IsValidStatusTransition(s, s)
  {
  }

  lemma FromNew(to: string)
    ensures IsValidStatusTransition(StatusNew, to)
        <==> to == StatusNew || to == StatusAwaitingPayment || to == StatusCancelled
  {
  }

  lemma FromAwaitingPayment(to: string)
    ensures IsValidStatusTransition(StatusAwaitingPayment, to)
        <==> to == StatusAwaitingPayment || to == StatusPaid || to == StatusCancelled
  {
  }

  lemma FromPaid(to: string)
    ensures IsValidStatusTransition(StatusPaid, to)
        <==> to == StatusPaid || to == StatusShipped || to == StatusCancelled
  {
  }

  lemma FromShipped(to: string)
    ensures IsValidStatusTransition(StatusShipped, to) <==> to == StatusShipped || to == StatusCompleted
    ensures !IsValidStatusTransition(StatusShipped, StatusCancelled)
  {
  }

  /** `completed`, `cancelled` and every string outside the table have no way out. */
  lemma NoWayOutOfTerminalOrUnknown(from: string, to: string)
    requires !IsKnownSource(from)
    ensures IsValidStatusTransition(from, to) <==> from == to
  {
  }

  lemma NothingLeadsIntoNew(from: string)
    requires from != StatusNew
    ensures !IsValidStatusTransition(from, StatusNew)
  {
  }
}
