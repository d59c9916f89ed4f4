/** The order status machine, shared by the money side and the stock side of an order. */
module Orders {
  /** What a charge tells the order service. */
  datatype Status = SUCCESS | FAILED | UNKNOWN

  datatype OrderStatus = PENDING | PAID | PAYMENT_FAILED | PAYMENT_PENDING | CANCELLED

  function StatusFor(result: Status): OrderStatus {
    match result
    case SUCCESS => PAID
    case UNKNOWN => PAYMENT_PENDING
    case FAILED => PAYMENT_FAILED
  }

  predicate Cancellable(status: OrderStatus) {
    status == PENDING || status == PAID
  }
}
