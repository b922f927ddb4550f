/**
 * The persisted records the payment and ticket core reads and writes.
 * Amounts are whole VND; a database id is the key of the map or table that
 * holds the record.
 */
module Models {
  import opened Wrappers
  import opened PyText

  datatype PaymentStatus = Pending | Success | Failed | Refunded

  datatype PaymentMethod = CreditCard | BankTransfer | DigitalWallet

  datatype TicketStatus = Active | Used | Cancelled | Returned {
    /** The enum's `.value`, as shown in "Invalid state: …"; `Returned` is the REFUNDED member. */
    function Value(): (r: string)
      ensures r != ""
      ensures r == "ACTIVE" <==> this == Active
      ensures r == "USED" <==> this == Used
      ensures r == "CANCELLED" <==> this == Cancelled
      ensures r == "REFUNDED" <==> this == Returned
    {
      match this
      case Active => "ACTIVE"
      case Used => "USED"
      case Cancelled => "CANCELLED"
      case Returned => "REFUNDED"
    }

    /** Whether a ticket in this state takes up a seat: ACTIVE and USED do, CANCELLED and REFUNDED do not. */
    predicate Occupies() {
      this == Active || this == Used
    }
  }

  /** One attempt to pay an order. */
  datatype Payment = Payment(
    orderId: int,
    amount: int,
    paidWith: PaymentMethod,
    status: PaymentStatus,
    transactionId: string)

  datatype Order = Order(
    code: string,
    customerId: int,
    totalAmount: int,
    extraFee: int,
    discount: int)

  /** One line of an order; `price` is the ticket type's price when the order was placed. */
  datatype OrderDetail = OrderDetail(
    orderId: int,
    ticketTypeId: int,
    quantity: int,
    price: Option<int>)

  /** `quantity` and `price` are nullable columns. */
  datatype TicketType = TicketType(
    eventId: int,
    name: string,
    quantity: Option<int>,
    price: Option<int>)

  /** `t.quantity or 0`. */
  function Capacity(t: TicketType): int {
    t.quantity.GetOr(0)
  }

  /** `t.price or 0`. */
  function PriceOrZero(p: Option<int>): int {
    p.GetOr(0)
  }

  datatype Ticket = Ticket(
    id: int,
    code: string,
    status: TicketStatus,
    orderId: int,
    ticketTypeId: int,
    eventId: int,
    qrData: Option<string>,
    issuedAt: Option<int>,
    useAt: Option<int>)

  /** `if t.qr_data:` — a missing and an empty token are both "no token yet". */
  predicate HasQr(t: Ticket) {
    t.qrData.Some? && t.qrData.value != ""
  }

  /** Why a payment request is refused before anything is written: no such order, or a client amount that differs from it. */
  datatype Denial = OrderNotFound | AmountMismatch

  /** The correlation id `"{order.id}-{pay.id}"` both gateways carry and echo back. */
  function CorrelationId(orderId: int, paymentId: int): string {
    IntToString(orderId) + "-" + IntToString(paymentId)
  }
}
