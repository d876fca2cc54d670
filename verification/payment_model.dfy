/**
 * The Payment record (app/Models/Payment.php): its fields, the defaults a new
 * row gets, and the status predicates.
 */
module PaymentModel {
  import opened Wrappers

  /** The local payment status vocabulary; every write stores one of these three. */
  datatype PayStatus = Pending | Paid | Failed

  /** The text stored in the `status` column. */
  function StatusName(s: PayStatus): string {
    match s
    case Pending => "pending"
    case Paid => "paid"
    case Failed => "failed"
  }

  /** Laravel's `in:pending,paid,failed` rule, yielding the status it names. */
  function ParseStatus(s: string): (r: Option<PayStatus>)
    ensures r.Some? <==> s == "pending" || s == "paid" || s == "failed"
    ensures r.Some? ==> StatusName(r.value) == s
  {
    if s == "pending" then Some(Pending)
    else if s == "paid" then Some(Paid)
    else if s == "failed" then Some(Failed)
    else None
  }

  /** Every status survives being stored as text and read back. */
  lemma ParseStatusName(st: PayStatus)
    ensures ParseStatus(StatusName(st)) == Some(st)
  {
  }

  /**
   * A payments row. Money is an integer number of rupiah; `paidAt` is a clock
   * reading. `paymentMethod` is nullable because the reconciliation writes the gateway's
   * possibly absent `payment_type` into it.
   */
  datatype Payment = Payment(
    id: nat,
    orderId: nat,
    amount: int,
    paymentMethod: Option<string>,
    status: PayStatus,
    snapToken: Option<string>,
    transactionId: Option<string>,
    paidAt: Option<int>)

  /** The method a row gets when `Payment::create` names none. */
  const DefaultMethod: string := "qris"

  /** `Payment::create` given only an order and an amount: every other column takes its default. */
  function NewPayment(id: nat, orderId: nat, amount: int): (p: Payment)
    ensures p.id == id && p.orderId == orderId && p.amount == amount
    ensures p.paymentMethod == Some("qris")
    ensures IsPending(p)
    ensures p.snapToken.None? && p.transactionId.None? && p.paidAt.None?
  {
    Payment(id, orderId, amount, Some(DefaultMethod), Pending, None, None, None)
  }

  predicate IsPaid(p: Payment) { p.status == Paid }
  predicate IsPending(p: Payment) { p.status == Pending }
  predicate IsFailed(p: Payment) { p.status == Failed }
}
