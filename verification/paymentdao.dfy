/**
 * The payment ledger: `create_payment` and `update_payment_status`. The
 * table is a map from payment id to record; ids come from an auto-increment
 * counter.
 */
module PaymentDao {
  import opened Wrappers
  import opened Models

  datatype Ledger = Ledger(rows: map<int, Payment>, nextId: int) {
    /** Every stored id was handed out by the counter, so the next one is fresh. */
    ghost predicate Valid() {
      nextId >= 1 && forall id :: id in rows ==> 1 <= id < nextId
    }
  }

  /** Payment `p` is stored, order `o` exists, and the payment belongs to that order. */
  predicate PaysFor(orders: map<int, Order>, l: Ledger, o: int, p: int) {
    p in l.rows && o in orders && l.rows[p].orderId == o
  }

  const EmptyLedger := Ledger(map[], 1)

  /** The provisional gateway reference a new payment carries. */
  const InitialTransactionId := "init"

  /**
   * `create_payment(order_id, amount, method)`: a new PENDING payment under a
   * fresh id. Returns the new ledger and the id.
   */
  function CreatePayment(l: Ledger, orderId: int, amount: int, paidWith: PaymentMethod): (r: (Ledger, int))
    requires l.Valid()
    ensures r.0.Valid()
    ensures r.1 !in l.rows && r.0.rows.Keys == l.rows.Keys + {r.1}
    ensures r.0.rows[r.1].status == Pending && r.0.rows[r.1].transactionId == InitialTransactionId
    ensures r.0.rows[r.1].orderId == orderId && r.0.rows[r.1].amount == amount && r.0.rows[r.1].paidWith == paidWith
    ensures forall id :: id in l.rows ==> r.0.rows[id] == l.rows[id]
  {
    var id := l.nextId;
    (Ledger(l.rows[id := Payment(orderId, amount, paidWith, Pending, InitialTransactionId)], id + 1), id)
  }

  /** `if transaction_id:` — `None` and `""` both keep the old reference. */
  predicate HasText(t: Option<string>) {
    t.Some? && t.value != ""
  }

  /**
   * `update_payment_status(id, status, transaction_id)`: unknown ids are
   * ignored; otherwise the status is overwritten whatever it was, and the
   * transaction id only when a non-empty one is given.
   */
  function UpdatePaymentStatus(l: Ledger, id: int, status: PaymentStatus, txn: Option<string>): (r: Ledger)
    ensures id !in l.rows ==> r == l
    ensures r.nextId == l.nextId && r.rows.Keys == l.rows.Keys
    ensures id in l.rows ==> r.rows[id].status == status
    ensures id in l.rows && HasText(txn) ==> r.rows[id].transactionId == txn.value
    ensures id in l.rows && !HasText(txn) ==> r.rows[id].transactionId == l.rows[id].transactionId
    ensures id in l.rows ==>
      r.rows[id].orderId == l.rows[id].orderId && r.rows[id].amount == l.rows[id].amount
      && r.rows[id].paidWith == l.rows[id].paidWith
    ensures forall j :: j in l.rows && j != id ==> r.rows[j] == l.rows[j]
  {
    if id !in l.rows then l
    else
      var p := l.rows[id];
      var p1 := p.(status := status);
      var p2 := if HasText(txn) then p1.(transactionId := txn.value) else p1;
      l.(rows := l.rows[id := p2])
  }

  /** The counter never hands out an id that is already used. */
  lemma UpdatePreservesValid(l: Ledger, id: int, status: PaymentStatus, txn: Option<string>)
    requires l.Valid()
    ensures UpdatePaymentStatus(l, id, status, txn).Valid()
  {
  }

  /** Applying the same update twice gives the same ledger as applying it once. */
  lemma UpdateIdempotent(l: Ledger, id: int, status: PaymentStatus, txn: Option<string>)
    ensures var once := UpdatePaymentStatus(l, id, status, txn);
      UpdatePaymentStatus(once, id, status, txn) == once
  {
    var once := UpdatePaymentStatus(l, id, status, txn);
    var twice := UpdatePaymentStatus(once, id, status, txn);
    if id in l.rows {
      assert twice.rows[id] == once.rows[id];
      assert twice.rows == once.rows;
    }
  }

  /**
   * There is no transition guard: whatever status a payment holds, a later
   * update replaces it, so the last writer wins, even out of SUCCESS or FAILED.
   */
  lemma LastUpdateWins(l: Ledger, id: int, s1: PaymentStatus, t1: Option<string>, s2: PaymentStatus, t2: Option<string>)
    requires id in l.rows
    ensures var r := UpdatePaymentStatus(UpdatePaymentStatus(l, id, s1, t1), id, s2, t2);
      && r.rows[id].status == s2
      && r.rows[id].transactionId == (if HasText(t2) then t2.value else if HasText(t1) then t1.value else l.rows[id].transactionId)
  {
  }
}
