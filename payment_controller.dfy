/**
 * The payment handlers: `createPayment`, which reconciles a new payment with its invoice,
 * `getPayments` and `getPaymentById` with their parent scoping, and `updatePayment`.
 */
module PaymentController {
  import opened Wrappers
  import opened Constants
  import opened Seqs
  import opened Sorting
  import Numbering
  import opened UserModel
  import opened PaymentModel
  import opened InvoiceModel
  import opened Auth

  /** The request body of `POST /api/payments`; absent fields are None or "". */
  datatype PaymentBody = PaymentBody(
    invoice: Option<nat>,
    amount: Option<int>,
    paymentMethod: Option<string>,
    transactionDate: Option<int>,
    status: Option<string>,
    paymentNumber: string,
    receiptNumber: string)

  /**
   * The document `Payment.create` builds from `...req.body` with `student`, `parent` and
   * `receivedBy` overwritten; the casts and required checks fail with 500. The amount bound
   * and the numbers are left to the save.
   */
  function Draft(body: PaymentBody, inv: Invoice, id: nat, caller: User, now: int): (r: Result<Payment>)
    ensures r.Ok? <==> (body.amount.Some? && body.paymentMethod.Some? &&
      ParsePaymentMethod(body.paymentMethod.value).Some? && StatusOrDefault(body.status).Some?)
    ensures r.Err? ==> r.error.status == ServerError
    ensures r.Ok? ==> r.value.id == id && r.value.invoice == inv.id
    ensures r.Ok? ==> r.value.student == inv.student && r.value.parent == inv.parent
    ensures r.Ok? ==> r.value.receivedBy == Some(caller.id)
    ensures r.Ok? ==> r.value.amount == body.amount.value
    ensures r.Ok? ==> r.value.transactionDate == body.transactionDate.GetOr(now)
    ensures r.Ok? ==> PaymentMethodName(r.value.paymentMethod) == body.paymentMethod.value
    ensures r.Ok? && body.status.None? ==> r.value.status == Completed
    ensures r.Ok? && body.status.Some? ==> PaymentStatusName(r.value.status) == body.status.value
    ensures r.Ok? ==> r.value.paymentNumber == body.paymentNumber && r.value.receiptNumber == body.receiptNumber
  {
    if body.amount.None? then Fail(ServerError, "Payment amount is required")
    else if body.paymentMethod.None? then Fail(ServerError, "Payment method is required")
    else
      match ParsePaymentMethod(body.paymentMethod.value)
      case None => Fail(ServerError, "Payment validation failed: paymentMethod")
      case Some(payMethod) =>
        match StatusOrDefault(body.status)
        case None => Fail(ServerError, "Payment validation failed: status")
        case Some(status) =>
          Ok(Payment(id, body.paymentNumber, inv.id, inv.student, inv.parent, body.amount.value, payMethod,
            body.transactionDate.GetOr(now), body.receiptNumber, status, Some(caller.id), now))
  }

  /** The status assignment after a payment: `paid`, else `partially_paid`, else unchanged. */
  function StatusAfterPayment(current: InvoiceStatus, newTotalPaid: int, total: int): InvoiceStatus {
    if newTotalPaid >= total then Paid
    else if newTotalPaid > 0 then PartiallyPaid
    else current
  }

  /** What a handler answers, and the two collections after it. */
  datatype Recorded = Recorded(result: Result<Payment>, invoices: seq<Invoice>, payments: seq<Payment>)

  function ExceedsDue(amountDue: int): string {
    "Payment amount exceeds amount due (" + Numbering.IntText(amountDue) + ")"
  }

  /** `Invoice.findById(invoiceId)`; an absent id finds nothing. */
  function TargetInvoice(invoices: seq<Invoice>, body: PaymentBody): (r: Option<nat>)
    ensures r.Some? ==> r.value < |invoices| && body.invoice == Some(invoices[r.value].id)
    ensures r.None? <==> body.invoice.None? || KeyAbsent(invoices, InvoiceId, body.invoice.value)
  {
    if body.invoice.None? then None else FindInvoice(invoices, body.invoice.value)
  }

  /** `Payment.create`: the document, then the save with its numbers (validators give 500). */
  function NewPayment(body: PaymentBody, inv: Invoice, payments: seq<Payment>, caller: User, now: int, year: nat): (r: Result<Payment>)
    ensures r.Err? ==> r.error.status == ServerError
    ensures r.Ok? ==> PaymentValid(r.value) && r.value.id == |payments| && r.value.invoice == inv.id
    ensures r.Ok? ==> r.value.student == inv.student && r.value.parent == inv.parent && r.value.receivedBy == Some(caller.id)
    ensures r.Ok? ==> body.amount == Some(r.value.amount)
  {
    match Draft(body, inv, |payments|, caller, now)
    case Err(e) => Err(e)
    case Ok(draft) => SaveNumbered(draft, |payments|, year)
  }

  /**
   * The end of `createPayment` once the payment is built: the unique indexes (500), the
   * insert, and the invoice status from `totalPaid + amount`. A failed `invoice.save()`
   * comes after the payment is stored.
   */
  function Reconcile(invoices: seq<Invoice>, payments: seq<Payment>, k: nat, p: Payment): Recorded
    requires k < |invoices|
  {
    if !KeyAbsent(payments, PaymentNumber, p.paymentNumber) || !KeyAbsent(payments, ReceiptNumber, p.receiptNumber) then
      Recorded(Fail(ServerError, "Duplicate key"), invoices, payments)
    else
      var inv := invoices[k];
      var updated := inv.(status := StatusAfterPayment(inv.status, AmountPaid(payments, inv.id) + p.amount, inv.total));
      if InvoiceValid(updated) then Recorded(Ok(p), invoices[k := updated], payments + [p])
      else Recorded(Fail(ServerError, "Invoice validation failed"), invoices, payments + [p])
  }

  /**
   * `createPayment`: the invoice lookup (404), the amount-due check against the completed
   * payments (400), the new payment, and the reconciliation.
   */
  function CreatePayment(invoices: seq<Invoice>, payments: seq<Payment>, caller: User, body: PaymentBody,
    now: int, year: nat): Recorded
  {
    match TargetInvoice(invoices, body)
    case None => Recorded(Fail(NotFound, "Invoice not found"), invoices, payments)
    case Some(k) =>
      var amountDue := AmountDue(invoices[k], payments);
      if body.amount.Some? && body.amount.value > amountDue then
        Recorded(Fail(BadRequest, ExceedsDue(amountDue)), invoices, payments)
      else
        match NewPayment(body, invoices[k], payments, caller, now, year)
        case Err(e) => Recorded(Err(e), invoices, payments)
        case Ok(p) => Reconcile(invoices, payments, k, p)
  }

  /**
   * `Payment.create` in the order the schema's hooks run as written: `Draft`, then
   * `SaveAsWritten`, whose validators see the body's numbers before the hook could fill them.
   */
  function NewPaymentAsWritten(body: PaymentBody, inv: Invoice, payments: seq<Payment>, caller: User, now: int, year: nat): (r: Result<Payment>)
    ensures (body.paymentNumber == "" || body.receiptNumber == "") ==> r.Err? && r.error.status == ServerError
    ensures (body.paymentNumber != "" && body.receiptNumber != "") ==> r == NewPayment(body, inv, payments, caller, now, year)
  {
    match Draft(body, inv, |payments|, caller, now)
    case Err(e) => Err(e)
    case Ok(draft) => SaveAsWritten(draft, |payments|, year)
  }

  /** `createPayment` as written: `CreatePayment` with the save of `NewPaymentAsWritten`. */
  function CreatePaymentAsWritten(invoices: seq<Invoice>, payments: seq<Payment>, caller: User, body: PaymentBody,
    now: int, year: nat): Recorded
  {
    match TargetInvoice(invoices, body)
    case None => Recorded(Fail(NotFound, "Invoice not found"), invoices, payments)
    case Some(k) =>
      var amountDue := AmountDue(invoices[k], payments);
      if body.amount.Some? && body.amount.value > amountDue then
        Recorded(Fail(BadRequest, ExceedsDue(amountDue)), invoices, payments)
      else
        match NewPaymentAsWritten(body, invoices[k], payments, caller, now, year)
        case Err(e) => Recorded(Err(e), invoices, payments)
        case Ok(p) => Reconcile(invoices, payments, k, p)
  }

  /** As written, a body without either number is never stored: the answer is an error and both collections stay. */
  lemma CreatePaymentAsWrittenRefusesUnnumbered(invoices: seq<Invoice>, payments: seq<Payment>, caller: User,
    body: PaymentBody, now: int, year: nat)
    requires body.paymentNumber == "" || body.receiptNumber == ""
    ensures var o := CreatePaymentAsWritten(invoices, payments, caller, body, now, year);
      o.result.Err? && o.invoices == invoices && o.payments == payments
  {
  }

  /** A body that carries both numbers is handled the same by the code as written and by the corrected save. */
  lemma CreatePaymentAsWrittenAgrees(invoices: seq<Invoice>, payments: seq<Payment>, caller: User,
    body: PaymentBody, now: int, year: nat)
    requires body.paymentNumber != "" && body.receiptNumber != ""
    ensures CreatePaymentAsWritten(invoices, payments, caller, body, now, year) ==
      CreatePayment(invoices, payments, caller, body, now, year)
  {
  }

  /** The corrected save stores an unnumbered body that the code as written refuses. */
  lemma UnnumberedBodyDiffers(caller: User, now: int, year: nat)
    ensures var body := PaymentBody(Some(0), Some(40), Some("cash"), None, None, "", "");
      CreatePayment([SampleInvoice(InvoicePending, now)], [], caller, body, now, year).result.Ok? &&
      CreatePaymentAsWritten([SampleInvoice(InvoicePending, now)], [], caller, body, now, year).result.Err?
  {
    var inv := SampleInvoice(InvoicePending, now);
    assert FindInvoice([inv], 0) == Some(0);
  }

  /** An unknown (or absent) invoice id is answered with 404, and nothing is stored. */
  lemma CreatePaymentUnknownInvoice(invoices: seq<Invoice>, payments: seq<Payment>, caller: User,
    body: PaymentBody, now: int, year: nat)
    requires body.invoice.None? || KeyAbsent(invoices, InvoiceId, body.invoice.value)
    ensures CreatePayment(invoices, payments, caller, body, now, year) ==
      Recorded(Fail(NotFound, "Invoice not found"), invoices, payments)
  {
  }

  /** With unique ids, looking up a stored invoice's id finds that invoice. */
  lemma FoundInvoice(invoices: seq<Invoice>, k: nat)
    requires UniqueBy(invoices, InvoiceId) && k < |invoices|
    ensures FindInvoice(invoices, invoices[k].id) == Some(k)
  {
    match FindInvoice(invoices, invoices[k].id)
    case None =>
      assert false;
    case Some(j) =>
      UniqueByIndex(invoices, InvoiceId, j, k);
  }

  /** An amount above `total - paid` is answered with 400, and nothing is stored. */
  lemma CreatePaymentOverDue(invoices: seq<Invoice>, payments: seq<Payment>, caller: User,
    body: PaymentBody, now: int, year: nat, k: nat)
    requires UniqueBy(invoices, InvoiceId) && k < |invoices| && body.invoice == Some(invoices[k].id)
    requires body.amount.Some? && body.amount.value > AmountDue(invoices[k], payments)
    ensures var o := CreatePayment(invoices, payments, caller, body, now, year);
      o.result == Fail(BadRequest, ExceedsDue(AmountDue(invoices[k], payments))) &&
      o.invoices == invoices && o.payments == payments
  {
    FoundInvoice(invoices, k);
  }

  /**
   * An amount exactly equal to the amount due is accepted: with well-formed fields, unused
   * numbers and a valid invoice the payment is stored and the invoice becomes `paid`.
   */
  lemma CreatePaymentExactDue(invoices: seq<Invoice>, payments: seq<Payment>, caller: User,
    body: PaymentBody, now: int, year: nat, k: nat)
    requires UniqueBy(invoices, InvoiceId) && k < |invoices| && InvoiceValid(invoices[k])
    requires body.invoice == Some(invoices[k].id) && body.amount == Some(AmountDue(invoices[k], payments))
    requires body.amount.value >= 0 && body.paymentMethod == Some("cash") && body.status.None?
    requires body.paymentNumber != "" && KeyAbsent(payments, PaymentNumber, body.paymentNumber)
    requires body.receiptNumber != "" && KeyAbsent(payments, ReceiptNumber, body.receiptNumber)
    ensures var o := CreatePayment(invoices, payments, caller, body, now, year);
      o.result.Ok? && o.payments == payments + [o.result.value] &&
      o.invoices == invoices[k := invoices[k].(status := Paid)]
  {
    FoundInvoice(invoices, k);
    var p := NewPayment(body, invoices[k], payments, caller, now, year);
    assert p.Ok? && p.value.paymentNumber == body.paymentNumber && p.value.receiptNumber == body.receiptNumber;
  }

  /** A reconciliation that succeeds stores the payment and writes only the invoice's status. */
  lemma ReconcileRecords(invoices: seq<Invoice>, payments: seq<Payment>, k: nat, p: Payment)
    requires k < |invoices| && Reconcile(invoices, payments, k, p).result.Ok?
    ensures var o := Reconcile(invoices, payments, k, p);
      o.result == Ok(p) && o.payments == payments + [p] &&
      o.invoices == invoices[k := invoices[k].(status :=
        StatusAfterPayment(invoices[k].status, AmountPaid(payments, invoices[k].id) + p.amount, invoices[k].total))]
  {
  }

  /** Unused numbers and an invoice that still validates: the payment is stored and the status written. */
  lemma ReconcileStored(invoices: seq<Invoice>, payments: seq<Payment>, k: nat, p: Payment)
    requires k < |invoices| && InvoiceValid(invoices[k])
    requires KeyAbsent(payments, PaymentNumber, p.paymentNumber) && KeyAbsent(payments, ReceiptNumber, p.receiptNumber)
    ensures Reconcile(invoices, payments, k, p).result == Ok(p)
  {
    var inv := invoices[k];
    var updated := inv.(status := StatusAfterPayment(inv.status, AmountPaid(payments, inv.id) + p.amount, inv.total));
    assert InvoiceValid(updated);
  }

  /** The one payment a successful `createPayment` stores, and the invoice it was recorded against. */
  lemma CreatePaymentRecords(invoices: seq<Invoice>, payments: seq<Payment>, caller: User,
    body: PaymentBody, now: int, year: nat)
    requires CreatePayment(invoices, payments, caller, body, now, year).result.Ok?
    ensures TargetInvoice(invoices, body).Some?
    ensures var o := CreatePayment(invoices, payments, caller, body, now, year);
      var p := o.result.value;
      var k := TargetInvoice(invoices, body).value;
      o.payments == payments + [p] && p.id == |payments| && p.invoice == invoices[k].id &&
      p.student == invoices[k].student && p.parent == invoices[k].parent && p.receivedBy == Some(caller.id) &&
      0 <= p.amount <= AmountDue(invoices[k], payments) &&
      o.invoices == invoices[k := invoices[k].(status :=
        StatusAfterPayment(invoices[k].status, AmountPaid(payments, invoices[k].id) + p.amount, invoices[k].total))]
  {
    var k := TargetInvoice(invoices, body).value;
    var p := NewPayment(body, invoices[k], payments, caller, now, year).value;
    assert p.amount <= AmountDue(invoices[k], payments) &&
      CreatePayment(invoices, payments, caller, body, now, year) == Reconcile(invoices, payments, k, p) by {
      CreatePaymentReconciles(invoices, payments, caller, body, now, year);
    }
    ReconcileRecords(invoices, payments, k, p);
  }

  /** The three status outcomes of a recorded payment, read off the new paid total. */
  lemma StatusAfterPaymentCases(current: InvoiceStatus, newTotalPaid: int, total: int)
    ensures newTotalPaid >= total ==> StatusAfterPayment(current, newTotalPaid, total) == Paid
    ensures 0 < newTotalPaid < total ==> StatusAfterPayment(current, newTotalPaid, total) == PartiallyPaid
    ensures newTotalPaid <= 0 && newTotalPaid < total ==> StatusAfterPayment(current, newTotalPaid, total) == current
  {
  }

  /** Appending a payment within invoice `k`'s amount due keeps every invoice within its total. */
  lemma AppendWithinDue(invoices: seq<Invoice>, payments: seq<Payment>, k: nat, p: Payment)
    requires UniqueBy(invoices, InvoiceId) && NotOverpaid(invoices, payments)
    requires k < |invoices| && p.invoice == invoices[k].id && p.amount <= AmountDue(invoices[k], payments)
    ensures NotOverpaid(invoices, payments + [p])
  {
    forall i | 0 <= i < |invoices| ensures AmountPaid(payments + [p], invoices[i].id) <= invoices[i].total {
      AmountPaidSnoc(payments, p, invoices[i].id);
      if i != k && p.invoice == invoices[i].id {
        UniqueByIndex(invoices, InvoiceId, i, k);
      }
    }
  }

  /** A status change keeps ids and totals, so the invariant carries over. */
  lemma StatusChangeKeepsNotOverpaid(invoices: seq<Invoice>, payments: seq<Payment>, k: nat, s: InvoiceStatus)
    requires k < |invoices| && NotOverpaid(invoices, payments)
    ensures NotOverpaid(invoices[k := invoices[k].(status := s)], payments)
  {
    var after := invoices[k := invoices[k].(status := s)];
    forall i | 0 <= i < |after| ensures AmountPaid(payments, after[i].id) <= after[i].total {
      assert after[i].id == invoices[i].id && after[i].total == invoices[i].total;
    }
  }

  /** The reconciliation keeps the invariant for a payment within the amount due. */
  lemma ReconcileKeepsNotOverpaid(invoices: seq<Invoice>, payments: seq<Payment>, k: nat, p: Payment)
    requires UniqueBy(invoices, InvoiceId) && NotOverpaid(invoices, payments)
    requires k < |invoices| && p.invoice == invoices[k].id && p.amount <= AmountDue(invoices[k], payments)
    ensures var o := Reconcile(invoices, payments, k, p);
      NotOverpaid(o.invoices, o.payments)
  {
    if KeyAbsent(payments, PaymentNumber, p.paymentNumber) && KeyAbsent(payments, ReceiptNumber, p.receiptNumber) {
      AppendWithinDue(invoices, payments, k, p);
      var inv := invoices[k];
      var s := StatusAfterPayment(inv.status, AmountPaid(payments, inv.id) + p.amount, inv.total);
      StatusChangeKeepsNotOverpaid(invoices, payments + [p], k, s);
    }
  }

  /**
   * The ledger invariant survives every outcome of `createPayment`: the amount-due check
   * keeps a completed payment within the total, and other payments do not count.
   */
  lemma CreatePaymentKeepsNotOverpaid(invoices: seq<Invoice>, payments: seq<Payment>, caller: User,
    body: PaymentBody, now: int, year: nat)
    requires UniqueBy(invoices, InvoiceId) && NotOverpaid(invoices, payments)
    ensures var o := CreatePayment(invoices, payments, caller, body, now, year);
      NotOverpaid(o.invoices, o.payments)
  {
    var o := CreatePayment(invoices, payments, caller, body, now, year);
    CreatePaymentCases(invoices, payments, caller, body, now, year);
    if !(o.invoices == invoices && o.payments == payments) {
      var k := TargetInvoice(invoices, body).value;
      var p := NewPayment(body, invoices[k], payments, caller, now, year).value;
      ReconcileKeepsNotOverpaid(invoices, payments, k, p);
    }
  }

  /** `createPayment` either stores nothing or is the reconciliation of a payment within the amount due. */
  lemma CreatePaymentCases(invoices: seq<Invoice>, payments: seq<Payment>, caller: User,
    body: PaymentBody, now: int, year: nat)
    ensures var o := CreatePayment(invoices, payments, caller, body, now, year);
      (o.invoices == invoices && o.payments == payments) ||
      (TargetInvoice(invoices, body).Some? &&
       var k := TargetInvoice(invoices, body).value;
       var r := NewPayment(body, invoices[k], payments, caller, now, year);
       r.Ok? && r.value.invoice == invoices[k].id && r.value.amount <= AmountDue(invoices[k], payments) &&
       o == Reconcile(invoices, payments, k, r.value))
  {
  }

  /** A reconciliation changes at most one invoice's status and appends at most the one payment. */
  lemma ReconcileShape(invoices: seq<Invoice>, payments: seq<Payment>, k: nat, p: Payment)
    requires k < |invoices|
    ensures var o := Reconcile(invoices, payments, k, p);
      |o.invoices| == |invoices| && (o.payments == payments || o.payments == payments + [p]) &&
      forall i :: 0 <= i < |invoices| ==> o.invoices[i] == invoices[i].(status := o.invoices[i].status)
  {
  }

  /**
   * Whatever its outcome, `createPayment` changes invoice statuses only, and either stores
   * nothing or appends one payment that refers to a stored invoice.
   */
  lemma CreatePaymentShape(invoices: seq<Invoice>, payments: seq<Payment>, caller: User,
    body: PaymentBody, now: int, year: nat)
    ensures var o := CreatePayment(invoices, payments, caller, body, now, year);
      |o.invoices| == |invoices| &&
      (forall i :: 0 <= i < |invoices| ==> o.invoices[i] == invoices[i].(status := o.invoices[i].status)) &&
      (o.payments == payments || (|o.payments| == |payments| + 1 && o.payments[..|payments|] == payments &&
        !KeyAbsent(invoices, InvoiceId, o.payments[|payments|].invoice)))
  {
    match TargetInvoice(invoices, body)
    case None =>
    case Some(k) =>
      if !(body.amount.Some? && body.amount.value > AmountDue(invoices[k], payments)) {
        match NewPayment(body, invoices[k], payments, caller, now, year)
        case Err(_) =>
        case Ok(p) =>
          ReconcileShape(invoices, payments, k, p);
          assert (payments + [p])[..|payments|] == payments;
      }
  }

  /** The reconciliation of a completed payment leaves a status that matches the balance. */
  lemma ReconcileStatusMatchesBalance(invoices: seq<Invoice>, payments: seq<Payment>, k: nat, p: Payment)
    requires NotOverpaid(invoices, payments)
    requires k < |invoices| && p.invoice == invoices[k].id && p.amount <= AmountDue(invoices[k], payments)
    requires p.status == Completed && Reconcile(invoices, payments, k, p).result.Ok?
    ensures var o := Reconcile(invoices, payments, k, p);
      k < |o.invoices| && o.invoices[k].total == invoices[k].total &&
      (AmountDue(o.invoices[k], o.payments) == 0 ==> o.invoices[k].status == Paid) &&
      (0 < AmountDue(o.invoices[k], o.payments) < o.invoices[k].total ==> o.invoices[k].status == PartiallyPaid) &&
      (0 < AmountDue(o.invoices[k], o.payments) == o.invoices[k].total ==> o.invoices[k].status == invoices[k].status)
  {
    ReconcileRecords(invoices, payments, k, p);
    var inv := invoices[k];
    AmountPaidSnoc(payments, p, inv.id);
    var newTotalPaid := AmountPaid(payments, inv.id) + p.amount;
    StatusAfterPaymentCases(inv.status, newTotalPaid, inv.total);
  }

  /**
   * With the invariant in place and a completed payment, the new status follows the new
   * balance: `paid` when nothing is left to pay, `partially_paid` when part of it is, and
   * unchanged when a zero payment leaves everything due.
   */
  lemma CompletedPaymentStatusMatchesBalance(invoices: seq<Invoice>, payments: seq<Payment>, caller: User,
    body: PaymentBody, now: int, year: nat)
    requires NotOverpaid(invoices, payments)
    requires CreatePayment(invoices, payments, caller, body, now, year).result.Ok?
    requires CreatePayment(invoices, payments, caller, body, now, year).result.value.status == Completed
    ensures var o := CreatePayment(invoices, payments, caller, body, now, year);
      var k := TargetInvoice(invoices, body).value;
      TargetInvoice(invoices, body).Some? && k < |o.invoices| &&
      (AmountDue(o.invoices[k], o.payments) == 0 ==> o.invoices[k].status == Paid) &&
      (0 < AmountDue(o.invoices[k], o.payments) < o.invoices[k].total ==> o.invoices[k].status == PartiallyPaid) &&
      (0 < AmountDue(o.invoices[k], o.payments) == o.invoices[k].total ==> o.invoices[k].status == invoices[k].status)
  {
    var o := CreatePayment(invoices, payments, caller, body, now, year);
    var k := TargetInvoice(invoices, body).value;
    var p := NewPayment(body, invoices[k], payments, caller, now, year).value;
    assert p.invoice == invoices[k].id && p.amount <= AmountDue(invoices[k], payments) &&
      o == Reconcile(invoices, payments, k, p) && o.result == Ok(p) by {
      CreatePaymentReconciles(invoices, payments, caller, body, now, year);
    }
    ReconcileStatusMatchesBalance(invoices, payments, k, p);
  }

  /** A successful `createPayment` is the reconciliation of the payment it built, within the amount due. */
  lemma CreatePaymentReconciles(invoices: seq<Invoice>, payments: seq<Payment>, caller: User,
    body: PaymentBody, now: int, year: nat)
    requires CreatePayment(invoices, payments, caller, body, now, year).result.Ok?
    ensures TargetInvoice(invoices, body).Some?
    ensures var k := TargetInvoice(invoices, body).value;
      var r := NewPayment(body, invoices[k], payments, caller, now, year);
      r.Ok? && r.value.invoice == invoices[k].id && r.value.amount <= AmountDue(invoices[k], payments) &&
      CreatePayment(invoices, payments, caller, body, now, year) == Reconcile(invoices, payments, k, r.value) &&
      CreatePayment(invoices, payments, caller, body, now, year).result == Ok(r.value)
  {
  }

  /** A one-invoice ledger for the two examples below: 100 due, nothing paid yet. */
  function SampleInvoice(status: InvoiceStatus, now: int): Invoice {
    Invoice(0, "INV-2026-00001", 0, 0, [LineItem(None, "Tuition", 100)], 100, 0, 0, 100,
      now, status, "2026-2027", "", now)
  }

  /**
   * `newTotalPaid` adds the amount whatever the new payment's status: a `pending` payment of
   * the whole amount marks the invoice `paid` while all of it is still due.
   */
  lemma PendingPaymentMarksPaid(caller: User, now: int, year: nat)
    ensures var body := PaymentBody(Some(0), Some(100), Some("cash"), None, Some("pending"), "P1", "R1");
      var o := CreatePayment([SampleInvoice(InvoicePending, now)], [], caller, body, now, year);
      o.result.Ok? && o.invoices[0].status == Paid && AmountDue(o.invoices[0], o.payments) == 100
  {
    var inv := SampleInvoice(InvoicePending, now);
    assert FindInvoice([inv], 0) == Some(0);
    var body := PaymentBody(Some(0), Some(100), Some("cash"), None, Some("pending"), "P1", "R1");
    var o := CreatePayment([inv], [], caller, body, now, year);
    assert o.payments == [o.result.value];
    assert Filter(o.payments, CompletedFor(0)) == [];
  }

  /** A `cancelled` invoice is not refused: a part payment moves it to `partially_paid`. */
  lemma CancelledInvoiceTakesPayment(caller: User, now: int, year: nat)
    ensures var body := PaymentBody(Some(0), Some(40), Some("cash"), None, None, "P1", "R1");
      var o := CreatePayment([SampleInvoice(Cancelled, now)], [], caller, body, now, year);
      o.result.Ok? && o.invoices[0].status == PartiallyPaid
  {
    var inv := SampleInvoice(Cancelled, now);
    assert FindInvoice([inv], 0) == Some(0);
  }

  /** The pre-save hook on a fresh document, then the validators: `SaveNumbered`. */
  method NumberPayment(draft: Payment, count: nat, year: nat) returns (r: Result<Payment>)
    ensures r == SaveNumbered(draft, count, year)
  {
    var doc := new PaymentDocument(draft.paymentNumber, draft.receiptNumber);
    doc.PreSave(count, year);
    var p := draft.(paymentNumber := doc.paymentNumber, receiptNumber := doc.receiptNumber);
    if !PaymentValid(p) {
      return Fail(ServerError, "Payment validation failed");
    }
    r := Ok(p);
  }

  /** The insert and the `invoice.save()` of `Reconcile`, against the two collections. */
  method Settle(invoiceStore: InvoiceStore, paymentStore: PaymentStore, k: nat, p: Payment) returns (r: Result<Payment>)
    requires invoiceStore.Valid() && paymentStore.Valid() && k < |invoiceStore.docs|
    requires p.id == |paymentStore.docs| && PaymentValid(p)
    modifies invoiceStore, paymentStore
    ensures invoiceStore.Valid() && paymentStore.Valid() && invoiceStore.nextId == old(invoiceStore.nextId)
    ensures var o := Reconcile(old(invoiceStore.docs), old(paymentStore.docs), k, p);
      r == o.result && invoiceStore.docs == o.invoices && paymentStore.docs == o.payments
  {
    var inv := invoiceStore.docs[k];
    var totalPaid := AmountPaid(paymentStore.docs, inv.id);
    ghost var invoices, payments := invoiceStore.docs, paymentStore.docs;
    ReconcileOutcome(invoices, payments, k, p);
    var stored := paymentStore.Insert(p);
    if !stored {
      return Fail(ServerError, "Duplicate key");
    }
    var updated := inv.(status := StatusAfterPayment(inv.status, totalPaid + p.amount, inv.total));
    invoiceStore.Save(k, updated);
    r := Ok(p);
  }

  /** For a stored, valid invoice, `Reconcile` fails only on a used payment or receipt number. */
  lemma ReconcileOutcome(invoices: seq<Invoice>, payments: seq<Payment>, k: nat, p: Payment)
    requires k < |invoices| && InvoiceValid(invoices[k])
    ensures var inv := invoices[k];
      var updated := inv.(status := StatusAfterPayment(inv.status, AmountPaid(payments, inv.id) + p.amount, inv.total));
      InvoiceValid(updated) &&
      Reconcile(invoices, payments, k, p) ==
        if KeyAbsent(payments, PaymentNumber, p.paymentNumber) && KeyAbsent(payments, ReceiptNumber, p.receiptNumber)
        then Recorded(Ok(p), invoices[k := updated], payments + [p])
        else Recorded(Fail(ServerError, "Duplicate key"), invoices, payments)
  {
    var inv := invoices[k];
    var updated := inv.(status := StatusAfterPayment(inv.status, AmountPaid(payments, inv.id) + p.amount, inv.total));
    assert InvoiceValid(updated);
  }

  /** `createPayment` against the two collections. */
  method RecordPayment(invoiceStore: InvoiceStore, paymentStore: PaymentStore, caller: User,
    body: PaymentBody, now: int, year: nat) returns (r: Result<Payment>)
    requires invoiceStore.Valid() && paymentStore.Valid()
    modifies invoiceStore, paymentStore
    ensures invoiceStore.Valid() && paymentStore.Valid() && invoiceStore.nextId == old(invoiceStore.nextId)
    ensures var o := CreatePayment(old(invoiceStore.docs), old(paymentStore.docs), caller, body, now, year);
      r == o.result && invoiceStore.docs == o.invoices && paymentStore.docs == o.payments
  {
    var found := TargetInvoice(invoiceStore.docs, body);
    if found.None? {
      return Fail(NotFound, "Invoice not found");
    }
    var k := found.value;
    var inv := invoiceStore.docs[k];
    var amountDue := AmountDue(inv, paymentStore.docs);
    if body.amount.Some? && body.amount.value > amountDue {
      return Fail(BadRequest, ExceedsDue(amountDue));
    }
    var count := |paymentStore.docs|;
    var draft := Draft(body, inv, count, caller, now);
    if draft.Err? {
      return Err(draft.error);
    }
    var p := NumberPayment(draft.value, count, year);
    if p.Err? {
      return Err(p.error);
    }
    r := Settle(invoiceStore, paymentStore, k, p.value);
  }

  // ---------------------------------------------------------------------------------------
  // Listing and reading.

  /** The query string of `GET /api/payments`; an empty status means none was given. */
  datatype PaymentQuery = PaymentQuery(
    studentId: Option<nat>,
    invoiceId: Option<nat>,
    status: string,
    startDate: Option<int>,
    endDate: Option<int>,
    page: Positive,
    limit: Positive)

  /** The filter `getPayments` builds: the given fields, the caller's own id for a parent, and the date window when both ends are given. */
  function PaymentFilter(q: PaymentQuery, caller: User): Payment -> bool {
    (p: Payment) =>
      (q.studentId.None? || p.student == q.studentId.value) &&
      (q.invoiceId.None? || p.invoice == q.invoiceId.value) &&
      (q.status == "" || PaymentStatusName(p.status) == q.status) &&
      (caller.role != Parent || p.parent == caller.id) &&
      (q.startDate.None? || q.endDate.None? || q.startDate.value <= p.transactionDate <= q.endDate.value)
  }

  function TransactionDate(p: Payment): int { p.transactionDate }

  /** `getPayments`: the matching payments, newest first, one page of them, and the totals. */
  function GetPayments(payments: seq<Payment>, q: PaymentQuery, caller: User): Paged<Payment> {
    ListQuery(payments, PaymentFilter(q, caller), Descending(TransactionDate), q.page, q.limit)
  }

  /**
   * Every listed payment is a stored one that matches the query, and a parent caller only
   * ever sees their own payments, whatever the query asks for.
   */
  lemma GetPaymentsScoped(payments: seq<Payment>, q: PaymentQuery, caller: User)
    ensures var r := GetPayments(payments, q, caller);
      |r.data| <= q.limit && r.total == Count(payments, PaymentFilter(q, caller)) &&
      forall x :: x in r.data ==> (x in payments &&
        (q.studentId.None? || x.student == q.studentId.value) &&
        (q.invoiceId.None? || x.invoice == q.invoiceId.value) &&
        (q.status == "" || PaymentStatusName(x.status) == q.status) &&
        (caller.role == Parent ==> x.parent == caller.id) &&
        (q.startDate.Some? && q.endDate.Some? ==> q.startDate.value <= x.transactionDate <= q.endDate.value))
  {
    var r := GetPayments(payments, q, caller);
    forall x | x in r.data
      ensures caller.role == Parent ==> x.parent == caller.id
    {
      assert PaymentFilter(q, caller)(x);
    }
  }

  /** Each page lists payments newest first. */
  lemma GetPaymentsNewestFirst(payments: seq<Payment>, q: PaymentQuery, caller: User)
    ensures SortedBy(GetPayments(payments, q, caller).data, Descending(TransactionDate))
  {
    DescendingTotal(TransactionDate);
    ListQuerySorted(payments, PaymentFilter(q, caller), Descending(TransactionDate), q.page, q.limit);
  }

  /**
   * `getPaymentById`, with `parent` populated from `users`: 404 for an unknown id; for a parent
   * caller, 500 when the payment's parent is no longer stored and 403 for another parent's payment.
   */
  function GetPaymentById(payments: seq<Payment>, users: seq<User>, id: nat, caller: User): (r: Result<Payment>)
    ensures KeyAbsent(payments, PaymentId, id) ==> r == Fail(NotFound, "Payment not found")
    ensures r.Ok? ==> r.value in payments && r.value.id == id && MaySee(caller, r.value.parent)
    ensures r.Ok? && caller.role == Parent ==> !KeyAbsent(users, UserId, r.value.parent)
    ensures !KeyAbsent(payments, PaymentId, id) && r.Err? ==>
      (caller.role == Parent &&
       (r == Fail(Forbidden, "Not authorized to view this payment") || r == Fail(ServerError, NullParentRead)))
    ensures UniqueBy(payments, PaymentId) ==> forall k :: 0 <= k < |payments| && payments[k].id == id ==>
      (r.Ok? <==> (MaySee(caller, payments[k].parent) &&
                   (caller.role == Parent ==> !KeyAbsent(users, UserId, payments[k].parent)))) &&
      (caller.role == Parent && KeyAbsent(users, UserId, payments[k].parent) ==> r == Fail(ServerError, NullParentRead))
  {
    match FindPayment(payments, id)
    case None => Fail(NotFound, "Payment not found")
    case Some(k) =>
      UniqueFind(payments, id, k);
      match OwnerCheck(users, caller, payments[k].parent, "Not authorized to view this payment")
      case Err(e) => Err(e)
      case Ok(_) => Ok(payments[k])
  }

  /** With unique ids, every stored payment carrying `id` is the one the lookup finds. */
  lemma UniqueFind(payments: seq<Payment>, id: nat, k: nat)
    requires k < |payments| && payments[k].id == id
    ensures UniqueBy(payments, PaymentId) ==> forall j :: 0 <= j < |payments| && payments[j].id == id ==> j == k
  {
    if UniqueBy(payments, PaymentId) {
      forall j | 0 <= j < |payments| && payments[j].id == id ensures j == k {
        UniqueByIndex(payments, PaymentId, j, k);
      }
    }
  }

  // ---------------------------------------------------------------------------------------
  // Editing.

  /** The body of `PUT /api/payments/:id`: any stored path of a payment; None means the field was not sent. */
  datatype PaymentPatch = PaymentPatch(
    paymentNumber: Option<string>,
    invoice: Option<nat>,
    student: Option<nat>,
    parent: Option<nat>,
    amount: Option<int>,
    paymentMethod: Option<string>,
    transactionDate: Option<int>,
    receiptNumber: Option<string>,
    status: Option<string>,
    receivedBy: Option<nat>)

  /** The update validators: a number that is sent may not be empty, the amount is `min: 0`, the enums must match. */
  predicate PaymentPatchValid(patch: PaymentPatch) {
    patch.paymentNumber != Some("") && patch.receiptNumber != Some("") &&
    (patch.amount.None? || patch.amount.value >= 0) &&
    (patch.paymentMethod.None? || ParsePaymentMethod(patch.paymentMethod.value).Some?) &&
    (patch.status.None? || ParsePaymentStatus(patch.status.value).Some?)
  }

  /**
   * `findByIdAndUpdate(id, req.body, { runValidators: true })` on one payment: every path the
   * body carries is written, the references and numbers included; only the id and `createdAt` stay.
   */
  function Patched(p: Payment, patch: PaymentPatch): (r: Result<Payment>)
    ensures r.Err? ==> r.error.status == ServerError
    ensures r.Ok? <==> PaymentPatchValid(patch)
    ensures r.Ok? ==> r.value.id == p.id && r.value.createdAt == p.createdAt
    ensures r.Ok? ==> (r.value.invoice == patch.invoice.GetOr(p.invoice) &&
      r.value.student == patch.student.GetOr(p.student) && r.value.parent == patch.parent.GetOr(p.parent))
    ensures r.Ok? ==> (r.value.paymentNumber == patch.paymentNumber.GetOr(p.paymentNumber) &&
      r.value.receiptNumber == patch.receiptNumber.GetOr(p.receiptNumber))
    ensures r.Ok? ==> r.value.amount == patch.amount.GetOr(p.amount)
    ensures r.Ok? ==> r.value.transactionDate == patch.transactionDate.GetOr(p.transactionDate)
    ensures r.Ok? ==> r.value.receivedBy == if patch.receivedBy.Some? then patch.receivedBy else p.receivedBy
    ensures r.Ok? ==> if patch.status.None? then r.value.status == p.status
      else PaymentStatusName(r.value.status) == patch.status.value
    ensures r.Ok? ==> if patch.paymentMethod.None? then r.value.paymentMethod == p.paymentMethod
      else PaymentMethodName(r.value.paymentMethod) == patch.paymentMethod.value
    ensures PaymentValid(p) && r.Ok? ==> PaymentValid(r.value)
  {
    if patch.amount.Some? && patch.amount.value < 0 then Fail(ServerError, "Payment amount cannot be negative")
    else if patch.paymentNumber == Some("") then Fail(ServerError, "Payment number is required")
    else if patch.receiptNumber == Some("") then Fail(ServerError, "Receipt number is required")
    else
      var payMethod := if patch.paymentMethod.None? then Some(p.paymentMethod) else ParsePaymentMethod(patch.paymentMethod.value);
      var status := if patch.status.None? then Some(p.status) else ParsePaymentStatus(patch.status.value);
      if payMethod.None? || status.None? then Fail(ServerError, "Validation failed")
      else Ok(p.(paymentNumber := patch.paymentNumber.GetOr(p.paymentNumber), invoice := patch.invoice.GetOr(p.invoice),
        student := patch.student.GetOr(p.student), parent := patch.parent.GetOr(p.parent),
        amount := patch.amount.GetOr(p.amount), paymentMethod := payMethod.value,
        transactionDate := patch.transactionDate.GetOr(p.transactionDate),
        receiptNumber := patch.receiptNumber.GetOr(p.receiptNumber), status := status.value,
        receivedBy := if patch.receivedBy.Some? then patch.receivedBy else p.receivedBy))
  }

  /**
   * `updatePayment`: 404 for an unknown id, else the validated edit, which the unique indexes
   * refuse when another payment has either number; no invoice is looked at.
   */
  function UpdatePayment(payments: seq<Payment>, id: nat, patch: PaymentPatch): (Result<Payment>, seq<Payment>) {
    match FindPayment(payments, id)
    case None => (Fail(NotFound, "Payment not found"), payments)
    case Some(k) =>
      match Patched(payments[k], patch)
      case Err(e) => (Err(e), payments)
      case Ok(p) =>
        if !KeyFreeExcept(payments, PaymentNumber, k, p.paymentNumber) ||
          !KeyFreeExcept(payments, ReceiptNumber, k, p.receiptNumber)
        then (Fail(ServerError, "Duplicate key"), payments)
        else (Ok(p), payments[k := p])
  }

  /** An edit touches only the one payment, and an unknown id or a failed validator changes nothing. */
  lemma UpdatePaymentChanges(payments: seq<Payment>, id: nat, patch: PaymentPatch)
    ensures var (r, after) := UpdatePayment(payments, id, patch);
      |after| == |payments| &&
      (KeyAbsent(payments, PaymentId, id) ==> r == Fail(NotFound, "Payment not found") && after == payments) &&
      (r.Err? ==> after == payments) &&
      (r.Ok? ==> exists k :: 0 <= k < |payments| && payments[k].id == id && after == payments[k := r.value])
  {
  }

  /**
   * What an edit of the payment found at `k` stores, and when: it succeeds exactly when the
   * update validators pass and no other payment holds the payment number or the receipt number
   * the edited payment ends up with, and then the stored payment is the patched one.
   */
  lemma UpdatePaymentStores(payments: seq<Payment>, id: nat, patch: PaymentPatch, k: nat)
    requires FindPayment(payments, id) == Some(k)
    ensures var (r, after) := UpdatePayment(payments, id, patch);
      (r.Ok? <==> (PaymentPatchValid(patch) &&
        KeyFreeExcept(payments, PaymentNumber, k, patch.paymentNumber.GetOr(payments[k].paymentNumber)) &&
        KeyFreeExcept(payments, ReceiptNumber, k, patch.receiptNumber.GetOr(payments[k].receiptNumber)))) &&
      (r.Ok? ==> r == Patched(payments[k], patch) && after == payments[k := r.value])
  {
  }

  /**
   * No reconciliation runs on an edit: raising a completed payment's amount breaks the
   * ledger invariant, and the invoice keeps its `paid` status.
   */
  lemma UpdatePaymentCanOverpay(now: int)
    ensures NotOverpaid([SampleInvoice(Paid, now)], [SamplePayment(now)])
    ensures UpdatePayment([SamplePayment(now)], 0, PaymentPatch(None, None, None, None, Some(150), None, None, None, None, None)).0.Ok?
    ensures !NotOverpaid([SampleInvoice(Paid, now)],
      UpdatePayment([SamplePayment(now)], 0, PaymentPatch(None, None, None, None, Some(150), None, None, None, None, None)).1)
  {
    var inv := SampleInvoice(Paid, now);
    var pay := SamplePayment(now);
    assert Filter([pay], CompletedFor(0)) == [pay];
    assert SumBy([pay], PaymentAmount) == 100;
    assert FindPayment([pay], 0) == Some(0);
    assert Patched(pay, PaymentPatch(None, None, None, None, Some(150), None, None, None, None, None)).Ok?;
    var after := UpdatePayment([pay], 0, PaymentPatch(None, None, None, None, Some(150), None, None, None, None, None)).1;
    assert after == [pay.(amount := 150)];
    assert Filter(after, CompletedFor(0)) == after;
    assert SumBy(after, PaymentAmount) == 150;
    assert AmountPaid(after, inv.id) == 150;
    assert [inv][0] == inv;
  }

  /**
   * The edit checks no reference: a payment can be moved onto an invoice that does not
   * exist, and the invoice it left keeps its `paid` status with nothing paid against it.
   */
  lemma UpdatePaymentCanRepoint(now: int)
    ensures var after := UpdatePayment([SamplePayment(now)], 0, PaymentPatch(None, Some(7), None, None, None, None, None, None, None, None));
      after.0.Ok? && after.1[0].invoice == 7 && FindInvoice([SampleInvoice(Paid, now)], 7).None? &&
      AmountPaid(after.1, 0) == 0
  {
    var pay := SamplePayment(now);
    var patch := PaymentPatch(None, Some(7), None, None, None, None, None, None, None, None);
    assert FindPayment([pay], 0) == Some(0);
    assert Patched(pay, patch) == Ok(pay.(invoice := 7));
    var after := UpdatePayment([pay], 0, patch).1;
    assert after == [pay.(invoice := 7)];
    assert Filter(after, CompletedFor(0)) == [];
  }

  /** A completed payment of the whole sample invoice. */
  function SamplePayment(now: int): Payment {
    Payment(0, "P1", 0, 0, 0, 100, Cash, now, "R1", Completed, None, now)
  }

  /** `updatePayment` against the payments collection. */
  method EditPayment(paymentStore: PaymentStore, id: nat, patch: PaymentPatch) returns (r: Result<Payment>)
    requires paymentStore.Valid()
    modifies paymentStore
    ensures paymentStore.Valid()
    ensures (r, paymentStore.docs) == UpdatePayment(old(paymentStore.docs), id, patch)
  {
    var found := FindPayment(paymentStore.docs, id);
    if found.None? {
      return Fail(NotFound, "Payment not found");
    }
    var k := found.value;
    r := Patched(paymentStore.docs[k], patch);
    if r.Ok? {
      var ok := paymentStore.Replace(k, r.value);
      if !ok {
        r := Fail(ServerError, "Duplicate key");
      }
    }
  }
}
