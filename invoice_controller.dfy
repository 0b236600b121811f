/**
 * The invoice handlers: `createInvoice` and `updateInvoice` with their totals, the
 * `deleteInvoice` guard, `getInvoiceById` with the paid and due amounts, and `getInvoices`
 * with its parent scoping and paging.
 */
module InvoiceController {
  import opened Wrappers
  import opened Constants
  import opened Seqs
  import opened Sorting
  import Numbering
  import opened UserModel
  import opened PaymentModel
  import opened InvoiceModel
  import opened Auth
  import PaymentController

  /** A handler's answer and the invoices collection after it. */
  datatype Outcome<T> = Outcome(result: Result<T>, invoices: seq<Invoice>)

  /** The request body of `POST /api/invoices`; absent fields are None or "". */
  datatype InvoiceBody = InvoiceBody(
    invoiceNumber: string,
    student: Option<nat>,
    parent: Option<nat>,
    items: Option<seq<LineItem>>,
    tax: Option<int>,
    discount: Option<int>,
    dueDate: Option<int>,
    status: Option<string>,
    academicYear: string,
    term: string)

  /** The invoice `status` path: `pending` when none is given, else the enum check. */
  function StatusOrPending(status: Option<string>): (r: Option<InvoiceStatus>)
    ensures status.None? ==> r == Some(InvoicePending)
    ensures status.Some? ==> (r.Some? <==> status.value in {"pending", "paid", "partially_paid", "overdue", "cancelled"})
    ensures r.Some? && status.Some? ==> InvoiceStatusName(r.value) == status.value
  {
    match status
    case None => Some(InvoicePending)
    case Some(s) => ParseInvoiceStatus(s)
  }

  /** The totals `createInvoice` computes: the item sum, then tax added and discount taken off. */
  function InvoiceTotal(items: seq<LineItem>, tax: int, discount: int): int {
    Subtotal(items) + tax - discount
  }

  /**
   * `Invoice.create({...req.body, subtotal, total})`: the pre-validate hook numbers the
   * invoice from `count`, then the validators run; every failure is a 500.
   */
  function BuildInvoice(body: InvoiceBody, items: seq<LineItem>, id: nat, count: nat, year: nat, now: int): (r: Result<Invoice>)
    ensures r.Err? ==> r.error.status == ServerError
    ensures r.Ok? <==> (body.student.Some? && body.parent.Some? && body.dueDate.Some? &&
      StatusOrPending(body.status).Some? && body.academicYear != "" && ItemsValid(items) &&
      Subtotal(items) >= 0 && body.tax.GetOr(0) >= 0 && body.discount.GetOr(0) >= 0 &&
      InvoiceTotal(items, body.tax.GetOr(0), body.discount.GetOr(0)) >= 0)
    ensures r.Ok? ==> InvoiceValid(r.value) && r.value.id == id && r.value.items == items
    ensures r.Ok? ==> r.value.invoiceNumber == InvoiceNumberAfterHook(body.invoiceNumber, count, year)
    ensures r.Ok? ==> r.value.subtotal == Subtotal(items)
    ensures r.Ok? ==> r.value.tax == body.tax.GetOr(0) && r.value.discount == body.discount.GetOr(0)
    ensures r.Ok? ==> r.value.total == r.value.subtotal + r.value.tax - r.value.discount
    ensures r.Ok? ==> Some(r.value.status) == StatusOrPending(body.status)
    ensures r.Ok? ==> Some(r.value.student) == body.student && Some(r.value.parent) == body.parent
  {
    var number := InvoiceNumberAfterHook(body.invoiceNumber, count, year);
    var status := StatusOrPending(body.status);
    if body.student.None? || body.parent.None? || body.dueDate.None? || status.None? then
      Fail(ServerError, "Invoice validation failed")
    else
      var tax := body.tax.GetOr(0);
      var discount := body.discount.GetOr(0);
      var inv := Invoice(id, number, body.student.value, body.parent.value, items, Subtotal(items), tax, discount,
        InvoiceTotal(items, tax, discount), body.dueDate.value, status.value, body.academicYear, body.term, now);
      if InvoiceValid(inv) then Ok(inv) else Fail(ServerError, "Invoice validation failed")
  }

  /**
   * `createInvoice`: a body without `items` fails in the `reduce` (500); the new invoice is
   * numbered from the number of stored invoices, and a number in use fails the unique index.
   */
  function CreateInvoice(invoices: seq<Invoice>, nextId: nat, body: InvoiceBody, now: int, year: nat): (o: Outcome<Invoice>)
    ensures o.result.Err? ==> o.result.error.status == ServerError && o.invoices == invoices
    ensures body.items.None? ==> o.result.Err?
    ensures o.result.Ok? ==> body.items.Some? && BuildInvoice(body, body.items.value, nextId, |invoices|, year, now) == o.result
    ensures o.result.Ok? ==> KeyAbsent(invoices, InvoiceNumber, o.result.value.invoiceNumber)
    ensures o.result.Ok? ==> o.invoices == invoices + [o.result.value]
    ensures body.items.Some? && BuildInvoice(body, body.items.value, nextId, |invoices|, year, now).Ok? &&
      KeyAbsent(invoices, InvoiceNumber, BuildInvoice(body, body.items.value, nextId, |invoices|, year, now).value.invoiceNumber)
      ==> o.result.Ok?
  {
    match body.items
    case None => Outcome(Fail(ServerError, "Cannot read properties of undefined (reading 'reduce')"), invoices)
    case Some(items) =>
      match BuildInvoice(body, items, nextId, |invoices|, year, now)
      case Err(e) => Outcome(Err(e), invoices)
      case Ok(inv) =>
        if !KeyAbsent(invoices, InvoiceNumber, inv.invoiceNumber) then Outcome(Fail(ServerError, "Duplicate key"), invoices)
        else Outcome(Ok(inv), invoices + [inv])
  }

  /** The totals of a created invoice: item sum, tax and discount defaulting to 0. */
  lemma CreateInvoiceTotals(invoices: seq<Invoice>, nextId: nat, body: InvoiceBody, now: int, year: nat)
    requires CreateInvoice(invoices, nextId, body, now, year).result.Ok?
    ensures var inv := CreateInvoice(invoices, nextId, body, now, year).result.value;
      body.items.Some? && inv.items == body.items.value &&
      inv.subtotal == SumBy(body.items.value, ItemAmount) &&
      inv.total == inv.subtotal + body.tax.GetOr(0) - body.discount.GetOr(0) &&
      inv.id == nextId && InvoiceValid(inv)
  {
  }

  /** A discount larger than the subtotal plus tax makes the total negative, which the schema refuses. */
  lemma OverDiscountRefused(invoices: seq<Invoice>, nextId: nat, body: InvoiceBody, now: int, year: nat)
    requires body.items.Some? && body.discount.GetOr(0) > Subtotal(body.items.value) + body.tax.GetOr(0)
    ensures CreateInvoice(invoices, nextId, body, now, year).result.Err?
    ensures CreateInvoice(invoices, nextId, body, now, year).invoices == invoices
  {
  }

  /**
   * The ledger the invoice and payment handlers share: unique invoice ids below `nextId`,
   * every payment referring to a stored invoice, and no invoice paid beyond its total.
   */
  predicate Ledger(invoices: seq<Invoice>, nextId: nat, payments: seq<Payment>) {
    UniqueBy(invoices, InvoiceId) &&
    (forall i :: 0 <= i < |invoices| ==> invoices[i].id < nextId) &&
    (forall j :: 0 <= j < |payments| ==> !KeyAbsent(invoices, InvoiceId, payments[j].invoice)) &&
    NotOverpaid(invoices, payments)
  }

  /** No payment refers to an id that no stored invoice has. */
  lemma UnreferencedId(invoices: seq<Invoice>, nextId: nat, payments: seq<Payment>, id: nat)
    requires Ledger(invoices, nextId, payments) && KeyAbsent(invoices, InvoiceId, id)
    ensures AmountPaid(payments, id) == 0
  {
    forall x | x in payments ensures !CompletedFor(id)(x) {
      var j :| 0 <= j < |payments| && payments[j] == x;
      assert !KeyAbsent(invoices, InvoiceId, payments[j].invoice);
    }
    SumByEmptyFilter(payments, CompletedFor(id), PaymentAmount);
  }

  /** A created invoice has a fresh id, so no payment counts towards it and the ledger holds. */
  lemma CreateInvoiceKeepsLedger(invoices: seq<Invoice>, nextId: nat, payments: seq<Payment>, body: InvoiceBody,
    now: int, year: nat)
    requires Ledger(invoices, nextId, payments)
    ensures var o := CreateInvoice(invoices, nextId, body, now, year);
      Ledger(o.invoices, if o.result.Ok? then nextId + 1 else nextId, payments)
  {
    var o := CreateInvoice(invoices, nextId, body, now, year);
    if o.result.Ok? {
      var inv := o.result.value;
      assert inv.id == nextId && inv.total >= 0 && o.invoices == invoices + [inv] by {
        CreateInvoiceTotals(invoices, nextId, body, now, year);
      }
      LedgerAppend(invoices, nextId, payments, inv);
    }
  }

  /** Appending an invoice with the next id and a total of at least 0 keeps the ledger. */
  lemma LedgerAppend(invoices: seq<Invoice>, nextId: nat, payments: seq<Payment>, inv: Invoice)
    requires Ledger(invoices, nextId, payments) && inv.id == nextId && inv.total >= 0
    ensures Ledger(invoices + [inv], nextId + 1, payments)
  {
    var after := invoices + [inv];
    assert UniqueBy(after, InvoiceId) by {
      assert KeyAbsent(invoices, InvoiceId, nextId);
      UniqueByAppend(invoices, InvoiceId, inv);
    }
    AppendIdsBelow(invoices, nextId, inv);
    AppendKeepsReferences(invoices, payments, inv);
    assert AmountPaid(payments, nextId) == 0 by {
      UnreferencedId(invoices, nextId, payments, nextId);
    }
    AppendNotOverpaid(invoices, payments, inv);
  }

  lemma AppendIdsBelow(invoices: seq<Invoice>, nextId: nat, inv: Invoice)
    requires (forall i :: 0 <= i < |invoices| ==> invoices[i].id < nextId) && inv.id == nextId
    ensures forall i :: 0 <= i < |invoices + [inv]| ==> (invoices + [inv])[i].id < nextId + 1
  {
    var after := invoices + [inv];
    forall i | 0 <= i < |after| ensures after[i].id < nextId + 1 {
      if i < |invoices| {
        assert after[i] == invoices[i];
      }
    }
  }

  lemma AppendKeepsReferences(invoices: seq<Invoice>, payments: seq<Payment>, inv: Invoice)
    requires forall j :: 0 <= j < |payments| ==> !KeyAbsent(invoices, InvoiceId, payments[j].invoice)
    ensures forall j :: 0 <= j < |payments| ==> !KeyAbsent(invoices + [inv], InvoiceId, payments[j].invoice)
  {
    forall j | 0 <= j < |payments| ensures !KeyAbsent(invoices + [inv], InvoiceId, payments[j].invoice) {
      KeyPresentAppend(invoices, InvoiceId, inv, payments[j].invoice);
    }
  }

  lemma AppendNotOverpaid(invoices: seq<Invoice>, payments: seq<Payment>, inv: Invoice)
    requires NotOverpaid(invoices, payments) && AmountPaid(payments, inv.id) <= inv.total
    ensures NotOverpaid(invoices + [inv], payments)
  {
    var after := invoices + [inv];
    forall i | 0 <= i < |after| ensures AmountPaid(payments, after[i].id) <= after[i].total {
      if i < |invoices| {
        assert after[i] == invoices[i];
      }
    }
  }

  /** Invoices that differ only in their statuses. */
  predicate SameButStatus(invoices: seq<Invoice>, invoices': seq<Invoice>) {
    |invoices'| == |invoices| &&
    forall i :: 0 <= i < |invoices| ==> invoices'[i] == invoices[i].(status := invoices'[i].status)
  }

  lemma SameButStatusIds(invoices: seq<Invoice>, invoices': seq<Invoice>, nextId: nat)
    requires SameButStatus(invoices, invoices') && UniqueBy(invoices, InvoiceId)
    requires forall i :: 0 <= i < |invoices| ==> invoices[i].id < nextId
    ensures UniqueBy(invoices', InvoiceId) && forall i :: 0 <= i < |invoices'| ==> invoices'[i].id < nextId
  {
    forall i, i' | 0 <= i < i' < |invoices'| ensures invoices'[i].id != invoices'[i'].id {
      assert invoices[i].id != invoices[i'].id;
    }
  }

  lemma SameButStatusRefs(invoices: seq<Invoice>, invoices': seq<Invoice>, payments: seq<Payment>, payments': seq<Payment>)
    requires SameButStatus(invoices, invoices')
    requires forall j :: 0 <= j < |payments| ==> !KeyAbsent(invoices, InvoiceId, payments[j].invoice)
    requires payments' == payments || (|payments'| == |payments| + 1 && payments'[..|payments|] == payments &&
      !KeyAbsent(invoices, InvoiceId, payments'[|payments|].invoice))
    ensures forall j :: 0 <= j < |payments'| ==> !KeyAbsent(invoices', InvoiceId, payments'[j].invoice)
  {
    forall j | 0 <= j < |payments'| ensures !KeyAbsent(invoices', InvoiceId, payments'[j].invoice) {
      var ref := payments'[j].invoice;
      assert !KeyAbsent(invoices, InvoiceId, ref) by {
        if j < |payments| {
          assert payments'[j] == payments[j];
        }
      }
      var i :| 0 <= i < |invoices| && invoices[i].id == ref;
      assert invoices'[i].id == ref;
    }
  }

  /** `createPayment` keeps the ledger: statuses change, ids and totals do not, and the new payment's invoice is stored. */
  lemma CreatePaymentKeepsLedger(invoices: seq<Invoice>, nextId: nat, payments: seq<Payment>, caller: User,
    body: PaymentController.PaymentBody, now: int, year: nat)
    requires Ledger(invoices, nextId, payments)
    ensures var o := PaymentController.CreatePayment(invoices, payments, caller, body, now, year);
      Ledger(o.invoices, nextId, o.payments)
  {
    var o := PaymentController.CreatePayment(invoices, payments, caller, body, now, year);
    PaymentController.CreatePaymentShape(invoices, payments, caller, body, now, year);
    PaymentController.CreatePaymentKeepsNotOverpaid(invoices, payments, caller, body, now, year);
    SameButStatusIds(invoices, o.invoices, nextId);
    SameButStatusRefs(invoices, o.invoices, payments, o.payments);
  }

  /**
   * Numbering by count collides after a delete: with `INV-<year>-00001` gone and
   * `INV-<year>-00002` still stored, the next unnumbered invoice is numbered `...-00002`
   * again and the unique index refuses it.
   */
  lemma NumberReusedAfterDelete(kept: Invoice, nextId: nat, body: InvoiceBody, now: int, year: nat)
    requires kept.invoiceNumber == Numbering.DocNumber("INV", year, 1)
    requires body.invoiceNumber == ""
    ensures CreateInvoice([kept], nextId, body, now, year) ==
      Outcome(if body.items.Some? && BuildInvoice(body, body.items.value, nextId, 1, year, now).Ok? then
        Fail(ServerError, "Duplicate key") else CreateInvoice([kept], nextId, body, now, year).result, [kept])
  {
    assert [kept][0] == kept;
  }

  // ---------------------------------------------------------------------------------------
  // Updating and deleting.

  /** The body of `PUT /api/invoices/:id`: any stored path of an invoice; None means the field was not sent. */
  datatype InvoicePatch = InvoicePatch(
    invoiceNumber: Option<string>,
    student: Option<nat>,
    parent: Option<nat>,
    items: Option<seq<LineItem>>,
    subtotal: Option<int>,
    tax: Option<int>,
    discount: Option<int>,
    total: Option<int>,
    dueDate: Option<int>,
    status: Option<string>,
    academicYear: Option<string>,
    term: Option<string>)

  /** A number the body leaves out, or one that passes `min: 0`. */
  predicate Unsigned(x: Option<int>) {
    x.None? || x.value >= 0
  }

  /** JavaScript's `x || fallback` on a number: an absent value or 0 gives the fallback. */
  function OrElse(x: Option<int>, fallback: int): (r: int)
    ensures x.Some? && x.value != 0 ==> r == x.value
    ensures x.None? || x.value == 0 ==> r == fallback
  {
    if x.Some? && x.value != 0 then x.value else fallback
  }

  /**
   * The body after the recomputation: with `items`, the subtotal is their sum and the total
   * uses the tax and discount of the body, or the stored ones where the body's are falsy.
   */
  function Recomputed(inv: Invoice, patch: InvoicePatch): (r: InvoicePatch)
    ensures patch.items.None? ==> r == patch
    ensures patch.items.Some? ==> r.subtotal == Some(Subtotal(patch.items.value))
    ensures patch.items.Some? ==> r.total == Some(Subtotal(patch.items.value) +
      OrElse(patch.tax, inv.tax) - OrElse(patch.discount, inv.discount))
    ensures r.items == patch.items && r.tax == patch.tax && r.discount == patch.discount
  {
    match patch.items
    case None => patch
    case Some(items) =>
      var subtotal := Subtotal(items);
      patch.(subtotal := Some(subtotal), total := Some(subtotal + OrElse(patch.tax, inv.tax) - OrElse(patch.discount, inv.discount)))
  }

  /**
   * `findByIdAndUpdate` with `runValidators`: every path the body carries replaces the stored
   * one, the number and the references included, and the result must validate; only the id
   * and `createdAt` stay. The numbering hook is document middleware and does not run here.
   */
  function Applied(inv: Invoice, body: InvoicePatch): (r: Result<Invoice>)
    ensures r.Err? ==> r.error.status == ServerError
    ensures r.Ok? ==> InvoiceValid(r.value)
    ensures r.Ok? ==> r.value.id == inv.id && r.value.createdAt == inv.createdAt
    ensures r.Ok? ==> r.value.invoiceNumber == body.invoiceNumber.GetOr(inv.invoiceNumber)
    ensures r.Ok? ==> r.value.parent == body.parent.GetOr(inv.parent) && r.value.student == body.student.GetOr(inv.student)
    ensures r.Ok? ==> r.value.total == body.total.GetOr(inv.total) && r.value.tax == body.tax.GetOr(inv.tax)
    ensures r.Ok? ==> r.value.subtotal == body.subtotal.GetOr(inv.subtotal) && r.value.items == body.items.GetOr(inv.items)
    ensures r.Ok? ==> r.value.discount == body.discount.GetOr(inv.discount) && r.value.dueDate == body.dueDate.GetOr(inv.dueDate)
    ensures r.Ok? ==> r.value.academicYear == body.academicYear.GetOr(inv.academicYear) && r.value.term == body.term.GetOr(inv.term)
    ensures r.Ok? && body.status.None? ==> r.value.status == inv.status
    ensures r.Ok? && body.status.Some? ==> InvoiceStatusName(r.value.status) == body.status.value
    ensures body.status.Some? && ParseInvoiceStatus(body.status.value).None? ==> r.Err?
    ensures body.invoiceNumber == Some("") || body.academicYear == Some("") ==> r.Err?
    ensures InvoiceValid(inv) && body.status.None? && body.invoiceNumber != Some("") && body.academicYear != Some("") &&
      (body.items.None? || ItemsValid(body.items.value)) &&
      Unsigned(body.subtotal) && Unsigned(body.tax) && Unsigned(body.discount) && Unsigned(body.total)
      ==> r.Ok?
  {
    var status := if body.status.None? then Some(inv.status) else ParseInvoiceStatus(body.status.value);
    if status.None? then Fail(ServerError, "Validation failed: status")
    else
      var updated := inv.(invoiceNumber := body.invoiceNumber.GetOr(inv.invoiceNumber),
        student := body.student.GetOr(inv.student), parent := body.parent.GetOr(inv.parent),
        items := body.items.GetOr(inv.items), subtotal := body.subtotal.GetOr(inv.subtotal),
        tax := body.tax.GetOr(inv.tax), discount := body.discount.GetOr(inv.discount), total := body.total.GetOr(inv.total),
        dueDate := body.dueDate.GetOr(inv.dueDate), status := status.value,
        academicYear := body.academicYear.GetOr(inv.academicYear), term := body.term.GetOr(inv.term));
      if InvoiceValid(updated) then Ok(updated) else Fail(ServerError, "Validation failed")
  }

  /**
   * `updateInvoice`: 404 for an unknown id, else the recomputed body applied to the stored
   * invoice, which the unique index refuses when another invoice has the number.
   */
  function UpdateInvoice(invoices: seq<Invoice>, id: nat, patch: InvoicePatch): (o: Outcome<Invoice>)
    ensures KeyAbsent(invoices, InvoiceId, id) ==> o == Outcome(Fail(NotFound, "Invoice not found"), invoices)
    ensures o.result.Err? ==> o.invoices == invoices
    ensures o.result.Ok? ==> InvoiceValid(o.result.value) && o.result.value.id == id
    ensures o.result.Ok? ==> exists k :: (0 <= k < |invoices| && invoices[k].id == id &&
      o.invoices == invoices[k := o.result.value] &&
      KeyFreeExcept(invoices, InvoiceNumber, k, o.result.value.invoiceNumber) &&
      Applied(invoices[k], Recomputed(invoices[k], patch)) == o.result)
    ensures forall k :: (0 <= k < |invoices| && invoices[k].id == id && Applied(invoices[k], Recomputed(invoices[k], patch)).Ok? &&
      !KeyFreeExcept(invoices, InvoiceNumber, k, Applied(invoices[k], Recomputed(invoices[k], patch)).value.invoiceNumber) &&
      UniqueBy(invoices, InvoiceId)) ==> o == Outcome(Fail(ServerError, "Duplicate key"), invoices)
    ensures forall k :: (0 <= k < |invoices| && invoices[k].id == id && Applied(invoices[k], Recomputed(invoices[k], patch)).Ok? &&
      KeyFreeExcept(invoices, InvoiceNumber, k, Applied(invoices[k], Recomputed(invoices[k], patch)).value.invoiceNumber) &&
      UniqueBy(invoices, InvoiceId)) ==>
      o == Outcome(Applied(invoices[k], Recomputed(invoices[k], patch)), invoices[k := Applied(invoices[k], Recomputed(invoices[k], patch)).value])
  {
    match FindInvoice(invoices, id)
    case None => Outcome(Fail(NotFound, "Invoice not found"), invoices)
    case Some(k) =>
      match Applied(invoices[k], Recomputed(invoices[k], patch))
      case Err(e) => Outcome(Err(e), invoices)
      case Ok(inv) =>
        if !KeyFreeExcept(invoices, InvoiceNumber, k, inv.invoiceNumber) then Outcome(Fail(ServerError, "Duplicate key"), invoices)
        else Outcome(Ok(inv), invoices[k := inv])
  }

  /**
   * With new items the subtotal is their sum and the total is recomputed; a tax or discount
   * of 0 in the body is stored as 0 although the total was computed with the stored value.
   */
  lemma UpdateInvoiceTotals(inv: Invoice, patch: InvoicePatch)
    requires patch.items.Some? && Applied(inv, Recomputed(inv, patch)).Ok?
    ensures var r := Applied(inv, Recomputed(inv, patch)).value;
      r.subtotal == Subtotal(patch.items.value) &&
      r.total == r.subtotal + OrElse(patch.tax, inv.tax) - OrElse(patch.discount, inv.discount) &&
      r.tax == patch.tax.GetOr(inv.tax) && r.discount == patch.discount.GetOr(inv.discount)
    ensures patch.tax == Some(0) && inv.tax != 0 && patch.discount.None? ==>
      Applied(inv, Recomputed(inv, patch)).value.total != Applied(inv, Recomputed(inv, patch)).value.subtotal +
        Applied(inv, Recomputed(inv, patch)).value.tax - Applied(inv, Recomputed(inv, patch)).value.discount
  {
  }

  /** Without `items` nothing is recomputed: a `total` in the body is stored as given. */
  lemma UpdateWithoutItemsKeepsTotals(inv: Invoice, patch: InvoicePatch)
    requires patch.items.None? && Applied(inv, Recomputed(inv, patch)).Ok?
    ensures Applied(inv, Recomputed(inv, patch)).value.total == patch.total.GetOr(inv.total)
    ensures Applied(inv, Recomputed(inv, patch)).value.subtotal == patch.subtotal.GetOr(inv.subtotal)
  {
  }

  /**
   * No reconciliation runs on an edit: lowering the total of a paid invoice below its
   * completed payments is accepted and breaks the ledger invariant.
   */
  lemma UpdateInvoiceCanOverpay(now: int)
    ensures NotOverpaid([PaymentController.SampleInvoice(Paid, now)], [PaymentController.SamplePayment(now)])
    ensures UpdateInvoice([PaymentController.SampleInvoice(Paid, now)], 0,
      InvoicePatch(None, None, None, None, None, None, None, Some(50), None, None, None, None)).result.Ok?
    ensures !NotOverpaid(UpdateInvoice([PaymentController.SampleInvoice(Paid, now)], 0,
      InvoicePatch(None, None, None, None, None, None, None, Some(50), None, None, None, None)).invoices, [PaymentController.SamplePayment(now)])
  {
    var inv := PaymentController.SampleInvoice(Paid, now);
    var pay := PaymentController.SamplePayment(now);
    assert Filter([pay], CompletedFor(0)) == [pay];
    assert SumBy([pay], PaymentAmount) == 100;
    assert FindInvoice([inv], 0) == Some(0);
    var patch := InvoicePatch(None, None, None, None, None, None, None, Some(50), None, None, None, None);
    assert ItemsValid(inv.items);
    assert Applied(inv, Recomputed(inv, patch)).Ok?;
    var after := UpdateInvoice([inv], 0, patch).invoices;
    assert after == [inv.(total := 50)];
    assert after[0].total == 50;
  }

  /** The sample paid invoice with its one completed payment keeps the ledger. */
  lemma SampleLedger(now: int)
    ensures Ledger([PaymentController.SampleInvoice(Paid, now)], 1, [PaymentController.SamplePayment(now)])
  {
    var inv := PaymentController.SampleInvoice(Paid, now);
    PaymentController.UpdatePaymentCanOverpay(now);
    assert FindInvoice([inv], 0) == Some(0);
  }

  /** An edit of a payment can move it onto an invoice that does not exist, and the ledger no longer holds. */
  lemma UpdatePaymentBreaksLedger(now: int)
    ensures Ledger([PaymentController.SampleInvoice(Paid, now)], 1, [PaymentController.SamplePayment(now)])
    ensures var after := PaymentController.UpdatePayment([PaymentController.SamplePayment(now)], 0,
        PaymentController.PaymentPatch(None, Some(7), None, None, None, None, None, None, None, None));
      after.0.Ok? && !Ledger([PaymentController.SampleInvoice(Paid, now)], 1, after.1)
  {
    SampleLedger(now);
    PaymentController.UpdatePaymentCanRepoint(now);
    var after := PaymentController.UpdatePayment([PaymentController.SamplePayment(now)], 0,
      PaymentController.PaymentPatch(None, Some(7), None, None, None, None, None, None, None, None)).1;
    assert KeyAbsent([PaymentController.SampleInvoice(Paid, now)], InvoiceId, after[0].invoice);
  }

  /** `deleteInvoice`: 404 for an unknown id, 400 while any payment refers to it, else removed. */
  function DeleteInvoice(invoices: seq<Invoice>, payments: seq<Payment>, id: nat): (o: Outcome<()>)
    ensures KeyAbsent(invoices, InvoiceId, id) ==> o == Outcome(Fail(NotFound, "Invoice not found"), invoices)
    ensures !KeyAbsent(invoices, InvoiceId, id) && Count(payments, ReferencesInvoice(id)) > 0 ==>
      o == Outcome(Fail(BadRequest, "Cannot delete invoice with existing payments"), invoices)
    ensures o.result.Ok? <==> !KeyAbsent(invoices, InvoiceId, id) && Count(payments, ReferencesInvoice(id)) == 0
    ensures o.result.Ok? ==> exists k :: 0 <= k < |invoices| && invoices[k].id == id && o.invoices == RemoveAt(invoices, k)
  {
    match FindInvoice(invoices, id)
    case None => Outcome(Fail(NotFound, "Invoice not found"), invoices)
    case Some(k) =>
      if Count(payments, ReferencesInvoice(id)) > 0 then
        Outcome(Fail(BadRequest, "Cannot delete invoice with existing payments"), invoices)
      else Outcome(Ok(()), RemoveAt(invoices, k))
  }

  /** A payment of any status blocks the delete. */
  lemma AnyPaymentBlocksDelete(invoices: seq<Invoice>, payments: seq<Payment>, j: nat)
    requires j < |payments| && !KeyAbsent(invoices, InvoiceId, payments[j].invoice)
    ensures DeleteInvoice(invoices, payments, payments[j].invoice).result == Fail(BadRequest, "Cannot delete invoice with existing payments")
  {
    assert payments[j] in Filter(payments, ReferencesInvoice(payments[j].invoice));
  }

  /** Removing an invoice keeps the ids unique, below `nextId`, and within their totals. */
  lemma RemoveKeepsBounds(invoices: seq<Invoice>, nextId: nat, payments: seq<Payment>, k: nat)
    requires Ledger(invoices, nextId, payments) && k < |invoices|
    ensures UniqueBy(RemoveAt(invoices, k), InvoiceId) && NotOverpaid(RemoveAt(invoices, k), payments)
    ensures forall i :: 0 <= i < |RemoveAt(invoices, k)| ==> RemoveAt(invoices, k)[i].id < nextId
  {
    var after := RemoveAt(invoices, k);
    UniqueByRemove(invoices, InvoiceId, k);
    RemoveAtIndex(invoices, k);
    forall i | 0 <= i < |after| ensures after[i].id < nextId && AmountPaid(payments, after[i].id) <= after[i].total {
      if i < k {
        assert after[i] == invoices[i];
      } else {
        assert after[i] == invoices[i + 1];
      }
    }
  }

  /** Removing an invoice that no payment refers to keeps every payment's invoice stored. */
  lemma RemoveKeepsReferences(invoices: seq<Invoice>, payments: seq<Payment>, k: nat)
    requires k < |invoices| && forall j :: 0 <= j < |payments| ==> payments[j].invoice != invoices[k].id
    requires forall j :: 0 <= j < |payments| ==> !KeyAbsent(invoices, InvoiceId, payments[j].invoice)
    ensures forall j :: 0 <= j < |payments| ==> !KeyAbsent(RemoveAt(invoices, k), InvoiceId, payments[j].invoice)
  {
    var after := RemoveAt(invoices, k);
    RemoveAtIndex(invoices, k);
    forall j | 0 <= j < |payments| ensures !KeyAbsent(after, InvoiceId, payments[j].invoice) {
      var i :| 0 <= i < |invoices| && invoices[i].id == payments[j].invoice;
      if i < k {
        assert after[i] == invoices[i];
      } else {
        assert after[i - 1] == invoices[i];
      }
    }
  }

  /** A delete only removes an invoice no payment refers to, so the ledger holds afterwards. */
  lemma DeleteInvoiceKeepsLedger(invoices: seq<Invoice>, nextId: nat, payments: seq<Payment>, id: nat)
    requires Ledger(invoices, nextId, payments)
    ensures Ledger(DeleteInvoice(invoices, payments, id).invoices, nextId, payments)
  {
    var o := DeleteInvoice(invoices, payments, id);
    if o.result.Ok? {
      var k :| 0 <= k < |invoices| && invoices[k].id == id && o.invoices == RemoveAt(invoices, k);
      forall j | 0 <= j < |payments| ensures payments[j].invoice != id {
        assert payments[j] !in Filter(payments, ReferencesInvoice(id));
      }
      RemoveKeepsBounds(invoices, nextId, payments, k);
      RemoveKeepsReferences(invoices, payments, k);
    }
  }

  // ---------------------------------------------------------------------------------------
  // Reading.

  /** `{...invoice, amountPaid, amountDue}` */
  datatype InvoiceView = InvoiceView(invoice: Invoice, amountPaid: int, amountDue: int)

  /**
   * `getInvoiceById`, with `parent` populated from `users`: 404 for an unknown id; for a parent
   * caller, 500 when the invoice's parent is no longer stored and 403 for another parent's
   * invoice; else the balance.
   */
  function GetInvoiceById(invoices: seq<Invoice>, payments: seq<Payment>, users: seq<User>, id: nat, caller: User):
    (r: Result<InvoiceView>)
    ensures KeyAbsent(invoices, InvoiceId, id) ==> r == Fail(NotFound, "Invoice not found")
    ensures !KeyAbsent(invoices, InvoiceId, id) && r.Err? ==>
      (caller.role == Parent &&
       (r == Fail(Forbidden, "Not authorized to view this invoice") || r == Fail(ServerError, NullParentRead)))
    ensures r.Ok? ==> r.value.invoice in invoices && r.value.invoice.id == id && MaySee(caller, r.value.invoice.parent)
    ensures r.Ok? && caller.role == Parent ==> !KeyAbsent(users, UserId, r.value.invoice.parent)
    ensures r.Ok? ==> r.value.amountPaid == AmountPaid(payments, id)
    ensures r.Ok? ==> r.value.amountDue == AmountDue(r.value.invoice, payments)
    ensures UniqueBy(invoices, InvoiceId) ==> forall k :: 0 <= k < |invoices| && invoices[k].id == id ==>
      (r.Ok? <==> (MaySee(caller, invoices[k].parent) &&
                   (caller.role == Parent ==> !KeyAbsent(users, UserId, invoices[k].parent)))) &&
      (caller.role == Parent && KeyAbsent(users, UserId, invoices[k].parent) ==> r == Fail(ServerError, NullParentRead))
  {
    match FindInvoice(invoices, id)
    case None => Fail(NotFound, "Invoice not found")
    case Some(k) =>
      UniqueInvoice(invoices, id, k);
      match OwnerCheck(users, caller, invoices[k].parent, "Not authorized to view this invoice")
      case Err(e) => Err(e)
      case Ok(_) =>
        var amountPaid := SumBy(Filter(payments, CompletedFor(id)), PaymentAmount);
        Ok(InvoiceView(invoices[k], amountPaid, invoices[k].total - amountPaid))
  }

  lemma UniqueInvoice(invoices: seq<Invoice>, id: nat, k: nat)
    requires k < |invoices| && invoices[k].id == id
    ensures UniqueBy(invoices, InvoiceId) ==> forall j :: 0 <= j < |invoices| && invoices[j].id == id ==> j == k
  {
    if UniqueBy(invoices, InvoiceId) {
      forall j | 0 <= j < |invoices| && invoices[j].id == id ensures j == k {
        UniqueByIndex(invoices, InvoiceId, j, k);
      }
    }
  }

  /** On a ledger with non-negative payments, the reported balance lies between 0 and the total. */
  lemma ReportedBalanceInRange(invoices: seq<Invoice>, nextId: nat, payments: seq<Payment>, users: seq<User>,
                                id: nat, caller: User)
    requires Ledger(invoices, nextId, payments)
    requires forall j :: 0 <= j < |payments| ==> payments[j].amount >= 0
    requires GetInvoiceById(invoices, payments, users, id, caller).Ok?
    ensures var v := GetInvoiceById(invoices, payments, users, id, caller).value;
      0 <= v.amountPaid && 0 <= v.amountDue <= v.invoice.total
  {
    var v := GetInvoiceById(invoices, payments, users, id, caller).value;
    AmountPaidNonNegative(payments, id);
    var i :| 0 <= i < |invoices| && invoices[i] == v.invoice;
    assert AmountPaid(payments, invoices[i].id) <= invoices[i].total;
  }

  /** The query string of `GET /api/invoices`; an empty status means none was given. */
  datatype InvoiceQuery = InvoiceQuery(
    status: string,
    studentId: Option<nat>,
    parentId: Option<nat>,
    page: Positive,
    limit: Positive)

  /** The filter `getInvoices` builds; for a parent caller the parent field is their own id, whatever was asked. */
  function InvoiceFilter(q: InvoiceQuery, caller: User): Invoice -> bool {
    (inv: Invoice) =>
      (q.status == "" || InvoiceStatusName(inv.status) == q.status) &&
      (q.studentId.None? || inv.student == q.studentId.value) &&
      (if caller.role == Parent then inv.parent == caller.id else q.parentId.None? || inv.parent == q.parentId.value)
  }

  function CreatedAt(inv: Invoice): int { inv.createdAt }

  /** `getInvoices`: the matching invoices, newest first, one page of them, and the totals. */
  function GetInvoices(invoices: seq<Invoice>, q: InvoiceQuery, caller: User): Paged<Invoice> {
    ListQuery(invoices, InvoiceFilter(q, caller), Descending(CreatedAt), q.page, q.limit)
  }

  /** Every listed invoice is stored and matches the query; a parent only sees their own. */
  lemma GetInvoicesScoped(invoices: seq<Invoice>, q: InvoiceQuery, caller: User)
    ensures var r := GetInvoices(invoices, q, caller);
      |r.data| <= q.limit && r.page == q.page &&
      r.total == Count(invoices, InvoiceFilter(q, caller)) && r.pages == PageCount(r.total, q.limit) &&
      forall x :: x in r.data ==> (x in invoices &&
        (q.status == "" || InvoiceStatusName(x.status) == q.status) &&
        (q.studentId.None? || x.student == q.studentId.value) &&
        (caller.role == Parent ==> x.parent == caller.id) &&
        (caller.role != Parent && q.parentId.Some? ==> x.parent == q.parentId.value))
  {
    var r := GetInvoices(invoices, q, caller);
    forall x | x in r.data
      ensures caller.role == Parent ==> x.parent == caller.id
    {
      assert InvoiceFilter(q, caller)(x);
    }
  }

  /** For a parent caller the `parentId` in the query makes no difference at all. */
  lemma ParentIdOverridden(invoices: seq<Invoice>, q: InvoiceQuery, caller: User, parentId: Option<nat>)
    requires caller.role == Parent
    ensures GetInvoices(invoices, q, caller) == GetInvoices(invoices, q.(parentId := parentId), caller)
  {
    ListQueryExt(invoices, InvoiceFilter(q, caller), InvoiceFilter(q.(parentId := parentId), caller),
      Descending(CreatedAt), q.page, q.limit);
  }

  /** Each page lists invoices newest first. */
  lemma GetInvoicesNewestFirst(invoices: seq<Invoice>, q: InvoiceQuery, caller: User)
    ensures SortedBy(GetInvoices(invoices, q, caller).data, Descending(CreatedAt))
  {
    DescendingTotal(CreatedAt);
    ListQuerySorted(invoices, InvoiceFilter(q, caller), Descending(CreatedAt), q.page, q.limit);
  }

  // ---------------------------------------------------------------------------------------
  // The handlers against the invoices collection.

  /** `createInvoice`: the document with its totals, the pre-validate hook, the validators, the insert. */
  method AddInvoice(store: InvoiceStore, body: InvoiceBody, now: int, year: nat) returns (r: Result<Invoice>)
    requires store.Valid()
    modifies store
    ensures store.Valid()
    ensures var o := CreateInvoice(old(store.docs), old(store.nextId), body, now, year);
      r == o.result && store.docs == o.invoices
    ensures store.nextId == if r.Ok? then old(store.nextId) + 1 else old(store.nextId)
  {
    if body.items.None? {
      return Fail(ServerError, "Cannot read properties of undefined (reading 'reduce')");
    }
    var items := body.items.value;
    var doc := new InvoiceDocument(body.invoiceNumber);
    doc.PreValidate(|store.docs|, year);
    r := BuildInvoice(body.(invoiceNumber := doc.invoiceNumber), items, store.nextId, |store.docs|, year, now);
    if r.Err? {
      return;
    }
    var ok := store.Insert(r.value);
    if !ok {
      r := Fail(ServerError, "Duplicate key");
    }
  }

  /** `updateInvoice`: the totals written into the body when items are given, then the update. */
  method EditInvoice(store: InvoiceStore, id: nat, patch: InvoicePatch) returns (r: Result<Invoice>)
    requires store.Valid()
    modifies store
    ensures store.Valid() && store.nextId == old(store.nextId)
    ensures var o := UpdateInvoice(old(store.docs), id, patch);
      r == o.result && store.docs == o.invoices
  {
    var found := FindInvoice(store.docs, id);
    if found.None? {
      return Fail(NotFound, "Invoice not found");
    }
    var k := found.value;
    var inv := store.docs[k];
    var body := patch;
    if body.items.Some? {
      body := body.(subtotal := Some(Subtotal(body.items.value)));
      body := body.(total := Some(body.subtotal.value + OrElse(body.tax, inv.tax) - OrElse(body.discount, inv.discount)));
    }
    assert body == Recomputed(inv, patch);
    r := Applied(inv, body);
    if r.Ok? {
      var ok := store.Update(k, r.value);
      if !ok {
        r := Fail(ServerError, "Duplicate key");
      }
    }
  }

  /** `deleteInvoice` against the two collections. */
  method RemoveInvoice(store: InvoiceStore, payments: PaymentStore, id: nat) returns (r: Result<()>)
    requires store.Valid()
    modifies store
    ensures store.Valid() && store.nextId == old(store.nextId)
    ensures var o := DeleteInvoice(old(store.docs), payments.docs, id);
      r == o.result && store.docs == o.invoices
  {
    var found := FindInvoice(store.docs, id);
    if found.None? {
      return Fail(NotFound, "Invoice not found");
    }
    if Count(payments.docs, ReferencesInvoice(id)) > 0 {
      return Fail(BadRequest, "Cannot delete invoice with existing payments");
    }
    store.Remove(found.value);
    r := Ok(());
  }
}
