/**
 * The `Invoice` model: line items, the schema's bounds, the pre-validate numbering hook,
 * and the `isOverdue`, `getAmountPaid` and `getAmountDue` methods.
 */
module InvoiceModel {
  import opened Wrappers
  import opened Constants
  import opened Seqs
  import opened PaymentModel
  import Numbering

  datatype LineItem = LineItem(fee: Option<nat>, description: string, amount: int)

  datatype Invoice = Invoice(
    id: nat,
    invoiceNumber: string,
    student: nat,
    parent: nat,
    items: seq<LineItem>,
    subtotal: int,
    tax: int,
    discount: int,
    total: int,
    dueDate: int,
    status: InvoiceStatus,
    academicYear: string,
    term: string,
    createdAt: int)

  function InvoiceId(inv: Invoice): nat { inv.id }

  function InvoiceNumber(inv: Invoice): string { inv.invoiceNumber }

  function InvoiceTotal(inv: Invoice): int { inv.total }

  function ItemAmount(item: LineItem): int { item.amount }

  function InvoiceIdIs(id: nat): Invoice -> bool { (inv: Invoice) => inv.id == id }

  /** The item validators: a description is required and the amount is at least 0. */
  predicate ItemsValid(items: seq<LineItem>) {
    forall i :: 0 <= i < |items| ==> items[i].description != "" && items[i].amount >= 0
  }

  /** The schema's validators: required fields present, every amount `min: 0`. */
  predicate InvoiceValid(inv: Invoice) {
    inv.invoiceNumber != "" && inv.academicYear != "" && ItemsValid(inv.items) &&
    inv.subtotal >= 0 && inv.tax >= 0 && inv.discount >= 0 && inv.total >= 0
  }

  /** `items.reduce((sum, item) => sum + item.amount, 0)` */
  function Subtotal(items: seq<LineItem>): int {
    SumBy(items, ItemAmount)
  }

  lemma SubtotalNonNegative(items: seq<LineItem>)
    requires ItemsValid(items)
    ensures Subtotal(items) >= 0
  {
    SumByNonNegative(items, ItemAmount);
  }

  /** Appending an item adds its amount to the subtotal. */
  lemma SubtotalSnoc(items: seq<LineItem>, item: LineItem)
    ensures Subtotal(items + [item]) == Subtotal(items) + item.amount
  {
    SumBySnoc(items, item, ItemAmount);
  }

  /** `isOverdue()`: still `pending` and past its due date. */
  function IsOverdue(inv: Invoice, now: int): bool {
    inv.status == InvoicePending && now > inv.dueDate
  }

  /** An invoice that has received a part payment is never reported overdue by this method. */
  lemma OverdueOnlyWhenPending(inv: Invoice, now: int)
    ensures IsOverdue(inv, now) ==> inv.status == InvoicePending
    ensures inv.status == PartiallyPaid ==> !IsOverdue(inv, now)
    ensures inv.status == InvoicePending ==> (IsOverdue(inv, now) <==> now > inv.dueDate)
  {
  }

  /** `getAmountPaid()`: the sum of this invoice's completed payments. */
  function AmountPaid(payments: seq<Payment>, invoiceId: nat): int {
    SumBy(Filter(payments, CompletedFor(invoiceId)), PaymentAmount)
  }

  /** `getAmountDue()` */
  function AmountDue(inv: Invoice, payments: seq<Payment>): int {
    inv.total - AmountPaid(payments, inv.id)
  }

  /** What one payment contributes to an invoice's paid amount. */
  function Contribution(invoiceId: nat): Payment -> int {
    Masked(CompletedFor(invoiceId), PaymentAmount)
  }

  lemma AmountPaidAsSum(payments: seq<Payment>, invoiceId: nat)
    ensures AmountPaid(payments, invoiceId) == SumBy(payments, Contribution(invoiceId))
  {
    SumByFilter(payments, CompletedFor(invoiceId), PaymentAmount);
  }

  /** Only completed payments for this invoice move its paid amount, by exactly their amount. */
  lemma AmountPaidSnoc(payments: seq<Payment>, p: Payment, invoiceId: nat)
    ensures AmountPaid(payments + [p], invoiceId) ==
      AmountPaid(payments, invoiceId) + (if p.invoice == invoiceId && p.status == Completed then p.amount else 0)
  {
    AmountPaidAsSum(payments, invoiceId);
    AmountPaidAsSum(payments + [p], invoiceId);
    SumBySnoc(payments, p, Contribution(invoiceId));
  }

  /** Rewriting one payment changes a paid amount by the difference of its two contributions. */
  lemma AmountPaidReplace(payments: seq<Payment>, k: nat, q: Payment, invoiceId: nat)
    requires k < |payments|
    ensures AmountPaid(payments[k := q], invoiceId) ==
      AmountPaid(payments, invoiceId) - Contribution(invoiceId)(payments[k]) + Contribution(invoiceId)(q)
  {
    AmountPaidAsSum(payments, invoiceId);
    AmountPaidAsSum(payments[k := q], invoiceId);
    SumByReplace(payments, k, q, Contribution(invoiceId));
  }

  /** With non-negative payments, the paid amount is never negative. */
  lemma AmountPaidNonNegative(payments: seq<Payment>, invoiceId: nat)
    requires forall i :: 0 <= i < |payments| ==> payments[i].amount >= 0
    ensures AmountPaid(payments, invoiceId) >= 0
  {
    var done := Filter(payments, CompletedFor(invoiceId));
    forall x | x in done ensures PaymentAmount(x) >= 0 {
      var i :| 0 <= i < |done| && done[i] == x;
      assert done[i] in payments;
    }
    SumByNonNegative(done, PaymentAmount);
  }

  /** The ledger invariant: no stored invoice has more completed payments than its total. */
  predicate NotOverpaid(invoices: seq<Invoice>, payments: seq<Payment>) {
    forall i :: 0 <= i < |invoices| ==> AmountPaid(payments, invoices[i].id) <= invoices[i].total
  }

  /** What the pre-validate hook leaves in `invoiceNumber`. */
  function InvoiceNumberAfterHook(current: string, count: nat, year: nat): (r: string)
    ensures current != "" ==> r == current
    ensures current == "" ==> r == Numbering.DocNumber("INV", year, count)
  {
    if current != "" then current else Numbering.DocNumber("INV", year, count)
  }

  /** The one field the pre-validate hook writes. */
  class InvoiceDocument {
    var invoiceNumber: string

    constructor (invoiceNumber: string)
      ensures this.invoiceNumber == invoiceNumber
    {
      this.invoiceNumber := invoiceNumber;
    }

    /** The pre-validate hook: an empty number becomes `INV-<year>-<count + 1, 5 digits>`. */
    method PreValidate(count: nat, year: nat)
      modifies this
      ensures invoiceNumber == InvoiceNumberAfterHook(old(invoiceNumber), count, year)
    {
      if invoiceNumber == "" {
        invoiceNumber := Numbering.DocNumber("INV", year, count);
      }
    }
  }

  /** `Invoice.findById(id)`, as an index into the collection. */
  function FindInvoice(invoices: seq<Invoice>, id: nat): (r: Option<nat>)
    ensures r.Some? ==> r.value < |invoices| && invoices[r.value].id == id
    ensures r.None? <==> KeyAbsent(invoices, InvoiceId, id)
  {
    IndexOf(invoices, InvoiceIdIs(id))
  }

  /** The invoices collection: unique ids below `nextId`, unique numbers, all validated. */
  class InvoiceStore {
    var docs: seq<Invoice>
    var nextId: nat

    ghost predicate Valid()
      reads this
    {
      UniqueBy(docs, InvoiceId) && UniqueBy(docs, InvoiceNumber) &&
      forall i :: 0 <= i < |docs| ==> docs[i].id < nextId && InvoiceValid(docs[i])
    }

    constructor ()
      ensures Valid() && docs == [] && nextId == 0
    {
      docs := [];
      nextId := 0;
    }

    /** The insert of a new invoice under the next id: refused by the unique index on a number in use. */
    method Insert(inv: Invoice) returns (ok: bool)
      requires Valid() && inv.id == nextId && InvoiceValid(inv)
      modifies this
      ensures Valid()
      ensures ok <==> KeyAbsent(old(docs), InvoiceNumber, inv.invoiceNumber)
      ensures docs == (if ok then old(docs) + [inv] else old(docs))
      ensures nextId == (if ok then old(nextId) + 1 else old(nextId))
    {
      ok := KeyAbsent(docs, InvoiceNumber, inv.invoiceNumber);
      if ok {
        UniqueByAppend(docs, InvoiceId, inv);
        UniqueByAppend(docs, InvoiceNumber, inv);
        docs := docs + [inv];
        nextId := nextId + 1;
      }
    }

    /** `findByIdAndDelete` of the invoice at position `k`. */
    method Remove(k: nat)
      requires Valid() && k < |docs|
      modifies this
      ensures Valid() && nextId == old(nextId) && docs == RemoveAt(old(docs), k)
    {
      UniqueByRemove(docs, InvoiceId, k);
      UniqueByRemove(docs, InvoiceNumber, k);
      RemoveAtMembers(docs, k);
      RemoveAtIndex(docs, k);
      docs := RemoveAt(docs, k);
    }

    /** `findByIdAndUpdate` of the invoice at `k`: refused by the unique index when another invoice has the number. */
    method Update(k: nat, inv: Invoice) returns (ok: bool)
      requires Valid() && k < |docs| && inv.id == docs[k].id && InvoiceValid(inv)
      modifies this
      ensures Valid() && nextId == old(nextId)
      ensures ok <==> KeyFreeExcept(old(docs), InvoiceNumber, k, inv.invoiceNumber)
      ensures docs == if ok then old(docs)[k := inv] else old(docs)
    {
      ok := forall i :: 0 <= i < |docs| && i != k ==> docs[i].invoiceNumber != inv.invoiceNumber;
      if ok {
        UniqueByReplace(docs, InvoiceId, k, inv);
        UniqueByReplaceFresh(docs, InvoiceNumber, k, inv);
        docs := docs[k := inv];
      }
    }

    method Save(k: nat, inv: Invoice)
      requires Valid() && k < |docs| && inv.id == docs[k].id && inv.invoiceNumber == docs[k].invoiceNumber
      requires InvoiceValid(inv)
      modifies this
      ensures Valid() && nextId == old(nextId) && docs == old(docs)[k := inv]
    {
      UniqueByReplace(docs, InvoiceId, k, inv);
      UniqueByReplace(docs, InvoiceNumber, k, inv);
      docs := docs[k := inv];
    }
  }
}
