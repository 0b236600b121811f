/**
 * The `Payment` model: its stored fields and validators, the `completed` default, the
 * pre-save hook that numbers payments and receipts, and the payments collection.
 */
module PaymentModel {
  import opened Wrappers
  import opened Constants
  import opened Seqs
  import Numbering

  datatype Payment = Payment(
    id: nat,
    paymentNumber: string,
    invoice: nat,
    student: nat,
    parent: nat,
    amount: int,
    paymentMethod: PaymentMethod,
    transactionDate: int,
    receiptNumber: string,
    status: PaymentStatus,
    receivedBy: Option<nat>,
    createdAt: int)

  function PaymentId(p: Payment): nat { p.id }

  function PaymentNumber(p: Payment): string { p.paymentNumber }

  function ReceiptNumber(p: Payment): string { p.receiptNumber }

  function PaymentAmount(p: Payment): int { p.amount }

  /** `{ invoice: invoiceId, status: 'completed' }` */
  function CompletedFor(invoiceId: nat): Payment -> bool {
    (p: Payment) => p.invoice == invoiceId && p.status == Completed
  }

  /** `{ invoice: invoiceId }`, any status. */
  function ReferencesInvoice(invoiceId: nat): Payment -> bool {
    (p: Payment) => p.invoice == invoiceId
  }

  /** The validators that the typed fields do not already enforce: required and `min: 0`. */
  predicate PaymentValid(p: Payment) {
    p.paymentNumber != "" && p.receiptNumber != "" && p.amount >= 0
  }

  /** The `status` a created payment gets: `completed` when none is given, else the enum check. */
  function StatusOrDefault(status: Option<string>): (r: Option<PaymentStatus>)
    ensures status.None? ==> r == Some(Completed)
    ensures status.Some? ==> (r.Some? <==> status.value in {"pending", "completed", "failed", "refunded"})
    ensures r.Some? && status.Some? ==> PaymentStatusName(r.value) == status.value
  {
    match status
    case None => Some(Completed)
    case Some(s) => ParsePaymentStatus(s)
  }

  /** What the hook leaves in a number field: a value already present, else a new number. */
  function NumberAfterHook(current: string, prefix: string, count: nat, year: nat): (r: string)
    ensures current != "" ==> r == current
    ensures current == "" ==> r == Numbering.DocNumber(prefix, year, count)
  {
    if current != "" then current else Numbering.DocNumber(prefix, year, count)
  }

  /**
   * When both numbers are generated in one save from the same count, they differ only in
   * the prefix and carry the same numeric suffix, which reads back as `count + 1`.
   */
  lemma GeneratedNumbersShareSuffix(count: nat, year: nat)
    ensures var pay := NumberAfterHook("", "PAY", count, year);
      var rec := NumberAfterHook("", "REC", count, year);
      |pay| == |rec| && pay[3..] == rec[3..] &&
      pay[|pay| - |Numbering.Pad5(count + 1)|..] == Numbering.Pad5(count + 1) &&
      Numbering.Value(Numbering.Pad5(count + 1)) == count + 1
  {
    Numbering.Pad5ReadsBack(count + 1);
    var pay := NumberAfterHook("", "PAY", count, year);
    var tail := "-" + Numbering.Digits(year) + "-" + Numbering.Pad5(count + 1);
    assert pay == "PAY" + tail;
    assert NumberAfterHook("", "REC", count, year) == "REC" + tail;
  }

  /** The two fields the pre-save hook writes, on the document being saved. */
  class PaymentDocument {
    var paymentNumber: string
    var receiptNumber: string

    constructor (paymentNumber: string, receiptNumber: string)
      ensures this.paymentNumber == paymentNumber && this.receiptNumber == receiptNumber
    {
      this.paymentNumber := paymentNumber;
      this.receiptNumber := receiptNumber;
    }

    /** The pre-save hook: both fields are filled from `countDocuments()` when empty. */
    method PreSave(count: nat, year: nat)
      modifies this
      ensures paymentNumber == NumberAfterHook(old(paymentNumber), "PAY", count, year)
      ensures receiptNumber == NumberAfterHook(old(receiptNumber), "REC", count, year)
    {
      if paymentNumber == "" {
        paymentNumber := Numbering.DocNumber("PAY", year, count);
      }
      if receiptNumber == "" {
        receiptNumber := Numbering.DocNumber("REC", year, count);
      }
    }
  }

  /**
   * The payments collection. Nothing deletes a payment, so a payment's id is its position;
   * both numbers have unique indexes, and every stored payment passed the validators.
   */
  class PaymentStore {
    var docs: seq<Payment>

    ghost predicate Valid()
      reads this
    {
      (forall i :: 0 <= i < |docs| ==> docs[i].id == i && PaymentValid(docs[i])) &&
      UniqueBy(docs, PaymentNumber) && UniqueBy(docs, ReceiptNumber)
    }

    constructor ()
      ensures Valid() && docs == []
    {
      docs := [];
    }

    /** The insert at the end of a save: refused by the unique indexes on a number in use. */
    method Insert(p: Payment) returns (ok: bool)
      requires Valid() && p.id == |docs| && PaymentValid(p)
      modifies this
      ensures Valid()
      ensures ok <==> (KeyAbsent(old(docs), PaymentNumber, p.paymentNumber) &&
        KeyAbsent(old(docs), ReceiptNumber, p.receiptNumber))
      ensures docs == if ok then old(docs) + [p] else old(docs)
    {
      ok := KeyAbsent(docs, PaymentNumber, p.paymentNumber) && KeyAbsent(docs, ReceiptNumber, p.receiptNumber);
      if ok {
        UniqueByAppend(docs, PaymentNumber, p);
        UniqueByAppend(docs, ReceiptNumber, p);
        docs := docs + [p];
      }
    }

    /** `findByIdAndUpdate` of the payment at `k`: refused by the unique indexes when another payment has either number. */
    method Replace(k: nat, p: Payment) returns (ok: bool)
      requires Valid() && k < |docs| && p.id == docs[k].id && PaymentValid(p)
      modifies this
      ensures Valid()
      ensures ok <==> (KeyFreeExcept(old(docs), PaymentNumber, k, p.paymentNumber) &&
        KeyFreeExcept(old(docs), ReceiptNumber, k, p.receiptNumber))
      ensures docs == if ok then old(docs)[k := p] else old(docs)
    {
      ok := (forall i :: 0 <= i < |docs| && i != k ==> docs[i].paymentNumber != p.paymentNumber) &&
        (forall i :: 0 <= i < |docs| && i != k ==> docs[i].receiptNumber != p.receiptNumber);
      if ok {
        UniqueByReplaceFresh(docs, PaymentNumber, k, p);
        UniqueByReplaceFresh(docs, ReceiptNumber, k, p);
        docs := docs[k := p];
      }
    }
  }

  function PaymentIdIs(id: nat): Payment -> bool { (p: Payment) => p.id == id }

  /** `Payment.findById(id)`, as an index into the collection. */
  function FindPayment(payments: seq<Payment>, id: nat): (r: Option<nat>)
    ensures r.Some? ==> r.value < |payments| && payments[r.value].id == id
    ensures r.None? <==> KeyAbsent(payments, PaymentId, id)
  {
    IndexOf(payments, PaymentIdIs(id))
  }

  /**
   * `Payment.create` in the order Mongoose runs a save: the validators first, then the
   * pre-save hook. The required numbers are checked before the hook could fill them.
   */
  function SaveAsWritten(p: Payment, count: nat, year: nat): (r: Result<Payment>)
    ensures r.Ok? <==> PaymentValid(p)
    ensures r.Err? ==> r.error.status == ServerError
  {
    if !PaymentValid(p) then Fail(ServerError, "Payment validation failed")
    else Ok(p.(paymentNumber := NumberAfterHook(p.paymentNumber, "PAY", count, year),
               receiptNumber := NumberAfterHook(p.receiptNumber, "REC", count, year)))
  }

  /** As written, a save that succeeds kept the numbers it was given: the hook never numbers. */
  lemma SaveAsWrittenNeverNumbers(p: Payment, count: nat, year: nat)
    requires SaveAsWritten(p, count, year).Ok?
    ensures SaveAsWritten(p, count, year).value == p
  {
  }

  /** As written, a payment created without numbers is refused with a 500. */
  lemma UnnumberedPaymentRefused(p: Payment, count: nat, year: nat)
    requires p.paymentNumber == "" || p.receiptNumber == ""
    ensures SaveAsWritten(p, count, year).Err?
    ensures SaveAsWritten(p, count, year).error.status == ServerError
  {
  }

  /**
   * The save as the hook evidently intends it (the order the invoice hook gets from
   * `pre('validate')`): numbers are filled first, so only the amount can fail validation.
   */
  function SaveNumbered(p: Payment, count: nat, year: nat): (r: Result<Payment>)
    ensures r.Ok? <==> p.amount >= 0
    ensures r.Err? ==> r.error.status == ServerError
    ensures r.Ok? ==> PaymentValid(r.value) && r.value.id == p.id && r.value.amount == p.amount
    ensures r.Ok? ==> r.value.paymentNumber == NumberAfterHook(p.paymentNumber, "PAY", count, year)
    ensures r.Ok? ==> r.value.receiptNumber == NumberAfterHook(p.receiptNumber, "REC", count, year)
  {
    var numbered := p.(paymentNumber := NumberAfterHook(p.paymentNumber, "PAY", count, year),
                       receiptNumber := NumberAfterHook(p.receiptNumber, "REC", count, year));
    if PaymentValid(numbered) then Ok(numbered) else Fail(ServerError, "Payment validation failed")
  }
}
