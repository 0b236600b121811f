# School administration core, modelled in Dafny

This project models the core of a school-administration web application: a REST backend over a
document store (users, students, fee structures, invoices, payments, attendance) and the parts of
its web client that transform data before showing or sending it. Every collection of the
document store is a sequence of records; every request handler is a function from the stored
collections and the request to a result and the new collections, and a class per collection with
methods that apply that function in place. Errors are an `HttpError(status, message)` with the
status the server would answer with.

What is covered:

- **The fee ledger.** Invoices with their items, subtotal, tax, discount and total; payments and
  the amount paid and due per invoice; the generated `INV-`, `PAY-` and `REC-` document numbers;
  how creating a payment moves an invoice to `paid` or `partially_paid`; and a ledger invariant
  (unique ids, every payment refers to a stored invoice, no invoice overpaid) that creating and
  deleting invoices and recording payments keep, with counterexamples where the update handlers
  break it.
- **Access control.** The bearer-token check and the role check of the middleware, and the
  scoping of every listing and lookup to the caller's own children, invoices and payments when
  the caller is a parent; the error handler's choice of status.
- **Record upkeep.** Students and their link into the parent's `children` list (`$addToSet` and
  `$pull`), users, fee structures and attendance records (one record per student per day, upserted),
  each with the validators and unique indexes the schemas declare.
- **Reports and dashboards.** The fee-collection, outstanding-dues, payment-history and class-wise
  reports, the admin dashboard and the parent dashboard, each proved to add up (totals equal sums,
  groups partition their input, rates in range).
- **Client transforms.** The invoice form's items and class list, the WhatsApp share number, the
  fee form's class toggle, the attendance sheet (pre-fill, mark all, payload), the display
  formatters, and the reducers of the fee, student and attendance slices of the client store,
  each slice as a class whose `Dispatch` applies the pure reducer.

Money is an integer amount and dates are integer milliseconds. Percentages are exact fractions.
Paging takes positive `page` and `limit`.

## Model

| member | source | states |
|---|---|---|
| `Constants.ParseRole` | backend/src/config/constants.js:1-4 | a role string is accepted exactly when it is `admin` or `parent`, and parsing inverts `RoleName` |
| `Constants.ParseStudentStatus` | backend/src/config/constants.js:6-11 | accepts exactly the four student statuses and inverts `StudentStatusName` |
| `Constants.ParseAttendanceStatus` | backend/src/config/constants.js:13-18 | accepts exactly `present`, `absent`, `late`, `excused` and inverts `AttendanceStatusName` |
| `Constants.ParseFeeFrequency` | backend/src/config/constants.js:20-26 | accepts exactly the five fee frequencies and inverts `FeeFrequencyName` |
| `Constants.ParseInvoiceStatus` | backend/src/config/constants.js:28-34 | accepts exactly the five invoice statuses and inverts `InvoiceStatusName` |
| `Constants.ParsePaymentMethod` | backend/src/config/constants.js:36-42 | accepts exactly the five payment methods and inverts `PaymentMethodName` |
| `Constants.ParsePaymentStatus` | backend/src/config/constants.js:44-49 | accepts exactly the four payment statuses and inverts `PaymentStatusName` |
| `Constants.ParseGender` | backend/src/config/constants.js:51-55 | accepts exactly `male`, `female`, `other` and inverts `GenderName` |
| `Auth.UpToSpace` | backend/src/middleware/auth.js:18 | the result is the longest space-free prefix of its input |
| `Auth.SecondWord` | backend/src/middleware/auth.js:18 | `split(' ')[1]` is missing exactly when the header has no space; otherwise it is the space-free text right after the first space |
| `Auth.BearerTokenReadBack` | backend/src/middleware/auth.js:18 | the token of `"Bearer " + token` reads back as `token` for any space-free token |
| `Auth.UpToSpaceWhole` | backend/src/middleware/auth.js:18 | a space-free text is its own first word |
| `Auth.Protect` | backend/src/middleware/auth.js:8-48 | every refusal is 401; it is "no token" exactly when the header is missing or does not start with `Bearer`, else "token failed"; an admitted user is active, was found under the id the token verifies to, and comes back without the password |
| `Auth.ProtectAdmitsActiveUser` | backend/src/middleware/auth.js:12-36 | a valid bearer token of an active stored user admits that user, password removed |
| `Auth.OwnerCheck` | backend/src/controllers/studentController.js:54-57 | the ownership test passes exactly when the caller may see the record and, for a parent caller, the record's parent is a stored user; a parent caller whose record's parent is not stored gets 500 from the null populate, any other refusal is 403 |
| `Auth.Authorize` | backend/src/middleware/auth.js:54-68 | no user gives 401 "Not authorized"; a user passes exactly when its role is listed, and is otherwise refused with 403 and the message naming its role |
| `ErrorHandler.ReportedStatus` | backend/src/middleware/errorHandler.js:8 | the answer is never 200: a status already set is kept and 200 becomes 500 |
| `ErrorHandler.HandleError` | backend/src/middleware/errorHandler.js:4-15 | the body is unsuccessful with the error's message, and has a stack exactly in development |
| `ErrorHandler.Respond` | backend/src/middleware/errorHandler.js:4-15 | an error thrown with a status is answered with that status and its message |
| `ErrorHandler.NotFoundError` | backend/src/middleware/errorHandler.js:20-24 | an unknown route gives 404 with the message `Not Found - ` followed by the URL |
| `ErrorHandler.UnknownRouteAnswered` | backend/src/middleware/errorHandler.js:20-24 | the not-found error passes through the handler as 404 with its message |
| `Numbering.DigitRoundTrip` | backend/src/models/Payment.js:87 | reading a written digit gives the digit back |
| `Numbering.Digits` | backend/src/models/Payment.js:87 | `String(n)` is a non-empty run of digits with no leading zero |
| `Numbering.DigitsValue` | backend/src/models/Payment.js:87 | the decimal text of `n` reads back as `n` |
| `Numbering.PadStart` | backend/src/models/Payment.js:87 | `padStart` gives a text at least as wide as asked that ends with the original text |
| `Numbering.ZerosValue` | backend/src/models/Payment.js:87 | leading zeros do not change the value of a digit text |
| `Numbering.Pad5ReadsBack` | backend/src/models/Payment.js:87 | the five-digit padded counter is all digits, at least five wide, and reads back as the counter |
| `Numbering.Pad5` | backend/src/models/Payment.js:87 | the counter padded to five digits; `Pad5ReadsBack` states it |
| `Numbering.DocNumberInjective` | backend/src/models/Payment.js:87 | two document numbers with the same prefix and year are equal only for the same count |
| `Numbering.DocNumber` | backend/src/models/Payment.js:87 | prefix, year and padded `count + 1`; `DocNumberInjective`, `DocNumberSuffix` and `DocNumberCount` state its properties |
| `Numbering.DocNumberSuffix` | backend/src/models/Payment.js:87 | after the prefix, the year and the two dashes a number holds the padded count |
| `Numbering.DocNumberCount` | backend/src/models/Payment.js:87 | the digits after the year read back as the count plus one |
| `PaymentModel.StatusOrDefault` | backend/src/models/Payment.js:63-67 | a missing status defaults to `completed`; a given one is accepted exactly when it is one of the four payment statuses |
| `PaymentModel.NumberAfterHook` | backend/src/models/Payment.js:83-97 | a number already set is kept; a missing one becomes `<prefix>-<year>-<count + 1 padded to 5>` |
| `PaymentModel.GeneratedNumbersShareSuffix` | backend/src/models/Payment.js:84-94 | the generated payment and receipt numbers differ only in their prefix and end with the padded `count + 1` |
| `PaymentModel.PaymentDocument.constructor` | backend/src/models/Payment.js:6-51 | a document starts with the numbers it is given |
| `PaymentModel.PaymentDocument.PreSave` | backend/src/models/Payment.js:83-97 | the hook fills each missing number from the count and year and keeps a present one |
| `PaymentModel.PaymentStore.constructor` | backend/src/models/Payment.js:108 | an empty collection satisfies the unique-index invariant |
| `PaymentModel.PaymentStore.Insert` | backend/src/models/Payment.js:6-51 | a payment is stored exactly when its payment and receipt numbers are both unused, and is then appended; the invariant is kept |
| `PaymentModel.PaymentStore.Replace` | backend/src/models/Payment.js:6-51 | replacing a payment is refused exactly when another payment has its payment or receipt number; otherwise exactly that entry changes; the invariant is kept either way |
| `PaymentModel.FindPayment` | backend/src/controllers/paymentController.js:124-129 | `findById` finds an entry with that id, and finds nothing exactly when no entry has it |
| `PaymentModel.SaveAsWritten` | backend/src/models/Payment.js:83-97 | with the hook on `save`, validation runs first: the save succeeds exactly when the payment is already valid, and every failure is 500 |
| `PaymentModel.SaveAsWrittenNeverNumbers` | backend/src/models/Payment.js:83-97 | when the as-written save succeeds, it stores the payment unchanged, so the hook has had nothing to fill |
| `PaymentModel.UnnumberedPaymentRefused` | backend/src/models/Payment.js:6-11 | a payment without a payment or receipt number is refused with 500 by the as-written save |
| `PaymentModel.SaveNumbered` | backend/src/models/Payment.js:83-97 | with the numbers filled before validation, the save succeeds exactly when the amount is not negative, and stores a valid payment with the generated numbers |
| `PaymentController.Draft` | backend/src/controllers/paymentController.js:92-97 | the created document succeeds exactly when amount and a valid method are given and the status is valid or missing; it takes the student and parent of the invoice and the caller as receiver, and the body's amount, method, date (now by default), status (`completed` by default) and numbers |
| `PaymentController.TargetInvoice` | backend/src/controllers/paymentController.js:76-80 | finds an invoice with the body's id, and nothing exactly when the body names none or no stored invoice has it |
| `PaymentController.NewPayment` | backend/src/controllers/paymentController.js:92-97 | a created payment is valid, gets the next id, refers to the invoice, copies its student and parent, records the caller, and has the body's amount; it saves with the corrected `SaveNumbered` |
| `PaymentController.CreatePaymentUnknownInvoice` | backend/src/controllers/paymentController.js:76-80 | an unknown invoice gives 404 "Invoice not found" and changes nothing |
| `PaymentController.CreatePayment` | backend/src/controllers/paymentController.js:72-118 | the handler as a function of the two collections; `CreatePaymentCases`, `CreatePaymentRecords`, `CreatePaymentKeepsNotOverpaid` and `CreatePaymentKeepsLedger` state what it does |
| `PaymentController.FoundInvoice` | backend/src/controllers/paymentController.js:76 | with unique ids, looking up a stored invoice's id finds that invoice |
| `PaymentController.CreatePaymentOverDue` | backend/src/controllers/paymentController.js:82-90 | an amount above the amount due (total minus completed payments) gives 400 with the due amount in the message and changes nothing |
| `PaymentController.CreatePaymentExactDue` | backend/src/controllers/paymentController.js:72-106 | paying exactly what is due on a valid invoice stores the payment and marks the invoice `paid` |
| `PaymentController.ReconcileRecords` | backend/src/controllers/paymentController.js:92-106 | a stored payment is appended and only the target invoice's status changes, by the paid / partially-paid rule on the new total paid |
| `PaymentController.ReconcileStored` | backend/src/controllers/paymentController.js:92-97 | a payment with unused numbers for a valid invoice is stored |
| `PaymentController.Reconcile` | backend/src/controllers/paymentController.js:92-106 | the unique-index check, the insert and the status update; `ReconcileOutcome`, `ReconcileRecords` and `ReconcileKeepsNotOverpaid` state what it does |
| `PaymentController.CreatePaymentRecords` | backend/src/controllers/paymentController.js:72-106 | a successful payment is appended with the next id, targets a stored invoice, copies its student and parent, records the caller, lies between 0 and the amount due, and the invoice's status follows the new total paid |
| `PaymentController.StatusAfterPaymentCases` | backend/src/controllers/paymentController.js:100-105 | a new total at or above the invoice total gives `paid`, a positive one below it `partially_paid`, and otherwise the status stays |
| `PaymentController.StatusAfterPayment` | backend/src/controllers/paymentController.js:100-105 | the invoice status from the new total paid; `StatusAfterPaymentCases` states its three cases |
| `PaymentController.AppendWithinDue` | backend/src/controllers/paymentController.js:82-90 | adding a payment no larger than the amount due keeps every invoice not overpaid |
| `PaymentController.StatusChangeKeepsNotOverpaid` | backend/src/controllers/paymentController.js:100-106 | changing an invoice's status keeps every invoice not overpaid |
| `PaymentController.ReconcileKeepsNotOverpaid` | backend/src/controllers/paymentController.js:82-106 | reconciling a payment within the amount due keeps every invoice not overpaid |
| `PaymentController.CreatePaymentKeepsNotOverpaid` | backend/src/controllers/paymentController.js:72-118 | whatever the body, creating a payment never leaves an invoice with more completed payments than its total |
| `PaymentController.ReconcileShape` | backend/src/controllers/paymentController.js:92-106 | reconciling changes at most invoice statuses and at most appends the one payment |
| `PaymentController.CreatePaymentShape` | backend/src/controllers/paymentController.js:72-118 | creating a payment changes at most invoice statuses, and at most appends one payment that refers to a stored invoice |
| `PaymentController.NewPaymentAsWritten` | backend/src/models/Payment.js:83-97 | as written, a body without either number fails with 500, and one with both is saved as the corrected `NewPayment` saves it |
| `PaymentController.CreatePaymentAsWrittenRefusesUnnumbered` | backend/src/models/Payment.js:83-97 | as written, a payment body without a payment or receipt number is answered with an error and neither collection changes |
| `PaymentController.CreatePaymentAsWrittenAgrees` | backend/src/controllers/paymentController.js:72-118 | with both numbers in the body, `createPayment` as written and with the corrected save give the same answer and collections |
| `PaymentController.CreatePaymentAsWritten` | backend/src/controllers/paymentController.js:72-118 | `createPayment` as written, with the validators run before the numbering hook; `CreatePaymentAsWrittenRefusesUnnumbered` and `CreatePaymentAsWrittenAgrees` state what it does |
| `PaymentController.UnnumberedBodyDiffers` | frontend/src/pages/Payments.jsx:62-65 | a body like the payment form's, which sends no numbers, is stored by the corrected handler and refused by the code as written |
| `PaymentController.ReconcileStatusMatchesBalance` | backend/src/controllers/paymentController.js:100-105 | after a completed payment the invoice is `paid` when nothing is due, `partially_paid` when part is due, and unchanged when all is still due |
| `PaymentController.CompletedPaymentStatusMatchesBalance` | backend/src/controllers/paymentController.js:72-118 | the same agreement of status and balance after a successful `createPayment` of a completed payment |
| `PaymentController.PendingPaymentMarksPaid` | backend/src/controllers/paymentController.js:100-102 | a pending payment of the full amount marks the invoice `paid` although all of it is still due |
| `PaymentController.CancelledInvoiceTakesPayment` | backend/src/controllers/paymentController.js:76-105 | a cancelled invoice is not refused: a part payment turns it `partially_paid` |
| `PaymentController.NumberPayment` | backend/src/models/Payment.js:83-97 | the save numbers the draft from the count and year, as the corrected hook does |
| `PaymentController.Settle` | backend/src/controllers/paymentController.js:92-106 | storing the payment and saving the invoice leave both collections as the reconciliation says, with their invariants |
| `PaymentController.RecordPayment` | backend/src/controllers/paymentController.js:72-118 | the handler over the two collections returns the result of `CreatePayment` (with the corrected save) and leaves both collections as it says |
| `PaymentController.GetPaymentsScoped` | backend/src/controllers/paymentController.js:8-44 | at most `limit` payments are listed, the total counts every match, and each listed payment is stored and matches the student, invoice, status and date window asked for, and a parent sees only their own |
| `PaymentController.GetPayments` | backend/src/controllers/paymentController.js:8-44 | the scoped, filtered, sorted page; `GetPaymentsScoped` and `GetPaymentsNewestFirst` state its properties |
| `PaymentController.GetPaymentsNewestFirst` | backend/src/controllers/paymentController.js:26-33 | the page is ordered by transaction date, newest first |
| `PaymentController.GetPaymentById` | backend/src/controllers/paymentController.js:49-67 | an unknown id gives 404; a stored one is returned exactly when the caller is an admin, or is the payment's parent and that parent is a stored user; a parent caller is otherwise refused with 500 when the payment's parent is no longer stored, else with 403 |
| `PaymentController.UniqueFind` | backend/src/controllers/paymentController.js:50 | with unique ids, there is one entry with a given id |
| `PaymentController.Patched` | backend/src/controllers/paymentController.js:131-134 | an update passes exactly when the numbers it sends are non-empty, the amount is at least 0 and the method and status are known (else 500); every path it sends is written, references and numbers included, only the id and creation time stay, and a valid payment stays valid |
| `PaymentController.UpdatePaymentChanges` | backend/src/controllers/paymentController.js:123-144 | an unknown id gives 404; a failure changes nothing; a success replaces exactly the entry with that id; `UpdatePaymentStores` says what is stored and when |
| `PaymentController.UpdatePaymentStores` | backend/src/controllers/paymentController.js:123-144 | for the payment found at `k`, the edit succeeds exactly when the update validators pass and no other payment holds the resulting payment or receipt number; a success stores the patched payment at `k` and nothing else |
| `PaymentController.UpdatePayment` | backend/src/controllers/paymentController.js:123-144 | the update as a function of the collection; `UpdatePaymentChanges`, `UpdatePaymentStores` and `EditPayment` state what it does |
| `PaymentController.UpdatePaymentCanOverpay` | backend/src/controllers/paymentController.js:131-134 | raising a paid amount is accepted and leaves the invoice overpaid, since the update does not check the amount due |
| `PaymentController.UpdatePaymentCanRepoint` | backend/src/controllers/paymentController.js:131-134 | an edit can move a payment to an invoice id nothing has; the invoice it left has nothing paid against it |
| `PaymentController.EditPayment` | backend/src/controllers/paymentController.js:123-144 | the handler over the collection returns and stores what `UpdatePayment` says and keeps the unique-index invariant |
| `InvoiceModel.SubtotalNonNegative` | backend/src/models/Invoice.js:22-43 | items that pass their validators have a subtotal of at least 0 |
| `InvoiceModel.Subtotal` | backend/src/controllers/invoiceController.js:82 | the sum of the item amounts; `SubtotalNonNegative` and `SubtotalSnoc` state its properties |
| `InvoiceModel.SubtotalSnoc` | backend/src/controllers/invoiceController.js:82 | adding an item adds its amount to the subtotal |
| `InvoiceModel.OverdueOnlyWhenPending` | backend/src/models/Invoice.js:92-97 | only a pending invoice is overdue, exactly when now is past its due date |
| `InvoiceModel.IsOverdue` | backend/src/models/Invoice.js:92-97 | pending and past due; `OverdueOnlyWhenPending` states when it holds |
| `InvoiceModel.AmountPaidAsSum` | backend/src/models/Invoice.js:100-107 | the amount paid is the sum over all payments of the completed amounts for that invoice |
| `InvoiceModel.AmountPaid` | backend/src/models/Invoice.js:100-107 | the sum of the completed payments of the invoice; `AmountPaidAsSum`, `AmountPaidSnoc` and `AmountPaidReplace` state its properties |
| `InvoiceModel.AmountDue` | backend/src/models/Invoice.js:110-113 | the total minus the amount paid; `ReconcileStatusMatchesBalance` and `SummaryDueIsSumOfDues` use it |
| `InvoiceModel.AmountPaidSnoc` | backend/src/models/Invoice.js:100-107 | a new payment adds its amount to the amount paid exactly when it is a completed payment of that invoice |
| `InvoiceModel.AmountPaidReplace` | backend/src/models/Invoice.js:100-107 | replacing a payment changes the amount paid by the difference of the two contributions |
| `InvoiceModel.AmountPaidNonNegative` | backend/src/models/Invoice.js:100-107 | with no negative payment the amount paid is at least 0 |
| `InvoiceModel.InvoiceNumberAfterHook` | backend/src/models/Invoice.js:82-89 | a number already set is kept; a missing one becomes `INV-<year>-<count + 1 padded to 5>` |
| `InvoiceModel.InvoiceDocument.constructor` | backend/src/models/Invoice.js:6-11 | a document starts with the number it is given |
| `InvoiceModel.InvoiceDocument.PreValidate` | backend/src/models/Invoice.js:82-89 | the hook fills a missing number from the count and year and keeps a present one |
| `InvoiceModel.FindInvoice` | backend/src/controllers/invoiceController.js:106-111 | `findById` finds an entry with that id, and nothing exactly when no entry has it |
| `InvoiceModel.InvoiceStore.constructor` | backend/src/models/Invoice.js:122 | an empty collection satisfies the invariant |
| `InvoiceModel.InvoiceStore.Insert` | backend/src/models/Invoice.js:6-11 | an invoice is stored exactly when its number is unused, and then appended with the next id; the invariant is kept |
| `InvoiceModel.InvoiceStore.Remove` | backend/src/controllers/invoiceController.js:151 | deleting removes exactly that entry and keeps the invariant |
| `InvoiceModel.InvoiceStore.Save` | backend/src/controllers/paymentController.js:100-106 | `invoice.save()` of a valid invoice under its own id and number replaces exactly that entry |
| `InvoiceModel.InvoiceStore.Update` | backend/src/controllers/invoiceController.js:119-122 | an edit is refused exactly when another invoice has its number; otherwise exactly that entry changes; the invariant and the id counter are kept |
| `InvoiceController.StatusOrPending` | backend/src/models/Invoice.js:63-67 | a missing status defaults to `pending`; a given one is accepted exactly when it is one of the five invoice statuses |
| `InvoiceController.BuildInvoice` | backend/src/controllers/invoiceController.js:79-89 | the created invoice passes the schema exactly when its required fields, items, tax, discount and total are valid (else 500); its subtotal is the sum of the items, its total subtotal plus tax minus discount, tax and discount default to 0 |
| `InvoiceController.CreateInvoice` | backend/src/controllers/invoiceController.js:78-100 | a missing `items` fails; a new invoice is stored exactly when it is valid and its number unused, and is then appended; every failure is 500 and changes nothing |
| `InvoiceController.CreateInvoiceTotals` | backend/src/controllers/invoiceController.js:79-83 | a created invoice has the given items, their sum as subtotal and subtotal plus tax minus discount as total |
| `InvoiceController.OverDiscountRefused` | backend/src/models/Invoice.js:54-58 | a discount larger than subtotal plus tax makes the total negative, so the invoice is refused and nothing changes |
| `InvoiceController.UnreferencedId` | backend/src/models/Invoice.js:100-107 | in a consistent ledger, an id with no stored invoice has nothing paid |
| `InvoiceController.CreateInvoiceKeepsLedger` | backend/src/controllers/invoiceController.js:78-100 | creating an invoice keeps the ledger consistent: unique ids below the counter, every payment refers to a stored invoice, none overpaid |
| `InvoiceController.Ledger` | backend/src/models/Payment.js:12-16 | unique invoice ids below the counter, every payment referring to a stored invoice, none overpaid; the handlers that keep it say so in their lemmas |
| `InvoiceController.SameButStatusIds` | backend/src/controllers/paymentController.js:100-106 | changing only statuses keeps the ids unique and below the counter |
| `InvoiceController.SameButStatusRefs` | backend/src/controllers/paymentController.js:92-106 | changing only statuses and appending a payment for a stored invoice keeps every payment referring to a stored invoice |
| `InvoiceController.CreatePaymentKeepsLedger` | backend/src/controllers/paymentController.js:72-118 | recording a payment keeps the ledger consistent |
| `InvoiceController.NumberReusedAfterDelete` | backend/src/models/Invoice.js:82-89 | counting documents to number them reuses a number after a delete: when the one invoice left holds `INV-<year>-00002`, the next valid invoice (numbered from a count of 1) is refused with 500 "Duplicate key" |
| `InvoiceController.OrElse` | backend/src/controllers/invoiceController.js:116 | the or-default of the update takes the given number unless it is missing or 0, and the stored one otherwise |
| `InvoiceController.Recomputed` | backend/src/controllers/invoiceController.js:113-117 | without items the body is unchanged; with items its subtotal becomes their sum and its total that sum plus tax minus discount, each taken from the invoice when missing or 0 |
| `InvoiceController.Applied` | backend/src/controllers/invoiceController.js:119-122 | every path the body sends is written, number, student, parent, year and term included; only the id and creation time stay; an unknown status, an empty number or year fails with 500; a body within the bounds on a valid invoice passes; the result is a valid invoice |
| `InvoiceController.UpdateInvoice` | backend/src/controllers/invoiceController.js:105-131 | an unknown id gives 404; a failure changes nothing; a success replaces exactly the entry with that id by the recomputed update and leaves the number unique; for the invoice with that id, a valid recomputed update whose number no other invoice has succeeds and is stored, and one whose number another invoice has gives 500 "Duplicate key" |
| `InvoiceController.UpdateInvoiceTotals` | backend/src/controllers/invoiceController.js:113-117 | with items the stored totals are recomputed; a tax of 0 sent with items uses the old tax in the total but stores 0, so the total no longer equals subtotal plus tax minus discount |
| `InvoiceController.UpdateWithoutItemsKeepsTotals` | backend/src/controllers/invoiceController.js:113-117 | without items, the totals are those of the body or the stored ones, not recomputed |
| `InvoiceController.UpdateInvoiceCanOverpay` | backend/src/controllers/invoiceController.js:105-131 | lowering the total of a paid invoice below what was paid is accepted and leaves it overpaid |
| `InvoiceController.UpdatePaymentBreaksLedger` | backend/src/controllers/paymentController.js:131-134 | a payment edit that re-points the payment to an unknown invoice is accepted and breaks the ledger invariant that held before |
| `InvoiceController.DeleteInvoice` | backend/src/controllers/invoiceController.js:136-157 | an unknown id gives 404; an invoice with any payment gives 400 and stays; otherwise exactly that invoice is removed |
| `InvoiceController.AnyPaymentBlocksDelete` | backend/src/controllers/invoiceController.js:144-149 | any payment, whatever its status, blocks deleting its invoice |
| `InvoiceController.RemoveKeepsBounds` | backend/src/controllers/invoiceController.js:151 | removing an invoice keeps ids unique and below the counter and no invoice overpaid |
| `InvoiceController.RemoveKeepsReferences` | backend/src/controllers/invoiceController.js:144-151 | removing an invoice no payment refers to keeps every payment referring to a stored invoice |
| `InvoiceController.DeleteInvoiceKeepsLedger` | backend/src/controllers/invoiceController.js:136-157 | deleting an invoice keeps the ledger consistent |
| `InvoiceController.GetInvoiceById` | backend/src/controllers/invoiceController.js:44-73 | an unknown id gives 404; a stored invoice is returned exactly when the caller may see it and, for a parent caller, its parent is a stored user, with its amount paid and amount due; a parent caller is otherwise refused with 500 when the invoice's parent is no longer stored, else with 403 |
| `InvoiceController.UniqueInvoice` | backend/src/controllers/invoiceController.js:45 | with unique ids, there is one entry with a given id |
| `InvoiceController.ReportedBalanceInRange` | backend/src/controllers/invoiceController.js:61-71 | in a consistent ledger with no negative payment, the reported amount paid is at least 0 and the amount due lies between 0 and the total |
| `InvoiceController.GetInvoicesScoped` | backend/src/controllers/invoiceController.js:8-39 | at most `limit` invoices are listed, the total counts every match and the page count is total over limit rounded up; each listed invoice is stored and matches the status and student asked for, and a parent sees only their own |
| `InvoiceController.GetInvoices` | backend/src/controllers/invoiceController.js:8-39 | the scoped, filtered, sorted page; `GetInvoicesScoped` and `GetInvoicesNewestFirst` state its properties |
| `InvoiceController.ParentIdOverridden` | backend/src/controllers/invoiceController.js:14-19 | for a parent caller the `parentId` of the query makes no difference |
| `InvoiceController.GetInvoicesNewestFirst` | backend/src/controllers/invoiceController.js:22-28 | the page is ordered by creation time, newest first |
| `InvoiceController.AddInvoice` | backend/src/controllers/invoiceController.js:78-100 | the handler over the collection returns and stores what `CreateInvoice` says and advances the id counter only on success |
| `InvoiceController.EditInvoice` | backend/src/controllers/invoiceController.js:105-131 | the handler over the collection returns and stores what `UpdateInvoice` says |
| `InvoiceController.RemoveInvoice` | backend/src/controllers/invoiceController.js:136-157 | the handler over the collection returns and stores what `DeleteInvoice` says |
| `Ratios.PercentOf` | backend/src/controllers/reportController.js:255-257 | the rate is 0 for a zero whole and otherwise exactly 100 times part over whole |
| `Ratios.PercentInRange` | backend/src/controllers/reportController.js:255-257 | a part between 0 and the whole gives a rate between 0 and 100 |
| `Reports.SortedSum` | backend/src/controllers/reportController.js:47-48 | ordering the groups does not change their sum |
| `Reports.FeeCollectionTotals` | backend/src/controllers/reportController.js:8-59 | the grand total is the sum of the included payments (completed, in the window, of a stored student of the class) and equals the sum of the monthly rows; the payment count is the number included and the sum of the row counts |
| `Reports.FeeCollectionReport` | backend/src/controllers/reportController.js:8-59 | the collection report; `FeeCollectionTotals`, `FeeCollectionIncluded`, `FeeCollectionMonthsAscending`, `ClassBreakdownTotal` and `UnenrolledUncollected` state its properties |
| `Reports.ClassBreakdownTotal` | backend/src/controllers/reportController.js:35-47 | the class-by-month rows add up to the grand total |
| `Reports.FeeCollectionIncluded` | backend/src/controllers/reportController.js:11-21 | only completed payments whose student is stored, of the filtered class and, when both ends are given, of the date window are included |
| `Reports.FeeCollectionMonthsAscending` | backend/src/controllers/reportController.js:23-33 | the monthly rows are in ascending month order |
| `Reports.MonthRowMeaning` | backend/src/controllers/reportController.js:25-31 | a month's row holds the sum and the number of the included payments of that month |
| `Reports.DueRowMeaning` | backend/src/controllers/reportController.js:85-110 | an outstanding-dues row carries the invoice's number, status and total, the amount paid by completed payments, the amount due, overdue exactly when the due date is past, and the student's class |
| `Reports.OutstandingRows` | backend/src/controllers/reportController.js:64-111 | at most `limit` rows are listed, each from a pending or part-paid invoice whose student is stored, of the filtered class, and whose parent is stored |
| `Reports.OutstandingDuesReport` | backend/src/controllers/reportController.js:64-149 | the outstanding-dues report; `OutstandingRows`, `OutstandingOrderAndCount`, `SummaryDueIsSumOfDues` and `UnenrolledNotOutstanding` state its properties |
| `Reports.OutstandingOrderAndCount` | backend/src/controllers/reportController.js:92-149 | rows come in due-date order; the total counts the listed invoices and the pages are total over limit rounded up; the summary counts every open invoice of a stored student of the class |
| `Reports.ParentsStoredCountsAgree` | backend/src/controllers/reportController.js:72-73 | when every invoice's parent is stored, the paged total and the summary count agree |
| `Reports.MissingParentSkewsCount` | backend/src/controllers/reportController.js:72-73 | an open invoice whose parent is missing is counted in the summary but not listed, because only the listing joins the parents |
| `Reports.SummaryIgnoresPaging` | backend/src/controllers/reportController.js:95-139 | the summary and the total do not depend on the page asked for |
| `Reports.SummaryDueIsSumOfDues` | backend/src/controllers/reportController.js:141-147 | the summary's total due is the sum of the invoices' amounts due and equals billed minus paid |
| `Reports.EmptySummaryIsZero` | backend/src/controllers/reportController.js:141 | with no open invoice in the class the summary is all zeros |
| `Reports.NoNegativeDues` | backend/src/controllers/reportController.js:87-88 | when no invoice is overpaid, no listed row has a negative amount due |
| `Reports.PaymentHistoryTotals` | backend/src/controllers/reportController.js:156-214 | the grand total is the sum of the matching completed payments of stored students; the method rows are ordered by descending total and the listed payments newest first |
| `Reports.PaymentHistoryReport` | backend/src/controllers/reportController.js:156-214 | the payment-history report; `PaymentHistoryTotals`, `MethodSummaryRows`, `HistoryListing` and `UnenrolledNotInHistory` state its properties |
| `Reports.MethodSummaryRows` | backend/src/controllers/reportController.js:194-201 | there is one method row per method used among the matching payments, whatever page is asked for |
| `Reports.HistoryListing` | backend/src/controllers/reportController.js:165-191 | the total counts the listed payments; at most `limit` are listed, each a stored completed payment of a stored student, of the method, class and window asked for, whose invoice is stored |
| `Reports.HistoryListingIsQuery` | backend/src/controllers/reportController.js:165-191 | the listing is one page, at most `limit` long, of stored payments that pass the listing match and its invoice join, and the total counts every such payment |
| `Reports.ClassRowMeaning` | backend/src/controllers/reportController.js:243-260 | a class row bills the sum of the class's invoice totals, collects the sum of their completed payments, has pending equal to billed minus collected, and a rate of exactly collected over billed times 100, or 0 when nothing is billed |
| `Reports.ClassRowStudents` | backend/src/controllers/reportController.js:249-258 | the student count is the number of distinct students with an invoice in the class |
| `Reports.ClassRowsAddUp` | backend/src/controllers/reportController.js:243-251 | the class rows partition the invoices they are built from: their billed and collected sums are those of all of them (in the summary, the matched invoices of stored students) |
| `Reports.ClassRowsPending` | backend/src/controllers/reportController.js:265-269 | summing pending over the rows gives billed minus collected |
| `Reports.ClassWiseTotals` | backend/src/controllers/reportController.js:219-286 | the totals are the billed and collected sums of the matched invoices of stored students with pending their difference, and the rows are in ascending class order |
| `Reports.ClassWiseSummary` | backend/src/controllers/reportController.js:219-286 | the class-wise summary; `ClassWiseTotals`, `ClassRowMeaning`, `ClassRowsAddUp` and `UnenrolledNotBilled` state its properties |
| `Reports.UnenrolledUncollected` | backend/src/controllers/reportController.js:16-21 | payments whose student is not stored are dropped by the student `$unwind`: no month is collected, and the grand total and count are 0 |
| `Reports.UnenrolledNotOutstanding` | backend/src/controllers/reportController.js:67-71 | invoices whose student is not stored are neither listed nor counted in the outstanding summary, which is all zeros |
| `Reports.UnenrolledNotInHistory` | backend/src/controllers/reportController.js:165-169 | payments whose student is not stored are neither listed nor in any method row, and the grand total is 0 |
| `Reports.UnenrolledNotBilled` | backend/src/controllers/reportController.js:228-231 | invoices whose student is not stored are in no class row, and the totals are all zero |
| `Reports.MissingStudentDropsPayment` | backend/src/controllers/reportController.js:16-21 | a completed payment counts in the grand total while its student is stored and not once the student is gone |
| `Reports.DeletedStudentUnenrolled` | backend/src/controllers/studentController.js:137-158 | after `deleteStudent` the student join no longer finds the student, so its invoices and payments, which stay stored, drop out of every report |
| `AttendanceModel.StartOfDay` | backend/src/controllers/attendanceController.js:60-61 | the start of a day is a whole number of days, at or before the time and less than a day before it |
| `AttendanceModel.SameDay` | backend/src/controllers/attendanceController.js:15-20 | two times share a start of day exactly when the second lies in the first one's day |
| `AttendanceModel.StartOfDayIdempotent` | backend/src/controllers/attendanceController.js:60-61 | normalising a normalised date changes nothing |
| `AttendanceModel.FindRecord` | backend/src/controllers/attendanceController.js:64-67 | `findOne({ student, date })` finds the entry with that key, and nothing exactly when no entry has it |
| `AttendanceModel.MarkedRecord` | backend/src/controllers/attendanceController.js:69-93 | the saved record has that student, day, status, remarks and marker, and keeps the existing record's id or takes the next one |
| `AttendanceModel.UpsertKeepsValid` | backend/src/models/Attendance.js:35 | an upsert keeps one record per student and day, unique ids below the counter and every date a start of day |
| `AttendanceModel.UpsertedContents` | backend/src/controllers/attendanceController.js:63-93 | an upsert adds a record exactly when none exists for the key; afterwards the key's entry is the marked record and every other entry is unchanged |
| `AttendanceModel.Upserted` | backend/src/controllers/attendanceController.js:63-93 | the collection after an upsert; `UpsertedContents`, `UpsertIdempotent` and `UpsertKeepsValid` state its properties |
| `AttendanceModel.UpsertIdempotent` | backend/src/controllers/attendanceController.js:63-93 | marking the same attendance twice leaves the collection as marking it once |
| `AttendanceModel.AttendanceStore.constructor` | backend/src/models/Attendance.js:44 | an empty collection satisfies the invariant |
| `AttendanceModel.AttendanceStore.Upsert` | backend/src/controllers/attendanceController.js:63-93 | the collection becomes the upserted one, the record is created exactly when its key was absent, and the invariant is kept |
| `AttendanceModel.AttendanceStore.Remove` | backend/src/controllers/attendanceController.js:227 | deleting removes exactly that entry and keeps the invariant |
| `AttendanceModel.FindAttendance` | backend/src/controllers/attendanceController.js:220-225 | `findById` finds an entry with that id, and nothing exactly when no entry has it |
| `AttendanceController.ParsedStatus` | backend/src/models/Attendance.js:15-19 | a status is accepted exactly when it is given and is one of the four attendance statuses |
| `AttendanceController.MarkAttendance` | backend/src/controllers/attendanceController.js:56-104 | an invalid status fails with 500 and changes nothing; otherwise the record of that student and start of day is upserted, answered with 201 exactly when it is new and 200 when it is updated |
| `AttendanceController.FailedRunStays` | backend/src/controllers/attendanceController.js:123-145 | once a record of the bulk loop fails, the later records change nothing |
| `AttendanceController.BulkRunValid` | backend/src/controllers/attendanceController.js:123-145 | the bulk loop keeps one record per student and day |
| `AttendanceController.BulkRunOk` | backend/src/controllers/attendanceController.js:123-145 | the bulk loop completes exactly when every record has a valid status |
| `AttendanceController.BulkRunResults` | backend/src/controllers/attendanceController.js:121-150 | a completed bulk run returns one result per record, in order, each with that record's student, the day, its status and the caller as marker |
| `AttendanceController.StepRemarks` | backend/src/controllers/attendanceController.js:131-140 | a created record's missing remarks become the empty text, while an updated one takes the remarks as sent |
| `AttendanceController.Step` | backend/src/controllers/attendanceController.js:124-143 | one pass of the bulk loop; `StepRemarks` and `BulkRunResults` state what it does |
| `AttendanceController.BulkRun` | backend/src/controllers/attendanceController.js:123-145 | the bulk loop; `BulkRunValid`, `BulkRunOk`, `BulkRunResults` and `FailedRunStays` state what it does |
| `AttendanceController.BulkMarkAttendance` | backend/src/controllers/attendanceController.js:109-152 | a missing or empty list gives 400 and changes nothing; otherwise the collection is what the loop leaves, records before a failing one stay saved, and the result is the loop's results or a 500 |
| `AttendanceController.DayQueryCoversDay` | backend/src/controllers/attendanceController.js:15-40 | with a date, every listed record is stored and falls on that day, newest first |
| `AttendanceController.GetAttendance` | backend/src/controllers/attendanceController.js:8-51 | the filtered, sorted page of records; `DayQueryCoversDay` and `ClassFilterReplacesStudent` state its filters |
| `AttendanceController.ClassFilterReplacesStudent` | backend/src/controllers/attendanceController.js:29-32 | a class filter overrides the student filter and lists only records of active students of that class |
| `AttendanceController.CheckParent` | backend/src/controllers/attendanceController.js:162-168 | only a parent can be refused, with 403; a parent passes only for a stored student of their own |
| `AttendanceController.OwnChildAllowed` | backend/src/controllers/attendanceController.js:162-168 | a parent asking about their own child passes |
| `AttendanceController.GetAttendanceByStudent` | backend/src/controllers/attendanceController.js:157-179 | refused with 403 exactly when the parent check fails; otherwise exactly the student's records in the window, newest first |
| `AttendanceController.StatusCountsPartition` | backend/src/controllers/attendanceController.js:202-208 | the four status counts add up to the number of records |
| `AttendanceController.SummaryMeaning` | backend/src/controllers/attendanceController.js:202-211 | the total is the sum of the status counts, and the rate is 0 with no records and otherwise exactly (present + late) over total times 100, between 0 and 100 |
| `AttendanceController.SummaryOf` | backend/src/controllers/attendanceController.js:202-211 | the status counts and rate; `SummaryMeaning` and `StatusCountsPartition` state them |
| `AttendanceController.GetAttendanceSummary` | backend/src/controllers/attendanceController.js:184-214 | refused with 403 exactly when the parent check fails; otherwise the summary of the student's records in the window |
| `AttendanceController.SameParentCheck` | backend/src/controllers/attendanceController.js:162-194 | the student listing and the summary admit exactly the same callers |
| `AttendanceController.DeleteAttendance` | backend/src/controllers/attendanceController.js:219-233 | an unknown id gives 404 and changes nothing; otherwise exactly that record is removed |
| `Dashboard.TodayAttendance` | backend/src/controllers/dashboardController.js:16-29 | today's attendance is exactly the records of the day holding now; at most all of them count as present, so the rate lies between 0 and 100 |
| `Dashboard.AdminDashboardOf` | backend/src/controllers/dashboardController.js:11-119 | the admin dashboard; `TodayAttendance`, `InvoiceCounters`, `MonthlyRevenueTotal`, `AdminRecentPayments`, `StudentsByClassTotal` and `WeeklyAttendanceTotals` state its parts |
| `Dashboard.InvoiceCounters` | backend/src/controllers/dashboardController.js:53-65 | overdue invoices are no more than open ones, and the pending amount is the sum of the open invoices' totals, at least what is actually still due on them |
| `Dashboard.MonthlyRevenueTotal` | backend/src/controllers/dashboardController.js:31-51 | the monthly rows add up to the completed revenue since six months ago, no more than the total revenue, in ascending month order |
| `Dashboard.AdminRecentPayments` | backend/src/controllers/dashboardController.js:67-72 | the recent payments are the newest five completed payments, or all of them when there are fewer |
| `Dashboard.TakeOfSorted` | backend/src/controllers/dashboardController.js:67-72 | the first `n` of a sorted sequence are sorted, taken from it, and as many as there are up to `n` |
| `Dashboard.StudentsByClassTotal` | backend/src/controllers/dashboardController.js:74-79 | the class counts add up to the number of active students and come in ascending class order |
| `Dashboard.DayRowBounded` | backend/src/controllers/dashboardController.js:88-94 | no day has more present records than records |
| `Dashboard.WeeklyAttendanceTotals` | backend/src/controllers/dashboardController.js:81-97 | the day rows add up to the records of the last week and to their present ones, each day within bounds, days ascending |
| `Dashboard.ChildAttendanceMeaning` | backend/src/controllers/dashboardController.js:137-159 | a child's entry counts their records of the last thirty days and the present ones among them, and shows the seven newest of them |
| `Dashboard.ChildFeesMeaning` | backend/src/controllers/dashboardController.js:146-164 | a child's fees count their pending, part-paid and overdue invoices and sum their totals; the upcoming one is present exactly when such an invoice exists, and has the earliest due date |
| `Dashboard.ParentDashboardScope` | backend/src/controllers/dashboardController.js:124-187 | the parent dashboard has one entry per active child of the caller and no other, and shows the caller's own newest five completed payments |
| `Dashboard.ParentDashboardOf` | backend/src/controllers/dashboardController.js:124-187 | the parent dashboard; `ParentDashboardScope`, `ChildAttendanceMeaning` and `ChildFeesMeaning` state its parts |
| `StudentModel.FindStudent` | backend/src/controllers/studentController.js:105-110 | `findById` finds an entry with that id, and nothing exactly when no entry has it |
| `StudentModel.Age` | backend/src/models/Student.js:92-102 | no date of birth gives no age; otherwise the age is the year difference or one less, the number of birthdays reached by today |
| `StudentModel.FullName` | backend/src/models/Student.js:105-107 | the full name is the first name, one space, then the last name |
| `StudentModel.FullNameInjective` | backend/src/models/Student.js:105-107 | for space-free first names, equal full names mean equal first and last names |
| `StudentModel.StudentStore.constructor` | backend/src/models/Student.js:119 | an empty collection satisfies the invariant |
| `StudentModel.StudentStore.Insert` | backend/src/models/Student.js:25-28 | a student is stored exactly when its admission number is unused, then appended with the next id |
| `StudentModel.StudentStore.Save` | backend/src/controllers/studentController.js:122-125 | an update is stored exactly when its admission number is used by no other student, and replaces exactly that entry |
| `StudentModel.StudentStore.Remove` | backend/src/controllers/studentController.js:152 | deleting removes exactly that entry and keeps the invariant |
| `UserModel.FindUser` | backend/src/middleware/auth.js:24 | `findById` finds an entry with that id, and nothing exactly when no entry has it |
| `UserModel.AddToSet` | backend/src/controllers/studentController.js:86-88 | `$addToSet` leaves the id present, adds nothing else, and changes nothing when the id is already there |
| `UserModel.Pull` | backend/src/controllers/studentController.js:147-149 | `$pull` removes every occurrence of the id and keeps every other id |
| `UserModel.OccurrencesZero` | backend/src/controllers/studentController.js:86-88 | an id occurs zero times exactly when it is absent |
| `UserModel.OccurrencesSnoc` | backend/src/controllers/studentController.js:86-88 | appending an id adds one occurrence of it and none of any other |
| `UserModel.AddToSetOnce` | backend/src/controllers/studentController.js:86-88 | after `$addToSet` an id held at most once is held exactly once |
| `UserModel.AddToSetOthers` | backend/src/controllers/studentController.js:86-88 | `$addToSet` does not change how often other ids occur |
| `UserModel.PullGone` | backend/src/controllers/studentController.js:147-149 | after `$pull` the id does not occur |
| `UserModel.WithChild` | backend/src/controllers/studentController.js:86-88 | the update keeps the number of users |
| `UserModel.WithoutChild` | backend/src/controllers/studentController.js:147-149 | the update keeps the number of users |
| `UserModel.WithChildEffect` | backend/src/controllers/studentController.js:86-88 | only the user with that id changes, and only its children list, by `$addToSet`; a missing user changes nothing |
| `UserModel.WithoutChildEffect` | backend/src/controllers/studentController.js:147-149 | only the user with that id changes, and only its children list, by `$pull`, after which the child is gone from it |
| `UserModel.UserStore.constructor` | backend/src/models/User.js:113 | an empty collection satisfies the invariant |
| `UserModel.UserStore.AddChild` | backend/src/controllers/studentController.js:86-88 | the collection becomes the one with the child added to that user |
| `UserModel.UserStore.PullChild` | backend/src/controllers/studentController.js:147-149 | the collection becomes the one with the child pulled from that user |
| `UserModel.UserStore.Insert` | backend/src/models/User.js:17-20 | a user is stored exactly when its email is unused, then appended with the next id |
| `UserModel.UserStore.Save` | backend/src/controllers/userController.js:86-89 | an update is stored exactly when its email is used by no other user, and replaces exactly that entry |
| `UserModel.UserStore.Remove` | backend/src/controllers/userController.js:102-116 | deleting removes exactly that entry and keeps the invariant |
| `StudentController.GetStudentsListing` | backend/src/controllers/studentController.js:8-39 | the total counts the matches; at most `limit` students are listed, newest first, each stored and of the class, section and status asked for |
| `StudentController.GetStudents` | backend/src/controllers/studentController.js:8-39 | the filtered, sorted page; `GetStudentsListing` states its properties |
| `StudentController.GetStudentById` | backend/src/controllers/studentController.js:44-60 | an unknown id gives 404; a returned student has that id and, for a parent caller, is their own and has a stored parent; only a parent caller is refused, with 500 when the student's parent is no longer stored, else with 403 |
| `StudentController.GetStudentAllowed` | backend/src/controllers/studentController.js:44-60 | an admin, or the student's own parent while their account is stored, gets the stored student |
| `StudentController.DeletedParentBreaksStudentLookup` | backend/src/controllers/studentController.js:45-57 | after `deleteUser` removes a student's parent, any parent asking for that student gets 500 `Cannot read properties of null (reading '_id')`, while an admin still gets the student |
| `StudentController.GetStudentsByParent` | backend/src/controllers/studentController.js:163-168 | refused with 403 exactly when a parent asks for another parent's id |
| `StudentController.StudentsByParentListing` | backend/src/controllers/studentController.js:170-174 | the listing holds exactly the stored students with that parent, each as often as stored (same count and multiset), by first name |
| `StudentController.StudentsByClassListing` | backend/src/controllers/studentController.js:180-189 | the listing holds exactly the active students of the class, each once, by roll number |
| `StudentController.GetStudentsByClass` | backend/src/controllers/studentController.js:180-189 | the active students of a class by roll number; `StudentsByClassListing` states it |
| `StudentController.LinksBelowWithChild` | backend/src/controllers/studentController.js:86-88 | adding an existing student's id to a children list keeps every link pointing at an allocated student id |
| `StudentController.LinksBelowWithoutChild` | backend/src/controllers/studentController.js:147-149 | pulling an id keeps every link pointing at an allocated student id |
| `StudentController.LinksBelowGrow` | backend/src/controllers/studentController.js:82 | allocating a new id keeps every link below the counter |
| `StudentController.NewStudent` | backend/src/controllers/studentController.js:82 | `Student.create` succeeds exactly when the body passes the schema (else 500), with the next id, the body's parent, admission number and class, and status `active` by default |
| `StudentController.CreateStudentRefusals` | backend/src/controllers/studentController.js:65-82 | a used admission number gives 400, a parent that is not a stored parent user gives 400, and every failure changes nothing; creation succeeds exactly when the number is new, the body valid and the parent a parent user |
| `StudentController.CreateStudent` | backend/src/controllers/studentController.js:65-99 | the create handler as a function of the two collections; `CreateStudentRefusals`, `CreateStudentLinks` and `AddStudent` state what it does |
| `StudentController.CreateStudentLinks` | backend/src/controllers/studentController.js:82-89 | a created student is appended with the next id and appears exactly once in its parent's children |
| `StudentController.AddStudent` | backend/src/controllers/studentController.js:65-99 | the handler over the two collections returns and stores what `CreateStudent` says |
| `StudentController.Patched` | backend/src/controllers/studentController.js:122-125 | an update passes exactly when its fields are valid (else 500); every path it sends is written, the date of birth included, and only the id and creation time stay |
| `StudentController.UpdateStudentStore` | backend/src/controllers/studentController.js:104-132 | an unknown id gives 404 and changes nothing; a success replaces exactly that student; a failure leaves the students unchanged; `UpdateStudentStores` says what is stored and when |
| `StudentController.UpdateStudentStores` | backend/src/controllers/studentController.js:104-132 | for the student found at `k`, the edit succeeds exactly when the update validators pass and no other student holds the resulting admission number; a success stores the patched student at `k`, and the parent links are rewritten either way |
| `StudentController.UpdateStudent` | backend/src/controllers/studentController.js:104-132 | the update handler as a function of the two collections; `UpdateStudentStore`, `UpdateStudentStores`, `UpdateStudentRelinks` and `EditStudent` state what it does |
| `StudentController.UpdateStudentRelinks` | backend/src/controllers/studentController.js:112-120 | on a parent change the student leaves the old parent's children and joins the new parent's |
| `StudentController.UpdateUserCanBreakLinks` | backend/src/controllers/userController.js:84-90 | a user edit whose body sets `children` is accepted with an id no student has, so the child links held before and no longer do |
| `StudentController.CreateUserCanBreakLinks` | backend/src/controllers/userController.js:55-71 | a new user whose body sets `children` is created with an id no student has, so the child links no longer hold |
| `StudentController.IndexOfSameKeys` | backend/src/controllers/studentController.js:112-120 | updates that keep every user's id do not move where a user is found |
| `StudentController.RefusedUpdateStillRelinks` | backend/src/controllers/studentController.js:112-125 | the children lists are changed before the update is validated, so a refused update still moves the student to the new parent's list |
| `StudentController.UpdateSkipsParentCheck` | backend/src/controllers/studentController.js:112-125 | an update may point a student at an id that is no stored parent, which creation would refuse |
| `StudentController.EditStudent` | backend/src/controllers/studentController.js:104-132 | the handler over the two collections returns and stores what `UpdateStudent` says |
| `StudentController.DeleteStudentUnlinks` | backend/src/controllers/studentController.js:137-158 | an unknown id gives 404 and changes nothing; otherwise exactly that student is removed, all others stay and every link still points at an allocated id |
| `StudentController.DeleteStudent` | backend/src/controllers/studentController.js:137-158 | the delete handler as a function of the two collections; `DeleteStudentUnlinks` and `DeleteStudentLeavesParent` state what it does |
| `StudentController.DeleteStudentLeavesParent` | backend/src/controllers/studentController.js:145-150 | after a delete the student is gone from its parent's children |
| `StudentController.RemoveStudent` | backend/src/controllers/studentController.js:137-158 | the handler over the two collections returns and stores what `DeleteStudent` says |
| `UserController.GetUsersListing` | backend/src/controllers/userController.js:7-36 | the total counts the users of the role asked for and the pages are total over limit rounded up; at most `limit` are listed, newest first, each stored and of that role |
| `UserController.GetUsers` | backend/src/controllers/userController.js:7-36 | the filtered page of users; `GetUsersListing` states its properties |
| `UserController.GetUserById` | backend/src/controllers/userController.js:41-50 | fails exactly for an unknown id, with 404 "User not found"; otherwise the stored user with that id |
| `UserController.GetParentsListing` | backend/src/controllers/userController.js:121-127 | the listing holds exactly the users with role `parent`, each once, by first name |
| `UserController.GetParents` | backend/src/controllers/userController.js:121-127 | the parents by first name; `GetParentsListing` states it |
| `UserController.NewUser` | backend/src/controllers/userController.js:64 | `User.create` succeeds exactly when names, email, a password of at least six characters and a known role are given (else 500); the user has the body's children, unchecked, or none, and is active by default |
| `UserController.CreateUser` | backend/src/controllers/userController.js:55-71 | a used email gives 400 "User with this email already exists"; a user is appended with the next id exactly when the body is valid and the email unused; a failure changes nothing |
| `UserController.PatchedUser` | backend/src/controllers/userController.js:84-90 | an update passes exactly when its fields are valid (else 500 "Validation failed"); every path but the password is written, the children's ids unchecked; the id, password and creation time stay |
| `UserController.UpdateUser` | backend/src/controllers/userController.js:76-97 | an unknown id gives 404; a failure changes nothing; a success replaces exactly the user with that id; `UpdateUserStores` says what is stored and when |
| `UserController.UpdateUserStores` | backend/src/controllers/userController.js:76-97 | for the user found at `k`, the edit succeeds exactly when the update validators pass and no other user holds the resulting email; a success stores the patched user at `k` |
| `UserController.UpdateKeepsPasswords` | backend/src/controllers/userController.js:84-85 | no update changes any user's password |
| `UserController.UpdateIgnoresPassword` | backend/src/controllers/userController.js:84-85 | the outcome of an update does not depend on the password it carries |
| `UserController.DeleteUser` | backend/src/controllers/userController.js:102-116 | fails exactly for an unknown id, with 404 and no change; otherwise removes the user found |
| `UserController.DeleteUserRemoves` | backend/src/controllers/userController.js:102-116 | with unique ids, a delete removes exactly that user and keeps every other |
| `UserController.AddUser` | backend/src/controllers/userController.js:55-71 | the handler over the collection returns and stores what `CreateUser` says |
| `UserController.EditUser` | backend/src/controllers/userController.js:76-97 | the handler over the collection returns and stores what `UpdateUser` says |
| `UserController.RemoveUser` | backend/src/controllers/userController.js:102-116 | the handler over the collection returns and stores what `DeleteUser` says |
| `FeeModel.FindFee` | backend/src/controllers/feeController.js:22-27 | `findById` finds an entry with that id, and nothing exactly when no entry has it |
| `FeeModel.FeeStore.constructor` | backend/src/models/Fee.js:43 | an empty collection satisfies the invariant |
| `FeeModel.FeeStore.Insert` | backend/src/models/Fee.js:4-37 | a valid fee is always stored, appended with the next id, as the schema has no unique field |
| `FeeModel.FeeStore.Save` | backend/src/models/Fee.js:4-37 | saving a valid fee replaces exactly that entry |
| `FeeModel.FeeStore.Remove` | backend/src/controllers/feeController.js:79 | deleting removes exactly that entry and keeps the invariant |
| `FeeController.GetFeesListing` | backend/src/controllers/feeController.js:7-16 | the listing holds exactly the stored fees with the active flag asked for that apply to the class or to `all`, newest first |
| `FeeController.GetFees` | backend/src/controllers/feeController.js:7-16 | the filtered fees, newest first; `GetFeesListing` states it |
| `FeeController.GetFeeById` | backend/src/controllers/feeController.js:21-30 | fails exactly for an unknown id, with 404 "Fee structure not found"; otherwise the stored fee with that id |
| `FeeController.NewFee` | backend/src/controllers/feeController.js:36 | `Fee.create` succeeds exactly when name, a non-negative amount and a known frequency are given (else 500); the fee is active by default |
| `FeeController.CreateFee` | backend/src/controllers/feeController.js:35-43 | a fee is appended with the next id exactly when the body is valid; a failure changes nothing |
| `FeeController.PatchedFee` | backend/src/controllers/feeController.js:56-59 | an update passes exactly when its fields are valid (else 500 "Validation failed"); it takes each field sent (name, description, amount, the frequency named, scope, active flag) and keeps each field not sent, keeps id and creation time, and keeps the fee valid |
| `FeeController.UpdateFee` | backend/src/controllers/feeController.js:48-66 | an unknown id gives 404; for the fee the lookup finds, the update succeeds exactly when `PatchedFee` does, answers with the patched fee and stores it in place of that entry; a failure changes nothing |
| `FeeController.UpdateReplacesScope` | backend/src/controllers/feeController.js:56-59 | an `applicableFor` in the body replaces the whole sub-document, so an academic year it leaves out is cleared |
| `FeeController.DeleteFee` | backend/src/controllers/feeController.js:71-85 | fails exactly for an unknown id, with 404 and no change; otherwise removes the fee found |
| `FeeController.DeleteFeeRemoves` | backend/src/controllers/feeController.js:71-85 | with unique ids, a delete removes exactly that fee and keeps every other |
| `FeeController.AddFee` | backend/src/controllers/feeController.js:35-43 | the handler over the collection returns and stores what `CreateFee` says |
| `FeeController.EditFee` | backend/src/controllers/feeController.js:48-66 | the handler over the collection returns and stores what `UpdateFee` says |
| `FeeController.RemoveFee` | backend/src/controllers/feeController.js:71-85 | the handler over the collection returns and stores what `DeleteFee` says |
| `AcademicRecord.CalculatePercentage` | backend/src/models/AcademicRecord.js:65-78 | no subjects or no marks possible give 0; otherwise the percentage is exactly marks obtained over marks possible times 100 |
| `AcademicRecord.PercentageInRange` | backend/src/models/AcademicRecord.js:65-78 | when no subject's marks are negative or above its total, the percentage lies between 0 and 100 |
| `AcademicRecord.MissingMarksCountAsZero` | backend/src/models/AcademicRecord.js:65-78 | a missing mark counts as 0: filling it in with 0 does not change the percentage |
| `Formatters.UpperChar` | frontend/src/utils/formatters.js:25 | `toUpperCase` maps each lower-case ASCII letter to the upper-case one at the same place in the alphabet and keeps every other character |
| `Formatters.FirstLetter` | frontend/src/utils/formatters.js:25 | the first character of a name, and nothing exactly for a missing or empty name |
| `Formatters.UpperString` | frontend/src/utils/formatters.js:25 | upper-casing keeps the length and upper-cases character by character |
| `Formatters.InitialsMeaning` | frontend/src/utils/formatters.js:24-26 | the initials hold one capitalised letter per name given, first name first, so at most two, and are empty without names |
| `Formatters.Initials` | frontend/src/utils/formatters.js:24-26 | the capitalised first letters; `InitialsMeaning` states them |
| `Formatters.StatusColor` | frontend/src/utils/formatters.js:28-45 | a listed status gets its listed classes and any other status the gray ones |
| `Formatters.StatusColorsCoverStatuses` | frontend/src/utils/formatters.js:28-45 | every attendance and invoice status is listed; of the payment statuses only `refunded` and of the student statuses `graduated` and `transferred` fall back to gray |
| `Formatters.FormatDate` | frontend/src/utils/formatters.js:3-7 | `-` for a missing or empty date and for text that does not parse; otherwise the rendered date |
| `Formatters.FormatCurrency` | frontend/src/utils/formatters.js:15-22 | `-` only for a missing amount, so 0 is rendered like any other amount |
| `InvoicesPage.AddItem` | frontend/src/pages/Invoices.jsx:43-48 | one blank item is appended and nothing else in the form changes |
| `InvoicesPage.WithoutIndex` | frontend/src/pages/Invoices.jsx:53 | for an index in range exactly that item goes and the others keep their order; any other index changes nothing |
| `InvoicesPage.RemoveItem` | frontend/src/pages/Invoices.jsx:50-55 | only the items change, by dropping the one at the index |
| `InvoicesPage.RemoveAddedItem` | frontend/src/pages/Invoices.jsx:43-55 | removing the item just added gives the form back |
| `InvoicesPage.ChangeItem` | frontend/src/pages/Invoices.jsx:57-71 | only the item at the index changes: it takes the field written, and choosing a listed fee also copies that fee's name and amount |
| `InvoicesPage.ChosenFeeCopied` | frontend/src/pages/Invoices.jsx:62-67 | choosing a fee id that is listed fills in the name and amount of a listed fee with that id |
| `InvoicesPage.SelectStudent` | frontend/src/pages/Invoices.jsx:73-80 | the student is chosen and the parent is that student's parent, or empty for an unknown student |
| `InvoicesPage.SelectClass` | frontend/src/pages/Invoices.jsx:82-86 | the class is chosen and the chosen student cleared, nothing else changed |
| `InvoicesPage.ClassNamesMeaning` | frontend/src/pages/Invoices.jsx:41 | the names kept are exactly the non-empty classes of the students |
| `InvoicesPage.KeysOfNames` | frontend/src/pages/Invoices.jsx:41 | the `Set` keeps each name once and no other |
| `InvoicesPage.ClassListMeaning` | frontend/src/pages/Invoices.jsx:41 | the class list is sorted, names each class some student is in exactly once, and holds no empty class |
| `InvoicesPage.ChatNumberAsWritten` | frontend/src/pages/Invoices.jsx:112-116 | the number is the digits of the phone, with `91` in front unless they already start with `91` |
| `InvoicesPage.DigitsKept` | frontend/src/pages/Invoices.jsx:112-116 | digits that start with `91` are used unchanged |
| `InvoicesPage.LocalNumberLosesCountryCode` | frontend/src/pages/Invoices.jsx:112-116 | the national number `9123456789` is sent with ten digits, without the country code |
| `InvoicesPage.ChatNumber` | frontend/src/pages/Invoices.jsx:112-116 | a ten-digit national number always gets `91` in front; other numbers as written; the result is digits starting with `91` |
| `InvoicesPage.ChatNumberKeepsDigits` | frontend/src/pages/Invoices.jsx:112-116 | the chat number ends with the digits typed |
| `InvoicesPage.ChatNumberIdempotent` | frontend/src/pages/Invoices.jsx:112-116 | normalising a normalised number changes nothing, except from eight digits typed |
| `InvoicesPage.Share` | frontend/src/pages/Invoices.jsx:106-116 | no chat exactly without a parent phone, with "Parent phone number not available"; otherwise a chat with the normalised number |
| `InvoicesPage.ShareAsWritten` | frontend/src/pages/Invoices.jsx:106-116 | as written, no chat exactly without a parent phone; otherwise the chat opens on the as-written number |
| `InvoicesPage.ShareAsWrittenAgrees` | frontend/src/pages/Invoices.jsx:112-116 | on a phone without ten digits the share as written and the corrected share open the same chat |
| `InvoicesPage.ShareAsWrittenDiffers` | frontend/src/pages/Invoices.jsx:112-116 | on ten digits that begin with 91 the share as written sends the bare digits and the corrected share puts 91 in front |
| `FeesPage.ToggleClass` | frontend/src/pages/Fees.jsx:73-80 | only the class list of the scope changes |
| `FeesPage.ToggleMeaning` | frontend/src/pages/Fees.jsx:73-80 | a class not listed is appended; a listed class is removed everywhere, the others keep their order |
| `FeesPage.FilterShorter` | frontend/src/pages/Fees.jsx:76 | a filter that drops some element is shorter than the list |
| `FeesPage.ToggleTwiceRestores` | frontend/src/pages/Fees.jsx:73-80 | toggling an unlisted class twice restores the form |
| `FeesPage.ToggleListedTwice` | frontend/src/pages/Fees.jsx:73-80 | toggling a listed class twice moves it, once, to the end |
| `AttendancePage.Lookup` | frontend/src/pages/Attendance.jsx:42 | a key of the sheet gives one of its statuses; a missing key gives nothing |
| `AttendancePage.Put` | frontend/src/pages/Attendance.jsx:148 | a new key is appended; an existing one is overwritten in place |
| `AttendancePage.PutEffect` | frontend/src/pages/Attendance.jsx:148 | after a write the key gives the new status, every other key is unchanged and keys stay unique |
| `AttendancePage.PutOther` | frontend/src/pages/Attendance.jsx:148 | a write leaves every other key's status as it was |
| `AttendancePage.LookupUnique` | frontend/src/pages/Attendance.jsx:42 | with unique keys, a lookup gives the status stored under that key |
| `AttendancePage.ExistingOfMeaning` | frontend/src/pages/Attendance.jsx:36-39 | the existing statuses are keyed by exactly the populated students of the records, each with the status of one of their records |
| `AttendancePage.ExistingOf` | frontend/src/pages/Attendance.jsx:36-39 | the existing statuses; `ExistingOfMeaning` states them |
| `AttendancePage.LatestRecordWins` | frontend/src/pages/Attendance.jsx:36-39 | of several records of one student the last one's status is kept |
| `AttendancePage.PrefillMeaning` | frontend/src/pages/Attendance.jsx:40-43 | every student of the class is pre-filled, with the existing status or `present`, and no one else |
| `AttendancePage.PrefillOf` | frontend/src/pages/Attendance.jsx:40-43 | the pre-filled sheet; `PrefillMeaning` states it |
| `AttendancePage.AllMarkedMeaning` | frontend/src/pages/Attendance.jsx:118-121 | mark-all gives every student of the class that status and drops everyone else |
| `AttendancePage.AllMarked` | frontend/src/pages/Attendance.jsx:118-121 | the sheet after mark-all; `AllMarkedMeaning` states it |
| `AttendancePage.BulkRecords` | frontend/src/pages/Attendance.jsx:54-57 | one bulk record per entry of the sheet |
| `AttendancePage.ToBulk` | frontend/src/pages/Attendance.jsx:54-57 | one sheet entry as a bulk record; `BulkRecords` and `BulkOnePerEntry` state the list it builds |
| `AttendancePage.BulkOnePerEntry` | frontend/src/pages/Attendance.jsx:54-57 | each student of the sheet is sent exactly once, with the status marked, and no other student is sent |
| `AttendancePage.MarkingSheet.constructor` | frontend/src/pages/Attendance.jsx:16-18 | the page starts with no students, an empty sheet and marking off |
| `AttendancePage.MarkingSheet.Load` | frontend/src/pages/Attendance.jsx:25-49 | without a class: "Please select a class" and nothing changes; otherwise the class's students, the pre-filled sheet and marking on |
| `AttendancePage.MarkingSheet.MarkAll` | frontend/src/pages/Attendance.jsx:118-121 | the sheet becomes every student with that status, nothing else changes |
| `AttendancePage.MarkingSheet.SetStatus` | frontend/src/pages/Attendance.jsx:148 | the student gets that status and every other entry stays |
| `AttendancePage.MarkingSheet.Payload` | frontend/src/pages/Attendance.jsx:54-57 | the bulk records are the sheet's entries, in order |
| `AttendanceSlice.ReduceMeaning` | frontend/src/store/slices/attendanceSlice.js:21-36 | a request sets loading and clears the error; a reply stores the records and pagination; a failure stores the error; clearing only clears the error |
| `AttendanceSlice.Reduce` | frontend/src/store/slices/attendanceSlice.js:21-36 | the reducer; `ReduceMeaning` states each action's effect |
| `AttendanceSlice.AnsweredRequestHasNoError` | frontend/src/store/slices/attendanceSlice.js:26-31 | a request answered leaves no error, whatever came before |
| `AttendanceSlice.AttendanceStore.constructor` | frontend/src/store/slices/attendanceSlice.js:15-20 | the store starts in the initial state |
| `AttendanceSlice.AttendanceStore.Dispatch` | frontend/src/store/slices/attendanceSlice.js:21-36 | the new state is the reducer applied to the old state and the action |
| `FeeSlice.ReduceMeaning` | frontend/src/store/slices/feeSlice.js:42-64 | a request only sets loading; each reply stores its own list and pagination and nothing else; a failure stores the error; clearing only clears the error |
| `FeeSlice.Reduce` | frontend/src/store/slices/feeSlice.js:42-64 | the reducer; `ReduceMeaning` states each action's effect |
| `FeeSlice.StaleErrorSurvivesSuccess` | frontend/src/store/slices/feeSlice.js:47-49 | a failed fetch's error is still there after the next fetch succeeds |
| `FeeSlice.LoadingClearedByFirstReply` | frontend/src/store/slices/feeSlice.js:47-51 | with two requests out, the first reply already clears the one shared loading flag |
| `FeeSlice.FeeStore.constructor` | frontend/src/store/slices/feeSlice.js:33-41 | the store starts in the initial state |
| `FeeSlice.FeeStore.Dispatch` | frontend/src/store/slices/feeSlice.js:42-64 | the new state is the reducer applied to the old state and the action |
| `StudentSlice.ReduceMeaning` | frontend/src/store/slices/studentSlice.js:31-55 | listing requests clear the error and single-student requests do not; replies store their result; failures store the error; the clear actions clear only their field |
| `StudentSlice.Reduce` | frontend/src/store/slices/studentSlice.js:31-55 | the reducer; `ReduceMeaning` states each action's effect |
| `StudentSlice.ErrorAfterPending` | frontend/src/store/slices/studentSlice.js:37-47 | after a failure, a single-student request keeps the error and a listing request clears it |
| `StudentSlice.StudentStore.constructor` | frontend/src/store/slices/studentSlice.js:24-30 | the store starts in the initial state |
| `StudentSlice.StudentStore.Dispatch` | frontend/src/store/slices/studentSlice.js:31-55 | the new state is the reducer applied to the old state and the action |
| `Sorting.SortBy` | backend/src/controllers/studentController.js:28 | a sort returns a permutation of what it was given |
| `Sorting.SortBySorted` | backend/src/controllers/studentController.js:28 | under a total order the result of a sort is in that order |
| `Sorting.PageOf` | backend/src/controllers/studentController.js:26-27 | `skip((page - 1) * limit).limit(limit)` returns at most `limit` consecutive rows starting at that offset, and none past the end |
| `Sorting.PageCount` | backend/src/controllers/studentController.js:36 | `Math.ceil(total / limit)`: the fewest pages of `limit` rows that hold `total` rows |
| `Sorting.OnPage` | backend/src/controllers/studentController.js:26-36 | row `i` of a listing is shown on page `i / limit + 1` at position `i % limit`, and that page is within the reported `pages` |
| `Sorting.ListQuery` | backend/src/controllers/studentController.js:23-38 | a listing reports the count of all matching rows and the pages for it, and returns at most `limit` rows, each stored and matching |
| `Sorting.ListQuerySorted` | backend/src/controllers/studentController.js:23-38 | a listing's rows are in the order asked for |
| `Sorting.ListQueryPage` | backend/src/controllers/studentController.js:23-38 | a page of a listing is that page of the sorted matches, out of the page count of all matches |
| `Sorting.ListQueryComplete` | backend/src/controllers/studentController.js:23-38 | no matching row is lost: each one is on one of the listing's pages |

Behaviour of the code that a reader might not expect, and that the model keeps:

- Schema validation failures, duplicate keys and cast errors are thrown without a status, so the
  error handler answers them with 500, not with a 4xx.
- The read-one handlers for students, invoices and payments populate `parent` and, for a parent
  caller, read `parent._id`; a record whose parent user was deleted populates to null, so such a
  caller gets a 500 `TypeError` rather than 403.
- An overpayment is refused with 400 and the message `Payment amount exceeds amount due (<due>)`.
- The report handlers are modelled, but the server never mounts the report routes
  (backend/src/server.js:65-72), so as shipped no request reaches them.

## Left out

- Regex search: the `search` filters of the student and user listings use regular-expression semantics
  that have no counterpart here; listings are modelled without them.
- Token signing and verification and password hashing: the token check is a `verify` parameter that
  returns the user id or fails, and stored passwords are opaque strings; `comparePassword`, the
  User pre-save hashing hook and `authController.js` are not part of this model.
- `populate` and field projections: references stay ids, and a handler that filters through a joined
  student takes `classOf` (a student id to its class) as a parameter instead of the join. The one
  effect of a populate the model keeps is the null parent of the read-one handlers (`Auth.OwnerCheck`).
- The `$lookup`/`$unwind` pipelines of the reports are modelled by their results over sequences, not
  their stages. Each student join is the `Enrolled` condition (a row whose student is no longer stored
  is dropped), and the class of a stored student is `classOf`.
- Floating point: `toFixed`, `Math.round` and the rounded collection rate are not modelled;
  percentages and rates are exact `Ratio` values.
- `parseInt` and `parseFloat` of query and form values: values arrive already typed, and paging takes
  positive `page` and `limit`, so a malformed or zero `limit` is not modelled.
- Clocks and time zones: `now` is a parameter, `setHours(0,0,0,0)` is a day start in UTC,
  `setDate`/`setMonth` arithmetic is passed in as given keys, and month keys come from a `monthOf`
  parameter.
- Concurrency: numbering by `countDocuments() + 1` and the read-check-write of `createPayment` are
  modelled sequentially, with the count taken from the store; the races between parallel requests
  are not modelled.
- Sort ties: the order MongoDB gives to documents with equal sort keys is not modelled; listings are
  proved sorted and to hold the right rows, not to put equal keys in a given order.
- The attendance listing's secondary sort on the populated `student.rollNumber` is not modelled.
- Trimming and lower-casing of schema strings, the email format check, and the schema fields no
  handler reads (addresses, photos, remarks and the like) are not modelled.
- Password hiding by `select: false` and `toPublicJSON` is modelled only where the middleware removes
  the password; the User model's `getFullName` is not modelled.
- `isPresent` of the Attendance model (backend/src/models/Attendance.js:40-42) is not modelled: no
  handler calls it, and the dashboards count present and late themselves.
- The success messages and the 201 status of the create responses are not modelled, except where the
  attendance handlers choose between 200 and 201.
- Date and number rendering (date-fns, `Intl.NumberFormat`) is passed to the formatters as functions;
  `formatDateTime` is not modelled, as it differs from `formatDate` only in the format passed.
- `Formatters.FirstLetter`: takes the first Unicode character of a name, whereas `[0]` in JavaScript
  takes one UTF-16 code unit, so a name that begins outside the Basic Multilingual Plane gives a lone
  surrogate in the client and the whole character here.
- `Formatters.UpperString`: maps one character to one, so its result keeps the length; mappings of
  `toUpperCase` that change the length, such as `ß` to `SS`, are not modelled.
- `Formatters.UpperChar`: upper-cases the ASCII letters only, whereas `toUpperCase` also maps other
  alphabets.
- `Formatters.StatusColor`: inherited object keys such as `constructor`, which the `colors` lookup
  would also find, are not modelled.
- `InvoicesPage.ChangeItem`: requires an index inside the items, as the form only offers existing rows;
  writing past the end, which would create a new item, is not modelled.
- The async thunks, API calls, toasts, confirmation dialogs and page rendering of the web client are
  not modelled; a slice sees only the actions they dispatch.
- `PaymentController.NewPayment`: saves with the corrected `SaveNumbered` (first row of "## Findings"),
  so a body without payment and receipt numbers, which the payment form always sends, is stored here
  although the code as written refuses it with 500; `CreatePayment`, `RecordPayment` and the ledger
  lemmas follow it. The code as written is `NewPaymentAsWritten` and `CreatePaymentAsWritten`;
  `CreatePaymentAsWrittenRefusesUnnumbered`, `CreatePaymentAsWrittenAgrees` and `UnnumberedBodyDiffers`
  relate the two.
- `PaymentController.RecordPayment`: runs `CreatePayment`, with the corrected save of `NewPayment`; no
  handler over the stores runs the as-written save.
- `InvoicesPage.Share`: opens the chat on the corrected `ChatNumber` (second row of "## Findings");
  the code as written is `ShareAsWritten`, and `ShareAsWrittenAgrees` and `ShareAsWrittenDiffers` say
  where the two part.
- Update bodies: a patch holds only values of the stored types; a malformed id or date that fails its
  cast (500 in the code), an `_id` in the body and the `$set` of `createdAt`, which timestamps ignore,
  are not modelled.
- The WhatsApp message text, its URL and `window.open` are not modelled; only the number it opens is.

## Findings

| source | as written | input that shows it | evidently intended | confidence | as-written member | corrected member |
|---|---|---|---|---|---|---|
| backend/src/models/Payment.js:83-97 | the payment and receipt numbers are generated in a `pre('save')` hook, which runs after validation, so a payment without them fails the `required` validators and is refused with 500 | any payment body without `paymentNumber` and `receiptNumber`, as `UnnumberedPaymentRefused` shows | numbers generated before validation, as the Invoice model does with `pre('validate')` | medium, not executed | `PaymentModel.SaveAsWritten` | `PaymentModel.SaveNumbered` |
| frontend/src/pages/Invoices.jsx:112-116 | the country code `91` is added only when the digits do not already start with `91`, so a ten-digit national number beginning with 91 is sent without it | the phone `9123456789`, as `LocalNumberLosesCountryCode` shows | every ten-digit national number gets the country code | medium, not executed | `InvoicesPage.ChatNumberAsWritten` | `InvoicesPage.ChatNumber` |
