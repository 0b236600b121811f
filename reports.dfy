/**
 * The four report aggregations: fee collection by month and by class, outstanding dues,
 * payment history with its method summary, and the class-wise fee summary. The student
 * join is the function `classOf` (a student id to that student's class), and the month a
 * date falls in is the function `monthOf`, whose numbers order like `YYYY-MM` keys.
 */
module Reports {
  import opened Wrappers
  import opened Constants
  import opened Seqs
  import opened Sorting
  import opened PaymentModel
  import opened InvoiceModel
  import opened UserModel
  import StudentModel
  import StudentController
  import PaymentController
  import opened Ratios

  /** `startDate && endDate`: the window applies only when both ends are given. */
  predicate InWindow(startDate: Option<int>, endDate: Option<int>, t: int) {
    startDate.None? || endDate.None? || startDate.value <= t <= endDate.value
  }

  /**
   * The `$lookup` from `students` followed by `$unwind: '$studentInfo'`: a row whose student
   * is no longer stored has nothing to unwind and is dropped.
   */
  predicate Enrolled(students: seq<StudentModel.Student>, id: nat) {
    !KeyAbsent(students, StudentModel.StudentId, id)
  }

  /** An empty class filter keeps every class. */
  predicate ClassMatches(classFilter: string, className: string) {
    classFilter == "" || className == classFilter
  }

  // ---------------------------------------------------------------------------------------
  // Fee collection.

  /** The base pipeline's `$match` stages: completed, within the window, of the class asked for. */
  function Collected(startDate: Option<int>, endDate: Option<int>, classFilter: string, classOf: nat -> string, students: seq<StudentModel.Student>): Payment -> bool {
    (p: Payment) => p.status == Completed && InWindow(startDate, endDate, p.transactionDate) &&
      Enrolled(students, p.student) && ClassMatches(classFilter, classOf(p.student))
  }

  datatype MonthRow = MonthRow(month: int, totalCollected: int, paymentCount: int)

  datatype ClassMonthRow = ClassMonthRow(month: int, className: string, totalCollected: int, paymentCount: int)

  datatype FeeCollection = FeeCollection(
    monthlyCollection: seq<MonthRow>,
    classBreakdown: seq<ClassMonthRow>,
    grandTotal: int,
    totalPayments: int)

  function MonthKey(monthOf: int -> int): Payment -> int {
    (p: Payment) => monthOf(p.transactionDate)
  }

  function ClassMonthKey(monthOf: int -> int, classOf: nat -> string): Payment -> (int, string) {
    (p: Payment) => (monthOf(p.transactionDate), classOf(p.student))
  }

  /** One `$group` row per month: the month's `$sum` of amounts and its count. */
  function MonthRowOf(included: seq<Payment>, monthOf: int -> int): int -> MonthRow {
    (m: int) => MonthRow(m, SumWhere(included, MonthKey(monthOf), m, PaymentAmount), CountWhere(included, MonthKey(monthOf), m))
  }

  function ClassMonthRowOf(included: seq<Payment>, monthOf: int -> int, classOf: nat -> string): ((int, string)) -> ClassMonthRow {
    (k: (int, string)) => ClassMonthRow(k.0, k.1,
      SumWhere(included, ClassMonthKey(monthOf, classOf), k, PaymentAmount),
      CountWhere(included, ClassMonthKey(monthOf, classOf), k))
  }

  function RowMonth(r: MonthRow): int { r.month }
  function RowCollected(r: MonthRow): int { r.totalCollected }
  function RowCount(r: MonthRow): int { r.paymentCount }
  function CellMonth(r: ClassMonthRow): int { r.month }
  function CellClass(r: ClassMonthRow): string { r.className }

  /** `getFeeCollectionReport`. */
  function FeeCollectionReport(payments: seq<Payment>, startDate: Option<int>, endDate: Option<int>, classFilter: string,
    monthOf: int -> int, classOf: nat -> string, students: seq<StudentModel.Student>): FeeCollection
  {
    var included := Filter(payments, Collected(startDate, endDate, classFilter, classOf, students));
    var monthly := SortBy(Map(KeysOf(included, MonthKey(monthOf)), MonthRowOf(included, monthOf)), Ascending(RowMonth));
    var cells := SortBy(Map(KeysOf(included, ClassMonthKey(monthOf, classOf)), ClassMonthRowOf(included, monthOf, classOf)),
      AscendingThen(CellMonth, CellClass));
    FeeCollection(monthly, cells, SumBy(monthly, RowCollected), SumBy(monthly, RowCount))
  }

  /** A sort keeps the sum of any field. */
  lemma SortedSum<T>(s: seq<T>, le: (T, T) -> bool, f: T -> int)
    ensures SumBy(SortBy(s, le), f) == SumBy(s, f)
  {
    SumByPermutation(SortBy(s, le), s, f);
  }

  /**
   * The grand total is the sum of the amounts of the included payments and the payment
   * count is their number: every included payment falls in exactly one monthly row.
   */
  lemma FeeCollectionTotals(payments: seq<Payment>, startDate: Option<int>, endDate: Option<int>, classFilter: string,
    monthOf: int -> int, classOf: nat -> string, students: seq<StudentModel.Student>)
    ensures var r := FeeCollectionReport(payments, startDate, endDate, classFilter, monthOf, classOf, students);
      var included := Filter(payments, Collected(startDate, endDate, classFilter, classOf, students));
      r.grandTotal == SumBy(included, PaymentAmount) && r.totalPayments == |included| &&
      r.grandTotal == SumBy(r.monthlyCollection, RowCollected) && r.totalPayments == SumBy(r.monthlyCollection, RowCount)
  {
    var included := Filter(payments, Collected(startDate, endDate, classFilter, classOf, students));
    var rows := Map(KeysOf(included, MonthKey(monthOf)), MonthRowOf(included, monthOf));
    SortedSum(rows, Ascending(RowMonth), RowCollected);
    SortedSum(rows, Ascending(RowMonth), RowCount);
    GroupedTotal(included, MonthKey(monthOf), PaymentAmount, MonthRowOf(included, monthOf), RowCollected);
    GroupedTotal(included, MonthKey(monthOf), Unit, MonthRowOf(included, monthOf), RowCount);
    SumByUnit(included);
  }

  /** The class breakdown adds up to the same grand total. */
  lemma ClassBreakdownTotal(payments: seq<Payment>, startDate: Option<int>, endDate: Option<int>, classFilter: string,
    monthOf: int -> int, classOf: nat -> string, students: seq<StudentModel.Student>)
    ensures var r := FeeCollectionReport(payments, startDate, endDate, classFilter, monthOf, classOf, students);
      SumBy(r.classBreakdown, (c: ClassMonthRow) => c.totalCollected) == r.grandTotal
  {
    var included := Filter(payments, Collected(startDate, endDate, classFilter, classOf, students));
    var cells := Map(KeysOf(included, ClassMonthKey(monthOf, classOf)), ClassMonthRowOf(included, monthOf, classOf));
    var g := (c: ClassMonthRow) => c.totalCollected;
    SortedSum(cells, AscendingThen(CellMonth, CellClass), g);
    GroupedTotal(included, ClassMonthKey(monthOf, classOf), PaymentAmount, ClassMonthRowOf(included, monthOf, classOf), g);
    FeeCollectionTotals(payments, startDate, endDate, classFilter, monthOf, classOf, students);
  }

  /**
   * Every included payment is completed, inside the window when both dates are given, and
   * of the class asked for.
   */
  lemma FeeCollectionIncluded(payments: seq<Payment>, startDate: Option<int>, endDate: Option<int>, classFilter: string,
    classOf: nat -> string, students: seq<StudentModel.Student>)
    ensures forall p :: p in Filter(payments, Collected(startDate, endDate, classFilter, classOf, students)) ==>
      (p in payments && p.status == Completed && Enrolled(students, p.student) && ClassMatches(classFilter, classOf(p.student)) &&
      (startDate.Some? && endDate.Some? ==> startDate.value <= p.transactionDate <= endDate.value))
  {
    FilterMembers(payments, Collected(startDate, endDate, classFilter, classOf, students));
  }

  /** The monthly rows are in ascending month order. */
  lemma FeeCollectionMonthsAscending(payments: seq<Payment>, startDate: Option<int>, endDate: Option<int>,
    classFilter: string, monthOf: int -> int, classOf: nat -> string, students: seq<StudentModel.Student>)
    ensures SortedBy(FeeCollectionReport(payments, startDate, endDate, classFilter, monthOf, classOf, students).monthlyCollection,
      Ascending(RowMonth))
  {
    var included := Filter(payments, Collected(startDate, endDate, classFilter, classOf, students));
    AscendingTotal(RowMonth);
    SortBySorted(Map(KeysOf(included, MonthKey(monthOf)), MonthRowOf(included, monthOf)), Ascending(RowMonth));
  }

  /** A monthly row holds the sum and the count of exactly that month's included payments. */
  lemma MonthRowMeaning(included: seq<Payment>, monthOf: int -> int, m: int)
    ensures MonthRowOf(included, monthOf)(m).totalCollected ==
      SumBy(Filter(included, KeyIs(MonthKey(monthOf), m)), PaymentAmount)
    ensures MonthRowOf(included, monthOf)(m).paymentCount == Count(included, KeyIs(MonthKey(monthOf), m))
  {
    SumWhereIsFilteredSum(included, MonthKey(monthOf), m, PaymentAmount);
    CountWhereIsCount(included, MonthKey(monthOf), m);
  }

  // ---------------------------------------------------------------------------------------
  // Outstanding dues.

  /** `status in [pending, partially_paid]` and the class filter. */
  function OutstandingIn(classFilter: string, classOf: nat -> string, students: seq<StudentModel.Student>): Invoice -> bool {
    (inv: Invoice) => IsOpen(inv.status) && Enrolled(students, inv.student) && ClassMatches(classFilter, classOf(inv.student))
  }

  /** One row of the dues list, with the `$addFields` stage's paid, due and overdue fields. */
  datatype DueRow = DueRow(
    invoiceNumber: string,
    total: int,
    amountPaid: int,
    amountDue: int,
    dueDate: int,
    status: InvoiceStatus,
    isOverdue: bool,
    studentClass: string)

  function DueRowOf(payments: seq<Payment>, now: int, classOf: nat -> string): Invoice -> DueRow {
    (inv: Invoice) => DueRow(inv.invoiceNumber, inv.total, AmountPaid(payments, inv.id),
      inv.total - AmountPaid(payments, inv.id), inv.dueDate, inv.status, inv.dueDate < now, classOf(inv.student))
  }

  function RowDueDate(r: DueRow): int { r.dueDate }
  function RowTotal(r: DueRow): int { r.total }
  function RowPaid(r: DueRow): int { r.amountPaid }
  function RowDue(r: DueRow): int { r.amountDue }
  function RowOverdue(r: DueRow): int { if r.isOverdue then 1 else 0 }

  datatype DueSummary = DueSummary(totalBilled: int, totalPaid: int, invoiceCount: int, overdueCount: int, totalDue: int)

  datatype OutstandingDues = OutstandingDues(invoices: seq<DueRow>, summary: DueSummary, total: nat, page: int, pages: nat)

  /** The summary pipeline: the same invoices, not paged, with `totalDue = totalBilled - totalPaid`. */
  function DueSummaryOf(rows: seq<DueRow>): DueSummary {
    var billed := SumBy(rows, RowTotal);
    var paid := SumBy(rows, RowPaid);
    DueSummary(billed, paid, |rows|, SumBy(rows, RowOverdue), billed - paid)
  }

  /** The listing's extra `$lookup`/`$unwind` of the parent: an invoice whose parent is not stored is dropped. */
  function Listed(classFilter: string, classOf: nat -> string, users: seq<User>, students: seq<StudentModel.Student>): Invoice -> bool {
    (inv: Invoice) => OutstandingIn(classFilter, classOf, students)(inv) && !KeyAbsent(users, UserId, inv.parent)
  }

  /**
   * `getOutstandingDuesReport`: the listed rows by ascending due date, one page of them with
   * their count, and the summary over every open invoice of the class (no parent join there).
   */
  function OutstandingDuesReport(invoices: seq<Invoice>, payments: seq<Payment>, users: seq<User>, classFilter: string,
    page: Positive, limit: Positive, now: int, classOf: nat -> string, students: seq<StudentModel.Student>): OutstandingDues
  {
    var rows := Map(Filter(invoices, Listed(classFilter, classOf, users, students)), DueRowOf(payments, now, classOf));
    var listed := Paginate(SortBy(rows, Ascending(RowDueDate)), page, limit);
    var open := Map(Filter(invoices, OutstandingIn(classFilter, classOf, students)), DueRowOf(payments, now, classOf));
    OutstandingDues(listed.data, DueSummaryOf(open), listed.total, listed.page, listed.pages)
  }

  /** A dues row reports the invoice's completed payments as paid, the rest as due, and overdue past its due date. */
  lemma DueRowMeaning(payments: seq<Payment>, now: int, classOf: nat -> string, inv: Invoice)
    ensures var row := DueRowOf(payments, now, classOf)(inv);
      row.invoiceNumber == inv.invoiceNumber && row.status == inv.status && row.total == inv.total &&
      row.amountPaid == AmountPaid(payments, inv.id) && row.amountDue == AmountDue(inv, payments) &&
      (row.isOverdue <==> inv.dueDate < now) && row.studentClass == classOf(inv.student)
  {
  }

  /**
   * Each listed row is the row of an open invoice of the class asked for whose parent is
   * stored; a page holds at most `limit` rows.
   */
  lemma OutstandingRows(invoices: seq<Invoice>, payments: seq<Payment>, users: seq<User>, classFilter: string,
    page: Positive, limit: Positive, now: int, classOf: nat -> string, students: seq<StudentModel.Student>)
    ensures var r := OutstandingDuesReport(invoices, payments, users, classFilter, page, limit, now, classOf, students);
      |r.invoices| <= limit &&
      forall row :: row in r.invoices ==>
        exists inv :: inv in invoices && IsOpen(inv.status) && Enrolled(students, inv.student) && ClassMatches(classFilter, classOf(inv.student)) &&
                      !KeyAbsent(users, UserId, inv.parent) && row == DueRowOf(payments, now, classOf)(inv)
  {
    var listed := Filter(invoices, Listed(classFilter, classOf, users, students));
    var rows := Map(listed, DueRowOf(payments, now, classOf));
    SortByMembers(rows, Ascending(RowDueDate));
    PageMembers(SortBy(rows, Ascending(RowDueDate)), page, limit);
    FilterMembers(invoices, Listed(classFilter, classOf, users, students));
    MapMembers(listed, DueRowOf(payments, now, classOf));
  }

  /** The listed rows are in ascending due-date order, and the count is the number of listed invoices. */
  lemma OutstandingOrderAndCount(invoices: seq<Invoice>, payments: seq<Payment>, users: seq<User>, classFilter: string,
    page: Positive, limit: Positive, now: int, classOf: nat -> string, students: seq<StudentModel.Student>)
    ensures var r := OutstandingDuesReport(invoices, payments, users, classFilter, page, limit, now, classOf, students);
      SortedBy(r.invoices, Ascending(RowDueDate)) &&
      r.total == Count(invoices, Listed(classFilter, classOf, users, students)) && r.page == page &&
      r.pages == PageCount(r.total, limit) &&
      r.summary.invoiceCount == Count(invoices, OutstandingIn(classFilter, classOf, students))
  {
    var rows := Map(Filter(invoices, Listed(classFilter, classOf, users, students)), DueRowOf(payments, now, classOf));
    AscendingTotal(RowDueDate);
    SortBySorted(rows, Ascending(RowDueDate));
    PageSorted(SortBy(rows, Ascending(RowDueDate)), page, limit, Ascending(RowDueDate));
  }

  /** When every open invoice's parent is stored, the listing and the summary count the same invoices. */
  lemma ParentsStoredCountsAgree(invoices: seq<Invoice>, payments: seq<Payment>, users: seq<User>, classFilter: string,
    page: Positive, limit: Positive, now: int, classOf: nat -> string, students: seq<StudentModel.Student>)
    requires forall i :: 0 <= i < |invoices| ==> !KeyAbsent(users, UserId, invoices[i].parent)
    ensures var r := OutstandingDuesReport(invoices, payments, users, classFilter, page, limit, now, classOf, students);
      r.total == r.summary.invoiceCount
  {
    forall x | x in invoices ensures Listed(classFilter, classOf, users, students)(x) == OutstandingIn(classFilter, classOf, students)(x) {
      var i :| 0 <= i < |invoices| && invoices[i] == x;
    }
    FilterExt(invoices, Listed(classFilter, classOf, users, students), OutstandingIn(classFilter, classOf, students));
  }

  /** An open invoice whose parent is not stored is counted by the summary but never listed. */
  lemma MissingParentSkewsCount(inv: Invoice, payments: seq<Payment>, classFilter: string,
    page: Positive, limit: Positive, now: int, classOf: nat -> string, students: seq<StudentModel.Student>)
    requires IsOpen(inv.status) && Enrolled(students, inv.student) && ClassMatches(classFilter, classOf(inv.student))
    ensures var r := OutstandingDuesReport([inv], payments, [], classFilter, page, limit, now, classOf, students);
      r.total == 0 && r.summary.invoiceCount == 1
  {
    assert KeyAbsent([], UserId, inv.parent);
    assert !Listed(classFilter, classOf, [], students)(inv);
    assert |Filter([inv], Listed(classFilter, classOf, [], students))| == 0;
    assert OutstandingIn(classFilter, classOf, students)(inv);
    assert |Filter([inv], OutstandingIn(classFilter, classOf, students))| == 1;
  }

  /** The summary does not depend on the page asked for. */
  lemma SummaryIgnoresPaging(invoices: seq<Invoice>, payments: seq<Payment>, users: seq<User>, classFilter: string,
    page: Positive, limit: Positive, page': Positive, limit': Positive, now: int, classOf: nat -> string, students: seq<StudentModel.Student>)
    ensures OutstandingDuesReport(invoices, payments, users, classFilter, page, limit, now, classOf, students).summary ==
      OutstandingDuesReport(invoices, payments, users, classFilter, page', limit', now, classOf, students).summary
    ensures OutstandingDuesReport(invoices, payments, users, classFilter, page, limit, now, classOf, students).total ==
      OutstandingDuesReport(invoices, payments, users, classFilter, page', limit', now, classOf, students).total
  {
  }

  /** `totalDue` is the sum of every open invoice's amount due, on all pages together. */
  lemma SummaryDueIsSumOfDues(invoices: seq<Invoice>, payments: seq<Payment>, users: seq<User>, classFilter: string,
    page: Positive, limit: Positive, now: int, classOf: nat -> string, students: seq<StudentModel.Student>)
    ensures var r := OutstandingDuesReport(invoices, payments, users, classFilter, page, limit, now, classOf, students);
      var rows := Map(Filter(invoices, OutstandingIn(classFilter, classOf, students)), DueRowOf(payments, now, classOf));
      r.summary.totalDue == SumBy(rows, RowDue) && r.summary.totalDue == r.summary.totalBilled - r.summary.totalPaid
  {
    var open := Filter(invoices, OutstandingIn(classFilter, classOf, students));
    var rows := Map(open, DueRowOf(payments, now, classOf));
    MapMembers(open, DueRowOf(payments, now, classOf));
    SumByDifference(rows, RowTotal, RowPaid, RowDue);
  }

  /** With no open invoices every figure of the summary is 0 (the `|| { ... }` fallback). */
  lemma EmptySummaryIsZero(invoices: seq<Invoice>, payments: seq<Payment>, users: seq<User>, classFilter: string,
    page: Positive, limit: Positive, now: int, classOf: nat -> string, students: seq<StudentModel.Student>)
    requires forall i :: 0 <= i < |invoices| ==> !OutstandingIn(classFilter, classOf, students)(invoices[i])
    ensures OutstandingDuesReport(invoices, payments, users, classFilter, page, limit, now, classOf, students).summary ==
      DueSummary(0, 0, 0, 0, 0)
  {
    forall x | x in invoices ensures !OutstandingIn(classFilter, classOf, students)(x) {
      var i :| 0 <= i < |invoices| && invoices[i] == x;
    }
    SumByEmptyFilter(invoices, OutstandingIn(classFilter, classOf, students), InvoiceTotal);
  }

  /** On a ledger where no invoice is overpaid, no listed invoice shows a negative amount due. */
  lemma NoNegativeDues(invoices: seq<Invoice>, payments: seq<Payment>, users: seq<User>, classFilter: string,
    page: Positive, limit: Positive, now: int, classOf: nat -> string, students: seq<StudentModel.Student>)
    requires NotOverpaid(invoices, payments)
    ensures forall row :: row in OutstandingDuesReport(invoices, payments, users, classFilter, page, limit, now, classOf, students).invoices ==>
      row.amountDue >= 0
  {
    OutstandingRows(invoices, payments, users, classFilter, page, limit, now, classOf, students);
    var r := OutstandingDuesReport(invoices, payments, users, classFilter, page, limit, now, classOf, students);
    forall row | row in r.invoices ensures row.amountDue >= 0 {
      var inv :| inv in invoices && IsOpen(inv.status) && Enrolled(students, inv.student) && ClassMatches(classFilter, classOf(inv.student)) &&
        !KeyAbsent(users, UserId, inv.parent) && row == DueRowOf(payments, now, classOf)(inv);
      var i :| 0 <= i < |invoices| && invoices[i] == inv;
    }
  }

  // ---------------------------------------------------------------------------------------
  // Payment history.

  /** The history's `$match`: completed, the window, the method when one is given, the class. */
  function HistoryMatch(startDate: Option<int>, endDate: Option<int>, classFilter: string, paymentMethod: string,
    classOf: nat -> string, students: seq<StudentModel.Student>): Payment -> bool
  {
    (p: Payment) => p.status == Completed && InWindow(startDate, endDate, p.transactionDate) &&
      (paymentMethod == "" || PaymentMethodName(p.paymentMethod) == paymentMethod) &&
      Enrolled(students, p.student) && ClassMatches(classFilter, classOf(p.student))
  }

  /** The listing's extra `$lookup`/`$unwind` of the invoice: a payment whose invoice is not stored is not listed. */
  function HistoryListed(startDate: Option<int>, endDate: Option<int>, classFilter: string, paymentMethod: string,
    classOf: nat -> string, invoices: seq<Invoice>, students: seq<StudentModel.Student>): Payment -> bool
  {
    (p: Payment) => HistoryMatch(startDate, endDate, classFilter, paymentMethod, classOf, students)(p) &&
      !KeyAbsent(invoices, InvoiceId, p.invoice)
  }

  datatype MethodRow = MethodRow(paymentMethod: PaymentMethod, totalAmount: int, count: int)

  function MethodOf(p: Payment): PaymentMethod { p.paymentMethod }

  function MethodRowOf(matched: seq<Payment>): PaymentMethod -> MethodRow {
    (m: PaymentMethod) => MethodRow(m, SumWhere(matched, MethodOf, m, PaymentAmount), CountWhere(matched, MethodOf, m))
  }

  function RowAmount(r: MethodRow): int { r.totalAmount }

  datatype PaymentHistory = PaymentHistory(payments: Paged<Payment>, methodSummary: seq<MethodRow>, grandTotal: int)

  /**
   * `getPaymentHistoryReport`: the listed payments newest first, paged, and the per-method
   * sums (no invoice join there) by descending total.
   */
  function PaymentHistoryReport(payments: seq<Payment>, invoices: seq<Invoice>, startDate: Option<int>, endDate: Option<int>, classFilter: string,
    paymentMethod: string, page: Positive, limit: Positive, classOf: nat -> string, students: seq<StudentModel.Student>): PaymentHistory
  {
    var p := HistoryMatch(startDate, endDate, classFilter, paymentMethod, classOf, students);
    var matched := Filter(payments, p);
    var summary := SortBy(Map(KeysOf(matched, MethodOf), MethodRowOf(matched)), Descending(RowAmount));
    var listed := HistoryListed(startDate, endDate, classFilter, paymentMethod, classOf, invoices, students);
    PaymentHistory(ListQuery(payments, listed, Descending(PaymentController.TransactionDate), page, limit),
      summary, SumBy(summary, RowAmount))
  }

  /** The grand total is the sum over all matching payments, and the summary is by descending total. */
  lemma PaymentHistoryTotals(payments: seq<Payment>, invoices: seq<Invoice>, startDate: Option<int>, endDate: Option<int>, classFilter: string,
    paymentMethod: string, page: Positive, limit: Positive, classOf: nat -> string, students: seq<StudentModel.Student>)
    ensures var r := PaymentHistoryReport(payments, invoices, startDate, endDate, classFilter, paymentMethod, page, limit, classOf, students);
      r.grandTotal == SumBy(Filter(payments, HistoryMatch(startDate, endDate, classFilter, paymentMethod, classOf, students)), PaymentAmount) &&
      SortedBy(r.methodSummary, Descending(RowAmount)) &&
      SortedBy(r.payments.data, Descending(PaymentController.TransactionDate))
  {
    var p := HistoryMatch(startDate, endDate, classFilter, paymentMethod, classOf, students);
    var matched := Filter(payments, p);
    var rows := Map(KeysOf(matched, MethodOf), MethodRowOf(matched));
    SortedSum(rows, Descending(RowAmount), RowAmount);
    GroupedTotal(matched, MethodOf, PaymentAmount, MethodRowOf(matched), RowAmount);
    DescendingTotal(RowAmount);
    SortBySorted(rows, Descending(RowAmount));
    DescendingTotal(PaymentController.TransactionDate);
    var listed := HistoryListed(startDate, endDate, classFilter, paymentMethod, classOf, invoices, students);
    ListQuerySorted(payments, listed, Descending(PaymentController.TransactionDate), page, limit);
  }

  /** The summary has one row per method in use, and the summary ignores paging. */
  lemma MethodSummaryRows(payments: seq<Payment>, invoices: seq<Invoice>, startDate: Option<int>, endDate: Option<int>, classFilter: string,
    paymentMethod: string, page: Positive, limit: Positive, page': Positive, limit': Positive, classOf: nat -> string, students: seq<StudentModel.Student>)
    ensures var r := PaymentHistoryReport(payments, invoices, startDate, endDate, classFilter, paymentMethod, page, limit, classOf, students);
      var matched := Filter(payments, HistoryMatch(startDate, endDate, classFilter, paymentMethod, classOf, students));
      |r.methodSummary| == |KeysOf(matched, MethodOf)| &&
      r.methodSummary == PaymentHistoryReport(payments, invoices, startDate, endDate, classFilter, paymentMethod, page', limit', classOf, students).methodSummary
  {
  }

  /** The listing is one page of the payments the listing matches, and its count is the number of them. */
  lemma HistoryListingIsQuery(payments: seq<Payment>, invoices: seq<Invoice>, startDate: Option<int>, endDate: Option<int>,
    classFilter: string, paymentMethod: string, page: Positive, limit: Positive, classOf: nat -> string, students: seq<StudentModel.Student>)
    ensures var r := PaymentHistoryReport(payments, invoices, startDate, endDate, classFilter, paymentMethod, page, limit, classOf, students);
      var listed := HistoryListed(startDate, endDate, classFilter, paymentMethod, classOf, invoices, students);
      r.payments.total == Count(payments, listed) && |r.payments.data| <= limit &&
      forall x :: x in r.payments.data ==> x in payments && listed(x)
  {
    var listed := HistoryListed(startDate, endDate, classFilter, paymentMethod, classOf, invoices, students);
    var q := ListQuery(payments, listed, Descending(PaymentController.TransactionDate), page, limit);
    assert PaymentHistoryReport(payments, invoices, startDate, endDate, classFilter, paymentMethod, page, limit, classOf, students).payments == q;
  }

  /**
   * Every listed payment is completed, in the window, of the method and class asked for, and
   * its invoice is stored; the count is the number of such payments.
   */
  lemma HistoryListing(payments: seq<Payment>, invoices: seq<Invoice>, startDate: Option<int>, endDate: Option<int>,
    classFilter: string, paymentMethod: string, page: Positive, limit: Positive, classOf: nat -> string, students: seq<StudentModel.Student>)
    ensures var r := PaymentHistoryReport(payments, invoices, startDate, endDate, classFilter, paymentMethod, page, limit, classOf, students);
      r.payments.total == Count(payments, HistoryListed(startDate, endDate, classFilter, paymentMethod, classOf, invoices, students)) &&
      |r.payments.data| <= limit &&
      forall x :: x in r.payments.data ==>
        (x in payments && x.status == Completed &&
         (paymentMethod == "" || PaymentMethodName(x.paymentMethod) == paymentMethod) &&
         Enrolled(students, x.student) && ClassMatches(classFilter, classOf(x.student)) && !KeyAbsent(invoices, InvoiceId, x.invoice) &&
         (startDate.Some? && endDate.Some? ==> startDate.value <= x.transactionDate <= endDate.value))
  {
    var r := PaymentHistoryReport(payments, invoices, startDate, endDate, classFilter, paymentMethod, page, limit, classOf, students);
    HistoryListingIsQuery(payments, invoices, startDate, endDate, classFilter, paymentMethod, page, limit, classOf, students);
    ListedPayments(r.payments.data, payments, invoices, startDate, endDate, classFilter, paymentMethod, classOf, students);
  }

  /** What `HistoryListed` says of each payment of a listing. */
  lemma ListedPayments(data: seq<Payment>, payments: seq<Payment>, invoices: seq<Invoice>, startDate: Option<int>,
    endDate: Option<int>, classFilter: string, paymentMethod: string, classOf: nat -> string, students: seq<StudentModel.Student>)
    requires forall x :: x in data ==> x in payments && HistoryListed(startDate, endDate, classFilter, paymentMethod, classOf, invoices, students)(x)
    ensures forall x :: x in data ==>
      (x in payments && x.status == Completed &&
       (paymentMethod == "" || PaymentMethodName(x.paymentMethod) == paymentMethod) &&
       Enrolled(students, x.student) && ClassMatches(classFilter, classOf(x.student)) && !KeyAbsent(invoices, InvoiceId, x.invoice) &&
       (startDate.Some? && endDate.Some? ==> startDate.value <= x.transactionDate <= endDate.value))
  {
    var listed := HistoryListed(startDate, endDate, classFilter, paymentMethod, classOf, invoices, students);
    var matches := HistoryMatch(startDate, endDate, classFilter, paymentMethod, classOf, students);
    forall x | x in data
      ensures x in payments && x.status == Completed &&
        (paymentMethod == "" || PaymentMethodName(x.paymentMethod) == paymentMethod) &&
        Enrolled(students, x.student) && ClassMatches(classFilter, classOf(x.student)) && !KeyAbsent(invoices, InvoiceId, x.invoice) &&
        (startDate.Some? && endDate.Some? ==> startDate.value <= x.transactionDate <= endDate.value)
    {
      assert listed(x);
      assert matches(x);
    }
  }

  // ---------------------------------------------------------------------------------------
  // Class-wise summary.

  /** `academicYear` when given, and `createdAt` within the window when both dates are. */
  function ClassWiseMatch(academicYear: string, startDate: Option<int>, endDate: Option<int>, students: seq<StudentModel.Student>): Invoice -> bool {
    (inv: Invoice) => (academicYear == "" || inv.academicYear == academicYear) && InWindow(startDate, endDate, inv.createdAt) &&
      Enrolled(students, inv.student)
  }

  datatype ClassRow = ClassRow(
    className: string,
    totalBilled: int,
    totalCollected: int,
    totalPending: int,
    collectionRate: Ratio,
    invoiceCount: int,
    studentCount: nat)

  function InvoiceClass(classOf: nat -> string): Invoice -> string {
    (inv: Invoice) => classOf(inv.student)
  }

  function InvoiceStudent(inv: Invoice): nat { inv.student }

  function PaidOn(payments: seq<Payment>): Invoice -> int {
    (inv: Invoice) => AmountPaid(payments, inv.id)
  }

  /** The `$group` row of one class, with the `$addFields` stage. */
  function ClassRowFor(matched: seq<Invoice>, payments: seq<Payment>, classOf: nat -> string, c: string): ClassRow {
    var billed := SumWhere(matched, InvoiceClass(classOf), c, InvoiceTotal);
    var collected := SumWhere(matched, InvoiceClass(classOf), c, PaidOn(payments));
    ClassRow(c, billed, collected, billed - collected, PercentOf(collected, billed),
      CountWhere(matched, InvoiceClass(classOf), c),
      |KeysOf(Filter(matched, KeyIs(InvoiceClass(classOf), c)), InvoiceStudent)|)
  }

  function ClassRowOf(matched: seq<Invoice>, payments: seq<Payment>, classOf: nat -> string): string -> ClassRow {
    (c: string) => ClassRowFor(matched, payments, classOf, c)
  }

  function ClassOfRow(r: ClassRow): string { r.className }
  function RowBilled(r: ClassRow): int { r.totalBilled }
  function RowCollectedAmount(r: ClassRow): int { r.totalCollected }
  function RowPending(r: ClassRow): int { r.totalPending }

  datatype Totals = Totals(totalBilled: int, totalCollected: int, totalPending: int)

  datatype ClassWise = ClassWise(classSummary: seq<ClassRow>, totals: Totals)

  /** `getClassWiseFeeSummary`: one row per class in ascending class order, and the totals row. */
  function ClassWiseSummary(invoices: seq<Invoice>, payments: seq<Payment>, academicYear: string,
    startDate: Option<int>, endDate: Option<int>, classOf: nat -> string, students: seq<StudentModel.Student>): ClassWise
  {
    var matched := Filter(invoices, ClassWiseMatch(academicYear, startDate, endDate, students));
    var rows := SortBy(ClassRows(matched, payments, classOf), AscendingText(ClassOfRow));
    ClassWise(rows, Totals(SumBy(rows, RowBilled), SumBy(rows, RowCollectedAmount), SumBy(rows, RowPending)))
  }

  /**
   * Each class row: pending is billed minus collected, the rate is 0 when nothing was
   * billed, and the student count is the number of distinct students with an invoice.
   */
  lemma ClassRowMeaning(matched: seq<Invoice>, payments: seq<Payment>, classOf: nat -> string, c: string)
    ensures var r := ClassRowFor(matched, payments, classOf, c);
      r.className == c &&
      r.totalBilled == SumBy(Filter(matched, KeyIs(InvoiceClass(classOf), c)), InvoiceTotal) &&
      r.totalCollected == SumBy(Filter(matched, KeyIs(InvoiceClass(classOf), c)), PaidOn(payments)) &&
      r.totalPending == r.totalBilled - r.totalCollected &&
      r.collectionRate.denominator != 0 && (r.totalBilled == 0 ==> r.collectionRate.numerator == 0) &&
      (r.totalBilled != 0 ==> r.collectionRate.numerator * r.totalBilled == 100 * r.totalCollected * r.collectionRate.denominator)
  {
    SumWhereIsFilteredSum(matched, InvoiceClass(classOf), c, InvoiceTotal);
    SumWhereIsFilteredSum(matched, InvoiceClass(classOf), c, PaidOn(payments));
  }

  /** A class row counts each student with an invoice in the class once. */
  lemma ClassRowStudents(matched: seq<Invoice>, payments: seq<Payment>, classOf: nat -> string, c: string)
    ensures var inClass := Filter(matched, KeyIs(InvoiceClass(classOf), c));
      var students := KeysOf(inClass, InvoiceStudent);
      ClassRowFor(matched, payments, classOf, c).studentCount == |students| && Distinct(students) &&
      (forall x :: x in inClass ==> x.student in students) &&
      (forall k :: k in students ==> exists x :: x in inClass && x.student == k)
  {
    var inClass := Filter(matched, KeyIs(InvoiceClass(classOf), c));
    var students := KeysOf(inClass, InvoiceStudent);
    forall x | x in inClass ensures x.student in students {
      var i :| 0 <= i < |inClass| && inClass[i] == x;
      assert InvoiceStudent(inClass[i]) in students;
    }
    forall k | k in students ensures exists x :: x in inClass && x.student == k {
      var i :| 0 <= i < |inClass| && InvoiceStudent(inClass[i]) == k;
      assert inClass[i] in inClass;
    }
  }

  /** The class rows, before they are put in class order. */
  function ClassRows(matched: seq<Invoice>, payments: seq<Payment>, classOf: nat -> string): seq<ClassRow> {
    Map(KeysOf(matched, InvoiceClass(classOf)), ClassRowOf(matched, payments, classOf))
  }

  /** The class rows together bill every matching invoice's total and collect its paid amount. */
  lemma ClassRowsAddUp(matched: seq<Invoice>, payments: seq<Payment>, classOf: nat -> string)
    ensures SumBy(ClassRows(matched, payments, classOf), RowBilled) == SumBy(matched, InvoiceTotal)
    ensures SumBy(ClassRows(matched, payments, classOf), RowCollectedAmount) == SumBy(matched, PaidOn(payments))
  {
    GroupedTotal(matched, InvoiceClass(classOf), InvoiceTotal, ClassRowOf(matched, payments, classOf), RowBilled);
    GroupedTotal(matched, InvoiceClass(classOf), PaidOn(payments), ClassRowOf(matched, payments, classOf), RowCollectedAmount);
  }

  /** Within the rows, pending adds up to billed minus collected. */
  lemma ClassRowsPending(rows: seq<ClassRow>, matched: seq<Invoice>, payments: seq<Payment>, classOf: nat -> string)
    requires forall x :: x in rows ==> x in ClassRows(matched, payments, classOf)
    ensures SumBy(rows, RowPending) == SumBy(rows, RowBilled) - SumBy(rows, RowCollectedAmount)
  {
    MapMembers(KeysOf(matched, InvoiceClass(classOf)), ClassRowOf(matched, payments, classOf));
    SumByDifference(rows, RowBilled, RowCollectedAmount, RowPending);
  }

  /**
   * The totals row sums the class rows, which in turn sum every matching invoice's total
   * and paid amount; pending in the totals is billed minus collected.
   */
  lemma ClassWiseTotals(invoices: seq<Invoice>, payments: seq<Payment>, academicYear: string,
    startDate: Option<int>, endDate: Option<int>, classOf: nat -> string, students: seq<StudentModel.Student>)
    ensures var r := ClassWiseSummary(invoices, payments, academicYear, startDate, endDate, classOf, students);
      var matched := Filter(invoices, ClassWiseMatch(academicYear, startDate, endDate, students));
      r.totals.totalBilled == SumBy(matched, InvoiceTotal) &&
      r.totals.totalCollected == SumBy(matched, PaidOn(payments)) &&
      r.totals.totalPending == r.totals.totalBilled - r.totals.totalCollected &&
      SortedBy(r.classSummary, AscendingText(ClassOfRow))
  {
    var matched := Filter(invoices, ClassWiseMatch(academicYear, startDate, endDate, students));
    var rows := ClassRows(matched, payments, classOf);
    var sorted := SortBy(rows, AscendingText(ClassOfRow));
    assert ClassWiseSummary(invoices, payments, academicYear, startDate, endDate, classOf, students).classSummary == sorted;
    SortedSum(rows, AscendingText(ClassOfRow), RowBilled);
    SortedSum(rows, AscendingText(ClassOfRow), RowCollectedAmount);
    ClassRowsAddUp(matched, payments, classOf);
    SortByMembers(rows, AscendingText(ClassOfRow));
    ClassRowsPending(sorted, matched, payments, classOf);
    AscendingTextTotal(ClassOfRow);
    SortBySorted(rows, AscendingText(ClassOfRow));
  }

  // ---------------------------------------------------------------------------------------
  // The student join.

  /** Payments whose student is not stored are collected in no month. */
  lemma UnenrolledUncollected(payments: seq<Payment>, startDate: Option<int>, endDate: Option<int>, classFilter: string,
    monthOf: int -> int, classOf: nat -> string, students: seq<StudentModel.Student>)
    requires forall i :: 0 <= i < |payments| ==> !Enrolled(students, payments[i].student)
    ensures var r := FeeCollectionReport(payments, startDate, endDate, classFilter, monthOf, classOf, students);
      r.grandTotal == 0 && r.totalPayments == 0 && r.monthlyCollection == []
  {
    var collected := Collected(startDate, endDate, classFilter, classOf, students);
    forall x | x in payments ensures !collected(x) {
      var i :| 0 <= i < |payments| && payments[i] == x;
    }
    SumByEmptyFilter(payments, collected, PaymentAmount);
    FeeCollectionTotals(payments, startDate, endDate, classFilter, monthOf, classOf, students);
  }

  /** Invoices whose student is not stored are neither listed nor summarised as outstanding. */
  lemma UnenrolledNotOutstanding(invoices: seq<Invoice>, payments: seq<Payment>, users: seq<User>, classFilter: string,
    page: Positive, limit: Positive, now: int, classOf: nat -> string, students: seq<StudentModel.Student>)
    requires forall i :: 0 <= i < |invoices| ==> !Enrolled(students, invoices[i].student)
    ensures var r := OutstandingDuesReport(invoices, payments, users, classFilter, page, limit, now, classOf, students);
      r.total == 0 && r.invoices == [] && r.summary == DueSummary(0, 0, 0, 0, 0)
  {
    var listed := Listed(classFilter, classOf, users, students);
    UnenrolledNotOpen(invoices, classFilter, classOf, users, students);
    var rows := Map(Filter(invoices, listed), DueRowOf(payments, now, classOf));
    assert |SortBy(rows, Ascending(RowDueDate))| == 0;
    MulMonotone(0, page - 1, limit);
    var r := OutstandingDuesReport(invoices, payments, users, classFilter, page, limit, now, classOf, students);
    assert r.invoices == PageOf(SortBy(rows, Ascending(RowDueDate)), page, limit);
    assert r.total == |rows|;
    EmptySummaryIsZero(invoices, payments, users, classFilter, page, limit, now, classOf, students);
  }

  /** No invoice whose student is not stored is open for the reports, nor listed. */
  lemma UnenrolledNotOpen(invoices: seq<Invoice>, classFilter: string, classOf: nat -> string, users: seq<User>,
    students: seq<StudentModel.Student>)
    requires forall i :: 0 <= i < |invoices| ==> !Enrolled(students, invoices[i].student)
    ensures forall i :: 0 <= i < |invoices| ==> !OutstandingIn(classFilter, classOf, students)(invoices[i])
    ensures Filter(invoices, Listed(classFilter, classOf, users, students)) == []
  {
    var open := OutstandingIn(classFilter, classOf, students);
    var listed := Listed(classFilter, classOf, users, students);
    forall i | 0 <= i < |invoices| ensures !open(invoices[i]) {
      assert !Enrolled(students, invoices[i].student);
    }
    forall x | x in invoices ensures !listed(x) {
      var i :| 0 <= i < |invoices| && invoices[i] == x;
      assert !open(invoices[i]);
    }
    SumByEmptyFilter(invoices, listed, InvoiceTotal);
  }

  /** Payments whose student is not stored are neither listed nor totalled in the history. */
  lemma UnenrolledNotInHistory(payments: seq<Payment>, invoices: seq<Invoice>, startDate: Option<int>, endDate: Option<int>,
    classFilter: string, paymentMethod: string, page: Positive, limit: Positive, classOf: nat -> string,
    students: seq<StudentModel.Student>)
    requires forall i :: 0 <= i < |payments| ==> !Enrolled(students, payments[i].student)
    ensures var r := PaymentHistoryReport(payments, invoices, startDate, endDate, classFilter, paymentMethod, page, limit, classOf, students);
      r.grandTotal == 0 && r.payments.total == 0 && r.methodSummary == []
  {
    var matches := HistoryMatch(startDate, endDate, classFilter, paymentMethod, classOf, students);
    var listed := HistoryListed(startDate, endDate, classFilter, paymentMethod, classOf, invoices, students);
    forall x | x in payments ensures !matches(x) && !listed(x) {
      var i :| 0 <= i < |payments| && payments[i] == x;
    }
    SumByEmptyFilter(payments, matches, PaymentAmount);
    SumByEmptyFilter(payments, listed, PaymentAmount);
    PaymentHistoryTotals(payments, invoices, startDate, endDate, classFilter, paymentMethod, page, limit, classOf, students);
    HistoryListingIsQuery(payments, invoices, startDate, endDate, classFilter, paymentMethod, page, limit, classOf, students);
  }

  /** Invoices whose student is not stored are billed in no class. */
  lemma UnenrolledNotBilled(invoices: seq<Invoice>, payments: seq<Payment>, academicYear: string,
    startDate: Option<int>, endDate: Option<int>, classOf: nat -> string, students: seq<StudentModel.Student>)
    requires forall i :: 0 <= i < |invoices| ==> !Enrolled(students, invoices[i].student)
    ensures var r := ClassWiseSummary(invoices, payments, academicYear, startDate, endDate, classOf, students);
      r.classSummary == [] && r.totals == Totals(0, 0, 0)
  {
    var matches := ClassWiseMatch(academicYear, startDate, endDate, students);
    forall x | x in invoices ensures !matches(x) {
      var i :| 0 <= i < |invoices| && invoices[i] == x;
    }
    SumByEmptyFilter(invoices, matches, InvoiceTotal);
    ClassWiseTotals(invoices, payments, academicYear, startDate, endDate, classOf, students);
  }

  /** A completed payment counts in the collection report while its student is stored, and not once the student is gone. */
  lemma MissingStudentDropsPayment(p: Payment, s: StudentModel.Student, monthOf: int -> int, classOf: nat -> string)
    requires p.status == Completed && s.id == p.student
    ensures FeeCollectionReport([p], None, None, "", monthOf, classOf, [s]).grandTotal == p.amount
    ensures FeeCollectionReport([p], None, None, "", monthOf, classOf, []).grandTotal == 0
  {
    var stored := Collected(None, None, "", classOf, [s]);
    assert StudentModel.StudentId([s][0]) == p.student;
    assert Enrolled([s], p.student);
    assert InWindow(None, None, p.transactionDate);
    assert ClassMatches("", classOf(p.student));
    assert stored(p);
    assert Filter([p], stored) == [p];
    assert SumBy([p], PaymentAmount) == p.amount;
    FeeCollectionTotals([p], None, None, "", monthOf, classOf, [s]);
    var gone := Collected(None, None, "", classOf, []);
    assert KeyAbsent([], StudentModel.StudentId, p.student);
    assert !gone(p);
    assert Filter([p], gone) == [];
    FeeCollectionTotals([p], None, None, "", monthOf, classOf, []);
  }

  /**
   * `deleteStudent` leaves the student's invoices and payments stored, but the student join
   * no longer finds the student, so every report from then on leaves them out.
   */
  lemma DeletedStudentUnenrolled(students: seq<StudentModel.Student>, users: seq<User>, id: nat)
    requires UniqueBy(students, StudentModel.StudentId)
    ensures var o := StudentController.DeleteStudent(students, users, id);
      o.result.Ok? ==> !Enrolled(o.students, id)
  {
    StudentController.DeleteStudentUnlinks(students, [], id, 0);
  }
}
