/**
 * The two dashboards: the administrator's school-wide counters, revenue and attendance
 * trends, and a parent's per-child attendance and fees. The clock is the parameter `now`,
 * the "six months ago", "a week ago" and "thirty days ago" instants are parameters, and
 * `monthOf` is the month a date falls in, as in the reports.
 */
module Dashboard {
  import opened Wrappers
  import opened Constants
  import opened Seqs
  import opened Sorting
  import opened Ratios
  import opened UserModel
  import opened StudentModel
  import opened PaymentModel
  import opened InvoiceModel
  import opened AttendanceModel
  import Reports
  import PaymentController

  // ---------------------------------------------------------------------------------------
  // The administrator's dashboard.

  function IsActiveStudent(s: Student): bool { s.status == Active }

  function IsActiveParent(u: User): bool { u.role == Parent && u.isActive }

  /** `date: { $gte: today, $lte: todayEnd }` for the day starting at `day`. */
  function OnDay(day: int): Attendance -> bool {
    (a: Attendance) => day <= a.date <= day + DayMs - 1
  }

  function IsPresent(a: Attendance): bool { CountsAsPresent(a.status) }

  function IsCompleted(p: Payment): bool { p.status == Completed }

  /** `status: 'completed', transactionDate: { $gte: sixMonthsAgo }` */
  function RevenueSince(since: int): Payment -> bool {
    (p: Payment) => p.status == Completed && p.transactionDate >= since
  }

  function IsOpenInvoice(inv: Invoice): bool { IsOpen(inv.status) }

  /** `status: 'pending', dueDate: { $lt: new Date() }` */
  function OverdueAt(now: int): Invoice -> bool {
    (inv: Invoice) => inv.status == InvoicePending && inv.dueDate < now
  }

  function PaymentCreatedAt(p: Payment): int { p.createdAt }

  /** One row of `studentsByClass`. */
  datatype ClassCount = ClassCount(className: string, count: int)

  function StudentClass(s: Student): string { s.className }

  function ClassCountOf(active: seq<Student>): string -> ClassCount {
    (c: string) => ClassCount(c, CountWhere(active, StudentClass, c))
  }

  function ClassCountName(r: ClassCount): string { r.className }
  function ClassCountValue(r: ClassCount): int { r.count }

  /** One row of `weeklyAttendance`: a day, its records and how many of them count as present. */
  datatype DayRow = DayRow(day: int, total: int, present: int)

  /** `$dateToString: { format: '%Y-%m-%d', date: '$date' }`, as the day's first instant. */
  function RecordDay(a: Attendance): int { StartOfDay(a.date) }

  function Presence(a: Attendance): int { if CountsAsPresent(a.status) then 1 else 0 }

  function DayRowOf(recent: seq<Attendance>): int -> DayRow {
    (d: int) => DayRow(d, CountWhere(recent, RecordDay, d), SumWhere(recent, RecordDay, d, Presence))
  }

  function RowDay(r: DayRow): int { r.day }
  function RowTotal(r: DayRow): int { r.total }
  function RowPresent(r: DayRow): int { r.present }

  function SinceDate(since: int): Attendance -> bool {
    (a: Attendance) => a.date >= since
  }

  datatype Stats = Stats(
    totalStudents: nat,
    totalParents: nat,
    attendanceRate: Ratio,
    presentToday: nat,
    totalAttendanceToday: nat,
    totalRevenue: int,
    pendingInvoices: nat,
    overdueInvoices: nat,
    totalPendingAmount: int)

  datatype AdminDashboard = AdminDashboard(
    stats: Stats,
    monthlyRevenue: seq<Reports.MonthRow>,
    recentPayments: seq<Payment>,
    studentsByClass: seq<ClassCount>,
    weeklyAttendance: seq<DayRow>)

  /** `getAdminDashboard`. */
  function AdminDashboardOf(students: seq<Student>, users: seq<User>, records: seq<Attendance>,
    payments: seq<Payment>, invoices: seq<Invoice>, now: int, sixMonthsAgo: int, weekAgo: int,
    monthOf: int -> int): AdminDashboard
  {
    var today := Filter(records, OnDay(StartOfDay(now)));
    var presentToday := Count(today, IsPresent);
    var revenue := Filter(payments, RevenueSince(sixMonthsAgo));
    var active := Filter(students, IsActiveStudent);
    var recent := Filter(records, SinceDate(weekAgo));
    var stats := Stats(
      |active|,
      Count(users, IsActiveParent),
      PercentOf(presentToday, |today|),
      presentToday,
      |today|,
      SumBy(Filter(payments, IsCompleted), PaymentAmount),
      Count(invoices, IsOpenInvoice),
      Count(invoices, OverdueAt(now)),
      SumBy(Filter(invoices, IsOpenInvoice), InvoiceTotal));
    AdminDashboard(
      stats,
      SortBy(Map(KeysOf(revenue, Reports.MonthKey(monthOf)), Reports.MonthRowOf(revenue, monthOf)),
        Ascending(Reports.RowMonth)),
      Take(SortBy(Filter(payments, IsCompleted), Descending(PaymentCreatedAt)), 5),
      SortBy(Map(KeysOf(active, StudentClass), ClassCountOf(active)), AscendingText(ClassCountName)),
      SortBy(Map(KeysOf(recent, RecordDay), DayRowOf(recent)), Ascending(RowDay)))
  }

  /**
   * Today's attendance is the records of the day holding `now`; no more of them are present
   * than there are, so the rate is between 0 and 100 percent.
   */
  lemma TodayAttendance(students: seq<Student>, users: seq<User>, records: seq<Attendance>,
    payments: seq<Payment>, invoices: seq<Invoice>, now: int, sixMonthsAgo: int, weekAgo: int,
    monthOf: int -> int)
    ensures var s := AdminDashboardOf(students, users, records, payments, invoices, now, sixMonthsAgo, weekAgo, monthOf).stats;
      s.totalAttendanceToday == Count(records, OnDay(StartOfDay(now))) &&
      s.presentToday <= s.totalAttendanceToday &&
      s.attendanceRate.denominator > 0 && 0 <= s.attendanceRate.numerator <= 100 * s.attendanceRate.denominator
    ensures forall a :: a in Filter(records, OnDay(StartOfDay(now))) ==> StartOfDay(a.date) == StartOfDay(now)
  {
    var today := Filter(records, OnDay(StartOfDay(now)));
    PercentInRange(Count(today, IsPresent), |today|);
    FilterMembers(records, OnDay(StartOfDay(now)));
    forall a | a in today ensures StartOfDay(a.date) == StartOfDay(now) {
      SameDay(now, a.date);
    }
  }

  /** What is still due on an invoice given the stored payments. */
  function DueOn(payments: seq<Payment>): Invoice -> int {
    (inv: Invoice) => AmountDue(inv, payments)
  }

  /**
   * The overdue invoices are among the open ones, and the open invoices' pending amount is
   * their billed total, which with non-negative payments is at least what is still due on them.
   */
  lemma InvoiceCounters(students: seq<Student>, users: seq<User>, records: seq<Attendance>,
    payments: seq<Payment>, invoices: seq<Invoice>, now: int, sixMonthsAgo: int, weekAgo: int,
    monthOf: int -> int)
    requires forall i :: 0 <= i < |payments| ==> payments[i].amount >= 0
    ensures var s := AdminDashboardOf(students, users, records, payments, invoices, now, sixMonthsAgo, weekAgo, monthOf).stats;
      s.overdueInvoices <= s.pendingInvoices &&
      s.totalPendingAmount == SumBy(Filter(invoices, IsOpenInvoice), InvoiceTotal) &&
      s.totalPendingAmount >= SumBy(Filter(invoices, IsOpenInvoice), DueOn(payments))
  {
    CountImplies(invoices, OverdueAt(now), IsOpenInvoice);
    var open := Filter(invoices, IsOpenInvoice);
    forall inv | inv in open ensures AmountDue(inv, payments) <= InvoiceTotal(inv) {
      AmountPaidNonNegative(payments, inv.id);
    }
    SumByMonotone(open, DueOn(payments), InvoiceTotal);
  }

  /**
   * The monthly revenue rows add up to the completed payments since `sixMonthsAgo`, which
   * with non-negative amounts is no more than the total revenue; the rows are in month order.
   */
  lemma MonthlyRevenueTotal(students: seq<Student>, users: seq<User>, records: seq<Attendance>,
    payments: seq<Payment>, invoices: seq<Invoice>, now: int, sixMonthsAgo: int, weekAgo: int,
    monthOf: int -> int)
    requires forall i :: 0 <= i < |payments| ==> payments[i].amount >= 0
    ensures var d := AdminDashboardOf(students, users, records, payments, invoices, now, sixMonthsAgo, weekAgo, monthOf);
      SumBy(d.monthlyRevenue, Reports.RowCollected) == SumBy(Filter(payments, RevenueSince(sixMonthsAgo)), PaymentAmount) &&
      SumBy(d.monthlyRevenue, Reports.RowCollected) <= d.stats.totalRevenue &&
      SortedBy(d.monthlyRevenue, Ascending(Reports.RowMonth))
  {
    var revenue := Filter(payments, RevenueSince(sixMonthsAgo));
    var rows := Map(KeysOf(revenue, Reports.MonthKey(monthOf)), Reports.MonthRowOf(revenue, monthOf));
    Reports.SortedSum(rows, Ascending(Reports.RowMonth), Reports.RowCollected);
    GroupedTotal(revenue, Reports.MonthKey(monthOf), PaymentAmount, Reports.MonthRowOf(revenue, monthOf), Reports.RowCollected);
    SumByFilterImplies(payments, RevenueSince(sixMonthsAgo), IsCompleted, PaymentAmount);
    AscendingTotal(Reports.RowMonth);
    SortBySorted(rows, Ascending(Reports.RowMonth));
  }

  /** The recent payments are at most five completed payments, newest created first. */
  lemma AdminRecentPayments(students: seq<Student>, users: seq<User>, records: seq<Attendance>,
    payments: seq<Payment>, invoices: seq<Invoice>, now: int, sixMonthsAgo: int, weekAgo: int,
    monthOf: int -> int)
    ensures var r := AdminDashboardOf(students, users, records, payments, invoices, now, sixMonthsAgo, weekAgo, monthOf).recentPayments;
      |r| == Min(Count(payments, IsCompleted), 5) &&
      (forall p :: p in r ==> p in payments && p.status == Completed) &&
      SortedBy(r, Descending(PaymentCreatedAt))
  {
    var sorted := SortBy(Filter(payments, IsCompleted), Descending(PaymentCreatedAt));
    TakeOfSorted(Filter(payments, IsCompleted), Descending(PaymentCreatedAt), 5);
    SortByMembers(Filter(payments, IsCompleted), Descending(PaymentCreatedAt));
    FilterMembers(payments, IsCompleted);
  }

  /** The first `n` of a sort by a key are in that order and are records that were sorted. */
  lemma TakeOfSorted<T(!new)>(s: seq<T>, le: (T, T) -> bool, n: nat)
    requires TotalPreorder(le)
    ensures var r := Take(SortBy(s, le), n);
      |r| == Min(|s|, n) && SortedBy(r, le) && forall x :: x in r ==> x in s
  {
    var sorted := SortBy(s, le);
    SortBySorted(s, le);
    SortByMembers(s, le);
  }

  /** The active students by class add up to the active-student count, in class order. */
  lemma StudentsByClassTotal(students: seq<Student>, users: seq<User>, records: seq<Attendance>,
    payments: seq<Payment>, invoices: seq<Invoice>, now: int, sixMonthsAgo: int, weekAgo: int,
    monthOf: int -> int)
    ensures var d := AdminDashboardOf(students, users, records, payments, invoices, now, sixMonthsAgo, weekAgo, monthOf);
      SumBy(d.studentsByClass, ClassCountValue) == d.stats.totalStudents &&
      SortedBy(d.studentsByClass, AscendingText(ClassCountName))
  {
    var active := Filter(students, IsActiveStudent);
    var rows := Map(KeysOf(active, StudentClass), ClassCountOf(active));
    Reports.SortedSum(rows, AscendingText(ClassCountName), ClassCountValue);
    GroupedTotal(active, StudentClass, Unit, ClassCountOf(active), ClassCountValue);
    SumByUnit(active);
    AscendingTextTotal(ClassCountName);
    SortBySorted(rows, AscendingText(ClassCountName));
  }

  /** A day's present count is at most its record count. */
  lemma DayRowBounded(recent: seq<Attendance>, d: int)
    ensures 0 <= DayRowOf(recent)(d).present <= DayRowOf(recent)(d).total
  {
    var day := Filter(recent, KeyIs(RecordDay, d));
    SumWhereIsFilteredSum(recent, RecordDay, d, Presence);
    SumWhereIsFilteredSum(recent, RecordDay, d, Unit);
    SumByMonotone(day, Presence, Unit);
    SumByNonNegative(day, Presence);
  }

  /**
   * The weekly trend has one row per day with no more present than recorded, in day order,
   * and its totals add up to the records since `weekAgo`.
   */
  lemma WeeklyAttendanceTotals(students: seq<Student>, users: seq<User>, records: seq<Attendance>,
    payments: seq<Payment>, invoices: seq<Invoice>, now: int, sixMonthsAgo: int, weekAgo: int,
    monthOf: int -> int)
    ensures var w := AdminDashboardOf(students, users, records, payments, invoices, now, sixMonthsAgo, weekAgo, monthOf).weeklyAttendance;
      SumBy(w, RowTotal) == Count(records, SinceDate(weekAgo)) &&
      SumBy(w, RowPresent) == SumBy(Filter(records, SinceDate(weekAgo)), Presence) &&
      (forall r :: r in w ==> 0 <= r.present <= r.total) &&
      SortedBy(w, Ascending(RowDay))
  {
    var recent := Filter(records, SinceDate(weekAgo));
    var rows := Map(KeysOf(recent, RecordDay), DayRowOf(recent));
    Reports.SortedSum(rows, Ascending(RowDay), RowTotal);
    Reports.SortedSum(rows, Ascending(RowDay), RowPresent);
    GroupedTotal(recent, RecordDay, Unit, DayRowOf(recent), RowTotal);
    GroupedTotal(recent, RecordDay, Presence, DayRowOf(recent), RowPresent);
    SumByUnit(recent);
    SortByMembers(rows, Ascending(RowDay));
    MapMembers(KeysOf(recent, RecordDay), DayRowOf(recent));
    forall r | r in SortBy(rows, Ascending(RowDay)) ensures 0 <= r.present <= r.total {
      var d :| d in KeysOf(recent, RecordDay) && r == DayRowOf(recent)(d);
      DayRowBounded(recent, d);
    }
    AscendingTotal(RowDay);
    SortBySorted(rows, Ascending(RowDay));
  }

  // ---------------------------------------------------------------------------------------
  // A parent's dashboard.

  /** `Student.find({ parent: parentId, status: 'active' })` */
  function ChildOf(parentId: nat): Student -> bool {
    (s: Student) => s.parent == parentId && s.status == Active
  }

  /** `Attendance.find({ student, date: { $gte: thirtyDaysAgo } })` */
  function RecentFor(student: nat, since: int): Attendance -> bool {
    (a: Attendance) => a.student == student && a.date >= since
  }

  /** `Invoice.find({ student, status: { $in: ['pending', 'partially_paid', 'overdue'] } })` */
  function OwingFor(student: nat): Invoice -> bool {
    (inv: Invoice) => inv.student == student && (IsOpen(inv.status) || inv.status == Overdue)
  }

  function InvoiceDueDate(inv: Invoice): int { inv.dueDate }

  /** `Payment.find({ parent: parentId, status: 'completed' })` */
  function PaidBy(parentId: nat): Payment -> bool {
    (p: Payment) => p.parent == parentId && p.status == Completed
  }

  datatype ChildAttendance = ChildAttendance(totalDays: nat, presentDays: nat, attendanceRate: Ratio, recentRecords: seq<Attendance>)

  datatype ChildFees = ChildFees(pendingInvoices: nat, totalDue: int, upcomingDue: Option<Invoice>)

  datatype ChildData = ChildData(student: Student, attendance: ChildAttendance, fees: ChildFees)

  datatype ParentDashboard = ParentDashboard(children: seq<ChildData>, recentPayments: seq<Payment>)

  /** The child's attendance since `since`, newest first. */
  function ChildRecords(records: seq<Attendance>, since: int, child: nat): seq<Attendance> {
    SortBy(Filter(records, RecentFor(child, since)), Descending(AttendanceDate))
  }

  /** The child's owing invoices, earliest due first. */
  function ChildInvoices(invoices: seq<Invoice>, child: nat): seq<Invoice> {
    SortBy(Filter(invoices, OwingFor(child)), Ascending(InvoiceDueDate))
  }

  /** One child's entry: attendance counts and the seven latest records, and the fees owed. */
  function ChildDataFor(records: seq<Attendance>, invoices: seq<Invoice>, since: int, c: Student): ChildData {
    var attendance := ChildRecords(records, since, c.id);
    var presentDays := Count(attendance, IsPresent);
    var pending := ChildInvoices(invoices, c.id);
    ChildData(c,
      ChildAttendance(|attendance|, presentDays, PercentOf(presentDays, |attendance|), Take(attendance, 7)),
      ChildFees(|pending|, SumBy(pending, InvoiceTotal), if pending == [] then None else Some(pending[0])))
  }

  function ChildDataOf(records: seq<Attendance>, invoices: seq<Invoice>, since: int): Student -> ChildData {
    (c: Student) => ChildDataFor(records, invoices, since, c)
  }

  /** `getParentDashboard` for the signed-in parent `caller`. */
  function ParentDashboardOf(students: seq<Student>, records: seq<Attendance>, invoices: seq<Invoice>,
    payments: seq<Payment>, caller: User, thirtyDaysAgo: int): ParentDashboard
  {
    ParentDashboard(
      Map(Filter(students, ChildOf(caller.id)), ChildDataOf(records, invoices, thirtyDaysAgo)),
      Take(SortBy(Filter(payments, PaidBy(caller.id)), Descending(PaymentController.TransactionDate)), 5))
  }

  /**
   * A child's attendance counts its records since `since`, no more of them present than
   * there are, and the recent records are at most seven of them, newest first.
   */
  lemma ChildAttendanceMeaning(records: seq<Attendance>, invoices: seq<Invoice>, since: int, c: Student)
    ensures var a := ChildDataFor(records, invoices, since, c).attendance;
      a.totalDays == Count(records, RecentFor(c.id, since)) &&
      a.presentDays <= a.totalDays &&
      a.presentDays == Count(Filter(records, RecentFor(c.id, since)), IsPresent) &&
      |a.recentRecords| == Min(a.totalDays, 7) &&
      SortedBy(a.recentRecords, Descending(AttendanceDate)) &&
      (forall r :: r in a.recentRecords ==> r in records && r.student == c.id && r.date >= since)
  {
    var kept := Filter(records, RecentFor(c.id, since));
    var attendance := ChildRecords(records, since, c.id);
    CountPermutation(attendance, kept, IsPresent);
    DescendingTotal(AttendanceDate);
    TakeOfSorted(kept, Descending(AttendanceDate), 7);
    FilterMembers(records, RecentFor(c.id, since));
  }

  /**
   * A child's fees count and total its owing invoices, and the upcoming due invoice is
   * present exactly when one is owed and is then an owed invoice with the earliest due date.
   */
  lemma ChildFeesMeaning(records: seq<Attendance>, invoices: seq<Invoice>, since: int, c: Student)
    ensures var f := ChildDataFor(records, invoices, since, c).fees;
      f.pendingInvoices == Count(invoices, OwingFor(c.id)) &&
      f.totalDue == SumBy(Filter(invoices, OwingFor(c.id)), InvoiceTotal) &&
      (f.upcomingDue.Some? <==> exists inv :: inv in invoices && OwingFor(c.id)(inv)) &&
      (f.upcomingDue.Some? ==>
        f.upcomingDue.value in invoices && OwingFor(c.id)(f.upcomingDue.value) &&
        forall inv :: inv in invoices && OwingFor(c.id)(inv) ==> f.upcomingDue.value.dueDate <= inv.dueDate)
  {
    var owing := Filter(invoices, OwingFor(c.id));
    Reports.SortedSum(owing, Ascending(InvoiceDueDate), InvoiceTotal);
    FilterIff(invoices, OwingFor(c.id));
    SortedHead(owing, InvoiceDueDate);
    if owing != [] {
      assert owing[0] in owing;
    }
  }

  /**
   * The parent sees exactly their own active children, in stored order, and at most five
   * of their own completed payments, the latest transaction first.
   */
  lemma ParentDashboardScope(students: seq<Student>, records: seq<Attendance>, invoices: seq<Invoice>,
    payments: seq<Payment>, caller: User, thirtyDaysAgo: int)
    ensures var d := ParentDashboardOf(students, records, invoices, payments, caller, thirtyDaysAgo);
      |d.children| == Count(students, ChildOf(caller.id)) &&
      (forall i :: 0 <= i < |d.children| ==>
        d.children[i].student in students && d.children[i].student.parent == caller.id &&
        d.children[i].student.status == Active &&
        d.children[i] == ChildDataFor(records, invoices, thirtyDaysAgo, d.children[i].student)) &&
      |d.recentPayments| == Min(Count(payments, PaidBy(caller.id)), 5) &&
      (forall p :: p in d.recentPayments ==> p in payments && p.parent == caller.id && p.status == Completed) &&
      SortedBy(d.recentPayments, Descending(PaymentController.TransactionDate))
  {
    var kids := Filter(students, ChildOf(caller.id));
    FilterMembers(students, ChildOf(caller.id));
    DescendingTotal(PaymentController.TransactionDate);
    TakeOfSorted(Filter(payments, PaidBy(caller.id)), Descending(PaymentController.TransactionDate), 5);
    FilterMembers(payments, PaidBy(caller.id));
  }
}
