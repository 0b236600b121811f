/**
 * The attendance handlers: marking one record, the bulk-marking loop, the admin query with
 * its date window and class filter, a student's records and summary behind the parent
 * check, and deletion.
 */
module AttendanceController {
  import opened Wrappers
  import opened Constants
  import opened Seqs
  import opened Sorting
  import opened Ratios
  import opened UserModel
  import opened StudentModel
  import opened AttendanceModel

  /** The `status` a body carries: missing (the required check) or not an enum value fails. */
  function ParsedStatus(status: Option<string>): (r: Option<AttendanceStatus>)
    ensures r.Some? <==> status.Some? && status.value in {"present", "absent", "late", "excused"}
    ensures r.Some? ==> AttendanceStatusName(r.value) == status.value
  {
    if status.None? then None else ParseAttendanceStatus(status.value)
  }

  // ---------------------------------------------------------------------------------------
  // Marking one record.

  datatype MarkBody = MarkBody(student: nat, date: int, status: Option<string>, remarks: Option<string>)

  /** The response of `markAttendance`: 200 for an update, 201 for a new record. */
  datatype Marked = Marked(code: int, message: string, record: Attendance)

  /**
   * `markAttendance`: the date becomes its day's start, then the record of that key is
   * overwritten or created by the acting user; a bad status fails the save with 500.
   */
  method MarkAttendance(store: AttendanceStore, body: MarkBody, caller: User) returns (r: Result<Marked>)
    requires store.Valid()
    modifies store
    ensures store.Valid()
    ensures r.Ok? <==> ParsedStatus(body.status).Some?
    ensures r.Err? ==>
      r.error.status == ServerError && store.records == old(store.records) && store.nextId == old(store.nextId)
    ensures r.Ok? ==>
      var day := StartOfDay(body.date);
      var st := ParsedStatus(body.status).value;
      store.records == Upserted(old(store.records), old(store.nextId), body.student, day, st, body.remarks, caller.id) &&
      store.nextId == NextAfter(old(store.records), old(store.nextId), body.student, day) &&
      r.value.record == MarkedRecord(old(store.records), old(store.nextId), body.student, day, st, body.remarks, caller.id) &&
      (r.value.code == 201 <==> KeyAbsent(old(store.records), Key, (body.student, day))) &&
      (r.value.code == 200 || r.value.code == 201)
  {
    var day := StartOfDay(body.date);
    StartOfDayIdempotent(body.date);
    var st := ParsedStatus(body.status);
    if st.None? {
      r := Fail(ServerError, "Attendance validation failed: status");
      return;
    }
    var created, saved := store.Upsert(body.student, day, st.value, body.remarks, caller.id);
    if created {
      r := Ok(Marked(201, "Attendance marked successfully", saved));
    } else {
      r := Ok(Marked(200, "Attendance updated", saved));
    }
  }

  // ---------------------------------------------------------------------------------------
  // Bulk marking.

  datatype BulkRecord = BulkRecord(student: nat, status: Option<string>, remarks: Option<string>)

  /** The state of the bulk loop: the collection, the next id, the `results` so far, and whether it still runs. */
  datatype Run = Run(records: seq<Attendance>, nextId: nat, results: seq<Attendance>, ok: bool)

  /** The remarks a bulk upsert writes: as given for a stored record, `record.remarks || ''` for a new one. */
  function BulkRemarks(records: seq<Attendance>, student: nat, day: int, remarks: Option<string>): Option<string> {
    if KeyAbsent(records, Key, (student, day)) then Some(remarks.GetOr("")) else remarks
  }

  /** One pass of the loop body; a failed save throws, so nothing runs after it. */
  function Step(run: Run, day: int, rec: BulkRecord, marker: nat): Run {
    if !run.ok then run
    else
      match ParsedStatus(rec.status)
      case None => run.(ok := false)
      case Some(st) =>
        var remarks := BulkRemarks(run.records, rec.student, day, rec.remarks);
        Run(Upserted(run.records, run.nextId, rec.student, day, st, remarks, marker),
          NextAfter(run.records, run.nextId, rec.student, day),
          run.results + [MarkedRecord(run.records, run.nextId, rec.student, day, st, remarks, marker)],
          true)
  }

  /** The loop over `records`, in input order. */
  function BulkRun(start: Run, day: int, recs: seq<BulkRecord>, marker: nat): Run
    decreases |recs|
  {
    if recs == [] then start
    else Step(BulkRun(start, day, recs[..|recs| - 1], marker), day, recs[|recs| - 1], marker)
  }

  /** The run over one more record is one more pass of the loop body. */
  lemma BulkRunNext(start: Run, day: int, recs: seq<BulkRecord>, i: nat, marker: nat)
    requires i < |recs|
    ensures BulkRun(start, day, recs[..i + 1], marker) == Step(BulkRun(start, day, recs[..i], marker), day, recs[i], marker)
  {
    assert recs[..i + 1][..i] == recs[..i];
  }

  /** Once a pass has failed, the rest of the records change nothing. */
  lemma {:induction false} FailedRunStays(start: Run, day: int, recs: seq<BulkRecord>, n: nat, marker: nat)
    requires n <= |recs| && !BulkRun(start, day, recs[..n], marker).ok
    ensures BulkRun(start, day, recs, marker) == BulkRun(start, day, recs[..n], marker)
    decreases |recs| - n
  {
    if n < |recs| {
      var longer := recs[..n + 1];
      assert longer[..n] == recs[..n];
      FailedRunStays(start, day, recs, n + 1, marker);
    } else {
      assert recs[..n] == recs;
    }
  }

  /** The loop keeps the collection's invariant at every step. */
  lemma {:induction false} BulkRunValid(start: Run, day: int, recs: seq<BulkRecord>, marker: nat)
    requires StoreValid(start.records, start.nextId) && day == StartOfDay(day)
    ensures StoreValid(BulkRun(start, day, recs, marker).records, BulkRun(start, day, recs, marker).nextId)
    decreases |recs|
  {
    if recs != [] {
      var prev := BulkRun(start, day, recs[..|recs| - 1], marker);
      BulkRunValid(start, day, recs[..|recs| - 1], marker);
      var rec := recs[|recs| - 1];
      if prev.ok && ParsedStatus(rec.status).Some? {
        UpsertKeepsValid(prev.records, prev.nextId, rec.student, day, ParsedStatus(rec.status).value,
          BulkRemarks(prev.records, rec.student, day, rec.remarks), marker);
      }
    }
  }

  /** The loop runs to the end exactly when every record has a valid status. */
  lemma {:induction false} BulkRunOk(start: Run, day: int, recs: seq<BulkRecord>, marker: nat)
    requires start.ok
    ensures BulkRun(start, day, recs, marker).ok <==> forall i :: 0 <= i < |recs| ==> ParsedStatus(recs[i].status).Some?
    decreases |recs|
  {
    if recs != [] {
      var init := recs[..|recs| - 1];
      var last := recs[|recs| - 1];
      BulkRunOk(start, day, init, marker);
      assert BulkRun(start, day, recs, marker).ok <==> BulkRun(start, day, init, marker).ok && ParsedStatus(last.status).Some?;
      if forall i :: 0 <= i < |recs| ==> ParsedStatus(recs[i].status).Some? {
        forall i | 0 <= i < |init| ensures ParsedStatus(init[i].status).Some? {
          assert init[i] == recs[i];
        }
      }
    }
  }

  /**
   * A loop that runs to the end gives one result per input record, in order: the record
   * of that student on that day, with the status asked for, marked by the acting user.
   */
  lemma {:induction false} BulkRunResults(start: Run, day: int, recs: seq<BulkRecord>, marker: nat)
    requires start.ok && start.results == []
    ensures var run := BulkRun(start, day, recs, marker);
      run.ok ==>
        |run.results| == |recs| &&
        forall i :: 0 <= i < |recs| ==>
          Key(run.results[i]) == (recs[i].student, day) && Some(run.results[i].status) == ParsedStatus(recs[i].status) &&
          run.results[i].markedBy == Some(marker)
    decreases |recs|
  {
    if recs != [] {
      var init := recs[..|recs| - 1];
      var prev := BulkRun(start, day, init, marker);
      var run := BulkRun(start, day, recs, marker);
      if run.ok {
        assert prev.ok;
        BulkRunResults(start, day, init, marker);
        var last := run.results[|recs| - 1];
        assert run.results == prev.results + [last];
        forall i | 0 <= i < |recs|
          ensures Key(run.results[i]) == (recs[i].student, day) && Some(run.results[i].status) == ParsedStatus(recs[i].status) &&
            run.results[i].markedBy == Some(marker)
        {
          if i < |init| {
            assert run.results[i] == prev.results[i] && recs[i] == init[i];
          }
        }
      }
    }
  }

  /** A record the loop creates gets `''` for missing remarks; one it updates takes the remarks as given. */
  lemma StepRemarks(run: Run, day: int, rec: BulkRecord, marker: nat)
    requires run.ok && ParsedStatus(rec.status).Some?
    ensures var after := Step(run, day, rec, marker);
      after.results[|after.results| - 1].remarks ==
        if KeyAbsent(run.records, Key, (rec.student, day)) then Some(rec.remarks.GetOr("")) else rec.remarks
  {
  }

  /**
   * `bulkMarkAttendance`: no records, 400 and nothing changes; otherwise the records are
   * upserted one by one in input order, and a failing save ends the request with 500 after
   * the records before it have been written.
   */
  method BulkMarkAttendance(store: AttendanceStore, date: int, records: Option<seq<BulkRecord>>, caller: User)
    returns (r: Result<seq<Attendance>>)
    requires store.Valid()
    modifies store
    ensures store.Valid()
    ensures (records.None? || records.value == []) ==>
      r == Fail(BadRequest, "Please provide attendance records") &&
      store.records == old(store.records) && store.nextId == old(store.nextId)
    ensures records.Some? && records.value != [] ==>
      var run := BulkRun(Run(old(store.records), old(store.nextId), [], true), StartOfDay(date), records.value, caller.id);
      store.records == run.records && store.nextId == run.nextId &&
      (r.Ok? <==> run.ok) && (r.Ok? ==> r.value == run.results) && (r.Err? ==> r.error.status == ServerError)
  {
    if records.None? || |records.value| == 0 {
      r := Fail(BadRequest, "Please provide attendance records");
      return;
    }
    var recs := records.value;
    var day := StartOfDay(date);
    StartOfDayIdempotent(date);
    ghost var start := Run(store.records, store.nextId, [], true);
    var results: seq<Attendance> := [];
    var i := 0;
    while i < |recs|
      invariant 0 <= i <= |recs|
      invariant store.Valid()
      invariant BulkRun(start, day, recs[..i], caller.id) == Run(store.records, store.nextId, results, true)
    {
      BulkRunNext(start, day, recs, i, caller.id);
      var rec := recs[i];
      var st := ParsedStatus(rec.status);
      if st.None? {
        FailedRunStays(start, day, recs, i + 1, caller.id);
        r := Fail(ServerError, "Attendance validation failed: status");
        return;
      }
      var existing := FindRecord(store.records, rec.student, day);
      var remarks := if existing.Some? then rec.remarks else Some(rec.remarks.GetOr(""));
      var created, saved := store.Upsert(rec.student, day, st.value, remarks, caller.id);
      results := results + [saved];
      i := i + 1;
    }
    assert recs[..|recs|] == recs;
    r := Ok(results);
  }

  // ---------------------------------------------------------------------------------------
  // Queries.

  /** The query string of `GET /api/attendance`; absent strings are "". */
  datatype AttendanceQuery = AttendanceQuery(
    studentId: Option<nat>,
    date: Option<int>,
    startDate: Option<int>,
    endDate: Option<int>,
    status: string,
    className: string,
    page: Positive,
    limit: Positive)

  /** The `date` condition: the whole day of `date` when given, else the window when both ends are. */
  predicate InDateWindow(q: AttendanceQuery, t: int) {
    if q.date.Some? then StartOfDay(q.date.value) <= t <= StartOfDay(q.date.value) + DayMs - 1
    else q.startDate.None? || q.endDate.None? || q.startDate.value <= t <= q.endDate.value
  }

  function ActiveOfClass(className: string): Student -> bool {
    (s: Student) => s.className == className && s.status == Active
  }

  /** The `$in` list of a class filter: the ids of the class's active students. */
  predicate InClass(students: seq<Student>, className: string, student: nat) {
    !KeyAbsent(Filter(students, ActiveOfClass(className)), StudentId, student)
  }

  /** The query `getAttendance` builds; a class filter replaces the `studentId` condition. */
  function AttendanceFilter(q: AttendanceQuery, students: seq<Student>): Attendance -> bool {
    (a: Attendance) =>
      (if q.className != "" then InClass(students, q.className, a.student)
       else q.studentId.None? || a.student == q.studentId.value) &&
      (q.status == "" || AttendanceStatusName(a.status) == q.status) &&
      InDateWindow(q, a.date)
  }

  /** `getAttendance`: the matching records, newest day first, one page of them, and the totals. */
  function GetAttendance(records: seq<Attendance>, students: seq<Student>, q: AttendanceQuery): Paged<Attendance> {
    ListQuery(records, AttendanceFilter(q, students), Descending(AttendanceDate), q.page, q.limit)
  }

  /** A query by day lists exactly the records stored for that calendar day, newest first. */
  lemma DayQueryCoversDay(records: seq<Attendance>, students: seq<Student>, q: AttendanceQuery)
    requires q.date.Some?
    ensures var r := GetAttendance(records, students, q);
      SortedBy(r.data, Descending(AttendanceDate)) &&
      forall x :: x in r.data ==> x in records && StartOfDay(x.date) == StartOfDay(q.date.value)
  {
    var r := GetAttendance(records, students, q);
    forall x | x in r.data ensures StartOfDay(x.date) == StartOfDay(q.date.value) {
      SameDay(q.date.value, x.date);
    }
    DescendingTotal(AttendanceDate);
    ListQuerySorted(records, AttendanceFilter(q, students), Descending(AttendanceDate), q.page, q.limit);
  }

  /** With a class filter the listed records are the class's active students', whatever `studentId` says. */
  lemma ClassFilterReplacesStudent(records: seq<Attendance>, students: seq<Student>, q: AttendanceQuery, other: Option<nat>)
    requires q.className != ""
    ensures GetAttendance(records, students, q) == GetAttendance(records, students, q.(studentId := other))
    ensures forall x :: x in GetAttendance(records, students, q).data ==>
      exists s :: s in students && s.id == x.student && s.className == q.className && s.status == Active
  {
    ListQueryExt(records, AttendanceFilter(q, students), AttendanceFilter(q.(studentId := other), students),
      Descending(AttendanceDate), q.page, q.limit);
    var active := Filter(students, ActiveOfClass(q.className));
    FilterMembers(students, ActiveOfClass(q.className));
    forall x | x in GetAttendance(records, students, q).data
      ensures exists s :: s in students && s.id == x.student && s.className == q.className && s.status == Active
    {
      assert InClass(students, q.className, x.student);
      var k :| 0 <= k < |active| && active[k].id == x.student;
      assert active[k] in active;
    }
  }

  /** A parent may read a student's attendance only when that student is stored and is their child. */
  function CheckParent(students: seq<Student>, studentId: nat, caller: User, message: string): (r: Result<()>)
    ensures r.Err? ==> r == Fail(Forbidden, message) && caller.role == Parent
    ensures r.Ok? && caller.role == Parent ==>
      exists k :: 0 <= k < |students| && students[k].id == studentId && students[k].parent == caller.id
  {
    if caller.role != Parent then Ok(())
    else
      match FindStudent(students, studentId)
      case None => Fail(Forbidden, message)
      case Some(k) => if students[k].parent != caller.id then Fail(Forbidden, message) else Ok(())
  }

  /** With unique student ids, a parent asking about their own child is let through. */
  lemma OwnChildAllowed(students: seq<Student>, k: nat, caller: User, message: string)
    requires UniqueBy(students, StudentId) && k < |students| && students[k].parent == caller.id
    ensures CheckParent(students, students[k].id, caller, message).Ok?
  {
    match FindStudent(students, students[k].id)
    case None =>
    case Some(j) => UniqueByIndex(students, StudentId, j, k);
  }

  function OfStudentIn(studentId: nat, startDate: Option<int>, endDate: Option<int>): Attendance -> bool {
    (a: Attendance) => a.student == studentId &&
      (startDate.None? || endDate.None? || startDate.value <= a.date <= endDate.value)
  }

  /** `getAttendanceByStudent`: behind the parent check, the student's records in the window, newest first. */
  function GetAttendanceByStudent(records: seq<Attendance>, students: seq<Student>, studentId: nat,
    startDate: Option<int>, endDate: Option<int>, caller: User): (r: Result<seq<Attendance>>)
    ensures r.Err? <==> CheckParent(students, studentId, caller, "Not authorized to view this student's attendance").Err?
    ensures r.Err? ==> r.error.status == Forbidden
    ensures r.Ok? ==> SortedBy(r.value, Descending(AttendanceDate))
    ensures r.Ok? ==> forall x :: x in r.value ==>
      (x in records && x.student == studentId &&
       (startDate.Some? && endDate.Some? ==> startDate.value <= x.date <= endDate.value))
    ensures r.Ok? ==> multiset(r.value) == multiset(Filter(records, OfStudentIn(studentId, startDate, endDate)))
  {
    match CheckParent(students, studentId, caller, "Not authorized to view this student's attendance")
    case Err(e) => Err(e)
    case Ok(_) =>
      var mine := Filter(records, OfStudentIn(studentId, startDate, endDate));
      FilterMembers(records, OfStudentIn(studentId, startDate, endDate));
      SortByMembers(mine, Descending(AttendanceDate));
      DescendingTotal(AttendanceDate);
      SortBySorted(mine, Descending(AttendanceDate));
      Ok(SortBy(mine, Descending(AttendanceDate)))
  }

  /** The summary: the record count, one count per status, and the rate of present-or-late days. */
  datatype Summary = Summary(total: nat, present: nat, absent: nat, late: nat, excused: nat, attendanceRate: Ratio)

  function StatusIs(s: AttendanceStatus): Attendance -> bool { (a: Attendance) => a.status == s }

  function SummaryOf(records: seq<Attendance>): Summary {
    var present := Count(records, StatusIs(Present));
    var late := Count(records, StatusIs(Late));
    Summary(|records|, present, Count(records, StatusIs(Absent)), late, Count(records, StatusIs(Excused)),
      PercentOf(present + late, |records|))
  }

  /** Every record has exactly one of the four statuses, so the counts add up to the total. */
  lemma {:induction false} StatusCountsPartition(records: seq<Attendance>)
    ensures Count(records, StatusIs(Present)) + Count(records, StatusIs(Absent)) +
      Count(records, StatusIs(Late)) + Count(records, StatusIs(Excused)) == |records|
  {
    if records != [] {
      StatusCountsPartition(records[1..]);
    }
  }

  /**
   * The summary's counts partition the records, and its rate is 0 with no records and
   * otherwise the share of present-or-late records, between 0 and 100 percent.
   */
  lemma SummaryMeaning(records: seq<Attendance>)
    ensures var s := SummaryOf(records);
      s.total == s.present + s.absent + s.late + s.excused &&
      (s.total == 0 ==> s.attendanceRate.numerator == 0) &&
      (s.total > 0 ==>
        s.attendanceRate.denominator > 0 &&
        0 <= s.attendanceRate.numerator <= 100 * s.attendanceRate.denominator &&
        s.attendanceRate.numerator * s.total == 100 * (s.present + s.late) * s.attendanceRate.denominator)
  {
    StatusCountsPartition(records);
    var s := SummaryOf(records);
    PercentInRange(s.present + s.late, s.total);
  }

  /** `getAttendanceSummary`: behind the parent check, the summary of the student's records in the window. */
  function GetAttendanceSummary(records: seq<Attendance>, students: seq<Student>, studentId: nat,
    startDate: Option<int>, endDate: Option<int>, caller: User): (r: Result<Summary>)
    ensures r.Err? <==> CheckParent(students, studentId, caller, "Not authorized").Err?
    ensures r.Err? ==> r.error.status == Forbidden
    ensures r.Ok? ==> r.value == SummaryOf(Filter(records, OfStudentIn(studentId, startDate, endDate)))
  {
    match CheckParent(students, studentId, caller, "Not authorized")
    case Err(e) => Err(e)
    case Ok(_) => Ok(SummaryOf(Filter(records, OfStudentIn(studentId, startDate, endDate))))
  }

  /** The records and the summary endpoints admit the same callers. */
  lemma SameParentCheck(records: seq<Attendance>, students: seq<Student>, studentId: nat,
    startDate: Option<int>, endDate: Option<int>, caller: User)
    ensures GetAttendanceByStudent(records, students, studentId, startDate, endDate, caller).Ok? <==>
      GetAttendanceSummary(records, students, studentId, startDate, endDate, caller).Ok?
  {
  }

  /** `deleteAttendance`: 404 for an unknown id, otherwise the record is removed. */
  method DeleteAttendance(store: AttendanceStore, id: nat) returns (r: Result<()>)
    requires store.Valid()
    modifies store
    ensures store.Valid() && store.nextId == old(store.nextId)
    ensures FindAttendance(old(store.records), id).None? ==>
      r == Fail(NotFound, "Attendance record not found") && store.records == old(store.records)
    ensures FindAttendance(old(store.records), id).Some? ==>
      r == Ok(()) && store.records == RemoveAt(old(store.records), FindAttendance(old(store.records), id).value)
  {
    var k := FindAttendance(store.records, id);
    if k.None? {
      r := Fail(NotFound, "Attendance record not found");
      return;
    }
    store.Remove(k.value);
    r := Ok(());
  }
}
