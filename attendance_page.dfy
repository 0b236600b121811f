/**
 * The marking sheet of the attendance page: the status of each loaded student, pre-filled
 * from the day's records, changed for all students or for one, and sent as the bulk list.
 * A plain object keeps non-integer string keys, such as the 24-hex ObjectIds used here,
 * in insertion order, so the sheet is a sequence of entries with unique students.
 */
module AttendancePage {
  import opened Wrappers
  import opened Seqs

  /** One key of the sheet: a student id and the status chosen for it. */
  datatype Entry = Entry(student: string, status: string)

  function EntryStudent(e: Entry): string { e.student }

  function EntryIs(student: string): Entry -> bool { (e: Entry) => e.student == student }

  /** `sheet[student]`, or None when the key is not there. */
  function Lookup(sheet: seq<Entry>, student: string): (r: Option<string>)
    ensures r.None? <==> KeyAbsent(sheet, EntryStudent, student)
    ensures r.Some? ==> exists i :: 0 <= i < |sheet| && sheet[i] == Entry(student, r.value)
  {
    match IndexOf(sheet, EntryIs(student))
    case None => None
    case Some(k) => Some(sheet[k].status)
  }

  /** `sheet[student] = status`: an existing key keeps its place, a new key goes last. */
  function Put(sheet: seq<Entry>, student: string, status: string): (r: seq<Entry>)
    ensures KeyAbsent(sheet, EntryStudent, student) ==> r == sheet + [Entry(student, status)]
    ensures !KeyAbsent(sheet, EntryStudent, student) ==>
      |r| == |sheet| && exists k :: 0 <= k < |sheet| && sheet[k].student == student && r == sheet[k := Entry(student, status)]
  {
    match IndexOf(sheet, EntryIs(student))
    case None => sheet + [Entry(student, status)]
    case Some(k) => sheet[k := Entry(student, status)]
  }

  /** After a `Put` the key holds the new status, every other key what it held, and keys stay unique. */
  lemma PutEffect(sheet: seq<Entry>, student: string, status: string)
    requires UniqueBy(sheet, EntryStudent)
    ensures var r := Put(sheet, student, status);
      UniqueBy(r, EntryStudent) && Lookup(r, student) == Some(status) &&
      (forall s :: s != student ==> Lookup(r, s) == Lookup(sheet, s)) &&
      (forall e :: e in r ==> e.student == student || e in sheet)
  {
    var r := Put(sheet, student, status);
    var e := Entry(student, status);
    if KeyAbsent(sheet, EntryStudent, student) {
      UniqueByAppend(sheet, EntryStudent, e);
      assert r[|sheet|] == e;
    } else {
      var k := IndexOf(sheet, EntryIs(student)).value;
      UniqueByReplace(sheet, EntryStudent, k, e);
      assert r[k] == e;
    }
    LookupUnique(r, student);
    forall s | s != student ensures Lookup(r, s) == Lookup(sheet, s) {
      PutOther(sheet, student, status, s);
    }
  }

  /** A `Put` under one key leaves the lookup of another key as it was. */
  lemma PutOther(sheet: seq<Entry>, student: string, status: string, s: string)
    requires UniqueBy(sheet, EntryStudent) && s != student
    ensures UniqueBy(Put(sheet, student, status), EntryStudent)
    ensures Lookup(Put(sheet, student, status), s) == Lookup(sheet, s)
  {
    var r := Put(sheet, student, status);
    var e := Entry(student, status);
    if KeyAbsent(sheet, EntryStudent, student) {
      UniqueByAppend(sheet, EntryStudent, e);
    } else {
      var k := IndexOf(sheet, EntryIs(student)).value;
      UniqueByReplace(sheet, EntryStudent, k, e);
    }
    LookupUnique(r, s);
    LookupUnique(sheet, s);
    if KeyAbsent(sheet, EntryStudent, s) {
      assert KeyAbsent(r, EntryStudent, s);
    } else {
      var i :| 0 <= i < |sheet| && sheet[i].student == s;
      assert r[i] == sheet[i];
    }
  }

  /** With unique keys, `Lookup` answers the status of the one entry with that key. */
  lemma LookupUnique(sheet: seq<Entry>, student: string)
    requires UniqueBy(sheet, EntryStudent)
    ensures forall i :: 0 <= i < |sheet| && sheet[i].student == student ==> Lookup(sheet, student) == Some(sheet[i].status)
  {
    forall i | 0 <= i < |sheet| && sheet[i].student == student
      ensures Lookup(sheet, student) == Some(sheet[i].status)
    {
      assert EntryIs(student)(sheet[i]);
      var k := IndexOf(sheet, EntryIs(student)).value;
      if k != i {
        UniqueByIndex(sheet, EntryStudent, k, i);
      }
    }
  }

  // ---------------------------------------------------------------------------------------
  // Pre-filling.

  /** A loaded attendance record: its student's id when the student is populated, and its status. */
  datatype RecordRow = RecordRow(student: Option<string>, status: string)

  /** `if (r.student) existing[r.student._id] = r.status` */
  function NoteRecord(existing: seq<Entry>, r: RecordRow): seq<Entry> {
    if r.student.Some? then Put(existing, r.student.value, r.status) else existing
  }

  /** `existing` after `records.forEach(...)`. */
  function ExistingOf(records: seq<RecordRow>): seq<Entry> {
    if records == [] then [] else NoteRecord(ExistingOf(records[..|records| - 1]), records[|records| - 1])
  }

  /** One more record is one more `NoteRecord`. */
  lemma ExistingOfNext(records: seq<RecordRow>, i: nat)
    requires i < |records|
    ensures ExistingOf(records[..i + 1]) == NoteRecord(ExistingOf(records[..i]), records[i])
  {
    assert records[..i + 1][..i] == records[..i];
  }

  /** `existing[id] || 'present'` */
  function StatusOr(existing: seq<Entry>, student: string): string {
    match Lookup(existing, student)
    case Some(status) => if status != "" then status else "present"
    case None => "present"
  }

  /** `initial` after `studentList.forEach(...)`. */
  function PrefillOf(students: seq<string>, existing: seq<Entry>): seq<Entry> {
    if students == [] then []
    else
      var last := students[|students| - 1];
      Put(PrefillOf(students[..|students| - 1], existing), last, StatusOr(existing, last))
  }

  /** One more student is one more `Put`. */
  lemma PrefillOfNext(students: seq<string>, existing: seq<Entry>, j: nat)
    requires j < |students|
    ensures PrefillOf(students[..j + 1], existing) ==
      Put(PrefillOf(students[..j], existing), students[j], StatusOr(existing, students[j]))
  {
    assert students[..j + 1][..j] == students[..j];
  }

  /** `updated` after `students.forEach(s => { updated[s._id] = status; })`. */
  function AllMarked(students: seq<string>, status: string): seq<Entry> {
    if students == [] then []
    else Put(AllMarked(students[..|students| - 1], status), students[|students| - 1], status)
  }

  /** The existing statuses are keyed by the students of the records that have one, and nothing else. */
  lemma {:induction false} ExistingOfMeaning(records: seq<RecordRow>)
    ensures var m := ExistingOf(records);
      UniqueBy(m, EntryStudent) &&
      (forall s :: Lookup(m, s).Some? <==> exists r :: r in records && r.student == Some(s)) &&
      (forall s :: Lookup(m, s).Some? ==> exists r :: r in records && r.student == Some(s) && r.status == Lookup(m, s).value)
  {
    if records != [] {
      var init := records[..|records| - 1];
      var last := records[|records| - 1];
      assert records == init + [last];
      ExistingOfMeaning(init);
      var m0 := ExistingOf(init);
      var m := ExistingOf(records);
      if last.student.Some? {
        PutEffect(m0, last.student.value, last.status);
      }
      forall s
        ensures Lookup(m, s).Some? <==> exists r :: r in records && r.student == Some(s)
        ensures Lookup(m, s).Some? ==> exists r :: r in records && r.student == Some(s) && r.status == Lookup(m, s).value
      {
        if last.student == Some(s) {
          assert last in records;
        } else {
          assert Lookup(m, s) == Lookup(m0, s);
          if Lookup(m0, s).Some? {
            var r :| r in init && r.student == Some(s) && r.status == Lookup(m0, s).value;
            assert r in records;
          }
          if exists r :: r in records && r.student == Some(s) {
            var r :| r in records && r.student == Some(s);
            assert r in init;
          }
        }
      }
    }
  }

  /** The latest record of a student decides the status that is pre-filled for them. */
  lemma LatestRecordWins(records: seq<RecordRow>, r: RecordRow)
    requires r.student.Some?
    ensures Lookup(ExistingOf(records + [r]), r.student.value) == Some(r.status)
  {
    assert (records + [r])[..|records|] == records;
    ExistingOfMeaning(records);
    PutEffect(ExistingOf(records), r.student.value, r.status);
  }

  /** Every loaded student, and only they, get an entry: their existing status, else `present`. */
  lemma {:induction false} PrefillMeaning(students: seq<string>, existing: seq<Entry>)
    ensures var m := PrefillOf(students, existing);
      UniqueBy(m, EntryStudent) &&
      (forall s :: s in students ==> Lookup(m, s) == Some(StatusOr(existing, s))) &&
      (forall e :: e in m ==> e.student in students)
  {
    if students != [] {
      var init := students[..|students| - 1];
      var last := students[|students| - 1];
      assert students == init + [last];
      PrefillMeaning(init, existing);
      PutEffect(PrefillOf(init, existing), last, StatusOr(existing, last));
    }
  }

  /** Marking all gives every loaded student, and only they, the chosen status. */
  lemma {:induction false} AllMarkedMeaning(students: seq<string>, status: string)
    ensures var m := AllMarked(students, status);
      UniqueBy(m, EntryStudent) &&
      (forall s :: s in students ==> Lookup(m, s) == Some(status)) &&
      (forall e :: e in m ==> e.student in students && e.status == status)
  {
    if students != [] {
      var init := students[..|students| - 1];
      var last := students[|students| - 1];
      assert students == init + [last];
      AllMarkedMeaning(init, status);
      PutEffect(AllMarked(init, status), last, status);
    }
  }

  // ---------------------------------------------------------------------------------------
  // The bulk request.

  /** One `{ student, status }` of the bulk request. */
  datatype BulkRecord = BulkRecord(student: string, status: string)

  function ToBulk(e: Entry): BulkRecord { BulkRecord(e.student, e.status) }

  /** `Object.entries(attendanceData).map(([studentId, status]) => ({ student: studentId, status }))` */
  function BulkRecords(sheet: seq<Entry>): (r: seq<BulkRecord>)
    ensures |r| == |sheet|
  {
    Map(sheet, ToBulk)
  }

  /** With unique keys, the request holds exactly one record per entry, with that entry's status. */
  lemma BulkOnePerEntry(sheet: seq<Entry>, student: string)
    requires UniqueBy(sheet, EntryStudent)
    ensures var r := BulkRecords(sheet);
      (Lookup(sheet, student).None? ==> forall i :: 0 <= i < |r| ==> r[i].student != student) &&
      (Lookup(sheet, student).Some? ==>
        exists i :: 0 <= i < |r| && r[i] == BulkRecord(student, Lookup(sheet, student).value) &&
          (forall j :: 0 <= j < |r| && j != i ==> r[j].student != student))
  {
    var r := BulkRecords(sheet);
    LookupUnique(sheet, student);
    if Lookup(sheet, student).Some? {
      var i :| 0 <= i < |sheet| && sheet[i] == Entry(student, Lookup(sheet, student).value);
      assert r[i] == ToBulk(sheet[i]);
      forall j | 0 <= j < |r| && j != i ensures r[j].student != student {
        assert r[j] == ToBulk(sheet[j]);
      }
    } else {
      forall i | 0 <= i < |r| ensures r[i].student != student {
        assert r[i] == ToBulk(sheet[i]);
      }
    }
  }

  // ---------------------------------------------------------------------------------------
  // The page state.

  class MarkingSheet {
    var students: seq<string>
    var sheet: seq<Entry>
    var markingMode: bool

    ghost predicate Valid()
      reads this
    {
      UniqueBy(sheet, EntryStudent)
    }

    constructor ()
      ensures Valid() && students == [] && sheet == [] && !markingMode
    {
      students := [];
      sheet := [];
      markingMode := false;
    }

    /**
     * `loadStudentsForMarking`, given the class's students as the request returns their
     * ids: without a class the page answers with an error and changes nothing.
     */
    method Load(selectedClass: string, records: seq<RecordRow>, studentList: seq<string>) returns (error: Option<string>)
      requires Valid()
      modifies this
      ensures Valid()
      ensures selectedClass == "" ==>
        error == Some("Please select a class") && students == old(students) && sheet == old(sheet) &&
        markingMode == old(markingMode)
      ensures selectedClass != "" ==>
        error.None? && students == studentList && markingMode &&
        sheet == PrefillOf(studentList, ExistingOf(records))
    {
      if selectedClass == "" {
        return Some("Please select a class");
      }
      var existing: seq<Entry> := [];
      var i := 0;
      while i < |records|
        invariant 0 <= i <= |records|
        invariant existing == ExistingOf(records[..i])
      {
        ExistingOfNext(records, i);
        if records[i].student.Some? {
          existing := Put(existing, records[i].student.value, records[i].status);
        }
        i := i + 1;
      }
      assert records[..|records|] == records;
      var initial: seq<Entry> := [];
      var j := 0;
      while j < |studentList|
        invariant 0 <= j <= |studentList|
        invariant initial == PrefillOf(studentList[..j], existing)
      {
        PrefillOfNext(studentList, existing, j);
        initial := Put(initial, studentList[j], StatusOr(existing, studentList[j]));
        j := j + 1;
      }
      assert studentList[..|studentList|] == studentList;
      PrefillMeaning(studentList, existing);
      students := studentList;
      sheet := initial;
      markingMode := true;
      error := None;
    }

    /** A "Mark all" button: every loaded student gets `status`. */
    method MarkAll(status: string)
      requires Valid()
      modifies this
      ensures Valid() && students == old(students) && markingMode == old(markingMode)
      ensures sheet == AllMarked(students, status)
    {
      var updated: seq<Entry> := [];
      var j := 0;
      while j < |students|
        invariant 0 <= j <= |students|
        invariant updated == AllMarked(students[..j], status)
      {
        assert students[..j + 1][..j] == students[..j];
        updated := Put(updated, students[j], status);
        j := j + 1;
      }
      assert students[..|students|] == students;
      AllMarkedMeaning(students, status);
      sheet := updated;
    }

    /** A student's status button: that student's entry, and no other, changes. */
    method SetStatus(student: string, status: string)
      requires Valid()
      modifies this
      ensures Valid() && students == old(students) && markingMode == old(markingMode)
      ensures sheet == Put(old(sheet), student, status)
      ensures Lookup(sheet, student) == Some(status)
      ensures forall s :: s != student ==> Lookup(sheet, s) == Lookup(old(sheet), s)
    {
      PutEffect(sheet, student, status);
      sheet := Put(sheet, student, status);
    }

    /** The `records` of the bulk request `handleBulkSubmit` sends. */
    function Payload(): (r: seq<BulkRecord>)
      reads this
      ensures |r| == |sheet| && forall i :: 0 <= i < |sheet| ==> r[i] == BulkRecord(sheet[i].student, sheet[i].status)
    {
      BulkRecords(sheet)
    }
  }
}
