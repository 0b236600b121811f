/**
 * The `Attendance` model and its collection. A record is keyed by the student and the
 * start of the day it is for, and the compound unique index allows one record per key;
 * marking attendance is an upsert on that key.
 */
module AttendanceModel {
  import opened Wrappers
  import opened Constants
  import opened Seqs

  /** Milliseconds in a day. */
  const DayMs: int := 86400000

  /** `setHours(0, 0, 0, 0)` on the UTC clock: the first millisecond of the day holding `t`. */
  function StartOfDay(t: int): (d: int)
    ensures d <= t < d + DayMs && d % DayMs == 0
  {
    t - t % DayMs
  }

  /** Two instants fall on the same day exactly when the second lies in the first one's day. */
  lemma SameDay(t: int, u: int)
    ensures StartOfDay(u) == StartOfDay(t) <==> StartOfDay(t) <= u < StartOfDay(t) + DayMs
  {
    var d := StartOfDay(t);
    if d <= u < d + DayMs {
      assert u == d + (u - d) && 0 <= u - d < DayMs;
      assert d % DayMs == 0;
      assert u % DayMs == u - d by {
        assert u == (d / DayMs) * DayMs + (u - d);
      }
    }
  }

  /** A start of day is its own start of day. */
  lemma StartOfDayIdempotent(t: int)
    ensures StartOfDay(StartOfDay(t)) == StartOfDay(t)
  {
    SameDay(t, StartOfDay(t));
  }

  datatype Attendance = Attendance(
    id: nat,
    student: nat,
    date: int,
    status: AttendanceStatus,
    remarks: Option<string>,
    markedBy: Option<nat>)

  function AttendanceId(a: Attendance): nat { a.id }

  function AttendanceDate(a: Attendance): int { a.date }

  /** The compound index `{ student: 1, date: 1 }`. */
  function Key(a: Attendance): (nat, int) { (a.student, a.date) }

  function At(student: nat, day: int): Attendance -> bool {
    (a: Attendance) => a.student == student && a.date == day
  }

  /** `Attendance.findOne({ student, date })`, as an index into the collection. */
  function FindRecord(records: seq<Attendance>, student: nat, day: int): (r: Option<nat>)
    ensures r.Some? ==> r.value < |records| && Key(records[r.value]) == (student, day)
    ensures r.None? <==> KeyAbsent(records, Key, (student, day))
  {
    IndexOf(records, At(student, day))
  }

  /** The record an upsert leaves for the key: the stored one overwritten, or a new one. */
  function MarkedRecord(records: seq<Attendance>, nextId: nat, student: nat, day: int,
    status: AttendanceStatus, remarks: Option<string>, marker: nat): (m: Attendance)
    ensures Key(m) == (student, day) && m.status == status && m.remarks == remarks && m.markedBy == Some(marker)
    ensures m.id == match FindRecord(records, student, day) case Some(k) => records[k].id case None => nextId
  {
    match FindRecord(records, student, day)
    case Some(k) => records[k].(status := status, remarks := remarks, markedBy := Some(marker))
    case None => Attendance(nextId, student, day, status, remarks, Some(marker))
  }

  /** The collection after the upsert of one key. */
  function Upserted(records: seq<Attendance>, nextId: nat, student: nat, day: int,
    status: AttendanceStatus, remarks: Option<string>, marker: nat): seq<Attendance>
  {
    var m := MarkedRecord(records, nextId, student, day, status, remarks, marker);
    match FindRecord(records, student, day)
    case Some(k) => records[k := m]
    case None => records + [m]
  }

  /** The collection's invariant: one record per key, unique ids below `nextId`, dates at a day's start. */
  predicate StoreValid(records: seq<Attendance>, nextId: nat) {
    UniqueBy(records, Key) && UniqueBy(records, AttendanceId) &&
    forall i :: 0 <= i < |records| ==> records[i].id < nextId && records[i].date == StartOfDay(records[i].date)
  }

  /** The next id after an upsert: one more when a record was created. */
  function NextAfter(records: seq<Attendance>, nextId: nat, student: nat, day: int): nat {
    if KeyAbsent(records, Key, (student, day)) then nextId + 1 else nextId
  }

  /** An upsert on a day's start keeps the invariant. */
  lemma UpsertKeepsValid(records: seq<Attendance>, nextId: nat, student: nat, day: int,
    status: AttendanceStatus, remarks: Option<string>, marker: nat)
    requires StoreValid(records, nextId) && day == StartOfDay(day)
    ensures StoreValid(Upserted(records, nextId, student, day, status, remarks, marker),
      NextAfter(records, nextId, student, day))
  {
    var m := MarkedRecord(records, nextId, student, day, status, remarks, marker);
    match FindRecord(records, student, day)
    case Some(k) =>
      UniqueByReplace(records, Key, k, m);
      UniqueByReplace(records, AttendanceId, k, m);
    case None =>
      UniqueByAppend(records, Key, m);
      forall i | 0 <= i < |records| ensures records[i].id != m.id {
      }
      UniqueByAppend(records, AttendanceId, m);
  }

  /**
   * After an upsert the key has exactly the marked record, every other record is as it
   * was in the same place, and a new record is added only when the key was absent.
   */
  lemma UpsertedContents(records: seq<Attendance>, nextId: nat, student: nat, day: int,
    status: AttendanceStatus, remarks: Option<string>, marker: nat)
    requires UniqueBy(records, Key)
    ensures var r := Upserted(records, nextId, student, day, status, remarks, marker);
      var m := MarkedRecord(records, nextId, student, day, status, remarks, marker);
      |r| == (if KeyAbsent(records, Key, (student, day)) then |records| + 1 else |records|) &&
      (forall i :: 0 <= i < |r| ==> (Key(r[i]) == (student, day) <==> r[i] == m)) &&
      (forall i :: 0 <= i < |records| && Key(records[i]) != (student, day) ==> r[i] == records[i])
  {
    var r := Upserted(records, nextId, student, day, status, remarks, marker);
    var m := MarkedRecord(records, nextId, student, day, status, remarks, marker);
    match FindRecord(records, student, day)
    case Some(k) =>
      assert r[k] == m;
    case None =>
  }

  /** Marking a key twice the same way leaves what marking it once leaves. */
  lemma UpsertIdempotent(records: seq<Attendance>, nextId: nat, student: nat, day: int,
    status: AttendanceStatus, remarks: Option<string>, marker: nat)
    requires UniqueBy(records, Key)
    ensures var once := Upserted(records, nextId, student, day, status, remarks, marker);
      Upserted(once, NextAfter(records, nextId, student, day), student, day, status, remarks, marker) == once
  {
    var once := Upserted(records, nextId, student, day, status, remarks, marker);
    var m := MarkedRecord(records, nextId, student, day, status, remarks, marker);
    UpsertedContents(records, nextId, student, day, status, remarks, marker);
    match FindRecord(records, student, day)
    case Some(k) =>
      assert once[k] == m;
      var k' := FindRecord(once, student, day).value;
      assert once[k'] == m;
    case None =>
      assert once[|records|] == m;
      var k' := FindRecord(once, student, day).value;
      assert once[k'] == m;
  }

  /** The attendance collection. */
  class AttendanceStore {
    var records: seq<Attendance>
    var nextId: nat

    ghost predicate Valid()
      reads this
    {
      StoreValid(records, nextId)
    }

    constructor ()
      ensures Valid() && records == [] && nextId == 0
    {
      records := [];
      nextId := 0;
    }

    /**
     * `findOne({ student, date })`, then the stored record overwritten and saved, or a new
     * record created; `created` tells which.
     */
    method Upsert(student: nat, day: int, status: AttendanceStatus, remarks: Option<string>, marker: nat)
      returns (created: bool, saved: Attendance)
      requires Valid() && day == StartOfDay(day)
      modifies this
      ensures Valid()
      ensures created <==> KeyAbsent(old(records), Key, (student, day))
      ensures saved == MarkedRecord(old(records), old(nextId), student, day, status, remarks, marker)
      ensures records == Upserted(old(records), old(nextId), student, day, status, remarks, marker)
      ensures nextId == NextAfter(old(records), old(nextId), student, day)
    {
      UpsertKeepsValid(records, nextId, student, day, status, remarks, marker);
      var existing := FindRecord(records, student, day);
      if existing.Some? {
        var k := existing.value;
        saved := records[k].(status := status, remarks := remarks, markedBy := Some(marker));
        records := records[k := saved];
        created := false;
      } else {
        saved := Attendance(nextId, student, day, status, remarks, Some(marker));
        records := records + [saved];
        nextId := nextId + 1;
        created := true;
      }
    }

    /** `findByIdAndDelete` of the record at position `k`. */
    method Remove(k: nat)
      requires Valid() && k < |records|
      modifies this
      ensures Valid() && nextId == old(nextId) && records == RemoveAt(old(records), k)
    {
      UniqueByRemove(records, Key, k);
      UniqueByRemove(records, AttendanceId, k);
      RemoveAtMembers(records, k);
      RemoveAtIndex(records, k);
      records := RemoveAt(records, k);
    }
  }

  function AttendanceIdIs(id: nat): Attendance -> bool { (a: Attendance) => a.id == id }

  /** `Attendance.findById(id)`, as an index into the collection. */
  function FindAttendance(records: seq<Attendance>, id: nat): (r: Option<nat>)
    ensures r.Some? ==> r.value < |records| && records[r.value].id == id
    ensures r.None? <==> KeyAbsent(records, AttendanceId, id)
  {
    IndexOf(records, AttendanceIdIs(id))
  }
}
