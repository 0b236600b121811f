/**
 * The `Student` model: its stored fields, the `age` virtual, `getFullName`, and the students
 * collection with its unique `admissionNumber` index.
 */
module StudentModel {
  import opened Wrappers
  import opened Constants
  import opened Seqs

  /** What `getFullYear()`, `getMonth()` and `getDate()` return for one instant. */
  datatype CalendarDate = CalendarDate(year: int, month: int, day: int)

  datatype Student = Student(
    id: nat,
    firstName: string,
    lastName: string,
    dateOfBirth: Option<CalendarDate>,
    gender: Gender,
    admissionNumber: string,
    className: string,
    section: string,
    rollNumber: string,
    parent: nat,
    academicYear: string,
    status: StudentStatus,
    createdAt: int)

  function StudentId(s: Student): nat { s.id }

  function AdmissionNumber(s: Student): string { s.admissionNumber }

  function StudentIdIs(id: nat): Student -> bool { (s: Student) => s.id == id }

  /** `Student.findById(id)`, as an index into the collection. */
  function FindStudent(students: seq<Student>, id: nat): (r: Option<nat>)
    ensures r.Some? ==> r.value < |students| && students[r.value].id == id
    ensures r.None? <==> KeyAbsent(students, StudentId, id)
  {
    IndexOf(students, StudentIdIs(id))
  }

  /** Whether the `n`-th birthday after `birth` has arrived by `today`. */
  predicate BirthdayReached(birth: CalendarDate, today: CalendarDate, n: int) {
    birth.year + n < today.year ||
    (birth.year + n == today.year &&
      (birth.month < today.month || (birth.month == today.month && birth.day <= today.day)))
  }

  /**
   * The `age` virtual: the year difference, one less while this year's birthday is still
   * ahead; null without a date of birth. It is the number of birthdays that have arrived.
   */
  function Age(dateOfBirth: Option<CalendarDate>, today: CalendarDate): (age: Option<int>)
    ensures age.None? <==> dateOfBirth.None?
    ensures age.Some? ==>
      var birth := dateOfBirth.value;
      (age.value == today.year - birth.year || age.value == today.year - birth.year - 1) &&
      BirthdayReached(birth, today, age.value) && !BirthdayReached(birth, today, age.value + 1)
  {
    match dateOfBirth
    case None => None
    case Some(birth) =>
      var years := today.year - birth.year;
      var monthDiff := today.month - birth.month;
      if monthDiff < 0 || (monthDiff == 0 && today.day < birth.day) then Some(years - 1)
      else Some(years)
  }

  /** `getFullName()` */
  function FullName(firstName: string, lastName: string): (name: string)
    ensures |name| == |firstName| + 1 + |lastName|
    ensures name[..|firstName|] == firstName && name[|firstName|] == ' '
    ensures name[|firstName| + 1..] == lastName
  {
    firstName + " " + lastName
  }

  /** A first name without spaces can be read back from the full name. */
  lemma FullNameInjective(f1: string, l1: string, f2: string, l2: string)
    requires ' ' !in f1 && ' ' !in f2
    requires FullName(f1, l1) == FullName(f2, l2)
    ensures f1 == f2 && l1 == l2
  {
  }

  /** The students collection: unique ids below `nextId`, unique admission numbers. */
  class StudentStore {
    var docs: seq<Student>
    var nextId: nat

    ghost predicate Valid()
      reads this
    {
      UniqueBy(docs, StudentId) && UniqueBy(docs, AdmissionNumber) &&
      forall i :: 0 <= i < |docs| ==> docs[i].id < nextId
    }

    constructor ()
      ensures Valid() && docs == [] && nextId == 0
    {
      docs := [];
      nextId := 0;
    }

    /** The insert of a new student under the next id: refused by the unique index on an admission number in use. */
    method Insert(s: Student) returns (ok: bool)
      requires Valid() && s.id == nextId
      modifies this
      ensures Valid()
      ensures ok <==> KeyAbsent(old(docs), AdmissionNumber, s.admissionNumber)
      ensures docs == (if ok then old(docs) + [s] else old(docs))
      ensures nextId == (if ok then old(nextId) + 1 else old(nextId))
    {
      ok := KeyAbsent(docs, AdmissionNumber, s.admissionNumber);
      if ok {
        UniqueByAppend(docs, StudentId, s);
        UniqueByAppend(docs, AdmissionNumber, s);
        docs := docs + [s];
        nextId := nextId + 1;
      }
    }

    /** `findByIdAndUpdate` of the student at `k`: refused when another student has the admission number. */
    method Save(k: nat, s: Student) returns (ok: bool)
      requires Valid() && k < |docs| && s.id == docs[k].id
      modifies this
      ensures Valid() && nextId == old(nextId)
      ensures ok <==> KeyFreeExcept(old(docs), AdmissionNumber, k, s.admissionNumber)
      ensures docs == (if ok then old(docs)[k := s] else old(docs))
    {
      ok := forall i :: 0 <= i < |docs| && i != k ==> docs[i].admissionNumber != s.admissionNumber;
      if ok {
        UniqueByReplace(docs, StudentId, k, s);
        UniqueByReplaceFresh(docs, AdmissionNumber, k, s);
        docs := docs[k := s];
      }
    }

    /** `findByIdAndDelete` of the student at position `k`. */
    method Remove(k: nat)
      requires Valid() && k < |docs|
      modifies this
      ensures Valid() && nextId == old(nextId) && docs == RemoveAt(old(docs), k)
    {
      UniqueByRemove(docs, StudentId, k);
      UniqueByRemove(docs, AdmissionNumber, k);
      RemoveAtMembers(docs, k);
      RemoveAtIndex(docs, k);
      docs := RemoveAt(docs, k);
    }
  }
}
