/**
 * The student handlers. Creating, re-parenting and deleting a student keep the parent's
 * `children` array in step through `$addToSet` and `$pull`; the two collections are written
 * one after the other, with no transaction around them.
 */
module StudentController {
  import opened Wrappers
  import opened Constants
  import opened Seqs
  import opened Sorting
  import opened UserModel
  import opened StudentModel
  import UserController
  import Auth

  // ---------------------------------------------------------------------------------------
  // Reading.

  /** The query string of `GET /api/students`; an empty string means the filter was not given. */
  datatype StudentQuery = StudentQuery(className: string, section: string, status: string, page: Positive, limit: Positive)

  function StudentFilter(q: StudentQuery): Student -> bool {
    (s: Student) =>
      (q.className == "" || s.className == q.className) &&
      (q.section == "" || s.section == q.section) &&
      (q.status == "" || StudentStatusName(s.status) == q.status)
  }

  function StudentCreatedAt(s: Student): int { s.createdAt }

  /** `getStudents`: the matching students, newest first, one page of them. */
  function GetStudents(students: seq<Student>, q: StudentQuery): Paged<Student> {
    ListQuery(students, StudentFilter(q), Descending(StudentCreatedAt), q.page, q.limit)
  }

  /** Every listed student is stored and matches each given filter; the page is newest first. */
  lemma GetStudentsListing(students: seq<Student>, q: StudentQuery)
    ensures var r := GetStudents(students, q);
      r.total == Count(students, StudentFilter(q)) && |r.data| <= q.limit &&
      SortedBy(r.data, Descending(StudentCreatedAt)) &&
      forall s :: s in r.data ==> (s in students &&
        (q.className != "" ==> s.className == q.className) &&
        (q.section != "" ==> s.section == q.section) &&
        (q.status != "" ==> StudentStatusName(s.status) == q.status))
  {
    var r := GetStudents(students, q);
    DescendingTotal(StudentCreatedAt);
    ListQuerySorted(students, StudentFilter(q), Descending(StudentCreatedAt), q.page, q.limit);
    forall s | s in r.data ensures StudentFilter(q)(s) {
    }
  }

  /**
   * `getStudentById`, with `parent` populated from `users`: absent gives 404; for a parent
   * caller, a student whose parent is no longer stored gives 500, and someone else's child 403.
   */
  function GetStudentById(students: seq<Student>, users: seq<User>, id: nat, caller: User): (r: Result<Student>)
    ensures KeyAbsent(students, StudentId, id) ==> r == Fail(NotFound, "Student not found")
    ensures r.Ok? ==> r.value in students && r.value.id == id && Auth.MaySee(caller, r.value.parent)
    ensures r.Ok? && caller.role == Parent ==> !KeyAbsent(users, UserId, r.value.parent)
    ensures r.Err? && !KeyAbsent(students, StudentId, id) ==>
      (caller.role == Parent &&
       (r == Fail(Forbidden, "Not authorized to view this student") || r == Fail(ServerError, Auth.NullParentRead)))
    ensures UniqueBy(students, StudentId) ==> forall k :: 0 <= k < |students| && students[k].id == id ==>
      (r.Ok? <==> (Auth.MaySee(caller, students[k].parent) &&
                   (caller.role == Parent ==> !KeyAbsent(users, UserId, students[k].parent)))) &&
      (caller.role == Parent && KeyAbsent(users, UserId, students[k].parent) ==> r == Fail(ServerError, Auth.NullParentRead))
  {
    match FindStudent(students, id)
    case None => Fail(NotFound, "Student not found")
    case Some(k) =>
      UniqueStudent(students, id, k);
      match Auth.OwnerCheck(users, caller, students[k].parent, "Not authorized to view this student")
      case Err(e) => Err(e)
      case Ok(_) => Ok(students[k])
  }

  /** With unique ids, every stored student carrying `id` is the one the lookup finds. */
  lemma UniqueStudent(students: seq<Student>, id: nat, k: nat)
    requires k < |students| && students[k].id == id
    ensures UniqueBy(students, StudentId) ==> forall j :: 0 <= j < |students| && students[j].id == id ==> j == k
  {
    if UniqueBy(students, StudentId) {
      forall j | 0 <= j < |students| && students[j].id == id ensures j == k {
        UniqueByIndex(students, StudentId, j, k);
      }
    }
  }

  /**
   * With unique ids, a parent always gets their own child while their account is stored, and
   * anyone else gets any stored student.
   */
  lemma GetStudentAllowed(students: seq<Student>, users: seq<User>, k: nat, caller: User)
    requires UniqueBy(students, StudentId) && k < |students|
    requires caller.role != Parent || (students[k].parent == caller.id && !KeyAbsent(users, UserId, caller.id))
    ensures GetStudentById(students, users, students[k].id, caller) == Ok(students[k])
  {
    var f := FindStudent(students, students[k].id);
    UniqueByIndex(students, StudentId, k, f.value);
  }

  /**
   * Once `deleteUser` removes a parent, every other parent asking for that parent's child gets
   * 500 rather than 403, while an admin still reads the student.
   */
  lemma DeletedParentBreaksStudentLookup(students: seq<Student>, users: seq<User>, k: nat, caller: User, admin: User)
    requires UniqueBy(students, StudentId) && UniqueBy(users, UserId) && k < |students|
    requires UserController.DeleteUser(users, students[k].parent).result.Ok?
    requires caller.role == Parent && admin.role == Admin
    ensures var after := UserController.DeleteUser(users, students[k].parent).users;
      GetStudentById(students, after, students[k].id, caller) == Fail(ServerError, Auth.NullParentRead) &&
      GetStudentById(students, after, students[k].id, admin) == Ok(students[k])
  {
    UserController.DeleteUserRemoves(users, students[k].parent);
  }

  function ParentIs(parentId: nat): Student -> bool { (s: Student) => s.parent == parentId }

  function FirstName(s: Student): string { s.firstName }

  /** `getStudentsByParent`: a parent may list only their own id's children, sorted by first name. */
  function GetStudentsByParent(students: seq<Student>, parentId: nat, caller: User): (r: Result<seq<Student>>)
    ensures r.Err? <==> caller.role == Parent && parentId != caller.id
    ensures r.Err? ==> r == Fail(Forbidden, "Not authorized")
  {
    if caller.role == Parent && parentId != caller.id then Fail(Forbidden, "Not authorized")
    else Ok(SortBy(Filter(students, ParentIs(parentId)), AscendingText(FirstName)))
  }

  /** The listing holds exactly the students of that parent, by first name. */
  lemma StudentsByParentListing(students: seq<Student>, parentId: nat, caller: User)
    requires GetStudentsByParent(students, parentId, caller).Ok?
    ensures var r := GetStudentsByParent(students, parentId, caller).value;
      (forall s :: s in r <==> s in students && s.parent == parentId) &&
      |r| == Count(students, ParentIs(parentId)) &&
      multiset(r) == multiset(Filter(students, ParentIs(parentId))) &&
      SortedBy(r, AscendingText(FirstName))
  {
    SortByMembers(Filter(students, ParentIs(parentId)), AscendingText(FirstName));
    FilterIff(students, ParentIs(parentId));
    AscendingTextTotal(FirstName);
    SortBySorted(Filter(students, ParentIs(parentId)), AscendingText(FirstName));
  }

  function ActiveIn(className: string): Student -> bool {
    (s: Student) => s.className == className && s.status == Active
  }

  function RollNumber(s: Student): string { s.rollNumber }

  /** `getStudentsByClass`: the active students of the class, by roll number. */
  function GetStudentsByClass(students: seq<Student>, className: string): seq<Student> {
    SortBy(Filter(students, ActiveIn(className)), AscendingText(RollNumber))
  }

  lemma StudentsByClassListing(students: seq<Student>, className: string)
    ensures var r := GetStudentsByClass(students, className);
      (forall s :: s in r <==> s in students && s.className == className && s.status == Active) &&
      |r| == Count(students, ActiveIn(className)) &&
      SortedBy(r, AscendingText(RollNumber))
  {
    var active := Filter(students, ActiveIn(className));
    var r := SortBy(active, AscendingText(RollNumber));
    assert forall s :: s in r <==> s in students && s.className == className && s.status == Active by {
      SortByMembers(active, AscendingText(RollNumber));
      FilterIff(students, ActiveIn(className));
    }
    assert SortedBy(r, AscendingText(RollNumber)) by {
      AscendingTextTotal(RollNumber);
      SortBySorted(active, AscendingText(RollNumber));
    }
  }

  // ---------------------------------------------------------------------------------------
  // The link between students and their parents' `children` arrays.

  /** Every id in a `children` array is below `nextId`, the next student id to be given out. */
  predicate ChildLinksBelow(users: seq<User>, nextId: nat) {
    forall i, j :: 0 <= i < |users| && 0 <= j < |users[i].children| ==> users[i].children[j] < nextId
  }

  /**
   * `updateUser` writes a `children` array from the body unchecked: a parent with no
   * children can be given an id no student has, and the links no longer hold.
   */
  lemma UpdateUserCanBreakLinks(u: User, nextId: nat)
    requires u.children == []
    ensures ChildLinksBelow([u], nextId)
    ensures var o := UserController.UpdateUser([u], u.id, UserController.UserPatch(None, None, None, None, None, None, Some([nextId]), None));
      o.result.Ok? && !ChildLinksBelow(o.users, nextId)
  {
    assert FindUser([u], u.id) == Some(0);
    var o := UserController.UpdateUser([u], u.id, UserController.UserPatch(None, None, None, None, None, None, Some([nextId]), None));
    assert o.users[0].children[0] == nextId;
  }

  /**
   * `createUser` stores a `children` array from the body just as unchecked: a new parent can
   * be created already linked to an id no student has.
   */
  lemma CreateUserCanBreakLinks(users: seq<User>, nextId: nat, now: int)
    requires ChildLinksBelow(users, nextId) && KeyAbsent(users, UserEmail, "p@school.in")
    ensures var o := UserController.CreateUser(users, nextId,
      UserController.UserBody("Asha", "Rao", "p@school.in", "secret", "parent", "", Some([nextId]), None), now);
      o.result.Ok? && !ChildLinksBelow(o.users, nextId)
  {
    var body := UserController.UserBody("Asha", "Rao", "p@school.in", "secret", "parent", "", Some([nextId]), None);
    assert ParseRole("parent").Some?;
    var o := UserController.CreateUser(users, nextId, body, now);
    assert o.users[|users|].children[0] == nextId;
  }

  /** A stored user with role `parent`. */
  predicate IsParentUser(users: seq<User>, id: nat) {
    match FindUser(users, id)
    case None => false
    case Some(k) => users[k].role == Parent
  }

  lemma LinksBelowWithChild(users: seq<User>, nextId: nat, id: nat, child: nat)
    requires ChildLinksBelow(users, nextId) && child < nextId
    ensures ChildLinksBelow(WithChild(users, id, child), nextId)
  {
    var r := WithChild(users, id, child);
    match FindUser(users, id)
    case None =>
    case Some(k) =>
      forall i, j | 0 <= i < |r| && 0 <= j < |r[i].children| ensures r[i].children[j] < nextId {
        if i == k {
          assert r[i].children[j] in AddToSet(users[k].children, child);
        }
      }
  }

  lemma LinksBelowWithoutChild(users: seq<User>, nextId: nat, id: nat, child: nat)
    requires ChildLinksBelow(users, nextId)
    ensures ChildLinksBelow(WithoutChild(users, id, child), nextId)
  {
    var r := WithoutChild(users, id, child);
    match FindUser(users, id)
    case None =>
    case Some(k) =>
      forall i, j | 0 <= i < |r| && 0 <= j < |r[i].children| ensures r[i].children[j] < nextId {
        if i == k {
          var y := r[i].children[j];
          assert y in Pull(users[k].children, child);
          assert y in users[k].children;
        }
      }
  }

  lemma LinksBelowGrow(users: seq<User>, nextId: nat)
    requires ChildLinksBelow(users, nextId)
    ensures ChildLinksBelow(users, nextId + 1)
  {
  }

  // ---------------------------------------------------------------------------------------
  // Creating.

  /** The body of `POST /api/students`; an empty string, or None, means the field was not sent. */
  datatype StudentBody = StudentBody(
    firstName: string,
    lastName: string,
    dateOfBirth: Option<CalendarDate>,
    gender: string,
    admissionNumber: string,
    className: string,
    section: string,
    rollNumber: string,
    parent: Option<nat>,
    academicYear: string,
    status: string)

  /** What the schema demands of a new student: the required fields and known enum values. */
  predicate BodyValid(body: StudentBody) {
    body.firstName != "" && body.lastName != "" && body.dateOfBirth.Some? &&
    ParseGender(body.gender).Some? && body.admissionNumber != "" && body.className != "" &&
    body.parent.Some? && body.academicYear != "" &&
    (body.status == "" || ParseStudentStatus(body.status).Some?)
  }

  /** `Student.create(body)`: the validated document, its status defaulting to `active`. */
  function NewStudent(body: StudentBody, id: nat, now: int): (r: Result<Student>)
    ensures r.Ok? <==> BodyValid(body)
    ensures r.Err? ==> r == Fail(ServerError, "Student validation failed")
    ensures r.Ok? ==>
      r.value.id == id && r.value.parent == body.parent.value &&
      r.value.admissionNumber == body.admissionNumber && r.value.className == body.className &&
      r.value.createdAt == now &&
      r.value.status == (if body.status == "" then Active else ParseStudentStatus(body.status).value)
  {
    if !BodyValid(body) then Fail(ServerError, "Student validation failed")
    else
      Ok(Student(id, body.firstName, body.lastName, body.dateOfBirth, ParseGender(body.gender).value,
        body.admissionNumber, body.className, body.section, body.rollNumber, body.parent.value,
        body.academicYear, if body.status == "" then Active else ParseStudentStatus(body.status).value, now))
  }

  /** The response and both collections after a request. */
  datatype StudentOutcome<T> = StudentOutcome(result: Result<T>, students: seq<Student>, users: seq<User>)

  /** `createStudent`: the admission-number check, the parent check, the insert, then the link. */
  function CreateStudent(students: seq<Student>, nextId: nat, users: seq<User>, body: StudentBody, now: int): StudentOutcome<Student> {
    if !KeyAbsent(students, AdmissionNumber, body.admissionNumber) then
      StudentOutcome(Fail(BadRequest, "A student with this admission number already exists"), students, users)
    else if body.parent.Some? && !IsParentUser(users, body.parent.value) then
      StudentOutcome(Fail(BadRequest, "Invalid parent reference"), students, users)
    else
      match NewStudent(body, nextId, now)
      case Err(e) => StudentOutcome(Err(e), students, users)
      case Ok(s) => StudentOutcome(Ok(s), students + [s], WithChild(users, s.parent, s.id))
  }

  /**
   * A refused create changes nothing: a taken admission number and a parent reference that
   * is not a stored parent give 400, and an incomplete body gives 500.
   */
  lemma CreateStudentRefusals(students: seq<Student>, nextId: nat, users: seq<User>, body: StudentBody, now: int)
    ensures var o := CreateStudent(students, nextId, users, body, now);
      (o.result.Err? ==> o.students == students && o.users == users) &&
      (!KeyAbsent(students, AdmissionNumber, body.admissionNumber) ==>
        o.result == Fail(BadRequest, "A student with this admission number already exists")) &&
      ((KeyAbsent(students, AdmissionNumber, body.admissionNumber) && body.parent.Some? &&
        !IsParentUser(users, body.parent.value)) ==> o.result == Fail(BadRequest, "Invalid parent reference")) &&
      (o.result.Ok? <==>
        (KeyAbsent(students, AdmissionNumber, body.admissionNumber) && BodyValid(body) &&
        IsParentUser(users, body.parent.value)))
  {
  }

  /**
   * A created student is appended under the next id, and its id then appears exactly once in
   * its parent's `children`; every link stays below the next id.
   */
  lemma CreateStudentLinks(students: seq<Student>, nextId: nat, users: seq<User>, body: StudentBody, now: int)
    requires ChildLinksBelow(users, nextId)
    requires CreateStudent(students, nextId, users, body, now).result.Ok?
    ensures var o := CreateStudent(students, nextId, users, body, now);
      var s := o.result.value;
      s.id == nextId && o.students == students + [s] &&
      FindUser(o.users, s.parent).Some? && Occurrences(o.users[FindUser(o.users, s.parent).value].children, s.id) == 1 &&
      o.users[FindUser(o.users, s.parent).value].role == Parent &&
      ChildLinksBelow(o.users, nextId + 1)
  {
    var o := CreateStudent(students, nextId, users, body, now);
    var s := o.result.value;
    var k := FindUser(users, s.parent).value;
    assert nextId !in users[k].children by {
      forall j | 0 <= j < |users[k].children| ensures users[k].children[j] != nextId {
      }
    }
    OccurrencesZero(users[k].children, nextId);
    AddToSetOnce(users[k].children, nextId);
    assert FindUser(o.users, s.parent) == Some(k) by {
      assert o.users[k].id == s.parent;
      forall j | 0 <= j < k ensures o.users[j].id != s.parent {
        assert o.users[j] == users[j];
      }
    }
    LinksBelowWithChild(users, nextId + 1, s.parent, nextId);
  }

  /** `createStudent` against the two collections. */
  method AddStudent(students: StudentStore, users: UserStore, body: StudentBody, now: int) returns (r: Result<Student>)
    requires students.Valid() && users.Valid()
    modifies students, users
    ensures students.Valid() && users.Valid() && users.nextId == old(users.nextId)
    ensures var o := CreateStudent(old(students.docs), old(students.nextId), old(users.docs), body, now);
      r == o.result && students.docs == o.students && users.docs == o.users
    ensures students.nextId == if r.Ok? then old(students.nextId) + 1 else old(students.nextId)
  {
    if !KeyAbsent(students.docs, AdmissionNumber, body.admissionNumber) {
      return Fail(BadRequest, "A student with this admission number already exists");
    }
    if body.parent.Some? && !IsParentUser(users.docs, body.parent.value) {
      return Fail(BadRequest, "Invalid parent reference");
    }
    r := NewStudent(body, students.nextId, now);
    if r.Err? {
      return;
    }
    var ok := students.Insert(r.value);
    assert ok;
    users.AddChild(r.value.parent, r.value.id);
  }

  // ---------------------------------------------------------------------------------------
  // Updating.

  /** The body of `PUT /api/students/:id`: None means the field was not sent. */
  datatype StudentPatch = StudentPatch(
    firstName: Option<string>,
    lastName: Option<string>,
    dateOfBirth: Option<CalendarDate>,
    gender: Option<string>,
    admissionNumber: Option<string>,
    className: Option<string>,
    section: Option<string>,
    rollNumber: Option<string>,
    parent: Option<nat>,
    academicYear: Option<string>,
    status: Option<string>)

  /** The update validators: a required field that is sent may not be empty, an enum value must be known. */
  predicate PatchValid(p: StudentPatch) {
    p.firstName != Some("") && p.lastName != Some("") && p.admissionNumber != Some("") &&
    p.className != Some("") && p.academicYear != Some("") &&
    (p.gender.None? || ParseGender(p.gender.value).Some?) &&
    (p.status.None? || ParseStudentStatus(p.status.value).Some?)
  }

  /**
   * `findByIdAndUpdate(id, body, { runValidators: true })` on one student: every path the body
   * carries is written; only the id and `createdAt` stay.
   */
  function Patched(s: Student, p: StudentPatch): (r: Result<Student>)
    ensures r.Ok? <==> PatchValid(p)
    ensures r.Err? ==> r == Fail(ServerError, "Student validation failed")
    ensures r.Ok? ==> r.value.id == s.id && r.value.createdAt == s.createdAt
    ensures r.Ok? ==> r.value.dateOfBirth == if p.dateOfBirth.Some? then p.dateOfBirth else s.dateOfBirth
    ensures r.Ok? ==> (r.value.firstName == p.firstName.GetOr(s.firstName) && r.value.lastName == p.lastName.GetOr(s.lastName))
    ensures r.Ok? ==> (r.value.parent == p.parent.GetOr(s.parent) && r.value.admissionNumber == p.admissionNumber.GetOr(s.admissionNumber))
    ensures r.Ok? ==> (r.value.className == p.className.GetOr(s.className) && r.value.section == p.section.GetOr(s.section) &&
      r.value.rollNumber == p.rollNumber.GetOr(s.rollNumber) && r.value.academicYear == p.academicYear.GetOr(s.academicYear))
    ensures r.Ok? ==> if p.gender.None? then r.value.gender == s.gender else GenderName(r.value.gender) == p.gender.value
    ensures r.Ok? ==> if p.status.None? then r.value.status == s.status else StudentStatusName(r.value.status) == p.status.value
  {
    if !PatchValid(p) then Fail(ServerError, "Student validation failed")
    else
      Ok(s.(firstName := p.firstName.GetOr(s.firstName), lastName := p.lastName.GetOr(s.lastName),
        dateOfBirth := if p.dateOfBirth.Some? then p.dateOfBirth else s.dateOfBirth,
        gender := if p.gender.Some? then ParseGender(p.gender.value).value else s.gender,
        admissionNumber := p.admissionNumber.GetOr(s.admissionNumber), className := p.className.GetOr(s.className),
        section := p.section.GetOr(s.section), rollNumber := p.rollNumber.GetOr(s.rollNumber),
        parent := p.parent.GetOr(s.parent), academicYear := p.academicYear.GetOr(s.academicYear),
        status := if p.status.Some? then ParseStudentStatus(p.status.value).value else s.status))
  }

  /** The links when the body names a different parent: pulled from the old one, added to the new one. */
  function Relinked(users: seq<User>, s: Student, p: StudentPatch): seq<User> {
    if p.parent.Some? && p.parent.value != s.parent then
      WithChild(WithoutChild(users, s.parent, s.id), p.parent.value, s.id)
    else users
  }

  /** `updateStudent`: the links are rewritten first, then the update runs and may still be refused. */
  function UpdateStudent(students: seq<Student>, users: seq<User>, id: nat, p: StudentPatch): StudentOutcome<Student> {
    match FindStudent(students, id)
    case None => StudentOutcome(Fail(NotFound, "Student not found"), students, users)
    case Some(k) =>
      var linked := Relinked(users, students[k], p);
      match Patched(students[k], p)
      case Err(e) => StudentOutcome(Err(e), students, linked)
      case Ok(t) =>
        if !KeyFreeExcept(students, AdmissionNumber, k, t.admissionNumber) then
          StudentOutcome(Fail(ServerError, "Duplicate key"), students, linked)
        else StudentOutcome(Ok(t), students[k := t], linked)
  }

  /** An unknown id gives 404 and changes nothing; otherwise only the student at its place can change. */
  lemma UpdateStudentStore(students: seq<Student>, users: seq<User>, id: nat, p: StudentPatch)
    ensures var o := UpdateStudent(students, users, id, p);
      (KeyAbsent(students, StudentId, id) ==>
        o.result == Fail(NotFound, "Student not found") && o.students == students && o.users == users) &&
      (o.result.Ok? ==>
        exists k :: 0 <= k < |students| && students[k].id == id && o.students == students[k := o.result.value] &&
          o.result.value.id == id) &&
      (o.result.Err? ==> o.students == students)
  {
  }

  /**
   * What an edit of the student found at `k` stores, and when: it succeeds exactly when the
   * update validators pass and no other student holds the admission number the edited student
   * ends up with; then the stored student is the patched one, and the links are rewritten either way.
   */
  lemma UpdateStudentStores(students: seq<Student>, users: seq<User>, id: nat, p: StudentPatch, k: nat)
    requires FindStudent(students, id) == Some(k)
    ensures var o := UpdateStudent(students, users, id, p);
      (o.result.Ok? <==> (PatchValid(p) &&
        KeyFreeExcept(students, AdmissionNumber, k, p.admissionNumber.GetOr(students[k].admissionNumber)))) &&
      (o.result.Ok? ==> o.result == Patched(students[k], p) && o.students == students[k := o.result.value]) &&
      o.users == Relinked(users, students[k], p)
  {
  }

  /**
   * When the body names a different parent, the student is then in no `children` array of
   * the old parent and in that of the new one (each when stored).
   */
  lemma UpdateStudentRelinks(users: seq<User>, s: Student, p: StudentPatch)
    requires p.parent.Some? && p.parent.value != s.parent
    ensures var r := Relinked(users, s, p);
      (FindUser(users, s.parent).Some? ==> s.id !in r[FindUser(users, s.parent).value].children) &&
      (FindUser(users, p.parent.value).Some? ==> s.id in r[FindUser(users, p.parent.value).value].children)
  {
    var pulled := WithoutChild(users, s.parent, s.id);
    var np := p.parent.value;
    WithoutChildEffect(users, s.parent, s.id);
    assert forall i :: 0 <= i < |users| ==> pulled[i].id == users[i].id;
    assert FindUser(pulled, np) == FindUser(users, np) by {
      IndexOfSameKeys(users, pulled, np);
    }
    WithChildEffect(pulled, np, s.id);
  }

  /** Two collections with the same ids in the same places find an id in the same place. */
  lemma IndexOfSameKeys(a: seq<User>, b: seq<User>, id: nat)
    requires |a| == |b| && forall i :: 0 <= i < |a| ==> a[i].id == b[i].id
    ensures FindUser(a, id) == FindUser(b, id)
  {
  }

  /**
   * The links are rewritten before the update is validated: a re-parenting update with an
   * unknown status is refused, yet the new parent has already been given the student.
   */
  lemma RefusedUpdateStillRelinks(students: seq<Student>, users: seq<User>, k: nat, np: nat, j: nat)
    requires UniqueBy(students, StudentId) && k < |students| && np != students[k].parent
    requires j < |users| && FindUser(users, np) == Some(j) && students[k].id !in users[j].children
    ensures var p := StudentPatch(None, None, None, None, None, None, None, None, Some(np), None, Some("expelled"));
      var o := UpdateStudent(students, users, students[k].id, p);
      o.result == Fail(ServerError, "Student validation failed") && o.students == students && o.users != users
  {
    var p := StudentPatch(None, None, None, None, None, None, None, None, Some(np), None, Some("expelled"));
    var f := FindStudent(students, students[k].id);
    UniqueByIndex(students, StudentId, k, f.value);
    assert ParseStudentStatus("expelled").None?;
    var s := students[k];
    UpdateStudentRelinks(users, s, p);
    var r := Relinked(users, s, p);
    assert s.id in r[j].children;
  }

  /**
   * Unlike create, an update takes any parent id it is given: a student can be moved to an
   * id that is no stored user at all.
   */
  lemma UpdateSkipsParentCheck(students: seq<Student>, users: seq<User>, k: nat, np: nat)
    requires UniqueBy(students, StudentId) && UniqueBy(students, AdmissionNumber) && k < |students|
    requires KeyAbsent(users, UserId, np)
    ensures var p := StudentPatch(None, None, None, None, None, None, None, None, Some(np), None, None);
      var o := UpdateStudent(students, users, students[k].id, p);
      o.result.Ok? && o.result.value.parent == np && !IsParentUser(users, np)
  {
    var f := FindStudent(students, students[k].id);
    UniqueByIndex(students, StudentId, k, f.value);
  }

  /** `updateStudent` against the two collections. */
  method EditStudent(students: StudentStore, users: UserStore, id: nat, p: StudentPatch) returns (r: Result<Student>)
    requires students.Valid() && users.Valid()
    modifies students, users
    ensures students.Valid() && users.Valid() && students.nextId == old(students.nextId) && users.nextId == old(users.nextId)
    ensures var o := UpdateStudent(old(students.docs), old(users.docs), id, p);
      r == o.result && students.docs == o.students && users.docs == o.users
  {
    var found := FindStudent(students.docs, id);
    if found.None? {
      return Fail(NotFound, "Student not found");
    }
    var k := found.value;
    var s := students.docs[k];
    if p.parent.Some? && p.parent.value != s.parent {
      users.PullChild(s.parent, s.id);
      users.AddChild(p.parent.value, s.id);
    }
    r := Patched(s, p);
    if r.Err? {
      return;
    }
    var ok := students.Save(k, r.value);
    if !ok {
      r := Fail(ServerError, "Duplicate key");
    }
  }

  // ---------------------------------------------------------------------------------------
  // Deleting.

  /** `deleteStudent`: the student is pulled from its parent's `children`, then removed. */
  function DeleteStudent(students: seq<Student>, users: seq<User>, id: nat): StudentOutcome<()> {
    match FindStudent(students, id)
    case None => StudentOutcome(Fail(NotFound, "Student not found"), students, users)
    case Some(k) => StudentOutcome(Ok(()), RemoveAt(students, k), WithoutChild(users, students[k].parent, id))
  }

  /**
   * An unknown id gives 404 and changes nothing; a deleted student is gone from the
   * collection and from its parent's `children`, and every link stays below the next id.
   */
  lemma DeleteStudentUnlinks(students: seq<Student>, users: seq<User>, id: nat, nextId: nat)
    requires UniqueBy(students, StudentId) && ChildLinksBelow(users, nextId)
    ensures var o := DeleteStudent(students, users, id);
      (KeyAbsent(students, StudentId, id) <==> o.result.Err?) &&
      (o.result.Err? ==> o.result == Fail(NotFound, "Student not found") && o.students == students && o.users == users) &&
      (o.result.Ok? ==>
        KeyAbsent(o.students, StudentId, id) && |o.students| == |students| - 1 &&
        (forall t :: t in students && t.id != id ==> t in o.students) &&
        ChildLinksBelow(o.users, nextId))
  {
    var o := DeleteStudent(students, users, id);
    match FindStudent(students, id)
    case None =>
    case Some(k) =>
      RemoveAtIndex(students, k);
      forall i | 0 <= i < |o.students| ensures o.students[i].id != id {
        if i < k {
          assert o.students[i] == students[i];
        } else {
          assert o.students[i] == students[i + 1];
        }
      }
      forall t | t in students && t.id != id ensures t in o.students {
        var i :| 0 <= i < |students| && students[i] == t;
        if i < k {
          assert o.students[i] == t;
        } else {
          assert o.students[i - 1] == t;
        }
      }
      LinksBelowWithoutChild(users, nextId, students[k].parent, id);
  }

  /** The deleted student's stored parent no longer lists it. */
  lemma DeleteStudentLeavesParent(students: seq<Student>, users: seq<User>, id: nat)
    requires !KeyAbsent(students, StudentId, id)
    ensures var o := DeleteStudent(students, users, id);
      var parent := students[FindStudent(students, id).value].parent;
      FindUser(users, parent).Some? ==> id !in o.users[FindUser(users, parent).value].children
  {
    var k := FindStudent(students, id).value;
    WithoutChildEffect(users, students[k].parent, id);
  }

  /** `deleteStudent` against the two collections. */
  method RemoveStudent(students: StudentStore, users: UserStore, id: nat) returns (r: Result<()>)
    requires students.Valid() && users.Valid()
    modifies students, users
    ensures students.Valid() && users.Valid() && students.nextId == old(students.nextId) && users.nextId == old(users.nextId)
    ensures var o := DeleteStudent(old(students.docs), old(users.docs), id);
      r == o.result && students.docs == o.students && users.docs == o.users
  {
    var found := FindStudent(students.docs, id);
    if found.None? {
      return Fail(NotFound, "Student not found");
    }
    users.PullChild(students.docs[found.value].parent, id);
    students.Remove(found.value);
    r := Ok(());
  }
}
