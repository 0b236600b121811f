/**
 * The user-administration handlers: the paged list with its role filter, the parent list,
 * and create, update and delete against the users collection. The password is stored as
 * given: hashing it is not part of this model.
 */
module UserController {
  import opened Wrappers
  import opened Constants
  import opened Seqs
  import opened Sorting
  import opened UserModel

  // ---------------------------------------------------------------------------------------
  // Reading.

  /** The query string of `GET /api/users`; an empty role means none was given. */
  datatype UserQuery = UserQuery(role: string, page: Positive, limit: Positive)

  function RoleFilter(role: string): User -> bool {
    (u: User) => role == "" || RoleName(u.role) == role
  }

  function UserCreatedAt(u: User): int { u.createdAt }

  /** `getUsers`: the users of the role asked for, newest first, one page of them. */
  function GetUsers(users: seq<User>, q: UserQuery): Paged<User> {
    ListQuery(users, RoleFilter(q.role), Descending(UserCreatedAt), q.page, q.limit)
  }

  /** A role filter keeps only that role, and the page is newest first. */
  lemma GetUsersListing(users: seq<User>, q: UserQuery)
    ensures var r := GetUsers(users, q);
      r.total == Count(users, RoleFilter(q.role)) && |r.data| <= q.limit && r.pages == PageCount(r.total, q.limit) &&
      SortedBy(r.data, Descending(UserCreatedAt)) &&
      forall u :: u in r.data ==> (u in users && (q.role != "" ==> RoleName(u.role) == q.role))
  {
    var r := GetUsers(users, q);
    DescendingTotal(UserCreatedAt);
    ListQuerySorted(users, RoleFilter(q.role), Descending(UserCreatedAt), q.page, q.limit);
    forall u | u in r.data ensures RoleFilter(q.role)(u) {
    }
  }

  /** `getUserById` */
  function GetUserById(users: seq<User>, id: nat): (r: Result<User>)
    ensures r.Err? <==> KeyAbsent(users, UserId, id)
    ensures r.Err? ==> r == Fail(NotFound, "User not found")
    ensures r.Ok? ==> r.value in users && r.value.id == id
  {
    match FindUser(users, id)
    case None => Fail(NotFound, "User not found")
    case Some(k) => Ok(users[k])
  }

  function IsParentRole(u: User): bool { u.role == Parent }

  function UserFirstName(u: User): string { u.firstName }

  /** `getParents`: every user with role `parent`, by first name. */
  function GetParents(users: seq<User>): seq<User> {
    SortBy(Filter(users, IsParentRole), AscendingText(UserFirstName))
  }

  lemma GetParentsListing(users: seq<User>)
    ensures var r := GetParents(users);
      (forall u :: u in r <==> u in users && u.role == Parent) &&
      |r| == Count(users, IsParentRole) &&
      SortedBy(r, AscendingText(UserFirstName))
  {
    SortByMembers(Filter(users, IsParentRole), AscendingText(UserFirstName));
    FilterIff(users, IsParentRole);
    AscendingTextTotal(UserFirstName);
    SortBySorted(Filter(users, IsParentRole), AscendingText(UserFirstName));
  }

  // ---------------------------------------------------------------------------------------
  // Writing.

  /**
   * The body of `POST /api/users`; an empty string means the field was not sent. `children`
   * is a schema path too, so a body may carry it, and its ids are stored unchecked.
   */
  datatype UserBody = UserBody(
    firstName: string,
    lastName: string,
    email: string,
    password: string,
    role: string,
    phone: string,
    children: Option<seq<nat>>,
    isActive: Option<bool>)

  /** What the schema demands of a new user: the required fields, a six-character password, a known role. */
  predicate UserBodyValid(body: UserBody) {
    body.firstName != "" && body.lastName != "" && body.email != "" &&
    |body.password| >= 6 && ParseRole(body.role).Some?
  }

  /**
   * `User.create(body)`: the validated document, active unless the body says otherwise, with the
   * body's `children` or none.
   */
  function NewUser(body: UserBody, id: nat, now: int): (r: Result<User>)
    ensures r.Ok? <==> UserBodyValid(body)
    ensures r.Err? ==> r == Fail(ServerError, "User validation failed")
    ensures r.Ok? ==>
      r.value.id == id && r.value.email == body.email && r.value.password == body.password &&
      r.value.role == ParseRole(body.role).value && r.value.children == body.children.GetOr([]) &&
      r.value.isActive == body.isActive.GetOr(true) && r.value.createdAt == now
  {
    if !UserBodyValid(body) then Fail(ServerError, "User validation failed")
    else Ok(User(id, body.firstName, body.lastName, body.email, body.password, ParseRole(body.role).value,
      body.phone, body.children.GetOr([]), body.isActive.GetOr(true), now))
  }

  /** The response and the collection after a request. */
  datatype UserOutcome<T> = UserOutcome(result: Result<T>, users: seq<User>)

  /**
   * `createUser`: `findOne({ email })` first, then the insert. A body without an email
   * looks up a null email, which no stored user has.
   */
  function CreateUser(users: seq<User>, nextId: nat, body: UserBody, now: int): (o: UserOutcome<User>)
    ensures o.result.Err? ==> o.users == users
    ensures o.result.Ok? ==> o.users == users + [o.result.value] && o.result.value.id == nextId
    ensures body.email != "" && !KeyAbsent(users, UserEmail, body.email) ==>
      o.result == Fail(BadRequest, "User with this email already exists")
    ensures o.result.Ok? <==> UserBodyValid(body) && KeyAbsent(users, UserEmail, body.email)
  {
    if body.email != "" && !KeyAbsent(users, UserEmail, body.email) then
      UserOutcome(Fail(BadRequest, "User with this email already exists"), users)
    else
      match NewUser(body, nextId, now)
      case Err(e) => UserOutcome(Err(e), users)
      case Ok(u) => UserOutcome(Ok(u), users + [u])
  }

  /** The body of `PUT /api/users/:id`: None means the field was not sent. */
  datatype UserPatch = UserPatch(
    firstName: Option<string>,
    lastName: Option<string>,
    email: Option<string>,
    password: Option<string>,
    role: Option<string>,
    phone: Option<string>,
    children: Option<seq<nat>>,
    isActive: Option<bool>)

  predicate UserPatchValid(p: UserPatch) {
    p.firstName != Some("") && p.lastName != Some("") && p.email != Some("") &&
    (p.role.None? || ParseRole(p.role.value).Some?)
  }

  /**
   * `delete req.body.password`, then `findByIdAndUpdate(id, body, { runValidators: true })` on
   * one user: every other path the body carries is written, the children's ids unchecked; the
   * id, the password and `createdAt` stay.
   */
  function PatchedUser(u: User, p: UserPatch): (r: Result<User>)
    ensures r.Ok? <==> UserPatchValid(p)
    ensures r.Err? ==> r == Fail(ServerError, "Validation failed")
    ensures r.Ok? ==> r.value.id == u.id && r.value.password == u.password && r.value.createdAt == u.createdAt
    ensures r.Ok? ==> (r.value.firstName == p.firstName.GetOr(u.firstName) && r.value.lastName == p.lastName.GetOr(u.lastName) &&
      r.value.email == p.email.GetOr(u.email) && r.value.phone == p.phone.GetOr(u.phone))
    ensures r.Ok? ==> r.value.children == p.children.GetOr(u.children) && r.value.isActive == p.isActive.GetOr(u.isActive)
    ensures r.Ok? ==> if p.role.None? then r.value.role == u.role else RoleName(r.value.role) == p.role.value
  {
    var body := p.(password := None);
    if !UserPatchValid(body) then Fail(ServerError, "Validation failed")
    else
      Ok(u.(firstName := body.firstName.GetOr(u.firstName), lastName := body.lastName.GetOr(u.lastName),
        email := body.email.GetOr(u.email),
        role := if body.role.Some? then ParseRole(body.role.value).value else u.role,
        phone := body.phone.GetOr(u.phone), children := body.children.GetOr(u.children),
        isActive := body.isActive.GetOr(u.isActive)))
  }

  /** `updateUser`: 404 for an unknown id; the unique index refuses an email another user has. */
  function UpdateUser(users: seq<User>, id: nat, p: UserPatch): (o: UserOutcome<User>)
    ensures KeyAbsent(users, UserId, id) ==> o.result == Fail(NotFound, "User not found")
    ensures o.result.Err? ==> o.users == users
    ensures o.result.Ok? ==>
      exists k :: 0 <= k < |users| && users[k].id == id && o.users == users[k := o.result.value]
  {
    match FindUser(users, id)
    case None => UserOutcome(Fail(NotFound, "User not found"), users)
    case Some(k) =>
      match PatchedUser(users[k], p)
      case Err(e) => UserOutcome(Err(e), users)
      case Ok(v) =>
        if !KeyFreeExcept(users, UserEmail, k, v.email) then UserOutcome(Fail(ServerError, "Duplicate key"), users)
        else UserOutcome(Ok(v), users[k := v])
  }

  /**
   * What an edit of the user found at `k` stores, and when: it succeeds exactly when the update
   * validators pass and no other user holds the email the edited user ends up with; then the
   * stored user is the patched one.
   */
  lemma UpdateUserStores(users: seq<User>, id: nat, p: UserPatch, k: nat)
    requires FindUser(users, id) == Some(k)
    ensures var o := UpdateUser(users, id, p);
      (o.result.Ok? <==> (UserPatchValid(p) && KeyFreeExcept(users, UserEmail, k, p.email.GetOr(users[k].email)))) &&
      (o.result.Ok? ==> o.result == PatchedUser(users[k], p) && o.users == users[k := o.result.value])
  {
  }

  /** No update changes any stored password, whatever the body holds. */
  lemma UpdateKeepsPasswords(users: seq<User>, id: nat, p: UserPatch)
    ensures var o := UpdateUser(users, id, p);
      |o.users| == |users| && forall i :: 0 <= i < |users| ==> o.users[i].password == users[i].password
  {
  }

  /** A password in the body makes no difference at all. */
  lemma UpdateIgnoresPassword(users: seq<User>, id: nat, p: UserPatch, password: Option<string>)
    ensures UpdateUser(users, id, p) == UpdateUser(users, id, p.(password := password))
  {
  }

  /** `deleteUser` */
  function DeleteUser(users: seq<User>, id: nat): (o: UserOutcome<()>)
    ensures o.result.Err? <==> KeyAbsent(users, UserId, id)
    ensures o.result.Err? ==> o.result == Fail(NotFound, "User not found") && o.users == users
    ensures o.result.Ok? ==> o.users == RemoveAt(users, FindUser(users, id).value)
  {
    match FindUser(users, id)
    case None => UserOutcome(Fail(NotFound, "User not found"), users)
    case Some(k) => UserOutcome(Ok(()), RemoveAt(users, k))
  }

  /** With unique ids a deleted user is gone and every other user stays. */
  lemma DeleteUserRemoves(users: seq<User>, id: nat)
    requires UniqueBy(users, UserId) && !KeyAbsent(users, UserId, id)
    ensures var o := DeleteUser(users, id);
      KeyAbsent(o.users, UserId, id) && |o.users| == |users| - 1 &&
      forall u :: u in users && u.id != id ==> u in o.users
  {
    var k := FindUser(users, id).value;
    var r := RemoveAt(users, k);
    RemoveAtIndex(users, k);
    forall i | 0 <= i < |r| ensures r[i].id != id {
      if i < k {
        assert r[i] == users[i];
      } else {
        assert r[i] == users[i + 1];
      }
    }
    forall u | u in users && u.id != id ensures u in r {
      var i :| 0 <= i < |users| && users[i] == u;
      if i < k {
        assert r[i] == u;
      } else {
        assert r[i - 1] == u;
      }
    }
  }

  // ---------------------------------------------------------------------------------------
  // The handlers against the collection.

  method AddUser(store: UserStore, body: UserBody, now: int) returns (r: Result<User>)
    requires store.Valid()
    modifies store
    ensures store.Valid()
    ensures var o := CreateUser(old(store.docs), old(store.nextId), body, now);
      r == o.result && store.docs == o.users
    ensures store.nextId == if r.Ok? then old(store.nextId) + 1 else old(store.nextId)
  {
    if body.email != "" && !KeyAbsent(store.docs, UserEmail, body.email) {
      return Fail(BadRequest, "User with this email already exists");
    }
    r := NewUser(body, store.nextId, now);
    if r.Err? {
      return;
    }
    var ok := store.Insert(r.value);
    assert ok;
  }

  method EditUser(store: UserStore, id: nat, p: UserPatch) returns (r: Result<User>)
    requires store.Valid()
    modifies store
    ensures store.Valid() && store.nextId == old(store.nextId)
    ensures var o := UpdateUser(old(store.docs), id, p);
      r == o.result && store.docs == o.users
  {
    var found := FindUser(store.docs, id);
    if found.None? {
      return Fail(NotFound, "User not found");
    }
    var k := found.value;
    var body := p.(password := None);
    r := PatchedUser(store.docs[k], body);
    if r.Err? {
      return;
    }
    var ok := store.Save(k, r.value);
    if !ok {
      r := Fail(ServerError, "Duplicate key");
    }
  }

  method RemoveUser(store: UserStore, id: nat) returns (r: Result<()>)
    requires store.Valid()
    modifies store
    ensures store.Valid() && store.nextId == old(store.nextId)
    ensures var o := DeleteUser(old(store.docs), id);
      r == o.result && store.docs == o.users
  {
    var found := FindUser(store.docs, id);
    if found.None? {
      return Fail(NotFound, "User not found");
    }
    store.Remove(found.value);
    r := Ok(());
  }
}
