/**
 * The `protect` and `authorize` middleware, and the parent-ownership rule the controllers
 * apply before they return a record. Token verification is a parameter: `verify` gives the
 * user id a token was signed for, or None when verification throws.
 */
module Auth {
  import opened Wrappers
  import opened Constants
  import opened Seqs
  import opened UserModel

  function IsSpace(c: char): bool { c == ' ' }

  /** The text of `s` up to its first space. */
  function UpToSpace(s: string): (r: string)
    ensures |r| <= |s| && ' ' !in r && r == s[..|r|]
    ensures |r| == |s| || s[|r|] == ' '
  {
    if s == [] || s[0] == ' ' then [] else [s[0]] + UpToSpace(s[1..])
  }

  /** `header.split(' ')[1]`: the word after the first space, undefined without a space. */
  function SecondWord(header: string): (r: Option<string>)
    ensures r.None? <==> ' ' !in header
    ensures r.Some? ==> ' ' !in r.value
    ensures r.Some? ==> exists i :: (0 <= i < |header| && header[i] == ' ' && ' ' !in header[..i] &&
      i + 1 + |r.value| <= |header| && header[i + 1..i + 1 + |r.value|] == r.value)
  {
    match IndexOf(header, IsSpace)
    case None =>
      assert ' ' !in header by {
        forall j | 0 <= j < |header| ensures header[j] != ' ' {
          assert !IsSpace(header[j]);
        }
      }
      None
    case Some(i) =>
      assert ' ' !in header[..i] by {
        forall j | 0 <= j < i ensures header[..i][j] != ' ' {
          assert !IsSpace(header[j]);
        }
      }
      var rest := header[i + 1..];
      var w := UpToSpace(rest);
      assert header[i + 1..i + 1 + |w|] == rest[..|w|];
      assert header[i] == ' ' && i + 1 + |w| <= |header| && header[i + 1..i + 1 + |w|] == w;
      Some(w)
  }

  /** The header written the usual way reads back its token. */
  lemma BearerTokenReadBack(token: string)
    requires ' ' !in token
    ensures SecondWord("Bearer " + token) == Some(token)
  {
    var h := "Bearer " + token;
    assert h[6] == ' ';
    forall j | 0 <= j < 6 ensures !IsSpace(h[j]) {
    }
    assert h[7..] == token;
    UpToSpaceWhole(token);
  }

  lemma {:induction false} UpToSpaceWhole(s: string)
    requires ' ' !in s
    ensures UpToSpace(s) == s
  {
    if s != [] {
      assert s[0] in s;
      assert ' ' !in s[1..] by {
        forall j | 0 <= j < |s[1..]| ensures s[1..][j] != ' ' {
          assert s[1..][j] == s[j + 1];
        }
      }
      UpToSpaceWhole(s[1..]);
    }
  }

  predicate StartsWithBearer(header: string) {
    |header| >= 6 && header[..6] == "Bearer"
  }

  const NoToken := "Not authorized, no token"
  const TokenFailed := "Not authorized, token failed"

  /**
   * `protect`: a header that does not start with `Bearer` gives 401 "no token". Any failure
   * inside the check — no second word, a token `verify` rejects, an empty token (which the
   * JWT library rejects), a missing or inactive user — is rethrown as 401 "token failed".
   * On success the request carries the stored user without the password.
   */
  function Protect(authorization: Option<string>, verify: string -> Option<nat>, users: seq<User>): (r: Result<User>)
    ensures r.Err? ==> r.error.status == Unauthorized
    ensures r.Err? ==> (r.error.message == NoToken <==>
      authorization.None? || !StartsWithBearer(authorization.value))
    ensures r.Err? ==> r.error.message in {NoToken, TokenFailed}
    ensures r.Ok? ==> authorization.Some? && StartsWithBearer(authorization.value)
    ensures r.Ok? ==> var t := SecondWord(authorization.value);
      t.Some? && t.value != "" && verify(t.value) == Some(r.value.id)
    ensures r.Ok? ==> r.value.isActive && r.value.password == ""
    ensures r.Ok? ==> exists k :: 0 <= k < |users| && users[k] == r.value.(password := users[k].password)
  {
    if authorization.None? || !StartsWithBearer(authorization.value) then Fail(Unauthorized, NoToken)
    else
      match SecondWord(authorization.value)
      case None => Fail(Unauthorized, TokenFailed)
      case Some(token) =>
        if token == "" then Fail(Unauthorized, TokenFailed)
        else
          match verify(token)
          case None => Fail(Unauthorized, TokenFailed)
          case Some(id) =>
            match FindUser(users, id)
            case None => Fail(Unauthorized, TokenFailed)
            case Some(k) =>
              if !users[k].isActive then Fail(Unauthorized, TokenFailed)
              else Ok(users[k].(password := ""))
  }

  /** A well-formed header whose token belongs to an active stored user always gets through. */
  lemma ProtectAdmitsActiveUser(token: string, verify: string -> Option<nat>, users: seq<User>, k: nat)
    requires ' ' !in token && token != ""
    requires k < |users| && UniqueBy(users, UserId) && users[k].isActive
    requires verify(token) == Some(users[k].id)
    ensures Protect(Some("Bearer " + token), verify, users) == Ok(users[k].(password := ""))
  {
    BearerTokenReadBack(token);
    var h := "Bearer " + token;
    assert h[..6] == "Bearer";
    match FindUser(users, users[k].id)
    case None =>
      assert false;
    case Some(j) =>
      UniqueByIndex(users, UserId, j, k);
  }

  /** `authorize(...roles)`: no user is 401, a role outside the list is 403. */
  function Authorize(roles: seq<Role>, user: Option<User>): (r: Result<()>)
    ensures user.None? ==> r == Fail(Unauthorized, "Not authorized")
    ensures user.Some? ==> (r.Ok? <==> user.value.role in roles)
    ensures user.Some? && r.Err? ==> r.error.status == Forbidden
    ensures user.Some? && r.Err? ==>
      r.error.message == "User role '" + RoleName(user.value.role) + "' is not authorized to access this route"
  {
    match user
    case None => Fail(Unauthorized, "Not authorized")
    case Some(u) =>
      if u.role in roles then Ok(())
      else Fail(Forbidden, "User role '" + RoleName(u.role) + "' is not authorized to access this route")
  }

  /**
   * The ownership rule the controllers apply: a `parent` caller may only see a record whose
   * parent is themself; any other role sees everything.
   */
  predicate MaySee(caller: User, owner: nat) {
    caller.role != Parent || owner == caller.id
  }

  /** The message of the `TypeError` thrown by reading `_id` of a parent that populated to null. */
  const NullParentRead := "Cannot read properties of null (reading '_id')"

  /**
   * The ownership test of the read-one handlers, `role === 'parent' && x.parent._id !== caller`,
   * run on a record whose `parent` was populated from `users`. Only a parent caller reads the
   * populated parent; when no stored user has its id it is null, and the error handler turns
   * the `TypeError` into a 500.
   */
  function OwnerCheck(users: seq<User>, caller: User, owner: nat, forbidden: string): (r: Result<()>)
    ensures r.Ok? <==> MaySee(caller, owner) && (caller.role == Parent ==> !KeyAbsent(users, UserId, owner))
    ensures caller.role == Parent && KeyAbsent(users, UserId, owner) ==> r == Fail(ServerError, NullParentRead)
    ensures r.Err? && (caller.role != Parent || !KeyAbsent(users, UserId, owner)) ==> r == Fail(Forbidden, forbidden)
  {
    if caller.role != Parent then Ok(())
    else if FindUser(users, owner).None? then Fail(ServerError, NullParentRead)
    else if owner != caller.id then Fail(Forbidden, forbidden)
    else Ok(())
  }
}
