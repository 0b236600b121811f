/**
 * The `User` model: the stored fields the controllers read, the `children` array that
 * `$addToSet` and `$pull` maintain, and the users collection with its unique `email` index.
 */
module UserModel {
  import opened Wrappers
  import opened Constants
  import opened Seqs

  /** A stored user; `password` is the stored hash, compared only by the login code. */
  datatype User = User(
    id: nat,
    firstName: string,
    lastName: string,
    email: string,
    password: string,
    role: Role,
    phone: string,
    children: seq<nat>,
    isActive: bool,
    createdAt: int)

  function UserId(u: User): nat { u.id }

  function UserEmail(u: User): string { u.email }

  function IdIs(id: nat): User -> bool { (u: User) => u.id == id }

  /** `User.findById(id)`, as an index into the collection. */
  function FindUser(users: seq<User>, id: nat): (r: Option<nat>)
    ensures r.Some? ==> r.value < |users| && users[r.value].id == id
    ensures r.None? <==> KeyAbsent(users, UserId, id)
  {
    IndexOf(users, IdIs(id))
  }

  function IsValue(x: nat): nat -> bool { (y: nat) => y == x }

  /** How often `x` occurs in an id array. */
  function Occurrences(xs: seq<nat>, x: nat): nat {
    Count(xs, IsValue(x))
  }

  /** `$addToSet`: append `x` unless it is already there. */
  function AddToSet(xs: seq<nat>, x: nat): (r: seq<nat>)
    ensures x in r
    ensures forall y :: y in r <==> y in xs || y == x
    ensures x in xs ==> r == xs
    ensures x !in xs ==> r == xs + [x]
  {
    if x in xs then xs else xs + [x]
  }

  /** `$pull`: remove every occurrence of `x`, keeping the order of the rest. */
  function Pull(xs: seq<nat>, x: nat): (r: seq<nat>)
    ensures x !in r
    ensures forall y :: y != x ==> (y in r <==> y in xs)
  {
    Filter(xs, (y: nat) => y != x)
  }

  lemma {:induction false} OccurrencesZero(xs: seq<nat>, x: nat)
    ensures Occurrences(xs, x) == 0 <==> x !in xs
  {
    if xs != [] {
      OccurrencesZero(xs[1..], x);
      assert xs == [xs[0]] + xs[1..];
    }
  }

  lemma OccurrencesSnoc(xs: seq<nat>, x: nat, y: nat)
    ensures Occurrences(xs + [y], x) == Occurrences(xs, x) + (if y == x then 1 else 0)
  {
    FilterAppend(xs, [y], IsValue(x));
  }

  /** After `$addToSet`, an id that was there at most once is there exactly once. */
  lemma AddToSetOnce(xs: seq<nat>, x: nat)
    requires Occurrences(xs, x) <= 1
    ensures Occurrences(AddToSet(xs, x), x) == 1
  {
    OccurrencesZero(xs, x);
    if x !in xs {
      OccurrencesSnoc(xs, x, x);
    }
  }

  /** `$addToSet` of `x` leaves the count of every other id alone. */
  lemma AddToSetOthers(xs: seq<nat>, x: nat, y: nat)
    requires y != x
    ensures Occurrences(AddToSet(xs, x), y) == Occurrences(xs, y)
  {
    if x !in xs {
      OccurrencesSnoc(xs, y, x);
    }
  }

  /** After `$pull`, the id is gone. */
  lemma PullGone(xs: seq<nat>, x: nat)
    ensures Occurrences(Pull(xs, x), x) == 0
  {
    OccurrencesZero(Pull(xs, x), x);
  }

  /** `findByIdAndUpdate(id, { $addToSet: { children: child } })` on the collection; no user, no change. */
  function WithChild(docs: seq<User>, id: nat, child: nat): (r: seq<User>)
    ensures |r| == |docs|
  {
    match FindUser(docs, id)
    case None => docs
    case Some(k) => docs[k := docs[k].(children := AddToSet(docs[k].children, child))]
  }

  /** `findByIdAndUpdate(id, { $pull: { children: child } })` on the collection; no user, no change. */
  function WithoutChild(docs: seq<User>, id: nat, child: nat): (r: seq<User>)
    ensures |r| == |docs|
  {
    match FindUser(docs, id)
    case None => docs
    case Some(k) => docs[k := docs[k].(children := Pull(docs[k].children, child))]
  }

  /**
   * Linking touches only the children of the user with that id: the child is then among
   * them, and every other user and every other field is as it was.
   */
  lemma WithChildEffect(docs: seq<User>, id: nat, child: nat)
    ensures var r := WithChild(docs, id, child);
      forall i :: 0 <= i < |docs| ==>
        (r[i].id == docs[i].id && r[i].email == docs[i].email && r[i].role == docs[i].role &&
        r[i].password == docs[i].password) &&
        (FindUser(docs, id) == Some(i) ==> r[i].children == AddToSet(docs[i].children, child)) &&
        (FindUser(docs, id) != Some(i) ==> r[i] == docs[i])
  {
  }

  /** Unlinking touches only the children of the user with that id, and the child is then gone from them. */
  lemma WithoutChildEffect(docs: seq<User>, id: nat, child: nat)
    ensures var r := WithoutChild(docs, id, child);
      forall i :: 0 <= i < |docs| ==>
        (r[i].id == docs[i].id && r[i].email == docs[i].email && r[i].role == docs[i].role &&
        r[i].password == docs[i].password) &&
        (FindUser(docs, id) == Some(i) ==> r[i].children == Pull(docs[i].children, child) && child !in r[i].children) &&
        (FindUser(docs, id) != Some(i) ==> r[i] == docs[i])
  {
  }

  /** The users collection: ids are unique and below `nextId`, and `email` has a unique index. */
  class UserStore {
    var docs: seq<User>
    var nextId: nat

    ghost predicate Valid()
      reads this
    {
      UniqueBy(docs, UserId) && UniqueBy(docs, UserEmail) &&
      forall i :: 0 <= i < |docs| ==> docs[i].id < nextId
    }

    constructor ()
      ensures Valid() && docs == [] && nextId == 0
    {
      docs := [];
      nextId := 0;
    }

    /** `User.findByIdAndUpdate(id, { $addToSet: { children: child } })`. */
    method AddChild(id: nat, child: nat)
      requires Valid()
      modifies this
      ensures Valid() && nextId == old(nextId)
      ensures docs == WithChild(old(docs), id, child)
    {
      match FindUser(docs, id)
      case None =>
      case Some(k) =>
        var u := docs[k];
        docs := docs[k := u.(children := AddToSet(u.children, child))];
        UniqueByReplace(old(docs), UserId, k, docs[k]);
        UniqueByReplace(old(docs), UserEmail, k, docs[k]);
    }

    /** `User.findByIdAndUpdate(id, { $pull: { children: child } })`. */
    method PullChild(id: nat, child: nat)
      requires Valid()
      modifies this
      ensures Valid() && nextId == old(nextId)
      ensures docs == WithoutChild(old(docs), id, child)
    {
      match FindUser(docs, id)
      case None =>
      case Some(k) =>
        var u := docs[k];
        docs := docs[k := u.(children := Pull(u.children, child))];
        UniqueByReplace(old(docs), UserId, k, docs[k]);
        UniqueByReplace(old(docs), UserEmail, k, docs[k]);
    }

    /** The insert of a new user under the next id: refused by the unique index on an email in use. */
    method Insert(u: User) returns (ok: bool)
      requires Valid() && u.id == nextId
      modifies this
      ensures Valid()
      ensures ok <==> KeyAbsent(old(docs), UserEmail, u.email)
      ensures docs == (if ok then old(docs) + [u] else old(docs))
      ensures nextId == (if ok then old(nextId) + 1 else old(nextId))
    {
      ok := KeyAbsent(docs, UserEmail, u.email);
      if ok {
        UniqueByAppend(docs, UserId, u);
        UniqueByAppend(docs, UserEmail, u);
        docs := docs + [u];
        nextId := nextId + 1;
      }
    }

    /** `findByIdAndUpdate` of the user at `k`: refused by the unique index when another user has the email. */
    method Save(k: nat, u: User) returns (ok: bool)
      requires Valid() && k < |docs| && u.id == docs[k].id
      modifies this
      ensures Valid() && nextId == old(nextId)
      ensures ok <==> KeyFreeExcept(old(docs), UserEmail, k, u.email)
      ensures docs == (if ok then old(docs)[k := u] else old(docs))
    {
      ok := forall i :: 0 <= i < |docs| && i != k ==> docs[i].email != u.email;
      if ok {
        UniqueByReplace(docs, UserId, k, u);
        UniqueByReplaceFresh(docs, UserEmail, k, u);
        docs := docs[k := u];
      }
    }

    /** `findByIdAndDelete` of the user at position `k`. */
    method Remove(k: nat)
      requires Valid() && k < |docs|
      modifies this
      ensures Valid() && nextId == old(nextId) && docs == RemoveAt(old(docs), k)
    {
      UniqueByRemove(docs, UserId, k);
      UniqueByRemove(docs, UserEmail, k);
      RemoveAtMembers(docs, k);
      RemoveAtIndex(docs, k);
      docs := RemoveAt(docs, k);
    }
  }
}
