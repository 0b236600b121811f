/**
 * The fee-structure handlers: the filtered list, lookup by id, and create, update and delete
 * against the fees collection.
 */
module FeeController {
  import opened Wrappers
  import opened Constants
  import opened Seqs
  import opened Sorting
  import opened FeeModel

  // ---------------------------------------------------------------------------------------
  // Reading.

  /** The query string of `GET /api/fees`: `active` when sent, and `class` ("" when not sent). */
  datatype FeeQuery = FeeQuery(active: Option<string>, className: string)

  /** The filter `getFees` builds: any `active` other than `"true"` asks for inactive fees. */
  function FeeFilter(q: FeeQuery): Fee -> bool {
    (f: Fee) =>
      (q.active.None? || f.isActive == (q.active.value == "true")) &&
      (q.className == "" || AppliesTo(f, q.className))
  }

  function FeeCreatedAt(f: Fee): int { f.createdAt }

  /** `getFees`: the matching fees, newest first. */
  function GetFees(fees: seq<Fee>, q: FeeQuery): seq<Fee> {
    SortBy(Filter(fees, FeeFilter(q)), Descending(FeeCreatedAt))
  }

  /** Exactly the fees matching both filters are listed, each once per stored copy, newest first. */
  lemma GetFeesListing(fees: seq<Fee>, q: FeeQuery)
    ensures var r := GetFees(fees, q);
      |r| == Count(fees, FeeFilter(q)) &&
      SortedBy(r, Descending(FeeCreatedAt)) &&
      forall f :: f in r <==>
        (f in fees &&
        (q.active.None? || f.isActive == (q.active.value == "true")) &&
        (q.className == "" || q.className in f.applicableFor.classes || "all" in f.applicableFor.classes))
  {
    var kept := Filter(fees, FeeFilter(q));
    SortByMembers(kept, Descending(FeeCreatedAt));
    FilterIff(fees, FeeFilter(q));
    DescendingTotal(FeeCreatedAt);
    SortBySorted(kept, Descending(FeeCreatedAt));
  }

  /** `getFeeById` */
  function GetFeeById(fees: seq<Fee>, id: nat): (r: Result<Fee>)
    ensures r.Err? <==> KeyAbsent(fees, FeeId, id)
    ensures r.Err? ==> r == Fail(NotFound, "Fee structure not found")
    ensures r.Ok? ==> r.value in fees && r.value.id == id
  {
    match FindFee(fees, id)
    case None => Fail(NotFound, "Fee structure not found")
    case Some(k) => Ok(fees[k])
  }

  // ---------------------------------------------------------------------------------------
  // Writing.

  /**
   * The body of `POST /api/fees`: an empty string is a field not sent, and a missing
   * `applicableFor` is the empty class list without a year.
   */
  datatype FeeBody = FeeBody(
    name: string,
    description: string,
    amount: Option<int>,
    frequency: string,
    applicableFor: FeeScope,
    isActive: Option<bool>)

  /** The schema's validators: a name, an amount of at least zero, a known frequency. */
  predicate FeeBodyValid(body: FeeBody) {
    body.name != "" && body.amount.Some? && body.amount.value >= 0 && ParseFeeFrequency(body.frequency).Some?
  }

  /** `Fee.create(body)` */
  function NewFee(body: FeeBody, id: nat, now: int): (r: Result<Fee>)
    ensures r.Ok? <==> FeeBodyValid(body)
    ensures r.Err? ==> r == Fail(ServerError, "Fee validation failed")
    ensures r.Ok? ==>
      FeeValid(r.value) && r.value.id == id && r.value.name == body.name &&
      Some(r.value.amount) == body.amount && FeeFrequencyName(r.value.frequency) == body.frequency &&
      r.value.applicableFor == body.applicableFor &&
      r.value.isActive == body.isActive.GetOr(true) && r.value.createdAt == now
  {
    if !FeeBodyValid(body) then Fail(ServerError, "Fee validation failed")
    else Ok(Fee(id, body.name, body.description, body.amount.value, ParseFeeFrequency(body.frequency).value,
      body.applicableFor, body.isActive.GetOr(true), now))
  }

  /** The response and the collection after a request. */
  datatype FeeOutcome<T> = FeeOutcome(result: Result<T>, fees: seq<Fee>)

  /** `createFee`: the validated fee is appended under the next id, or nothing changes. */
  function CreateFee(fees: seq<Fee>, nextId: nat, body: FeeBody, now: int): (o: FeeOutcome<Fee>)
    ensures o.result.Ok? <==> FeeBodyValid(body)
    ensures o.result.Err? ==> o.fees == fees
    ensures o.result.Ok? ==> o.fees == fees + [o.result.value] && o.result.value.id == nextId
  {
    match NewFee(body, nextId, now)
    case Err(e) => FeeOutcome(Err(e), fees)
    case Ok(f) => FeeOutcome(Ok(f), fees + [f])
  }

  /**
   * The body of `PUT /api/fees/:id`: None is a field not sent. An `applicableFor` that is
   * sent replaces the whole sub-document.
   */
  datatype FeePatch = FeePatch(
    name: Option<string>,
    description: Option<string>,
    amount: Option<int>,
    frequency: Option<string>,
    applicableFor: Option<FeeScope>,
    isActive: Option<bool>)

  /** The update validators, which run only on the fields sent. */
  predicate FeePatchValid(p: FeePatch) {
    p.name != Some("") && (p.amount.None? || p.amount.value >= 0) &&
    (p.frequency.None? || ParseFeeFrequency(p.frequency.value).Some?)
  }

  /** `findByIdAndUpdate(id, body, { runValidators: true })` on one fee. */
  function PatchedFee(f: Fee, p: FeePatch): (r: Result<Fee>)
    ensures r.Ok? <==> FeePatchValid(p)
    ensures r.Err? ==> r == Fail(ServerError, "Validation failed")
    ensures r.Ok? ==>
      (FeeValid(f) ==> FeeValid(r.value)) &&
      r.value.id == f.id && r.value.createdAt == f.createdAt &&
      r.value.name == p.name.GetOr(f.name) && r.value.description == p.description.GetOr(f.description) &&
      r.value.amount == p.amount.GetOr(f.amount) &&
      (if p.frequency.Some? then FeeFrequencyName(r.value.frequency) == p.frequency.value
       else r.value.frequency == f.frequency) &&
      r.value.applicableFor == p.applicableFor.GetOr(f.applicableFor) &&
      r.value.isActive == p.isActive.GetOr(f.isActive)
  {
    if !FeePatchValid(p) then Fail(ServerError, "Validation failed")
    else
      Ok(f.(name := p.name.GetOr(f.name), description := p.description.GetOr(f.description),
        amount := p.amount.GetOr(f.amount),
        frequency := if p.frequency.Some? then ParseFeeFrequency(p.frequency.value).value else f.frequency,
        applicableFor := p.applicableFor.GetOr(f.applicableFor), isActive := p.isActive.GetOr(f.isActive)))
  }

  /** `updateFee`: 404 for an unknown id, else the patched fee replaces the stored one. */
  function UpdateFee(fees: seq<Fee>, id: nat, p: FeePatch): (o: FeeOutcome<Fee>)
    ensures o.result.Err? ==> o.fees == fees
    ensures KeyAbsent(fees, FeeId, id) ==> o.result == Fail(NotFound, "Fee structure not found")
    ensures !KeyAbsent(fees, FeeId, id) ==> (o.result.Ok? <==> FeePatchValid(p))
    ensures o.result.Ok? ==>
      exists k :: 0 <= k < |fees| && fees[k].id == id && o.fees == fees[k := o.result.value]
    ensures forall k :: FindFee(fees, id) == Some(k) ==>
      (o.result.Ok? <==> PatchedFee(fees[k], p).Ok?) &&
      (o.result.Ok? ==> o.result == PatchedFee(fees[k], p) && o.fees == fees[k := o.result.value])
  {
    match FindFee(fees, id)
    case None => FeeOutcome(Fail(NotFound, "Fee structure not found"), fees)
    case Some(k) =>
      match PatchedFee(fees[k], p)
      case Err(e) => FeeOutcome(Err(e), fees)
      case Ok(v) => FeeOutcome(Ok(v), fees[k := v])
  }

  /** Sending a class list without a year clears the year the fee had. */
  lemma UpdateReplacesScope(fees: seq<Fee>, id: nat, classes: seq<string>)
    requires !KeyAbsent(fees, FeeId, id)
    ensures var o := UpdateFee(fees, id, FeePatch(None, None, None, None, Some(FeeScope(classes, "")), None));
      o.result.Ok? && o.result.value.applicableFor == FeeScope(classes, "")
  {
  }

  /** `deleteFee` */
  function DeleteFee(fees: seq<Fee>, id: nat): (o: FeeOutcome<()>)
    ensures o.result.Err? <==> KeyAbsent(fees, FeeId, id)
    ensures o.result.Err? ==> o.result == Fail(NotFound, "Fee structure not found") && o.fees == fees
    ensures o.result.Ok? ==> o.fees == RemoveAt(fees, FindFee(fees, id).value)
  {
    match FindFee(fees, id)
    case None => FeeOutcome(Fail(NotFound, "Fee structure not found"), fees)
    case Some(k) => FeeOutcome(Ok(()), RemoveAt(fees, k))
  }

  /** With unique ids a deleted fee is gone and every other fee stays. */
  lemma DeleteFeeRemoves(fees: seq<Fee>, id: nat)
    requires UniqueBy(fees, FeeId) && !KeyAbsent(fees, FeeId, id)
    ensures var o := DeleteFee(fees, id);
      KeyAbsent(o.fees, FeeId, id) && |o.fees| == |fees| - 1 &&
      forall f :: f in fees && f.id != id ==> f in o.fees
  {
    var k := FindFee(fees, id).value;
    var r := RemoveAt(fees, k);
    RemoveAtIndex(fees, k);
    forall i | 0 <= i < |r| ensures r[i].id != id {
      if i < k {
        assert r[i] == fees[i];
      } else {
        assert r[i] == fees[i + 1];
      }
    }
    forall f | f in fees && f.id != id ensures f in r {
      var i :| 0 <= i < |fees| && fees[i] == f;
      if i < k {
        assert r[i] == f;
      } else {
        assert r[i - 1] == f;
      }
    }
  }

  // ---------------------------------------------------------------------------------------
  // The handlers against the collection.

  method AddFee(store: FeeStore, body: FeeBody, now: int) returns (r: Result<Fee>)
    requires store.Valid()
    modifies store
    ensures store.Valid()
    ensures var o := CreateFee(old(store.docs), old(store.nextId), body, now);
      r == o.result && store.docs == o.fees
    ensures store.nextId == if r.Ok? then old(store.nextId) + 1 else old(store.nextId)
  {
    r := NewFee(body, store.nextId, now);
    if r.Ok? {
      store.Insert(r.value);
    }
  }

  method EditFee(store: FeeStore, id: nat, p: FeePatch) returns (r: Result<Fee>)
    requires store.Valid()
    modifies store
    ensures store.Valid() && store.nextId == old(store.nextId)
    ensures var o := UpdateFee(old(store.docs), id, p);
      r == o.result && store.docs == o.fees
  {
    var found := FindFee(store.docs, id);
    if found.None? {
      return Fail(NotFound, "Fee structure not found");
    }
    var k := found.value;
    r := PatchedFee(store.docs[k], p);
    if r.Ok? {
      store.Save(k, r.value);
    }
  }

  method RemoveFee(store: FeeStore, id: nat) returns (r: Result<()>)
    requires store.Valid()
    modifies store
    ensures store.Valid() && store.nextId == old(store.nextId)
    ensures var o := DeleteFee(old(store.docs), id);
      r == o.result && store.docs == o.fees
  {
    var found := FindFee(store.docs, id);
    if found.None? {
      return Fail(NotFound, "Fee structure not found");
    }
    store.Remove(found.value);
    r := Ok(());
  }
}
