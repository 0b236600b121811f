/**
 * The `Fee` model: one fee structure, the classes it applies to, and the fees collection.
 */
module FeeModel {
  import opened Wrappers
  import opened Constants
  import opened Seqs

  /** The `applicableFor` sub-document: class names (`"all"` for every class) and the academic year. */
  datatype FeeScope = FeeScope(classes: seq<string>, academicYear: string)

  /** A fee structure. */
  datatype Fee = Fee(
    id: nat,
    name: string,
    description: string,
    amount: int,
    frequency: FeeFrequency,
    applicableFor: FeeScope,
    isActive: bool,
    createdAt: int)

  function FeeId(f: Fee): nat { f.id }

  function FeeIdIs(id: nat): Fee -> bool { (f: Fee) => f.id == id }

  /** `Fee.findById(id)`, as an index into the collection. */
  function FindFee(fees: seq<Fee>, id: nat): (r: Option<nat>)
    ensures r.Some? ==> r.value < |fees| && fees[r.value].id == id
    ensures r.None? <==> KeyAbsent(fees, FeeId, id)
  {
    IndexOf(fees, FeeIdIs(id))
  }

  /** Whether the fee is listed for `className`: named outright or applicable to all classes. */
  predicate AppliesTo(f: Fee, className: string) {
    className in f.applicableFor.classes || "all" in f.applicableFor.classes
  }

  /** What the schema demands of a stored fee: a name and an amount that is not negative. */
  predicate FeeValid(f: Fee) {
    f.name != "" && f.amount >= 0
  }

  /** The fees collection: unique ids below `nextId`, every document valid. */
  class FeeStore {
    var docs: seq<Fee>
    var nextId: nat

    ghost predicate Valid()
      reads this
    {
      UniqueBy(docs, FeeId) &&
      forall i :: 0 <= i < |docs| ==> docs[i].id < nextId && FeeValid(docs[i])
    }

    constructor ()
      ensures Valid() && docs == [] && nextId == 0
    {
      docs := [];
      nextId := 0;
    }

    /** The insert of a validated fee under the next id; the collection has no other unique index. */
    method Insert(f: Fee)
      requires Valid() && f.id == nextId && FeeValid(f)
      modifies this
      ensures Valid()
      ensures docs == old(docs) + [f] && nextId == old(nextId) + 1
    {
      assert KeyAbsent(docs, FeeId, f.id);
      UniqueByAppend(docs, FeeId, f);
      docs := docs + [f];
      nextId := nextId + 1;
    }

    /** `findByIdAndUpdate` of the fee at position `k` with a validated document. */
    method Save(k: nat, f: Fee)
      requires Valid() && k < |docs| && f.id == docs[k].id && FeeValid(f)
      modifies this
      ensures Valid() && nextId == old(nextId)
      ensures docs == old(docs)[k := f]
    {
      UniqueByReplace(docs, FeeId, k, f);
      docs := docs[k := f];
    }

    /** `findByIdAndDelete` of the fee at position `k`. */
    method Remove(k: nat)
      requires Valid() && k < |docs|
      modifies this
      ensures Valid() && nextId == old(nextId) && docs == RemoveAt(old(docs), k)
    {
      UniqueByRemove(docs, FeeId, k);
      RemoveAtMembers(docs, k);
      RemoveAtIndex(docs, k);
      docs := RemoveAt(docs, k);
    }
  }
}
