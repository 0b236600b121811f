/**
 * The class checkboxes of the fee-structure form: `handleClassToggle` adds a class that is
 * not in the list and removes one that is.
 */
module FeesPage {
  import opened Seqs

  /** The form's `applicableFor` part. */
  datatype ScopeForm = ScopeForm(classes: seq<string>, academicYear: string)

  /** The fee-structure form; `amount` is the text of its input. */
  datatype FeeForm = FeeForm(
    name: string,
    description: string,
    amount: string,
    frequency: string,
    applicableFor: ScopeForm,
    isActive: bool)

  function Other(cls: string): string -> bool { (c: string) => c != cls }

  /** `handleClassToggle(cls)` */
  function ToggleClass(form: FeeForm, cls: string): (r: FeeForm)
    ensures r == form.(applicableFor := form.applicableFor.(classes := r.applicableFor.classes))
  {
    var classes := form.applicableFor.classes;
    form.(applicableFor := form.applicableFor.(
      classes := if cls in classes then Filter(classes, Other(cls)) else classes + [cls]))
  }

  /**
   * A class that is not listed is added at the end; a listed class goes, every occurrence of
   * it, and the other classes keep their order.
   */
  lemma ToggleMeaning(form: FeeForm, cls: string)
    ensures var before := form.applicableFor.classes; var after := ToggleClass(form, cls).applicableFor.classes;
      (cls !in before ==> after == before + [cls]) &&
      (cls in before ==> cls !in after && after == Filter(before, Other(cls)) && |after| < |before|)
  {
    var before := form.applicableFor.classes;
    if cls in before {
      var k :| 0 <= k < |before| && before[k] == cls;
      FilterIff(before, Other(cls));
      FilterShorter(before, Other(cls), k);
    }
  }

  /** A filter that drops the element at `k` is shorter than its input. */
  lemma {:induction false} FilterShorter<T>(s: seq<T>, p: T -> bool, k: nat)
    requires k < |s| && !p(s[k])
    ensures |Filter(s, p)| < |s|
  {
    assert s == [s[0]] + s[1..];
    if k > 0 {
      FilterShorter(s[1..], p, k - 1);
    }
  }

  /** Toggling a class that is not listed twice restores the form. */
  lemma ToggleTwiceRestores(form: FeeForm, cls: string)
    requires cls !in form.applicableFor.classes
    ensures ToggleClass(ToggleClass(form, cls), cls) == form
  {
    var before := form.applicableFor.classes;
    assert cls in before + [cls];
    FilterAppend(before, [cls], Other(cls));
    FilterAll(before, Other(cls));
    assert Filter([cls], Other(cls)) == [];
  }

  /** Toggling a listed class twice leaves it listed once, at the end. */
  lemma ToggleListedTwice(form: FeeForm, cls: string)
    requires cls in form.applicableFor.classes
    ensures var before := form.applicableFor.classes;
      ToggleClass(ToggleClass(form, cls), cls).applicableFor.classes == Filter(before, Other(cls)) + [cls]
  {
    ToggleMeaning(form, cls);
  }
}
