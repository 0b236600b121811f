/**
 * The `AcademicRecord` model's `calculatePercentage`: the marks obtained over the marks
 * possible across a record's subjects, as an exact fraction of 100.
 */
module AcademicRecord {
  import opened Wrappers
  import opened Seqs
  import opened Ratios

  /** One entry of `subjects`; either mark may be missing. */
  datatype Subject = Subject(name: string, marksObtained: Option<int>, totalMarks: Option<int>)

  /** `subject.marksObtained || 0` */
  function ObtainedOf(s: Subject): int { s.marksObtained.GetOr(0) }

  /** `subject.totalMarks || 0` */
  function PossibleOf(s: Subject): int { s.totalMarks.GetOr(0) }

  /**
   * `calculatePercentage()`: 0 without subjects or without marks possible, else
   * obtained / possible * 100 (the `toFixed(2)` string is not modelled).
   */
  function CalculatePercentage(subjects: seq<Subject>): (r: Ratio)
    ensures r.denominator != 0
    ensures subjects == [] ==> r.numerator == 0
    ensures SumBy(subjects, PossibleOf) <= 0 ==> r.numerator == 0
    ensures SumBy(subjects, PossibleOf) > 0 ==>
      r.numerator * SumBy(subjects, PossibleOf) == 100 * SumBy(subjects, ObtainedOf) * r.denominator
  {
    if |subjects| == 0 then Ratio(0, 1)
    else
      var totalObtained := SumBy(subjects, ObtainedOf);
      var totalPossible := SumBy(subjects, PossibleOf);
      if totalPossible > 0 then PercentOf(totalObtained, totalPossible) else Ratio(0, 1)
  }

  /** Marks none negative and none above the subject's total give 0 to 100 percent. */
  lemma PercentageInRange(subjects: seq<Subject>)
    requires forall s :: s in subjects ==> 0 <= ObtainedOf(s) <= PossibleOf(s)
    ensures var r := CalculatePercentage(subjects);
      r.denominator > 0 && 0 <= r.numerator <= 100 * r.denominator
  {
    SumByNonNegative(subjects, ObtainedOf);
    SumByMonotone(subjects, ObtainedOf, PossibleOf);
    if subjects != [] && SumBy(subjects, PossibleOf) > 0 {
      PercentInRange(SumBy(subjects, ObtainedOf), SumBy(subjects, PossibleOf));
    }
  }

  /** A missing mark counts as 0: filling it in with 0 does not change the percentage. */
  lemma MissingMarksCountAsZero(subjects: seq<Subject>, k: nat)
    requires k < |subjects|
    ensures var filled := subjects[k := subjects[k].(
        marksObtained := Some(ObtainedOf(subjects[k])), totalMarks := Some(PossibleOf(subjects[k])))];
      CalculatePercentage(filled) == CalculatePercentage(subjects)
  {
    var filled := subjects[k := subjects[k].(
        marksObtained := Some(ObtainedOf(subjects[k])), totalMarks := Some(PossibleOf(subjects[k])))];
    SumByReplace(subjects, k, filled[k], ObtainedOf);
    SumByReplace(subjects, k, filled[k], PossibleOf);
  }
}
