/**
 * The `students` state slice of the web client: the listed students, the one being viewed,
 * the pagination, and the `loading` and `error` of the two requests.
 */
module StudentSlice {
  import opened Wrappers
  import opened SliceCommon

  datatype StudentState<S> = StudentState(
    list: seq<S>,
    current: Option<S>,
    pagination: Pagination,
    loading: bool,
    error: Option<string>)

  /** The two requests of the slice. */
  datatype StudentRequest = FetchStudents | FetchStudentById

  datatype StudentAction<S> =
    | ClearCurrentStudent
    | ClearStudentError
    | Pending(request: StudentRequest)
    | StudentsFulfilled(list: seq<S>, pagination: Pagination)
    | StudentFulfilled(student: S)
    | Rejected(rejected: StudentRequest, payload: Option<string>)

  function InitialStudentState<S>(): StudentState<S> {
    StudentState([], None, NoPages, false, None)
  }

  /** `studentSlice.reducer` */
  function Reduce<S>(s: StudentState<S>, a: StudentAction<S>): StudentState<S> {
    match a
    case ClearCurrentStudent => s.(current := None)
    case ClearStudentError => s.(error := None)
    case Pending(FetchStudents) => s.(loading := true, error := None)
    case Pending(FetchStudentById) => s.(loading := true)
    case StudentsFulfilled(list, pagination) => s.(loading := false, list := list, pagination := pagination)
    case StudentFulfilled(student) => s.(loading := false, current := Some(student))
    case Rejected(_, payload) => s.(loading := false, error := payload)
  }

  /**
   * Loading the list clears the error, loading one student keeps it; each reply replaces
   * only its own fields; a rejection takes its payload as the error; each clearing action
   * resets exactly one field.
   */
  lemma ReduceMeaning<S>(s: StudentState<S>, a: StudentAction<S>)
    ensures var r := Reduce(s, a);
      (a == Pending(FetchStudents) ==> r.loading && r.error.None? && r == s.(loading := true, error := None)) &&
      (a == Pending(FetchStudentById) ==> r.loading && r.error == s.error && r == s.(loading := true)) &&
      (a.StudentsFulfilled? ==>
        !r.loading && r.list == a.list && r.pagination == a.pagination && r.current == s.current && r.error == s.error) &&
      (a.StudentFulfilled? ==>
        !r.loading && r.current == Some(a.student) && r.list == s.list && r.pagination == s.pagination &&
        r.error == s.error) &&
      (a.Rejected? ==> !r.loading && r.error == a.payload && r == s.(loading := false, error := r.error)) &&
      (a == ClearCurrentStudent ==> r.current.None? && r == s.(current := None)) &&
      (a == ClearStudentError ==> r.error.None? && r == s.(error := None))
  {
  }

  /** A failed lookup's error is still shown while the next lookup is under way, not a failed list's. */
  lemma ErrorAfterPending<S>(s: StudentState<S>, message: string)
    ensures var failed := Reduce(s, Rejected(FetchStudentById, Some(message)));
      Reduce(failed, Pending(FetchStudentById)).error == Some(message) &&
      Reduce(failed, Pending(FetchStudents)).error.None?
  {
  }

  class StudentStore<S> {
    var list: seq<S>
    var current: Option<S>
    var pagination: Pagination
    var loading: bool
    var error: Option<string>

    function State(): StudentState<S>
      reads this
    {
      StudentState(list, current, pagination, loading, error)
    }

    constructor ()
      ensures State() == InitialStudentState()
    {
      list := [];
      current := None;
      pagination := NoPages;
      loading := false;
      error := None;
    }

    method Dispatch(a: StudentAction<S>)
      modifies this
      ensures State() == Reduce(old(State()), a)
    {
      match a
      case ClearCurrentStudent =>
        current := None;
      case ClearStudentError =>
        error := None;
      case Pending(FetchStudents) =>
        loading := true;
        error := None;
      case Pending(FetchStudentById) =>
        loading := true;
      case StudentsFulfilled(data, page) =>
        loading := false;
        list := data;
        pagination := page;
      case StudentFulfilled(student) =>
        loading := false;
        current := Some(student);
      case Rejected(_, payload) =>
        loading := false;
        error := payload;
    }
  }
}
