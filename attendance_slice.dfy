/**
 * The `attendance` state slice of the web client: the listed records, their pagination,
 * and the `loading` and `error` of the one request.
 */
module AttendanceSlice {
  import opened Wrappers
  import opened SliceCommon

  datatype AttendanceState<R> = AttendanceState(
    records: seq<R>,
    pagination: Pagination,
    loading: bool,
    error: Option<string>)

  datatype AttendanceAction<R> =
    | ClearAttendanceError
    | Pending
    | Fulfilled(records: seq<R>, pagination: Pagination)
    | Rejected(payload: Option<string>)

  function InitialAttendanceState<R>(): AttendanceState<R> {
    AttendanceState([], NoPages, false, None)
  }

  /** `attendanceSlice.reducer` */
  function Reduce<R>(s: AttendanceState<R>, a: AttendanceAction<R>): AttendanceState<R> {
    match a
    case ClearAttendanceError => s.(error := None)
    case Pending => s.(loading := true, error := None)
    case Fulfilled(records, pagination) => s.(loading := false, records := records, pagination := pagination)
    case Rejected(payload) => s.(loading := false, error := payload)
  }

  /**
   * Pending sets `loading` and clears the error; the reply replaces the records and the
   * pagination; a rejection takes its payload as the error; clearing the error changes
   * nothing else.
   */
  lemma ReduceMeaning<R>(s: AttendanceState<R>, a: AttendanceAction<R>)
    ensures var r := Reduce(s, a);
      (a == Pending ==> r.loading && r.error.None? && r.records == s.records && r.pagination == s.pagination) &&
      (a.Fulfilled? ==>
        !r.loading && r.records == a.records && r.pagination == a.pagination && r.error == s.error) &&
      (a.Rejected? ==>
        !r.loading && r.error == a.payload && r.records == s.records && r.pagination == s.pagination) &&
      (a == ClearAttendanceError ==> r.error.None? && r == s.(error := None))
  {
  }

  /** A request that is answered leaves no stale error behind, whatever state it started from. */
  lemma AnsweredRequestHasNoError<R>(s: AttendanceState<R>, records: seq<R>, pagination: Pagination)
    ensures var r := Reduce(Reduce(s, Pending), Fulfilled(records, pagination));
      !r.loading && r.error.None? && r.records == records
  {
  }

  class AttendanceStore<R> {
    var records: seq<R>
    var pagination: Pagination
    var loading: bool
    var error: Option<string>

    function State(): AttendanceState<R>
      reads this
    {
      AttendanceState(records, pagination, loading, error)
    }

    constructor ()
      ensures State() == InitialAttendanceState()
    {
      records := [];
      pagination := NoPages;
      loading := false;
      error := None;
    }

    method Dispatch(a: AttendanceAction<R>)
      modifies this
      ensures State() == Reduce(old(State()), a)
    {
      match a
      case ClearAttendanceError =>
        error := None;
      case Pending =>
        loading := true;
        error := None;
      case Fulfilled(data, page) =>
        loading := false;
        records := data;
        pagination := page;
      case Rejected(payload) =>
        loading := false;
        error := payload;
    }
  }
}
