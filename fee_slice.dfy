/**
 * The `fees` state slice of the web client: the fee, invoice and payment lists, their
 * pagination, and one `loading` flag and one `error` for all three requests. The requests
 * themselves are not part of this model; their outcomes arrive as actions.
 */
module FeeSlice {
  import opened Wrappers
  import opened SliceCommon

  datatype FeeState<F, I, P> = FeeState(
    fees: seq<F>,
    invoices: seq<I>,
    payments: seq<P>,
    invoicePagination: Pagination,
    paymentPagination: Pagination,
    loading: bool,
    error: Option<string>)

  /** The three requests of the slice. */
  datatype FeeRequest = FetchFees | FetchInvoices | FetchPayments

  /** The actions the reducer handles; a rejection carries the message it was rejected with. */
  datatype FeeAction<F, I, P> =
    | ClearFeeError
    | Pending(request: FeeRequest)
    | FeesFulfilled(fees: seq<F>)
    | InvoicesFulfilled(invoices: seq<I>, invoicePagination: Pagination)
    | PaymentsFulfilled(payments: seq<P>, paymentPagination: Pagination)
    | Rejected(rejected: FeeRequest, payload: Option<string>)

  function InitialFeeState<F, I, P>(): FeeState<F, I, P> {
    FeeState([], [], [], NoPages, NoPages, false, None)
  }

  /** `feeSlice.reducer` */
  function Reduce<F, I, P>(s: FeeState<F, I, P>, a: FeeAction<F, I, P>): FeeState<F, I, P> {
    match a
    case ClearFeeError => s.(error := None)
    case Pending(_) => s.(loading := true)
    case FeesFulfilled(fees) => s.(loading := false, fees := fees)
    case InvoicesFulfilled(invoices, pagination) => s.(loading := false, invoices := invoices, invoicePagination := pagination)
    case PaymentsFulfilled(payments, pagination) => s.(loading := false, payments := payments, paymentPagination := pagination)
    case Rejected(_, payload) => s.(loading := false, error := payload)
  }

  /**
   * A pending request sets `loading` and keeps the error; a fulfilled one clears `loading`
   * and replaces its own list (and pagination) only; a rejected one clears `loading` and
   * takes its payload as the error; `clearFeeError` clears the error and nothing else.
   */
  lemma ReduceMeaning<F, I, P>(s: FeeState<F, I, P>, a: FeeAction<F, I, P>)
    ensures var r := Reduce(s, a);
      (a.Pending? ==> r.loading && r.error == s.error && r == s.(loading := r.loading)) &&
      (a.FeesFulfilled? ==> !r.loading && r.fees == a.fees && r == s.(loading := false, fees := r.fees)) &&
      (a.InvoicesFulfilled? ==>
        !r.loading && r.invoices == a.invoices && r.invoicePagination == a.invoicePagination &&
        r.fees == s.fees && r.payments == s.payments && r.paymentPagination == s.paymentPagination &&
        r.error == s.error) &&
      (a.PaymentsFulfilled? ==>
        !r.loading && r.payments == a.payments && r.paymentPagination == a.paymentPagination &&
        r.fees == s.fees && r.invoices == s.invoices && r.invoicePagination == s.invoicePagination &&
        r.error == s.error) &&
      (a.Rejected? ==> !r.loading && r.error == a.payload && r == s.(loading := false, error := r.error)) &&
      (a == ClearFeeError ==> r.error.None? && r == s.(error := None))
  {
  }

  /** An error from a failed request is still there after the next request succeeds. */
  lemma StaleErrorSurvivesSuccess<F, I, P>(s: FeeState<F, I, P>, message: string, fees: seq<F>)
    ensures var failed := Reduce(Reduce(s, Pending(FetchFees)), Rejected(FetchFees, Some(message)));
      Reduce(Reduce(failed, Pending(FetchFees)), FeesFulfilled(fees)).error == Some(message)
  {
  }

  /** The flag is shared: the first request to finish clears it while another is still under way. */
  lemma LoadingClearedByFirstReply<F, I, P>(s: FeeState<F, I, P>, fees: seq<F>)
    ensures var both := Reduce(Reduce(s, Pending(FetchFees)), Pending(FetchInvoices));
      both.loading && !Reduce(both, FeesFulfilled(fees)).loading
  {
  }

  /** The store's copy of the slice, updated in place the way the reducers write it. */
  class FeeStore<F, I, P> {
    var fees: seq<F>
    var invoices: seq<I>
    var payments: seq<P>
    var invoicePagination: Pagination
    var paymentPagination: Pagination
    var loading: bool
    var error: Option<string>

    function State(): FeeState<F, I, P>
      reads this
    {
      FeeState(fees, invoices, payments, invoicePagination, paymentPagination, loading, error)
    }

    constructor ()
      ensures State() == InitialFeeState()
    {
      fees := [];
      invoices := [];
      payments := [];
      invoicePagination := NoPages;
      paymentPagination := NoPages;
      loading := false;
      error := None;
    }

    method Dispatch(a: FeeAction<F, I, P>)
      modifies this
      ensures State() == Reduce(old(State()), a)
    {
      match a
      case ClearFeeError =>
        error := None;
      case Pending(_) =>
        loading := true;
      case FeesFulfilled(data) =>
        loading := false;
        fees := data;
      case InvoicesFulfilled(data, pagination) =>
        loading := false;
        invoices := data;
        invoicePagination := pagination;
      case PaymentsFulfilled(data, pagination) =>
        loading := false;
        payments := data;
        paymentPagination := pagination;
      case Rejected(_, payload) =>
        loading := false;
        error := payload;
    }
  }
}
