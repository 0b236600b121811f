/**
 * The display helpers of the web client: initials, the badge colour of a status, and the
 * placeholder the date and currency formatters show for a missing value. The date and
 * number formatting itself (date-fns, `Intl.NumberFormat`) is passed in as a function.
 */
module Formatters {
  import opened Wrappers
  import opened Constants

  /** `toUpperCase` on one character, for the ASCII letters. */
  function UpperChar(c: char): (u: char)
    ensures 'a' <= c <= 'z' ==> 'A' <= u <= 'Z' && u as int - 'A' as int == c as int - 'a' as int
    ensures !('a' <= c <= 'z') ==> u == c
  {
    if 'a' <= c <= 'z' then (c as int - 'a' as int + 'A' as int) as char else c
  }

  /** `(name || '')[0] || ''`: the first character of a name, or nothing for a missing or empty one. */
  function FirstLetter(name: string): (r: string)
    ensures |r| <= 1 && (|r| == 1 <==> name != "")
    ensures name != "" ==> r == [name[0]]
  {
    if name == "" then "" else [name[0]]
  }

  function UpperString(s: string): (r: string)
    ensures |r| == |s| && forall i :: 0 <= i < |s| ==> r[i] == UpperChar(s[i])
  {
    if s == [] then [] else [UpperChar(s[0])] + UpperString(s[1..])
  }

  /** `getInitials(firstName, lastName)`; a missing name is the empty string. */
  function Initials(firstName: string, lastName: string): string {
    UpperString(FirstLetter(firstName) + FirstLetter(lastName))
  }

  /** The initials are the capitalised first letters of the names that are present, so at most two. */
  lemma InitialsMeaning(firstName: string, lastName: string)
    ensures var r := Initials(firstName, lastName);
      |r| <= 2 &&
      |r| == (if firstName == "" then 0 else 1) + (if lastName == "" then 0 else 1) &&
      (firstName != "" ==> r[0] == UpperChar(firstName[0])) &&
      (lastName != "" ==> r[|r| - 1] == UpperChar(lastName[0])) &&
      (firstName == "" && lastName == "" ==> r == "")
  {
    var letters := FirstLetter(firstName) + FirstLetter(lastName);
    assert firstName != "" ==> letters[0] == firstName[0];
    assert lastName != "" ==> letters[|letters| - 1] == lastName[0];
  }

  const Gray := "bg-gray-100 text-gray-800"
  const Green := "bg-green-100 text-green-800"
  const Red := "bg-red-100 text-red-800"
  const Yellow := "bg-yellow-100 text-yellow-800"
  const Blue := "bg-blue-100 text-blue-800"
  const Orange := "bg-orange-100 text-orange-800"

  /** The `colors` table of `getStatusColor`. */
  const StatusColors: map<string, string> := map[
    "active" := Green, "inactive" := Gray,
    "present" := Green, "absent" := Red, "late" := Yellow, "excused" := Blue,
    "pending" := Yellow, "paid" := Green, "partially_paid" := Orange, "overdue" := Red, "cancelled" := Gray,
    "completed" := Green, "failed" := Red]

  /** `getStatusColor(status)`: the listed class, or gray for any other status. */
  function StatusColor(status: string): (c: string)
    ensures status in StatusColors ==> c == StatusColors[status]
    ensures status !in StatusColors ==> c == Gray
  {
    if status in StatusColors && StatusColors[status] != "" then StatusColors[status] else Gray
  }

  /**
   * Every attendance and invoice status has its listed colour; of the payment statuses only
   * `refunded`, and of the student statuses `graduated` and `transferred`, fall back to gray.
   */
  lemma StatusColorsCoverStatuses()
    ensures forall s: AttendanceStatus :: AttendanceStatusName(s) in StatusColors
    ensures forall s: InvoiceStatus :: InvoiceStatusName(s) in StatusColors
    ensures forall s: PaymentStatus :: PaymentStatusName(s) in StatusColors <==> s != Refunded
    ensures forall s: StudentStatus :: StudentStatusName(s) in StatusColors <==> s == Active || s == Inactive
    ensures StatusColor("present") == Green && StatusColor("absent") == Red && StatusColor("late") == Yellow
    ensures StatusColor(PaymentStatusName(Refunded)) == Gray
  {
  }

  /** What a date argument can be: missing, a string from the API, or an instant. */
  datatype DateArg = NoDate | DateText(text: string) | DateInstant(ms: int)

  /**
   * `formatDate(date)`: `'-'` for a missing or empty value and for a date that does not
   * parse; `parse` stands for `parseISO` and `isValid`, `render` for the `'dd MMM yyyy'` format.
   */
  function FormatDate(date: DateArg, parse: string -> Option<int>, render: int -> string): (r: string)
    ensures date == NoDate || date == DateText("") ==> r == "-"
    ensures date.DateText? && date.text != "" ==>
      r == if parse(date.text).Some? then render(parse(date.text).value) else "-"
    ensures date.DateInstant? ==> r == render(date.ms)
  {
    match date
    case NoDate => "-"
    case DateText(text) =>
      if text == "" then "-"
      else if parse(text).None? then "-"
      else render(parse(text).value)
    case DateInstant(ms) => render(ms)
  }

  /** `formatCurrency(amount)`: `'-'` only for a missing amount; zero is formatted like any other amount. */
  function FormatCurrency(amount: Option<int>, render: int -> string): (r: string)
    ensures amount.None? ==> r == "-"
    ensures amount.Some? ==> r == render(amount.value)
  {
    if amount == None then "-" else render(amount.value)
  }
}
