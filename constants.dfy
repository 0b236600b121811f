/** The enumerations shared by the schemas and the controllers, with the strings stored for them. */
module Constants {
  import opened Wrappers

  datatype Role = Admin | Parent

  datatype StudentStatus = Active | Inactive | Graduated | Transferred

  datatype AttendanceStatus = Present | Absent | Late | Excused

  datatype FeeFrequency = Monthly | Quarterly | HalfYearly | Yearly | OneTime

  datatype InvoiceStatus = InvoicePending | Paid | PartiallyPaid | Overdue | Cancelled

  datatype PaymentMethod = Cash | Card | Online | BankTransfer | Cheque

  datatype PaymentStatus = PaymentPending | Completed | Failed | Refunded

  datatype Gender = Male | Female | Other

  function RoleName(r: Role): string {
    match r
    case Admin => "admin"
    case Parent => "parent"
  }

  function AttendanceStatusName(s: AttendanceStatus): string {
    match s
    case Present => "present"
    case Absent => "absent"
    case Late => "late"
    case Excused => "excused"
  }

  function InvoiceStatusName(s: InvoiceStatus): string {
    match s
    case InvoicePending => "pending"
    case Paid => "paid"
    case PartiallyPaid => "partially_paid"
    case Overdue => "overdue"
    case Cancelled => "cancelled"
  }

  function PaymentMethodName(m: PaymentMethod): string {
    match m
    case Cash => "cash"
    case Card => "card"
    case Online => "online"
    case BankTransfer => "bank_transfer"
    case Cheque => "cheque"
  }

  function PaymentStatusName(s: PaymentStatus): string {
    match s
    case PaymentPending => "pending"
    case Completed => "completed"
    case Failed => "failed"
    case Refunded => "refunded"
  }

  function StudentStatusName(s: StudentStatus): string {
    match s
    case Active => "active"
    case Inactive => "inactive"
    case Graduated => "graduated"
    case Transferred => "transferred"
  }

  function FeeFrequencyName(f: FeeFrequency): string {
    match f
    case Monthly => "monthly"
    case Quarterly => "quarterly"
    case HalfYearly => "half-yearly"
    case Yearly => "yearly"
    case OneTime => "one-time"
  }

  function GenderName(g: Gender): string {
    match g
    case Male => "male"
    case Female => "female"
    case Other => "other"
  }

  /** The schema's `enum` validator for roles: accepts exactly the listed values. */
  function ParseRole(s: string): (r: Option<Role>)
    ensures r.Some? <==> s in {"admin", "parent"}
    ensures r.Some? ==> RoleName(r.value) == s
    ensures forall x :: s == RoleName(x) ==> r == Some(x)
  {
    if s == "admin" then Some(Admin)
    else if s == "parent" then Some(Parent)
    else None
  }

  /** The `enum` validator for attendance status. */
  function ParseAttendanceStatus(s: string): (r: Option<AttendanceStatus>)
    ensures r.Some? <==> s in {"present", "absent", "late", "excused"}
    ensures r.Some? ==> AttendanceStatusName(r.value) == s
    ensures forall x :: s == AttendanceStatusName(x) ==> r == Some(x)
  {
    if s == "present" then Some(Present)
    else if s == "absent" then Some(Absent)
    else if s == "late" then Some(Late)
    else if s == "excused" then Some(Excused)
    else None
  }

  /** The `enum` validator of the invoice status path. */
  function ParseInvoiceStatus(s: string): (r: Option<InvoiceStatus>)
    ensures r.Some? <==> s in {"pending", "paid", "partially_paid", "overdue", "cancelled"}
    ensures r.Some? ==> InvoiceStatusName(r.value) == s
    ensures forall x :: s == InvoiceStatusName(x) ==> r == Some(x)
  {
    if s == "pending" then Some(InvoicePending)
    else if s == "paid" then Some(Paid)
    else if s == "partially_paid" then Some(PartiallyPaid)
    else if s == "overdue" then Some(Overdue)
    else if s == "cancelled" then Some(Cancelled)
    else None
  }

  /** The `enum` validator of the payment method path. */
  function ParsePaymentMethod(s: string): (r: Option<PaymentMethod>)
    ensures r.Some? <==> s in {"cash", "card", "online", "bank_transfer", "cheque"}
    ensures r.Some? ==> PaymentMethodName(r.value) == s
    ensures forall x :: s == PaymentMethodName(x) ==> r == Some(x)
  {
    if s == "cash" then Some(Cash)
    else if s == "card" then Some(Card)
    else if s == "online" then Some(Online)
    else if s == "bank_transfer" then Some(BankTransfer)
    else if s == "cheque" then Some(Cheque)
    else None
  }

  /** The `enum` validator of the payment status path. */
  function ParsePaymentStatus(s: string): (r: Option<PaymentStatus>)
    ensures r.Some? <==> s in {"pending", "completed", "failed", "refunded"}
    ensures r.Some? ==> PaymentStatusName(r.value) == s
    ensures forall x :: s == PaymentStatusName(x) ==> r == Some(x)
  {
    if s == "pending" then Some(PaymentPending)
    else if s == "completed" then Some(Completed)
    else if s == "failed" then Some(Failed)
    else if s == "refunded" then Some(Refunded)
    else None
  }

  /** The `enum` validator of the student status path. */
  function ParseStudentStatus(s: string): (r: Option<StudentStatus>)
    ensures r.Some? <==> s in {"active", "inactive", "graduated", "transferred"}
    ensures r.Some? ==> StudentStatusName(r.value) == s
    ensures forall x :: s == StudentStatusName(x) ==> r == Some(x)
  {
    if s == "active" then Some(Active)
    else if s == "inactive" then Some(Inactive)
    else if s == "graduated" then Some(Graduated)
    else if s == "transferred" then Some(Transferred)
    else None
  }

  /** The `enum` validator of the fee frequency path. */
  function ParseFeeFrequency(s: string): (r: Option<FeeFrequency>)
    ensures r.Some? <==> s in {"monthly", "quarterly", "half-yearly", "yearly", "one-time"}
    ensures r.Some? ==> FeeFrequencyName(r.value) == s
    ensures forall x :: s == FeeFrequencyName(x) ==> r == Some(x)
  {
    if s == "monthly" then Some(Monthly)
    else if s == "quarterly" then Some(Quarterly)
    else if s == "half-yearly" then Some(HalfYearly)
    else if s == "yearly" then Some(Yearly)
    else if s == "one-time" then Some(OneTime)
    else None
  }

  /** The `enum` validator of the gender path. */
  function ParseGender(s: string): (r: Option<Gender>)
    ensures r.Some? <==> s in {"male", "female", "other"}
    ensures r.Some? ==> GenderName(r.value) == s
    ensures forall x :: s == GenderName(x) ==> r == Some(x)
  {
    if s == "male" then Some(Male)
    else if s == "female" then Some(Female)
    else if s == "other" then Some(Other)
    else None
  }

  /** Attendance that counts towards the attendance rate everywhere: present or late. */
  predicate CountsAsPresent(s: AttendanceStatus) {
    s == Present || s == Late
  }

  /** Invoice statuses that the reports and dashboards treat as still owing. */
  predicate IsOpen(s: InvoiceStatus) {
    s == InvoicePending || s == PartiallyPaid
  }
}
