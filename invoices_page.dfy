/**
 * The state transforms of the invoices page: editing the line items of the new-invoice form,
 * choosing the class and the student, the class list of the class picker, and the phone
 * number the WhatsApp share opens a chat with.
 */
module InvoicesPage {
  import opened Wrappers
  import opened Seqs
  import opened Sorting

  /** One line of the form; `fee` is the id of the chosen fee structure, `""` for none. */
  datatype FormItem = FormItem(fee: string, description: string, amount: int)

  /** The new-invoice form; the fields no handler here touches are left out. */
  datatype InvoiceForm = InvoiceForm(
    student: string,
    parent: string,
    items: seq<FormItem>,
    dueDate: string,
    academicYear: string,
    term: string,
    tax: int,
    discount: int)

  /** A fee structure as the page holds it. */
  datatype FeeOption = FeeOption(id: string, name: string, amount: int)

  /** A student as the page holds it; `parent` is the parent's id, populated or not, `""` for none. */
  datatype StudentOption = StudentOption(id: string, parent: string, className: string)

  /** The page's own state besides the form. */
  datatype InvoicePage = InvoicePage(selectedClass: string, form: InvoiceForm)

  const BlankItem := FormItem("", "", 0)

  /** `handleAddItem`: one blank item at the end. */
  function AddItem(form: InvoiceForm): (r: InvoiceForm)
    ensures r == form.(items := r.items)
    ensures |r.items| == |form.items| + 1 && r.items[..|form.items|] == form.items
    ensures r.items[|form.items|] == BlankItem
  {
    form.(items := form.items + [BlankItem])
  }

  /** `items.filter((_, i) => i !== idx)` */
  function WithoutIndex(items: seq<FormItem>, idx: int): (r: seq<FormItem>)
    ensures 0 <= idx < |items| ==>
      |r| == |items| - 1 &&
      (forall i :: 0 <= i < idx ==> r[i] == items[i]) &&
      (forall i :: idx <= i < |r| ==> r[i] == items[i + 1])
    ensures !(0 <= idx < |items|) ==> r == items
  {
    if items == [] then []
    else if idx == 0 then items[1..]
    else [items[0]] + WithoutIndex(items[1..], idx - 1)
  }

  /** `handleRemoveItem(idx)`: exactly the item at `idx` goes, the others keep their order. */
  function RemoveItem(form: InvoiceForm, idx: int): (r: InvoiceForm)
    ensures r == form.(items := WithoutIndex(form.items, idx))
  {
    form.(items := WithoutIndex(form.items, idx))
  }

  /** Removing the item just added gives the form back. */
  lemma RemoveAddedItem(form: InvoiceForm)
    ensures RemoveItem(AddItem(form), |form.items|) == form
  {
    var r := WithoutIndex(form.items + [BlankItem], |form.items|);
    assert r == form.items;
  }

  /** The field `handleItemChange` writes, with its new value. */
  datatype ItemField = FeeField(fee: string) | DescriptionField(description: string) | AmountField(amount: int)

  function FeeIdIs(id: string): FeeOption -> bool { (f: FeeOption) => f.id == id }

  /** `{ ...item, [field]: value }` */
  function WithField(item: FormItem, field: ItemField): FormItem {
    match field
    case FeeField(v) => item.(fee := v)
    case DescriptionField(v) => item.(description := v)
    case AmountField(v) => item.(amount := v)
  }

  /**
   * `handleItemChange(idx, field, value)`: writes the field of item `idx`; choosing a
   * fee that is in `fees` also copies the first such fee's name and amount.
   */
  function ChangeItem(form: InvoiceForm, fees: seq<FeeOption>, idx: nat, field: ItemField): (r: InvoiceForm)
    requires idx < |form.items|
    ensures r == form.(items := r.items)
    ensures |r.items| == |form.items| && forall i :: 0 <= i < |form.items| && i != idx ==> r.items[i] == form.items[i]
    ensures var found := if field.FeeField? && field.fee != "" then IndexOf(fees, FeeIdIs(field.fee)) else None;
      r.items[idx] ==
        if found.Some? then FormItem(field.fee, fees[found.value].name, fees[found.value].amount)
        else WithField(form.items[idx], field)
  {
    var item := WithField(form.items[idx], field);
    var item' :=
      if field.FeeField? && field.fee != "" then
        match IndexOf(fees, FeeIdIs(field.fee))
        case None => item
        case Some(k) => item.(description := fees[k].name, amount := fees[k].amount)
      else item;
    form.(items := form.items[idx := item'])
  }

  /** A chosen fee's name and amount are those of a fee in the list with that id. */
  lemma ChosenFeeCopied(form: InvoiceForm, fees: seq<FeeOption>, idx: nat, id: string)
    requires idx < |form.items| && id != ""
    requires exists f :: f in fees && f.id == id
    ensures var item := ChangeItem(form, fees, idx, FeeField(id)).items[idx];
      item.fee == id && exists f :: f in fees && f.id == id && item.description == f.name && item.amount == f.amount
  {
    var f :| f in fees && f.id == id;
    var j :| 0 <= j < |fees| && fees[j] == f;
    assert FeeIdIs(id)(fees[j]);
    var k := IndexOf(fees, FeeIdIs(id)).value;
    assert fees[k] in fees;
  }

  function StudentIdIs(id: string): StudentOption -> bool { (s: StudentOption) => s.id == id }

  /** `handleStudentSelect(studentId)`: the student, and that student's parent or `""`. */
  function SelectStudent(form: InvoiceForm, students: seq<StudentOption>, studentId: string): (r: InvoiceForm)
    ensures r == form.(student := studentId, parent := r.parent)
    ensures var k := IndexOf(students, StudentIdIs(studentId));
      r.parent == if k.Some? then students[k.value].parent else ""
  {
    var parent := match IndexOf(students, StudentIdIs(studentId))
      case None => ""
      case Some(k) => students[k].parent;
    form.(student := studentId, parent := parent)
  }

  /** `handleClassSelect(cls)`: the class is chosen and the chosen student cleared. */
  function SelectClass(page: InvoicePage, cls: string): (r: InvoicePage)
    ensures r.selectedClass == cls && r.form == page.form.(student := "")
  {
    InvoicePage(cls, page.form.(student := ""))
  }

  // ---------------------------------------------------------------------------------------
  // The class picker.

  function ClassOf(s: StudentOption): string { s.className }

  function Present(c: string): bool { c != "" }

  function Itself(c: string): string { c }

  /** `Array.from(new Set(students.map(s => s.class).filter(Boolean))).sort()` */
  function ClassList(students: seq<StudentOption>): seq<string> {
    SortBy(KeysOf(Filter(Map(students, ClassOf), Present), Itself), AscendingText(Itself))
  }

  /** The non-empty classes of the students, before duplicates are dropped. */
  lemma ClassNamesMeaning(students: seq<StudentOption>)
    ensures forall c :: c in Filter(Map(students, ClassOf), Present) <==>
      (c != "" && exists s :: s in students && s.className == c)
  {
    var names := Map(students, ClassOf);
    FilterIff(names, Present);
    MapMembers(students, ClassOf);
    forall c | c != "" && exists s :: s in students && s.className == c
      ensures c in names
    {
      var s :| s in students && s.className == c;
      var j :| 0 <= j < |students| && students[j] == s;
      assert names[j] == c;
    }
  }

  /** Dropping duplicates keeps every name once. */
  lemma KeysOfNames(names: seq<string>)
    ensures var keys := KeysOf(names, Itself);
      Distinct(keys) && forall c :: c in keys <==> c in names
  {
    var keys := KeysOf(names, Itself);
    forall c ensures c in keys <==> c in names {
      if c in names {
        var i :| 0 <= i < |names| && names[i] == c;
        assert Itself(names[i]) in keys;
      }
      if c in keys {
        var i :| 0 <= i < |names| && Itself(names[i]) == c;
      }
    }
  }

  /** The class list names each class some student is in once, no empty class, in string order. */
  lemma ClassListMeaning(students: seq<StudentOption>)
    ensures var r := ClassList(students);
      Distinct(r) && SortedBy(r, AscendingText(Itself)) &&
      forall c :: c in r <==> (c != "" && exists s :: s in students && s.className == c)
  {
    var names := Filter(Map(students, ClassOf), Present);
    var keys := KeysOf(names, Itself);
    ClassNamesMeaning(students);
    KeysOfNames(names);
    DistinctPermutation(keys, SortBy(keys, AscendingText(Itself)));
    AscendingTextTotal(Itself);
    SortBySorted(keys, AscendingText(Itself));
    SortByMembers(keys, AscendingText(Itself));
  }

  // ---------------------------------------------------------------------------------------
  // The WhatsApp share.

  function IsDigit(c: char): bool { '0' <= c <= '9' }

  predicate StartsWith91(s: string) {
    |s| >= 2 && s[..2] == "91"
  }

  /**
   * The number as `handleWhatsAppShare` builds it: only the digits, with `91` put in front
   * unless the digits already start with `91`.
   */
  function ChatNumberAsWritten(phone: string): (r: string)
    ensures forall i :: 0 <= i < |r| ==> IsDigit(r[i])
    ensures StartsWith91(r)
    ensures r == Filter(phone, IsDigit) || r == "91" + Filter(phone, IsDigit)
  {
    var digits := Filter(phone, IsDigit);
    if StartsWith91(digits) then digits else "91" + digits
  }

  /** A number typed as digits that begin with 91 is used as it is. */
  lemma DigitsKept(d: string)
    requires (forall i :: 0 <= i < |d| ==> IsDigit(d[i])) && StartsWith91(d)
    ensures ChatNumberAsWritten(d) == d
  {
    FilterAll(d, IsDigit);
  }

  /** A ten-digit national number that happens to begin with 91 is sent without the country code. */
  lemma LocalNumberLosesCountryCode()
    ensures |ChatNumberAsWritten("9123456789")| == 10
  {
    var d := "9123456789";
    assert d[..2] == "91";
    forall i | 0 <= i < |d| ensures IsDigit(d[i]) {
    }
    DigitsKept(d);
  }

  /**
   * The number with the country code: a ten-digit national number always gets `91` in
   * front, any other number is treated as `ChatNumberAsWritten` treats it.
   */
  function ChatNumber(phone: string): (r: string)
    ensures forall i :: 0 <= i < |r| ==> IsDigit(r[i])
    ensures StartsWith91(r)
    ensures |Filter(phone, IsDigit)| == 10 ==> r == "91" + Filter(phone, IsDigit)
    ensures |Filter(phone, IsDigit)| != 10 ==> r == ChatNumberAsWritten(phone)
  {
    var digits := Filter(phone, IsDigit);
    if |digits| == 10 then "91" + digits else ChatNumberAsWritten(phone)
  }

  /** The digits of the number end with the digits of the phone as typed. */
  lemma ChatNumberKeepsDigits(phone: string)
    ensures var r := ChatNumber(phone); var d := Filter(phone, IsDigit);
      |r| >= |d| && r[|r| - |d|..] == d
  {
    var d := Filter(phone, IsDigit);
    var r := ChatNumber(phone);
    if r == "91" + d {
      assert r[|r| - |d|..] == d;
    }
  }

  /**
   * Normalising a normalised number changes nothing, unless eight digits were typed:
   * those become a ten-digit number that gets a second country code.
   */
  lemma ChatNumberIdempotent(phone: string)
    requires |Filter(phone, IsDigit)| != 8
    ensures ChatNumber(ChatNumber(phone)) == ChatNumber(phone)
  {
    var d := Filter(phone, IsDigit);
    var r := ChatNumber(phone);
    assert |r| != 10 by {
      if |d| != 10 {
        assert r == ChatNumberAsWritten(phone);
        assert r == d || r == "91" + d;
      }
    }
    FilterAll(r, IsDigit);
    assert ChatNumber(r) == ChatNumberAsWritten(r);
    DigitsKept(r);
  }

  /** What the share button does. */
  datatype ShareAction = ShareRefused(message: string) | OpenChat(number: string)

  /** `handleWhatsAppShare`: no chat without the parent's phone. */
  function Share(phone: Option<string>): (a: ShareAction)
    ensures a.ShareRefused? <==> phone.None? || phone == Some("")
    ensures a.ShareRefused? ==> a.message == "Parent phone number not available"
    ensures a.OpenChat? ==> a.number == ChatNumber(phone.value) && StartsWith91(a.number)
  {
    if phone.None? || phone.value == "" then ShareRefused("Parent phone number not available")
    else OpenChat(ChatNumber(phone.value))
  }

  /** `handleWhatsAppShare` as written: the chat opens on `ChatNumberAsWritten`. */
  function ShareAsWritten(phone: Option<string>): (a: ShareAction)
    ensures a.ShareRefused? <==> phone.None? || phone == Some("")
    ensures a.OpenChat? ==> a.number == ChatNumberAsWritten(phone.value)
  {
    if phone.None? || phone.value == "" then ShareRefused("Parent phone number not available")
    else OpenChat(ChatNumberAsWritten(phone.value))
  }

  /** On a phone without ten digits the code as written and the corrected share open the same chat. */
  lemma ShareAsWrittenAgrees(phone: string)
    requires |Filter(phone, IsDigit)| != 10
    ensures ShareAsWritten(Some(phone)) == Share(Some(phone))
  {
  }

  /**
   * On ten digits that begin with 91 (as `LocalNumberLosesCountryCode`'s `9123456789` does)
   * only the corrected share puts the country code in front.
   */
  lemma ShareAsWrittenDiffers(phone: string)
    requires |Filter(phone, IsDigit)| == 10 && StartsWith91(Filter(phone, IsDigit))
    ensures ShareAsWritten(Some(phone)).number == Filter(phone, IsDigit)
    ensures Share(Some(phone)).number == "91" + Filter(phone, IsDigit)
    ensures ShareAsWritten(Some(phone)) != Share(Some(phone))
  {
    assert |Share(Some(phone)).number| == 12;
  }
}
