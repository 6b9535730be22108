/** The payment-plan editor (itinerary-builder/src/components/PaymentForm.tsx). */
module Payment {
  import opened Wrappers
  import opened Types
  import opened Form
  import FieldArray

  datatype InstallmentField = NameField | AmountField | DueDateField | StatusField

  /** One change handler call: the field named and the value it writes, already of the field's type. */
  datatype InstallmentEdit =
    | SetName(name: string)
    | SetAmount(amount: real)
    | SetDueDate(dueDate: string)
    | SetStatus(status: InstallmentStatus)
  {
    function Field(): InstallmentField {
      match this
      case SetName(_) => NameField
      case SetAmount(_) => AmountField
      case SetDueDate(_) => DueDateField
      case SetStatus(_) => StatusField
    }
  }

  /** Whether two installments hold the same value in one field. */
  predicate Agree(a: InstallmentData, b: InstallmentData, field: InstallmentField) {
    match field
    case NameField => a.name == b.name
    case AmountField => a.amount == b.amount
    case DueDateField => a.dueDate == b.dueDate
    case StatusField => a.status == b.status
  }

  /** Whether an installment holds the value an edit writes. */
  predicate Shows(a: InstallmentData, e: InstallmentEdit) {
    match e
    case SetName(n) => a.name == n
    case SetAmount(x) => a.amount == x
    case SetDueDate(d) => a.dueDate == d
    case SetStatus(s) => a.status == s
  }

  /** `{ ...installment, [field]: value }` */
  function WithEdit(a: InstallmentData, e: InstallmentEdit): (r: InstallmentData)
    ensures Shows(r, e)
    ensures forall g :: g != e.Field() ==> Agree(r, a, g)
    ensures r.id == a.id
  {
    match e
    case SetName(n) => a.(name := n)
    case SetAmount(x) => a.(amount := x)
    case SetDueDate(d) => a.(dueDate := d)
    case SetStatus(s) => a.(status := s)
  }

  /** The record addInstallment appends. */
  function Blank(now: string): (a: InstallmentData)
    ensures a.id == now && a.name == "" && a.amount == 0.0 && a.dueDate == "" && a.status == Pending
  {
    InstallmentData(now, "", 0.0, "", Pending)
  }

  /**
   * `parseFloat(text) || 0`: `parsed` is what parseFloat made of the text,
   * None for NaN. NaN falls back to 0; a parsed zero is 0 already.
   */
  function AmountEntry(parsed: Option<real>): (amount: real)
    ensures parsed.None? ==> amount == 0.0
    ensures parsed.Some? ==> amount == parsed.value
  {
    match parsed
    case None => 0.0
    case Some(x) => x
  }

  /** The amount input's change handler: whatever was typed, a number is stored. */
  function AmountEdit(parsed: Option<real>): (e: InstallmentEdit)
    ensures e.SetAmount? && e.amount == AmountEntry(parsed)
  {
    SetAmount(AmountEntry(parsed))
  }

  /**
   * The three values the payment editor computes from `watch` with fallbacks
   * for falsy values. The editor never reads them: its inputs are bound
   * directly to the form fields, so nothing displays these fallbacks.
   */
  datatype Summary = Summary(totalAmount: real, currency: string, tds: string)

  function Shown(data: ItineraryData): (s: Summary)
    ensures s.totalAmount == data.totalAmount
    ensures s.currency == (if data.currency == "" then "INR" else data.currency)
    ensures s.tds == (if data.tds == "" then "Not Applicable" else data.tds)
    ensures s.currency != "" && s.tds != ""
  {
    Summary(
      data.totalAmount,
      if data.currency != "" then data.currency else "INR",
      if data.tds != "" then data.tds else "Not Applicable")
  }

  method AddInstallment(store: FormStore, now: string)
    modifies store
    ensures store.data == old(store.data).(installments := old(store.data.installments) + [Blank(now)])
  {
    store.data := store.data.(installments := store.data.installments + [Blank(now)]);
  }

  method RemoveInstallment(store: FormStore, index: int)
    modifies store
    ensures store.data == old(store.data).(installments := FieldArray.RemoveAt(old(store.data.installments), index))
  {
    store.data := store.data.(installments := FieldArray.RemoveAt(store.data.installments, index));
  }

  method UpdateInstallment(store: FormStore, index: int, e: InstallmentEdit)
    requires 0 <= index < |store.data.installments|
    modifies store
    ensures store.data == old(store.data).(installments := old(store.data.installments)[index := WithEdit(old(store.data.installments[index]), e)])
    ensures |store.data.installments| == |old(store.data.installments)|
    ensures Shows(store.data.installments[index], e)
    ensures forall g :: g != e.Field() ==> Agree(store.data.installments[index], old(store.data.installments[index]), g)
    ensures forall j :: 0 <= j < |store.data.installments| && j != index ==> store.data.installments[j] == old(store.data.installments[j])
  {
    var updatedInstallments := store.data.installments;
    updatedInstallments := updatedInstallments[index := WithEdit(updatedInstallments[index], e)];
    store.data := store.data.(installments := updatedInstallments);
  }
}
