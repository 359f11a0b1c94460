/** The add/edit dialog of the transactions page (`pages/Transactions.jsx`): the form
    state, how the two dialogs fill it, and the save request `handleSubmit` makes. The
    outcome of the save call is a parameter. */
module TransactionsPage {
  import opened Wrappers
  import Text
  import Ledger
  import ClientLedger

  /** The dialog's fields, all text as the inputs hold them. */
  datatype TxForm = TxForm(amount: string, description: string, category: string, date: string,
                           paymentMethod: string, notes: string)

  /** The body of a create or update; `amount` and `category` are the texts handed to
      `parseFloat` and `parseInt`. A payload without `payment_method` has `None`. */
  datatype Payload = Payload(kind: Ledger.TxType, amount: string, description: string, category: string,
                             date: string, paymentMethod: Option<string>, notes: string)

  datatype SaveCall = Create(payload: Payload) | Update(id: nat, payload: Payload)

  const DefaultPaymentMethod := "cash"

  /** The guard every add form shares: amount, description and category filled in. */
  predicate RequiredFilled(amount: string, description: string, category: string) {
    amount != "" && description != "" && category != ""
  }

  /** `value || fallback` on an optional string. */
  function OrDefault(s: Option<string>, fallback: string): (r: string)
    ensures Text.Truthy(s) ==> r == s.value
    ensures !Text.Truthy(s) ==> r == fallback
  {
    if Text.Truthy(s) then s.value else fallback
  }

  /** `category?.toString() || ''`. */
  function CategoryText(category: Option<nat>): (r: string)
    ensures category.None? <==> r == ""
    ensures category.Some? ==> Text.AllDigits(r) && Text.DigitsValue(r) == category.value
  {
    Text.NatToStringRoundTrip(if category.Some? then category.value else 0);
    if category.Some? then Text.NatToString(category.value) else ""
  }

  /** The empty form of a new transaction dated `today`. */
  function BlankForm(today: string): TxForm {
    TxForm("", "", "", today, DefaultPaymentMethod, "")
  }

  function PayloadOf(kind: Ledger.TxType, f: TxForm): Payload {
    Payload(kind, f.amount, f.description, f.category, f.date, Some(f.paymentMethod), f.notes)
  }

  class TransactionEditor {
    var form: TxForm
    var kind: Ledger.TxType
    var editing: Option<ClientLedger.Entry>
    var showModal: bool

    constructor(today: string)
      ensures form == BlankForm(today) && kind == Ledger.Expense && editing.None? && !showModal
    {
      form := BlankForm(today);
      kind := Ledger.Expense;
      editing := None;
      showModal := false;
    }

    /** `openAddModal(type)`: a blank form paying in cash, nothing being edited. */
    method OpenAddModal(k: Ledger.TxType, today: string)
      modifies this
      ensures form == BlankForm(today) && form.paymentMethod == DefaultPaymentMethod
      ensures kind == k && editing.None? && showModal
    {
      editing := None;
      kind := k;
      form := BlankForm(today);
      showModal := true;
    }

    /** `openEditModal(transaction)`: the transaction's own values, with cash and an
        empty note standing in for missing ones. */
    method OpenEditModal(t: ClientLedger.Entry)
      modifies this
      ensures editing == Some(t) && kind == t.kind && showModal
      ensures form.amount == t.amount && form.description == t.description && form.date == t.date
      ensures form.category == CategoryText(t.category)
      ensures form.paymentMethod == (if Text.Truthy(t.paymentMethod) then t.paymentMethod.value else DefaultPaymentMethod)
      ensures form.notes == (if Text.Truthy(t.notes) then t.notes.value else "")
    {
      editing := Some(t);
      kind := t.kind;
      form := TxForm(t.amount, t.description, CategoryText(t.category), t.date,
                     OrDefault(t.paymentMethod, DefaultPaymentMethod), OrDefault(t.notes, ""));
      showModal := true;
    }

    /** `handleSubmit`: nothing is sent unless the required fields are filled; then an
        update of the edited transaction or a create, and the dialog closes when the
        call succeeds (`saved`). */
    method HandleSubmit(saved: bool) returns (call: Option<SaveCall>)
      modifies this
      ensures form == old(form) && kind == old(kind) && editing == old(editing)
      ensures !RequiredFilled(form.amount, form.description, form.category) ==>
                call.None? && showModal == old(showModal)
      ensures RequiredFilled(form.amount, form.description, form.category) ==>
                call.Some? && call.value.payload == PayloadOf(kind, form)
                && (editing.Some? <==> call.value.Update?)
                && (editing.Some? ==> call.value.id == editing.value.id)
                && showModal == (old(showModal) && !saved)
    {
      if !RequiredFilled(form.amount, form.description, form.category) {
        return None;
      }
      var data := PayloadOf(kind, form);
      if editing.Some? {
        call := Some(Update(editing.value.id, data));
      } else {
        call := Some(Create(data));
      }
      if saved {
        showModal := false;
      }
    }
  }
}
