/** The add/edit dialog of the income page (`pages/Income.jsx`): every save is an income
    received by bank transfer. */
module IncomePage {
  import opened Wrappers
  import Ledger
  import ClientLedger
  import opened TransactionsPage

  datatype IncomeForm = IncomeForm(amount: string, description: string, category: string, date: string, notes: string)

  const IncomePaymentMethod := "bank_transfer"

  function BlankIncome(today: string): IncomeForm {
    IncomeForm("", "", "", today, "")
  }

  class IncomeEditor {
    var form: IncomeForm
    var editing: Option<ClientLedger.Entry>
    var showModal: bool

    constructor(today: string)
      ensures form == BlankIncome(today) && editing.None? && !showModal
    {
      form := BlankIncome(today);
      editing := None;
      showModal := false;
    }

    /** `openAddModal`. */
    method OpenAddModal(today: string)
      modifies this
      ensures form == BlankIncome(today) && editing.None? && showModal
    {
      editing := None;
      form := BlankIncome(today);
      showModal := true;
    }

    /** `openEditModal(income)`. */
    method OpenEditModal(income: ClientLedger.Entry)
      modifies this
      ensures editing == Some(income) && showModal
      ensures form == IncomeForm(income.amount, income.description, CategoryText(income.category), income.date,
                                 OrDefault(income.notes, ""))
    {
      editing := Some(income);
      form := IncomeForm(income.amount, income.description, CategoryText(income.category), income.date,
                         OrDefault(income.notes, ""));
      showModal := true;
    }

    /** `handleSubmit`: the payload's type is always income and its payment method
        always a bank transfer, whatever the edited entry had. */
    method HandleSubmit(saved: bool) returns (call: Option<SaveCall>)
      modifies this
      ensures form == old(form) && editing == old(editing)
      ensures !RequiredFilled(form.amount, form.description, form.category) ==>
                call.None? && showModal == old(showModal)
      ensures RequiredFilled(form.amount, form.description, form.category) ==>
                call.Some? && call.value.payload.kind == Ledger.Income
                && call.value.payload.paymentMethod == Some(IncomePaymentMethod)
                && call.value.payload == Payload(Ledger.Income, form.amount, form.description, form.category,
                                                 form.date, Some(IncomePaymentMethod), form.notes)
                && (editing.Some? <==> call.value.Update?)
                && (editing.Some? ==> call.value.id == editing.value.id)
                && showModal == (old(showModal) && !saved)
    {
      if !RequiredFilled(form.amount, form.description, form.category) {
        return None;
      }
      var data := Payload(Ledger.Income, form.amount, form.description, form.category, form.date,
                          Some(IncomePaymentMethod), form.notes);
      if editing.Some? {
        call := Some(Update(editing.value.id, data));
      } else {
        call := Some(Create(data));
      }
      if saved {
        showModal := false;
      }
    }
  }
}
