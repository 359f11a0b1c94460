/** The quick-add form of the dashboard (`pages/Dashboard.jsx`). Its month picker is the
    shared `MonthNavigation.MonthSelector`. */
module DashboardPage {
  import opened Wrappers
  import Ledger
  import opened TransactionsPage

  datatype QuickForm = QuickForm(amount: string, description: string, category: string, date: string, notes: string)

  function BlankQuick(today: string): QuickForm {
    QuickForm("", "", "", today, "")
  }

  class QuickAdd {
    var form: QuickForm
    var kind: Ledger.TxType
    var open: bool

    constructor(today: string)
      ensures form == BlankQuick(today) && kind == Ledger.Expense && !open
    {
      form := BlankQuick(today);
      kind := Ledger.Expense;
      open := false;
    }

    /** `handleAddTransaction`: nothing happens unless the required fields are filled;
        a successful create (`saved`) resets the form to a blank one dated `today` and
        closes it, a failed one leaves both as they were. */
    method HandleAddTransaction(saved: bool, today: string) returns (call: Option<Payload>)
      modifies this
      ensures kind == old(kind)
      ensures !RequiredFilled(old(form).amount, old(form).description, old(form).category) ==>
                call.None? && form == old(form) && open == old(open)
      ensures RequiredFilled(old(form).amount, old(form).description, old(form).category) ==>
                call == Some(Payload(kind, old(form).amount, old(form).description, old(form).category,
                                     old(form).date, None, old(form).notes))
                && (saved ==> form == BlankQuick(today) && !open)
                && (!saved ==> form == old(form) && open == old(open))
    {
      if !RequiredFilled(form.amount, form.description, form.category) {
        return None;
      }
      call := Some(Payload(kind, form.amount, form.description, form.category, form.date, None, form.notes));
      if saved {
        form := BlankQuick(today);
        open := false;
      }
    }
  }
}
