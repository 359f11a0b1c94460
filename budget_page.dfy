/** The budget page (`pages/Budget.jsx`): the budget dialog's prefill, the checks and
    the body of its save, and the colour of a budget's status. Its month picker is the
    shared `MonthNavigation.MonthSelector`; the outcome of the save call and `parseInt`
    are parameters. */
module BudgetPage {
  import opened Wrappers
  import Periods
  import Budgets

  /** A form field holds either the number it was prefilled with or the text typed in;
      JavaScript treats `0` and `''` as empty. */
  datatype Input = Num(n: int) | Text(s: string)

  predicate Filled(x: Input) {
    match x
    case Num(n) => n != 0
    case Text(s) => s != ""
  }

  /** `x || fallback` on a number the server sent. */
  function NumOr(x: int, fallback: Input): (r: Input)
    ensures x != 0 ==> r == Num(x)
    ensures x == 0 ==> r == fallback
  {
    if x != 0 then Num(x) else fallback
  }

  const DefaultThreshold := 80

  datatype ModalType = Overall | Category

  datatype BudgetForm = BudgetForm(amount: Input, category: Input, alertThreshold: Input)

  /** The month's overall budget as the overview returns it. */
  datatype OverallSummary = OverallSummary(amount: int, alertThreshold: int)

  /** A budget row being edited. */
  datatype BudgetRow = BudgetRow(id: nat, amount: int, categoryId: Option<int>, alertThreshold: int)

  /** The save body; `category` is `None` when the key is not sent (or is `undefined`). */
  datatype BudgetPayload = BudgetPayload(amount: Input, month: int, year: int, alertThreshold: Input,
                                         isOverall: bool, category: Option<int>)

  datatype BudgetCall = CreateBudget(payload: BudgetPayload) | UpdateBudget(id: nat, payload: BudgetPayload)

  /** Which of the three looks a status has. */
  datatype Tone = Red | Amber | Emerald

  /** The switch of `getStatusIcon`, `getStatusColor` and `getProgressColor`. */
  function ToneOf(status: string): (t: Tone)
    ensures t == Red <==> status == "exceeded"
    ensures t == Amber <==> status == "warning"
    ensures t == Emerald <==> status != "exceeded" && status != "warning"
  {
    if status == "exceeded" then Red else if status == "warning" then Amber else Emerald
  }

  function GradientClass(t: Tone): string {
    match t
    case Red => "from-red-500 to-red-600"
    case Amber => "from-amber-500 to-amber-600"
    case Emerald => "from-emerald-500 to-teal-500"
  }

  function ProgressClass(t: Tone): string {
    match t
    case Red => "bg-red-500"
    case Amber => "bg-amber-500"
    case Emerald => "bg-emerald-500"
  }

  /** The status names the overview sends. */
  function StatusText(s: Budgets.Status): string {
    match s
    case Normal => "normal"
    case Warning => "warning"
    case Exceeded => "exceeded"
  }

  /** Each server status has its own look, and the two colour classes of a look differ
      from those of the others. */
  lemma StatusTones(s: Budgets.Status)
    ensures ToneOf(StatusText(s)) == match s case Exceeded => Red case Warning => Amber case Normal => Emerald
    ensures forall t, u :: t != u ==> GradientClass(t) != GradientClass(u) && ProgressClass(t) != ProgressClass(u)
  {
    forall t: Tone, u: Tone | t != u ensures GradientClass(t) != GradientClass(u) && ProgressClass(t) != ProgressClass(u) {
      ToneLetter(t);
      ToneLetter(u);
    }
  }

  /** The colour name in both classes of a look starts with its own letter. */
  lemma ToneLetter(t: Tone)
    ensures |GradientClass(t)| > 5 && |ProgressClass(t)| > 3
    ensures GradientClass(t)[5] == ProgressClass(t)[3] == match t case Red => 'r' case Amber => 'a' case Emerald => 'e'
  {
  }

  class BudgetEditor {
    var form: BudgetForm
    var modalType: ModalType
    var editing: Option<BudgetRow>
    var showModal: bool

    constructor()
      ensures form == BudgetForm(Text(""), Text(""), Num(DefaultThreshold)) && modalType == Overall
      ensures editing.None? && !showModal
    {
      form := BudgetForm(Text(""), Text(""), Num(DefaultThreshold));
      modalType := Overall;
      editing := None;
      showModal := false;
    }

    /** `openAddOverallModal`: starts from the month's overall budget when there is one. */
    method OpenAddOverallModal(overall: Option<OverallSummary>)
      modifies this
      ensures editing.None? && modalType == Overall && showModal && form.category == Text("")
      ensures overall.None? ==> form == BudgetForm(Text(""), Text(""), Num(DefaultThreshold))
      ensures overall.Some? ==> form.amount == NumOr(overall.value.amount, Text(""))
                                && form.alertThreshold == NumOr(overall.value.alertThreshold, Num(DefaultThreshold))
    {
      editing := None;
      modalType := Overall;
      if overall.Some? {
        form := BudgetForm(NumOr(overall.value.amount, Text("")), Text(""),
                           NumOr(overall.value.alertThreshold, Num(DefaultThreshold)));
      } else {
        form := BudgetForm(Text(""), Text(""), Num(DefaultThreshold));
      }
      showModal := true;
    }

    /** `openAddCategoryModal`. */
    method OpenAddCategoryModal()
      modifies this
      ensures editing.None? && modalType == Category && showModal
      ensures form == BudgetForm(Text(""), Text(""), Num(DefaultThreshold))
    {
      editing := None;
      modalType := Category;
      form := BudgetForm(Text(""), Text(""), Num(DefaultThreshold));
      showModal := true;
    }

    /** `openEditModal(budget, isOverall)`. */
    method OpenEditModal(b: BudgetRow, isOverall: bool)
      modifies this
      ensures editing == Some(b) && showModal && (modalType == Overall <==> isOverall)
      ensures form.amount == Num(b.amount)
      ensures form.category == (if b.categoryId.Some? then NumOr(b.categoryId.value, Text("")) else Text(""))
      ensures form.alertThreshold == NumOr(b.alertThreshold, Num(DefaultThreshold))
    {
      editing := Some(b);
      modalType := if isOverall then Overall else Category;
      var category := if b.categoryId.Some? then NumOr(b.categoryId.value, Text("")) else Text("");
      form := BudgetForm(Num(b.amount), category, NumOr(b.alertThreshold, Num(DefaultThreshold)));
      showModal := true;
    }

    /** `handleSubmit` for the month `selected`: an amount is required, and a new
        category budget needs its category; the body marks an overall budget and carries
        a category only in category mode, where an unparsable or zero choice falls back
        to the edited budget's category. */
    method HandleSubmit(selected: Periods.MonthYear, parseInt: Input -> Option<int>, saved: bool)
      returns (call: Option<BudgetCall>)
      modifies this
      ensures form == old(form) && modalType == old(modalType) && editing == old(editing)
      ensures call.None? <==> !Filled(form.amount) || (modalType == Category && !Filled(form.category) && editing.None?)
      ensures call.None? ==> showModal == old(showModal)
      ensures call.Some? ==>
                var p := call.value.payload;
                p.amount == form.amount && p.month == selected.month && p.year == selected.year
                && p.alertThreshold == form.alertThreshold
                && (p.isOverall <==> modalType == Overall)
                && (modalType == Overall ==> p.category.None?)
                && (modalType == Category ==>
                      p.category == (if parseInt(form.category).Some? && parseInt(form.category).value != 0
                                     then parseInt(form.category)
                                     else if editing.Some? then editing.value.categoryId else None))
                && (editing.Some? <==> call.value.UpdateBudget?)
                && (editing.Some? ==> call.value.id == editing.value.id)
                && showModal == (old(showModal) && !saved)
    {
      if !Filled(form.amount) {
        return None;
      }
      if modalType == Category && !Filled(form.category) && editing.None? {
        return None;
      }
      var data := BudgetPayload(form.amount, selected.month, selected.year, form.alertThreshold,
                                modalType == Overall, None);
      if modalType == Category {
        var parsed := parseInt(form.category);
        var category := if parsed.Some? && parsed.value != 0 then parsed
                        else if editing.Some? then editing.value.categoryId else None;
        data := data.(category := category);
      }
      if editing.Some? {
        call := Some(UpdateBudget(editing.value.id, data));
      } else {
        call := Some(CreateBudget(data));
      }
      if saved {
        showModal := false;
      }
    }
  }
}
