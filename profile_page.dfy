/** The profile page (`pages/Profile.jsx`): the defaults filled in when a profile is
    loaded, the amounts sent when the financial settings are saved, and the checks of
    the password-change form. Server replies are parameters. */
module ProfilePage {
  import opened Wrappers
  import Text

  /** The notification preferences as the profile holds them; a missing one is `None`. */
  datatype StoredPreferences = StoredPreferences(emailNotifications: Option<bool>, budgetAlerts: Option<bool>,
                                                 weeklySummary: Option<bool>, monthlyReport: Option<bool>)

  datatype Preferences = Preferences(emailNotifications: bool, budgetAlerts: bool,
                                     weeklySummary: bool, monthlyReport: bool)

  /** The `??` defaults: only a missing preference is replaced, so a stored `false` stays
      `false`. */
  function LoadPreferences(p: StoredPreferences): (r: Preferences)
    ensures p.emailNotifications.None? ==> r.emailNotifications
    ensures p.budgetAlerts.None? ==> r.budgetAlerts
    ensures p.weeklySummary.None? ==> !r.weeklySummary
    ensures p.monthlyReport.None? ==> r.monthlyReport
    ensures p.emailNotifications.Some? ==> r.emailNotifications == p.emailNotifications.value
    ensures p.budgetAlerts.Some? ==> r.budgetAlerts == p.budgetAlerts.value
    ensures p.weeklySummary.Some? ==> r.weeklySummary == p.weeklySummary.value
    ensures p.monthlyReport.Some? ==> r.monthlyReport == p.monthlyReport.value
  {
    Preferences(p.emailNotifications.GetOr(true), p.budgetAlerts.GetOr(true),
                p.weeklySummary.GetOr(false), p.monthlyReport.GetOr(true))
  }

  function Stored(r: Preferences): StoredPreferences {
    StoredPreferences(Some(r.emailNotifications), Some(r.budgetAlerts), Some(r.weeklySummary), Some(r.monthlyReport))
  }

  /** Saving the loaded preferences and loading them again gives the same preferences:
      the defaults settle after one load. */
  lemma PreferencesRoundTrip(p: StoredPreferences)
    ensures LoadPreferences(Stored(LoadPreferences(p))) == LoadPreferences(p)
    ensures p.emailNotifications.Some? && p.budgetAlerts.Some? && p.weeklySummary.Some? && p.monthlyReport.Some?
            ==> Stored(LoadPreferences(p)) == p
  {
  }

  /** The stored financial fields as the profile form shows them. */
  datatype FinancialSettings = FinancialSettings(currency: string, monthlyIncome: string,
                                                 monthlyBudget: string, savingsGoal: string)

  /** `profile.currency || 'INR'` and `|| ''` for the three amounts. */
  function LoadFinancial(currency: Option<string>, income: Option<string>, budget: Option<string>,
                         goal: Option<string>): (r: FinancialSettings)
    ensures r.currency == if Text.Truthy(currency) then currency.value else "INR"
    ensures r.monthlyIncome == if Text.Truthy(income) then income.value else ""
    ensures r.monthlyBudget == if Text.Truthy(budget) then budget.value else ""
    ensures r.savingsGoal == if Text.Truthy(goal) then goal.value else ""
  {
    FinancialSettings(if Text.Truthy(currency) then currency.value else "INR",
                      if Text.Truthy(income) then income.value else "",
                      if Text.Truthy(budget) then budget.value else "",
                      if Text.Truthy(goal) then goal.value else "")
  }

  /** An amount in the save body: the number `0`, or the text entered. */
  datatype Amount = Zero | Entered(text: string)

  /** `value || 0`. */
  function AmountOf(s: string): (a: Amount)
    ensures a == Zero <==> s == ""
    ensures a != Zero ==> a.text == s
  {
    if s == "" then Zero else Entered(s)
  }

  datatype FinancialPayload = FinancialPayload(currency: string, monthlyIncome: Amount,
                                               monthlyBudget: Amount, savingsGoal: Amount)

  /** `handleSaveFinancialSettings`'s profile body: empty amounts go as 0. */
  function FinancialPayloadOf(f: FinancialSettings): (p: FinancialPayload)
    ensures p.currency == f.currency
    ensures f.monthlyIncome == "" <==> p.monthlyIncome == Zero
    ensures f.monthlyBudget == "" <==> p.monthlyBudget == Zero
    ensures f.savingsGoal == "" <==> p.savingsGoal == Zero
  {
    FinancialPayload(f.currency, AmountOf(f.monthlyIncome), AmountOf(f.monthlyBudget), AmountOf(f.savingsGoal))
  }

  /** A profile without the amounts loads as empty fields and saves them as 0. */
  lemma MissingAmountsSaveAsZero(currency: Option<string>)
    ensures var p := FinancialPayloadOf(LoadFinancial(currency, None, None, None));
            p.monthlyIncome == Zero && p.monthlyBudget == Zero && p.savingsGoal == Zero
  {
  }

  /** What a password-change submission led to. */
  datatype ChangeResult = TooShort | Mismatch | Requested(oldPassword: string, newPassword: string, confirm: string)

  class PasswordForm {
    var oldPassword: string
    var newPassword: string
    var newPasswordConfirm: string

    constructor()
      ensures oldPassword == "" && newPassword == "" && newPasswordConfirm == ""
    {
      oldPassword, newPassword, newPasswordConfirm := "", "", "";
    }

    /** `handleChangePassword`: a new password shorter than 6 is refused before the
        mismatch check; only a form passing both reaches the service, and a change the
        server accepts (`ok`) clears all three fields. */
    method HandleChangePassword(ok: bool) returns (result: ChangeResult)
      modifies this
      ensures |old(newPassword)| < 6 <==> result == TooShort
      ensures result == Mismatch <==> |old(newPassword)| >= 6 && old(newPassword) != old(newPasswordConfirm)
      ensures result.Requested? ==> result == Requested(old(oldPassword), old(newPassword), old(newPasswordConfirm))
                                    && result.newPassword == result.confirm && |result.newPassword| >= 6
      ensures result.Requested? && ok ==> oldPassword == "" && newPassword == "" && newPasswordConfirm == ""
      ensures !(result.Requested? && ok) ==>
                oldPassword == old(oldPassword) && newPassword == old(newPassword)
                && newPasswordConfirm == old(newPasswordConfirm)
    {
      if |newPassword| < 6 {
        return TooShort;
      }
      if newPassword != newPasswordConfirm {
        return Mismatch;
      }
      result := Requested(oldPassword, newPassword, newPasswordConfirm);
      if ok {
        oldPassword, newPassword, newPasswordConfirm := "", "", "";
      }
    }
  }
}
