/**
 The category registry: display name and icon for every category code,
 grouped as the registry groups them into expense and income categories.
 Both lookups are total: an unknown code
 (a retired category, an imported record) falls back to "Other" and the
 pushpin icon.
 */
module Categories {

  /** The registry's expense group. */
  const ExpenseCategories: seq<string> :=
    ["food", "transport", "shopping", "entertainment", "health", "bills", "education", "travel", "other"]

  /** The registry's income group. */
  const IncomeCategories: seq<string> :=
    ["salary", "freelance", "business", "investment", "bonus", "gift", "refund", "other-income"]

  /** The pushpin, shared by both "other" codes and used as the fallback. */
  const Pin: string := "\U{1F4CC}"

  const Emojis: map<string, string> := map[
    "food" := "\U{1F37D}\U{FE0F}",
    "transport" := "\U{1F697}",
    "shopping" := "\U{1F6CD}\U{FE0F}",
    "entertainment" := "\U{1F3AC}",
    "health" := "\U{1F3E5}",
    "bills" := "\U{1F4CB}",
    "education" := "\U{1F4DA}",
    "travel" := "\U{2708}\U{FE0F}",
    "other" := Pin,
    "salary" := "\U{1F4BC}",
    "freelance" := "\U{1F4BB}",
    "business" := "\U{1F3E2}",
    "investment" := "\U{1F4C8}",
    "bonus" := "\U{1F381}",
    "gift" := "\U{1F389}",
    "refund" := "\U{1F504}",
    "other-income" := Pin
  ]

  const Names: map<string, string> := map[
    "food" := "Food & Dining",
    "transport" := "Transportation",
    "shopping" := "Shopping",
    "entertainment" := "Entertainment",
    "health" := "Healthcare",
    "bills" := "Bills & Utilities",
    "education" := "Education",
    "travel" := "Travel",
    "other" := "Other",
    "salary" := "Salary",
    "freelance" := "Freelance",
    "business" := "Business",
    "investment" := "Investment",
    "bonus" := "Bonus",
    "gift" := "Gift",
    "refund" := "Refund",
    "other-income" := "Other Income"
  ]

  /** `getCategoryEmoji`. */
  function CategoryEmoji(code: string): (r: string)
    ensures r != ""
  {
    if code in Emojis then Emojis[code] else Pin
  }

  /** `getCategoryName`. */
  function CategoryName(code: string): (r: string)
    ensures r != ""
  {
    if code in Names then Names[code] else "Other"
  }

  /**
   Icons and names are kept for the same codes, which are exactly those of
   the registry's expense and income groups; no code is in both groups.
   */
  lemma RegistryCoversForms()
    ensures Emojis.Keys == Names.Keys
    ensures forall c :: c in Names <==> c in ExpenseCategories || c in IncomeCategories
    ensures forall c :: c in ExpenseCategories ==> c !in IncomeCategories
  {
  }

  /** "Other" is shown for the `other` code and for every code the registry does not know. */
  lemma NameFallback(code: string)
    ensures CategoryName(code) == "Other" <==> code == "other" || code !in Names
  {
  }

  /** The pushpin is shown for the two "other" codes and for every unknown code. */
  lemma EmojiFallback(code: string)
    ensures CategoryEmoji(code) == Pin <==> code == "other" || code == "other-income" || code !in Emojis
  {
  }

  /** No two known categories share a display name. */
  lemma NamesDistinct(a: string, b: string)
    requires a in Names && b in Names && a != b
    ensures CategoryName(a) != CategoryName(b)
  {
  }
}
