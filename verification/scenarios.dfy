/**
 Worked examples of the whole pipeline: a form submitted into an empty
 list, then the summary and the breakdown of the result.
 */
module Scenarios {
  import opened Outcomes
  import opened Seqs
  import opened Ledger
  import opened Windows
  import opened Aggregate
  import opened Breakdown
  import opened Store

  const Usd: Currency := DefaultCurrency
  const Eur: Currency := Currency("EUR", "\U{20AC}", "Euro", "European Union")

  const Coffee: Transaction := Transaction(1, Expense, "Coffee", 450, "food", Date(2024, 1, 15), Usd)

  /** Submitting a coffee of 4.50 USD into an empty list stores the trimmed record. */
  lemma CoffeeSubmitted()
    ensures var added := Submit([], Form(Expense, " Coffee ", Some(450), "food", Some(Date(2024, 1, 15))), 1, Usd);
      && added.outcome.Success?
      && added.transactions == [Coffee]
  {
    var f := Form(Expense, " Coffee ", Some(450), "food", Some(Date(2024, 1, 15)));
    assert LeadingSpace(" Coffee ") == 1;
    assert TrailingSpace(" Coffee ") == 1;
    assert Trim(" Coffee ") == "Coffee";
    assert !IsTrimmed(f.description[1]);
  }

  /** With only the coffee stored, the USD expense total is 4.50. */
  lemma CoffeeSummary(now: Date)
    ensures Summarize([Coffee], "USD", now).expenses == 450
  {
    assert [Coffee][1..] == [];
  }

  /** With only the coffee stored, the breakdown is food at 100%. */
  lemma CoffeeBreakdown()
    ensures CategoryBreakdown([Coffee], "USD") == Shares([Share("food", 450, 100.0)])
  {
    var txs := [Coffee];
    assert txs[1..] == [];
    assert ActiveExpenses(txs, "USD") == txs;
    assert AddTo([], "food", 450) == [Entry("food", 450)];
    assert CategoryTotals(txs) == TotalsFrom(AddTo([], Coffee.category, Coffee.amount), txs[1..]);
    assert CategoryTotals(txs) == [Entry("food", 450)];
    assert [Entry("food", 450)][1..] == [];
    assert SortDesc([Entry("food", 450)]) == [Entry("food", 450)];
    assert Total([Entry("food", 450)]) == 450;
  }

  const Rent: Transaction := Transaction(2, Expense, "Rent", 30000, "bills", Date(2024, 1, 2), Usd)
  const Pay: Transaction := Transaction(1, Income, "Pay", 100000, "salary", Date(2024, 1, 1), Usd)
  const Train: Transaction := Transaction(3, Expense, "Train", 5000, "transport", Date(2024, 1, 16), Eur)

  /**
   An income of 1000.00 and an expense of 300.00 in USD this month, and
   an expense of 50.00 in EUR: the USD summary ignores the EUR record and
   shows a balance of 700.00 and monthly expenses of 300.00.
   */
  lemma MonthScenario()
    ensures Summarize([Train, Rent, Pay], "USD", Date(2024, 1, 17)) == Summary(100000, 30000, 70000, 30000, 0)
  {
    var now := Date(2024, 1, 17);
    ForeignRecordIgnored([], Train, [Rent, Pay], "USD", now);
    assert [] + [Train] + [Rent, Pay] == [Train, Rent, Pay];
    assert [] + [Rent, Pay] == [Rent, Pay];
    UsdSummary();
  }

  lemma UsdSummary()
    ensures Summarize([Rent, Pay], "USD", Date(2024, 1, 17)) == Summary(100000, 30000, 70000, 30000, 0)
  {
    var now := Date(2024, 1, 17);
    var usd := [Rent, Pay];
    assert usd[1..] == [Pay] && [Pay][1..] == [];
    FilterKeepsAll(usd, InCurrency("USD"));
    assert ByCurrency(usd, "USD") == usd;
    FilterSingleton(Pay, OfKind(Income));
    FilterSingleton(Pay, OfKind(Expense));
    assert Filter(usd, OfKind(Income)) == Filter([Pay], OfKind(Income));
    assert Filter(usd, OfKind(Income)) == [Pay];
    assert Sum([Pay]) == Pay.amount + Sum([Pay][1..]);
    assert SumOfKind(usd, Income) == 100000;
    assert Filter(usd, OfKind(Expense)) == [Rent];
    assert SumOfKind(usd, Expense) == 30000;
    assert Sum(Filter(usd, MonthlyExpense(now))) == 30000;
    RentNotThisWeek();
    assert Sum(Filter(usd, WeeklyExpense(now))) == 0;
  }

  lemma RentNotThisWeek()
    ensures !InWeek(Date(2024, 1, 2), Date(2024, 1, 17))
  {
    January2024(17);
    January2024(2);
  }

  const Lunch: Transaction := Transaction(4, Expense, "Lunch", 2000, "food", Date(2024, 1, 4), Usd)
  const Power: Transaction := Transaction(5, Expense, "Power", 2000, "bills", Date(2024, 1, 3), Usd)

  /**
   Two categories with equal totals are shown in the order their first
   records have in the list, whichever list order that is.
   */
  lemma TiedCategoriesFirstSeenFirst()
    ensures CategoryBreakdown([Power, Lunch], "USD")
         == Shares([Share("bills", 2000, 50.0), Share("food", 2000, 50.0)])
    ensures CategoryBreakdown([Lunch, Power], "USD")
         == Shares([Share("food", 2000, 50.0), Share("bills", 2000, 50.0)])
  {
    TiedTotals(Power, Lunch);
    TiedTotals(Lunch, Power);
  }

  lemma TiedTotals(a: Transaction, b: Transaction)
    requires a.kind == Expense && b.kind == Expense
    requires a.currency.code == "USD" && b.currency.code == "USD"
    requires a.amount == b.amount == 2000 && a.category != b.category
    ensures CategoryBreakdown([a, b], "USD")
         == Shares([Share(a.category, 2000, 50.0), Share(b.category, 2000, 50.0)])
  {
    var txs := [a, b];
    assert txs[1..] == [b] && [b][1..] == [];
    FilterKeepsAll(txs, InCurrency("USD"));
    FilterKeepsAll(txs, OfKind(Expense));
    assert ActiveExpenses(txs, "USD") == txs;
    var ea, eb := Entry(a.category, 2000), Entry(b.category, 2000);
    assert AddTo([], a.category, 2000) == [ea];
    assert AddTo([ea], b.category, 2000) == [ea, eb];
    assert [ea, eb][1..] == [eb] && [eb][1..] == [];
    assert TotalsFrom([ea], [b]) == TotalsFrom([ea, eb], []);
    assert CategoryTotals(txs) == TotalsFrom([ea], [b]) == [ea, eb];
    assert SortDesc([eb]) == [eb];
    assert SortDesc([ea, eb]) == InsertDesc(ea, [eb]) == [ea, eb];
    assert Total([eb]) == 2000;
    assert Total([ea, eb]) == 4000;
  }

  const LunchForm: Form := Form(Expense, "Lunch", Some(2000), "food", Some(Date(2024, 1, 4)))
  const PowerForm: Form := Form(Expense, "Power", Some(2000), "bills", Some(Date(2024, 1, 3)))

  /**
   Submitting a lunch and then a power bill of 20.00 each: the newer
   record is prepended, so its category, bills, is shown on top.
   */
  lemma NewestTieOnTop()
    ensures var first := Submit([], LunchForm, 4, Usd);
      var second := Submit(first.transactions, PowerForm, 5, Usd);
      && second.outcome.Success?
      && second.transactions == [Power, Lunch]
      && CategoryBreakdown(second.transactions, "USD")
         == Shares([Share("bills", 2000, 50.0), Share("food", 2000, 50.0)])
  {
    LunchSubmitted();
    PowerSubmitted();
    TiedCategoriesFirstSeenFirst();
  }

  lemma LunchSubmitted()
    ensures Submit([], LunchForm, 4, Usd) == Submission([Lunch], Success(Lunch))
  {
    assert !IsTrimmed(LunchForm.description[0]);
    assert LeadingSpace("Lunch") == 0 && TrailingSpace("Lunch") == 0;
    assert Trim("Lunch") == "Lunch";
  }

  lemma PowerSubmitted()
    ensures Submit([Lunch], PowerForm, 5, Usd) == Submission([Power, Lunch], Success(Power))
  {
    assert !IsTrimmed(PowerForm.description[0]);
    assert LeadingSpace("Power") == 0 && TrailingSpace("Power") == 0;
    assert Trim("Power") == "Power";
  }
}
