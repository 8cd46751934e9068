/**
 The summary cards: total income, total expenses, net balance, and the
 expenses of the current month and week, all over the records whose
 embedded currency code equals the active one. Records in other
 currencies are never converted; they are left out.
 */
module Aggregate {
  import opened Seqs
  import opened Ledger
  import opened Windows

  datatype Summary = Summary(income: int, expenses: int, balance: int, monthly: int, weekly: int)

  function MonthlyExpense(now: Date): Transaction -> bool {
    (t: Transaction) => t.kind == Expense && InMonth(t.date, now)
  }

  function WeeklyExpense(now: Date): Transaction -> bool {
    (t: Transaction) => t.kind == Expense && InWeek(t.date, now)
  }

  function IncomeOrExpense(): Transaction -> bool {
    (t: Transaction) => t.kind == Income || t.kind == Expense
  }

  /**
   The five figures of the summary for active currency `code` at local
   date `now`.
   */
  function Summarize(txs: seq<Transaction>, code: string, now: Date): (r: Summary)
    ensures r.balance == r.income - r.expenses
    ensures r.income + r.expenses == Sum(Filter(ByCurrency(txs, code), IncomeOrExpense()))
  {
    var current := ByCurrency(txs, code);
    var income := SumOfKind(current, Income);
    var expenses := SumOfKind(current, Expense);
    KindsPartitionSum(current);
    Summary(income, expenses, income - expenses,
            Sum(Filter(current, MonthlyExpense(now))),
            Sum(Filter(current, WeeklyExpense(now))))
  }

  /** Income and expense sums together are the sum over records of either type. */
  lemma {:induction false} KindsPartitionSum(s: seq<Transaction>)
    ensures SumOfKind(s, Income) + SumOfKind(s, Expense) == Sum(Filter(s, IncomeOrExpense()))
  {
    if |s| > 0 {
      KindsPartitionSum(s[1..]);
    }
  }

  /**
   With no negative amount among the active-currency records, the month
   and week figures are parts of the expense total, and income and
   expenses are not negative.
   */
  lemma SummaryBounds(txs: seq<Transaction>, code: string, now: Date)
    requires forall i :: 0 <= i < |txs| ==> txs[i].amount >= 0
    ensures var r := Summarize(txs, code, now);
      && 0 <= r.monthly <= r.expenses
      && 0 <= r.weekly <= r.expenses
      && 0 <= r.income
  {
    var current := ByCurrency(txs, code);
    FilterContents(txs, InCurrency(code));
    assert forall i :: 0 <= i < |current| ==> current[i].amount >= 0 by {
      forall i | 0 <= i < |current|
        ensures current[i].amount >= 0
      {
        assert current[i] in txs;
      }
    }
    SumMonotone(current, MonthlyExpense(now), OfKind(Expense));
    SumMonotone(current, WeeklyExpense(now), OfKind(Expense));
    SumFilterBounded(current, OfKind(Income));
  }

  /** Selecting the active currency twice is selecting it once. */
  lemma ByCurrencyIdempotent(s: seq<Transaction>, code: string)
    ensures ByCurrency(ByCurrency(s, code), code) == ByCurrency(s, code)
  {
    FilterKeepsAll(ByCurrency(s, code), InCurrency(code));
  }

  /** The summary depends only on the records in the active currency. */
  lemma SummaryOnlyActiveCurrency(txs: seq<Transaction>, code: string, now: Date)
    ensures Summarize(txs, code, now) == Summarize(ByCurrency(txs, code), code, now)
  {
    ByCurrencyIdempotent(txs, code);
  }

  /**
   Adding (or, read backwards, removing) a record in another currency
   anywhere in the list leaves every figure of the summary unchanged.
   */
  lemma ForeignRecordIgnored(a: seq<Transaction>, t: Transaction, b: seq<Transaction>, code: string, now: Date)
    requires t.currency.code != code
    ensures Summarize(a + [t] + b, code, now) == Summarize(a + b, code, now)
  {
    ByCurrencyInsert(a, t, b, code);
  }

  /** One step of a left-to-right fold over a two-level selection. */
  lemma SelectedSumStep(prefix: seq<Transaction>, t: Transaction, p: Transaction -> bool, q: Transaction -> bool)
    ensures Sum(Filter(Filter(prefix + [t], p), q))
         == Sum(Filter(Filter(prefix, p), q)) + (if p(t) && q(t) then t.amount else 0)
  {
    FilterConcat(prefix, [t], p);
    FilterSingleton(t, p);
    var inner := Filter(prefix, p);
    var last := Filter([t], p);
    FilterConcat(inner, last, q);
    SumConcat(Filter(inner, q), Filter(last, q));
    if p(t) {
      FilterSingleton(t, q);
    }
  }

  /**
   Appending a record to the list adds its amount to each figure it
   qualifies for (income, expenses, and for an expense the month and week
   it falls in) and leaves the other figures as they were.
   */
  lemma SummarizeStep(prefix: seq<Transaction>, t: Transaction, code: string, now: Date)
    ensures var before := Summarize(prefix, code, now);
      var mine := t.currency.code == code;
      var inc := if mine && t.kind == Income then t.amount else 0;
      var exp := if mine && t.kind == Expense then t.amount else 0;
      Summarize(prefix + [t], code, now) == Summary(
        before.income + inc,
        before.expenses + exp,
        before.balance + inc - exp,
        before.monthly + (if mine && t.kind == Expense && InMonth(t.date, now) then t.amount else 0),
        before.weekly + (if mine && t.kind == Expense && InWeek(t.date, now) then t.amount else 0))
  {
    SelectedSumStep(prefix, t, InCurrency(code), OfKind(Income));
    SelectedSumStep(prefix, t, InCurrency(code), OfKind(Expense));
    SelectedSumStep(prefix, t, InCurrency(code), MonthlyExpense(now));
    SelectedSumStep(prefix, t, InCurrency(code), WeeklyExpense(now));
  }

  /**
   The summary computed in one pass over the list, as the five
   filter-and-reduce chains of the page do between them.
   */
  method ComputeSummary(txs: seq<Transaction>, code: string, now: Date) returns (r: Summary)
    ensures r == Summarize(txs, code, now)
  {
    var income, expenses, monthly, weekly := 0, 0, 0, 0;
    var i := 0;
    while i < |txs|
      invariant 0 <= i <= |txs|
      invariant Summary(income, expenses, income - expenses, monthly, weekly) == Summarize(txs[..i], code, now)
    {
      var t := txs[i];
      assert txs[..i + 1] == txs[..i] + [t];
      SummarizeStep(txs[..i], t, code, now);
      var mine := t.currency.code == code;
      var inc := if mine && t.kind == Income then t.amount else 0;
      var exp := if mine && t.kind == Expense then t.amount else 0;
      income, expenses := income + inc, expenses + exp;
      monthly := monthly + if mine && t.kind == Expense && InMonth(t.date, now) then t.amount else 0;
      weekly := weekly + if mine && t.kind == Expense && InWeek(t.date, now) then t.amount else 0;
      i := i + 1;
    }
    assert txs[..i] == txs;
    r := Summary(income, expenses, income - expenses, monthly, weekly);
  }
}
