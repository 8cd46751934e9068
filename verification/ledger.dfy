/**
 The records of the expense tracker and the calendar arithmetic they need.

 A transaction is stored with its `type` as a string ("income" or
 "expense" when entered through the form; imported data is not checked),
 its amount in integer cents, a calendar date and a snapshot of the
 currency that was active when it was recorded.
 */
module Ledger {
  import opened Seqs

  const Income: string := "income"
  const Expense: string := "expense"

  /** A calendar date as entered in a `YYYY-MM-DD` field. */
  datatype Date = Date(year: int, month: int, day: int)

  /** The currency snapshot embedded in every record. */
  datatype Currency = Currency(code: string, symbol: string, name: string, country: string)

  /** The active currency used when nothing has been stored yet. */
  const DefaultCurrency: Currency := Currency("USD", "$", "US Dollar", "United States")

  datatype Transaction = Transaction(
    id: int,
    kind: string,
    description: string,
    amount: int,
    category: string,
    date: Date,
    currency: Currency)

  /**
   Days since 1970-01-01 in the proleptic Gregorian calendar, counting
   years from 1 March so that a leap day is the last day of its year
   (January and February belong to the year before).
   */
  function DayNumber(d: Date): int {
    var y := if d.month <= 2 then d.year - 1 else d.year;
    MarchFirst(y) + DaysBeforeMonth((d.month + 9) % 12) + d.day - 1
  }

  /**
   Day number of 1 March of year `y`. Dafny's `/` and `%` on `int` round
   toward negative infinity for a positive divisor, which is what the
   era arithmetic needs for years before the epoch.
   */
  function MarchFirst(y: int): int {
    (y / 400) * 146097 + EraDays(y % 400) - 719468
  }

  /**
   Days from 1 March of the first year of a 400-year era to 1 March of its
   year `r`: 365 a year plus the leap days in between.
   */
  function EraDays(r: int): int {
    r * 365 + r / 4 - r / 100
  }

  /** Days from 1 March to the first of the month `k` months later (0 = March, 11 = February). */
  function DaysBeforeMonth(k: int): int {
    (153 * k + 2) / 5
  }

  /** `Date.prototype.getDay` on a day number: 0 is Sunday; 1970-01-01 was a Thursday. */
  function DayOfWeek(n: int): (w: int)
    ensures 0 <= w < 7
    ensures (n - w) % 7 == 3
  {
    (n + 4) % 7
  }

  /** Gregorian leap years: every fourth year, except centuries not divisible by 400. */
  predicate IsLeapYear(y: int) {
    y % 4 == 0 && (y % 100 != 0 || y % 400 == 0)
  }

  /** Number of days in month `m` of year `y`. */
  function DaysInMonth(y: int, m: int): (n: int)
    requires 1 <= m <= 12
    ensures 28 <= n <= 31
    ensures n == 29 <==> m == 2 && IsLeapYear(y)
  {
    if m == 2 then (if IsLeapYear(y) then 29 else 28)
    else if m == 4 || m == 6 || m == 9 || m == 11 then 30
    else 31
  }

  /** 1970-01-01, a Thursday, is day 0. */
  lemma DayNumberEpoch()
    ensures DayNumber(Date(1970, 1, 1)) == 0
    ensures DayOfWeek(DayNumber(Date(1970, 1, 1))) == 4
  {
  }

  /** Within a month, the next day of the month is the next day number. */
  lemma DayNumberNextDay(y: int, m: int, d: int)
    requires 1 <= m <= 12
    ensures DayNumber(Date(y, m, d + 1)) == DayNumber(Date(y, m, d)) + 1
  {
  }

  /**
   The first of the next month (1 January of the next year after
   December) follows the last day of the month, leap years included.
   */
  lemma {:induction false} DayNumberNextMonth(y: int, m: int)
    requires 1 <= m <= 12
    ensures var next := if m == 12 then Date(y + 1, 1, 1) else Date(y, m + 1, 1);
      DayNumber(next) == DayNumber(Date(y, m, DaysInMonth(y, m))) + 1
  {
    if m == 2 {
      MarchFollowsFebruary(y);
    } else if m == 1 || m == 12 {
      WinterMonthEnds(y);
    } else {
      SpringToAutumnMonthEnd(y, m);
    }
  }

  /** From March to November, a month's last day is followed by the first of the next. */
  lemma SpringToAutumnMonthEnd(y: int, m: int)
    requires 3 <= m <= 11
    ensures DayNumber(Date(y, m + 1, 1)) == DayNumber(Date(y, m, DaysInMonth(y, m))) + 1
  {
    var k := m - 3;
    assert (m + 9) % 12 == k && (m + 1 + 9) % 12 == k + 1;
    assert DaysBeforeMonth(k + 1) - DaysBeforeMonth(k) == DaysInMonth(y, m);
  }

  /** 31 January is followed by 1 February, and 31 December by 1 January of the next year. */
  lemma WinterMonthEnds(y: int)
    ensures DayNumber(Date(y, 2, 1)) == DayNumber(Date(y, 1, 31)) + 1
    ensures DayNumber(Date(y + 1, 1, 1)) == DayNumber(Date(y, 12, 31)) + 1
  {
    assert DaysBeforeMonth(9) == 275 && DaysBeforeMonth(10) == 306 && DaysBeforeMonth(11) == 337;
  }

  /** Inside an era, a year is one day longer exactly when the year it ends in is a leap year. */
  lemma EraDaysStep(r: int)
    requires 0 <= r < 399
    ensures EraDays(r + 1) - EraDays(r)
         == 365 + (if (r + 1) % 4 == 0 then 1 else 0) - (if (r + 1) % 100 == 0 then 1 else 0)
  {
  }

  /** Whole eras do not change a year's leap-year remainders. */
  lemma EraShift(a: int, m: int)
    ensures (a + 400 * m) % 4 == a % 4
    ensures (a + 400 * m) % 100 == a % 100
  {
    RemainderUnique(a + 400 * m, 4, a / 4 + 100 * m, a % 4);
    RemainderUnique(a + 400 * m, 100, a / 100 + 4 * m, a % 100);
  }

  /**
   Quotient and remainder are determined by any decomposition
   `x == k * q + r` with `0 <= r < k`.
   */
  lemma RemainderUnique(x: int, k: int, q: int, r: int)
    requires k > 0 && x == k * q + r && 0 <= r < k
    ensures x / k == q && x % k == r
  {
    var q' := x / k;
    assert x == k * q' + x % k;
    MultipleBounds(k, q' - q);
    assert k * q' - k * q == k * (q' - q);
  }

  /** A multiple `k * d` of a positive `k` is at least `k` away from 0 unless `d` is 0. */
  lemma MultipleBounds(k: int, d: int)
    requires k > 0
    ensures d >= 1 ==> k * d >= k
    ensures d <= -1 ==> k * d <= -k
  {
    if d >= 1 {
      MultipleAtLeast(k, d);
    } else if d <= -1 {
      MultipleAtLeast(k, -d);
      assert k * d == -(k * (-d));
    }
  }

  /** A positive multiple of a positive number is at least that number. */
  lemma {:induction false} MultipleAtLeast(k: int, d: int)
    requires k > 0 && d >= 1
    ensures k * d >= k
    decreases d
  {
    if d > 1 {
      MultipleAtLeast(k, d - 1);
      assert k * d == k * (d - 1) + k;
    }
  }

  /**
   From 1 March of the year before `y` to 1 March of `y` there are 365
   days, plus one when `y` is a leap year.
   */
  lemma {:induction false} YearLength(y: int)
    ensures MarchFirst(y) - MarchFirst(y - 1) == if IsLeapYear(y) then 366 else 365
  {
    var e := (y - 1) / 400;
    var r := (y - 1) % 400;
    if r == 399 {
      EraEndYearLength(y, e);
    } else {
      InEraYearLength(y, e, r);
    }
  }

  /** A year divisible by 400 closes an era and is a leap year. */
  lemma EraEndYearLength(y: int, e: int)
    requires y == 400 * (e + 1)
    ensures IsLeapYear(y)
    ensures MarchFirst(y) - MarchFirst(y - 1) == 366
  {
    RemainderUnique(y, 400, e + 1, 0);
    RemainderUnique(y - 1, 400, e, 399);
    RemainderUnique(y, 4, 100 * (e + 1), 0);
    RemainderUnique(y, 100, 4 * (e + 1), 0);
    assert EraDays(399) == 145731;
  }

  /** Any other year is as long as the year of its era says. */
  lemma InEraYearLength(y: int, e: int, r: int)
    requires 0 <= r < 399 && y == 400 * e + r + 1
    ensures MarchFirst(y) - MarchFirst(y - 1) == if IsLeapYear(y) then 366 else 365
  {
    RemainderUnique(y, 400, e, r + 1);
    RemainderUnique(y - 1, 400, e, r);
    InEraLeapYear(y, e, r);
    EraDaysStep(r);
  }

  /** Inside an era, a year is a leap year as its year of era is. */
  lemma InEraLeapYear(y: int, e: int, r: int)
    requires 0 <= r < 399 && y == 400 * e + r + 1
    ensures IsLeapYear(y) <==> (r + 1) % 4 == 0 && (r + 1) % 100 != 0
  {
    RemainderUnique(y, 400, e, r + 1);
    EraShift(r + 1, e);
  }

  /** 1 March of `y` follows the last day of February of `y`, 28 or 29. */
  lemma MarchFollowsFebruary(y: int)
    ensures DayNumber(Date(y, 3, 1)) == DayNumber(Date(y, 2, DaysInMonth(y, 2))) + 1
  {
    var last := DaysInMonth(y, 2);
    assert DaysBeforeMonth(0) == 0 && DaysBeforeMonth(11) == 337;
    assert DayNumber(Date(y, 3, 1)) == MarchFirst(y);
    assert DayNumber(Date(y, 2, last)) == MarchFirst(y - 1) + 336 + last;
    YearLength(y);
  }

  /** 2000-01-02 was a Sunday: weekday 0 is Sunday. */
  lemma SundayAnchor()
    ensures DayNumber(Date(2000, 1, 2)) == 10958
    ensures DayOfWeek(DayNumber(Date(2000, 1, 2))) == 0
  {
  }

  /** Sum of the amounts of `s`. */
  function Sum(s: seq<Transaction>): int {
    if |s| == 0 then 0 else s[0].amount + Sum(s[1..])
  }

  lemma {:induction false} SumConcat(a: seq<Transaction>, b: seq<Transaction>)
    ensures Sum(a + b) == Sum(a) + Sum(b)
  {
    if |a| == 0 {
      assert a + b == b;
    } else {
      assert (a + b)[1..] == a[1..] + b;
      SumConcat(a[1..], b);
    }
  }

  /** The kept and the dropped part of a filter together carry the whole sum. */
  lemma {:induction false} SumSplit(s: seq<Transaction>, p: Transaction -> bool, notP: Transaction -> bool)
    requires forall t :: notP(t) == !p(t)
    ensures Sum(Filter(s, p)) + Sum(Filter(s, notP)) == Sum(s)
  {
    if |s| > 0 {
      SumSplit(s[1..], p, notP);
    }
  }

  /** With no negative amount, a filtered sum never exceeds the whole sum. */
  lemma {:induction false} SumFilterBounded(s: seq<Transaction>, p: Transaction -> bool)
    requires forall i :: 0 <= i < |s| ==> s[i].amount >= 0
    ensures 0 <= Sum(Filter(s, p)) <= Sum(s)
  {
    if |s| > 0 {
      SumFilterBounded(s[1..], p);
    }
  }

  /** Sums of selections nested in one another are ordered when no amount is negative. */
  lemma {:induction false} SumMonotone(s: seq<Transaction>, p: Transaction -> bool, q: Transaction -> bool)
    requires forall i :: 0 <= i < |s| ==> s[i].amount >= 0
    requires forall t :: p(t) ==> q(t)
    ensures 0 <= Sum(Filter(s, p)) <= Sum(Filter(s, q))
  {
    if |s| > 0 {
      SumMonotone(s[1..], p, q);
    }
  }

  /** A non-empty list of positive amounts has a positive sum. */
  lemma {:induction false} SumPositive(s: seq<Transaction>)
    requires |s| > 0
    requires forall i :: 0 <= i < |s| ==> s[i].amount > 0
    ensures Sum(s) > 0
  {
    if |s| > 1 {
      SumPositive(s[1..]);
    }
  }

  function InCurrency(code: string): Transaction -> bool {
    (t: Transaction) => t.currency.code == code
  }

  function OfKind(kind: string): Transaction -> bool {
    (t: Transaction) => t.kind == kind
  }

  function InCategory(c: string): Transaction -> bool {
    (t: Transaction) => t.category == c
  }

  /** The records recorded in the currency whose code is `code`. */
  function ByCurrency(s: seq<Transaction>, code: string): seq<Transaction> {
    Filter(s, InCurrency(code))
  }

  /** Sum of the amounts of the records whose type is `kind`. */
  function SumOfKind(s: seq<Transaction>, kind: string): int {
    Sum(Filter(s, OfKind(kind)))
  }

  /** Inserting a record anywhere leaves the currency partition as the record's own currency allows. */
  lemma ByCurrencyInsert(a: seq<Transaction>, t: Transaction, b: seq<Transaction>, code: string)
    ensures t.currency.code != code ==> ByCurrency(a + [t] + b, code) == ByCurrency(a + b, code)
    ensures t.currency.code == code ==> ByCurrency(a + [t] + b, code) == ByCurrency(a, code) + [t] + ByCurrency(b, code)
  {
    var p := InCurrency(code);
    FilterConcat(a + [t], b, p);
    FilterConcat(a, [t], p);
    FilterConcat(a, b, p);
    FilterSingleton(t, p);
  }

}
