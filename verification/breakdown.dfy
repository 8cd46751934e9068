/**
 The category breakdown card: the expense records of the active currency
 grouped by category, the groups ordered by total from largest to
 smallest, and each group's share of all expenses as a percentage.
 */
module Breakdown {
  import opened Seqs
  import opened Ledger

  /** One category's running or final total (a key of the totals object). */
  datatype Entry = Entry(category: string, amount: int)

  /** One rendered line of the breakdown. */
  datatype Share = Share(category: string, amount: int, percent: real)

  /** What the card shows: one of its two empty states, or the shares. */
  datatype Breakdown = NoData | NoExpenseData | Shares(items: seq<Share>)

  function Categories(es: seq<Entry>): set<string> {
    set i | 0 <= i < |es| :: es[i].category
  }

  function RecordCategories(s: seq<Transaction>): set<string> {
    set i | 0 <= i < |s| :: s[i].category
  }

  predicate DistinctCategories(es: seq<Entry>) {
    forall i, j :: 0 <= i < j < |es| ==> es[i].category != es[j].category
  }

  /** Sum of the entry amounts. */
  function Total(es: seq<Entry>): int {
    if |es| == 0 then 0 else es[0].amount + Total(es[1..])
  }

  /** The amount kept for category `c`; 0 when there is no entry for it (the `|| 0` default). */
  function Lookup(es: seq<Entry>, c: string): int {
    if |es| == 0 then 0
    else if es[0].category == c then es[0].amount
    else Lookup(es[1..], c)
  }

  /** Sum of the amounts of the records filed under category `c`. */
  function CategorySum(s: seq<Transaction>, c: string): int {
    Sum(Filter(s, InCategory(c)))
  }

  lemma CategoriesOfCons(e: Entry, es: seq<Entry>)
    ensures Categories([e] + es) == {e.category} + Categories(es)
  {
    var xs := [e] + es;
    forall c | c in Categories(xs)
      ensures c in {e.category} + Categories(es)
    {
      var i :| 0 <= i < |xs| && xs[i].category == c;
      if i > 0 {
        assert es[i - 1].category == c;
      }
    }
    forall c | c in Categories(es)
      ensures c in Categories(xs)
    {
      var i :| 0 <= i < |es| && es[i].category == c;
      assert xs[i + 1].category == c;
    }
    assert xs[0].category == e.category;
  }

  lemma RecordCategoriesOfCons(s: seq<Transaction>)
    requires |s| > 0
    ensures RecordCategories(s) == {s[0].category} + RecordCategories(s[1..])
  {
    forall c | c in RecordCategories(s)
      ensures c in {s[0].category} + RecordCategories(s[1..])
    {
      var i :| 0 <= i < |s| && s[i].category == c;
      if i > 0 {
        assert s[1..][i - 1].category == c;
      }
    }
    forall c | c in RecordCategories(s[1..])
      ensures c in RecordCategories(s)
    {
      var i :| 0 <= i < |s[1..]| && s[1..][i].category == c;
      assert s[i + 1].category == c;
    }
  }

  /** A list with a new head has no repeated category iff its tail has none and the head's is new. */
  lemma DistinctOfCons(e: Entry, es: seq<Entry>)
    ensures DistinctCategories([e] + es) <==> DistinctCategories(es) && e.category !in Categories(es)
  {
    var xs := [e] + es;
    if DistinctCategories(xs) {
      forall i, j | 0 <= i < j < |es|
        ensures es[i].category != es[j].category
      {
        assert xs[i + 1] == es[i] && xs[j + 1] == es[j];
      }
      forall i | 0 <= i < |es|
        ensures es[i].category != e.category
      {
        assert xs[0] == e && xs[i + 1] == es[i];
      }
    }
    if DistinctCategories(es) && e.category !in Categories(es) {
      forall i, j | 0 <= i < j < |xs|
        ensures xs[i].category != xs[j].category
      {
        if i == 0 {
          assert xs[j] == es[j - 1];
        } else {
          assert xs[i] == es[i - 1] && xs[j] == es[j - 1];
        }
      }
    }
  }

  /**
   Adds `a` to the total of category `c`, creating the entry at the end
   (JavaScript keeps string keys in insertion order) when `c` is new.
   */
  function AddTo(es: seq<Entry>, c: string, a: int): (r: seq<Entry>)
    ensures |es| <= |r| <= |es| + 1
    ensures forall i :: 0 <= i < |es| ==> r[i].category == es[i].category
    ensures |r| == |es| + 1 ==> r[|es|] == Entry(c, a)
  {
    if |es| == 0 then [Entry(c, a)]
    else if es[0].category == c then [Entry(c, es[0].amount + a)] + es[1..]
    else [es[0]] + AddTo(es[1..], c, a)
  }

  lemma {:induction false} AddToCategories(es: seq<Entry>, c: string, a: int)
    ensures Categories(AddTo(es, c, a)) == Categories(es) + {c}
  {
    if |es| == 0 {
      CategoriesOfCons(Entry(c, a), []);
      assert [Entry(c, a)] == [Entry(c, a)] + [];
    } else {
      assert es == [es[0]] + es[1..];
      CategoriesOfCons(es[0], es[1..]);
      if es[0].category == c {
        CategoriesOfCons(Entry(c, es[0].amount + a), es[1..]);
      } else {
        AddToCategories(es[1..], c, a);
        CategoriesOfCons(es[0], AddTo(es[1..], c, a));
      }
    }
  }

  lemma {:induction false} AddToTotal(es: seq<Entry>, c: string, a: int)
    ensures Total(AddTo(es, c, a)) == Total(es) + a
  {
    if |es| > 0 {
      if es[0].category == c {
        assert ([Entry(c, es[0].amount + a)] + es[1..])[1..] == es[1..];
      } else {
        AddToTotal(es[1..], c, a);
        var r := AddTo(es[1..], c, a);
        assert ([es[0]] + r)[1..] == r;
      }
    }
  }

  lemma {:induction false} AddToLookup(es: seq<Entry>, c: string, a: int, k: string)
    ensures Lookup(AddTo(es, c, a), k) == Lookup(es, k) + (if k == c then a else 0)
  {
    if |es| > 0 {
      if es[0].category == c {
        assert ([Entry(c, es[0].amount + a)] + es[1..])[1..] == es[1..];
      } else {
        AddToLookup(es[1..], c, a, k);
        var r := AddTo(es[1..], c, a);
        assert ([es[0]] + r)[1..] == r;
      }
    }
  }

  lemma {:induction false} AddToDistinct(es: seq<Entry>, c: string, a: int)
    requires DistinctCategories(es)
    ensures DistinctCategories(AddTo(es, c, a))
  {
    if |es| > 0 {
      assert es == [es[0]] + es[1..];
      DistinctOfCons(es[0], es[1..]);
      if es[0].category == c {
        DistinctOfCons(Entry(c, es[0].amount + a), es[1..]);
      } else {
        AddToDistinct(es[1..], c, a);
        AddToCategories(es[1..], c, a);
        DistinctOfCons(es[0], AddTo(es[1..], c, a));
      }
    }
  }

  /** Folds the records `s`, in order, into the running totals `acc`. */
  function TotalsFrom(acc: seq<Entry>, s: seq<Transaction>): seq<Entry>
    decreases |s|
  {
    if |s| == 0 then acc
    else TotalsFrom(AddTo(acc, s[0].category, s[0].amount), s[1..])
  }

  /**
   Folding `s` into `acc` adds the categories of `s`, adds the sum of `s`
   to the total, adds to each category the sum of its records, and never
   repeats a category.
   */
  lemma {:induction false} TotalsFromCorrect(acc: seq<Entry>, s: seq<Transaction>, k: string)
    ensures Categories(TotalsFrom(acc, s)) == Categories(acc) + RecordCategories(s)
    ensures Total(TotalsFrom(acc, s)) == Total(acc) + Sum(s)
    ensures Lookup(TotalsFrom(acc, s), k) == Lookup(acc, k) + CategorySum(s, k)
    ensures DistinctCategories(acc) ==> DistinctCategories(TotalsFrom(acc, s))
    decreases |s|
  {
    if |s| > 0 {
      var next := AddTo(acc, s[0].category, s[0].amount);
      TotalsFromCorrect(next, s[1..], k);
      AddToCategories(acc, s[0].category, s[0].amount);
      AddToTotal(acc, s[0].category, s[0].amount);
      AddToLookup(acc, s[0].category, s[0].amount, k);
      if DistinctCategories(acc) {
        AddToDistinct(acc, s[0].category, s[0].amount);
      }
      RecordCategoriesOfCons(s);
    }
  }

  /** The per-category totals of `s`, in order of first appearance. */
  function CategoryTotals(s: seq<Transaction>): seq<Entry> {
    TotalsFrom([], s)
  }

  /**
   The position of the first record of category `c` in `s`, or `|s|` when
   no record has it: the least `k` with `s[k].category == c`.
   */
  function FirstIndex(s: seq<Transaction>, c: string): (k: nat)
    ensures k <= |s|
    ensures k < |s| ==> s[k].category == c
    ensures forall i :: 0 <= i < k ==> s[i].category != c
  {
    if |s| == 0 then 0
    else if s[0].category == c then 0
    else 1 + FirstIndex(s[1..], c)
  }

  /** A category has a first index inside `s` exactly when some record of `s` has it. */
  lemma FirstIndexFound(s: seq<Transaction>, c: string)
    ensures FirstIndex(s, c) < |s| <==> c in RecordCategories(s)
  {
    if c in RecordCategories(s) {
      var k :| 0 <= k < |s| && s[k].category == c;
    }
    if FirstIndex(s, c) < |s| {
      assert s[FirstIndex(s, c)].category in RecordCategories(s);
    }
  }

  /** Appending a record leaves every first index before it in place. */
  lemma {:induction false} FirstIndexSnoc(p: seq<Transaction>, t: Transaction, c: string)
    ensures FirstIndex(p + [t], c)
         == if FirstIndex(p, c) < |p| then FirstIndex(p, c)
            else if t.category == c then |p|
            else |p| + 1
  {
    if |p| == 0 {
      assert p + [t] == [t];
      assert [t][1..] == [];
    } else {
      assert (p + [t])[1..] == p[1..] + [t];
      FirstIndexSnoc(p[1..], t, c);
    }
  }

  /** Folding one more record is one more `AddTo`. */
  lemma {:induction false} TotalsFromSnoc(acc: seq<Entry>, p: seq<Transaction>, t: Transaction)
    ensures TotalsFrom(acc, p + [t]) == AddTo(TotalsFrom(acc, p), t.category, t.amount)
    decreases |p|
  {
    if |p| == 0 {
      assert p + [t] == [t];
      assert [t][1..] == [];
    } else {
      assert (p + [t])[1..] == p[1..] + [t];
      TotalsFromSnoc(AddTo(acc, p[0].category, p[0].amount), p[1..], t);
    }
  }

  /** The categories of `es` appear in the order their first records have in `s`. */
  predicate InFirstAppearanceOrder(es: seq<Entry>, s: seq<Transaction>) {
    forall i, j :: 0 <= i < j < |es| ==>
      FirstIndex(s, es[i].category) < FirstIndex(s, es[j].category)
  }

  /** A category already seen keeps its first index when a record is appended. */
  lemma SeenFirstIndex(es: seq<Entry>, p: seq<Transaction>, t: Transaction, i: int)
    requires Categories(es) == RecordCategories(p)
    requires 0 <= i < |es|
    ensures FirstIndex(p + [t], es[i].category) == FirstIndex(p, es[i].category) < |p|
  {
    assert es[i].category in Categories(es);
    FirstIndexFound(p, es[i].category);
    FirstIndexSnoc(p, t, es[i].category);
  }

  /** `AddTo` grows the list exactly when the category is new. */
  lemma {:induction false} AddToGrows(es: seq<Entry>, c: string, a: int)
    ensures |AddTo(es, c, a)| == |es| + 1 <==> c !in Categories(es)
  {
    if |es| == 0 {
      assert Categories(es) == {};
    } else {
      assert es == [es[0]] + es[1..];
      CategoriesOfCons(es[0], es[1..]);
      if es[0].category != c {
        AddToGrows(es[1..], c, a);
      }
    }
  }

  /** A key that `AddTo` appends is new, so its first record is the appended one. */
  lemma NewKeyLast(es: seq<Entry>, p: seq<Transaction>, t: Transaction)
    requires Categories(es) == RecordCategories(p)
    requires |AddTo(es, t.category, t.amount)| == |es| + 1
    ensures FirstIndex(p + [t], t.category) == |p|
  {
    AddToGrows(es, t.category, t.amount);
    FirstIndexFound(p, t.category);
    FirstIndexSnoc(p, t, t.category);
  }

  /**
   One more record keeps the totals in first-appearance order: the old
   keys keep their order, and a new key, appended last, is seen last.
   */
  lemma AddToKeepsOrder(es: seq<Entry>, p: seq<Transaction>, t: Transaction)
    requires InFirstAppearanceOrder(es, p)
    requires Categories(es) == RecordCategories(p)
    ensures InFirstAppearanceOrder(AddTo(es, t.category, t.amount), p + [t])
  {
    var next := AddTo(es, t.category, t.amount);
    forall i, j | 0 <= i < j < |next|
      ensures FirstIndex(p + [t], next[i].category) < FirstIndex(p + [t], next[j].category)
    {
      AddToPairOrder(es, p, t, i, j);
    }
  }

  lemma AddToPairOrder(es: seq<Entry>, p: seq<Transaction>, t: Transaction, i: int, j: int)
    requires InFirstAppearanceOrder(es, p)
    requires Categories(es) == RecordCategories(p)
    requires 0 <= i < j < |AddTo(es, t.category, t.amount)|
    ensures var next := AddTo(es, t.category, t.amount);
      FirstIndex(p + [t], next[i].category) < FirstIndex(p + [t], next[j].category)
  {
    SeenFirstIndex(es, p, t, i);
    if j < |es| {
      SeenFirstIndex(es, p, t, j);
    } else {
      NewKeyLast(es, p, t);
    }
  }

  /**
   The totals list the categories in the order of their first records,
   as the keys of the totals object are enumerated in insertion order.
   */
  lemma {:induction false} CategoryTotalsOrder(s: seq<Transaction>)
    ensures forall i, j :: 0 <= i < j < |CategoryTotals(s)| ==>
      FirstIndex(s, CategoryTotals(s)[i].category) < FirstIndex(s, CategoryTotals(s)[j].category)
    decreases |s|
  {
    if |s| > 0 {
      var p, t := s[..|s| - 1], s[|s| - 1];
      assert s == p + [t];
      CategoryTotalsOrder(p);
      TotalsFromSnoc([], p, t);
      var es := CategoryTotals(p);
      assert InFirstAppearanceOrder(es, p);
      TotalsFromCorrect([], p, "");
      assert Categories([]) == {};
      AddToKeepsOrder(es, p, t);
      assert InFirstAppearanceOrder(CategoryTotals(s), s);
    }
  }

  /** A set of categories is empty exactly when the entry list is. */
  lemma CategoriesEmpty(es: seq<Entry>)
    ensures Categories(es) == {} <==> |es| == 0
  {
    if |es| > 0 {
      assert es[0].category in Categories(es);
    }
  }

  lemma RecordCategoriesEmpty(s: seq<Transaction>)
    ensures RecordCategories(s) == {} <==> |s| == 0
  {
    if |s| > 0 {
      assert s[0].category in RecordCategories(s);
    }
  }

  /**
   The totals hold one entry per category of `s`, no category twice, in
   the order of each category's first record, the amount of each being
   the sum over that category's records, and all of them together the sum
   over `s`.
   */
  lemma CategoryTotalsCorrect(s: seq<Transaction>)
    ensures Categories(CategoryTotals(s)) == RecordCategories(s)
    ensures DistinctCategories(CategoryTotals(s))
    ensures forall i, j :: 0 <= i < j < |CategoryTotals(s)| ==>
      FirstIndex(s, CategoryTotals(s)[i].category) < FirstIndex(s, CategoryTotals(s)[j].category)
    ensures Total(CategoryTotals(s)) == Sum(s)
    ensures forall i :: 0 <= i < |CategoryTotals(s)| ==>
      CategoryTotals(s)[i].amount == CategorySum(s, CategoryTotals(s)[i].category)
  {
    var es := CategoryTotals(s);
    CategoryTotalsOrder(s);
    TotalsFromCorrect([], s, "");
    assert Categories([]) == {};
    forall i | 0 <= i < |es|
      ensures es[i].amount == CategorySum(s, es[i].category)
    {
      TotalsFromCorrect([], s, es[i].category);
      LookupDistinct(es, i);
    }
  }

  /** In a list without repeated categories, looking up an entry's category finds that entry. */
  lemma {:induction false} LookupDistinct(es: seq<Entry>, i: int)
    requires DistinctCategories(es)
    requires 0 <= i < |es|
    ensures Lookup(es, es[i].category) == es[i].amount
  {
    if i > 0 {
      assert es[0].category != es[i].category;
      LookupDistinct(es[1..], i - 1);
    }
  }

  /** Amounts never increase from front to back. */
  predicate SortedDesc(es: seq<Entry>) {
    forall i, j :: 0 <= i < j < |es| ==> es[i].amount >= es[j].amount
  }

  /**
   Inserts `x` before the first entry that is not larger, so that it
   precedes every entry of equal amount.
   */
  function InsertDesc(x: Entry, es: seq<Entry>): (r: seq<Entry>)
    ensures |r| == |es| + 1
    ensures multiset(r) == multiset(es) + multiset{x}
  {
    if |es| == 0 || es[0].amount <= x.amount then [x] + es
    else
      assert es == [es[0]] + es[1..];
      [es[0]] + InsertDesc(x, es[1..])
  }

  lemma {:induction false} InsertDescTotal(x: Entry, es: seq<Entry>)
    ensures Total(InsertDesc(x, es)) == Total(es) + x.amount
  {
    if |es| == 0 || es[0].amount <= x.amount {
      assert ([x] + es)[1..] == es;
    } else {
      InsertDescTotal(x, es[1..]);
      var rest := InsertDesc(x, es[1..]);
      assert ([es[0]] + rest)[1..] == rest;
    }
  }

  lemma {:induction false} InsertDescCategories(x: Entry, es: seq<Entry>)
    ensures Categories(InsertDesc(x, es)) == Categories(es) + {x.category}
    ensures DistinctCategories(es) && x.category !in Categories(es) ==> DistinctCategories(InsertDesc(x, es))
  {
    if |es| == 0 || es[0].amount <= x.amount {
      CategoriesOfCons(x, es);
      DistinctOfCons(x, es);
    } else {
      InsertDescCategories(x, es[1..]);
      var rest := InsertDesc(x, es[1..]);
      assert es == [es[0]] + es[1..];
      CategoriesOfCons(es[0], es[1..]);
      CategoriesOfCons(es[0], rest);
      DistinctOfCons(es[0], es[1..]);
      DistinctOfCons(es[0], rest);
    }
  }

  /** Inserting into a sorted list keeps it sorted. */
  lemma {:induction false} InsertDescSorted(x: Entry, es: seq<Entry>)
    requires SortedDesc(es)
    ensures SortedDesc(InsertDesc(x, es))
  {
    if !(|es| == 0 || es[0].amount <= x.amount) {
      var rest := InsertDesc(x, es[1..]);
      InsertDescSorted(x, es[1..]);
      assert InsertDesc(x, es) == [es[0]] + rest;
      forall k | 0 <= k < |rest|
        ensures es[0].amount >= rest[k].amount
      {
        assert rest[k] in multiset(rest);
        assert rest[k] in multiset(es[1..]) + multiset{x};
        if rest[k] != x {
          assert rest[k] in es[1..];
        }
      }
    }
  }

  /** A stable sort on decreasing amount, as `sort(([, a], [, b]) => b - a)` is. */
  function SortDesc(es: seq<Entry>): (r: seq<Entry>)
    ensures |r| == |es|
    ensures multiset(r) == multiset(es)
  {
    if |es| == 0 then []
    else
      assert es == [es[0]] + es[1..];
      InsertDesc(es[0], SortDesc(es[1..]))
  }

  /** The sorted list is ordered by decreasing amount. */
  lemma {:induction false} SortDescSorted(es: seq<Entry>)
    ensures SortedDesc(SortDesc(es))
  {
    if |es| > 0 {
      SortDescSorted(es[1..]);
      InsertDescSorted(es[0], SortDesc(es[1..]));
    }
  }

  /** Sorting keeps the total. */
  lemma {:induction false} SortDescTotal(es: seq<Entry>)
    ensures Total(SortDesc(es)) == Total(es)
  {
    if |es| > 0 {
      SortDescTotal(es[1..]);
      InsertDescTotal(es[0], SortDesc(es[1..]));
    }
  }

  /** Sorting keeps the set of categories. */
  lemma SortDescCategories(es: seq<Entry>)
    ensures Categories(SortDesc(es)) == Categories(es)
  {
    CategoriesOfPermutation(SortDesc(es), es);
  }

  /** Lists holding the same entries name the same categories. */
  lemma CategoriesOfPermutation(a: seq<Entry>, b: seq<Entry>)
    requires multiset(a) == multiset(b)
    ensures Categories(a) == Categories(b)
  {
    forall c | c in Categories(a)
      ensures c in Categories(b)
    {
      var i :| 0 <= i < |a| && a[i].category == c;
      assert a[i] in multiset(b);
      var j :| 0 <= j < |b| && b[j] == a[i];
    }
    forall c | c in Categories(b)
      ensures c in Categories(a)
    {
      var j :| 0 <= j < |b| && b[j].category == c;
      assert b[j] in multiset(a);
      var i :| 0 <= i < |a| && a[i] == b[j];
    }
  }

  /** Sorting a list without repeated categories repeats none. */
  lemma {:induction false} SortDescDistinct(es: seq<Entry>)
    requires DistinctCategories(es)
    ensures DistinctCategories(SortDesc(es))
  {
    if |es| > 0 {
      var rest := SortDesc(es[1..]);
      assert es == [es[0]] + es[1..];
      DistinctOfCons(es[0], es[1..]);
      SortDescDistinct(es[1..]);
      SortDescCategories(es[1..]);
      assert es[0].category !in Categories(rest);
      InsertDescCategories(es[0], rest);
    }
  }

  function AmountIs(v: int): Entry -> bool {
    (e: Entry) => e.amount == v
  }

  /** Inserting `x` changes the entries of `x`'s amount only by putting `x` first among them. */
  lemma {:induction false} InsertDescStable(x: Entry, es: seq<Entry>, v: int)
    ensures Filter(InsertDesc(x, es), AmountIs(v))
         == (if x.amount == v then [x] else []) + Filter(es, AmountIs(v))
  {
    if |es| == 0 || es[0].amount <= x.amount {
      assert InsertDesc(x, es) == [x] + es;
      assert ([x] + es)[1..] == es;
    } else {
      InsertDescStable(x, es[1..], v);
      var rest := InsertDesc(x, es[1..]);
      assert InsertDesc(x, es) == [es[0]] + rest;
      assert ([es[0]] + rest)[1..] == rest;
      if es[0].amount == v {
        assert Filter(es, AmountIs(v)) == [es[0]] + Filter(es[1..], AmountIs(v));
      }
    }
  }

  /**
   Stability: the entries that share an amount appear in the sorted list
   in the same relative order as before sorting.
   */
  lemma {:induction false} SortDescStable(es: seq<Entry>, v: int)
    ensures Filter(SortDesc(es), AmountIs(v)) == Filter(es, AmountIs(v))
  {
    if |es| > 0 {
      SortDescStable(es[1..], v);
      InsertDescStable(es[0], SortDesc(es[1..]), v);
    }
  }

  /** Among entries of equal amount, the categories come in the order their first records have in `s`. */
  predicate TiesInFirstAppearanceOrder(es: seq<Entry>, s: seq<Transaction>) {
    forall i, j :: 0 <= i < j < |es| && es[i].amount == es[j].amount ==>
      FirstIndex(s, es[i].category) < FirstIndex(s, es[j].category)
  }

  /**
   Inserting an entry that was seen before every entry of its amount
   keeps ties in first-appearance order: the entries passed over are
   strictly larger, and those after it keep their order.
   */
  lemma {:induction false} InsertDescTiesOrder(x: Entry, es: seq<Entry>, s: seq<Transaction>)
    requires TiesInFirstAppearanceOrder(es, s)
    requires forall k :: 0 <= k < |es| && es[k].amount == x.amount ==>
      FirstIndex(s, x.category) < FirstIndex(s, es[k].category)
    ensures TiesInFirstAppearanceOrder(InsertDesc(x, es), s)
  {
    if |es| == 0 || es[0].amount <= x.amount {
      ConsTiesOrder(x, es, s);
    } else {
      TiesOrderTail(es, s);
      InsertDescTiesOrder(x, es[1..], s);
      PassedOverTiesOrder(x, es, s);
    }
  }

  /** Putting an entry seen before every entry of its amount in front keeps ties in order. */
  lemma ConsTiesOrder(x: Entry, es: seq<Entry>, s: seq<Transaction>)
    requires TiesInFirstAppearanceOrder(es, s)
    requires forall k :: 0 <= k < |es| && es[k].amount == x.amount ==>
      FirstIndex(s, x.category) < FirstIndex(s, es[k].category)
    ensures TiesInFirstAppearanceOrder([x] + es, s)
  {
    var r := [x] + es;
    forall i, j | 0 <= i < j < |r| && r[i].amount == r[j].amount
      ensures FirstIndex(s, r[i].category) < FirstIndex(s, r[j].category)
    {
      assert r[j] == es[j - 1];
      if i > 0 {
        assert r[i] == es[i - 1];
      }
    }
  }

  /**
   When `x` is inserted past the larger head of `es`, the head stays in
   front, and ties with it come from the tail, which it precedes.
   */
  lemma PassedOverTiesOrder(x: Entry, es: seq<Entry>, s: seq<Transaction>)
    requires |es| > 0 && es[0].amount > x.amount
    requires TiesInFirstAppearanceOrder(es, s)
    requires TiesInFirstAppearanceOrder(InsertDesc(x, es[1..]), s)
    ensures TiesInFirstAppearanceOrder(InsertDesc(x, es), s)
  {
    var rest := InsertDesc(x, es[1..]);
    forall k | 0 <= k < |rest| && rest[k].amount == es[0].amount
      ensures FirstIndex(s, es[0].category) < FirstIndex(s, rest[k].category)
    {
      PassedOverPair(x, es, s, k);
    }
    ConsTiesOrder(es[0], rest, s);
    assert InsertDesc(x, es) == [es[0]] + rest;
  }

  /** An entry tying with the passed-over head comes from the tail, so the head was seen first. */
  lemma PassedOverPair(x: Entry, es: seq<Entry>, s: seq<Transaction>, k: int)
    requires |es| > 0 && es[0].amount > x.amount
    requires TiesInFirstAppearanceOrder(es, s)
    requires 0 <= k < |InsertDesc(x, es[1..])|
    requires InsertDesc(x, es[1..])[k].amount == es[0].amount
    ensures FirstIndex(s, es[0].category) < FirstIndex(s, InsertDesc(x, es[1..])[k].category)
  {
    var m := InsertedFromTail(x, es[1..], k);
    assert es[m + 1] == InsertDesc(x, es[1..])[k];
  }

  /** The tail of a list whose ties are in first-appearance order has its ties in that order too. */
  lemma TiesOrderTail(es: seq<Entry>, s: seq<Transaction>)
    requires |es| > 0
    requires TiesInFirstAppearanceOrder(es, s)
    ensures TiesInFirstAppearanceOrder(es[1..], s)
  {
    forall i, j | 0 <= i < j < |es[1..]| && es[1..][i].amount == es[1..][j].amount
      ensures FirstIndex(s, es[1..][i].category) < FirstIndex(s, es[1..][j].category)
    {
      assert es[1..][i] == es[i + 1] && es[1..][j] == es[j + 1];
    }
  }

  /** The tail of a list in first-appearance order is in that order too. */
  lemma OrderTail(es: seq<Entry>, s: seq<Transaction>)
    requires |es| > 0
    requires InFirstAppearanceOrder(es, s)
    ensures InFirstAppearanceOrder(es[1..], s)
  {
    forall i, j | 0 <= i < j < |es[1..]|
      ensures FirstIndex(s, es[1..][i].category) < FirstIndex(s, es[1..][j].category)
    {
      assert es[1..][i] == es[i + 1] && es[1..][j] == es[j + 1];
    }
  }

  /** An entry of `InsertDesc(x, es)` other than `x` is an entry of `es`, found at index `m`. */
  lemma InsertedFromTail(x: Entry, es: seq<Entry>, k: int) returns (m: int)
    requires 0 <= k < |InsertDesc(x, es)|
    requires InsertDesc(x, es)[k] != x
    ensures 0 <= m < |es| && es[m] == InsertDesc(x, es)[k]
  {
    var r := InsertDesc(x, es);
    assert r[k] in multiset(es) + multiset{x};
    assert r[k] in es;
    m :| 0 <= m < |es| && es[m] == r[k];
  }

  /**
   Sorting entries listed in first-appearance order leaves every group of
   equal amounts in first-appearance order.
   */
  lemma {:induction false} SortDescTiesOrder(es: seq<Entry>, s: seq<Transaction>)
    requires InFirstAppearanceOrder(es, s)
    ensures TiesInFirstAppearanceOrder(SortDesc(es), s)
  {
    if |es| > 0 {
      var rest := SortDesc(es[1..]);
      OrderTail(es, s);
      SortDescTiesOrder(es[1..], s);
      forall k | 0 <= k < |rest| && rest[k].amount == es[0].amount
        ensures FirstIndex(s, es[0].category) < FirstIndex(s, rest[k].category)
      {
        assert rest[k] in multiset(es[1..]);
        assert rest[k] in es[1..];
        var m :| 0 <= m < |es[1..]| && es[1..][m] == rest[k];
        assert es[m + 1] == rest[k];
      }
      InsertDescTiesOrder(es[0], rest, s);
    }
  }

  /** `amount / total * 100`, before the one-decimal rendering. */
  function Percent(amount: int, total: int): real {
    if total == 0 then 0.0 else (amount as real) * 100.0 / (total as real)
  }

  /** Each category's amount with its share of `total`. */
  function ToShares(es: seq<Entry>, total: int): (r: seq<Share>)
    ensures |r| == |es|
    ensures forall i :: 0 <= i < |r| ==>
      r[i] == Share(es[i].category, es[i].amount, Percent(es[i].amount, total))
  {
    if |es| == 0 then []
    else [Share(es[0].category, es[0].amount, Percent(es[0].amount, total))] + ToShares(es[1..], total)
  }

  function PercentTotal(items: seq<Share>): real {
    if |items| == 0 then 0.0 else items[0].percent + PercentTotal(items[1..])
  }

  /** The shares of a list, taken against any non-zero total, add up to its fraction of that total. */
  lemma {:induction false} PercentTotalScaled(es: seq<Entry>, total: int)
    requires total != 0
    ensures PercentTotal(ToShares(es, total)) == (Total(es) as real) * 100.0 / (total as real)
  {
    if |es| > 0 {
      PercentTotalScaled(es[1..], total);
      var items := ToShares(es, total);
      assert items[1..] == ToShares(es[1..], total);
      var t := total as real;
      var a := es[0].amount as real;
      var b := Total(es[1..]) as real;
      assert a * 100.0 / t + b * 100.0 / t == (a + b) * 100.0 / t;
    }
  }

  /** A share of a part no larger than the (positive) whole lies between 0 and 100. */
  lemma PercentInRange(amount: int, total: int)
    requires 0 <= amount <= total
    ensures 0.0 <= Percent(amount, total) <= 100.0
  {
    if total != 0 {
      var a := amount as real;
      var t := total as real;
      assert a * 100.0 <= t * 100.0;
      assert a * 100.0 / t <= t * 100.0 / t;
    }
  }

  /** There are no totals exactly when there are no records. */
  lemma CategoryTotalsEmpty(s: seq<Transaction>)
    ensures |CategoryTotals(s)| == 0 <==> |s| == 0
  {
    TotalsFromCorrect([], s, "");
    assert Categories([]) == {};
    CategoriesEmpty(CategoryTotals(s));
    RecordCategoriesEmpty(s);
  }

  /** The breakdown built from a list of expense records. */
  function ExpenseBreakdown(expenses: seq<Transaction>): (r: Breakdown)
    ensures !r.NoData?
    ensures r.NoExpenseData? <==> |expenses| == 0
  {
    var totals := CategoryTotals(expenses);
    CategoryTotalsEmpty(expenses);
    if |totals| == 0 then NoExpenseData
    else Shares(ToShares(SortDesc(totals), Total(totals)))
  }

  /** The expense records of the active currency, which alone feed the shares. */
  function ActiveExpenses(txs: seq<Transaction>, code: string): seq<Transaction> {
    Filter(ByCurrency(txs, code), OfKind(Expense))
  }

  /** The breakdown shown for active currency `code`. */
  function CategoryBreakdown(txs: seq<Transaction>, code: string): (r: Breakdown)
    ensures r.NoData? <==> |ByCurrency(txs, code)| == 0
    ensures r.NoExpenseData? <==> |ByCurrency(txs, code)| > 0 && |ActiveExpenses(txs, code)| == 0
  {
    if |ByCurrency(txs, code)| == 0 then NoData
    else ExpenseBreakdown(ActiveExpenses(txs, code))
  }

  function ShareCategories(items: seq<Share>): set<string> {
    set i | 0 <= i < |items| :: items[i].category
  }

  function ShareTotal(items: seq<Share>): int {
    if |items| == 0 then 0 else items[0].amount + ShareTotal(items[1..])
  }

  lemma {:induction false} ToSharesTotal(es: seq<Entry>, total: int)
    ensures ShareTotal(ToShares(es, total)) == Total(es)
  {
    if |es| > 0 {
      ToSharesTotal(es[1..], total);
      assert ToShares(es, total)[1..] == ToShares(es[1..], total);
    }
  }

  lemma ToSharesCategories(es: seq<Entry>, total: int)
    ensures ShareCategories(ToShares(es, total)) == Categories(es)
  {
    var items := ToShares(es, total);
    forall c | c in Categories(es)
      ensures c in ShareCategories(items)
    {
      var i :| 0 <= i < |es| && es[i].category == c;
      assert items[i].category == c;
    }
  }

  /**
   The per-category totals of `s` after sorting: ordered by amount, largest
   first, equal amounts in the order of their categories' first records;
   each category of `s` once, with the sum of its records; together the
   sum of `s`.
   */
  lemma SortedTotalsCorrect(s: seq<Transaction>)
    ensures var sorted := SortDesc(CategoryTotals(s));
      && SortedDesc(sorted)
      && (forall i, j :: 0 <= i < j < |sorted| && sorted[i].amount == sorted[j].amount ==>
            FirstIndex(s, sorted[i].category) < FirstIndex(s, sorted[j].category))
      && DistinctCategories(sorted)
      && Categories(sorted) == RecordCategories(s)
      && Total(sorted) == Sum(s)
      && (forall i :: 0 <= i < |sorted| ==> sorted[i].amount == CategorySum(s, sorted[i].category))
  {
    var totals := CategoryTotals(s);
    var sorted := SortDesc(totals);
    SortedTiesOrder(s);
    CategoryTotalsCorrect(s);
    SortDescSorted(totals);
    SortDescTotal(totals);
    SortDescCategories(totals);
    SortDescDistinct(totals);
    forall i | 0 <= i < |sorted|
      ensures sorted[i].amount == CategorySum(s, sorted[i].category)
    {
      assert sorted[i] in multiset(totals);
      var k :| 0 <= k < |totals| && totals[k] == sorted[i];
    }
  }

  /** Equal sorted totals come in the order of their categories' first records. */
  lemma SortedTiesOrder(s: seq<Transaction>)
    ensures var sorted := SortDesc(CategoryTotals(s));
      forall i, j :: 0 <= i < j < |sorted| && sorted[i].amount == sorted[j].amount ==>
        FirstIndex(s, sorted[i].category) < FirstIndex(s, sorted[j].category)
  {
    CategoryTotalsOrder(s);
    assert InFirstAppearanceOrder(CategoryTotals(s), s);
    SortDescTiesOrder(CategoryTotals(s), s);
  }

  /**
   The shares built from expense records: at least one; ordered by amount,
   largest first, equal amounts in the order of their categories' first
   records; each category of the records exactly once, with the sum of
   that category's records; amounts adding up to the sum of all records.
   */
  lemma ExpenseBreakdownContents(expenses: seq<Transaction>)
    requires |expenses| > 0
    ensures ExpenseBreakdown(expenses).Shares?
    ensures var items := ExpenseBreakdown(expenses).items;
      && |items| > 0
      && (forall i, j :: 0 <= i < j < |items| ==> items[i].amount >= items[j].amount)
      && (forall i, j :: 0 <= i < j < |items| && items[i].amount == items[j].amount ==>
            FirstIndex(expenses, items[i].category) < FirstIndex(expenses, items[j].category))
      && (forall i, j :: 0 <= i < j < |items| ==> items[i].category != items[j].category)
      && ShareCategories(items) == RecordCategories(expenses)
      && (forall i :: 0 <= i < |items| ==> items[i].amount == CategorySum(expenses, items[i].category))
      && ShareTotal(items) == Sum(expenses)
  {
    var totals := CategoryTotals(expenses);
    var sorted := SortDesc(totals);
    CategoryTotalsEmpty(expenses);
    var items := ToShares(sorted, Total(totals));
    assert ExpenseBreakdown(expenses) == Shares(items);
    SortedTotalsCorrect(expenses);
    ToSharesTotal(sorted, Total(totals));
    ToSharesCategories(sorted, Total(totals));
  }

  /** A whole is one hundred percent of itself. */
  lemma WholeIsHundred(total: int)
    requires total > 0
    ensures Percent(total, total) == 100.0
  {
  }

  /** Every entry of the sorted totals of positive expenses has a share between 0 and 100. */
  lemma SortedEntryInRange(expenses: seq<Transaction>)
    requires forall k :: 0 <= k < |expenses| ==> expenses[k].amount > 0
    ensures var sorted := SortDesc(CategoryTotals(expenses));
      forall i :: 0 <= i < |sorted| ==> 0.0 <= Percent(sorted[i].amount, Sum(expenses)) <= 100.0
  {
    var sorted := SortDesc(CategoryTotals(expenses));
    SortedTotalsCorrect(expenses);
    forall i | 0 <= i < |sorted|
      ensures 0.0 <= Percent(sorted[i].amount, Sum(expenses)) <= 100.0
    {
      SumFilterBounded(expenses, InCategory(sorted[i].category));
      PercentInRange(sorted[i].amount, Sum(expenses));
    }
  }

  /**
   With positive amounts, the share percentages of expense records are
   each `amount / total * 100` for the positive total of all records, lie
   between 0 and 100, and add up to exactly 100 (before rounding).
   */
  lemma ExpenseBreakdownPercentages(expenses: seq<Transaction>)
    requires |expenses| > 0
    requires forall i :: 0 <= i < |expenses| ==> expenses[i].amount > 0
    ensures ExpenseBreakdown(expenses).Shares?
    ensures var items := ExpenseBreakdown(expenses).items;
      && Sum(expenses) > 0
      && (forall i :: 0 <= i < |items| ==>
            items[i].percent == Percent(items[i].amount, Sum(expenses)))
      && (forall i :: 0 <= i < |items| ==> 0.0 <= items[i].percent <= 100.0)
      && PercentTotal(items) == 100.0
  {
    var totals := CategoryTotals(expenses);
    var sorted := SortDesc(totals);
    CategoryTotalsEmpty(expenses);
    CategoryTotalsCorrect(expenses);
    var total := Total(totals);
    assert total == Sum(expenses);
    var items := ToShares(sorted, total);
    assert ExpenseBreakdown(expenses) == Shares(items);
    SumPositive(expenses);
    SortDescTotal(totals);
    PercentsAddUp(sorted, total);
    SortedEntryInRange(expenses);
  }

  /** The shares of a list, taken against its own positive total, add up to 100. */
  lemma PercentsAddUp(es: seq<Entry>, total: int)
    requires total > 0 && Total(es) == total
    ensures PercentTotal(ToShares(es, total)) == 100.0
  {
    PercentTotalScaled(es, total);
    WholeIsHundred(total);
  }

  /** Every record of `ActiveExpenses` is a record of `txs`. */
  lemma ActiveExpensesFromList(txs: seq<Transaction>, code: string)
    ensures forall i :: 0 <= i < |ActiveExpenses(txs, code)| ==> ActiveExpenses(txs, code)[i] in txs
  {
    FilterContents(txs, InCurrency(code));
    FilterContents(ByCurrency(txs, code), OfKind(Expense));
  }

  /**
   When the card shows shares, they are those of the active-currency
   expenses, sorted (ties in first-appearance order), one per category, and they add up to the expense
   total of the summary; with positive amounts the percentages lie in
   [0, 100] and add up to exactly 100.
   */
  lemma BreakdownContents(txs: seq<Transaction>, code: string)
    requires CategoryBreakdown(txs, code).Shares?
    ensures var items := CategoryBreakdown(txs, code).items;
      && |items| > 0
      && (forall i, j :: 0 <= i < j < |items| ==> items[i].amount >= items[j].amount)
      && (forall i, j :: 0 <= i < j < |items| && items[i].amount == items[j].amount ==>
            FirstIndex(ActiveExpenses(txs, code), items[i].category)
              < FirstIndex(ActiveExpenses(txs, code), items[j].category))
      && (forall i, j :: 0 <= i < j < |items| ==> items[i].category != items[j].category)
      && ShareCategories(items) == RecordCategories(ActiveExpenses(txs, code))
      && (forall i :: 0 <= i < |items| ==>
            items[i].amount == CategorySum(ActiveExpenses(txs, code), items[i].category))
      && ShareTotal(items) == SumOfKind(ByCurrency(txs, code), Expense)
    ensures (forall i :: 0 <= i < |txs| ==> txs[i].amount > 0) ==>
      var items := CategoryBreakdown(txs, code).items;
      && (forall i :: 0 <= i < |items| ==> 0.0 <= items[i].percent <= 100.0)
      && PercentTotal(items) == 100.0
  {
    var expenses := ActiveExpenses(txs, code);
    ExpenseBreakdownContents(expenses);
    if forall i :: 0 <= i < |txs| ==> txs[i].amount > 0 {
      ActiveExpensesFromList(txs, code);
      ExpenseBreakdownPercentages(expenses);
    }
  }

  /**
   Adding (or removing) a record in another currency anywhere in the list
   leaves the breakdown unchanged.
   */
  lemma BreakdownIgnoresForeignRecord(a: seq<Transaction>, t: Transaction, b: seq<Transaction>, code: string)
    requires t.currency.code != code
    ensures CategoryBreakdown(a + [t] + b, code) == CategoryBreakdown(a + b, code)
  {
    ByCurrencyInsert(a, t, b, code);
  }

  /**
   Once some record of the active currency exists, adding a record that
   is not an expense leaves the breakdown unchanged: only expenses feed it.
   */
  lemma BreakdownIgnoresNonExpense(a: seq<Transaction>, t: Transaction, b: seq<Transaction>, code: string)
    requires t.kind != Expense
    requires |ByCurrency(a + b, code)| > 0
    ensures CategoryBreakdown(a + [t] + b, code) == CategoryBreakdown(a + b, code)
  {
    var p := InCurrency(code);
    var q := OfKind(Expense);
    ByCurrencyInsert(a, t, b, code);
    FilterConcat(a, b, p);
    if p(t) {
      var ca, cb := Filter(a, p), Filter(b, p);
      FilterConcat(ca + [t], cb, q);
      FilterConcat(ca, [t], q);
      FilterConcat(ca, cb, q);
      FilterSingleton(t, q);
      assert ActiveExpenses(a + [t] + b, code) == ActiveExpenses(a + b, code);
    }
  }
}
