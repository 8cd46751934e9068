/**
 The transaction list and the operations that change it: submitting the
 form, deleting by id, clearing, importing a file, and the one-time
 migration of the legacy `expenses` key. Each operation is a function from
 the list before to the list after (what is then written to storage);
 the id from `Date.now()`, the answer of `confirm` and the parsed import
 file are parameters.
 */
module Store {
  import opened Outcomes
  import opened Seqs
  import opened Ledger

  // ---------------------------------------------------------------------
  // Trimming the description
  // ---------------------------------------------------------------------

  /**
   The characters `String.prototype.trim` removes: the ECMAScript
   WhiteSpace (tab, vertical tab, form feed, space, no-break space, byte
   order mark and the Unicode space separators) and LineTerminator
   (line feed, carriage return, line and paragraph separators) sets.
   */
  predicate IsTrimmed(c: char) {
    || c == '\t' || c == '\n' || c == '\U{000B}' || c == '\U{000C}' || c == '\r'
    || c == ' ' || c == '\U{00A0}' || c == '\U{1680}'
    || ('\U{2000}' <= c <= '\U{200A}')
    || c == '\U{2028}' || c == '\U{2029}' || c == '\U{202F}' || c == '\U{205F}'
    || c == '\U{3000}' || c == '\U{FEFF}'
  }

  /** Number of whitespace characters at the start of `s`. */
  function LeadingSpace(s: string): (n: nat)
    ensures n <= |s|
    ensures forall k :: 0 <= k < n ==> IsTrimmed(s[k])
    ensures n < |s| ==> !IsTrimmed(s[n])
  {
    if |s| == 0 || !IsTrimmed(s[0]) then 0 else 1 + LeadingSpace(s[1..])
  }

  /** Number of whitespace characters at the end of `s`. */
  function TrailingSpace(s: string): (n: nat)
    ensures n <= |s|
    ensures forall k :: |s| - n <= k < |s| ==> IsTrimmed(s[k])
    ensures n < |s| ==> !IsTrimmed(s[|s| - n - 1])
  {
    if |s| == 0 || !IsTrimmed(s[|s| - 1]) then 0 else 1 + TrailingSpace(s[..|s| - 1])
  }

  /**
   `s` without leading and trailing whitespace: the longest slice of `s`
   that starts and ends with a non-whitespace character, or empty when
   there is none.
   */
  function Trim(s: string): (r: string)
    ensures |r| <= |s|
    ensures r == [] <==> forall k :: 0 <= k < |s| ==> IsTrimmed(s[k])
    ensures r != [] ==> !IsTrimmed(r[0]) && !IsTrimmed(r[|r| - 1])
    ensures r != [] ==> r == s[LeadingSpace(s)..|s| - TrailingSpace(s)]
  {
    var lead := LeadingSpace(s);
    if lead == |s| then []
    else
      var trail := TrailingSpace(s);
      assert !IsTrimmed(s[lead]);
      s[lead..|s| - trail]
  }

  /** Trimming is idempotent: a trimmed description is left as it is. */
  lemma TrimIdempotent(s: string)
    ensures Trim(Trim(s)) == Trim(s)
  {
    var r := Trim(s);
    if r != [] {
      assert LeadingSpace(r) == 0;
      assert TrailingSpace(r) == 0;
    }
  }

  // ---------------------------------------------------------------------
  // Submitting the form
  // ---------------------------------------------------------------------

  /**
   The form as read by the submit handler. `amount` is the result of
   `parseFloat` in cents, `None` when it is not a number; `date` is `None`
   when the date field is empty.
   */
  datatype Form = Form(
    kind: string,
    description: string,
    amount: Option<int>,
    category: string,
    date: Option<Date>)

  datatype SubmitError =
    | MissingField   // "Please fill in all fields"
    | InvalidAmount  // "Amount must be greater than 0"

  /** The list after a submission, and the record added or the reason it was refused. */
  datatype Submission = Submission(transactions: seq<Transaction>, outcome: Result<Transaction, SubmitError>)

  /**
   The first check: some field is falsy. A zero amount is falsy too, so
   it is reported here and never reaches the `amount <= 0` check.
   */
  predicate MissingFields(f: Form) {
    || f.kind == ""
    || Trim(f.description) == ""
    || f.amount.None?
    || f.amount == Some(0)
    || f.category == ""
    || f.date.None?
  }

  /** What an acceptable form is, stated without trimming: every field given, some visible description, a positive amount. */
  predicate AcceptableForm(f: Form) {
    && f.kind != ""
    && (exists k :: 0 <= k < |f.description| && !IsTrimmed(f.description[k]))
    && f.amount.Some? && f.amount.value > 0
    && f.category != ""
    && f.date.Some?
  }

  /**
   The submit handler: validate, then put the new record, stamped with
   `id` and the active currency, at the front of the list.
   */
  function Submit(txs: seq<Transaction>, f: Form, id: int, active: Currency): (r: Submission)
    ensures r.outcome.Success? <==> AcceptableForm(f)
    ensures r.outcome == Failure(MissingField) <==> MissingFields(f)
    ensures r.outcome == Failure(InvalidAmount) <==> !MissingFields(f) && f.amount.value < 0
    ensures r.outcome.Failure? ==> r.transactions == txs
    ensures r.outcome.Success? ==>
      && r.transactions == [r.outcome.value] + txs
      && r.outcome.value == Transaction(id, f.kind, Trim(f.description), f.amount.value,
                                        f.category, f.date.value, active)
  {
    if MissingFields(f) then
      Submission(txs, Failure(MissingField))
    else if f.amount.value <= 0 then
      Submission(txs, Failure(InvalidAmount))
    else
      var t := Transaction(id, f.kind, Trim(f.description), f.amount.value, f.category, f.date.value, active);
      Submission([t] + txs, Success(t))
  }

  /** A record as the form produces it: every text field given, the description trimmed, the amount positive. */
  predicate WellFormed(t: Transaction) {
    && t.kind != ""
    && t.description != []
    && !IsTrimmed(t.description[0])
    && !IsTrimmed(t.description[|t.description| - 1])
    && t.amount > 0
    && t.category != ""
  }

  predicate AllWellFormed(txs: seq<Transaction>) {
    forall i :: 0 <= i < |txs| ==> WellFormed(txs[i])
  }

  /** Submitting keeps a list of well-formed records well-formed, and grows it by one exactly on success. */
  lemma SubmitKeepsWellFormed(txs: seq<Transaction>, f: Form, id: int, active: Currency)
    requires AllWellFormed(txs)
    ensures AllWellFormed(Submit(txs, f, id, active).transactions)
    ensures |Submit(txs, f, id, active).transactions| == |txs| + (if AcceptableForm(f) then 1 else 0)
  {
    var r := Submit(txs, f, id, active);
    if r.outcome.Success? {
      assert forall i :: 1 <= i < |r.transactions| ==> r.transactions[i] == txs[i - 1];
    }
  }

  /** A successful submission adds its amount to the total of its type and leaves the other types' totals alone. */
  lemma SubmitAddsToKindTotal(txs: seq<Transaction>, f: Form, id: int, active: Currency, kind: string)
    requires AcceptableForm(f)
    ensures SumOfKind(Submit(txs, f, id, active).transactions, kind)
         == SumOfKind(txs, kind) + (if f.kind == kind then f.amount.value else 0)
  {
    var t := Submit(txs, f, id, active).outcome.value;
    FilterConcat([t], txs, OfKind(kind));
    FilterSingleton(t, OfKind(kind));
    SumConcat(Filter([t], OfKind(kind)), Filter(txs, OfKind(kind)));
  }

  // ---------------------------------------------------------------------
  // The transaction list view
  // ---------------------------------------------------------------------

  /** A record passes the list filters; an empty filter value lets everything through. */
  predicate MatchesFilters(t: Transaction, typeFilter: string, categoryFilter: string) {
    (typeFilter == "" || t.kind == typeFilter) && (categoryFilter == "" || t.category == categoryFilter)
  }

  function Matching(typeFilter: string, categoryFilter: string): Transaction -> bool {
    (t: Transaction) => MatchesFilters(t, typeFilter, categoryFilter)
  }

  function ByType(txs: seq<Transaction>, typeFilter: string): seq<Transaction> {
    if typeFilter != "" then Filter(txs, OfKind(typeFilter)) else txs
  }

  function ByCategory(txs: seq<Transaction>, categoryFilter: string): seq<Transaction> {
    if categoryFilter != "" then Filter(txs, InCategory(categoryFilter)) else txs
  }

  /** The records the list shows: the type filter, then the category filter, each skipped when empty. */
  function FilterList(txs: seq<Transaction>, typeFilter: string, categoryFilter: string): (r: seq<Transaction>)
    ensures r == Filter(txs, Matching(typeFilter, categoryFilter))
  {
    var byType := ByType(txs, typeFilter);
    if typeFilter != "" && categoryFilter != "" then
      FilterFuse(txs, OfKind(typeFilter), InCategory(categoryFilter), Matching(typeFilter, categoryFilter));
      ByCategory(byType, categoryFilter)
    else if typeFilter != "" then
      FilterCongruent(txs, OfKind(typeFilter), Matching(typeFilter, categoryFilter));
      byType
    else if categoryFilter != "" then
      FilterCongruent(txs, InCategory(categoryFilter), Matching(typeFilter, categoryFilter));
      ByCategory(byType, categoryFilter)
    else
      FilterKeepsAll(txs, Matching(typeFilter, categoryFilter));
      byType
  }

  /**
   The list shows an order-preserving subsequence of the records, holding
   every copy of each record that matches every set filter and nothing
   else; with both filters unset it shows the whole list.
   */
  lemma FilterListContents(txs: seq<Transaction>, typeFilter: string, categoryFilter: string)
    ensures IsSubsequence(FilterList(txs, typeFilter, categoryFilter), txs)
    ensures forall t :: multiset(FilterList(txs, typeFilter, categoryFilter))[t]
                     == if MatchesFilters(t, typeFilter, categoryFilter) then multiset(txs)[t] else 0
    ensures typeFilter == "" && categoryFilter == "" ==> FilterList(txs, typeFilter, categoryFilter) == txs
  {
    FilterIsSubsequence(txs, Matching(typeFilter, categoryFilter));
    FilterContents(txs, Matching(typeFilter, categoryFilter));
    if typeFilter == "" && categoryFilter == "" {
      FilterKeepsAll(txs, Matching(typeFilter, categoryFilter));
    }
  }

  /**
   The two filters are independent: applying the category filter first
   and the type filter second gives the same list as the page's order.
   */
  lemma FilterListIndependent(txs: seq<Transaction>, typeFilter: string, categoryFilter: string)
    ensures FilterList(FilterList(txs, "", categoryFilter), typeFilter, "") == FilterList(txs, typeFilter, categoryFilter)
    ensures FilterList(FilterList(txs, typeFilter, ""), "", categoryFilter) == FilterList(txs, typeFilter, categoryFilter)
  {
    FilterFuse(txs, Matching("", categoryFilter), Matching(typeFilter, ""), Matching(typeFilter, categoryFilter));
    FilterFuse(txs, Matching(typeFilter, ""), Matching("", categoryFilter), Matching(typeFilter, categoryFilter));
  }

  // ---------------------------------------------------------------------
  // Deleting and clearing
  // ---------------------------------------------------------------------

  function WithoutId(id: int): Transaction -> bool {
    (t: Transaction) => t.id != id
  }

  /** `deleteTransaction`: when confirmed, drop every record whose id is `id`. */
  function Delete(txs: seq<Transaction>, id: int, confirmed: bool): (r: seq<Transaction>)
    ensures !confirmed ==> r == txs
    ensures |r| <= |txs|
    ensures forall i :: 0 <= i < |r| ==> r[i].id != id || !confirmed
  {
    if confirmed then Filter(txs, WithoutId(id)) else txs
  }

  /**
   A confirmed delete leaves the old list minus exactly the records with
   that id, in the same order.
   */
  lemma DeleteContents(txs: seq<Transaction>, id: int)
    ensures IsSubsequence(Delete(txs, id, true), txs)
    ensures forall t :: multiset(Delete(txs, id, true))[t] == if t.id == id then 0 else multiset(txs)[t]
  {
    FilterIsSubsequence(txs, WithoutId(id));
    FilterContents(txs, WithoutId(id));
  }

  /** Deleting an id no record carries changes nothing. */
  lemma DeleteAbsentIsNoOp(txs: seq<Transaction>, id: int, confirmed: bool)
    requires forall i :: 0 <= i < |txs| ==> txs[i].id != id
    ensures Delete(txs, id, confirmed) == txs
  {
    FilterKeepsAll(txs, WithoutId(id));
  }

  /** Deleting the same id twice is deleting it once. */
  lemma DeleteIdempotent(txs: seq<Transaction>, id: int, confirmed: bool)
    ensures Delete(Delete(txs, id, confirmed), id, confirmed) == Delete(txs, id, confirmed)
  {
    if confirmed {
      DeleteAbsentIsNoOp(Delete(txs, id, confirmed), id, confirmed);
    }
  }

  /** Deleting keeps a list of well-formed records well-formed. */
  lemma DeleteKeepsWellFormed(txs: seq<Transaction>, id: int, confirmed: bool)
    requires AllWellFormed(txs)
    ensures AllWellFormed(Delete(txs, id, confirmed))
  {
    FilterContents(txs, WithoutId(id));
    var r := Delete(txs, id, confirmed);
    forall i | 0 <= i < |r|
      ensures WellFormed(r[i])
    {
      assert r[i] in txs;
    }
  }

  /** What the clear-all button reports. */
  datatype ClearNotice =
    | NothingToClear  // the list was already empty; no confirmation is asked
    | Declined        // the confirmation was refused
    | Cleared

  datatype ClearResult = ClearResult(transactions: seq<Transaction>, notice: ClearNotice)

  /** The clear-all handler. */
  function ClearAll(txs: seq<Transaction>, confirmed: bool): (r: ClearResult)
    ensures r.notice == NothingToClear <==> |txs| == 0
    ensures r.notice == Cleared <==> |txs| > 0 && confirmed
    ensures r.notice == Cleared ==> r.transactions == []
    ensures r.notice != Cleared ==> r.transactions == txs
  {
    if |txs| == 0 then ClearResult(txs, NothingToClear)
    else if confirmed then ClearResult([], Cleared)
    else ClearResult(txs, Declined)
  }

  // ---------------------------------------------------------------------
  // Import and export
  // ---------------------------------------------------------------------

  /** The import file after `JSON.parse`: an array, some other JSON value, or text that does not parse. */
  datatype Payload = JsonArray(items: seq<Transaction>) | JsonOther | Unparsable

  datatype ImportError = ImportFormatError  // "Error importing data. Please check file format."

  datatype ImportResult = ImportResult(transactions: seq<Transaction>, outcome: Outcome<ImportError>)

  /** The import handler: an array replaces the list wholesale; anything else is refused and changes nothing. */
  function Import(txs: seq<Transaction>, p: Payload): (r: ImportResult)
    ensures r.outcome.Pass? <==> p.JsonArray?
    ensures r.outcome.Pass? ==> r.transactions == p.items
    ensures r.outcome.Fail? ==> r.transactions == txs
  {
    match p
    case JsonArray(items) => ImportResult(items, Pass)
    case JsonOther => ImportResult(txs, Fail(ImportFormatError))
    case Unparsable => ImportResult(txs, Fail(ImportFormatError))
  }

  /** The export file: the whole list as a JSON array. */
  function Export(txs: seq<Transaction>): (p: Payload)
    ensures forall current :: Import(current, p) == ImportResult(txs, Pass)
  {
    JsonArray(txs)
  }

  // ---------------------------------------------------------------------
  // Migration of the legacy `expenses` key
  // ---------------------------------------------------------------------

  /** A record of the earlier expense-only format: no `type` field. */
  datatype LegacyExpense = LegacyExpense(
    id: int,
    description: string,
    amount: int,
    category: string,
    date: Date,
    currency: Currency)

  /** The two stored keys the migration reads: `transactions` and the legacy `expenses` (empty when absent). */
  datatype Storage = Storage(transactions: seq<Transaction>, legacy: seq<LegacyExpense>)

  /** `{...expense, type: 'expense'}`. */
  function FromLegacy(e: LegacyExpense): (t: Transaction)
    ensures t.kind == Expense
  {
    Transaction(e.id, Expense, e.description, e.amount, e.category, e.date, e.currency)
  }

  /** The legacy view of a record: every field but its type. */
  function ToLegacy(t: Transaction): LegacyExpense {
    LegacyExpense(t.id, t.description, t.amount, t.category, t.date, t.currency)
  }

  /** `migrateOldData`: fires only with legacy records present and no transactions. */
  function Migrate(st: Storage): (r: Storage)
    ensures |st.legacy| > 0 && |st.transactions| == 0 ==>
      && r.legacy == []
      && |r.transactions| == |st.legacy|
      && (forall i :: 0 <= i < |r.transactions| ==> r.transactions[i].kind == Expense)
      && (forall i :: 0 <= i < |r.transactions| ==> ToLegacy(r.transactions[i]) == st.legacy[i])
    ensures !(|st.legacy| > 0 && |st.transactions| == 0) ==> r == st
  {
    if |st.legacy| > 0 && |st.transactions| == 0 then
      Storage(seq(|st.legacy|, i requires 0 <= i < |st.legacy| => FromLegacy(st.legacy[i])), [])
    else st
  }

  /** Running the migration a second time changes nothing. */
  lemma MigrateIdempotent(st: Storage)
    ensures Migrate(Migrate(st)) == Migrate(st)
  {
  }

  /**
   After a migration that fired, every record is an expense: the income
   total is zero and the expense total is the sum of all migrated amounts.
   */
  lemma {:induction false} MigratedAreExpenses(txs: seq<Transaction>)
    requires forall i :: 0 <= i < |txs| ==> txs[i].kind == Expense
    ensures SumOfKind(txs, Income) == 0
    ensures SumOfKind(txs, Expense) == Sum(txs)
  {
    FilterDropsAll(txs, OfKind(Income));
    FilterKeepsAll(txs, OfKind(Expense));
  }
}
