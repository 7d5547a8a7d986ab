/**
 * The dashboard (components/Dashboard.tsx): the 12-hour clock, the
 * all-time and today per-type summaries, today's records, the balance
 * card, and the quick-entry and edit forms, whose handlers reach the
 * ledger through the store. The current time and date are parameters.
 */
module Dashboard {
  import opened Types
  import opened Text
  import opened Folds
  import opened LedgerSums
  import Store

  datatype Clock = Clock(hhmm: string, ss: string, ampm: string)

  /** `hours % 12 || 12`. */
  function DisplayHour(hours: nat): nat
  {
    if hours % 12 == 0 then 12 else hours % 12
  }

  /** `formatClock`: zero-padded 12-hour `hh:mm`, zero-padded seconds, and AM before noon, PM from noon. */
  function FormatClock(hours: nat, minutes: nat, seconds: nat): (c: Clock)
    requires hours < 24 && minutes < 60 && seconds < 60
    ensures |c.hhmm| == 5 && c.hhmm[2] == ':' && |c.ss| == 2
    ensures 1 <= DecimalValue(c.hhmm[..2]) <= 12
    ensures c.ampm == "AM" <==> hours < 12
    ensures c.ampm == "PM" <==> hours >= 12
  {
    var dh := DisplayHour(hours);
    var c := Clock(Pad2(dh) + ":" + Pad2(minutes), Pad2(seconds), if hours >= 12 then "PM" else "AM");
    Pad2Value(dh);
    assert c.hhmm[..2] == Pad2(dh);
    c
  }

  /** Reading a displayed clock back as 24-hour time. */
  function ReadClock(c: Clock): (hms: (int, int, int))
    requires |c.hhmm| == 5 && |c.ss| == 2
  {
    var h12 := DecimalValue(c.hhmm[..2]);
    ((h12 % 12) + (if c.ampm == "PM" then 12 else 0), DecimalValue(c.hhmm[3..]), DecimalValue(c.ss))
  }

  lemma HourRoundTrip(hours: nat)
    requires hours < 24
    ensures DisplayHour(hours) % 12 + (if hours >= 12 then 12 else 0) == hours
  {
  }

  /** The display loses nothing: hour, minute and second can be read back from it. */
  lemma ClockRoundTrip(hours: nat, minutes: nat, seconds: nat)
    requires hours < 24 && minutes < 60 && seconds < 60
    ensures ReadClock(FormatClock(hours, minutes, seconds)) == (hours, minutes, seconds)
  {
    var c := FormatClock(hours, minutes, seconds);
    var dh := DisplayHour(hours);
    assert c.hhmm[..2] == Pad2(dh);
    assert c.hhmm[3..] == Pad2(minutes);
    Pad2Value(dh);
    Pad2Value(minutes);
    Pad2Value(seconds);
    HourRoundTrip(hours);
  }

  function OnDate(day: string): Transaction -> bool {
    (tx: Transaction) => tx.date == day
  }

  /** `todayRecords`: the transactions dated today, in ledger order. */
  function TodayRecords(txs: seq<Transaction>, today: string): (r: seq<Transaction>)
    ensures forall tx :: tx in r <==> tx in txs && tx.date == today
  {
    Filter(txs, OnDate(today))
  }

  datatype Summary = Summary(all: TypeTotals, today: TypeTotals)

  /** `summary`: per-type sums over every transaction and over today's. */
  function SummaryOf(txs: seq<Transaction>, today: string): Summary {
    Summary(TotalsByType(txs), TotalsByType(TodayRecords(txs, today)))
  }

  /** With nonnegative amounts, each of today's totals is at most its all-time total. */
  lemma TodayWithinAllTime(txs: seq<Transaction>, today: string)
    requires forall tx :: tx in txs ==> tx.amount >= 0
    ensures var s := SummaryOf(txs, today);
            && 0 <= s.today.income <= s.all.income
            && 0 <= s.today.expense <= s.all.expense
            && 0 <= s.today.dues <= s.all.dues
  {
    SumOfTypeOfFilterBounded(txs, OnDate(today), Income);
    SumOfTypeOfFilterBounded(txs, OnDate(today), Expense);
    SumOfTypeOfFilterBounded(txs, OnDate(today), Due);
  }

  /** The balance card: income minus expense over all time. */
  function Balance(s: Summary): int {
    s.all.income - s.all.expense
  }

  /** Dues never move the balance: adding a DUE entry leaves it as it was. */
  lemma DuesDoNotMoveBalance(txs: seq<Transaction>, due: Transaction, today: string)
    requires due.txType == Due
    ensures Balance(SummaryOf([due] + txs, today)) == Balance(SummaryOf(txs, today))
  {
    SumOfTypeMasked([due] + txs, Income);
    SumOfTypeMasked(txs, Income);
    SumOfTypeMasked([due] + txs, Expense);
    SumOfTypeMasked(txs, Expense);
    SumAppend([due], txs, AmountIfType(Income));
    SumAppend([due], txs, AmountIfType(Expense));
    assert [due][..0] == [];
  }

  /** The quick-entry form; an empty amount box is `None`, a filled one its parsed number. */
  datatype EntryForm = EntryForm(amount: Option<int>, description: string, txType: TransactionType, category: string)

  function DefaultCategory(language: Language): string {
    if language == EN then "General" else "সাধারণ"
  }

  /** What `handleSubmit` hands to `addTransaction`, if anything. */
  function SubmittedEntry(form: EntryForm, language: Language, today: string): (e: Option<NewTransaction>)
    ensures e.None? <==> form.amount.None? || form.description == ""
    ensures e.Some? ==>
      && e.value.date == today && e.value.txType == form.txType
      && e.value.amount == form.amount.value && e.value.description == form.description
      && e.value.category == (if form.category == "" then DefaultCategory(language) else form.category)
      && e.value.category != ""
  {
    if form.amount.None? || form.description == "" then None
    else Some(NewTransaction(form.txType, form.amount.value, form.description,
                             if form.category == "" then DefaultCategory(language) else form.category,
                             today, None))
  }

  /** The form after a submit: amount, description and category cleared, the chosen type kept. */
  function ClearedForm(form: EntryForm): EntryForm {
    EntryForm(None, "", form.txType, "")
  }

  /** A cleared form cannot be submitted again. */
  lemma ClearedFormRejected(form: EntryForm, language: Language, today: string)
    ensures SubmittedEntry(ClearedForm(form), language, today).None?
    ensures ClearedForm(form).txType == form.txType
  {
  }

  /** `handleSubmit`: an incomplete form does nothing; otherwise the entry goes to the ledger and the form is cleared. */
  method HandleSubmit(store: Store.AppStore, form: EntryForm, language: Language, today: string,
                      freshId: string, now: string)
    returns (next: EntryForm)
    modifies store`transactions
    ensures SubmittedEntry(form, language, today).None? ==>
      next == form && store.transactions == old(store.transactions)
    ensures SubmittedEntry(form, language, today).Some? ==>
      next == ClearedForm(form)
      && store.transactions == (if store.user.Some?
                               then [Store.Stamp(SubmittedEntry(form, language, today).value, freshId, store.user.value.id, now)]
                               else []) + old(store.transactions)
  {
    var entry := SubmittedEntry(form, language, today);
    if entry.None? {
      return form;
    }
    store.AddTransaction(entry.value, freshId, now);
    next := ClearedForm(form);
  }

  /** The patch `handleUpdate` sends: amount, description, type and category only. */
  function EditPatch(edited: Transaction): Store.TransactionPatch {
    Store.TransactionPatch(None, None, Some(edited.txType), Some(edited.amount), Some(edited.description),
                           Some(edited.category), None, None, None)
  }

  /**
   * An edit overwrites the four edited fields and keeps every entry's id,
   * owner, date, creation stamp and profit, and the ledger's length.
   */
  lemma EditKeepsIdentity(txs: seq<Transaction>, edited: Transaction)
    ensures var r := Store.UpdateById(txs, edited.id, EditPatch(edited));
            && |r| == |txs|
            && forall k :: 0 <= k < |txs| ==>
                 && r[k].id == txs[k].id && r[k].userId == txs[k].userId && r[k].date == txs[k].date
                 && r[k].createdAt == txs[k].createdAt && r[k].profit == txs[k].profit
                 && (txs[k].id == edited.id ==>
                       r[k].amount == edited.amount && r[k].description == edited.description
                       && r[k].txType == edited.txType && r[k].category == edited.category)
  {
  }

  /** `handleUpdate`: nothing while no entry is being edited; otherwise the edited fields are sent and editing ends. */
  method HandleUpdate(store: Store.AppStore, editing: Option<Transaction>) returns (stillEditing: Option<Transaction>)
    modifies store`transactions
    ensures stillEditing.None?
    ensures editing.None? ==> store.transactions == old(store.transactions)
    ensures editing.Some? ==>
      store.transactions == Store.UpdateById(old(store.transactions), editing.value.id, EditPatch(editing.value))
  {
    stillEditing := None;
    if editing.None? {
      return;
    }
    store.UpdateTransaction(editing.value.id, EditPatch(editing.value));
  }
}
