/**
 * The reports screen (components/Reports.tsx): the transactions of a date
 * window, their per-type sums, a daily ledger with one row per date in
 * ascending order, and the statement totals over that ledger.
 */
module Reports {
  import opened Types
  import opened Text
  import opened Folds
  import opened LedgerSums

  function InWindow(startDate: string, endDate: string): Transaction -> bool {
    (tx: Transaction) => LessEq(startDate, tx.date) && LessEq(tx.date, endDate)
  }

  /** `filteredTransactions`: the transactions dated from `startDate` to `endDate` inclusive, in ledger order. */
  function FilterByWindow(txs: seq<Transaction>, startDate: string, endDate: string): (r: seq<Transaction>)
    ensures forall tx :: tx in r <==> tx in txs && LessEq(startDate, tx.date) && LessEq(tx.date, endDate)
  {
    Filter(txs, InWindow(startDate, endDate))
  }

  /** The window keeps the ledger's order, and a window that ends before it starts is empty. */
  lemma WindowProperties(txs: seq<Transaction>, startDate: string, endDate: string)
    ensures Subsequence(FilterByWindow(txs, startDate, endDate), txs)
    ensures Less(endDate, startDate) ==> FilterByWindow(txs, startDate, endDate) == []
  {
    FilterIsSubsequence(txs, InWindow(startDate, endDate));
    var r := FilterByWindow(txs, startDate, endDate);
    if Less(endDate, startDate) && r != [] {
      var tx := r[0];
      assert LessEq(startDate, tx.date) && LessEq(tx.date, endDate);
      LessAsymmetric(endDate, startDate);
      if startDate != tx.date && tx.date != endDate {
        LessTransitive(startDate, tx.date, endDate);
      }
      assert false;
    }
  }

  /** `chartData`: income, expense and dues of the window. */
  function ChartData(filtered: seq<Transaction>): (c: TypeTotals)
    ensures c.income + c.expense + c.dues == Sum(filtered, AmountOf)
  {
    TypesPartitionAmounts(filtered);
    TotalsByType(filtered)
  }

  /** One day's (or the statement's) income, expense, dues and profit. */
  datatype Tally = Tally(income: int, expense: int, dues: int, profit: int)

  const ZeroTally := Tally(0, 0, 0, 0)

  datatype LedgerRow = LedgerRow(date: string, tally: Tally)

  function DateOf(tx: Transaction): string { tx.date }

  /** `tx.profit || 0`: a missing profit counts as 0. */
  function ProfitOf(tx: Transaction): int { tx.profit.GetOr(0) }

  /** What the daily map holds for `date` once `txs` have been folded in. */
  function DayTally(txs: seq<Transaction>, date: string): Tally {
    Tally(SumWhere(txs, DateOf, date, AmountIfType(Income)),
          SumWhere(txs, DateOf, date, AmountIfType(Expense)),
          SumWhere(txs, DateOf, date, AmountIfType(Due)),
          SumWhere(txs, DateOf, date, ProfitOf))
  }

  /** The body of the `forEach`: one transaction added into its day's tally. */
  function AddToTally(t: Tally, tx: Transaction): Tally {
    Tally(t.income + (if tx.txType == Income then tx.amount else 0),
          t.expense + (if tx.txType == Expense then tx.amount else 0),
          t.dues + (if tx.txType == Due then tx.amount else 0),
          t.profit + tx.profit.GetOr(0))
  }

  /** Folding one more transaction in changes only its own day's tally. */
  lemma DayTallySnoc(txs: seq<Transaction>, tx: Transaction, date: string)
    ensures DayTally(txs + [tx], date) ==
      if tx.date != date then DayTally(txs, date) else AddToTally(DayTally(txs, date), tx)
  {
    assert (txs + [tx])[..|txs|] == txs;
  }

  /** The dictionary holds one entry per date of `txs`, with that day's sums. */
  predicate TalliesOf(daily: map<string, Tally>, txs: seq<Transaction>) {
    && daily.Keys == Keys(txs, DateOf)
    && forall d :: d in daily ==> daily[d] == DayTally(txs, d)
  }

  /** The body of the `forEach`: the transaction's day starts from zeros and takes the transaction. */
  function Tallied(daily: map<string, Tally>, tx: Transaction): map<string, Tally> {
    var base := if tx.date in daily then daily[tx.date] else ZeroTally;
    daily[tx.date := AddToTally(base, tx)]
  }

  /** One step of the `forEach` keeps the dictionary equal to the day tallies of the prefix folded so far. */
  lemma DailyStep(prefix: seq<Transaction>, tx: Transaction, daily: map<string, Tally>)
    requires TalliesOf(daily, prefix)
    ensures TalliesOf(Tallied(daily, tx), prefix + [tx])
  {
    var next := Tallied(daily, tx);
    assert (prefix + [tx])[..|prefix|] == prefix;
    assert Keys(prefix + [tx], DateOf) == Keys(prefix, DateOf) + {tx.date};
    forall d | d in next
      ensures next[d] == DayTally(prefix + [tx], d)
    {
      DayTallySnoc(prefix, tx, d);
      if d == tx.date && d !in daily {
        SumWhereAbsent(prefix, DateOf, d, AmountIfType(Income));
        SumWhereAbsent(prefix, DateOf, d, AmountIfType(Expense));
        SumWhereAbsent(prefix, DateOf, d, AmountIfType(Due));
        SumWhereAbsent(prefix, DateOf, d, ProfitOf);
      }
    }
  }

  lemma DailyStepAt(filtered: seq<Transaction>, i: nat, daily: map<string, Tally>)
    requires i < |filtered| && TalliesOf(daily, filtered[..i])
    ensures TalliesOf(Tallied(daily, filtered[i]), filtered[..i + 1])
  {
    assert filtered[..i + 1] == filtered[..i] + [filtered[i]];
    DailyStep(filtered[..i], filtered[i], daily);
  }

  function RowDates(rows: seq<LedgerRow>): set<string> {
    set r | r in rows :: r.date
  }

  lemma RowDatesEmpty(rows: seq<LedgerRow>)
    ensures RowDates(rows) == {} <==> rows == []
  {
    if rows != [] {
      assert rows[0].date in RowDates(rows);
    }
  }

  predicate Ascending(rows: seq<LedgerRow>) {
    forall i, j :: 0 <= i < j < |rows| ==> Less(rows[i].date, rows[j].date)
  }

  /**
   * `rows` is the daily ledger of `txs`: strictly ascending dates, one row
   * for each date met in `txs` and no other, and each row holding its
   * day's sums.
   */
  predicate IsLedgerOf(txs: seq<Transaction>, rows: seq<LedgerRow>) {
    && Ascending(rows)
    && RowDates(rows) == Keys(txs, DateOf)
    && forall r :: r in rows ==> r.tally == DayTally(txs, r.date)
  }

  /** Insertion of a row at its place by date. */
  function InsertRow(rows: seq<LedgerRow>, row: LedgerRow): (r: seq<LedgerRow>)
    ensures |r| == |rows| + 1
    ensures forall x :: x in r <==> x in rows || x == row
    ensures RowDates(r) == RowDates(rows) + {row.date}
  {
    if rows == [] then [row]
    else if Less(row.date, rows[0].date) then [row] + rows
    else [rows[0]] + InsertRow(rows[1..], row)
  }

  lemma {:induction false} InsertRowAscending(rows: seq<LedgerRow>, row: LedgerRow)
    requires Ascending(rows) && row.date !in RowDates(rows)
    ensures Ascending(InsertRow(rows, row))
  {
    if rows == [] {
    } else if Less(row.date, rows[0].date) {
      forall j | 1 <= j < |rows|
        ensures Less(row.date, rows[j].date)
      {
        LessTransitive(row.date, rows[0].date, rows[j].date);
      }
    } else {
      assert rows[0] in rows;
      LessTotal(row.date, rows[0].date);
      assert Ascending(rows[1..]);
      assert row.date !in RowDates(rows[1..]) by {
        assert forall x :: x in rows[1..] ==> x in rows;
      }
      InsertRowAscending(rows[1..], row);
      var rest := InsertRow(rows[1..], row);
      forall x | x in rest
        ensures Less(rows[0].date, x.date)
      {
        if x != row {
          var j :| 0 <= j < |rows[1..]| && rows[1..][j] == x;
          assert rows[j + 1] == x;
        }
      }
    }
  }

  /**
   * The `forEach` of `ledgerData`: one pass over the window accumulating
   * each date's sums in a dictionary.
   */
  method DailyTallies(filtered: seq<Transaction>) returns (daily: map<string, Tally>)
    ensures daily.Keys == Keys(filtered, DateOf)
    ensures forall d :: d in daily ==> daily[d] == DayTally(filtered, d)
  {
    daily := map[];
    var i := 0;
    while i < |filtered|
      invariant 0 <= i <= |filtered|
      invariant TalliesOf(daily, filtered[..i])
    {
      DailyStepAt(filtered, i, daily);
      daily := Tallied(daily, filtered[i]);
      i := i + 1;
    }
    assert filtered[..i] == filtered;
    assert TalliesOf(daily, filtered);
  }

  /** `Object.entries(dailyMap).sort(...)`: the dictionary's entries, ordered by date. */
  method EntriesByDate(daily: map<string, Tally>) returns (rows: seq<LedgerRow>)
    ensures Ascending(rows)
    ensures RowDates(rows) == daily.Keys
    ensures forall r :: r in rows ==> r.date in daily && r.tally == daily[r.date]
  {
    rows := [];
    var pending := daily.Keys;
    while pending != {}
      invariant pending <= daily.Keys
      invariant Ascending(rows)
      invariant RowDates(rows) == daily.Keys - pending
      invariant forall r :: r in rows ==> r.date in daily && r.tally == daily[r.date]
      decreases |pending|
    {
      var d :| d in pending;
      InsertRowAscending(rows, LedgerRow(d, daily[d]));
      rows := InsertRow(rows, LedgerRow(d, daily[d]));
      pending := pending - {d};
    }
  }

  /** `ledgerData`: the daily dictionary of the window, as rows in ascending date order. */
  method LedgerData(filtered: seq<Transaction>) returns (rows: seq<LedgerRow>)
    ensures IsLedgerOf(filtered, rows)
  {
    var daily := DailyTallies(filtered);
    rows := EntriesByDate(daily);
  }

  function RowIncome(r: LedgerRow): int { r.tally.income }
  function RowExpense(r: LedgerRow): int { r.tally.expense }
  function RowDues(r: LedgerRow): int { r.tally.dues }
  function RowProfit(r: LedgerRow): int { r.tally.profit }

  /** `totals`: the field-wise sum of the ledger's rows. */
  function Totals(rows: seq<LedgerRow>): Tally {
    Tally(Sum(rows, RowIncome), Sum(rows, RowExpense), Sum(rows, RowDues), Sum(rows, RowProfit))
  }

  function DateList(rows: seq<LedgerRow>): (ds: seq<string>)
    ensures |ds| == |rows| && forall i :: 0 <= i < |rows| ==> ds[i] == rows[i].date
  {
    seq(|rows|, i requires 0 <= i < |rows| => rows[i].date)
  }

  /** Summing a per-row field that holds its day's group sum is summing the group sums date by date. */
  lemma {:induction false} RowSumIsKeySum(txs: seq<Transaction>, rows: seq<LedgerRow>,
                                          field: LedgerRow -> int, f: Transaction -> int)
    requires forall r :: r in rows ==> field(r) == SumWhere(txs, DateOf, r.date, f)
    ensures Sum(rows, field) == SumOverKeys(txs, DateOf, f, DateList(rows))
  {
    if rows != [] {
      var init := rows[..|rows| - 1];
      assert forall r :: r in init ==> r in rows;
      RowSumIsKeySum(txs, init, field, f);
      assert DateList(rows)[..|rows| - 1] == DateList(init);
      assert rows[|rows| - 1] in rows;
    }
  }

  /** A field of the statement totals is the sum of that field over the window's transactions. */
  lemma LedgerFieldTotal(txs: seq<Transaction>, rows: seq<LedgerRow>, field: LedgerRow -> int, f: Transaction -> int)
    requires IsLedgerOf(txs, rows)
    requires forall r :: r in rows ==> field(r) == SumWhere(txs, DateOf, r.date, f)
    ensures Sum(rows, field) == Sum(txs, f)
  {
    var ds := DateList(rows);
    forall i, j | 0 <= i < j < |ds|
      ensures ds[i] != ds[j]
    {
      if ds[i] == ds[j] {
        LessIrreflexive(ds[i]);
      }
    }
    forall tx | tx in txs
      ensures DateOf(tx) in ds
    {
      assert tx.date in RowDates(rows);
      var r :| r in rows && r.date == tx.date;
      var i :| 0 <= i < |rows| && rows[i] == r;
      assert ds[i] == tx.date;
    }
    RowSumIsKeySum(txs, rows, field, f);
    PartitionSum(txs, DateOf, f, ds);
  }

  /**
   * The statement totals agree with the chart: the ledger's income,
   * expense and dues add up to the per-type sums of the window, and its
   * profit to the window's profit with missing profits counted as 0.
   */
  lemma LedgerTotalsMatchChart(txs: seq<Transaction>, rows: seq<LedgerRow>)
    requires IsLedgerOf(txs, rows)
    ensures Totals(rows) == Tally(ChartData(txs).income, ChartData(txs).expense, ChartData(txs).dues,
                                  Sum(txs, ProfitOf))
  {
    LedgerFieldTotal(txs, rows, RowIncome, AmountIfType(Income));
    LedgerFieldTotal(txs, rows, RowExpense, AmountIfType(Expense));
    LedgerFieldTotal(txs, rows, RowDues, AmountIfType(Due));
    LedgerFieldTotal(txs, rows, RowProfit, ProfitOf);
    SumOfTypeMasked(txs, Income);
    SumOfTypeMasked(txs, Expense);
    SumOfTypeMasked(txs, Due);
  }

  /** An empty window has an empty ledger and all-zero totals and chart. */
  lemma EmptyWindow(rows: seq<LedgerRow>)
    requires IsLedgerOf([], rows)
    ensures rows == [] && Totals(rows) == ZeroTally
    ensures ChartData([]) == TypeTotals(0, 0, 0)
  {
    RowDatesEmpty(rows);
  }
}
