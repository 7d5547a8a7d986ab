/**
 * Today's sales (components/TodaySales.tsx): the user's sale records dated
 * today, a per-category summary built by a `forEach` into a dictionary,
 * the grand profit, and deleting a record from the profile. Stock is not
 * touched by a delete.
 */
module TodaySales {
  import opened Types
  import opened Folds

  /** `user?.sales || []`. */
  function Sales(user: Option<UserProfile>): seq<SaleRecord> {
    if user.Some? && user.value.sales.Some? then user.value.sales.value else []
  }

  function OnDay(day: string): SaleRecord -> bool {
    (s: SaleRecord) => s.date == day
  }

  /** `todaySales`: the records dated today, in their stored order. */
  function TodaysSales(user: Option<UserProfile>, today: string): (r: seq<SaleRecord>)
    ensures forall s :: s in r <==> s in Sales(user) && s.date == today
  {
    Filter(Sales(user), OnDay(today))
  }

  lemma TodaysSalesInOrder(user: Option<UserProfile>, today: string)
    ensures Subsequence(TodaysSales(user, today), Sales(user))
  {
    FilterIsSubsequence(Sales(user), OnDay(today));
  }

  function CategoryOf(s: SaleRecord): string { s.category }
  function QtyOf(s: SaleRecord): int { s.qty }
  function ProfitOf(s: SaleRecord): int { s.profit }
  function ValueOf(s: SaleRecord): int { s.qty * s.sellPrice }

  datatype CategoryTotals = CategoryTotals(qty: int, profit: int, total: int)

  /** What the summary holds for one category: its qty, profit and `qty * sellPrice` sums. */
  function TotalsFor(sales: seq<SaleRecord>, category: string): CategoryTotals {
    CategoryTotals(SumWhere(sales, CategoryOf, category, QtyOf),
                   SumWhere(sales, CategoryOf, category, ProfitOf),
                   SumWhere(sales, CategoryOf, category, ValueOf))
  }

  /** The body of the `forEach`: one record added into its category's totals. */
  function AddSale(t: CategoryTotals, s: SaleRecord): CategoryTotals {
    CategoryTotals(t.qty + s.qty, t.profit + s.profit, t.total + s.qty * s.sellPrice)
  }

  predicate Summarizes(summary: map<string, CategoryTotals>, sales: seq<SaleRecord>) {
    && summary.Keys == Keys(sales, CategoryOf)
    && forall c :: c in summary ==> summary[c] == TotalsFor(sales, c)
  }

  /** The body of the `forEach` on the dictionary: the record's category starts from zeros and takes the record. */
  function Record(summary: map<string, CategoryTotals>, s: SaleRecord): map<string, CategoryTotals> {
    var base := if s.category in summary then summary[s.category] else CategoryTotals(0, 0, 0);
    summary[s.category := AddSale(base, s)]
  }

  /** One more record changes only its own category's totals, by exactly that record. */
  lemma TotalsForSnoc(sales: seq<SaleRecord>, s: SaleRecord, category: string)
    ensures TotalsFor(sales + [s], category) ==
      if s.category != category then TotalsFor(sales, category) else AddSale(TotalsFor(sales, category), s)
  {
    assert (sales + [s])[..|sales|] == sales;
  }

  /** One step of the `forEach` keeps the dictionary the summary of the prefix folded so far. */
  lemma SummaryStep(sales: seq<SaleRecord>, i: nat, summary: map<string, CategoryTotals>)
    requires i < |sales| && Summarizes(summary, sales[..i])
    ensures Summarizes(Record(summary, sales[i]), sales[..i + 1])
  {
    var prefix, s := sales[..i], sales[i];
    assert sales[..i + 1] == prefix + [s];
    SummarySnoc(prefix, s, summary);
  }

  lemma SummarySnoc(prefix: seq<SaleRecord>, s: SaleRecord, summary: map<string, CategoryTotals>)
    requires Summarizes(summary, prefix)
    ensures Summarizes(Record(summary, s), prefix + [s])
  {
    var next := Record(summary, s);
    assert (prefix + [s])[..|prefix|] == prefix;
    assert Keys(prefix + [s], CategoryOf) == Keys(prefix, CategoryOf) + {s.category};
    forall c | c in next
      ensures next[c] == TotalsFor(prefix + [s], c)
    {
      TotalsForSnoc(prefix, s, c);
      if c == s.category && c !in summary {
        SumWhereAbsent(prefix, CategoryOf, c, QtyOf);
        SumWhereAbsent(prefix, CategoryOf, c, ProfitOf);
        SumWhereAbsent(prefix, CategoryOf, c, ValueOf);
      }
    }
  }

  /** `categorySummary`: one entry per category met today, holding that category's sums. */
  method CategorySummary(todaySales: seq<SaleRecord>) returns (summary: map<string, CategoryTotals>)
    ensures summary.Keys == Keys(todaySales, CategoryOf)
    ensures forall c :: c in summary ==> summary[c] == TotalsFor(todaySales, c)
  {
    summary := map[];
    var i := 0;
    while i < |todaySales|
      invariant 0 <= i <= |todaySales|
      invariant Summarizes(summary, todaySales[..i])
    {
      SummaryStep(todaySales, i, summary);
      summary := Record(summary, todaySales[i]);
      i := i + 1;
    }
    assert todaySales[..i] == todaySales;
    assert Summarizes(summary, todaySales);
  }

  /** The grand profit under the table: the profit summed over today's records. */
  function GrandProfit(todaySales: seq<SaleRecord>): int {
    Sum(todaySales, ProfitOf)
  }

  /** A field of the summary added up over a listing of its categories. */
  function SummaryField(summary: map<string, CategoryTotals>, field: CategoryTotals -> int, cats: seq<string>): int
    requires forall c :: c in cats ==> c in summary
  {
    if cats == [] then 0
    else SummaryField(summary, field, cats[..|cats| - 1]) + field(summary[cats[|cats| - 1]])
  }

  lemma {:induction false} SummaryFieldIsGroupSum(sales: seq<SaleRecord>, summary: map<string, CategoryTotals>,
                                                   field: CategoryTotals -> int, f: SaleRecord -> int, cats: seq<string>)
    requires forall c :: c in cats ==> c in summary
    requires forall c :: c in summary ==> field(summary[c]) == SumWhere(sales, CategoryOf, c, f)
    ensures SummaryField(summary, field, cats) == SumOverKeys(sales, CategoryOf, f, cats)
  {
    if cats != [] {
      SummaryFieldIsGroupSum(sales, summary, field, f, cats[..|cats| - 1]);
    }
  }

  /**
   * The summary conserves today's sales: listing each of its categories once,
   * the quantities add up to the quantity sold today, the profits to the
   * grand profit, and the totals to today's takings.
   */
  lemma SummaryConserves(todaySales: seq<SaleRecord>, summary: map<string, CategoryTotals>, cats: seq<string>)
    requires Summarizes(summary, todaySales)
    requires Distinct(cats) && forall c :: c in cats <==> c in summary
    ensures SummaryField(summary, (t: CategoryTotals) => t.qty, cats) == Sum(todaySales, QtyOf)
    ensures SummaryField(summary, (t: CategoryTotals) => t.profit, cats) == GrandProfit(todaySales)
    ensures SummaryField(summary, (t: CategoryTotals) => t.total, cats) == Sum(todaySales, ValueOf)
  {
    SummaryFieldIsGroupSum(todaySales, summary, (t: CategoryTotals) => t.qty, QtyOf, cats);
    SummaryFieldIsGroupSum(todaySales, summary, (t: CategoryTotals) => t.profit, ProfitOf, cats);
    SummaryFieldIsGroupSum(todaySales, summary, (t: CategoryTotals) => t.total, ValueOf, cats);
    PartitionSum(todaySales, CategoryOf, QtyOf, cats);
    PartitionSum(todaySales, CategoryOf, ProfitOf, cats);
    PartitionSum(todaySales, CategoryOf, ValueOf, cats);
  }

  function NotSale(id: string): SaleRecord -> bool {
    (s: SaleRecord) => s.id != id
  }

  /**
   * `handleDelete`: the profile handed to `syncUserProfile`, or `None` when
   * nothing happens (no user, or the confirm was cancelled). Only the sales
   * list changes; products and their stock stay as they were.
   */
  function DeleteSale(user: Option<UserProfile>, confirmed: bool, id: string): (r: Option<UserProfile>)
    ensures r.None? <==> user.None? || !confirmed
    ensures r.Some? ==> r.value.sales.Some? && r.value.(sales := user.value.sales) == user.value
    ensures r.Some? ==> forall s :: s in r.value.sales.value <==> s in Sales(user) && s.id != id
  {
    if user.None? || !confirmed then None
    else Some(user.value.(sales := Some(Filter(Sales(user), NotSale(id)))))
  }

  /** The surviving records keep their order, and deleting an id no record has drops nothing. */
  lemma DeleteKeepsOrder(user: Option<UserProfile>, id: string)
    requires user.Some?
    ensures Subsequence(DeleteSale(user, true, id).value.sales.value, Sales(user))
    ensures (forall s :: s in Sales(user) ==> s.id != id) ==> DeleteSale(user, true, id).value.sales.value == Sales(user)
  {
    FilterIsSubsequence(Sales(user), NotSale(id));
    if forall s :: s in Sales(user) ==> s.id != id {
      FilterAll(Sales(user), NotSale(id));
    }
  }
}
