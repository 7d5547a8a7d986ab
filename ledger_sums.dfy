/**
 * Per-type sums over the ledger, written in both report screens as
 * `txs.filter(t => t.type === T).reduce((acc, t) => acc + t.amount, 0)`.
 */
module LedgerSums {
  import opened Types
  import opened Folds

  function AmountOf(tx: Transaction): int { tx.amount }

  function OfType(ty: TransactionType): Transaction -> bool {
    (tx: Transaction) => tx.txType == ty
  }

  /** The amount of a transaction of type `ty`, and 0 for any other type. */
  function AmountIfType(ty: TransactionType): Transaction -> int {
    (tx: Transaction) => if tx.txType == ty then tx.amount else 0
  }

  /** `txs.filter(t => t.type === ty).reduce((acc, t) => acc + t.amount, 0)`. */
  function SumOfType(txs: seq<Transaction>, ty: TransactionType): int {
    Sum(Filter(txs, OfType(ty)), AmountOf)
  }

  datatype TypeTotals = TypeTotals(income: int, expense: int, dues: int)

  function TotalsByType(txs: seq<Transaction>): TypeTotals {
    TypeTotals(SumOfType(txs, Income), SumOfType(txs, Expense), SumOfType(txs, Due))
  }

  /** Summing the filtered list is summing the masked amounts over the whole list. */
  lemma {:induction false} SumOfTypeMasked(txs: seq<Transaction>, ty: TransactionType)
    ensures SumOfType(txs, ty) == Sum(txs, AmountIfType(ty))
  {
    if txs != [] {
      var init, last := txs[..|txs| - 1], txs[|txs| - 1];
      SumOfTypeMasked(init, ty);
      SumAppend(Filter(init, OfType(ty)), if last.txType == ty then [last] else [], AmountOf);
      assert Sum([last], AmountOf) == last.amount by {
        assert [last][..0] == [];
      }
    }
  }

  /** Every transaction counts toward exactly one of income, expense and dues. */
  lemma {:induction false} TypesPartitionAmounts(txs: seq<Transaction>)
    ensures SumOfType(txs, Income) + SumOfType(txs, Expense) + SumOfType(txs, Due) == Sum(txs, AmountOf)
  {
    SumOfTypeMasked(txs, Income);
    SumOfTypeMasked(txs, Expense);
    SumOfTypeMasked(txs, Due);
    MaskedSumsAdd(txs);
  }

  lemma {:induction false} MaskedSumsAdd(txs: seq<Transaction>)
    ensures Sum(txs, AmountIfType(Income)) + Sum(txs, AmountIfType(Expense)) + Sum(txs, AmountIfType(Due))
         == Sum(txs, AmountOf)
  {
    if txs != [] {
      MaskedSumsAdd(txs[..|txs| - 1]);
    }
  }

  /**
   * The transactions of a sublist contribute no more than those of the whole
   * list, type by type, when amounts are nonnegative.
   */
  lemma SumOfTypeOfFilterBounded(txs: seq<Transaction>, p: Transaction -> bool, ty: TransactionType)
    requires forall tx :: tx in txs ==> tx.amount >= 0
    ensures 0 <= SumOfType(Filter(txs, p), ty) <= SumOfType(txs, ty)
  {
    SumOfTypeMasked(txs, ty);
    SumOfTypeMasked(Filter(txs, p), ty);
    SumFilterBounded(txs, p, AmountIfType(ty));
  }
}
