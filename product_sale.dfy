/**
 * The sale screen (components/ProductSale.tsx): a cart of lines, its total,
 * the split of that total into a paid and a due part, and checkout, which
 * writes at most two ledger entries through the store: INCOME for what was
 * paid and DUE for the rest. This screen keeps no sale records and touches
 * no stock.
 */
module ProductSale {
  import opened Types
  import opened Text
  import opened Folds
  import LedgerSums
  import Store

  datatype SaleItem = SaleItem(id: string, name: string, qty: int, price: int)

  /** The fields the screen's inputs change on a line (name, quantity, price). */
  datatype ItemPatch = ItemPatch(name: Option<string>, qty: Option<int>, price: Option<int>)

  function Ids(items: seq<SaleItem>): set<string> {
    set i | i in items :: i.id
  }

  predicate DistinctIds(items: seq<SaleItem>) {
    forall i, j :: 0 <= i < j < |items| ==> items[i].id != items[j].id
  }

  /** A new line: no name yet, quantity 1, price 0. */
  function BlankItem(id: string): SaleItem {
    SaleItem(id, "", 1, 0)
  }

  /** The cart a new sale starts with. */
  function NewCart(freshId: string): (items: seq<SaleItem>)
    ensures |items| == 1 && DistinctIds(items)
  {
    [BlankItem(freshId)]
  }

  /** `handleAddItem`: a blank line at the end. */
  function AddItem(items: seq<SaleItem>, freshId: string): (r: seq<SaleItem>)
    ensures |r| == |items| + 1 && r[..|items|] == items && r[|items|] == BlankItem(freshId)
    ensures DistinctIds(items) && freshId !in Ids(items) ==> DistinctIds(r)
  {
    items + [BlankItem(freshId)]
  }

  function NotItem(id: string): SaleItem -> bool {
    (i: SaleItem) => i.id != id
  }

  /** `handleRemoveItem`: refused when one line is left, otherwise drops the lines with the id. */
  function RemoveItem(items: seq<SaleItem>, id: string): (r: seq<SaleItem>)
    ensures |items| == 1 ==> r == items
    ensures |items| != 1 ==> forall i :: i in r <==> i in items && i.id != id
  {
    if |items| == 1 then items else Filter(items, NotItem(id))
  }

  /**
   * The cart never empties: with distinct line ids, removing a line from a
   * cart of two or more lines leaves at least one, and the survivors keep
   * their order and stay distinct.
   */
  lemma RemoveKeepsCartNonEmpty(items: seq<SaleItem>, id: string)
    requires |items| >= 1 && DistinctIds(items)
    ensures |RemoveItem(items, id)| >= 1
    ensures Subsequence(RemoveItem(items, id), items)
  {
    if |items| == 1 {
      assert RemoveItem(items, id) == items;
      assert Subsequence(items[..0], items[..0]);
    } else {
      FilterIsSubsequence(items, NotItem(id));
      var k := if items[0].id != id then 0 else 1;
      assert items[k].id != id;
      assert items[k] in RemoveItem(items, id);
    }
  }

  /** `{ ...item, ...patch }`. */
  function Patch(item: SaleItem, patch: ItemPatch): SaleItem {
    SaleItem(item.id, patch.name.GetOr(item.name), patch.qty.GetOr(item.qty), patch.price.GetOr(item.price))
  }

  /** `updateItem`: same lines in the same order; only the lines with the id take the patch. */
  function UpdateItem(items: seq<SaleItem>, id: string, patch: ItemPatch): (r: seq<SaleItem>)
    ensures |r| == |items|
    ensures forall k :: 0 <= k < |items| ==> r[k].id == items[k].id
    ensures forall k :: 0 <= k < |items| && items[k].id != id ==> r[k] == items[k]
    ensures forall k :: 0 <= k < |items| && items[k].id == id ==> r[k] == Patch(items[k], patch)
  {
    seq(|items|, k requires 0 <= k < |items| => if items[k].id == id then Patch(items[k], patch) else items[k])
  }

  function LineTotal(item: SaleItem): int {
    item.qty * item.price
  }

  /** `totalAmount`: the sum of quantity times price over the lines. */
  function TotalAmount(items: seq<SaleItem>): int {
    Sum(items, LineTotal)
  }

  /** A blank line adds nothing to the total. */
  lemma AddItemKeepsTotal(items: seq<SaleItem>, freshId: string)
    ensures TotalAmount(AddItem(items, freshId)) == TotalAmount(items)
  {
    assert AddItem(items, freshId)[..|items|] == items;
  }

  /** Changing one line's quantity or price moves the total by that line's change. */
  lemma {:induction false} UpdateItemTotal(items: seq<SaleItem>, id: string, patch: ItemPatch)
    requires DistinctIds(items)
    ensures forall k :: 0 <= k < |items| && items[k].id == id ==>
      TotalAmount(UpdateItem(items, id, patch)) == TotalAmount(items) - LineTotal(items[k]) + LineTotal(Patch(items[k], patch))
    ensures (forall k :: 0 <= k < |items| ==> items[k].id != id) ==>
      TotalAmount(UpdateItem(items, id, patch)) == TotalAmount(items)
  {
    if items != [] {
      var init := items[..|items| - 1];
      assert UpdateItem(items, id, patch)[..|items| - 1] == UpdateItem(init, id, patch);
      UpdateItemTotal(init, id, patch);
      forall k | 0 <= k < |items| && items[k].id == id
        ensures TotalAmount(UpdateItem(items, id, patch)) == TotalAmount(items) - LineTotal(items[k]) + LineTotal(Patch(items[k], patch))
      {
        if k < |items| - 1 {
          assert items[|items| - 1].id != id;
          assert init[k] == items[k];
        } else {
          assert forall j :: 0 <= j < |init| ==> init[j].id != id;
        }
      }
      if forall k :: 0 <= k < |items| ==> items[k].id != id {
        assert forall k :: 0 <= k < |init| ==> init[k].id != id;
      }
    }
  }

  /** `currentDue`: what is left to pay, never negative. */
  function CurrentDue(total: int, paid: int): (due: int)
    ensures due >= 0
    ensures due == 0 <==> paid >= total
    ensures 0 <= paid <= total ==> paid + due == total
    ensures paid < total ==> paid + due == total
  {
    if total - paid > 0 then total - paid else 0
  }

  datatype PaymentStatus = FullPaid | PartialPaid | FullDue

  /** The invoice's payment-status label. */
  function Status(paid: int, due: int): (s: PaymentStatus)
    ensures s == FullPaid <==> due == 0
    ensures s == PartialPaid <==> due != 0 && paid > 0
    ensures s == FullDue <==> due != 0 && paid <= 0
  {
    if due == 0 then FullPaid else if paid > 0 then PartialPaid else FullDue
  }

  /** `items.some(i => !i.name || i.price <= 0)` fails: every line has a name and a positive price. */
  predicate ValidCart(items: seq<SaleItem>) {
    forall i :: i in items ==> i.name != "" && i.price > 0
  }

  /** `commonDesc`: invoice id, customer (or Walk-in) and the number of lines. */
  function CommonDescription(invoiceId: string, customerName: string, lineCount: nat): string {
    invoiceId + " - " + (if customerName == "" then "Walk-in" else customerName)
      + " (" + NatToString(lineCount) + " items)"
  }

  function SalesCategory(language: Language): string {
    if language == EN then "Sales" else "বিক্রয়"
  }

  function DuesCategory(language: Language): string {
    if language == EN then "Sales Dues" else "বিক্রয় বাকি"
  }

  /** The INCOME entry for the paid part. */
  function IncomeEntry(desc: string, paid: int, due: int, language: Language, today: string): NewTransaction {
    NewTransaction(Income, paid, desc + (if due > 0 then " (Partial Payment)" else " (Full Paid)"),
                   SalesCategory(language), today, None)
  }

  /** The DUE entry for the unpaid part. */
  function DueEntry(desc: string, paid: int, due: int, language: Language, today: string): NewTransaction {
    NewTransaction(Due, due, desc + (if paid > 0 then " (Remaining Due)" else " (Full Due)"),
                   DuesCategory(language), today, None)
  }

  /**
   * The entries a valid checkout hands to `addTransaction`, in call order:
   * INCOME when something was paid, then DUE when something is left.
   */
  function SaleEntries(items: seq<SaleItem>, paid: int, invoiceId: string, customerName: string,
                       language: Language, today: string): (es: seq<NewTransaction>)
    ensures |es| <= 2
    ensures forall e :: e in es ==> e.amount > 0 && e.date == today
  {
    var due := CurrentDue(TotalAmount(items), paid);
    var desc := CommonDescription(invoiceId, customerName, |items|);
    (if paid > 0 then [IncomeEntry(desc, paid, due, language, today)] else [])
      + (if due > 0 then [DueEntry(desc, paid, due, language, today)] else [])
  }

  /**
   * What checkout records, entry by entry: an INCOME entry of the paid
   * amount iff something was paid, a DUE entry of the due amount iff
   * something is left; the INCOME entry is filed under Sales and marked
   * partial iff something is left, the DUE entry is filed under Sales Dues
   * and marked as a remainder iff something was paid. Together they record
   * the positive part of the payment plus the due, which is the whole
   * total when 0 <= paid <= total (an overpayment is recorded in full).
   */
  lemma SaleEntriesSplit(items: seq<SaleItem>, paid: int, invoiceId: string, customerName: string,
                         language: Language, today: string)
    ensures var es := SaleEntries(items, paid, invoiceId, customerName, language, today);
            var total := TotalAmount(items);
            var due := CurrentDue(total, paid);
            var desc := CommonDescription(invoiceId, customerName, |items|);
            && (exists e :: e in es && e.txType == Income) == (paid > 0)
            && (exists e :: e in es && e.txType == Due) == (due > 0)
            && (forall e :: e in es && e.txType == Income ==>
                  e.amount == paid && e.category == SalesCategory(language)
                  && e.description == desc + (if due > 0 then " (Partial Payment)" else " (Full Paid)"))
            && (forall e :: e in es && e.txType == Due ==>
                  e.amount == due && e.category == DuesCategory(language)
                  && e.description == desc + (if paid > 0 then " (Remaining Due)" else " (Full Due)"))
            && (0 <= paid <= total ==> Sum(es, EntryAmount) == total)
            && Sum(es, EntryAmount) == (if paid > 0 then paid else 0) + due
  {
    var es := SaleEntries(items, paid, invoiceId, customerName, language, today);
    var total := TotalAmount(items);
    var due := CurrentDue(total, paid);
    if paid > 0 && due > 0 {
      assert |es| == 2 && es[..1] == [es[0]] && [es[0]][..0] == [];
      assert Sum(es, EntryAmount) == Sum([es[0]], EntryAmount) + es[1].amount;
      assert Sum(es, EntryAmount) == paid + due;
    } else if paid > 0 || due > 0 {
      assert |es| == 1 && es[..0] == [];
      assert Sum(es, EntryAmount) == es[0].amount;
    }
  }

  function EntryAmount(e: NewTransaction): int { e.amount }

  /**
   * The ledger entries a checkout writes, newest first: each entry of
   * `SaleEntries` stamped with its id, the later one in front.
   */
  function Recorded(items: seq<SaleItem>, paid: int, invoiceId: string, customerName: string,
                    language: Language, today: string, incomeId: string, dueId: string,
                    userId: string, now: string): seq<Transaction>
  {
    var due := CurrentDue(TotalAmount(items), paid);
    var desc := CommonDescription(invoiceId, customerName, |items|);
    (if due > 0 then [Store.Stamp(DueEntry(desc, paid, due, language, today), dueId, userId, now)] else [])
      + (if paid > 0 then [Store.Stamp(IncomeEntry(desc, paid, due, language, today), incomeId, userId, now)] else [])
  }

  /**
   * What checkout writes is `SaleEntries` in reverse, each stamped with the
   * user's id and its own id, so the amounts it adds to the ledger are the
   * amounts `SaleEntriesSplit` accounts for.
   */
  lemma RecordedAreSaleEntries(items: seq<SaleItem>, paid: int, invoiceId: string, customerName: string,
                               language: Language, today: string, incomeId: string, dueId: string,
                               userId: string, now: string)
    ensures var es := SaleEntries(items, paid, invoiceId, customerName, language, today);
            var rs := Recorded(items, paid, invoiceId, customerName, language, today, incomeId, dueId, userId, now);
            && |rs| == |es|
            && (forall k :: 0 <= k < |rs| ==>
                  var e := es[|es| - 1 - k];
                  rs[k] == Store.Stamp(e, if e.txType == Income then incomeId else dueId, userId, now))
            && Sum(rs, LedgerSums.AmountOf) == Sum(es, EntryAmount)
  {
    var es := SaleEntries(items, paid, invoiceId, customerName, language, today);
    var rs := Recorded(items, paid, invoiceId, customerName, language, today, incomeId, dueId, userId, now);
    var due := CurrentDue(TotalAmount(items), paid);
    if paid > 0 && due > 0 {
      assert es == [es[0], es[1]] && rs == [rs[0], rs[1]];
      SumPair(es[0], es[1], EntryAmount);
      SumPair(rs[0], rs[1], LedgerSums.AmountOf);
    } else if paid > 0 || due > 0 {
      assert |es| == 1 && es[..0] == [];
      assert |rs| == 1 && rs[..0] == [];
    }
  }

  /** What a finished checkout shows. */
  datatype Invoice = Invoice(invoiceId: string, total: int, paid: int, due: int, status: PaymentStatus)

  /**
   * `handleFinishSale`: a cart with a nameless line or a line without a
   * positive price is refused and nothing is written; otherwise the
   * entries are added one after the other through the store, each going in
   * front of the ledger, and the invoice is shown.
   */
  method FinishSale(store: Store.AppStore, items: seq<SaleItem>, paid: int, invoiceId: string,
                    customerName: string, language: Language, today: string,
                    incomeId: string, dueId: string, now: string)
    returns (invoice: Option<Invoice>)
    modifies store`transactions
    ensures !ValidCart(items) ==> invoice.None? && store.transactions == old(store.transactions)
    ensures ValidCart(items) ==> invoice.Some? && invoice.value.invoiceId == invoiceId
    ensures ValidCart(items) ==>
      var total := TotalAmount(items);
      var due := CurrentDue(total, paid);
      var desc := CommonDescription(invoiceId, customerName, |items|);
      var u := store.user;
      && invoice.value == Invoice(invoiceId, total, paid, due, Status(paid, due))
      && (u.None? ==> store.transactions == old(store.transactions))
      && (u.Some? ==>
            store.transactions ==
              Recorded(items, paid, invoiceId, customerName, language, today, incomeId, dueId, u.value.id, now)
              + old(store.transactions))
    ensures ValidCart(items) && store.user.Some? ==>
      Sum(store.transactions, LedgerSums.AmountOf)
        == Sum(old(store.transactions), LedgerSums.AmountOf)
           + Sum(SaleEntries(items, paid, invoiceId, customerName, language, today), EntryAmount)
  {
    if exists i :: i in items && (i.name == "" || i.price <= 0) {
      return None;
    }
    var total := TotalAmount(items);
    var due := CurrentDue(total, paid);
    var desc := CommonDescription(invoiceId, customerName, |items|);
    if paid > 0 {
      store.AddTransaction(IncomeEntry(desc, paid, due, language, today), incomeId, now);
    }
    if due > 0 {
      store.AddTransaction(DueEntry(desc, paid, due, language, today), dueId, now);
    }
    invoice := Some(Invoice(invoiceId, total, paid, due, Status(paid, due)));
    if store.user.Some? {
      var rs := Recorded(items, paid, invoiceId, customerName, language, today, incomeId, dueId, store.user.value.id, now);
      assert store.transactions == rs + old(store.transactions);
      SumAppend(rs, old(store.transactions), LedgerSums.AmountOf);
      RecordedAreSaleEntries(items, paid, invoiceId, customerName, language, today, incomeId, dueId,
                             store.user.value.id, now);
    }
  }
}
