/**
 * The application store (App.tsx): the signed-in user, the user's ledger
 * and the interface language, with the ledger operations every screen
 * reaches through the shared context. Browser storage is not modelled:
 * what the store would load from it is passed in, and what it writes to it
 * is left out. `confirm()` answers, fresh ids and the current time are
 * parameters.
 */
module Store {
  import opened Types
  import opened Folds

  /** `Partial<Transaction>`: each present field overwrites the entry's own. */
  datatype TransactionPatch = TransactionPatch(
    id: Option<string>,
    userId: Option<string>,
    txType: Option<TransactionType>,
    amount: Option<int>,
    description: Option<string>,
    category: Option<string>,
    date: Option<string>,
    createdAt: Option<string>,
    profit: Option<int>)

  const EmptyPatch := TransactionPatch(None, None, None, None, None, None, None, None, None)

  /** `{ ...tx, ...patch }`. */
  function Merge(tx: Transaction, patch: TransactionPatch): Transaction {
    Transaction(
      patch.id.GetOr(tx.id),
      patch.userId.GetOr(tx.userId),
      patch.txType.GetOr(tx.txType),
      patch.amount.GetOr(tx.amount),
      patch.description.GetOr(tx.description),
      patch.category.GetOr(tx.category),
      patch.date.GetOr(tx.date),
      patch.createdAt.GetOr(tx.createdAt),
      if patch.profit.Some? then patch.profit else tx.profit)
  }

  lemma MergeEmpty(tx: Transaction)
    ensures Merge(tx, EmptyPatch) == tx
  {
  }

  /** The entry `addTransaction` builds: the caller's fields, a fresh id, the owner's id and a creation stamp. */
  function Stamp(entry: NewTransaction, id: string, userId: string, createdAt: string): (tx: Transaction)
  {
    Transaction(id, userId, entry.txType, entry.amount, entry.description, entry.category,
                entry.date, createdAt, entry.profit)
  }

  /** `prev.map(tx => tx.id === id ? { ...tx, ...patch } : tx)`. */
  function UpdateById(txs: seq<Transaction>, id: string, patch: TransactionPatch): (r: seq<Transaction>)
    ensures |r| == |txs|
    ensures forall i :: 0 <= i < |txs| && txs[i].id != id ==> r[i] == txs[i]
    ensures forall i :: 0 <= i < |txs| && txs[i].id == id ==> r[i] == Merge(txs[i], patch)
  {
    if txs == [] then []
    else
      var last := txs[|txs| - 1];
      UpdateById(txs[..|txs| - 1], id, patch) + [if last.id == id then Merge(last, patch) else last]
  }

  /** An update naming an id that no entry carries leaves the ledger as it was. */
  lemma {:induction false} UpdateAbsentId(txs: seq<Transaction>, id: string, patch: TransactionPatch)
    requires forall tx :: tx in txs ==> tx.id != id
    ensures UpdateById(txs, id, patch) == txs
  {
    if txs != [] {
      UpdateAbsentId(txs[..|txs| - 1], id, patch);
    }
  }

  /** Applying the same update twice is applying it once, unless the patch renames the entry. */
  lemma UpdateIdempotent(txs: seq<Transaction>, id: string, patch: TransactionPatch)
    requires patch.id.None? || patch.id == Some(id)
    ensures UpdateById(UpdateById(txs, id, patch), id, patch) == UpdateById(txs, id, patch)
  {
  }

  function NotId(id: string): Transaction -> bool {
    (tx: Transaction) => tx.id != id
  }

  /** `prev.filter(tx => tx.id !== id)`. */
  function RemoveById(txs: seq<Transaction>, id: string): (r: seq<Transaction>)
    ensures forall tx :: tx in r <==> tx in txs && tx.id != id
  {
    Filter(txs, NotId(id))
  }

  /** Removal keeps the surviving entries in their order, and removes nothing when the id is absent. */
  lemma RemoveKeepsOrder(txs: seq<Transaction>, id: string)
    ensures Subsequence(RemoveById(txs, id), txs)
    ensures (forall tx :: tx in txs ==> tx.id != id) ==> RemoveById(txs, id) == txs
  {
    FilterIsSubsequence(txs, NotId(id));
    if forall tx :: tx in txs ==> tx.id != id {
      FilterAll(txs, NotId(id));
    }
  }

  /**
   * `t(key)`: the key's translation in the current language (the English
   * table when the language has none), or the key itself when the
   * translation is missing or empty.
   */
  function Translate(table: map<Language, map<string, string>>, language: Language, key: string): (r: string)
    requires EN in table
    ensures var langSet := if language in table then table[language] else table[EN];
            if key in langSet && langSet[key] != "" then r == langSet[key] else r == key
    ensures key != "" ==> r != ""
  {
    var langSet := if language in table then table[language] else table[EN];
    if key in langSet && langSet[key] != "" then langSet[key] else key
  }

  class AppStore {
    var user: Option<UserProfile>
    var transactions: seq<Transaction>
    var language: Language

    /** Opening the app: the saved session, and its saved ledger only when someone is signed in. */
    constructor (savedUser: Option<UserProfile>, savedLedger: seq<Transaction>, savedLanguage: Language)
      ensures user == savedUser && language == savedLanguage
      ensures transactions == if savedUser.Some? then savedLedger else []
    {
      user := savedUser;
      language := savedLanguage;
      transactions := if savedUser.Some? then savedLedger else [];
    }

    /**
     * `setUser` together with the effect that watches the user: signing in
     * loads that user's saved ledger, signing out clears the ledger.
     */
    method SetUser(u: Option<UserProfile>, savedLedger: seq<Transaction>)
      modifies this
      ensures user == u && language == old(language)
      ensures u.None? ==> transactions == []
      ensures u.Some? ==> transactions == savedLedger
    {
      user := u;
      transactions := if u.Some? then savedLedger else [];
    }

    /** `addTransaction`: nothing without a user; otherwise the stamped entry goes in front. */
    method AddTransaction(entry: NewTransaction, freshId: string, now: string)
      modifies this`transactions
      ensures user.None? ==> transactions == old(transactions)
      ensures user.Some? ==> transactions == [Stamp(entry, freshId, user.value.id, now)] + old(transactions)
      ensures user.Some? ==> transactions[0].userId == user.value.id && transactions[1..] == old(transactions)
    {
      if user.Some? {
        transactions := [Stamp(entry, freshId, user.value.id, now)] + transactions;
      }
    }

    /** `updateTransaction`: the patch is merged into every entry with the id. */
    method UpdateTransaction(id: string, patch: TransactionPatch)
      modifies this`transactions
      ensures transactions == UpdateById(old(transactions), id, patch)
    {
      transactions := UpdateById(transactions, id, patch);
    }

    /** `deleteTransaction`: once confirmed, every entry with the id goes. */
    method DeleteTransaction(id: string, confirmed: bool)
      modifies this`transactions
      ensures transactions == if confirmed then RemoveById(old(transactions), id) else old(transactions)
    {
      if confirmed {
        transactions := RemoveById(transactions, id);
      }
    }

    /** `resetApp`: once confirmed, the ledger is emptied. */
    method ResetApp(confirmed: bool)
      modifies this`transactions
      ensures transactions == if confirmed then [] else old(transactions)
    {
      if confirmed {
        transactions := [];
      }
    }

    /** `t(key)` in the store's current language. */
    function T(table: map<Language, map<string, string>>, key: string): (r: string)
      reads this
      requires EN in table
      ensures key != "" ==> r != ""
    {
      Translate(table, language, key)
    }
  }
}
