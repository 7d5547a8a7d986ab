# Manage-money point of sale, modelled in Dafny

Manage-money is a single-page point-of-sale and bookkeeping app for a small
shop. A shop owner signs up and logs in. The owner keeps a ledger of INCOME,
EXPENSE and DUE transactions, sells from a cart that books the paid part as
income and the rest as a due, and reads daily and ranged reports. The owner
also keeps a product catalog, a partner contact list and a list of
moderators. Moderators share the account but may not delete catalog or
partner entries.

This project models the state logic under the app's screens and proves what
that logic promises:

- `types.dfy` (module `Types`): the records of `types.ts` — transaction,
  product, sale record, partner, moderator and user profile.
- `text.dfy` (module `Text`): string order, ASCII lower-casing, substring
  search and zero-padded numbers.
- `folds.dfy` (module `Folds`): `filter`, `findIndex`, `reduce` with `+`,
  and grouping by key. It proves that group sums conserve the total.
- `ledger_sums.dfy` (module `LedgerSums`): the per-type sums that the
  dashboard and the reports both compute.
- `store.dfy` (module `Store`): the ledger store of `App.tsx`, as class
  `AppStore` with the signed-in user, the ledger and the language, plus its
  list functions.
- `product_sale.dfy` (module `ProductSale`): the cart, its total, the
  paid/due split, the checkout entries and the payment-status label.
- `reports.dfy` (module `Reports`): the date window, the chart sums, the
  daily ledger (a `forEach` into a dictionary, then a sort) and the
  statement totals.
- `dashboard.dfy` (module `Dashboard`): the 12-hour clock, the all-time and
  today summaries, the balance, and the quick-entry and edit handlers.
- `today_sales.dfy` (module `TodaySales`): today's sale records, the
  per-category summary (a `forEach` into a dictionary), the grand profit
  and deleting a record.
- `user_directory.dfy` (module `UserDirectory`): the "replace the user in
  the all-users list by id" write, shared by the next three screens. The
  write is an in-place array update.
- `product_stock.dfy`, `partner_contact.dfy`, `settings.dfy` (modules
  `ProductStock`, `PartnerContact`, `Settings`): adding and removing
  products, partners and moderators, the searches, the profile merge, the
  primary colour and the password reveal.
- `auth.dfy` (module `Auth`): sign-up, login and password recovery.

Modelling choices:

- Money and quantities are integers (minor units).
- A `parseFloat(x) || 0` input is an `Option<int>` that falls back to 0.
- Browser effects are parameters: the answer to `confirm()`, today's date,
  the current time, fresh ids and the stored lists already parsed.
- A handler that changes the session user returns the profile it passes to
  `setUser`/`syncUserProfile`, and writes the all-users array in place.
- Fields that the source leaves undefined in some records are `Option`s:
  - products: category, colour, size and stock;
  - user profiles: the moderator, product, partner and sale lists, which a
    new user lacks;
  - transactions: profit.
- A remove handler whose `filter` would throw on a missing list is modelled
  as changing nothing.
- The source compares dates with `<=`/`>=` and sorts them with
  `localeCompare`. Both are modelled as lexicographic order on characters.
  For `YYYY-MM-DD` dates the two agree.

Where the source writes one thing and describes another, the model follows
the source:

- Checkout with `paid` above the total records the whole payment as income,
  so the entries then sum to `paid`, not to the total.
- Removing a moderator checks no role, unlike removing a product or a
  partner.
- A profile update whose currency was empty saves `'৳'`, because the form
  starts from `user.currency || '৳'`.

## Model

| member | source | states |
|---|---|---|
| Text.LessIrreflexive | components/Reports.tsx:46 | No date sorts before itself. |
| Text.LessTransitive | components/Reports.tsx:17 | The string order used for date windows and sorting is transitive. |
| Text.LessTotal | components/Reports.tsx:46 | Any two distinct dates are ordered one way or the other. |
| Text.LessAsymmetric | components/Reports.tsx:17 | Two dates are never each before the other. |
| Text.Lower | components/ProductStock.tsx:48 | ASCII `toLowerCase` keeps the length and lower-cases character by character. |
| Text.LowerIdempotent | components/ProductStock.tsx:48 | Lower-casing twice is lower-casing once. |
| Text.ContainsEmpty | components/ProductStock.tsx:48 | Every string `includes` the empty string. |
| Text.NatToString | components/ProductSale.tsx:54 | The line count in the checkout description is written as a non-empty string of decimal digits. |
| Text.NatToStringValue | components/ProductSale.tsx:54 | `toString` renders the count exactly: its digits, read from the left, denote the number, with no leading zero unless the number is 0. |
| Text.Pad2 | components/Dashboard.tsx:20-22 | `padStart(2, '0')` gives the two decimal digits of a number below 100. |
| Text.Pad2Value | components/Dashboard.tsx:20-22 | The padded two characters still denote the number. |
| Folds.Filter | App.tsx:120 | `filter` never grows the list, and an element is in the result iff it is in the list and satisfies the predicate. |
| Folds.FilterCounts | App.tsx:120 | `filter` keeps every copy of a satisfying element and no copy of any other, so duplicates survive. |
| Folds.FilterIsSubsequence | App.tsx:120 | `filter` keeps the surviving elements in their order. |
| Folds.FilterAll | App.tsx:120 | A predicate true everywhere keeps the whole list. |
| Folds.FilterCongruent | components/ProductStock.tsx:48 | Predicates agreeing on every element keep the same elements. |
| Folds.FindIndex | components/Auth.tsx:77 | `findIndex` gives the first satisfying index, or -1 exactly when none satisfies. |
| Folds.SumAppend | components/ProductSale.tsx:38-40 | A `reduce` sum over a concatenation is the sum of the two parts. |
| Folds.SumFilterBounded | components/Dashboard.tsx:38 | With nonnegative terms, the sum over a filtered list lies between 0 and the full sum. |
| Folds.Keys | components/Reports.tsx:36-38 | The keys of a grouping are exactly the keys met in the list. |
| Folds.SumWhereAbsent | components/Reports.tsx:36-37 | A key not yet met starts its group from zero. |
| Folds.PartitionSum | components/Reports.tsx:35-43 | Group sums listed once per key add up to the sum over the whole list. |
| LedgerSums.SumOfTypeMasked | components/Reports.tsx:21-23 | Summing the filtered type equals summing amounts masked to that type. |
| LedgerSums.TypesPartitionAmounts | components/Reports.tsx:21-23 | Every transaction counts toward exactly one of income, expense and dues; the three sums total all amounts. |
| LedgerSums.SumOfTypeOfFilterBounded | components/Dashboard.tsx:31-38 | With nonnegative amounts, each type's sum over a sublist is between 0 and its sum over the list. |
| Store.MergeEmpty | App.tsx:115 | An empty patch leaves an entry unchanged. |
| Store.UpdateById | App.tsx:114-116 | Update keeps length and order; entries with other ids are unchanged; entries with the id take the patch fields. |
| Store.UpdateAbsentId | App.tsx:115 | An update naming an absent id leaves the ledger unchanged. |
| Store.UpdateIdempotent | App.tsx:115 | Applying the same update twice equals applying it once, unless the patch renames the entry. |
| Store.RemoveById | App.tsx:120 | Delete keeps exactly the entries whose id differs. |
| Store.RemoveKeepsOrder | App.tsx:120 | Delete keeps the survivors in order, and removes nothing when the id is absent. |
| Store.Translate | App.tsx:98-101 | `t` gives the language's non-empty translation (English table when the language has none), otherwise the key; a non-empty key never translates to empty. |
| Store.AppStore.constructor | App.tsx:33-55 | On opening, the saved user and language are restored, and the saved ledger only when a user is signed in. |
| Store.AppStore.SetUser | App.tsx:64-80 | Signing out empties the ledger; signing in loads that user's saved ledger. |
| Store.AppStore.AddTransaction | App.tsx:103-112 | Nothing without a user; otherwise exactly one entry, stamped with the user's id, goes in front of the unchanged old ledger. |
| Store.AppStore.UpdateTransaction | App.tsx:114-116 | The ledger becomes the merge-by-id of the old ledger. |
| Store.AppStore.DeleteTransaction | App.tsx:118-122 | A confirmed delete removes the id's entries; an unconfirmed one changes nothing. |
| Store.AppStore.ResetApp | App.tsx:124-129 | A confirmed reset empties the ledger; an unconfirmed one changes nothing. |
| Store.AppStore.T | App.tsx:98-101 | `t` in the current language never turns a non-empty key into an empty string. |
| ProductSale.NewCart | components/ProductSale.tsx:16 | A sale starts with exactly one line. |
| ProductSale.AddItem | components/ProductSale.tsx:25-27 | Adding appends one blank line after the unchanged old lines, keeping ids distinct when the new id is fresh. |
| ProductSale.RemoveItem | components/ProductSale.tsx:29-32 | A one-line cart is left alone; otherwise exactly the lines with other ids are kept. |
| ProductSale.RemoveKeepsCartNonEmpty | components/ProductSale.tsx:29-32 | With distinct ids, removal never empties a non-empty cart and keeps the rest in order. |
| ProductSale.UpdateItem | components/ProductSale.tsx:34-36 | Update keeps length, order and ids; only the line with the id takes the patch. |
| ProductSale.AddItemKeepsTotal | components/ProductSale.tsx:25-40 | A blank line adds nothing to the total. |
| ProductSale.UpdateItemTotal | components/ProductSale.tsx:34-40 | With distinct ids, the total moves by exactly the edited line's change, and not at all for an absent id. |
| ProductSale.CurrentDue | components/ProductSale.tsx:43 | Due is never negative; it is 0 exactly when paid covers the total; paid + due = total when paid is below the total. |
| ProductSale.Status | components/ProductSale.tsx:113-114 | Full Paid iff due = 0; Partial Paid iff due ≠ 0 and paid > 0; Full Due otherwise. |
| ProductSale.SaleEntries | components/ProductSale.tsx:57-75 | Checkout writes at most two entries, each with a positive amount and today's date. |
| ProductSale.SaleEntriesSplit | components/ProductSale.tsx:54-75 | INCOME iff paid > 0, with amount paid, category Sales and "(Partial Payment)" iff due > 0. DUE iff due > 0, with amount due, category Sales Dues and "(Remaining Due)" iff paid > 0. The entries sum to the total when 0 ≤ paid ≤ total. |
| ProductSale.RecordedAreSaleEntries | components/ProductSale.tsx:57-75 | The stamped entries checkout writes are `SaleEntries` newest first, each with the user's id and its own id, and their amounts add up to the same sum. |
| ProductSale.FinishSale | components/ProductSale.tsx:45-78 | An invalid cart writes nothing. Otherwise the stamped DUE and INCOME entries end up in front of the old ledger, and the ledger's total amount grows by exactly the sum of `SaleEntries`. The invoice carries the total, paid, due and status. |
| Reports.FilterByWindow | components/Reports.tsx:16-18 | The window keeps exactly the transactions with start ≤ date ≤ end. |
| Reports.WindowProperties | components/Reports.tsx:16-18 | The window keeps ledger order; a window ending before it starts is empty. |
| Reports.ChartData | components/Reports.tsx:20-30 | Chart income + expense + dues equals the window's total amount. |
| Reports.DayTallySnoc | components/Reports.tsx:39-42 | One more transaction changes only its own day's sums, by its amount under its type and by its profit (0 if missing). |
| Reports.DailyStep | components/Reports.tsx:35-43 | One `forEach` step keeps the dictionary equal to the day sums of the prefix folded so far. |
| Reports.DailyTallies | components/Reports.tsx:33-43 | The dictionary has one key per date in the window, holding that day's income, expense, dues and profit. |
| Reports.InsertRow | components/Reports.tsx:45-47 | Inserting a row adds exactly that row and its date. |
| Reports.InsertRowAscending | components/Reports.tsx:46 | Inserting a new date into an ascending ledger keeps it strictly ascending. |
| Reports.EntriesByDate | components/Reports.tsx:45-47 | The entries come out strictly ascending by date, one per dictionary key, each with its sums. |
| Reports.LedgerData | components/Reports.tsx:32-48 | The daily ledger has exactly one row per date in the window, in strictly ascending order, each holding that day's sums. |
| Reports.RowSumIsKeySum | components/Reports.tsx:50-57 | Summing a per-row field over the ledger is summing the day groups date by date. |
| Reports.LedgerFieldTotal | components/Reports.tsx:50-57 | Each statement total equals the same sum taken directly over the window. |
| Reports.LedgerTotalsMatchChart | components/Reports.tsx:20-57 | Statement income, expense and dues equal the chart sums; statement profit is the window's profit with missing profits as 0. |
| Reports.EmptyWindow | components/Reports.tsx:50-57 | An empty window gives an empty ledger, all-zero totals and an all-zero chart. |
| Dashboard.FormatClock | components/Dashboard.tsx:18-25 | `hh:mm` and `ss` are padded to two digits; the displayed hour reads as a number in 1..12; AM iff hours < 12, PM otherwise. |
| Dashboard.ClockRoundTrip | components/Dashboard.tsx:18-25 | The clock loses nothing: hour, minute and second read back from the display give the 24-hour time. |
| Dashboard.TodayRecords | components/Dashboard.tsx:41-43 | Today's records are exactly the transactions dated today. |
| Dashboard.TodayWithinAllTime | components/Dashboard.tsx:30-39 | With nonnegative amounts, each of today's totals is between 0 and its all-time total. |
| Dashboard.DuesDoNotMoveBalance | components/Dashboard.tsx:151 | The balance is income − expense: adding a DUE entry leaves it unchanged. |
| Dashboard.SubmittedEntry | components/Dashboard.tsx:45-53 | Nothing is submitted iff amount or description is empty; otherwise the entry is dated today, keeps the type, and an empty category becomes General. |
| Dashboard.ClearedFormRejected | components/Dashboard.tsx:55 | The cleared form keeps the selected type and cannot be submitted again. |
| Dashboard.HandleSubmit | components/Dashboard.tsx:45-56 | An incomplete form changes nothing. Otherwise the entry is added through the store and amount, description and category are cleared. |
| Dashboard.EditKeepsIdentity | components/Dashboard.tsx:61-66 | An edit overwrites amount, description, type and category; every entry keeps its id, owner, date, creation stamp and profit. |
| Dashboard.HandleUpdate | components/Dashboard.tsx:58-68 | Nothing while no entry is edited; otherwise the four fields are sent by id, and editing ends. |
| TodaySales.TodaysSales | components/TodaySales.tsx:10-12 | Today's sales are exactly the user's records dated today. |
| TodaySales.TodaysSalesInOrder | components/TodaySales.tsx:10-12 | Today's sales keep the stored order. |
| TodaySales.TotalsForSnoc | components/TodaySales.tsx:16-23 | One more record changes only its own category's totals, by exactly its qty, profit and qty × sellPrice. |
| TodaySales.SummaryStep | components/TodaySales.tsx:16-23 | One `forEach` step keeps the dictionary the category summary of the prefix. |
| TodaySales.CategorySummary | components/TodaySales.tsx:14-25 | The summary's keys are exactly today's categories; each holds its qty sum, profit sum and qty × sellPrice sum. |
| TodaySales.SummaryFieldIsGroupSum | components/TodaySales.tsx:20-22 | A summary field added over the categories is the group sum over those categories. |
| TodaySales.SummaryConserves | components/TodaySales.tsx:14-25 | Over the categories, quantities add up to today's total quantity, profits to the grand profit, totals to today's takings. |
| TodaySales.DeleteSale | components/TodaySales.tsx:27-31 | Nothing without a user or confirmation; otherwise only the sales list changes, keeping exactly the records with other ids. |
| TodaySales.DeleteKeepsOrder | components/TodaySales.tsx:29 | Delete keeps the remaining records in order and removes nothing for an absent id. |
| UserDirectory.IndexOfUser | components/ProductStock.tsx:26 | The user's index is the first holding the id, or -1 exactly when none does. |
| UserDirectory.ReplaceUser | components/ProductStock.tsx:26-30 | The write keeps the list's length and is a no-op when the id is absent. Otherwise the new profile lands in the first slot with the id, and every other slot, including later ones with the same id, is unchanged. |
| UserDirectory.ReplaceThenFind | components/Settings.tsx:102-107 | After the write the id is found at the same index holding the new profile; repeating the write changes nothing. |
| UserDirectory.FindUserIndex | components/ProductStock.tsx:26 | The `findIndex` loop over the array returns the user's index. |
| UserDirectory.WriteBack | components/ProductStock.tsx:25-30 | The array afterwards is the old list with the user's slot replaced. |
| ProductStock.AddProduct | components/ProductStock.tsx:14-22 | Exactly one product is appended after the unchanged old products; nothing else in the profile changes. |
| ProductStock.PricesDefaultToZero | components/ProductStock.tsx:18-19 | An unparsed buy or sell price becomes 0; a parsed one is kept. |
| ProductStock.HandleAdd | components/ProductStock.tsx:11-32 | Nothing without a user; otherwise the new profile becomes the session's, is written back, and the form is cleared. |
| ProductStock.RemoveProduct | components/ProductStock.tsx:34-37 | A moderator is refused. A confirmed admin removal changes only the product list, keeping exactly the other ids. |
| ProductStock.RemoveKeepsOrder | components/ProductStock.tsx:37 | The remaining products keep their order. |
| ProductStock.HandleRemove | components/ProductStock.tsx:34-46 | Only a saved removal writes back into the all-users list. |
| ProductStock.Search | components/ProductStock.tsx:48 | Search keeps exactly the products whose name or code contains the term, ignoring letter case. |
| ProductStock.SearchEmptyTerm | components/ProductStock.tsx:48 | An empty term keeps every product; any term keeps the order. |
| ProductStock.SearchIgnoresCase | components/ProductStock.tsx:48 | The term's letter case does not change the results. |
| PartnerContact.AddPartner | components/PartnerContact.tsx:14-20 | Exactly one partner is appended after the unchanged old partners; nothing else in the profile changes. |
| PartnerContact.HandleAdd | components/PartnerContact.tsx:11-30 | Nothing without a user; otherwise the new profile becomes the session's, is written back, and the form is cleared. |
| PartnerContact.RemovePartner | components/PartnerContact.tsx:32-35 | A moderator is refused. A confirmed admin removal changes only the partner list, keeping exactly the other ids. |
| PartnerContact.RemoveKeepsOrder | components/PartnerContact.tsx:35 | The remaining partners keep their order. |
| PartnerContact.HandleRemove | components/PartnerContact.tsx:32-44 | Only a saved removal writes back into the all-users list. |
| PartnerContact.Search | components/PartnerContact.tsx:46 | Search keeps exactly the partners whose name contains the term ignoring case, or whose mobile contains it exactly. |
| PartnerContact.SearchEmptyTerm | components/PartnerContact.tsx:46 | An empty term keeps every partner; any term keeps the order. |
| PartnerContact.NameMatchIgnoresCase | components/PartnerContact.tsx:46 | A name match is found whatever the term's letter case. |
| PartnerContact.MobileMatchKeepsCase | components/PartnerContact.tsx:46 | A mobile match is case-sensitive: "X1" finds mobile "X1" and "x1" does not. |
| Settings.UpdateProfile | components/Settings.tsx:33 | A profile update overwrites only name, email, mobile and currency. |
| Settings.UntouchedFormChangesNothing | components/Settings.tsx:10-33 | Saving the untouched form gives back the same profile. |
| Settings.HandleUpdateProfile | components/Settings.tsx:28-46 | Nothing without a user; otherwise the merged profile becomes the session's and is written back. |
| Settings.AddModerator | components/Settings.tsx:85-99 | Rejected iff there is no user or name, email or code is empty. Otherwise one moderator with those fields is appended after the unchanged others. |
| Settings.HandleAddModerator | components/Settings.tsx:85-111 | A rejected add changes nothing; a successful one is written back and clears the form. |
| Settings.RemoveModerator | components/Settings.tsx:113-118 | Nothing without a user or confirmation. Otherwise only the moderator list changes, keeping exactly the other ids. |
| Settings.RemoveModeratorKeepsOrder | components/Settings.tsx:117 | The remaining moderators keep their order. |
| Settings.HandleRemoveModerator | components/Settings.tsx:113-127 | Only a performed removal is written back. |
| Settings.SetPrimaryColor | components/Settings.tsx:131 | Only `primaryColor` changes. |
| Settings.HandleSetPrimaryColor | components/Settings.tsx:129-140 | Nothing without a user; otherwise the recoloured profile becomes the session's and is written back. |
| Settings.ShowPassword | components/Settings.tsx:142-149 | The right secret shows the password and clears the box; anything else alerts and changes nothing. |
| Auth.Login | components/Auth.tsx:65-75 | Login succeeds iff a stored user has the email and password, and returns the first such user. It fails with "no users found" iff the store is empty, otherwise "invalid email or password". |
| Auth.Recover | components/Auth.tsx:76-83 | Recovery gives the password of the first user with the email and secret code, or the recovery error iff there is none. |
| Auth.LoginFindsOwner | components/Auth.tsx:66-77 | With unique emails, each stored user's email and password log in as that user, and the user's secret recovers that password. |
| Auth.SignUp | components/Auth.tsx:41-64 | Mismatched passwords fail first, then a taken email, both leaving the store unchanged. Otherwise exactly one user (currency '৳', no accounts) is appended, emails stay unique, and the new details log in and recover. |

## Left out

- Browser storage and JSON: loading, saving and removing `localStorage` keys, including the effect that saves the ledger per user. Stored values are parameters, and the save is not modelled.
- Backup export and import (components/Settings.tsx:48-83): blob download, file reading and page reload.
- Floating point: amounts, prices and quantities are integers. Rounding and `toLocaleString` formatting are not modelled.
- Parsing: `parseFloat` results are inputs. `Dashboard.SubmittedEntry` treats a non-empty amount box as a parsed number.
- Lower-casing covers only ASCII letters; JavaScript's full Unicode case mapping is not modelled.
- `TodaySales.CategorySummary`, `Reports.DailyTallies`: the source's `{}` dictionaries are modelled as maps. In the source, a key that names an `Object.prototype` member (`constructor`, `toString`, `__proto__`, ...) gets no own entry and is missing from `Object.entries`; the model gives it an entry like any other key, so `TodaySales.SummaryConserves` and the ledger lemmas do not cover that behaviour.
- `Date`, `Math.random` and `Date.now`: today's date, the clock reading, the current instant, fresh ids and invoice numbers are parameters.
- `confirm` and `alert`: a confirm is a boolean parameter. An alert is an outcome value (`Denied`, `None`, or the alert flag of `Settings.ShowPassword`); its text is not modelled.
- `Settings.HandleUpdateProfile`: the half-second `setTimeout` before the update lands, and the `isUpdating` flag, are not modelled.
- `setUser` with role and moderator arguments, `syncUserProfile`, and `resetApp(code)`: the screens call these, but App.tsx's store does not define them in that form. Each screen's handler returns the profile it hands over; what the store does with it is not modelled. `resetApp(code)` (components/Settings.tsx:175) is not part of this model.
- The translation tables are not part of this model: `Store.Translate` takes the table as a parameter.
- Theme, language switching, printing, charts and all rendering.
- components/AIConsultant.tsx, components/Calculator.tsx, components/Layout.tsx and lib/supabase.ts.
- `ProductSale.RemoveKeepsCartNonEmpty`: assumes distinct line ids. The source draws them from `Math.random`, and a repeated id could remove several lines at once.
- `ProductSale.UpdateItemTotal`: assumes distinct line ids, for the same reason.
- `ProductSale.FinishSale`: the invoice modal and form reset after checkout are not modelled. `paid` is the already-defaulted `currentPaid`.
- `Dashboard.TodayWithinAllTime`: holds only for nonnegative amounts. The entry form does not enforce that.
- `Auth.SignUp`: returns the list it would store, instead of writing browser storage. The lookup finds the first match, as `find` does.
- `Reports.LedgerData`: `Object.entries(...).sort` is modelled as insertion by date. Any correct sort gives the same rows, because the dates are distinct.
