# Order ledger of the Laravel/React orders application

This project models the order ledger of a small Laravel + React (Inertia)
application that records customer orders ("commandes") made of item lines,
and proves properties of the model in Dafny.

- `values.dfy` (`Values`): request values as JSON-like data (null, string,
  number, array, object), an `Option` type, and decimal id text with its
  round trip (`ParseNat(NatToString(n)) == n`).
- `totals.dfy` (`Totals`): the ledger arithmetic. A line amount is
  `quantity * unit_price`, the subtotal is the sum over the lines in order,
  and the total due is `subtotal + previous_balance`.
- `validation.dfy` (`Validation`): the two Laravel rule sets of the
  controller (`store` and `update`). Each is a function returning the set of
  failing attributes. It also models `validate()` returning only the keys
  named in the rules, and the typed payload read off a request that passed.
- `commande_controller.dfy` (`CommandeController`): `store`, `update` and
  `destroy` as methods of a `Database` class. The class holds the orders by
  id and the item rows in id order. Each method validates, writes step by
  step (an order, then a loop inserting item rows), and keeps the database
  invariant:
  - foreign keys hold;
  - every row's `total` is `quantity * rate`;
  - every order has at least one item;
  - every order's subtotal is the sum of its item totals;
  - `total_due = subtotal + previous_balance`.
- `commande_model.dfy` (`CommandeModel`): the legacy single-line `Commande`
  shape, with `calculateRest` and `setPaidAmount` on a class whose `save()`
  writes a persisted snapshot.
- `receipt_modal.dfy` (`ReceiptModal`): `generatePDF`'s cursor and page-break
  loop with its running total, the header fallbacks, the save, close and
  confirm order, and the on-screen `reduce` total.
- `edit_page.dfy` (`EditPage`): the edit form's initial state, and its two
  item-list operations as methods of a form class.
- `create_page.dfy` (`CreatePage`): the create form's initial values and its
  `handleSubmit`. That covers the selection guard, the name lookup with
  fallback, and the receipt total.

Money is `real`. The clock (today's date) and `strtotime` are parameters:
`today` for the create form, and the `isDate` predicate for the `date` rule.

Three behaviours of the code are modelled as written:

- `store` drops a submitted `previous_balance`, because that key is not among
  its validation rules. So a new order always starts with balance 0.
- `update` is not atomic: it writes the order, deletes its items, then inserts
  the new ones, in that sequence.
- Quantity validation differs by path. `store` demands an integer of at least
  1, `update` any number of at least 0. Both rules are modelled as written.

## Model

| member | source | states |
|---|---|---|
| Values.ParseNatToString | resources/js/pages/commandes/create.tsx:100-101 | the decimal text of an id (`id.toString()`) reads back as that id |
| Values.NatToStringInjective | resources/js/pages/commandes/create.tsx:100-101 | two different ids never have the same decimal text |
| Totals.SubtotalAppend | app/Http/Controllers/CommandeController.php:47-49 | the subtotal of two runs of lines is the sum of their subtotals |
| Totals.SubtotalCons | app/Http/Controllers/CommandeController.php:47-49 | the left-to-right sum unfolds from the first line as well as from the last |
| Totals.SubtotalNonNegative | app/Http/Controllers/CommandeController.php:42-49 | lines with no negative quantity or price have a non-negative subtotal |
| Totals.BoneGrindExample | database/migrations/2025_05_12_134417_create_commande_items_table.php:18-20 | one line of 6760 at 0.80 comes to 5408 with nothing carried over |
| Validation.AsId | app/Http/Controllers/CommandeController.php:37-38 | `exists` reads an integral non-negative number or a non-empty digit string as an id, and nothing else |
| Validation.PostedIdExists | app/Http/Controllers/CommandeController.php:37-38 | the id string a select posts passes `exists` exactly when the record exists |
| Validation.ItemErrors | app/Http/Controllers/CommandeController.php:42-44 | no `items.*` error is reported exactly when every item has a designation, a valid quantity and a price of at least 0; every error names an existing index |
| Validation.StoreErrors | app/Http/Controllers/CommandeController.php:36-45 | `store` reports nothing exactly when all its rules hold; it reports `items`, `client_id` and `type_id` exactly when their rule fails |
| Validation.UpdateErrors | app/Http/Controllers/CommandeController.php:89-97 | `update` reports nothing exactly when all its rules hold; it reports `items` and `previous_balance` exactly when their rule fails |
| Validation.StoreRejections | app/Http/Controllers/CommandeController.php:36-45 | `store` reports each of these: missing or empty items, a non-integer or sub-1 quantity, a negative price, a missing designation, a missing or unknown client or type, a missing date or status |
| Validation.QuantityPolicyDiffers | app/Http/Controllers/CommandeController.php:95 | `update` accepts any quantity of at least 0, while `store` (line 43) demands an integer of at least 1; the store rule implies the update rule |
| Validation.ValidatedItem | app/Http/Controllers/CommandeController.php:42-44 | a validated item object keeps exactly its keys named by the `items.*` rules (`designation`, `quantity`, `unit_price`), with their values |
| Validation.ValidatedItems | app/Http/Controllers/CommandeController.php:41-44 | validated `items` has one entry per posted item, in order, each cut down to its ruled keys |
| Validation.Validated | app/Http/Controllers/CommandeController.php:36-45 | `validate()` returns exactly the request keys named by the rules, with their values, except that `items` is rebuilt from the `items.*` rules |
| Validation.ValidatedItemSameLine | app/Http/Controllers/CommandeController.php:42-49 | dropping an item's unruled keys changes neither its line nor whether it passes the item rules |
| Validation.ValidatedLines | app/Http/Controllers/CommandeController.php:47-49 | the lines read off the validated items are the lines of the posted items |
| Validation.BalanceOrZero | app/Http/Controllers/CommandeController.php:51 | a missing balance counts as 0 and a numeric one as itself |
| Validation.StoreDropsPreviousBalance | app/Http/Controllers/CommandeController.php:51-58 | whatever `store` receives, the balance it uses is 0 |
| Validation.UpdateKeepsPreviousBalance | app/Http/Controllers/CommandeController.php:92-109 | `update` uses a numeric balance of any sign as sent, and a null one as 0 |
| Validation.ValidatedLinesNonNegative | app/Http/Controllers/CommandeController.php:42-44 | lines that passed either rule set have no negative quantity or price |
| Validation.StoreInput | app/Http/Controllers/CommandeController.php:36-58 | a payload that passed `store` carries the posted client, type, date and status (the ids existing), exactly the lines read off the posted items (at least one, none negative), and balance 0 |
| Validation.UpdateInput | app/Http/Controllers/CommandeController.php:89-109 | a payload that passed `update` carries the posted client (existing) and date, exactly the lines read off the posted items (at least one, none negative), and the sent balance or 0 |
| CommandeController.RowOf | app/Http/Controllers/CommandeController.php:65-70 | an item row copies the designation to `part_name` and the unit price to `rate`, and stores the line amount as `total` |
| CommandeController.RowsFor | app/Http/Controllers/CommandeController.php:64-72 | one row per line, in line order, with consecutive ids |
| CommandeController.StoreItemsMatchLines | app/Http/Controllers/CommandeController.php:64-72 | `store` writes one row per line, in order, copying name, quantity and price; the row totals add up to the order's subtotal |
| CommandeController.RowsForSum | app/Http/Controllers/CommandeController.php:47-72 | the stored item totals add up to the subtotal computed from the lines |
| CommandeController.ItemsOfMembers | app/Models/Commande.php:28-31 | an order's items are exactly the rows pointing at it |
| CommandeController.WithoutOrderMembers | app/Http/Controllers/CommandeController.php:114 | after deleting an order's items, a row remains exactly when it belongs to another order |
| CommandeController.ItemsOfRowsFor | app/Http/Controllers/CommandeController.php:64-72 | the rows created for an order belong to it alone, in line order |
| CommandeController.ItemsOfWithout | app/Http/Controllers/CommandeController.php:135 | deleting one order's rows leaves it with none and every other order's rows as they were |
| CommandeController.NewOrder | app/Http/Controllers/CommandeController.php:47-61 | a new order takes the payload's client, type, date, status and balance; its subtotal is the sum over its lines, and its total due is that subtotal plus its balance |
| CommandeController.UpdatedOrder | app/Http/Controllers/CommandeController.php:99-111 | `update` sets the client, date, subtotal, balance and total due from the payload, and keeps the type and status |
| CommandeController.StoredTotalDueIsSubtotal | app/Http/Controllers/CommandeController.php:51-59 | an order created by `store` has balance 0, so its total due equals its subtotal |
| CommandeController.AppendKeepsOthers | app/Http/Controllers/CommandeController.php:64-72 | inserting one order's rows changes no other order's items |
| CommandeController.StoreKeepsWellFormed | app/Http/Controllers/CommandeController.php:53-72 | creating an order under a fresh id with its rows keeps the database invariant, and the new rows are exactly its items |
| CommandeController.ReplaceItems | app/Http/Controllers/CommandeController.php:114-123 | after the delete and re-insert, the order's items are exactly the new rows, no prior row of it remains, and other orders keep their items |
| CommandeController.RemoveItems | app/Http/Controllers/CommandeController.php:135 | after the delete, no row of the order remains and other orders keep their items |
| CommandeController.UpdateKeepsWellFormed | app/Http/Controllers/CommandeController.php:105-123 | rewriting an existing order's totals and rows keeps the database invariant |
| CommandeController.DestroyKeepsWellFormed | app/Http/Controllers/CommandeController.php:129-142 | removing an order and its rows keeps the database invariant |
| CommandeController.Database.InsertItems | app/Http/Controllers/CommandeController.php:64-72 | the loop appends exactly the rows for the lines, in order, and advances the id counter by their number |
| CommandeController.Database.Store | app/Http/Controllers/CommandeController.php:34-75 | a rejected payload returns its errors and changes nothing; an accepted one adds one order under a fresh id and its rows, and returns the success message; the invariant holds after |
| CommandeController.Database.Create | app/Http/Controllers/CommandeController.php:53-72 | the order is written with its computed totals, then its rows; the invariant holds after |
| CommandeController.Database.Update | app/Http/Controllers/CommandeController.php:85-126 | an unknown id answers not-found and changes nothing; a rejected payload changes nothing; otherwise the order is rewritten and its rows replaced; the invariant holds after |
| CommandeController.Database.Rewrite | app/Http/Controllers/CommandeController.php:105-123 | the order gets its new totals, its rows are deleted, and the new ones are inserted |
| CommandeController.Database.Destroy | app/Http/Controllers/CommandeController.php:129-142 | an unknown id answers not-found and changes nothing; otherwise the order and all its rows are gone; the invariant holds after |
| CommandeModel.SetPaid | app/Models/Commande.php:54-57 | paying `p` sets `paid_amount` to `p` and `rest` to total minus `p`, and changes no other attribute |
| CommandeModel.SetPaidIdempotent | app/Models/Commande.php:54-59 | paying the same amount twice is paying it once |
| CommandeModel.SetPaidOverwrites | app/Models/Commande.php:54-59 | only the last payment counts |
| CommandeModel.NoOverpaymentGuard | app/Models/Commande.php:54-59 | the rest goes negative exactly when more than the total is paid, and is 0 exactly when the total is paid |
| CommandeModel.LegacyExample | app/Models/Commande.php:44-57 | 10 units at 2.5 make 25 with 25 outstanding; paying 10 leaves 15 |
| CommandeModel.Commande.CalculateRest | app/Models/Commande.php:44-47 | the rest plus the paid amount is the total, and the rest is negative exactly on overpayment |
| CommandeModel.Commande.Save | app/Models/Commande.php:58 | the persisted row becomes the current attributes |
| CommandeModel.Commande.SetPaidAmount | app/Models/Commande.php:54-59 | the new attributes are `SetPaid` of the old ones, and they are saved |
| CommandeModel.SetPaidAmountTwice | app/Models/Commande.php:54-59 | two calls with the same amount end in the state one call gives |
| ReceiptModal.OrNA | resources/js/components/ui/ReceiptModal.tsx:43-46 | an absent or empty header field prints as "N/A", any other as itself |
| ReceiptModal.OnScreenTotal | resources/js/components/ui/ReceiptModal.tsx:134 | the on-screen total of no items is 0 |
| ReceiptModal.DrawHeader | resources/js/components/ui/ReceiptModal.tsx:31-64 | the title is at 15; date, client, type and status are at 37, 45, 53 and 63 with their fallbacks; the four column headings are at 73; every header line is above the first row, which goes at 83 |
| ReceiptModal.DrawRows | resources/js/components/ui/ReceiptModal.tsx:67-82 | one row per item, in order, with subtotal `unit_price * quantity`; each row is at its cursor and page, between 15 and 270; the page count is one plus the rows that passed 270; the total is the on-screen total |
| ReceiptModal.GeneratePdf | resources/js/components/ui/ReceiptModal.tsx:29-97 | every item is drawn once, in order, at a cursor between 15 and 270, the first at 83 on page 1; the total equals the on-screen total and is drawn 20 below the final cursor (at most 290); then the file is saved, the dialog closed, then confirmed |
| ReceiptModal.RowCursorBounds | resources/js/components/ui/ReceiptModal.tsx:77-81 | every row cursor lies between 15 and 270 |
| ReceiptModal.FirstPageRows | resources/js/components/ui/ReceiptModal.tsx:64-81 | the first page holds rows 0 to 23, at 83 + 8k |
| ReceiptModal.LaterPageRows | resources/js/components/ui/ReceiptModal.tsx:77-81 | every later page holds 32 rows, at 15 + 8j |
| ReceiptModal.PageCount | resources/js/components/ui/ReceiptModal.tsx:77-81 | below 24 items the receipt has one page; from 24 items on it has 2 + (n - 24) / 32 pages |
| ReceiptModal.ReduceIsSubtotal | resources/js/components/ui/ReceiptModal.tsx:134 | reducing from an accumulator adds the ledger subtotal of the items to it |
| ReceiptModal.TotalMatchesLedger | resources/js/components/ui/ReceiptModal.tsx:134 | the receipt total is the ledger subtotal of the same lines |
| EditPage.DefaultItem | resources/js/pages/commandes/edit.tsx:92 | the appended item has designation "", quantity 1, unit price 0 and no other key |
| EditPage.IdText | resources/js/pages/commandes/edit.tsx:78-79 | a string id is kept; a numeric id becomes its digit string, which reads back as the id |
| EditPage.InitialItems | resources/js/pages/commandes/edit.tsx:82 | the initial list is the order's items, or empty when absent |
| EditPage.ChangeItem | resources/js/pages/commandes/edit.tsx:85-89 | the changed field of the item holds the new value; the length, every other item and every other key of the item are kept |
| EditPage.AddItem | resources/js/pages/commandes/edit.tsx:91-93 | the list grows by one; the prior items keep their order, and the default item is last |
| EditPage.EditsNeverShrink | resources/js/pages/commandes/edit.tsx:85-93 | after any run of edits the list has grown by exactly the number of additions, and never shrinks |
| EditPage.UnchangedItemsStay | resources/js/pages/commandes/edit.tsx:85-93 | an item no edit targets stays where it was, unchanged |
| EditPage.ChangeKeepsDisplayedKeys | resources/js/pages/commandes/edit.tsx:85-88 | writing any field leaves the `part_name` and `rate` keys the inputs show untouched |
| EditPage.EditForm.constructor | resources/js/pages/commandes/edit.tsx:77-83 | the form starts with the ids as strings, the order's date and status, and its items or the empty list |
| EditPage.EditForm.HandleItemChange | resources/js/pages/commandes/edit.tsx:85-89 | inside the list, the stored list becomes the changed list; outside it, the write throws and nothing is stored |
| EditPage.EditForm.HandleAddItem | resources/js/pages/commandes/edit.tsx:91-93 | the stored list becomes the list with the default item appended |
| EditPage.StoredItem | app/Http/Controllers/CommandeController.php:79 | a stored row reaches the page under `part_name` and `rate`, with no `designation` or `unit_price` key |
| EditPage.DisplayedAsWritten | resources/js/pages/commandes/edit.tsx:163-186 | the inputs show `part_name`, `quantity` and `rate` |
| EditPage.TypedDesignationNotShown | resources/js/pages/commandes/edit.tsx:163-168 | typing a designation into a loaded item leaves its input showing the old name |
| EditPage.UntouchedStoredItemRejected | app/Http/Controllers/CommandeController.php:94-96 | a loaded item submitted without retyping fails `update`'s item rules |
| EditPage.Displayed | resources/js/pages/commandes/edit.tsx:85-88 | an input shows the key the handler writes for its field |
| EditPage.ChangeIsShown | resources/js/pages/commandes/edit.tsx:85-88 | once display and handler use the same keys, the changed input shows the new value and no other input changes |
| EditPage.LoadedItem | resources/js/pages/commandes/edit.tsx:82 | a stored row loaded under `designation`, `quantity` and `unit_price` shows its stored name, quantity and rate |
| EditPage.LoadedItemAccepted | app/Http/Controllers/CommandeController.php:93-96 | a row loaded that way with a name and non-negative amounts passes `update`'s item rules and validates back to its line |
| CreatePage.InitialForm | resources/js/pages/commandes/create.tsx:65-72 | the form starts with no client or type, quantity 1, unit price 0, empty status and today's date |
| CreatePage.FirstMatch | resources/js/pages/commandes/create.tsx:100 | the index found is the first whose id text equals the selection; none is found only when no id text equals it |
| CreatePage.LookupName | resources/js/pages/commandes/create.tsx:100-101 | a name other than the fallback belongs to an entity with the selected id; no match gives the fallback |
| CreatePage.LookupFindsSelected | resources/js/pages/commandes/create.tsx:100-101 | with distinct ids, selecting an entity's id gives its name, or the fallback if the name is empty |
| CreatePage.NonCanonicalKeyFallsBack | resources/js/pages/commandes/create.tsx:100-101 | a selection that is not a canonical decimal id always gives the fallback |
| CreatePage.Submit | resources/js/pages/commandes/create.tsx:92-115 | submitting is rejected with "Please select both client and type" exactly when a selection is empty; otherwise the receipt copies date, quantity, unit price and status, names client and type by lookup, and totals `quantity * unit_price` |
| CreatePage.CreatePage.constructor | resources/js/pages/commandes/create.tsx:65-83 | the page starts with the initial form, no receipt, the receipt closed and no toasts |
| CreatePage.CreatePage.HandleSubmit | resources/js/pages/commandes/create.tsx:92-115 | a rejection adds the error toast and leaves the receipt state; a success stores the receipt and opens it |
| CreatePage.InitialSubmitRejected | resources/js/pages/commandes/create.tsx:65-98 | submitting the untouched form always gives the selection error |

## Left out

- Numeric strings: `numeric` and `integer` accept only JSON numbers here. Laravel also accepts numeric strings.
- Items sent as a JSON object rather than an array: PHP decodes both to an array, so `store` and `update` accept them, while the model's `items` rule accepts only a list and rejects an object.
- A numeric `date`: Laravel's `date` rule accepts numeric values, while the model's rule accepts only a string passed by `isDate`.
- Input middleware: `TrimStrings` and `ConvertEmptyStringsToNull` are not modelled. Blank strings fail `required` directly.
- `strtotime` is the parameter `isDate`, because it is a PHP library call.
- `exists` coercions beyond integral numbers and digit strings (for example "1.0" or " 1") are not modelled; whether such a string matches an integer id depends on how the database engine compares a string with an integer column.
- Floating point: money is exact `real`. PHP/JS doubles, `toFixed(2)` and column rounding are not modelled.
- Receipt drawing: jsPDF fonts, colours, rules and column x-positions are left out. So are html2canvas and the `Date.now()` file name. Only the cursor, pages, rows, total and the order of effects remain.
- ReceiptModal.GeneratePdf: the items of the rows are printed as text; the number formatting of quantity and prices is not modelled.
- EditPage.EditForm.HandleItemChange: the source writes into the item object shared with the previous list. The model copies the item, so that aliasing is not captured.
- A failed handler is an `ok` flag rather than a thrown `TypeError`.
- `update` runs without a transaction. The model runs its steps in sequence with no concurrency, and nothing fails midway.
- Schema mismatch: the `commandes` migration declares the legacy columns (`quantity`, `unit_price`, `total_amount`, `paid_amount`, `rest`), while `store` and `update` write `subtotal`, `previous_balance` and `total_due`. Each side is modelled as its code is written; SQL is not modelled.
- The create page posts no `items` and its receipt has no item list, so `store` would reject it and the receipt dialog would have nothing to iterate. Each function is modelled as written, without reconciling them.
- `handleConfirmAndSubmit`, toasts after the network round trip, focus effects and rendering are React/Inertia UI driven by asynchronous callbacks.
- `index`, `create` and `edit` actions, `ClientController`, `TypeController` and routes are thin Eloquent/Inertia wrappers. They are not part of this model.
- The legacy update path that carries `paid_amount` forward has no code in these files. It is not part of this model.

## Findings

| source | as written | input that shows it | evidently intended | confidence | as-written member | corrected member |
|---|---|---|---|---|---|---|
| resources/js/pages/commandes/edit.tsx:163-186 | the designation and price inputs show `part_name` and `rate`, while `handleItemChange` writes `designation` and `unit_price` | a loaded item "Bone grind"; type "Fish meal" as its designation: the input still shows "Bone grind" | each input shows the key its handler writes | high; not executed | EditPage.TypedDesignationNotShown | EditPage.ChangeIsShown |
| resources/js/pages/commandes/edit.tsx:82 | the form starts from stored rows keyed `part_name` and `rate`, but `update` requires `items.*.designation` and `items.*.unit_price` (app/Http/Controllers/CommandeController.php:94-96) | any stored row submitted without retyping it | stored rows are loaded under `designation` and `unit_price` | high; not executed | EditPage.UntouchedStoredItemRejected | EditPage.LoadedItemAccepted |
