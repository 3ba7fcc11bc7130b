# Retail billing bookkeeping, modelled in Dafny

This project models the bookkeeping of a small point-of-sale web application
(`app.py`, a Flask service). An operator adds and removes catalog items. An
order picks catalog rows by id, pairs them with quantities and totals them.
The order yields a UPI payment string and one transaction record. HTTP,
spreadsheet files, Socket.IO and QR drawing are stripped away. Each table
becomes an in-memory sequence held by a class.

Modules:

- `Text` (text.dfy): Python's `str` of an integer and `", ".join`. It also
  holds the inverse readers `ParseInt` and `Split`. They are the partners that
  show the rendered strings lose nothing.
- `Catalog` (catalog.dfy): the `Item` row and the `ItemStore` class, whose
  `rows` field is the items spreadsheet. `AddItem` and `RemoveItem` rewrite
  it. `Added` and `Removed` are the functions that specify them.
- `Order` (order.dfy): the `isin` selection, Python's `zip`, the cost-times-
  quantity total with an index-based reference sum, and the payment string
  with a reader that recovers the amount.
- `History` (history.dfy): the `Transaction` record, its items and quantities
  display strings, and the `TransactionLog` class, whose `records` field is
  the history spreadsheet.
- `Billing` (billing.dfy): `place_order` as one method over an `ItemStore`
  and a `TransactionLog`, plus the pure `Summarize` it computes.

The model follows the code, including where it is lax:

- `place_order` never reports an unknown id or mismatched list lengths. Ids
  that match no row select nothing. `zip` drops surplus rows or quantities.
  The record is saved anyway.
- Quantities go to the selected rows in catalog order, not in submission
  order (`Order.PairingFollowsCatalog`, `Order.SubmissionOrderIgnored`).
- The amount in the payment string is `str(total)` of an integer, not a
  two-decimal figure.
- A new item's id is the row count plus one. After a removal it can repeat an
  existing id (`Catalog.RemoveThenAddDuplicatesId`). Ids are therefore not
  unique, and `remove_item` drops every row with the given id.

## Model

| member | source | states |
|---|---|---|
| `Catalog.ItemStore.AddItem` | app.py:65-71 | the table becomes the old rows followed by exactly one row with id = old row count + 1 and the given name and cost; earlier rows are unchanged and in order |
| `Catalog.ItemStore.RemoveItem` | app.py:84-87 | the table becomes the rows whose id differs from the given id; a row survives exactly when it was there and has another id; an absent id leaves the table unchanged |
| `Catalog.Removed` | app.py:87 | the filter never grows the table, and no row left in it has the removed id |
| `Catalog.RemovedMembers` | app.py:87 | a row is in the result exactly when it was in the table with a different id |
| `Catalog.Added` | app.py:68-71 | the table after `add_item`; its contract is stated by `Catalog.AddedAppendsOne` and `Catalog.AddedKeepsSequentialIds` |
| `Catalog.AddedAppendsOne` | app.py:68-71 | adding yields one more row, the old rows as a prefix, and the new row last with id = old length + 1 |
| `Catalog.AddedKeepsSequentialIds` | app.py:68 | a table numbered 1..n stays numbered 1..n+1 after an add |
| `Catalog.RemovedAppend` | app.py:87 | removal distributes over concatenation, so the kept rows keep their relative order |
| `Catalog.RemovedAbsent` | app.py:87 | removing an id that no row carries leaves the table equal to the old one |
| `Catalog.RemovedIdempotent` | app.py:87 | removing the same id twice is the same as removing it once |
| `Catalog.RemovedOneRow` | app.py:87 | in a table numbered 1..n, removing id k drops exactly the k-th row and keeps the rest in order |
| `Catalog.RemoveThenAddDuplicatesId` | app.py:65-87 | in a table numbered 1..n, removing any id k < n and then adding gives a table of n rows whose last two rows both have id n |
| `Catalog.DuplicateIdScenario` | app.py:65-87 | add, add, remove id 1, add ends with exactly two rows, both with id 2 |
| `Order.Select` | app.py:106 | the selection is no longer than the catalog, and a row is selected exactly when it is a catalog row whose id was submitted |
| `Order.SelectAppend` | app.py:106 | selection distributes over concatenation of catalogs, so the selected rows come out in catalog order |
| `Order.SelectSameIds` | app.py:106 | two id lists with the same members select the same rows: submission order and repetition do not matter |
| `Order.SelectSubMultiset` | app.py:106 | no row is selected more often than it occurs in the catalog, however often its id was submitted |
| `Order.SelectIgnoresRepeatsAndUnknown` | app.py:106 | submitting an id again, or an id no row has, leaves the selection unchanged |
| `Order.Zip` | app.py:108 | the pairing has length min of the two list lengths, and pair i is (row i, quantity i) |
| `Order.ZipIgnoresExtra` | app.py:108 | surplus quantities or surplus rows beyond an equal-length prefix leave the pairing unchanged |
| `Order.Total` | app.py:108 | the `sum` of cost times quantity over zipped pairs; its contract is stated by `Order.TotalSign` |
| `Order.OrderTotal` | app.py:108 | the order total over `zip(selected, quantities)`; its contract is stated by `Order.TotalIsIndexedSum`, `Order.TotalIgnoresExtra` and `Order.PairingFollowsCatalog` |
| `Order.TotalIsIndexedSum` | app.py:108 | the total equals the sum of cost[i] * qty[i] over i < min(|selected|, |quantities|) |
| `Order.TotalIgnoresExtra` | app.py:108 | surplus quantities or surplus selected rows do not change the total |
| `Order.TotalSign` | app.py:108 | the total of no pairs is 0, and non-negative costs and quantities give a non-negative total |
| `Order.PairingFollowsCatalog` | app.py:106-108 | submitting the same ids in another order gives the same pairing and the same total |
| `Order.SubmissionOrderIgnored` | app.py:106-108 | with Tea (id 1, 20) and Coffee (id 2, 30), ids [2, 1] and quantities [1, 5] total 170: Tea receives 1 and Coffee 5 |
| `Order.PaymentUri` | app.py:111 | the UPI payment string; its contract is stated by `Order.PaymentUriRoundTrip` and `Order.PaymentUriInjective` |
| `Order.PaymentUriRoundTrip` | app.py:111 | the payment string starts with the fixed `upi://pay?pa=…&pn=…&am=` head, ends with `&cu=INR`, and the amount between them reads back as the total |
| `Order.PaymentUriInjective` | app.py:111 | different totals give different payment strings |
| `Text.IntToString` | app.py:42 | Python's `str` of an integer, used at app.py:35, 42 and 111; its contract is stated by `Text.IntToStringRoundTrip` |
| `Text.Join` | app.py:42 | Python's `", ".join`, used at app.py:35 and 42; its contract is stated by `Text.SplitJoin` and `Text.JoinEmpty` |
| `Text.NatToString` | app.py:42 | the decimal rendering is a non-empty run of digits without a leading zero |
| `Text.IntToStringRoundTrip` | app.py:42 | reading back `str(n)` gives n, negative values included |
| `Text.SplitJoin` | app.py:42 | splitting a `", "`-joined list of comma-free parts at `", "` gives the parts back |
| `History.Segment` | app.py:35 | the f-string `"name (₹cost) xqty"` of one zipped pair; `History.Segments` places one per pair |
| `History.ItemsString` | app.py:35 | the items column, the `", "`-join of the segments; its contract is stated by `History.ItemsStringEmpty`, `History.ItemsStringSplits` and `History.ItemsStringIgnoresExtra` |
| `History.QuantitiesString` | app.py:42 | the quantities column, the `", "`-join of every quantity; its contract is stated by `History.QuantitiesRoundTrip` |
| `History.Segments` | app.py:35 | there is one items segment per zipped pair, min(|items|, |quantities|) of them, and segment i is `"name (₹cost) xqty"` of row i and quantity i |
| `History.ItemsStringEmpty` | app.py:35 | the items string is empty exactly when nothing is zipped |
| `History.ItemsStringSplits` | app.py:35 | with comma-free names and at least one zipped pair, splitting the items string at `", "` recovers exactly the zipped segments |
| `History.ItemsStringIgnoresExtra` | app.py:35 | quantities without a selected row do not appear in the items string |
| `History.QuantitiesRoundTrip` | app.py:42 | the quantities string holds every submitted quantity, zipped or not: it reads back to the whole list |
| `History.NewRecord` | app.py:38-44 | the record carries the given customer, plot and total; its items column is the `", "`-join of one segment per zipped pair and its quantities column the `", "`-join of every quantity; the quantities read back to the submitted list; the items string is empty exactly when nothing was zipped, and when no name contains a comma it splits back into the zipped segments |
| `History.TransactionLog.Save` | app.py:31-50 | the history grows by exactly one record, the new record of this order; earlier records are untouched, and the new one has the given customer, plot and total |
| `Billing.Summarize` | app.py:105-111 | the summary has the given customer, plot and quantities; its items are the catalog rows with a submitted id, in catalog order and each once (the `isin` selection); its total is the indexed sum over the zipped positions; its payment string carries that total |
| `Billing.PlaceOrder` | app.py:95-131 | the summary is computed from the current catalog, which is not changed, and the history gains exactly the record of this order with the same items, quantities and total |
| `Billing.CoffeeOrderScenario` | app.py:95-131 | with Coffee (id 2, 30), an order by Alice at Plot-7 submitting id 2 once with quantity 3 totals 90, and the history gains one record with total 90, Alice and Plot-7 |

## Left out

- Flask routing, form access, `flash`, `redirect` and `render_template` (app.py:52-57, 76-77, 92-93, 134-144): HTTP and page plumbing. The `index`, `next_order` and `mobile` handlers do nothing else. Listing the catalog is reading `ItemStore.rows`.
- Spreadsheet persistence with `read_excel` and `to_excel`, and creating the files at start-up (app.py:17-29, 32, 50): file I/O. Each table is an in-memory sequence held by a class. The constructors take the table's current contents.
- `socketio.emit` of `order_summary` and `reset_order` (app.py:121-128, 139): network broadcast. `Billing.OrderSummary` holds the data that would be sent.
- QR image generation, PNG buffering and base64 encoding (app.py:112-115): library calls. Only the payment string that feeds them is modelled.
- Converting form strings to integers (app.py:81, 106-107): ids and quantities are integers from the start. In the source a malformed id or quantity raises in `int()` before any table is touched.
- The cost's type (app.py:62, 68-74): `add_item` stores the cost form string without converting it, so a malformed cost is written to the catalog rather than rejected, and its type after a spreadsheet round trip depends on the spreadsheet library. The model assumes the cost is an integer.
- Concurrent requests that interleave read-modify-write cycles: the code has no concurrency discipline, and each method is one atomic step.

