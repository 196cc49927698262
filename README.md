# Boutique back office: sales, analytics, catalogue and customer rules

This project models the logic of the four back-office pages of a small
boutique application, and proves properties of that model:

- **Sales page.** A draft cart of line items and a selected customer.
  Lines are added from the loaded product list and removed by index.
  Completing the sale writes one sale record and then one stock update per
  line whose product is in the cached list. Each update starts from the
  cached record. The page also has the product picker's stock filter and
  a searchable, paginated sales history.
- **Profit and loss page.** The period filter (all, this month, last
  month, this year, custom range) and the month-by-month buckets: sums,
  transaction counts, chronological order. Also the summary cards, the
  guarded profit margin and the ten most recent transactions.
- **Products page.** Building the record to save (an edit keeps
  `createdAt`, a new product is stamped with the current time). Add
  versus update, delete, the case-insensitive search, and the Low Stock /
  Out of Stock badges.
- **Customers page.** A new customer stamped with the current time, or a
  partial update of the four form fields on edit. Delete, the three-field
  search (the phone is matched case-sensitively), and the "-" shown for
  an empty field.

The database is the `Store.Database` class. It holds three maps from key
to record, plus a log of the writes the pages issue (push, update,
remove), so the order of writes can be stated. Its operations:

- push picks a key not yet in use and stores the record with that key
  as its `id`;
- update merges the given fields into the record at a key;
- remove deletes it;
- a listing returns every record once, in an order callers may not rely
  on; it is a read, changes nothing and is not logged.

Things outside the program become parameters:

- whether the backend accepts a write: `ok`, or for a sale the position
  `fault` of the rejected write;
- the clock: `now`.

Three behaviours of the code that are easy to miss:

- **Stock is written from the cached record.** Each stock write starts
  from the product list cached before the sale, not from the stored
  record. So a product on two lines ends at the cached quantity minus the
  *last* line's quantity (`Sales.LastLineWins`), and nothing stops it
  going negative.
- **"Last month" ends at midnight.** Its upper bound is midnight at the
  start of the last day of the previous month, not the end of that day.
  A sale later on that day is not kept (`Analytics.LastMonthKeeps`,
  `Analytics.LastDayAfternoonExcluded`).
- **The picker drops negative stock too.** It hides every product with
  quantity `<= 0`, not only those at zero.

## Model

| member | source | states |
|---|---|---|
| Common.LowerFolds | app/products/page.tsx:111-112 | `toLowerCase` leaves no capital letter: lowering twice is lowering once, and a string without capitals is unchanged |
| Common.IncludesAt | app/customers/page.tsx:106-108 | `includes` holds exactly when the term occurs at some position |
| Common.Filter | app/sales/page.tsx:264-266 | `filter` keeps, in order, exactly the elements that pass, each as many times as it occurs; all pass gives the whole list |
| Calendar.PrevMonth | app/pnl/page.tsx:77 | the previous month is earlier; January's is December of the year before |
| Calendar.DaysInMonth | app/pnl/page.tsx:78 | day 0 of the next month is day 28..31, with leap years |
| Calendar.AtOrAfterMonthStart | app/pnl/page.tsx:73-74 | an instant is at or after a month's first midnight iff its month is not earlier |
| Calendar.WithinMonthMidnights | app/pnl/page.tsx:77-81 | between a month's first and last midnights iff in that month and not past midnight of its last day |
| Entities.FindProduct | app/sales/page.tsx:104 | `find` by id: a product of the list with that id, none exactly when no product has it |
| Entities.FindProductIsFirst | app/sales/page.tsx:153 | the product found is the first with that id |
| Entities.FindCustomer | app/sales/page.tsx:132 | `find` by id over the customers, none exactly when no customer has it |
| Entities.FindCustomerIsFirst | app/sales/page.tsx:132 | the customer found is the first with that id |
| Store.FullPatchReplaces | app/sales/page.tsx:155-158 | an update sending every field (`...product`) replaces the stored record |
| Store.PatchChangesOnlyNamedFields | lib/firebase.ts:61-64 | a product update sets every field it is sent to the sent value and keeps every other field |
| Store.CustomerPatchChangesOnlyNamedFields | lib/firebase.ts:34-37 | the same for a customer update, field by field |
| Store.ListingExists | lib/firebase.ts:52-59 | every collection can be listed |
| Store.ListingHoldsStoredRecords | lib/firebase.ts:25-32 | a listing has one entry per key and holds exactly the stored records |
| Store.DistinctKeysCount | lib/firebase.ts:79-86 | a list of every key once is as long as the collection |
| Store.FreshKey | lib/firebase.ts:20 | push yields a key not yet in use |
| Store.Database.AddCustomer | lib/firebase.ts:18-23 | a fresh key, logged; on acceptance the record stored under it with `id` = key |
| Store.Database.UpdateCustomer | lib/firebase.ts:34-37 | logged; on acceptance the given fields are merged into the record at id |
| Store.Database.RemoveCustomer | lib/firebase.ts:39-42 | logged; on acceptance the key is gone |
| Store.Database.AddProduct | lib/firebase.ts:45-50 | as AddCustomer, for products |
| Store.Database.UpdateProduct | lib/firebase.ts:61-64 | as UpdateCustomer, for products |
| Store.Database.RemoveProduct | lib/firebase.ts:66-69 | as RemoveCustomer, for products |
| Store.Database.AddSale | lib/firebase.ts:72-77 | as AddCustomer, for sales |
| Store.Database.ListCustomers | lib/firebase.ts:25-32 | every stored customer once, in some order |
| Store.Database.ListProducts | lib/firebase.ts:52-59 | every stored product once, in some order |
| Store.Database.ListSales | lib/firebase.ts:79-86 | every stored sale once, in some order |
| Sales.TotalAmountIsRevenue | app/sales/page.tsx:135 | with each line's total = qty × price, Σ total is Σ qty × price |
| Sales.TotalsOfSnoc | app/sales/page.tsx:135-136 | appending a line adds exactly its amount and its cost to the totals |
| Sales.RemoveAtKeepsOthers | app/sales/page.tsx:123-125 | removal drops exactly the line at index, keeps the others in order; an out-of-range index changes nothing |
| Sales.RemovedLineLeavesTotals | app/sales/page.tsx:124 | removing a line takes exactly its total and its cost out of the cart totals |
| Sales.RemoveKeepsLineTotals | app/sales/page.tsx:124 | every remaining line still has total = qty × price |
| Sales.PickerProducts | app/sales/page.tsx:381-382 | the picker lists, in order, exactly the products with quantity > 0, each as often as it is loaded |
| Sales.CommitArithmetic | app/sales/page.tsx:135-147 | the sale carries revenue Σ qty × sell, cost Σ qty × cost, their difference, the customer's name and the lines |
| Sales.LineWrite | app/sales/page.tsx:153-158 | at most one write per line; none exactly when its product is not cached; it names that product |
| Sales.LineWriteOf | app/sales/page.tsx:153-158 | a cached product's write is its cached record with the line's quantity taken off |
| Sales.WritesStep | app/sales/page.tsx:152-160 | one more line appends its own write, if any |
| Sales.CommitCallsOrder | app/sales/page.tsx:149-160 | the sale push comes first, then one update per stock write, in cart order |
| Sales.Issued | app/sales/page.tsx:149-169 | a rejected write is the last one issued |
| Sales.Applied | app/sales/page.tsx:155-169 | the stock writes before the rejected one take effect |
| Sales.WritesPrefix | app/sales/page.tsx:152-160 | earlier lines' writes are a prefix of the commit's writes |
| Sales.ApplyPrefix | app/sales/page.tsx:152-160 | applying a prefix of the writes depends only on that prefix |
| Sales.CommitCallsStep | app/sales/page.tsx:155 | one more stock write adds exactly its update call at the end |
| Sales.CommitCallsPrefix | app/sales/page.tsx:149-160 | the calls before a stop are a prefix of the full commit's calls |
| Sales.StoppedPrefix | app/sales/page.tsx:152-160 | the writes before line i, then line i's write, open the commit's writes |
| Sales.StoppedCommit | app/sales/page.tsx:155-169 | a write rejected at line i: the earlier writes took effect, earlier calls plus the rejected one were issued |
| Sales.LineRejected | app/sales/page.tsx:155-169 | the state after a rejected line is the stopped commit's outcome |
| Sales.LineAccepted | app/sales/page.tsx:155-158 | the state after an accepted line is the loop state one line further |
| Sales.LineSkipped | app/sales/page.tsx:153-154 | a line whose product is not cached leaves the loop state as it is |
| Sales.LoopFinished | app/sales/page.tsx:152-160 | a loop that reached the end of the cart committed every write |
| Sales.FinishedCommit | app/sales/page.tsx:149-160 | with no rejection every call was issued and every write applied |
| Sales.ApplyAvoiding | app/sales/page.tsx:155-158 | writes naming other records leave a record untouched |
| Sales.WritesOfOtherLines | app/sales/page.tsx:153-155 | lines of other products write other records |
| Sales.UnsoldProductUnchanged | app/sales/page.tsx:152-160 | a product no line sells keeps its stored record |
| Sales.LastWriteLands | app/sales/page.tsx:155-158 | with no later write to its record, a write's record is what is stored |
| Sales.LineWriteAt | app/sales/page.tsx:152-160 | line i's write sits right after the writes of the lines before it |
| Sales.LaterWritesAvoid | app/sales/page.tsx:152-160 | later lines of other products write other records |
| Sales.LastLineWins | app/sales/page.tsx:152-158 | the last line of a cached product sets its stock to cached quantity minus that line's quantity |
| Sales.DuplicateLinesExample | app/sales/page.tsx:152-158 | 10 in stock, lines of 3 and 2: 8 remain, not 5 |
| Sales.NegativeStockExample | app/sales/page.tsx:157 | selling 3 of 1 in stock leaves -2: no stock check |
| Sales.FilteredSales | app/sales/page.tsx:264-266 | keeps, in order and with every copy, exactly the sales whose name matches ignoring case or whose id contains the term |
| Sales.TotalPages | app/sales/page.tsx:269 | `ceil(n / 10)`: 0 for none, else the least page count holding n |
| Sales.PageOf | app/sales/page.tsx:268 | page p shows rows (p-1)·10 up to p·10, clipped to the list; at most 10 |
| Sales.PagesUpToPrefix | app/sales/page.tsx:268 | pages 1..k in order are the first 10·k rows |
| Sales.PagesCoverAll | app/sales/page.tsx:268-269 | pages 1..totalPages are the whole list, with no loss or repeat; later pages are empty |
| Sales.SalesPage.LoadData | app/sales/page.tsx:90-99 | the three cached lists are listings of the store |
| Sales.SalesPage.AddItemToSale | app/sales/page.tsx:101-121 | a no-op when an input is empty or the product is not loaded; otherwise one line appended with the product's copies and total = qty × price, and the inputs cleared |
| Sales.SalesPage.RemoveItemFromSale | app/sales/page.tsx:123-125 | the cart is the old cart without the line at index |
| Sales.SalesPage.CompleteSale | app/sales/page.tsx:127-173 | no customer, empty cart or unknown customer: nothing changes, no call. Otherwise: the sale is pushed under a fresh key, then the stock writes in cart order, stopping at a rejection. The products hold the applied writes. On success everything is reloaded and the draft cleared; on failure the page is as it was |
| Sales.SalesPage.Commit | app/sales/page.tsx:139-160 | the sale record under a fresh key, then the commit outcome for the rejected position |
| Sales.SalesPage.ClearDraft | app/sales/page.tsx:164-167 | empty cart, no customer, dialog closed |
| Sales.SalesPage.WriteStock | app/sales/page.tsx:151-160 | the loop's result is the commit outcome: committed iff no stock write was rejected |
| Sales.SalesPage.WriteLine | app/sales/page.tsx:153-159 | one turn advances the loop state, or ends in the stopped outcome |
| Sales.SalesPage.PreviousPage | app/sales/page.tsx:577 | `max(p - 1, 1)`, staying within 1..totalPages |
| Sales.SalesPage.NextPage | app/sales/page.tsx:588 | `min(p + 1, totalPages)`, within 1..totalPages |
| Sales.SalesPage.ShownSales | app/sales/page.tsx:268 | at most 10 rows, each a stored sale matching the search |
| Analytics.FilterSales | app/pnl/page.tsx:61-91 | an order-keeping subsequence of exactly the sales the period keeps, each as often as it is stored; `all`, or `custom` with an empty date, keeps everything |
| Analytics.ThisMonthKeeps | app/pnl/page.tsx:71-74 | kept iff the sale's month is the current month or later |
| Analytics.LastMonthKeeps | app/pnl/page.tsx:75-82 | kept iff in the previous month (December before January) and not past midnight of its last day |
| Analytics.LastDayAfternoonExcluded | app/pnl/page.tsx:78-81 | an afternoon sale on 29 Feb 2024 is dropped in March; 28 Feb is kept; December is January's last month |
| Analytics.ThisYearKeeps | app/pnl/page.tsx:83-86 | kept iff in the current year or later |
| Analytics.SumCountIsLength | app/pnl/page.tsx:115 | counting one per sale gives the number of sales |
| Analytics.AddSale | app/pnl/page.tsx:111-115 | each bucket column grows by the sale's value (missing counts as 0), the count by one, the month stays |
| Analytics.BucketStep | app/pnl/page.tsx:96-116 | one more sale changes only its own month's bucket, by AddSale |
| Analytics.CountMeansPresent | app/pnl/page.tsx:101-115 | a month's count is positive exactly when it has a sale |
| Analytics.InsertByMonth | app/pnl/page.tsx:118-120 | inserting keeps every bucket and adds the new one |
| Analytics.InsertKeepsOrder | app/pnl/page.tsx:118-120 | inserting a bucket of a new month keeps the table in order |
| Analytics.SortByMonth | app/pnl/page.tsx:118-120 | sorting is a permutation of the buckets |
| Analytics.SortOrders | app/pnl/page.tsx:118-120 | with one bucket per month the sorted table is strictly chronological |
| Analytics.BucketsSumByMonth | app/pnl/page.tsx:96-116 | a bucket column's sum is the sum of each month's sales |
| Analytics.SumOverMonthsStep | app/pnl/page.tsx:111-115 | one more sale adds its value once if its month is listed |
| Analytics.SumOverMonthsCovers | app/pnl/page.tsx:96-116 | per-month sums over distinct months covering every sale give the plain sum |
| Analytics.BucketsAddUp | app/pnl/page.tsx:94-127 | bucket columns add up to the summary totals; transaction counts add up to the number of sales |
| Analytics.Accumulate | app/pnl/page.tsx:96-116 | one bucket per month that has sales, each holding its month's sums and a positive count; the months are listed once each, in the order of their first sale (`FirstSale` positions increase along the list) |
| Analytics.FirstSale | app/pnl/page.tsx:99-109 | the position of a month's first sale: that sale is of the month, no earlier one is, and the list's length when the month has none |
| Analytics.FirstSaleSnoc | app/pnl/page.tsx:96-109 | one more sale moves no month's first sale, and a month first met in it gets its first sale there |
| Analytics.TallyStep | app/pnl/page.tsx:101-115 | one turn of the forEach keeps the loop's state |
| Analytics.TallyBuckets | app/pnl/page.tsx:111-115 | the sale's bucket is the old one plus the sale; the others stay |
| Analytics.ValuesFormTable | app/pnl/page.tsx:118 | those values have one bucket per month, each the sums of its month, covering every sale |
| Analytics.PermutedTable | app/pnl/page.tsx:118-120 | a reordered table is still the table of the same sales |
| Analytics.MonthlyData | app/pnl/page.tsx:93-123 | chronological buckets, one per month that has sales, each holding its month's sums; columns add up to the totals and counts to the number of sales |
| Analytics.Margin | app/pnl/page.tsx:128 | sales > 0: margin × sales = profit × 100; otherwise 0 (also the per-month margin, line 308) |
| Analytics.MarginSign | app/pnl/page.tsx:268-281 | the margin is non-negative (green) iff there are no sales or no loss; at most 100 iff profit ≤ sales |
| Analytics.SummaryMatchesTable | app/pnl/page.tsx:125-128 | each summary total is its bucket column's sum, and the margin is that of the column sums |
| Analytics.Recent | app/pnl/page.tsx:355 | the first min(10, n) filtered sales, in order |
| Analytics.PnlPage.LoadSalesData | app/pnl/page.tsx:50-59 | the sales are a listing of the stored sales |
| Analytics.PnlPage.SelectPeriod | app/pnl/page.tsx:167 | the selected period becomes p |
| Analytics.PnlPage.FilterSalesData | app/pnl/page.tsx:61-91 | the filtered list, then the monthly table from it: chronological, one bucket per month, counts adding up to the list's length, amounts to totalSales |
| Products.UpdateKeepsIdentity | app/products/page.tsx:64-73 | an edit keeps the stored id and the product's createdAt and takes the form's four fields |
| Products.AddStampsNow | app/products/page.tsx:64-75 | a new product gets its key as id, createdAt = now, and the form's fields |
| Products.EditThenSaveIsIdentity | app/products/page.tsx:89-98 | a product opened for edit can be saved unchanged exactly when its article number and name are filled, and then it is written back as it was |
| Products.StockBadges | app/products/page.tsx:262-268 | Low Stock iff 1..5, Out of Stock iff 0, never both, neither when negative |
| Products.FilteredProducts | app/products/page.tsx:109-113 | in order and with every copy, exactly the products whose name or article number contains the term ignoring case; an empty term keeps all |
| Products.MatchIgnoresCase | app/products/page.tsx:111-112 | the term's case does not change the result |
| Products.ProductsPage.LoadProducts | app/products/page.tsx:50-57 | the products are a listing of the store |
| Products.ProductsPage.OpenNew | app/products/page.tsx:132-135 | no edit target, an empty form, the dialog open |
| Products.ProductsPage.HandleEdit | app/products/page.tsx:89-98 | the product becomes the edit target, its fields fill the form, the dialog opens |
| Products.ProductsPage.HandleSubmit | app/products/page.tsx:59-87 | submitted only with all four inputs filled (lines 160-199); one write: an update of the edited product or a push of a new one. Accepted: reload, form reset, no edit target, dialog closed. Rejected: the page state unchanged |
| Products.ProductsPage.Save | app/products/page.tsx:72-76 | update when editing, add otherwise, never both |
| Products.ProductsPage.HandleDelete | app/products/page.tsx:100-107 | one remove; on acceptance the product is gone and the list reloaded |
| Customers.UpdateKeepsIdentity | app/customers/page.tsx:64-65 | an edit changes only the four form fields; id and createdAt stay |
| Customers.AddStampsNow | app/customers/page.tsx:66-70 | a new customer gets its key as id, createdAt = now, the form's four fields |
| Customers.EditThenSaveIsIdentity | app/customers/page.tsx:84-93 | opening a customer for edit and saving unchanged writes back exactly that customer |
| Customers.DisplayNeverBlank | app/customers/page.tsx:248-250 | a cell is never empty; a non-empty field is shown as it is; "-" exactly for an empty field (or one that is "-") |
| Customers.FilteredCustomers | app/customers/page.tsx:104-109 | in order and with every copy, exactly the customers matching by name or email ignoring case, or by phone as typed; an empty term keeps all |
| Customers.PhoneMatchIsCaseSensitive | app/customers/page.tsx:108 | phone "EXT-7" is found by "EXT-7" but not by "ext-7" |
| Customers.CustomersPage.LoadCustomers | app/customers/page.tsx:50-57 | the customers are a listing of the store |
| Customers.CustomersPage.OpenNew | app/customers/page.tsx:128-131 | no edit target, an empty form, the dialog open |
| Customers.CustomersPage.HandleEdit | app/customers/page.tsx:84-93 | the customer becomes the edit target, its four fields fill the form, the dialog opens |
| Customers.CustomersPage.HandleSubmit | app/customers/page.tsx:59-82 | submitted only with the name filled (line 156); one write: a partial update of the edited customer or a stamped push. Accepted: reload and reset. Rejected: the page state unchanged |
| Customers.CustomersPage.Save | app/customers/page.tsx:64-71 | update when editing, add otherwise, never both |
| Customers.CustomersPage.HandleDelete | app/customers/page.tsx:95-102 | one remove; on acceptance the customer is gone and the list reloaded |

## Left out

- The SDK: I/O and the network are replaced by the `Database` class, and the outcome of each write is a parameter. A rejected write throws in the source; here it is the `ok`/`fault` parameter, and the page skips its later steps.
- Failed reads: every load swallows its own errors (`try`/`catch` around the read), so the model's reads always succeed.
- The clock: it is the `now` parameter. The sale date's ISO string becomes the `Instant` read on the page.
- Time zones and locales: an `Instant` is a local calendar reading compared lexicographically. The custom range's `new Date("YYYY-MM-DD")` parses as midnight UTC, not local midnight; the model takes the parsed bounds as given instants.
- Month labels: the source sorts the buckets by parsing the display label (`toLocaleDateString` then `new Date`). The model sorts by (year, month), which is what that parse is meant to give. `Analytics.SortByMonth` is an insertion sort standing for the engine's sort; only its result is stated.
- Floating point: money is an integer number of minor units, and `parseInt`/`parseFloat` with their NaN cases are not modelled. A number input is `Entry = Blank | Number(n)`. The margin is an exact `real`; `toFixed` rounding is not modelled.
- Common.LowerFolds: `Common.Lower` folds only the ASCII capitals 'A'..'Z'. `toLowerCase` also folds other letters, so in the model a search for "é" does not find "É"; the lemma's facts are about ASCII case only.
- Async behaviour: loading flags, spinners, `Promise.all`, re-renders and effect scheduling. The effects that re-run the P&L filter are explicit calls to `FilterSalesData`.
- Typing into inputs and the pop-up pickers: the field setters and the combobox's own text search. The model's fields are set directly, and the picker's content is `Sales.PickerProducts`.
- Invoice generation and printing (HTML templating, `window.open`), the login placeholder, the navigation bar and the dashboard page.
- Sales.SalesPage.ShownSales: states only that the rows are matching stored sales, at most ten. The exact slice is stated by `Sales.PageOf`, which it returns.
