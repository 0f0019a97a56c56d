# Inventory manager: a Dafny model of its stock ledger, API routes and table pagination

The inventory manager is a Next.js application backed by a relational store.
It holds:

- products, categories and suppliers;
- an append-only ledger of stock movements (IN and OUT transactions).

A product's stock is never stored. It is always derived from the ledger as
the sum of the product's IN quantities minus the sum of its OUT quantities.

This project models:

- **Stock derivation** (`Stock`, from `lib/stock.ts`): `calculateProductStock`
  and `hasEnoughStock`.
- **Transactions route** (`TransactionsRoute`). POST admits a movement in three
  checks, in this order:
  1. the payload schema (400);
  2. the product's existence (404);
  3. for an OUT only, the stock guard (400).

  It then appends exactly one ledger entry. GET lists the ledger newest first.
- **Catalogue routes** (`ProductsRoute`, `CategoriesRoute`, `SuppliersRoute`):
  - the schemas, modelled as lists of issues;
  - the products listing with derived stock;
  - the case-insensitive duplicate-name refusal for categories (409);
  - the supplier search.
- **Dashboard route** (`DashboardRoute`): every figure of the dashboard
  (stock value, month sales, gross profit, sales chart, sales by category,
  best sellers, low stock, recent transactions). Each figure is modelled as a
  fold (`SUM`, `GROUP BY`, `ORDER BY`, `LIMIT`) followed by `formatNumber`.
- **Search route** (`SearchRoute`). For products, categories and suppliers it
  takes the first five matches by name. The answer lists products, then
  categories, then suppliers, and each result links to its edit page.
- **Table component** (`Table`):
  - the pagination bar's page numbers (`renderPageNumbers`), written as an
    imperative method with a loop;
  - the page count and the current page's rows;
  - the component's current-page state, as a class;
  - the dotted-path cell lookup `getNestedValue`.

Shared modules hold the vocabulary behind these:

- `Common`: option, result, errors and HTTP status;
- `Entities`: the records and primary-key lookup;
- `Text`: case folding, substring search, name order and decimal ids;
- `Sql`: `SUM`, `COALESCE`, `WHERE`, `ORDER BY` as a stable sort, `LIMIT`
  and `GROUP BY`;
- `Store`: the database as a class holding the four tables and their id
  counters, with a validity invariant covering id order and foreign keys.

Modelling choices:

- Money is an exact integer number of minor units.
- Instants are integers.
- The clock is a parameter. This includes the first instant of the month,
  the instant thirty days ago, the month of an instant and today's calendar
  day.
- The e-mail and URL validators of the validation library are parameters
  (`isEmail`, `isUrl`).
- The transactions route imports `hasEnoughStock` from a module
  `lib/utils/stock`. That module is not part of this model; `lib/stock.ts`,
  which defines the same two functions, is modelled in its place.

## Model

| member | source | states |
|---|---|---|
| Common.Status | src/app/api/transactions/route.ts:55-105 | Each error maps to its HTTP status: 404 exactly for a missing product, 409 exactly for a duplicate name, 400 exactly for a schema failure or insufficient stock, 500 exactly for a storage failure. |
| Entities.FindProduct | src/app/api/transactions/route.ts:51-53 | `findUnique` by id: a found product is in the table with that id; nothing is found exactly when no product has the id. |
| Entities.FindCategory | src/app/api/dashboard/route.ts:119-120 | The category join: a found category has the id; none is found exactly when no category has it. |
| Entities.FindSupplier | src/app/api/products/route.ts:65-71 | The supplier a product refers to: found with that id, or no supplier has it. |
| Stock.CalculateProductStock | lib/stock.ts:3-18 | Stock is the sum of the product's IN quantities minus the sum of its OUT quantities; a type with no group counts as 0. |
| Stock.StockIsSignedSum | lib/stock.ts:3-18 | The grouped derivation equals the running sum of +quantity for IN and −quantity for OUT over the product's entries. |
| Stock.QuantitiesAppend | lib/stock.ts:4-12 | A type's group over a split ledger is the concatenation of the groups of the two parts. |
| Stock.StockAppend | lib/stock.ts:3-18 | Stock is additive over a split of the ledger. |
| Stock.StockAfterAppend | lib/stock.ts:3-18 | One more IN entry raises the product's stock by its quantity and one OUT lowers it by its quantity; an entry for another product changes nothing. |
| Stock.StockOfOne | lib/stock.ts:3-18 | A one-entry ledger derives the entry's signed quantity for its product and 0 for any other. |
| Stock.NoHistoryStockZero | lib/stock.ts:14-17 | A product without entries has no IN group and no OUT group, and stock 0. |
| Stock.NoEntriesOfKind | lib/stock.ts:14-17 | A type without entries has no group and contributes 0. |
| Stock.OtherProductsIrrelevant | lib/stock.ts:4-8 | Entries of other products, before or after, do not change a product's stock. |
| Stock.StockPermutationInvariant | lib/stock.ts:4-12 | Stock depends only on the multiset of entries, not on their order. |
| Stock.HasEnoughStockIffNonNegativeAfterOut | lib/stock.ts:20-23 | The guard admits an OUT exactly when recording it leaves the product's stock non-negative. |
| Sql.SumAppend | src/app/api/dashboard/route.ts:44-63 | `SUM` is additive over concatenation. |
| Sql.SumPermutation | src/app/api/dashboard/route.ts:44-63 | `SUM` does not depend on row order. |
| Sql.CoalesceSqlSum | src/app/api/dashboard/route.ts:45-50 | `COALESCE(SUM(x), 0)` is the plain sum, 0 over no rows. |
| Sql.Take | src/app/api/search/route.ts:20 | `take`/`LIMIT k` keeps a prefix of the rows: every row when there are at most k, exactly k rows otherwise. |
| Sql.Where | src/app/api/suppliers/route.ts:17-23 | `WHERE p` keeps exactly the rows satisfying p, each as many times as it occurs. |
| Sql.WhereAll | src/app/api/suppliers/route.ts:15-23 | A filter that every row satisfies returns the input unchanged. |
| Sql.Insert | src/app/api/products/route.ts:26-28 | One insertion step of the sort adds the row and nothing else. |
| Sql.InsertSorted | src/app/api/products/route.ts:26-28 | Inserting into a sorted sequence under a total preorder keeps it sorted. |
| Sql.SortBy | src/app/api/products/route.ts:26-28 | `ORDER BY` returns a permutation of its input. |
| Sql.SortBySorted | src/app/api/products/route.ts:26-28 | Under a total preorder the result of `ORDER BY` is sorted. |
| Sql.TopK | src/app/api/search/route.ts:20-23 | `ORDER BY … LIMIT k` keeps min(k, n) rows of the input, sorted, and no row cut off sorts before a kept one. |
| Sql.IndexOfKey | src/app/api/dashboard/route.ts:122 | Finds the group of a key, or reports that there is none. |
| Sql.GroupBySpec | src/app/api/dashboard/route.ts:116-125 | `GROUP BY` yields one group per key present in the rows, with distinct keys, each holding its key's summed quantity and total. |
| Sql.NoRowsZero | src/app/api/dashboard/route.ts:128-141 | A key that no row carries sums to 0. |
| Text.Lower | src/app/api/categories/route.ts:40-47 | Lower-casing keeps the length, leaves no capital letter, keeps every other character, and turns each capital into its lower-case letter. |
| Text.LowerIdempotent | src/app/api/categories/route.ts:40-47 | Folding twice is folding once. |
| Text.EqualsIgnoreCaseExample | src/app/api/categories/route.ts:40-47 | Worked example, not a general property: "BEBIDAS" equals "Bebidas" ignoring case; "Bebidas" does not equal "Lanches". |
| Text.ContainsIff | src/app/api/search/route.ts:13 | The substring scan succeeds exactly when the needle occurs at some offset. |
| Text.ContainsEmpty | src/app/api/search/route.ts:7 | The empty text occurs in every string. |
| Text.ContainsIgnoreCaseEmpty | src/app/api/suppliers/route.ts:15 | An absent search text (`''`) matches every name. |
| Text.ContainsIgnoreCaseSelf | src/app/api/search/route.ts:13 | A name matches a search for itself in any letter case. |
| Text.LexLeTotal | src/app/api/products/route.ts:26-28 | Name order compares any two names. |
| Text.LexLeTransitive | src/app/api/products/route.ts:26-28 | Name order is transitive. |
| Text.LexLeAntisymmetric | src/app/api/products/route.ts:26-28 | Two names ordered both ways are equal. |
| Text.NatToString | src/app/api/search/route.ts:54 | `${id}` renders a non-empty string of decimal digits. |
| Text.ParseNatToString | src/app/api/search/route.ts:54 | Reading the rendered digits back gives the id. |
| Text.NatToStringInjective | src/app/api/search/route.ts:54 | Distinct ids render to distinct strings. |
| Store.Database.CreateTransaction | src/app/api/transactions/route.ts:76-90 | Appends exactly one entry with the next id and the given fields, and keeps the store valid. |
| Store.Database.CreateProduct | src/app/api/products/route.ts:65-71 | Fails exactly when the category or supplier does not exist. Otherwise it appends one product with the next id, and that product has no ledger entries. |
| Store.Database.CreateCategory | src/app/api/categories/route.ts:56-58 | Appends exactly one category with the next id. |
| Store.Database.CreateSupplier | src/app/api/suppliers/route.ts:49-51 | Appends exactly one supplier with the next id. |
| Store.TransactionAppendOk | src/app/api/transactions/route.ts:76-90 | An entry with the next id and an existing product keeps ids increasing and every entry's product existing. |
| Store.ProductAppendOk | src/app/api/products/route.ts:65-71 | A product with the next id and existing references keeps the tables consistent, and no entry refers to it yet. |
| Store.CategoryAppendOk | src/app/api/categories/route.ts:56-58 | A category with the next id keeps ids increasing and every product's references valid. |
| Store.SupplierAppendOk | src/app/api/suppliers/route.ts:49-51 | A supplier with the next id keeps ids increasing and every product's references valid. |
| TransactionsRoute.ParseType | src/app/api/transactions/route.ts:7 | `z.enum(['IN', 'OUT'])` accepts exactly "IN" and "OUT". |
| TransactionsRoute.ValidateTransaction | src/app/api/transactions/route.ts:6-16 | Passes exactly when the type is IN or OUT, quantity ≥ 1, productId ≥ 1, both amounts ≥ 0 and the date is valid and not in the future. The data passed on is the payload itself; a failure lists the issues. |
| TransactionsRoute.Post | src/app/api/transactions/route.ts:43-107 | A refused request leaves the ledger unchanged. An admitted one appends exactly one entry carrying the validated payload. Nothing else changes, the store stays valid and non-negative stock stays non-negative. |
| TransactionsRoute.InvalidPayloadIs400 | src/app/api/transactions/route.ts:46-49 | An invalid payload is answered 400 with its issues, before existence or stock are looked at. |
| TransactionsRoute.MissingProductIs404 | src/app/api/transactions/route.ts:51-60 | A valid payload naming no product is answered 404. |
| TransactionsRoute.StockCheckOnlyForOut | src/app/api/transactions/route.ts:62-74 | A valid payload for an existing product is refused for stock exactly when it is an OUT larger than the stock. An IN is always admitted. |
| TransactionsRoute.TotalValueIsNotRecomputed | src/app/api/transactions/route.ts:76-80 | The stored total is the caller's: 2 units at 500 may be recorded with total 7. |
| TransactionsRoute.AdmitPreservesNonNegativeStock | src/app/api/transactions/route.ts:62-90 | Under sequential execution no admitted movement makes any product's stock negative. |
| TransactionsRoute.ListTransactionsSpec | src/app/api/transactions/route.ts:18-33 | GET returns every entry exactly once, newest first. |
| TransactionsRoute.RestockAndSellScenario | src/app/api/transactions/route.ts:62-74 | Worked example, not a general property: after IN 100 and OUT 30 the stock is 70; an OUT of 80 is refused, an OUT of 70 is admitted and leaves 0. |
| ProductsRoute.ValidateProduct | src/app/api/products/route.ts:6-17 | Passes exactly when the name is non-empty, the image URL is absent, empty or a URL, both prices are non-negative numbers, both references are ≥ 1 and sell > buy. A failure lists the issues in field order, the sell-price refinement last; a rejected URL or a value below its minimum does not stop the refinement, a NaN does. |
| ProductsRoute.SellPriceRuleIssue | src/app/api/products/route.ts:14-17 | Whenever no price or reference is NaN (whatever the name and image URL), the `sellPrice` refinement issue appears exactly when sell ≤ buy. |
| ProductsRoute.Post | src/app/api/products/route.ts:51-93 | A validation failure is answered 400 and a missing category or supplier 500, and neither changes the catalogue. Otherwise exactly one product is appended and returned with quantity 0. Sell-above-buy is preserved for the catalogue. |
| ProductsRoute.ByNameTotalPreorder | src/app/api/products/route.ts:26-28 | Ordering products by name is a total preorder. |
| ProductsRoute.ListProductsSpec | src/app/api/products/route.ts:19-49 | GET lists every product exactly once, by name, each with its derived stock. |
| CategoriesRoute.ValidateCategory | src/app/api/categories/route.ts:5-8 | Passes exactly when the name is non-empty; otherwise the issue is `name`. |
| CategoriesRoute.FindByNameIgnoringCase | src/app/api/categories/route.ts:40-47 | Finds a category whose name equals the given one ignoring case, or reports that none exists. |
| CategoriesRoute.InsertKeepsNamesDistinct | src/app/api/categories/route.ts:40-58 | Inserting a name that no category has, ignoring case, keeps names unique ignoring case. |
| CategoriesRoute.Post | src/app/api/categories/route.ts:35-71 | An empty name is answered 400 and a name already taken, ignoring case, 409; neither creates anything. Otherwise exactly one category is appended. Case-insensitive uniqueness is preserved. |
| CategoriesRoute.ByNameTotalPreorder | src/app/api/search/route.ts:30-32 | Ordering categories by name is a total preorder. |
| SuppliersRoute.ValidateSupplier | src/app/api/suppliers/route.ts:5-10 | Passes exactly when name, contact and phone are non-empty and the e-mail is valid. A failure lists the issues. |
| SuppliersRoute.Post | src/app/api/suppliers/route.ts:44-66 | A validation failure is answered 400 and creates nothing. Otherwise exactly one supplier is appended. |
| SuppliersRoute.ByNameTotalPreorder | src/app/api/suppliers/route.ts:27-29 | Ordering suppliers by name is a total preorder. |
| SuppliersRoute.ListSuppliersSpec | src/app/api/suppliers/route.ts:12-42 | GET lists exactly the suppliers whose name or e-mail contains the text, ignoring case, each as often as stored, by name. |
| SuppliersRoute.ListSuppliersNoSearch | src/app/api/suppliers/route.ts:15 | Without a search parameter every supplier is listed. |
| SearchRoute.ProductHitsSpec | src/app/api/search/route.ts:10-24 | Product hits: min(5, matches) products, each matching on name or description, ordered by name. No matching product left out sorts before a hit. |
| SearchRoute.CategoryHitsSpec | src/app/api/search/route.ts:25-33 | The same for categories, which match by name only. |
| SearchRoute.SupplierHitsSpec | src/app/api/search/route.ts:34-45 | The same for suppliers, which match on name or e-mail. |
| SearchRoute.AnswerLayout | src/app/api/search/route.ts:48-72 | Results come as products, then categories, then suppliers. Each carries its row's id, name and type, the subtitle fixed for its type (category name, description, e-mail) and its own edit link. |
| SearchRoute.SearchBound | src/app/api/search/route.ts:20-72 | At most fifteen results. |
| SearchRoute.LinkNamesId | src/app/api/search/route.ts:54 | A link starts with its page's edit prefix, and the rest reads back as the result's id. |
| SearchRoute.AbsentQueryMatchesAll | src/app/api/search/route.ts:7 | An absent `q` matches every row of each table. |
| DashboardRoute.TotalStockValueIsValueAtCost | src/app/api/dashboard/route.ts:44-63 | Stock value is the sum over products of buy price times derived stock, and 0 with no products. |
| DashboardRoute.StockValuesSum | src/app/api/dashboard/route.ts:51-62 | The inner query's per-product values sum to the catalogue valued at cost. |
| DashboardRoute.NewProductAddsNoValue | src/app/api/dashboard/route.ts:55-60 | A product without entries adds nothing to the stock value. |
| DashboardRoute.SalesTotalStep | src/app/api/dashboard/route.ts:70-80 | A sales sum is 0 over no entries; one more entry adds its total exactly when it is an OUT inside the window. |
| DashboardRoute.NoSalesZero | src/app/api/dashboard/route.ts:70-80 | Without counted sales the sum is 0, not NULL. |
| DashboardRoute.MonthSalesIgnores | src/app/api/dashboard/route.ts:70-80 | Month sales are unchanged by a restock and by a sale dated before the month. |
| DashboardRoute.MonthSeriesSpec | src/app/api/dashboard/route.ts:96-102 | The recursive months run from the start month to the current one, one apart. |
| DashboardRoute.SalesChartSpec | src/app/api/dashboard/route.ts:95-113 | Starting five months back: six consecutive months ending with the current one. Each is valued at its month's OUT totals, and a month without sales at 0. |
| DashboardRoute.SalesChartBounds | src/app/api/dashboard/route.ts:96-112 | Whatever the start, the chart has 1 to 6 points in strictly ascending months, starting at the start month and never past the current month. |
| DashboardRoute.ChartStartAsWrittenDrift | src/app/api/dashboard/route.ts:90-93 | As written, the chart starts five months back, except on the days of July that February lacks, when it starts four months back. |
| DashboardRoute.ChartOnJulyThirtyFirst | src/app/api/dashboard/route.ts:90-113 | On 31 July the chart as written starts in March and has five points. |
| DashboardRoute.ChartStartSixMonths | src/app/api/dashboard/route.ts:90-113 | With the start taken on the first of the month, the chart has six points, from five months back to the current month, on every day. |
| DashboardRoute.SalesByCategorySpec | src/app/api/dashboard/route.ts:116-125 | At most four categories, each once, by total descending, each with its sales revenue. A category with sales is left out only when four are shown, and then it sold no more than any shown. |
| DashboardRoute.TopGroups | src/app/api/dashboard/route.ts:116-141 | `GROUP BY … ORDER BY … LIMIT k` keeps at most k groups with distinct keys, sorted, each holding its key's sums. No key left out sorts before a kept group, and a key is left out only when k groups are kept. |
| DashboardRoute.AllFitKeepsKeys | src/app/api/dashboard/route.ts:122-124 | When the groups fit under the limit, every key is kept. |
| DashboardRoute.SortedTakeDistinct | src/app/api/dashboard/route.ts:122-124 | Sorting and cutting groups with distinct keys keeps the keys distinct. |
| DashboardRoute.TwoCopies | src/app/api/dashboard/route.ts:122-124 | Equal rows at two positions make two copies. |
| DashboardRoute.DistinctCountOne | src/app/api/dashboard/route.ts:122 | With distinct keys every group occurs once. |
| DashboardRoute.BestSellersSpec | src/app/api/dashboard/route.ts:128-141 | At most five (product name, category name) keys, each once, by quantity descending, with summed quantity and value. A key with sales is left out only when five are shown, and then it sold no more units than any shown. |
| DashboardRoute.LowStockSpec | src/app/api/dashboard/route.ts:144-162 | At most four products, each in the catalogue and reported with its derived stock, which is below ten. While fewer than four are shown, every low product is shown. |
| DashboardRoute.NoHistoryIsLow | src/app/api/dashboard/route.ts:150-160 | A product without entries has stock 0 and counts as low. |
| DashboardRoute.RecentTransactionsSpec | src/app/api/dashboard/route.ts:165-182 | min(10, n) ledger entries, newest first, carrying their id, date and total. No entry left out is newer than one shown. |
| DashboardRoute.GrossProfitStep | src/app/api/dashboard/route.ts:184-190 | Profit is 0 over no entries; each further OUT since the instant adds total − quantity × buy price. |
| DashboardRoute.EmptyStoreDashboard | src/app/api/dashboard/route.ts:199-238 | On an empty store every figure is 0 or empty, except the chart, whose months are all 0. |
| Table.WindowSpec | src/components/Table.tsx:47-53 | The window lies within 1..totalPages, holds min(5, totalPages) pages, and holds the current page when that page exists. |
| Table.RenderPageNumbers | src/components/Table.tsx:45-110 | The loop builds exactly the bar's layout: leading part, window, trailing part. |
| Table.LayoutAt | src/components/Table.tsx:55-107 | The bar's length and each of its items, in closed form. |
| Table.LayoutShape | src/components/Table.tsx:55-107 | The bar starts with page 1 and ends with the last page. It shows every page of the window and the current page, only existing pages, in strictly increasing order, at most nine items. |
| Table.LayoutAdjacent | src/components/Table.tsx:74-88 | Neighbouring buttons are consecutive pages. |
| Table.LayoutGaps | src/components/Table.tsx:55-107 | Every ellipsis sits between two buttons that skip at least one page. The leading ellipsis appears exactly when the window starts after page 2, the trailing one exactly when it ends before the second-to-last page. |
| Table.ItemsPerPage | src/components/Table.tsx:143 | `perPage || 10`: 10 when the prop is absent or its `perPage` is 0, otherwise the given `perPage`; never 0. |
| Table.CeilDivSpec | src/components/Table.tsx:144 | `Math.ceil(a / n)` is the least page count whose pages hold all a rows. |
| Table.TotalPagesWithoutProp | src/components/Table.tsx:144 | Without the prop the page count is the least number of ten-row pages holding every row, and the bar shows exactly when there are more than ten rows. |
| Table.SliceIndex | src/components/Table.tsx:152 | `slice` index clamping: an index within 0..length is kept, a larger one becomes length, a negative one counts from the end, and one before the start becomes 0. |
| Table.CurrentPageDataSpec | src/components/Table.tsx:146-153 | With the prop the rows are shown as given; without it page p shows rows (p−1)·10 up to p·10, cut at the data's end. |
| Table.EveryRowOnItsPage | src/components/Table.tsx:146-153 | Without the prop row k appears, at position k mod 10, on page k / 10 + 1, which exists. |
| Table.TableState.constructor | src/components/Table.tsx:142 | The table opens on page 1 with its props. |
| Table.TableState.ChangePage | src/components/Table.tsx:112-130 | Picking an offered page (previous, next or a numbered button) makes it current and leaves the props alone. A current page within range stays within range. |
| Table.Split | src/components/Table.tsx:32 | `split('.')` yields at least one part and no part contains a dot. |
| Table.SplitJoin | src/components/Table.tsx:32 | Joining the parts with dots gives the path back. |
| Table.WalkAppend | src/components/Table.tsx:32-37 | Following a path in two pieces is following it at once. |
| Table.WalkStopsAtNonObject | src/components/Table.tsx:33-36 | Once a non-object (null included) is reached, the lookup yields undefined. |
| Table.UndefinedStaysUndefined | src/components/Table.tsx:33-36 | Undefined stays undefined along any rest of the path. |
| Table.NoDotReadsOneProperty | src/components/Table.tsx:31-38 | A key without dots reads one property of an object. |
| Table.SplitNoDot | src/components/Table.tsx:32 | A key without dots splits into itself. |

## Left out

- Persistence and plumbing. The model does not cover Prisma, SQL text, JSON (de)serialisation, `NextResponse`, logging, or the 500 answers to storage failures other than the foreign-key failure on a product insert. The dashboard's 400 for any known Prisma error is also not modelled.
- Concurrency. The stock check in the transactions route runs outside `prisma.$transaction`, and the category duplicate check is check-then-insert. Only sequential execution is modelled, so concurrent overselling and duplicate inserts are not.
- Numbers. Quantities, prices and ids are integers and money is exact minor units. Fractional quantities, floating-point rounding, `Prisma.Decimal`, `toFixed(2)` and bigint conversion in `formatNumber` are left out.
- Request bodies whose fields have the wrong JSON type (a string quantity, say) are left out. `Number(...)` coercion in the products route is modelled only as "a number or NaN".
- Calendar arithmetic. Time zones, `setHours`, the thirty-days-ago instant and `DATE_TRUNC('month', …)` are abstracted into clock parameters: the month start, the instant thirty days ago, and the month of an instant. Today's calendar day is a parameter, and the chart's first month is computed from it.
- DashboardRoute.GetDashboard: uses the corrected chart start (see Findings), so on 29-31 July it shows six months where the source shows five.
- Projections. The include/select projections (a transaction with its product, category and supplier; a category with its products) are left out; the routes return the rows themselves.
- Collation. Name order is code-point lexicographic and case folding is ASCII; the database's collation is not modelled. The order among rows with equal sort keys is left to the database. The model fixes it as a stable sort, and no property relies on it.
- DashboardRoute.LowStockSpec: `LIMIT 4` without `ORDER BY` returns an order the database chooses. The model takes catalogue order, so which four low products appear is fixed here but not in the source.
- Validators. The e-mail and URL checks of the validation library are parameters (`isEmail`, `isUrl`).
- The categories route's GET is not part of this model. It takes a caller-chosen `orderBy` column and direction.
- The `[id]` routes (update, delete and their delete guards) are not part of this model.
- Table.Step: JavaScript prototype properties (`toString` and the like), arrays and functions as cell values are not modelled; an object has only its own fields.
- Table.ItemsPerPage: a NaN `perPage` is not modelled; the prop is an integer.
- Rendering. React rendering, CSS classes, the highlighted current page, icons, and the edit and delete buttons are left out.
- The products GET and POST call the stock derivation once per product. The model derives stock the same way but does not model the `Promise.all` fan-out.

## Findings

| source | as written | input that shows it | evidently intended | confidence | as-written member | corrected member |
|---|---|---|---|---|---|---|
| src/app/api/dashboard/route.ts:90-93 | `setMonth(getMonth() - 5)` runs before `setDate(1)`, so the day of the month is kept while the month moves back. A day that February lacks rolls over into March. | Today 31 July 2025: the start becomes 3 March, then 1 March, and the chart covers March to July, five months. | The chart starts on the first day of the month five months back and always shows six months. | not executed | DashboardRoute.ChartOnJulyThirtyFirst | DashboardRoute.ChartStartSixMonths |
