/** The dashboard route (src/app/api/dashboard/route.ts): read-only figures
    over the catalogue and the ledger. Every figure is a fold (`SUM`,
    `GROUP BY`, `ORDER BY`, `LIMIT`) followed by `formatNumber`, which turns
    a NULL into 0.

    The clock is a parameter: `monthStart` is the first instant of the
    current month, `since` the instant thirty days ago, `monthOf` maps an
    instant to its calendar month's index (`DATE_TRUNC('month', …)`, months
    counted from year 0 as `MonthIndex` counts them) and `today` is the
    current calendar day. */
module DashboardRoute {
  import opened Common
  import opened Entities
  import opened Stock
  import opened Sql
  import TransactionsRoute

  datatype Clock = Clock(
    monthStart: int,
    since: int,
    monthOf: int -> int,
    today: Day)

  // ---------------------------------------------------------------------
  // Total stock value

  /** The inner query: `buyPrice * stock_quantity` for every product, in
      catalogue order, with the stock summed by `CASE` over a LEFT JOIN. */
  function StockValues(products: seq<Product>, ledger: seq<Transaction>): seq<Money>
  {
    seq(|products|, i requires 0 <= i < |products| => products[i].buyPrice * SignedStock(ledger, products[i].id))
  }

  function TotalStockValue(products: seq<Product>, ledger: seq<Transaction>): Money
  {
    CoalesceZero(SqlSum(StockValues(products, ledger)))
  }

  /** Reference: the catalogue valued at cost, with each product's stock as
      the stock module derives it. */
  function ValueAtCost(products: seq<Product>, ledger: seq<Transaction>): Money
  {
    if products == [] then 0
    else
      var p := products[|products| - 1];
      ValueAtCost(products[..|products| - 1], ledger) + p.buyPrice * CalculateProductStock(ledger, p.id)
  }

  /** The stock value is the sum over all products of buy price times
      derived stock; with no products it is 0. */
  lemma {:induction false} TotalStockValueIsValueAtCost(products: seq<Product>, ledger: seq<Transaction>)
    ensures TotalStockValue(products, ledger) == ValueAtCost(products, ledger)
    ensures products == [] ==> TotalStockValue(products, ledger) == 0
  {
    StockValuesSum(products, ledger);
  }

  lemma {:induction false} StockValuesSum(products: seq<Product>, ledger: seq<Transaction>)
    ensures Sum(StockValues(products, ledger)) == ValueAtCost(products, ledger)
  {
    if products != [] {
      var init := products[..|products| - 1];
      var p := products[|products| - 1];
      StockValuesSum(init, ledger);
      assert StockValues(products, ledger)[..|products| - 1] == StockValues(init, ledger);
      StockIsSignedSum(ledger, p.id);
    }
  }

  /** A product without ledger entries adds nothing to the stock value. */
  lemma NewProductAddsNoValue(products: seq<Product>, ledger: seq<Transaction>, p: Product)
    requires forall t :: t in ledger ==> t.productId != p.id
    ensures TotalStockValue(products + [p], ledger) == TotalStockValue(products, ledger)
  {
    TotalStockValueIsValueAtCost(products, ledger);
    TotalStockValueIsValueAtCost(products + [p], ledger);
    assert (products + [p])[..|products|] == products;
    NoHistoryStockZero(ledger, p.id);
  }

  // ---------------------------------------------------------------------
  // Sales sums: month sales and the chart's months

  /** Which sales a figure sums: those from an instant on, or those of one
      calendar month. */
  datatype SalesWindow = From(instant: int) | InMonth(monthOf: int -> int, month: int)

  predicate Counts(w: SalesWindow, t: Transaction)
  {
    t.txType == OUT &&
    match w
    case From(instant) => t.date >= instant
    case InMonth(monthOf, month) => monthOf(t.date) == month
  }

  /** The `totalValue`s of the counted entries, in ledger order. */
  function SaleValues(ledger: seq<Transaction>, w: SalesWindow): seq<Money>
  {
    if ledger == [] then []
    else
      var t := ledger[|ledger| - 1];
      SaleValues(ledger[..|ledger| - 1], w) + (if Counts(w, t) then [t.totalValue] else [])
  }

  /** `COALESCE(SUM(totalValue), 0)` over the counted entries, and also
      `formatNumber(_sum.totalValue)`. */
  function SalesTotal(ledger: seq<Transaction>, w: SalesWindow): Money
  {
    CoalesceZero(SqlSum(SaleValues(ledger, w)))
  }

  /** The sales total is a running sum: no entries give 0, and one more entry
      adds its total value exactly when it is a sale in the window. */
  lemma SalesTotalStep(ledger: seq<Transaction>, t: Transaction, w: SalesWindow)
    ensures SalesTotal([], w) == 0
    ensures SalesTotal(ledger + [t], w) == SalesTotal(ledger, w) + (if Counts(w, t) then t.totalValue else 0)
  {
    assert (ledger + [t])[..|ledger|] == ledger;
    SumAppend(SaleValues(ledger, w), if Counts(w, t) then [t.totalValue] else []);
    assert Sum([t.totalValue]) == Sum([]) + t.totalValue;
  }

  /** A ledger with no counted entry sums to 0. */
  lemma {:induction false} NoSalesZero(ledger: seq<Transaction>, w: SalesWindow)
    requires forall t :: t in ledger ==> !Counts(w, t)
    ensures SalesTotal(ledger, w) == 0
  {
    if ledger != [] {
      var init := ledger[..|ledger| - 1];
      assert forall t :: t in init ==> t in ledger;
      NoSalesZero(init, w);
      SalesTotalStep(init, ledger[|ledger| - 1], w);
      assert ledger == init + [ledger[|ledger| - 1]];
    }
  }

  /** `monthSales`: OUT entries dated on or after the month's first instant. */
  function MonthSales(ledger: seq<Transaction>, monthStart: int): Money
  {
    SalesTotal(ledger, From(monthStart))
  }

  /** Restocking never changes the month's sales, and neither do sales dated
      before the month started. */
  lemma MonthSalesIgnores(ledger: seq<Transaction>, t: Transaction, monthStart: int)
    requires t.txType == IN || t.date < monthStart
    ensures MonthSales(ledger + [t], monthStart) == MonthSales(ledger, monthStart)
  {
    SalesTotalStep(ledger, t, From(monthStart));
  }

  // ---------------------------------------------------------------------
  // Sales chart

  datatype ChartPoint = ChartPoint(month: int, value: Money)

  /** The recursive month series: the start month, then one month more while
      the month is before the current one. */
  function MonthSeries(start: int, current: int): (ms: seq<int>)
    decreases current - start
  {
    [start] + (if start < current then MonthSeries(start + 1, current) else [])
  }

  lemma {:induction false} MonthSeriesSpec(start: int, current: int)
    ensures |MonthSeries(start, current)| == if start <= current then current - start + 1 else 1
    ensures forall i :: 0 <= i < |MonthSeries(start, current)| ==> MonthSeries(start, current)[i] == start + i
    decreases current - start
  {
    if start < current {
      MonthSeriesSpec(start + 1, current);
    }
  }

  function MonthValue(ledger: seq<Transaction>, monthOf: int -> int, month: int): Money
  {
    SalesTotal(ledger, InMonth(monthOf, month))
  }

  /** `salesChart`: the series cut at six months, each with its month's sales. */
  function SalesChart(ledger: seq<Transaction>, monthOf: int -> int, start: int, current: int): seq<ChartPoint>
  {
    var months := Take(MonthSeries(start, current), 6);
    seq(|months|, i requires 0 <= i < |months| => ChartPoint(months[i], MonthValue(ledger, monthOf, months[i])))
  }

  /** Starting five months back, the chart has one point per month up to the
      current one: six points, consecutive and ascending, each valued at its
      month's sales, and 0 for a month without sales. */
  lemma SalesChartSpec(ledger: seq<Transaction>, monthOf: int -> int, current: int)
    ensures var chart := SalesChart(ledger, monthOf, current - 5, current);
      && |chart| == 6
      && (forall i :: 0 <= i < 6 ==> chart[i].month == current - 5 + i)
      && chart[5].month == current
      && (forall i :: 0 <= i < 6 ==> chart[i].value == Sum(SaleValues(ledger, InMonth(monthOf, chart[i].month))))
      && (forall i :: 0 <= i < 6 && (forall t :: t in ledger && t.txType == OUT ==> monthOf(t.date) != chart[i].month)
            ==> chart[i].value == 0)
  {
    MonthSeriesSpec(current - 5, current);
    var chart := SalesChart(ledger, monthOf, current - 5, current);
    forall i | 0 <= i < 6 && (forall t :: t in ledger && t.txType == OUT ==> monthOf(t.date) != chart[i].month)
      ensures chart[i].value == 0
    {
      NoSalesZero(ledger, InMonth(monthOf, chart[i].month));
    }
  }

  /** Whatever the start, the chart has at most six points, in strictly
      ascending month order, and never runs past the current month once it
      starts on or before it. */
  lemma SalesChartBounds(ledger: seq<Transaction>, monthOf: int -> int, start: int, current: int)
    ensures var chart := SalesChart(ledger, monthOf, start, current);
      && 1 <= |chart| <= 6
      && chart[0].month == start
      && (forall i, j :: 0 <= i < j < |chart| ==> chart[i].month < chart[j].month)
      && (start <= current ==> forall i :: 0 <= i < |chart| ==> chart[i].month <= current)
  {
    MonthSeriesSpec(start, current);
  }

  // ---------------------------------------------------------------------
  // The chart's first month

  /** A calendar day; `month` counts from 0 for January, as `Date` does. */
  datatype Day = Day(year: int, month: int, day: int)

  predicate IsLeapYear(year: int)
  {
    (year % 4 == 0 && year % 100 != 0) || year % 400 == 0
  }

  function DaysInMonth(year: int, month: int): int
  {
    if month == 1 then (if IsLeapYear(year) then 29 else 28)
    else if month == 3 || month == 5 || month == 8 || month == 10 then 30
    else 31
  }

  predicate ValidDay(d: Day)
  {
    0 <= d.month < 12 && 1 <= d.day <= DaysInMonth(d.year, d.month)
  }

  /** The month's index, counting months from January of year 0. */
  function MonthIndex(d: Day): int
  {
    d.year * 12 + d.month
  }

  /** `sixMonthsAgo` as written: `setMonth(getMonth() - 5)` keeps the day of
      the month, a day the target month does not have rolls over into the
      next month, and `setDate(1)` then stays in that month. */
  function ChartStartAsWritten(today: Day): int
  {
    var target := MonthIndex(today) - 5;
    if today.day > DaysInMonth(target / 12, target % 12) then target + 1 else target
  }

  /** The intended start: the first day of the month five months back, as
      `setDate(1)` before `setMonth` computes it. */
  function ChartStart(today: Day): int
  {
    MonthIndex(today) - 5
  }

  /** As written, the start is five months back except on the days of July
      that February of the same year lacks (29 to 31, or 30 and 31 in a leap
      year); then it is four months back. */
  lemma ChartStartAsWrittenDrift(today: Day)
    requires ValidDay(today)
    ensures ChartStartAsWritten(today) ==
      if today.month == 6 && today.day > DaysInMonth(today.year, 1) then MonthIndex(today) - 4
      else MonthIndex(today) - 5
  {
    var target := MonthIndex(today) - 5;
    if today.month >= 5 {
      assert target == today.year * 12 + (today.month - 5);
      assert target / 12 == today.year && target % 12 == today.month - 5;
    } else {
      assert target == (today.year - 1) * 12 + (today.month + 7);
      assert target / 12 == today.year - 1 && target % 12 == today.month + 7;
    }
  }

  /** On 31 July the chart as written starts in March and has five points,
      not six. */
  lemma ChartOnJulyThirtyFirst(ledger: seq<Transaction>, monthOf: int -> int)
    ensures var today := Day(2025, 6, 31);
      && ChartStartAsWritten(today) == MonthIndex(today) - 4
      && |SalesChart(ledger, monthOf, ChartStartAsWritten(today), MonthIndex(today))| == 5
  {
    var today := Day(2025, 6, 31);
    ChartStartAsWrittenDrift(today);
    MonthSeriesSpec(MonthIndex(today) - 4, MonthIndex(today));
  }

  /** With the intended start the chart covers the current month and the
      five before it, on every day of the year. */
  lemma ChartStartSixMonths(ledger: seq<Transaction>, monthOf: int -> int, today: Day)
    ensures var chart := SalesChart(ledger, monthOf, ChartStart(today), MonthIndex(today));
      && |chart| == 6
      && chart[0].month == MonthIndex(today) - 5
      && chart[5].month == MonthIndex(today)
  {
    SalesChartSpec(ledger, monthOf, MonthIndex(today));
  }

  // ---------------------------------------------------------------------
  // Grouped sales: by category and best sellers

  /** One row per OUT entry whose product and category exist (the inner
      joins), keyed by the category's name. */
  function CategoryRows(ledger: seq<Transaction>, products: seq<Product>, categories: seq<Category>)
    : seq<Agg<string>>
  {
    if ledger == [] then []
    else
      var t := ledger[|ledger| - 1];
      var p := FindProduct(products, t.productId);
      var c := if p.Some? then FindCategory(categories, p.value.categoryId) else None;
      CategoryRows(ledger[..|ledger| - 1], products, categories)
        + (if t.txType == OUT && c.Some? then [Agg(c.value.name, t.quantity, t.totalValue)] else [])
  }

  predicate ByTotalDesc<K>(a: Agg<K>, b: Agg<K>)
  {
    a.total >= b.total
  }

  predicate ByQuantityDesc<K>(a: Agg<K>, b: Agg<K>)
  {
    a.quantity >= b.quantity
  }

  /** `salesByCategory`: grouped by category name, by total descending, at
      most four. */
  function SalesByCategory(ledger: seq<Transaction>, products: seq<Product>, categories: seq<Category>)
    : seq<Agg<string>>
  {
    TopGroupsOf(CategoryRows(ledger, products, categories), ByTotalDesc, 4)
  }

  /** At most four categories, each once, by total descending; each total is
      the revenue of the category's sales, each category shown has sales,
      and no category left out sold more than one shown. */
  lemma SalesByCategorySpec(ledger: seq<Transaction>, products: seq<Product>, categories: seq<Category>)
    ensures var rows := CategoryRows(ledger, products, categories);
      var r := SalesByCategory(ledger, products, categories);
      && |r| <= 4
      && (forall i, j :: 0 <= i < j < |r| ==> r[i].key != r[j].key && r[i].total >= r[j].total)
      && (forall i :: 0 <= i < |r| ==> HasKey(rows, r[i].key) && r[i].total == TotalOf(rows, r[i].key))
      && (forall name, i :: HasKey(rows, name) && !HasKey(r, name) && 0 <= i < |r| ==>
            r[i].total >= TotalOf(rows, name))
      && (forall name :: HasKey(rows, name) && !HasKey(r, name) ==> |r| == 4)
  {
    var rows := CategoryRows(ledger, products, categories);
    var r := TopGroupsOf(rows, ByTotalDesc, 4);
    TopGroups(rows, ByTotalDesc, 4);
    forall i, j | 0 <= i < j < |r| ensures r[i].total >= r[j].total {
      assert ByTotalDesc(r[i], r[j]);
    }
    forall name, i | HasKey(rows, name) && !HasKey(r, name) && 0 <= i < |r|
      ensures r[i].total >= TotalOf(rows, name)
    {
      assert ByTotalDesc(r[i], Agg(name, QuantityOf(rows, name), TotalOf(rows, name)));
    }
  }

  /** `GROUP BY … ORDER BY … LIMIT k`. */
  function TopGroupsOf<K(==)>(rows: seq<Agg<K>>, le: (Agg<K>, Agg<K>) -> bool, k: nat): seq<Agg<K>>
  {
    Take(SortBy(GroupBy(rows), le), k)
  }

  /** The groups kept by `ORDER BY … LIMIT k` over a `GROUP BY`: distinct
      keys, each group holding its key's sums, sorted, and no key cut off
      has a group that sorts before a kept one. */
  lemma TopGroups<K(!new)>(rows: seq<Agg<K>>, le: (Agg<K>, Agg<K>) -> bool, k: nat)
    requires TotalPreorder(le)
    ensures var r := TopGroupsOf(rows, le, k);
      && |r| <= k
      && (forall i, j :: 0 <= i < j < |r| ==> r[i].key != r[j].key && le(r[i], r[j]))
      && (forall i :: 0 <= i < |r| ==>
            && HasKey(rows, r[i].key)
            && r[i] == Agg(r[i].key, QuantityOf(rows, r[i].key), TotalOf(rows, r[i].key)))
      && (forall key, i :: HasKey(rows, key) && !HasKey(r, key) && 0 <= i < |r| ==>
            le(r[i], Agg(key, QuantityOf(rows, key), TotalOf(rows, key))))
      && (forall key :: HasKey(rows, key) && !HasKey(r, key) ==> |r| == k)
  {
    var g := GroupBy(rows);
    var r := Take(SortBy(g, le), k);
    GroupBySpec(rows);
    TopK(g, le, k);
    AllFitKeepsKeys(g, le, k);
    forall i | 0 <= i < |r|
      ensures HasKey(rows, r[i].key)
      ensures r[i] == Agg(r[i].key, QuantityOf(rows, r[i].key), TotalOf(rows, r[i].key))
    {
      assert r[i] in g;
      var m :| 0 <= m < |g| && g[m] == r[i];
      assert HasKey(g, r[i].key);
    }
    forall i, j | 0 <= i < j < |r| ensures r[i].key != r[j].key {
      SortedTakeDistinct(g, le, k, i, j);
    }
    forall key, i | HasKey(rows, key) && !HasKey(r, key) && 0 <= i < |r|
      ensures le(r[i], Agg(key, QuantityOf(rows, key), TotalOf(rows, key)))
    {
      var m := IndexOfKey(g, key);
      assert g[m] !in r by {
        forall n | 0 <= n < |r| ensures r[n] != g[m] {
          assert r[n].key != key;
        }
      }
    }
  }

  /** When every group fits under the limit, every key is kept. */
  lemma AllFitKeepsKeys<K>(g: seq<Agg<K>>, le: (Agg<K>, Agg<K>) -> bool, k: nat)
    ensures |g| <= k ==> forall key :: HasKey(g, key) ==> HasKey(Take(SortBy(g, le), k), key)
  {
    if |g| <= k {
      var r := Take(SortBy(g, le), k);
      forall key | HasKey(g, key) ensures HasKey(r, key) {
        var m := IndexOfKey(g, key);
        assert g[m] in multiset(r);
        var n :| 0 <= n < |r| && r[n] == g[m];
      }
    }
  }

  /** Two positions of the kept groups hold groups of different keys. */
  lemma SortedTakeDistinct<K>(g: seq<Agg<K>>, le: (Agg<K>, Agg<K>) -> bool, k: nat, i: int, j: int)
    requires DistinctKeys(g)
    requires 0 <= i < j < |Take(SortBy(g, le), k)|
    ensures Take(SortBy(g, le), k)[i].key != Take(SortBy(g, le), k)[j].key
  {
    var s := SortBy(g, le);
    var r := Take(s, k);
    assert r[i] == s[i] && r[j] == s[j];
    if s[i].key == s[j].key {
      assert s[i] in multiset(g);
      var a :| 0 <= a < |g| && g[a] == s[i];
      assert s[i] == s[j] by {
        assert s[j] in multiset(g);
        var b :| 0 <= b < |g| && g[b] == s[j];
        assert a == b;
      }
      TwoCopies(s, i, j);
      DistinctCountOne(g, a);
      assert false;
    }
  }

  /** Equal elements at two positions make two copies. */
  lemma TwoCopies<T>(s: seq<T>, i: int, j: int)
    requires 0 <= i < j < |s| && s[i] == s[j]
    ensures multiset(s)[s[i]] >= 2
  {
    assert s == s[..i] + [s[i]] + s[i + 1..j] + [s[j]] + s[j + 1..];
  }

  /** With distinct keys, each group occurs once. */
  lemma DistinctCountOne<K>(g: seq<Agg<K>>, a: int)
    requires DistinctKeys(g) && 0 <= a < |g|
    ensures multiset(g)[g[a]] == 1
  {
    assert g == g[..a] + [g[a]] + g[a + 1..];
    forall m | 0 <= m < a ensures g[..a][m] != g[a] {
      assert g[..a][m].key == g[m].key != g[a].key;
    }
    var tail := g[a + 1..];
    forall m | 0 <= m < |tail| ensures tail[m] != g[a] {
      assert tail[m].key == g[a + 1 + m].key != g[a].key;
    }
    assert g[a] !in g[..a] && g[a] !in tail;
    assert multiset(g) == multiset(g[..a]) + multiset{g[a]} + multiset(g[a + 1..]);
  }

  /** The key of a best seller: the product's name and its category's name. */
  datatype ProductKey = ProductKey(name: string, category: string)

  function BestSellerRows(ledger: seq<Transaction>, products: seq<Product>, categories: seq<Category>)
    : seq<Agg<ProductKey>>
  {
    if ledger == [] then []
    else
      var t := ledger[|ledger| - 1];
      var p := FindProduct(products, t.productId);
      var c := if p.Some? then FindCategory(categories, p.value.categoryId) else None;
      BestSellerRows(ledger[..|ledger| - 1], products, categories)
        + (if t.txType == OUT && p.Some? && c.Some?
           then [Agg(ProductKey(p.value.name, c.value.name), t.quantity, t.totalValue)] else [])
  }

  /** `bestSellingProducts`: grouped by (product name, category name), by
      quantity descending, at most five. */
  function BestSellers(ledger: seq<Transaction>, products: seq<Product>, categories: seq<Category>)
    : seq<Agg<ProductKey>>
  {
    TopGroupsOf(BestSellerRows(ledger, products, categories), ByQuantityDesc, 5)
  }

  /** At most five, each key once, by quantity descending; quantity and value
      are the sums over the key's sales, and no key left out sold more units
      than one shown. */
  lemma BestSellersSpec(ledger: seq<Transaction>, products: seq<Product>, categories: seq<Category>)
    ensures var rows := BestSellerRows(ledger, products, categories);
      var r := BestSellers(ledger, products, categories);
      && |r| <= 5
      && (forall i, j :: 0 <= i < j < |r| ==> r[i].key != r[j].key && r[i].quantity >= r[j].quantity)
      && (forall i :: 0 <= i < |r| ==>
            && HasKey(rows, r[i].key)
            && r[i].quantity == QuantityOf(rows, r[i].key) && r[i].total == TotalOf(rows, r[i].key))
      && (forall key, i :: HasKey(rows, key) && !HasKey(r, key) && 0 <= i < |r| ==>
            r[i].quantity >= QuantityOf(rows, key))
      && (forall key :: HasKey(rows, key) && !HasKey(r, key) ==> |r| == 5)
  {
    var rows := BestSellerRows(ledger, products, categories);
    var r := TopGroupsOf(rows, ByQuantityDesc, 5);
    TopGroups(rows, ByQuantityDesc, 5);
    forall i, j | 0 <= i < j < |r| ensures r[i].quantity >= r[j].quantity {
      assert ByQuantityDesc(r[i], r[j]);
    }
    forall key, i | HasKey(rows, key) && !HasKey(r, key) && 0 <= i < |r|
      ensures r[i].quantity >= QuantityOf(rows, key)
    {
      assert ByQuantityDesc(r[i], Agg(key, QuantityOf(rows, key), TotalOf(rows, key)));
    }
  }

  // ---------------------------------------------------------------------
  // Low stock

  datatype LowStockItem = LowStockItem(id: nat, name: string, imageUrl: Option<string>, sellPrice: Money, stock: int)

  const LowStockThreshold: int := 10

  predicate IsLow(ledger: seq<Transaction>, p: Product)
  {
    SignedStock(ledger, p.id) < LowStockThreshold
  }

  /** The products whose `HAVING` stock is below the threshold, in catalogue
      order. */
  function LowProducts(products: seq<Product>, ledger: seq<Transaction>): seq<Product>
  {
    Where(products, p => IsLow(ledger, p))
  }

  /** `lowStockProducts`: the first four such products with their stock. */
  function LowStock(products: seq<Product>, ledger: seq<Transaction>): seq<LowStockItem>
  {
    var low := Take(LowProducts(products, ledger), 4);
    seq(|low|, i requires 0 <= i < |low| =>
      LowStockItem(low[i].id, low[i].name, low[i].imageUrl, low[i].sellPrice, SignedStock(ledger, low[i].id)))
  }

  /** At most four items, each a product of the catalogue whose derived stock
      is below ten and reported as such; while fewer than four are shown,
      every low product is shown. */
  lemma LowStockSpec(products: seq<Product>, ledger: seq<Transaction>)
    ensures var r := LowStock(products, ledger);
      && |r| <= 4
      && (forall i :: 0 <= i < |r| ==>
            && r[i].stock == CalculateProductStock(ledger, r[i].id) && r[i].stock < LowStockThreshold
            && exists p :: p in products && p.id == r[i].id && p.name == r[i].name)
      && (|r| < 4 ==> forall p :: p in products && CalculateProductStock(ledger, p.id) < LowStockThreshold ==>
            exists i :: 0 <= i < |r| && r[i].id == p.id)
  {
    var low := LowProducts(products, ledger);
    var kept := Take(low, 4);
    var r := LowStock(products, ledger);
    forall i | 0 <= i < |r|
      ensures r[i].stock == CalculateProductStock(ledger, r[i].id) && r[i].stock < LowStockThreshold
      ensures exists p :: p in products && p.id == r[i].id && p.name == r[i].name
    {
      StockIsSignedSum(ledger, kept[i].id);
      assert kept[i] in low;
    }
    if |r| < 4 {
      assert kept == low;
      forall p | p in products && CalculateProductStock(ledger, p.id) < LowStockThreshold
        ensures exists i :: 0 <= i < |r| && r[i].id == p.id
      {
        StockIsSignedSum(ledger, p.id);
        assert p in low;
        var i :| 0 <= i < |low| && low[i] == p;
        assert r[i].id == p.id;
      }
    }
  }

  /** A product with no ledger entries has stock 0 and so counts as low. */
  lemma NoHistoryIsLow(ledger: seq<Transaction>, p: Product)
    requires forall t :: t in ledger ==> t.productId != p.id
    ensures IsLow(ledger, p)
  {
    NoHistoryStockZero(ledger, p.id);
    StockIsSignedSum(ledger, p.id);
  }

  // ---------------------------------------------------------------------
  // Recent transactions

  datatype RecentItem = RecentItem(id: nat, txType: TxType, product: Option<string>, quantity: int, value: Money, date: int)

  function RecentEntries(ledger: seq<Transaction>): seq<Transaction>
  {
    Take(SortBy(ledger, TransactionsRoute.NewestFirst), 10)
  }

  /** `recentTransactions`: the ten newest entries with their product's name. */
  function RecentTransactions(ledger: seq<Transaction>, products: seq<Product>): seq<RecentItem>
  {
    var recent := RecentEntries(ledger);
    seq(|recent|, i requires 0 <= i < |recent| =>
      var p := FindProduct(products, recent[i].productId);
      RecentItem(recent[i].id, recent[i].txType, if p.Some? then Some(p.value.name) else None,
                 recent[i].quantity, recent[i].totalValue, recent[i].date))
  }

  /** At most ten entries of the ledger, newest first, as many as the ledger
      has up to ten, and none of the entries left out is newer than one shown. */
  lemma RecentTransactionsSpec(ledger: seq<Transaction>, products: seq<Product>)
    ensures var recent := RecentEntries(ledger);
      var r := RecentTransactions(ledger, products);
      && |r| == |recent| == (if |ledger| <= 10 then |ledger| else 10)
      && (forall t :: t in recent ==> t in ledger)
      && (forall i, j :: 0 <= i < j < |r| ==> r[i].date >= r[j].date)
      && (forall i :: 0 <= i < |r| ==>
            && r[i].id == recent[i].id && r[i].date == recent[i].date
            && r[i].value == recent[i].totalValue)
      && (forall t, i :: t in ledger && t !in recent && 0 <= i < |r| ==> r[i].date >= t.date)
  {
    var recent := RecentEntries(ledger);
    var r := RecentTransactions(ledger, products);
    TopK(ledger, TransactionsRoute.NewestFirst, 10);
    forall i, j | 0 <= i < j < |r| ensures r[i].date >= r[j].date {
      assert TransactionsRoute.NewestFirst(recent[i], recent[j]);
    }
    forall t, i | t in ledger && t !in recent && 0 <= i < |r| ensures r[i].date >= t.date {
      assert TransactionsRoute.NewestFirst(recent[i], t);
    }
  }

  // ---------------------------------------------------------------------
  // Gross profit

  /** `totalValue - quantity * buyPrice` for OUT entries since the instant
      whose product exists (an inner join), in ledger order. */
  function ProfitTerms(ledger: seq<Transaction>, products: seq<Product>, since: int): seq<Money>
  {
    if ledger == [] then []
    else
      var t := ledger[|ledger| - 1];
      var p := FindProduct(products, t.productId);
      ProfitTerms(ledger[..|ledger| - 1], products, since)
        + (if t.txType == OUT && t.date >= since && p.Some?
           then [t.totalValue - t.quantity * p.value.buyPrice] else [])
  }

  /** `grossProfit`: a bare `SUM`, NULL without sales, so `formatNumber`
      reports 0. */
  function GrossProfit(ledger: seq<Transaction>, products: seq<Product>, since: int): Money
  {
    CoalesceZero(SqlSum(ProfitTerms(ledger, products, since)))
  }

  /** Gross profit is a running sum: 0 for no entries, and each further
      entry adds its margin at the product's current buy price exactly when
      it is a sale since the instant of a product that exists. */
  lemma GrossProfitStep(ledger: seq<Transaction>, products: seq<Product>, since: int, t: Transaction)
    ensures GrossProfit([], products, since) == 0
    ensures GrossProfit(ledger + [t], products, since) ==
      GrossProfit(ledger, products, since)
      + (if t.txType == OUT && t.date >= since && FindProduct(products, t.productId).Some?
         then t.totalValue - t.quantity * FindProduct(products, t.productId).value.buyPrice
         else 0)
  {
    assert (ledger + [t])[..|ledger|] == ledger;
    var p := FindProduct(products, t.productId);
    var extra := if t.txType == OUT && t.date >= since && p.Some?
                 then [t.totalValue - t.quantity * p.value.buyPrice] else [];
    SumAppend(ProfitTerms(ledger, products, since), extra);
    if extra != [] {
      assert Sum(extra) == Sum(extra[..0]) + extra[0];
    }
  }

  // ---------------------------------------------------------------------
  // The whole answer

  datatype Dashboard = Dashboard(
    totalProducts: nat,
    totalStockValue: Money,
    monthSales: Money,
    totalSuppliers: nat,
    grossProfit: Money,
    salesChart: seq<ChartPoint>,
    salesByCategory: seq<Agg<string>>,
    bestSellingProducts: seq<Agg<ProductKey>>,
    lowStockProducts: seq<LowStockItem>,
    recentTransactions: seq<RecentItem>)

  /** GET /dashboard. */
  function GetDashboard(products: seq<Product>, categories: seq<Category>, suppliers: seq<Supplier>,
                        ledger: seq<Transaction>, clock: Clock): Dashboard
  {
    Dashboard(
      |products|,
      TotalStockValue(products, ledger),
      MonthSales(ledger, clock.monthStart),
      |suppliers|,
      GrossProfit(ledger, products, clock.since),
      SalesChart(ledger, clock.monthOf, ChartStart(clock.today), MonthIndex(clock.today)),
      SalesByCategory(ledger, products, categories),
      BestSellers(ledger, products, categories),
      LowStock(products, ledger),
      RecentTransactions(ledger, products))
  }

  /** On an empty store every figure is 0 or empty, except the chart, which
      still lists its months, each at 0. */
  lemma EmptyStoreDashboard(clock: Clock)
    ensures var d := GetDashboard([], [], [], [], clock);
      && d.totalProducts == 0 && d.totalSuppliers == 0
      && d.totalStockValue == 0 && d.monthSales == 0 && d.grossProfit == 0
      && d.salesByCategory == [] && d.bestSellingProducts == [] && d.lowStockProducts == []
      && d.recentTransactions == []
      && |d.salesChart| >= 1
      && forall i :: 0 <= i < |d.salesChart| ==> d.salesChart[i].value == 0
  {
    SalesChartBounds([], clock.monthOf, ChartStart(clock.today), MonthIndex(clock.today));
    assert GroupBy<string>([]) == [];
    assert GroupBy<ProductKey>([]) == [];
  }
}
