/** The report handlers of backend/routes/reports.js over the sale, product and log collections:
    dashboard sums, the payment-method split, the low-stock count, the daily sales report, the
    profit report and the inventory-movement summary. The collection queries are the functions
    `Window` and `Today`; the handlers' loops are methods proved against sums defined here. */
module Reports {

  import opened Common
  import opened Catalog
  import opened Ledger
  import opened SaleRecord

  // ---------------------------------------------------------------- sums and queries

  /** The sum of the sales' totals, added up from the first sale. */
  function SumTotals(sales: seq<Sale>): int {
    if sales == [] then 0 else SumTotals(sales[..|sales| - 1]) + sales[|sales| - 1].total
  }

  lemma {:induction false} SumTotalsAppend(a: seq<Sale>, b: seq<Sale>)
    ensures SumTotals(a + b) == SumTotals(a) + SumTotals(b)
    decreases |b|
  {
    if b == [] {
      assert a + b == a;
    } else {
      assert (a + b)[..|a + b| - 1] == a + b[..|b| - 1];
      SumTotalsAppend(a, b[..|b| - 1]);
    }
  }

  /** The sales a predicate keeps, in order: what a `find` with that condition returns. */
  function Completed(sales: seq<Sale>): (r: seq<Sale>)
    ensures forall s :: s in r <==> s in sales && s.paymentStatus == SaleRecord.Completed
    ensures forall s :: multiset(r)[s] == if s.paymentStatus == SaleRecord.Completed then multiset(sales)[s] else 0
    ensures |r| <= |sales|
  {
    if sales == [] then []
    else
      var init := Completed(sales[..|sales| - 1]);
      var last := sales[|sales| - 1];
      assert sales == sales[..|sales| - 1] + [last];
      assert multiset(sales) == multiset(sales[..|sales| - 1]) + multiset{last};
      if last.paymentStatus == SaleRecord.Completed then init + [last] else init
  }

  function PaidWith(sales: seq<Sale>, m: PaymentMethod): (r: seq<Sale>)
    ensures forall s :: s in r <==> s in sales && s.paymentMethod == m
    ensures forall s :: multiset(r)[s] == if s.paymentMethod == m then multiset(sales)[s] else 0
  {
    if sales == [] then []
    else
      var init := PaidWith(sales[..|sales| - 1], m);
      var last := sales[|sales| - 1];
      assert sales == sales[..|sales| - 1] + [last];
      assert multiset(sales) == multiset(sales[..|sales| - 1]) + multiset{last};
      if last.paymentMethod == m then init + [last] else init
  }

  /** A completed sale of `cashier` made at or after `midnight`. */
  predicate TodayOf(s: Sale, cashier: UserId, midnight: nat) {
    s.cashier == cashier && s.createdAt >= midnight && s.paymentStatus == SaleRecord.Completed
  }

  /** The sales of the cashier dashboard: one cashier's completed sales since local midnight. */
  function Today(sales: seq<Sale>, cashier: UserId, midnight: nat): (r: seq<Sale>)
    ensures forall s :: s in r <==> s in sales && TodayOf(s, cashier, midnight)
    ensures forall s :: multiset(r)[s] == if TodayOf(s, cashier, midnight) then multiset(sales)[s] else 0
  {
    if sales == [] then []
    else
      var init := Today(sales[..|sales| - 1], cashier, midnight);
      var last := sales[|sales| - 1];
      assert sales == sales[..|sales| - 1] + [last];
      assert multiset(sales) == multiset(sales[..|sales| - 1]) + multiset{last};
      if TodayOf(last, cashier, midnight) then init + [last] else init
  }

  /** A completed sale created between the two instants, both included. */
  predicate InWindow(s: Sale, start: nat, end: nat) {
    start <= s.createdAt <= end && s.paymentStatus == SaleRecord.Completed
  }

  /** The sales of a report window: completed sales created between the two instants. */
  function Window(sales: seq<Sale>, start: nat, end: nat): (r: seq<Sale>)
    ensures forall s :: s in r <==> s in sales && InWindow(s, start, end)
    ensures forall s :: multiset(r)[s] == if InWindow(s, start, end) then multiset(sales)[s] else 0
  {
    if sales == [] then []
    else
      var init := Window(sales[..|sales| - 1], start, end);
      var last := sales[|sales| - 1];
      assert sales == sales[..|sales| - 1] + [last];
      assert multiset(sales) == multiset(sales[..|sales| - 1]) + multiset{last};
      if InWindow(last, start, end) then init + [last] else init
  }

  /** The admin dashboard's `totalSales`: the sum over completed sales. */
  function TotalSales(sales: seq<Sale>): int {
    SumTotals(Completed(sales))
  }

  /** A sale whose status is not `completed` never changes any sales total. */
  lemma {:induction false} OnlyCompletedCount(sales: seq<Sale>, s: Sale)
    requires s.paymentStatus != SaleRecord.Completed
    ensures TotalSales(sales + [s]) == TotalSales(sales)
    ensures Window(sales + [s], 0, s.createdAt) == Window(sales, 0, s.createdAt)
  {
    assert (sales + [s])[..|sales|] == sales;
  }

  // ---------------------------------------------------------------- payment split

  datatype PaymentStats = PaymentStats(cash: int, card: int, other: int)

  function PaymentSplit(sales: seq<Sale>): PaymentStats {
    var c := Completed(sales);
    PaymentStats(SumTotals(PaidWith(c, Cash)), SumTotals(PaidWith(c, Card)), SumTotals(PaidWith(c, OtherMethod)))
  }

  lemma {:induction false} SplitSums(sales: seq<Sale>)
    ensures SumTotals(PaidWith(sales, Cash)) + SumTotals(PaidWith(sales, Card)) + SumTotals(PaidWith(sales, OtherMethod))
              == SumTotals(sales)
    decreases |sales|
  {
    if sales != [] {
      SplitSums(sales[..|sales| - 1]);
      PaidWithStep(sales, Cash);
      PaidWithStep(sales, Card);
      PaidWithStep(sales, OtherMethod);
    }
  }

  /** The last sale adds its total to the sum of its own method only. */
  lemma PaidWithStep(sales: seq<Sale>, m: PaymentMethod)
    requires sales != []
    ensures SumTotals(PaidWith(sales, m))
              == SumTotals(PaidWith(sales[..|sales| - 1], m)) + (if sales[|sales| - 1].paymentMethod == m then sales[|sales| - 1].total else 0)
  {
    var last := sales[|sales| - 1];
    var p := PaidWith(sales[..|sales| - 1], m);
    if last.paymentMethod == m {
      assert (p + [last])[..|p|] == p;
    }
  }

  /** Every stored method is one of the three the enum allows, so the split adds up to the
      total of completed sales. */
  lemma PaymentSplitTotal(sales: seq<Sale>)
    ensures PaymentSplit(sales).cash + PaymentSplit(sales).card + PaymentSplit(sales).other == TotalSales(sales)
  {
    SplitSums(Completed(sales));
  }

  // ---------------------------------------------------------------- products

  function LowStockProducts(products: seq<Product>): (r: seq<Product>)
    ensures forall p :: p in r <==> p in products && LowStock(p)
    ensures forall p :: multiset(r)[p] == if LowStock(p) then multiset(products)[p] else 0
    ensures |r| <= |products|
  {
    if products == [] then []
    else
      var init := LowStockProducts(products[..|products| - 1]);
      var last := products[|products| - 1];
      assert products == products[..|products| - 1] + [last];
      assert multiset(products) == multiset(products[..|products| - 1]) + multiset{last};
      if LowStock(last) then init + [last] else init
  }

  function ActiveProducts(products: seq<Product>): (r: seq<Product>)
    ensures forall p :: p in r <==> p in products && p.active
    ensures forall p :: multiset(r)[p] == if p.active then multiset(products)[p] else 0
  {
    if products == [] then []
    else
      var init := ActiveProducts(products[..|products| - 1]);
      var last := products[|products| - 1];
      assert products == products[..|products| - 1] + [last];
      assert multiset(products) == multiset(products[..|products| - 1]) + multiset{last};
      if last.active then init + [last] else init
  }

  /** The low-stock count never exceeds the count of active products. */
  lemma {:induction false} LowStockWithinActive(products: seq<Product>)
    ensures |LowStockProducts(products)| <= |ActiveProducts(products)|
    decreases |products|
  {
    if products != [] {
      LowStockWithinActive(products[..|products| - 1]);
    }
  }

  /** A completed sale made at or after `midnight`. */
  predicate SinceMidnight(s: Sale, midnight: nat) {
    s.createdAt >= midnight && s.paymentStatus == SaleRecord.Completed
  }

  /** The sales of the admin dashboard's `todaySales`: every completed sale since local midnight. */
  function Since(sales: seq<Sale>, midnight: nat): (r: seq<Sale>)
    ensures forall s :: s in r <==> s in sales && SinceMidnight(s, midnight)
    ensures forall s :: multiset(r)[s] == if SinceMidnight(s, midnight) then multiset(sales)[s] else 0
  {
    if sales == [] then []
    else
      var init := Since(sales[..|sales| - 1], midnight);
      var last := sales[|sales| - 1];
      assert sales == sales[..|sales| - 1] + [last];
      assert multiset(sales) == multiset(sales[..|sales| - 1]) + multiset{last};
      if SinceMidnight(last, midnight) then init + [last] else init
  }

  datatype AdminStats = AdminStats(totalSales: int, todaySales: int, lowStock: nat, totalProducts: nat,
                                   paymentStats: PaymentStats)

  /** GET /reports/admin/dashboard: the completed-sales total, today's completed total, the
      low-stock count, the active-product count and the payment split. The split adds up to the
      total and the low-stock count never exceeds the product count. */
  function AdminDashboard(sales: seq<Sale>, products: seq<Product>, midnight: nat): (r: AdminStats)
    ensures r.totalSales == SumTotals(Completed(sales))
    ensures r.todaySales == SumTotals(Since(sales, midnight))
    ensures r.lowStock == |LowStockProducts(products)| && r.totalProducts == |ActiveProducts(products)|
    ensures r.lowStock <= r.totalProducts
    ensures r.paymentStats.cash + r.paymentStats.card + r.paymentStats.other == r.totalSales
  {
    LowStockWithinActive(products);
    PaymentSplitTotal(sales);
    AdminStats(TotalSales(sales), SumTotals(Since(sales, midnight)), |LowStockProducts(products)|,
               |ActiveProducts(products)|, PaymentSplit(sales))
  }

  // ---------------------------------------------------------------- averages

  /** An average that is zero when there is nothing to average over. */
  function Average(total: int, count: nat): (a: real)
    ensures count > 0 ==> a * count as real == total as real
    ensures count == 0 ==> a == 0.0
  {
    if count > 0 then total as real / count as real else 0.0
  }

  datatype CashierStats = CashierStats(totalSales: int, totalTransactions: nat, averageTransaction: real)

  /** The cashier dashboard's `todayStats`. */
  function CashierToday(sales: seq<Sale>, cashier: UserId, midnight: nat): (r: CashierStats)
    ensures r.totalTransactions == |Today(sales, cashier, midnight)|
    ensures r.totalSales == SumTotals(Today(sales, cashier, midnight))
    ensures r.averageTransaction == Average(r.totalSales, r.totalTransactions)
  {
    var t := Today(sales, cashier, midnight);
    CashierStats(SumTotals(t), |t|, Average(SumTotals(t), |t|))
  }

  // ---------------------------------------------------------------- grouping by day

  /** The day keys of `sales` in order of first appearance: the key order of an object filled
      in that order. */
  function DistinctDays(sales: seq<Sale>): seq<string> {
    if sales == [] then []
    else
      var init := DistinctDays(sales[..|sales| - 1]);
      var last := sales[|sales| - 1];
      if last.isoDay in init then init else init + [last.isoDay]
  }

  /** Each day of a sale appears once among the keys, and no other day does. */
  lemma {:induction false} DistinctDaysSpec(sales: seq<Sale>)
    ensures forall i, j :: 0 <= i < j < |DistinctDays(sales)| ==> DistinctDays(sales)[i] != DistinctDays(sales)[j]
    ensures forall d :: d in DistinctDays(sales) <==> exists s :: s in sales && s.isoDay == d
    ensures |DistinctDays(sales)| <= |sales|
    decreases |sales|
  {
    if sales != [] {
      var init := sales[..|sales| - 1];
      var last := sales[|sales| - 1];
      DistinctDaysSpec(init);
      assert sales == init + [last];
      var days := DistinctDays(init);
      if last.isoDay !in days {
        var r := days + [last.isoDay];
        assert forall i :: 0 <= i < |days| ==> r[i] == days[i];
      }
    }
  }

  function CountOn(sales: seq<Sale>, day: string): nat {
    if sales == [] then 0
    else CountOn(sales[..|sales| - 1], day) + (if sales[|sales| - 1].isoDay == day then 1 else 0)
  }

  function RevenueOn(sales: seq<Sale>, day: string): int {
    if sales == [] then 0
    else RevenueOn(sales[..|sales| - 1], day) + (if sales[|sales| - 1].isoDay == day then sales[|sales| - 1].total else 0)
  }

  lemma {:induction false} CountOnPositive(sales: seq<Sale>, day: string)
    requires day in DistinctDays(sales)
    ensures CountOn(sales, day) > 0
    decreases |sales|
  {
    var init := sales[..|sales| - 1];
    if sales[|sales| - 1].isoDay != day {
      CountOnPositive(init, day);
    }
  }

  /** The counts of all days add up to the number of sales. */
  lemma {:induction false} CountsCoverAll(sales: seq<Sale>)
    ensures SumCounts(sales, DistinctDays(sales)) == |sales|
    decreases |sales|
  {
    if sales != [] {
      var init := sales[..|sales| - 1];
      var last := sales[|sales| - 1];
      var days := DistinctDays(init);
      assert sales == init + [last];
      DistinctDaysSpec(init);
      CountsCoverAll(init);
      SumCountsStep(init, last, days);
      if last.isoDay in days {
        assert DistinctDays(sales) == days;
      } else {
        assert DistinctDays(sales) == days + [last.isoDay];
        SumCountsAppendDay(sales, days, last.isoDay);
        AbsentDay(init, last.isoDay, map[]);
        assert CountOn(sales, last.isoDay) == 1;
      }
    }
  }

  function SumCounts(sales: seq<Sale>, days: seq<string>): nat {
    if days == [] then 0 else SumCounts(sales, days[..|days| - 1]) + CountOn(sales, days[|days| - 1])
  }

  lemma {:induction false} SumCountsAppendDay(sales: seq<Sale>, days: seq<string>, d: string)
    ensures SumCounts(sales, days + [d]) == SumCounts(sales, days) + CountOn(sales, d)
  {
    assert (days + [d])[..|days|] == days;
  }

  /** Adding a sale adds one to the count sum over days that include its day exactly once. */
  lemma {:induction false} SumCountsStep(init: seq<Sale>, last: Sale, days: seq<string>)
    requires forall i, j :: 0 <= i < j < |days| ==> days[i] != days[j]
    ensures SumCounts(init + [last], days) == SumCounts(init, days) + (if last.isoDay in days then 1 else 0)
    decreases |days|
  {
    var s := init + [last];
    assert s[..|s| - 1] == init;
    if days != [] {
      var front := days[..|days| - 1];
      assert forall i, j :: 0 <= i < j < |front| ==> front[i] != front[j];
      SumCountsStep(init, last, front);
      assert days == front + [days[|days| - 1]];
      assert last.isoDay in days <==> last.isoDay in front || last.isoDay == days[|days| - 1];
    }
  }

  /** What one more sale does to the day keys of a prefix. */
  lemma DaysStep(sales: seq<Sale>, i: nat)
    requires i < |sales|
    ensures DistinctDays(sales[..i + 1])
              == if sales[i].isoDay in DistinctDays(sales[..i]) then DistinctDays(sales[..i])
                 else DistinctDays(sales[..i]) + [sales[i].isoDay]
  {
    assert sales[..i + 1][..i] == sales[..i];
  }

  /** What one more sale does to the count, revenue and cost of one day of a prefix. */
  lemma OnStep(sales: seq<Sale>, i: nat, products: map<ProductId, Product>, d: string)
    requires i < |sales|
    ensures CountOn(sales[..i + 1], d) == CountOn(sales[..i], d) + (if sales[i].isoDay == d then 1 else 0)
    ensures RevenueOn(sales[..i + 1], d) == RevenueOn(sales[..i], d) + (if sales[i].isoDay == d then sales[i].total else 0)
    ensures CostOn(sales[..i + 1], products, d)
              == CostOn(sales[..i], products, d) + (if sales[i].isoDay == d then SaleCost(sales[i].items, products) else 0)
  {
    assert sales[..i + 1][..i] == sales[..i];
  }

  /** What one more sale does to the totals of a prefix. */
  lemma TotalsStep(sales: seq<Sale>, i: nat, products: map<ProductId, Product>)
    requires i < |sales|
    ensures SumTotals(sales[..i + 1]) == SumTotals(sales[..i]) + sales[i].total
    ensures TotalCost(sales[..i + 1], products) == TotalCost(sales[..i], products) + SaleCost(sales[i].items, products)
  {
    assert sales[..i + 1][..i] == sales[..i];
  }

  /** A day no sale falls on has no count, revenue or cost. */
  lemma {:induction false} AbsentDay(sales: seq<Sale>, d: string, products: map<ProductId, Product>)
    requires d !in DistinctDays(sales)
    ensures CountOn(sales, d) == 0 && RevenueOn(sales, d) == 0 && CostOn(sales, products, d) == 0
    decreases |sales|
  {
    if sales != [] {
      var init := sales[..|sales| - 1];
      AbsentDay(init, d, products);
    }
  }

  /** One row of the daily report. */
  datatype DayRow = DayRow(date: string, salesCount: nat, totalRevenue: int, averageSale: real)

  /** The report's table after the sales before `i`: a key per day seen, in order of first
      appearance, each holding that day's count and revenue so far. */
  ghost predicate DayTable(sales: seq<Sale>, i: nat, data: map<string, DayRow>, order: seq<string>)
    requires i <= |sales|
  {
    && order == DistinctDays(sales[..i])
    && (forall d :: d in data <==> d in order)
    && (forall d :: d in data ==>
          data[d].date == d && data[d].salesCount == CountOn(sales[..i], d)
          && data[d].totalRevenue == RevenueOn(sales[..i], d))
  }

  /** The grouping loop's step keeps the table. */
  lemma DayTableStep(sales: seq<Sale>, i: nat, data: map<string, DayRow>, order: seq<string>,
                     data': map<string, DayRow>, order': seq<string>)
    requires i < |sales| && DayTable(sales, i, data, order)
    requires var date := sales[i].isoDay;
             var row := if date in data then data[date] else DayRow(date, 0, 0, 0.0);
             && order' == (if date in data then order else order + [date])
             && data' == data[date := row.(salesCount := row.salesCount + 1, totalRevenue := row.totalRevenue + sales[i].total)]
    ensures DayTable(sales, i + 1, data', order')
  {
    var date := sales[i].isoDay;
    DaysStep(sales, i);
    if date !in data {
      AbsentDay(sales[..i], date, map[]);
    }
    forall d | d in data'
      ensures data'[d].date == d && data'[d].salesCount == CountOn(sales[..i + 1], d)
              && data'[d].totalRevenue == RevenueOn(sales[..i + 1], d)
    {
      OnStep(sales, i, map[], d);
      if d != date {
        assert data'[d] == data[d];
      }
    }
  }

  /** The table after every sale. */
  lemma DayTableAll(sales: seq<Sale>, data: map<string, DayRow>, order: seq<string>)
    requires DayTable(sales, |sales|, data, order)
    ensures order == DistinctDays(sales)
    ensures forall k :: 0 <= k < |order| ==> order[k] in data
    ensures forall d :: d in data ==>
              data[d].date == d && data[d].salesCount == CountOn(sales, d) && data[d].totalRevenue == RevenueOn(sales, d)
  {
    assert sales[..|sales|] == sales;
  }

  /** GET /reports: groups the window's sales by UTC day in order of first appearance, counting
      and summing them, then adds each day's average. */
  method DailyReport(sales: seq<Sale>) returns (rows: seq<DayRow>)
    ensures |rows| == |DistinctDays(sales)|
    ensures forall i :: 0 <= i < |rows| ==>
              && rows[i].date == DistinctDays(sales)[i]
              && rows[i].salesCount == CountOn(sales, rows[i].date)
              && rows[i].totalRevenue == RevenueOn(sales, rows[i].date)
              && rows[i].averageSale == Average(rows[i].totalRevenue, rows[i].salesCount)
  {
    var data: map<string, DayRow> := map[];
    var order: seq<string> := [];
    var i := 0;
    while i < |sales|
      invariant 0 <= i <= |sales|
      invariant DayTable(sales, i, data, order)
    {
      var sale := sales[i];
      var date := sale.isoDay;
      ghost var data0, order0 := data, order;
      if date !in data {
        data := data[date := DayRow(date, 0, 0, 0.0)];
        order := order + [date];
      }
      var row := data[date];
      data := data[date := row.(salesCount := row.salesCount + 1, totalRevenue := row.totalRevenue + sale.total)];
      DayTableStep(sales, i, data0, order0, data, order);
      i := i + 1;
    }
    DayTableAll(sales, data, order);
    rows := seq(|order|, k requires 0 <= k < |order| =>
      var day := data[order[k]];
      day.(averageSale := Average(day.totalRevenue, day.salesCount)));
  }

  // ---------------------------------------------------------------- profit

  /** The cost of a sale: each line whose product still resolves costs its current unit cost
      times the count; lines whose product is gone cost nothing. */
  function SaleCost(items: seq<SaleItem>, products: map<ProductId, Product>): int {
    if items == [] then 0
    else
      var last := items[|items| - 1];
      SaleCost(items[..|items| - 1], products) + (if last.product in products then products[last.product].cost * last.quantity else 0)
  }

  /** The inner loop of the profit report. */
  method ItemsCost(items: seq<SaleItem>, products: map<ProductId, Product>) returns (cost: int)
    ensures cost == SaleCost(items, products)
  {
    cost := 0;
    var i := 0;
    while i < |items|
      invariant 0 <= i <= |items|
      invariant cost == SaleCost(items[..i], products)
    {
      var item := items[i];
      assert items[..i + 1][..i] == items[..i] && items[..i + 1][i] == item;
      if item.product in products {
        cost := cost + products[item.product].cost * item.quantity;
      }
      i := i + 1;
    }
    assert items[..i] == items;
  }

  function TotalCost(sales: seq<Sale>, products: map<ProductId, Product>): int {
    if sales == [] then 0 else TotalCost(sales[..|sales| - 1], products) + SaleCost(sales[|sales| - 1].items, products)
  }

  function CostOn(sales: seq<Sale>, products: map<ProductId, Product>, day: string): int {
    if sales == [] then 0
    else CostOn(sales[..|sales| - 1], products, day)
         + (if sales[|sales| - 1].isoDay == day then SaleCost(sales[|sales| - 1].items, products) else 0)
  }

  datatype ProfitRow = ProfitRow(date: string, revenue: int, cost: int, profit: int)

  datatype ProfitSummary = ProfitSummary(totalRevenue: int, totalCost: int, totalProfit: int, days: seq<ProfitRow>)

  /** The rows of the profit report agree with the sales seen so far. */
  ghost predicate ProfitRowsFor(data: map<string, ProfitRow>, seen: seq<Sale>, products: map<ProductId, Product>) {
    forall d :: d in data ==>
      && data[d].date == d
      && data[d].revenue == RevenueOn(seen, d)
      && data[d].cost == CostOn(seen, products, d)
      && data[d].profit == data[d].revenue - data[d].cost
  }

  /** The profit report's table after the sales before `i`. */
  ghost predicate ProfitTable(sales: seq<Sale>, i: nat, products: map<ProductId, Product>,
                              data: map<string, ProfitRow>, order: seq<string>)
    requires i <= |sales|
  {
    && order == DistinctDays(sales[..i])
    && (forall d :: d in data <==> d in order)
    && ProfitRowsFor(data, sales[..i], products)
  }

  /** The profit loop's step keeps the table. */
  lemma ProfitTableStep(sales: seq<Sale>, i: nat, products: map<ProductId, Product>,
                        data: map<string, ProfitRow>, order: seq<string>, saleCost: int,
                        data': map<string, ProfitRow>, order': seq<string>)
    requires i < |sales| && ProfitTable(sales, i, products, data, order)
    requires saleCost == SaleCost(sales[i].items, products)
    requires var date := sales[i].isoDay;
             var row := if date in data then data[date] else ProfitRow(date, 0, 0, 0);
             && order' == (if date in data then order else order + [date])
             && data' == data[date := row.(revenue := row.revenue + sales[i].total, cost := row.cost + saleCost,
                                           profit := row.profit + (sales[i].total - saleCost))]
    ensures ProfitTable(sales, i + 1, products, data', order')
  {
    var date := sales[i].isoDay;
    DaysStep(sales, i);
    if date !in data {
      AbsentDay(sales[..i], date, products);
    }
    forall d | d in data'
      ensures data'[d].date == d
      ensures data'[d].revenue == RevenueOn(sales[..i + 1], d)
      ensures data'[d].cost == CostOn(sales[..i + 1], products, d)
      ensures data'[d].profit == data'[d].revenue - data'[d].cost
    {
      OnStep(sales, i, products, d);
      if d != date {
        assert data'[d] == data[d];
      }
    }
  }

  /** The profit table after every sale. */
  lemma ProfitTableAll(sales: seq<Sale>, products: map<ProductId, Product>, data: map<string, ProfitRow>, order: seq<string>)
    requires ProfitTable(sales, |sales|, products, data, order)
    ensures order == DistinctDays(sales)
    ensures forall k :: 0 <= k < |order| ==> order[k] in data
    ensures ProfitRowsFor(data, sales, products)
  {
    assert sales[..|sales|] == sales;
  }

  /** GET /reports/profit-expense: revenue, cost and profit per day and in total. Every day's
      profit is its revenue minus its cost, and the totals are the sums over the window. */
  method ProfitReport(sales: seq<Sale>, products: map<ProductId, Product>) returns (r: ProfitSummary)
    ensures r.totalRevenue == SumTotals(sales)
    ensures r.totalCost == TotalCost(sales, products)
    ensures r.totalProfit == r.totalRevenue - r.totalCost
    ensures |r.days| == |DistinctDays(sales)|
    ensures forall i :: 0 <= i < |r.days| ==>
              && r.days[i].date == DistinctDays(sales)[i]
              && r.days[i].revenue == RevenueOn(sales, r.days[i].date)
              && r.days[i].cost == CostOn(sales, products, r.days[i].date)
              && r.days[i].profit == r.days[i].revenue - r.days[i].cost
  {
    var totalRevenue, totalCost := 0, 0;
    var data: map<string, ProfitRow> := map[];
    var order: seq<string> := [];
    var i := 0;
    while i < |sales|
      invariant 0 <= i <= |sales|
      invariant totalRevenue == SumTotals(sales[..i]) && totalCost == TotalCost(sales[..i], products)
      invariant ProfitTable(sales, i, products, data, order)
    {
      var sale := sales[i];
      var date := sale.isoDay;
      TotalsStep(sales, i, products);
      ghost var data0, order0 := data, order;
      if date !in data {
        data := data[date := ProfitRow(date, 0, 0, 0)];
        order := order + [date];
      }
      var saleCost := ItemsCost(sale.items, products);
      var row := data[date];
      data := data[date := row.(revenue := row.revenue + sale.total, cost := row.cost + saleCost,
                                 profit := row.profit + (sale.total - saleCost))];
      ProfitTableStep(sales, i, products, data0, order0, saleCost, data, order);
      totalRevenue := totalRevenue + sale.total;
      totalCost := totalCost + saleCost;
      i := i + 1;
    }
    assert sales[..i] == sales;
    ProfitTableAll(sales, products, data, order);
    var days := seq(|order|, k requires 0 <= k < |order| => data[order[k]]);
    r := ProfitSummary(totalRevenue, totalCost, totalRevenue - totalCost, days);
  }

  // ---------------------------------------------------------------- inventory movement

  function Abs(x: int): nat {
    if x < 0 then -x else x
  }

  /** The units moved by the entries of one type, without regard to direction. */
  function MovedOf(logs: seq<InventoryLog>, t: MoveType): nat {
    if logs == [] then 0
    else MovedOf(logs[..|logs| - 1], t) + (if logs[|logs| - 1].moveType == t then Abs(logs[|logs| - 1].quantity) else 0)
  }

  function Moved(logs: seq<InventoryLog>): nat {
    if logs == [] then 0 else Moved(logs[..|logs| - 1]) + Abs(logs[|logs| - 1].quantity)
  }

  datatype MovementSummary = MovementSummary(purchase: nat, sale: nat, adjustment: nat, returned: nat)

  /** The movement summary's loop: four counters from zero, each entry adding its absolute
      quantity to the counter of its type. */
  method SummarizeMovements(logs: seq<InventoryLog>) returns (s: MovementSummary)
    ensures s.purchase == MovedOf(logs, Purchase) && s.sale == MovedOf(logs, Ledger.Sale)
    ensures s.adjustment == MovedOf(logs, Adjustment) && s.returned == MovedOf(logs, Return)
  {
    s := MovementSummary(0, 0, 0, 0);
    var i := 0;
    while i < |logs|
      invariant 0 <= i <= |logs|
      invariant s.purchase == MovedOf(logs[..i], Purchase) && s.sale == MovedOf(logs[..i], Ledger.Sale)
      invariant s.adjustment == MovedOf(logs[..i], Adjustment) && s.returned == MovedOf(logs[..i], Return)
    {
      var e := logs[i];
      assert logs[..i + 1][..i] == logs[..i] && logs[..i + 1][i] == e;
      var q := Abs(e.quantity);
      match e.moveType {
        case Purchase => s := s.(purchase := s.purchase + q);
        case Sale => s := s.(sale := s.sale + q);
        case Adjustment => s := s.(adjustment := s.adjustment + q);
        case Return => s := s.(returned := s.returned + q);
      }
      i := i + 1;
    }
    assert logs[..i] == logs;
  }

  /** Every stored entry has one of the four types, so the summary accounts for every unit moved. */
  lemma {:induction false} SummaryCoversAll(logs: seq<InventoryLog>)
    ensures MovedOf(logs, Purchase) + MovedOf(logs, Ledger.Sale) + MovedOf(logs, Adjustment) + MovedOf(logs, Return)
              == Moved(logs)
    decreases |logs|
  {
    if logs != [] {
      SummaryCoversAll(logs[..|logs| - 1]);
    }
  }
}
