/** Read-only queries over the product table and the transaction log: the
    per-product ledger balance, the daily and monthly reports and the
    dashboard counters. */
module Aggregates {
  import opened Models

  // ---------------------------------------------------------------------------
  // Ledger

  /** The signed effect of one transaction on product `pid`. */
  function Delta(t: Transaction, pid: ProductId): int {
    if t.product != pid then 0
    else match t.txType
      case In => t.quantity
      case Out => -t.quantity
  }

  /** Σ quantity over the transactions of type `ty` for product `pid`. */
  function Moved(log: seq<Transaction>, pid: ProductId, ty: TxType): int {
    if log == [] then 0
    else (if log[0].product == pid && log[0].txType == ty then log[0].quantity else 0) + Moved(log[1..], pid, ty)
  }

  /** The balance the log gives product `pid`, taken one transaction at a
      time. */
  function NetFlow(log: seq<Transaction>, pid: ProductId): int {
    if log == [] then 0 else Delta(log[0], pid) + NetFlow(log[1..], pid)
  }

  /** The balance is the Σ of the product's IN quantities minus the Σ of its
      OUT quantities. */
  lemma {:induction false} NetFlowSplits(log: seq<Transaction>, pid: ProductId)
    ensures NetFlow(log, pid) == Moved(log, pid, In) - Moved(log, pid, Out)
  {
    if log != [] {
      NetFlowSplits(log[1..], pid);
    }
  }

  /** Appending one transaction moves the balance of its own product by its
      signed quantity and leaves every other product's balance alone. */
  lemma {:induction false} NetFlowAppend(log: seq<Transaction>, t: Transaction, pid: ProductId)
    ensures NetFlow(log + [t], pid) == NetFlow(log, pid) + Delta(t, pid)
    ensures t.product != pid ==> NetFlow(log + [t], pid) == NetFlow(log, pid)
  {
    if log != [] {
      assert (log + [t])[1..] == log[1..] + [t];
      NetFlowAppend(log[1..], t, pid);
    }
  }

  /** Deleting product `q` with its transactions leaves the balance of every
      other product unchanged, and nothing of `q` remains. */
  lemma {:induction false} NetFlowCascadeProduct(log: seq<Transaction>, q: ProductId, pid: ProductId)
    ensures NetFlow(CascadeProduct(log, q), pid) == if pid == q then 0 else NetFlow(log, pid)
  {
    if log != [] {
      NetFlowCascadeProduct(log[1..], q, pid);
    }
  }

  /** Transactions of the log created by user `u`. */
  function ByUser(log: seq<Transaction>, u: UserId): (r: seq<Transaction>)
    ensures forall t :: t in r <==> t in log && t.createdBy == u
  {
    if log == [] then []
    else if log[0].createdBy == u then [log[0]] + ByUser(log[1..], u)
    else ByUser(log[1..], u)
  }

  /** Deleting user `u` cascades to the transactions they created, so every
      product's balance loses exactly that user's net contribution: the
      balance of a product survives the deletion exactly when that
      contribution is 0. */
  lemma {:induction false} NetFlowCascadeUser(log: seq<Transaction>, u: UserId, pid: ProductId)
    ensures NetFlow(CascadeUser(log, u), pid) == NetFlow(log, pid) - NetFlow(ByUser(log, u), pid)
    ensures NetFlow(CascadeUser(log, u), pid) == NetFlow(log, pid) <==> NetFlow(ByUser(log, u), pid) == 0
  {
    if log != [] {
      NetFlowCascadeUser(log[1..], u, pid);
    }
  }

  // ---------------------------------------------------------------------------
  // Report windows and sums

  /** The transactions a report looks at: one calendar day (the `__date`
      lookup) or a closed interval of timestamps (`__gte` and `__lte`). */
  datatype Window = OnDay(day: Date) | Between(lo: DateTime, hi: DateTime)

  predicate InWindow(d: DateTime, w: Window) {
    match w
    case OnDay(day) => DateOf(d) == day
    case Between(lo, hi) => !Before(d, lo) && !Before(hi, d)
  }

  predicate Matches(t: Transaction, ty: TxType, w: Window) {
    t.txType == ty && InWindow(t.date, w)
  }

  predicate AllPositive(log: seq<Transaction>) {
    forall t :: t in log ==> t.quantity > 0
  }

  /** The report's `transactions`: the log entries inside the window, in order. */
  function Selected(log: seq<Transaction>, w: Window): (r: seq<Transaction>)
    ensures |r| <= |log|
    ensures forall t :: t in r <==> t in log && InWindow(t.date, w)
  {
    if log == [] then []
    else if InWindow(log[0].date, w) then [log[0]] + Selected(log[1..], w)
    else Selected(log[1..], w)
  }

  /** `filter(transaction_type=ty).aggregate(Sum('quantity'))['total'] or 0`
      over the window: 0 when nothing matches, never negative when the
      quantities are positive. */
  function Total(log: seq<Transaction>, ty: TxType, w: Window): (r: int)
    ensures (forall t :: t in log ==> !Matches(t, ty, w)) ==> r == 0
    ensures AllPositive(log) ==> r >= 0
  {
    if log == [] then 0
    else (if Matches(log[0], ty, w) then log[0].quantity else 0) + Total(log[1..], ty, w)
  }

  /** `filter(transaction_type=ty).count()` over the window: at most the
      length of the log, and 0 exactly when nothing matches. */
  function Tally(log: seq<Transaction>, ty: TxType, w: Window): (r: nat)
    ensures r <= |log|
    ensures r == 0 <==> forall t :: t in log ==> !Matches(t, ty, w)
  {
    if log == [] then 0
    else (if Matches(log[0], ty, w) then 1 else 0) + Tally(log[1..], ty, w)
  }

  /** With positive quantities in the log, a sum is never negative, and it is
      0 exactly when no transaction of that type falls in the window (the
      `or 0` of an empty aggregate). */
  lemma {:induction false} TotalZeroIff(log: seq<Transaction>, ty: TxType, w: Window)
    requires AllPositive(log)
    ensures Total(log, ty, w) >= 0
    ensures Total(log, ty, w) == 0 <==> forall t :: t in log ==> !Matches(t, ty, w)
  {
    if log != [] {
      assert forall t :: t in log[1..] ==> t in log;
      TotalZeroIff(log[1..], ty, w);
      assert forall t :: t in log ==> t == log[0] || t in log[1..];
    }
  }

  /** Appending a transaction adds its quantity to exactly the sum of its own
      type when it falls in the window. */
  lemma {:induction false} TotalAppend(log: seq<Transaction>, t: Transaction, ty: TxType, w: Window)
    ensures Total(log + [t], ty, w) == Total(log, ty, w) + (if Matches(t, ty, w) then t.quantity else 0)
  {
    if log != [] {
      assert (log + [t])[1..] == log[1..] + [t];
      TotalAppend(log[1..], t, ty, w);
    }
  }

  /** Appending a transaction adds one to exactly the count of its own type
      when it falls in the window. */
  lemma {:induction false} TallyAppend(log: seq<Transaction>, t: Transaction, ty: TxType, w: Window)
    ensures Tally(log + [t], ty, w) == Tally(log, ty, w) + (if Matches(t, ty, w) then 1 else 0)
  {
    if log != [] {
      assert (log + [t])[1..] == log[1..] + [t];
      TallyAppend(log[1..], t, ty, w);
    }
  }

  /** Every transaction of the window is an IN or an OUT, so the two counts
      add up to the length of the report's transaction list. */
  lemma {:induction false} TallySplit(log: seq<Transaction>, w: Window)
    ensures Tally(log, In, w) + Tally(log, Out, w) == |Selected(log, w)|
  {
    if log != [] {
      TallySplit(log[1..], w);
    }
  }

  /** A count never exceeds the matching sum when every quantity is at least
      one; the dashboard's counts and the reports' sums agree only when every
      such quantity is exactly one. */
  lemma {:induction false} TallyAtMostTotal(log: seq<Transaction>, ty: TxType, w: Window)
    requires AllPositive(log)
    ensures Tally(log, ty, w) <= Total(log, ty, w)
    ensures Tally(log, ty, w) == Total(log, ty, w) <==>
              forall t :: t in log && Matches(t, ty, w) ==> t.quantity == 1
  {
    if log != [] {
      assert forall t :: t in log[1..] ==> t in log;
      TallyAtMostTotal(log[1..], ty, w);
      assert forall t :: t in log ==> t == log[0] || t in log[1..];
    }
  }

  // ---------------------------------------------------------------------------
  // Reports

  datatype Report = Report(stockIn: int, stockOut: int, transactions: seq<Transaction>)

  function ReportOver(log: seq<Transaction>, w: Window): Report {
    Report(Total(log, In, w), Total(log, Out, w), Selected(log, w))
  }

  /** The window of `daily_report`: the `date` parameter, or today's date when
      it is absent. */
  function DailyWindow(date: Option<Date>, now: DateTime): (w: Window)
    ensures w.OnDay?
    ensures date.Some? ==> w.day == date.value
    ensures date.None? ==> w.day == DateOf(now)
  {
    OnDay(date.GetOr(DateOf(now)))
  }

  /** `daily_report`: it lists exactly the transactions dated on the
      requested day (today when none is given), and its two sums add up to
      the quantities it lists. */
  function DailyReport(log: seq<Transaction>, date: Option<Date>, now: DateTime): (r: Report)
    ensures forall t :: t in r.transactions <==> t in log && DateOf(t.date) == date.GetOr(DateOf(now))
    ensures r.stockIn + r.stockOut == SumQuantities(r.transactions)
  {
    TotalsCoverSelected(log, DailyWindow(date, now));
    ReportOver(log, DailyWindow(date, now))
  }

  /** The window of `monthly_report`: from day 1 of this month at now's time
      of day, to now, both ends included. Everything in it lies in now's
      month, and now itself is in it. */
  function MonthlyWindow(now: DateTime): (w: Window)
    ensures forall d :: InWindow(d, w) ==> d.year == now.year && d.month == now.month
    ensures ValidDateTime(now) ==> InWindow(now, w)
  {
    Between(FirstOfMonth(now), now)
  }

  /** `monthly_report`: it lists exactly the transactions of the monthly
      window, all of them in now's month, and its two sums add up to the
      quantities it lists. */
  function MonthlyReport(log: seq<Transaction>, now: DateTime): (r: Report)
    ensures forall t :: t in r.transactions <==> t in log && InWindow(t.date, MonthlyWindow(now))
    ensures forall t :: t in r.transactions ==> t.date.year == now.year && t.date.month == now.month
    ensures r.stockIn + r.stockOut == SumQuantities(r.transactions)
  {
    TotalsCoverSelected(log, MonthlyWindow(now));
    ReportOver(log, MonthlyWindow(now))
  }

  /** A timestamp is in the monthly window exactly when it lies in now's month
      and, as (day, time of day), between (1, now's time of day) and
      (now's day, now's time of day). */
  lemma MonthlyWindowIff(d: DateTime, now: DateTime)
    ensures InWindow(d, MonthlyWindow(now)) <==>
              && d.year == now.year && d.month == now.month
              && (d.day > 1 || (d.day == 1 && d.clock >= now.clock))
              && (d.day < now.day || (d.day == now.day && d.clock <= now.clock))
  {
  }

  /** The window does not start at midnight: on the first of the month, a
      transaction earlier in the day than now's time of day is left out of the
      monthly report, while a transaction at now's time of day or later on
      that day (and not after now) is counted. */
  lemma MonthlyWindowSkipsEarlyFirstDay(now: DateTime, clock: int)
    requires ValidDateTime(now)
    ensures clock < now.clock ==>
              !InWindow(DateTime(now.year, now.month, 1, clock), MonthlyWindow(now))
    ensures now.day > 1 && now.clock <= clock ==>
              InWindow(DateTime(now.year, now.month, 1, clock), MonthlyWindow(now))
    ensures InWindow(DateTime(now.year, now.month, 1, 0), MonthlyWindow(now)) <==> now.clock == 0
  {
  }

  /** Now itself is always inside its monthly window. */
  lemma MonthlyWindowHoldsNow(now: DateTime)
    requires ValidDateTime(now)
    ensures InWindow(now, MonthlyWindow(now))
  {
  }

  /** Σ quantity over a list of transactions. */
  function SumQuantities(s: seq<Transaction>): int {
    if s == [] then 0 else s[0].quantity + SumQuantities(s[1..])
  }

  /** What a report over any window states: its `stock_in` and `stock_out`
      together are the quantities of the transactions it lists, and with
      positive quantities each sum is non-negative and 0 exactly when no
      transaction of that type lies in the window. */
  lemma {:induction false} ReportFigures(log: seq<Transaction>, w: Window)
    ensures ReportOver(log, w).stockIn + ReportOver(log, w).stockOut
            == SumQuantities(ReportOver(log, w).transactions)
    ensures AllPositive(log) ==>
              && ReportOver(log, w).stockIn >= 0 && ReportOver(log, w).stockOut >= 0
              && (ReportOver(log, w).stockIn == 0 <==> forall t :: t in log ==> !Matches(t, In, w))
              && (ReportOver(log, w).stockOut == 0 <==> forall t :: t in log ==> !Matches(t, Out, w))
  {
    TotalsCoverSelected(log, w);
    if AllPositive(log) {
      TotalZeroIff(log, In, w);
      TotalZeroIff(log, Out, w);
    }
  }

  lemma {:induction false} TotalsCoverSelected(log: seq<Transaction>, w: Window)
    ensures Total(log, In, w) + Total(log, Out, w) == SumQuantities(Selected(log, w))
  {
    if log != [] {
      TotalsCoverSelected(log[1..], w);
    }
  }

  /** `daily_report` with positive quantities: `stock_in` is 0 exactly when no
      IN transaction is dated on the requested day (today when no date is
      given), and likewise `stock_out`; every listed transaction is dated on
      that day. */
  lemma DailyReportFigures(log: seq<Transaction>, date: Option<Date>, now: DateTime)
    requires AllPositive(log)
    ensures var day := date.GetOr(DateOf(now));
            && DailyReport(log, date, now).stockIn >= 0
            && DailyReport(log, date, now).stockOut >= 0
            && (DailyReport(log, date, now).stockIn == 0 <==>
                  forall t :: t in log && t.txType == In ==> DateOf(t.date) != day)
            && (DailyReport(log, date, now).stockOut == 0 <==>
                  forall t :: t in log && t.txType == Out ==> DateOf(t.date) != day)
            && (forall t :: t in DailyReport(log, date, now).transactions <==> t in log && DateOf(t.date) == day)
  {
    ReportFigures(log, DailyWindow(date, now));
  }

  /** `monthly_report` with positive quantities: each sum is 0 exactly when no
      transaction of its type lies between day 1 at now's time of day and now;
      every listed transaction lies in now's month. */
  lemma MonthlyReportFigures(log: seq<Transaction>, now: DateTime)
    requires AllPositive(log)
    ensures && MonthlyReport(log, now).stockIn >= 0
            && MonthlyReport(log, now).stockOut >= 0
            && (MonthlyReport(log, now).stockIn == 0 <==>
                  forall t :: t in log && t.txType == In ==> !InWindow(t.date, MonthlyWindow(now)))
            && (MonthlyReport(log, now).stockOut == 0 <==>
                  forall t :: t in log && t.txType == Out ==> !InWindow(t.date, MonthlyWindow(now)))
            && (forall t :: t in MonthlyReport(log, now).transactions ==>
                  t.date.year == now.year && t.date.month == now.month)
  {
    ReportFigures(log, MonthlyWindow(now));
  }

  /** A transaction logged at `now` shows up in today's daily report, in the
      monthly report and in today's dashboard counter of its type, and in no
      other of those figures. */
  lemma LoggedNowIsReported(log: seq<Transaction>, t: Transaction, now: DateTime)
    requires ValidDateTime(now) && t.date == now
    ensures DailyReport(log + [t], None, now).stockIn
            == DailyReport(log, None, now).stockIn + (if t.txType == In then t.quantity else 0)
    ensures DailyReport(log + [t], None, now).stockOut
            == DailyReport(log, None, now).stockOut + (if t.txType == Out then t.quantity else 0)
    ensures MonthlyReport(log + [t], now).stockIn
            == MonthlyReport(log, now).stockIn + (if t.txType == In then t.quantity else 0)
    ensures MonthlyReport(log + [t], now).stockOut
            == MonthlyReport(log, now).stockOut + (if t.txType == Out then t.quantity else 0)
    ensures Tally(log + [t], t.txType, OnDay(DateOf(now))) == Tally(log, t.txType, OnDay(DateOf(now))) + 1
  {
    var today := DailyWindow(None, now);
    TotalAppend(log, t, In, today);
    TotalAppend(log, t, Out, today);
    MonthlyWindowHoldsNow(now);
    TotalAppend(log, t, In, MonthlyWindow(now));
    TotalAppend(log, t, Out, MonthlyWindow(now));
    TallyAppend(log, t, t.txType, OnDay(DateOf(now)));
  }

  // ---------------------------------------------------------------------------
  // Dashboard

  /** Products with fewer than this many units are reported as low on stock. */
  const LowStockThreshold: int := 10

  /** `quantity × unit_price` of one product, in cents. */
  function LineValue(p: Product): int {
    p.quantity * p.unitPrice
  }

  ghost function Pick(keys: set<ProductId>): (k: ProductId)
    requires keys != {}
    ensures k in keys
  {
    var k :| k in keys; k
  }

  /** Σ quantity × unit_price over the products whose ids are in `keys`. */
  ghost function ValueOf(products: map<ProductId, Product>, keys: set<ProductId>): int
    requires keys <= products.Keys
    decreases keys
  {
    if keys == {} then 0
    else
      var k := Pick(keys);
      LineValue(products[k]) + ValueOf(products, keys - {k})
  }

  /** The sum does not depend on the order the products are added up in:
      any one of them can be taken out first. */
  lemma {:induction false} ValueOfRemove(products: map<ProductId, Product>, keys: set<ProductId>, k: ProductId)
    requires keys <= products.Keys && k in keys
    ensures ValueOf(products, keys) == LineValue(products[k]) + ValueOf(products, keys - {k})
    decreases keys
  {
    var j := Pick(keys);
    if j != k {
      calc {
        ValueOf(products, keys);
        LineValue(products[j]) + ValueOf(products, keys - {j});
        { ValueOfRemove(products, keys - {j}, k); }
        LineValue(products[j]) + LineValue(products[k]) + ValueOf(products, keys - {j} - {k});
        { assert keys - {j} - {k} == keys - {k} - {j}; }
        LineValue(products[k]) + LineValue(products[j]) + ValueOf(products, keys - {k} - {j});
        { ValueOfRemove(products, keys - {k}, j); }
        LineValue(products[k]) + ValueOf(products, keys - {k});
      }
    }
  }

  /** Two tables that agree on the products in `keys` have the same value
      over `keys`. */
  lemma {:induction false} ValueOfAgree(a: map<ProductId, Product>, b: map<ProductId, Product>, keys: set<ProductId>)
    requires keys <= a.Keys && keys <= b.Keys
    requires forall k :: k in keys ==> a[k] == b[k]
    ensures ValueOf(a, keys) == ValueOf(b, keys)
    decreases keys
  {
    if keys != {} {
      var k := Pick(keys);
      ValueOfAgree(a, b, keys - {k});
    }
  }

  /** `total_stock_value`: Σ quantity × unit_price over all products (the
      `or 0` makes it 0 for an empty table). */
  ghost function StockValue(products: map<ProductId, Product>): (r: int)
    ensures products == map[] ==> r == 0
  {
    ValueOf(products, products.Keys)
  }

  /** Σ quantity × unit_price is never negative when no product has a
      negative quantity or a negative price. */
  lemma {:induction false} ValueOfNonNegative(products: map<ProductId, Product>, keys: set<ProductId>)
    requires keys <= products.Keys
    requires forall k :: k in keys ==> products[k].quantity >= 0 && products[k].unitPrice >= 0
    ensures ValueOf(products, keys) >= 0
    decreases keys
  {
    if keys != {} {
      var k := Pick(keys);
      ValueOfNonNegative(products, keys - {k});
      assert LineValue(products[k]) >= 0;
    }
  }

  /** Replacing one product changes the stock value by the change in that
      product's line value alone. */
  lemma StockValueUpdate(products: map<ProductId, Product>, k: ProductId, p: Product)
    requires k in products
    ensures StockValue(products[k := p]) == StockValue(products) - LineValue(products[k]) + LineValue(p)
  {
    var updated := products[k := p];
    assert updated.Keys == products.Keys;
    ValueOfRemove(products, products.Keys, k);
    ValueOfRemove(updated, updated.Keys, k);
    ValueOfAgree(products, updated, products.Keys - {k});
  }

  /** Raising one product's quantity by q (and saving it) raises the stock
      value by q × its unit price; lowering it by q lowers the stock value by
      as much. */
  lemma StockValueMove(products: map<ProductId, Product>, k: ProductId, q: int, now: DateTime)
    requires k in products
    ensures StockValue(products[k := Saved(products[k].(quantity := products[k].quantity + q), now)])
            == StockValue(products) + q * products[k].unitPrice
    ensures StockValue(products[k := Saved(products[k].(quantity := products[k].quantity - q), now)])
            == StockValue(products) - q * products[k].unitPrice
  {
    var p := products[k];
    StockValueUpdate(products, k, Saved(p.(quantity := p.quantity + q), now));
    StockValueUpdate(products, k, Saved(p.(quantity := p.quantity - q), now));
    assert (p.quantity + q) * p.unitPrice == p.quantity * p.unitPrice + q * p.unitPrice;
    assert (p.quantity - q) * p.unitPrice == p.quantity * p.unitPrice - q * p.unitPrice;
  }

  /** `low_stock_alerts`: the products with quantity below the threshold. */
  function LowStockCount(products: map<ProductId, Product>): (n: nat)
    ensures n <= |products|
    ensures n == 0 <==> forall k :: k in products ==> products[k].quantity >= LowStockThreshold
  {
    var low := set k | k in products && products[k].quantity < LowStockThreshold;
    SubsetCardinality(low, products.Keys);
    assert forall k :: k in products && products[k].quantity < LowStockThreshold ==> k in low;
    |low|
  }

  lemma {:induction false} SubsetCardinality(a: set<ProductId>, b: set<ProductId>)
    requires a <= b
    ensures |a| <= |b|
    decreases b
  {
    if a != {} {
      var k :| k in a;
      SubsetCardinality(a - {k}, b - {k});
    }
  }

  datatype Dashboard = Dashboard(
    totalProducts: nat,
    totalStockValue: int,
    todayStockIn: nat,
    todayStockOut: nat,
    lowStockAlerts: nat)

  /** The dashboard counters: the number of products, the stock value, today's
      IN and OUT entries counted (not summed), which together cover every
      transaction dated today, and the low-stock alerts, at most one per
      product. */
  ghost function DashboardOf(products: map<ProductId, Product>, log: seq<Transaction>, now: DateTime): (r: Dashboard)
    ensures r.totalProducts == |products|
    ensures r.totalStockValue == StockValue(products)
    ensures r.todayStockIn + r.todayStockOut == |Selected(log, OnDay(DateOf(now)))|
    ensures r.lowStockAlerts <= r.totalProducts
    ensures products == map[] ==> r.totalStockValue == 0 && r.lowStockAlerts == 0
  {
    var today := OnDay(DateOf(now));
    TallySplit(log, today);
    Dashboard(|products|, StockValue(products), Tally(log, In, today), Tally(log, Out, today),
              LowStockCount(products))
  }

  /** With no products the dashboard reports no products, a stock value of 0
      and no low-stock alerts. */
  lemma DashboardEmptyTable(log: seq<Transaction>, now: DateTime)
    ensures DashboardOf(map[], log, now).totalProducts == 0
    ensures DashboardOf(map[], log, now).totalStockValue == 0
    ensures DashboardOf(map[], log, now).lowStockAlerts == 0
  {
  }

  /** Today's two counters together count every transaction dated today. */
  lemma DashboardTodayCounts(products: map<ProductId, Product>, log: seq<Transaction>, now: DateTime)
    ensures DashboardOf(products, log, now).todayStockIn + DashboardOf(products, log, now).todayStockOut
            == |Selected(log, OnDay(DateOf(now)))|
  {
    TallySplit(log, OnDay(DateOf(now)));
  }
}
