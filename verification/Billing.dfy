/**
 * Usage totals, statements, budgets and quotas, over exact rationals. Amounts are rounded half up
 * to cents, quantities to millionths.
 */
module Billing {
  import opened Wrappers

  datatype Metric = Invocation | CpuMs | WallMs | MemoryMbMs | EgressBytes | StorageBytes | SqliteUnit

  /** The order of the line items of a statement. */
  const METRICS: seq<Metric> := [Invocation, CpuMs, WallMs, MemoryMbMs, EgressBytes, StorageBytes, SqliteUnit]

  datatype Totals = Totals(
    invocations: real, cpuMs: real, wallMs: real, memoryMbMs: real, egressBytes: real, storageBytes: real, sqliteUnits: real)

  const NO_USAGE: Totals := Totals(0.0, 0.0, 0.0, 0.0, 0.0, 0.0, 0.0)

  function Of(t: Totals, m: Metric): real {
    match m
    case Invocation => t.invocations
    case CpuMs => t.cpuMs
    case WallMs => t.wallMs
    case MemoryMbMs => t.memoryMbMs
    case EgressBytes => t.egressBytes
    case StorageBytes => t.storageBytes
    case SqliteUnit => t.sqliteUnits
  }

  /** The usage with `quantity` more of one metric and the others untouched. */
  function AddUsage(t: Totals, m: Metric, quantity: real): (r: Totals)
    ensures forall k :: Of(r, k) == Of(t, k) + if k == m then quantity else 0.0
  {
    match m
    case Invocation => t.(invocations := t.invocations + quantity)
    case CpuMs => t.(cpuMs := t.cpuMs + quantity)
    case WallMs => t.(wallMs := t.wallMs + quantity)
    case MemoryMbMs => t.(memoryMbMs := t.memoryMbMs + quantity)
    case EgressBytes => t.(egressBytes := t.egressBytes + quantity)
    case StorageBytes => t.(storageBytes := t.storageBytes + quantity)
    case SqliteUnit => t.(sqliteUnits := t.sqliteUnits + quantity)
  }

  // ---------------------------------------------------------------- rounding

  /** Half up, as Math.round does for both signs. */
  function Round(x: real): (n: int)
    ensures n as real - 0.5 <= x < n as real + 0.5
  {
    (x + 0.5).Floor
  }

  function RoundUsd(x: real): (r: real)
    ensures -0.005 < r - x <= 0.005
    ensures IsCents(r)
  {
    assert Round(x * 100.0) as real / 100.0 == Cents(Round(x * 100.0));
    Round(x * 100.0) as real / 100.0
  }

  function RoundQuantity(x: real): (r: real)
    ensures -0.0000005 < r - x <= 0.0000005
    ensures IsMillionths(r)
  {
    assert Round(x * 1000000.0) as real / 1000000.0 == Millionths(Round(x * 1000000.0));
    Round(x * 1000000.0) as real / 1000000.0
  }

  function Cents(n: int): real { n as real / 100.0 }

  function Millionths(n: int): real { n as real / 1000000.0 }

  ghost predicate IsMillionths(x: real) {
    exists n: int :: x == Millionths(n)
  }

  ghost predicate IsCents(x: real) {
    exists n: int :: x == Cents(n)
  }

  lemma RoundKeepsOrder(x: real, y: real)
    requires x <= y
    ensures RoundUsd(x) <= RoundUsd(y) && RoundQuantity(x) <= RoundQuantity(y)
  {
    assert Round(x * 100.0) <= Round(y * 100.0);
    assert Round(x * 1000000.0) <= Round(y * 1000000.0);
  }

  lemma CentsAreFixed(x: real)
    requires IsCents(x)
    ensures RoundUsd(x) == x
  {
    var n: int :| x == Cents(n);
    assert x * 100.0 == n as real;
    assert Round(n as real) == n;
  }

  lemma CentsAdd(x: real, y: real)
    requires IsCents(x) && IsCents(y)
    ensures IsCents(x + y) && IsCents(x - y)
  {
    var n: int :| x == Cents(n);
    var k: int :| y == Cents(k);
    assert x + y == Cents(n + k);
    assert x - y == Cents(n - k);
  }

  // ---------------------------------------------------------------- statements

  type Rates = Metric -> Option<real>

  datatype LineItem = LineItem(metric: Metric, quantity: real, unitPrice: real, amount: real)

  /** Usage in the unit that is priced. */
  function Units(t: Totals, m: Metric): real {
    match m
    case Invocation => t.invocations / 1000000.0
    case CpuMs => t.cpuMs / 1000000.0
    case WallMs => t.wallMs / 1000000.0
    case MemoryMbMs => t.memoryMbMs / 1000000.0
    case EgressBytes => t.egressBytes / 1073741824.0
    case StorageBytes => t.storageBytes / 1073741824.0
    case SqliteUnit => t.sqliteUnits
  }

  function Price(quantity: real, unitPrice: real): real { quantity * unitPrice }

  /** Negative values count as absent. */
  function NonNegative(x: Option<real>): Option<real> {
    if x.Some? && x.value >= 0.0 then x else None
  }

  /** A metric without a usable price has no line item. */
  function LineItemFor(t: Totals, rates: Rates, m: Metric): Option<LineItem> {
    var price := NonNegative(rates(m));
    var quantity := RoundQuantity(Units(t, m));
    if price.None? then None else Some(LineItem(m, quantity, price.value, RoundUsd(Price(quantity, price.value))))
  }

  function Listed(item: Option<LineItem>): seq<LineItem> {
    if item.None? then [] else [item.value]
  }

  function Items(t: Totals, rates: Rates, ms: seq<Metric>): seq<LineItem> {
    if ms == [] then []
    else Items(t, rates, ms[..|ms| - 1]) + Listed(LineItemFor(t, rates, ms[|ms| - 1]))
  }

  function Amounts(items: seq<LineItem>): real {
    if items == [] then 0.0 else Amounts(items[..|items| - 1]) + items[|items| - 1].amount
  }

  function LineItems(t: Totals, rates: Rates): seq<LineItem> { Items(t, rates, METRICS) }

  function ProjectTotal(t: Totals, rates: Rates): real { RoundUsd(Amounts(LineItems(t, rates))) }

  function ProjectTotals(projects: seq<Totals>, rates: Rates): real {
    if projects == [] then 0.0
    else ProjectTotals(projects[..|projects| - 1], rates) + ProjectTotal(projects[|projects| - 1], rates)
  }

  function OrganizationTotal(projects: seq<Totals>, rates: Rates): real { RoundUsd(ProjectTotals(projects, rates)) }

  /** Rounded quantity times price, before rounding to cents. */
  function Unrounded(items: seq<LineItem>): real {
    if items == [] then 0.0
    else Unrounded(items[..|items| - 1]) + items[|items| - 1].quantity * items[|items| - 1].unitPrice
  }

  /** An amount in whole cents, half a cent at most from quantity times price. */
  ghost predicate Billed(item: LineItem) {
    IsCents(item.amount) && -0.005 < item.amount - item.quantity * item.unitPrice <= 0.005
  }

  predicate HasPrice(rates: Rates, m: Metric) {
    rates(m).Some? && rates(m).value >= 0.0
  }

  /** A quantity in millionths, half a millionth at most from `total` over `unit`. */
  ghost predicate Measures(quantity: real, total: real, unit: real)
    requires unit > 0.0
  {
    IsMillionths(quantity) && -0.0000005 < quantity - total / unit <= 0.0000005
  }

  /** Counts and times are billed per million, bytes per GiB, SQLite units one by one. */
  ghost predicate MeasuresUsage(item: LineItem, t: Totals) {
    match item.metric
    case Invocation => Measures(item.quantity, t.invocations, 1000000.0)
    case CpuMs => Measures(item.quantity, t.cpuMs, 1000000.0)
    case WallMs => Measures(item.quantity, t.wallMs, 1000000.0)
    case MemoryMbMs => Measures(item.quantity, t.memoryMbMs, 1000000.0)
    case EgressBytes => Measures(item.quantity, t.egressBytes, 1024.0 * 1024.0 * 1024.0)
    case StorageBytes => Measures(item.quantity, t.storageBytes, 1024.0 * 1024.0 * 1024.0)
    case SqliteUnit => Measures(item.quantity, t.sqliteUnits, 1.0)
  }

  /** The line item of metric m, when m has a price. */
  ghost predicate ItemOf(item: LineItem, t: Totals, rates: Rates, m: Metric) {
    && item.metric == m
    && HasPrice(rates, m) && item.unitPrice == rates(m).value
    && MeasuresUsage(item, t)
    && Billed(item)
  }

  lemma Itemized(t: Totals, rates: Rates, m: Metric)
    ensures var item := LineItemFor(t, rates, m);
      (item.Some? <==> HasPrice(rates, m)) && (item.Some? ==> ItemOf(item.value, t, rates, m))
  {
    assert 1024.0 * 1024.0 * 1024.0 == 1073741824.0;
  }

  /** A statement has exactly one line item per priced metric, in the fixed order of the metrics. */
  lemma {:induction false} ItemsAreBilled(t: Totals, rates: Rates, ms: seq<Metric>)
    ensures forall i :: 0 <= i < |Items(t, rates, ms)| ==>
      Items(t, rates, ms)[i].metric in ms && ItemOf(Items(t, rates, ms)[i], t, rates, Items(t, rates, ms)[i].metric)
    ensures Metrics(Items(t, rates, ms)) == Priced(rates, ms)
  {
    if ms != [] {
      var init, m := ms[..|ms| - 1], ms[|ms| - 1];
      ItemsAreBilled(t, rates, init);
      Itemized(t, rates, m);
      var items, item := Items(t, rates, init), LineItemFor(t, rates, m);
      assert items + [] == items;
      assert item.Some? ==> (items + [item.value])[..|items|] == items;
      assert m in ms && forall k :: k in init ==> k in ms;
    }
  }

  /**
   * A statement lists the priced metrics, each once and in this order, and bills each for its own total
   * in its own unit.
   */
  lemma StatementIsItemized(t: Totals, rates: Rates)
    ensures Metrics(LineItems(t, rates)) ==
      Priced(rates, [Invocation, CpuMs, WallMs, MemoryMbMs, EgressBytes, StorageBytes, SqliteUnit])
    ensures forall item :: item in LineItems(t, rates) ==> ItemOf(item, t, rates, item.metric)
  {
    ItemsAreBilled(t, rates, METRICS);
  }

  /** Usage of one metric changes no other metric's line item. */
  lemma OnlyItsOwnItem(t: Totals, rates: Rates, m: Metric, quantity: real, k: Metric)
    requires k != m
    ensures LineItemFor(AddUsage(t, m, quantity), rates, k) == LineItemFor(t, rates, k)
  {}

  lemma PriceKeepsOrder(x: real, y: real, unitPrice: real)
    requires x <= y && unitPrice >= 0.0
    ensures Price(x, unitPrice) <= Price(y, unitPrice)
  {}

  lemma AmountsAppend(items: seq<LineItem>, item: Option<LineItem>)
    ensures Amounts(items + Listed(item)) == Amounts(items) + if item.Some? then item.value.amount else 0.0
  {
    assert items + [] == items;
    assert item.Some? ==> (items + [item.value])[..|items|] == items;
  }

  lemma {:induction false} ItemsKeepOrder(t: Totals, rates: Rates, m: Metric, quantity: real, ms: seq<Metric>)
    requires quantity >= 0.0
    ensures Amounts(Items(t, rates, ms)) <= Amounts(Items(AddUsage(t, m, quantity), rates, ms))
  {
    if ms != [] {
      var u, init, k := AddUsage(t, m, quantity), ms[..|ms| - 1], ms[|ms| - 1];
      ItemsKeepOrder(t, rates, m, quantity, init);
      AmountsAppend(Items(t, rates, init), LineItemFor(t, rates, k));
      AmountsAppend(Items(u, rates, init), LineItemFor(u, rates, k));
      assert Units(t, k) <= Units(u, k);
      RoundKeepsOrder(Units(t, k), Units(u, k));
      if HasPrice(rates, k) {
        PriceKeepsOrder(RoundQuantity(Units(t, k)), RoundQuantity(Units(u, k)), rates(k).value);
        RoundKeepsOrder(Price(RoundQuantity(Units(t, k)), rates(k).value), Price(RoundQuantity(Units(u, k)), rates(k).value));
      }
    }
  }

  /** More usage never costs less, in spite of both roundings. */
  lemma MoreUsageCostsMore(t: Totals, rates: Rates, m: Metric, quantity: real)
    requires quantity >= 0.0
    ensures ProjectTotal(t, rates) <= ProjectTotal(AddUsage(t, m, quantity), rates)
  {
    ItemsKeepOrder(t, rates, m, quantity, METRICS);
    RoundKeepsOrder(Amounts(LineItems(t, rates)), Amounts(LineItems(AddUsage(t, m, quantity), rates)));
  }

  function Metrics(items: seq<LineItem>): seq<Metric> {
    if items == [] then [] else Metrics(items[..|items| - 1]) + [items[|items| - 1].metric]
  }

  function Priced(rates: Rates, ms: seq<Metric>): seq<Metric> {
    if ms == [] then []
    else Priced(rates, ms[..|ms| - 1]) + if HasPrice(rates, ms[|ms| - 1]) then [ms[|ms| - 1]] else []
  }

  lemma {:induction false} AmountsNearUnrounded(items: seq<LineItem>)
    requires forall item :: item in items ==> Billed(item)
    ensures IsCents(Amounts(items))
    ensures -0.005 * |items| as real <= Amounts(items) - Unrounded(items) <= 0.005 * |items| as real
  {
    if items == [] {
      assert Amounts(items) == Cents(0);
    } else {
      var init, last := items[..|items| - 1], items[|items| - 1];
      AmountsNearUnrounded(init);
      assert Billed(last);
      CentsAdd(Amounts(init), last.amount);
      assert |items| as real == |init| as real + 1.0;
    }
  }

  /**
   * A statement's total is exactly the sum of its line items, which are whole cents, and lies within
   * half a cent per line item of the sum of rounded quantity times price.
   */
  lemma ProjectTotalIsExact(t: Totals, rates: Rates)
    ensures var items := LineItems(t, rates);
      && ProjectTotal(t, rates) == Amounts(items)
      && IsCents(ProjectTotal(t, rates))
      && -0.005 * |items| as real <= ProjectTotal(t, rates) - Unrounded(items) <= 0.005 * |items| as real
  {
    ItemsAreBilled(t, rates, METRICS);
    assert forall item :: item in LineItems(t, rates) ==> Billed(item);
    AmountsNearUnrounded(LineItems(t, rates));
    CentsAreFixed(Amounts(LineItems(t, rates)));
  }

  function ItemCount(projects: seq<Totals>, rates: Rates): nat {
    if projects == [] then 0
    else ItemCount(projects[..|projects| - 1], rates) + |LineItems(projects[|projects| - 1], rates)|
  }

  function UnroundedOf(projects: seq<Totals>, rates: Rates): real {
    if projects == [] then 0.0
    else UnroundedOf(projects[..|projects| - 1], rates) + Unrounded(LineItems(projects[|projects| - 1], rates))
  }

  /** An organization's total is exactly the sum of its projects' totals, with the same error bound. */
  lemma {:induction false} OrganizationTotalIsExact(projects: seq<Totals>, rates: Rates)
    ensures OrganizationTotal(projects, rates) == ProjectTotals(projects, rates)
    ensures IsCents(OrganizationTotal(projects, rates))
    ensures var n := ItemCount(projects, rates);
      -0.005 * n as real <= OrganizationTotal(projects, rates) - UnroundedOf(projects, rates) <= 0.005 * n as real
  {
    if projects == [] {
      assert ProjectTotals(projects, rates) == Cents(0);
      CentsAreFixed(Cents(0));
    } else {
      var init, last := projects[..|projects| - 1], projects[|projects| - 1];
      OrganizationTotalIsExact(init, rates);
      ProjectTotalIsExact(last, rates);
      CentsAdd(ProjectTotals(init, rates), ProjectTotal(last, rates));
      CentsAreFixed(ProjectTotals(projects, rates));
      assert ItemCount(projects, rates) as real == ItemCount(init, rates) as real + |LineItems(last, rates)| as real;
    }
  }

  lemma NothingRoundsToNothing()
    ensures RoundUsd(0.0) == 0.0 && RoundQuantity(0.0) == 0.0
  {
    assert Round(0.0) == 0;
  }

  lemma {:induction false} NoUsageItems(rates: Rates, ms: seq<Metric>)
    ensures Amounts(Items(NO_USAGE, rates, ms)) == 0.0
  {
    if ms != [] {
      var init, m := ms[..|ms| - 1], ms[|ms| - 1];
      NoUsageItems(rates, init);
      NothingRoundsToNothing();
      assert Units(NO_USAGE, m) == 0.0;
      var item := LineItemFor(NO_USAGE, rates, m);
      assert item.Some? ==> item.value.quantity == 0.0 && Price(0.0, item.value.unitPrice) == 0.0;
      var items := Items(NO_USAGE, rates, init);
      assert items + [] == items;
      assert item.Some? ==> (items + [item.value])[..|items|] == items;
    }
  }

  lemma NoUsageIsFree(rates: Rates)
    ensures ProjectTotal(NO_USAGE, rates) == 0.0
  {
    NoUsageItems(rates, METRICS);
    assert 0.0 == Cents(0);
    CentsAreFixed(0.0);
  }

  // ---------------------------------------------------------------- budgets and quotas

  datatype BudgetStatus = Within | Exceeded | Unlimited

  datatype BudgetReport = BudgetReport(limit: Option<real>, used: real, remaining: Option<real>, status: BudgetStatus)

  function BudgetLimit(maxUsd: Option<real>): Option<real> {
    var limit := NonNegative(maxUsd);
    if limit.None? then None else Some(RoundUsd(limit.value))
  }

  function Report(t: Totals, rates: Rates, maxUsd: Option<real>): BudgetReport {
    var limit, used := BudgetLimit(maxUsd), ProjectTotal(t, rates);
    if limit.None? then BudgetReport(None, used, None, Unlimited)
    else
      var left := limit.value - used;
      BudgetReport(limit, used, Some(RoundUsd(if left > 0.0 then left else 0.0)), if used > limit.value then Exceeded else Within)
  }

  /** The check made before an event is stored. */
  predicate BudgetAllows(t: Totals, rates: Rates, maxUsd: Option<real>, m: Metric, quantity: real) {
    var limit := BudgetLimit(maxUsd);
    limit.None? || ProjectTotal(AddUsage(t, m, quantity), rates) <= limit.value
  }

  predicate QuotaAllows(t: Totals, limit: Option<real>, m: Metric, quantity: real) {
    NonNegative(limit).None? || Of(t, m) + quantity <= limit.value
  }

  /** The limit is rounded to cents; without one, or with a negative one, any total will do. */
  predicate BudgetKept(t: Totals, rates: Rates, maxUsd: Option<real>) {
    maxUsd.Some? && maxUsd.value >= 0.0 ==> ProjectTotal(t, rates) <= RoundUsd(maxUsd.value)
  }

  predicate QuotaKept(t: Totals, limits: Metric -> Option<real>) {
    forall m :: limits(m).Some? && limits(m).value >= 0.0 ==> Of(t, m) <= limits(m).value
  }

  /** An event is allowed exactly if the limits, kept so far, are kept with it. */
  lemma AllowedExactly(t: Totals, rates: Rates, maxUsd: Option<real>, limits: Metric -> Option<real>, m: Metric, quantity: real)
    ensures BudgetAllows(t, rates, maxUsd, m, quantity) <==> BudgetKept(AddUsage(t, m, quantity), rates, maxUsd)
    ensures QuotaKept(t, limits) ==>
      (QuotaAllows(t, limits(m), m, quantity) <==> QuotaKept(AddUsage(t, m, quantity), limits))
    ensures QuotaAllows(t, limits(m), m, quantity) <==>
      (limits(m).Some? && limits(m).value >= 0.0 ==> Of(t, m) + quantity <= limits(m).value)
  {
    assert Of(AddUsage(t, m, quantity), m) == Of(t, m) + quantity;
  }

  lemma StartsWithinLimits(rates: Rates, maxUsd: Option<real>, limits: Metric -> Option<real>)
    ensures BudgetKept(NO_USAGE, rates, maxUsd) && QuotaKept(NO_USAGE, limits)
  {
    NoUsageIsFree(rates);
    if maxUsd.Some? && maxUsd.value >= 0.0 {
      RoundKeepsSign(maxUsd.value);
    }
    forall m | limits(m).Some? && limits(m).value >= 0.0 ensures Of(NO_USAGE, m) <= limits(m).value {
      assert Of(NO_USAGE, m) == 0.0;
    }
  }

  lemma RoundKeepsSign(x: real)
    requires x >= 0.0
    ensures RoundUsd(x) >= 0.0
  {
    assert Round(x * 100.0) >= 0;
  }

  /**
   * The report says exceeded exactly when the budget is not kept; otherwise what is used and what
   * remains make up the limit.
   */
  lemma ReportTellsKept(t: Totals, rates: Rates, maxUsd: Option<real>)
    ensures var r := Report(t, rates, maxUsd);
      && (r.status.Exceeded? <==> !BudgetKept(t, rates, maxUsd))
      && (r.status.Unlimited? <==> r.limit.None?) && (r.limit.None? <==> maxUsd.None? || maxUsd.value < 0.0)
      && (r.limit.Some? ==> IsCents(r.limit.value) && -0.005 < r.limit.value - maxUsd.value <= 0.005)
      && r.used == Amounts(LineItems(t, rates))
      && (r.status.Within? ==> r.used + r.remaining.value == r.limit.value)
      && (r.status.Exceeded? ==> r.remaining == Some(0.0))
  {
    var r := Report(t, rates, maxUsd);
    NothingRoundsToNothing();
    ProjectTotalIsExact(t, rates);
    if r.limit.Some? {
      assert IsCents(r.limit.value);
      CentsAdd(r.limit.value, r.used);
      CentsAreFixed(r.limit.value - r.used);
    }
  }
}
