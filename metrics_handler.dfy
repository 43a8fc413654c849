/**
 * The membership-metrics API handler: the three passes over the ledger
 * and the membership table, combined into one month-by-month table and
 * one list of per-product monthly averages.
 */
module MetricsHandler {
  import opened Optional
  import opened Seqs
  import opened CivilDate
  import opened MonthWindow
  import opened Catalog
  import opened Ledger
  import opened Revenue
  import opened Lifecycle
  import opened ProductAverages

  /** One row of the month table, oldest month first. */
  datatype MonthlyMetric = MonthlyMetric(
    month: string,
    monthLabel: string,
    membershipRevenue: real,
    otherRevenue: real,
    newMemberships: int,
    renewals: int,
    churns: int)

  /** The JSON body of a successful answer. */
  datatype DashboardData = DashboardData(metrics: seq<MonthlyMetric>, productAverages: seq<ProductMonthlyAverages>)

  datatype Body = ErrorBody(error: string) | DashboardBody(data: DashboardData)

  /** The status, the `Allow` header if one was set, and the JSON body. */
  datatype Response = Response(status: int, allow: Option<string>, body: Body)

  /** `map.get(month) || 0`. */
  function GetOr0<T>(m: map<string, T>, key: string, zero: T): (v: T)
    ensures key in m ==> v == m[key]
    ensures key !in m ==> v == zero
  {
    if key in m then m[key] else zero
  }

  /** The month table: `months.map(...)`, each figure read from its map with 0 for a missing month. */
  function Compose(months: seq<Bucket>, membershipRevenue: map<string, real>, otherRevenue: map<string, real>,
                   newMemberships: map<string, int>, renewals: map<string, int>, churns: map<string, int>)
    : (ms: seq<MonthlyMetric>)
    ensures |ms| == |months|
    ensures forall i :: 0 <= i < |ms| ==> ms[i].month == months[i].key && ms[i].monthLabel == months[i].monthLabel
  {
    seq(|months|, i requires 0 <= i < |months| =>
      var b := months[i];
      MonthlyMetric(b.key, b.monthLabel,
                    GetOr0(membershipRevenue, b.key, 0.0), GetOr0(otherRevenue, b.key, 0.0),
                    GetOr0(newMemberships, b.key, 0), GetOr0(renewals, b.key, 0), GetOr0(churns, b.key, 0)))
  }

  /** The figures of product `p` over `invs`: each month name it was paid in, with its total and years. */
  ghost function ProductMonths(invs: seq<Invoice>, p: string): map<string, MonthData> {
    map n | n in MonthNameSet() && ProductYears(invs, p, n) != {} :: MonthData(ProductTotal(invs, p, n), ProductYears(invs, p, n))
  }

  /** Product `p`'s average for month name `n`: its total there over the number of distinct years, or 0. */
  ghost function ProductAverage(invs: seq<Invoice>, p: string, n: string): real {
    var years := ProductYears(invs, p, n);
    if years != {} then ProductTotal(invs, p, n) / (|years| as real) else 0.0
  }

  /** Product `p`'s `monthlyAverages`: every month name with its average. */
  ghost function AveragesFor(invs: seq<Invoice>, p: string): map<string, real> {
    map n | n in MonthNameSet() :: ProductAverage(invs, p, n)
  }

  /** The average listed for the `j`-th month of the year. */
  lemma AverageForMonth(invs: seq<Invoice>, p: string, j: nat)
    requires j < 12
    ensures MonthNames[j] in AveragesFor(invs, p)
    ensures AveragesFor(invs, p)[MonthNames[j]] == ProductAverage(invs, p, MonthNames[j])
  {
  }

  /** Pass C's month map of a product is determined by the invoices alone. */
  lemma ProductDataDetermined(productData: map<string, map<string, MonthData>>, productIds: seq<string>,
                              invs: seq<Invoice>, p: string)
    requires ProductDataOf(productData, productIds, invs) && p in productData
    ensures productData[p] == ProductMonths(invs, p)
  {
    forall n | n in productData[p] ensures n in MonthNameSet() {
      YearsOnlyUnderMonthNames(invs, p, n);
    }
  }

  /** The averages of a product: the twelve month names, each with the product's average for it. */
  lemma AveragesOfProduct(invs: seq<Invoice>, p: string)
    ensures AveragesOf(ProductMonths(invs, p)) == AveragesFor(invs, p)
  {
    var mm := ProductMonths(invs, p);
    assert WithYears(mm, mm.Keys) <= MonthNameSet();
  }

  /** The metric of window month `b`: its revenue split over `paid` and its lifecycle counts over `rows`. */
  ghost function MetricOf(b: Bucket, paid: seq<Invoice>, rows: seq<MembershipRow>, now: Date): MonthlyMetric {
    MonthlyMetric(b.key, b.monthLabel,
                  CategoryRevenue(paid, b.key, Membership), CategoryRevenue(paid, b.key, Other),
                  Count(rows, b.key, NewLanding), Count(rows, b.key, RenewalLanding), Count(rows, b.key, ChurnLandingAt(now)))
  }

  /** The month table the handler must answer: one metric per window month, oldest first. */
  ghost function ExpectedMetrics(now: Date, paid: seq<Invoice>, rows: seq<MembershipRow>): (ms: seq<MonthlyMetric>)
    ensures |ms| == 12
    ensures forall i :: 0 <= i < 12 ==> ms[i] == MetricOf(Window(now)[i], paid, rows, now)
  {
    seq(12, i requires 0 <= i < 12 => MetricOf(Window(now)[i], paid, rows, now))
  }

  /** The product list the handler must answer: one entry per product, in order of its first attributed invoice. */
  ghost function ExpectedAverages(history: seq<Invoice>): (pa: seq<ProductMonthlyAverages>)
    ensures |pa| == |Dedup(ProductsOf(history))|
    ensures forall i :: 0 <= i < |pa| ==>
      var p := Dedup(ProductsOf(history))[i];
      pa[i] == ProductMonthlyAverages(p, ProductName(p), AveragesFor(history, p))
  {
    var ids := Dedup(ProductsOf(history));
    seq(|ids|, i requires 0 <= i < |ids| =>
      ProductMonthlyAverages(ids[i], ProductName(ids[i]), AveragesFor(history, ids[i])))
  }

  /** The answer to a GET: the month table of the window ending at `now` and the product list of the whole history. */
  ghost function ExpectedDashboard(now: Date, revenueAnswers: seq<Fetch>, membershipAnswer: RowsResult,
                                   historyAnswers: seq<Fetch>): DashboardData {
    DashboardData(ExpectedMetrics(now, AllInvoices(Walk(revenueAnswers)), CountedRows(membershipAnswer)),
                  ExpectedAverages(AllInvoices(Walk(historyAnswers))))
  }

  /** Composing the pass A and pass B maps over the window gives the expected month table. */
  lemma ComposeMatches(now: Date, membershipRevenue: map<string, real>, otherRevenue: map<string, real>,
                       newMemberships: map<string, int>, renewals: map<string, int>, churns: map<string, int>,
                       paid: seq<Invoice>, rows: seq<MembershipRow>)
    requires RevenueOf(KeySet(Window(now)), membershipRevenue, otherRevenue, paid)
    requires Tallied(KeySet(Window(now)), newMemberships, renewals, churns, rows, now)
    ensures Compose(Window(now), membershipRevenue, otherRevenue, newMemberships, renewals, churns)
         == ExpectedMetrics(now, paid, rows)
  {
  }

  /** Pass C's result, turned into averages in id order, gives the expected product list. */
  lemma AveragesMatch(productData: map<string, map<string, MonthData>>, productIds: seq<string>,
                      history: seq<Invoice>, productAverages: seq<ProductMonthlyAverages>)
    requires ProductDataOf(productData, productIds, history)
    requires |productAverages| == |productIds|
    requires forall i :: 0 <= i < |productIds| ==>
      productAverages[i] == ProductMonthlyAverages(productIds[i], ProductName(productIds[i]), AveragesOf(productData[productIds[i]]))
    ensures productAverages == ExpectedAverages(history)
  {
    forall i | 0 <= i < |productIds| ensures productAverages[i] == ExpectedAverages(history)[i] {
      assert productIds[i] in productIds;
      ProductDataDetermined(productData, productIds, history, productIds[i]);
      AveragesOfProduct(history, productIds[i]);
    }
  }

  /**
   * The handler. A method other than GET is refused with 405 and
   * `Allow: GET`. Otherwise the answer is 200 with the month table of the
   * window ending at `now` and the product list of the whole history.
   */
  method Handle(requestMethod: string, now: Date, revenueAnswers: seq<Fetch>, membershipAnswer: RowsResult,
                historyAnswers: seq<Fetch>)
    returns (response: Response)
    ensures requestMethod != "GET" ==> response == Response(405, Some("GET"), ErrorBody("Method not allowed"))
    ensures requestMethod == "GET" ==>
      response == Response(200, None, DashboardBody(ExpectedDashboard(now, revenueAnswers, membershipAnswer, historyAnswers)))
  {
    if requestMethod != "GET" {
      return Response(405, Some("GET"), ErrorBody("Method not allowed"));
    }
    var months := Last12Months(now);
    var membershipRevenue, otherRevenue, _ := FetchStripeRevenue(months, revenueAnswers);
    var newMemberships, renewals, churns := FetchMembershipMetrics(months, membershipAnswer, now);
    var productData, productIds, _ := FetchProductMonthlyAverages(historyAnswers);
    var metrics := Compose(months, membershipRevenue, otherRevenue, newMemberships, renewals, churns);
    ComposeMatches(now, membershipRevenue, otherRevenue, newMemberships, renewals, churns,
                   AllInvoices(Walk(revenueAnswers)), CountedRows(membershipAnswer));
    forall i | 0 <= i < |productIds| ensures productIds[i] in productData {
      assert productIds[i] in productIds;
    }
    var productAverages := BuildProductAverages(productData, productIds);
    AveragesMatch(productData, productIds, AllInvoices(Walk(historyAnswers)), productAverages);
    response := Response(200, None, DashboardBody(DashboardData(metrics, productAverages)));
  }

  /** In every month of the table, membership and other revenue add up to all attributed revenue of that month. */
  lemma RevenueSplitsExactly(now: Date, revenueAnswers: seq<Fetch>, k: nat)
    requires k < 12
    ensures var key := Window(now)[k].key; var paid := AllInvoices(Walk(revenueAnswers));
      CategoryRevenue(paid, key, Membership) + CategoryRevenue(paid, key, Other) == QualifyingRevenue(paid, key)
  {
    CategoriesPartition(AllInvoices(Walk(revenueAnswers)), Window(now)[k].key);
  }
}
