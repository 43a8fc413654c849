/**
 * The dashboard hook's transforms: the chart series, the two tables and
 * their column labels, derived from the handler's answer (or from no
 * answer yet).
 */
module UseDashboard {
  import opened Optional
  import opened Seqs
  import opened CivilDate
  import opened MonthWindow
  import opened Catalog
  import opened Ledger
  import opened Lifecycle
  import opened ProductAverages
  import opened MetricsHandler
  import opened Revenue

  datatype ChartDataPoint = ChartDataPoint(month: string, membershipRevenue: real, otherRevenue: real)
  /** A table row; `title` is the source's `label`, a reserved word here. */
  datatype TableRow = TableRow(title: string, values: seq<real>)

  /** The metrics of the answer, or none when there is no answer (`data?.metrics ... || []`). */
  function MetricsOf(data: Option<DashboardData>): seq<MonthlyMetric> {
    if data.Some? then data.value.metrics else []
  }

  /** One bar per month: its label and the two revenue figures. */
  function ChartData(data: Option<DashboardData>): (r: seq<ChartDataPoint>)
    ensures |r| == |MetricsOf(data)|
    ensures forall i :: 0 <= i < |r| ==>
      r[i] == ChartDataPoint(MetricsOf(data)[i].monthLabel, MetricsOf(data)[i].membershipRevenue,
                             MetricsOf(data)[i].otherRevenue)
  {
    var ms := MetricsOf(data);
    seq(|ms|, i requires 0 <= i < |ms| => ChartDataPoint(ms[i].monthLabel, ms[i].membershipRevenue, ms[i].otherRevenue))
  }

  /** One lifecycle figure of every month, as table values. */
  function Column(ms: seq<MonthlyMetric>, pick: MonthlyMetric -> int): (vs: seq<real>)
    ensures |vs| == |ms|
  {
    seq(|ms|, i requires 0 <= i < |ms| => pick(ms[i]) as real)
  }

  /** The three rows of the membership table. */
  function MembershipTableRows(data: Option<DashboardData>): (rows: seq<TableRow>)
    ensures |rows| == 3
    ensures rows[0].title == "New Memberships" && rows[1].title == "Renewals" && rows[2].title == "Churns"
    ensures forall r :: 0 <= r < 3 ==> |rows[r].values| == |MetricsOf(data)|
    ensures forall i :: 0 <= i < |MetricsOf(data)| ==>
      && rows[0].values[i] == MetricsOf(data)[i].newMemberships as real
      && rows[1].values[i] == MetricsOf(data)[i].renewals as real
      && rows[2].values[i] == MetricsOf(data)[i].churns as real
  {
    var ms := MetricsOf(data);
    [TableRow("New Memberships", Column(ms, (m: MonthlyMetric) => m.newMemberships)),
     TableRow("Renewals", Column(ms, (m: MonthlyMetric) => m.renewals)),
     TableRow("Churns", Column(ms, (m: MonthlyMetric) => m.churns))]
  }

  /** `product.monthlyAverages[month] || 0`. */
  function AverageOr0(monthlyAverages: map<string, real>, month: string): real {
    if month in monthlyAverages then monthlyAverages[month] else 0.0
  }

  /** One row per product: its name and its twelve averages, January first. */
  function ProductTableRows(data: Option<DashboardData>): (rows: seq<TableRow>)
    ensures |rows| == if data.Some? then |data.value.productAverages| else 0
    ensures forall i :: 0 <= i < |rows| ==> |rows[i].values| == 12
  {
    var pa := if data.Some? then data.value.productAverages else [];
    seq(|pa|, i requires 0 <= i < |pa| =>
      TableRow(pa[i].productName, seq(12, j requires 0 <= j < 12 => AverageOr0(pa[i].monthlyAverages, MonthNames[j]))))
  }

  /** The membership table's column labels: each month's label. */
  function MembershipMonthLabels(data: Option<DashboardData>): (labels: seq<string>)
    ensures |labels| == |MetricsOf(data)|
  {
    var ms := MetricsOf(data);
    seq(|ms|, i requires 0 <= i < |ms| => ms[i].monthLabel)
  }

  /** The product table's column labels: the first three letters of each month name. */
  function ProductMonthLabels(): (labels: seq<string>)
    ensures |labels| == 12
  {
    seq(12, j requires 0 <= j < 12 => ShortMonthName(j + 1))
  }

  // ---------------------------------------------------------------------
  // Properties of the transforms

  /** Before an answer arrives every series is empty, but the membership table still has its three labelled rows. */
  lemma NoDataNoValues()
    ensures ChartData(None) == [] && MembershipMonthLabels(None) == [] && ProductTableRows(None) == []
    ensures MembershipTableRows(None) == [TableRow("New Memberships", []), TableRow("Renewals", []), TableRow("Churns", [])]
  {
  }

  /** The tables line up with their headers: each row has one value per column label, and the chart bars carry the same labels. */
  lemma {:induction false} TablesAligned(data: Option<DashboardData>)
    ensures forall r :: 0 <= r < 3 ==> |MembershipTableRows(data)[r].values| == |MembershipMonthLabels(data)|
    ensures forall r :: 0 <= r < |ProductTableRows(data)| ==> |ProductTableRows(data)[r].values| == |ProductMonthLabels()|
    ensures forall i :: 0 <= i < |ChartData(data)| ==> ChartData(data)[i].month == MembershipMonthLabels(data)[i]
  {
  }

  /** The product columns are headed "Jan" to "Dec". */
  lemma ProductLabels()
    ensures ProductMonthLabels() == ["Jan", "Feb", "Mar", "Apr", "May", "Jun", "Jul", "Aug", "Sep", "Oct", "Nov", "Dec"]
  {
    var short := ["Jan", "Feb", "Mar", "Apr", "May", "Jun", "Jul", "Aug", "Sep", "Oct", "Nov", "Dec"];
    forall j | 0 <= j < 12 ensures ProductMonthLabels()[j] == short[j] {
      assert MonthNames[j][..3] == short[j];
    }
  }

  /**
   * `rows` is the product table of `history`: for each product in order
   * of its first attributed invoice, its catalog name and, in column `j`,
   * its average for month `j + 1`.
   */
  ghost predicate ProductRowsAre(rows: seq<TableRow>, history: seq<Invoice>) {
    var ids := Dedup(ProductsOf(history));
    && |rows| == |ids|
    && forall i :: 0 <= i < |ids| ==>
         && rows[i].title == ProductName(ids[i])
         && |rows[i].values| == 12
         && forall j :: 0 <= j < 12 ==> rows[i].values[j] == ProductAverage(history, ids[i], MonthNames[j])
  }

  /** Fed the handler's answer, the product table is the product table of the whole invoice history. */
  lemma ProductTableOfAnswer(now: Date, revenueAnswers: seq<Fetch>, membershipAnswer: RowsResult, historyAnswers: seq<Fetch>)
    ensures ProductRowsAre(ProductTableRows(Some(ExpectedDashboard(now, revenueAnswers, membershipAnswer, historyAnswers))),
                           AllInvoices(Walk(historyAnswers)))
  {
    ProductRowsOf(ExpectedDashboard(now, revenueAnswers, membershipAnswer, historyAnswers), AllInvoices(Walk(historyAnswers)));
  }

  /** The product rows of any answer whose product list is the expected one for `history`. */
  lemma ProductRowsOf(data: DashboardData, history: seq<Invoice>)
    requires data.productAverages == ExpectedAverages(history)
    ensures ProductRowsAre(ProductTableRows(Some(data)), history)
  {
    var ids := Dedup(ProductsOf(history));
    var pa := data.productAverages;
    forall i | 0 <= i < |ids| ensures pa[i].productName == ProductName(ids[i]) && pa[i].monthlyAverages == AveragesFor(history, ids[i]) {
    }
    ProductTitles(data, ids);
    ProductValues(data, ids, history);
  }

  /** Each product row is titled with its product's name. */
  lemma ProductTitles(data: DashboardData, ids: seq<string>)
    requires |data.productAverages| == |ids|
    requires forall i :: 0 <= i < |ids| ==> data.productAverages[i].productName == ProductName(ids[i])
    ensures forall i :: 0 <= i < |ids| ==> ProductTableRows(Some(data))[i].title == ProductName(ids[i])
  {
    forall i | 0 <= i < |ids| ensures ProductTableRows(Some(data))[i].title == ProductName(ids[i]) {
      ProductRowAt(data, i, 0);
    }
  }

  /** Column `j` of each product row is the product's average for the `j`-th month. */
  lemma ProductValues(data: DashboardData, ids: seq<string>, history: seq<Invoice>)
    requires |data.productAverages| == |ids|
    requires forall i :: 0 <= i < |ids| ==> data.productAverages[i].monthlyAverages == AveragesFor(history, ids[i])
    ensures forall i, j :: 0 <= i < |ids| && 0 <= j < 12 ==>
      ProductTableRows(Some(data))[i].values[j] == ProductAverage(history, ids[i], MonthNames[j])
  {
    forall i, j | 0 <= i < |ids| && 0 <= j < 12
      ensures ProductTableRows(Some(data))[i].values[j] == ProductAverage(history, ids[i], MonthNames[j])
    {
      AverageForMonth(history, ids[i], j);
      ProductRowAt(data, i, j);
    }
  }

  /** Row `i`, column `j` of the product table: product `i`'s name and its average for the `j`-th month, or 0. */
  lemma ProductRowAt(data: DashboardData, i: nat, j: nat)
    requires i < |data.productAverages| && j < 12
    ensures ProductTableRows(Some(data))[i].title == data.productAverages[i].productName
    ensures ProductTableRows(Some(data))[i].values[j] == AverageOr0(data.productAverages[i].monthlyAverages, MonthNames[j])
  {
  }

  /** Fed the handler's answer, bar `i` of the chart is window month `i`'s label and its membership and other revenue. */
  lemma ChartOfAnswer(now: Date, revenueAnswers: seq<Fetch>, membershipAnswer: RowsResult, historyAnswers: seq<Fetch>)
    ensures var bars := ChartData(Some(ExpectedDashboard(now, revenueAnswers, membershipAnswer, historyAnswers)));
      var paid := AllInvoices(Walk(revenueAnswers));
      && |bars| == 12
      && forall i :: 0 <= i < 12 ==>
           bars[i] == ChartDataPoint(Window(now)[i].monthLabel, CategoryRevenue(paid, Window(now)[i].key, Membership),
                                     CategoryRevenue(paid, Window(now)[i].key, Other))
  {
  }

  /** Fed the handler's answer, the membership table's row `r`, column `i` is that lifecycle count of window month `i`. */
  lemma MembershipTableOfAnswer(now: Date, revenueAnswers: seq<Fetch>, membershipAnswer: RowsResult, historyAnswers: seq<Fetch>)
    ensures var data := Some(ExpectedDashboard(now, revenueAnswers, membershipAnswer, historyAnswers));
      var rows := MembershipTableRows(data);
      var labels := MembershipMonthLabels(data);
      var members := CountedRows(membershipAnswer);
      && |labels| == 12
      && forall i :: 0 <= i < 12 ==>
           && labels[i] == Window(now)[i].monthLabel
           && rows[0].values[i] == Count(members, Window(now)[i].key, NewLanding) as real
           && rows[1].values[i] == Count(members, Window(now)[i].key, RenewalLanding) as real
           && rows[2].values[i] == Count(members, Window(now)[i].key, ChurnLandingAt(now)) as real
  {
  }
}
