/**
 * Pass C of the membership-metrics aggregator
 * (`fetchProductMonthlyAverages`): over the whole paid-invoice history,
 * per product and calendar month name, the total paid and the set of
 * years it was paid in; and the conversion of those figures into
 * per-month averages.
 */
module ProductAverages {
  import opened Optional
  import opened Seqs
  import opened Text
  import opened CivilDate
  import opened Catalog
  import opened Ledger
  import opened Revenue

  /** `{ total, years }` for one product and month name. */
  datatype MonthData = MonthData(total: real, years: set<int>)

  /** The invoice is attributed to a product: pass A's conditions, plus a non-empty product id. */
  predicate Attributed(inv: Invoice) {
    Qualifies(inv) && Truthy(FirstLineProduct(inv))
  }

  function ProductOf(inv: Invoice): string
    requires Attributed(inv)
  {
    FirstLineProduct(inv).value
  }

  /** The invoice adds to product `p` in the month called `name`. */
  predicate AddsTo(inv: Invoice, p: string, name: string) {
    Attributed(inv) && ProductOf(inv) == p && MonthName(PaidDate(inv).month) == name
  }

  /** Total paid for product `p` in months called `name`, over all years. */
  function ProductTotal(invs: seq<Invoice>, p: string, name: string): real
    decreases |invs|
  {
    if |invs| == 0 then 0.0
    else
      var inv := invs[|invs| - 1];
      ProductTotal(invs[..|invs| - 1], p, name) + (if AddsTo(inv, p, name) then Dollars(inv.amountPaid) else 0.0)
  }

  /** The years in which product `p` was paid in a month called `name`. */
  function ProductYears(invs: seq<Invoice>, p: string, name: string): set<int>
    decreases |invs|
  {
    if |invs| == 0 then {}
    else
      var inv := invs[|invs| - 1];
      ProductYears(invs[..|invs| - 1], p, name) + (if AddsTo(inv, p, name) then {PaidDate(inv).year} else {})
  }

  /** The products of the attributed invoices, one entry per invoice. */
  function ProductsOf(invs: seq<Invoice>): seq<string>
    decreases |invs|
  {
    if |invs| == 0 then []
    else
      var inv := invs[|invs| - 1];
      ProductsOf(invs[..|invs| - 1]) + (if Attributed(inv) then [ProductOf(inv)] else [])
  }

  /**
   * `productData` and `productIds` after the invoices `invs`: the ids are
   * the attributed products in order of first appearance, they are
   * exactly the keys of `productData`, and each product's month map has
   * exactly the month names it was paid in, with their totals and years.
   */
  ghost predicate ProductDataOf(productData: map<string, map<string, MonthData>>, productIds: seq<string>,
                                invs: seq<Invoice>) {
    IdsOf(productData, productIds, invs) && MonthsOf(productData, invs) && FiguresOf(productData, invs)
  }

  ghost predicate IdsOf(productData: map<string, map<string, MonthData>>, productIds: seq<string>, invs: seq<Invoice>) {
    && productIds == Dedup(ProductsOf(invs))
    && (forall p :: p in productData <==> p in productIds)
  }

  ghost predicate MonthsOf(productData: map<string, map<string, MonthData>>, invs: seq<Invoice>) {
    forall p, name :: p in productData ==> (name in productData[p] <==> ProductYears(invs, p, name) != {})
  }

  ghost predicate FiguresOf(productData: map<string, map<string, MonthData>>, invs: seq<Invoice>) {
    forall p, name :: p in productData && name in productData[p] ==>
      productData[p][name] == MonthData(ProductTotal(invs, p, name), ProductYears(invs, p, name))
  }

  lemma Snoc(invs: seq<Invoice>, inv: Invoice)
    ensures forall p, name ::
      ProductTotal(invs + [inv], p, name) == ProductTotal(invs, p, name) + (if AddsTo(inv, p, name) then Dollars(inv.amountPaid) else 0.0)
    ensures forall p, name ::
      ProductYears(invs + [inv], p, name) == ProductYears(invs, p, name) + (if AddsTo(inv, p, name) then {PaidDate(inv).year} else {})
    ensures ProductsOf(invs + [inv]) == ProductsOf(invs) + (if Attributed(inv) then [ProductOf(inv)] else [])
  {
    assert (invs + [inv])[..|invs|] == invs;
  }

  /** A product that has no invoice yet has no year and no total either. */
  lemma {:induction false} UnseenProductHasNoYears(invs: seq<Invoice>, p: string, name: string)
    requires p !in ProductsOf(invs)
    ensures ProductYears(invs, p, name) == {} && ProductTotal(invs, p, name) == 0.0
    decreases |invs|
  {
    if |invs| > 0 {
      var init := invs[..|invs| - 1];
      assert p !in ProductsOf(init) by {
        assert ProductsOf(invs) == ProductsOf(init) + (if Attributed(invs[|invs| - 1]) then [ProductOf(invs[|invs| - 1])] else []);
      }
      UnseenProductHasNoYears(init, p, name);
    }
  }

  /** A product and month name without any year have no total either. */
  lemma {:induction false} NoYearsNoTotal(invs: seq<Invoice>, p: string, name: string)
    requires ProductYears(invs, p, name) == {}
    ensures ProductTotal(invs, p, name) == 0.0
    decreases |invs|
  {
    if |invs| > 0 {
      var init := invs[..|invs| - 1];
      assert ProductYears(init, p, name) <= ProductYears(invs, p, name);
      NoYearsNoTotal(init, p, name);
    }
  }

  /** An invoice that is not attributed leaves the figures as they are. */
  lemma SkipStep(productData: map<string, map<string, MonthData>>, productIds: seq<string>,
                 counted: seq<Invoice>, inv: Invoice)
    requires ProductDataOf(productData, productIds, counted) && !Attributed(inv)
    ensures ProductDataOf(productData, productIds, counted + [inv])
  {
    Snoc(counted, inv);
    assert ProductsOf(counted) + [] == ProductsOf(counted);
  }

  /** `monthMap` with `amount` added to month `name` and `year` recorded, the entry created at zero first if needed. */
  function Bumped(monthMap: map<string, MonthData>, name: string, amount: real, year: int): (r: map<string, MonthData>)
    ensures r.Keys == monthMap.Keys + {name}
    ensures name in monthMap ==> r[name] == MonthData(monthMap[name].total + amount, monthMap[name].years + {year})
    ensures name !in monthMap ==> r[name] == MonthData(amount, {year})
    ensures forall n :: n in monthMap && n != name ==> r[n] == monthMap[n]
  {
    var md := if name in monthMap then monthMap[name] else MonthData(0.0, {});
    monthMap[name := MonthData(md.total + amount, md.years + {year})]
  }

  /** `productData` after an attributed invoice: its amount and year added under its product and month name. */
  function StepData(productData: map<string, map<string, MonthData>>, inv: Invoice): map<string, map<string, MonthData>>
    requires Attributed(inv)
  {
    var id := ProductOf(inv);
    productData[id := Bumped(if id in productData then productData[id] else map[],
                             MonthName(PaidDate(inv).month), Dollars(inv.amountPaid), PaidDate(inv).year)]
  }

  /** `productIds` after an attributed invoice: its product appended unless already there. */
  function StepIds(productIds: seq<string>, inv: Invoice): seq<string>
    requires Attributed(inv)
  {
    if ProductOf(inv) in productIds then productIds else productIds + [ProductOf(inv)]
  }

  lemma AddStepIds(productData: map<string, map<string, MonthData>>, productIds: seq<string>,
                   counted: seq<Invoice>, inv: Invoice)
    requires IdsOf(productData, productIds, counted) && Attributed(inv)
    ensures IdsOf(StepData(productData, inv), StepIds(productIds, inv), counted + [inv])
  {
    Snoc(counted, inv);
    DedupSnoc(ProductsOf(counted), ProductOf(inv));
  }

  lemma AddStepMonths(productData: map<string, map<string, MonthData>>, productIds: seq<string>,
                      counted: seq<Invoice>, inv: Invoice)
    requires IdsOf(productData, productIds, counted) && MonthsOf(productData, counted) && Attributed(inv)
    ensures MonthsOf(StepData(productData, inv), counted + [inv])
  {
    var pd := StepData(productData, inv);
    forall p, n | p in pd ensures n in pd[p] <==> ProductYears(counted + [inv], p, n) != {} {
      MonthStep(productData, productIds, counted, inv, p, n);
    }
  }

  /** One entry of `AddStepMonths`. */
  lemma MonthStep(productData: map<string, map<string, MonthData>>, productIds: seq<string>,
                  counted: seq<Invoice>, inv: Invoice, p: string, n: string)
    requires IdsOf(productData, productIds, counted) && MonthsOf(productData, counted) && Attributed(inv)
    requires p in StepData(productData, inv)
    ensures n in StepData(productData, inv)[p] <==> ProductYears(counted + [inv], p, n) != {}
  {
    var id := ProductOf(inv);
    YearsSnoc(counted, inv, p, n);
    if p == id && id !in productData {
      UnseenProductHasNoYears(counted, id, n);
    }
  }

  /** `Snoc`'s total equation for one product and month name. */
  lemma TotalSnoc(invs: seq<Invoice>, inv: Invoice, p: string, name: string)
    ensures ProductTotal(invs + [inv], p, name) == ProductTotal(invs, p, name) + (if AddsTo(inv, p, name) then Dollars(inv.amountPaid) else 0.0)
  {
    assert (invs + [inv])[..|invs|] == invs;
  }

  /** `Snoc`'s years equation for one product and month name. */
  lemma YearsSnoc(invs: seq<Invoice>, inv: Invoice, p: string, name: string)
    ensures ProductYears(invs + [inv], p, name) == ProductYears(invs, p, name) + (if AddsTo(inv, p, name) then {PaidDate(inv).year} else {})
  {
    assert (invs + [inv])[..|invs|] == invs;
  }

  lemma AddStepFigures(productData: map<string, map<string, MonthData>>, productIds: seq<string>,
                       counted: seq<Invoice>, inv: Invoice)
    requires IdsOf(productData, productIds, counted) && MonthsOf(productData, counted)
    requires FiguresOf(productData, counted) && Attributed(inv)
    ensures FiguresOf(StepData(productData, inv), counted + [inv])
  {
    var pd := StepData(productData, inv);
    forall p, n | p in pd && n in pd[p]
      ensures pd[p][n] == MonthData(ProductTotal(counted + [inv], p, n), ProductYears(counted + [inv], p, n))
    {
      FigureStep(productData, productIds, counted, inv, p, n);
    }
  }

  /** One entry of `AddStepFigures`. */
  lemma FigureStep(productData: map<string, map<string, MonthData>>, productIds: seq<string>,
                   counted: seq<Invoice>, inv: Invoice, p: string, n: string)
    requires IdsOf(productData, productIds, counted) && MonthsOf(productData, counted)
    requires FiguresOf(productData, counted) && Attributed(inv)
    requires p in StepData(productData, inv) && n in StepData(productData, inv)[p]
    ensures StepData(productData, inv)[p][n]
         == MonthData(ProductTotal(counted + [inv], p, n), ProductYears(counted + [inv], p, n))
  {
    var id := ProductOf(inv);
    TotalSnoc(counted, inv, p, n);
    YearsSnoc(counted, inv, p, n);
    if p != id {
      assert !AddsTo(inv, p, n);
    } else {
      if id !in productData {
        UnseenProductHasNoYears(counted, id, n);
      }
      if ProductYears(counted, p, n) == {} {
        NoYearsNoTotal(counted, p, n);
      }
    }
  }

  /** `productData` and `productIds` after one more invoice; one that is not attributed changes neither. */
  function Gather(productData: map<string, map<string, MonthData>>, productIds: seq<string>, inv: Invoice)
    : (map<string, map<string, MonthData>>, seq<string>)
  {
    if Attributed(inv) then (StepData(productData, inv), StepIds(productIds, inv)) else (productData, productIds)
  }

  /** `productData` and `productIds` after the invoices `invs`, one at a time in order. */
  function GatherAll(productData: map<string, map<string, MonthData>>, productIds: seq<string>, invs: seq<Invoice>)
    : (map<string, map<string, MonthData>>, seq<string>)
    decreases |invs|
  {
    if |invs| == 0 then (productData, productIds)
    else
      var prev := GatherAll(productData, productIds, invs[..|invs| - 1]);
      Gather(prev.0, prev.1, invs[|invs| - 1])
  }

  /** Gathering two runs of invoices one after the other is gathering their concatenation. */
  lemma {:induction false} GatherAllAppend(productData: map<string, map<string, MonthData>>, productIds: seq<string>,
                                           a: seq<Invoice>, b: seq<Invoice>)
    ensures GatherAll(productData, productIds, a + b)
         == GatherAll(GatherAll(productData, productIds, a).0, GatherAll(productData, productIds, a).1, b)
    decreases |b|
  {
    if |b| == 0 {
      assert a + b == a;
    } else {
      assert (a + b)[..|a + b| - 1] == a + b[..|b| - 1];
      GatherAllAppend(productData, productIds, a, b[..|b| - 1]);
    }
  }

  /** One gathered invoice keeps the figures describing the invoices counted so far. */
  lemma GatherStep(productData: map<string, map<string, MonthData>>, productIds: seq<string>,
                   counted: seq<Invoice>, inv: Invoice)
    requires ProductDataOf(productData, productIds, counted)
    ensures ProductDataOf(Gather(productData, productIds, inv).0, Gather(productData, productIds, inv).1, counted + [inv])
  {
    if Attributed(inv) {
      AddStepIds(productData, productIds, counted, inv);
      AddStepMonths(productData, productIds, counted, inv);
      AddStepFigures(productData, productIds, counted, inv);
    } else {
      SkipStep(productData, productIds, counted, inv);
    }
  }

  /** Gathering from empty maps yields exactly the figures of the invoices gathered. */
  lemma {:induction false} GatherAllFigures(invs: seq<Invoice>)
    ensures ProductDataOf(GatherAll(map[], [], invs).0, GatherAll(map[], [], invs).1, invs)
    decreases |invs|
  {
    if |invs| > 0 {
      var init := invs[..|invs| - 1];
      GatherAllFigures(init);
      GatherStep(GatherAll(map[], [], init).0, GatherAll(map[], [], init).1, init, invs[|invs| - 1]);
      assert init + [invs[|invs| - 1]] == invs;
    }
  }

  /** The body of the `for (const invoice of invoices.data)` loop of pass C. */
  method AddInvoice(productData: map<string, map<string, MonthData>>, productIds: seq<string>, invoice: Invoice)
    returns (productData': map<string, map<string, MonthData>>, productIds': seq<string>)
    ensures (productData', productIds') == Gather(productData, productIds, invoice)
  {
    productData', productIds' := productData, productIds;
    if !Truthy(invoice.subscription) {
      return;
    }
    var paidDate := if invoice.paidAt.Some? then invoice.paidAt.value else invoice.created;
    var monthName := MonthName(paidDate.month);
    var year := paidDate.year;
    if |invoice.lines| == 0 || invoice.lines[0].price.None? {
      return;
    }
    var productId := invoice.lines[0].price.value.product;
    if !Truthy(productId) {
      return;
    }
    var id := productId.value;
    if id !in productIds' {
      productIds' := productIds' + [id];
    }
    productData' := AddToProduct(productData', id, monthName, Dollars(invoice.amountPaid), year);
  }

  /**
   * The map updates of pass C for one invoice: the product's month map
   * created empty if needed, the month entry created at zero if needed,
   * then the amount added and the year recorded.
   */
  method AddToProduct(productData: map<string, map<string, MonthData>>, id: string, monthName: string,
                      amount: real, year: int)
    returns (productData': map<string, map<string, MonthData>>)
    ensures productData' == productData[id := Bumped(if id in productData then productData[id] else map[],
                                                     monthName, amount, year)]
  {
    ghost var start := if id in productData then productData[id] else map[];
    productData' := productData;
    if id !in productData' {
      productData' := productData'[id := map[]];
    }
    assert productData'[id := start] == productData[id := start];
    var monthMap := productData'[id];
    if monthName !in monthMap {
      monthMap := monthMap[monthName := MonthData(0.0, {})];
    }
    var monthData := monthMap[monthName];
    monthMap := monthMap[monthName := MonthData(monthData.total + amount, monthData.years + {year})];
    assert monthMap == Bumped(start, monthName, amount, year);
    productData' := productData'[id := monthMap];
  }

  /** The loop over one page's invoices. */
  method AddPage(productData: map<string, map<string, MonthData>>, productIds: seq<string>, data: seq<Invoice>)
    returns (productData': map<string, map<string, MonthData>>, productIds': seq<string>)
    ensures (productData', productIds') == GatherAll(productData, productIds, data)
  {
    productData', productIds' := productData, productIds;
    for j := 0 to |data|
      invariant (productData', productIds') == GatherAll(productData, productIds, data[..j])
    {
      assert data[..j + 1][..j] == data[..j];
      productData', productIds' := AddInvoice(productData', productIds', data[j]);
    }
    assert data[..|data|] == data;
  }

  /**
   * `fetchProductMonthlyAverages`: the walk over all paid invoices, with
   * no date range. The result is what gathering every invoice of the pages
   * processed before the walk ended, normally or because a call threw,
   * yields; those are exactly the figures of those invoices.
   */
  method FetchProductMonthlyAverages(responses: seq<Fetch>)
    returns (productData: map<string, map<string, MonthData>>, productIds: seq<string>, requests: seq<ListRequest>)
    ensures (productData, productIds) == GatherAll(map[], [], AllInvoices(Walk(responses)))
    ensures ProductDataOf(productData, productIds, AllInvoices(Walk(responses)))
    ensures RequestsOfWalk(requests, responses, None)
  {
    productData, productIds := map[], [];
    requests := [];
    var hasMore := true;
    var startingAfter: Option<string> := None;
    ghost var done: seq<Page> := [];
    ghost var seen: seq<Invoice> := [];
    WalkStateStart(responses, None);
    while hasMore
      invariant |done| <= |responses|
      invariant WalkState(responses, None, done, hasMore, startingAfter, requests)
      invariant seen == AllInvoices(done)
      invariant (productData, productIds) == GatherAll(map[], [], seen)
      decreases |responses| - |done|, hasMore
    {
      var i := |requests|;
      var request := ListRequest(100, "paid", None, startingAfter);
      if i >= |responses| || responses[i].Failed? {
        // The call threw: the catch keeps what was gathered so far.
        WalkStateFailure(responses, None, done, startingAfter, requests);
        requests := requests + [request];
        GatherAllFigures(seen);
        return;
      }
      var invoices := responses[i].page;
      WalkStateStep(responses, None, done, startingAfter, requests);
      requests := requests + [request];
      GatherAllAppend(map[], [], seen, invoices.data);
      productData, productIds := AddPage(productData, productIds, invoices.data);
      AllInvoicesSnoc(done, invoices);
      done := done + [invoices];
      seen := seen + invoices.data;
      hasMore := invoices.hasMore;
      if hasMore && |invoices.data| > 0 {
        startingAfter := Some(invoices.data[|invoices.data| - 1].id);
      } else {
        hasMore := false;
      }
    }
    WalkStateDone(responses, None, done, startingAfter, requests);
    GatherAllFigures(seen);
  }

  // ---------------------------------------------------------------------
  // Monthly averages

  /** `data.total / yearCount` when some year was seen, else no average. */
  function Average(md: MonthData): real {
    if |md.years| > 0 then md.total / (|md.years| as real) else 0.0
  }

  /** The twelve month names as a set. */
  function MonthNameSet(): (s: set<string>)
    ensures forall i :: 0 <= i < 12 ==> MonthNames[i] in s
    ensures forall n :: n in s ==> n in MonthNames
  {
    set i | 0 <= i < 12 :: MonthNames[i]
  }

  /** The months among `visited` that have at least one year. */
  function WithYears(monthMap: map<string, MonthData>, visited: set<string>): set<string> {
    set m | m in monthMap && m in visited && |monthMap[m].years| > 0
  }

  /**
   * The `monthlyAverages` record once the months `visited` of `monthMap`
   * have been handled: every month name, zero by default, each visited
   * month with at least one year set to its average.
   */
  function AveragesAfter(monthMap: map<string, MonthData>, visited: set<string>): map<string, real> {
    map n | n in MonthNameSet() + WithYears(monthMap, visited) ::
      if n in WithYears(monthMap, visited) then Average(monthMap[n]) else 0.0
  }

  /** The finished `monthlyAverages` record of a month map. */
  function AveragesOf(monthMap: map<string, MonthData>): map<string, real> {
    AveragesAfter(monthMap, monthMap.Keys)
  }

  /** Handling one more month sets its average if it has years, and changes nothing else. */
  lemma AveragesVisit(monthMap: map<string, MonthData>, visited: set<string>, m: string)
    requires m in monthMap
    ensures AveragesAfter(monthMap, visited + {m})
         == if |monthMap[m].years| > 0 then AveragesAfter(monthMap, visited)[m := Average(monthMap[m])]
            else AveragesAfter(monthMap, visited)
  {
    if |monthMap[m].years| > 0 {
      assert WithYears(monthMap, visited + {m}) == WithYears(monthMap, visited) + {m};
    } else {
      assert WithYears(monthMap, visited + {m}) == WithYears(monthMap, visited);
    }
  }

  /** The twelve zeros and the `monthMap.forEach` that fills in the averages. */
  method MonthlyAverages(monthMap: map<string, MonthData>) returns (monthlyAverages: map<string, real>)
    ensures monthlyAverages == AveragesOf(monthMap)
  {
    monthlyAverages := map n | n in MonthNameSet() :: 0.0;
    var rest := monthMap.Keys;
    assert WithYears(monthMap, {}) == {};
    assert monthMap.Keys - rest == {};
    while rest != {}
      invariant rest <= monthMap.Keys
      invariant monthlyAverages == AveragesAfter(monthMap, monthMap.Keys - rest)
      decreases rest
    {
      var monthName :| monthName in rest;
      AveragesVisit(monthMap, monthMap.Keys - rest, monthName);
      assert monthMap.Keys - (rest - {monthName}) == (monthMap.Keys - rest) + {monthName};
      var data := monthMap[monthName];
      var yearCount := |data.years|;
      if yearCount > 0 {
        monthlyAverages := monthlyAverages[monthName := data.total / (yearCount as real)];
      }
      rest := rest - {monthName};
    }
    assert monthMap.Keys - rest == monthMap.Keys;
  }

  /** One `ProductMonthlyAverages` entry of the response. */
  datatype ProductMonthlyAverages = ProductMonthlyAverages(productId: string, productName: string, monthlyAverages: map<string, real>)

  /**
   * `Array.from(productData.entries()).map(...)`, the entries visited in
   * insertion order, which is the order of `productIds`.
   */
  method BuildProductAverages(productData: map<string, map<string, MonthData>>, productIds: seq<string>)
    returns (productAverages: seq<ProductMonthlyAverages>)
    requires forall i :: 0 <= i < |productIds| ==> productIds[i] in productData
    ensures |productAverages| == |productIds|
    ensures forall i :: 0 <= i < |productIds| ==>
      productAverages[i] == ProductMonthlyAverages(productIds[i], ProductName(productIds[i]), AveragesOf(productData[productIds[i]]))
  {
    productAverages := [];
    for i := 0 to |productIds|
      invariant |productAverages| == i
      invariant forall k :: 0 <= k < i ==>
        productAverages[k] == ProductMonthlyAverages(productIds[k], ProductName(productIds[k]), AveragesOf(productData[productIds[k]]))
    {
      var productId := productIds[i];
      var monthlyAverages := MonthlyAverages(productData[productId]);
      productAverages := productAverages + [ProductMonthlyAverages(productId, ProductName(productId), monthlyAverages)];
    }
  }

  // ---------------------------------------------------------------------
  // Properties of the averages

  /** Every month name is present; a month with years has an average that, times the years, gives the total. */
  lemma AveragesShape(monthMap: map<string, MonthData>)
    ensures forall i :: 0 <= i < 12 ==> MonthNames[i] in AveragesOf(monthMap)
    ensures forall n :: n in monthMap && |monthMap[n].years| > 0 ==>
      n in AveragesOf(monthMap) && AveragesOf(monthMap)[n] * (|monthMap[n].years| as real) == monthMap[n].total
    ensures forall n :: n in AveragesOf(monthMap) && (n !in monthMap || |monthMap[n].years| == 0) ==> AveragesOf(monthMap)[n] == 0.0
  {
  }

  /** A month map built by pass C has only month names as keys, so the averages have exactly the twelve. */
  lemma AveragesKeysAreMonthNames(productData: map<string, map<string, MonthData>>, productIds: seq<string>,
                                  invs: seq<Invoice>, p: string)
    requires ProductDataOf(productData, productIds, invs) && p in productData
    ensures AveragesOf(productData[p]).Keys == MonthNameSet()
  {
    forall n | n in productData[p] ensures n in MonthNameSet() {
      YearsOnlyUnderMonthNames(invs, p, n);
    }
  }

  lemma {:induction false} YearsOnlyUnderMonthNames(invs: seq<Invoice>, p: string, name: string)
    requires ProductYears(invs, p, name) != {}
    ensures name in MonthNameSet()
    decreases |invs|
  {
    var inv := invs[|invs| - 1];
    if !AddsTo(inv, p, name) {
      YearsOnlyUnderMonthNames(invs[..|invs| - 1], p, name);
    } else {
      assert MonthNames[PaidDate(inv).month - 1] in MonthNameSet();
    }
  }

  /** Invoices without a priced, non-empty product add nothing to any product. */
  lemma {:induction false} SkippedInvoicesAddNothing(invs: seq<Invoice>, p: string, name: string)
    requires forall i :: 0 <= i < |invs| ==> !Attributed(invs[i])
    ensures ProductTotal(invs, p, name) == 0.0 && ProductYears(invs, p, name) == {} && ProductsOf(invs) == []
    decreases |invs|
  {
    if |invs| > 0 {
      SkippedInvoicesAddNothing(invs[..|invs| - 1], p, name);
    }
  }
}
