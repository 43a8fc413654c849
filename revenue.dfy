/**
 * Pass A of the membership-metrics aggregator (`fetchStripeRevenue`):
 * paid subscription invoices in the 12-month window, summed per month of
 * payment and split into membership and other revenue.
 */
module Revenue {
  import opened Optional
  import opened Text
  import opened CivilDate
  import opened MonthWindow
  import opened Catalog
  import opened Ledger

  /** `(invoice.amount_paid || 0) / 100`: cents as dollars. */
  function Dollars(cents: int): real {
    cents as real / 100.0
  }

  /** The invoice is attributed at all: a subscription invoice whose first line has a price. */
  predicate Qualifies(inv: Invoice) {
    Truthy(inv.subscription) && HasPricedFirstLine(inv)
  }

  datatype Category = Membership | Other

  /** Membership revenue when the first line's product is on the allow-list, other revenue otherwise. */
  function CategoryOf(inv: Invoice): (c: Category)
    requires Qualifies(inv)
    ensures c == Membership <==> FirstLineProduct(inv).Some? && FirstLineProduct(inv).value in MembershipProductIds
    ensures !Truthy(FirstLineProduct(inv)) ==> c == Other
  {
    if IsMembershipProduct(FirstLineProduct(inv)) then Membership else Other
  }

  /** The invoice adds to month `key` in category `c`. */
  predicate LandsIn(inv: Invoice, key: string, c: Category) {
    Qualifies(inv) && KeyOf(PaidDate(inv)) == key && CategoryOf(inv) == c
  }

  /** The month and category a qualifying invoice adds to. */
  function Landing(inv: Invoice): (l: Option<(string, Category)>)
    ensures forall k, c :: LandsIn(inv, k, c) <==> l == Some((k, c))
  {
    if Qualifies(inv) then Some((KeyOf(PaidDate(inv)), CategoryOf(inv))) else None
  }

  /** Revenue of category `c` paid in month `key`, over a sequence of invoices. */
  function CategoryRevenue(invs: seq<Invoice>, key: string, c: Category): real
    decreases |invs|
  {
    if |invs| == 0 then 0.0
    else
      var inv := invs[|invs| - 1];
      CategoryRevenue(invs[..|invs| - 1], key, c) + (if LandsIn(inv, key, c) then Dollars(inv.amountPaid) else 0.0)
  }

  /** All qualifying revenue paid in month `key`, whatever its category. */
  function QualifyingRevenue(invs: seq<Invoice>, key: string): real
    decreases |invs|
  {
    if |invs| == 0 then 0.0
    else
      var inv := invs[|invs| - 1];
      QualifyingRevenue(invs[..|invs| - 1], key)
        + (if Qualifies(inv) && KeyOf(PaidDate(inv)) == key then Dollars(inv.amountPaid) else 0.0)
  }

  /** Every qualifying invoice is counted in exactly one of the two categories. */
  lemma {:induction false} CategoriesPartition(invs: seq<Invoice>, key: string)
    ensures CategoryRevenue(invs, key, Membership) + CategoryRevenue(invs, key, Other)
         == QualifyingRevenue(invs, key)
    decreases |invs|
  {
    if |invs| > 0 {
      CategoriesPartition(invs[..|invs| - 1], key);
    }
  }

  /** Invoices of other months do not move month `key`'s figure. */
  lemma {:induction false} OtherMonthsIgnored(invs: seq<Invoice>, key: string, c: Category)
    requires forall i :: 0 <= i < |invs| ==> KeyOf(PaidDate(invs[i])) != key
    ensures CategoryRevenue(invs, key, c) == 0.0
    decreases |invs|
  {
    if |invs| > 0 {
      OtherMonthsIgnored(invs[..|invs| - 1], key, c);
    }
  }

  lemma CategoryRevenueSnoc(invs: seq<Invoice>, inv: Invoice, key: string, c: Category)
    ensures CategoryRevenue(invs + [inv], key, c)
         == CategoryRevenue(invs, key, c) + (if LandsIn(inv, key, c) then Dollars(inv.amountPaid) else 0.0)
  {
    assert (invs + [inv])[..|invs|] == invs;
  }

  /** The two revenue maps hold, for every window month, the revenue of `invs`. */
  ghost predicate RevenueOf(keys: set<string>, membership: map<string, real>, other: map<string, real>, invs: seq<Invoice>) {
    && membership.Keys == keys && other.Keys == keys
    && (forall k :: k in keys ==> membership[k] == CategoryRevenue(invs, k, Membership))
    && (forall k :: k in keys ==> other[k] == CategoryRevenue(invs, k, Other))
  }

  /** The body of the `for (const invoice of invoices.data)` loop. */
  method AddInvoice(keys: set<string>, membership: map<string, real>, other: map<string, real>,
                    invoice: Invoice, ghost counted: seq<Invoice>)
    returns (membership': map<string, real>, other': map<string, real>)
    requires RevenueOf(keys, membership, other, counted)
    ensures RevenueOf(keys, membership', other', counted + [invoice])
  {
    membership', other' := membership, other;
    ghost var landing := Landing(invoice);
    forall k, c ensures CategoryRevenue(counted + [invoice], k, c)
        == CategoryRevenue(counted, k, c) + (if landing == Some((k, c)) then Dollars(invoice.amountPaid) else 0.0) {
      CategoryRevenueSnoc(counted, invoice, k, c);
    }
    if !Truthy(invoice.subscription) {
      return;
    }
    var paidDate := if invoice.paidAt.Some? then invoice.paidAt.value else invoice.created;
    var paymentMonth := KeyOf(paidDate);
    if paymentMonth !in membership' || |invoice.lines| == 0 || invoice.lines[0].price.None? {
      return;
    }
    var productId := invoice.lines[0].price.value.product;
    var amount := Dollars(invoice.amountPaid);
    if IsMembershipProduct(productId) {
      membership' := membership'[paymentMonth := membership'[paymentMonth] + amount];
    } else {
      other' := other'[paymentMonth := other'[paymentMonth] + amount];
    }
  }

  /** The `for (const invoice of invoices.data)` loop over one page. */
  method AddPage(keys: set<string>, membership: map<string, real>, other: map<string, real>,
                 data: seq<Invoice>, ghost before: seq<Invoice>)
    returns (membership': map<string, real>, other': map<string, real>)
    requires RevenueOf(keys, membership, other, before)
    ensures RevenueOf(keys, membership', other', before + data)
  {
    membership', other' := membership, other;
    assert before + data[..0] == before;
    for j := 0 to |data|
      invariant RevenueOf(keys, membership', other', before + data[..j])
    {
      assert before + data[..j + 1] == (before + data[..j]) + [data[j]];
      membership', other' := AddInvoice(keys, membership', other', data[j], before + data[..j]);
    }
    assert data[..|data|] == data;
  }

  /** The invoices pass A counts: none for an empty window, else every page the walk processed. */
  function ProcessedInvoices(months: seq<Bucket>, responses: seq<Fetch>): seq<Invoice> {
    if |months| == 0 then [] else AllInvoices(Walk(responses))
  }

  /**
   * `fetchStripeRevenue`. Both maps have exactly the window's keys; each
   * month holds the revenue of every invoice on the pages processed before
   * the walk ended, whether it ended normally or because a call threw. The
   * calls ask for the window's date range; an empty window throws before
   * the first call and leaves both maps at zero.
   */
  method FetchStripeRevenue(months: seq<Bucket>, responses: seq<Fetch>)
    returns (membershipRevenue: map<string, real>, otherRevenue: map<string, real>, requests: seq<ListRequest>)
    ensures membershipRevenue.Keys == KeySet(months) && otherRevenue.Keys == KeySet(months)
    ensures forall k :: k in KeySet(months) ==>
      membershipRevenue[k] == CategoryRevenue(ProcessedInvoices(months, responses), k, Membership)
      && otherRevenue[k] == CategoryRevenue(ProcessedInvoices(months, responses), k, Other)
    ensures |months| == 0 ==> requests == []
    ensures |months| > 0 ==>
      RequestsOfWalk(requests, responses, Some(CreatedRange(months[0].start, months[|months| - 1].end)))
  {
    membershipRevenue, otherRevenue := map[], map[];
    for j := 0 to |months|
      invariant ZeroOn(KeySet(months[..j]), membershipRevenue, 0.0) && ZeroOn(KeySet(months[..j]), otherRevenue, 0.0)
    {
      ZeroOnSnoc(months, j, membershipRevenue, 0.0);
      ZeroOnSnoc(months, j, otherRevenue, 0.0);
      membershipRevenue := membershipRevenue[months[j].key := 0.0];
      otherRevenue := otherRevenue[months[j].key := 0.0];
    }
    assert months[..|months|] == months;
    ZeroedIsNoRevenue(KeySet(months), membershipRevenue, otherRevenue);
    requests := [];
    if |months| == 0 {
      return;
    }
    membershipRevenue, otherRevenue, requests :=
      WalkRevenue(KeySet(months), membershipRevenue, otherRevenue,
                  Some(CreatedRange(months[0].start, months[|months| - 1].end)), responses);
  }

  /** Zeroed maps hold the revenue of no invoices. */
  lemma ZeroedIsNoRevenue(keys: set<string>, membership: map<string, real>, other: map<string, real>)
    requires ZeroOn(keys, membership, 0.0) && ZeroOn(keys, other, 0.0)
    ensures RevenueOf(keys, membership, other, [])
  {
  }

  /**
   * The `while (hasMore)` loop of `fetchStripeRevenue`: call after call,
   * each page's invoices added to the maps, until a page says there is no
   * more or a call throws.
   */
  method WalkRevenue(keys: set<string>, membership: map<string, real>, other: map<string, real>,
                     created: Option<CreatedRange>, responses: seq<Fetch>)
    returns (membershipRevenue: map<string, real>, otherRevenue: map<string, real>, requests: seq<ListRequest>)
    requires RevenueOf(keys, membership, other, [])
    ensures RevenueOf(keys, membershipRevenue, otherRevenue, AllInvoices(Walk(responses)))
    ensures RequestsOfWalk(requests, responses, created)
  {
    membershipRevenue, otherRevenue := membership, other;
    requests := [];
    var hasMore := true;
    var startingAfter: Option<string> := None;
    ghost var done: seq<Page> := [];
    ghost var seen: seq<Invoice> := [];
    WalkStateStart(responses, created);
    while hasMore
      invariant |done| <= |responses|
      invariant WalkState(responses, created, done, hasMore, startingAfter, requests)
      invariant seen == AllInvoices(done)
      invariant RevenueOf(keys, membershipRevenue, otherRevenue, seen)
      decreases |responses| - |done|, hasMore
    {
      var i := |requests|;
      var request := ListRequest(100, "paid", created, startingAfter);
      if i >= |responses| || responses[i].Failed? {
        // The call threw: the catch keeps what was counted so far.
        WalkStateFailure(responses, created, done, startingAfter, requests);
        requests := requests + [request];
        return;
      }
      var invoices := responses[i].page;
      WalkStateStep(responses, created, done, startingAfter, requests);
      requests := requests + [request];
      membershipRevenue, otherRevenue := AddPage(keys, membershipRevenue, otherRevenue, invoices.data, seen);
      AllInvoicesSnoc(done, invoices);
      done := done + [invoices];
      seen := seen + invoices.data;
      hasMore := invoices.hasMore;
      if hasMore && |invoices.data| > 0 {
        startingAfter := Some(invoices.data[|invoices.data| - 1].id);
      } else {
        hasMore := false;
      }
    }
    WalkStateDone(responses, created, done, startingAfter, requests);
  }
}
