/**
 * The payment ledger as the membership-metrics endpoint sees it: paid
 * Stripe invoices delivered in pages by `stripe.invoices.list`, and the
 * cursor walk (`starting_after`) that both invoice passes run.
 *
 * The ledger is given as the sequence of answers to successive list
 * calls: answer `i` is what call `i` returned (a page) or that it threw.
 * A call past the end of the sequence counts as one that threw.
 */
module Ledger {
  import opened Optional
  import opened Text
  import opened CivilDate

  datatype Price = Price(product: Option<string>)
  datatype LineItem = LineItem(price: Option<Price>)

  /**
   * A paid invoice. `paidAt` is `status_transitions.paid_at` and `created`
   * the creation time, both already read as local civil instants; `None`
   * for `paidAt` stands for a null or zero timestamp. `amountPaid` is in
   * cents.
   */
  datatype Invoice = Invoice(
    id: string,
    subscription: Option<string>,
    paidAt: Option<Date>,
    created: Date,
    lines: seq<LineItem>,
    amountPaid: int)

  /** When the invoice was paid: `paid_at` if set, else its creation. */
  function PaidDate(inv: Invoice): Date {
    if inv.paidAt.Some? then inv.paidAt.value else inv.created
  }

  /** The first line item exists and carries a price. */
  predicate HasPricedFirstLine(inv: Invoice) {
    |inv.lines| > 0 && inv.lines[0].price.Some?
  }

  /** `invoice.lines.data[0].price.product`. */
  function FirstLineProduct(inv: Invoice): Option<string>
    requires HasPricedFirstLine(inv)
  {
    inv.lines[0].price.value.product
  }

  datatype Page = Page(data: seq<Invoice>, hasMore: bool)
  datatype Fetch = Fetched(page: Page) | Failed

  /** The `created` filter of a list call. */
  datatype CreatedRange = CreatedRange(gte: Date, lte: Date)

  /** The parameters of one `stripe.invoices.list` call. */
  datatype ListRequest = ListRequest(limit: int, status: string, created: Option<CreatedRange>, startingAfter: Option<string>)

  /** After this page the walk asks for another: `has_more` and a non-empty page. */
  predicate Continues(p: Page) {
    p.hasMore && |p.data| > 0
  }

  /** The id of the last invoice on a page: the next call's cursor. */
  function LastId(p: Page): string
    requires |p.data| > 0
  {
    p.data[|p.data| - 1].id
  }

  /** The pages the walk processes, starting with call `i`. */
  function WalkFrom(responses: seq<Fetch>, i: nat): seq<Page>
    decreases |responses| - i
  {
    if i >= |responses| then []
    else match responses[i]
      case Failed => []
      case Fetched(p) => [p] + (if Continues(p) then WalkFrom(responses, i + 1) else [])
  }

  /** The walk from call `i` on ends because a call threw. */
  predicate FailsFrom(responses: seq<Fetch>, i: nat)
    decreases |responses| - i
  {
    if i >= |responses| then true
    else match responses[i]
      case Failed => true
      case Fetched(p) => Continues(p) && FailsFrom(responses, i + 1)
  }

  /** The pages processed by the whole walk. */
  function Walk(responses: seq<Fetch>): seq<Page> {
    WalkFrom(responses, 0)
  }

  /** Every invoice of the given pages, page by page, in order. */
  function AllInvoices(pages: seq<Page>): seq<Invoice>
    decreases |pages|
  {
    if |pages| == 0 then [] else AllInvoices(pages[..|pages| - 1]) + pages[|pages| - 1].data
  }

  /** The cursor sent with call `k`: none first, then the last id of page `k - 1`. */
  function Cursor(pages: seq<Page>, k: nat): Option<string> {
    if k == 0 || k > |pages| || |pages[k - 1].data| == 0 then None
    else Some(LastId(pages[k - 1]))
  }

  /** The first `n` calls of a walk over `pages`, each asking for the page after the previous one. */
  function Requests(created: Option<CreatedRange>, pages: seq<Page>, n: nat): (rs: seq<ListRequest>)
    ensures |rs| == n
    ensures forall k :: 0 <= k < n ==> rs[k] == ListRequest(100, "paid", created, Cursor(pages, k))
  {
    seq(n, k requires 0 <= k < n => ListRequest(100, "paid", created, Cursor(pages, k)))
  }

  /**
   * The calls the walk makes: one per processed page, plus the call that
   * threw if it ended that way; each one asks for 100 paid invoices in
   * the given range after the previous page's last invoice.
   */
  predicate RequestsOfWalk(requests: seq<ListRequest>, responses: seq<Fetch>, created: Option<CreatedRange>) {
    requests == Requests(created, Walk(responses), |Walk(responses)| + (if FailsFrom(responses, 0) then 1 else 0))
  }

  /** A walk that has processed `done` and is about to make call `i`. */
  ghost predicate WalkingAt(responses: seq<Fetch>, done: seq<Page>, i: nat) {
    && i == |done| <= |responses|
    && Walk(responses) == done + WalkFrom(responses, i)
    && FailsFrom(responses, 0) == FailsFrom(responses, i)
    && forall k :: 0 <= k < |done| ==> Continues(done[k])
  }

  /** Where the walk starts. */
  lemma WalkingAtStart(responses: seq<Fetch>)
    ensures WalkingAt(responses, [], 0)
  {
  }

  /** Call `i` threw: the walk is over, and it failed. */
  lemma WalkingAtFailure(responses: seq<Fetch>, done: seq<Page>, i: nat)
    requires WalkingAt(responses, done, i)
    requires i >= |responses| || responses[i].Failed?
    ensures Walk(responses) == done && FailsFrom(responses, 0)
  {
    assert done + [] == done;
  }

  /** Call `i` answered a page after which the walk goes on. */
  lemma WalkingOn(responses: seq<Fetch>, done: seq<Page>, i: nat)
    requires WalkingAt(responses, done, i)
    requires i < |responses| && responses[i].Fetched? && Continues(responses[i].page)
    ensures WalkingAt(responses, done + [responses[i].page], i + 1)
  {
    var p := responses[i].page;
    var rest := WalkFrom(responses, i + 1);
    StepOn(responses, i);
    Regroup(Walk(responses), done, p, WalkFrom(responses, i), rest);
    ContinuesSnoc(done, p);
  }

  /** `done + ([p] + rest)` regrouped as `(done + [p]) + rest`. */
  lemma Regroup<T>(w: seq<T>, done: seq<T>, p: T, x: seq<T>, rest: seq<T>)
    requires w == done + x && x == [p] + rest
    ensures w == (done + [p]) + rest
  {
    assert done + ([p] + rest) == (done + [p]) + rest;
  }

  /** A page after which the walk goes on is followed by the walk from the next call. */
  lemma StepOn(responses: seq<Fetch>, i: nat)
    requires i < |responses| && responses[i].Fetched? && Continues(responses[i].page)
    ensures WalkFrom(responses, i) == [responses[i].page] + WalkFrom(responses, i + 1)
    ensures FailsFrom(responses, i) == FailsFrom(responses, i + 1)
  {
  }

  /** Appending a page after which the walk goes on keeps every page so. */
  lemma ContinuesSnoc(done: seq<Page>, p: Page)
    requires forall k :: 0 <= k < |done| ==> Continues(done[k])
    requires Continues(p)
    ensures forall k :: 0 <= k < |done| + 1 ==> Continues((done + [p])[k])
  {
    var d := done + [p];
    forall k | 0 <= k < |d| ensures Continues(d[k]) {
      if k < |done| {
        assert d[k] == done[k];
      }
    }
  }

  /** Call `i` answered the last page: the walk ends normally. */
  lemma WalkingStops(responses: seq<Fetch>, done: seq<Page>, i: nat)
    requires WalkingAt(responses, done, i)
    requires i < |responses| && responses[i].Fetched? && !Continues(responses[i].page)
    ensures Walk(responses) == done + [responses[i].page] && !FailsFrom(responses, 0)
  {
    assert WalkFrom(responses, i) == [responses[i].page];
  }

  /** Making call `n` extends the requests by that call, with the cursor of page `n - 1`. */
  lemma RequestsSnoc(created: Option<CreatedRange>, pages: seq<Page>, n: nat)
    ensures Requests(created, pages, n + 1) == Requests(created, pages, n) + [ListRequest(100, "paid", created, Cursor(pages, n))]
  {
  }

  /** Processing another page does not change the calls already made. */
  lemma RequestsStable(created: Option<CreatedRange>, pages: seq<Page>, more: seq<Page>, n: nat)
    requires n <= |pages| + 1
    ensures Requests(created, pages + more, n) == Requests(created, pages, n)
  {
    forall k | 0 <= k < n ensures Cursor(pages + more, k) == Cursor(pages, k) {
      if 0 < k <= |pages| {
        assert (pages + more)[k - 1] == pages[k - 1];
      }
    }
  }

  /**
   * The state of a `while (hasMore)` loop that has processed `done`: the
   * calls made so far, and either the cursor of the next call or the
   * knowledge that the walk ended normally.
   */
  ghost predicate WalkState(responses: seq<Fetch>, created: Option<CreatedRange>, done: seq<Page>,
                            hasMore: bool, startingAfter: Option<string>, requests: seq<ListRequest>) {
    && requests == Requests(created, done, |done|)
    && (hasMore ==> WalkingAt(responses, done, |done|) && startingAfter == Cursor(done, |done|))
    && (!hasMore ==> Walk(responses) == done && !FailsFrom(responses, 0))
  }

  /** Before the first call. */
  lemma WalkStateStart(responses: seq<Fetch>, created: Option<CreatedRange>)
    ensures WalkState(responses, created, [], true, None, [])
  {
    WalkingAtStart(responses);
  }

  /** The next call threw: with it, the calls made are those of the whole walk. */
  lemma WalkStateFailure(responses: seq<Fetch>, created: Option<CreatedRange>, done: seq<Page>,
                         startingAfter: Option<string>, requests: seq<ListRequest>)
    requires WalkState(responses, created, done, true, startingAfter, requests)
    requires |done| >= |responses| || responses[|done|].Failed?
    ensures Walk(responses) == done
    ensures RequestsOfWalk(requests + [ListRequest(100, "paid", created, startingAfter)], responses, created)
  {
    WalkingAtFailure(responses, done, |done|);
    RequestsSnoc(created, done, |done|);
  }

  /** The next call answered page `p`: the walk goes on exactly when `p` continues. */
  lemma WalkStateStep(responses: seq<Fetch>, created: Option<CreatedRange>, done: seq<Page>,
                      startingAfter: Option<string>, requests: seq<ListRequest>)
    requires WalkState(responses, created, done, true, startingAfter, requests)
    requires |done| < |responses| && responses[|done|].Fetched?
    ensures var p := responses[|done|].page;
      WalkState(responses, created, done + [p], Continues(p),
                if Continues(p) then Some(LastId(p)) else startingAfter,
                requests + [ListRequest(100, "paid", created, startingAfter)])
  {
    var p := responses[|done|].page;
    var requests' := requests + [ListRequest(100, "paid", created, startingAfter)];
    RequestsSnoc(created, done, |done|);
    RequestsStable(created, done, [p], |done| + 1);
    assert requests' == Requests(created, done + [p], |done + [p]|);
    if Continues(p) {
      WalkingOn(responses, done, |done|);
      assert WalkState(responses, created, done + [p], true, Some(LastId(p)), requests');
    } else {
      WalkingStops(responses, done, |done|);
      assert WalkState(responses, created, done + [p], false, startingAfter, requests');
    }
  }

  /** A walk that ended normally made exactly the walk's calls. */
  lemma WalkStateDone(responses: seq<Fetch>, created: Option<CreatedRange>, done: seq<Page>,
                      startingAfter: Option<string>, requests: seq<ListRequest>)
    requires WalkState(responses, created, done, false, startingAfter, requests)
    ensures Walk(responses) == done && RequestsOfWalk(requests, responses, created)
  {
  }

  /**
   * What the walk does, stated without the recursion: page `k` is the
   * answer to call `k`; the walk went on after every page but the last;
   * it stopped after the last page because `has_more` was false or the
   * page was empty, or it stopped because a call threw.
   */
  lemma WalkShape(responses: seq<Fetch>, i: nat)
    ensures var w := WalkFrom(responses, i);
      && (forall k :: 0 <= k < |w| ==> i + k < |responses| && responses[i + k] == Fetched(w[k]))
      && (forall k :: 0 <= k < |w| - 1 ==> Continues(w[k]))
      && (!FailsFrom(responses, i) ==> |w| > 0 && !Continues(w[|w| - 1]))
      && (FailsFrom(responses, i) ==>
            && (|w| > 0 ==> Continues(w[|w| - 1]))
            && (i + |w| >= |responses| || responses[i + |w|] == Failed))
  {
    WalkAnswers(responses, i);
    WalkGoesOn(responses, i);
    WalkEnding(responses, i);
  }

  /** Page `k` of the walk from call `i` is the answer to call `i + k`. */
  lemma {:induction false} WalkAnswers(responses: seq<Fetch>, i: nat)
    ensures |WalkFrom(responses, i)| > 0 ==> i + |WalkFrom(responses, i)| <= |responses|
    ensures forall k :: 0 <= k < |WalkFrom(responses, i)| ==>
      responses[i + k] == Fetched(WalkFrom(responses, i)[k])
  {
    if |WalkFrom(responses, i)| > 0 {
      WalkAnswer(responses, i, |WalkFrom(responses, i)| - 1);
    }
    forall k | 0 <= k < |WalkFrom(responses, i)|
      ensures responses[i + k] == Fetched(WalkFrom(responses, i)[k])
    {
      WalkAnswer(responses, i, k);
    }
  }

  /** One page of the walk, by induction on its position. */
  lemma {:induction false} WalkAnswer(responses: seq<Fetch>, i: nat, k: nat)
    requires k < |WalkFrom(responses, i)|
    ensures i + k < |responses| && responses[i + k] == Fetched(WalkFrom(responses, i)[k])
    decreases k
  {
    assert i < |responses| && responses[i].Fetched?;
    if k > 0 {
      assert Continues(responses[i].page);
      StepOn(responses, i);
      WalkAnswer(responses, i + 1, k - 1);
      assert WalkFrom(responses, i)[k] == WalkFrom(responses, i + 1)[k - 1];
      assert i + 1 + (k - 1) == i + k;
    }
  }

  /** The walk went on after every page but the last. */
  lemma {:induction false} WalkGoesOn(responses: seq<Fetch>, i: nat)
    ensures forall k :: 0 <= k < |WalkFrom(responses, i)| - 1 ==> Continues(WalkFrom(responses, i)[k])
    decreases |responses| - i
  {
    if i < |responses| && responses[i].Fetched? && Continues(responses[i].page) {
      WalkGoesOn(responses, i + 1);
      var w := WalkFrom(responses, i);
      var rest := WalkFrom(responses, i + 1);
      assert w == [responses[i].page] + rest;
      forall k | 1 <= k < |w| - 1 ensures Continues(w[k]) {
        assert w[k] == rest[k - 1];
      }
    }
  }

  /** A walk from call `i` that ended normally stopped after a page that does not continue. */
  lemma {:induction false} WalkEndsAtLastPage(responses: seq<Fetch>, i: nat)
    requires !FailsFrom(responses, i)
    ensures |WalkFrom(responses, i)| > 0 && !Continues(WalkFrom(responses, i)[|WalkFrom(responses, i)| - 1])
    decreases |responses| - i
  {
    var p := responses[i].page;
    if Continues(p) {
      WalkEndsAtLastPage(responses, i + 1);
      var rest := WalkFrom(responses, i + 1);
      assert WalkFrom(responses, i) == [p] + rest;
    } else {
      assert WalkFrom(responses, i) == [p];
    }
  }

  /** A walk from call `i` that failed went on after its last page, and the next call threw. */
  lemma {:induction false} WalkEndsAtFailure(responses: seq<Fetch>, i: nat)
    requires FailsFrom(responses, i)
    ensures |WalkFrom(responses, i)| > 0 ==> Continues(WalkFrom(responses, i)[|WalkFrom(responses, i)| - 1])
    ensures i + |WalkFrom(responses, i)| >= |responses| || responses[i + |WalkFrom(responses, i)|] == Failed
    decreases |responses| - i
  {
    if i < |responses| && responses[i].Fetched? {
      var p := responses[i].page;
      WalkEndsAtFailure(responses, i + 1);
      var rest := WalkFrom(responses, i + 1);
      assert WalkFrom(responses, i) == [p] + rest;
      if |rest| > 0 {
        assert WalkFrom(responses, i)[|WalkFrom(responses, i)| - 1] == rest[|rest| - 1];
      }
    } else {
      assert WalkFrom(responses, i) == [];
    }
  }

  /** Why the walk from call `i` stopped: after a last page, or because the next call threw. */
  lemma WalkEnding(responses: seq<Fetch>, i: nat)
    ensures var w := WalkFrom(responses, i);
      && (!FailsFrom(responses, i) ==> |w| > 0 && !Continues(w[|w| - 1]))
      && (FailsFrom(responses, i) ==>
            && (|w| > 0 ==> Continues(w[|w| - 1]))
            && (i + |w| >= |responses| || responses[i + |w|] == Failed))
  {
    if FailsFrom(responses, i) {
      WalkEndsAtFailure(responses, i);
    } else {
      WalkEndsAtLastPage(responses, i);
    }
  }

  /** Splitting off the last page of a page sequence. */
  lemma AllInvoicesSnoc(pages: seq<Page>, p: Page)
    ensures AllInvoices(pages + [p]) == AllInvoices(pages) + p.data
  {
    assert (pages + [p])[..|pages|] == pages;
  }
}
