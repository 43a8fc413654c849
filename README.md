# mlcc-database dashboard core, modelled in Dafny

This project models the data logic behind the volunteer-organisation admin site:

- **Membership-metrics endpoint.** It builds a twelve-month window ending at the current month. It then runs three passes:
  - pass A reads paid Stripe invoices page by page, cursor after cursor, and splits each subscription invoice's amount into membership revenue or other revenue for its month of payment;
  - pass B counts new memberships, renewals and churns per month from the `memberships` rows;
  - pass C sums the whole invoice history per product and calendar-month name, so that it can report average monthly revenue over the distinct years seen.

  The GET handler composes these into the dashboard answer. Any other method gets 405.
- **`useDashboard` transforms.** These produce the chart series, the three membership table rows and the product table.
- **`usePeople`.** This covers mapping a `people` row to a `Person`, and the duplicate-membership report:
  - memberships are grouped by normalised email;
  - each group with more than one membership is reported with the person's name and the latest renewal per tier.
- **The businesses page.** It has a status filter and a search, badge counts, and the business directory with `getBusinessById`.
- **The routes page.** It has three searchable lists and their badges.
- **The password gate.**
  - The login endpoint checks the password and issues a signed token `random:timestamp:signature` in an http-only cookie.
  - The session endpoint splits the token and re-signs it to decide whether the user is authenticated, and clears a cookie that fails.

Stripe pages, the Supabase answers, the clock, the random bytes and the HMAC digest are all inputs to the model:

- A list of call outcomes (`Ledger.Fetch`) stands for the remote answers. A call past the end of that list counts as a call that threw.
- Each fetch method also returns the requests it made, so the cursor chain is stated.
- Each loop of the source is a `method` with its `while`/`for` loop. It is proved against a specification function over the invoices or rows it has processed (`Revenue.CategoryRevenue`, `Lifecycle.Count`, `ProductAverages.ProductTotal`/`ProductYears`, `People.Group`, `People.ExpectedTiers`, `People.ExpectedDuplicates`).
- Lemmas then state what those functions mean.

On errors the model follows the code. Each fetch helper catches its own errors and returns what it has built so far; the maps start at zero for every window month. So a failed Stripe or Supabase call yields partial or zero figures, never a 500. The handler's 500 branch cannot be reached, and it is not modelled.

## Model

| member | source | states |
|---|---|---|
| Catalog.IsMembershipProduct | pages/api/dashboard/membership-metrics.ts:76-79 | true exactly when the id is present and one of the five allow-listed product ids; an absent or empty id is never a membership product |
| Catalog.ProductName | pages/api/dashboard/membership-metrics.ts:173-175 | the catalogue name of a known product, the raw id otherwise |
| Catalog.CatalogCoversMemberships | pages/api/dashboard/membership-metrics.ts:19-34 | every one of the five membership ids has a catalogue name and the catalogue names no other product |
| CivilDate.DaysIn | pages/api/dashboard/membership-metrics.ts:58 | month lengths of the Gregorian calendar: 28 to 31 days, 30 for April, June, September and November |
| CivilDate.LeTotal | pages/api/dashboard/membership-metrics.ts:341 | the date order used for `expectedRenewal <= now` is total and antisymmetric |
| CivilDate.AddOneYear | pages/api/dashboard/membership-metrics.ts:332-333 | `setFullYear(year + 1)`: the same day a year later, except 29 February in a non-leap target year, which rolls to 1 March; the result is a valid date strictly later than the input |
| CivilDate.MonthKeyFormat | pages/api/dashboard/membership-metrics.ts:54 | a month key is the year, a dash and the two-digit month number |
| CivilDate.MonthKeyInjective | pages/api/dashboard/membership-metrics.ts:131 | different months have different `YYYY-MM` keys, so a payment's key matches at most one window month |
| CivilDate.ShortMonthName | hooks/useDashboard.ts:74 | `month.substring(0, 3)`: three characters, the first three letters of the month's full name |
| CivilDate.MonthNamesDistinct | pages/api/dashboard/membership-metrics.ts:37-40 | the twelve month names are pairwise different |
| MonthWindow.FirstOfMonth | pages/api/dashboard/membership-metrics.ts:50 | `new Date(y, m0, 1)` normalises an out-of-range month into the right year: the first instant of month index `12*y + m0` |
| MonthWindow.BucketOf | pages/api/dashboard/membership-metrics.ts:51-60 | a bucket carries the year, month and `YYYY-MM` key of its date, the label of that month, and runs from its first day at midnight to its last day at 23:59:59.999 |
| MonthWindow.Window | pages/api/dashboard/membership-metrics.ts:45-64 | twelve buckets; position `k` is the whole month `11 - k` months before the current one |
| MonthWindow.WindowAt | pages/api/dashboard/membership-metrics.ts:49-60 | the bucket for loop step `i = 11 - k` is the month `11 - k` months before the current one, with its key, label and bounds |
| MonthWindow.WindowDetermined | pages/api/dashboard/membership-metrics.ts:45-64 | twelve buckets that cover the window's months in order, each filled as its month prescribes, are the window itself |
| MonthWindow.Last12Months | pages/api/dashboard/membership-metrics.ts:45-64 | the loop `for (i = 11; i >= 0; i--)` builds exactly the reference window, oldest month first |
| MonthWindow.WindowEndsNow | pages/api/dashboard/membership-metrics.ts:49-50 | the last bucket is the current month |
| MonthWindow.WindowConsecutive | pages/api/dashboard/membership-metrics.ts:49-61 | each bucket is the calendar month after the previous one, across year ends |
| MonthWindow.WindowKeysDistinct | pages/api/dashboard/membership-metrics.ts:95-98 | the twelve keys are pairwise distinct, so the zero-initialised maps have twelve entries |
| MonthWindow.WindowIndexIncreasing | pages/api/dashboard/membership-metrics.ts:49-61 | the buckets are strictly increasing in time |
| MonthWindow.WindowBounds | pages/api/dashboard/membership-metrics.ts:57-58 | each bucket runs from the first day at 00:00:00.000 to the last day of its month at 23:59:59.999 |
| Ledger.Requests | pages/api/dashboard/membership-metrics.ts:110-118 | each list call asks for 100 paid invoices in the date range, the first without cursor, each later one after the last id of the previous page |
| Ledger.WalkStateStart | pages/api/dashboard/membership-metrics.ts:106-107 | before the first call no page is processed, no call is made, and the walk is still going with no cursor |
| Ledger.WalkStateStep | pages/api/dashboard/membership-metrics.ts:109-161 | a call that answers a page adds that page and that request; the walk goes on with the page's last id as cursor exactly when the page has more and is non-empty |
| Ledger.WalkAnswers | pages/api/dashboard/membership-metrics.ts:109-161 | the walk is no longer than the answers, and its page `k` is the answer to call `k` |
| Ledger.WalkGoesOn | pages/api/dashboard/membership-metrics.ts:156-161 | every page of the walk but the last had more and was non-empty |
| Ledger.WalkEndsAtLastPage | pages/api/dashboard/membership-metrics.ts:156-161 | a walk that ended normally has a last page, and that page has no more or is empty |
| Ledger.WalkEndsAtFailure | pages/api/dashboard/membership-metrics.ts:156-165 | a walk that ended because a call threw went on after its last page, and the next call threw |
| Ledger.WalkShape | pages/api/dashboard/membership-metrics.ts:156-161 | the pages processed are those answered up to and including the first that has no more pages or is empty, or up to the first call that threw |
| Ledger.WalkStateFailure | pages/api/dashboard/membership-metrics.ts:163-165 | when a call throws, the pages seen so far are the whole walk, and the calls made are those of the walk |
| Ledger.WalkStateDone | pages/api/dashboard/membership-metrics.ts:156-161 | a walk that ends normally has made exactly the calls of the walk |
| Revenue.CategoryOf | pages/api/dashboard/membership-metrics.ts:146-153 | an invoice is membership revenue exactly when its first line has a product id on the allow-list; an absent or empty id counts as other revenue |
| Revenue.Landing | pages/api/dashboard/membership-metrics.ts:121-147 | an invoice adds to one month and category at most, and exactly when it is a subscription invoice with a priced first line |
| Revenue.CategoriesPartition | pages/api/dashboard/membership-metrics.ts:146-153 | membership plus other revenue of a month is all qualifying revenue of that month: nothing is counted twice or lost |
| Revenue.OtherMonthsIgnored | pages/api/dashboard/membership-metrics.ts:131-134 | invoices paid in other months leave a month's figure at zero |
| Revenue.AddInvoice | pages/api/dashboard/membership-metrics.ts:121-154 | one invoice: the map figures become the revenue of the invoices counted so far plus this one |
| Revenue.AddPage | pages/api/dashboard/membership-metrics.ts:121-154 | one page: the figures become the revenue of everything before plus the page's invoices |
| Revenue.FetchStripeRevenue | pages/api/dashboard/membership-metrics.ts:85-168 | both maps have exactly the window's keys; each month holds the revenue of every invoice on the pages processed before the walk ended, which is everything or a prefix when a call threw; the calls carry the window's date range and the cursor chain |
| Revenue.WalkRevenue | pages/api/dashboard/membership-metrics.ts:106-162 | the `while (hasMore)` loop adds exactly the invoices of the walk and makes exactly its calls |
| Lifecycle.CountNew | pages/api/dashboard/membership-metrics.ts:301-308 | a row with a creation date in a window month adds one new membership there |
| Lifecycle.CountRenewal | pages/api/dashboard/membership-metrics.ts:311-326 | a row whose last renewal falls in a window month other than its creation month adds one renewal there |
| Lifecycle.CountChurn | pages/api/dashboard/membership-metrics.ts:329-346 | a row not `Active` whose expected renewal, one year after its last renewal, lands in a window month and has passed adds one churn there |
| Lifecycle.FetchMembershipMetrics | pages/api/dashboard/membership-metrics.ts:266-353 | the three maps have the window's keys and hold the counts over the query's rows; a failed query or null data leaves them at zero |
| Lifecycle.ZeroCounters | pages/api/dashboard/membership-metrics.ts:275-280 | the three counters have exactly the window's keys, and each holds the count over no rows |
| Lifecycle.CountMembership | pages/api/dashboard/membership-metrics.ts:299-347 | one row: the three counters become the counts over the rows seen so far plus this one |
| Lifecycle.ActiveNeverChurns | pages/api/dashboard/membership-metrics.ts:338 | an `Active` membership never counts as a churn |
| Lifecycle.FirstMonthIsNoRenewal | pages/api/dashboard/membership-metrics.ts:322 | a membership last renewed in its creation month never counts as a renewal |
| Lifecycle.ChurnTiming | pages/api/dashboard/membership-metrics.ts:329-345 | a counted churn had a last renewal and no `Active` status; it lands twelve months after the renewal month (thirteen for a 29 February renewal whose next year is not a leap year), and no later than now |
| Lifecycle.SkippedDayIsLeapDay | pages/api/dashboard/membership-metrics.ts:333 | the only real date the year roll-over pushes into the next month is 29 February |
| Lifecycle.HitsAtMostOne | pages/api/dashboard/membership-metrics.ts:304 | among distinct month keys, a row lands in at most one |
| Lifecycle.CountsBoundedByRows | pages/api/dashboard/membership-metrics.ts:299-347 | summed over distinct months, each counter counts each row at most once |
| Lifecycle.WindowCountsBounded | pages/api/dashboard/membership-metrics.ts:299-347 | over the twelve window months each counter totals at most the number of rows |
| Lifecycle.LapsedChurnExample | pages/api/dashboard/membership-metrics.ts:329-345 | a lapsed membership renewed on 2023-06-01 churns in 2024-06 when seen on 2024-07-01 |
| ProductAverages.Bumped | pages/api/dashboard/membership-metrics.ts:237-243 | adding to a month map: an existing month gets the amount added to its total and the year added to its years, a new month starts at the amount and that one year, and every other month is unchanged |
| ProductAverages.UnseenProductHasNoYears | pages/api/dashboard/membership-metrics.ts:230-232 | a product not yet seen has no years and no total for any month |
| ProductAverages.AddInvoice | pages/api/dashboard/membership-metrics.ts:202-244 | one invoice: the `continue` guards leave both structures unchanged for an invoice that is not a subscription or lacks a priced first line or a product id; otherwise the product id is appended if new and its month is bumped, which is the reference step `Gather` |
| ProductAverages.AddToProduct | pages/api/dashboard/membership-metrics.ts:229-243 | the product's month map is created if missing, then its month gets the amount and the year |
| ProductAverages.AddPage | pages/api/dashboard/membership-metrics.ts:202-244 | the loop over one page gathers its invoices one by one, in order |
| ProductAverages.GatherStep | pages/api/dashboard/membership-metrics.ts:202-244 | gathering one more invoice keeps the ids, month names, totals and years exactly those of the invoices counted so far plus this one |
| ProductAverages.GatherAllAppend | pages/api/dashboard/membership-metrics.ts:194-252 | gathering page after page is gathering the concatenation of their invoices |
| ProductAverages.GatherAllFigures | pages/api/dashboard/membership-metrics.ts:186-244 | starting from empty structures, gathering a run of invoices yields exactly that run's product ids in order of first appearance and its totals and years per month name |
| ProductAverages.FetchProductMonthlyAverages | pages/api/dashboard/membership-metrics.ts:181-261 | the result is the gathering of every invoice of the pages processed before the walk ended, normally or because a call threw; so the product ids are the distinct products of the attributed invoices in order of first appearance; each product's month map holds, per month name it was paid in, its total and the set of years; the calls have no date filter and follow the cursor chain |
| ProductAverages.AveragesVisit | pages/api/dashboard/membership-metrics.ts:413-418 | visiting one more month sets its average if it has years and changes no other month |
| ProductAverages.MonthlyAverages | pages/api/dashboard/membership-metrics.ts:397-418 | twelve zeros, then the `forEach` that fills in the averages, give the reference averages of the month map |
| ProductAverages.BuildProductAverages | pages/api/dashboard/membership-metrics.ts:396-425 | one entry per product id, in order, with its name and its averages |
| ProductAverages.AveragesShape | pages/api/dashboard/membership-metrics.ts:413-418 | every month name has an average; a month with years averages to the total divided by the number of distinct years; other months stay 0 |
| ProductAverages.AveragesKeysAreMonthNames | pages/api/dashboard/membership-metrics.ts:211 | a month map built by pass C only has month names as keys, so its averages have exactly the twelve |
| ProductAverages.YearsOnlyUnderMonthNames | pages/api/dashboard/membership-metrics.ts:211-212 | years are only ever recorded under one of the twelve month names |
| ProductAverages.SkippedInvoicesAddNothing | pages/api/dashboard/membership-metrics.ts:204-221 | invoices that are not subscriptions, or lack a priced first line or a product id, add no product, total or year |
| MetricsHandler.ProductDataDetermined | pages/api/dashboard/membership-metrics.ts:181-261 | pass C's month map of a product is a function of the invoices alone |
| MetricsHandler.AveragesOfProduct | pages/api/dashboard/membership-metrics.ts:396-425 | a product's averages are its total per month name over its distinct years, 0 where it has none |
| MetricsHandler.ExpectedMetrics | pages/api/dashboard/membership-metrics.ts:385-393 | the month table has twelve rows, one per window month, oldest first, with that month's revenue split and lifecycle counts |
| MetricsHandler.ExpectedAverages | pages/api/dashboard/membership-metrics.ts:396-425 | the product list has one entry per distinct product of the history, in order of first invoice, with its name and averages |
| MetricsHandler.ComposeMatches | pages/api/dashboard/membership-metrics.ts:385-393 | composing the pass A and pass B maps over the window gives the expected month table |
| MetricsHandler.Compose | pages/api/dashboard/membership-metrics.ts:385-393 | one metric per window month, in the window's order, carrying that month's key and label |
| MetricsHandler.AveragesMatch | pages/api/dashboard/membership-metrics.ts:396-425 | turning pass C's result into averages in product-id order gives the expected product list |
| MetricsHandler.Handle | pages/api/dashboard/membership-metrics.ts:358-436 | a non-GET request gets 405 with `Allow: GET`; a GET gets 200 with the month table of the window ending now and the product averages of the whole history |
| MetricsHandler.RevenueSplitsExactly | pages/api/dashboard/membership-metrics.ts:385-389 | in every month of the table, membership plus other revenue is all qualifying revenue paid that month |
| UseDashboard.ChartData | hooks/useDashboard.ts:41-45 | one bar per metric in order, carrying that metric's label and its membership and other revenue; none without data |
| UseDashboard.ChartOfAnswer | hooks/useDashboard.ts:41-45 | fed the handler's answer, the chart has twelve bars; bar `i` is window month `i`'s label with the membership and the other revenue paid in that month |
| UseDashboard.Column | hooks/useDashboard.ts:51 | one value per metric |
| UseDashboard.MembershipTableRows | hooks/useDashboard.ts:48-61 | three rows titled "New Memberships", "Renewals" and "Churns", even without data; each has one value per metric, and column `i` holds metric `i`'s new memberships, renewals and churns respectively |
| UseDashboard.ProductTableRows | hooks/useDashboard.ts:65-68 | one row per product, none without data |
| UseDashboard.MembershipMonthLabels | hooks/useDashboard.ts:71 | one label per metric |
| UseDashboard.ProductMonthLabels | hooks/useDashboard.ts:74 | twelve labels |
| UseDashboard.NoDataNoValues | hooks/useDashboard.ts:41-71 | before an answer every series is empty, and the membership table keeps its three labelled rows |
| UseDashboard.TablesAligned | hooks/useDashboard.ts:41-74 | each table row has one value per column label, and the chart bars carry the membership table's labels |
| UseDashboard.ProductLabels | hooks/useDashboard.ts:64-74 | the product columns are headed "Jan" to "Dec" |
| UseDashboard.ProductTableOfAnswer | hooks/useDashboard.ts:65-68 | fed the handler's answer, there is one row per product of the whole history, in order of first invoice; row `i` is titled with product `i`'s name and its column `j` is that product's average for the `j`-th month of the year |
| UseDashboard.ProductRowAt | hooks/useDashboard.ts:65-68 | row `i` of the product table is titled with product `i`'s name, and its column `j` is that product's average for the `j`-th month name, or 0 where the product has none |
| UseDashboard.ProductRowsOf | hooks/useDashboard.ts:65-68 | any answer whose product list is the expected one for a history gives that history's product table |
| UseDashboard.MembershipTableOfAnswer | hooks/useDashboard.ts:48-61 | fed the handler's answer, membership row `r`, column `i` is that lifecycle count of window month `i` |
| People.ToPerson | hooks/usePeople.ts:41-61 | the name is `full_name`, else `name`, else empty; a row's own membership id wins over the joined one; a tier is shown only when it is non-empty |
| People.FetchPeople | hooks/usePeople.ts:11-70 | failure keeps the previous people and records the error's message or "Failed to fetch people"; success clears the error and maps every row, in order; null data gives no people |
| People.EmptyJoinShowsNothing | hooks/usePeople.ts:46-59 | an empty array join shows no tier, status or renewal, and the membership id falls back to the row's own |
| People.Normalize | hooks/usePeople.ts:94 | a normalised email is no longer than the email, neither starts nor ends with white space, and holds no upper-case letter |
| People.NameFor | hooks/usePeople.ts:91-95 | a name found for a key is the name, or `''`, of some person whose email normalises to the key |
| People.EmailToPersonMap | hooks/usePeople.ts:90-96 | an email is a key exactly when some person's normalised email is it, and it maps to the name the reference lookup gives |
| People.NameFoundIffMatch | hooks/usePeople.ts:92-95 | a name is found exactly when some person with an email normalises to the key |
| People.LatestPersonWins | hooks/usePeople.ts:92-95 | when several people share an email, the last one's name (or empty) is kept |
| People.EmailKeysComplete | hooks/usePeople.ts:100-107 | the email of every membership that has one is among the group keys |
| People.GroupedKeyIsEmail | hooks/usePeople.ts:100-107 | a key with any member is one of the memberships' emails |
| People.AddToGroups | hooks/usePeople.ts:101-106 | one membership: the groups and their insertion order become those of the memberships seen so far plus this one |
| People.GroupByEmail | hooks/usePeople.ts:98-107 | each group holds, in order, the memberships whose email normalises to its key; keys in order of first appearance |
| People.GroupMembers | hooks/usePeople.ts:100-107 | a membership is in a group exactly when it has an email that normalises to the group's key |
| People.ExpectedTiers | hooks/usePeople.ts:115-130 | the tiers of a group in order of first appearance, each with its latest renewal |
| People.AddTier | hooks/usePeople.ts:116-123 | one membership: the tier map becomes that of the memberships seen so far plus this one |
| People.TierSummary | hooks/usePeople.ts:115-130 | filling `tierMap` and listing its entries gives the reference tiers |
| People.LatestRenewalIsMax | hooks/usePeople.ts:117-122 | a tier's renewal is absent exactly when none of its memberships has one; otherwise it is one of them and no later than any other |
| People.FetchDuplicateMemberships | hooks/usePeople.ts:72-145 | a failed memberships query reports nothing; otherwise the report over the rows, with names from the people answer |
| People.ReportsOverSound | hooks/usePeople.ts:112-139 | every entry is the report of a key with more than one membership |
| People.ReportsOverComplete | hooks/usePeople.ts:112-139 | every key with more than one membership has an entry |
| People.ReportsOverDistinct | hooks/usePeople.ts:112-139 | the entries' emails are pairwise distinct |
| People.ReportsEmailsIn | hooks/usePeople.ts:112-139 | every entry's email is one of the group keys |
| People.DuplicatesExactly | hooks/usePeople.ts:109-139 | the report lists exactly the emails with more than one membership, each once, with its count, its name (absent when empty) and its tiers |
| People.TiersDistinct | hooks/usePeople.ts:115-130 | within an entry the tiers are distinct, and each is the non-empty tier of one of the group's memberships |
| Businesses.Find | data/businesses.ts:68-69 | the first business with the id, and none exactly when no business has it |
| Businesses.GetBusinessById | data/businesses.ts:68-69 | none exactly when no listed business has the id; otherwise a listed business with that id |
| Businesses.FindUnique | data/businesses.ts:68-69 | in a table with distinct ids, looking up a record's own id finds that record |
| Businesses.DirectoryIdsDistinct | data/businesses.ts:17-66 | the four business ids are pairwise distinct |
| Businesses.EachIdResolves | data/businesses.ts:17-69 | `getBusinessById` finds every listed business by its own id |
| BusinessesPage.Tabs | pages/businesses/index.tsx:9-61 | one tab per filter, in order; each tab's badge is the number of businesses that filter shows with the search cleared |
| BusinessesPage.FilteredBusinesses | pages/businesses/index.tsx:21-38 | no more businesses than the directory, each of them listed, passing the status filter and containing the lower-cased search in its company, contact or a linked event |
| BusinessesPage.FilteredIsSubsequence | pages/businesses/index.tsx:21-38 | the shown list keeps the directory's order and only drops entries |
| BusinessesPage.FilteredExactly | pages/businesses/index.tsx:21-38 | a business is shown exactly when it passes the status filter and its company, contact or a linked event contains the lower-cased search |
| BusinessesPage.AllAndEmptyShowsEverything | pages/businesses/index.tsx:24-34 | the "all" filter with no search shows every business |
| BusinessesPage.StatusFilterHolds | pages/businesses/index.tsx:24-26 | under a status filter, every shown business has that status |
| BusinessesPage.SearchIgnoresCase | pages/businesses/index.tsx:22 | searching for a text or its lower-case form shows the same list |
| BusinessesPage.BadgeCount | pages/businesses/index.tsx:55-60 | the badge of a filter is the number of businesses that filter shows with the search cleared: the whole directory for "all", those of that status otherwise |
| BusinessesPage.DirectoryBadges | pages/businesses/index.tsx:53-61 | over the shipped directory the badges read 4 in all, 2 active members, 1 past sponsor and 1 yet to support |
| BusinessesPage.BadgesOf | pages/businesses/index.tsx:53-61 | any four businesses with the directory's statuses in its order get those badges |
| RoutesPage.Tabs | pages/routes/index.tsx:12-16 | three tabs, with the badges of routes, deliverers and open routes |
| RoutesPage.FilteredRoutes | pages/routes/index.tsx:24-32 | no more routes than the list, each of them listed and, unless the search is empty, with the lower-cased search in its name, dropoff location or distributor |
| RoutesPage.FilteredDeliverers | pages/routes/index.tsx:34-41 | no more deliverers than the list, each of them listed and, unless the search is empty, with the lower-cased search in its name or status |
| RoutesPage.FilteredOpenRoutes | pages/routes/index.tsx:43-50 | no more open routes than the list, each of them listed and, unless the search is empty, with the lower-cased search in its name or dropoff location |
| RoutesPage.EmptySearchShowsAll | pages/routes/index.tsx:25 | with no search each list is shown as it is |
| RoutesPage.FilteredAreSubsequences | pages/routes/index.tsx:24-50 | each shown list keeps its order and only drops entries |
| RoutesPage.RouteShownExactly | pages/routes/index.tsx:24-32 | a route is shown exactly when the search is empty or its name, dropoff location or distributor contains the lower-cased search |
| RoutesPage.DelivererShownExactly | pages/routes/index.tsx:34-41 | a deliverer is shown exactly when the search is empty or its name or status contains it |
| RoutesPage.OpenRouteShownExactly | pages/routes/index.tsx:43-50 | an open route is shown exactly when the search is empty or its name or dropoff location contains it |
| RoutesPage.NoDistributorSearchesAsOpenRoute | pages/routes/index.tsx:30 | a route without a distributor matches only through its name or dropoff location |
| RoutesPage.OpenRouteSearchIsNarrower | pages/routes/index.tsx:24-50 | the open-route search keeps a subsequence of what the route search would keep |
| RoutesPage.BadgesBoundShownLists | pages/routes/index.tsx:65-73 | no shown list is longer than its badge |
| ValidatePassword.Signature | pages/api/auth/validate-password.ts:19-22 | the signature is lower-case hex |
| ValidatePassword.TokenParts | pages/api/auth/validate-password.ts:12-25 | a generated token splits on `:` into exactly the hex random part, the decimal timestamp and the signature of the first two |
| ValidatePassword.Handle | pages/api/auth/validate-password.ts:30-70 | every request other than POST gets 405 with `Allow: POST`; a POST with a null JSON body makes the destructuring throw so the framework answers 500; a missing, non-string or empty password gets 400; an unset password setting gets 500; a wrong password gets 401; the right one gets 200 `{success: true}` and the `dashboard-auth-token` cookie (http-only, strict, 86400 s, path `/`, secure in production); only a 200 sets a cookie |
| ValidatePassword.CookieOnlyForCorrectPassword | pages/api/auth/validate-password.ts:41-60 | a cookie is only issued for the configured password, and it is then signed with that password |
| VerifySession.VerifyToken | pages/api/auth/verify-session.ts:9-34 | false unless the token has exactly three parts; then true exactly when the third is the signature of the first two joined by `:`; a length mismatch gives false |
| VerifySession.Handle | pages/api/auth/verify-session.ts:39-66 | every request other than GET gets 405 with `Allow: GET`; otherwise 200, authenticated exactly when a non-empty cookie verifies; the cookie is cleared with an epoch expiry exactly when one was sent and failed |
| VerifySession.GeneratedTokenVerifies | pages/api/auth/verify-session.ts:9-34 | every token the login endpoint generates verifies under the same environment, however old it is |
| VerifySession.ForgedSignatureRejected | pages/api/auth/verify-session.ts:20-30 | a token whose third field is not the signature of the first two is refused |
| VerifySession.WrongShapeRejected | pages/api/auth/verify-session.ts:11-14 | a token without exactly two separators is refused |
| VerifySession.LoginThenSession | pages/api/auth/verify-session.ts:48-65 | the cookie of a successful login, sent back, authenticates the session and is not cleared |
| VerifySession.UnsetPasswordAcceptsFallbackSignature | pages/api/auth/verify-session.ts:17 | with no password configured, any token signed with the fixed fallback key verifies, although the login endpoint issues none |
| Seqs.Filter | pages/businesses/index.tsx:23 | `filter` keeps only passing elements, keeps every passing one, and is no longer than its input |
| Seqs.Dedup | pages/api/dashboard/membership-metrics.ts:224 | the distinct elements in order of first occurrence, as a JavaScript `Set` yields them |
| Seqs.FilterMember | pages/routes/index.tsx:26 | an element is kept exactly when it occurs and passes |
| Text.Split | pages/api/auth/verify-session.ts:11 | `split` on a one-character separator always gives at least one part |
| Text.LowerIdempotent | pages/businesses/index.tsx:22 | lower-casing twice changes nothing more |
| Text.TrimStartDropsLeadingSpace | hooks/usePeople.ts:94 | trimming the start drops exactly the leading white space |
| Text.TrimEndDropsTrailingSpace | hooks/usePeople.ts:94 | trimming the end drops exactly the trailing white space |
| Text.SplitJoin | pages/api/auth/verify-session.ts:11 | splitting at a separator concatenates the parts from both sides |
| Text.SplitCount | pages/api/auth/verify-session.ts:11-12 | `split` gives one more part than there are separators |
| Text.LexLessTransitive | hooks/usePeople.ts:120 | string `>` is a transitive order |
| Text.LexLessTotal | hooks/usePeople.ts:120 | two different strings are ordered one way or the other |
| Text.NatStr | pages/api/auth/validate-password.ts:14 | `Date.now().toString()` is a non-empty string of decimal digits |
| Text.NatStrInjective | pages/api/auth/validate-password.ts:14 | different numbers render differently |
| Text.Pad2Injective | pages/api/dashboard/membership-metrics.ts:54 | two-digit padding keeps the month numbers distinct |
| Text.HexEncode | pages/api/auth/validate-password.ts:13 | `toString('hex')`: two hex digits per byte |

## Left out

- Network and clients: Stripe, Supabase and `fetch` are not called. Their answers are inputs: pages with a call outcome, rows, or an error.
- Concurrency: `Promise.all` is not modelled. The three passes are independent, so their order does not matter.
- Logging: `console` output is not modelled.
- React state: `useState`, `useEffect`, `useMemo` and `useCallback` are not modelled, and neither is the `loading` flag. The hooks are modelled as the values they compute from an answer.
- Floating point: amounts are exact `real` dollars (`cents / 100`), where the source uses JavaScript doubles. So rounding in the sums and averages is not modelled.
- Revenue.Dollars: `amount_paid` is an integer that is always present. A missing amount is given as 0 cents, which is what `|| 0` makes of it. A NaN amount cannot occur.
- MetricsHandler.Handle: the 500 branch is not modelled, because nothing inside its `try` can throw once each fetch catches its own errors.
- Lifecycle.FetchMembershipMetrics: one current instant is used for every row, where the source reads the clock once per row. With the time zone fixed, the two differ only if the clock crosses a renewal instant during the loop.
- Time zones and `Intl`: dates are local civil dates, and Unix seconds are already converted to them. The `toLocaleDateString` label is written out as the en-US short form, for example "Jan 2024".
- Random bytes and HMAC-SHA256: these are parameters. The HMAC is a function returning the digest bytes, so the hex encoding is modelled but SHA-256 is not.
- Cookie serialisation: the login cookie is a structured record, not the `serialize` text. The clearing header of the session endpoint is its literal text.
- String encoding: `toLowerCase` covers ASCII letters only, and `trim` covers ASCII white space plus NBSP and BOM. `Buffer.from` is taken to map each character to one byte. String `<`, used to order the tier renewals, compares characters as Unicode code points, where JavaScript compares UTF-16 code units; the two orders differ only for characters outside the Basic Multilingual Plane.
- Ids: `toString()` ids in the people mapping are given as their text. Catalog.ProductName gives the raw id for every id outside the catalogue, where `PRODUCT_NAMES[id] || id` in JavaScript would also find an inherited `Object.prototype` member for an id such as `constructor`.
- data/routes.ts is not part of this model. The route, deliverer and open-route lists are inputs, and their fields are the ones the page reads.
- Page rendering: `formatDate`, the table and chart components, and the business detail page are presentation, so they are not modelled.
