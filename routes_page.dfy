/**
 * The routes page: three tabs (routes, deliverers, open routes), each
 * with a badge counting its whole list, and one search narrowing them all.
 * The lists themselves are inputs: the route data file is not part of
 * this model, so the record fields are the ones the page reads.
 */
module RoutesPage {
  import opened Optional
  import opened Seqs
  import opened Text

  datatype Route = Route(id: string, name: string, dropoffLocation: string, distributor: Option<string>, status: string)

  datatype Deliverer = Deliverer(id: string, name: string, status: string)

  datatype Tab = Tab(id: string, title: string, badgeCount: nat)

  /** The tab ids and labels, in order. */
  const RouteTabs: seq<(string, string)> := [
    ("byRoute", "By Route"),
    ("byDeliverer", "By Deliverer"),
    ("openRoutes", "Open Routes")
  ]

  /** `route.distributor?.toLowerCase().includes(q)`: false when there is no distributor. */
  predicate DistributorMatches(r: Route, q: string) {
    r.distributor.Some? && Contains(Lower(r.distributor.value), q)
  }

  predicate RouteMatches(q: string, r: Route) {
    Contains(Lower(r.name), q) || Contains(Lower(r.dropoffLocation), q) || DistributorMatches(r, q)
  }

  predicate DelivererMatches(q: string, d: Deliverer) {
    Contains(Lower(d.name), q) || Contains(Lower(d.status), q)
  }

  predicate OpenRouteMatches(q: string, r: Route) {
    Contains(Lower(r.name), q) || Contains(Lower(r.dropoffLocation), q)
  }

  /** `filteredRoutes`: the list itself when the search is empty, else the matching routes. */
  function FilteredRoutes(routes: seq<Route>, searchTerm: string): (shown: seq<Route>)
    ensures |shown| <= |routes|
    ensures forall i :: 0 <= i < |shown| ==>
      shown[i] in routes && (Lower(searchTerm) == "" || RouteMatches(Lower(searchTerm), shown[i]))
  {
    var q := Lower(searchTerm);
    if q == "" then routes else Filter(routes, (r: Route) => RouteMatches(q, r))
  }

  /** `filteredDeliverers`. */
  function FilteredDeliverers(deliverers: seq<Deliverer>, searchTerm: string): (shown: seq<Deliverer>)
    ensures |shown| <= |deliverers|
    ensures forall i :: 0 <= i < |shown| ==>
      shown[i] in deliverers && (Lower(searchTerm) == "" || DelivererMatches(Lower(searchTerm), shown[i]))
  {
    var q := Lower(searchTerm);
    if q == "" then deliverers else Filter(deliverers, (d: Deliverer) => DelivererMatches(q, d))
  }

  /** `filteredOpenRoutes`: like routes, but the distributor is not searched. */
  function FilteredOpenRoutes(openRoutes: seq<Route>, searchTerm: string): (shown: seq<Route>)
    ensures |shown| <= |openRoutes|
    ensures forall i :: 0 <= i < |shown| ==>
      shown[i] in openRoutes && (Lower(searchTerm) == "" || OpenRouteMatches(Lower(searchTerm), shown[i]))
  {
    var q := Lower(searchTerm);
    if q == "" then openRoutes else Filter(openRoutes, (r: Route) => OpenRouteMatches(q, r))
  }

  /** The badge of a tab: the length of its unfiltered list; any id but the first two counts open routes. */
  function BadgeCount(routes: seq<Route>, deliverers: seq<Deliverer>, openRoutes: seq<Route>, tabId: string): (n: nat)
    ensures tabId == "byRoute" ==> n == |routes|
    ensures tabId == "byDeliverer" ==> n == |deliverers|
    ensures tabId != "byRoute" && tabId != "byDeliverer" ==> n == |openRoutes|
  {
    if tabId == "byRoute" then |routes| else if tabId == "byDeliverer" then |deliverers| else |openRoutes|
  }

  function Tabs(routes: seq<Route>, deliverers: seq<Deliverer>, openRoutes: seq<Route>): (tabs: seq<Tab>)
    ensures |tabs| == |RouteTabs|
    ensures tabs[0].badgeCount == |routes| && tabs[1].badgeCount == |deliverers| && tabs[2].badgeCount == |openRoutes|
  {
    seq(|RouteTabs|, i requires 0 <= i < |RouteTabs| =>
      Tab(RouteTabs[i].0, RouteTabs[i].1, BadgeCount(routes, deliverers, openRoutes, RouteTabs[i].0)))
  }

  // ---------------------------------------------------------------------
  // Properties

  /** Lower-casing leaves the empty text empty and nothing else. */
  lemma LowerEmpty(s: string)
    ensures Lower(s) == "" <==> s == ""
  {
  }

  /** With no search every list is shown as it is. */
  lemma EmptySearchShowsAll(routes: seq<Route>, deliverers: seq<Deliverer>, openRoutes: seq<Route>)
    ensures FilteredRoutes(routes, "") == routes
    ensures FilteredDeliverers(deliverers, "") == deliverers
    ensures FilteredOpenRoutes(openRoutes, "") == openRoutes
  {
  }

  /** Each shown list keeps the order of its source list and only drops entries. */
  lemma FilteredAreSubsequences(routes: seq<Route>, deliverers: seq<Deliverer>, openRoutes: seq<Route>, searchTerm: string)
    ensures IsSubseq(FilteredRoutes(routes, searchTerm), routes)
    ensures IsSubseq(FilteredDeliverers(deliverers, searchTerm), deliverers)
    ensures IsSubseq(FilteredOpenRoutes(openRoutes, searchTerm), openRoutes)
  {
    var q := Lower(searchTerm);
    FilterIsSubseq(routes, (r: Route) => RouteMatches(q, r));
    FilterIsSubseq(deliverers, (d: Deliverer) => DelivererMatches(q, d));
    FilterIsSubseq(openRoutes, (r: Route) => OpenRouteMatches(q, r));
    IsSubseqRefl(routes);
    IsSubseqRefl(deliverers);
    IsSubseqRefl(openRoutes);
  }

  /** A route is shown exactly when it is listed and, for a non-empty search, its name, dropoff or distributor contains it. */
  lemma RouteShownExactly(routes: seq<Route>, searchTerm: string, r: Route)
    ensures r in FilteredRoutes(routes, searchTerm) <==>
      r in routes && (searchTerm == "" || RouteMatches(Lower(searchTerm), r))
  {
    LowerEmpty(searchTerm);
    var q := Lower(searchTerm);
    if q != "" {
      FilterMember(routes, (r: Route) => RouteMatches(q, r), r);
    }
  }

  /** A deliverer is shown exactly when it is listed and, for a non-empty search, its name or status contains it. */
  lemma DelivererShownExactly(deliverers: seq<Deliverer>, searchTerm: string, d: Deliverer)
    ensures d in FilteredDeliverers(deliverers, searchTerm) <==>
      d in deliverers && (searchTerm == "" || DelivererMatches(Lower(searchTerm), d))
  {
    LowerEmpty(searchTerm);
    var q := Lower(searchTerm);
    if q != "" {
      FilterMember(deliverers, (d: Deliverer) => DelivererMatches(q, d), d);
    }
  }

  /** An open route is shown exactly when it is listed and, for a non-empty search, its name or dropoff contains it. */
  lemma OpenRouteShownExactly(openRoutes: seq<Route>, searchTerm: string, r: Route)
    ensures r in FilteredOpenRoutes(openRoutes, searchTerm) <==>
      r in openRoutes && (searchTerm == "" || OpenRouteMatches(Lower(searchTerm), r))
  {
    LowerEmpty(searchTerm);
    var q := Lower(searchTerm);
    if q != "" {
      FilterMember(openRoutes, (r: Route) => OpenRouteMatches(q, r), r);
    }
  }

  /** A route without a distributor is found only through its name or dropoff, as on the open-routes tab. */
  lemma NoDistributorSearchesAsOpenRoute(q: string, r: Route)
    requires r.distributor.None?
    ensures RouteMatches(q, r) <==> OpenRouteMatches(q, r)
  {
  }

  /** Every open route shown under a search would also be shown were it on the routes tab. */
  lemma OpenRouteSearchIsNarrower(openRoutes: seq<Route>, searchTerm: string)
    ensures IsSubseq(FilteredOpenRoutes(openRoutes, searchTerm), FilteredRoutes(openRoutes, searchTerm))
  {
    var q := Lower(searchTerm);
    if q == "" {
      IsSubseqRefl(openRoutes);
    } else {
      FilterNarrower(openRoutes, (r: Route) => OpenRouteMatches(q, r), (r: Route) => RouteMatches(q, r));
    }
  }

  /** The badges ignore the search: they count the unfiltered lists, so no shown list outnumbers its badge. */
  lemma BadgesBoundShownLists(routes: seq<Route>, deliverers: seq<Deliverer>, openRoutes: seq<Route>, searchTerm: string)
    ensures |FilteredRoutes(routes, searchTerm)| <= BadgeCount(routes, deliverers, openRoutes, "byRoute")
    ensures |FilteredDeliverers(deliverers, searchTerm)| <= BadgeCount(routes, deliverers, openRoutes, "byDeliverer")
    ensures |FilteredOpenRoutes(openRoutes, searchTerm)| <= BadgeCount(routes, deliverers, openRoutes, "openRoutes")
  {
    FilteredAreSubsequences(routes, deliverers, openRoutes, searchTerm);
    SubseqShorter(FilteredRoutes(routes, searchTerm), routes);
    SubseqShorter(FilteredDeliverers(deliverers, searchTerm), deliverers);
    SubseqShorter(FilteredOpenRoutes(openRoutes, searchTerm), openRoutes);
  }
}
