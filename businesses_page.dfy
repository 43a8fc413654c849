/**
 * The businesses page: the status filter tabs with their badge counts,
 * and the search that narrows the directory.
 */
module BusinessesPage {
  import opened Seqs
  import opened Text
  import opened Businesses

  /** A filter tab: its id, its label and its badge count. */
  datatype Tab = Tab(id: string, title: string, badgeCount: nat)

  /** The filter ids and labels, in tab order. */
  const BusinessFilters: seq<(string, string)> := [
    ("all", "All Businesses"),
    ("activeMember", "Active Members"),
    ("pastSponsor", "Past Sponsors"),
    ("yetToSupport", "Yet to Support")
  ]

  /** The business passes the active filter. */
  predicate MatchesFilter(activeFilter: string, b: Business) {
    activeFilter == "all" || StatusId(b.status) == activeFilter
  }

  /** The business matches the lower-cased search: company, contact or a linked event contains it. */
  predicate MatchesSearch(normalized: string, b: Business) {
    || normalized == ""
    || Contains(Lower(b.companyName), normalized)
    || Contains(Lower(b.contactName), normalized)
    || exists i :: 0 <= i < |b.linkedEvents| && Contains(Lower(b.linkedEvents[i]), normalized)
  }

  /** The test `filteredBusinesses` applies to each business. */
  function Keeps(activeFilter: string, searchTerm: string): Business -> bool {
    (b: Business) => MatchesFilter(activeFilter, b) && MatchesSearch(Lower(searchTerm), b)
  }

  /** `filteredBusinesses`: every business it shows passes the status filter and the lower-cased search. */
  function FilteredBusinesses(bs: seq<Business>, activeFilter: string, searchTerm: string): (shown: seq<Business>)
    ensures |shown| <= |bs|
    ensures forall i :: 0 <= i < |shown| ==>
      shown[i] in bs && MatchesFilter(activeFilter, shown[i]) && MatchesSearch(Lower(searchTerm), shown[i])
  {
    Filter(bs, Keeps(activeFilter, searchTerm))
  }

  /** The test a status badge counts by. */
  function HasStatus(filterId: string): Business -> bool {
    (b: Business) => StatusId(b.status) == filterId
  }

  /** The badge of a filter tab: every business for "all", else those of that status; so what the tab shows with the search cleared. */
  function BadgeCount(bs: seq<Business>, filterId: string): (n: nat)
    ensures n == |FilteredBusinesses(bs, filterId, "")|
  {
    if filterId == "all" then
      AllAndEmptyShowsEverything(bs);
      |bs|
    else
      FilterSame(bs, HasStatus(filterId), Keeps(filterId, ""));
      |Filter(bs, HasStatus(filterId))|
  }

  /** The tabs as shown: every filter with its label and badge. */
  function Tabs(bs: seq<Business>): (tabs: seq<Tab>)
    ensures |tabs| == |BusinessFilters|
    ensures forall i :: 0 <= i < |tabs| ==>
      tabs[i].id == BusinessFilters[i].0 && tabs[i].badgeCount == |FilteredBusinesses(bs, BusinessFilters[i].0, "")|
  {
    seq(|BusinessFilters|, i requires 0 <= i < |BusinessFilters| =>
      Tab(BusinessFilters[i].0, BusinessFilters[i].1, BadgeCount(bs, BusinessFilters[i].0)))
  }

  // ---------------------------------------------------------------------
  // Properties

  /** The shown list keeps the directory's order and drops only. */
  lemma FilteredIsSubsequence(bs: seq<Business>, activeFilter: string, searchTerm: string)
    ensures IsSubseq(FilteredBusinesses(bs, activeFilter, searchTerm), bs)
  {
    FilterIsSubseq(bs, Keeps(activeFilter, searchTerm));
  }

  /** A business is shown exactly when it passes both the filter and the search. */
  lemma FilteredExactly(bs: seq<Business>, activeFilter: string, searchTerm: string, b: Business)
    ensures b in FilteredBusinesses(bs, activeFilter, searchTerm) <==>
      b in bs && MatchesFilter(activeFilter, b) && MatchesSearch(Lower(searchTerm), b)
  {
    var r := FilteredBusinesses(bs, activeFilter, searchTerm);
    if b in r {
      var i :| 0 <= i < |r| && r[i] == b;
      assert Keeps(activeFilter, searchTerm)(r[i]);
    }
    if b in bs && MatchesFilter(activeFilter, b) && MatchesSearch(Lower(searchTerm), b) {
      var i :| 0 <= i < |bs| && bs[i] == b;
      assert Keeps(activeFilter, searchTerm)(bs[i]);
    }
  }

  /** With "all" and no search every business is shown. */
  lemma AllAndEmptyShowsEverything(bs: seq<Business>)
    ensures FilteredBusinesses(bs, "all", "") == bs
  {
    FilterAllPass(bs, Keeps("all", ""));
  }

  /** With a status filter every shown business has that status. */
  lemma StatusFilterHolds(bs: seq<Business>, activeFilter: string, searchTerm: string)
    requires activeFilter != "all"
    ensures forall i :: 0 <= i < |FilteredBusinesses(bs, activeFilter, searchTerm)| ==>
      StatusId(FilteredBusinesses(bs, activeFilter, searchTerm)[i].status) == activeFilter
  {
  }

  /** The search ignores case: searching for a text or its lower-case form shows the same list. */
  lemma SearchIgnoresCase(bs: seq<Business>, activeFilter: string, searchTerm: string)
    ensures FilteredBusinesses(bs, activeFilter, Lower(searchTerm)) == FilteredBusinesses(bs, activeFilter, searchTerm)
  {
    LowerIdempotent(searchTerm);
    assert Keeps(activeFilter, Lower(searchTerm)) == Keeps(activeFilter, searchTerm);
  }

  /** The badges over the shipped directory: 4 in all, 2 active members, 1 past sponsor, 1 yet to support. */
  lemma DirectoryBadges()
    ensures BadgeCount(Directory, "all") == 4 && BadgeCount(Directory, "activeMember") == 2
    ensures BadgeCount(Directory, "pastSponsor") == 1 && BadgeCount(Directory, "yetToSupport") == 1
  {
    BadgesOf(Directory);
  }

  /** The badges of any four businesses with the directory's statuses, in its order. */
  lemma BadgesOf(bs: seq<Business>)
    requires |bs| == 4
    requires bs[0].status == ActiveMember && bs[1].status == ActiveMember
    requires bs[2].status == PastSponsor && bs[3].status == YetToSupport
    ensures BadgeCount(bs, "all") == 4 && BadgeCount(bs, "activeMember") == 2
    ensures BadgeCount(bs, "pastSponsor") == 1 && BadgeCount(bs, "yetToSupport") == 1
  {
    FilterFour(bs, HasStatus("activeMember"));
    FilterFour(bs, HasStatus("pastSponsor"));
    FilterFour(bs, HasStatus("yetToSupport"));
  }
}
