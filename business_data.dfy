/**
 * The business directory: the sponsor records and lookup by id.
 */
module Businesses {
  import opened Optional

  datatype SponsorshipLevel = Gold | Silver | Bronze | InKind

  datatype BusinessStatus = ActiveMember | PastSponsor | YetToSupport

  /** The status as the page's filter ids spell it. */
  function StatusId(s: BusinessStatus): string {
    match s
    case ActiveMember => "activeMember"
    case PastSponsor => "pastSponsor"
    case YetToSupport => "yetToSupport"
  }

  datatype Business = Business(
    id: string,
    companyName: string,
    contactName: string,
    email: string,
    phone: string,
    sponsorshipTags: seq<SponsorshipLevel>,
    linkedEvents: seq<string>,
    address: string,
    notes: string,
    status: BusinessStatus)

  /** The `businesses` table. */
  const Directory: seq<Business> := [
    Business("business-001", "Maplewood Market", "Sophia Nguyen", "sophia@maplewoodmarket.com", "(555) 123-4567",
             [Gold], ["Harvest Festival"], "88 Market Street, Maplewood",
             "Primary sponsor for food donations.", ActiveMember),
    Business("business-002", "Lakeside Fitness", "Marcus Stone", "marcus@lakesidefitness.com", "(555) 987-6543",
             [Silver, InKind], ["Community Fun Run"], "12 Lakeside Drive, Maplewood",
             "Provides volunteer training space.", ActiveMember),
    Business("business-003", "Corner Cafe", "Priya Patel", "priya@cornercafe.com", "(555) 246-8101",
             [Bronze], ["Volunteer Appreciation Night"], "45 Elm Avenue, Maplewood",
             "Offers discounted catering for volunteer events.", PastSponsor),
    Business("business-004", "Sunrise Printing", "Diego Martinez", "diego@sunriseprinting.com", "(555) 112-2020",
             [InKind], ["Newsletter Distribution"], "19 Industrial Way, Maplewood",
             "Handles newsletter printing each month.", YetToSupport)
  ]

  /** `bs.find(b => b.id === id)`: the first business with that id, or none when no business has it. */
  function Find(bs: seq<Business>, id: string): (r: Option<Business>)
    ensures r.None? <==> forall i :: 0 <= i < |bs| ==> bs[i].id != id
    ensures r.Some? ==> exists i :: 0 <= i < |bs| && bs[i] == r.value && bs[i].id == id
                                    && forall j :: 0 <= j < i ==> bs[j].id != id
    decreases |bs|
  {
    if |bs| == 0 then None
    else if bs[0].id == id then Some(bs[0])
    else
      var r := Find(bs[1..], id);
      assert forall i :: 1 <= i < |bs| ==> bs[i] == bs[1..][i - 1];
      if r.Some? then
        var k :| 0 <= k < |bs[1..]| && bs[1..][k] == r.value && bs[1..][k].id == id
                 && forall j :: 0 <= j < k ==> bs[1..][j].id != id;
        assert bs[k + 1] == r.value;
        r
      else r
  }

  /** `getBusinessById`: the listed business with that id, or none when no business is listed under it. */
  function GetBusinessById(id: string): (r: Option<Business>)
    ensures r.None? <==> forall i :: 0 <= i < |Directory| ==> Directory[i].id != id
    ensures r.Some? ==> r.value in Directory && r.value.id == id
  {
    Find(Directory, id)
  }

  /** The directory's ids are pairwise distinct. */
  lemma DirectoryIdsDistinct()
    ensures forall i, j :: 0 <= i < j < |Directory| ==> Directory[i].id != Directory[j].id
  {
  }

  /** So each record is found by its own id, and only by it. */
  lemma EachIdResolves()
    ensures forall i :: 0 <= i < |Directory| ==> GetBusinessById(Directory[i].id) == Some(Directory[i])
  {
    DirectoryIdsDistinct();
    forall i | 0 <= i < |Directory| ensures GetBusinessById(Directory[i].id) == Some(Directory[i]) {
      FindUnique(Directory, i);
    }
  }

  /** In a table with distinct ids, looking up a record's id finds that record. */
  lemma FindUnique(bs: seq<Business>, i: nat)
    requires i < |bs| && forall a, b :: 0 <= a < b < |bs| ==> bs[a].id != bs[b].id
    ensures Find(bs, bs[i].id) == Some(bs[i])
  {
    var r := Find(bs, bs[i].id);
    var k :| 0 <= k < |bs| && bs[k] == r.value && bs[k].id == bs[i].id && forall j :: 0 <= j < k ==> bs[j].id != bs[i].id;
    assert k == i;
  }
}
