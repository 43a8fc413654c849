/**
 * The fixed product catalogue of the membership-metrics endpoint: which
 * Stripe products are memberships, and their display names.
 */
module Catalog {
  import opened Optional
  import opened Text

  /** `MEMBERSHIP_PRODUCT_IDS`. */
  const MembershipProductIds: seq<string> := [
    "prod_NvpQdpWqm1BKPI",
    "6rrpathkcct38db16rt3cr9jc4tp8ctr6xk38r9d6rrpathq61hk8c1p65gp8r9r68tp8rhrctgk6r8",
    "6rrpathkccu68dtr64tp6cv1cmt62cb474u68e9d6rrpathq61hk8c1p65gp8r9r68tp8rhrctgk6r8",
    "6rrpathkccwkgr9q6guk6chh6cvkgd1kcmr3jd1d6rrpathq61hk8c1p65gp8r9r68tp8rhrctgk6r8",
    "prod_NvUCgt8uiPmLkZ"
  ]

  /** `PRODUCT_NAMES`. */
  const ProductNames: map<string, string> := map[
    "prod_NvpQdpWqm1BKPI" := "Individual (non-renewal)",
    "prod_NvUCgt8uiPmLkZ" := "Household (non-renewal)",
    "6rrpathkccwkgr9q6guk6chh6cvkgd1kcmr3jd1d6rrpathq61hk8c1p65gp8r9r68tp8rhrctgk6r8" := "Senior/Student",
    "6rrpathkcct38db16rt3cr9jc4tp8ctr6xk38r9d6rrpathq61hk8c1p65gp8r9r68tp8rhrctgk6r8" := "Household",
    "6rrpathkccu68dtr64tp6cv1cmt62cb474u68e9d6rrpathq61hk8c1p65gp8r9r68tp8rhrctgk6r8" := "Individual"
  ]

  /** `isMembershipProduct`: a present, non-empty id on the allow-list. */
  function IsMembershipProduct(productId: Option<string>): (r: bool)
    ensures r <==> exists i :: 0 <= i < |MembershipProductIds| && productId == Some(MembershipProductIds[i])
    ensures !Truthy(productId) ==> !r
  {
    if !Truthy(productId) then false
    else productId.value in MembershipProductIds
  }

  /** `getProductName`: the catalogue name, or the raw id when there is none. */
  function ProductName(productId: string): (name: string)
    ensures productId in ProductNames ==> name == ProductNames[productId]
    ensures productId !in ProductNames ==> name == productId
  {
    if productId in ProductNames && ProductNames[productId] != "" then ProductNames[productId]
    else productId
  }

  /** Every membership product has a catalogue name, and the catalogue names nothing else. */
  lemma CatalogCoversMemberships()
    ensures forall i :: 0 <= i < |MembershipProductIds| ==> MembershipProductIds[i] in ProductNames
    ensures forall p :: p in ProductNames ==> p in MembershipProductIds
    ensures |MembershipProductIds| == 5
  {
  }
}
