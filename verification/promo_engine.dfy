/** Promotion eligibility and discount amount. The clock is a parameter. */
module PromoEngine {
  import opened Results
  import opened Entities

  /** `{ eligible, reason? }`. */
  datatype Eligibility = Eligibility(eligible: bool, reason: Option<string>)

  /** A number field is truthy when present and non-zero. */
  predicate Truthy(x: Option<int>) {
    x.Some? && x.value != 0
  }

  /** Reference: every check that fails, in the order they are written. */
  function Failures(promo: Promotion, cartTotal: int, now: int): seq<string> {
    (if !promo.active then ["Promotion is not active"] else [])
    + (if Truthy(promo.minPurchaseAmount) && cartTotal < promo.minPurchaseAmount.value
       then ["Minimum purchase amount not met"] else [])
    + (if Truthy(promo.validFrom) && now < promo.validFrom.value then ["Promotion has not started yet"] else [])
    + (if Truthy(promo.validTo) && now > promo.validTo.value then ["Promotion has expired"] else [])
  }

  /** `checkPromoEligibility`: the first failing check gives the reason;
      eligible iff none fails. Both date bounds are inclusive. */
  function CheckPromoEligibility(promo: Promotion, cartTotal: int, now: int): (r: Eligibility)
    ensures r.eligible <==> Failures(promo, cartTotal, now) == []
    ensures !r.eligible ==> r.reason == Some(Failures(promo, cartTotal, now)[0])
    ensures r.eligible ==> r.reason.None?
    ensures !promo.active ==> r == Eligibility(false, Some("Promotion is not active"))
  {
    if !promo.active then Eligibility(false, Some("Promotion is not active"))
    else if Truthy(promo.minPurchaseAmount) && cartTotal < promo.minPurchaseAmount.value then
      Eligibility(false, Some("Minimum purchase amount not met"))
    else if Truthy(promo.validFrom) && now < promo.validFrom.value then
      Eligibility(false, Some("Promotion has not started yet"))
    else if Truthy(promo.validTo) && now > promo.validTo.value then
      Eligibility(false, Some("Promotion has expired"))
    else Eligibility(true, None)
  }

  /** An active promotion with all bounds set is eligible exactly inside its
      window (ends included) when the cart reaches the minimum. */
  lemma EligibleWindow(promo: Promotion, cartTotal: int, now: int)
    requires promo.active && Truthy(promo.minPurchaseAmount) && Truthy(promo.validFrom) && Truthy(promo.validTo)
    ensures CheckPromoEligibility(promo, cartTotal, now).eligible <==>
      cartTotal >= promo.minPurchaseAmount.value && promo.validFrom.value <= now <= promo.validTo.value
  {
  }

  /** `applyPromotion`. The percentage branch is computed on exact reals. */
  function ApplyPromotion(promo: Promotion, cartTotal: int): (r: real)
    ensures promo.promoType == "fixed" ==> r == (if promo.value < cartTotal then promo.value else cartTotal) as real
    ensures promo.promoType == "fixed" ==> r <= cartTotal as real
    ensures promo.promoType == "percentage" ==> r * 100.0 == (cartTotal * promo.value) as real
    ensures promo.promoType != "fixed" && promo.promoType != "percentage" ==> r == 0.0
  {
    if promo.promoType == "percentage" then (cartTotal as real) * ((promo.value as real) / 100.0)
    else if promo.promoType == "fixed" then (if promo.value < cartTotal then promo.value else cartTotal) as real
    else 0.0
  }
}
