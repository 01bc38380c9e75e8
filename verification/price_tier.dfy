/** Retail versus wholesale pricing by quantity. */
module PriceTier {
  import opened Results
  import opened Entities

  datatype Tier = Retail | Wholesale

  /** The default quantity from which wholesale pricing applies. */
  const DefaultThreshold: int := 12

  /** `selectPriceTier`. */
  function SelectPriceTier(quantity: int, threshold: int): (r: Tier)
    ensures r == Wholesale <==> quantity >= threshold
  {
    if quantity >= threshold then Wholesale else Retail
  }

  /** `selectPriceTier` with the threshold argument omitted. */
  function SelectPriceTierDefault(quantity: int): (r: Tier)
    ensures r == Wholesale <==> quantity >= 12
  {
    SelectPriceTier(quantity, DefaultThreshold)
  }

  /** Buying more never leaves the wholesale tier. */
  lemma TierMonotone(q: int, q': int, threshold: int)
    requires SelectPriceTier(q, threshold) == Wholesale && q' >= q
    ensures SelectPriceTier(q', threshold) == Wholesale
  {
  }

  /** `getPrice`: the wholesale price only in the wholesale tier and only when
      it is present and non-zero (truthy); the retail price otherwise. */
  function GetPrice(variant: Variant, tier: Tier): (r: int)
    ensures tier == Wholesale && variant.wholesalePrice.Some? && variant.wholesalePrice.value != 0
      ==> r == variant.wholesalePrice.value
    ensures !(tier == Wholesale && variant.wholesalePrice.Some? && variant.wholesalePrice.value != 0)
      ==> r == variant.retailPrice
  {
    if tier == Wholesale && variant.wholesalePrice.Some? && variant.wholesalePrice.value != 0
    then variant.wholesalePrice.value
    else variant.retailPrice
  }

  /** The price is always one of the variant's two prices, and for a quantity
      below the threshold it is the retail price. */
  lemma PriceForQuantity(variant: Variant, quantity: int, threshold: int)
    ensures var p := GetPrice(variant, SelectPriceTier(quantity, threshold));
      && (p == variant.retailPrice || variant.wholesalePrice == Some(p))
      && (quantity < threshold ==> p == variant.retailPrice)
  {
  }
}
