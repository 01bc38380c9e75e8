/** The inventory page: the low-stock filter and the manual stock adjustment. */
module Inventory {
  import opened Results
  import opened Entities
  import opened OfflineStore
  import Seqs
  import PageWrites

  /** The hard-coded low-stock threshold of the page. */
  const LowStockThreshold := 10

  /** Products whose stock is below the threshold, in list order. */
  function LowStock(products: seq<Product>): (r: seq<Product>)
    ensures Seqs.IsSubsequence(r, products)
    ensures forall p | p in products :: p in r <==> p.stock < LowStockThreshold
    ensures forall p :: multiset(r)[p] == if p.stock < LowStockThreshold then multiset(products)[p] else 0
  {
    Seqs.FilterIsSubsequence(products, (p: Product) => p.stock < LowStockThreshold);
    Seqs.FilterMultiplicity(products, (p: Product) => p.stock < LowStockThreshold);
    Seqs.Filter(products, (p: Product) => p.stock < LowStockThreshold)
  }

  /** The selected product's stock moves by the signed change, without any
      clamp; every other product is unchanged. */
  function AdjustStock(products: seq<Product>, productId: int, change: int): (r: seq<Product>)
    ensures |r| == |products|
    ensures forall i | 0 <= i < |r| :: r[i].id == products[i].id
    ensures forall i | 0 <= i < |r| && products[i].id != productId :: r[i] == products[i]
    ensures forall i | 0 <= i < |r| && products[i].id == productId ::
      r[i] == products[i].(stock := products[i].stock + change)
  {
    seq(|products|, i requires 0 <= i < |products| =>
      if products[i].id == productId then products[i].(stock := products[i].stock + change) else products[i])
  }

  /** Adjusting by `c` and then by `-c` restores the list. */
  lemma AdjustStockInverse(products: seq<Product>, productId: int, change: int)
    ensures AdjustStock(AdjustStock(products, productId, change), productId, -change) == products
  {
    var r := AdjustStock(AdjustStock(products, productId, change), productId, -change);
    assert forall i | 0 <= i < |r| :: r[i] == products[i];
  }

  /** `handleAdjustment`. Without a selection nothing happens. Otherwise the
      list is saved, then the 'stockAdjustment' item is queued; reading the
      first variant's id throws when the product has no variant, after the
      save has happened. */
  function Adjust(products: seq<Product>, selected: Option<Product>, change: int, reason: string, now: int): (plan: PageWrites.Plan)
    ensures selected.None? ==> plan.writes == [] && plan.completes
    ensures selected.Some? ==> |plan.writes| >= 1 && plan.writes[0] == Save("products", Products(AdjustStock(products, selected.value.id, change)))
    ensures selected.Some? && |selected.value.variants| == 0 ==> |plan.writes| == 1 && !plan.completes
    ensures selected.Some? && |selected.value.variants| > 0 ==>
      && |plan.writes| == 2 && plan.completes
      && plan.writes[1] == Enqueue("stockAdjustment", "create",
           StockAdjustmentData(selected.value.id, selected.value.variants[0].id, change, reason, now))
  {
    match selected
    case None => PageWrites.NoWrites
    case Some(p) =>
      var save := Save("products", Products(AdjustStock(products, p.id, change)));
      if |p.variants| == 0 then PageWrites.Plan([save], false)
      else PageWrites.Plan([save, Enqueue("stockAdjustment", "create",
        StockAdjustmentData(p.id, p.variants[0].id, change, reason, now))], true)
  }
}
