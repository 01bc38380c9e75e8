/** Barcode lookup over a product list. */
module BarcodeResolver {
  import opened Results
  import opened Entities

  /** Variant `j` of product `i` carries exactly this barcode (no trimming or case folding). */
  predicate MatchAt(barcode: string, products: seq<Product>, i: int, j: int) {
    && 0 <= i < |products| && 0 <= j < |products[i].variants|
    && products[i].variants[j].barcode == Some(barcode)
  }

  /** The first variant of `variants` (from `from` on) with this barcode. */
  function FirstVariant(barcode: string, variants: seq<Variant>, from: nat): (r: Option<nat>)
    requires from <= |variants|
    ensures r.Some? ==> from <= r.value < |variants| && variants[r.value].barcode == Some(barcode)
    ensures r.Some? ==> forall j | from <= j < r.value :: variants[j].barcode != Some(barcode)
    ensures r.None? ==> forall j | from <= j < |variants| :: variants[j].barcode != Some(barcode)
    decreases |variants| - from
  {
    if from == |variants| then None
    else if variants[from].barcode == Some(barcode) then Some(from)
    else FirstVariant(barcode, variants, from + 1)
  }

  /** The nested loops of `resolveBarcode`: position of the first match in
      product order, then variant order. */
  function FirstMatch(barcode: string, products: seq<Product>, from: nat): (r: Option<(nat, nat)>)
    requires from <= |products|
    ensures r.Some? ==> from <= r.value.0 && MatchAt(barcode, products, r.value.0, r.value.1)
    ensures r.Some? ==> forall i, j | from <= i < r.value.0 :: !MatchAt(barcode, products, i, j)
    ensures r.Some? ==> forall j | 0 <= j < r.value.1 :: !MatchAt(barcode, products, r.value.0, j)
    ensures r.None? <==> forall i, j | from <= i :: !MatchAt(barcode, products, i, j)
    ensures r.Some? ==> FirstVariant(barcode, products[r.value.0].variants, 0) == Some(r.value.1)
    decreases |products| - from
  {
    if from == |products| then None
    else match FirstVariant(barcode, products[from].variants, 0)
      case Some(j) =>
        assert MatchAt(barcode, products, from, j);
        Some((from, j))
      case None => FirstMatch(barcode, products, from + 1)
  }

  /** `resolveBarcode`: the first product/variant pair whose variant has the
      barcode, or `None` (null) when there is none. */
  function ResolveBarcode(barcode: string, products: seq<Product>): (r: Option<(Product, Variant)>)
    ensures r.None? <==> forall i, j :: !MatchAt(barcode, products, i, j)
    ensures r.Some? ==> r.value.1 in r.value.0.variants && r.value.1.barcode == Some(barcode) && r.value.0 in products
    ensures r.Some? ==> exists i, j ::
      && MatchAt(barcode, products, i, j)
      && r.value == (products[i], products[i].variants[j])
      && (forall i', j' | 0 <= i' < i :: !MatchAt(barcode, products, i', j'))
      && (forall j' | 0 <= j' < j :: !MatchAt(barcode, products, i, j'))
  {
    match FirstMatch(barcode, products, 0)
    case None => None
    case Some(m) =>
      var (i, j) := m;
      Some((products[i], products[i].variants[j]))
  }
}
