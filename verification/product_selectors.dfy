/** The product list hook: active products and the search predicate.
    Lower-casing is ASCII only. */
module ProductSelectors {
  import opened Results
  import opened Entities
  import Text
  import Seqs

  /** `products.filter(p => p.active)`. */
  function ActiveProducts(products: seq<Product>): (r: seq<Product>)
    ensures forall i | 0 <= i < |r| :: r[i].active && r[i] in products
    ensures forall i | 0 <= i < |products| && products[i].active :: products[i] in r
    ensures Seqs.IsSubsequence(r, products)
    ensures forall p :: multiset(r)[p] == if p.active then multiset(products)[p] else 0
  {
    Seqs.FilterIsSubsequence(products, (p: Product) => p.active);
    FilterCount(products, (p: Product) => p.active);
    Seqs.Filter(products, (p: Product) => p.active)
  }

  /** A variant matches the lower-cased query through its SKU, or through its
      barcode when it has one. */
  predicate VariantMatches(v: Variant, lowerQuery: string) {
    || Text.Contains(Text.Lower(v.sku), lowerQuery)
    || (v.barcode.Some? && Text.Contains(Text.Lower(v.barcode.value), lowerQuery))
  }

  /** The `searchProducts` predicate. */
  predicate ProductMatches(p: Product, query: string) {
    var lowerQuery := Text.Lower(query);
    || Text.Contains(Text.Lower(p.name), lowerQuery)
    || exists v | v in p.variants :: VariantMatches(v, lowerQuery)
  }

  /** `searchProducts(query)`: the matching active products, in order. */
  function SearchProducts(products: seq<Product>, query: string): (r: seq<Product>)
    ensures forall i | 0 <= i < |r| :: r[i].active && ProductMatches(r[i], query) && r[i] in products
    ensures forall i | 0 <= i < |products| && products[i].active && ProductMatches(products[i], query) :: products[i] in r
    ensures Seqs.IsSubsequence(r, ActiveProducts(products))
    ensures forall p :: multiset(r)[p] == (if p.active && ProductMatches(p, query) then multiset(products)[p] else 0)
  {
    var active := ActiveProducts(products);
    Seqs.FilterIsSubsequence(active, (p: Product) => ProductMatches(p, query));
    FilterCount(active, (p: Product) => ProductMatches(p, query));
    Seqs.Filter(active, (p: Product) => ProductMatches(p, query))
  }

  /** The multiplicity clause of `Seqs.Filter`, for every product value. */
  lemma FilterCount(s: seq<Product>, keep: Product -> bool)
    ensures forall p :: multiset(Seqs.Filter(s, keep))[p] == if keep(p) then multiset(s)[p] else 0
  {
    var r := Seqs.Filter(s, keep);
    Seqs.FilterMultiplicity(s, keep);
    forall p ensures multiset(r)[p] == if keep(p) then multiset(s)[p] else 0 {
      if p in s {
        var i :| 0 <= i < |s| && s[i] == p;
      }
    }
  }

  /** The empty query matches every active product. */
  lemma EmptyQueryMatchesAll(products: seq<Product>)
    ensures SearchProducts(products, "") == ActiveProducts(products)
  {
    var active := ActiveProducts(products);
    forall i | 0 <= i < |active| ensures ProductMatches(active[i], "") {
      Text.ContainsEmpty(Text.Lower(active[i].name));
    }
    Seqs.FilterKeepsAll(active, (p: Product) => ProductMatches(p, ""));
  }

  /** A variant without a barcode matches only through its SKU. */
  lemma NoBarcodeMatchesBySku(v: Variant, lowerQuery: string)
    requires v.barcode.None?
    ensures VariantMatches(v, lowerQuery) <==> Text.Contains(Text.Lower(v.sku), lowerQuery)
  {
  }
}
