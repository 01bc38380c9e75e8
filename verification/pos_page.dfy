/** The sales screen: the product grid, barcode scans into the cart, adding
    by click, and the empty-cart guard before checkout. `products` is the
    stored product list; the screen works on its active products. */
module PosPage {
  import opened Results
  import opened Entities
  import opened Cart
  import opened ProductSelectors
  import opened BarcodeResolver

  /** How many products the grid shows without a search. */
  const GridLimit: nat := 20

  /** The grid: the search result for a non-empty query, otherwise the first
      twenty active products. */
  function DisplayedProducts(products: seq<Product>, query: string): (r: seq<Product>)
    ensures query != "" ==> r == SearchProducts(products, query)
    ensures query == "" ==> |r| == (if |ActiveProducts(products)| < 20 then |ActiveProducts(products)| else 20)
    ensures query == "" ==> r == ActiveProducts(products)[..|r|]
  {
    if query != "" then SearchProducts(products, query)
    else
      var active := ActiveProducts(products);
      if |active| <= GridLimit then active else active[..GridLimit]
  }

  predicate HasBarcode(p: Product, barcode: string) {
    exists v | v in p.variants :: v.barcode == Some(barcode)
  }

  /** `products.find(p => p.variants.some(v => v.barcode === barcode))`, as an index. */
  function FindProduct(products: seq<Product>, barcode: string): (r: Option<nat>)
    ensures r.Some? ==> r.value < |products| && HasBarcode(products[r.value], barcode)
    ensures r.Some? ==> forall i | 0 <= i < r.value :: !HasBarcode(products[i], barcode)
    ensures r.None? <==> forall i | 0 <= i < |products| :: !HasBarcode(products[i], barcode)
  {
    if |products| == 0 then None
    else if HasBarcode(products[0], barcode) then Some(0)
    else match FindProduct(products[1..], barcode)
      case None => None
      case Some(k) => Some(k + 1)
  }

  datatype ScanOutcome = Added | NotFound

  /** The scan handler (keyboard wedge and camera alike): add the first active
      product having a variant with this barcode, with that variant; an
      unknown barcode leaves the cart unchanged. */
  function ScanBarcode(st: CartState, products: seq<Product>, barcode: string, now: int): (r: (CartState, ScanOutcome))
    ensures r.1 == NotFound <==> forall p | p in ActiveProducts(products) :: !HasBarcode(p, barcode)
    ensures r.1 == NotFound ==> r.0 == st
  {
    var active := ActiveProducts(products);
    match FindProduct(active, barcode)
    case None => (st, NotFound)
    case Some(i) =>
      match FirstVariant(barcode, active[i].variants, 0)
      case Some(j) => (AddItem(st, active[i], active[i].variants[j], now), Added)
      case None => (st, Added)
  }

  /** A product has a matching variant exactly when some position matches. */
  lemma HasBarcodeMatch(products: seq<Product>, barcode: string, i: nat)
    requires i < |products|
    ensures HasBarcode(products[i], barcode) <==> exists j :: MatchAt(barcode, products, i, j)
  {
    if HasBarcode(products[i], barcode) {
      var v :| v in products[i].variants && v.barcode == Some(barcode);
      var j :| 0 <= j < |products[i].variants| && products[i].variants[j] == v;
      assert MatchAt(barcode, products, i, j);
    }
  }

  /** The product `find` stops at the product of the resolver's first match. */
  lemma FindProductIsFirstMatch(products: seq<Product>, barcode: string)
    ensures FindProduct(products, barcode).None? <==> FirstMatch(barcode, products, 0).None?
    ensures FindProduct(products, barcode).Some? ==>
      FindProduct(products, barcode).value == FirstMatch(barcode, products, 0).value.0
  {
    var fp := FindProduct(products, barcode);
    var fm := FirstMatch(barcode, products, 0);
    if fp.Some? {
      HasBarcodeMatch(products, barcode, fp.value);
    }
    if fm.Some? {
      HasBarcodeMatch(products, barcode, fm.value.0);
    }
  }

  /** The scan handler agrees with `resolveBarcode` on the active products:
      it adds exactly the resolved pair, and reports not-found exactly when
      the resolver returns null. */
  lemma ScanAgreesWithResolver(st: CartState, products: seq<Product>, barcode: string, now: int)
    ensures var active := ActiveProducts(products);
      match ResolveBarcode(barcode, active)
      case None => ScanBarcode(st, products, barcode, now) == (st, NotFound)
      case Some(pv) => ScanBarcode(st, products, barcode, now) == (AddItem(st, pv.0, pv.1, now), Added)
  {
    FindProductIsFirstMatch(ActiveProducts(products), barcode);
  }

  /** Clicking a product card adds its first variant, if it has any. */
  function ClickProduct(st: CartState, product: Product, now: int): (r: CartState)
    ensures |product.variants| == 0 ==> r == st
    ensures |product.variants| > 0 ==> r == AddItem(st, product, product.variants[0], now)
  {
    if |product.variants| > 0 then AddItem(st, product, product.variants[0], now) else st
  }

  /** `handleCheckout`: navigation to checkout is refused for an empty cart. */
  function HandleCheckout(st: CartState): (r: Result<(), string>)
    ensures r.Ok? <==> |st.cart| > 0
    ensures r.Err? ==> r.error == "Cart is empty"
  {
    if |st.cart| == 0 then Err("Cart is empty") else Ok(())
  }
}
