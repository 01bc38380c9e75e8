/** The read rule of the master-data query hook: each domain key is read on its
    own, and an absent value reads as an empty list. Query caching and
    staleness are not modelled; a read is a pure function of the store. */
module MasterDataCache {
  import opened Results
  import opened Entities
  import opened OfflineStore

  /** The four master-data domains and their store keys. */
  datatype Domain = CategoriesKey | ProductsKey | PaymentMethodsKey | PromotionsKey

  function KeyName(d: Domain): string {
    match d
    case CategoriesKey => "categories"
    case ProductsKey => "products"
    case PaymentMethodsKey => "paymentMethods"
    case PromotionsKey => "promotions"
  }

  /** The cache key of the query for a domain. */
  function QueryKey(d: Domain): seq<string> {
    ["masterData", KeyName(d)]
  }

  /** Distinct domains use distinct store keys and distinct cache entries. */
  lemma KeysDistinct(d1: Domain, d2: Domain)
    ensures d1 != d2 ==> KeyName(d1) != KeyName(d2) && QueryKey(d1) != QueryKey(d2)
  {
    if d1 != d2 {
      assert KeyName(d1)[0] != KeyName(d2)[0] || |KeyName(d1)| != |KeyName(d2)|;
    }
  }

  /** The empty list of the domain's element type. */
  function EmptyOf(d: Domain): Blob {
    match d
    case CategoriesKey => Categories([])
    case ProductsKey => Products([])
    case PaymentMethodsKey => PaymentMethods([])
    case PromotionsKey => Promotions([])
  }

  /** The blob holds the domain's element type. */
  predicate HasKind(d: Domain, b: Blob) {
    match d
    case CategoriesKey => b.Categories?
    case ProductsKey => b.Products?
    case PaymentMethodsKey => b.PaymentMethods?
    case PromotionsKey => b.Promotions?
  }

  /** Every domain key holds a list of its own element type. */
  predicate WellTyped(s: Store) {
    forall d: Domain | KeyName(d) in s.masterData :: HasKind(d, s.masterData[KeyName(d)])
  }

  /** The query function: the stored list, or an empty list when nothing was
      stored (a stored list, even an empty one, is truthy and kept). */
  function UseMasterData(s: Store, d: Domain): (r: Blob)
    ensures WellTyped(s) ==> HasKind(d, r)
    ensures GetMasterData(s, KeyName(d)).Some? ==> r == GetMasterData(s, KeyName(d)).value
    ensures GetMasterData(s, KeyName(d)).None? ==> r == EmptyOf(d)
  {
    match GetMasterData(s, KeyName(d))
    case Some(b) => b
    case None => EmptyOf(d)
  }

  /** Reading a domain that was just saved yields exactly the saved list. */
  lemma ReadAfterSave(s: Store, d: Domain, b: Blob)
    ensures UseMasterData(SaveMasterData(s, KeyName(d), b), d) == b
  {
  }

  /** Saving one domain leaves the reading of every other domain unchanged. */
  lemma ReadIndependent(s: Store, d: Domain, other: Domain, b: Blob)
    requires other != d
    ensures UseMasterData(SaveMasterData(s, KeyName(d), b), other) == UseMasterData(s, other)
  {
    KeysDistinct(d, other);
  }

  /** A fresh database reads as empty lists everywhere. */
  lemma ReadEmptyStore(d: Domain)
    ensures UseMasterData(EmptyStore(), d) == EmptyOf(d)
  {
  }

  /** Saving a list of the right element type keeps the store well typed. */
  lemma {:induction false} SavePreservesWellTyped(s: Store, d: Domain, b: Blob)
    requires WellTyped(s) && HasKind(d, b)
    ensures WellTyped(SaveMasterData(s, KeyName(d), b))
  {
    var s' := SaveMasterData(s, KeyName(d), b);
    forall d2: Domain | KeyName(d2) in s'.masterData
      ensures HasKind(d2, s'.masterData[KeyName(d2)])
    {
      KeysDistinct(d, d2);
    }
  }

  function ListCategories(s: Store): seq<Category> {
    match UseMasterData(s, CategoriesKey) case Categories(c) => c case _ => []
  }

  function ListProducts(s: Store): seq<Product> {
    match UseMasterData(s, ProductsKey) case Products(p) => p case _ => []
  }

  function ListPaymentMethods(s: Store): seq<PaymentMethod> {
    match UseMasterData(s, PaymentMethodsKey) case PaymentMethods(m) => m case _ => []
  }

  function ListPromotions(s: Store): seq<Promotion> {
    match UseMasterData(s, PromotionsKey) case Promotions(p) => p case _ => []
  }

  /** In a well-typed store the typed lists are exactly what was saved. */
  lemma TypedReadAfterSave(s: Store, cs: seq<Category>, ps: seq<Product>, ms: seq<PaymentMethod>, qs: seq<Promotion>)
    ensures ListCategories(SaveMasterData(s, "categories", Categories(cs))) == cs
    ensures ListProducts(SaveMasterData(s, "products", Products(ps))) == ps
    ensures ListPaymentMethods(SaveMasterData(s, "paymentMethods", PaymentMethods(ms))) == ms
    ensures ListPromotions(SaveMasterData(s, "promotions", Promotions(qs))) == qs
  {
    ReadAfterSave(s, CategoriesKey, Categories(cs));
    ReadAfterSave(s, ProductsKey, Products(ps));
    ReadAfterSave(s, PaymentMethodsKey, PaymentMethods(ms));
    ReadAfterSave(s, PromotionsKey, Promotions(qs));
  }
}
