/** The catalog page's two submit handlers, as rewrites of the category and
    product lists plus the sync item they enqueue. Form fields are the raw
    input strings; `number` is JavaScript's `Number` conversion. */
module CatalogPage {
  import opened Results
  import opened Entities
  import opened OfflineStore
  import PageWrites
  import MasterDataCache
  import Text

  datatype CategoryForm = CategoryForm(name: string, active: bool)

  /** The product dialog's fields, as typed. */
  datatype ProductFields = ProductFields(
    name: string,
    categoryId: string,
    sku: string,
    barcode: string,
    retailPrice: string,
    wholesalePrice: string,
    cost: string,
    active: bool)

  /** `handleCategorySubmit`: the new category (id is the clock) appended to the list. */
  function AddCategory(categories: seq<Category>, form: CategoryForm, now: int): (r: seq<Category>)
    ensures |r| == |categories| + 1
    ensures r[..|categories|] == categories
    ensures r[|categories|] == Category(now, form.name, form.active)
  {
    categories + [Category(now, form.name, form.active)]
  }

  /** The queued category is the entry the save appended. */
  function CategorySubmit(categories: seq<Category>, form: CategoryForm, now: int): (p: PageWrites.Plan)
    ensures |p.writes| == 2 && p.completes
    ensures p.writes[0].Save? && p.writes[0].key == "categories" && p.writes[0].blob.Categories?
    ensures var saved := p.writes[0].blob.categories;
      && saved == AddCategory(categories, form, now)
      && p.writes[1] == Enqueue("category", "create", CategoryData(saved[|saved| - 1]))
  {
    PageWrites.SaveAndQueue("categories", Categories(AddCategory(categories, form, now)),
      "category", "create", CategoryData(Category(now, form.name, form.active)))
  }

  /** The product the dialog saves: one 'Default' variant and the 'pcs' unit.
      An edit keeps the product id, first-variant id and stock when they are
      set (non-zero); otherwise the clock supplies the ids and stock is 0. */
  function BuildProduct(f: ProductFields, editing: Option<Product>, number: string -> int, now: int): (p: Product)
    ensures p.id == (if editing.Some? && editing.value.id != 0 then editing.value.id else now)
    ensures p.stock == (if editing.Some? then editing.value.stock else 0)
    ensures |p.variants| == 1 && |p.units| == 1
    ensures p.variants[0].id ==
      (if editing.Some? && |editing.value.variants| > 0 && editing.value.variants[0].id != 0
       then editing.value.variants[0].id else now)
    ensures p.variants[0].wholesalePrice == (if f.wholesalePrice == "" then None else Some(number(f.wholesalePrice)))
    ensures p.variants[0].name == "Default" && p.variants[0].sku == f.sku && p.variants[0].barcode == Some(f.barcode)
    ensures p.variants[0].baseUnitId == 1 && p.variants[0].active == f.active
    ensures p.variants[0].retailPrice == number(f.retailPrice) && p.variants[0].cost == number(f.cost)
    ensures p.units[0] == Unit(1, "pcs", 1)
    ensures p.name == f.name && p.categoryId == number(f.categoryId) && p.active == f.active
  {
    var pid := if editing.Some? && editing.value.id != 0 then editing.value.id else now;
    var vid := if editing.Some? && |editing.value.variants| > 0 && editing.value.variants[0].id != 0
      then editing.value.variants[0].id else now;
    var variant := Variant(vid, "Default", f.sku, Some(f.barcode), 1, number(f.retailPrice),
      if f.wholesalePrice != "" then Some(number(f.wholesalePrice)) else None,
      number(f.cost), f.active);
    Product(pid, f.name, number(f.categoryId), f.active, [variant], [Unit(1, "pcs", 1)],
      if editing.Some? && editing.value.stock != 0 then editing.value.stock else 0)
  }

  /** `handleEdit`: the dialog fields filled from a product's first variant;
      an absent barcode, and an absent or zero wholesale price, show as ''. */
  function EditFields(p: Product): (f: ProductFields)
    requires |p.variants| > 0
    ensures f.name == p.name && f.active == p.active && f.sku == p.variants[0].sku
    ensures f.categoryId == Text.IntToDecimal(p.categoryId)
    ensures f.retailPrice == Text.IntToDecimal(p.variants[0].retailPrice)
    ensures f.cost == Text.IntToDecimal(p.variants[0].cost)
    ensures p.variants[0].barcode.Some? ==> f.barcode == p.variants[0].barcode.value
    ensures p.variants[0].barcode.None? ==> f.barcode == ""
    ensures f.wholesalePrice == "" <==> p.variants[0].wholesalePrice.None? || p.variants[0].wholesalePrice.value == 0
  {
    var v := p.variants[0];
    ProductFields(p.name, Text.IntToDecimal(p.categoryId), v.sku, v.barcode.GetOr(""),
      Text.IntToDecimal(v.retailPrice),
      if v.wholesalePrice.Some? && v.wholesalePrice.value != 0 then Text.IntToDecimal(v.wholesalePrice.value) else "",
      Text.IntToDecimal(v.cost), p.active)
  }

  /** A product of the shape the dialog saves: set ids, one 'Default' variant
      with a barcode and no zero wholesale price, and the 'pcs' unit. */
  predicate DialogShaped(p: Product) {
    && p.id != 0 && |p.variants| == 1 && p.units == [Unit(1, "pcs", 1)]
    && var v := p.variants[0];
       && v.id != 0 && v.name == "Default" && v.barcode.Some? && v.baseUnitId == 1 && v.active == p.active
       && (v.wholesalePrice.Some? ==> v.wholesalePrice.value != 0)
  }

  /** Opening a saved product for editing and submitting the dialog without
      changes saves the same product, provided `Number` reads back every
      integer `String` writes. */
  lemma EditResubmitUnchanged(p: Product, number: string -> int, now: int)
    requires DialogShaped(p)
    requires forall n: int :: number(Text.IntToDecimal(n)) == n
    ensures BuildProduct(EditFields(p), Some(p), number, now) == p
  {
    var q := BuildProduct(EditFields(p), Some(p), number, now);
    var v := p.variants[0];
    assert number(Text.IntToDecimal(p.categoryId)) == p.categoryId;
    assert number(Text.IntToDecimal(v.retailPrice)) == v.retailPrice;
    assert number(Text.IntToDecimal(v.cost)) == v.cost;
    if v.wholesalePrice.Some? {
      assert number(Text.IntToDecimal(v.wholesalePrice.value)) == v.wholesalePrice.value;
    }
    assert q.variants[0] == v;
    assert q.variants == p.variants;
  }

  /** A newly created product (set clock) has the shape `EditResubmitUnchanged` needs. */
  lemma NewProductDialogShaped(f: ProductFields, number: string -> int, now: int)
    requires now != 0
    requires f.wholesalePrice != "" ==> number(f.wholesalePrice) != 0
    ensures DialogShaped(BuildProduct(f, None, number, now))
  {
  }

  /** Replaces every product whose id is `id` by `p`, keeping positions. */
  function ReplaceById(products: seq<Product>, id: int, p: Product): (r: seq<Product>)
    ensures |r| == |products|
    ensures forall i | 0 <= i < |r| :: r[i] == (if products[i].id == id then p else products[i])
  {
    seq(|products|, i requires 0 <= i < |products| => if products[i].id == id then p else products[i])
  }

  /** `handleSubmit`: with no category chosen nothing happens; otherwise the
      list is rewritten (in place for an edit, appended for a new product)
      and the saved product is queued as 'update' or 'create'. */
  function ProductSubmit(products: seq<Product>, f: ProductFields, editing: Option<Product>, number: string -> int, now: int): (plan: PageWrites.Plan)
    ensures plan.completes
    ensures f.categoryId == "" ==> plan.writes == []
    ensures f.categoryId != "" ==>
      && |plan.writes| == 2 && plan.writes[0].Save? && plan.writes[0].key == "products"
      && plan.writes[0].blob.Products? && plan.writes[1].Enqueue?
      && plan.writes[1].entityType == "product"
      && plan.writes[1].operation == (if editing.Some? then "update" else "create")
      && plan.writes[1].data.ProductData?
      && var p := plan.writes[1].data.product;
         var saved := plan.writes[0].blob.products;
         && p == BuildProduct(f, editing, number, now)
         && (editing.None? ==> saved == products + [p])
         && (editing.Some? ==>
               && |saved| == |products|
               && forall i | 0 <= i < |saved| ::
                    saved[i] == (if products[i].id == editing.value.id then p else products[i]))
  {
    if f.categoryId == "" then PageWrites.NoWrites
    else
      var p := BuildProduct(f, editing, number, now);
      var updated := if editing.Some? then ReplaceById(products, editing.value.id, p) else products + [p];
      PageWrites.SaveAndQueue("products", Products(updated), "product",
        if editing.Some? then "update" else "create", ProductData(p))
  }

  /** Submitting a category against the stored list: unless the save itself
      rejects, the stored list becomes the old list plus the new category;
      when only the enqueue rejects, the category is saved but never queued. */
  lemma CategorySubmitInStore(s: Store, form: CategoryForm, now: int, failAt: Option<nat>)
    requires Valid(s)
    ensures var e := PageWrites.RunPlan(s, CategorySubmit(MasterDataCache.ListCategories(s), form, now), now, failAt);
      && (failAt == Some(0) ==> e.store == s && e.result.Err?)
      && (failAt != Some(0) ==>
            MasterDataCache.ListCategories(e.store) == MasterDataCache.ListCategories(s) + [Category(now, form.name, form.active)])
      && (failAt == Some(1) ==> e.store.syncQueue == s.syncQueue && e.result.Err?)
      && (e.result.Ok? ==> s.nextSyncId in e.store.syncQueue && e.store.syncQueue[s.nextSyncId].data == CategoryData(Category(now, form.name, form.active)))
  {
    var cs := MasterDataCache.ListCategories(s);
    var blob := Categories(AddCategory(cs, form, now));
    PageWrites.SaveAndQueueEffect(s, "categories", blob, "category", "create",
      CategoryData(Category(now, form.name, form.active)), now, failAt);
    var e := PageWrites.RunPlan(s, CategorySubmit(cs, form, now), now, failAt);
    if failAt != Some(0) {
      MasterDataCache.ReadAfterSave(s, MasterDataCache.CategoriesKey, blob);
      assert MasterDataCache.UseMasterData(e.store, MasterDataCache.CategoriesKey) == blob;
    }
  }
}
