/** Validation of the product form: every failing check contributes its
    message, in a fixed order. */
module CatalogForm {
  import opened Results
  import Text
  import Seqs

  /** The partially filled form; `None` is a field that was never set. */
  datatype ProductForm = ProductForm(
    name: Option<string>,
    categoryId: Option<int>,
    sku: Option<string>,
    retailPrice: Option<int>,
    wholesalePrice: Option<int>,
    cost: Option<int>)

  const NameRequired := "Product name is required"
  const CategoryRequired := "Category is required"
  const SkuRequired := "SKU is required"
  const RetailPriceInvalid := "Retail price must be greater than 0"
  const CostInvalid := "Cost must be 0 or greater"
  const WholesalePriceInvalid := "Wholesale price must be greater than 0 if provided"

  /** The messages in the order the checks run. */
  const FormMessages: seq<string> :=
    [NameRequired, CategoryRequired, SkuRequired, RetailPriceInvalid, CostInvalid, WholesalePriceInvalid]

  /** A string field that is absent or blank after trimming. */
  predicate BlankField(f: Option<string>) {
    f.None? || Text.IsBlank(f.value)
  }

  /** The messages whose flag is set, in order. */
  function Pick(messages: seq<string>, fails: seq<bool>): (r: seq<string>)
    requires |messages| == |fails|
    ensures Seqs.IsSubsequence(r, messages)
    ensures forall k | 0 <= k < |fails| :: fails[k] ==> messages[k] in r
    ensures forall m | m in r :: exists k | 0 <= k < |fails| :: fails[k] && messages[k] == m
    ensures |r| == 0 <==> forall k | 0 <= k < |fails| :: !fails[k]
  {
    if |fails| == 0 then []
    else
      var rest := Pick(messages[1..], fails[1..]);
      if fails[0] then
        [messages[0]] + rest
      else
        Seqs.SubsequenceDropHead(rest, messages);
        assert forall k | 1 <= k < |fails| :: fails[k] == fails[1..][k - 1];
        rest
  }

  /** With distinct messages, a message is picked exactly when its flag is set. */
  lemma PickMembership(messages: seq<string>, fails: seq<bool>)
    requires |messages| == |fails|
    requires forall i, j | 0 <= i < j < |messages| :: messages[i] != messages[j]
    ensures forall k | 0 <= k < |fails| :: messages[k] in Pick(messages, fails) <==> fails[k]
  {
    forall k | 0 <= k < |fails| && messages[k] in Pick(messages, fails) ensures fails[k] {
      var j :| 0 <= j < |fails| && fails[j] && messages[j] == messages[k];
      assert j == k;
    }
  }

  /** `validateProductForm`: one flag per check, in the order of the source. */
  function Failures(d: ProductForm): (r: seq<bool>)
    ensures |r| == |FormMessages|
  {
    [ BlankField(d.name),
      d.categoryId.None? || d.categoryId.value == 0,
      BlankField(d.sku),
      d.retailPrice.None? || d.retailPrice.value <= 0,
      d.cost.None? || d.cost.value < 0,
      d.wholesalePrice.Some? && d.wholesalePrice.value <= 0 ]
  }

  /** The six messages are pairwise different. */
  lemma MessagesDistinct()
    ensures forall i, j | 0 <= i < j < |FormMessages| :: FormMessages[i] != FormMessages[j]
  {
    assert forall i, j | 0 <= i < j < |FormMessages| :: |FormMessages[i]| != |FormMessages[j]|;
  }

  /** `validateProductForm`: the messages of the failing checks, in check order. */
  function ValidateProductForm(d: ProductForm): (r: seq<string>)
    ensures Seqs.IsSubsequence(r, FormMessages)
    ensures forall m | m in r :: m in FormMessages
  {
    Pick(FormMessages, Failures(d))
  }

  /** A message is reported exactly when its check fails: a blank name, a
      missing or zero category, a blank SKU, a missing or non-positive retail
      price, a missing or negative cost, a given non-positive wholesale price. */
  lemma ValidateProductFormMessages(d: ProductForm)
    ensures var r := ValidateProductForm(d);
      && (NameRequired in r <==> d.name.None? || Text.IsBlank(d.name.value))
      && (CategoryRequired in r <==> d.categoryId.None? || d.categoryId.value == 0)
      && (SkuRequired in r <==> d.sku.None? || Text.IsBlank(d.sku.value))
      && (RetailPriceInvalid in r <==> d.retailPrice.None? || d.retailPrice.value <= 0)
      && (CostInvalid in r <==> d.cost.None? || d.cost.value < 0)
      && (WholesalePriceInvalid in r <==> d.wholesalePrice.Some? && d.wholesalePrice.value <= 0)
  {
    MessagesDistinct();
    PickMembership(FormMessages, Failures(d));
    assert FormMessages[0] == NameRequired && FormMessages[1] == CategoryRequired;
    assert FormMessages[2] == SkuRequired && FormMessages[3] == RetailPriceInvalid;
    assert FormMessages[4] == CostInvalid && FormMessages[5] == WholesalePriceInvalid;
  }

  /** The form passes exactly when a name, a non-zero category, a SKU, a
      positive retail price and a non-negative cost are given and any
      wholesale price is positive. */
  lemma ValidFormCharacterization(d: ProductForm)
    ensures ValidateProductForm(d) == [] <==>
      && d.name.Some? && !Text.IsBlank(d.name.value)
      && d.categoryId.Some? && d.categoryId.value != 0
      && d.sku.Some? && !Text.IsBlank(d.sku.value)
      && d.retailPrice.Some? && d.retailPrice.value > 0
      && d.cost.Some? && d.cost.value >= 0
      && (d.wholesalePrice.Some? ==> d.wholesalePrice.value > 0)
  {
    ValidateProductFormMessages(d);
    var r := ValidateProductForm(d);
    if r != [] {
      assert r[0] in r;
    }
  }
}
