/** The goods-receiving page: building the list of received items, and
    applying it to product stock and variant cost on submit. */
module Receiving {
  import opened Results
  import opened Entities
  import opened OfflineStore
  import PageWrites
  import Seqs

  /** The three input fields of the "add item" row, as typed. */
  datatype ItemFields = ItemFields(productId: string, quantity: string, cost: string)

  /** The first product with the given id. */
  function FindProduct(products: seq<Product>, id: int): (r: Option<Product>)
    ensures r.Some? ==> r.value in products && r.value.id == id
    ensures r.None? <==> forall p | p in products :: p.id != id
  {
    if |products| == 0 then None
    else if products[0].id == id then Some(products[0])
    else FindProduct(products[1..], id)
  }

  /** `addItem`: an empty field, an unknown product, or a product without a
      variant (reading its first variant throws) leaves the list as it is;
      otherwise one item for the product's first variant is appended. */
  function AddItem(items: seq<ReceivingItem>, products: seq<Product>, f: ItemFields, number: string -> int): (r: seq<ReceivingItem>)
    ensures f.productId == "" || f.quantity == "" || f.cost == "" ==> r == items
    ensures FindProduct(products, number(f.productId)).None? ==> r == items
    ensures f.productId != "" && f.quantity != "" && f.cost != "" && FindProduct(products, number(f.productId)).Some? ==>
      var p := FindProduct(products, number(f.productId)).value;
      && (|p.variants| == 0 ==> r == items)
      && (|p.variants| > 0 ==> r == items + [ReceivingItem(p.id, p.variants[0].id, number(f.quantity), number(f.cost))])
  {
    if f.productId == "" || f.quantity == "" || f.cost == "" then items
    else match FindProduct(products, number(f.productId))
      case None => items
      case Some(p) =>
        if |p.variants| == 0 then items
        else items + [ReceivingItem(p.id, p.variants[0].id, number(f.quantity), number(f.cost))]
  }

  /** `items.filter((_, i) => i !== index)`, counting positions from `offset`. */
  function DropIndex(items: seq<ReceivingItem>, index: int, offset: int): (r: seq<ReceivingItem>)
    ensures offset <= index < offset + |items| ==> r == items[..index - offset] + items[index - offset + 1..]
    ensures !(offset <= index < offset + |items|) ==> r == items
  {
    if |items| == 0 then []
    else
      var rest := DropIndex(items[1..], index, offset + 1);
      if offset == index then rest
      else
        assert offset < index < offset + |items| ==>
          items[..index - offset] == [items[0]] + items[1..][..index - offset - 1]
          && items[index - offset + 1..] == items[1..][index - offset..];
        [items[0]] + rest
  }

  /** `removeItem`: exactly the item at `index` goes; any other index removes nothing. */
  function RemoveItem(items: seq<ReceivingItem>, index: int): (r: seq<ReceivingItem>)
    ensures 0 <= index < |items| ==> |r| == |items| - 1 && r == items[..index] + items[index + 1..]
    ensures !(0 <= index < |items|) ==> r == items
  {
    DropIndex(items, index, 0)
  }

  /** `items.find(item => item.productId === id)`. */
  function FirstItemFor(items: seq<ReceivingItem>, id: int): (r: Option<ReceivingItem>)
    ensures r.Some? ==> r.value.productId == id && r.value in items
    ensures r.None? <==> forall it | it in items :: it.productId != id
    ensures |items| > 0 && items[0].productId == id ==> r == Some(items[0])
  {
    if |items| == 0 then None
    else if items[0].productId == id then Some(items[0])
    else FirstItemFor(items[1..], id)
  }

  /** Sets the cost of every variant with the given id. */
  function SetVariantCost(variants: seq<Variant>, variantId: int, cost: int): (r: seq<Variant>)
    ensures |r| == |variants|
    ensures forall i | 0 <= i < |r| :: r[i] == (if variants[i].id == variantId then variants[i].(cost := cost) else variants[i])
  {
    seq(|variants|, i requires 0 <= i < |variants| =>
      if variants[i].id == variantId then variants[i].(cost := cost) else variants[i])
  }

  /** The submit's product rewrite: each product with a received item takes
      the first such item: its stock grows by the quantity and the matching
      variant's cost becomes the item's cost. */
  function ApplyReceiving(products: seq<Product>, items: seq<ReceivingItem>): (r: seq<Product>)
    ensures |r| == |products|
    ensures forall i | 0 <= i < |r| && FirstItemFor(items, products[i].id).None? :: r[i] == products[i]
    ensures forall i | 0 <= i < |r| && FirstItemFor(items, products[i].id).Some? ::
      var it := FirstItemFor(items, products[i].id).value;
      r[i] == products[i].(stock := products[i].stock + it.quantity,
                           variants := SetVariantCost(products[i].variants, it.variantId, it.cost))
  {
    seq(|products|, i requires 0 <= i < |products| =>
      match FirstItemFor(items, products[i].id)
      case None => products[i]
      case Some(it) => products[i].(stock := products[i].stock + it.quantity,
                                   variants := SetVariantCost(products[i].variants, it.variantId, it.cost)))
  }

  lemma {:induction false} FirstItemForAppend(items: seq<ReceivingItem>, it: ReceivingItem, id: int)
    ensures FirstItemFor(items + [it], id) ==
      (if FirstItemFor(items, id).Some? then FirstItemFor(items, id) else if it.productId == id then Some(it) else None)
    decreases |items|
  {
    if |items| == 0 {
      assert (items + [it])[1..] == [];
    } else {
      assert (items + [it])[1..] == items[1..] + [it];
      FirstItemForAppend(items[1..], it, id);
    }
  }

  /** An item added for a product not yet in the list takes effect on submit:
      that product's stock grows by the quantity typed, and its first
      variant's cost becomes the cost typed. */
  lemma AddItemReceived(items: seq<ReceivingItem>, products: seq<Product>, f: ItemFields, number: string -> int, i: nat)
    requires f.productId != "" && f.quantity != "" && f.cost != ""
    requires FindProduct(products, number(f.productId)).Some?
    requires |FindProduct(products, number(f.productId)).value.variants| > 0
    requires forall it | it in items :: it.productId != number(f.productId)
    requires i < |products| && products[i].id == number(f.productId)
    ensures var r := ApplyReceiving(products, AddItem(items, products, f, number))[i];
      var v := FindProduct(products, number(f.productId)).value.variants[0];
      && r.stock == products[i].stock + number(f.quantity)
      && r.variants == SetVariantCost(products[i].variants, v.id, number(f.cost))
  {
    var p := FindProduct(products, number(f.productId)).value;
    var it := ReceivingItem(p.id, p.variants[0].id, number(f.quantity), number(f.cost));
    FirstItemForAppend(items, it, products[i].id);
  }

  /** A later item for a product that already has one changes nothing. */
  lemma LaterDuplicateIgnored(products: seq<Product>, items: seq<ReceivingItem>, it: ReceivingItem)
    requires exists k | 0 <= k < |items| :: items[k].productId == it.productId
    ensures ApplyReceiving(products, items + [it]) == ApplyReceiving(products, items)
  {
    var k :| 0 <= k < |items| && items[k].productId == it.productId;
    assert items[k] in items;
    forall i | 0 <= i < |products| ensures FirstItemFor(items + [it], products[i].id) == FirstItemFor(items, products[i].id) {
      FirstItemForAppend(items, it, products[i].id);
    }
  }

  /** `handleSubmit`: refused without a supplier or without items; otherwise
      the rewritten products are saved and the receiving note is queued. */
  function Submit(products: seq<Product>, supplier: string, items: seq<ReceivingItem>, now: int): (plan: PageWrites.Plan)
    ensures supplier == "" || items == [] ==> plan.writes == []
    ensures supplier != "" && items != [] ==>
      plan.writes == [Save("products", Products(ApplyReceiving(products, items))),
                      Enqueue("receiving", "create", ReceivingData(supplier, items, now))]
    ensures plan.completes
  {
    if supplier == "" || |items| == 0 then PageWrites.NoWrites
    else PageWrites.SaveAndQueue("products", Products(ApplyReceiving(products, items)),
      "receiving", "create", ReceivingData(supplier, items, now))
  }

  /** The cost of one received line. */
  function LineCost(it: ReceivingItem): int {
    it.quantity * it.cost
  }

  /** `totalCost`: Σ quantity × cost. */
  function TotalCost(items: seq<ReceivingItem>): int {
    if |items| == 0 then 0
    else TotalCost(items[..|items| - 1]) + LineCost(items[|items| - 1])
  }

  lemma {:induction false} TotalCostAppend(a: seq<ReceivingItem>, b: seq<ReceivingItem>)
    ensures TotalCost(a + b) == TotalCost(a) + TotalCost(b)
    decreases |b|
  {
    if |b| == 0 {
      assert a + b == a;
    } else {
      assert (a + b)[..|a + b| - 1] == a + b[..|b| - 1];
      TotalCostAppend(a, b[..|b| - 1]);
    }
  }

  /** Removing an item lowers the total by exactly that item's cost. */
  lemma RemoveItemTotalCost(items: seq<ReceivingItem>, index: int)
    requires 0 <= index < |items|
    ensures TotalCost(RemoveItem(items, index)) == TotalCost(items) - LineCost(items[index])
  {
    CostWithout(items, index);
  }

  lemma CostWithout(items: seq<ReceivingItem>, index: int)
    requires 0 <= index < |items|
    ensures TotalCost(items) == TotalCost(items[..index] + items[index + 1..]) + LineCost(items[index])
  {
    Seqs.SplitAt(items, index);
    TotalCostSplit(items[..index], items[index], items[index + 1..]);
  }

  /** The total of a list with one item in the middle is the total without it plus its cost. */
  lemma TotalCostSplit(pre: seq<ReceivingItem>, x: ReceivingItem, post: seq<ReceivingItem>)
    ensures TotalCost(pre + [x] + post) == TotalCost(pre + post) + LineCost(x)
  {
    TotalCostAppend(pre + [x], post);
    TotalCostAppend(pre, [x]);
    TotalCostAppend(pre, post);
    assert [x][..0] == [];
  }
}
