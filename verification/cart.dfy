/** The cart store: lines, a cart-level discount and a tax switch, with the
    derived subtotal, tax and total. Persistence is not modelled. */
module Cart {
  import opened Results
  import opened Entities
  import Text
  import Seqs

  datatype CartState = CartState(cart: seq<CartItem>, cartDiscount: int, taxEnabled: bool)

  /** The initial (and cleared) cart. */
  const EmptyCart := CartState([], 0, false)

  /** The client line id `productId-variantId-timestamp`. */
  function LineId(productId: int, variantId: int, now: int): string {
    Text.Join([Text.IntToDecimal(productId), Text.IntToDecimal(variantId), Text.IntToDecimal(now)], '-')
  }

  /** Line ids of non-negative ids and times determine all three numbers. */
  lemma LineIdInjective(p1: nat, v1: nat, t1: nat, p2: nat, v2: nat, t2: nat)
    requires LineId(p1, v1, t1) == LineId(p2, v2, t2)
    ensures p1 == p2 && v1 == v2 && t1 == t2
  {
    var a := [Text.NatToDecimal(p1), Text.NatToDecimal(v1), Text.NatToDecimal(t1)];
    var b := [Text.NatToDecimal(p2), Text.NatToDecimal(v2), Text.NatToDecimal(t2)];
    Text.SplitJoin(a, '-');
    Text.SplitJoin(b, '-');
    Text.DecimalInjective(p1, p2);
    Text.DecimalInjective(v1, v2);
    Text.DecimalInjective(t1, t2);
  }

  /** Index of the first line for the (product, variant) pair, as `find` does. */
  function FindPair(cart: seq<CartItem>, productId: int, variantId: int): (r: Option<nat>)
    ensures r.Some? ==> r.value < |cart| && cart[r.value].productId == productId && cart[r.value].variantId == variantId
    ensures r.Some? ==> forall i | 0 <= i < r.value :: !(cart[i].productId == productId && cart[i].variantId == variantId)
    ensures r.None? <==> forall i | 0 <= i < |cart| :: !(cart[i].productId == productId && cart[i].variantId == variantId)
  {
    if |cart| == 0 then None
    else if cart[0].productId == productId && cart[0].variantId == variantId then Some(0)
    else match FindPair(cart[1..], productId, variantId)
      case None => None
      case Some(k) => Some(k + 1)
  }

  /** `cart.map(item => item.id === id ? f(item) : item)`. */
  function MapById(cart: seq<CartItem>, id: string, f: CartItem -> CartItem): (r: seq<CartItem>)
    ensures |r| == |cart|
    ensures forall i | 0 <= i < |cart| :: r[i] == if cart[i].id == id then f(cart[i]) else cart[i]
  {
    seq(|cart|, i requires 0 <= i < |cart| => if cart[i].id == id then f(cart[i]) else cart[i])
  }

  /** The line `addItem` appends for a pair not yet in the cart. */
  function NewLine(product: Product, variant: Variant, now: int): CartItem {
    CartItem(LineId(product.id, variant.id, now), product.id, variant.id, product.name, variant.sku,
      variant.retailPrice, 1, "pcs", None, 0)
  }

  /** `addItem`: one more of an existing line for the pair, or a new line at
      the variant's retail price. */
  function AddItem(st: CartState, product: Product, variant: Variant, now: int): (r: CartState)
    ensures r.cartDiscount == st.cartDiscount && r.taxEnabled == st.taxEnabled
    ensures FindPair(st.cart, product.id, variant.id).Some? ==>
      var k := FindPair(st.cart, product.id, variant.id).value;
      && |r.cart| == |st.cart|
      && forall i | 0 <= i < |st.cart| ::
           r.cart[i] == if st.cart[i].id == st.cart[k].id then st.cart[i].(quantity := st.cart[i].quantity + 1) else st.cart[i]
    ensures FindPair(st.cart, product.id, variant.id).None? ==>
      && |r.cart| == |st.cart| + 1 && r.cart[..|st.cart|] == st.cart
      && r.cart[|st.cart|].productId == product.id && r.cart[|st.cart|].variantId == variant.id
      && r.cart[|st.cart|].price == variant.retailPrice && r.cart[|st.cart|].quantity == 1
      && r.cart[|st.cart|].discount == 0
      && r.cart[|st.cart|].id == LineId(product.id, variant.id, now)
      && r.cart[|st.cart|].name == product.name && r.cart[|st.cart|].sku == variant.sku
      && r.cart[|st.cart|].unit == "pcs" && r.cart[|st.cart|].note == None
  {
    match FindPair(st.cart, product.id, variant.id)
    case Some(k) => st.(cart := MapById(st.cart, st.cart[k].id, (item: CartItem) => item.(quantity := item.quantity + 1)))
    case None => st.(cart := st.cart + [NewLine(product, variant, now)])
  }

  predicate IdsUnique(cart: seq<CartItem>) {
    forall i, j | 0 <= i < j < |cart| :: cart[i].id != cart[j].id
  }

  predicate PairsUnique(cart: seq<CartItem>) {
    forall i, j | 0 <= i < j < |cart| ::
      !(cart[i].productId == cart[j].productId && cart[i].variantId == cart[j].variantId)
  }

  /** The line id was minted by `addItem` for the line's own pair at some time. */
  ghost predicate Minted(item: CartItem) {
    && item.productId >= 0 && item.variantId >= 0
    && exists t: nat :: item.id == LineId(item.productId, item.variantId, t)
  }

  /** What `addItem` keeps true of a cart: one line per pair, one line per id,
      and every id minted for its own pair. */
  ghost predicate CartInv(cart: seq<CartItem>) {
    IdsUnique(cart) && PairsUnique(cart) && forall i | 0 <= i < |cart| :: Minted(cart[i])
  }

  /** With unique ids, adding an existing pair increments exactly that line. */
  lemma AddExistingIncrementsOne(st: CartState, product: Product, variant: Variant, now: int)
    requires IdsUnique(st.cart)
    requires FindPair(st.cart, product.id, variant.id).Some?
    ensures var k := FindPair(st.cart, product.id, variant.id).value;
      AddItem(st, product, variant, now).cart == st.cart[k := st.cart[k].(quantity := st.cart[k].quantity + 1)]
  {
  }

  /** `addItem` never creates a second line for a pair, nor a duplicate id,
      when product and variant ids and the clock are non-negative. */
  lemma AddItemPreservesInv(st: CartState, product: Product, variant: Variant, now: nat)
    requires CartInv(st.cart)
    requires product.id >= 0 && variant.id >= 0
    ensures CartInv(AddItem(st, product, variant, now).cart)
  {
    if FindPair(st.cart, product.id, variant.id).Some? {
      AddExistingKeepsInv(st, product, variant, now);
    } else {
      NewLineIdFresh(st.cart, product, variant, now);
      AddNewKeepsInv(st, product, variant, now);
    }
  }

  /** Incrementing an existing line changes no id and no pair. */
  lemma AddExistingKeepsInv(st: CartState, product: Product, variant: Variant, now: nat)
    requires CartInv(st.cart)
    requires FindPair(st.cart, product.id, variant.id).Some?
    ensures CartInv(AddItem(st, product, variant, now).cart)
  {
    var r := AddItem(st, product, variant, now);
    forall i | 0 <= i < |r.cart|
      ensures r.cart[i].id == st.cart[i].id && r.cart[i].productId == st.cart[i].productId
        && r.cart[i].variantId == st.cart[i].variantId
    {
    }
    forall i | 0 <= i < |r.cart| ensures Minted(r.cart[i]) {
      var t: nat :| st.cart[i].id == LineId(st.cart[i].productId, st.cart[i].variantId, t);
      assert r.cart[i].id == LineId(r.cart[i].productId, r.cart[i].variantId, t);
    }
  }

  /** A new line's id differs from every minted id of another pair. */
  lemma NewLineIdFresh(cart: seq<CartItem>, product: Product, variant: Variant, now: nat)
    requires CartInv(cart)
    requires product.id >= 0 && variant.id >= 0
    requires FindPair(cart, product.id, variant.id).None?
    ensures forall i | 0 <= i < |cart| :: cart[i].id != NewLine(product, variant, now).id
  {
    var line := NewLine(product, variant, now);
    forall i | 0 <= i < |cart| ensures cart[i].id != line.id {
      var t: nat :| cart[i].id == LineId(cart[i].productId, cart[i].variantId, t);
      if cart[i].id == line.id {
        LineIdInjective(cart[i].productId, cart[i].variantId, t, product.id, variant.id, now);
        assert false;
      }
    }
  }

  /** Appending a fresh line for a new pair keeps every part of the invariant. */
  lemma AddNewKeepsInv(st: CartState, product: Product, variant: Variant, now: nat)
    requires CartInv(st.cart)
    requires product.id >= 0 && variant.id >= 0
    requires FindPair(st.cart, product.id, variant.id).None?
    requires forall i | 0 <= i < |st.cart| :: st.cart[i].id != NewLine(product, variant, now).id
    ensures CartInv(AddItem(st, product, variant, now).cart)
  {
    var line := NewLine(product, variant, now);
    var r := AddItem(st, product, variant, now);
    assert r.cart == st.cart + [line];
    assert Minted(line);
  }

  /** `updateQuantity`: a quantity of zero or less removes the line, any other
      sets it. */
  function UpdateQuantity(st: CartState, id: string, quantity: int): (r: CartState)
    ensures r.cartDiscount == st.cartDiscount && r.taxEnabled == st.taxEnabled
    ensures quantity <= 0 ==> r == RemoveItem(st, id)
    ensures quantity > 0 ==> |r.cart| == |st.cart| && forall i | 0 <= i < |st.cart| ::
      r.cart[i] == if st.cart[i].id == id then st.cart[i].(quantity := quantity) else st.cart[i]
  {
    if quantity <= 0 then RemoveItem(st, id)
    else st.(cart := MapById(st.cart, id, (item: CartItem) => item.(quantity := quantity)))
  }

  /** `updateNote`: sets the note on the line with that id. */
  function UpdateNote(st: CartState, id: string, note: string): (r: CartState)
    ensures r.cartDiscount == st.cartDiscount && r.taxEnabled == st.taxEnabled
    ensures |r.cart| == |st.cart| && forall i | 0 <= i < |st.cart| ::
      r.cart[i] == if st.cart[i].id == id then st.cart[i].(note := Some(note)) else st.cart[i]
  {
    st.(cart := MapById(st.cart, id, (item: CartItem) => item.(note := Some(note))))
  }

  /** `updateDiscount`: sets the line discount, without any clamp. */
  function UpdateDiscount(st: CartState, id: string, discount: int): (r: CartState)
    ensures r.cartDiscount == st.cartDiscount && r.taxEnabled == st.taxEnabled
    ensures |r.cart| == |st.cart| && forall i | 0 <= i < |st.cart| ::
      r.cart[i] == if st.cart[i].id == id then st.cart[i].(discount := discount) else st.cart[i]
  {
    st.(cart := MapById(st.cart, id, (item: CartItem) => item.(discount := discount)))
  }

  /** `removeItem`: keeps, in order, exactly the lines with a different id. */
  function RemoveItem(st: CartState, id: string): (r: CartState)
    ensures r.cartDiscount == st.cartDiscount && r.taxEnabled == st.taxEnabled
    ensures forall i | 0 <= i < |r.cart| :: r.cart[i].id != id
    ensures forall i | 0 <= i < |st.cart| && st.cart[i].id != id :: st.cart[i] in r.cart
    ensures Seqs.IsSubsequence(r.cart, st.cart)
    ensures forall item :: multiset(r.cart)[item] == if item.id != id then multiset(st.cart)[item] else 0
  {
    Seqs.FilterIsSubsequence(st.cart, (item: CartItem) => item.id != id);
    Seqs.FilterMultiplicity(st.cart, (item: CartItem) => item.id != id);
    st.(cart := Seqs.Filter(st.cart, (item: CartItem) => item.id != id))
  }

  /** `clearCart`. */
  function ClearCart(st: CartState): (r: CartState)
    ensures r.cart == [] && r.cartDiscount == 0 && !r.taxEnabled
  {
    EmptyCart
  }

  /** `setCartDiscount`: negative discounts are stored as zero. */
  function SetCartDiscount(st: CartState, discount: int): (r: CartState)
    ensures r.cart == st.cart && r.taxEnabled == st.taxEnabled
    ensures r.cartDiscount >= 0
    ensures discount >= 0 ==> r.cartDiscount == discount
    ensures discount < 0 ==> r.cartDiscount == 0
  {
    st.(cartDiscount := if discount < 0 then 0 else discount)
  }

  function SetTaxEnabled(st: CartState, enabled: bool): (r: CartState)
    ensures r.cart == st.cart && r.cartDiscount == st.cartDiscount && r.taxEnabled == enabled
  {
    st.(taxEnabled := enabled)
  }

  /** One line's contribution to the subtotal. */
  function LineNet(item: CartItem): int {
    item.price * item.quantity - item.discount
  }

  /** The unclamped `reduce` over the lines. */
  function LineSum(cart: seq<CartItem>): int {
    if |cart| == 0 then 0 else LineNet(cart[0]) + LineSum(cart[1..])
  }

  lemma {:induction false} LineSumAppend(a: seq<CartItem>, b: seq<CartItem>)
    ensures LineSum(a + b) == LineSum(a) + LineSum(b)
    decreases |a|
  {
    if |a| == 0 {
      assert a + b == b;
    } else {
      assert (a + b)[1..] == a[1..] + b;
      LineSumAppend(a[1..], b);
    }
  }

  lemma {:induction false} LineSumUpdate(cart: seq<CartItem>, k: nat, x: CartItem)
    requires k < |cart|
    ensures LineSum(cart[k := x]) == LineSum(cart) - LineNet(cart[k]) + LineNet(x)
    decreases |cart|
  {
    if k > 0 {
      assert cart[k := x][1..] == cart[1..][k - 1 := x];
      LineSumUpdate(cart[1..], k - 1, x);
    }
  }

  /** `cartSubtotal`. */
  function Subtotal(st: CartState): (r: int)
    ensures r >= 0 && r >= LineSum(st.cart)
    ensures LineSum(st.cart) >= 0 ==> r == LineSum(st.cart)
    ensures LineSum(st.cart) < 0 ==> r == 0
  {
    if LineSum(st.cart) < 0 then 0 else LineSum(st.cart)
  }

  /** `Math.round(n * 0.1)` on exact arithmetic: a tenth, halves rounded up. */
  function RoundTenth(n: int): int {
    (n + 5) / 10
  }

  /** The rounding picks the integer nearest to n/10, taking the upper one on a tie. */
  lemma RoundTenthNearest(n: int)
    ensures 10 * RoundTenth(n) - 5 <= n < 10 * RoundTenth(n) + 5
  {
  }

  /** `cartTax`. */
  function Tax(st: CartState): (r: int)
    ensures r >= 0
    ensures !st.taxEnabled ==> r == 0
    ensures st.taxEnabled && Subtotal(st) - st.cartDiscount >= 0 ==>
      10 * r - 5 <= Subtotal(st) - st.cartDiscount < 10 * r + 5
    ensures st.taxEnabled && Subtotal(st) - st.cartDiscount < 0 ==> r == 0
  {
    if !st.taxEnabled then 0
    else
      var rounded := RoundTenth(Subtotal(st) - st.cartDiscount);
      RoundTenthNearest(Subtotal(st) - st.cartDiscount);
      if rounded < 0 then 0 else rounded
  }

  /** `cartTotal`. */
  function Total(st: CartState): (r: int)
    ensures r >= 0
    ensures r >= Subtotal(st) - st.cartDiscount + Tax(st)
    ensures Subtotal(st) - st.cartDiscount + Tax(st) >= 0 ==> r == Subtotal(st) - st.cartDiscount + Tax(st)
    ensures Subtotal(st) - st.cartDiscount + Tax(st) < 0 ==> r == 0
  {
    var t := Subtotal(st) - st.cartDiscount + Tax(st);
    if t < 0 then 0 else t
  }

  /** Worked example: a 12345 subtotal with tax on gives 1235 tax, 13580 total. */
  lemma TaxExample()
    ensures var st := CartState([CartItem("1-1-0", 1, 1, "x", "x", 12345, 1, "pcs", None, 0)], 0, true);
      Subtotal(st) == 12345 && Tax(st) == 1235 && Total(st) == 13580
  {
    var st := CartState([CartItem("1-1-0", 1, 1, "x", "x", 12345, 1, "pcs", None, 0)], 0, true);
    assert LineSum(st.cart) == 12345 by {
      assert st.cart[1..] == [];
    }
  }

  /** One more unit adds one unit price to a line's contribution. */
  lemma LineNetIncrement(item: CartItem)
    ensures LineNet(item.(quantity := item.quantity + 1)) == LineNet(item) + item.price
  {
    assert item.price * (item.quantity + 1) == item.price * item.quantity + item.price;
  }

  /** Adding an item raises the unclamped line sum by exactly one unit price:
      the existing line's price, or the variant's retail price for a new line. */
  lemma AddItemLineSum(st: CartState, product: Product, variant: Variant, now: int)
    requires IdsUnique(st.cart)
    ensures var k := FindPair(st.cart, product.id, variant.id);
      LineSum(AddItem(st, product, variant, now).cart)
        == LineSum(st.cart) + (if k.Some? then st.cart[k.value].price else variant.retailPrice)
  {
    var r := AddItem(st, product, variant, now);
    match FindPair(st.cart, product.id, variant.id)
    case Some(k) =>
      var bumped := st.cart[k].(quantity := st.cart[k].quantity + 1);
      AddExistingIncrementsOne(st, product, variant, now);
      assert r.cart == st.cart[k := bumped];
      LineSumUpdate(st.cart, k, bumped);
      LineNetIncrement(st.cart[k]);
    case None =>
      var line := NewLine(product, variant, now);
      assert r.cart == st.cart + [line];
      LineSumAppend(st.cart, [line]);
      assert LineSum([line]) == LineNet(line) by {
        assert [line][1..] == [];
      }
      assert LineNet(line) == variant.retailPrice;
  }
}
