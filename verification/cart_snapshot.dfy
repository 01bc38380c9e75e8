/** The cart store's three derived fields as the client holds them. They are
    written as getters on the object handed to the state library, whose `set`
    merges a partial state over a copy of the current object
    (`Object.assign({}, state, partial)`). The copy reads each getter once,
    while `get()` still returns the object before the merge, and keeps the
    value as a plain field; later merges copy that plain value again. So from
    the first merge on, `cartSubtotal`, `cartTax` and `cartTotal` keep the
    values of the state before that merge. `Cart.Subtotal`, `Cart.Tax` and
    `Cart.Total` are the live derivations the getters evidently intend, and
    the rest of the model uses them. */
module CartSnapshot {
  import opened Results
  import opened Entities
  import opened Cart

  /** The store object: the original one with live getters, or a merged copy
      whose three fields are plain values. */
  datatype Held =
    | Live(st: CartState)
    | Copied(st: CartState, subtotal: int, tax: int, total: int)

  /** One `set` with the new cart fields `next`. */
  function Merge(h: Held, next: CartState): (r: Held)
    ensures r.Copied? && r.st == next
    ensures h.Live? ==> r.subtotal == Subtotal(h.st) && r.tax == Tax(h.st) && r.total == Total(h.st)
    ensures h.Copied? ==> r.subtotal == h.subtotal && r.tax == h.tax && r.total == h.total
  {
    match h
    case Live(st) => Copied(next, Subtotal(st), Tax(st), Total(st))
    case Copied(_, a, b, c) => Copied(next, a, b, c)
  }

  /** What a component reads as `cartSubtotal`. */
  function ReadSubtotal(h: Held): int {
    if h.Live? then Subtotal(h.st) else h.subtotal
  }

  /** What a component reads as `cartTotal`. */
  function ReadTotal(h: Held): int {
    if h.Live? then Total(h.st) else h.total
  }

  /** A run of `set` calls, one per new cart state. */
  function MergeAll(h: Held, states: seq<CartState>): (r: Held)
    decreases |states|
  {
    if |states| == 0 then h else MergeAll(Merge(h, states[0]), states[1..])
  }

  /** As written: after any non-empty run of merges from the original object,
      the cart is the last state set, but the subtotal and total read are
      still those of the original state. */
  lemma {:induction false} FieldsFrozenAfterFirstMerge(st0: CartState, states: seq<CartState>)
    requires |states| >= 1
    ensures var h := MergeAll(Live(st0), states);
      && h.st == states[|states| - 1]
      && ReadSubtotal(h) == Subtotal(st0)
      && ReadTotal(h) == Total(st0)
  {
    CopiedStaysFrozen(Merge(Live(st0), states[0]), states[1..], states[0]);
  }

  lemma {:induction false} CopiedStaysFrozen(h: Held, states: seq<CartState>, last: CartState)
    requires h.Copied? && h.st == last
    ensures var r := MergeAll(h, states);
      && r.Copied? && r.subtotal == h.subtotal && r.tax == h.tax && r.total == h.total
      && r.st == (if |states| == 0 then last else states[|states| - 1])
    decreases |states|
  {
    if |states| > 0 {
      CopiedStaysFrozen(Merge(h, states[0]), states[1..], states[0]);
    }
  }

  /** A product with one variant at 12345. */
  const SampleVariant := Variant(1, "Default", "S-1", None, 1, 12345, None, 10000, true)
  const SampleProduct := Product(1, "Beras", 1, true, [SampleVariant], [Unit(1, "pcs", 1)], 0)

  /** As written, concretely: adding a 12345 line to the empty cart leaves
      `cartSubtotal` and `cartTotal` at 0, while the cart's own lines sum to 12345. */
  lemma StaleTotalAfterAdd()
    ensures var next := AddItem(EmptyCart, SampleProduct, SampleVariant, 0);
      var h := Merge(Live(EmptyCart), next);
      && ReadSubtotal(h) == 0 && ReadTotal(h) == 0
      && Subtotal(h.st) == 12345 && Total(h.st) == 12345
  {
    AddItemLineSum(EmptyCart, SampleProduct, SampleVariant, 0);
  }

  /** Intended: the live subtotal follows the cart. With a non-negative line
      sum, adding an item raises it by exactly the price of the line that
      grows (tax and discounts are read from the same live state). */
  lemma LiveSubtotalFollowsAdd(st: CartState, product: Product, variant: Variant, now: int, added: int)
    requires IdsUnique(st.cart) && LineSum(st.cart) >= 0
    requires added == (if FindPair(st.cart, product.id, variant.id).Some?
                       then st.cart[FindPair(st.cart, product.id, variant.id).value].price
                       else variant.retailPrice)
    requires added >= 0
    ensures Subtotal(AddItem(st, product, variant, now)) == Subtotal(st) + added
  {
    AddItemLineSum(st, product, variant, now);
  }
}
