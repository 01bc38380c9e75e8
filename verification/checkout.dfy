/** The checkout screen: payment entry, the amounts shown, and completion of
    the sale into the local ledger. `number` stands for `Number(...)` applied
    to the text of a numeric input field. */
module Checkout {
  import opened Results
  import opened Entities
  import opened OfflineStore
  import opened Cart
  import opened PaymentValidation

  /** The payments added so far and the two input fields. */
  datatype PaymentForm = PaymentForm(payments: seq<Payment>, currentMethodId: string, currentAmount: string)

  /** `totalPaid`: the sum of the added amounts. */
  function TotalPaid(payments: seq<Payment>): int {
    if |payments| == 0 then 0 else TotalPaid(payments[..|payments| - 1]) + payments[|payments| - 1].amount
  }

  /** `remaining`: what is still due (negative when overpaid). */
  function Remaining(cartTotal: int, payments: seq<Payment>): (r: int)
    ensures r + TotalPaid(payments) == cartTotal
  {
    cartTotal - TotalPaid(payments)
  }

  /** `addPayment`: both fields must be filled and the amount positive;
      otherwise the form is left as it was. A valid entry appends one payment
      and clears both fields. */
  function AddPayment(form: PaymentForm, number: string -> int): (r: Result<PaymentForm, string>)
    ensures r.Ok? <==> form.currentMethodId != "" && form.currentAmount != "" && number(form.currentAmount) > 0
    ensures (form.currentMethodId == "" || form.currentAmount == "") ==>
      r == Err("Please select payment method and enter amount")
    ensures form.currentMethodId != "" && form.currentAmount != "" && number(form.currentAmount) <= 0 ==>
      r == Err("Amount must be greater than 0")
    ensures r.Ok? ==>
      && r.value.payments == form.payments + [Payment(number(form.currentMethodId), number(form.currentAmount))]
      && r.value.currentMethodId == "" && r.value.currentAmount == ""
  {
    if form.currentMethodId == "" || form.currentAmount == "" then
      Err("Please select payment method and enter amount")
    else
      var amount := number(form.currentAmount);
      if amount <= 0 then Err("Amount must be greater than 0")
      else Ok(PaymentForm(form.payments + [Payment(number(form.currentMethodId), amount)], "", ""))
  }

  /** An accepted payment adds its amount to the paid total and takes it off
      the remaining amount, which therefore strictly decreases. */
  lemma AddPaymentReducesRemaining(form: PaymentForm, number: string -> int, cartTotal: int)
    requires AddPayment(form, number).Ok?
    ensures var ps := AddPayment(form, number).value.payments;
      && TotalPaid(ps) == TotalPaid(form.payments) + number(form.currentAmount)
      && Remaining(cartTotal, ps) < Remaining(cartTotal, form.payments)
  {
    var ps := AddPayment(form, number).value.payments;
    assert ps[..|ps| - 1] == form.payments;
  }

  /** The outcome of completing a sale. */
  datatype Completion = Completion(store: Store, cart: CartState, result: Result<nat, string>)

  /** The arguments the checkout passes to `createTransaction`: lines,
      payments and the cart total only. */
  function CheckoutInput(cart: CartState, payments: seq<Payment>): TxInput {
    TxInput(cart.cart, payments, Total(cart), None, None, None, None)
  }

  /** Shared completion step: create the sale, and clear the cart only once
      the ledger add has resolved. */
  function Complete(store: Store, cart: CartState, payments: seq<Payment>, input: TxInput, now: int, fault: Fault): (c: Completion)
    requires Valid(store)
    ensures Valid(c.store)
  {
    var v := ValidatePayment(TotalPaid(payments), Total(cart), payments);
    if !v.valid then Completion(store, cart, Err(v.error.GetOr("")))
    else
      var e := CreateTransaction(store, input, now, fault);
      if e.result.Ok? then Completion(e.store, ClearCart(cart), Ok(e.result.value))
      else Completion(e.store, cart, Err("Failed to complete transaction"))
  }

  /** `handleComplete`: nothing is created unless the payments validate; the
      cart is cleared only when the sale was stored; the stored record has its
      subtotal equal to its total and no discount or tax. */
  function HandleComplete(store: Store, cart: CartState, payments: seq<Payment>, now: int, fault: Fault): (c: Completion)
    requires Valid(store)
    ensures Valid(c.store)
    ensures !ValidatePayment(TotalPaid(payments), Total(cart), payments).valid ==>
      c.store == store && c.cart == cart && c.result.Err?
    ensures ValidatePayment(TotalPaid(payments), Total(cart), payments).valid && fault == FirstWriteFails ==>
      c.store == store && c.cart == cart && c.result.Err?
    ensures ValidatePayment(TotalPaid(payments), Total(cart), payments).valid && fault != FirstWriteFails ==>
      && c.result == Ok(store.nextTxId)
      && c.cart == EmptyCart
      && c.store.transactions.Keys == store.transactions.Keys + {store.nextTxId}
      && var rec := c.store.transactions[store.nextTxId];
         rec.items == cart.cart && rec.payments == payments && rec.total == Total(cart)
         && rec.subtotal == rec.total && rec.discount == 0 && rec.tax == 0 && rec.status == Completed
  {
    Complete(store, cart, payments, CheckoutInput(cart, payments), now, fault)
  }

  /** The sale input with the cart's own breakdown passed along. */
  function CheckoutInputWithBreakdown(cart: CartState, payments: seq<Payment>): TxInput {
    TxInput(cart.cart, payments, Total(cart), Some(Subtotal(cart)), Some(cart.cartDiscount), Some(Tax(cart)), None)
  }

  /** Completion that stores the cart's subtotal, discount and tax, so the
      record's breakdown adds up to its total whenever the total was not
      clamped at zero. */
  function HandleCompleteWithBreakdown(store: Store, cart: CartState, payments: seq<Payment>, now: int, fault: Fault): (c: Completion)
    requires Valid(store)
    ensures Valid(c.store)
    ensures !ValidatePayment(TotalPaid(payments), Total(cart), payments).valid ==>
      c.store == store && c.cart == cart && c.result.Err?
    ensures ValidatePayment(TotalPaid(payments), Total(cart), payments).valid && fault != FirstWriteFails ==>
      && c.result == Ok(store.nextTxId)
      && c.cart == EmptyCart
      && store.nextTxId in c.store.transactions
      && var rec := c.store.transactions[store.nextTxId];
         rec.total == Total(cart) && rec.subtotal == Subtotal(cart) && rec.tax == Tax(cart)
         && (cart.cartDiscount >= 0 ==> rec.discount == cart.cartDiscount)
         && (cart.cartDiscount >= 0 && Subtotal(cart) - cart.cartDiscount + Tax(cart) >= 0 ==>
               rec.subtotal - rec.discount + rec.tax == rec.total)
  {
    Complete(store, cart, payments, CheckoutInputWithBreakdown(cart, payments), now, fault)
  }

  /** As written, a taxed sale loses its tax in the ledger: one line of 12345
      with tax on is paid 13580, the record stores subtotal 13580, tax 0,
      although the cart charged 1235 tax on a 12345 subtotal. */
  lemma CheckoutDropsTax(now: int)
    ensures var cart := CartState([CartItem("1-1-0", 1, 1, "x", "x", 12345, 1, "pcs", None, 0)], 0, true);
      var payments := [Payment(1, 13580)];
      var c := HandleComplete(EmptyStore(), cart, payments, now, NoFault);
      && Tax(cart) == 1235 && Subtotal(cart) == 12345
      && c.result == Ok(1)
      && c.store.transactions[1].tax == 0 && c.store.transactions[1].subtotal == 13580
  {
    var cart := CartState([CartItem("1-1-0", 1, 1, "x", "x", 12345, 1, "pcs", None, 0)], 0, true);
    TaxExample();
    var payments := [Payment(1, 13580)];
    assert TotalPaid(payments) == 13580 by {
      assert payments[..0] == [];
    }
  }
}
