/** Ledger helpers: net sales by status and returning refunded goods to stock. */
module TransactionLedger {
  import opened Results
  import opened Entities
  import Inventory

  /** A ledger row as net sales sees it. */
  datatype LedgerRow = LedgerRow(status: TxStatus, total: int, refundedAmount: int)

  /** What one row adds to net sales. */
  function Contribution(tx: LedgerRow): (c: int)
    ensures tx.status == Voided || tx.status == FullyRefunded ==> c == 0
    ensures tx.status == PartiallyRefunded ==> c == tx.total - tx.refundedAmount
    ensures tx.status == Completed ==> c == tx.total
  {
    match tx.status
    case Voided => 0
    case FullyRefunded => 0
    case PartiallyRefunded => tx.total - tx.refundedAmount
    case Completed => tx.total
  }

  /** `calculateNetSales`: the left fold of the contributions. */
  function NetSales(txs: seq<LedgerRow>): int {
    if |txs| == 0 then 0 else NetSales(txs[..|txs| - 1]) + Contribution(txs[|txs| - 1])
  }

  /** Net sales of a concatenation is the sum of the parts. */
  lemma {:induction false} NetSalesAppend(a: seq<LedgerRow>, b: seq<LedgerRow>)
    ensures NetSales(a + b) == NetSales(a) + NetSales(b)
    decreases |b|
  {
    if |b| == 0 {
      assert a + b == a;
    } else {
      assert (a + b)[..|a + b| - 1] == a + b[..|b| - 1];
      NetSalesAppend(a, b[..|b| - 1]);
    }
  }

  /** Voiding or fully refunding any row lowers net sales by exactly what it contributed. */
  lemma VoidRemovesContribution(txs: seq<LedgerRow>, i: nat, status: TxStatus)
    requires i < |txs| && (status == Voided || status == FullyRefunded)
    ensures NetSales(txs[i := txs[i].(status := status)]) == NetSales(txs) - Contribution(txs[i])
  {
    var t := txs[i := txs[i].(status := status)];
    assert txs == txs[..i] + [txs[i]] + txs[i + 1..];
    assert t == txs[..i] + [t[i]] + txs[i + 1..];
    NetSalesAppend(txs[..i] + [txs[i]], txs[i + 1..]);
    NetSalesAppend(txs[..i], [txs[i]]);
    NetSalesAppend(txs[..i] + [t[i]], txs[i + 1..]);
    NetSalesAppend(txs[..i], [t[i]]);
    assert [txs[i]][..0] == [] && [t[i]][..0] == [];
  }

  datatype RefundItem = RefundItem(productId: int, quantity: int)

  /** `refund.items.find(item => item.productId === id)`. */
  function FirstRefundFor(items: seq<RefundItem>, id: int): (r: Option<RefundItem>)
    ensures r.Some? ==> r.value in items && r.value.productId == id
    ensures r.None? <==> forall it | it in items :: it.productId != id
    ensures |items| > 0 && items[0].productId == id ==> r == Some(items[0])
  {
    if |items| == 0 then None
    else if items[0].productId == id then Some(items[0])
    else FirstRefundFor(items[1..], id)
  }

  /** `applyRefundToInventory`: each product gains the quantity of the first
      refund item naming it; other products are unchanged. */
  function ApplyRefundToInventory(refund: seq<RefundItem>, products: seq<Product>): (r: seq<Product>)
    ensures |r| == |products|
    ensures forall i | 0 <= i < |r| && FirstRefundFor(refund, products[i].id).None? :: r[i] == products[i]
    ensures forall i | 0 <= i < |r| && FirstRefundFor(refund, products[i].id).Some? ::
      r[i] == products[i].(stock := products[i].stock + FirstRefundFor(refund, products[i].id).value.quantity)
  {
    seq(|products|, i requires 0 <= i < |products| =>
      match FirstRefundFor(refund, products[i].id)
      case None => products[i]
      case Some(it) => products[i].(stock := products[i].stock + it.quantity))
  }

  /** A one-item refund is the inventory page's stock adjustment by that quantity. */
  lemma SingleRefundIsAdjustment(products: seq<Product>, productId: int, quantity: int)
    ensures ApplyRefundToInventory([RefundItem(productId, quantity)], products)
      == Inventory.AdjustStock(products, productId, quantity)
  {
    var r := ApplyRefundToInventory([RefundItem(productId, quantity)], products);
    var a := Inventory.AdjustStock(products, productId, quantity);
    forall i | 0 <= i < |r| ensures r[i] == a[i] {
      if products[i].id == productId {
        assert FirstRefundFor([RefundItem(productId, quantity)], products[i].id) == Some(RefundItem(productId, quantity));
      }
    }
  }
}
