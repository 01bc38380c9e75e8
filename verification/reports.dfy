/** Report aggregates over ledger records: the daily summary and the
    per-product sales table. */
module Reports {
  import opened Results
  import opened Entities
  import Seqs

  /** Σ quantity over cart lines. */
  function ItemQuantity(items: seq<CartItem>): int {
    if |items| == 0 then 0 else ItemQuantity(items[..|items| - 1]) + items[|items| - 1].quantity
  }

  function TotalRevenue(txs: seq<TxRecord>): int {
    if |txs| == 0 then 0 else TotalRevenue(txs[..|txs| - 1]) + txs[|txs| - 1].total
  }

  function ItemsSold(txs: seq<TxRecord>): int {
    if |txs| == 0 then 0 else ItemsSold(txs[..|txs| - 1]) + ItemQuantity(txs[|txs| - 1].items)
  }

  /** The summary; the average is an exact quotient. */
  datatype DailySummary = DailySummary(totalRevenue: int, transactionCount: nat, averageTransaction: real, itemsSold: int)

  /** `calculateDailySummary`. */
  function CalculateDailySummary(txs: seq<TxRecord>): (r: DailySummary)
    ensures r.transactionCount == |txs|
    ensures r.totalRevenue == TotalRevenue(txs) && r.itemsSold == ItemsSold(txs)
    ensures |txs| == 0 ==> r.averageTransaction == 0.0 && r.totalRevenue == 0 && r.itemsSold == 0
    ensures |txs| > 0 ==> r.averageTransaction * (|txs| as real) == r.totalRevenue as real
  {
    var revenue := TotalRevenue(txs);
    DailySummary(revenue, |txs|,
      if |txs| > 0 then (revenue as real) / (|txs| as real) else 0.0,
      ItemsSold(txs))
  }

  lemma {:induction false} ItemQuantityAppend(a: seq<CartItem>, b: seq<CartItem>)
    ensures ItemQuantity(a + b) == ItemQuantity(a) + ItemQuantity(b)
    decreases |b|
  {
    if |b| == 0 {
      assert a + b == a;
    } else {
      assert (a + b)[..|a + b| - 1] == a + b[..|b| - 1];
      ItemQuantityAppend(a, b[..|b| - 1]);
    }
  }

  /** Summaries of two periods add up to the summary of both. */
  lemma {:induction false} SummaryAppend(a: seq<TxRecord>, b: seq<TxRecord>)
    ensures TotalRevenue(a + b) == TotalRevenue(a) + TotalRevenue(b)
    ensures ItemsSold(a + b) == ItemsSold(a) + ItemsSold(b)
    decreases |b|
  {
    if |b| == 0 {
      assert a + b == a;
    } else {
      assert (a + b)[..|a + b| - 1] == a + b[..|b| - 1];
      SummaryAppend(a, b[..|b| - 1]);
    }
  }

  /** All cart lines of all transactions, in order. */
  function AllItems(txs: seq<TxRecord>): seq<CartItem> {
    if |txs| == 0 then [] else AllItems(txs[..|txs| - 1]) + txs[|txs| - 1].items
  }

  /** Items sold is the quantity of the flattened lines. */
  lemma {:induction false} ItemsSoldIsFlatQuantity(txs: seq<TxRecord>)
    ensures ItemsSold(txs) == ItemQuantity(AllItems(txs))
  {
    if |txs| > 0 {
      ItemsSoldIsFlatQuantity(txs[..|txs| - 1]);
      ItemQuantityAppend(AllItems(txs[..|txs| - 1]), txs[|txs| - 1].items);
    }
  }

  /** One row of the product-sales table. */
  datatype Sale = Sale(name: string, quantity: int, revenue: int)

  function LineRevenue(it: CartItem): int {
    it.price * it.quantity
  }

  /** Reference: Σ quantity over the lines with this name. */
  function QtyOf(items: seq<CartItem>, name: string): int {
    if |items| == 0 then 0
    else QtyOf(items[..|items| - 1], name) + (if items[|items| - 1].name == name then items[|items| - 1].quantity else 0)
  }

  /** Reference: Σ price × quantity over the lines with this name. */
  function RevOf(items: seq<CartItem>, name: string): int {
    if |items| == 0 then 0
    else RevOf(items[..|items| - 1], name) + (if items[|items| - 1].name == name then LineRevenue(items[|items| - 1]) else 0)
  }

  predicate HasName(items: seq<CartItem>, name: string) {
    exists k | 0 <= k < |items| :: items[k].name == name
  }

  predicate DistinctNames(entries: seq<Sale>) {
    forall i, j | 0 <= i < j < |entries| :: entries[i].name != entries[j].name
  }

  /** Position of the entry for `name`. */
  function IndexOfName(entries: seq<Sale>, name: string): (r: Option<nat>)
    ensures r.Some? ==> r.value < |entries| && entries[r.value].name == name
    ensures r.None? <==> forall i | 0 <= i < |entries| :: entries[i].name != name
  {
    if |entries| == 0 then None
    else if entries[0].name == name then Some(0)
    else match IndexOfName(entries[1..], name)
      case None => None
      case Some(i) => Some(i + 1)
  }

  /** One `productMap.set`: an existing name accumulates in place, a new name
      is appended (a Map keeps insertion order). */
  function Accumulate(entries: seq<Sale>, it: CartItem): seq<Sale> {
    match IndexOfName(entries, it.name)
    case Some(i) => entries[i := Sale(it.name, entries[i].quantity + it.quantity, entries[i].revenue + LineRevenue(it))]
    case None => entries + [Sale(it.name, it.quantity, LineRevenue(it))]
  }

  function Group(items: seq<CartItem>): seq<Sale> {
    if |items| == 0 then [] else Accumulate(Group(items[..|items| - 1]), items[|items| - 1])
  }

  /** `g` is the grouping of `items` according to the reference totals. */
  ghost predicate GroupedBy(g: seq<Sale>, items: seq<CartItem>) {
    && DistinctNames(g)
    && (forall name :: IndexOfName(g, name).Some? <==> HasName(items, name))
    && (forall i | 0 <= i < |g| :: g[i].quantity == QtyOf(items, g[i].name) && g[i].revenue == RevOf(items, g[i].name))
  }

  lemma HasNameSnoc(items: seq<CartItem>, name: string)
    requires |items| > 0
    ensures HasName(items, name) <==> HasName(items[..|items| - 1], name) || items[|items| - 1].name == name
  {
    var pre := items[..|items| - 1];
    if HasName(items, name) && items[|items| - 1].name != name {
      var k :| 0 <= k < |items| && items[k].name == name;
      assert pre[k].name == name;
    }
    if HasName(pre, name) {
      var k :| 0 <= k < |pre| && pre[k].name == name;
      assert items[k].name == name;
    }
  }

  /** Accumulating into an existing entry keeps the grouping invariant. */
  lemma AccumulateExisting(g0: seq<Sale>, items: seq<CartItem>, i: nat)
    requires |items| > 0 && GroupedBy(g0, items[..|items| - 1])
    requires IndexOfName(g0, items[|items| - 1].name) == Some(i)
    ensures GroupedBy(Accumulate(g0, items[|items| - 1]), items)
  {
    var it := items[|items| - 1];
    var g := Accumulate(g0, it);
    assert g == g0[i := Sale(it.name, g0[i].quantity + it.quantity, g0[i].revenue + LineRevenue(it))];
    forall name ensures IndexOfName(g, name).Some? <==> HasName(items, name) {
      HasNameSnoc(items, name);
      if IndexOfName(g0, name).Some? {
        assert g[IndexOfName(g0, name).value].name == name;
      }
      if IndexOfName(g, name).Some? {
        assert g0[IndexOfName(g, name).value].name == name;
      }
    }
    forall j | 0 <= j < |g| ensures g[j].quantity == QtyOf(items, g[j].name) && g[j].revenue == RevOf(items, g[j].name) {
      if j != i {
        assert g0[j].name != g0[i].name;
      }
    }
  }

  /** Appending an entry for a new name keeps the grouping invariant. */
  lemma AccumulateNew(g0: seq<Sale>, items: seq<CartItem>)
    requires |items| > 0 && GroupedBy(g0, items[..|items| - 1])
    requires IndexOfName(g0, items[|items| - 1].name).None?
    ensures GroupedBy(Accumulate(g0, items[|items| - 1]), items)
  {
    var pre := items[..|items| - 1];
    var it := items[|items| - 1];
    var g := Accumulate(g0, it);
    assert g == g0 + [Sale(it.name, it.quantity, LineRevenue(it))];
    NoNameNoTotals(pre, it.name);
    forall name ensures IndexOfName(g, name).Some? <==> HasName(items, name) {
      HasNameSnoc(items, name);
      if IndexOfName(g0, name).Some? {
        assert g[IndexOfName(g0, name).value].name == name;
      } else if name == it.name {
        assert g[|g0|].name == name;
      }
    }
  }

  /** Grouping agrees with the reference: one entry per distinct name, holding
      that name's total quantity and revenue. */
  lemma {:induction false} GroupMatchesReference(items: seq<CartItem>)
    ensures GroupedBy(Group(items), items)
  {
    if |items| > 0 {
      GroupMatchesReference(items[..|items| - 1]);
      match IndexOfName(Group(items[..|items| - 1]), items[|items| - 1].name)
      case Some(i) => AccumulateExisting(Group(items[..|items| - 1]), items, i);
      case None => AccumulateNew(Group(items[..|items| - 1]), items);
    }
  }

  lemma {:induction false} NoNameNoTotals(items: seq<CartItem>, name: string)
    requires !HasName(items, name)
    ensures QtyOf(items, name) == 0 && RevOf(items, name) == 0
  {
    if |items| > 0 {
      NoNameNoTotals(items[..|items| - 1], name);
    }
  }

  function SumQuantity(entries: seq<Sale>): int {
    if |entries| == 0 then 0 else entries[0].quantity + SumQuantity(entries[1..])
  }

  lemma {:induction false} SumQuantityAppend(a: seq<Sale>, b: seq<Sale>)
    ensures SumQuantity(a + b) == SumQuantity(a) + SumQuantity(b)
  {
    if |a| == 0 {
      assert a + b == b;
    } else {
      assert (a + b)[1..] == a[1..] + b;
      SumQuantityAppend(a[1..], b);
    }
  }

  lemma {:induction false} SumQuantityUpdate(entries: seq<Sale>, i: nat, e: Sale)
    requires i < |entries|
    ensures SumQuantity(entries[i := e]) == SumQuantity(entries) - entries[i].quantity + e.quantity
  {
    if i > 0 {
      assert entries[i := e][1..] == entries[1..][i - 1 := e];
      SumQuantityUpdate(entries[1..], i - 1, e);
    } else {
      assert entries[i := e][1..] == entries[1..];
    }
  }

  /** Grouping neither creates nor loses quantity. */
  lemma {:induction false} GroupKeepsQuantity(items: seq<CartItem>)
    ensures SumQuantity(Group(items)) == ItemQuantity(items)
  {
    if |items| > 0 {
      var pre := items[..|items| - 1];
      var it := items[|items| - 1];
      GroupKeepsQuantity(pre);
      var g0 := Group(pre);
      match IndexOfName(g0, it.name)
      case Some(i) =>
        SumQuantityUpdate(g0, i, Sale(it.name, g0[i].quantity + it.quantity, g0[i].revenue + LineRevenue(it)));
      case None =>
        SumQuantityAppend(g0, [Sale(it.name, it.quantity, LineRevenue(it))]);
        assert [Sale(it.name, it.quantity, LineRevenue(it))][1..] == [];
    }
  }

  /** Inserts `x` after every entry whose revenue is at least its own. */
  function InsertByRevenue(x: Sale, s: seq<Sale>): seq<Sale> {
    if |s| == 0 then [x]
    else if s[0].revenue >= x.revenue then [s[0]] + InsertByRevenue(x, s[1..])
    else [x] + s
  }

  lemma {:induction false} InsertPermutes(x: Sale, s: seq<Sale>)
    ensures multiset(InsertByRevenue(x, s)) == multiset(s) + multiset{x}
  {
    if |s| > 0 && s[0].revenue >= x.revenue {
      InsertPermutes(x, s[1..]);
      assert s == [s[0]] + s[1..];
    }
  }

  /** The stable sort by non-increasing revenue (`sort((a, b) => b.revenue - a.revenue)`). */
  function SortByRevenue(s: seq<Sale>): seq<Sale> {
    if |s| == 0 then [] else InsertByRevenue(s[|s| - 1], SortByRevenue(s[..|s| - 1]))
  }

  /** The sort is a permutation of its input. */
  lemma {:induction false} SortPermutes(s: seq<Sale>)
    ensures multiset(SortByRevenue(s)) == multiset(s)
  {
    if |s| > 0 {
      var pre, last := s[..|s| - 1], s[|s| - 1];
      SortPermutes(pre);
      InsertPermutes(last, SortByRevenue(pre));
      MultisetSnoc(s);
    }
  }

  lemma MultisetSnoc(s: seq<Sale>)
    requires |s| > 0
    ensures multiset(s) == multiset(s[..|s| - 1]) + multiset{s[|s| - 1]}
  {
    assert s == s[..|s| - 1] + [s[|s| - 1]];
  }

  predicate SortedByRevenue(s: seq<Sale>) {
    forall i, j | 0 <= i < j < |s| :: s[i].revenue >= s[j].revenue
  }

  lemma {:induction false} InsertKeepsSorted(x: Sale, s: seq<Sale>)
    requires SortedByRevenue(s)
    ensures SortedByRevenue(InsertByRevenue(x, s))
  {
    if |s| > 0 && s[0].revenue >= x.revenue {
      InsertKeepsSorted(x, s[1..]);
      InsertPermutes(x, s[1..]);
      var r := InsertByRevenue(x, s);
      forall j | 1 <= j < |r| ensures r[0].revenue >= r[j].revenue {
        assert r[j] in multiset(InsertByRevenue(x, s[1..]));
        assert r[j] in multiset(s[1..]) + multiset{x};
        if r[j] != x {
          var k :| 0 <= k < |s[1..]| && s[1..][k] == r[j];
          assert s[k + 1] == r[j];
        }
      }
    }
  }

  /** The sort result is ordered by revenue, non-increasing. */
  lemma {:induction false} SortIsSorted(s: seq<Sale>)
    ensures SortedByRevenue(SortByRevenue(s))
  {
    if |s| > 0 {
      SortIsSorted(s[..|s| - 1]);
      InsertKeepsSorted(s[|s| - 1], SortByRevenue(s[..|s| - 1]));
    }
  }

  function RevenueIs(v: int): Sale -> bool {
    (e: Sale) => e.revenue == v
  }

  lemma {:induction false} InsertStable(x: Sale, s: seq<Sale>, v: int)
    requires SortedByRevenue(s)
    ensures Seqs.Filter(InsertByRevenue(x, s), RevenueIs(v)) ==
      Seqs.Filter(s, RevenueIs(v)) + (if x.revenue == v then [x] else [])
  {
    if |s| == 0 {
    } else if s[0].revenue >= x.revenue {
      InsertStable(x, s[1..], v);
      assert InsertByRevenue(x, s)[1..] == InsertByRevenue(x, s[1..]);
    } else {
      assert InsertByRevenue(x, s)[1..] == s;
      if x.revenue == v {
        forall k | 0 <= k < |s| ensures s[k].revenue != v {
          assert s[0].revenue >= s[k].revenue;
        }
        FilterNone(s, v);
      }
    }
  }

  lemma {:induction false} FilterNone(s: seq<Sale>, v: int)
    requires forall k | 0 <= k < |s| :: s[k].revenue != v
    ensures Seqs.Filter(s, RevenueIs(v)) == []
  {
    if |s| > 0 {
      FilterNone(s[1..], v);
    }
  }

  /** Stability: the entries of any one revenue keep their input order. */
  lemma {:induction false} SortIsStable(s: seq<Sale>, v: int)
    ensures Seqs.Filter(SortByRevenue(s), RevenueIs(v)) == Seqs.Filter(s, RevenueIs(v))
  {
    if |s| > 0 {
      var pre, last := s[..|s| - 1], s[|s| - 1];
      SortIsStable(pre, v);
      SortIsSorted(pre);
      InsertStable(last, SortByRevenue(pre), v);
      Seqs.FilterSnoc(s, RevenueIs(v));
    }
  }

  lemma {:induction false} SumQuantityInsert(x: Sale, s: seq<Sale>)
    ensures SumQuantity(InsertByRevenue(x, s)) == SumQuantity(s) + x.quantity
  {
    if |s| > 0 && s[0].revenue >= x.revenue {
      SumQuantityInsert(x, s[1..]);
      assert InsertByRevenue(x, s)[1..] == InsertByRevenue(x, s[1..]);
    } else if |s| > 0 {
      assert InsertByRevenue(x, s)[1..] == s;
    }
  }

  lemma {:induction false} SumQuantitySort(s: seq<Sale>)
    ensures SumQuantity(SortByRevenue(s)) == SumQuantity(s)
  {
    if |s| > 0 {
      var pre := s[..|s| - 1];
      SumQuantitySort(pre);
      SumQuantityInsert(s[|s| - 1], SortByRevenue(pre));
      assert s == pre + [s[|s| - 1]];
      SumQuantityAppend(pre, [s[|s| - 1]]);
      assert [s[|s| - 1]][1..] == [];
    }
  }

  /** `calculateProductSales` (without the float `avgPrice` column). */
  function CalculateProductSales(txs: seq<TxRecord>): (r: seq<Sale>)
    ensures multiset(r) == multiset(Group(AllItems(txs)))
  {
    SortPermutes(Group(AllItems(txs)));
    SortByRevenue(Group(AllItems(txs)))
  }

  /** The table's rows: one per distinct item name, each carrying that name's
      total quantity and revenue, ordered by revenue. */
  lemma ProductSalesCharacterization(txs: seq<TxRecord>)
    ensures var r := CalculateProductSales(txs);
      var items := AllItems(txs);
      && SortedByRevenue(r)
      && |r| == |Group(items)|
      && (forall e | e in r :: HasName(items, e.name) && e.quantity == QtyOf(items, e.name) && e.revenue == RevOf(items, e.name))
      && (forall name | HasName(items, name) :: exists e | e in r :: e.name == name)
  {
    var items := AllItems(txs);
    var g := Group(items);
    var r := CalculateProductSales(txs);
    SortIsSorted(g);
    GroupMatchesReference(items);
    assert GroupedBy(g, items);
    assert |r| == |multiset(r)| == |multiset(g)| == |g|;
    forall e | e in r ensures HasName(items, e.name) && e.quantity == QtyOf(items, e.name) && e.revenue == RevOf(items, e.name) {
      assert e in multiset(g);
      var i :| 0 <= i < |g| && g[i] == e;
      assert IndexOfName(g, e.name).Some?;
    }
    forall name | HasName(items, name) ensures exists e | e in r :: e.name == name {
      var i := IndexOfName(g, name).value;
      assert g[i] in multiset(r);
    }
  }

  /** The quantities in the product-sales table add up to the summary's items sold. */
  lemma ProductSalesMatchItemsSold(txs: seq<TxRecord>)
    ensures SumQuantity(CalculateProductSales(txs)) == CalculateDailySummary(txs).itemsSold
  {
    SumQuantitySort(Group(AllItems(txs)));
    GroupKeepsQuantity(AllItems(txs));
    ItemsSoldIsFlatQuantity(txs);
  }
}
