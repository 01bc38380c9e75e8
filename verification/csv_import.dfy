/** CSV import of products: header check, per-row validation, and the writes
    that append the accepted products. `number` is JavaScript's `Number`
    conversion, with `None` standing for NaN. */
module CsvImport {
  import opened Results
  import opened Entities
  import opened OfflineStore
  import Text
  import Seqs
  import CsvCodec
  import CsvExport
  import PageWrites
  import MasterDataCache

  const EmptyFile := "File CSV kosong"
  const NameEmpty := "Nama produk tidak boleh kosong"
  const CategoryInvalid := "ID kategori tidak valid"
  const SkuEmpty := "SKU tidak boleh kosong"
  const RetailInvalid := "Harga eceran tidak valid"
  const CostInvalid := "Harga pokok tidak valid"

  /** The single error reported for a header of the wrong width. */
  function HeaderError(): string {
    "Baris 1: Format header tidak valid. Diharapkan: " + Text.Join(CsvExport.ProductHeaders, ';')
  }

  predicate NonBlank(line: string) {
    !Text.IsBlank(line)
  }

  /** The file's lines with blank ones dropped. */
  function Lines(text: string): (r: seq<string>)
    ensures forall k | 0 <= k < |r| :: NonBlank(r[k])
    ensures Seqs.IsSubsequence(r, Text.Split(text, '\n'))
    ensures var all := Text.Split(text, '\n');
      forall k | 0 <= k < |all| :: multiset(r)[all[k]] == if NonBlank(all[k]) then multiset(all)[all[k]] else 0
  {
    Seqs.FilterIsSubsequence(Text.Split(text, '\n'), NonBlank);
    Seqs.FilterMultiplicity(Text.Split(text, '\n'), NonBlank);
    Seqs.Filter(Text.Split(text, '\n'), NonBlank)
  }

  /** The label of the line at index `i` of the non-blank lines. */
  function RowLabel(i: nat): string {
    "Baris " + Text.NatToDecimal(i + 1)
  }

  /** The first failing check of a row, in the order name, category, SKU,
      retail price, cost. */
  function CheckRow(values: seq<string>, number: string -> Option<int>): (r: Option<string>)
    requires |values| == 8
    ensures r.None? <==>
      && Text.Trim(values[0]) != [] && number(values[1]).Some? && Text.Trim(values[2]) != []
      && number(values[4]).Some? && number(values[6]).Some?
    ensures r == Some(NameEmpty) <==> Text.Trim(values[0]) == []
    ensures r == Some(CategoryInvalid) <==> Text.Trim(values[0]) != [] && number(values[1]).None?
    ensures r == Some(SkuEmpty) <==> Text.Trim(values[0]) != [] && number(values[1]).Some? && Text.Trim(values[2]) == []
    ensures r == Some(RetailInvalid) <==>
      Text.Trim(values[0]) != [] && number(values[1]).Some? && Text.Trim(values[2]) != [] && number(values[4]).None?
    ensures r == Some(CostInvalid) <==>
      && Text.Trim(values[0]) != [] && number(values[1]).Some? && Text.Trim(values[2]) != []
      && number(values[4]).Some? && number(values[6]).None?
  {
    if Text.Trim(values[0]) == [] then Some(NameEmpty)
    else if number(values[1]).None? then Some(CategoryInvalid)
    else if Text.Trim(values[2]) == [] then Some(SkuEmpty)
    else if number(values[4]).None? then Some(RetailInvalid)
    else if number(values[6]).None? then Some(CostInvalid)
    else None
  }

  /** `aktif` is true for 'true' in any letter case, or '1'. */
  function ActiveFlag(s: string): bool {
    Text.Lower(s) == "true" || s == "1"
  }

  /** The product built from a valid row at line index `i`: ids from the clock
      plus the index, one 'Default' variant, the 'pcs' unit, stock 0. */
  function BuildProduct(values: seq<string>, i: nat, number: string -> Option<int>, now: int): (p: Product)
    requires |values| == 8
    ensures p.id == now + i && p.stock == 0 && |p.variants| == 1 && p.units == [Unit(1, "pcs", 1)]
    ensures p.name == Text.Trim(values[0]) && p.variants[0].sku == Text.Trim(values[2])
    ensures p.variants[0].barcode.None? <==> Text.Trim(values[3]) == []
    ensures values[5] == [] ==> p.variants[0].wholesalePrice.None?
    ensures values[5] != [] ==> p.variants[0].wholesalePrice == number(values[5])
    ensures p.variants[0].barcode.Some? ==> p.variants[0].barcode.value == Text.Trim(values[3])
    ensures p.categoryId == number(values[1]).GetOr(0)
    ensures p.variants[0].retailPrice == number(values[4]).GetOr(0) && p.variants[0].cost == number(values[6]).GetOr(0)
    ensures p.active == ActiveFlag(values[7]) && p.variants[0].active == ActiveFlag(values[7])
    ensures p.variants[0].id == now + i && p.variants[0].name == "Default" && p.variants[0].baseUnitId == 1
  {
    var barcode := Text.Trim(values[3]);
    var active := ActiveFlag(values[7]);
    var variant := Variant(now + i, "Default", Text.Trim(values[2]),
      if barcode != [] then Some(barcode) else None, 1,
      number(values[4]).GetOr(0),
      if values[5] != [] then number(values[5]) else None,
      number(values[6]).GetOr(0), active);
    Product(now + i, Text.Trim(values[0]), number(values[1]).GetOr(0), active, [variant], [Unit(1, "pcs", 1)], 0)
  }

  /** `s` is the decimal text `String` writes for the number `number` reads from it. */
  predicate ReadsBack(number: string -> Option<int>, s: string) {
    number(s).Some? && Text.IntToDecimal(number(s).value) == s
  }

  /** A row the export could have written: trimmed text cells, canonical
      numbers, a non-zero wholesale price or none, and 'true' or 'false'. */
  predicate CanonicalRow(values: seq<string>, number: string -> Option<int>)
    requires |values| == 8
  {
    && Text.Trim(values[0]) == values[0] && Text.Trim(values[2]) == values[2] && Text.Trim(values[3]) == values[3]
    && ReadsBack(number, values[1]) && ReadsBack(number, values[4]) && ReadsBack(number, values[6])
    && (values[5] != [] ==> ReadsBack(number, values[5]) && number(values[5]).value != 0)
    && (values[7] == "true" || values[7] == "false")
  }

  /** Importing a canonical row and exporting the product gives back the
      row's eight cells. */
  lemma ImportedRowExportsBack(values: seq<string>, i: nat, number: string -> Option<int>, now: int)
    requires |values| == 8 && CanonicalRow(values, number)
    ensures var cells := CsvExport.ProductCells(BuildProduct(values, i, number, now));
      && cells.Some? && |cells.value| == 8
      && forall j | 0 <= j < 8 :: cells.value[j] == Some(values[j])
  {
    var p := BuildProduct(values, i, number, now);
    assert Text.Lower("true") == "true";
    assert ActiveFlag(values[7]) <==> values[7] == "true";
    var cells := CsvExport.ProductCells(p).value;
    assert cells[3] == Some(values[3]);
    assert cells[5] == Some(values[5]);
    assert cells[7] == Some(values[7]);
  }

  datatype RowOutcome = Accepted(product: Product) | Rejected(message: string)

  /** What happens to the data line at index `i` (the header is index 0). */
  function ProcessRow(line: string, i: nat, number: string -> Option<int>, now: int): (r: RowOutcome)
    ensures |CsvCodec.ParseLine(line)| != 8 ==>
      r == Rejected(RowLabel(i) + ": Jumlah kolom tidak valid (diharapkan " + Text.NatToDecimal(8) + ", ditemukan "
                    + Text.NatToDecimal(|CsvCodec.ParseLine(line)|) + ")")
    ensures |CsvCodec.ParseLine(line)| == 8 ==>
      && (r.Accepted? <==> CheckRow(CsvCodec.ParseLine(line), number).None?)
      && (r.Rejected? ==> r.message == RowLabel(i) + ": " + CheckRow(CsvCodec.ParseLine(line), number).value)
  {
    var values := CsvCodec.ParseLine(line);
    if |values| != 8 then
      Rejected(RowLabel(i) + ": Jumlah kolom tidak valid (diharapkan " + Text.NatToDecimal(8) + ", ditemukan " + Text.NatToDecimal(|values|) + ")")
    else match CheckRow(values, number)
      case Some(m) => Rejected(RowLabel(i) + ": " + m)
      case None => Accepted(BuildProduct(values, i, number, now))
  }

  /** Reference: the outcome of every data line, in file order. */
  function Outcomes(lines: seq<string>, number: string -> Option<int>, now: int): (r: seq<RowOutcome>)
    requires |lines| >= 1
    ensures |r| == |lines| - 1
    ensures forall k | 0 <= k < |r| :: r[k] == ProcessRow(lines[k + 1], k + 1, number, now)
  {
    seq(|lines| - 1, k requires 0 <= k < |lines| - 1 => ProcessRow(lines[k + 1], k + 1, number, now))
  }

  function AcceptedOf(os: seq<RowOutcome>): seq<Product> {
    if |os| == 0 then []
    else AcceptedOf(os[..|os| - 1]) + (if os[|os| - 1].Accepted? then [os[|os| - 1].product] else [])
  }

  function RejectedOf(os: seq<RowOutcome>): seq<string> {
    if |os| == 0 then []
    else RejectedOf(os[..|os| - 1]) + (if os[|os| - 1].Rejected? then [os[|os| - 1].message] else [])
  }

  /** Every data line is either accepted or reported. */
  lemma {:induction false} OutcomesPartition(os: seq<RowOutcome>)
    ensures |AcceptedOf(os)| + |RejectedOf(os)| == |os|
  {
    if |os| > 0 {
      OutcomesPartition(os[..|os| - 1]);
    }
  }

  lemma SnocOutcome(os: seq<RowOutcome>, i: nat)
    requires 1 <= i <= |os|
    ensures AcceptedOf(os[..i]) == AcceptedOf(os[..i - 1]) + (if os[i - 1].Accepted? then [os[i - 1].product] else [])
    ensures RejectedOf(os[..i]) == RejectedOf(os[..i - 1]) + (if os[i - 1].Rejected? then [os[i - 1].message] else [])
  {
    assert os[..i][..i - 1] == os[..i - 1];
  }

  datatype ImportReport = ImportReport(imported: nat, errors: seq<string>)

  /** The enqueue writes of the accepted products, one 'product'/'create' each. */
  function CreateWrites(products: seq<Product>): (ws: seq<Write>)
    ensures |ws| == |products|
    ensures forall k | 0 <= k < |ws| :: ws[k] == Enqueue("product", "create", ProductData(products[k]))
  {
    seq(|products|, k requires 0 <= k < |products| => Enqueue("product", "create", ProductData(products[k])))
  }

  /** `importProductsCsv` on the store `s`. The loop mirrors the source's row
      loop; its body is `ProcessRow`, where the column count is compared with
      the header's, which is 8 by then. When rows were accepted, the stored
      product list is read (an absent list reads as empty) and the accepted
      products are saved after it. */
  method ImportProductsCsv(text: string, s: Store, number: string -> Option<int>, now: int)
    returns (outcome: Result<ImportReport, string>, plan: PageWrites.Plan)
    ensures plan.completes
    ensures outcome.Err? <==> |Lines(text)| == 0
    ensures outcome.Err? ==> outcome.error == EmptyFile && plan.writes == []
    ensures |Lines(text)| > 0 && |CsvCodec.ParseLine(Lines(text)[0])| != 8 ==>
      outcome == Ok(ImportReport(0, [HeaderError()])) && plan.writes == []
    ensures |Lines(text)| > 0 && |CsvCodec.ParseLine(Lines(text)[0])| == 8 ==>
      && var os := Outcomes(Lines(text), number, now);
      && var accepted := AcceptedOf(os);
      && outcome == Ok(ImportReport(|accepted|, RejectedOf(os)))
      && (|accepted| == 0 ==> plan.writes == [])
      && (|accepted| > 0 ==>
            plan.writes == [Save("products", Products(MasterDataCache.ListProducts(s) + accepted))] + CreateWrites(accepted))
  {
    var lines := Lines(text);
    if |lines| == 0 {
      return Err(EmptyFile), PageWrites.NoWrites;
    }
    var headers := CsvCodec.ParseCsvLine(lines[0]);
    if |headers| != 8 {
      return Ok(ImportReport(0, [HeaderError()])), PageWrites.NoWrites;
    }
    var products, errors := ProcessRows(lines, number, now);
    if |products| > 0 {
      var existing := MasterDataCache.ListProducts(s);
      plan := PageWrites.Plan([Save("products", Products(existing + products))] + CreateWrites(products), true);
    } else {
      plan := PageWrites.NoWrites;
    }
    outcome := Ok(ImportReport(|products|, errors));
  }

  /** The source's row loop over the data lines: accepted rows collect their
      products, rejected rows their messages, both in file order. */
  method ProcessRows(lines: seq<string>, number: string -> Option<int>, now: int)
    returns (products: seq<Product>, errors: seq<string>)
    requires |lines| >= 1
    ensures products == AcceptedOf(Outcomes(lines, number, now))
    ensures errors == RejectedOf(Outcomes(lines, number, now))
  {
    ghost var os := Outcomes(lines, number, now);
    products, errors := [], [];
    var i := 1;
    while i < |lines|
      invariant 1 <= i <= |lines|
      invariant products == AcceptedOf(os[..i - 1])
      invariant errors == RejectedOf(os[..i - 1])
    {
      var o := ProcessRow(lines[i], i, number, now);
      assert o == os[i - 1];
      SnocOutcome(os, i);
      if o.Accepted? {
        products := products + [o.product];
      } else {
        errors := errors + [o.message];
      }
      i := i + 1;
    }
    assert os[..i - 1] == os;
  }

  lemma {:induction false} EnqueuedCreates(products: seq<Product>, now: int)
    ensures Enqueued(CreateWrites(products), now) ==
      seq(|products|, k requires 0 <= k < |products| => SyncItem("product", "create", ProductData(products[k]), Pending, 0, now))
  {
    if |products| > 0 {
      EnqueuedCreates(products[1..], now);
      assert CreateWrites(products)[1..] == CreateWrites(products[1..]);
    }
  }

  /** Run to completion on the store it read from, an import with accepted
      rows leaves the product list as the stored list followed by the accepted
      products, and queues one 'product'/'create' item per accepted product,
      in file order, at consecutive ids. */
  lemma ImportWritesEffect(s: Store, accepted: seq<Product>, now: int, k: nat)
    requires Valid(s) && |accepted| > 0 && k < |accepted|
    ensures var existing := MasterDataCache.ListProducts(s);
      var e := ApplyWrites(s, [Save("products", Products(existing + accepted))] + CreateWrites(accepted), now);
      && GetMasterData(e, "products") == Some(Products(existing + accepted))
      && MasterDataCache.ListProducts(e) == MasterDataCache.ListProducts(s) + accepted
      && e.nextSyncId == s.nextSyncId + |accepted|
      && s.nextSyncId + k in e.syncQueue
      && e.syncQueue[s.nextSyncId + k] == SyncItem("product", "create", ProductData(accepted[k]), Pending, 0, now)
  {
    var existing := MasterDataCache.ListProducts(s);
    var ws := [Save("products", Products(existing + accepted))] + CreateWrites(accepted);
    EnqueuedCreates(accepted, now);
    assert ws[1..] == CreateWrites(accepted);
    assert Enqueued(ws, now) == Enqueued(CreateWrites(accepted), now);
    LastSaveCreates(accepted);
    assert LastSave(ws, "products") == Some(Products(existing + accepted));
    ApplyWritesEnqueuedAt(s, ws, now, k);
    assert MasterDataCache.UseMasterData(ApplyWrites(s, ws, now), MasterDataCache.ProductsKey) == Products(existing + accepted);
  }

  lemma {:induction false} LastSaveCreates(products: seq<Product>)
    ensures LastSave(CreateWrites(products), "products") == None
  {
    if |products| > 0 {
      LastSaveCreates(products[1..]);
      assert CreateWrites(products)[1..] == CreateWrites(products[1..]);
    }
  }
}
