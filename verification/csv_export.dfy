/** CSV export: the product catalog file and the generic report file, both
    ';'-separated with '\n' between lines. */
module CsvExport {
  import opened Results
  import opened Entities
  import Text
  import CsvCodec

  /** The column names of the product file, in order. */
  const ProductHeaders: seq<string> :=
    ["nama", "idKategori", "sku", "barcode", "hargaEceran", "hargaGrosir", "hargaPokok", "aktif"]

  /** `String(b)` for a boolean. */
  function BoolText(b: bool): string {
    if b then "true" else "false"
  }

  /** The eight cell values of a product, read from its first variant; an
      absent or empty barcode and an absent or zero wholesale price are written
      as ''. A product without a variant has no row (the source throws). */
  function ProductCells(p: Product): (r: Option<seq<Option<string>>>)
    ensures r.Some? <==> |p.variants| > 0
    ensures r.Some? ==> |r.value| == |ProductHeaders|
    ensures r.Some? ==> forall k | 0 <= k < |r.value| :: r.value[k].Some?
    ensures r.Some? ==>
      && r.value[0] == Some(p.name) && r.value[1] == Some(Text.IntToDecimal(p.categoryId))
      && r.value[2] == Some(p.variants[0].sku)
      && r.value[4] == Some(Text.IntToDecimal(p.variants[0].retailPrice))
      && r.value[6] == Some(Text.IntToDecimal(p.variants[0].cost))
      && r.value[7] == Some(if p.active then "true" else "false")
    ensures r.Some? ==>
      && (p.variants[0].barcode.Some? ==> r.value[3] == Some(p.variants[0].barcode.value))
      && (p.variants[0].barcode.None? ==> r.value[3] == Some(""))
    ensures r.Some? ==> var w := p.variants[0].wholesalePrice;
      && (w.None? || w.value == 0 ==> r.value[5] == Some(""))
      && (w.Some? && w.value != 0 ==> r.value[5] == Some(Text.IntToDecimal(w.value)))
  {
    if |p.variants| == 0 then None
    else
      var v := p.variants[0];
      Some([ Some(p.name),
             Some(Text.IntToDecimal(p.categoryId)),
             Some(v.sku),
             Some(v.barcode.GetOr([])),
             Some(Text.IntToDecimal(v.retailPrice)),
             Some(if v.wholesalePrice.None? || v.wholesalePrice.value == 0 then [] else Text.IntToDecimal(v.wholesalePrice.value)),
             Some(Text.IntToDecimal(v.cost)),
             Some(BoolText(p.active)) ])
  }

  /** The escaped row of a product that has a variant. */
  function ProductRow(p: Product): string
    requires |p.variants| > 0
  {
    Text.Join(CsvCodec.EscapeAll(ProductCells(p).value), ';')
  }

  /** Every product has a variant, so every product has a row. */
  predicate AllHaveVariants(products: seq<Product>) {
    forall i | 0 <= i < |products| :: |products[i].variants| > 0
  }

  /** The rows of products that all have a variant, in order. */
  function ProductRows(products: seq<Product>): (r: seq<string>)
    requires AllHaveVariants(products)
    ensures |r| == |products|
    ensures forall i | 0 <= i < |products| :: r[i] == ProductRow(products[i])
  {
    seq(|products|, i requires 0 <= i < |products| => ProductRow(products[i]))
  }

  /** The lines of the product file: the header, then one escaped row per product. */
  function ProductLines(products: seq<Product>): (r: Result<seq<string>, string>)
    ensures r.Ok? <==> AllHaveVariants(products)
    ensures r.Ok? ==> |r.value| == |products| + 1 && r.value[0] == Text.Join(ProductHeaders, ';')
    ensures r.Ok? ==> forall i | 0 <= i < |products| :: r.value[i + 1] == ProductRow(products[i])
  {
    if !AllHaveVariants(products) then Err("product without variant")
    else
      var header := Text.Join(ProductHeaders, ';');
      var rows := ProductRows(products);
      Ok([header] + rows)
  }

  /** `exportProductsCsv`'s file content: the lines joined with '\n'. */
  function ExportProductsCsv(products: seq<Product>): (r: Result<string, string>)
    ensures r.Ok? <==> AllHaveVariants(products)
  {
    match ProductLines(products)
    case Ok(lines) => Ok(Text.Join(lines, '\n'))
    case Err(e) => Err(e)
  }

  /** A product whose name, SKU and barcode hold no line break. */
  predicate LineBreakFree(p: Product)
    requires |p.variants| > 0
  {
    '\n' !in p.name && '\n' !in p.variants[0].sku && '\n' !in p.variants[0].barcode.GetOr([])
  }

  /** Number and boolean texts hold no line break. */
  lemma DecimalLineBreakFree(n: int)
    ensures '\n' !in Text.IntToDecimal(n)
  {
    var r := Text.IntToDecimal(n);
    forall i | 0 <= i < |r| ensures r[i] != '\n' {
      if n < 0 && i > 0 {
        assert r[i] == Text.NatToDecimal(-n)[i - 1];
      }
    }
  }

  /** The row of a line-break-free product is a single line. */
  lemma ProductRowLineBreakFree(p: Product)
    requires |p.variants| > 0 && LineBreakFree(p)
    ensures '\n' !in ProductRow(p)
  {
    var vs := ProductCells(p).value;
    var es := CsvCodec.EscapeAll(vs);
    CellsLineBreakFree(p);
    forall k | 0 <= k < |es| ensures '\n' !in es[k] {
      NoNewlineDoubled(vs[k].value);
    }
    NoCharInJoin(es, ';', '\n');
  }

  /** No cell of a line-break-free product holds a line break. */
  lemma CellsLineBreakFree(p: Product)
    requires |p.variants| > 0 && LineBreakFree(p)
    ensures forall k | 0 <= k < |ProductCells(p).value| :: '\n' !in ProductCells(p).value[k].value
  {
    var v := p.variants[0];
    DecimalLineBreakFree(p.categoryId);
    DecimalLineBreakFree(v.retailPrice);
    DecimalLineBreakFree(v.cost);
    if v.wholesalePrice.Some? {
      DecimalLineBreakFree(v.wholesalePrice.value);
    }
  }

  /** Under the same condition, no line of the product file holds a line break. */
  lemma ProductLinesLineBreakFree(products: seq<Product>, lines: seq<string>)
    requires AllHaveVariants(products)
    requires forall i | 0 <= i < |products| :: LineBreakFree(products[i])
    requires lines == ProductLines(products).value
    ensures forall k | 0 <= k < |lines| :: '\n' !in lines[k]
  {
    forall k | 0 <= k < |lines| ensures '\n' !in lines[k] {
      if k == 0 {
        HeaderLineBreakFree();
      } else {
        ProductRowLineBreakFree(products[k - 1]);
      }
    }
  }

  lemma HeaderLineBreakFree()
    ensures '\n' !in Text.Join(ProductHeaders, ';')
  {
    assert forall k | 0 <= k < |ProductHeaders| :: '\n' !in ProductHeaders[k];
    NoCharInJoin(ProductHeaders, ';', '\n');
  }

  /** When no product's name, SKU or barcode holds a line break, splitting
      the exported file on '\n' gives back the header line and one line per
      product. */
  lemma ProductFileSplits(products: seq<Product>)
    requires AllHaveVariants(products)
    requires forall i | 0 <= i < |products| :: LineBreakFree(products[i])
    ensures ExportProductsCsv(products).Ok?
    ensures Text.Split(ExportProductsCsv(products).value, '\n') == ProductLines(products).value
  {
    var lines := ProductLines(products).value;
    ProductLinesLineBreakFree(products, lines);
    Text.SplitJoin(lines, '\n');
  }

  /** Every exported product row reads back as its eight cell values. */
  lemma ProductRowsParse(products: seq<Product>, i: nat)
    requires ProductLines(products).Ok? && i < |products|
    ensures CsvCodec.ParseLine(ProductLines(products).value[i + 1]) == CsvCodec.Plain(ProductCells(products[i]).value)
  {
    CsvCodec.ParseEscapedRow(ProductCells(products[i]).value);
  }

  /** The header line reads back as the eight column names. */
  lemma ProductHeaderParses()
    ensures CsvCodec.ParseLine(Text.Join(ProductHeaders, ';')) == ProductHeaders
  {
    assert forall k | 0 <= k < |ProductHeaders| :: ';' !in ProductHeaders[k];
    NoCharInJoin(ProductHeaders, ';', '"');
    CsvCodec.QuoteFreeLineIsSplit(Text.Join(ProductHeaders, ';'));
    Text.SplitJoin(ProductHeaders, ';');
  }

  /** A join holds a character other than the separator only if a part does. */
  lemma {:induction false} NoCharInJoin(parts: seq<string>, sep: char, c: char)
    requires c != sep && forall k | 0 <= k < |parts| :: c !in parts[k]
    ensures c !in Text.Join(parts, sep)
  {
    if |parts| > 1 {
      NoCharInJoin(parts[1..], sep, c);
    }
  }

  /** One report row: its fields in key order. */
  type Record = seq<(string, Option<string>)>

  /** `row[header]`: the value of the first field with that key, or absent. */
  function Lookup(row: Record, key: string): (r: Option<string>)
    ensures (forall k | 0 <= k < |row| :: row[k].0 != key) ==> r.None?
  {
    if |row| == 0 then None
    else if row[0].0 == key then row[0].1
    else Lookup(row[1..], key)
  }

  function Keys(row: Record): (r: seq<string>)
    ensures |r| == |row| && forall k | 0 <= k < |row| :: r[k] == row[k].0
  {
    seq(|row|, k requires 0 <= k < |row| => row[k].0)
  }

  /** A row's values in header order. */
  function RowValues(row: Record, headers: seq<string>): (r: seq<Option<string>>)
    ensures |r| == |headers| && forall k | 0 <= k < |headers| :: r[k] == Lookup(row, headers[k])
  {
    seq(|headers|, k requires 0 <= k < |headers| => Lookup(row, headers[k]))
  }

  /** The lines of a report file: the first row's keys, then one line per row. */
  function ReportLines(data: seq<Record>): (r: Result<seq<string>, string>)
    ensures r.Err? <==> |data| == 0
    ensures r.Err? ==> r.error == "No data to export"
    ensures r.Ok? ==> |r.value| == |data| + 1 && r.value[0] == Text.Join(Keys(data[0]), ';')
    ensures r.Ok? ==> forall i | 0 <= i < |data| ::
      r.value[i + 1] == Text.Join(CsvCodec.EscapeAll(RowValues(data[i], Keys(data[0]))), ';')
  {
    if |data| == 0 then Err("No data to export")
    else
      var headers := Keys(data[0]);
      Ok([Text.Join(headers, ';')] +
         seq(|data|, i requires 0 <= i < |data| => Text.Join(CsvCodec.EscapeAll(RowValues(data[i], headers)), ';')))
  }

  /** `exportReportCsv`'s file content. */
  function ExportReportCsv(data: seq<Record>): Result<string, string> {
    match ReportLines(data)
    case Ok(lines) => Ok(Text.Join(lines, '\n'))
    case Err(e) => Err(e)
  }

  lemma {:induction false} NoNewlineDoubled(s: string)
    requires '\n' !in s
    ensures '\n' !in CsvCodec.DoubleQuotes(s)
  {
    if |s| > 0 {
      assert s[1..] <= s[1..] && forall c | c in s[1..] :: c in s;
      NoNewlineDoubled(s[1..]);
    }
  }

  /** A report row whose values hold no line break is written as one line
      that reads back as its values. */
  lemma RowLineParses(row: Record, headers: seq<string>)
    requires |headers| > 0
    requires forall k | 0 <= k < |headers| :: '\n' !in Lookup(row, headers[k]).GetOr([])
    ensures var line := Text.Join(CsvCodec.EscapeAll(RowValues(row, headers)), ';');
      '\n' !in line && CsvCodec.ParseLine(line) == CsvCodec.Plain(RowValues(row, headers))
  {
    var vs := RowValues(row, headers);
    var es := CsvCodec.EscapeAll(vs);
    forall k | 0 <= k < |es| ensures '\n' !in es[k] {
      if vs[k].Some? {
        assert '\n' !in vs[k].value;
        NoNewlineDoubled(vs[k].value);
      }
    }
    NoCharInJoin(es, ';', '\n');
    CsvCodec.ParseEscapedRow(vs);
  }

  /** Each data line of a report reads back as the row's values in header
      order; when no key or value holds a line break, splitting the file on
      '\n' gives exactly the header line and one line per row. */
  lemma ReportRoundTrip(data: seq<Record>)
    requires |data| > 0 && |data[0]| > 0
    requires forall k | 0 <= k < |data[0]| :: '\n' !in data[0][k].0
    requires forall i, k | 0 <= i < |data| && 0 <= k < |Keys(data[0])| ::
      '\n' !in Lookup(data[i], Keys(data[0])[k]).GetOr([])
    ensures ExportReportCsv(data).Ok?
    ensures var lines := ReportLines(data).value;
      && Text.Split(ExportReportCsv(data).value, '\n') == lines
      && forall i | 0 <= i < |data| ::
           CsvCodec.ParseLine(lines[i + 1]) == CsvCodec.Plain(RowValues(data[i], Keys(data[0])))
  {
    var headers := Keys(data[0]);
    var lines := ReportLines(data).value;
    NoCharInJoin(headers, ';', '\n');
    forall i | 0 <= i < |data| ensures '\n' !in lines[i + 1] && CsvCodec.ParseLine(lines[i + 1]) == CsvCodec.Plain(RowValues(data[i], headers)) {
      RowLineParses(data[i], headers);
    }
    Text.SplitJoin(lines, '\n');
  }
}
