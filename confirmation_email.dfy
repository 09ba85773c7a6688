/** The monthly sales and inventory report e-mail: the sales totals, the inventory valuation,
    the list of items in stock, the rows of the two tables, and the month heading. */
module ConfirmationEmail {
  import opened Common

  /** One entry of `productWiseRevenue`. */
  datatype SalesEntry = SalesEntry(id: int, name: string, kilos: real, revenue: real)

  /** One entry of `stockData`. */
  datatype StockItem = StockItem(name: string, stock: real, category: string, price: real)

  // ------------------------------------------------------------------
  // The month heading.
  // ------------------------------------------------------------------

  const MonthNames: seq<string> := [
    "January", "February", "March", "April", "May", "June",
    "July", "August", "September", "October", "November", "December"]

  /** `monthNames[currentDate.getMonth()]`: a name for each month index 0 to 11, and
      `undefined` (None) for any other index. */
  function MonthName(month: int): (r: Option<string>)
    ensures r.Some? <==> 0 <= month < 12
    ensures r.Some? ==> r.value in MonthNames
  {
    if 0 <= month < |MonthNames| then Some(MonthNames[month]) else None
  }

  /** Different months get different headings, January is month 0 and December month 11. */
  lemma MonthNamesDistinct(m1: int, m2: int)
    requires 0 <= m1 < 12 && 0 <= m2 < 12 && m1 != m2
    ensures MonthName(m1) != MonthName(m2)
    ensures MonthName(0) == Some("January") && MonthName(11) == Some("December")
  {
  }

  // ------------------------------------------------------------------
  // Sales figures.
  // ------------------------------------------------------------------

  function Revenue(e: SalesEntry): real { e.revenue }

  function Kilos(e: SalesEntry): real { e.kilos }

  /** totalSales: the revenue of every entry, summed from zero. */
  function TotalSales(entries: seq<SalesEntry>): real
  {
    SumR(entries, Revenue)
  }

  /** totalSalesKg: the kilograms of every entry, summed from zero. */
  function TotalSalesKg(entries: seq<SalesEntry>): real
  {
    SumR(entries, Kilos)
  }

  /** The totals of a report split in two are the sums of the parts' totals. */
  lemma SalesTotalsAppend(a: seq<SalesEntry>, b: seq<SalesEntry>)
    ensures TotalSales(a + b) == TotalSales(a) + TotalSales(b)
    ensures TotalSalesKg(a + b) == TotalSalesKg(a) + TotalSalesKg(b)
  {
    SumRAppend(a, b, Revenue);
    SumRAppend(a, b, Kilos);
  }

  /** A single entry's totals are its own figures. */
  lemma SalesTotalsSingle(e: SalesEntry)
    ensures TotalSales([e]) == e.revenue && TotalSalesKg([e]) == e.kilos
  {
    assert [e][..0] == [];
    assert TotalSales([e]) == SumR([e][..0], Revenue) + Revenue(e);
    assert TotalSalesKg([e]) == SumR([e][..0], Kilos) + Kilos(e);
  }

  /** A rate per kilogram, `revenue / kilos`; no kilograms gives NaN or Infinity (None). */
  function Rate(revenue: real, kilos: real): (r: Option<real>)
    ensures r.None? <==> kilos == 0.0
    ensures r.Some? ==> r.value * kilos == revenue
  {
    if kilos == 0.0 then None else Some(revenue / kilos)
  }

  /** netSalesAverage: total revenue over total kilograms, before `toFixed(2)`. */
  function NetSalesAverage(entries: seq<SalesEntry>): (r: Option<real>)
    ensures r.None? <==> TotalSalesKg(entries) == 0.0
    ensures r.Some? ==> r.value * TotalSalesKg(entries) == TotalSales(entries)
  {
    Rate(TotalSales(entries), TotalSalesKg(entries))
  }

  /** One row of the sales table: name, kilograms, revenue and average rate. */
  datatype SalesRow = SalesRow(name: string, kilos: real, revenue: real, rate: Option<real>)

  function SalesRowOf(e: SalesEntry): SalesRow
  {
    SalesRow(e.name, e.kilos, e.revenue, Rate(e.revenue, e.kilos))
  }

  /** The sales table body: one row per entry, in the entries' order. */
  function SalesRows(entries: seq<SalesEntry>): (r: seq<SalesRow>)
    ensures |r| == |entries|
    ensures forall k :: 0 <= k < |r| ==> r[k] == SalesRowOf(entries[k])
  {
    seq(|entries|, k requires 0 <= k < |entries| => SalesRowOf(entries[k]))
  }

  function RowRevenue(row: SalesRow): real { row.revenue }

  function RowKilos(row: SalesRow): real { row.kilos }

  /** The TOTAL footer of the sales table adds up the rows above it. */
  lemma {:induction false} SalesFooterMatchesRows(entries: seq<SalesEntry>)
    ensures SumR(SalesRows(entries), RowRevenue) == TotalSales(entries)
    ensures SumR(SalesRows(entries), RowKilos) == TotalSalesKg(entries)
  {
    if entries != [] {
      var n := |entries| - 1;
      SalesFooterMatchesRows(entries[..n]);
      assert SalesRows(entries)[..n] == SalesRows(entries[..n]);
    }
  }

  // ------------------------------------------------------------------
  // Inventory figures.
  // ------------------------------------------------------------------

  /** What one item's stock is worth, `price * stock`. */
  function Value(item: StockItem): real { item.price * item.stock }

  /** totalStockAmount: the worth of every item, including those out of stock. */
  function TotalStockAmount(items: seq<StockItem>): real
  {
    SumR(items, Value)
  }

  predicate InStock(item: StockItem) { item.stock > 0.0 }

  /** nonZeroStockData: the items with stock above zero. */
  function NonZeroStock(items: seq<StockItem>): (r: seq<StockItem>)
    ensures forall k :: 0 <= k < |r| ==> r[k] in items && r[k].stock > 0.0
    ensures forall k :: 0 <= k < |items| && items[k].stock > 0.0 ==> items[k] in r
  {
    Filter(items, InStock)
  }

  lemma {:induction false} FilterAppend(a: seq<StockItem>, b: seq<StockItem>, keep: StockItem -> bool)
    ensures Filter(a + b, keep) == Filter(a, keep) + Filter(b, keep)
  {
    if a != [] {
      FilterAppend(a[1..], b, keep);
      assert (a + b)[1..] == a[1..] + b;
    } else {
      assert a + b == b;
    }
  }

  /** The filter keeps the input order: items in stock from the first part of the list come
      before those from the second. */
  lemma NonZeroStockKeepsOrder(a: seq<StockItem>, b: seq<StockItem>)
    ensures NonZeroStock(a + b) == NonZeroStock(a) + NonZeroStock(b)
  {
    FilterAppend(a, b, InStock);
  }

  /** An item is listed by itself exactly when it has stock. */
  lemma NonZeroStockSingle(item: StockItem)
    ensures NonZeroStock([item]) == if item.stock > 0.0 then [item] else []
  {
    assert [item][1..] == [];
  }

  /** One row of the inventory table: name, category, stock and value. */
  datatype InventoryRow = InventoryRow(name: string, category: string, stock: real, value: real)

  function InventoryRowOf(item: StockItem): InventoryRow
  {
    InventoryRow(item.name, item.category, item.stock, item.price * item.stock)
  }

  /** The inventory table body: one row per item in stock, in order. */
  function InventoryRows(items: seq<StockItem>): (r: seq<InventoryRow>)
    ensures |r| == |NonZeroStock(items)|
    ensures forall k :: 0 <= k < |r| ==> r[k] == InventoryRowOf(NonZeroStock(items)[k]) && r[k].stock > 0.0
  {
    var shown := NonZeroStock(items);
    seq(|shown|, k requires 0 <= k < |shown| => InventoryRowOf(shown[k]))
  }

  function RowValue(row: InventoryRow): real { row.value }

  /** With no negative stock, the TOTAL INVENTORY VALUE footer is the sum of the value column:
      the items left out of the table are worth nothing. */
  lemma {:induction false} InventoryFooterMatchesRows(items: seq<StockItem>)
    requires forall k :: 0 <= k < |items| ==> items[k].stock >= 0.0
    ensures SumR(InventoryRows(items), RowValue) == TotalStockAmount(items)
  {
    if items != [] {
      var x, rest := items[0], items[1..];
      assert items == [x] + rest;
      InventoryFooterMatchesRows(rest);
      SumRCons(x, rest, Value);
      InventoryRowsCons(x, rest);
      if x.stock > 0.0 {
        SumRCons(InventoryRowOf(x), InventoryRows(rest), RowValue);
      } else {
        OutOfStockWorthless(x);
      }
    }
  }

  /** An item heads the table when it has stock, and is skipped otherwise. */
  lemma InventoryRowsCons(x: StockItem, rest: seq<StockItem>)
    ensures x.stock > 0.0 ==> InventoryRows([x] + rest) == [InventoryRowOf(x)] + InventoryRows(rest)
    ensures x.stock <= 0.0 ==> InventoryRows([x] + rest) == InventoryRows(rest)
  {
    assert ([x] + rest)[1..] == rest;
    if x.stock > 0.0 {
      assert NonZeroStock([x] + rest) == [x] + NonZeroStock(rest);
    } else {
      assert NonZeroStock([x] + rest) == NonZeroStock(rest);
    }
  }

  lemma OutOfStockWorthless(x: StockItem)
    requires x.stock == 0.0
    ensures Value(x) == 0.0
  {
  }

  /** An item with negative stock is left out of the table but still counted in the footer:
      one item of stock -1 at price 10 shows no rows and a total of -10. */
  lemma NegativeStockCountsInFooter()
    ensures var items := [StockItem("a", -1.0, "bulk", 10.0)];
            InventoryRows(items) == [] && TotalStockAmount(items) == -10.0
  {
    var items := [StockItem("a", -1.0, "bulk", 10.0)];
    NonZeroStockSingle(items[0]);
    assert items[..0] == [];
  }
}
