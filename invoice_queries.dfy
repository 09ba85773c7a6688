/** The read side of the invoice controllers: invoice listings in date order, the
    per-customer figures, the best sellers and the product sales report with its date
    range switch. The aggregation pipelines (`$match`, `$unwind`, `$group`, `$sort`,
    `$limit`, `$lookup`) are written out as functions over the stored sequences; the clock
    is a parameter holding the calendar bounds the controller derives from it. */
module InvoiceQueries {
  import opened Common
  import opened Records
  import InvoiceStore

  // ------------------------------------------------------------------
  // Listings: `find().sort({date: -1})` and `.limit(5)`.
  // ------------------------------------------------------------------

  /** `a` may stay ahead of `b` in a newest-first listing. */
  predicate NewerDate(a: Invoice, b: Invoice)
  {
    StrLe(b.date, a.date)
  }

  lemma NewerDateOrders(s: seq<Invoice>)
    ensures TotalPreorderOn(s, NewerDate)
  {
    forall a, b | a in s && b in s
      ensures NewerDate(a, b) || NewerDate(b, a)
    {
      StrLeTotal(a.date, b.date);
    }
    forall a, b, c | a in s && b in s && c in s && NewerDate(a, b) && NewerDate(b, c)
      ensures NewerDate(a, c)
    {
      StrLeTransitive(c.date, b.date, a.date);
    }
  }

  /** getAllInvoices of Invoice.controllers.jsx: every invoice, newest date first. */
  function AllInvoices(invoices: seq<Invoice>): (r: seq<Invoice>)
    ensures multiset(r) == multiset(invoices)
    ensures SortedBy(r, NewerDate)
  {
    NewerDateOrders(invoices);
    SortBySorted(invoices, NewerDate);
    SortBy(invoices, NewerDate)
  }

  /** getRecentInvoices: the five newest invoices. */
  function RecentInvoices(invoices: seq<Invoice>): (r: seq<Invoice>)
    ensures |r| == if |invoices| <= 5 then |invoices| else 5
    ensures forall i :: 0 <= i < |r| ==> r[i] in invoices
    ensures SortedBy(r, NewerDate)
  {
    var sorted := AllInvoices(invoices);
    assert forall i :: 0 <= i < |sorted| ==> sorted[i] in multiset(invoices);
    Take(sorted, 5)
  }

  /** No invoice left out of the five recent ones is newer than any of them. */
  lemma RecentAreNewest(invoices: seq<Invoice>, y: Invoice)
    requires y in invoices && y !in RecentInvoices(invoices)
    ensures forall i :: 0 <= i < |RecentInvoices(invoices)| ==> StrLe(y.date, RecentInvoices(invoices)[i].date)
  {
    var sorted := AllInvoices(invoices);
    assert y in multiset(sorted);
    TakeDominates(sorted, 5, NewerDate, y);
  }

  /** `a` may stay ahead of `b` in `sort({createdAt: -1})`. */
  predicate NewerRecord(a: ReceivedInvoice, b: ReceivedInvoice)
  {
    a.createdAt >= b.createdAt
  }

  /** getRecievedInvoices: every received invoice, most recently created first. */
  function ReceivedInvoices(received: seq<ReceivedInvoice>): (r: seq<ReceivedInvoice>)
    ensures multiset(r) == multiset(received)
    ensures forall i, j :: 0 <= i < j < |r| ==> r[i].createdAt >= r[j].createdAt
  {
    SortBySorted(received, NewerRecord);
    SortBy(received, NewerRecord)
  }

  // ------------------------------------------------------------------
  // getAdditionalData: what a customer spent and when they last bought.
  // ------------------------------------------------------------------

  datatype CustomerData = CustomerData(totalSpent: real, lastPurchaseDate: Option<string>)

  /** `Invoice.find({customer})`, in stored order. */
  function CustomerInvoices(invoices: seq<Invoice>, customer: Id): (r: seq<Invoice>)
    ensures forall i :: 0 <= i < |r| ==> r[i] in invoices && r[i].customer == customer
    ensures forall i :: 0 <= i < |invoices| && invoices[i].customer == customer ==> invoices[i] in r
  {
    Filter(invoices, (inv: Invoice) => inv.customer == customer)
  }

  /** The comparator `(a, b) => b.date - a.date` subtracts two date strings; the result is
      NaN, which the sort reads as "equal", so `a` always stays ahead of `b`. */
  predicate StringDifferenceIsNaN(a: Invoice, b: Invoice)
  {
    true
  }

  /** getAdditionalData as written: the sum of all the customer's invoice totals (cancelled
      ones included) and the date of the invoice the sort leaves first, which is the first
      one stored. */
  function AdditionalData(invoices: seq<Invoice>, customer: Id): (r: CustomerData)
    ensures var mine := CustomerInvoices(invoices, customer);
      (mine == [] <==> r.lastPurchaseDate.None?) &&
      r.totalSpent == SumR(mine, InvoiceTotal) &&
      (r.lastPurchaseDate.Some? ==> r.lastPurchaseDate.value == mine[0].date)
  {
    var mine := CustomerInvoices(invoices, customer);
    if mine == [] then CustomerData(0.0, None)
    else
      SortByAllEqual(mine, StringDifferenceIsNaN);
      CustomerData(SumR(mine, InvoiceTotal), Some(SortBy(mine, StringDifferenceIsNaN)[0].date))
  }

  /** One invoice's part of a customer's spending: its total when it is theirs, else nothing. */
  function ShareOf(customer: Id): Invoice -> real
  {
    (inv: Invoice) => if inv.customer == customer then inv.total else 0.0
  }

  /** The amount spent, read off the whole store: every invoice of the customer adds its
      total, cancelled or not, and every other invoice adds nothing. */
  lemma SpentIsShareOfStore(invoices: seq<Invoice>, customer: Id)
    ensures AdditionalData(invoices, customer).totalSpent == SumR(invoices, ShareOf(customer))
  {
    FilteredSpending(invoices, customer);
  }

  lemma {:induction false} FilteredSpending(invoices: seq<Invoice>, customer: Id)
    ensures SumR(CustomerInvoices(invoices, customer), InvoiceTotal) == SumR(invoices, ShareOf(customer))
  {
    if invoices != [] {
      FilteredSpending(invoices[1..], customer);
      var keep := (inv: Invoice) => inv.customer == customer;
      assert CustomerInvoices(invoices, customer) == Filter(invoices, keep);
      assert invoices == [invoices[0]] + invoices[1..];
      SumRCons(invoices[0], invoices[1..], ShareOf(customer));
      if keep(invoices[0]) {
        SumRCons(invoices[0], Filter(invoices[1..], keep), InvoiceTotal);
      }
    }
  }

  /** The total counts cancelled invoices: cancelling one of the customer's invoices does not
      change it. */
  lemma SpentIgnoresCancellation(invoices: seq<Invoice>, customer: Id, i: nat)
    requires i < |invoices|
    ensures AdditionalData(invoices[i := invoices[i].(isCancelled := true)], customer).totalSpent
         == AdditionalData(invoices, customer).totalSpent
  {
    var after := invoices[i := invoices[i].(isCancelled := true)];
    CustomerTotalsAgree(invoices, after, customer);
  }

  lemma {:induction false} CustomerTotalsAgree(a: seq<Invoice>, b: seq<Invoice>, customer: Id)
    requires |a| == |b|
    requires forall j :: 0 <= j < |a| ==> b[j] == a[j] || b[j] == a[j].(isCancelled := true)
    ensures |CustomerInvoices(a, customer)| == |CustomerInvoices(b, customer)|
    ensures SumR(CustomerInvoices(a, customer), InvoiceTotal) == SumR(CustomerInvoices(b, customer), InvoiceTotal)
  {
    if a != [] {
      CustomerTotalsAgree(a[1..], b[1..], customer);
      var keep := (inv: Invoice) => inv.customer == customer;
      assert CustomerInvoices(a, customer) == Filter(a, keep);
      if keep(a[0]) {
        SumRCons(a[0], Filter(a[1..], keep), InvoiceTotal);
        SumRCons(b[0], Filter(b[1..], keep), InvoiceTotal);
      }
    }
  }

  /** As written, an older invoice stored first hides a newer one. */
  lemma FirstStoredDateWins(a: Invoice, b: Invoice)
    requires a.customer == b.customer && StrLt(a.date, b.date)
    ensures AdditionalData([a, b], a.customer).lastPurchaseDate == Some(a.date)
    ensures StrLt(AdditionalData([a, b], a.customer).lastPurchaseDate.value, b.date)
  {
    var mine := CustomerInvoices([a, b], a.customer);
    assert [a, b][0] == a;
    assert mine[0] == a;
  }

  /** The evidently intended last purchase: the customer's latest invoice date. */
  function LatestPurchase(invoices: seq<Invoice>, customer: Id): (r: Option<string>)
    ensures var mine := CustomerInvoices(invoices, customer);
      (mine == [] <==> r.None?) &&
      (r.Some? ==> (exists i :: 0 <= i < |mine| && mine[i].date == r.value) &&
                   forall i :: 0 <= i < |mine| ==> StrLe(mine[i].date, r.value))
  {
    var mine := CustomerInvoices(invoices, customer);
    if mine == [] then None
    else
      var sorted := AllInvoices(mine);
      assert sorted[0] in multiset(mine);
      forall i | 0 <= i < |mine|
        ensures StrLe(mine[i].date, sorted[0].date)
      {
        assert mine[i] in multiset(sorted);
        var j :| 0 <= j < |sorted| && sorted[j] == mine[i];
        if j > 0 {
          assert NewerDate(sorted[0], sorted[j]);
        } else {
          StrLeTotal(mine[i].date, mine[i].date);
        }
      }
      Some(sorted[0].date)
  }

  // ------------------------------------------------------------------
  // The date range of the sales report.
  // ------------------------------------------------------------------

  datatype ReportQuery = ReportQuery(timeFrame: Option<string>, startDate: Option<string>, endDate: Option<string>)

  /** The `YYYY-MM-DD` bounds the controller derives from the clock. */
  datatype Calendar = Calendar(
    today: string, weekStart: string, weekEnd: string, monthStart: string, monthEnd: string,
    yearStart: string, yearEnd: string)

  datatype DateRange = DateRange(start: string, end: string)

  /** A query parameter is truthy: present and not empty. */
  predicate Present(p: Option<string>)
  {
    p.Some? && p.value != ""
  }

  function ThisMonth(cal: Calendar): DateRange { DateRange(cal.monthStart, cal.monthEnd) }

  /** The ranges the clock alone can produce. */
  predicate CalendarRange(r: DateRange, cal: Calendar)
  {
    r == DateRange(cal.today, cal.today) || r == DateRange(cal.weekStart, cal.weekEnd) ||
    r == ThisMonth(cal) || r == DateRange(cal.yearStart, cal.yearEnd)
  }

  /** The date filter of getProductSalesReport. */
  function SelectRange(q: ReportQuery, cal: Calendar): (r: DateRange)
    ensures Present(q.timeFrame) ==> CalendarRange(r, cal)
    ensures !Present(q.timeFrame) && Present(q.startDate) && Present(q.endDate) ==>
      r == DateRange(q.startDate.value, q.endDate.value)
    ensures !Present(q.timeFrame) && !(Present(q.startDate) && Present(q.endDate)) ==> r == ThisMonth(cal)
  {
    if Present(q.timeFrame) then
      var tf := q.timeFrame.value;
      if tf == "today" then DateRange(cal.today, cal.today)
      else if tf == "thisWeek" then DateRange(cal.weekStart, cal.weekEnd)
      else if tf == "thisMonth" then ThisMonth(cal)
      else if tf == "thisYear" then DateRange(cal.yearStart, cal.yearEnd)
      else ThisMonth(cal)
    else if Present(q.startDate) && Present(q.endDate) then DateRange(q.startDate.value, q.endDate.value)
    else ThisMonth(cal)
  }

  /** A time frame, when given, wins over any custom dates; "today" is a one-day range. */
  lemma TimeFrameWins(q: ReportQuery, cal: Calendar, s: Option<string>, e: Option<string>)
    requires Present(q.timeFrame)
    ensures SelectRange(q, cal) == SelectRange(q.(startDate := s, endDate := e), cal)
    ensures q.timeFrame.value == "today" ==> SelectRange(q, cal) == DateRange(cal.today, cal.today)
  {
  }

  /** An unknown time frame falls back to the current month, as no parameters at all do. */
  lemma UnknownTimeFrameIsThisMonth(tf: string, cal: Calendar, s: Option<string>, e: Option<string>)
    requires tf != "" && tf != "today" && tf != "thisWeek" && tf != "thisMonth" && tf != "thisYear"
    ensures SelectRange(ReportQuery(Some(tf), s, e), cal) == SelectRange(ReportQuery(None, None, None), cal)
  {
  }

  // ------------------------------------------------------------------
  // `$unwind: "$items"` and `$group` by product.
  // ------------------------------------------------------------------

  /** One unwound document: an item together with the id of its invoice. */
  datatype Line = Line(invoiceId: Id, item: Item)

  function LinesOf(inv: Invoice): (r: seq<Line>)
    ensures |r| == |inv.items|
    ensures forall k :: 0 <= k < |r| ==> r[k] == Line(inv.id, inv.items[k])
  {
    seq(|inv.items|, k requires 0 <= k < |inv.items| => Line(inv.id, inv.items[k]))
  }

  function ItemCount(inv: Invoice): int { |inv.items| }

  /** `$unwind: "$items"`: one line per item of every invoice, invoice by invoice. */
  function Unwind(invoices: seq<Invoice>): (r: seq<Line>)
    ensures |r| == SumI(invoices, ItemCount)
  {
    if invoices == [] then []
    else Unwind(invoices[..|invoices| - 1]) + LinesOf(invoices[|invoices| - 1])
  }

  function LineQuantity(l: Line): int { l.item.quantity }

  function LineRevenue(l: Line): real { l.item.total }

  function ProductIdsOf(lines: seq<Line>): (r: seq<Id>)
    ensures |r| == |lines|
    ensures forall i :: 0 <= i < |r| ==> r[i] == lines[i].item.product
  {
    seq(|lines|, i requires 0 <= i < |lines| => lines[i].item.product)
  }

  function InvoiceIdsOf(lines: seq<Line>): (r: seq<Id>)
    ensures |r| == |lines|
    ensures forall i :: 0 <= i < |r| ==> r[i] == lines[i].invoiceId
  {
    seq(|lines|, i requires 0 <= i < |lines| => lines[i].invoiceId)
  }

  /** The lines of one product, in order. */
  function OfProduct(lines: seq<Line>, pid: Id): (r: seq<Line>)
    ensures |r| <= |lines|
    ensures forall i :: 0 <= i < |r| ==> r[i] in lines && r[i].item.product == pid
    ensures forall i :: 0 <= i < |lines| && lines[i].item.product == pid ==> lines[i] in r
  {
    if lines == [] then []
    else
      var init := lines[..|lines| - 1];
      var last := lines[|lines| - 1];
      assert forall i :: 0 <= i < |lines| - 1 ==> lines[i] == init[i];
      OfProduct(init, pid) + (if last.item.product == pid then [last] else [])
  }

  /** One row of a report: `totalInvoices` only in the sales report, `category` only in
      the versions of Invoice.controllers.jsx. */
  datatype Row = Row(
    productId: Id, productName: string, category: Option<string>,
    totalQuantity: int, totalRevenue: real, totalInvoices: Option<nat>)

  function RowQuantity(r: Row): int { r.totalQuantity }

  function RowRevenue(r: Row): real { r.totalRevenue }

  function RowInvoices(r: Row): int { if r.totalInvoices.Some? then r.totalInvoices.value else 0 }

  /** `$arrayElemAt: ["$productDetails.category", 0]` after the `$lookup` on products. */
  function CategoryOf(products: seq<Product>, pid: Id): (r: Option<string>)
    ensures r.Some? <==> exists j :: 0 <= j < |products| && products[j].id == pid
  {
    match InvoiceStore.IndexOfProduct(products, pid)
    case None => None
    case Some(j) => Some(products[j].category)
  }

  /** The group of one product: name of its first line, summed quantity and revenue,
      optionally the number of distinct invoices and the looked-up category. */
  function RowOf(lines: seq<Line>, pid: Id, countInvoices: bool, lookup: Option<seq<Product>>): Row
  {
    var mine := OfProduct(lines, pid);
    Row(pid,
        if mine == [] then "" else mine[0].item.name,
        if lookup.Some? then CategoryOf(lookup.value, pid) else None,
        SumI(mine, LineQuantity),
        SumR(mine, LineRevenue),
        if countInvoices then Some(|Distinct(InvoiceIdsOf(mine))|) else None)
  }

  function RowsFor(ids: seq<Id>, lines: seq<Line>, countInvoices: bool, lookup: Option<seq<Product>>): (r: seq<Row>)
    ensures |r| == |ids|
    ensures forall k :: 0 <= k < |r| ==> r[k] == RowOf(lines, ids[k], countInvoices, lookup)
  {
    if ids == [] then []
    else RowsFor(ids[..|ids| - 1], lines, countInvoices, lookup) + [RowOf(lines, ids[|ids| - 1], countInvoices, lookup)]
  }

  /** `$group: {_id: "$items.product", ...}`, groups in order of first appearance. */
  function Group(lines: seq<Line>, countInvoices: bool, lookup: Option<seq<Product>>): seq<Row>
  {
    RowsFor(Distinct(ProductIdsOf(lines)), lines, countInvoices, lookup)
  }

  /** A product that has lines gets a row counting between one invoice and as many
      invoices as it has lines. */
  lemma RowOfSold(lines: seq<Line>, pid: Id, lookup: Option<seq<Product>>, i: nat)
    requires i < |lines| && lines[i].item.product == pid
    ensures OfProduct(lines, pid) != []
    ensures var n := RowOf(lines, pid, true, lookup).totalInvoices;
      n.Some? && 1 <= n.value <= |OfProduct(lines, pid)|
  {
    var mine := OfProduct(lines, pid);
    assert lines[i] in mine;
    assert InvoiceIdsOf(mine)[0] in Distinct(InvoiceIdsOf(mine));
  }

  /** One row per product: row ids are distinct and every line's product has a row. */
  lemma GroupRows(lines: seq<Line>, countInvoices: bool, lookup: Option<seq<Product>>)
    ensures var g := Group(lines, countInvoices, lookup);
      (forall i, j :: 0 <= i < j < |g| ==> g[i].productId != g[j].productId) &&
      (forall i :: 0 <= i < |lines| ==> exists k :: 0 <= k < |g| && g[k].productId == lines[i].item.product)
  {
    var ids := Distinct(ProductIdsOf(lines));
    var g := Group(lines, countInvoices, lookup);
    RowIdsAre(ids, lines, countInvoices, lookup);
    DistinctRowIds(ids, g);
    EveryProductListed(lines, ids, g);
  }

  lemma DistinctRowIds(ids: seq<Id>, g: seq<Row>)
    requires forall i, j :: 0 <= i < j < |ids| ==> ids[i] != ids[j]
    requires |g| == |ids| && forall k :: 0 <= k < |g| ==> g[k].productId == ids[k]
    ensures forall i, j :: 0 <= i < j < |g| ==> g[i].productId != g[j].productId
  {
  }

  /** The rows carry the ids they were built for, in order. */
  lemma RowIdsAre(ids: seq<Id>, lines: seq<Line>, c: bool, lookup: Option<seq<Product>>)
    ensures var g := RowsFor(ids, lines, c, lookup);
      forall k :: 0 <= k < |g| ==> g[k].productId == ids[k]
  {
  }

  lemma EveryProductListed(lines: seq<Line>, ids: seq<Id>, g: seq<Row>)
    requires ids == Distinct(ProductIdsOf(lines))
    requires |g| == |ids| && forall k :: 0 <= k < |g| ==> g[k].productId == ids[k]
    ensures forall i :: 0 <= i < |lines| ==> exists k :: 0 <= k < |g| && g[k].productId == lines[i].item.product
  {
    forall i | 0 <= i < |lines|
      ensures exists k :: 0 <= k < |g| && g[k].productId == lines[i].item.product
    {
      var pid := lines[i].item.product;
      assert ProductIdsOf(lines)[i] == pid;
      var k :| 0 <= k < |ids| && ids[k] == pid;
      assert g[k].productId == pid;
    }
  }

  /** Every row of the sales report grouping counts at least one invoice and no more
      invoices than its product has lines. */
  lemma GroupCountsInvoices(lines: seq<Line>, lookup: Option<seq<Product>>, k: nat)
    requires k < |Group(lines, true, lookup)|
    ensures var row := Group(lines, true, lookup)[k];
      row.totalInvoices.Some? && 1 <= row.totalInvoices.value <= |OfProduct(lines, row.productId)|
  {
    var ids := Distinct(ProductIdsOf(lines));
    var pids := ProductIdsOf(lines);
    assert Group(lines, true, lookup)[k] == RowOf(lines, ids[k], true, lookup);
    assert ids[k] in pids;
    var i :| 0 <= i < |pids| && pids[i] == ids[k];
    RowOfSold(lines, ids[k], lookup, i);
  }

  /** Grouping conserves revenue: the rows' revenues add up to the lines' revenues. */
  lemma {:induction false} GroupConservesRevenue(ids: seq<Id>, lines: seq<Line>, c: bool, lookup: Option<seq<Product>>)
    requires forall i, j :: 0 <= i < j < |ids| ==> ids[i] != ids[j]
    requires forall i :: 0 <= i < |lines| ==> lines[i].item.product in ids
    ensures SumR(RowsFor(ids, lines, c, lookup), RowRevenue) == SumR(lines, LineRevenue)
  {
    if lines == [] {
      NoLinesNoRevenue(ids, c, lookup);
    } else {
      var init := lines[..|lines| - 1];
      var last := lines[|lines| - 1];
      assert lines == init + [last];
      GroupConservesRevenue(ids, init, c, lookup);
      RevenueSplit(ids, init, last, c, lookup);
    }
  }

  lemma {:induction false} NoLinesNoRevenue(ids: seq<Id>, c: bool, lookup: Option<seq<Product>>)
    ensures SumR(RowsFor(ids, [], c, lookup), RowRevenue) == 0.0
  {
    if ids != [] {
      NoLinesNoRevenue(ids[..|ids| - 1], c, lookup);
    }
  }

  /** One more line adds its revenue to exactly the row of its product. */
  lemma {:induction false} RevenueSplit(ids: seq<Id>, init: seq<Line>, l: Line, c: bool, lookup: Option<seq<Product>>)
    requires forall i, j :: 0 <= i < j < |ids| ==> ids[i] != ids[j]
    ensures SumR(RowsFor(ids, init + [l], c, lookup), RowRevenue)
         == SumR(RowsFor(ids, init, c, lookup), RowRevenue) + (if l.item.product in ids then l.item.total else 0.0)
  {
    if ids != [] {
      var front := ids[..|ids| - 1];
      var d := ids[|ids| - 1];
      RevenueSplit(front, init, l, c, lookup);
      LineStep(init, l, d, c, lookup);
      SumRSnoc(RowsFor(front, init + [l], c, lookup), RowOf(init + [l], d, c, lookup), RowRevenue);
      SumRSnoc(RowsFor(front, init, c, lookup), RowOf(init, d, c, lookup), RowRevenue);
      LastIdIsNew(ids, l.item.product);
    }
  }

  /** With distinct ids, an id is in the list exactly when it is either the last one or in
      the list before it, and never both. */
  lemma LastIdIsNew(ids: seq<Id>, x: Id)
    requires ids != [] && forall i, j :: 0 <= i < j < |ids| ==> ids[i] != ids[j]
    ensures x in ids <==> x in ids[..|ids| - 1] || x == ids[|ids| - 1]
    ensures !(x in ids[..|ids| - 1] && x == ids[|ids| - 1])
  {
    var front := ids[..|ids| - 1];
    assert ids == front + [ids[|ids| - 1]];
    forall k | 0 <= k < |front|
      ensures front[k] != ids[|ids| - 1]
    {
      assert front[k] == ids[k];
    }
  }

  /** One more line changes only the row of its own product, by its quantity and total. */
  lemma LineStep(init: seq<Line>, l: Line, d: Id, c: bool, lookup: Option<seq<Product>>)
    ensures RowOf(init + [l], d, c, lookup).totalQuantity
         == RowOf(init, d, c, lookup).totalQuantity + (if l.item.product == d then l.item.quantity else 0)
    ensures RowOf(init + [l], d, c, lookup).totalRevenue
         == RowOf(init, d, c, lookup).totalRevenue + (if l.item.product == d then l.item.total else 0.0)
  {
    var lines := init + [l];
    assert lines[..|lines| - 1] == init;
    var before := OfProduct(init, d);
    var extra := if l.item.product == d then [l] else [];
    assert OfProduct(lines, d) == before + extra;
    SumRAppend(before, extra, LineRevenue);
    SumIAppend(before, extra, LineQuantity);
    if extra != [] {
      assert extra[..0] == [];
    }
  }

  /** Grouping conserves quantity. */
  lemma {:induction false} GroupConservesQuantity(ids: seq<Id>, lines: seq<Line>, c: bool, lookup: Option<seq<Product>>)
    requires forall i, j :: 0 <= i < j < |ids| ==> ids[i] != ids[j]
    requires forall i :: 0 <= i < |lines| ==> lines[i].item.product in ids
    ensures SumI(RowsFor(ids, lines, c, lookup), RowQuantity) == SumI(lines, LineQuantity)
  {
    if lines == [] {
      NoLinesNoQuantity(ids, c, lookup);
    } else {
      var init := lines[..|lines| - 1];
      var last := lines[|lines| - 1];
      assert lines == init + [last];
      GroupConservesQuantity(ids, init, c, lookup);
      QuantitySplit(ids, init, last, c, lookup);
    }
  }

  lemma {:induction false} NoLinesNoQuantity(ids: seq<Id>, c: bool, lookup: Option<seq<Product>>)
    ensures SumI(RowsFor(ids, [], c, lookup), RowQuantity) == 0
  {
    if ids != [] {
      NoLinesNoQuantity(ids[..|ids| - 1], c, lookup);
    }
  }

  lemma {:induction false} QuantitySplit(ids: seq<Id>, init: seq<Line>, l: Line, c: bool, lookup: Option<seq<Product>>)
    requires forall i, j :: 0 <= i < j < |ids| ==> ids[i] != ids[j]
    ensures SumI(RowsFor(ids, init + [l], c, lookup), RowQuantity)
         == SumI(RowsFor(ids, init, c, lookup), RowQuantity) + (if l.item.product in ids then l.item.quantity else 0)
  {
    if ids != [] {
      var front := ids[..|ids| - 1];
      var d := ids[|ids| - 1];
      QuantitySplit(front, init, l, c, lookup);
      LineStep(init, l, d, c, lookup);
      SumISnoc(RowsFor(front, init + [l], c, lookup), RowOf(init + [l], d, c, lookup), RowQuantity);
      SumISnoc(RowsFor(front, init, c, lookup), RowOf(init, d, c, lookup), RowQuantity);
      LastIdIsNew(ids, l.item.product);
    }
  }

  /** The groups of a line sequence carry all of its revenue and quantity. */
  lemma GroupConserves(lines: seq<Line>, c: bool, lookup: Option<seq<Product>>)
    ensures SumR(Group(lines, c, lookup), RowRevenue) == SumR(lines, LineRevenue)
    ensures SumI(Group(lines, c, lookup), RowQuantity) == SumI(lines, LineQuantity)
  {
    var ids := Distinct(ProductIdsOf(lines));
    forall i | 0 <= i < |lines|
      ensures lines[i].item.product in ids
    {
      assert ProductIdsOf(lines)[i] in ids;
    }
    GroupConservesRevenue(ids, lines, c, lookup);
    GroupConservesQuantity(ids, lines, c, lookup);
  }

  // ------------------------------------------------------------------
  // getTopSellingProducts and getProductSalesReport.
  // ------------------------------------------------------------------

  predicate MoreQuantity(a: Row, b: Row) { a.totalQuantity >= b.totalQuantity }

  predicate MoreRevenue(a: Row, b: Row) { a.totalRevenue >= b.totalRevenue }

  /** `$match: {isCancelled: false}`. */
  function Active(invoices: seq<Invoice>): (r: seq<Invoice>)
    ensures forall i :: 0 <= i < |r| ==> r[i] in invoices && !r[i].isCancelled
    ensures forall i :: 0 <= i < |invoices| && !invoices[i].isCancelled ==> invoices[i] in r
  {
    Filter(invoices, (inv: Invoice) => !inv.isCancelled)
  }

  /** The best sellers over the non-cancelled invoices, most units first; Invoice.controllers.tsx
      keeps five and no category, Invoice.controllers.jsx keeps all and looks up the category. */
  function TopSelling(invoices: seq<Invoice>, limit: Option<nat>, lookup: Option<seq<Product>>): (r: seq<Row>)
    ensures SortedBy(r, MoreQuantity)
    ensures var g := Group(Unwind(Active(invoices)), false, lookup);
      |r| == (if limit.Some? && limit.value < |g| then limit.value else |g|)
    ensures limit.None? ==> multiset(r) == multiset(Group(Unwind(Active(invoices)), false, lookup))
    ensures forall k :: 0 <= k < |r| ==> r[k] in Group(Unwind(Active(invoices)), false, lookup)
  {
    var sorted := ByQuantity(Group(Unwind(Active(invoices)), false, lookup));
    if limit.Some? then Take(sorted, limit.value) else sorted
  }

  /** `$sort: {totalQuantity: -1}`. */
  function ByQuantity(g: seq<Row>): (r: seq<Row>)
    ensures SortedBy(r, MoreQuantity)
    ensures multiset(r) == multiset(g)
    ensures forall k :: 0 <= k < |r| ==> r[k] in g
  {
    SortBySorted(g, MoreQuantity);
    var r := SortBy(g, MoreQuantity);
    assert forall k :: 0 <= k < |r| ==> r[k] in multiset(g);
    r
  }

  /** The five best sellers of Invoice.controllers.tsx outsell every product left out. */
  lemma TopFiveOutsell(invoices: seq<Invoice>, y: Row)
    requires y in Group(Unwind(Active(invoices)), false, None)
    requires y !in TopSelling(invoices, Some(5), None)
    ensures forall k :: 0 <= k < |TopSelling(invoices, Some(5), None)| ==>
      TopSelling(invoices, Some(5), None)[k].totalQuantity >= y.totalQuantity
  {
    var g := Group(Unwind(Active(invoices)), false, None);
    var sorted := ByQuantity(g);
    assert y in multiset(sorted);
    TakeDominates(sorted, 5, MoreQuantity, y);
  }

  /** Without a limit the best sellers of Invoice.controllers.jsx carry every unit and every
      rupee sold on a non-cancelled invoice. */
  lemma TopSellingConserves(invoices: seq<Invoice>, products: seq<Product>)
    ensures var r := TopSelling(invoices, None, Some(products));
      var lines := Unwind(Active(invoices));
      SumI(r, RowQuantity) == SumI(lines, LineQuantity) && SumR(r, RowRevenue) == SumR(lines, LineRevenue)
  {
    var lines := Unwind(Active(invoices));
    var g := Group(lines, false, Some(products));
    GroupConserves(lines, false, Some(products));
    SumISortBy(g, MoreQuantity, RowQuantity);
    SumRSortBy(g, MoreQuantity, RowRevenue);
  }

  /** `$match: {date: range, isCancelled: false, isPaid: true}`. */
  predicate Reported(range: DateRange, inv: Invoice)
  {
    StrLe(range.start, inv.date) && StrLe(inv.date, range.end) && !inv.isCancelled && inv.isPaid
  }

  function ReportedInvoices(invoices: seq<Invoice>, range: DateRange): (r: seq<Invoice>)
    ensures forall i :: 0 <= i < |r| ==> r[i] in invoices && Reported(range, r[i])
    ensures forall i :: 0 <= i < |invoices| && Reported(range, invoices[i]) ==> invoices[i] in r
  {
    Filter(invoices, (inv: Invoice) => Reported(range, inv))
  }

  /** The rows of getProductSalesReport, most revenue first; `lookup` is given for the
      version of Invoice.controllers.jsx, which adds the category. */
  function SalesReport(invoices: seq<Invoice>, range: DateRange, lookup: Option<seq<Product>>): (r: seq<Row>)
    ensures SortedBy(r, MoreRevenue)
    ensures multiset(r) == multiset(Group(Unwind(ReportedInvoices(invoices, range)), true, lookup))
  {
    var g := Group(Unwind(ReportedInvoices(invoices, range)), true, lookup);
    SortBySorted(g, MoreRevenue);
    SortBy(g, MoreRevenue)
  }

  datatype Summary = Summary(totalRevenue: real, totalQuantity: int, totalInvoices: int)

  /** The component-wise sums over the rows. */
  function SummaryOf(rows: seq<Row>): Summary
  {
    Summary(SumR(rows, RowRevenue), SumI(rows, RowQuantity), SumI(rows, RowInvoices))
  }

  /** The `reduce` of getProductSalesReport, adding each row into one accumulator. */
  method Summarize(rows: seq<Row>) returns (acc: Summary)
    ensures acc == SummaryOf(rows)
  {
    acc := Summary(0.0, 0, 0);
    var k := 0;
    while k < |rows|
      invariant 0 <= k <= |rows|
      invariant acc == SummaryOf(rows[..k])
    {
      var item := rows[k];
      assert rows[..k + 1][..k] == rows[..k];
      acc := acc.(totalRevenue := acc.totalRevenue + item.totalRevenue);
      acc := acc.(totalQuantity := acc.totalQuantity + item.totalQuantity);
      acc := acc.(totalInvoices := acc.totalInvoices + RowInvoices(item));
      k := k + 1;
    }
    assert rows[..k] == rows;
  }

  /** The report summary carries all the revenue and quantity of the paid, non-cancelled
      invoices in the range. */
  lemma ReportSummaryConserves(invoices: seq<Invoice>, range: DateRange, lookup: Option<seq<Product>>)
    ensures var s := SummaryOf(SalesReport(invoices, range, lookup));
      var lines := Unwind(ReportedInvoices(invoices, range));
      s.totalRevenue == SumR(lines, LineRevenue) && s.totalQuantity == SumI(lines, LineQuantity)
  {
    var lines := Unwind(ReportedInvoices(invoices, range));
    var g := Group(lines, true, lookup);
    GroupConserves(lines, true, lookup);
    SumRSortBy(g, MoreRevenue, RowRevenue);
    SumISortBy(g, MoreRevenue, RowQuantity);
  }
}
