/** The dashboard: change against the figures saved by the previous visit, the arrow and
    colour of each change, the five top products, and the recent-invoice rows. */
module DashboardPage {
  import opened Common

  /** What `/api/admin/stats` answers. */
  datatype Stats = Stats(totalRevenue: real, totalInvoices: real, totalCustomers: real, totalProducts: real)

  /** One value read back from the saved JSON: a number, a string, or absent. */
  datatype Stored = Number(n: real) | Text(s: string) | Absent

  datatype Saved = Saved(totalSales: Stored, invoicesIssued: Stored, activeCustomers: Stored, totalProducts: Stored)

  datatype Changes = Changes(totalSales: int, invoicesIssued: int, activeCustomers: int, totalProducts: int)

  /** The percentages before anything is computed. */
  const NoChanges := Changes(0, 0, 0, 0)

  // ------------------------------------------------------------------
  // calculatePercentage.
  // ------------------------------------------------------------------

  predicate NumericChar(c: char)
  {
    IsDigit(c) || c == '.' || c == '-'
  }

  /** `previous.replace(/[^0-9.-]+/g, "")`. */
  function StripNonNumeric(s: string): (r: string)
    ensures forall k :: 0 <= k < |r| ==> NumericChar(r[k])
    ensures forall k :: 0 <= k < |s| && NumericChar(s[k]) ==> s[k] in r
    ensures |r| <= |s|
  {
    Filter(s, NumericChar)
  }

  /** The previous value as a number: a stored number as it is, a stored string stripped
      and read by `parseFloat` (a parameter; None is NaN), nothing for an absent one. */
  function Previous(previous: Stored, parseFloat: string -> Option<real>): (r: Option<real>)
    ensures previous.Number? ==> r == Some(previous.n)
    ensures previous.Text? ==> r == parseFloat(StripNonNumeric(previous.s))
    ensures previous.Absent? ==> r.None?
  {
    match previous
    case Number(n) => Some(n)
    case Text(s) => parseFloat(StripNonNumeric(s))
    case Absent => None
  }

  /** calculatePercentage: 0 when the previous value is missing, NaN or zero; otherwise the
      change relative to it, in percent, rounded down. */
  function Percentage(current: real, previous: Stored, parseFloat: string -> Option<real>): (r: int)
    ensures Previous(previous, parseFloat).None? ==> r == 0
    ensures Previous(previous, parseFloat) == Some(0.0) ==> r == 0
    ensures Previous(previous, parseFloat).Some? && Previous(previous, parseFloat).value != 0.0 ==>
      var prev := Previous(previous, parseFloat).value;
      r as real <= (current - prev) / prev * 100.0 < r as real + 1.0
  {
    var prev := Previous(previous, parseFloat);
    if prev.None? || prev.value == 0.0 then 0
    else ((current - prev.value) / prev.value * 100.0).Floor
  }

  /** An unchanged figure shows 0 %, a doubled one 100 %, a halved one -50 %. */
  lemma PercentageLandmarks(prev: real, parseFloat: string -> Option<real>)
    requires prev != 0.0
    ensures Percentage(prev, Number(prev), parseFloat) == 0
    ensures Percentage(2.0 * prev, Number(prev), parseFloat) == 100
    ensures Percentage(prev / 2.0, Number(prev), parseFloat) == -50
  {
    assert (prev - prev) / prev * 100.0 == 0.0;
    assert (2.0 * prev - prev) / prev * 100.0 == 100.0;
    assert (prev / 2.0 - prev) / prev * 100.0 == -50.0;
  }

  /** Growth from a positive figure never shows negative, decline always does. */
  lemma PercentageSign(current: real, prev: real, parseFloat: string -> Option<real>)
    requires prev > 0.0
    ensures current >= prev ==> Percentage(current, Number(prev), parseFloat) >= 0
    ensures current < prev ==> Percentage(current, Number(prev), parseFloat) < 0
  {
    var q := (current - prev) / prev * 100.0;
    if current >= prev {
      assert current - prev >= 0.0;
      assert q >= 0.0;
    } else {
      assert current - prev < 0.0;
      assert q < 0.0;
    }
  }

  /** What the page saves ten seconds after loading: the four figures as numbers. */
  function SaveStats(data: Stats): (r: Saved)
    ensures r.totalSales.Number? && r.totalSales.n == data.totalRevenue
    ensures r.invoicesIssued.Number? && r.invoicesIssued.n == data.totalInvoices
    ensures r.activeCustomers.Number? && r.activeCustomers.n == data.totalCustomers
    ensures r.totalProducts.Number? && r.totalProducts.n == data.totalProducts
  {
    Saved(Number(data.totalRevenue), Number(data.totalInvoices), Number(data.totalCustomers), Number(data.totalProducts))
  }

  /** The four changes: none computed while nothing is saved. */
  function ComputeChanges(data: Stats, saved: Option<Saved>, parseFloat: string -> Option<real>): (r: Changes)
    ensures saved.None? ==> r == NoChanges
    ensures saved.Some? ==> r.totalSales == Percentage(data.totalRevenue, saved.value.totalSales, parseFloat)
    ensures saved.Some? ==> r.invoicesIssued == Percentage(data.totalInvoices, saved.value.invoicesIssued, parseFloat)
    ensures saved.Some? ==> r.activeCustomers == Percentage(data.totalCustomers, saved.value.activeCustomers, parseFloat)
    ensures saved.Some? ==> r.totalProducts == Percentage(data.totalProducts, saved.value.totalProducts, parseFloat)
  {
    match saved
    case None => NoChanges
    case Some(s) =>
      Changes(
        Percentage(data.totalRevenue, s.totalSales, parseFloat),
        Percentage(data.totalInvoices, s.invoicesIssued, parseFloat),
        Percentage(data.totalCustomers, s.activeCustomers, parseFloat),
        Percentage(data.totalProducts, s.totalProducts, parseFloat))
  }

  /** Figures saved by this page are read back as numbers, so `parseFloat` plays no part and
      the same figures again show no change. */
  lemma SavedFiguresRoundTrip(data: Stats, p1: string -> Option<real>, p2: string -> Option<real>)
    ensures ComputeChanges(data, Some(SaveStats(data)), p1) == ComputeChanges(data, Some(SaveStats(data)), p2)
    ensures ComputeChanges(data, Some(SaveStats(data)), p1) == NoChanges
  {
    if data.totalRevenue != 0.0 {
      PercentageLandmarks(data.totalRevenue, p1);
    }
    if data.totalInvoices != 0.0 {
      PercentageLandmarks(data.totalInvoices, p1);
    }
    if data.totalCustomers != 0.0 {
      PercentageLandmarks(data.totalCustomers, p1);
    }
    if data.totalProducts != 0.0 {
      PercentageLandmarks(data.totalProducts, p1);
    }
  }

  // ------------------------------------------------------------------
  // renderPercentageChange.
  // ------------------------------------------------------------------

  datatype Badge = Badge(up: bool, shown: int)

  /** Up arrow and green only for a strictly positive change; the figure shown is the
      magnitude. */
  function RenderChange(percentage: int): (r: Badge)
    ensures r.up <==> percentage > 0
    ensures r.shown >= 0 && (r.shown == percentage || r.shown == -percentage)
  {
    Badge(percentage > 0, if percentage < 0 then -percentage else percentage)
  }

  /** No change is drawn as a red down arrow, like a loss. */
  lemma ZeroShowsDown()
    ensures RenderChange(0) == Badge(false, 0)
  {
  }

  // ------------------------------------------------------------------
  // Top products and recent invoices.
  // ------------------------------------------------------------------

  datatype TopSelling = TopSelling(id: string, productName: string, category: string, totalRevenue: real, totalQuantity: real)

  datatype TopProduct = TopProduct(name: string, sales: real, quantity: real, category: string)

  function TopRow(p: TopSelling): TopProduct
  {
    TopProduct(p.productName, p.totalRevenue, p.totalQuantity, p.category)
  }

  /** topProducts: the first five entries, in the server's order. */
  function TopProducts(data: seq<TopSelling>): (r: seq<TopProduct>)
    ensures |r| == if |data| < 5 then |data| else 5
    ensures forall k :: 0 <= k < |r| ==> r[k] == TopRow(data[k])
  {
    var rows := seq(|data|, k requires 0 <= k < |data| => TopRow(data[k]));
    JsSlice(rows, 0, 5)
  }

  datatype RecentSource = RecentSource(id: string, invoiceNumber: string, customerName: string, date: string, total: real, isPaid: bool, isCancelled: bool)

  datatype RecentRow = RecentRow(id: string, customer: string, date: string, amount: real, status: bool, isCancelled: bool)

  function RecentRowOf(i: RecentSource): RecentRow
  {
    RecentRow(i.invoiceNumber, i.customerName, i.date, i.total, i.isPaid, i.isCancelled)
  }

  /** recentInvoices: one row per invoice, in order, keyed by the invoice number. */
  function RecentInvoices(data: seq<RecentSource>): (r: seq<RecentRow>)
    ensures |r| == |data|
    ensures forall k :: 0 <= k < |r| ==> r[k] == RecentRowOf(data[k])
  {
    seq(|data|, k requires 0 <= k < |data| => RecentRowOf(data[k]))
  }
}
