/** The received-invoice list page: the search and date filter, the column sort, six rows
    per page, and the handlers that reset the page or toggle the sort. */
module ReceivedPage {
  import opened Common
  import opened ListViews

  datatype Received = Received(id: string, invoiceNumber: string, supplier: string, date: string, total: real)

  const PerPage: nat := 6

  function Total(inv: Received): real { inv.total }

  function DateOf(inv: Received): string { inv.date }

  function SupplierOf(inv: Received): string { inv.supplier }

  /** The lower-cased term in the lower-cased number or supplier, and each non-empty date
      bound respected. */
  predicate Matches(inv: Received, search: string, start: string, end: string)
  {
    (Includes(ToLower(inv.invoiceNumber), ToLower(search)) || Includes(ToLower(inv.supplier), ToLower(search))) &&
    (start == "" || StrLe(start, inv.date)) && (end == "" || StrLe(inv.date, end))
  }

  function Comparator(sort: SortState): (Received, Received) -> bool
  {
    if sort.field == "date" then ByStr(DateOf, sort.dir)
    else if sort.field == "total" then ByReal(Total, sort.dir)
    else if sort.field == "supplier" then ByStr(SupplierOf, sort.dir)
    else KeepOrder()
  }

  lemma ComparatorSorts(s: seq<Received>, sort: SortState)
    ensures SortedBy(SortBy(s, Comparator(sort)), Comparator(sort))
    ensures sort.field != "date" && sort.field != "total" && sort.field != "supplier" ==>
      SortBy(s, Comparator(sort)) == s
  {
    if sort.field == "date" {
      SortByStr(s, DateOf, sort.dir);
    } else if sort.field == "total" {
      SortByReal(s, Total, sort.dir);
    } else if sort.field == "supplier" {
      SortByStr(s, SupplierOf, sort.dir);
    } else {
      KeepOrderKeeps(s);
    }
  }

  /** The fetched invoices the filter lets through, in their stored order; none when the
      fetched value is not an array. */
  function Matching(data: Fetched<Received>, search: string, start: string, end: string): (r: seq<Received>)
    ensures data.NotArray? ==> r == []
    ensures data.Rows? ==> forall k :: 0 <= k < |r| ==> r[k] in data.rows && Matches(r[k], search, start, end)
    ensures data.Rows? ==> forall k :: 0 <= k < |data.rows| && Matches(data.rows[k], search, start, end) ==>
      data.rows[k] in r
  {
    match data
    case NotArray => []
    case Rows(rows) => Filter(rows, (inv: Received) => Matches(inv, search, start, end))
  }

  /** filteredInvoices: the matching invoices sorted by the chosen column; an unknown column
      keeps their order. */
  function FilteredInvoices(data: Fetched<Received>, search: string, start: string, end: string, sort: SortState): (r: seq<Received>)
    ensures multiset(r) == multiset(Matching(data, search, start, end))
    ensures SortedBy(r, Comparator(sort))
    ensures data.NotArray? ==> r == []
    ensures sort.field != "date" && sort.field != "total" && sort.field != "supplier" ==>
      r == Matching(data, search, start, end)
  {
    var kept := Matching(data, search, start, end);
    ComparatorSorts(kept, sort);
    SortBy(kept, Comparator(sort))
  }

  /** The sorted list holds exactly the fetched invoices that match. */
  lemma FilteredMembers(rows: seq<Received>, search: string, start: string, end: string, sort: SortState, inv: Received)
    ensures inv in FilteredInvoices(Rows(rows), search, start, end, sort) <==>
      inv in rows && Matches(inv, search, start, end)
  {
    var kept := Matching(Rows(rows), search, start, end);
    var r := FilteredInvoices(Rows(rows), search, start, end, sort);
    assert inv in kept <==> inv in multiset(kept);
    assert inv in r <==> inv in multiset(r);
    if inv in rows && Matches(inv, search, start, end) {
      var k :| 0 <= k < |rows| && rows[k] == inv;
    }
  }

  /** currentPosts: at most six rows, read off the filtered list from row `(page - 1) * 6`. */
  function CurrentPosts(data: Fetched<Received>, search: string, start: string, end: string, sort: SortState, page: int): (r: seq<Received>)
    ensures |r| <= PerPage && PageOf(r, FilteredInvoices(data, search, start, end, sort), page, PerPage)
  {
    PageSlice(FilteredInvoices(data, search, start, end, sort), page, PerPage)
  }

  /** The page state the handlers change; the date range has no setter and stays empty. */
  datatype View = View(search: string, sort: SortState, page: int)

  const InitialView := View("", SortState("date", Desc), 1)

  /** handleSearchChange: the new term, and back to page 1. */
  function ChangeSearch(v: View, term: string): (r: View)
    ensures r.search == term && r.page == 1 && r.sort == v.sort
  {
    v.(search := term, page := 1)
  }

  /** handleSort. */
  function ChangeSort(v: View, field: string): (r: View)
    ensures r.sort == ToggleSort(v.sort, field) && r.search == v.search && r.page == v.page
  {
    v.(sort := ToggleSort(v.sort, field))
  }

  /** With the date range the page never sets, the filter is the search alone. */
  lemma EmptyRangeIsSearchOnly(inv: Received, search: string)
    ensures Matches(inv, search, "", "") <==>
      Includes(ToLower(inv.invoiceNumber), ToLower(search)) || Includes(ToLower(inv.supplier), ToLower(search))
  {
  }
}
