/** The issued-invoice list page: the pending amount shown in its header, the search,
    status and date filter, the column sort, six rows per page, and the advance-payment
    guard. */
module InvoicesPage {
  import opened Common
  import opened ListViews

  datatype Listed = Listed(
    id: string, invoiceNumber: string, customerName: string, date: string, total: real,
    isPaid: bool, isCancelled: bool, advance: Option<real>)

  const PerPage: nat := 6

  function Total(inv: Listed): real { inv.total }

  function DateOf(inv: Listed): string { inv.date }

  function CustomerOf(inv: Listed): string { inv.customerName }

  /** What an invoice still owes before advances: its total when unpaid. */
  function Owed(inv: Listed): real { if inv.isPaid then 0.0 else inv.total }

  /** `invoice.advance ? advance : 0`. */
  function Advance(inv: Listed): real { if inv.advance.Some? then inv.advance.value else 0.0 }

  /** The header figure: the unpaid totals less the advances of every invoice, paid and
      cancelled ones included. */
  function PendingAmount(invoices: seq<Listed>): real
  {
    SumR(invoices, Owed) - SumR(invoices, Advance)
  }

  /** One more invoice moves the figure by what it owes less its advance, whatever its
      status. */
  lemma PendingStep(invoices: seq<Listed>, inv: Listed)
    ensures PendingAmount(invoices + [inv]) == PendingAmount(invoices) + Owed(inv) - Advance(inv)
  {
    assert (invoices + [inv])[..|invoices|] == invoices;
  }

  /** A paid invoice with an advance lowers the pending amount. */
  lemma PaidAdvanceStillCounts(invoices: seq<Listed>, inv: Listed)
    requires inv.isPaid && inv.advance.Some? && inv.advance.value > 0.0
    ensures PendingAmount(invoices + [inv]) < PendingAmount(invoices)
  {
    PendingStep(invoices, inv);
  }

  datatype Filters = Filters(search: string, status: string, start: string, end: string)

  /** The search term, case-insensitively, in the number or the customer's name. */
  predicate MatchesSearch(inv: Listed, term: string)
  {
    Includes(ToLower(inv.invoiceNumber), ToLower(term)) || Includes(ToLower(inv.customerName), ToLower(term))
  }

  /** "all", "paid" or "pending"; any other status matches nothing. */
  predicate MatchesStatus(inv: Listed, status: string)
  {
    status == "all" || (status == "paid" && inv.isPaid) || (status == "pending" && !inv.isPaid)
  }

  /** Each non-empty bound is checked by string comparison. */
  predicate InDateRange(date: string, start: string, end: string)
  {
    (start == "" || StrLe(start, date)) && (end == "" || StrLe(date, end))
  }

  predicate Matches(f: Filters, inv: Listed)
  {
    MatchesSearch(inv, f.search) && MatchesStatus(inv, f.status) && InDateRange(inv.date, f.start, f.end)
  }

  function Comparator(sort: SortState): (Listed, Listed) -> bool
  {
    if sort.field == "date" then ByStr(DateOf, sort.dir)
    else if sort.field == "total" then ByReal(Total, sort.dir)
    else if sort.field == "customer" then ByStr(CustomerOf, sort.dir)
    else KeepOrder()
  }

  lemma ComparatorSorts(s: seq<Listed>, sort: SortState)
    ensures SortedBy(SortBy(s, Comparator(sort)), Comparator(sort))
    ensures sort.field != "date" && sort.field != "total" && sort.field != "customer" ==>
      SortBy(s, Comparator(sort)) == s
  {
    if sort.field == "date" {
      SortByStr(s, DateOf, sort.dir);
    } else if sort.field == "total" {
      SortByReal(s, Total, sort.dir);
    } else if sort.field == "customer" {
      SortByStr(s, CustomerOf, sort.dir);
    } else {
      KeepOrderKeeps(s);
    }
  }

  lemma SameElements(a: seq<Listed>, b: seq<Listed>)
    requires multiset(a) == multiset(b)
    ensures forall x :: x in a <==> x in b
  {
    forall x
      ensures x in a <==> x in b
    {
      assert x in a <==> x in multiset(a);
      assert x in b <==> x in multiset(b);
    }
  }

  /** The invoices the filters let through, in their stored order. */
  function Matching(invoices: seq<Listed>, f: Filters): (r: seq<Listed>)
    ensures forall k :: 0 <= k < |r| ==> r[k] in invoices && Matches(f, r[k])
    ensures forall k :: 0 <= k < |invoices| && Matches(f, invoices[k]) ==> invoices[k] in r
  {
    Filter(invoices, (inv: Listed) => Matches(f, inv))
  }

  /** filteredInvoices: the matching invoices, sorted by the chosen column; an unknown
      column keeps the stored order. */
  function FilteredInvoices(invoices: seq<Listed>, f: Filters, sort: SortState): (r: seq<Listed>)
    ensures multiset(r) == multiset(Matching(invoices, f))
    ensures SortedBy(r, Comparator(sort))
    ensures sort.field != "date" && sort.field != "total" && sort.field != "customer" ==>
      r == Matching(invoices, f)
  {
    var kept := Matching(invoices, f);
    ComparatorSorts(kept, sort);
    SortBy(kept, Comparator(sort))
  }

  /** The sorted list holds exactly the invoices that match. */
  lemma FilteredMembers(invoices: seq<Listed>, f: Filters, sort: SortState, inv: Listed)
    ensures inv in FilteredInvoices(invoices, f, sort) <==> inv in invoices && Matches(f, inv)
  {
    var kept := Matching(invoices, f);
    SameElements(kept, FilteredInvoices(invoices, f, sort));
    if inv in invoices && Matches(f, inv) {
      var k :| 0 <= k < |invoices| && invoices[k] == inv;
    }
  }

  /** The rows on page `page`: at most six, read off the filtered list from row
      `(page - 1) * 6`. */
  function CurrentPosts(invoices: seq<Listed>, f: Filters, sort: SortState, page: int): (r: seq<Listed>)
    ensures |r| <= PerPage && PageOf(r, FilteredInvoices(invoices, f, sort), page, PerPage)
  {
    PageSlice(FilteredInvoices(invoices, f, sort), page, PerPage)
  }

  datatype View = View(filters: Filters, sort: SortState, page: int)

  /** The page starts sorted by date, newest first, with every status shown. */
  const InitialView := View(Filters("", "all", "", ""), SortState("date", Desc), 1)

  /** handleFilterChange: a new status and back to page 1. */
  function ChangeStatus(v: View, status: string): (r: View)
    ensures r.page == 1 && r.filters.status == status
    ensures r.filters.(status := v.filters.status) == v.filters && r.sort == v.sort
  {
    v.(filters := v.filters.(status := status), page := 1)
  }

  /** handleSearchChange: a new search term and back to page 1. */
  function ChangeSearch(v: View, term: string): (r: View)
    ensures r.page == 1 && r.filters.search == term
    ensures r.filters.(search := v.filters.search) == v.filters && r.sort == v.sort
  {
    v.(filters := v.filters.(search := term), page := 1)
  }

  /** handleSort. */
  function ChangeSort(v: View, field: string): (r: View)
    ensures r.sort == ToggleSort(v.sort, field) && r.filters == v.filters && r.page == v.page
  {
    v.(sort := ToggleSort(v.sort, field))
  }

  /** The Confirm Advance button: an amount above zero and at most the invoice total is
      posted to the advance endpoint; any other amount posts nothing. */
  function ConfirmAdvance(amount: real, invoiceTotal: real): (posted: Option<real>)
    ensures posted.Some? ==> posted.value == amount && 0.0 <= invoiceTotal - amount < invoiceTotal
    ensures posted.None? <==> amount <= 0.0 || invoiceTotal < amount
  {
    if 0.0 < amount <= invoiceTotal then Some(amount) else None
  }

  /** The Balance Due line of the details modal: `total - (advance || 0)`. */
  function BalanceDue(inv: Listed): real { inv.total - Advance(inv) }

  /** Recording an advance the guard accepts on an unpaid invoice of the list leaves that
      invoice a balance due of at least zero and below its total, which is exactly its
      share of the header's pending figure; the figure itself moves by the change in the
      invoice's advance and nothing else. */
  lemma AcceptedAdvanceKeepsPending(invoices: seq<Listed>, i: nat, amount: real)
    requires i < |invoices| && !invoices[i].isPaid && ConfirmAdvance(amount, invoices[i].total).Some?
    ensures var after := invoices[i := invoices[i].(advance := Some(amount))];
      0.0 <= BalanceDue(after[i]) < after[i].total &&
      Owed(after[i]) - Advance(after[i]) == BalanceDue(after[i]) &&
      PendingAmount(after) == PendingAmount(invoices) + Advance(invoices[i]) - amount
  {
    var stored := invoices[i].(advance := Some(amount));
    SumRUpdate(invoices, i, stored, Owed);
    SumRUpdate(invoices, i, stored, Advance);
  }
}
