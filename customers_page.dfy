/** The customer list page: each customer decorated with what the per-customer lookup
    answered, the search filter, and the column sort with its handler. */
module CustomersPage {
  import opened Common
  import opened ListViews

  /** What `/api/invoice/other/:id` answers. */
  datatype Additional = Additional(totalSpent: real, lastPurchaseDate: Option<string>)

  /** A customer as listed; `lastPurchase` is None for `null` or `undefined`. */
  datatype Customer = Customer(
    id: string, name: string, email: string, phone: string, address: string, epfNumber: string,
    totalSpent: real, lastPurchase: Option<string>)

  /** The page starts sorted by name, ascending. */
  const InitialSort := SortState("name", Asc)

  // ------------------------------------------------------------------
  // Loading.
  // ------------------------------------------------------------------

  /** One customer with the lookup's answer copied in; a lookup that throws (None) falls
      back to a total of 0 and no last purchase. */
  function WithTotals(c: Customer, lookup: Option<Additional>): (r: Customer)
    ensures r.(totalSpent := c.totalSpent, lastPurchase := c.lastPurchase) == c
    ensures lookup.None? ==> r.totalSpent == 0.0 && r.lastPurchase.None?
    ensures lookup.Some? ==> r.totalSpent == lookup.value.totalSpent && r.lastPurchase == lookup.value.lastPurchaseDate
  {
    match lookup
    case None => c.(totalSpent := 0.0, lastPurchase := None)
    case Some(a) => c.(totalSpent := a.totalSpent, lastPurchase := a.lastPurchaseDate)
  }

  /** `Promise.all(data.map(…))`: one decorated customer per fetched one, in order; the
      lookup is a parameter standing for the per-customer request. */
  function LoadCustomers(data: seq<Customer>, lookup: string -> Option<Additional>): (r: seq<Customer>)
    ensures |r| == |data|
    ensures forall k :: 0 <= k < |data| ==> r[k] == WithTotals(data[k], lookup(data[k].id))
  {
    seq(|data|, k requires 0 <= k < |data| => WithTotals(data[k], lookup(data[k].id)))
  }

  // ------------------------------------------------------------------
  // Sorting state.
  // ------------------------------------------------------------------

  /** handleSort: the same field flips the direction; a new field sorts ascending. */
  function HandleSort(s: SortState, field: string): (r: SortState)
    ensures r.field == field
    ensures s.field == field ==> r.dir != s.dir
    ensures s.field != field ==> r.dir == Asc
  {
    if s.field == field then SortState(field, if s.dir == Asc then Desc else Asc)
    else SortState(field, Asc)
  }

  /** The customer page's handler is the shared column toggle. */
  lemma HandleSortIsToggle(s: SortState, field: string)
    ensures HandleSort(s, field) == ToggleSort(s, field)
  {
  }

  // ------------------------------------------------------------------
  // Filtering.
  // ------------------------------------------------------------------

  /** The name or email contains the term case-insensitively, or the phone contains it as
      typed. */
  predicate Matches(c: Customer, term: string)
  {
    Includes(ToLower(c.name), ToLower(term)) || Includes(ToLower(c.email), ToLower(term)) || Includes(c.phone, term)
  }

  function Matching(cs: seq<Customer>, term: string): (r: seq<Customer>)
    ensures forall k :: 0 <= k < |r| ==> r[k] in cs && Matches(r[k], term)
    ensures forall k :: 0 <= k < |cs| && Matches(cs[k], term) ==> cs[k] in r
  {
    Filter(cs, (c: Customer) => Matches(c, term))
  }

  // ------------------------------------------------------------------
  // Comparators.
  // ------------------------------------------------------------------

  /** `!a.lastPurchase` is false. */
  predicate HasPurchase(c: Customer)
  {
    c.lastPurchase.Some? && c.lastPurchase.value != ""
  }

  function PurchaseDate(c: Customer): string
  {
    if c.lastPurchase.Some? then c.lastPurchase.value else ""
  }

  /** `a[field]` of a string field, lower-cased; any other field reads `String(undefined)`,
      the same for every customer. */
  function FieldText(c: Customer, field: string): string
  {
    match field
    case "_id" => ToLower(c.id)
    case "name" => ToLower(c.name)
    case "email" => ToLower(c.email)
    case "phone" => ToLower(c.phone)
    case "address" => ToLower(c.address)
    case "epfNumber" => ToLower(c.epfNumber)
    case _ => "undefined"
  }

  function FieldOf(field: string): Customer -> string
  {
    (c: Customer) => FieldText(c, field)
  }

  function Spent(c: Customer): real { c.totalSpent }

  /** Sign of the difference of two ISO dates' times: -1, 0 or 1. */
  function DateCmp(x: string, y: string): int
  {
    if StrLt(x, y) then -1 else if x == y then 0 else 1
  }

  /** The lastPurchase comparator as the page writes it, by its sign: a customer without
      a date compares before everyone ascending (-1) and after everyone descending (1),
      including another customer without a date. */
  function SourceLastPurchaseCmp(dir: Dir): (Customer, Customer) -> int
  {
    (a: Customer, b: Customer) =>
      if !HasPurchase(a) then (if dir == Asc then -1 else 1)
      else if !HasPurchase(b) then (if dir == Asc then 1 else -1)
      else if dir == Asc then DateCmp(PurchaseDate(a), PurchaseDate(b))
      else DateCmp(PurchaseDate(b), PurchaseDate(a))
  }

  /** In both directions two customers without a date each compare on the same side of
      the other (-1 both ways ascending, 1 both ways descending), so the comparator breaks
      the rule that compare(a, b) and compare(b, a) have opposite signs. */
  lemma SourceInconsistent(dir: Dir, a: Customer, b: Customer)
    requires !HasPurchase(a) && !HasPurchase(b)
    ensures var cmp := SourceLastPurchaseCmp(dir);
      cmp(a, b) == cmp(b, a) == (if dir == Asc then -1 else 1)
  {
  }

  /** The lastPurchase order: customers without a date rank below every date and equal to
      each other; it differs from the page only by treating two customers without a date
      as equal. */
  function LastPurchaseLe(dir: Dir): (Customer, Customer) -> bool
  {
    (a: Customer, b: Customer) =>
      if dir == Asc then !HasPurchase(a) || (HasPurchase(b) && StrLe(PurchaseDate(a), PurchaseDate(b)))
      else !HasPurchase(b) || (HasPurchase(a) && StrLe(PurchaseDate(b), PurchaseDate(a)))
  }

  /** Wherever at least one of the two has a date, the page's comparator is consistent
      and the corrected order agrees with its sign: a before b exactly when compare(a, b)
      is negative, tied exactly when it is zero. */
  lemma LastPurchaseAgrees(dir: Dir, a: Customer, b: Customer)
    requires HasPurchase(a) || HasPurchase(b)
    ensures var cmp := SourceLastPurchaseCmp(dir); var le := LastPurchaseLe(dir);
      (le(a, b) <==> cmp(a, b) <= 0) && (le(b, a) <==> cmp(a, b) >= 0) &&
      (cmp(a, b) < 0 <==> cmp(b, a) > 0)
  {
    if HasPurchase(a) && HasPurchase(b) {
      StrLtAsymmetric(PurchaseDate(a), PurchaseDate(b));
      StrLtTotal(PurchaseDate(a), PurchaseDate(b));
    }
  }

  lemma LastPurchaseOrders(s: seq<Customer>, dir: Dir)
    ensures TotalPreorderOn(s, LastPurchaseLe(dir))
  {
    var le := LastPurchaseLe(dir);
    forall a, b | a in s && b in s
      ensures le(a, b) || le(b, a)
    {
      StrLeTotal(PurchaseDate(a), PurchaseDate(b));
    }
    forall a, b, c | a in s && b in s && c in s && le(a, b) && le(b, c)
      ensures le(a, c)
    {
      var x, y, z := PurchaseDate(a), PurchaseDate(b), PurchaseDate(c);
      if StrLe(x, y) && StrLe(y, z) {
        StrLeTransitive(x, y, z);
      }
      if StrLe(z, y) && StrLe(y, x) {
        StrLeTransitive(z, y, x);
      }
    }
  }

  /** The comparator for the chosen column: totalSpent numerically, lastPurchase by date
      with missing dates lowest, anything else by lower-cased text. */
  function Comparator(sort: SortState): (Customer, Customer) -> bool
  {
    if sort.field == "totalSpent" then ByReal(Spent, sort.dir)
    else if sort.field == "lastPurchase" then LastPurchaseLe(sort.dir)
    else ByStr(FieldOf(sort.field), sort.dir)
  }

  lemma ComparatorSorts(s: seq<Customer>, sort: SortState)
    ensures SortedBy(SortBy(s, Comparator(sort)), Comparator(sort))
  {
    if sort.field == "totalSpent" {
      SortByReal(s, Spent, sort.dir);
    } else if sort.field == "lastPurchase" {
      LastPurchaseOrders(s, sort.dir);
      SortBySorted(s, LastPurchaseLe(sort.dir));
    } else {
      SortByStr(s, FieldOf(sort.field), sort.dir);
    }
  }

  /** filteredCustomers: the matching customers, rearranged into the chosen order. */
  function FilteredCustomers(cs: seq<Customer>, term: string, sort: SortState): (r: seq<Customer>)
    ensures multiset(r) == multiset(Matching(cs, term))
    ensures SortedBy(r, Comparator(sort))
  {
    var kept := Matching(cs, term);
    ComparatorSorts(kept, sort);
    SortBy(kept, Comparator(sort))
  }

  /** Sorting by last purchase ascending lists the customers without one first. */
  lemma MissingFirstAscending(cs: seq<Customer>, term: string, i: nat, j: nat)
    requires i < j < |FilteredCustomers(cs, term, SortState("lastPurchase", Asc))|
    ensures HasPurchase(FilteredCustomers(cs, term, SortState("lastPurchase", Asc))[i]) ==>
      HasPurchase(FilteredCustomers(cs, term, SortState("lastPurchase", Asc))[j])
  {
    var r := FilteredCustomers(cs, term, SortState("lastPurchase", Asc));
    assert LastPurchaseLe(Asc)(r[i], r[j]);
  }

  /** Descending, they come last. */
  lemma MissingLastDescending(cs: seq<Customer>, term: string, i: nat, j: nat)
    requires i < j < |FilteredCustomers(cs, term, SortState("lastPurchase", Desc))|
    ensures !HasPurchase(FilteredCustomers(cs, term, SortState("lastPurchase", Desc))[i]) ==>
      !HasPurchase(FilteredCustomers(cs, term, SortState("lastPurchase", Desc))[j])
  {
    var r := FilteredCustomers(cs, term, SortState("lastPurchase", Desc));
    assert LastPurchaseLe(Desc)(r[i], r[j]);
  }

  /** The sorted list holds exactly the customers that match. */
  lemma FilteredMembers(cs: seq<Customer>, term: string, sort: SortState, c: Customer)
    ensures c in FilteredCustomers(cs, term, sort) <==> c in cs && Matches(c, term)
  {
    var kept := Matching(cs, term);
    var r := FilteredCustomers(cs, term, sort);
    assert c in kept <==> c in multiset(kept);
    assert c in r <==> c in multiset(r);
    if c in cs && Matches(c, term) {
      var k :| 0 <= k < |cs| && cs[k] == c;
    }
  }
}
