/** What the list pages share: a sort state toggled by column headers, comparators built
    from a sort key and a direction, the page slice and the "Showing a to b of n" footer. */
module ListViews {
  import opened Common

  datatype Dir = Asc | Desc

  datatype SortState = SortState(field: string, dir: Dir)

  /** handleSort / requestSort of the invoice, received and admin-request lists: the same
      field currently ascending turns descending, anything else sorts ascending. */
  function ToggleSort(s: SortState, field: string): (r: SortState)
    ensures r.field == field
    ensures r.dir == Desc <==> s.field == field && s.dir == Asc
  {
    SortState(field, if s.field == field && s.dir == Asc then Desc else Asc)
  }

  /** Clicking the same column twice from any state ends ascending then descending. */
  lemma ToggleAlternates(s: SortState, field: string)
    ensures ToggleSort(s, field).dir == Asc ==> ToggleSort(ToggleSort(s, field), field).dir == Desc
    ensures ToggleSort(ToggleSort(s, field), field).dir == Asc ==> ToggleSort(s, field).dir == Desc
  {
  }

  /** String keys compared in the chosen direction (`localeCompare` and ISO-date order
      are taken as code-point order). */
  function ByStr<T>(key: T -> string, dir: Dir): (T, T) -> bool
  {
    (a: T, b: T) => if dir == Asc then StrLe(key(a), key(b)) else StrLe(key(b), key(a))
  }

  /** Numeric keys compared in the chosen direction. */
  function ByReal<T>(key: T -> real, dir: Dir): (T, T) -> bool
  {
    (a: T, b: T) => if dir == Asc then key(a) <= key(b) else key(b) <= key(a)
  }

  /** The comparator that answers 0 for every pair. */
  function KeepOrder<T>(): (T, T) -> bool
  {
    (a: T, b: T) => true
  }

  lemma ByStrOrders<T>(s: seq<T>, key: T -> string, dir: Dir)
    ensures TotalPreorderOn(s, ByStr(key, dir))
  {
    var le := ByStr(key, dir);
    forall a, b | a in s && b in s
      ensures le(a, b) || le(b, a)
    {
      StrLeTotal(key(a), key(b));
    }
    forall a, b, c | a in s && b in s && c in s && le(a, b) && le(b, c)
      ensures le(a, c)
    {
      if dir == Asc {
        StrLeTransitive(key(a), key(b), key(c));
      } else {
        StrLeTransitive(key(c), key(b), key(a));
      }
    }
  }

  lemma ByRealOrders<T>(s: seq<T>, key: T -> real, dir: Dir)
    ensures TotalPreorderOn(s, ByReal(key, dir))
  {
  }

  /** Sorting by a key gives a permutation ordered by that key. */
  lemma SortByStr<T>(s: seq<T>, key: T -> string, dir: Dir)
    ensures multiset(SortBy(s, ByStr(key, dir))) == multiset(s)
    ensures SortedBy(SortBy(s, ByStr(key, dir)), ByStr(key, dir))
  {
    ByStrOrders(s, key, dir);
    SortBySorted(s, ByStr(key, dir));
  }

  lemma SortByReal<T>(s: seq<T>, key: T -> real, dir: Dir)
    ensures multiset(SortBy(s, ByReal(key, dir))) == multiset(s)
    ensures SortedBy(SortBy(s, ByReal(key, dir)), ByReal(key, dir))
  {
    ByRealOrders(s, key, dir);
    SortBySorted(s, ByReal(key, dir));
  }

  lemma KeepOrderKeeps<T>(s: seq<T>)
    ensures SortBy(s, KeepOrder()) == s
  {
    SortByAllEqual(s, KeepOrder());
  }

  /** `r` holds consecutive rows of `list` from row `(page - 1) * perPage` on. */
  ghost predicate PageOf<T>(r: seq<T>, list: seq<T>, page: int, perPage: nat)
  {
    page >= 1 ==> forall k :: 0 <= k < |r| ==>
      page * perPage - perPage + k < |list| && r[k] == list[page * perPage - perPage + k]
  }

  /** `list.slice(page * perPage - perPage, page * perPage)`. */
  function PageSlice<T>(list: seq<T>, page: int, perPage: nat): (r: seq<T>)
    ensures |r| <= perPage
    ensures PageOf(r, list, page, perPage)
  {
    var last := page * perPage;
    var first := last - perPage;
    MulAtLeast(page, perPage);
    JsSlice(list, first, last)
  }

  lemma MulAtLeast(page: int, n: nat)
    ensures page >= 1 ==> page * n >= n
  {
    if page >= 1 {
      assert page * n == (page - 1) * n + n;
    }
  }

  /** The footer: `n > 0 ? first + 1 : 0` to `min(last, n)` of `n`. */
  function Showing(n: nat, page: int, perPage: nat): (r: (int, int))
    ensures n == 0 ==> r.0 == 0 && r.1 <= 0
    ensures n > 0 ==> r.0 == page * perPage - perPage + 1 && r.1 <= n
  {
    var last := page * perPage;
    (if n > 0 then last - perPage + 1 else 0, if last <= n then last else n)
  }

  /** The footer names exactly the rows of the page slice, numbered from one. */
  lemma ShowingMatchesSlice<T>(list: seq<T>, page: int, perPage: nat)
    requires page >= 1 && page * perPage - perPage < |list|
    ensures Showing(|list|, page, perPage) ==
      (page * perPage - perPage + 1, page * perPage - perPage + |PageSlice(list, page, perPage)|)
  {
    MulAtLeast(page, perPage);
  }
}
