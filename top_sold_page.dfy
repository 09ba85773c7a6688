/** The top-selling products page: the category list offered by the filter, the summary
    cards, the category filter and column sort of the table, the revenue bars, and the
    per-category distribution. */
module TopSoldPage {
  import opened Common
  import opened ListViews

  /** One entry of the top-selling report. */
  datatype Product = Product(productId: string, productName: string, category: string, totalQuantity: real, totalRevenue: real)

  function Quantity(p: Product): real { p.totalQuantity }

  function Revenue(p: Product): real { p.totalRevenue }

  function CategoriesOf(ps: seq<Product>): (r: seq<string>)
    ensures |r| == |ps| && forall k :: 0 <= k < |ps| ==> r[k] == ps[k].category
  {
    seq(|ps|, k requires 0 <= k < |ps| => ps[k].category)
  }

  /** `['all', ...new Set(data.map(p => p.category))]`: "all", then every category once, in
      order of first appearance. */
  function UniqueCategories(ps: seq<Product>): (r: seq<string>)
    ensures |r| >= 1 && r[0] == "all"
    ensures forall k :: 0 <= k < |ps| ==> ps[k].category in r
    ensures forall k :: 1 <= k < |r| ==> r[k] in CategoriesOf(ps)
    ensures forall i, j :: 1 <= i < j < |r| ==> r[i] != r[j]
  {
    ["all"] + Distinct(CategoriesOf(ps))
  }

  // ------------------------------------------------------------------
  // Sort state.
  // ------------------------------------------------------------------

  /** The table starts sorted by revenue, highest first. */
  const InitialSort := SortState("totalRevenue", Desc)

  /** requestSort: a column starts descending; the same column while descending turns
      ascending. */
  function RequestSort(s: SortState, key: string): (r: SortState)
    ensures r.field == key
    ensures r.dir == Asc <==> s.field == key && s.dir == Desc
  {
    SortState(key, if s.field == key && s.dir == Desc then Asc else Desc)
  }

  /** Two clicks on a new column give descending, then ascending. */
  lemma RequestSortTwice(s: SortState, key: string)
    requires s.field != key
    ensures RequestSort(s, key).dir == Desc && RequestSort(RequestSort(s, key), key).dir == Asc
  {
  }

  // ------------------------------------------------------------------
  // Summary cards.
  // ------------------------------------------------------------------

  function TotalSales(ps: seq<Product>): real { SumR(ps, Quantity) }

  function TotalRevenue(ps: seq<Product>): real { SumR(ps, Revenue) }

  /** avgOrderValue: revenue per unit sold, or 0 when nothing positive was sold. */
  function AvgOrderValue(ps: seq<Product>): (r: real)
    ensures TotalSales(ps) > 0.0 ==> r * TotalSales(ps) == TotalRevenue(ps)
    ensures TotalSales(ps) <= 0.0 ==> r == 0.0
  {
    if TotalSales(ps) > 0.0 then TotalRevenue(ps) / TotalSales(ps) else 0.0
  }

  // ------------------------------------------------------------------
  // The table.
  // ------------------------------------------------------------------

  function InCategory(c: string): Product -> bool
  {
    (p: Product) => p.category == c
  }

  /** filteredProducts: every product for "all", otherwise those of exactly that category. */
  function FilteredProducts(ps: seq<Product>, filter: string): (r: seq<Product>)
    ensures filter == "all" ==> r == ps
    ensures filter != "all" ==> forall k :: 0 <= k < |r| ==> r[k] in ps && r[k].category == filter
    ensures filter != "all" ==> forall k :: 0 <= k < |ps| && ps[k].category == filter ==> ps[k] in r
  {
    if filter == "all" then ps else Filter(ps, InCategory(filter))
  }

  function ProductName(p: Product): string { p.productName }

  function CategoryName(p: Product): string { p.category }

  function ProductId(p: Product): string { p.productId }

  /** `a[key] < b[key]` in the chosen direction; a key no product carries compares equal. */
  function Comparator(sort: SortState): (Product, Product) -> bool
  {
    if sort.field == "productName" then ByStr(ProductName, sort.dir)
    else if sort.field == "category" then ByStr(CategoryName, sort.dir)
    else if sort.field == "productId" then ByStr(ProductId, sort.dir)
    else if sort.field == "totalQuantity" then ByReal(Quantity, sort.dir)
    else if sort.field == "totalRevenue" then ByReal(Revenue, sort.dir)
    else KeepOrder()
  }

  lemma ComparatorSorts(s: seq<Product>, sort: SortState)
    ensures SortedBy(SortBy(s, Comparator(sort)), Comparator(sort))
  {
    if sort.field == "productName" {
      SortByStr(s, ProductName, sort.dir);
    } else if sort.field == "category" {
      SortByStr(s, CategoryName, sort.dir);
    } else if sort.field == "productId" {
      SortByStr(s, ProductId, sort.dir);
    } else if sort.field == "totalQuantity" {
      SortByReal(s, Quantity, sort.dir);
    } else if sort.field == "totalRevenue" {
      SortByReal(s, Revenue, sort.dir);
    } else {
      KeepOrderKeeps(s);
    }
  }

  /** sortedProducts: the filtered products, rearranged into the chosen order. */
  function SortedProducts(ps: seq<Product>, filter: string, sort: SortState): (r: seq<Product>)
    ensures multiset(r) == multiset(FilteredProducts(ps, filter))
    ensures SortedBy(r, Comparator(sort))
  {
    var kept := FilteredProducts(ps, filter);
    ComparatorSorts(kept, sort);
    SortBy(kept, Comparator(sort))
  }

  /** `Math.max(...revenues)`, the full-width bar; none for an empty report, where
      JavaScript answers -Infinity. */
  function MaxRevenue(ps: seq<Product>): (r: Option<real>)
    ensures ps == [] <==> r.None?
    ensures r.Some? ==> forall k :: 0 <= k < |ps| ==> ps[k].totalRevenue <= r.value
    ensures r.Some? ==> exists k :: 0 <= k < |ps| && ps[k].totalRevenue == r.value
  {
    if ps == [] then None
    else
      var last := ps[|ps| - 1].totalRevenue;
      match MaxRevenue(ps[..|ps| - 1])
      case None => Some(last)
      case Some(m) => Some(if m < last then last else m)
  }

  /** A bar is never wider than the widest one. */
  lemma BarAtMostFull(ps: seq<Product>, k: nat)
    requires k < |ps| && ps[k].totalRevenue >= 0.0
    ensures MaxRevenue(ps).Some? && MaxRevenue(ps).value > 0.0 ==>
      ps[k].totalRevenue / MaxRevenue(ps).value * 100.0 <= 100.0
  {
    var m := MaxRevenue(ps);
    if m.Some? && m.value > 0.0 {
      RatioAtMostOne(ps[k].totalRevenue, m.value);
    }
  }

  lemma RatioAtMostOne(x: real, m: real)
    requires 0.0 <= x <= m && m > 0.0
    ensures x / m * 100.0 <= 100.0
  {
    var q := x / m;
    assert q * m == x;
  }

  // ------------------------------------------------------------------
  // Category distribution.
  // ------------------------------------------------------------------

  /** The categories the distribution lists: the filter's list without "all". */
  function ShownCategories(ps: seq<Product>): (r: seq<string>)
    ensures forall c :: c in r <==> c in CategoriesOf(ps) && c != "all"
  {
    var u := UniqueCategories(ps);
    var r := Filter(u, (c: string) => c != "all");
    forall c | c in CategoriesOf(ps) && c != "all"
      ensures c in r
    {
      var k :| 0 <= k < |ps| && CategoriesOf(ps)[k] == c;
      assert ps[k].category in u;
      var j :| 0 <= j < |u| && u[j] == c;
    }
    r
  }

  /** `products.filter(p => p.category === c).reduce(…)` of one weight. */
  function CategoryTotal(ps: seq<Product>, c: string, w: Product -> real): real
  {
    SumR(Filter(ps, InCategory(c)), w)
  }

  function CategoryWeight(ps: seq<Product>, w: Product -> real): string -> real
  {
    (c: string) => CategoryTotal(ps, c, w)
  }

  function InAny(cs: seq<string>): Product -> bool
  {
    (p: Product) => p.category in cs
  }

  function Guarded(keep: Product -> bool, w: Product -> real): Product -> real
  {
    (p: Product) => if keep(p) then w(p) else 0.0
  }

  /** Over distinct categories, the per-category totals add up to the total of the products
      in any of them. */
  lemma {:induction false} CategoriesPartition(cs: seq<string>, ps: seq<Product>, w: Product -> real)
    requires forall i, j :: 0 <= i < j < |cs| ==> cs[i] != cs[j]
    ensures SumR(cs, CategoryWeight(ps, w)) == SumR(ps, Guarded(InAny(cs), w))
  {
    if cs == [] {
      SumRZero(ps, Guarded(InAny(cs), w));
    } else {
      var init := cs[..|cs| - 1];
      var c := cs[|cs| - 1];
      CategoriesPartition(init, ps, w);
      assert cs == init + [c];
      assert c !in init;
      SumRGuarded(ps, InCategory(c), w, Guarded(InCategory(c), w));
      SumRSplit(ps, Guarded(InAny(cs), w), Guarded(InAny(init), w), Guarded(InCategory(c), w));
    }
  }

  lemma {:induction false} FilterDistinct(s: seq<string>, keep: string -> bool)
    requires forall i, j :: 0 <= i < j < |s| ==> s[i] != s[j]
    ensures forall i, j :: 0 <= i < j < |Filter(s, keep)| ==> Filter(s, keep)[i] != Filter(s, keep)[j]
  {
    if s != [] {
      FilterDistinct(s[1..], keep);
      assert s[0] !in s[1..];
    }
  }

  /** A product outside the literal category "all". */
  function OtherCategory(): Product -> bool
  {
    (p: Product) => p.category != "all"
  }

  function NotAll(): string -> bool
  {
    (c: string) => c != "all"
  }

  /** The listed categories are distinct. */
  lemma ShownDistinct(ps: seq<Product>)
    ensures forall i, j :: 0 <= i < j < |ShownCategories(ps)| ==> ShownCategories(ps)[i] != ShownCategories(ps)[j]
  {
    var d := Distinct(CategoriesOf(ps));
    assert (["all"] + d)[1..] == d;
    assert ShownCategories(ps) == Filter(d, NotAll());
    FilterDistinct(d, NotAll());
  }

  /** A product is in a listed category exactly when its category is not "all". */
  lemma ShownSelectsOthers(ps: seq<Product>)
    ensures Filter(ps, InAny(ShownCategories(ps))) == Filter(ps, OtherCategory())
  {
    var cs := ShownCategories(ps);
    forall i | 0 <= i < |ps|
      ensures InAny(cs)(ps[i]) == OtherCategory()(ps[i])
    {
      assert CategoriesOf(ps)[i] == ps[i].category;
    }
    FilterSameOn(ps, InAny(cs), OtherCategory());
  }

  /** The products outside "all" weigh the total less those filed under "all". */
  lemma OthersWeigh(ps: seq<Product>, w: Product -> real)
    ensures SumR(Filter(ps, OtherCategory()), w) == SumR(ps, w) - CategoryTotal(ps, "all", w)
  {
    SumRGuarded(ps, OtherCategory(), w, Guarded(OtherCategory(), w));
    SumRGuarded(ps, InCategory("all"), w, Guarded(InCategory("all"), w));
    SumRSplit(ps, w, Guarded(OtherCategory(), w), Guarded(InCategory("all"), w));
  }

  /** The distribution's figures add up to the overall total, less the products whose
      category is literally "all", which no row lists. */
  lemma DistributionCoversTotal(ps: seq<Product>, w: Product -> real)
    ensures SumR(ShownCategories(ps), CategoryWeight(ps, w)) == SumR(ps, w) - CategoryTotal(ps, "all", w)
  {
    var cs := ShownCategories(ps);
    ShownDistinct(ps);
    CategoriesPartition(cs, ps, w);
    SumRGuarded(ps, InAny(cs), w, Guarded(InAny(cs), w));
    ShownSelectsOthers(ps);
    OthersWeigh(ps, w);
  }

  /** `(categoryTotal / total) * 100`; JavaScript's NaN or Infinity for a zero total is
      shown here as 0. */
  function Percent(ps: seq<Product>, w: Product -> real): string -> real
  {
    PercentOf(CategoryWeight(ps, w), SumR(ps, w))
  }

  function PercentOf(f: string -> real, total: real): string -> real
  {
    (c: string) => if total != 0.0 then f(c) / total * 100.0 else 0.0
  }

  /** With no product filed under "all" and a non-zero total, the percentages of the
      distribution add up to 100. */
  lemma PercentagesAddUp(ps: seq<Product>, w: Product -> real)
    requires forall k :: 0 <= k < |ps| ==> ps[k].category != "all"
    requires SumR(ps, w) != 0.0
    ensures SumR(ShownCategories(ps), Percent(ps, w)) == 100.0
  {
    var total := SumR(ps, w);
    var cs := ShownCategories(ps);
    DistributionCoversTotal(ps, w);
    NoneFiledUnderAll(ps, w);
    assert SumR(cs, CategoryWeight(ps, w)) == total;
    PercentsOfWhole(cs, CategoryWeight(ps, w), total);
  }

  lemma PercentsOfWhole(cs: seq<string>, f: string -> real, total: real)
    requires total != 0.0 && SumR(cs, f) == total
    ensures SumR(cs, PercentOf(f, total)) == 100.0
  {
    ScaleToPercent(cs, f, total);
    WholeIsHundred(total);
  }

  lemma WholeIsHundred(t: real)
    requires t != 0.0
    ensures t * (100.0 / t) == 100.0
  {
  }

  lemma NoneFiledUnderAll(ps: seq<Product>, w: Product -> real)
    requires forall k :: 0 <= k < |ps| ==> ps[k].category != "all"
    ensures CategoryTotal(ps, "all", w) == 0.0
  {
  }

  lemma DivScale(x: real, t: real)
    requires t != 0.0
    ensures x / t * 100.0 == x * (100.0 / t)
  {
  }

  /** Percentages of a non-zero total sum to the scaled sum. */
  lemma {:induction false} ScaleToPercent(cs: seq<string>, f: string -> real, total: real)
    requires total != 0.0
    ensures SumR(cs, PercentOf(f, total)) == SumR(cs, f) * (100.0 / total)
  {
    if cs != [] {
      var c := cs[|cs| - 1];
      ScaleToPercent(cs[..|cs| - 1], f, total);
      DivScale(f(c), total);
    }
  }
}
