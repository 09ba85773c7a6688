/** The stock view of the product page: six products per page, a search over the page on
    screen, stock shown in kilograms by category, the stock valuation column, and the same
    list edits as the product management page. */
module ProductStockPage {
  import opened Common
  import opened ListViews
  import opened ProductsPage

  const PerPage: nat := 6

  /** currentPosts: `products.slice((page - 1) * 6, page * 6)`. */
  function CurrentPosts(products: seq<Product>, page: int): (r: seq<Product>)
    ensures |r| <= PerPage && PageOf(r, products, page, PerPage)
  {
    PageSlice(products, page, PerPage)
  }

  /** filteredProducts as written: the term filters the page already cut, so only products
      of the current page can be found. */
  function PageThenSearch(products: seq<Product>, page: int, term: string): (r: seq<Product>)
    ensures forall k :: 0 <= k < |r| ==> r[k] in CurrentPosts(products, page) && Matches(r[k], term)
    ensures term == "" ==> r == CurrentPosts(products, page)
  {
    Filtered(CurrentPosts(products, page), term)
  }

  /** Seven products, the seventh named "x": searching "x" on page 1 finds nothing. */
  lemma SearchMissesOtherPages()
    ensures var blank := Product("", "", 0.0, "", 0.0, 0.0);
            var wanted := blank.(name := "x");
            var products := [blank, blank, blank, blank, blank, blank, wanted];
            Matches(wanted, "x") && PageThenSearch(products, 1, "x") == []
  {
    var blank := Product("", "", 0.0, "", 0.0, 0.0);
    var wanted := blank.(name := "x");
    var products := [blank, blank, blank, blank, blank, blank, wanted];
    assert ToLower("x") == "x";
    assert OccursAt("x", "x", 0);
    assert !Matches(blank, "x");
    var posts := CurrentPosts(products, 1);
    assert posts == [blank, blank, blank, blank, blank, blank];
    FilterNone(posts, (p: Product) => Matches(p, "x"));
  }

  /** The search the page evidently means: filter the whole list, then cut the page. */
  function SearchThenPage(products: seq<Product>, term: string, page: int): (r: seq<Product>)
    ensures |r| <= PerPage && PageOf(r, Filtered(products, term), page, PerPage)
  {
    PageSlice(Filtered(products, term), page, PerPage)
  }

  /** Every matching product is on the page its position in the filtered list gives. */
  lemma EveryMatchHasAPage(products: seq<Product>, term: string, i: nat)
    requires i < |Filtered(products, term)|
    ensures Filtered(products, term)[i] in SearchThenPage(products, term, i / 6 + 1)
  {
    var list := Filtered(products, term);
    var page := i / 6 + 1;
    assert page * 6 - 6 == (i / 6) * 6;
    var first := page * 6 - 6;
    assert first <= i < first + 6;
    var r := SearchThenPage(products, term, page);
    assert r == JsSlice(list, first, page * 6);
    if page * 6 <= |list| {
      assert r == list[first..page * 6];
    } else {
      assert r == list[first..];
    }
    assert r[i - first] == list[i];
  }

  // ------------------------------------------------------------------
  // Kilograms by category.
  // ------------------------------------------------------------------

  /** `Number(s)` for the strings a category prefix yields: "" is 0, a run of digits is its
      value, anything else is NaN (None). */
  function NumberOf(s: string): (r: Option<real>)
    ensures s == "" ==> r == Some(0.0)
    ensures s != "" && AllDigits(s) ==> r == Some(DigitsValue(s) as real)
    ensures s != "" && !AllDigits(s) ==> r.None?
  {
    if s == "" then Some(0.0) else if AllDigits(s) then Some(DigitsValue(s) as real) else None
  }

  /** The weight of one unit in grams, by category, whatever its letter case: 1000 for the
      kilogram categories "bulk" and "550g/l", 2 for a tea bag, 20 for "sample 20g", and
      otherwise the number before the category's first "g"; None is NaN. */
  function GramsPerUnit(category: string): (r: Option<real>)
    ensures r.Some? ==> r.value >= 0.0
  {
    var lc := ToLower(category);
    if lc == "bulk" || lc == "550g/l" then Some(1000.0)
    else if lc == "tea bag" then Some(2.0)
    else if lc == "sample 20g" then Some(20.0)
    else NumberOf(Split(category, 'g')[0])
  }

  /** A stock amount in kilograms, as the stock column shows it beside the count. */
  function KgOf(category: string, amount: real): (r: Option<real>)
    ensures r.None? <==> GramsPerUnit(category).None?
    ensures r.Some? ==> r.value == amount * GramsPerUnit(category).value / 1000.0
  {
    var lc := ToLower(category);
    if lc == "bulk" || lc == "550g/l" then Some(amount)
    else if lc == "tea bag" then Some(amount * 2.0 / 1000.0)
    else if lc == "sample 20g" then Some(amount * 20.0 / 1000.0)
    else match NumberOf(Split(category, 'g')[0])
      case None => None
      case Some(grams) => Some(amount * grams / 1000.0)
  }

  /** A category written as a gram count followed by "g" converts at that many grams per unit. */
  lemma GramCategory(digits: string, rest: string, amount: real)
    requires digits != "" && AllDigits(digits)
    requires ToLower(digits + "g" + rest) != "550g/l"
    ensures KgOf(digits + "g" + rest, amount) == Some(amount * (DigitsValue(digits) as real) / 1000.0)
  {
    var category := digits + "g" + rest;
    var lc := ToLower(category);
    assert IsDigit(lc[0]);
    assert lc != "bulk" && lc != "tea bag" && lc != "sample 20g" by {
      assert "bulk"[0] == 'b' && "tea bag"[0] == 't' && "sample 20g"[0] == 's';
    }
    assert NoChar(digits, 'g');
    SplitAfterField(digits, 'g', rest);
  }

  /** The named categories convert at their fixed rates, whatever their letter case. */
  lemma NamedCategories(amount: real)
    ensures KgOf("Bulk", amount) == Some(amount)
    ensures KgOf("Tea Bag", amount) == Some(amount * 2.0 / 1000.0)
    ensures KgOf("sample 20g", amount) == Some(amount * 20.0 / 1000.0)
  {
    assert ToLower("Bulk") == "bulk";
    assert ToLower("Tea Bag") == "tea bag";
    assert ToLower("sample 20g") == "sample 20g";
  }

  /** A category with letters before any "g" shows NaN kilograms. */
  lemma WordCategoryIsNaN(amount: real)
    ensures KgOf("box", amount).None?
  {
    assert ToLower("box") == "box";
    assert NoChar("box", 'g');
    SplitNoSep("box", 'g');
    assert !IsDigit("box"[0]);
  }

  // ------------------------------------------------------------------
  // Stock valuation.
  // ------------------------------------------------------------------

  /** The value column: stock times price when there is stock, otherwise "Out of Stock"
      (None). */
  function StockValue(p: Product): (r: Option<real>)
    ensures r.Some? <==> p.stock > 0.0
    ensures r.Some? ==> r.value == p.stock * p.price
  {
    if p.stock > 0.0 then Some(p.stock * p.price) else None
  }

  /** A priced product in stock is never valued below zero. */
  lemma ValuedStockNonNegative(p: Product)
    requires p.price >= 0.0
    ensures StockValue(p).Some? ==> StockValue(p).value >= 0.0
  {
  }
}
