/** The line-item editing shared by the issued-invoice and the received-invoice editors:
    setting a field of the items with a given id (a product choice also copies the
    catalogue price and name), appending a blank item and removing items by id. */
module ItemEditor {
  import opened Common

  /** An item row of the editor; `product` is a product id, "" while none is chosen. */
  datatype EditItem = EditItem(id: int, name: string, product: string, quantity: int, price: real, total: real)

  /** A product of the catalogue the editor fetched. */
  datatype CatalogEntry = CatalogEntry(id: string, name: string, price: real)

  /** The field edits the editors' inputs perform. */
  datatype Edit = SetProduct(pid: string) | SetQuantity(quantity: int) | SetPrice(price: real)

  function ItemTotal(it: EditItem): real { it.total }

  /** The blank row both editors start from and append: quantity 1, price 0, total 0. */
  function Blank(id: int): EditItem
  {
    EditItem(id, "", "", 1, 0.0, 0.0)
  }

  /** Every row's total is its quantity times its price. */
  predicate RowsPriced(items: seq<EditItem>)
  {
    forall i :: 0 <= i < |items| ==> Priced(items[i])
  }

  predicate Priced(it: EditItem)
  {
    it.total == it.quantity as real * it.price
  }

  predicate DistinctIds(items: seq<EditItem>)
  {
    forall i, j :: 0 <= i < j < |items| ==> items[i].id != items[j].id
  }

  /** `products.find(p => p._id === pid)`: the first catalogue entry with that id. */
  function FindEntry(catalog: seq<CatalogEntry>, pid: string): (r: Option<CatalogEntry>)
    ensures r.Some? ==> r.value in catalog && r.value.id == pid
    ensures r.None? <==> forall j :: 0 <= j < |catalog| ==> catalog[j].id != pid
  {
    if catalog == [] then None
    else if catalog[0].id == pid then Some(catalog[0])
    else FindEntry(catalog[1..], pid)
  }

  /** One edited row: the field is set, a known product brings its price and name, and the
      total is recomputed. */
  function Apply(item: EditItem, e: Edit, catalog: seq<CatalogEntry>): (r: EditItem)
    ensures r.id == item.id
    ensures r.total == r.quantity as real * r.price
    ensures e.SetProduct? ==>
      r.product == e.pid && r.quantity == item.quantity &&
      match FindEntry(catalog, e.pid)
      case Some(p) => r.price == p.price && r.name == p.name
      case None => r.price == item.price && r.name == item.name
    ensures e.SetQuantity? ==>
      r.quantity == e.quantity && r.price == item.price && r.product == item.product && r.name == item.name
    ensures e.SetPrice? ==>
      r.price == e.price && r.quantity == item.quantity && r.product == item.product && r.name == item.name
  {
    var edited := match e
      case SetProduct(pid) =>
        (match FindEntry(catalog, pid)
         case Some(p) => item.(product := pid, price := p.price, name := p.name)
         case None => item.(product := pid))
      case SetQuantity(q) => item.(quantity := q)
      case SetPrice(p) => item.(price := p);
    edited.(total := edited.quantity as real * edited.price)
  }

  /** `items.map(item => item.id === id ? <edited> : item)`. */
  function EditItems(items: seq<EditItem>, id: int, e: Edit, catalog: seq<CatalogEntry>): (r: seq<EditItem>)
    ensures |r| == |items|
    ensures forall i :: 0 <= i < |r| ==> r[i] == if items[i].id == id then Apply(items[i], e, catalog) else items[i]
  {
    seq(|items|, i requires 0 <= i < |items| => if items[i].id == id then Apply(items[i], e, catalog) else items[i])
  }

  /** addItem: a blank row whose id is one more than the number of rows. */
  function AddItem(items: seq<EditItem>): (r: seq<EditItem>)
    ensures |r| == |items| + 1 && r[..|items|] == items
    ensures r[|items|] == Blank(|items| + 1)
  {
    items + [Blank(|items| + 1)]
  }

  /** removeItem: with more than one row, every row with that id goes; a single row stays. */
  function RemoveItem(items: seq<EditItem>, id: int): (r: seq<EditItem>)
    ensures |items| <= 1 ==> r == items
    ensures |items| > 1 ==> forall k :: 0 <= k < |r| ==> r[k] in items && r[k].id != id
    ensures |items| > 1 ==> forall k :: 0 <= k < |items| && items[k].id != id ==> items[k] in r
  {
    if |items| > 1 then Filter(items, (it: EditItem) => it.id != id) else items
  }

  /** Editing keeps every row priced. */
  lemma EditKeepsPriced(items: seq<EditItem>, id: int, e: Edit, catalog: seq<CatalogEntry>)
    requires RowsPriced(items)
    ensures RowsPriced(EditItems(items, id, e, catalog))
  {
  }

  /** Adding keeps every row priced and adds nothing to the sum of totals. */
  lemma AddKeepsSum(items: seq<EditItem>)
    requires RowsPriced(items)
    ensures RowsPriced(AddItem(items))
    ensures SumR(AddItem(items), ItemTotal) == SumR(items, ItemTotal)
  {
    var r := AddItem(items);
    assert r[..|r| - 1] == items;
  }

  lemma RemoveKeepsPriced(items: seq<EditItem>, id: int)
    ensures RowsPriced(items) ==> RowsPriced(RemoveItem(items, id))
  {
    if RowsPriced(items) && |items| > 1 {
      var r := RemoveItem(items, id);
      forall k | 0 <= k < |r|
        ensures Priced(r[k])
      {
        var j :| 0 <= j < |items| && items[j] == r[k];
      }
    }
  }

  /** As written, a removal followed by an addition reuses an id, and removing that id then
      empties the list although removeItem refuses to remove the last row. */
  lemma RemoveCanEmpty()
    ensures var start := [Blank(1)];
      var twice := AddItem(RemoveItem(AddItem(start), 1));
      |twice| == 2 && twice[0].id == twice[1].id && RemoveItem(twice, 2) == []
  {
    var two := AddItem([Blank(1)]);
    assert two == [Blank(1), Blank(2)];
    var one := RemoveItem(two, 1);
    assert one == [Blank(2)];
    var twice := AddItem(one);
    assert twice == [Blank(2), Blank(2)];
  }

  /** The largest id of the rows, 0 for none. */
  function MaxId(items: seq<EditItem>): (m: int)
    ensures forall i :: 0 <= i < |items| ==> items[i].id <= m
  {
    if items == [] then 0
    else
      var m := MaxId(items[..|items| - 1]);
      assert forall i :: 0 <= i < |items| - 1 ==> items[i] == items[..|items| - 1][i];
      if items[|items| - 1].id > m then items[|items| - 1].id else m
  }

  /** The evidently intended addItem: the new row's id is above every id in use. */
  function AddItemFresh(items: seq<EditItem>): (r: seq<EditItem>)
    ensures |r| == |items| + 1 && r[..|items|] == items
    ensures forall i :: 0 <= i < |items| ==> items[i].id != r[|items|].id
    ensures DistinctIds(items) ==> DistinctIds(r)
  {
    items + [Blank(MaxId(items) + 1)]
  }

  /** With distinct ids, removal takes away at most one row, so a list of several rows
      never becomes empty. */
  lemma {:induction false} RemoveDistinct(items: seq<EditItem>, id: int)
    requires DistinctIds(items)
    ensures DistinctIds(RemoveItem(items, id))
    ensures |RemoveItem(items, id)| >= |items| - 1
    ensures items != [] ==> RemoveItem(items, id) != []
  {
    if |items| > 1 {
      FilterDropsOne(items, id);
    }
  }

  lemma {:induction false} FilterDropsOne(items: seq<EditItem>, id: int)
    requires DistinctIds(items)
    ensures var r := Filter(items, (it: EditItem) => it.id != id);
      DistinctIds(r) && |r| >= |items| - 1 &&
      ((forall k :: 0 <= k < |items| ==> items[k].id != id) ==> |r| == |items|)
  {
    var keep := (it: EditItem) => it.id != id;
    if items != [] {
      var rest := items[1..];
      assert DistinctIds(rest) by {
        forall i, j | 0 <= i < j < |rest|
          ensures rest[i].id != rest[j].id
        {
          assert rest[i] == items[i + 1] && rest[j] == items[j + 1];
        }
      }
      FilterDropsOne(rest, id);
      var fr := Filter(rest, keep);
      if keep(items[0]) {
        HeadAbsentFromRest(items, fr);
        ConsDistinct(items[0], fr);
      } else {
        forall k | 0 <= k < |rest|
          ensures rest[k].id != id
        {
          assert items[k + 1] == rest[k];
        }
      }
    }
  }

  /** Under distinct ids, no row of the tail shares the first row's id. */
  lemma HeadAbsentFromRest(items: seq<EditItem>, fr: seq<EditItem>)
    requires DistinctIds(items) && items != []
    requires forall k :: 0 <= k < |fr| ==> fr[k] in items[1..]
    ensures forall k :: 0 <= k < |fr| ==> fr[k].id != items[0].id
  {
    forall k | 0 <= k < |fr|
      ensures fr[k].id != items[0].id
    {
      var j :| 0 <= j < |items[1..]| && items[1..][j] == fr[k];
      assert items[j + 1] == fr[k];
    }
  }

  lemma ConsDistinct(x: EditItem, s: seq<EditItem>)
    requires DistinctIds(s)
    requires forall k :: 0 <= k < |s| ==> s[k].id != x.id
    ensures DistinctIds([x] + s)
  {
    var t := [x] + s;
    forall i, j | 0 <= i < j < |t|
      ensures t[i].id != t[j].id
    {
      if i > 0 {
        assert t[i] == s[i - 1];
      }
      assert t[j] == s[j - 1];
    }
  }
}
