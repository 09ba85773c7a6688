/** The product management page: the search over the whole product list and the list edits
    made after the update, add and delete requests succeed. */
module ProductsPage {
  import opened Common

  datatype Product = Product(id: string, name: string, price: real, category: string, stock: real, entireStock: real)

  /** Before the fetch answers the list holds one blank product. */
  const InitialProducts := [Product("", "", 0.0, "", 0.0, 0.0)]

  /** The lower-cased term in the lower-cased name or category. */
  predicate Matches(p: Product, term: string)
  {
    Includes(ToLower(p.name), ToLower(term)) || Includes(ToLower(p.category), ToLower(term))
  }

  /** filteredProducts: an empty term shows every product; any other keeps the matching
      ones, in list order. */
  function Filtered(products: seq<Product>, term: string): (r: seq<Product>)
    ensures term == "" ==> r == products
    ensures forall k :: 0 <= k < |r| ==> r[k] in products && Matches(r[k], term)
    ensures forall k :: 0 <= k < |products| && Matches(products[k], term) ==> products[k] in r
  {
    EmptyTermMatchesAll();
    if term == "" then products else Filter(products, (p: Product) => Matches(p, term))
  }

  /** Every product matches the empty term, so the shortcut shows what the filter would. */
  lemma EmptyTermMatchesAll()
    ensures forall p :: Matches(p, "")
  {
    forall p: Product
      ensures Matches(p, "")
    {
      assert OccursAt(ToLower(p.name), ToLower(""), 0);
    }
  }

  /** handleUpdateProduct: on success every product with the edited id becomes the edited
      product; a failed request leaves the list alone. */
  function UpdateProduct(products: seq<Product>, updated: Product, ok: bool): (r: seq<Product>)
    ensures |r| == |products|
    ensures forall k :: 0 <= k < |r| ==> r[k] == if ok && products[k].id == updated.id then updated else products[k]
  {
    if !ok then products
    else seq(|products|, k requires 0 <= k < |products| =>
                           if products[k].id == updated.id then updated else products[k])
  }

  /** handleAddProduct: on success the product the server returned is appended. */
  function AddProduct(products: seq<Product>, created: Product, ok: bool): (r: seq<Product>)
    ensures ok ==> |r| == |products| + 1 && r[..|products|] == products && r[|products|] == created
    ensures !ok ==> r == products
  {
    if ok then products + [created] else products
  }

  /** The delete handler: on success every product with that id is dropped. */
  function DeleteProduct(products: seq<Product>, id: string, ok: bool): (r: seq<Product>)
    ensures !ok ==> r == products
    ensures ok ==> forall p :: p in r <==> p in products && p.id != id
  {
    if !ok then products
    else
      var r := Filter(products, (p: Product) => p.id != id);
      assert forall p :: p in products && p.id != id ==> p in r by {
        forall p | p in products && p.id != id
          ensures p in r
        {
          var k :| 0 <= k < |products| && products[k] == p;
        }
      }
      r
  }

  /** Updating twice with the same product is updating once. */
  lemma UpdateIdempotent(products: seq<Product>, updated: Product)
    ensures UpdateProduct(UpdateProduct(products, updated, true), updated, true) == UpdateProduct(products, updated, true)
  {
  }

  /** After a successful update the edited product is listed in place of each old version,
      and no product with that id but other contents survives. */
  lemma UpdateReplaces(products: seq<Product>, updated: Product, p: Product)
    ensures p in UpdateProduct(products, updated, true) && p.id == updated.id ==> p == updated
    ensures (exists k :: 0 <= k < |products| && products[k].id == updated.id) ==> updated in UpdateProduct(products, updated, true)
  {
  }

  /** Deleting a product that was just added, under an id nobody else has, gives the list
      back. */
  lemma {:induction false} AddThenDelete(products: seq<Product>, created: Product)
    requires forall k :: 0 <= k < |products| ==> products[k].id != created.id
    ensures DeleteProduct(AddProduct(products, created, true), created.id, true) == products
  {
    var keep := (p: Product) => p.id != created.id;
    FilterAll(products, keep);
    FilterAppendDropped(products, created, keep);
  }

  lemma {:induction false} FilterAppendDropped(s: seq<Product>, x: Product, keep: Product -> bool)
    requires !keep(x)
    ensures Filter(s + [x], keep) == Filter(s, keep)
  {
    if s == [] {
      assert [] + [x] == [x];
      assert [x][1..] == [];
    } else {
      FilterAppendDropped(s[1..], x, keep);
      assert (s + [x])[1..] == s[1..] + [x];
    }
  }

  /** Deleting twice is deleting once. */
  lemma DeleteIdempotent(products: seq<Product>, id: string, p: Product)
    ensures p in DeleteProduct(DeleteProduct(products, id, true), id, true) <==> p in DeleteProduct(products, id, true)
  {
  }
}
