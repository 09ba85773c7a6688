/** The write side of the invoice controllers over the Invoice, Product and
    RecievedInvoice collections: cancelling and paying an issued invoice, creating an
    issued invoice (which takes its items out of stock) and creating a received invoice
    (which puts them back into stock). Collections are sequences in insertion order. */
module InvoiceStore {
  import opened Common
  import opened Records

  /** A controller's answer; the success answer of markAsPaid carries no status. */
  datatype Reply = Reply(status: Option<int>, message: string)

  const InvoiceNotFound := Reply(Some(404), "Invoice not found")
  const InvoiceCancelled := Reply(Some(200), "Invoice cancelled successfully")
  const NotPayable := Reply(Some(500), "Invoice not found or already marked as paid")
  const InvoicePaid := Reply(None, "Invoice marked as paid successfully")
  const InvoiceCreated := Reply(Some(201), "Invoice created successfully")

  /** The position of the first document whose `_id`, as `key` reads it, is `id`. */
  function IndexOfId<T>(docs: seq<T>, key: T -> Id, id: Id): (r: Option<nat>)
    ensures r.Some? ==> r.value < |docs| && key(docs[r.value]) == id
    ensures r.None? <==> forall j :: 0 <= j < |docs| ==> key(docs[j]) != id
  {
    if docs == [] then None
    else if key(docs[0]) == id then Some(0)
    else
      match IndexOfId(docs[1..], key, id)
      case None => None
      case Some(i) => Some(i + 1)
  }

  function InvoiceId(v: Invoice): Id { v.id }

  function ProductId(p: Product): Id { p.id }

  /** `findById` / `findByIdAndUpdate` on the Invoice collection. */
  function IndexOfInvoice(invoices: seq<Invoice>, id: Id): Option<nat>
  {
    IndexOfId(invoices, InvoiceId, id)
  }

  /** `findById` on the Product collection. */
  function IndexOfProduct(products: seq<Product>, id: Id): Option<nat>
  {
    IndexOfId(products, ProductId, id)
  }

  predicate DistinctInvoices(invoices: seq<Invoice>)
  {
    forall i, j :: 0 <= i < j < |invoices| ==>
      invoices[i].id != invoices[j].id && invoices[i].invoiceNumber != invoices[j].invoiceNumber
  }

  predicate DistinctProducts(products: seq<Product>)
  {
    forall i, j :: 0 <= i < j < |products| ==> products[i].id != products[j].id
  }

  predicate DistinctReceived(received: seq<ReceivedInvoice>)
  {
    forall i, j :: 0 <= i < j < |received| ==> received[i].id != received[j].id
  }

  predicate NumberTaken(invoices: seq<Invoice>, number: string)
  {
    exists i :: 0 <= i < |invoices| && invoices[i].invoiceNumber == number
  }

  // ------------------------------------------------------------------
  // updateOne({_id}, {isCancelled: true}) and updateOne({_id}, {isPaid: true}).
  // ------------------------------------------------------------------

  /** The store after the cancel update: the invoice with that id, if any, is flagged. */
  function Cancel(invoices: seq<Invoice>, id: Id): (r: seq<Invoice>)
    ensures |r| == |invoices|
    ensures forall j :: 0 <= j < |r| ==> r[j].id == invoices[j].id
    ensures forall j :: 0 <= j < |r| && invoices[j].id != id ==> r[j] == invoices[j]
  {
    match IndexOfInvoice(invoices, id)
    case None => invoices
    case Some(i) => invoices[i := invoices[i].(isCancelled := true)]
  }

  /** `modifiedCount` of the cancel update is 1: the invoice exists and was not yet cancelled. */
  predicate CancelModifies(invoices: seq<Invoice>, id: Id)
  {
    match IndexOfInvoice(invoices, id)
    case None => false
    case Some(i) => !invoices[i].isCancelled
  }

  function Pay(invoices: seq<Invoice>, id: Id): (r: seq<Invoice>)
    ensures |r| == |invoices|
    ensures forall j :: 0 <= j < |r| ==> r[j].id == invoices[j].id
    ensures forall j :: 0 <= j < |r| && invoices[j].id != id ==> r[j] == invoices[j]
  {
    match IndexOfInvoice(invoices, id)
    case None => invoices
    case Some(i) => invoices[i := invoices[i].(isPaid := true)]
  }

  predicate PayModifies(invoices: seq<Invoice>, id: Id)
  {
    match IndexOfInvoice(invoices, id)
    case None => false
    case Some(i) => !invoices[i].isPaid
  }

  /** Cancelling never removes a record: the invoice with that id is afterwards cancelled
      and otherwise unchanged, every other invoice is untouched. */
  lemma CancelFlagsOnly(invoices: seq<Invoice>, id: Id)
    requires DistinctInvoices(invoices)
    ensures var r := Cancel(invoices, id);
      DistinctInvoices(r) &&
      forall j :: 0 <= j < |r| ==>
        r[j] == (if invoices[j].id == id then invoices[j].(isCancelled := true) else invoices[j])
  {
  }

  /** A second cancel of the same id modifies nothing, so it answers 404. */
  lemma CancelTwice(invoices: seq<Invoice>, id: Id)
    ensures !CancelModifies(Cancel(invoices, id), id)
    ensures Cancel(Cancel(invoices, id), id) == Cancel(invoices, id)
  {
    SameIdsSameIndex(invoices, Cancel(invoices, id), id);
  }

  /** The lookup depends on the ids alone. */
  lemma {:induction false} SameIdsSameIndex(a: seq<Invoice>, b: seq<Invoice>, id: Id)
    requires |a| == |b| && forall j :: 0 <= j < |a| ==> a[j].id == b[j].id
    ensures IndexOfInvoice(a, id) == IndexOfInvoice(b, id)
  {
    if a != [] && a[0].id != id {
      SameIdsSameIndex(a[1..], b[1..], id);
    }
  }

  /** A second markAsPaid of the same id modifies nothing, so it answers 500. */
  lemma PayTwice(invoices: seq<Invoice>, id: Id)
    ensures !PayModifies(Pay(invoices, id), id)
    ensures Pay(Pay(invoices, id), id) == Pay(invoices, id)
  {
    SameIdsSameIndex(invoices, Pay(invoices, id), id);
  }

  // ------------------------------------------------------------------
  // Stock movements.
  // ------------------------------------------------------------------

  /** The quantity the items order of product `pid`. */
  function QuantityFor(items: seq<Item>, pid: Id): int
  {
    if items == [] then 0
    else
      var last := items[|items| - 1];
      QuantityFor(items[..|items| - 1], pid) + (if last.product == pid then last.quantity else 0)
  }

  /** `findByIdAndUpdate(pid, {$inc: {stock: -q}})`: a missing product changes nothing. */
  function TakeStock(products: seq<Product>, pid: Id, q: int): (r: seq<Product>)
    ensures |r| == |products|
  {
    match IndexOfProduct(products, pid)
    case None => products
    case Some(i) => products[i := products[i].(stock := products[i].stock - q)]
  }

  /** The products after every item of a sale has been taken out of stock, in item order. */
  function SellAll(products: seq<Product>, items: seq<Item>): (r: seq<Product>)
    ensures |r| == |products|
  {
    if items == [] then products
    else
      var last := items[|items| - 1];
      TakeStock(SellAll(products, items[..|items| - 1]), last.product, last.quantity)
  }

  /** After a sale each product's stock went down by the total quantity the items order of
      it (possibly below zero); nothing else about any product changed. */
  lemma {:induction false} SellAllTakes(products: seq<Product>, items: seq<Item>)
    requires DistinctProducts(products)
    ensures var r := SellAll(products, items);
      forall j :: 0 <= j < |r| ==>
        r[j] == products[j].(stock := products[j].stock - QuantityFor(items, products[j].id))
  {
    var r := SellAll(products, items);
    if items != [] {
      var init := items[..|items| - 1];
      var last := items[|items| - 1];
      SellAllTakes(products, init);
      var mid := SellAll(products, init);
      forall j | 0 <= j < |r|
        ensures r[j] == products[j].(stock := products[j].stock - QuantityFor(items, products[j].id))
      {
      }
    }
  }

  /** `entireStock` after a receipt: a product whose entire stock is still 0 starts from
      its current stock. */
  function ReceivedEntireStock(p: Product, q: int): int
  {
    (if p.entireStock == 0 then p.stock else p.entireStock) + q
  }

  /** The `$set` of createRecievedInvoice for one item of an existing product. */
  function PutStock(products: seq<Product>, i: nat, q: int): (r: seq<Product>)
    requires i < |products|
    ensures |r| == |products|
    ensures r[i] == products[i].(entireStock := ReceivedEntireStock(products[i], q), stock := products[i].stock + q)
    ensures forall j :: 0 <= j < |r| && j != i ==> r[j] == products[j]
  {
    products[i := products[i].(entireStock := ReceivedEntireStock(products[i], q), stock := products[i].stock + q)]
  }

  /** The products after the items of a receipt have been put into stock one after another;
      items naming no product are skipped. */
  function RestockAll(products: seq<Product>, items: seq<Item>): (r: seq<Product>)
    ensures |r| == |products|
  {
    if items == [] then products
    else
      var init := RestockAll(products, items[..|items| - 1]);
      var last := items[|items| - 1];
      match IndexOfProduct(init, last.product)
      case None => init
      case Some(i) => PutStock(init, i, last.quantity)
  }

  /** The first item, in item order, that names no stored product. */
  function FirstMissing(products: seq<Product>, items: seq<Item>): (r: Option<Id>)
    ensures r.None? <==> forall k :: 0 <= k < |items| ==> IndexOfProduct(products, items[k].product).Some?
    ensures r.Some? ==>
      IndexOfProduct(products, r.value).None? && exists k :: 0 <= k < |items| && items[k].product == r.value
  {
    if items == [] then None
    else if IndexOfProduct(products, items[0].product).None? then Some(items[0].product)
    else
      var r := FirstMissing(products, items[1..]);
      assert forall k :: 1 <= k < |items| ==> items[k] == items[1..][k - 1];
      r
  }

  /** Each item names a different product. */
  predicate DistinctItemProducts(items: seq<Item>)
  {
    forall k, l :: 0 <= k < l < |items| ==> items[k].product != items[l].product
  }

  /** The item naming product `pid`, if any. */
  predicate NamedBy(items: seq<Item>, pid: Id, k: int)
  {
    0 <= k < |items| && items[k].product == pid
  }

  /** A receipt leaves the products no item names unchanged. */
  lemma {:induction false} RestockSkips(products: seq<Product>, items: seq<Item>, j: nat)
    requires j < |products|
    requires forall k :: 0 <= k < |items| ==> items[k].product != products[j].id
    ensures RestockAll(products, items)[j] == products[j]
  {
    if items != [] {
      var init := items[..|items| - 1];
      RestockSkips(products, init, j);
      RestockKeepsIds(products, init);
      NotNamedUnchanged(RestockAll(products, init), items[|items| - 1], j);
    }
  }

  /** For items naming distinct products, a receipt adds each item's quantity to its
      product's stock and sets its entire stock by the special rule. */
  lemma {:induction false} RestockDistinct(products: seq<Product>, items: seq<Item>, j: nat, k: int)
    requires DistinctProducts(products) && DistinctItemProducts(items)
    requires j < |products| && NamedBy(items, products[j].id, k)
    ensures RestockAll(products, items)[j] ==
      products[j].(entireStock := ReceivedEntireStock(products[j], items[k].quantity),
                   stock := products[j].stock + items[k].quantity)
  {
    var init := items[..|items| - 1];
    var last := items[|items| - 1];
    RestockKeepsIds(products, init);
    var mid := RestockAll(products, init);
    if k < |init| {
      assert DistinctItemProducts(init);
      RestockDistinct(products, init, j, k);
      NotNamedUnchanged(mid, last, j);
    } else {
      RestockSkips(products, init, j);
      RestockKeepsDistinct(products, init);
      PutAt(mid, last, j);
    }
  }

  lemma RestockKeepsDistinct(products: seq<Product>, items: seq<Item>)
    requires DistinctProducts(products)
    ensures DistinctProducts(RestockAll(products, items))
  {
    RestockKeepsIds(products, items);
  }

  lemma {:induction false} RestockKeepsIds(products: seq<Product>, items: seq<Item>)
    ensures forall j :: 0 <= j < |products| ==> RestockAll(products, items)[j].id == products[j].id
  {
    if items != [] {
      RestockKeepsIds(products, items[..|items| - 1]);
    }
  }

  /** One more receipt step leaves a product the item does not name unchanged. */
  lemma NotNamedUnchanged(mid: seq<Product>, last: Item, j: nat)
    requires j < |mid| && mid[j].id != last.product
    ensures (match IndexOfProduct(mid, last.product)
             case None => mid
             case Some(i) => PutStock(mid, i, last.quantity))[j] == mid[j]
  {
  }

  /** One more receipt step puts the item into the one product it names. */
  lemma PutAt(mid: seq<Product>, last: Item, j: nat)
    requires DistinctProducts(mid)
    requires j < |mid| && mid[j].id == last.product
    ensures (match IndexOfProduct(mid, last.product)
             case None => mid
             case Some(i) => PutStock(mid, i, last.quantity))[j]
      == mid[j].(entireStock := ReceivedEntireStock(mid[j], last.quantity), stock := mid[j].stock + last.quantity)
  {
  }

  datatype ReceiptOutcome = Saved(invoice: ReceivedInvoice) | Failed(message: string)

  function MissingProductMessage(pid: Id): string
  {
    "Failed to create received invoice: Product with ID " + pid + " not found"
  }

  /** The Invoice, Product and RecievedInvoice collections. */
  class SalesDb {
    var invoices: seq<Invoice>
    var products: seq<Product>
    var received: seq<ReceivedInvoice>

    ghost predicate Valid()
      reads this
    {
      DistinctInvoices(invoices) && DistinctProducts(products) && DistinctReceived(received)
    }

    constructor ()
      ensures Valid() && invoices == [] && products == [] && received == []
    {
      invoices := [];
      products := [];
      received := [];
    }

    /** deleteInvoice: flags the invoice cancelled; answers 404 when nothing was modified
        (no such invoice, or already cancelled). */
    method DeleteInvoice(invoiceId: Id) returns (reply: Reply)
      requires Valid()
      modifies this
      ensures Valid()
      ensures products == old(products) && received == old(received)
      ensures invoices == Cancel(old(invoices), invoiceId)
      ensures reply == if CancelModifies(old(invoices), invoiceId) then InvoiceCancelled else InvoiceNotFound
    {
      var modified := CancelModifies(invoices, invoiceId);
      CancelFlagsOnly(invoices, invoiceId);
      invoices := Cancel(invoices, invoiceId);
      if !modified {
        return InvoiceNotFound;
      }
      return InvoiceCancelled;
    }

    /** markAsPaid: flags the invoice paid; a call that modifies nothing throws, and the
        catch answers 500 with the thrown message. */
    method MarkAsPaid(id: Id) returns (reply: Reply)
      requires Valid()
      modifies this
      ensures Valid()
      ensures products == old(products) && received == old(received)
      ensures invoices == Pay(old(invoices), id)
      ensures reply == if PayModifies(old(invoices), id) then InvoicePaid else NotPayable
    {
      var modified := PayModifies(invoices, id);
      PayKeepsDistinct(invoices, id);
      invoices := Pay(invoices, id);
      if !modified {
        return NotPayable;
      }
      return InvoicePaid;
    }

    /** createInvoice of Invoice.controllers.jsx: every item is first taken out of stock
        (a missing product is skipped silently), then the invoice is saved; the unique index
        on `invoiceNumber` rejects a duplicate number, after the stock has moved. */
    method CreateInvoice(data: Invoice, duplicateKeyMessage: string) returns (reply: Reply)
      requires Valid()
      requires forall i :: 0 <= i < |invoices| ==> invoices[i].id != data.id
      modifies this
      ensures Valid()
      ensures received == old(received)
      ensures products == SellAll(old(products), data.items)
      ensures NumberTaken(old(invoices), data.invoiceNumber) ==>
        invoices == old(invoices) && reply == Reply(Some(500), duplicateKeyMessage)
      ensures !NumberTaken(old(invoices), data.invoiceNumber) ==>
        invoices == old(invoices) + [data] && reply == InvoiceCreated
    {
      var k := 0;
      while k < |data.items|
        invariant 0 <= k <= |data.items|
        invariant products == SellAll(old(products), data.items[..k])
        invariant invoices == old(invoices) && received == old(received)
      {
        var item := data.items[k];
        assert data.items[..k + 1][..k] == data.items[..k];
        products := TakeStock(products, item.product, item.quantity);
        k := k + 1;
      }
      assert data.items[..k] == data.items;
      SellKeepsIds(old(products), data.items);
      if NumberTaken(invoices, data.invoiceNumber) {
        return Reply(Some(500), duplicateKeyMessage);
      }
      invoices := invoices + [data];
      return InvoiceCreated;
    }

    /** The per-item `$set` of createRecievedInvoice, one item after another. */
    method PutAllInStock(items: seq<Item>)
      requires Valid()
      modifies this
      ensures Valid()
      ensures invoices == old(invoices) && received == old(received)
      ensures products == RestockAll(old(products), items)
    {
      var k := 0;
      while k < |items|
        invariant 0 <= k <= |items|
        invariant products == RestockAll(old(products), items[..k])
        invariant invoices == old(invoices) && received == old(received)
      {
        var item := items[k];
        assert items[..k + 1][..k] == items[..k];
        var i := IndexOfProduct(products, item.product);
        if i.Some? {
          products := PutStock(products, i.value, item.quantity);
        }
        k := k + 1;
      }
      assert items[..k] == items;
      RestockKeepsDistinct(old(products), items);
    }

    /** createRecievedInvoice: the items of existing products are put into stock; if any
        item names a missing product the call fails with that id and nothing is saved;
        otherwise the invoice is saved as given, stamped with its creation time. */
    method CreateReceivedInvoice(data: ReceivedInvoice, now: int) returns (outcome: ReceiptOutcome)
      requires Valid()
      requires forall i :: 0 <= i < |received| ==> received[i].id != data.id
      modifies this
      ensures Valid()
      ensures invoices == old(invoices)
      ensures products == RestockAll(old(products), data.items)
      ensures FirstMissing(old(products), data.items).Some? ==>
        outcome == Failed(MissingProductMessage(FirstMissing(old(products), data.items).value)) &&
        received == old(received)
      ensures FirstMissing(old(products), data.items).None? ==>
        outcome == Saved(data.(createdAt := now)) && received == old(received) + [data.(createdAt := now)]
    {
      var missing := FirstMissing(products, data.items);
      PutAllInStock(data.items);
      if missing.Some? {
        return Failed(MissingProductMessage(missing.value));
      }
      var newInvoice := data.(createdAt := now);
      received := received + [newInvoice];
      return Saved(newInvoice);
    }
  }

  lemma PayKeepsDistinct(invoices: seq<Invoice>, id: Id)
    requires DistinctInvoices(invoices)
    ensures DistinctInvoices(Pay(invoices, id))
  {
  }

  lemma {:induction false} SellKeepsIds(products: seq<Product>, items: seq<Item>)
    ensures forall j :: 0 <= j < |products| ==> SellAll(products, items)[j].id == products[j].id
  {
    if items != [] {
      SellKeepsIds(products, items[..|items| - 1]);
    }
  }
}
