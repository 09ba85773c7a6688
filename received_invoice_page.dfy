/** The received-invoice editor page: item edits (the total is recomputed by an effect
    that runs whenever the rows change), the parse fallbacks of the quantity and price
    inputs, the checks before posting, and the new-product form. */
module ReceivedInvoicePage {
  import opened Common
  import opened ItemEditor

  datatype ReceivedDraft = ReceivedDraft(
    invoiceNumber: string, date: string, supplier: string, items: seq<EditItem>, total: real, notes: string)

  /** The effect on `items`: the total becomes the sum of the row totals. */
  function Settle(d: ReceivedDraft): (r: ReceivedDraft)
    ensures r.total == SumR(d.items, ItemTotal)
    ensures r.(total := d.total) == d
  {
    d.(total := SumR(d.items, ItemTotal))
  }

  /** The rows are priced and the total is their sum. */
  predicate Settled(d: ReceivedDraft)
  {
    RowsPriced(d.items) && d.total == SumR(d.items, ItemTotal)
  }

  function Initial(today: string, supplier: string): (d: ReceivedDraft)
    ensures Settled(d) && |d.items| == 1
  {
    ReceivedDraft("", today, supplier, [Blank(1)], 0.0, "")
  }

  /** updateItemField followed by the effect it triggers. */
  function UpdateItemField(d: ReceivedDraft, id: int, e: Edit, catalog: seq<CatalogEntry>): (r: ReceivedDraft)
    ensures r.items == EditItems(d.items, id, e, catalog)
    ensures RowsPriced(d.items) ==> Settled(r)
    ensures r.(items := d.items, total := d.total) == d
  {
    Settle(d.(items := EditItems(d.items, id, e, catalog)))
  }

  /** addItem followed by the effect: the appended blank row adds nothing to the total. */
  function AddItemToDraft(d: ReceivedDraft): (r: ReceivedDraft)
    ensures r.items == AddItem(d.items)
    ensures Settled(d) ==> Settled(r) && r.total == d.total
  {
    if Settled(d) then AddKeepsSum(d.items); Settle(d.(items := AddItem(d.items)))
    else Settle(d.(items := AddItem(d.items)))
  }

  /** removeItem followed by the effect; one row is never removed. */
  function RemoveItemFromDraft(d: ReceivedDraft, id: int): (r: ReceivedDraft)
    ensures |d.items| <= 1 ==> r.items == d.items
    ensures |d.items| > 1 ==> r.items == RemoveItem(d.items, id)
    ensures Settled(d) ==> Settled(r)
  {
    RemoveKeepsPriced(d.items, id);
    Settle(d.(items := RemoveItem(d.items, id)))
  }

  /** The quantity input: `parseInt(value) || 1`, so NaN and 0 become 1 and any other
      parsed integer, a negative one included, is kept. */
  function QuantityInput(value: string): (q: int)
    ensures ParseSignedInt(value).None? || ParseSignedInt(value) == Some(0) ==> q == 1
    ensures ParseSignedInt(value).Some? && ParseSignedInt(value).value != 0 ==> q == ParseSignedInt(value).value
    ensures q != 0
  {
    match ParseSignedInt(value)
    case None => 1
    case Some(n) => if n == 0 then 1 else n
  }

  /** The input does not enforce its minimum: a typed "-3" is kept as -3, while an emptied
      field gives 1. */
  lemma QuantityInputLandmarks()
    ensures QuantityInput("-3") == -3
    ensures QuantityInput("") == 1
  {
    assert DigitPrefix("3") == "3";
    assert DigitsValue("3") == 3;
    ParseSignedNegative("3", 3);
    assert "-3" == "-" + "3";
  }

  /** The price input: `parseFloat(value) || 0`, given the parse (`None` for NaN). */
  function PriceInput(parsed: Option<real>): (p: real)
    ensures parsed.None? ==> p == 0.0
    ensures parsed.Some? ==> p == parsed.value
  {
    if parsed.None? || parsed.value == 0.0 then 0.0 else parsed.value
  }

  datatype SaveOutcome = SelectProductsAlert | AddItemAlert | Post(draft: ReceivedDraft)

  /** handleSaveReceivedInvoice up to the request: a row without a product is refused first,
      then an empty list; otherwise the draft is posted as it stands. */
  function SaveReceived(d: ReceivedDraft): (r: SaveOutcome)
    ensures r.Post? <==> d.items != [] && forall i :: 0 <= i < |d.items| ==> d.items[i].product != ""
    ensures r.Post? ==> r.draft == d
    ensures d.items == [] ==> r == AddItemAlert
  {
    if exists i :: 0 <= i < |d.items| && d.items[i].product == "" then SelectProductsAlert
    else if |d.items| == 0 then AddItemAlert
    else Post(d)
  }

  // ------------------------------------------------------------------
  // The new-product form.
  // ------------------------------------------------------------------

  datatype ProductForm = ProductForm(name: string, category: string, price: real, stock: int)

  const EmptyForm := ProductForm("", "", 0.0, 0)

  datatype Panel = Panel(catalog: seq<CatalogEntry>, form: ProductForm, error: string, open: bool)

  /** The first failing check of the form, if any: name, then category, then price. */
  function ProductFormError(f: ProductForm): (r: Option<string>)
    ensures r.None? <==> f.name != "" && f.category != "" && f.price > 0.0
    ensures f.name == "" ==> r == Some("Product name is required")
    ensures f.name != "" && f.category == "" ==> r == Some("Category is required")
  {
    if f.name == "" then Some("Product name is required")
    else if f.category == "" then Some("Category is required")
    else if f.price <= 0.0 then Some("Price must be greater than 0")
    else None
  }

  /** handleAddNewProduct, given what the request returned (`None` when it failed): a failed
      check only sets its message and sends nothing; a created product is appended, the
      modal closed and the form reset; a failed request keeps the form with an error. */
  function AddNewProduct(p: Panel, created: Option<CatalogEntry>): (r: Panel)
    ensures ProductFormError(p.form).Some? ==> r == p.(error := ProductFormError(p.form).value)
    ensures ProductFormError(p.form).None? && created.Some? ==>
      r == Panel(p.catalog + [created.value], EmptyForm, "", false)
    ensures ProductFormError(p.form).None? && created.None? ==>
      r == p.(error := "Failed to create product. Please try again.")
  {
    match ProductFormError(p.form)
    case Some(msg) => p.(error := msg)
    case None =>
      match created
      case Some(c) => Panel(p.catalog + [c], EmptyForm, "", false)
      case None => p.(error := "Failed to create product. Please try again.")
  }

  /** Because addItem can reuse an id, the draft can lose its last row and the save then
      stops at the empty-list check. */
  lemma EmptiedDraftIsRefused(today: string, supplier: string)
    ensures var d := RemoveItemFromDraft(AddItemToDraft(RemoveItemFromDraft(AddItemToDraft(Initial(today, supplier)), 1)), 2);
      d.items == [] && SaveReceived(d) == AddItemAlert
  {
    RemoveCanEmpty();
  }
}
