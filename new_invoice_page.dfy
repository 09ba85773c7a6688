/** The issued-invoice editor page: its draft state, the item edits that keep subtotal,
    10% tax and total in step with the rows, the customer selection and the checks made
    before the draft is posted. Amounts are exact reals. */
module NewInvoicePage {
  import opened Common
  import opened ItemEditor

  datatype Details = Details(id: string, name: string, email: string, phone: string, address: string)

  /** A customer of the fetched list; `epfNumber` is optional. */
  datatype CustomerChoice = CustomerChoice(
    id: string, name: string, email: string, phone: string, address: string, epfNumber: Option<string>)

  datatype Draft = Draft(
    invoiceNumber: string, date: string, epfNumber: string, customer: string, details: Details,
    isPaid: bool, items: seq<EditItem>, subtotal: real, tax: real, total: real, notes: string)

  const NoDetails := Details("", "", "", "", "")

  /** The totals invariant: rows priced, subtotal the sum of the row totals, tax a tenth of
      the subtotal and total their sum. */
  predicate Balanced(d: Draft)
  {
    RowsPriced(d.items) && d.subtotal == SumR(d.items, ItemTotal) &&
    d.tax == d.subtotal / 10.0 && d.total == d.subtotal + d.tax
  }

  /** The state the page starts in, dated `today`. */
  function Initial(today: string): (d: Draft)
    ensures Balanced(d) && |d.items| == 1
  {
    Draft("", today, "", "", NoDetails, false, [Blank(1)], 0.0, 0.0, 0.0, "")
  }

  /** The draft with new rows and the three amounts recomputed from them. */
  function WithItems(d: Draft, items: seq<EditItem>): (r: Draft)
    ensures r.items == items && r.subtotal == SumR(items, ItemTotal)
    ensures r.tax == r.subtotal / 10.0 && r.total == r.subtotal + r.tax
    ensures r.(items := d.items, subtotal := d.subtotal, tax := d.tax, total := d.total) == d
  {
    var subtotal := SumR(items, ItemTotal);
    d.(items := items, subtotal := subtotal, tax := subtotal / 10.0, total := subtotal + subtotal / 10.0)
  }

  /** updateItemField: the rows with that id are edited and the amounts recomputed. */
  function UpdateItemField(d: Draft, id: int, e: Edit, catalog: seq<CatalogEntry>): (r: Draft)
    ensures r.items == EditItems(d.items, id, e, catalog)
    ensures RowsPriced(d.items) ==> Balanced(r)
    ensures r.(items := d.items, subtotal := d.subtotal, tax := d.tax, total := d.total) == d
  {
    WithItems(d, EditItems(d.items, id, e, catalog))
  }

  /** The quantity input hands `parseInt(value)` on with no fallback: a parsed integer is a
      quantity edit, and NaN (None) is an edit the rows cannot hold. */
  function QuantityEdit(value: string): (r: Option<Edit>)
    ensures r.Some? <==> ParseSignedInt(value).Some?
    ensures r.Some? ==> r.value.SetQuantity? && r.value.quantity == ParseSignedInt(value).value
  {
    match ParseSignedInt(value)
    case None => None
    case Some(n) => Some(SetQuantity(n))
  }

  /** Clearing the field yields NaN rather than a quantity, unlike the received-invoice
      editor, which falls back to 1. */
  lemma ClearedQuantityIsNaN()
    ensures QuantityEdit("").None?
  {
  }

  /** addItem: appends a blank row and leaves the amounts as they are. */
  function AddItemToDraft(d: Draft): (r: Draft)
    ensures r == d.(items := AddItem(d.items))
    ensures Balanced(d) ==> Balanced(r)
  {
    if Balanced(d) then AddKeepsSum(d.items); d.(items := AddItem(d.items))
    else d.(items := AddItem(d.items))
  }

  /** removeItem: with more than one row the rows with that id go and the amounts are
      recomputed; a draft with one row is left unchanged. */
  function RemoveItemFromDraft(d: Draft, id: int): (r: Draft)
    ensures |d.items| <= 1 ==> r == d
    ensures |d.items| > 1 ==> r.items == RemoveItem(d.items, id)
    ensures Balanced(d) ==> Balanced(r)
  {
    if |d.items| > 1 then
      RemoveKeepsPriced(d.items, id);
      WithItems(d, RemoveItem(d.items, id))
    else d
  }

  /** `customers.find(c => c._id === id)`. */
  function FindCustomer(customers: seq<CustomerChoice>, id: string): (r: Option<CustomerChoice>)
    ensures r.Some? ==> r.value in customers && r.value.id == id
    ensures r.None? <==> forall j :: 0 <= j < |customers| ==> customers[j].id != id
  {
    if customers == [] then None
    else if customers[0].id == id then Some(customers[0])
    else FindCustomer(customers[1..], id)
  }

  /** `epfNumber || ""`. */
  function EpfOrEmpty(epf: Option<string>): string
  {
    if epf.Some? then epf.value else ""
  }

  /** handleCustomerSelection: a known customer is copied in with its EPF number; an unknown
      id clears the customer and the details but keeps the EPF number. */
  function SelectCustomer(d: Draft, customers: seq<CustomerChoice>, customerId: string): (r: Draft)
    ensures FindCustomer(customers, customerId).Some? ==>
      var c := FindCustomer(customers, customerId).value;
      r == d.(customer := customerId, epfNumber := EpfOrEmpty(c.epfNumber),
              details := Details(c.id, c.name, c.email, c.phone, c.address))
    ensures FindCustomer(customers, customerId).None? ==>
      r == d.(customer := "", details := NoDetails) && r.epfNumber == d.epfNumber
  {
    match FindCustomer(customers, customerId)
    case Some(c) =>
      d.(epfNumber := EpfOrEmpty(c.epfNumber), customer := customerId,
         details := Details(c.id, c.name, c.email, c.phone, c.address))
    case None => d.(customer := "", details := NoDetails)
  }

  /** Selecting a customer changes neither the rows nor the amounts. */
  lemma SelectKeepsBalance(d: Draft, customers: seq<CustomerChoice>, customerId: string)
    requires Balanced(d)
    ensures Balanced(SelectCustomer(d, customers, customerId))
    ensures SelectCustomer(d, customers, customerId).items == d.items
  {
  }

  datatype SaveOutcome = SelectCustomerAlert | SelectProductsAlert | Post(draft: Draft)

  /** handleSaveInvoice up to the request: no customer, then a row without a product, stop
      it with an alert; otherwise the draft is posted as it stands. */
  function SaveInvoice(d: Draft): (r: SaveOutcome)
    ensures r.Post? <==> d.customer != "" && forall i :: 0 <= i < |d.items| ==> d.items[i].product != ""
    ensures r.Post? ==> r.draft == d
    ensures d.customer == "" ==> r == SelectCustomerAlert
  {
    if d.customer == "" then SelectCustomerAlert
    else if exists i :: 0 <= i < |d.items| && d.items[i].product == "" then SelectProductsAlert
    else Post(d)
  }

  /** The invariant holds in every state reachable from the initial draft through edits,
      additions, removals and customer selections. */
  datatype Action =
    | EditRow(id: int, e: Edit, catalog: seq<CatalogEntry>)
    | AddRow
    | RemoveRow(id: int)
    | ChooseCustomer(customers: seq<CustomerChoice>, customerId: string)

  function Step(d: Draft, a: Action): Draft
  {
    match a
    case EditRow(id, e, catalog) => UpdateItemField(d, id, e, catalog)
    case AddRow => AddItemToDraft(d)
    case RemoveRow(id) => RemoveItemFromDraft(d, id)
    case ChooseCustomer(customers, customerId) => SelectCustomer(d, customers, customerId)
  }

  function Run(d: Draft, actions: seq<Action>): Draft
  {
    if actions == [] then d else Step(Run(d, actions[..|actions| - 1]), actions[|actions| - 1])
  }

  lemma {:induction false} RunKeepsBalance(today: string, actions: seq<Action>)
    ensures Balanced(Run(Initial(today), actions))
  {
    if actions != [] {
      RunKeepsBalance(today, actions[..|actions| - 1]);
      var d := Run(Initial(today), actions[..|actions| - 1]);
      match actions[|actions| - 1]
      case EditRow(id, e, catalog) =>
      case AddRow =>
      case RemoveRow(id) =>
      case ChooseCustomer(customers, customerId) => SelectKeepsBalance(d, customers, customerId);
    }
  }
}
