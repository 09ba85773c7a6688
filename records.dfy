/** The stored document shapes of the sales application (issued invoices, received
    invoices and products) as plain values. Identifiers are strings; an empty string is
    the "nothing selected" value used by the editors. */
module Records {
  import opened Common

  type Id = string

  /** One line of an issued or received invoice. */
  datatype Item = Item(id: int, name: string, product: Id, quantity: int, price: real, total: real)

  datatype CustomerDetails = CustomerDetails(name: string, address: string, phone: string, email: string)

  /** An issued invoice; `date` is the ISO date string the invoice form stores, and
      `advance` the optional advance payment the invoices page reads. */
  datatype Invoice = Invoice(
    id: Id,
    invoiceNumber: string,
    date: string,
    epfNumber: Option<string>,
    customer: Id,
    customerDetails: CustomerDetails,
    items: seq<Item>,
    isPaid: bool,
    total: real,
    isCancelled: bool,
    notes: string,
    advance: Option<real>)

  datatype Product = Product(id: Id, name: string, category: string, price: real, entireStock: int, stock: int)

  /** A received (supplier) invoice; `createdAt` is the insertion timestamp. */
  datatype ReceivedInvoice = ReceivedInvoice(
    id: Id,
    date: string,
    invoiceNumber: string,
    supplier: string,
    notes: string,
    total: real,
    items: seq<Item>,
    createdAt: int)

  function InvoiceTotal(inv: Invoice): real { inv.total }

  function ItemQuantity(it: Item): int { it.quantity }

  function ItemTotal(it: Item): real { it.total }
}
