/** The supplier, product and order documents the controllers read and write. */
module Records {
  import opened Common

  /** The body fields of a supplier; any of them may be missing from a request. */
  datatype SupplierFields = SupplierFields(
    name: Option<string>,
    company: Option<string>,
    email: Option<string>,
    phone: Option<string>)

  datatype Supplier = Supplier(fields: SupplierFields, createdAt: Timestamp)

  datatype Product = Product(
    name: string,
    description: string,
    price: int,
    stockId: Id,
    createdAt: Timestamp)

  /** The body of a product create or update request. */
  datatype ProductInput = ProductInput(name: string, description: string, price: int, stockId: Id)

  /** One requested item of an order. */
  datatype OrderItem = OrderItem(productId: Id, quantity: int)

  /** A line of a placed order: a snapshot of the product at order time. */
  datatype LineItem = LineItem(productId: Id, stockId: Id, productName: string, quantity: int, price: int)

  datatype Order = Order(
    userId: Id,
    items: seq<LineItem>,
    totalAmount: int,
    status: string,
    createdAt: Timestamp)

  /** The status a new order starts in. */
  const DefaultStatus: string := "pending"
}
