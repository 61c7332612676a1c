/** Record types shared by the stores: the catalogue product, the cart
    line, the customer-side order and the order status enum. */
module Data {
  import opened Wrappers

  /** The four order states, shared by the order store and customer orders. */
  datatype OrderStatus = Pending | Processing | Delivered | Cancelled

  /** Read-only catalogue entry; prices are integer VND. */
  datatype Product = Product(
    id: string,
    sku: string,
    name: string,
    brand: string,
    unit: string,
    wholesalePrice: int,
    retailPrice: Option<int>,
    stock: Option<int>)

  /** One cart line; its id is the product id it was created for. */
  datatype CartItem = CartItem(id: string, product: Product, quantity: int)

  /** A line of a customer order: a snapshot of product and quantity. */
  datatype CustomerOrderLine = CustomerOrderLine(
    productId: string,
    productName: string,
    quantity: int,
    price: int)

  /** An order placed from the customer cart. `createdAt` is a millisecond
      timestamp. */
  datatype CustomerOrder = CustomerOrder(
    id: string,
    orderNumber: string,
    customerId: string,
    customerName: string,
    items: seq<CustomerOrderLine>,
    totalAmount: int,
    status: OrderStatus,
    createdAt: int,
    deliveryDate: Option<int>)
}
