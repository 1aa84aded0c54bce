/** The shapes the front end exchanges with the server: users, products,
    cart lines and orders. Money is an exact real; counts are integers. */
module Types {
  import opened Wrappers

  /** The profile's address is declared a string but may arrive as a
      structured value, which the profile page tests for. */
  datatype Address = NoAddress | TextAddress(text: string) | StructuredAddress

  datatype User = User(
    id: string,
    email: string,
    name: Option<string>,
    firstName: Option<string>,
    lastName: Option<string>,
    role: string,
    phone: Option<string>,
    address: Address)

  /** A catalogue product. A missing `images` array is the empty sequence;
      `specifications` lists its entries in key order with values already
      rendered as text. */
  datatype Product = Product(
    id: string,
    name: string,
    description: string,
    price: real,
    compareAtPrice: Option<real>,
    images: seq<string>,
    image: Option<string>,
    category: Option<string>,
    stock: int,
    rating: real,
    reviewCount: int,
    specifications: seq<(string, string)>)

  /** One line of the shopper's cart. */
  datatype CartItem = CartItem(product: Product, quantity: int)

  /** One line of a placed order, priced by the server. */
  datatype OrderItem = OrderItem(productId: string, quantity: int, price: real, name: string)

  datatype Order = Order(
    id: string,
    userId: string,
    items: seq<OrderItem>,
    subtotal: real,
    tax: real,
    shipping: real,
    total: real,
    status: string,
    paymentMethod: Option<string>,
    createdAt: string)
}
