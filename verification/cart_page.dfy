/** The cart page. The cart store itself is not part of this model: its
    lines arrive as a sequence, its `getTotalPrice()` as a number, and each
    button produces the store call it would make. */
module CartPage {
  import opened Wrappers
  import opened Types
  import opened Effects
  import Images

  /** The units in the cart: the sum of the line quantities. */
  function ItemCount(items: seq<CartItem>): int {
    if items == [] then 0 else items[0].quantity + ItemCount(items[1..])
  }

  /** What one line costs: unit price times quantity. */
  function LineTotal(item: CartItem): real {
    item.product.price * item.quantity as real
  }

  /** The sum of the line totals. */
  function LinesSubtotal(items: seq<CartItem>): real {
    if items == [] then 0.0 else LineTotal(items[0]) + LinesSubtotal(items[1..])
  }

  /** Both aggregates add up over a split of the cart. */
  lemma {:induction false} AggregatesAppend(a: seq<CartItem>, b: seq<CartItem>)
    ensures ItemCount(a + b) == ItemCount(a) + ItemCount(b)
    ensures LinesSubtotal(a + b) == LinesSubtotal(a) + LinesSubtotal(b)
  {
    if a == [] {
      assert a + b == b;
    } else {
      assert (a + b)[1..] == a[1..] + b;
      AggregatesAppend(a[1..], b);
    }
  }

  /** With every quantity at least one, the count is at least the number
      of lines, and equals it only when every line holds a single unit. */
  lemma {:induction false} ItemCountVersusLines(items: seq<CartItem>)
    requires forall i | 0 <= i < |items| :: items[i].quantity >= 1
    ensures ItemCount(items) >= |items|
    ensures ItemCount(items) == |items| <==> forall i | 0 <= i < |items| :: items[i].quantity == 1
  {
    if items != [] {
      ItemCountVersusLines(items[1..]);
      if ItemCount(items) == |items| {
        forall i | 0 <= i < |items| ensures items[i].quantity == 1 {
          if i > 0 {
            assert items[i] == items[1..][i - 1];
          }
        }
      }
    }
  }

  /** One rendered cart line and the calls its three buttons make. */
  datatype Row = Row(
    thumbnail: Option<string>,
    name: string,
    unitPrice: real,
    quantity: int,
    lineTotal: real,
    decrease: CartRequest,
    increase: CartRequest,
    remove: CartRequest)

  /** The page: the empty state (offering only a link to the catalogue), or
      the rows with the store's total, the unit count and the checkout link. */
  datatype Screen =
    | EmptyCart(browseTarget: string)
    | CartList(rows: seq<Row>, clear: CartRequest, total: real, itemCount: int, checkoutTarget: string)

  function RowOf(item: CartItem): (r: Row)
    ensures r.decrease == UpdateQuantity(item.product.id, item.quantity - 1)
    ensures r.increase == UpdateQuantity(item.product.id, item.quantity + 1)
    ensures r.remove == RemoveItem(item.product.id)
    ensures r.lineTotal == item.product.price * item.quantity as real
    ensures r.thumbnail == Images.ShownImage(item.product)
  {
    Row(Images.ShownImage(item.product), item.product.name, item.product.price, item.quantity,
        LineTotal(item), UpdateQuantity(item.product.id, item.quantity - 1),
        UpdateQuantity(item.product.id, item.quantity + 1), RemoveItem(item.product.id))
  }

  /** Renders the cart from the store's lines and its `getTotalPrice()`. */
  function Render(items: seq<CartItem>, totalPrice: real): (r: Screen)
    ensures r.EmptyCart? <==> items == []
    ensures r.EmptyCart? ==> r.browseTarget == "/products"
    ensures r.CartList? ==>
      && |r.rows| == |items|
      && (forall i | 0 <= i < |items| :: r.rows[i] == RowOf(items[i]))
      && r.total == totalPrice
      && r.itemCount == ItemCount(items)
      && r.clear == ClearCart
      && r.checkoutTarget == "/checkout"
  {
    if items == [] then EmptyCart("/products")
    else CartList(seq(|items|, i requires 0 <= i < |items| => RowOf(items[i])), ClearCart, totalPrice, ItemCount(items), "/checkout")
  }

  /** Every button of a row addresses that row's product and no other. */
  lemma RowRequestsTargetItsLine(items: seq<CartItem>, totalPrice: real, i: int)
    requires 0 <= i < |items|
    ensures var s := Render(items, totalPrice);
      && s.CartList?
      && s.rows[i].decrease.productId == items[i].product.id
      && s.rows[i].increase.productId == items[i].product.id
      && s.rows[i].remove.productId == items[i].product.id
      && s.rows[i].increase.quantity == s.rows[i].decrease.quantity + 2
  {
  }
}
