/** What the pages ask of the collaborators this model leaves abstract: the
    cart store's calls, notifications, navigation and ending the session.
    Handlers return these as values instead of performing them. */
module Effects {
  import opened Types
  import Notifications

  /** A call on the cart store. The store itself is not part of this model. */
  datatype CartRequest =
    | AddItem(product: Product, quantity: int)
    | UpdateQuantity(productId: string, quantity: int)
    | RemoveItem(productId: string)
    | ClearCart

  /** One side effect of an event handler, in the order it is issued. */
  datatype Effect =
    | Cart(request: CartRequest)
    | Notify(message: string, kind: Notifications.Kind)
    | Navigate(path: string)
    | NavigateLater(path: string)
    | EndSession
}
