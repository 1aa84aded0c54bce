/** The HTTP service: the request interceptor that attaches the bearer token,
    the response-error interceptor that turns failures into one error shape
    (and ends the session on 401), the product-listing URL and the body of
    the order-creation call. The transport itself is not modelled: responses
    arrive as values and browser storage is a key-to-text map. */
module Api {
  import opened Wrappers
  import Strings

  /** Browser `localStorage`: slot name to stored text. */
  type Storage = map<string, string>

  const TokenSlot := "token"
  const UserSlot := "user"
  const DefaultErrorMessage := "An unexpected error occurred. Please try again."
  const DefaultPaymentMethod := "credit_card"

  /** `localStorage.getItem(slot)`. */
  function Get(store: Storage, slot: string): (r: Option<string>)
    ensures r.Some? <==> slot in store
    ensures r.Some? ==> r.value == store[slot]
  {
    if slot in store then Some(store[slot]) else None
  }

  /** Request interceptor: a stored, non-empty token becomes an
      `Authorization: Bearer <token>` header; other headers pass through. */
  function AuthorizeRequest(headers: map<string, string>, store: Storage): (r: map<string, string>)
    ensures "Authorization" in r && "Authorization" !in headers ==> Truthy(Get(store, TokenSlot))
    ensures Truthy(Get(store, TokenSlot)) ==> r == headers["Authorization" := "Bearer " + store[TokenSlot]]
    ensures !Truthy(Get(store, TokenSlot)) ==> r == headers
  {
    var token := Get(store, TokenSlot);
    if Truthy(token) then headers["Authorization" := "Bearer " + token.value] else headers
  }

  /** What the server (or the network layer) reported for a failed request. */
  datatype HttpResponse = HttpResponse(status: int, bodyMessage: Option<string>)
  datatype HttpFailure = HttpFailure(response: Option<HttpResponse>, message: Option<string>)

  /** The error every service call rejects with. */
  datatype ApiError = ApiError(message: string, status: Option<int>)

  /** The result of the response-error interceptor: the storage after it
      ran, whether it sent the browser to the login page, and the error. */
  datatype Rejection = Rejection(store: Storage, redirectToLogin: bool, error: ApiError)

  /** The message precedence: the server's body message, then the
      transport's own message, then a fixed fallback. */
  function ErrorMessage(failure: HttpFailure): (r: string)
    ensures r != ""
    ensures failure.response.Some? && Truthy(failure.response.value.bodyMessage) ==> r == failure.response.value.bodyMessage.value
    ensures (failure.response.None? || !Truthy(failure.response.value.bodyMessage)) && Truthy(failure.message) ==> r == failure.message.value
    ensures (failure.response.None? || !Truthy(failure.response.value.bodyMessage)) && !Truthy(failure.message) ==> r == DefaultErrorMessage
  {
    var bodyMessage := if failure.response.Some? then failure.response.value.bodyMessage else None;
    if Truthy(bodyMessage) then bodyMessage.value
    else OrElse(failure.message, DefaultErrorMessage)
  }

  function StatusOf(failure: HttpFailure): Option<int> {
    if failure.response.Some? then Some(failure.response.value.status) else None
  }

  /** Response-error interceptor. A 401 removes exactly the token and user
      slots and redirects to the login page; every failure is rejected with
      the precedence message and the response status. */
  function OnResponseError(store: Storage, failure: HttpFailure): (r: Rejection)
    ensures r.redirectToLogin <==> StatusOf(failure) == Some(401)
    ensures r.redirectToLogin ==> TokenSlot !in r.store && UserSlot !in r.store
    ensures forall k | k in store && k != TokenSlot && k != UserSlot :: k in r.store && r.store[k] == store[k]
    ensures r.store.Keys <= store.Keys
    ensures !r.redirectToLogin ==> r.store == store
    ensures r.error == ApiError(ErrorMessage(failure), StatusOf(failure))
  {
    var unauthorized := StatusOf(failure) == Some(401);
    var store' := if unauthorized then store - {TokenSlot, UserSlot} else store;
    Rejection(store', unauthorized, ApiError(ErrorMessage(failure), StatusOf(failure)))
  }

  /** Once a 401 has been handled, the next request carries no bearer token. */
  lemma UnauthorizedDropsBearer(store: Storage, failure: HttpFailure, headers: map<string, string>)
    requires StatusOf(failure) == Some(401)
    ensures AuthorizeRequest(headers, OnResponseError(store, failure).store) == headers
  {
  }

  /** A query-parameter value as the listing page may supply it. */
  datatype QueryValue = Undefined | Null | Text(text: string) | Number(number: real) | Flag(flag: bool)

  /** Only `undefined`, `null` and the empty string are dropped; 0 and false are kept. */
  predicate Present(v: QueryValue) {
    !v.Undefined? && !v.Null? && v != Text("")
  }

  /** The parameters that reach the query string, in their supplied order. */
  function Kept(params: seq<(string, QueryValue)>): (r: seq<(string, QueryValue)>)
    ensures |r| <= |params|
    ensures forall p :: p in r <==> p in params && Present(p.1)
  {
    if params == [] then []
    else if Present(params[0].1) then [params[0]] + Kept(params[1..])
    else Kept(params[1..])
  }

  /** Filtering distributes over concatenation, so survivors keep their order. */
  lemma {:induction false} KeptAppend(a: seq<(string, QueryValue)>, b: seq<(string, QueryValue)>)
    ensures Kept(a + b) == Kept(a) + Kept(b)
  {
    if a == [] {
      assert a + b == b;
    } else {
      assert (a + b)[1..] == a[1..] + b;
      KeptAppend(a[1..], b);
    }
  }

  /** `String(value)`; numbers go through the runtime's number rendering. */
  function ValueText(v: QueryValue, renderNumber: real -> string): string {
    match v
    case Undefined => "undefined"
    case Null => "null"
    case Text(s) => s
    case Number(n) => renderNumber(n)
    case Flag(b) => if b then "true" else "false"
  }

  /** `key=value` with both sides form-encoded. */
  function Pair(p: (string, QueryValue), encode: string -> string, renderNumber: real -> string): (r: string)
    ensures '=' in r
  {
    var r := encode(p.0) + "=" + encode(ValueText(p.1, renderNumber));
    assert r[|encode(p.0)|] == '=';
    r
  }

  function Pairs(params: seq<(string, QueryValue)>, encode: string -> string, renderNumber: real -> string): (r: seq<string>)
    ensures |r| == |params|
    ensures forall i | 0 <= i < |r| :: r[i] == Pair(params[i], encode, renderNumber)
  {
    if params == [] then [] else [Pair(params[0], encode, renderNumber)] + Pairs(params[1..], encode, renderNumber)
  }

  /** `URLSearchParams.toString()` over the surviving parameters. */
  function QueryString(params: seq<(string, QueryValue)>, encode: string -> string, renderNumber: real -> string): string {
    Strings.Join(Pairs(Kept(params), encode, renderNumber), '&')
  }

  /** A join of pieces that each contain '=' is empty only when there are no pieces. */
  lemma JoinOfPairsEmpty(pieces: seq<string>)
    requires forall i | 0 <= i < |pieces| :: '=' in pieces[i]
    ensures Strings.Join(pieces, '&') == "" <==> pieces == []
  {
  }

  /** `getProducts` URL: `/products`, followed by `?` and the query exactly
      when some parameter survives the filter, whatever the encoder does. */
  function ProductsUrl(params: seq<(string, QueryValue)>, encode: string -> string, renderNumber: real -> string): (r: string)
    ensures r == "/products" <==> Kept(params) == []
    ensures Kept(params) != [] ==> r == "/products?" + QueryString(params, encode, renderNumber)
  {
    var pieces := Pairs(Kept(params), encode, renderNumber);
    JoinOfPairsEmpty(pieces);
    var query := QueryString(params, encode, renderNumber);
    if query == "" then "/products"
    else
      assert |"/products?" + query| > |"/products"|;
      "/products?" + query
  }

  /** One requested order line. */
  datatype OrderLine = OrderLine(productId: string, quantity: int)

  /** The JSON body `createOrder` posts. */
  datatype OrderBody = OrderBody(items: seq<OrderLine>, shippingAddress: Option<string>, paymentMethod: string)

  /** `createOrder`: items and address pass through; a missing or empty
      payment method becomes `credit_card`. */
  function CreateOrderBody(items: seq<OrderLine>, shippingAddress: Option<string>, paymentMethod: Option<string>): (r: OrderBody)
    ensures r.items == items && r.shippingAddress == shippingAddress
    ensures r.paymentMethod != ""
    ensures Truthy(paymentMethod) ==> r.paymentMethod == paymentMethod.value
    ensures !Truthy(paymentMethod) ==> r.paymentMethod == DefaultPaymentMethod
  {
    OrderBody(items, shippingAddress, OrElse(paymentMethod, DefaultPaymentMethod))
  }

  /** Building a body from a body's own fields gives it back: the default
      is applied once and a chosen method is never replaced. */
  lemma CreateOrderBodyStable(items: seq<OrderLine>, shippingAddress: Option<string>, paymentMethod: Option<string>)
    ensures var b := CreateOrderBody(items, shippingAddress, paymentMethod);
      CreateOrderBody(b.items, b.shippingAddress, Some(b.paymentMethod)) == b
  {
  }
}
