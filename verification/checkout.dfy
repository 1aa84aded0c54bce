/** The checkout page: the price breakdown shown beside the form and in the
    confirmation dialog, the order payload, the confirm-and-submit flow, and
    the digit-only formatting of the card fields. The cart store is not part
    of this model: its lines and its `getTotalPrice()` arrive as inputs. The
    two-second artificial delay before the order call is not modelled. */
module Checkout {
  import opened Wrappers
  import opened Types
  import Strings
  import CartPage
  import Api
  import Notifications
  import opened Effects

  const TaxRate: real := 0.08
  const ShippingFee: real := 15.99

  datatype Breakdown = Breakdown(subtotal: real, tax: real, shipping: real, total: real)

  /** Subtotal, 8% tax, flat shipping and grand total from `getTotalPrice()`. */
  function Price(totalPrice: real): (b: Breakdown)
    ensures b.subtotal == totalPrice
    ensures b.tax == totalPrice * TaxRate
    ensures b.shipping == ShippingFee
    ensures b.total == b.subtotal + b.tax + b.shipping
  {
    var tax := totalPrice * TaxRate;
    Breakdown(totalPrice, tax, ShippingFee, totalPrice + tax + ShippingFee)
  }

  /** The grand total is 108% of the subtotal plus the fee, so it moves
      with the subtotal and the shipping charge never depends on the cart. */
  lemma PriceClosedForm(x: real, y: real)
    ensures Price(x).total == x * 1.08 + 15.99
    ensures Price(x).shipping == Price(y).shipping
    ensures Price(x).total - Price(y).total == (x - y) * 1.08
    ensures x <= y ==> Price(x).total <= Price(y).total
  {
  }

  /** The worked example: two units at 10.00 and one at 5.00. */
  lemma WorkedExample(a: Product, b: Product)
    requires a.price == 10.0 && b.price == 5.0
    ensures var items := [CartItem(a, 2), CartItem(b, 1)];
      var p := Price(CartPage.LinesSubtotal(items));
      p.subtotal == 25.0 && p.tax == 2.0 && p.shipping == 15.99 && p.total == 42.99
  {
    var items := [CartItem(a, 2), CartItem(b, 1)];
    assert items[1..][1..] == [];
    assert CartPage.LinesSubtotal(items[1..]) == 5.0;
    assert CartPage.LinesSubtotal(items) == 25.0;
  }

  /** One `{productId, quantity}` per cart line, in cart order. */
  function OrderPayload(items: seq<CartItem>): (r: seq<Api.OrderLine>)
    ensures |r| == |items|
    ensures forall i | 0 <= i < |items| :: r[i] == Api.OrderLine(items[i].product.id, items[i].quantity)
  {
    seq(|items|, i requires 0 <= i < |items| => Api.OrderLine(items[i].product.id, items[i].quantity))
  }

  /** The units requested in a payload. */
  function PayloadUnits(lines: seq<Api.OrderLine>): int {
    if lines == [] then 0 else lines[0].quantity + PayloadUnits(lines[1..])
  }

  /** The payload asks for exactly the units the cart holds. */
  lemma {:induction false} PayloadKeepsUnits(items: seq<CartItem>)
    ensures PayloadUnits(OrderPayload(items)) == CartPage.ItemCount(items)
  {
    if items != [] {
      PayloadKeepsUnits(items[1..]);
      assert OrderPayload(items)[1..] == OrderPayload(items[1..]);
    }
  }

  /** The payload of a split cart is the payloads of the parts, in order. */
  lemma PayloadAppend(a: seq<CartItem>, b: seq<CartItem>)
    ensures OrderPayload(a + b) == OrderPayload(a) + OrderPayload(b)
  {
  }

  // ---- Card field formatters ----

  /** Card number input: digits only, at most sixteen. */
  function CardNumber(input: string): (r: string)
    ensures Strings.AllDigits(r)
    ensures |r| <= 16
    ensures |r| == if |Strings.KeepDigits(input)| < 16 then |Strings.KeepDigits(input)| else 16
    ensures r == Strings.KeepDigits(input)[..|r|]
  {
    Strings.Take(Strings.KeepDigits(input), 16)
  }

  /** CVV input: digits only, at most three. */
  function Cvv(input: string): (r: string)
    ensures Strings.AllDigits(r)
    ensures |r| <= 3
    ensures |r| == if |Strings.KeepDigits(input)| < 3 then |Strings.KeepDigits(input)| else 3
    ensures r == Strings.KeepDigits(input)[..|r|]
  {
    Strings.Take(Strings.KeepDigits(input), 3)
  }

  /** Re-formatting what the field already shows leaves it as it is. */
  lemma CardFieldsStable(input: string)
    ensures CardNumber(CardNumber(input)) == CardNumber(input)
    ensures Cvv(Cvv(input)) == Cvv(input)
  {
  }

  /** The digits the expiry field keeps: at most four. */
  function ExpiryDigits(input: string): string {
    Strings.Take(Strings.KeepDigits(input), 4)
  }

  /** Expiry input: at most four digits, with a slash after the first two
      once there are at least two. */
  function Expiry(input: string): (r: string)
    ensures |r| <= 5
    ensures var d := ExpiryDigits(input);
      && (|d| < 2 ==> r == d)
      && (|d| >= 2 ==> |r| == |d| + 1 && r[..2] == d[..2] && r[2] == '/' && r[3..] == d[2..])
  {
    var d := ExpiryDigits(input);
    if |d| >= 2 then d[..2] + "/" + d[2..] else d
  }

  /** Dropping the slash from the formatted expiry gives back its digits. */
  lemma ExpiryDigitsRoundTrip(input: string)
    ensures Strings.KeepDigits(Expiry(input)) == ExpiryDigits(input)
  {
    var d := ExpiryDigits(input);
    if |d| >= 2 {
      Strings.KeepDigitsAroundSeparator(d[..2], '/', d[2..]);
      assert d[..2] + "/" + d[2..] == d[..2] + ['/'] + d[2..];
      assert d[..2] + d[2..] == d;
    }
  }

  /** Re-formatting what the expiry field shows leaves it as it is. */
  lemma ExpiryStable(input: string)
    ensures Expiry(Expiry(input)) == Expiry(input)
  {
    ExpiryDigitsRoundTrip(input);
  }

  /** Erasing the slash of `MM/` gives `MM`, which is formatted back to
      `MM/`: the slash cannot be deleted from the end of the field. */
  lemma ExpirySlashReappears(m1: char, m2: char)
    requires Strings.IsDigit(m1) && Strings.IsDigit(m2)
    ensures Expiry([m1, m2]) == [m1, m2, '/']
  {
  }

  // ---- Submission flow ----

  datatype CheckoutForm = CheckoutForm(
    shippingAddress: string,
    paymentMethod: string,
    cardNumber: string,
    cardName: string,
    expiryDate: string,
    cvv: string)

  const InitialForm := CheckoutForm("", "credit_card", "", "", "", "")

  /** The card fields are offered for every payment type but PayPal. */
  predicate ShowsCardFields(form: CheckoutForm) {
    form.paymentMethod != "paypal"
  }

  /** The page's two flags: the confirmation dialog is open; an order is being processed. */
  datatype Flow = Flow(showConfirm: bool, processing: bool)

  const InitialFlow := Flow(false, false)

  /** Submitting the form only opens the confirmation dialog. */
  function SubmitForm(f: Flow): (r: Flow)
    ensures r.showConfirm
    ensures r.processing == f.processing
  {
    f.(showConfirm := true)
  }

  /** Cancelling or dismissing the dialog closes it and nothing else. */
  function CloseDialog(f: Flow): (r: Flow)
    ensures !r.showConfirm
    ensures r.processing == f.processing
  {
    f.(showConfirm := false)
  }

  /** Confirming closes the dialog, enters processing and sends the order
      built from the cart lines of that moment and the form. */
  function Confirm(f: Flow, items: seq<CartItem>, form: CheckoutForm): (r: (Flow, Api.OrderBody))
    ensures r.0 == Flow(false, true)
    ensures r.1.items == OrderPayload(items)
    ensures r.1.shippingAddress.None? <==> form.shippingAddress == ""
    ensures r.1.shippingAddress.Some? ==> r.1.shippingAddress.value == form.shippingAddress
    ensures r.1.paymentMethod == if form.paymentMethod == "" then Api.DefaultPaymentMethod else form.paymentMethod
  {
    (Flow(false, true), Api.CreateOrderBody(OrderPayload(items), NonEmpty(form.shippingAddress), Some(form.paymentMethod)))
  }

  /** The page's initial payment choice is the service's default, so an
      untouched form and one whose method was emptied send the same order. */
  lemma ConfirmDefaultsToCard(f: Flow, items: seq<CartItem>, form: CheckoutForm)
    requires form.paymentMethod == ""
    ensures Confirm(f, items, form).1.paymentMethod == "credit_card"
    ensures Confirm(f, items, form) == Confirm(f, items, form.(paymentMethod := InitialForm.paymentMethod))
  {
  }

  /** How the order call settled. */
  datatype OrderReply = Replied(success: bool) | Threw(error: Thrown)

  const PlacedMessage := "Order placed successfully!"
  const PaymentFailedMessage := "Failed to process payment. Please try again."

  /** The effects of a successful order: clear the cart, announce it, and
      move to the order list after a delay. */
  const PlacedEffects := [Cart(ClearCart), Notify(PlacedMessage, Notifications.SuccessKind), NavigateLater("/orders")]

  function CaughtMessage(e: Thrown): string {
    match e
    case ErrorValue(m) => m
    case OtherValue => PaymentFailedMessage
  }

  /** The page as written: success clears the cart; a rejection reports
      its message and ends processing; a reply with `success` false does
      nothing at all. */
  function SettleAsWritten(f: Flow, reply: OrderReply): (r: (Flow, seq<Effect>))
    ensures Cart(ClearCart) in r.1 <==> reply == Replied(true)
    ensures reply == Replied(true) ==> r == (f, PlacedEffects)
    ensures reply.Threw? ==> r == (f.(processing := false), [Notify(CaughtMessage(reply.error), Notifications.ErrorKind)])
    ensures reply == Replied(false) ==> r == (f, [])
  {
    match reply
    case Replied(success) => if success then (f, PlacedEffects) else (f, [])
    case Threw(e) => (f.(processing := false), [Notify(CaughtMessage(e), Notifications.ErrorKind)])
  }

  /** As written, a reply with `success` false leaves the page processing
      with nothing further in flight: the dialog cannot reopen an order,
      the submit button stays disabled and the full-screen overlay stays up. */
  lemma AsWrittenStuckOnUnsuccessfulReply(items: seq<CartItem>, form: CheckoutForm)
    ensures var (f, body) := Confirm(SubmitForm(InitialFlow), items, form);
      var (g, effects) := SettleAsWritten(f, Replied(false));
      && g.processing
      && effects == []
      && SubmitDisabled(g)
      && SubmitForm(g).processing && CloseDialog(g).processing
  {
  }

  /** Settling the order call as evidently intended: a reply with `success`
      false is a failure like a rejection, reported and ending processing. */
  function Settle(f: Flow, reply: OrderReply): (r: (Flow, seq<Effect>))
    ensures Cart(ClearCart) in r.1 <==> reply == Replied(true)
    ensures reply == Replied(true) ==> r == (f, PlacedEffects)
    ensures reply != Replied(true) ==> !r.0.processing && |r.1| == 1 && r.1[0].Notify? && r.1[0].kind == Notifications.ErrorKind
    ensures r.0.showConfirm == f.showConfirm
  {
    match reply
    case Replied(success) =>
      if success then (f, PlacedEffects)
      else (f.(processing := false), [Notify(PaymentFailedMessage, Notifications.ErrorKind)])
    case Threw(e) => (f.(processing := false), [Notify(CaughtMessage(e), Notifications.ErrorKind)])
  }

  /** With the intended settlement the page is never left processing
      unless the order was placed and the cart cleared. */
  lemma SettleNeverStuck(items: seq<CartItem>, form: CheckoutForm, reply: OrderReply)
    ensures var (f, body) := Confirm(SubmitForm(InitialFlow), items, form);
      var (g, effects) := Settle(f, reply);
      g.processing <==> Cart(ClearCart) in effects
  {
  }

  /** The submit button is disabled while an order is processing. */
  predicate SubmitDisabled(f: Flow) {
    f.processing
  }

  /** The page: the empty state when the cart is empty, otherwise the
      summary panel's total, the dialog's total while it is open, whether
      the submit button is disabled and whether the overlay is up. */
  datatype Screen =
    | EmptyCheckout(browseTarget: string)
    | CheckoutPage(lineTotals: seq<real>, breakdown: Breakdown, dialogTotal: Option<real>, submitDisabled: bool, overlay: bool)

  function Render(items: seq<CartItem>, totalPrice: real, f: Flow): (r: Screen)
    ensures r.EmptyCheckout? <==> items == []
    ensures r.CheckoutPage? ==>
      && |r.lineTotals| == |items|
      && (forall i | 0 <= i < |items| :: r.lineTotals[i] == CartPage.LineTotal(items[i]))
      && r.breakdown == Price(totalPrice)
      && (r.dialogTotal.Some? <==> f.showConfirm)
      && r.submitDisabled == f.processing
      && r.overlay == f.processing
  {
    if items == [] then EmptyCheckout("/products")
    else
      var b := Price(totalPrice);
      CheckoutPage(seq(|items|, i requires 0 <= i < |items| => CartPage.LineTotal(items[i])), b,
                   if f.showConfirm then Some(b.total) else None, f.processing, f.processing)
  }

  /** The summary panel and the open confirmation dialog show the same total. */
  lemma SummaryAndDialogAgree(items: seq<CartItem>, totalPrice: real, f: Flow)
    requires items != [] && f.showConfirm
    ensures var s := Render(items, totalPrice, f);
      s.CheckoutPage? && s.dialogTotal == Some(s.breakdown.total)
  {
  }
}
