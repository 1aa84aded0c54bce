/** The product page: loading the product, the picture gallery, the quantity
    input, adding to the cart, the savings line, the stock line and the
    specification labels. `parseInt` arrives as an already-parsed value. */
module ProductDetail {
  import opened Wrappers
  import opened Types
  import opened Effects
  import Strings
  import Images
  import Notifications

  /** The quantity input never holds less than one. */
  type Quantity = q: int | q >= 1 witness 1

  /** `Math.max(1, parseInt(value) || 1)`. `parsed` is what `parseInt`
      returned, `None` standing for NaN; NaN and 0 are falsy. */
  function ClampQuantity(parsed: Option<int>): (r: Quantity)
    ensures parsed.Some? && parsed.value >= 1 ==> r == parsed.value
    ensures parsed.None? || parsed.value < 1 ==> r == 1
  {
    var n := if parsed.Some? && parsed.value != 0 then parsed.value else 1;
    if n >= 1 then n else 1
  }

  /** The page's state. `selected` is the gallery index last clicked. */
  datatype Page = Page(product: Option<Product>, isLoading: bool, error: string, quantity: Quantity, selected: int)

  /** The page as first rendered: loading, nothing loaded, one unit, first picture. */
  const Opened := Page(None, true, "", 1, 0)

  /** The effect on mount: the product is fetched only when the route
      carries a non-empty id. */
  function FetchOnMount(id: Option<string>): (r: Option<string>)
    ensures r.Some? <==> Truthy(id)
    ensures r.Some? ==> r == id
  {
    if Truthy(id) then id else None
  }

  /** The server's product as fetched: the product together with its reviews. */
  datatype Fetched = Fetched(product: Product, reviews: seq<string>)

  datatype ProductReply = Replied(success: bool, data: Option<Fetched>) | Threw(thrown: Thrown)

  const LoadFailed := "Failed to load product. Please try again."
  const Unexpected := "An unexpected error occurred. Please try again."

  /** The page error for a failed fetch: the error's message or the fallback. */
  function LoadError(e: Thrown): (r: string)
    ensures r != ""
    ensures e.ErrorValue? && e.message != "" ==> r == e.message
    ensures e.ErrorValue? && e.message == "" ==> r == LoadFailed
    ensures e.OtherValue? ==> r == Unexpected
  {
    match e
    case ErrorValue(m) => if m != "" then m else LoadFailed
    case OtherValue => Unexpected
  }

  /** `fetchProduct`: clears the error, then stores the product without its
      reviews on a successful reply, or records the error on a rejection;
      loading always ends. The quantity and the selected picture are kept. */
  function Fetch(s: Page, reply: ProductReply): (r: Page)
    ensures !r.isLoading
    ensures r.quantity == s.quantity && r.selected == s.selected
    ensures reply.Replied? && reply.success && reply.data.Some? ==>
      r.product == Some(reply.data.value.product) && r.error == ""
    ensures reply.Replied? && !(reply.success && reply.data.Some?) ==> r.product == s.product && r.error == ""
    ensures reply.Threw? ==> r.product == s.product && r.error == LoadError(reply.thrown)
  {
    var started := s.(isLoading := true, error := "");
    match reply
    case Replied(success, data) =>
      if success && data.Some? then started.(product := Some(data.value.product), isLoading := false)
      else started.(isLoading := false)
    case Threw(e) => started.(error := LoadError(e), isLoading := false)
  }

  /** Typing in the quantity input. */
  function ChangeQuantity(s: Page, parsed: Option<int>): (r: Page)
    ensures r == s.(quantity := ClampQuantity(parsed))
  {
    s.(quantity := ClampQuantity(parsed))
  }

  /** Clicking the thumbnail at `index`. */
  function SelectPicture(s: Page, index: int): (r: Page)
    ensures r == s.(selected := index)
  {
    s.(selected := index)
  }

  /** `handleAddToCart`: adds the chosen quantity of the loaded product and
      announces it; with no product loaded it does nothing. */
  function AddToCart(s: Page): (r: seq<Effect>)
    ensures s.product.None? <==> r == []
    ensures s.product.Some? ==>
      && |r| == 2
      && r[0] == Cart(AddItem(s.product.value, s.quantity))
      && r[1].Notify? && r[1].kind == Notifications.SuccessKind
  {
    match s.product
    case None => []
    case Some(p) =>
      [Cart(AddItem(p, s.quantity)),
       Notify("Added " + Strings.NatToDecimal(s.quantity) + " " + p.name + " to cart!", Notifications.SuccessKind)]
  }

  /** The stock shown beside the quantity input only feeds its `max`
      attribute: whatever quantity is typed, that many units are added,
      even beyond the stock. */
  lemma QuantityNotCappedAtStock(s: Page, p: Product, n: int)
    requires s.product == Some(p) && n > p.stock && n >= 1
    ensures AddToCart(ChangeQuantity(s, Some(n)))[0] == Cart(AddItem(p, n))
  {
  }

  // ---- Rendering ----

  /** `compareAtPrice && compareAtPrice > price`: the struck-through
      compare-at price and the saving, when there is one. A compare-at
      price of 0 is falsy and never shown. */
  function Savings(p: Product): (r: Option<(real, real)>)
    ensures r.Some? <==> p.compareAtPrice.Some? && p.compareAtPrice.value != 0.0 && p.compareAtPrice.value > p.price
    ensures r.Some? ==> r.value.0 == p.compareAtPrice.value && r.value.1 > 0.0
    ensures r.Some? ==> r.value.1 + p.price == r.value.0
  {
    match p.compareAtPrice
    case Some(c) => if c != 0.0 && c > p.price then Some((c, c - p.price)) else None
    case None => None
  }

  /** For a price that is not negative the falsy-zero test adds nothing:
      the saving is shown exactly when the compare-at price exceeds it. */
  lemma SavingsForNonNegativePrice(p: Product)
    requires p.price >= 0.0
    ensures Savings(p).Some? <==> p.compareAtPrice.Some? && p.compareAtPrice.value > p.price
  {
  }

  /** Every A-Z letter has a space directly before it. */
  predicate EveryCapSpaced(r: string) {
    forall i | 0 <= i < |r| && Strings.IsUpper(r[i]) :: i > 0 && r[i - 1] == ' '
  }

  /** `key.replace(/([A-Z])/g, ' $1')`: a space before every A-Z letter. */
  function SpaceBeforeCaps(key: string): (r: string)
    ensures |r| >= |key|
    ensures key != [] && !Strings.IsUpper(key[|key| - 1]) ==> r != [] && r[|r| - 1] == key[|key| - 1]
    ensures key != [] && Strings.IsUpper(key[|key| - 1]) ==> |r| >= 2 && r[|r| - 1] == key[|key| - 1]
    ensures r == [] || !Strings.IsUpper(r[0])
    ensures EveryCapSpaced(r)
  {
    if key == [] then []
    else
      var head := if Strings.IsUpper(key[0]) then [' ', key[0]] else [key[0]];
      var rest := SpaceBeforeCaps(key[1..]);
      assert key[1..] != [] ==> key[1..][|key[1..]| - 1] == key[|key| - 1];
      var r := head + rest;
      assert EveryCapSpaced(r) by {
        assert forall i | |head| <= i < |r| :: r[i] == rest[i - |head|];
      }
      r
  }

  /** Drops every space that sits directly before an A-Z letter: the
      reverse of `SpaceBeforeCaps`. */
  function DropSpaceBeforeCaps(s: string): (r: string)
    ensures |r| <= |s|
  {
    if s == [] then []
    else if |s| >= 2 && s[0] == ' ' && Strings.IsUpper(s[1]) then [s[1]] + DropSpaceBeforeCaps(s[2..])
    else [s[0]] + DropSpaceBeforeCaps(s[1..])
  }

  /** Inserting the spaces loses nothing: every character of the key is
      kept, in order, and the inserted spaces are recognisable. */
  lemma {:induction false} SpaceBeforeCapsRoundTrip(key: string)
    ensures DropSpaceBeforeCaps(SpaceBeforeCaps(key)) == key
  {
    if key != [] {
      var rest := SpaceBeforeCaps(key[1..]);
      SpaceBeforeCapsRoundTrip(key[1..]);
      if Strings.IsUpper(key[0]) {
        assert SpaceBeforeCaps(key) == [' ', key[0]] + rest;
        assert ([' ', key[0]] + rest)[2..] == rest;
      } else {
        assert SpaceBeforeCaps(key) == [key[0]] + rest;
        assert ([key[0]] + rest)[1..] == rest;
      }
    }
  }

  /** The label a specification key is shown under. */
  function SpecLabel(key: string): string {
    Strings.Trim(SpaceBeforeCaps(key))
  }

  /** For a key with no whitespace the trim only removes the space put
      before a leading capital: `screenSize` reads "screen Size" and
      `ScreenSize` reads "Screen Size". */
  lemma {:induction false} SpecLabelOfPlainKey(key: string)
    requires key != []
    requires forall i | 0 <= i < |key| :: !Strings.IsWhitespace(key[i])
    ensures Strings.IsUpper(key[0]) ==> SpecLabel(key) == SpaceBeforeCaps(key)[1..]
    ensures !Strings.IsUpper(key[0]) ==> SpecLabel(key) == SpaceBeforeCaps(key)
  {
    var s := SpaceBeforeCaps(key);
    var rest := SpaceBeforeCaps(key[1..]);
    var last := key[|key| - 1];
    assert !Strings.IsWhitespace(last);
    assert !Strings.IsWhitespace(key[0]);
    assert s[|s| - 1] == last;
    if Strings.IsUpper(key[0]) {
      var tail := [key[0]] + rest;
      assert s == [' '] + tail;
      assert tail[|tail| - 1] == s[|s| - 1];
      Strings.TrimLeadingBlank(tail);
      assert s[1..] == tail;
    } else {
      assert s == [key[0]] + rest;
      Strings.TrimUnchanged(s);
    }
  }

  /** The stock line. */
  function StockText(stock: int): (r: string)
    ensures stock <= 0 <==> r == "Out of stock"
    ensures stock > 0 ==> r == Strings.NatToDecimal(stock) + " available"
  {
    if stock > 0 then
      var r := Strings.NatToDecimal(stock) + " available";
      assert r[|r| - 1] == 'e';
      r
    else "Out of stock"
  }

  /** The product as the page lays it out. */
  datatype View = View(
    product: Product,
    picture: Option<string>,
    thumbnails: seq<(string, bool)>,
    stockText: string,
    savings: Option<(real, real)>,
    specs: seq<(string, string)>,
    addDisabled: bool,
    addLabel: string)

  datatype Screen = Spinner | Failed(message: string) | NotFound | Shown(view: View)

  /** The spinner while loading, then the error, then "Product not found",
      then the product. Thumbnails appear only with more than one image;
      the add button is disabled exactly when the stock is zero. */
  function Render(s: Page): (r: Screen)
    ensures r.Spinner? <==> s.isLoading
    ensures r.Failed? <==> !s.isLoading && s.error != ""
    ensures r.Failed? ==> r.message == s.error
    ensures r.NotFound? <==> !s.isLoading && s.error == "" && s.product.None?
    ensures r.Shown? ==>
      var p := s.product.value;
      && r.view.product == p
      && r.view.picture == Images.GalleryImageAt(p, s.selected)
      && (r.view.thumbnails == [] <==> |p.images| <= 1)
      && (|p.images| > 1 ==>
            |r.view.thumbnails| == |p.images| &&
            forall i | 0 <= i < |p.images| :: r.view.thumbnails[i] == (p.images[i], i == s.selected))
      && r.view.savings == Savings(p)
      && |r.view.specs| == |p.specifications|
      && (forall i | 0 <= i < |p.specifications| ::
            r.view.specs[i] == (SpecLabel(p.specifications[i].0), p.specifications[i].1))
      && (r.view.addDisabled <==> p.stock == 0)
      && r.view.addLabel == (if p.stock > 0 then "Add to Cart" else "Out of Stock")
  {
    if s.isLoading then Spinner
    else if s.error != "" then Failed(s.error)
    else if s.product.None? then NotFound
    else
      var p := s.product.value;
      var thumbs := if |p.images| > 1 then seq(|p.images|, i requires 0 <= i < |p.images| => (p.images[i], i == s.selected)) else [];
      var specs := seq(|p.specifications|, i requires 0 <= i < |p.specifications| =>
        (SpecLabel(p.specifications[i].0), p.specifications[i].1));
      Shown(View(p, Images.GalleryImageAt(p, s.selected), thumbs, StockText(p.stock), Savings(p), specs,
                 p.stock == 0, if p.stock > 0 then "Add to Cart" else "Out of Stock"))
  }

  /** A clicked thumbnail becomes the large picture, unless its URL is empty. */
  lemma ThumbnailShowsItsPicture(s: Page, i: int)
    requires !s.isLoading && s.error == "" && s.product.Some?
    requires 0 <= i < |s.product.value.images| && s.product.value.images[i] != ""
    ensures Render(SelectPicture(s, i)).view.picture == Some(s.product.value.images[i])
  {
  }

  /** A negative stock leaves the add button enabled under the label "Out
      of Stock": the label and the disabled state test different things. */
  lemma NegativeStockButton(s: Page)
    requires !s.isLoading && s.error == "" && s.product.Some? && s.product.value.stock < 0
    ensures Render(s).view.addLabel == "Out of Stock" && !Render(s).view.addDisabled
  {
  }
}
