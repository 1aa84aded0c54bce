# Marketplace front end — a Dafny model of its page logic

This project models the rules inside the React pages, context providers and
HTTP service of a small marketplace front end, and proves properties of them.
The rules covered are:

- checkout pricing, the order payload, the confirm-and-pay flow and the card field formatters;
- the registration validator and its live re-validation;
- the HTTP service's Bearer header, 401 handler, error message precedence, product query string and order defaults;
- the authentication provider's start-up, login/register, logout and storage slots;
- the notification list;
- the cart page, product page, product card, catalogue page, order history, navigation bar and profile page.

Every handler is a pure function from the page's state and its inputs to the
new state and to the effects it asks for. Effects are cart-store calls,
notifications, navigation and ending the session. HTTP replies, stored
values, `parseInt`/`parseFloat` results, `Date` timestamps, the URL encoder
and fresh notification ids arrive as parameters. Money is an exact `real`.
Browser storage is a `map<string, string>`. The cart is a `seq<CartItem>`
whose `getTotalPrice()` and `getTotalItems()` are given numbers.

One module per source file, plus shared modules:

- `Wrappers`: `Option`, `Result`, thrown values and JavaScript truthiness of optional strings.
- `Strings`: ASCII `trim`, `\D` removal, `split`/`join`, case mapping and decimal rendering.
- `Types`: the records of `types/index.ts`.
- `Effects`: cart-store calls and handler effects.
- `Images`: the picture fallback shared by three pages.

## Model

| member | source | states |
|---|---|---|
| Checkout.Price | frontend/src/pages/Checkout.tsx:24-27 | subtotal is the store's total, tax is 8% of it, shipping is the constant 15.99, total is their sum |
| Checkout.PriceClosedForm | frontend/src/pages/Checkout.tsx:24-27 | total = 1.08 × subtotal + 15.99; shipping never depends on the cart; total grows with the subtotal |
| Checkout.WorkedExample | frontend/src/pages/Checkout.tsx:24-27 | two units at 10.00 and one at 5.00 price to 25.00 + 2.00 + 15.99 = 42.99 when the store's total is the sum of line totals |
| Checkout.OrderPayload | frontend/src/pages/Checkout.tsx:41-44 | exactly one `{productId, quantity}` per cart line, taken from that line, in cart order |
| Checkout.PayloadKeepsUnits | frontend/src/pages/Checkout.tsx:41-44 | the payload requests exactly the units the cart holds |
| Checkout.PayloadAppend | frontend/src/pages/Checkout.tsx:41-44 | the payload of a concatenated cart is the concatenation of payloads (order is kept) |
| Checkout.CardNumber | frontend/src/pages/Checkout.tsx:150 | output is only digits, at most 16, and is the longest such prefix of the input's digits |
| Checkout.Cvv | frontend/src/pages/Checkout.tsx:204 | output is only digits, at most 3, and is the longest such prefix of the input's digits |
| Checkout.CardFieldsStable | frontend/src/pages/Checkout.tsx:150 | re-formatting the card number (and likewise the CVV) that the field shows changes nothing |
| Checkout.Expiry | frontend/src/pages/Checkout.tsx:183-186 | keeps at most 4 digits; with 2 or more, the first two, '/', then the rest; otherwise the digits unchanged; length at most 5 |
| Checkout.ExpiryDigitsRoundTrip | frontend/src/pages/Checkout.tsx:183-186 | removing non-digits from the formatted expiry gives back exactly the kept digits |
| Checkout.ExpiryStable | frontend/src/pages/Checkout.tsx:183-186 | formatting the shown expiry again leaves it unchanged |
| Checkout.ExpirySlashReappears | frontend/src/pages/Checkout.tsx:183-186 | deleting the slash from `MM/` formats back to `MM/` |
| Checkout.SubmitForm | frontend/src/pages/Checkout.tsx:29-32 | submitting only opens the dialog; processing is untouched |
| Checkout.CloseDialog | frontend/src/pages/Checkout.tsx:277-289 | dismissing or cancelling the dialog closes it and changes nothing else |
| Checkout.Confirm | frontend/src/pages/Checkout.tsx:34-50 | confirming closes the dialog, enters processing and sends the cart payload, the address (empty omitted) and the payment method |
| Checkout.ConfirmDefaultsToCard | frontend/src/pages/Checkout.tsx:34-50 | with an empty payment method the order goes out as credit_card, the same order the page's initial form sends |
| Checkout.SettleAsWritten | frontend/src/pages/Checkout.tsx:52-67 | the code as written: the cart is cleared iff the reply has success; a rejection notifies and ends processing; a reply without success does nothing |
| Checkout.AsWrittenStuckOnUnsuccessfulReply | frontend/src/pages/Checkout.tsx:52-59 | as written, a reply without success leaves the page processing with the button disabled and nothing in flight |
| Checkout.Settle | frontend/src/pages/Checkout.tsx:52-67 | corrected: every outcome but success ends processing with one error notification; success clears the cart, notifies and later goes to /orders |
| Checkout.SettleNeverStuck | frontend/src/pages/Checkout.tsx:52-67 | corrected: after confirming, the page stays processing iff the cart was cleared |
| Checkout.Render | frontend/src/pages/Checkout.tsx:70-322 | empty cart gives only the empty state; otherwise line totals are price × quantity, the breakdown is `Price`, the dialog total shows iff the dialog is open, and the button and overlay follow processing |
| Checkout.SummaryAndDialogAgree | frontend/src/pages/Checkout.tsx:269-306 | the summary panel and the open dialog show the same total |
| CartPage.ItemCountVersusLines | frontend/src/pages/Cart.tsx:111 | with quantities of at least one, the displayed count is at least the number of lines, and equal only when every line holds one unit |
| CartPage.AggregatesAppend | frontend/src/pages/Cart.tsx:111 | the unit count (and the sum of line totals) of a concatenated cart is the sum of the parts |
| CartPage.RowOf | frontend/src/pages/Cart.tsx:45-98 | a row's −, + and Remove requests target that line's product with quantity − 1, + 1; line total is price × quantity; thumbnail is the shared fallback |
| CartPage.Render | frontend/src/pages/Cart.tsx:10-121 | the empty state, offering only /products, iff the cart is empty; otherwise one row per line in order, the store's total, the unit count and /checkout |
| CartPage.RowRequestsTargetItsLine | frontend/src/pages/Cart.tsx:76-95 | every button of row i addresses line i's product, and + asks for two more units than − |
| Images.ShownImage | frontend/src/pages/Cart.tsx:45-48 | `images[0]` when there are images, else `image`; an empty URL shows no picture |
| Images.Gallery | frontend/src/pages/ProductDetail.tsx:88-92 | `images` if non-empty, else `[image]` if set, else empty; every entry comes from the product |
| Images.GalleryImageAt | frontend/src/pages/ProductDetail.tsx:93-107 | the placeholder exactly when the index is outside the gallery or its URL is empty |
| Images.GalleryStartsWithShownImage | frontend/src/pages/ProductDetail.tsx:88-95 | the product page opens on the same picture the cart row and card show |
| Images.CardPictureOrPlaceholder | frontend/src/components/ProductCard.tsx:25-47 | never both a picture and the placeholder; neither only when `images[0]` is empty |
| Api.AuthorizeRequest | frontend/src/services/api.ts:26-33 | `Authorization: Bearer <token>` is added iff a non-empty token is stored; headers are otherwise unchanged |
| Api.ErrorMessage | frontend/src/services/api.ts:48-51 | body message, else the error's message, else the default text; never empty |
| Api.OnResponseError | frontend/src/services/api.ts:41-58 | redirect to login iff status 401, which removes exactly the token and user slots; other slots untouched; status kept with the message |
| Api.UnauthorizedDropsBearer | frontend/src/services/api.ts:26-45 | after a 401 the next request carries no Bearer header |
| Api.Kept | frontend/src/services/api.ts:92-95 | a parameter survives iff its value is not undefined, null or `''` (0 and false survive) |
| Api.KeptAppend | frontend/src/services/api.ts:92-96 | filtering distributes over concatenation, so survivors keep their supplied order |
| Api.JoinOfPairsEmpty | frontend/src/services/api.ts:98-99 | joining `key=value` pieces with '&' gives the empty string iff there are no pieces, so the query is empty iff no parameter survived |
| Api.ProductsUrl | frontend/src/services/api.ts:98-99 | `/products` with no `?` iff nothing survives, else `/products?` + the query |
| Api.CreateOrderBody | frontend/src/services/api.ts:139-143 | items and address pass through; payment method defaults to credit_card when absent or empty |
| Api.CreateOrderBodyStable | frontend/src/services/api.ts:139-143 | rebuilding a body from its own fields returns it unchanged: the default applies once and a chosen method is kept |
| Auth.Startup | frontend/src/contexts/AuthContext.tsx:40-48 | loading ends whatever storage holds; the stored user is restored only when it decodes and a token is stored |
| Auth.Settle | frontend/src/contexts/AuthContext.tsx:77-88 | a rejection is rethrown unchanged; success with data stores token and user and signs in; otherwise nothing changes |
| Auth.Logout | frontend/src/contexts/AuthContext.tsx:90-93 | signs out and clears the token and user slots |
| Auth.LoginSurvivesReload | frontend/src/contexts/AuthContext.tsx:80-84 | with a faithful codec, a reload after a successful login restores the same user |
| Auth.LogoutSurvivesReload | frontend/src/contexts/AuthContext.tsx:90-93 | a reload after logout finds no session |
| Auth.UnauthorizedEndsSession | frontend/src/services/api.ts:42-45 | a reload after a 401 finds no session |
| Auth.UseAuth | frontend/src/contexts/AuthContext.tsx:24-30 | outside the provider the hook fails with its message; inside it returns the state |
| Notifications.Show | frontend/src/components/NotificationContainer.tsx:27-30 | appends exactly one entry at the end; earlier entries unchanged |
| Notifications.Remove | frontend/src/components/NotificationContainer.tsx:32-34 | keeps exactly the entries whose id differs |
| Notifications.RemoveAppend | frontend/src/components/NotificationContainer.tsx:33 | removal distributes over concatenation, so the kept entries stay in order |
| Notifications.RemoveAbsent | frontend/src/components/NotificationContainer.tsx:33 | removing an absent id is a no-op |
| Notifications.RemoveIdempotent | frontend/src/components/NotificationContainer.tsx:33 | removing twice equals removing once |
| Notifications.ShowThenRemove | frontend/src/components/NotificationContainer.tsx:27-34 | a toast with a fresh id removes itself, restoring the list |
| Notifications.UseNotification | frontend/src/components/NotificationContainer.tsx:10-16 | outside the provider the hook fails with its message |
| Register.Set | frontend/src/pages/Register.tsx:44-49 | the edited field takes the value; no other field changes |
| Register.PasswordFailures | frontend/src/pages/Register.tsx:24-42 | lists exactly the broken rules, each once, in the order length, lower, upper, digit, special; the length rule counts UTF-16 code units, as `password.length` does |
| Register.AstralPasswordAccepted | frontend/src/pages/Register.tsx:26 | `Aa1!😀😀` has six characters but eight code units, so it breaks no rule |
| Strings.CodeUnitsOfBmp | frontend/src/pages/Register.tsx:26 | for text inside the Basic Multilingual Plane, the code-unit length is the character count |
| Register.NoFailuresIffStrong | frontend/src/pages/Register.tsx:26-40 | no failure iff the UTF-16 length is ≥ 8 and a lowercase, an uppercase, a digit and a special character are present |
| Register.FirstFailureIsEarliest | frontend/src/pages/Register.tsx:24-41 | the first failure reported is the earliest broken rule |
| Register.ValidEmailNotBlank | frontend/src/pages/Register.tsx:123-128 | an address of the accepted shape never trims to nothing |
| Register.NameError | frontend/src/pages/Register.tsx:115-121 | a name error iff the value trims to nothing |
| Register.EmailError | frontend/src/pages/Register.tsx:123-128 | an error iff the shape fails; "Email is required" when blank, else the invalid-address message |
| Register.PasswordError | frontend/src/pages/Register.tsx:130-133 | an error iff the password is not strong, and it is the first failure's message |
| Register.SubmitErrors | frontend/src/pages/Register.tsx:110-138 | a field is in the map iff its check fails, with that check's message |
| Register.SubmitErrorsByField | frontend/src/pages/Register.tsx:113-137 | per field: names iff blank, email iff shape fails, password iff not strong, confirmation iff different; phone and address never |
| Register.SubmitErrorsEmptyIff | frontend/src/pages/Register.tsx:139-142 | the map is empty iff names are present, the address is valid, the password strong and confirmed |
| Register.Submit | frontend/src/pages/Register.tsx:110-154 | the page error is cleared on every submit; `register` is called iff the form is acceptable, with empty phone and address passed as absent, and the field errors on screen stay; otherwise the new error map replaces them |
| Register.ResubmitClearsServerError | frontend/src/pages/Register.tsx:110-112 | a rejected registration shows a page error, and the next submit of any form hides it |
| Register.RejectionMessage | frontend/src/pages/Register.tsx:159-170 | the page error: the Error's message or its fallback, the body message or its fallback, or the unexpected-error text; never empty |
| Register.ServiceMessageReachesPage | frontend/src/pages/Register.tsx:160-161 | a rejection from the HTTP service shows the service's precedence message |
| Register.SettleRegistration | frontend/src/pages/Register.tsx:146-170 | success notifies and later goes to /login with no error; a rejection sets a non-empty error only |
| Register.Drop | frontend/src/pages/Register.tsx:51-56 | deletes the field's error and no other |
| Register.LiveVerdict | frontend/src/pages/Register.tsx:58-107 | for a typed value: the password's first failure, a mismatch with the current password, a malformed address, or a blank name |
| Register.LiveCheck | frontend/src/pages/Register.tsx:58-107 | empty input, phone and address leave the map alone; otherwise the verdict is written or the entry dropped; other fields untouched |
| Register.HandleChange | frontend/src/pages/Register.tsx:44-108 | stores the value; other fields' errors untouched; an empty value leaves no error under the field |
| Register.HandleChangeRevalidates | frontend/src/pages/Register.tsx:58-107 | a non-empty password gets an error iff not strong (the first failure); confirmation iff different; email iff malformed; names iff blank |
| Register.LiveMatchesSubmit | frontend/src/pages/Register.tsx:44-137 | for a non-blank value the live error under the field is the one submitting would raise |
| Strings.TrimEmptyIffBlank | frontend/src/pages/Register.tsx:115 | `trim()` gives the empty string iff the value is all whitespace |
| Strings.KeepDigits | frontend/src/pages/Checkout.tsx:150 | keeps exactly the digits, in order |
| Strings.SplitJoin | frontend/src/pages/OrderHistory.tsx:107 | joining the pieces of `split` with the separator gives the original text |
| ProductDetail.ClampQuantity | frontend/src/pages/ProductDetail.tsx:192 | always ≥ 1; a parse of at least one is kept; NaN, 0 and negatives give 1 |
| ProductDetail.QuantityNotCappedAtStock | frontend/src/pages/ProductDetail.tsx:186-192 | a typed quantity beyond the stock is added as typed |
| ProductDetail.FetchOnMount | frontend/src/pages/ProductDetail.tsx:21-25 | the product is fetched iff the route id is non-empty |
| ProductDetail.LoadError | frontend/src/pages/ProductDetail.tsx:37-42 | the Error's message, else its fallback, else the unexpected-error text; never empty |
| ProductDetail.Fetch | frontend/src/pages/ProductDetail.tsx:27-46 | a successful reply stores the product without its reviews; a rejection keeps the product and sets the error; loading ends |
| ProductDetail.AddToCart | frontend/src/pages/ProductDetail.tsx:48-56 | adds exactly the chosen quantity of the loaded product, then a success toast; nothing without a product |
| ProductDetail.Savings | frontend/src/pages/ProductDetail.tsx:156-164 | shown iff the compare-at price is set, non-zero and above the price; the saving is their positive difference |
| ProductDetail.SavingsForNonNegativePrice | frontend/src/pages/ProductDetail.tsx:156 | for a non-negative price, shown iff the compare-at price is set and exceeds it |
| ProductDetail.SpaceBeforeCaps | frontend/src/pages/ProductDetail.tsx:174 | every A-Z letter has a space directly before it, so the label never starts with a capital; the key's last character is kept |
| ProductDetail.SpaceBeforeCapsRoundTrip | frontend/src/pages/ProductDetail.tsx:174 | removing each space before a capital gives back the key: all other characters are unchanged |
| ProductDetail.SpecLabelOfPlainKey | frontend/src/pages/ProductDetail.tsx:174 | for a key without whitespace the trim removes only the space inserted before a leading capital |
| ProductDetail.StockText | frontend/src/pages/ProductDetail.tsx:154 | "Out of stock" iff the stock is not positive; otherwise the stock in decimal followed by " available" |
| ProductDetail.Render | frontend/src/pages/ProductDetail.tsx:58-205 | spinner, error, not found, product in that order; thumbnails only with more than one image; savings, labelled specs; add disabled iff stock is 0 |
| ProductDetail.ThumbnailShowsItsPicture | frontend/src/pages/ProductDetail.tsx:110-128 | clicking a thumbnail with a URL makes it the large picture |
| ProductDetail.NegativeStockButton | frontend/src/pages/ProductDetail.tsx:196-201 | a negative stock leaves the button enabled while labelled "Out of Stock" |
| OrderHistory.Insert | frontend/src/pages/OrderHistory.tsx:23-26 | inserting one order adds exactly that order to the multiset |
| OrderHistory.InsertKeepsNewestFirst | frontend/src/pages/OrderHistory.tsx:23-26 | inserting into a newest-first list keeps it newest first |
| OrderHistory.SortNewestFirst | frontend/src/pages/OrderHistory.tsx:23-26 | the result is a permutation of the response, non-increasing by timestamp |
| OrderHistory.SortKeepsSortedOrders | frontend/src/pages/OrderHistory.tsx:23-26 | an already newest-first list is left exactly as it is, so equal timestamps keep their order |
| OrderHistory.SortIdempotent | frontend/src/pages/OrderHistory.tsx:23-26 | sorting twice equals sorting once |
| OrderHistory.StatusColor | frontend/src/pages/OrderHistory.tsx:40-53 | green, blue, yellow or red iff the lower-cased status is delivered, shipped, processing or cancelled |
| OrderHistory.StatusLabel | frontend/src/pages/OrderHistory.tsx:119 | first character upper-cased, the rest unchanged |
| OrderHistory.StatusLabelLowersAlike | frontend/src/pages/OrderHistory.tsx:119 | the label and the status lower-case to the same text |
| OrderHistory.BadgeColorAgreesWithLabel | frontend/src/pages/OrderHistory.tsx:114-120 | the badge colour is the same for the shown label as for the raw status |
| OrderHistory.OrderLabel | frontend/src/pages/OrderHistory.tsx:107 | either the whole id, or a non-empty text without '-' |
| OrderHistory.OrderLabelOfPlainId | frontend/src/pages/OrderHistory.tsx:107 | an id without '-' is shown whole |
| OrderHistory.OrderLabelOfDashedId | frontend/src/pages/OrderHistory.tsx:107 | for `prefix-middle…` the label is the text between the first and second '-', or the whole id when that is empty |
| OrderHistory.CountText | frontend/src/pages/OrderHistory.tsx:80-82 | "You have no orders yet" iff there are no orders; otherwise "You have N order" with the count in decimal and "s" unless it is one |
| Strings.NatToDecimal | frontend/src/pages/OrderHistory.tsx:82 | decimal digits without a leading zero whose value read back is the number |
| OrderHistory.CountTextPlural | frontend/src/pages/OrderHistory.tsx:80-82 | with orders, the noun ends in "s" iff the count is not one |
| OrderHistory.Fetch | frontend/src/pages/OrderHistory.tsx:17-38 | success stores a newest-first permutation of the reply; a rejection stores the Error's message as is, or the fallback; loading ends |
| OrderHistory.EntryOf | frontend/src/pages/OrderHistory.tsx:98-163 | each entry's number, colour, status label and total; each item line total is quantity × price |
| OrderHistory.Render | frontend/src/pages/OrderHistory.tsx:63-171 | spinner, then error, then the count line and one entry per order in the stored order |
| OrderHistory.EmptyErrorMessageHidesFailure | frontend/src/pages/OrderHistory.tsx:29-34 | a rejection with an empty Error message shows no error, only "You have no orders yet"; the HTTP service never rejects that way |
| OrderHistory.ServiceRejectionShowsError | frontend/src/pages/OrderHistory.tsx:29-34 | a rejection from the HTTP service always shows its (non-empty) message on the error screen |
| Navbar.UserLabel | frontend/src/components/Navbar.tsx:59-61 | "first last" when both are non-empty, else the name, else the e-mail |
| Navbar.UserInitial | frontend/src/components/Navbar.tsx:64 | first character of the first name, else of the name, else of the e-mail, else 'U' |
| Navbar.InitialStartsLabel | frontend/src/components/Navbar.tsx:58-65 | when both come from the same field, the initial is the label's first character |
| Navbar.InitialAndLabelCanDisagree | frontend/src/components/Navbar.tsx:59-64 | a first name without a last name gives a label from the name but an initial from the first name |
| Navbar.Render | frontend/src/components/Navbar.tsx:24-123 | cart, orders and profile links iff signed in; login and sign-up iff not; badge iff signed in and count > 0, showing the count |
| Navbar.LogoutShowsGuestBar | frontend/src/components/Navbar.tsx:11-14 | after logout the bar shows only home, login and sign-up, with no badge or menu |
| ProductsPage.QueryParams | frontend/src/pages/Products.tsx:28-32 | search is present iff the debounced term is non-empty; each price iff its field is non-empty, parsed |
| ProductsPage.SentParams | frontend/src/pages/Products.tsx:28-33 | the names sent are search, minPrice, maxPrice, in that order, each iff its field is non-empty |
| ProductsPage.PriceBoundSentIffTyped | frontend/src/pages/Products.tsx:30-31 | each bound is sent iff its field is non-empty, so "0" is sent |
| ProductsPage.NoFiltersBareUrl | frontend/src/pages/Products.tsx:28-33 | with all fields empty the request is the bare /products |
| ProductsPage.ClearFilters | frontend/src/pages/Products.tsx:48-55 | all three fields become empty and no filter is active |
| ProductsPage.ClearedFiltersBareUrl | frontend/src/pages/Products.tsx:48-52 | after clearing, once the search settles, the request carries no parameter |
| ProductsPage.Fetch | frontend/src/pages/Products.tsx:24-46 | a successful reply with products replaces them; a rejection keeps them and sets the message or fallback; loading ends |
| ProductsPage.CountText | frontend/src/pages/Products.tsx:70-72 | "Loading products..." iff loading, else "Found N product(s)" |
| ProductsPage.CountTextPlural | frontend/src/pages/Products.tsx:72 | the noun ends in "s" iff the count is not one |
| ProductsPage.Render | frontend/src/pages/Products.tsx:57-166 | the error screen once loading ends with an error; else the count line, clear offered iff a filter is active, spinner, notice or grid |
| ProductCard.AddOne | frontend/src/components/ProductCard.tsx:14-18 | adds exactly one unit of this product, then a success toast naming it |
| ProductCard.Render | frontend/src/components/ProductCard.tsx:21-65 | links to the product page; the shared picture fallback; placeholder iff no images and no image; rating iff rating > 0 |
| ProductCard.PictureOrPlaceholder | frontend/src/components/ProductCard.tsx:24-47 | never both; a non-empty first image is shown; without images exactly one of picture and placeholder |
| Profile.FormFromUser | frontend/src/pages/Profile.tsx:26-35 | names and phone are the value or empty; the address only when it is a string |
| Profile.UpdatePayload | frontend/src/pages/Profile.tsx:15-20 | exactly the four form fields and never the e-mail |
| Profile.WithUser | frontend/src/pages/Profile.tsx:26-35 | a new user record re-derives the form and changes nothing else |
| Profile.Fetch | frontend/src/pages/Profile.tsx:37-54 | success stores the user and its form; a rejection sets the Error's message or the fallback; loading ends |
| Profile.EditField | frontend/src/pages/Profile.tsx:134-192 | typing changes that one form field only |
| Profile.Save | frontend/src/pages/Profile.tsx:56-76 | success replaces the user, re-derives the form, leaves edit mode and sets the success text; a rejection stays in edit mode with the message or fallback |
| Profile.Cancel | frontend/src/pages/Profile.tsx:207-215 | leaves edit mode, clears the error and resets the form from the current user |
| Profile.CancelDiscardsEdits | frontend/src/pages/Profile.tsx:207-215 | whatever was typed, cancelling restores the form derived when the user was loaded |
| Profile.SaveThenCancel | frontend/src/pages/Profile.tsx:63-66 | after an accepted save the form already matches the returned record |
| Profile.ViewOf | frontend/src/pages/Profile.tsx:224-274 | "Not set" for empty or absent names and phone, and for an address that is not a non-empty string |
| Profile.ViewAgreesWithForm | frontend/src/pages/Profile.tsx:226-266 | each viewed field is the derived form field, or "Not set" when that is empty |
| Profile.Render | frontend/src/pages/Profile.tsx:78-276 | spinner, error without a user, "User not found", then the form in edit mode or the details |

## Left out

- The cart store and the storage helper module are not part of this model. Their source is not available. `getTotalPrice()` and `getTotalItems()` are inputs, and cart calls are returned as requests.
- Auth.Logout: the storage helper's `clear()` is taken to remove the `token` and `user` slots, the same slots the 401 handler removes. Whether it clears other slots cannot be seen.
- Auth.StoredToken: the storage helper's `getToken`/`setToken` are taken to use the `token` slot that the service reads and the 401 handler removes (api.ts lines 28 and 43). Auth.UnauthorizedEndsSession, Auth.LoginSurvivesReload and Auth.LogoutSurvivesReload rest on this.
- Auth.StoredUser: the storage helper's `getUser`/`setUser` are taken to use the `user` slot the 401 handler removes (api.ts line 44), holding the codec's encoding. The same three lemmas rest on this.
- Auth.Startup: the stored user is read through a codec parameter; JSON parsing is not modelled.
- HTTP, `localStorage`, `window.location` and react-router navigation are not modelled. Replies are inputs; navigation and toasts are returned as `Effects.Effect` values.
- Timers and promise scheduling are left out: the 2-second checkout delay, the delayed navigations, the 3-second success message on the profile page, the 5-second toast timer and the search debounce. The debounced search term is a separate input.
- Floating-point rounding and `toFixed(2)` formatting are left out; money is exact.
- `parseInt`, `parseFloat`, `Date` parsing and `toLocaleDateString` are parameters or already-parsed values. NaN from `parseFloat` cannot reach `ProductsPage.QueryParams`. A timestamp comparator returning NaN is not modelled either.
- Percent-encoding by `URLSearchParams` and JavaScript number rendering are abstract function parameters.
- `trim`, `\s`, `toLowerCase` and `toUpperCase` use ASCII only. Unicode whitespace and case mapping are approximated.
- A Dafny `char` is a whole Unicode scalar, while JavaScript strings index and measure UTF-16 code units. The password length rule counts code units explicitly (`Strings.CodeUnits`). Everywhere else lengths and positions count characters. The two agree for digits, ASCII text and anything inside the Basic Multilingual Plane.
- Navbar.UserInitial: takes the first character where `firstName?.[0]` takes the first UTF-16 code unit. For a name starting outside the Basic Multilingual Plane the page shows a lone surrogate half, which a Dafny `char` cannot hold.
- OrderHistory.StatusLabel: takes the first character where `charAt(0)` takes a code unit. The shown text is the same either way, because upper-casing leaves surrogate halves unchanged.
- ProductDetail.SpaceBeforeCaps: a specification value is taken as already-rendered text (`String(value)`), and specifications are a list in key order.
- Notification ids come from the clock and a random number; they are a parameter.
- App routing, the protected-route wrapper, ErrorMessage, Notification, Home and all JSX/Tailwind presentation are left out. The `capitalize` CSS class on spec labels is presentation.
- OrderHistory.SortNewestFirst: stability is proved only for input that is already newest first (`SortKeepsSortedOrders`). The general tie-order guarantee of the runtime's sort is not stated.
- Register.LiveVerdict: the confirmation is compared with the password before the keystroke, as the handler does. A later password edit does not re-check the confirmation.

## Findings

| source | as written | input that shows it | evidently intended | confidence | as-written member | corrected member |
|---|---|---|---|---|---|---|
| frontend/src/pages/Checkout.tsx:52-59 | a resolved `createOrder` reply with `success` false neither clears the cart nor resets `isProcessing`, and shows nothing | confirm payment, server replies `{success: false}` | treat it as a failed payment: end processing and show an error | medium, not executed | Checkout.SettleAsWritten, Checkout.AsWrittenStuckOnUnsuccessfulReply | Checkout.Settle, Checkout.SettleNeverStuck |

The rejection branch (Checkout.tsx:60-66) ends processing and shows an error. A resolved reply without `success` gets neither, because the success test at line 52 has no else branch. The page therefore stays behind the processing overlay. `Checkout.SettleAsWritten` follows the code. `Checkout.Settle` treats that reply like the rejection branch.
