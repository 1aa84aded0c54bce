/** The navigation bar: which links it offers, the cart badge, the name and
    initial it shows for the signed-in user, and what "Logout" does. The
    cart store's `getTotalItems()` arrives as a number. */
module Navbar {
  import opened Wrappers
  import opened Types
  import opened Effects
  import Auth

  /** The long label: "first last" when both names are set, otherwise
      `name || email`. */
  function UserLabel(u: User): (r: string)
    ensures Truthy(u.firstName) && Truthy(u.lastName) ==> r == u.firstName.value + " " + u.lastName.value
    ensures !(Truthy(u.firstName) && Truthy(u.lastName)) ==> r == OrElse(u.name, u.email)
  {
    if Truthy(u.firstName) && Truthy(u.lastName) then u.firstName.value + " " + u.lastName.value
    else OrElse(u.name, u.email)
  }

  /** The short label: the first character of the first name, else of the
      name, else of the e-mail, else 'U'. A one-character string is always
      truthy, so only empty or absent fields are skipped. */
  function UserInitial(u: User): (r: char)
    ensures Truthy(u.firstName) ==> r == u.firstName.value[0]
    ensures !Truthy(u.firstName) && Truthy(u.name) ==> r == u.name.value[0]
    ensures !Truthy(u.firstName) && !Truthy(u.name) && u.email != "" ==> r == u.email[0]
    ensures !Truthy(u.firstName) && !Truthy(u.name) && u.email == "" ==> r == 'U'
  {
    if Truthy(u.firstName) then u.firstName.value[0]
    else if Truthy(u.name) then u.name.value[0]
    else if u.email != "" then u.email[0]
    else 'U'
  }

  /** The initial is the long label's first letter whenever the two are
      taken from the same field. */
  lemma InitialStartsLabel(u: User)
    requires (Truthy(u.firstName) && Truthy(u.lastName)) || (!Truthy(u.firstName) && (Truthy(u.name) || u.email != ""))
    ensures UserLabel(u) != "" && UserInitial(u) == UserLabel(u)[0]
  {
  }

  /** With a first name but no last name the two disagree: the label falls
      back to the name while the initial still comes from the first name. */
  lemma InitialAndLabelCanDisagree()
    ensures var u := User("1", "ann@example.com", Some("Smith"), Some("Ann"), None, "user", None, NoAddress);
      UserLabel(u) == "Smith" && UserInitial(u) == 'A'
  {
  }

  datatype Link = HomeLink | ProductsLink | CartLink | OrdersLink | ProfileLink | LoginLink | SignUpLink

  /** Where a link leads. */
  function Target(link: Link): string {
    match link
    case HomeLink => "/"
    case ProductsLink => "/products"
    case CartLink => "/cart"
    case OrdersLink => "/orders"
    case ProfileLink => "/profile"
    case LoginLink => "/login"
    case SignUpLink => "/register"
  }

  /** The user menu, present only when signed in. */
  datatype Menu = Menu(name: string, initial: char, entries: seq<Link>)

  datatype Bar = Bar(links: seq<Link>, badge: Option<int>, menu: Option<Menu>)

  /** The bar for an authentication state and the cart's unit count. */
  function Render(s: Auth.AuthState, totalItems: int): (r: Bar)
    ensures r.menu.Some? <==> Auth.IsAuthenticated(s)
    ensures r.badge.Some? <==> Auth.IsAuthenticated(s) && totalItems > 0
    ensures r.badge.Some? ==> r.badge.value == totalItems
    ensures forall l | l in [CartLink, OrdersLink, ProfileLink] ::
      (l in r.links || (r.menu.Some? && l in r.menu.value.entries)) <==> Auth.IsAuthenticated(s)
    ensures LoginLink in r.links <==> !Auth.IsAuthenticated(s)
    ensures SignUpLink in r.links <==> !Auth.IsAuthenticated(s)
    ensures HomeLink in r.links
    ensures r.menu.Some? ==> r.menu.value.name == UserLabel(s.user.value) && r.menu.value.initial == UserInitial(s.user.value)
  {
    match s.user
    case Some(u) =>
      Bar([HomeLink, ProductsLink, CartLink, OrdersLink],
          if totalItems > 0 then Some(totalItems) else None,
          Some(Menu(UserLabel(u), UserInitial(u), [ProductsLink, OrdersLink, ProfileLink])))
    case None => Bar([HomeLink, LoginLink, SignUpLink], None, None)
  }

  /** `handleLogout`: end the session, then go to the login page. */
  const LogoutEffects: seq<Effect> := [EndSession, Navigate("/login")]

  /** After logout the bar offers login and sign-up and nothing that needs
      a session, whatever the cart holds. */
  lemma LogoutShowsGuestBar(s: Auth.AuthState, totalItems: int)
    ensures var bar := Render(Auth.Logout(s), totalItems);
      && bar.links == [HomeLink, LoginLink, SignUpLink]
      && bar.badge.None? && bar.menu.None?
  {
  }
}
