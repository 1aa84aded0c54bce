/** The catalogue page: the search box and price filters, the parameters
    they turn into, the "clear filters" action, the fetch and the result
    count. The debounce timer is left out: the debounced search term
    arrives as its own value. `parseFloat` arrives as a parameter. */
module ProductsPage {
  import opened Wrappers
  import opened Types
  import Strings
  import Api

  /** The three filter fields exactly as typed. */
  datatype Filters = Filters(searchTerm: string, minPrice: string, maxPrice: string)

  /** The parameters `fetchProducts` passes to `getProducts`: the debounced
      search term when it is not empty, and each price parsed when its field
      is not empty. */
  function QueryParams(debounced: string, minPrice: string, maxPrice: string, parse: string -> real): (r: seq<(string, Api.QueryValue)>)
    ensures |r| == 3 && r[0].0 == "search" && r[1].0 == "minPrice" && r[2].0 == "maxPrice"
    ensures Api.Present(r[0].1) <==> debounced != ""
    ensures Api.Present(r[0].1) ==> r[0].1 == Api.Text(debounced)
    ensures Api.Present(r[1].1) <==> minPrice != ""
    ensures Api.Present(r[1].1) ==> r[1].1 == Api.Number(parse(minPrice))
    ensures Api.Present(r[2].1) <==> maxPrice != ""
    ensures Api.Present(r[2].1) ==> r[2].1 == Api.Number(parse(maxPrice))
  {
    [("search", if debounced != "" then Api.Text(debounced) else Api.Undefined),
     ("minPrice", if minPrice != "" then Api.Number(parse(minPrice)) else Api.Undefined),
     ("maxPrice", if maxPrice != "" then Api.Number(parse(maxPrice)) else Api.Undefined)]
  }

  /** The names of a list of parameters, in order. */
  function Names(params: seq<(string, Api.QueryValue)>): (r: seq<string>)
    ensures |r| == |params|
    ensures forall i | 0 <= i < |r| :: r[i] == params[i].0
  {
    seq(|params|, i requires 0 <= i < |params| => params[i].0)
  }

  lemma NamesAppend(a: seq<(string, Api.QueryValue)>, b: seq<(string, Api.QueryValue)>)
    ensures Names(a + b) == Names(a) + Names(b)
  {
  }

  /** The names of the parameters that reach the request. */
  function SentKeys(params: seq<(string, Api.QueryValue)>): (r: seq<string>)
    ensures |r| == |Api.Kept(params)|
  {
    Names(Api.Kept(params))
  }

  /** The filter keeps a parameter exactly when its value is present. */
  function KeptOne(p: (string, Api.QueryValue)): (r: seq<(string, Api.QueryValue)>)
    ensures r == Api.Kept([p])
    ensures Names(r) == if Api.Present(p.1) then [p.0] else []
  {
    assert [p][1..] == [];
    if Api.Present(p.1) then [p] else []
  }

  /** A price bound is sent exactly when its field is not empty, so a typed
      "0" is sent and filters, while an empty field sends nothing. The
      parameters that are sent keep the order search, minPrice, maxPrice. */
  lemma SentParams(debounced: string, minPrice: string, maxPrice: string, parse: string -> real)
    ensures var keys := SentKeys(QueryParams(debounced, minPrice, maxPrice, parse));
      keys == (if debounced != "" then ["search"] else []) + (if minPrice != "" then ["minPrice"] else [])
              + (if maxPrice != "" then ["maxPrice"] else [])
  {
    var params := QueryParams(debounced, minPrice, maxPrice, parse);
    assert params == [params[0]] + [params[1]] + [params[2]];
    Api.KeptAppend([params[0]] + [params[1]], [params[2]]);
    Api.KeptAppend([params[0]], [params[1]]);
    var k0, k1, k2 := KeptOne(params[0]), KeptOne(params[1]), KeptOne(params[2]);
    assert Api.Kept(params) == k0 + k1 + k2;
    NamesAppend(k0 + k1, k2);
    NamesAppend(k0, k1);
  }

  /** In particular each bound is among the sent names exactly when its
      field is not empty. */
  lemma PriceBoundSentIffTyped(debounced: string, minPrice: string, maxPrice: string, parse: string -> real)
    ensures var keys := SentKeys(QueryParams(debounced, minPrice, maxPrice, parse));
      && ("search" in keys <==> debounced != "")
      && ("minPrice" in keys <==> minPrice != "")
      && ("maxPrice" in keys <==> maxPrice != "")
  {
  }

  /** With every field empty the request is the bare `/products`. */
  lemma NoFiltersBareUrl(parse: string -> real, encode: string -> string, renderNumber: real -> string)
    ensures Api.ProductsUrl(QueryParams("", "", "", parse), encode, renderNumber) == "/products"
  {
  }

  /** `hasActiveFilters`: any of the three fields as typed is not empty. */
  predicate HasActiveFilters(f: Filters) {
    f.searchTerm != "" || f.minPrice != "" || f.maxPrice != ""
  }

  /** `clearFilters`: all three fields back to empty. */
  function ClearFilters(f: Filters): (r: Filters)
    ensures !HasActiveFilters(r)
    ensures r == Filters("", "", "")
  {
    Filters("", "", "")
  }

  /** Once the cleared search has settled, the next request carries no
      parameter at all. */
  lemma ClearedFiltersBareUrl(f: Filters, parse: string -> real, encode: string -> string, renderNumber: real -> string)
    ensures var c := ClearFilters(f);
      Api.ProductsUrl(QueryParams(c.searchTerm, c.minPrice, c.maxPrice, parse), encode, renderNumber) == "/products"
  {
  }

  /** The page's state. */
  datatype Catalogue = Catalogue(products: seq<Product>, isLoading: bool, error: string, filters: Filters)

  datatype ProductsReply = Replied(success: bool, products: Option<seq<Product>>) | Threw(thrown: Thrown)

  const LoadFailed := "Failed to load products. Please try again."

  /** `fetchProducts` settling: a successful reply with a product list
      replaces the products; a rejection records the error's message, or
      the fallback for a value that is not an `Error`; loading ends. */
  function Fetch(s: Catalogue, reply: ProductsReply): (r: Catalogue)
    ensures !r.isLoading && r.filters == s.filters
    ensures reply.Replied? && reply.success && reply.products.Some? ==> r.products == reply.products.value && r.error == ""
    ensures reply.Replied? && !(reply.success && reply.products.Some?) ==> r.products == s.products && r.error == ""
    ensures reply.Threw? ==> r.products == s.products
    ensures reply.Threw? && reply.thrown.ErrorValue? ==> r.error == reply.thrown.message
    ensures reply.Threw? && reply.thrown.OtherValue? ==> r.error == LoadFailed
  {
    var started := s.(isLoading := true, error := "");
    match reply
    case Replied(success, products) =>
      if success && products.Some? then started.(products := products.value, isLoading := false)
      else started.(isLoading := false)
    case Threw(e) =>
      var message := match e case ErrorValue(m) => m case OtherValue => LoadFailed;
      started.(error := message, isLoading := false)
  }

  /** The line under the title. */
  function CountText(isLoading: bool, count: nat): (r: string)
    ensures isLoading <==> r == "Loading products..."
    ensures !isLoading ==> r == "Found " + Strings.NatToDecimal(count) + " " + Strings.Plural(count, "product")
  {
    if isLoading then "Loading products..."
    else
      var r := "Found " + Strings.NatToDecimal(count) + " " + Strings.Plural(count, "product");
      assert r[0] == 'F';
      r
  }

  /** The count line says "products" exactly when the count is not one. */
  lemma CountTextPlural(count: nat)
    ensures var t := CountText(false, count); t[|t| - 1] == 's' <==> count != 1
  {
  }

  datatype Body = Spinner | NoResults(offerClear: bool) | Grid(products: seq<Product>)

  datatype Screen = Failed(message: string) | Listing(countText: string, offerClear: bool, body: Body)

  /** The error screen once loading has ended with an error; otherwise the
      count line, the clear button when a filter is active, and the spinner,
      the "no products" notice or the grid. */
  function Render(s: Catalogue): (r: Screen)
    ensures r.Failed? <==> s.error != "" && !s.isLoading
    ensures r.Failed? ==> r.message == s.error
    ensures r.Listing? ==>
      && r.countText == CountText(s.isLoading, |s.products|)
      && (r.offerClear <==> HasActiveFilters(s.filters))
      && (r.body.Spinner? <==> s.isLoading)
      && (r.body.NoResults? <==> !s.isLoading && s.products == [])
      && (r.body.NoResults? ==> r.body.offerClear == HasActiveFilters(s.filters))
      && (r.body.Grid? ==> r.body.products == s.products)
  {
    if s.error != "" && !s.isLoading then Failed(s.error)
    else
      var active := HasActiveFilters(s.filters);
      var body := if s.isLoading then Spinner else if s.products == [] then NoResults(active) else Grid(s.products);
      Listing(CountText(s.isLoading, |s.products|), active, body)
  }
}
