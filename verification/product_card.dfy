/** One product tile in the catalogue grid: its picture or placeholder,
    its rating line, the link to the product page, and "Add to Cart". */
module ProductCard {
  import opened Wrappers
  import opened Types
  import opened Effects
  import Images
  import Notifications

  /** "Add to Cart" on a card: exactly one unit of this product, then a
      success toast naming it. */
  function AddOne(p: Product): (r: seq<Effect>)
    ensures |r| == 2
    ensures r[0] == Cart(AddItem(p, 1))
    ensures r[1] == Notify("Added " + p.name + " to cart!", Notifications.SuccessKind)
  {
    [Cart(AddItem(p, 1)), Notify("Added " + p.name + " to cart!", Notifications.SuccessKind)]
  }

  datatype Card = Card(target: string, picture: Option<string>, placeholder: bool, showRating: bool)

  /** The card for a product. */
  function Render(p: Product): (r: Card)
    ensures r.target == "/products/" + p.id
    ensures r.picture == Images.ShownImage(p)
    ensures r.placeholder <==> |p.images| == 0 && !Truthy(p.image)
    ensures r.showRating <==> p.rating > 0.0
  {
    Card("/products/" + p.id, Images.ShownImage(p), Images.CardPlaceholder(p), p.rating > 0.0)
  }

  /** A card never shows both a picture and the placeholder, and it shows a
      picture whenever the first image, or failing any images the single
      image, is a non-empty URL. */
  lemma PictureOrPlaceholder(p: Product)
    ensures !(Render(p).picture.Some? && Render(p).placeholder)
    ensures |p.images| > 0 && p.images[0] != "" ==> Render(p).picture == Some(p.images[0])
    ensures |p.images| == 0 ==> (Render(p).picture.Some? <==> !Render(p).placeholder)
  {
    Images.CardPictureOrPlaceholder(p);
  }
}
