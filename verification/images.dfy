/** Which picture a product is shown with. The cart row, the product card
    and the product page each pick from `images` first and fall back to the
    single `image` field; an empty URL counts as no picture. */
module Images {
  import opened Wrappers
  import opened Types

  /** The first-choice URL: `images[0]` when there are images, else `image`. */
  function PrimaryImage(p: Product): Option<string> {
    if |p.images| > 0 then Some(p.images[0]) else p.image
  }

  /** The URL an `<img>` is rendered with on the cart row and the product
      card; `None` means no picture is rendered. */
  function ShownImage(p: Product): (r: Option<string>)
    ensures r.Some? ==> r.value != ""
    ensures |p.images| > 0 && p.images[0] != "" ==> r == Some(p.images[0])
    ensures |p.images| == 0 ==> r == (if Truthy(p.image) then p.image else None)
    ensures |p.images| > 0 && p.images[0] == "" ==> r.None?
  {
    var url := PrimaryImage(p);
    if Truthy(url) then url else None
  }

  /** The product page's gallery: `images` when there are any, else the
      single `image` when it is set, else nothing. */
  function Gallery(p: Product): (r: seq<string>)
    ensures |p.images| > 0 ==> r == p.images
    ensures |p.images| == 0 ==> |r| <= 1
    ensures |p.images| == 0 && Truthy(p.image) ==> r == [p.image.value]
    ensures forall u | u in r :: u in p.images || Some(u) == p.image
  {
    if |p.images| > 0 then p.images
    else if Truthy(p.image) then [p.image.value]
    else []
  }

  /** The product page's large picture for the selected index; an index
      outside the gallery, or an empty URL, shows the placeholder (`None`). */
  function GalleryImageAt(p: Product, index: int): (r: Option<string>)
    ensures r.Some? ==> r.value != "" && r.value in Gallery(p)
    ensures r.None? <==> !(0 <= index < |Gallery(p)|) || Gallery(p)[index] == ""
  {
    var gallery := Gallery(p);
    if 0 <= index < |gallery| && gallery[index] != "" then Some(gallery[index]) else None
  }

  /** The product page opens on the same picture the card and cart row show. */
  lemma GalleryStartsWithShownImage(p: Product)
    ensures GalleryImageAt(p, 0) == ShownImage(p)
  {
  }

  /** The card's "No Image" placeholder: no images and no `image` set. */
  predicate CardPlaceholder(p: Product) {
    |p.images| == 0 && !Truthy(p.image)
  }

  /** The card never shows both a picture and the placeholder; it shows
      neither exactly when the first entry of `images` is an empty URL. */
  lemma CardPictureOrPlaceholder(p: Product)
    ensures !(CardPlaceholder(p) && ShownImage(p).Some?)
    ensures ShownImage(p).None? && !CardPlaceholder(p) <==> |p.images| > 0 && p.images[0] == ""
  {
  }
}
