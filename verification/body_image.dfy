/** Resolution of a body image block's media reference into something renderable. The
    three layouts each carry their own copy of this logic; this module states it once,
    as a resolver over a tagged union of the reference's shapes, and each layout proves
    its copy equal to it. */
module BodyImage {
  import opened Wrappers
  import opened Content

  const DefaultWidth: int := 1200
  const DefaultHeight: int := 800
  const DefaultAlt: string := "Blog post image"

  /** The shapes an image block's reference can take. */
  datatype MediaRef =
    | NoAsset
      /** the asset carries a direct (non-empty) URL */
    | Expanded(url: string, dims: Option<Dimensions>)
      /** only an asset reference: the URL must be built from the whole image object */
    | Unexpanded(source: SanityImage, dims: Option<Dimensions>)

  /** The asset's dimensions, when its metadata has them. */
  function AssetDims(a: Asset): Option<Dimensions> {
    if a.metadata.Some? then a.metadata.value.dimensions else None
  }

  /** The width and height recorded in the asset's metadata, each possibly missing. */
  function MetaWidth(value: SanityImage): Option<int> {
    if value.asset.Some? && AssetDims(value.asset.value).Some?
    then AssetDims(value.asset.value).value.width else None
  }

  function MetaHeight(value: SanityImage): Option<int> {
    if value.asset.Some? && AssetDims(value.asset.value).Some?
    then AssetDims(value.asset.value).value.height else None
  }

  /** Sorts an image object into one of the reference shapes. */
  function Classify(value: SanityImage): (m: MediaRef)
    ensures m.NoAsset? <==> value.asset.None?
    ensures m.Expanded? <==> value.asset.Some? && Truthy(value.asset.value.url)
    ensures m.Expanded? ==> m.url == value.asset.value.url.value && m.url != ""
    ensures m.Unexpanded? ==> m.source == value
    ensures !m.NoAsset? ==> m.dims == AssetDims(value.asset.value)
  {
    match value.asset
    case None => NoAsset
    case Some(a) =>
      if Truthy(a.url) then Expanded(a.url.value, AssetDims(a))
      else Unexpanded(value, AssetDims(a))
  }

  /** A resolved image: its URL and pixel dimensions. */
  datatype Resolved = Resolved(url: string, width: int, height: int)

  function WidthOr(dims: Option<Dimensions>): int {
    NumberOr(if dims.Some? then dims.value.width else None, DefaultWidth)
  }

  function HeightOr(dims: Option<Dimensions>): int {
    NumberOr(if dims.Some? then dims.value.height else None, DefaultHeight)
  }

  /** The resolver: a direct URL is used as it is; a bare reference goes through the
      builder, whose exception or empty result yields nothing. Dimensions fall back to
      1200 by 800 on both paths. */
  function Resolve(m: MediaRef, urlFor: UrlBuilder): Option<Resolved> {
    match m
    case NoAsset => None
    case Expanded(u, d) => Some(Resolved(u, WidthOr(d), HeightOr(d)))
    case Unexpanded(src, d) =>
      match urlFor(src)
      case Threw => None
      case Url(u) => if u == "" then None else Some(Resolved(u, WidthOr(d), HeightOr(d)))
  }

  /** Resolution of an image block, with everything it promises. */
  function ResolveImage(value: SanityImage, urlFor: UrlBuilder): (r: Option<Resolved>)
    ensures r.None? <==>
      value.asset.None? ||
      (!Truthy(value.asset.value.url) && (urlFor(value).Threw? || urlFor(value).url == ""))
    ensures value.asset.Some? && Truthy(value.asset.value.url) ==>
      r.Some? && r.value.url == value.asset.value.url.value
    ensures value.asset.Some? && !Truthy(value.asset.value.url) && r.Some? ==>
      urlFor(value) == Url(r.value.url)
    ensures r.Some? ==> r.value.url != ""
    ensures r.Some? ==>
      r.value.width == NumberOr(MetaWidth(value), DefaultWidth) &&
      r.value.height == NumberOr(MetaHeight(value), DefaultHeight)
  {
    Resolve(Classify(value), urlFor)
  }

  /** The rendered `<figure>`: image source, alt text, size and optional caption. */
  datatype Figure = Figure(src: string, alt: string, width: int, height: int, caption: Option<string>)

  function ToFigure(value: SanityImage, res: Resolved): Figure {
    Figure(res.url, StringOr(value.alt, DefaultAlt), res.width, res.height, ShownIfTruthy(value.caption))
  }

  /** What a body image block renders: a figure, or nothing. */
  function FigureFor(value: SanityImage, urlFor: UrlBuilder): (r: Option<Figure>)
    ensures r.Some? <==> ResolveImage(value, urlFor).Some?
    ensures r.Some? ==>
      var res := ResolveImage(value, urlFor).value;
      r.value.src == res.url && r.value.width == res.width && r.value.height == res.height &&
      (Truthy(value.alt) ==> r.value.alt == value.alt.value) &&
      (!Truthy(value.alt) ==> r.value.alt == DefaultAlt) &&
      (r.value.caption.Some? <==> Truthy(value.caption)) &&
      r.value.caption == ShownIfTruthy(value.caption)
  {
    match ResolveImage(value, urlFor)
    case None => None
    case Some(res) => Some(ToFigure(value, res))
  }

  /** A bare reference with no metadata gets the default 1200 by 800 dimensions whenever
      the builder yields a URL. */
  lemma BareReferenceGetsDefaultSize(ref: string, alt: Option<string>, caption: Option<string>, urlFor: UrlBuilder)
    requires var v := SanityImage(Some(Asset(ref, None, None)), alt, caption);
      urlFor(v).Url? && urlFor(v).url != ""
    ensures var v := SanityImage(Some(Asset(ref, None, None)), alt, caption);
      ResolveImage(v, urlFor) == Some(Resolved(urlFor(v).url, 1200, 800))
  {
  }

  /** Resolution never reports a failure to its caller: a throwing builder only makes the
      block empty, and a block whose asset has a direct URL does not consult the builder. */
  lemma DirectUrlIgnoresBuilder(value: SanityImage, f: UrlBuilder, g: UrlBuilder)
    requires value.asset.Some? && Truthy(value.asset.value.url)
    ensures FigureFor(value, f) == FigureFor(value, g)
  {
  }
}
