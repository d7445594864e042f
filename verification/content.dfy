/** The document shapes the layouts receive from the content store, and the image-URL
    builder they call. */
module Content {
  import opened Wrappers
  import PortableTextTable

  /** `asset.metadata.dimensions`; either side may be missing. */
  datatype Dimensions = Dimensions(width: Option<int>, height: Option<int>)
  datatype AssetMetadata = AssetMetadata(dimensions: Option<Dimensions>)

  /** An image asset as the query returns it: expanded (with `url` and usually `metadata`)
      or a bare reference, for which `url` is missing. */
  datatype Asset = Asset(ref: string, url: Option<string>, metadata: Option<AssetMetadata>)

  /** An image object (a body image block, a post's `mainImage`, an author's `image`). */
  datatype SanityImage = SanityImage(asset: Option<Asset>, alt: Option<string>, caption: Option<string>)

  /** One inline span of a text block; its marks are rendered by the rich-text library. */
  datatype Span = Span(text: string, marks: seq<string>)

  /** A block of a post's body. Text blocks carry their `style` ("normal", "h2", ...);
      `Other` is any block type the renderers were not written for. */
  datatype Block =
    | TextBlock(style: string, children: seq<Span>)
    | ImageBlock(image: SanityImage)
    | TableBlock(table: PortableTextTable.TableValue)
    | Other(typeName: string)

  datatype Author = Author(name: string, image: Option<SanityImage>, bio: Option<string>)

  /** The post a layout renders. */
  datatype Post = Post(
    id: string,
    title: string,
    mainImage: Option<SanityImage>,
    heroVideoUrl: Option<string>,
    body: seq<Block>,
    publishedAt: string,
    excerpt: Option<string>,
    author: Option<Author>)

  /** The reduced post the listing surfaces query (blog index and home-page carousel). */
  datatype PostSummary = PostSummary(
    id: string,
    title: string,
    slug: string,
    mainImage: Option<SanityImage>,
    publishedAt: string,
    authorName: Option<string>,
    excerpt: Option<string>)

  /** `urlForImage(src).url()`: an external builder that returns a string or throws. */
  datatype UrlOutcome = Url(url: string) | Threw
  type UrlBuilder = SanityImage -> UrlOutcome

  /** JavaScript truthiness of an optional string: present and not empty. */
  predicate Truthy(s: Option<string>) {
    s.Some? && s.value != ""
  }

  /** `x || fallback` for an optional number: 0 and a missing value both fall back. */
  function NumberOr(x: Option<int>, fallback: int): (r: int)
    ensures r == fallback || (x.Some? && r == x.value && r != 0)
    ensures (x.None? || x == Some(0)) ==> r == fallback
    ensures x.Some? && x.value != 0 ==> r == x.value
  {
    if x.Some? && x.value != 0 then x.value else fallback
  }

  /** `s || fallback` for an optional string. */
  function StringOr(s: Option<string>, fallback: string): (r: string)
    ensures Truthy(s) ==> r == s.value
    ensures !Truthy(s) ==> r == fallback
  {
    if Truthy(s) then s.value else fallback
  }

  /** `cond && <X/>` for an optional string: shown only when truthy. */
  function ShownIfTruthy(s: Option<string>): (r: Option<string>)
    ensures r.Some? <==> Truthy(s)
    ensures r.Some? ==> r.value == s.value
  {
    if Truthy(s) then s else None
  }

  /** Whether building the URL of an optional page-level image throws. Such calls sit
      outside any try/catch, so the throw aborts the whole render. */
  predicate ImageThrows(urlFor: UrlBuilder, img: Option<SanityImage>) {
    img.Some? && urlFor(img.value).Threw?
  }

  /** Every page-level image URL a layout builds: the main image, and the author's avatar. */
  predicate PageImagesThrow(post: Post, urlFor: UrlBuilder) {
    ImageThrows(urlFor, post.mainImage) ||
    (post.author.Some? && ImageThrows(urlFor, post.author.value.image))
  }
}
