/** Pieces the three article layouts share: the reading-progress derivation, the author
    attribution guard and the page-level image URLs (built outside any try/catch). */
module LayoutParts {
  import opened Wrappers
  import opened Content

  /** The share of the scrollable height already scrolled, as a percentage capped at 100.
      Only the upper end is clamped. */
  function ReadProgress(scrollY: real, innerHeight: real, scrollHeight: real): (r: real)
    requires scrollHeight - innerHeight > 0.0
    ensures r <= 100.0
    ensures r == 100.0 <==> scrollY >= scrollHeight - innerHeight
    ensures r < 0.0 <==> scrollY < 0.0
    ensures 0.0 <= scrollY ==> 0.0 <= r
    ensures r < 100.0 ==> r * (scrollHeight - innerHeight) == 100.0 * scrollY
  {
    var documentHeight := scrollHeight - innerHeight;
    var progress := (scrollY / documentHeight) * 100.0;
    if progress < 100.0 then progress else 100.0
  }

  /** Scrolling further never lowers the progress. */
  lemma ReadProgressMonotone(y1: real, y2: real, innerHeight: real, scrollHeight: real)
    requires scrollHeight - innerHeight > 0.0
    requires y1 <= y2
    ensures ReadProgress(y1, innerHeight, scrollHeight) <= ReadProgress(y2, innerHeight, scrollHeight)
  {
    var d := scrollHeight - innerHeight;
    assert y1 / d <= y2 / d by {
      assert y1 / d * d == y1 && y2 / d * d == y2;
    }
  }

  /** The URL of an optional page-level image: nothing when the image is absent, and an
      aborted render when the builder throws. */
  function PageImageUrl(img: Option<SanityImage>, urlFor: UrlBuilder): (r: Render<Option<string>>)
    ensures r.RenderError? <==> ImageThrows(urlFor, img)
    ensures r.Rendered? ==> (r.view.Some? <==> img.Some?)
    ensures r.Rendered? && img.Some? ==> urlFor(img.value) == Url(r.view.value)
  {
    match img
    case None => Rendered(None)
    case Some(i) =>
      match urlFor(i)
      case Threw => RenderError
      case Url(u) => Rendered(Some(u))
  }

  /** The author attribution near the title: the name, and the avatar when the author has
      an image. */
  datatype AuthorMeta = AuthorMeta(name: string, avatar: Option<string>)

  /** The author meta block: present only with an author, with an avatar only when the
      author has an image. */
  function AuthorMetaFor(author: Option<Author>, urlFor: UrlBuilder): (r: Render<Option<AuthorMeta>>)
    ensures r.RenderError? <==> author.Some? && ImageThrows(urlFor, author.value.image)
    ensures r.Rendered? ==> (r.view.Some? <==> author.Some?)
    ensures r.Rendered? && author.Some? ==>
      r.view.value.name == author.value.name &&
      (r.view.value.avatar.Some? <==> author.value.image.Some?)
    ensures r.Rendered? && author.Some? && author.value.image.Some? ==>
      urlFor(author.value.image.value) == Url(r.view.value.avatar.value)
  {
    match author
    case None => Rendered(None)
    case Some(a) =>
      match PageImageUrl(a.image, urlFor)
      case RenderError => RenderError
      case Rendered(avatar) => Rendered(Some(AuthorMeta(a.name, avatar)))
  }
}
