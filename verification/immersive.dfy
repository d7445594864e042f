/** The immersive article layout (components/blog/layouts/ImmersiveLayout.tsx). */
module ImmersiveLayout {
  import opened Wrappers
  import opened Content
  import opened Browser
  import BodyImage
  import PortableBody
  import LayoutParts
  import PortableTextTable

  /** The layout's own `types.image` handler, with its try/catch: a throw from the URL
      builder is caught and the block renders nothing. */
  function ImmersiveImage(value: SanityImage, urlFor: UrlBuilder): (r: Option<BodyImage.Figure>)
    ensures r == BodyImage.FigureFor(value, urlFor)
  {
    if value.asset.None? then None
    else
      var asset := value.asset.value;
      var dims := BodyImage.AssetDims(asset);
      var width := NumberOr(if dims.Some? then dims.value.width else None, 1200);
      var height := NumberOr(if dims.Some? then dims.value.height else None, 800);
      var attempt := if Truthy(asset.url) then Url(asset.url.value) else urlFor(value);
      match attempt
      case Threw => None
      case Url(imageUrl) =>
        if imageUrl == "" then None
        else Some(BodyImage.Figure(imageUrl, StringOr(value.alt, "Blog post image"), width, height,
                                   if Truthy(value.caption) then value.caption else None))
  }

  /** `immersiveComponents`: the image handler and the shared table component. */
  const ImmersiveComponents := PortableBody.Components(ImmersiveImage, true, false)

  /** A body image renders a figure iff its reference resolves; a missing asset, a
      builder that throws or an empty URL leaves an empty block and nothing else breaks. */
  lemma UnresolvedImageRendersNothing(value: SanityImage, urlFor: UrlBuilder)
    ensures var n := PortableBody.RenderBlock(ImmersiveComponents, ImageBlock(value), urlFor);
      (n == PortableBody.Empty <==> BodyImage.ResolveImage(value, urlFor).None?) &&
      (n.FigureNode? ==> n.figure.src == BodyImage.ResolveImage(value, urlFor).value.url)
  {
  }

  /** A table block goes to the shared table renderer. */
  lemma ImmersiveRendersTables(t: PortableTextTable.TableValue, urlFor: UrlBuilder)
    ensures var n := PortableBody.RenderBlock(ImmersiveComponents, TableBlock(t), urlFor);
      (t.rows.Some? && |t.rows.value| > 0 ==> n.TableNode?) &&
      (t.rows.None? || |t.rows.value| == 0 ==> n.Empty?)
  {
  }

  /** The hero's background media. */
  datatype Hero =
    | VideoHero(src: string, poster: Option<string>)
    | ImageHero(src: string, alt: string)
    | GradientHero

  /** Video first, then the main image, then a gradient; the video's poster is the main
      image when there is one. */
  function ImmersiveHero(post: Post, urlFor: UrlBuilder): (r: Render<Hero>)
    ensures r.RenderError? <==> ImageThrows(urlFor, post.mainImage)
    ensures r.Rendered? ==>
      (r.view.VideoHero? <==> Truthy(post.heroVideoUrl)) &&
      (r.view.ImageHero? <==> !Truthy(post.heroVideoUrl) && post.mainImage.Some?) &&
      (r.view.GradientHero? <==> !Truthy(post.heroVideoUrl) && post.mainImage.None?)
    ensures r.Rendered? && r.view.VideoHero? ==>
      r.view.src == post.heroVideoUrl.value && (r.view.poster.Some? <==> post.mainImage.Some?)
    ensures r.Rendered? && r.view.ImageHero? ==>
      r.view.alt == post.title && urlFor(post.mainImage.value) == Url(r.view.src)
    ensures r.Rendered? && r.view.VideoHero? && post.mainImage.Some? ==>
      urlFor(post.mainImage.value) == Url(r.view.poster.value)
  {
    var image := LayoutParts.PageImageUrl(post.mainImage, urlFor);
    match image
    case RenderError => RenderError
    case Rendered(url) =>
      if Truthy(post.heroVideoUrl) then Rendered(VideoHero(post.heroVideoUrl.value, url))
      else if url.Some? then Rendered(ImageHero(url.value, post.title))
      else Rendered(GradientHero)
  }

  /** What the layout shows around the progress bar. */
  datatype ImmersivePage = ImmersivePage(
    hero: Hero,
    authorMeta: Option<LayoutParts.AuthorMeta>,
    title: string,
    excerpt: Option<string>,
    body: seq<PortableBody.Node>,
    authorCard: Option<Author>)

  function ImmersiveView(post: Post, urlFor: UrlBuilder): (r: Render<ImmersivePage>)
    ensures r.RenderError? <==> PageImagesThrow(post, urlFor)
    ensures r.Rendered? ==>
      Rendered(r.view.hero) == ImmersiveHero(post, urlFor) &&
      (r.view.authorMeta.Some? <==> post.author.Some?) &&
      Rendered(r.view.authorMeta) == LayoutParts.AuthorMetaFor(post.author, urlFor) &&
      r.view.authorCard == post.author &&
      r.view.title == post.title &&
      (r.view.excerpt.Some? <==> Truthy(post.excerpt)) &&
      r.view.excerpt == ShownIfTruthy(post.excerpt) &&
      r.view.body == PortableBody.RenderBody(ImmersiveComponents, post.body, urlFor)
  {
    match ImmersiveHero(post, urlFor)
    case RenderError => RenderError
    case Rendered(hero) =>
      match LayoutParts.AuthorMetaFor(post.author, urlFor)
      case RenderError => RenderError
      case Rendered(meta) =>
        Rendered(ImmersivePage(hero, meta, post.title, ShownIfTruthy(post.excerpt),
                               PortableBody.RenderBody(ImmersiveComponents, post.body, urlFor),
                               post.author))
  }

  /** A post with no style-specific media but a main image and an author renders an image
      hero (no video) and shows the author. */
  lemma ImageHeroWithAuthor(post: Post, urlFor: UrlBuilder)
    requires post.heroVideoUrl.None? && post.mainImage.Some? && post.author.Some?
    requires !PageImagesThrow(post, urlFor)
    ensures ImmersiveView(post, urlFor).Rendered?
    ensures ImmersiveView(post, urlFor).view.hero.ImageHero?
    ensures ImmersiveView(post, urlFor).view.authorMeta.Some?
    ensures ImmersiveView(post, urlFor).view.authorCard.Some?
  {
  }

  /** The component's scroll-derived state and its scroll-listener lifecycle. */
  class ImmersiveReader {
    var scrollY: real
    var readProgress: real
    const handler: Handler

    constructor (h: Handler)
      ensures scrollY == 0.0 && readProgress == 0.0 && handler == h
    {
      scrollY, readProgress := 0.0, 0.0;
      handler := h;
    }

    /** The effect: installs the scroll handler. */
    method Mount(w: Window)
      modifies w`scrollListeners
      ensures w.scrollListeners == old(w.scrollListeners) + {handler}
    {
      w.AddScrollListener(handler);
    }

    /** The effect's cleanup: removes the same handler. */
    method Unmount(w: Window)
      modifies w`scrollListeners
      ensures w.scrollListeners == old(w.scrollListeners) - {handler}
    {
      w.RemoveScrollListener(handler);
    }

    /** A scroll event on the window: only a registered handler runs, and it records the
        scroll offset and the capped progress. */
    method OnScroll(w: Window)
      requires w.scrollHeight - w.innerHeight > 0.0
      modifies this
      ensures handler in w.scrollListeners ==>
        scrollY == w.scrollY &&
        readProgress == LayoutParts.ReadProgress(w.scrollY, w.innerHeight, w.scrollHeight)
      ensures handler !in w.scrollListeners ==>
        scrollY == old(scrollY) && readProgress == old(readProgress)
      ensures readProgress <= 100.0 || readProgress == old(readProgress)
    {
      if handler in w.scrollListeners {
        scrollY := w.scrollY;
        var windowHeight := w.innerHeight;
        var documentHeight := w.scrollHeight - windowHeight;
        var progress := (w.scrollY / documentHeight) * 100.0;
        readProgress := if progress < 100.0 then progress else 100.0;
      }
    }
  }

  /** Mounting, scrolling and tearing down: the window ends with the listeners it started
      with, and a scroll after teardown no longer reaches the component. */
  method ScrollLifecycle(w: Window, reader: ImmersiveReader)
    requires reader.handler !in w.scrollListeners
    requires w.scrollHeight - w.innerHeight > 0.0
    modifies w`scrollListeners, reader
    ensures w.scrollListeners == old(w.scrollListeners)
    ensures reader.readProgress == LayoutParts.ReadProgress(w.scrollY, w.innerHeight, w.scrollHeight)
  {
    reader.Mount(w);
    reader.OnScroll(w);
    reader.Unmount(w);
    var before := reader.readProgress;
    reader.OnScroll(w);
    assert reader.readProgress == before;
  }
}
