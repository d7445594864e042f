/** The minimal article layout (components/blog/layouts/MinimalLayout.tsx). */
module MinimalLayout {
  import opened Wrappers
  import opened Content
  import opened Browser
  import BodyImage
  import PortableBody
  import PortableTextTable
  import LayoutParts

  /** The layout's own copy of the `types.image` handler. */
  function MinimalImage(value: SanityImage, urlFor: UrlBuilder): (r: Option<BodyImage.Figure>)
    ensures r == BodyImage.FigureFor(value, urlFor)
  {
    if value.asset.None? then None
    else
      var asset := value.asset.value;
      var dims := BodyImage.AssetDims(asset);
      var width := NumberOr(if dims.Some? then dims.value.width else None, 1200);
      var height := NumberOr(if dims.Some? then dims.value.height else None, 800);
      var attempt := if Truthy(asset.url) then Url(asset.url.value) else urlFor(value);
      match attempt
      case Threw => None
      case Url(imageUrl) =>
        if imageUrl == "" then None
        else Some(BodyImage.Figure(imageUrl, StringOr(value.alt, "Blog post image"), width, height,
                                   if Truthy(value.caption) then value.caption else None))
  }

  /** `minimalComponents` registers only the image handler: a table block has no handler
      in this layout. */
  const MinimalComponents := PortableBody.Components(MinimalImage, false, false)

  lemma MinimalHidesTables(t: PortableTextTable.TableValue, urlFor: UrlBuilder)
    ensures PortableBody.RenderBlock(MinimalComponents, TableBlock(t), urlFor) == PortableBody.Hidden("table")
  {
  }

  datatype MinimalPage = MinimalPage(
    title: string,
    excerpt: Option<string>,
    byline: Option<LayoutParts.AuthorMeta>,
    featuredImage: Option<string>,
    body: seq<PortableBody.Node>,
    authorCard: Option<Author>)

  /** The excerpt, byline, featured image and author card each appear only when the post
      has the corresponding field. */
  function MinimalView(post: Post, urlFor: UrlBuilder): (r: Render<MinimalPage>)
    ensures r.RenderError? <==> PageImagesThrow(post, urlFor)
    ensures r.Rendered? ==>
      r.view.title == post.title &&
      (r.view.excerpt.Some? <==> Truthy(post.excerpt)) &&
      r.view.excerpt == ShownIfTruthy(post.excerpt) &&
      (r.view.byline.Some? <==> post.author.Some?) &&
      Rendered(r.view.byline) == LayoutParts.AuthorMetaFor(post.author, urlFor) &&
      (r.view.featuredImage.Some? <==> post.mainImage.Some?) &&
      (post.mainImage.Some? ==> urlFor(post.mainImage.value) == Url(r.view.featuredImage.value)) &&
      r.view.authorCard == post.author &&
      r.view.body == PortableBody.RenderBody(MinimalComponents, post.body, urlFor)
  {
    match LayoutParts.AuthorMetaFor(post.author, urlFor)
    case RenderError => RenderError
    case Rendered(byline) =>
      match LayoutParts.PageImageUrl(post.mainImage, urlFor)
      case RenderError => RenderError
      case Rendered(featured) =>
        Rendered(MinimalPage(post.title, ShownIfTruthy(post.excerpt), byline, featured,
                             PortableBody.RenderBody(MinimalComponents, post.body, urlFor),
                             post.author))
  }

  /** The component's `readProgress` state and its scroll-listener lifecycle. */
  class MinimalReader {
    var readProgress: real
    const handler: Handler

    constructor (h: Handler)
      ensures readProgress == 0.0 && handler == h
    {
      readProgress := 0.0;
      handler := h;
    }

    method Mount(w: Window)
      modifies w`scrollListeners
      ensures w.scrollListeners == old(w.scrollListeners) + {handler}
    {
      w.AddScrollListener(handler);
    }

    method Unmount(w: Window)
      modifies w`scrollListeners
      ensures w.scrollListeners == old(w.scrollListeners) - {handler}
    {
      w.RemoveScrollListener(handler);
    }

    method OnScroll(w: Window)
      requires w.scrollHeight - w.innerHeight > 0.0
      modifies this
      ensures handler in w.scrollListeners ==>
        readProgress == LayoutParts.ReadProgress(w.scrollY, w.innerHeight, w.scrollHeight)
      ensures handler !in w.scrollListeners ==> readProgress == old(readProgress)
    {
      if handler in w.scrollListeners {
        var windowHeight := w.innerHeight;
        var documentHeight := w.scrollHeight - windowHeight;
        var progress := (w.scrollY / documentHeight) * 100.0;
        readProgress := if progress < 100.0 then progress else 100.0;
      }
    }
  }
}
