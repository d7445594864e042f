/** The magazine article layout (components/blog/layouts/MagazineLayout.tsx). It has no
    state: no scroll listener, no video and no parallax. */
module MagazineLayout {
  import opened Wrappers
  import opened Content
  import BodyImage
  import PortableBody
  import PortableTextTable
  import LayoutParts

  /** The layout's own copy of the `types.image` handler. */
  function MagazineImage(value: SanityImage, urlFor: UrlBuilder): (r: Option<BodyImage.Figure>)
    ensures r == BodyImage.FigureFor(value, urlFor)
  {
    if value.asset.None? then None
    else
      var asset := value.asset.value;
      var dims := BodyImage.AssetDims(asset);
      var width := NumberOr(if dims.Some? then dims.value.width else None, 1200);
      var height := NumberOr(if dims.Some? then dims.value.height else None, 800);
      var attempt := if Truthy(asset.url) then Url(asset.url.value) else urlFor(value);
      match attempt
      case Threw => None
      case Url(imageUrl) =>
        if imageUrl == "" then None
        else Some(BodyImage.Figure(imageUrl, StringOr(value.alt, "Blog post image"), width, height,
                                   if Truthy(value.caption) then value.caption else None))
  }

  /** `magazineComponents`: the image handler, no table handler, and `block.normal`
      rendered as a plain paragraph around its children. */
  const MagazineComponents := PortableBody.Components(MagazineImage, false, true)

  /** A normal text block becomes a paragraph with its children unchanged; other styles
      keep the library's rendering; a table block has no handler. */
  lemma MagazineBlocks(children: seq<Span>, style: string, t: PortableTextTable.TableValue, urlFor: UrlBuilder)
    ensures PortableBody.RenderBlock(MagazineComponents, TextBlock("normal", children), urlFor) == PortableBody.Paragraph(children)
    ensures style != "normal" ==>
      PortableBody.RenderBlock(MagazineComponents, TextBlock(style, children), urlFor) == PortableBody.Library(style, children)
    ensures PortableBody.RenderBlock(MagazineComponents, TableBlock(t), urlFor) == PortableBody.Hidden("table")
  {
  }

  /** What the share button does: call the host's native share when it exists, with the
      post title and the page address; otherwise nothing. */
  datatype ShareEffect = NativeShare(title: string, url: string) | NoEffect

  function ShareClick(hasNativeShare: bool, title: string, href: string): (r: ShareEffect)
    ensures r.NativeShare? <==> hasNativeShare
    ensures r.NativeShare? ==> r.title == title && r.url == href
  {
    if hasNativeShare then NativeShare(title, href) else NoEffect
  }

  datatype MagazinePage = MagazinePage(
    heroImage: Option<string>,
    title: string,
    excerpt: Option<string>,
    authorBlock: Option<LayoutParts.AuthorMeta>,
    body: seq<PortableBody.Node>,
    authorCard: Option<Author>)

  function MagazineView(post: Post, urlFor: UrlBuilder): (r: Render<MagazinePage>)
    ensures r.RenderError? <==> PageImagesThrow(post, urlFor)
    ensures r.Rendered? ==>
      (r.view.heroImage.Some? <==> post.mainImage.Some?) &&
      (post.mainImage.Some? ==> urlFor(post.mainImage.value) == Url(r.view.heroImage.value)) &&
      r.view.title == post.title &&
      (r.view.excerpt.Some? <==> Truthy(post.excerpt)) &&
      r.view.excerpt == ShownIfTruthy(post.excerpt) &&
      (r.view.authorBlock.Some? <==> post.author.Some?) &&
      Rendered(r.view.authorBlock) == LayoutParts.AuthorMetaFor(post.author, urlFor) &&
      r.view.authorCard == post.author &&
      r.view.body == PortableBody.RenderBody(MagazineComponents, post.body, urlFor)
  {
    match LayoutParts.PageImageUrl(post.mainImage, urlFor)
    case RenderError => RenderError
    case Rendered(hero) =>
      match LayoutParts.AuthorMetaFor(post.author, urlFor)
      case RenderError => RenderError
      case Rendered(meta) =>
        Rendered(MagazinePage(hero, post.title, ShownIfTruthy(post.excerpt), meta,
                              PortableBody.RenderBody(MagazineComponents, post.body, urlFor),
                              post.author))
  }

  /** The hero is a static image: a hero video on the post changes nothing. */
  lemma MagazineIgnoresHeroVideo(post: Post, video: Option<string>, urlFor: UrlBuilder)
    ensures MagazineView(post.(heroVideoUrl := video), urlFor) == MagazineView(post, urlFor)
  {
  }
}
