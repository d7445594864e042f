# Blog rendering, carousel and asset naming of the Fawkes Energy site, in Dafny

This project models the decision logic of the Fawkes Energy marketing site:

- the home-page blog carousel (`BlogSection`): its fetched posts, loading flag, window
  size and wrapping index, as a class whose methods are the arrow, dot and resize handlers;
- the shared table block renderer (`PortableTextTable`);
- the three article layouts (Immersive, Minimal, Magazine): each layout's copy of the
  body-image handler, proved equal to one resolver over a tagged union of reference
  shapes; their component tables; hero, excerpt, author and featured-image guards; the
  reading-progress state kept by a scroll listener with its install/remove lifecycle;
  and the Magazine share button;
- the blog index page: the fetch fallback, the featured/remaining split and the section
  guards;
- the video compression script's file naming: the output names of the four encodings,
  the poster name, the three clean-up replaces and the video-extension filter;
- the product section: asset names derived from product names, the poster rule, the
  ordered video sources, icons, column alternation and the mobile breakpoint.

External collaborators are parameters. The image-URL builder `urlForImage(x).url()` is a
function `SanityImage -> UrlOutcome` that returns a URL or throws. A content-store query
is a `FetchOutcome` that is either the data or a failure. The browser window is a
`Browser.Window` object holding the viewport metrics and the registered scroll and resize
handlers. A builder call inside the body-image handler's try/catch yields an empty block
when it throws. A builder call elsewhere (hero, avatar, featured image) is outside any
try/catch, so a throw there makes the whole layout fail (`RenderError`).

Three behaviours of the code a reader might not expect; the model follows the code:

- A dot sets the carousel index to the dot's own number (not `idx * visibleCards`).
  See Findings.
- Reading progress is capped at 100 but has no lower clamp.
- Minimal registers no table handler, just like Magazine.

## Model

| member | source | states |
|---|---|---|
| `PortableTextTable.RenderTable` | components/blog/shared/PortableTextTable.tsx:12-51 | no output iff the value or its rows are missing or there are no rows; otherwise header has the first row's width and the body has one row fewer than the input |
| `PortableTextTable.HeaderCells` | components/blog/shared/PortableTextTable.tsx:24-31 | one header cell per cell of the first row, keyed by position, in order |
| `PortableTextTable.RenderRow` | components/blog/shared/PortableTextTable.tsx:36-47 | a body row keeps its key and exactly its own cells, keyed by position, with no padding or truncation |
| `PortableTextTable.RenderRows` | components/blog/shared/PortableTextTable.tsx:35-48 | one rendered row per input row, in order |
| `PortableTextTable.RenderedGridIsAuthoredGrid` | components/blog/shared/PortableTextTable.tsx:17-47 | reading the rendered header and body back gives exactly the authored grid of cells, rows and cells in order |
| `PortableTextTable.BodyRowsAreTail` | components/blog/shared/PortableTextTable.tsx:17-39 | the body is rows[1..]: one row fewer, keys in order |
| `PortableTextTable.SingleRowTable` | components/blog/shared/PortableTextTable.tsx:17 | a one-row table renders a header and an empty body |
| `PortableTextTable.MetricTableExample` | components/blog/shared/PortableTextTable.tsx:17-47 | header ["Metric","Value"] and one row ["SOH","92%"] give one header row and one body row, in order |
| `Content.NumberOr` | components/blog/layouts/ImmersiveLayout.tsx:49-50 | `x \|\| fallback` on a number: missing and 0 both give the fallback, any other present value is returned as it is |
| `Content.StringOr` | components/blog/layouts/ImmersiveLayout.tsx:67 | `s \|\| fallback` on a string: missing and empty both give the fallback |
| `Content.ShownIfTruthy` | components/blog/layouts/ImmersiveLayout.tsx:202-208 | an optional text is shown iff it is present and non-empty, unchanged |
| `BodyImage.Classify` | components/blog/layouts/ImmersiveLayout.tsx:36-56 | an image block is NoAsset iff it has no asset, Expanded iff its asset has a non-empty direct URL (kept as it is), otherwise an unexpanded reference |
| `BodyImage.ResolveImage` | components/blog/layouts/ImmersiveLayout.tsx:36-60 | nothing iff no asset, or no direct URL and the builder throws or gives ""; a direct URL is used unchanged and the builder's URL otherwise; the URL is never empty; width and height fall back to 1200 and 800 when missing or 0, on both paths |
| `BodyImage.FigureFor` | components/blog/layouts/ImmersiveLayout.tsx:35-86 | a figure iff the reference resolves; it carries the resolved URL and size, the alt text or "Blog post image", and exactly the post's caption when it is truthy, otherwise none |
| `BodyImage.BareReferenceGetsDefaultSize` | components/blog/layouts/ImmersiveLayout.tsx:51-55 | a bare reference without metadata resolves to the builder's URL at 1200 by 800 |
| `BodyImage.DirectUrlIgnoresBuilder` | components/blog/layouts/ImmersiveLayout.tsx:46-48 | a block whose asset has a direct URL renders the same whatever the builder does |
| `PortableBody.RenderBlock` | components/blog/layouts/ImmersiveLayout.tsx:224 | unknown block types, and tables in a layout without a table handler, render as the library's hidden placeholder; an image block renders nothing iff the layout's image handler returns nothing, else exactly its figure; a registered table renders nothing iff it has no rows, and otherwise exactly the table renderer's view; a text block is a plain paragraph iff its style is "normal" and the layout overrides that style, otherwise the library's block of the same style, with its children unchanged in both cases |
| `PortableBody.RenderBody` | components/blog/layouts/ImmersiveLayout.tsx:224 | one node per block, in the body's order |
| `PortableBody.RenderBodyAppend` | components/blog/layouts/MinimalLayout.tsx:201 | rendering a concatenated body is concatenating the renderings |
| `LayoutParts.ReadProgress` | components/blog/layouts/ImmersiveLayout.tsx:100-103 | progress is at most 100; below the cap it is exactly 100·scrollY/(scrollHeight − innerHeight); it is exactly 100 iff the reader has scrolled the whole document height; it is negative iff scrollY is negative (no lower clamp) |
| `LayoutParts.ReadProgressMonotone` | components/blog/layouts/MinimalLayout.tsx:93-96 | scrolling further never lowers the progress |
| `LayoutParts.PageImageUrl` | components/blog/layouts/MinimalLayout.tsx:172-184 | a page-level image yields a URL iff present; a throwing builder aborts the render |
| `LayoutParts.AuthorMetaFor` | components/blog/layouts/ImmersiveLayout.tsx:168-182 | the author block appears iff there is an author, with the author's name and an avatar iff the author has an image; the avatar is the builder's URL for the author's image, and a throw there aborts the render |
| `ImmersiveLayout.ImmersiveImage` | components/blog/layouts/ImmersiveLayout.tsx:35-86 | the layout's own image handler equals the shared resolver's figure |
| `ImmersiveLayout.UnresolvedImageRendersNothing` | components/blog/layouts/ImmersiveLayout.tsx:35-86 | a body image block renders nothing iff its reference does not resolve, and otherwise shows the resolved URL |
| `ImmersiveLayout.ImmersiveRendersTables` | components/blog/layouts/ImmersiveLayout.tsx:87 | a table block goes to the shared table renderer: a table when it has rows, nothing when it has none |
| `ImmersiveLayout.ImmersiveHero` | components/blog/layouts/ImmersiveLayout.tsx:127-148 | video iff a hero video URL is set; else image iff a main image exists; else gradient; the video's poster is set iff a main image exists; the image hero and the poster are the builder's URL for the main image, the image hero's alt is the title |
| `ImmersiveLayout.ImmersiveView` | components/blog/layouts/ImmersiveLayout.tsx:110-253 | fails iff a page-level image URL throws; the hero as above; the title is the post's title; the excerpt is shown iff non-empty, with the post's text; the author meta is the author block above, present iff an author; the author card is the post's author; body rendered with the immersive components |
| `ImmersiveLayout.ImageHeroWithAuthor` | components/blog/layouts/ImmersiveLayout.tsx:127-182 | no video, a main image and an author give an image hero and a visible author |
| `ImmersiveLayout.ImmersiveReader.constructor` | components/blog/layouts/ImmersiveLayout.tsx:92-93 | scroll offset and progress start at 0 |
| `ImmersiveLayout.ImmersiveReader.Mount` | components/blog/layouts/ImmersiveLayout.tsx:106 | the scroll handler is added to the window |
| `ImmersiveLayout.ImmersiveReader.Unmount` | components/blog/layouts/ImmersiveLayout.tsx:107 | the same handler is removed |
| `ImmersiveLayout.ImmersiveReader.OnScroll` | components/blog/layouts/ImmersiveLayout.tsx:96-104 | a registered handler records scrollY and the capped progress; an unregistered one changes nothing |
| `ImmersiveLayout.ScrollLifecycle` | components/blog/layouts/ImmersiveLayout.tsx:95-108 | mount, scroll, unmount leaves the window's listeners as they were; a scroll after unmount leaves the progress at what the mounted scroll computed |
| `MinimalLayout.MinimalImage` | components/blog/layouts/MinimalLayout.tsx:33-84 | the layout's own image handler equals the shared resolver's figure |
| `MinimalLayout.MinimalHidesTables` | components/blog/layouts/MinimalLayout.tsx:31-86 | no table handler is registered: a table block renders the hidden placeholder |
| `MinimalLayout.MinimalView` | components/blog/layouts/MinimalLayout.tsx:103-226 | fails iff a page-level image URL throws; the title is the post's title; the excerpt is shown iff non-empty, with the post's text; the byline is the author block, present iff an author; the featured image is present iff a main image, with the builder's URL for it; the author card is the post's author; body rendered with the minimal components |
| `MinimalLayout.MinimalReader.constructor` | components/blog/layouts/MinimalLayout.tsx:89 | progress starts at 0 |
| `MinimalLayout.MinimalReader.Mount` | components/blog/layouts/MinimalLayout.tsx:99 | the scroll handler is added |
| `MinimalLayout.MinimalReader.Unmount` | components/blog/layouts/MinimalLayout.tsx:100 | the same handler is removed |
| `MinimalLayout.MinimalReader.OnScroll` | components/blog/layouts/MinimalLayout.tsx:92-97 | a registered handler records the capped progress; an unregistered one changes nothing |
| `MagazineLayout.MagazineImage` | components/blog/layouts/MagazineLayout.tsx:33-84 | the layout's own image handler equals the shared resolver's figure |
| `MagazineLayout.MagazineBlocks` | components/blog/layouts/MagazineLayout.tsx:31-92 | a normal block becomes a paragraph around its children unchanged, other styles keep the library rendering, a table block has no handler |
| `MagazineLayout.ShareClick` | components/blog/layouts/MagazineLayout.tsx:109 | native share is called, with the title and page address, iff the host provides it; otherwise nothing happens |
| `MagazineLayout.MagazineView` | components/blog/layouts/MagazineLayout.tsx:94-233 | fails iff a page-level image URL throws; the hero image is present iff a main image, with the builder's URL for it; the title is the post's title; the excerpt is shown iff non-empty, with the post's text; the author block is present iff an author, with the author's name and avatar; the author card is the post's author; body rendered with the magazine components |
| `MagazineLayout.MagazineIgnoresHeroVideo` | components/blog/layouts/MagazineLayout.tsx:117-129 | the hero is a static image: a hero video on the post changes nothing |
| `BlogCarousel.VisibleCards` | components/sections/BlogSection.tsx:61-66 | 1 below 768, 2 from 768 below 1024, 3 from 1024 and with no window; always 1 to 3 |
| `BlogCarousel.VisibleCardsMonotone` | components/sections/BlogSection.tsx:61-66 | a wider viewport never shows fewer cards |
| `BlogCarousel.PrevIndex` | components/sections/BlogSection.tsx:52-54 | for an index among n posts, the previous index is (i - 1) mod n |
| `BlogCarousel.NextIndex` | components/sections/BlogSection.tsx:56-58 | for an index among n posts, the next index is (i + 1) mod n |
| `BlogCarousel.TransitionsStayInRange` | components/sections/BlogSection.tsx:52-58 | previous and next keep an index in [0, n) |
| `BlogCarousel.PrevNextInverse` | components/sections/BlogSection.tsx:52-58 | previous undoes next and next undoes previous |
| `BlogCarousel.NextNCompose` | components/sections/BlogSection.tsx:56-58 | a+b presses of next are a presses followed by b presses |
| `BlogCarousel.NextNAdvances` | components/sections/BlogSection.tsx:56-58 | k presses that do not reach the last post advance by exactly k |
| `BlogCarousel.NextNCycle` | components/sections/BlogSection.tsx:56-58 | n presses of next return to the starting index |
| `BlogCarousel.DotCount` | components/sections/BlogSection.tsx:185 | the dot count d is ceil(n/v): (d-1)*v < n <= d*v |
| `BlogCarousel.ActiveDot` | components/sections/BlogSection.tsx:190 | the highlighted dot d of index i is the page holding it: d*v <= i < (d+1)*v |
| `BlogCarousel.ActiveDotInRange` | components/sections/BlogSection.tsx:185-191 | the highlighted dot floor(i/v) is a real dot, and there are never more dots than posts |
| `BlogCarousel.SevenPostsThreeDots` | components/sections/BlogSection.tsx:185 | seven posts three at a time give three dots |
| `BlogCarousel.SelectDotHighlightsWrongDot` | components/sections/BlogSection.tsx:188-190 | as written, clicking a dot past the first with 2 or 3 cards per view highlights a different dot |
| `BlogCarousel.PageStartHighlightsPage` | components/sections/BlogSection.tsx:185-190 | jumping to page*v highlights the clicked dot and still names a post |
| `BlogCarousel.BlogSection.constructor` | components/sections/BlogSection.tsx:24-68 | no posts, index 0, loading, three cards |
| `BlogCarousel.BlogSection.FetchSettled` | components/sections/BlogSection.tsx:40-47 | posts become the fetched data, or [] on failure; loading ends either way |
| `BlogCarousel.BlogSection.HandlePrevious` | components/sections/BlogSection.tsx:52-54 | the index moves to the previous post, wrapping 0 to n-1, and stays valid |
| `BlogCarousel.BlogSection.HandleNext` | components/sections/BlogSection.tsx:56-58 | the index moves to the next post, wrapping n-1 to 0, and stays valid |
| `BlogCarousel.BlogSection.SelectDot` | components/sections/BlogSection.tsx:188 | the index becomes the dot number itself, which still names a post |
| `BlogCarousel.BlogSection.JumpToPage` | components/sections/BlogSection.tsx:185-190 | the corrected dot click: the index becomes the first post of the clicked page, and the clicked dot is the highlighted one |
| `BlogCarousel.BlogSection.HandleResize` | components/sections/BlogSection.tsx:71 | the window size follows the viewport width |
| `BlogCarousel.BlogSection.Mount` | components/sections/BlogSection.tsx:70-73 | sizes the window once, then adds the resize handler |
| `BlogCarousel.BlogSection.Unmount` | components/sections/BlogSection.tsx:74 | removes the same resize handler |
| `BlogCarousel.BlogSection.View` | components/sections/BlogSection.tsx:77-199 | loading while the fetch is pending; "No posts yet" iff loaded with no posts; otherwise the carousel of the posts at the current index and window size, controls iff n > v, ceil(n/v) dots, and dot floor(i/v) highlighted, which is a real dot |
| `BlogCarousel.FailedFetchShowsEmptyState` | components/sections/BlogSection.tsx:42-99 | a failed fetch shows the "No posts yet" state, not the carousel |
| `VideoNames.ReplaceUnsafe` | scripts/compress-videos.js:110 | every character outside [a-zA-Z0-9-] becomes a hyphen, the rest stay; the result is all safe characters |
| `VideoNames.CollapseHyphens` | scripts/compress-videos.js:111 | no two adjacent hyphens remain; safe input stays safe; first and last characters are kept (content: CollapseKeepsSegments) |
| `VideoNames.CollapseKeepsContent` | scripts/compress-videos.js:111 | collapsing keeps every non-hyphen character, in order |
| `VideoNames.CollapseFixesSingleHyphens` | scripts/compress-videos.js:111 | a name without doubled hyphens is unchanged |
| `VideoNames.TrimEdgeHyphens` | scripts/compress-videos.js:112 | after collapsing, no leading or trailing hyphen remains; safety and single hyphens are kept; a name without edge hyphens is unchanged (content: TrimKeepsSegments) |
| `VideoNames.Clean` | scripts/compress-videos.js:110-112 | the result has only [a-zA-Z0-9-], no doubled hyphen and no edge hyphen (content: CleanIsJoinedSegments) |
| `VideoNames.CleanFixesCleanNames` | scripts/compress-videos.js:110-112 | an already clean name passes through unchanged |
| `VideoNames.CleanIdempotent` | scripts/compress-videos.js:110-112 | cleaning twice equals cleaning once |
| `VideoNames.CollapseKeepsSegments` | scripts/compress-videos.js:111 | collapsing hyphen runs keeps exactly the same hyphen-free pieces, in order |
| `VideoNames.TrimKeepsSegments` | scripts/compress-videos.js:112 | trimming the edge hyphens keeps exactly the same pieces |
| `VideoNames.JoinSegments` | scripts/compress-videos.js:110-112 | a name without doubled or edge hyphens is its pieces joined by single hyphens |
| `VideoNames.CleanIsJoinedSegments` | scripts/compress-videos.js:110-112 | the clean-up of a name is the hyphen-free pieces of its unsafe-to-hyphen replacement, joined by single hyphens |
| `VideoNames.ParseName` | scripts/compress-videos.js:106 | the whole entry iff it has no dot, its only dot is its first character, or it is ".."; otherwise the entry cut just before its last dot |
| `VideoNames.ParseNameLeadingDots` | scripts/compress-videos.js:106 | "..mp4" gives ".", "..." gives "..", and ".." stays whole |
| `VideoNames.ParseNameHiddenAndDotted` | scripts/compress-videos.js:106 | ".hidden" stays whole and "a.b.mp4" gives "a.b" |
| `VideoNames.ShortName` | scripts/compress-videos.js:106-112 | the short name is clean |
| `VideoNames.OptimizedFilename` | scripts/compress-videos.js:105-115 | the output name starts with the clean short name and ends with the format's suffix, a dot and its extension, with nothing in between |
| `VideoNames.OptimizedFilenameParts` | scripts/compress-videos.js:105-115 | an output name splits back into the clean short name, the format suffix, a dot and the extension |
| `VideoNames.OutputNamesDistinct` | scripts/compress-videos.js:12-115 | the four configured encodings of one file get four different names |
| `VideoNames.PosterName` | scripts/compress-videos.js:123-130 | the poster name is the same short name followed by "-poster.jpg" |
| `VideoNames.AsciiLower` | scripts/compress-videos.js:97 | ASCII capitals become lower case, every other character is kept |
| `VideoNames.IsVideoFile` | scripts/compress-videos.js:93-97 | a file is a video iff its lower-cased last extension (from the last dot) is .mp4, .mov, .avi, .mkv or .webm |
| `VideoNames.VideoSuffixIsLastExtension` | scripts/compress-videos.js:93-97 | the script's lower-cased suffix test agrees, for every name, with the lower-cased last extension being a video extension |
| `VideoNames.FilterVideos` | scripts/compress-videos.js:95-99 | a file is kept iff its lower-cased name ends with .mp4, .mov, .avi, .mkv or .webm; a one-entry listing is kept iff that entry is a video |
| `VideoNames.FilterVideosAppend` | scripts/compress-videos.js:95-99 | filtering a concatenated listing concatenates the filtered parts, so kept entries stay in listing order |
| `VideoNames.GetVideoFiles` | scripts/compress-videos.js:86-100 | a missing directory gives no files; otherwise exactly the video files of the listing, in listing order (the filter above) |
| `VideoNames.FilterKeepsAllVideos` | scripts/compress-videos.js:95-99 | a listing of videos only is kept whole and in order |
| `VideoNames.UpperCaseExtensionAccepted` | scripts/compress-videos.js:93-97 | "Intro.MP4" is a video |
| `VideoNames.ImageRejected` | scripts/compress-videos.js:93-97 | "poster.jpg" is not a video |
| `ProductStack.RemoveWhitespace` | components/sections/ProductStackSection.tsx:32 | no whitespace remains; a name without whitespace is unchanged; one character is dropped iff it is whitespace |
| `ProductStack.RemoveWhitespaceAppend` | components/sections/ProductStackSection.tsx:32 | removal on a concatenation is the concatenation of the removals, so every other character stays, in order |
| `ProductStack.VideoName` | components/sections/ProductStackSection.tsx:31-33 | the video name has no whitespace and no capital letters |
| `ProductStack.VideoNameAppend` | components/sections/ProductStackSection.tsx:31-33 | the name is derived character by character: whitespace dropped, everything else lower-cased, order kept |
| `ProductStack.ArcVideoName` | components/sections/ProductStackSection.tsx:31-33 | the configured product "FawkesArc" gets the video name "fawkesarc" |
| `ProductStack.VideoNameIdempotent` | components/sections/ProductStackSection.tsx:31-33 | deriving the video name twice changes nothing |
| `ProductStack.PosterPath` | components/sections/ProductStackSection.tsx:35-42 | "/images/" + video name + "-poster.png" iff the name is "fawkesarc", "-poster.jpg" otherwise |
| `ProductStack.ArcPosterIsPng` | components/sections/ProductStackSection.tsx:35-42 | the "FawkesArc" product's poster is "/images/fawkesarc-poster.png" |
| `ProductStack.VideoSources` | components/sections/ProductStackSection.tsx:44-66 | four sources on mobile, two on desktop; the mobile list ends with the desktop list |
| `ProductStack.SourcesAreScriptFormats` | components/sections/ProductStackSection.tsx:44-66 | mobile offers the mobile WebM, mobile MP4, WebM and MP4 encodings in that order; desktop offers WebM then MP4 |
| `ProductStack.SourceIsScriptOutput` | components/sections/ProductStackSection.tsx:51-63 | each source names the file the compression script writes for that encoding |
| `ProductStack.GetIcon` | components/sections/ProductStackSection.tsx:21-29 | an icon iff the name is Zap, Brain, RefreshCw or Target, and each of those names gets its own icon |
| `ProductStack.EveryProductHasIcon` | lib/data.ts:550-571 | every configured product's icon name has an icon |
| `ProductStack.ColumnsAlternate` | components/sections/ProductStackSection.tsx:79-91 | consecutive products alternate the column swap |
| `ProductStack.BreakpointsDisagreeAt768` | components/sections/ProductStackSection.tsx:14 | 768px counts as mobile here while the carousel shows two cards; at every other width, mobile iff the carousel shows one card |
| `ProductStack.ProductStackSection.constructor` | components/sections/ProductStackSection.tsx:10 | starts as not mobile |
| `ProductStack.ProductStackSection.CheckMobile` | components/sections/ProductStackSection.tsx:13-15 | mobile iff the width is at most 768 |
| `ProductStack.ProductStackSection.Mount` | components/sections/ProductStackSection.tsx:12-17 | checks once, then adds the resize handler |
| `ProductStack.ProductStackSection.Unmount` | components/sections/ProductStackSection.tsx:18 | removes the same handler |
| `ProductStack.ProductStackSection.Sources` | components/sections/ProductStackSection.tsx:47-65 | the product's sources for the current viewport: the four mobile-first sources when mobile, the two desktop ones otherwise |
| `BlogIndex.GetPosts` | app/blog/page.tsx:17-34 | the fetched posts, or [] when the query fails |
| `BlogIndex.CardImageFor` | app/blog/page.tsx:98-113 | the placeholder iff the post has no main image |
| `BlogIndex.Remaining` | app/blog/page.tsx:38-39 | [posts[0]] + remaining == posts for a non-empty list |
| `BlogIndex.Cards` | app/blog/page.tsx:163-206 | one card per remaining post, in order, each with its image or placeholder |
| `BlogIndex.IndexPage` | app/blog/page.tsx:66-227 | "Coming Soon" iff no posts; otherwise the first post featured, "More Articles" iff at least two posts, the call-to-action iff exactly one; the featured card and each "More Articles" card carry their post and its `CardImageFor` image (the placeholder exactly when `mainImage` is missing), in query order |
| `BlogIndex.ListingCoversEveryPost` | app/blog/page.tsx:38-39 | featured then more-articles cards list every post once, in query order |
| `BlogIndex.FailedFetchShowsComingSoon` | app/blog/page.tsx:27-66 | a failed query shows the "Coming Soon" state |

## Left out

- The layout selector (style tag to layout), the reading-time estimator, the author card
  and the post page are not part of this model. Their code is not among the modelled files.
- Date formatting (`toLocaleDateString`), CSS classes, `Image`/`Link` props and other JSX styling.
- The parallax offset `scrollY * 0.3` and the carousel's `translateX` percentage.
- `LayoutParts.ReadProgress`: requires a scrollable page (`scrollHeight - innerHeight > 0`). The
  division by zero and NaN progress on a page that cannot scroll are not modelled.
- `ImmersiveLayout.ImmersiveReader.OnScroll`: same requirement as ReadProgress.
- `MinimalLayout.MinimalReader.OnScroll`: same requirement as ReadProgress.
- `urlForImage` is an uninterpreted parameter. Listing cards (carousel and blog index) keep
  the card's image source and do not build its URL.
- Content-store queries, their ordering and the carousel's six-post limit: a query is
  modelled only as data or failure.
- The rich-text library: marks, lists and its default rendering of text blocks are
  summarised as `Library` nodes. Unregistered block types are summarised as `Hidden` nodes.
- `VideoNames.ShortName`: the first replace (a lazy-match regex that shortens one asset
  name) is the abstract parameter `rewrite`.
- `VideoNames.AsciiLower`: lower-cases ASCII letters only. JavaScript's `toLowerCase` also maps
  other letters, some of them to ASCII (the Kelvin sign becomes "k").
- `ProductStack.VideoName`: same ASCII-only lower-casing as AsciiLower.
- `VideoNames.ParseName`: takes bare directory entries only; entries containing "/" (and the directory part of `path.parse`) are not modelled.
- `compressAllVideos`, `compressVideo`, `generatePosterImage` and `ensureOutputDir` run
  ffmpeg and touch the filesystem. Their codec options, size totals and reduction
  percentages are not modelled; only the names they use are.
- `MagazineLayout.ShareClick`: whether `navigator.share` exists is a boolean parameter. The
  promise it returns (and its rejection when the user cancels) is not modelled.
- Numbers from the content store are integers: NaN widths are not modelled.
- The contact form, the home page composition, the site metadata, the static data
  other than the product list, and the build configuration carry no modelled logic.

## Findings

| source | as written | input that shows it | evidently intended | confidence | as-written member | corrected member |
|---|---|---|---|---|---|---|
| components/sections/BlogSection.tsx:188 | clicking dot `idx` sets `currentIndex = idx` | 7 posts, 3 cards per view: dot 2 moves to post 2 and highlights dot floor(2/3) = 0 | `currentIndex = idx * visibleCards`, the first post of that page, so the clicked dot is the highlighted one | not executed; high | `BlogCarousel.SelectDotHighlightsWrongDot` | `BlogCarousel.PageStartHighlightsPage` |

The carousel class keeps the deployed dot behaviour (`BlogSection.SelectDot`) and offers
the corrected one beside it (`BlogSection.JumpToPage`, built on `PageStart`).
