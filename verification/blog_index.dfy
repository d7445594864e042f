/** The blog index page (app/blog/page.tsx): the newest post is featured, the rest are
    listed, and the page's sections depend on how many posts there are. */
module BlogIndex {
  import opened Wrappers
  import opened Content

  /** `getPosts`: a failed query yields no posts. */
  function GetPosts(result: FetchOutcome<PostSummary>): (posts: seq<PostSummary>)
    ensures result.FetchFailed? ==> posts == []
    ensures result.Fetched? ==> posts == result.data
  {
    match result
    case Fetched(data) => data
    case FetchFailed => []
  }

  /** A card's picture: the post's main image, or the placeholder when it has none. */
  datatype CardImage = Photo(image: SanityImage) | Placeholder

  function CardImageFor(post: PostSummary): (r: CardImage)
    ensures r.Placeholder? <==> post.mainImage.None?
    ensures r.Photo? ==> r.image == post.mainImage.value
  {
    match post.mainImage
    case None => Placeholder
    case Some(img) => Photo(img)
  }

  datatype Card = Card(post: PostSummary, image: CardImage)

  /** The page body: the "Coming Soon" state, or the featured post, the optional "More
      Articles" grid and the optional call-to-action shown when there is a single post. */
  datatype IndexView =
    | ComingSoon
    | Listing(featured: Card, moreArticles: Option<seq<Card>>, singlePostCta: bool)

  /** Every post after the featured one. */
  function Remaining(posts: seq<PostSummary>): (r: seq<PostSummary>)
    ensures |posts| > 0 ==> [posts[0]] + r == posts
    ensures |r| == if |posts| == 0 then 0 else |posts| - 1
  {
    if |posts| == 0 then [] else posts[1..]
  }

  function Cards(posts: seq<PostSummary>): (r: seq<Card>)
    ensures |r| == |posts|
    ensures forall i :: 0 <= i < |posts| ==> r[i].post == posts[i] && r[i].image == CardImageFor(posts[i])
  {
    if posts == [] then [] else [Card(posts[0], CardImageFor(posts[0]))] + Cards(posts[1..])
  }

  function IndexPage(posts: seq<PostSummary>): (r: IndexView)
    ensures r.ComingSoon? <==> |posts| == 0
    ensures r.Listing? ==>
      r.featured.post == posts[0] &&
      (r.moreArticles.Some? <==> |posts| >= 2) &&
      (r.singlePostCta <==> |posts| == 1)
    ensures r.Listing? && r.moreArticles.Some? ==> |r.moreArticles.value| == |posts| - 1
    ensures r.Listing? ==> r.featured == Card(posts[0], CardImageFor(posts[0]))
    ensures r.Listing? && r.moreArticles.Some? ==>
      forall i :: 1 <= i < |posts| ==> r.moreArticles.value[i - 1] == Card(posts[i], CardImageFor(posts[i]))
  {
    if |posts| == 0 then ComingSoon
    else
      var featuredPost := posts[0];
      var remainingPosts := Remaining(posts);
      Listing(Card(featuredPost, CardImageFor(featuredPost)),
              if |remainingPosts| > 0 then Some(Cards(remainingPosts)) else None,
              |posts| == 1)
  }

  /** The featured card followed by the "More Articles" cards lists every post once, in
      the query's order. */
  lemma {:induction false} ListingCoversEveryPost(posts: seq<PostSummary>)
    requires |posts| > 0
    ensures var v := IndexPage(posts);
      var listed := [v.featured] + v.moreArticles.GetOr([]);
      |listed| == |posts| && forall i :: 0 <= i < |posts| ==> listed[i].post == posts[i]
  {
    var v := IndexPage(posts);
    var listed := [v.featured] + v.moreArticles.GetOr([]);
    forall i | 0 <= i < |posts| ensures listed[i].post == posts[i] {
      if i > 0 {
        assert listed[i] == v.moreArticles.value[i - 1];
        assert Remaining(posts)[i - 1] == posts[i];
      }
    }
  }

  /** A failed query shows the "Coming Soon" state. */
  lemma FailedFetchShowsComingSoon()
    ensures IndexPage(GetPosts(FetchFailed)) == ComingSoon
  {
  }
}
