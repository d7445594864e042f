/** The home page's blog carousel (components/sections/BlogSection.tsx). */
module BlogCarousel {
  import opened Wrappers
  import opened Content
  import opened Browser

  /** `getVisibleCards`: 1 below 768px, 2 below 1024px, otherwise 3; 3 when there is no
      window (server rendering). */
  function VisibleCards(innerWidth: Option<int>): (v: int)
    ensures 1 <= v <= 3
    ensures innerWidth.None? ==> v == 3
    ensures innerWidth.Some? ==>
      (v == 1 <==> innerWidth.value < 768) &&
      (v == 2 <==> 768 <= innerWidth.value < 1024) &&
      (v == 3 <==> 1024 <= innerWidth.value)
  {
    if innerWidth.None? then 3
    else if innerWidth.value < 768 then 1
    else if innerWidth.value < 1024 then 2
    else 3
  }

  /** A wider viewport never shows fewer cards. */
  lemma VisibleCardsMonotone(w1: int, w2: int)
    requires w1 <= w2
    ensures VisibleCards(Some(w1)) <= VisibleCards(Some(w2))
  {
  }

  /** `handlePrevious`: 0 wraps to the last post. */
  function PrevIndex(i: int, n: int): (r: int)
    ensures 0 <= i < n ==> r == (i + n - 1) % n
  {
    if i == 0 then n - 1 else i - 1
  }

  /** `handleNext`: the last post wraps to 0. */
  function NextIndex(i: int, n: int): (r: int)
    ensures 0 <= i < n ==> r == (i + 1) % n
  {
    if i == n - 1 then 0 else i + 1
  }

  /** Both transitions keep the index among the posts. */
  lemma TransitionsStayInRange(i: int, n: int)
    requires 0 <= i < n
    ensures 0 <= PrevIndex(i, n) < n
    ensures 0 <= NextIndex(i, n) < n
  {
  }

  /** Previous and next undo each other. */
  lemma PrevNextInverse(i: int, n: int)
    requires 0 <= i < n
    ensures PrevIndex(NextIndex(i, n), n) == i
    ensures NextIndex(PrevIndex(i, n), n) == i
  {
  }

  /** `k` presses of the next arrow. */
  function NextN(i: int, n: int, k: nat): int
    decreases k
  {
    if k == 0 then i else NextIndex(NextN(i, n, k - 1), n)
  }

  lemma {:induction false} NextNCompose(i: int, n: int, a: nat, b: nat)
    ensures NextN(i, n, a + b) == NextN(NextN(i, n, a), n, b)
    decreases b
  {
    if b > 0 {
      NextNCompose(i, n, a, b - 1);
    }
  }

  /** Without reaching the last post, `k` presses advance by exactly `k`. */
  lemma {:induction false} NextNAdvances(i: int, n: int, k: nat)
    requires 0 <= i && i + k < n
    ensures NextN(i, n, k) == i + k
    decreases k
  {
    if k > 0 {
      NextNAdvances(i, n, k - 1);
    }
  }

  /** Pressing next `n` times returns to where it started. */
  lemma {:induction false} NextNCycle(i: int, n: int)
    requires 0 <= i < n
    ensures NextN(i, n, n) == i
  {
    NextNAdvances(i, n, n - 1 - i);
    assert NextN(i, n, n - i) == 0;
    NextNAdvances(0, n, i);
    NextNCompose(i, n, n - i, i);
  }

  /** How many dots there are: n / v rounded up. */
  function DotCount(n: nat, v: nat): (d: nat)
    requires v > 0
    ensures (d - 1) * v < n <= d * v || (n == 0 && d == 0)
  {
    (n + v - 1) / v
  }

  /** Which dot is highlighted: i / v rounded down. */
  function ActiveDot(i: int, v: int): (d: int)
    requires v > 0
    ensures 0 <= i ==> 0 <= d && d * v <= i < (d + 1) * v
  {
    i / v
  }

  /** The highlighted dot is a real dot, and there are never more dots than posts
      (for every window size `getVisibleCards` can return). */
  lemma ActiveDotInRange(i: int, n: nat, v: nat)
    requires 1 <= v <= 3 && 0 <= i < n
    ensures 0 <= ActiveDot(i, v) < DotCount(n, v) <= n
  {
    if v == 1 {
    } else if v == 2 {
    } else {
    }
  }

  /** Arrows and dots appear only when the posts overflow the window. */
  predicate ControlsShown(n: nat, v: int) {
    n > v
  }

  /** Seven posts three at a time give three dots. */
  lemma SevenPostsThreeDots()
    ensures DotCount(7, 3) == 3
  {
  }

  /** What the section renders. */
  datatype SectionView =
    | Loading
    | NoPosts
    | Carousel(posts: seq<PostSummary>, currentIndex: int, visibleCards: int,
               controls: bool, dots: nat, activeDot: int)

  /** The component's state: the fetched posts, the carousel position, whether the fetch
      is still pending, and the window size. */
  class BlogSection {
    var posts: seq<PostSummary>
    var currentIndex: int
    var isLoading: bool
    var visibleCards: int
    const resizeHandler: Handler

    /** The index always names a post once there are posts, and is 0 before. */
    ghost predicate Valid()
      reads this
    {
      && 1 <= visibleCards <= 3
      && 0 <= currentIndex
      && (currentIndex == 0 || currentIndex < |posts|)
      && (isLoading ==> currentIndex == 0)
    }

    constructor (h: Handler)
      ensures Valid()
      ensures posts == [] && currentIndex == 0 && isLoading && visibleCards == 3
      ensures resizeHandler == h
    {
      posts, currentIndex, isLoading, visibleCards := [], 0, true, 3;
      resizeHandler := h;
    }

    /** The fetch settles: a failure leaves no posts, and loading ends either way. */
    method FetchSettled(result: FetchOutcome<PostSummary>)
      requires Valid() && isLoading
      modifies this`posts, this`isLoading
      ensures Valid()
      ensures posts == (if result.Fetched? then result.data else [])
      ensures !isLoading
    {
      match result {
        case Fetched(data) => posts := data;
        case FetchFailed => posts := [];
      }
      isLoading := false;
    }

    /** True when the arrows and dots are on screen. */
    predicate NavigationVisible()
      reads this
    {
      !isLoading && ControlsShown(|posts|, visibleCards)
    }

    /** The previous arrow. */
    method HandlePrevious()
      requires Valid() && NavigationVisible()
      modifies this`currentIndex
      ensures Valid()
      ensures currentIndex == PrevIndex(old(currentIndex), |posts|)
    {
      currentIndex := if currentIndex == 0 then |posts| - 1 else currentIndex - 1;
    }

    /** The next arrow. */
    method HandleNext()
      requires Valid() && NavigationVisible()
      modifies this`currentIndex
      ensures Valid()
      ensures currentIndex == NextIndex(old(currentIndex), |posts|)
    {
      currentIndex := if currentIndex == |posts| - 1 then 0 else currentIndex + 1;
    }

    /** Dot number `idx` sets the index to `idx` itself, not to the first post of that
        page. */
    method SelectDot(idx: int)
      requires Valid() && NavigationVisible()
      requires 0 <= idx < DotCount(|posts|, visibleCards)
      modifies this`currentIndex
      ensures Valid()
      ensures currentIndex == idx
    {
      ActiveDotInRange(0, |posts|, visibleCards);
      currentIndex := idx;
    }

    /** The dot click with the intended jump: dot `page` moves to the first post of that
        page, and that dot is then the highlighted one. */
    method JumpToPage(page: nat)
      requires Valid() && NavigationVisible()
      requires page < DotCount(|posts|, visibleCards)
      modifies this`currentIndex
      ensures Valid()
      ensures currentIndex == PageStart(page, visibleCards)
      ensures ActiveDot(currentIndex, visibleCards) == page
    {
      PageStartHighlightsPage(page, |posts|, visibleCards);
      currentIndex := PageStart(page, visibleCards);
    }

    /** The resize handler. */
    method HandleResize(w: Window)
      requires Valid()
      modifies this`visibleCards
      ensures Valid()
      ensures visibleCards == VisibleCards(Some(w.innerWidth))
    {
      visibleCards := VisibleCards(Some(w.innerWidth));
    }

    /** The resize effect: sizes the window once, then installs the listener. */
    method Mount(w: Window)
      requires Valid()
      modifies this`visibleCards, w`resizeListeners
      ensures Valid()
      ensures visibleCards == VisibleCards(Some(w.innerWidth))
      ensures w.resizeListeners == old(w.resizeListeners) + {resizeHandler}
    {
      HandleResize(w);
      w.AddResizeListener(resizeHandler);
    }

    method Unmount(w: Window)
      modifies w`resizeListeners
      ensures w.resizeListeners == old(w.resizeListeners) - {resizeHandler}
    {
      w.RemoveResizeListener(resizeHandler);
    }

    /** What is on screen: a loading note, the "No posts yet" note, or the carousel with
        its controls, dot count and highlighted dot. */
    function View(): (r: SectionView)
      requires Valid()
      reads this
      ensures r.Loading? <==> isLoading
      ensures r.NoPosts? <==> !isLoading && |posts| == 0
      ensures r.Carousel? ==>
        r.posts == posts && r.currentIndex == currentIndex && r.visibleCards == visibleCards &&
        r.controls == (|posts| > visibleCards) &&
        r.dots == DotCount(|posts|, visibleCards) &&
        r.activeDot == ActiveDot(currentIndex, visibleCards) &&
        0 <= r.activeDot < r.dots <= |posts|
    {
      if isLoading then Loading
      else if |posts| == 0 then NoPosts
      else
        ActiveDotInRange(currentIndex, |posts|, visibleCards);
        Carousel(posts, currentIndex, visibleCards, ControlsShown(|posts|, visibleCards),
                 DotCount(|posts|, visibleCards), ActiveDot(currentIndex, visibleCards))
    }
  }

  /** A failed fetch shows the "No posts yet" state, not the carousel. */
  method FailedFetchShowsEmptyState(section: BlogSection)
    requires section.Valid() && section.isLoading
    modifies section`posts, section`isLoading
    ensures section.View() == NoPosts
  {
    section.FetchSettled(FetchFailed);
  }

  /** The dot click as written: after clicking dot `idx` the highlighted dot is
      `floor(idx / v)`, so with several cards per page any dot past the first highlights
      an earlier one. Seven posts three at a time: dot 2 jumps to post 2 and highlights
      dot 0. */
  lemma SelectDotHighlightsWrongDot(idx: int, v: int)
    requires 2 <= v <= 3 && idx >= 1
    ensures ActiveDot(idx, v) != idx
    ensures ActiveDot(2, 3) == 0 && DotCount(7, 3) == 3
  {
    if v == 2 {
    } else {
    }
  }

  /** The evidently intended jump: dot `page` moves to the first post of that page. */
  function PageStart(page: nat, v: nat): nat {
    page * v
  }

  /** After the intended jump the clicked dot is the highlighted one, and the index still
      names a post. */
  lemma PageStartHighlightsPage(page: nat, n: nat, v: nat)
    requires 1 <= v <= 3 && page < DotCount(n, v)
    ensures ActiveDot(PageStart(page, v), v) == page
    ensures PageStart(page, v) < n
  {
    if v == 1 {
    } else if v == 2 {
    } else {
    }
  }
}
