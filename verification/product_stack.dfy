/** The product showcase (components/sections/ProductStackSection.tsx): asset names
    derived from product names, the ordered video sources, icons and layout alternation. */
module ProductStack {
  import opened Wrappers
  import opened Browser
  import VideoNames
  import BlogCarousel

  /** What `\s` matches in a JavaScript regular expression. */
  predicate IsWhitespace(c: char) {
    c == ' ' || c == '\t' || c == '\n' || c == '\U{B}' || c == '\U{C}' || c == '\r' ||
    c == '\U{A0}' || c == '\U{1680}' || ('\U{2000}' <= c <= '\U{200A}') ||
    c == '\U{2028}' || c == '\U{2029}' || c == '\U{202F}' || c == '\U{205F}' ||
    c == '\U{3000}' || c == '\U{FEFF}'
  }

  predicate NoWhitespace(s: string) {
    forall i :: 0 <= i < |s| ==> !IsWhitespace(s[i])
  }

  predicate NoAsciiUpper(s: string) {
    forall i :: 0 <= i < |s| ==> !('A' <= s[i] <= 'Z')
  }

  /** Whitespace removal: every whitespace run is deleted; the other characters stay,
      in order. */
  function RemoveWhitespace(s: string): (r: string)
    ensures |r| <= |s|
    ensures NoWhitespace(r)
    ensures NoAsciiUpper(s) ==> NoAsciiUpper(r)
    ensures NoWhitespace(s) ==> r == s
    ensures |s| == 1 ==> r == (if IsWhitespace(s[0]) then [] else s)
  {
    if s == [] then []
    else if IsWhitespace(s[0]) then RemoveWhitespace(s[1..])
    else [s[0]] + RemoveWhitespace(s[1..])
  }

  /** Removal works character by character: with the one-character case above this pins
      down that every other character stays, in order. */
  lemma {:induction false} RemoveWhitespaceAppend(a: string, b: string)
    ensures RemoveWhitespace(a + b) == RemoveWhitespace(a) + RemoveWhitespace(b)
  {
    if a == [] {
      assert a + b == b;
    } else {
      assert (a + b)[0] == a[0];
      assert (a + b)[1..] == a[1..] + b;
      RemoveWhitespaceAppend(a[1..], b);
    }
  }

  /** `getProductVideoName`: lower-case, then drop whitespace. */
  function VideoName(productName: string): (r: string)
    ensures NoWhitespace(r) && NoAsciiUpper(r)
  {
    RemoveWhitespace(VideoNames.AsciiLower(productName))
  }

  /** The video name is derived character by character: a whitespace character is
      dropped, any other is lower-cased, and the order is kept. */
  lemma VideoNameAppend(a: string, b: string)
    ensures VideoName(a + b) == VideoName(a) + VideoName(b)
    ensures |a| == 1 ==> VideoName(a) == (if IsWhitespace(a[0]) then [] else VideoNames.AsciiLower(a))
  {
    assert VideoNames.AsciiLower(a + b) == VideoNames.AsciiLower(a) + VideoNames.AsciiLower(b);
    RemoveWhitespaceAppend(VideoNames.AsciiLower(a), VideoNames.AsciiLower(b));
  }

  /** The configured "FawkesArc" product's video name. */
  lemma ArcVideoName()
    ensures VideoName("FawkesArc") == "fawkesarc"
  {
    var lo := VideoNames.AsciiLower("FawkesArc");
    assert lo == "fawkesarc";
    assert NoWhitespace(lo);
  }

  /** The configured "FawkesArc" product is the one whose poster is a PNG. */
  lemma ArcPosterIsPng()
    ensures PosterPath("FawkesArc") == "/images/" + "fawkesarc" + "-poster.png"
  {
    ArcVideoName();
    var v := VideoName("FawkesArc");
    assert v == "fawkesarc";
  }

  /** Deriving the name twice changes nothing. */
  lemma VideoNameIdempotent(productName: string)
    ensures VideoName(VideoName(productName)) == VideoName(productName)
  {
    var v := VideoName(productName);
    assert VideoNames.AsciiLower(v) == v;
  }

  /** `getPosterPath`: the "fawkesarc" poster is a PNG, every other poster a JPEG. */
  function PosterPath(productName: string): (r: string)
    ensures var v := VideoName(productName);
      |r| == 8 + |v| + 11 && r[..8] == "/images/" && r[8..8 + |v|] == v &&
      r[8 + |v|..] == (if v == "fawkesarc" then "-poster.png" else "-poster.jpg")
  {
    var videoName := VideoName(productName);
    if videoName == "fawkesarc" then "/images/" + videoName + "-poster.png"
    else "/images/" + videoName + "-poster.jpg"
  }

  /** One `<source src type>` element. */
  datatype Source = Source(src: string, mime: string)

  /** The source a browser is offered for one encoding of a video. */
  function SourceFor(videoName: string, format: VideoNames.Format): Source {
    Source("/videos/" + videoName + format.suffix + "." + format.extension, "video/" + format.extension)
  }

  /** `getVideoSources`: on mobile the mobile WebM and MP4 come first, followed by the
      desktop ones as fall-backs; on desktop only the desktop WebM and MP4. */
  function VideoSources(productName: string, isMobile: bool): (r: seq<Source>)
    ensures |r| == if isMobile then 4 else 2
    ensures isMobile ==> r[2..] == VideoSources(productName, false)
  {
    var videoName := VideoName(productName);
    if isMobile then
      [Source("/videos/" + videoName + "-mobile.webm", "video/webm"),
       Source("/videos/" + videoName + "-mobile.mp4", "video/mp4"),
       Source("/videos/" + videoName + ".webm", "video/webm"),
       Source("/videos/" + videoName + ".mp4", "video/mp4")]
    else
      [Source("/videos/" + videoName + ".webm", "video/webm"),
       Source("/videos/" + videoName + ".mp4", "video/mp4")]
  }

  /** Which of the compression script's encodings each source offers, in order: on
      mobile the two mobile encodings then the two desktop ones, WebM before MP4 in each
      pair; on desktop the two desktop encodings. */
  function FormatOrder(isMobile: bool): seq<nat> {
    if isMobile then [2, 3, 0, 1] else [0, 1]
  }

  lemma SourcesAreScriptFormats(productName: string, isMobile: bool)
    ensures var order := FormatOrder(isMobile);
      var sources := VideoSources(productName, isMobile);
      |sources| == |order| &&
      forall i :: 0 <= i < |order| ==>
        order[i] < |VideoNames.Formats| && sources[i] == SourceFor(VideoName(productName), VideoNames.Formats[order[i]])
  {
    var p := "/videos/" + VideoName(productName);
    assert p + "-mobile" + "." + "webm" == p + "-mobile.webm";
    assert p + "-mobile" + "." + "mp4" == p + "-mobile.mp4";
    assert p + "" + "." + "webm" == p + ".webm";
    assert p + "" + "." + "mp4" == p + ".mp4";
  }

  /** A source offered for a product names the file the compression script writes for
      that encoding of a video whose short name is the product's video name. */
  lemma SourceIsScriptOutput(productName: string, file: string, rewrite: string -> string, format: VideoNames.Format)
    requires '/' !in file
    requires VideoNames.ShortName(file, rewrite) == VideoName(productName)
    ensures SourceFor(VideoName(productName), format).src == "/videos/" + VideoNames.OptimizedFilename(file, format, rewrite)
  {
  }

  /** The icons `getIcon` knows. */
  datatype Icon = Zap | Brain | RefreshCw | Target

  function GetIcon(iconName: string): (r: Option<Icon>)
    ensures r.Some? <==> iconName in ["Zap", "Brain", "RefreshCw", "Target"]
    ensures r == Some(Zap) <==> iconName == "Zap"
    ensures r == Some(Brain) <==> iconName == "Brain"
    ensures r == Some(RefreshCw) <==> iconName == "RefreshCw"
    ensures r == Some(Target) <==> iconName == "Target"
  {
    if iconName == "Zap" then Some(Zap)
    else if iconName == "Brain" then Some(Brain)
    else if iconName == "RefreshCw" then Some(RefreshCw)
    else if iconName == "Target" then Some(Target)
    else None
  }

  /** A product entry of the site's data file (lib/data.ts). */
  datatype Product = Product(name: string, description: string, iconName: string)

  const Products: seq<Product> := [
    Product("FawkesLink", "Our universal hardware interface plugs into any battery system, capturing high-fidelity data in real-time.", "Zap"),
    Product("FawkesCore", "The AI-powered brain of our platform. It processes data to deliver predictive analytics, state-of-health monitoring, and optimization strategies.", "Brain"),
    Product("FawkesLoop", "A data-driven marketplace connecting end-of-life batteries with second-life applications and certified recyclers, closing the loop.", "RefreshCw"),
    Product("FawkesArc", "A design and simulation tool for BESS manufacturers to design battery storage systems and analyze their performance, health, and techno-economics.", "Target")
  ]

  /** Every product has an icon, so the clone of the icon element never receives null. */
  lemma EveryProductHasIcon()
    ensures forall i :: 0 <= i < |Products| ==> GetIcon(Products[i].iconName).Some?
  {
  }

  /** Odd rows put the video in the first column and the text in the second. */
  predicate ColumnsSwapped(index: nat) {
    index % 2 == 1
  }

  lemma ColumnsAlternate(index: nat)
    ensures ColumnsSwapped(index) != ColumnsSwapped(index + 1)
  {
  }

  /** `checkMobile`: inclusive of 768. */
  predicate IsMobileWidth(innerWidth: int) {
    innerWidth <= 768
  }

  /** The two sections disagree at exactly 768px: this one treats it as mobile while the
      blog carousel already shows two cards. */
  lemma BreakpointsDisagreeAt768()
    ensures IsMobileWidth(768) && BlogCarousel.VisibleCards(Some(768)) == 2
    ensures forall w :: w != 768 ==> (IsMobileWidth(w) <==> BlogCarousel.VisibleCards(Some(w)) == 1)
  {
  }

  /** The component's `isMobile` state and its resize listener. */
  class ProductStackSection {
    var isMobile: bool
    const handler: Handler

    constructor (h: Handler)
      ensures !isMobile && handler == h
    {
      isMobile := false;
      handler := h;
    }

    method CheckMobile(w: Window)
      modifies this`isMobile
      ensures isMobile == IsMobileWidth(w.innerWidth)
    {
      isMobile := w.innerWidth <= 768;
    }

    /** The effect: checks once, then listens for resizes. */
    method Mount(w: Window)
      modifies this`isMobile, w`resizeListeners
      ensures isMobile == IsMobileWidth(w.innerWidth)
      ensures w.resizeListeners == old(w.resizeListeners) + {handler}
    {
      CheckMobile(w);
      w.AddResizeListener(handler);
    }

    method Unmount(w: Window)
      modifies w`resizeListeners
      ensures w.resizeListeners == old(w.resizeListeners) - {handler}
    {
      w.RemoveResizeListener(handler);
    }

    /** The sources rendered for a product under the current viewport. */
    function Sources(productName: string): (r: seq<Source>)
      reads this
      ensures |r| == if isMobile then 4 else 2
      ensures r == VideoSources(productName, isMobile)
    {
      VideoSources(productName, isMobile)
    }
  }
}
