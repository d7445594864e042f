/** Rendering of a post body through the rich-text library with a layout's component
    table. What the library itself does with a block that has no registered handler is
    summarised here as `Library` output (text blocks) or `Hidden` (unknown types, which
    the library renders as an invisible placeholder). */
module PortableBody {
  import opened Wrappers
  import opened Content
  import PortableTextTable
  import BodyImage

  /** The rendered form of one block. */
  datatype Node =
    | FigureNode(figure: BodyImage.Figure)
    | TableNode(table: PortableTextTable.TableView)
    | Paragraph(children: seq<Span>)
    | Library(style: string, children: seq<Span>)
    | Empty
    | Hidden(typeName: string)

  /** A layout's component table: its `types.image` handler, whether `types.table` is
      registered, and whether `block.normal` is overridden to a plain paragraph. */
  datatype Components = Components(
    image: (SanityImage, UrlBuilder) -> Option<BodyImage.Figure>,
    table: bool,
    normalParagraph: bool)

  /** One block, rendered with the layout's components. A handler that returns null
      renders `Empty`; a block type with no handler renders `Hidden`. */
  function RenderBlock(c: Components, b: Block, urlFor: UrlBuilder): (r: Node)
    ensures b.Other? ==> r == Hidden(b.typeName)
    ensures b.TableBlock? && !c.table ==> r == Hidden("table")
    ensures b.TextBlock? ==>
      (r.Paragraph? <==> b.style == "normal" && c.normalParagraph) &&
      (r.Paragraph? ==> r.children == b.children) &&
      (r.Library? ==> r.style == b.style && r.children == b.children) &&
      (r.Paragraph? || r.Library?)
    ensures b.ImageBlock? ==>
      (r == Empty <==> c.image(b.image, urlFor).None?) &&
      (r.FigureNode? <==> c.image(b.image, urlFor).Some?) &&
      (r.FigureNode? ==> c.image(b.image, urlFor) == Some(r.figure))
    ensures b.TableBlock? && c.table ==>
      (r == Empty <==> PortableTextTable.NoRows(Some(b.table))) &&
      (r == Empty || r.TableNode?) &&
      (r.TableNode? ==> PortableTextTable.RenderTable(Some(b.table)) == Some(r.table))
  {
    match b
    case TextBlock(style, children) =>
      if style == "normal" && c.normalParagraph then Paragraph(children) else Library(style, children)
    case ImageBlock(img) =>
      (match c.image(img, urlFor)
       case None => Empty
       case Some(f) => FigureNode(f))
    case TableBlock(t) =>
      if !c.table then Hidden("table")
      else
        (match PortableTextTable.RenderTable(Some(t))
         case None => Empty
         case Some(v) => TableNode(v))
    case Other(name) => Hidden(name)
  }

  /** The whole body: one node per block, in the body's order. */
  function RenderBody(c: Components, blocks: seq<Block>, urlFor: UrlBuilder): (r: seq<Node>)
    ensures |r| == |blocks|
    ensures forall i :: 0 <= i < |blocks| ==> r[i] == RenderBlock(c, blocks[i], urlFor)
  {
    if blocks == [] then [] else [RenderBlock(c, blocks[0], urlFor)] + RenderBody(c, blocks[1..], urlFor)
  }

  /** Rendering distributes over concatenation of bodies. */
  lemma {:induction false} RenderBodyAppend(c: Components, a: seq<Block>, b: seq<Block>, urlFor: UrlBuilder)
    ensures RenderBody(c, a + b, urlFor) == RenderBody(c, a, urlFor) + RenderBody(c, b, urlFor)
  {
    if a == [] {
      assert a + b == b;
    } else {
      assert (a + b)[1..] == a[1..] + b;
      RenderBodyAppend(c, a[1..], b, urlFor);
    }
  }
}
