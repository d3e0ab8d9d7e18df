/**
 * The geometry of `createShape` (public/app.js): two corners of a drag
 * become a shape with a normalised bounding box.
 */
module Shapes {
  import opened Protocol

  /** The tools of the toolbar; `Select` draws nothing. */
  datatype Tool = Select | Rectangle | Square | Circle

  /** The fill colour, stroke colour and stroke width read from the page's inputs. */
  datatype Style = Style(fill: string, stroke: string, strokeWidth: int)

  datatype Shape = Shape(
    id: real,
    kind: Tool,
    x: real, y: real, width: real, height: real,
    fillColor: string, strokeColor: string, strokeWidth: int,
    userId: Option<Id>)

  function Abs(v: real): real
  {
    if v < 0.0 then -v else v
  }

  function Min(a: real, b: real): real
  {
    if a <= b then a else b
  }

  function Max(a: real, b: real): real
  {
    if a <= b then b else a
  }

  /** The boundary contract of a shape: sides of at least 2, and a square is square. */
  ghost predicate WellFormed(s: Shape)
  {
    s.width >= 2.0 && s.height >= 2.0 && (s.kind == Square ==> s.width == s.height)
  }

  /**
   * `createShape(x1, y1, x2, y2)` with the page's inputs, the current tool,
   * the random id and the local user's id passed in. A drag shorter than 2
   * on either axis yields no shape. Otherwise the shape's box is the box
   * spanned by the two corners; a square keeps the shorter side on both axes,
   * anchored at the top-left corner of that box.
   */
  function CreateShape(x1: real, y1: real, x2: real, y2: real,
                       tool: Tool, style: Style, id: real, author: Option<Id>): (r: Option<Shape>)
    ensures r.None? <==> Abs(x2 - x1) < 2.0 || Abs(y2 - y1) < 2.0
    ensures r.Some? ==> WellFormed(r.value)
    ensures r.Some? ==>
      && r.value.kind == tool && r.value.id == id && r.value.userId == author
      && r.value.fillColor == style.fill && r.value.strokeColor == style.stroke
      && r.value.strokeWidth == style.strokeWidth
    ensures r.Some? ==>
      && r.value.x == Min(x1, x2) && r.value.x <= x1 && r.value.x <= x2
      && r.value.y == Min(y1, y2) && r.value.y <= y1 && r.value.y <= y2
    ensures r.Some? && tool != Square ==>
      && r.value.x + r.value.width == Max(x1, x2)
      && r.value.y + r.value.height == Max(y1, y2)
    ensures r.Some? && tool == Square ==>
      && r.value.x + r.value.width <= Max(x1, x2)
      && r.value.y + r.value.height <= Max(y1, y2)
      && (r.value.x + r.value.width == Max(x1, x2) || r.value.y + r.value.height == Max(y1, y2))
  {
    var width := x2 - x1;
    var height := y2 - y1;
    if Abs(width) < 2.0 || Abs(height) < 2.0 then None
    else
      var shape := Shape(id, tool, Min(x1, x2), Min(y1, y2), Abs(width), Abs(height),
                         style.fill, style.stroke, style.strokeWidth, author);
      if tool == Square then
        var size := Min(Abs(width), Abs(height));
        Some(shape.(width := size, height := size))
      else
        Some(shape)
  }

  /** Dragging from either end of a diagonal gives the same shape. */
  lemma CornersSwap(x1: real, y1: real, x2: real, y2: real,
                    tool: Tool, style: Style, id: real, author: Option<Id>)
    ensures CreateShape(x2, y2, x1, y1, tool, style, id, author)
         == CreateShape(x1, y1, x2, y2, tool, style, id, author)
  {
  }

  /** Dragging along the other diagonal of the same box gives the same shape. */
  lemma DiagonalsAgree(x1: real, y1: real, x2: real, y2: real,
                       tool: Tool, style: Style, id: real, author: Option<Id>)
    ensures CreateShape(x1, y2, x2, y1, tool, style, id, author)
         == CreateShape(x1, y1, x2, y2, tool, style, id, author)
  {
  }
}
