// gl/GLTextRendererBase.java: renders one line of text into a bitmap of one line
// height and wraps it in a GLPicture.  resize derives the text size and the two
// paddings from the line height; getBitmap sizes the bitmap and places the text
// by the justification.  Paint.getTextBounds is a parameter (the bounds of the
// text as the font measures it); drawing the glyphs is not modelled.

module TextRenderer {
  import opened JavaText
  import Picture
  import TextureManager

  /** GLTextRendererBase.WIDTH_AUTO. */
  const WidthAuto := 0

  datatype Justification = Left | Center | Right

  /** The text size for a line height: lh / 1.2 rounded up. */
  function TextSize(lineHeight: nat): (size: nat)
  {
    (5 * lineHeight + 5) / 6
  }

  /** TextSize is the ceiling of 5 * lh / 6: the smallest size whose 1.2 multiple
      reaches the line height; it never exceeds the line height. */
  lemma TextSizeIsCeiling(lineHeight: nat)
    ensures 6 * TextSize(lineHeight) >= 5 * lineHeight
    ensures TextSize(lineHeight) == 0 || 6 * (TextSize(lineHeight) - 1) < 5 * lineHeight
    ensures TextSize(lineHeight) <= lineHeight
  {
  }

  /** What getBitmap draws: the bitmap (freshly made unless one was passed in, in
      which case it is erased first), and the origin and colour of the text. */
  datatype Drawing = Drawing(bitmap: Picture.Bitmap, created: bool, erased: bool,
                             leftMargin: int, x: int, y: int, color: int, text: string)

  /** The width of the text with its horizontal padding on both sides. */
  function TextWidth(bounds: Picture.Rect, horizontalPadding: int): int
  {
    (bounds.right - bounds.left) + horizontalPadding * 2
  }

  /** The justification switch of getBitmap. */
  function LeftMargin(width: int, textWidth: int, justification: Justification): (margin: int)
    ensures justification == Left ==> margin == 0
    ensures justification == Right ==> margin + textWidth == width
    ensures justification == Center ==>
      -1 <= (width - textWidth) - 2 * margin <= 1
      && (width >= textWidth ==> 0 <= margin) && (width <= textWidth ==> margin <= 0)
  {
    match justification
    case Left => 0
    case Center => JavaDiv(width - textWidth, 2)
    case Right => width - textWidth
  }

  /** With WIDTH_AUTO and a new bitmap, the bitmap is as wide as the text, so every
      justification puts it at the left edge. */
  lemma AutoWidthHasNoMargin(textWidth: int, justification: Justification)
    ensures LeftMargin(textWidth, textWidth, justification) == 0
  {
  }

  /** getBitmap.  Bitmap.createBitmap throws on a width or height below 1, which is
      None here. */
  function GetBitmap(bounds: Picture.Rect, lineHeight: int, verticalPadding: int, horizontalPadding: int,
                     text: string, color: int, width: int, justification: Justification,
                     inBitmap: Option<Picture.Bitmap>): (d: Option<Drawing>)
    ensures inBitmap.Some? ==> d.Some? && d.value.bitmap == inBitmap.value && !d.value.created && d.value.erased
    ensures inBitmap.None? ==> (d.Some? <==>
      (if width == WidthAuto then TextWidth(bounds, horizontalPadding) else width) >= 1 && lineHeight >= 1)
    ensures d.Some? && inBitmap.None? ==>
      d.value.created && !d.value.erased && d.value.bitmap.height == lineHeight
      && d.value.bitmap.width == (if width == WidthAuto then TextWidth(bounds, horizontalPadding) else width)
    ensures d.Some? ==>
      d.value.leftMargin == LeftMargin(d.value.bitmap.width, TextWidth(bounds, horizontalPadding), justification)
      && d.value.x == -bounds.left + horizontalPadding + d.value.leftMargin
      && d.value.y == -bounds.top + verticalPadding
      && d.value.color == color && d.value.text == text
  {
    var textWidth := TextWidth(bounds, horizontalPadding);
    var w := if width == WidthAuto then textWidth else width;
    if inBitmap.None? && (w < 1 || lineHeight < 1) then None
    else
      var bitmap := if inBitmap.None? then Picture.Bitmap(w, lineHeight) else inBitmap.value;
      var margin := LeftMargin(bitmap.width, textWidth, justification);
      Some(Drawing(bitmap, inBitmap.None?, inBitmap.Some?, margin,
                   -bounds.left + horizontalPadding + margin, -bounds.top + verticalPadding, color, text))
  }

  /** The text ends where it should: for RIGHT the padded text ends at the bitmap's
      right edge, for LEFT it starts at the bitmap's left edge, and for CENTER the
      space left over is split evenly to within a pixel. */
  lemma JustifiedPlacement(bounds: Picture.Rect, lineHeight: int, verticalPadding: int, horizontalPadding: int,
                           text: string, color: int, width: int, justification: Justification,
                           inBitmap: Option<Picture.Bitmap>)
    requires GetBitmap(bounds, lineHeight, verticalPadding, horizontalPadding, text, color, width,
                       justification, inBitmap).Some?
    ensures var d := GetBitmap(bounds, lineHeight, verticalPadding, horizontalPadding, text, color, width,
                               justification, inBitmap).value;
      var start := d.x + bounds.left - horizontalPadding;
      var finish := start + TextWidth(bounds, horizontalPadding);
      (justification == Left ==> start == 0)
      && (justification == Right ==> finish == d.bitmap.width)
      && (justification == Center ==> -1 <= (d.bitmap.width - finish) - start <= 1)
  {
  }

  class Renderer {
    const manager: TextureManager.Manager
    /** sMaxTextureSize of GLPicture. */
    const maxTextureSize: int
    var textSize: int
    var lineHeight: int
    var verticalPadding: int
    var horizontalPadding: int

    /** The sizes always follow from the line height, which is never negative. */
    ghost predicate Valid()
      reads this
    {
      lineHeight >= 0 && textSize == TextSize(lineHeight)
      && verticalPadding == (lineHeight - textSize) / 2 && horizontalPadding == lineHeight / 4
    }

    constructor (manager: TextureManager.Manager, maxTextureSize: int, lineHeight: int)
      ensures Valid()
      ensures lineHeight >= 0 ==> this.lineHeight == lineHeight
      ensures lineHeight < 0 ==> this.lineHeight == 0
      ensures this.manager == manager && this.maxTextureSize == maxTextureSize
    {
      this.manager := manager;
      this.maxTextureSize := maxTextureSize;
      textSize, this.lineHeight, verticalPadding, horizontalPadding := 0, 0, 0, 0;
      new;
      Resize(lineHeight);
    }

    /** resize: a negative line height keeps the old one; the paddings never go
        negative. */
    method Resize(lh: int)
      requires lineHeight >= 0
      modifies this
      ensures Valid()
      ensures lineHeight == if lh >= 0 then lh else old(lineHeight)
      ensures verticalPadding >= 0 && horizontalPadding >= 0
    {
      if lh >= 0 {
        lineHeight := lh;
      }
      textSize := TextSize(lineHeight);
      TextSizeIsCeiling(lineHeight);
      verticalPadding := JavaDiv(lineHeight - textSize, 2);
      horizontalPadding := JavaDiv(lineHeight, 4);
    }

    /** getPicture(text, ...): the picture of getBitmap's bitmap; null when making
        the bitmap threw. */
    method GetPicture(bounds: Picture.Rect, text: string, color: int, width: int, justification: Justification,
                      inBitmap: Option<Picture.Bitmap>) returns (p: Picture.Picture?)
      requires Valid() && manager.Valid() && maxTextureSize >= 1 && Picture.Proper(inBitmap)
      modifies manager
      ensures var d := GetBitmap(bounds, lineHeight, verticalPadding, horizontalPadding, text, color, width,
                                 justification, inBitmap);
        (d.None? <==> p == null)
        && (p != null ==> fresh(p) && p.Valid() && p.bitmap == Some(d.value.bitmap) && p.hasContent
                          && p.GeometryOf(d.value.bitmap))
    {
      var d := GetBitmap(bounds, lineHeight, verticalPadding, horizontalPadding, text, color, width,
                         justification, inBitmap);
      if d.None? {
        return null;
      }
      p := new Picture.Picture(manager, Some(d.value.bitmap), maxTextureSize);
    }
  }
}
