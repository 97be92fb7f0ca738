/** graphics/RadialGradient.java: a radial gradient painted at twice the
    size of its bounds, of which one quadrant is cut out and drawn in the
    bounds; the shadow's rounded corners are made of these quadrants.
    Android's GradientDrawable paints the gradient itself; the model records
    the size of the bitmap it is painted into, the rectangle cut from it and
    where that rectangle goes on the canvas. */
module RadialGradients {
  import opened JavaLang
  import opened Views
  import opened Colors

  /** RadialGradient.Part. */
  datatype Part = TopRight | TopLeft | BottomRight | BottomLeft

  /** startX or startY: 0.0f or 0.5f, the fraction of the doubled bitmap at
      which the cut begins. */
  datatype Start = Zero | Half

  /** What draw puts on the canvas: the gradient is painted into a bitmap
      of bitmapWidth x bitmapHeight, the cropWidth x cropHeight rectangle at
      (cropX, cropY) is cut from it and drawn at (atX, atY). */
  datatype Drawn = Drawn(bitmapWidth: int, bitmapHeight: int,
                         cropX: int, cropY: int, cropWidth: int, cropHeight: int,
                         atX: int, atY: int)

  /** (int)(start * size): 0, or half of the (even) doubled size. */
  function Offset(start: Start, size: int): int
  {
    if start == Zero then 0 else size / 2
  }

  /** draw() with the given bounds and start. The width and height are
      Math.abs of the int differences of the bounds; the first
      Bitmap.createBitmap throws an IllegalArgumentException unless both
      doubled sizes are positive, the second one unless the cut lies inside
      the bitmap. The cut is drawn at the bounds' left and top. */
  function Piece(bounds: Rect, startX: Start, startY: Start): Result<Drawn>
  {
    var w := JavaAbs(Wrap32(bounds.left as int - bounds.right as int));
    var h := JavaAbs(Wrap32(bounds.top as int - bounds.bottom as int));
    var bw := Wrap32(w as int * 2);
    var bh := Wrap32(h as int * 2);
    if bw <= 0 || bh <= 0 then Throws(IllegalArgument)
    else
      var x := Offset(startX, bw);
      var y := Offset(startY, bh);
      if x + w > bw || y + h > bh then Throws(IllegalArgument)
      else Ok(Drawn(bw, bh, x, y, w, h, bounds.left, bounds.top))
  }

  /** Where the centre of the gradient lands on the canvas. */
  function CentreOnCanvas(d: Drawn): (int, int)
  {
    (d.atX + d.bitmapWidth / 2 - d.cropX, d.atY + d.bitmapHeight / 2 - d.cropY)
  }

  /** The doubled size of a side that is Math.abs of an int: positive
      exactly when the side is positive and below 2^30, and then twice the
      side. */
  lemma DoubledSize(side: int32)
    requires side >= 0 || side == INT_MIN
    ensures Wrap32(side as int * 2) > 0 <==> 0 < side < 0x4000_0000
    ensures 0 < side < 0x4000_0000 ==> Wrap32(side as int * 2) == 2 * side
  {
    if side == INT_MIN {
      assert side as int * 2 == -TWO_32;
    } else if side >= 0x4000_0000 {
      assert Wrap32(side as int * 2) == side as int * 2 - TWO_32;
    }
  }

  /** Whether a piece can be drawn depends only on the int sizes of its
      bounds: the cut always lies inside the doubled bitmap. */
  lemma PieceSize(b: Rect, startX: Start, startY: Start)
    ensures Piece(b, startX, startY).Ok? ==
              (&& Wrap32(JavaAbs(Wrap32(b.left as int - b.right as int)) as int * 2) > 0
               && Wrap32(JavaAbs(Wrap32(b.top as int - b.bottom as int)) as int * 2) > 0)
  {
    DoubledSize(JavaAbs(Wrap32(b.left as int - b.right as int)));
    DoubledSize(JavaAbs(Wrap32(b.top as int - b.bottom as int)));
  }

  /** For bounds whose sides do not overflow, draw succeeds exactly when
      both sides are positive and below 2^30 (so that the doubled bitmap
      has a positive int size); the bitmap is then twice the bounds, the
      cut is one quadrant of it, as large as the bounds, and the second
      createBitmap never throws. */
  lemma PieceOfBounds(bounds: Rect, startX: Start, startY: Start)
    requires IsInt(bounds.right as int - bounds.left as int) && IsInt(bounds.bottom as int - bounds.top as int)
    ensures var w := Abs(bounds.right as int - bounds.left as int);
            var h := Abs(bounds.bottom as int - bounds.top as int);
            && (Piece(bounds, startX, startY).Ok? <==> 0 < w < 0x4000_0000 && 0 < h < 0x4000_0000)
            && (Piece(bounds, startX, startY).Ok? ==>
                  Piece(bounds, startX, startY).value ==
                    Drawn(2 * w, 2 * h, if startX == Half then w else 0, if startY == Half then h else 0,
                          w, h, bounds.left, bounds.top))
  {
    PieceSize(bounds, startX, startY);
    DoubledSize(JavaAbs(Wrap32(bounds.left as int - bounds.right as int)));
    DoubledSize(JavaAbs(Wrap32(bounds.top as int - bounds.bottom as int)));
  }

  /** The quadrant each part selects (setCurrentPart). */
  function StartOf(part: Part): (Start, Start)
  {
    match part
    case TopLeft => (Zero, Zero)
    case TopRight => (Half, Zero)
    case BottomLeft => (Zero, Half)
    case BottomRight => (Half, Half)
  }

  /** Each part is the quadrant that rounds its own corner: drawn in bounds
      whose right is not left of their left and whose bottom is not above
      their top, the centre of the gradient lands on the corner opposite the
      part's name (the bottom-right corner for TOP_LEFT and so on), so the
      arc bulges towards the named corner. */
  lemma CentreOppositePart(bounds: Rect, part: Part)
    requires bounds.left <= bounds.right && bounds.top <= bounds.bottom
    requires IsInt(bounds.right as int - bounds.left as int) && IsInt(bounds.bottom as int - bounds.top as int)
    requires Piece(bounds, StartOf(part).0, StartOf(part).1).Ok?
    ensures var c := CentreOnCanvas(Piece(bounds, StartOf(part).0, StartOf(part).1).value);
            && c.0 == (if part == TopLeft || part == BottomLeft then bounds.right else bounds.left)
            && c.1 == (if part == TopLeft || part == TopRight then bounds.bottom else bounds.top)
  {
    PieceOfBounds(bounds, StartOf(part).0, StartOf(part).1);
  }

  /** A RadialGradient: its two colours and radius, the part to cut and
      the bounds it is drawn in. */
  class RadialGradient {
    const colors: seq<Color>
    const radius: int
    var startX: Start
    var startY: Start
    var bounds: Rect

    /** The float fields start at 0, the TOP_LEFT quadrant; a new drawable
        has empty bounds. */
    constructor (colors: seq<Color>, radius: int)
      ensures this.colors == colors && this.radius == radius
      ensures startX == Zero && startY == Zero && bounds == Rect(0, 0, 0, 0)
    {
      this.colors := colors;
      this.radius := radius;
      startX := Zero;
      startY := Zero;
      bounds := Rect(0, 0, 0, 0);
    }

    method SetCurrentPart(part: Part)
      modifies this
      ensures (startX, startY) == StartOf(part)
      ensures bounds == old(bounds)
    {
      if part == TopLeft {
        startX, startY := Zero, Zero;
      } else if part == TopRight {
        startX, startY := Half, Zero;
      } else if part == BottomLeft {
        startX, startY := Zero, Half;
      } else if part == BottomRight {
        startX, startY := Half, Half;
      }
    }

    method SetBounds(left: int32, top: int32, right: int32, bottom: int32)
      modifies this
      ensures bounds == Rect(left, top, right, bottom)
      ensures startX == old(startX) && startY == old(startY)
    {
      bounds := Rect(left, top, right, bottom);
    }

    /** draw(canvas): once the doubled bitmap exists the bounds are reset
        to cover it, so the next draw without setBounds paints the whole
        doubled gradient at (0, 0). */
    method Draw() returns (r: Result<Drawn>)
      modifies this
      ensures r == Piece(old(bounds), startX, startY)
      ensures startX == old(startX) && startY == old(startY)
      ensures r.Ok? ==> bounds == Rect(0, 0, r.value.bitmapWidth, r.value.bitmapHeight)
      ensures r.Throws? ==> bounds == old(bounds)
    {
      var realLeft, realTop, realRight, realBottom := bounds.left, bounds.top, bounds.right, bounds.bottom;
      var realWidth := JavaAbs(Wrap32(realLeft as int - realRight as int));
      var realHeight := JavaAbs(Wrap32(realTop as int - realBottom as int));
      var bitmapWidth := Wrap32(realWidth as int * 2);
      var bitmapHeight := Wrap32(realHeight as int * 2);
      if bitmapWidth <= 0 || bitmapHeight <= 0 {
        return Throws(IllegalArgument);
      }
      bounds := Rect(0, 0, bitmapWidth, bitmapHeight);
      var x := if startX == Half then bitmapWidth / 2 else 0;
      var y := if startY == Half then bitmapHeight / 2 else 0;
      if x + realWidth > bitmapWidth || y + realHeight > bitmapHeight {
        return Throws(IllegalArgument);
      }
      r := Ok(Drawn(bitmapWidth, bitmapHeight, x, y, realWidth, realHeight, realLeft, realTop));
    }
  }
}
