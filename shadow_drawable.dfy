/** graphics/ShadowDrawable.java: the shadow around a view, a frame of
    thickness `width` drawn inside the canvas. Each side is a linear
    gradient from the shadow colour to the same colour fully transparent,
    and each corner is a quadrant of a RadialGradient. The model records
    the bounds every part is drawn in, in the order draw draws them. */
module ShadowDrawables {
  import opened JavaLang
  import opened Views
  import opened Colors
  import opened RadialGradients

  /** The four border gradients. */
  datatype Side = TopSide | RightSide | BottomSide | LeftSide

  /** GradientDrawable.Orientation: the direction from the first colour to
      the second. */
  datatype Orientation = BottomTop | RightLeft | TopBottom | LeftRight

  /** The orientation that starts at the edge of a border touching the
      content and runs outwards: upwards for the top border and so on. */
  function Outwards(side: Side): Orientation
  {
    match side
    case TopSide => BottomTop
    case RightSide => LeftRight
    case BottomSide => TopBottom
    case LeftSide => RightLeft
  }

  /** parse("#777777"): the opaque grey of the one-argument constructor. */
  const DEFAULT_SHADOW: Color := ParseRgb(0x77, 0x77, 0x77)

  /** The gradient colours: the shadow colour, then the same colour with
      alpha 0. */
  function ShadowColors(shadow: Color): (colors: seq<Color>)
    ensures |colors| == 2 && colors[0] == shadow
  {
    [shadow, SetAlpha(shadow, 0)]
  }

  /** Every gradient fades the shadow out to nothing without changing its
      hue. */
  lemma ShadowFadesOut(shadow: Color)
    ensures var end := ShadowColors(shadow)[1];
            && Alpha(end) == 0
            && Red(end) == Red(shadow) && Green(end) == Green(shadow) && Blue(end) == Blue(shadow)
  {
  }

  /** One part of the frame. */
  datatype Layer = Corner(part: Part) | Border(side: Side)

  /** A part drawn in the given bounds. */
  datatype Step = Step(layer: Layer, bounds: Rect)

  /** The bounds draw gives the corner part on a canvasWidth x
      canvasHeight canvas; canvas.getWidth() - width and
      canvas.getHeight() - width are int arithmetic. */
  function CornerBounds(part: Part, canvasWidth: int32, canvasHeight: int32, width: int32): Rect
  {
    var right := Wrap32(canvasWidth as int - width as int);
    var bottom := Wrap32(canvasHeight as int - width as int);
    match part
    case TopLeft => Rect(0, 0, width, width)
    case TopRight => Rect(right, 0, canvasWidth, width)
    case BottomRight => Rect(right, bottom, canvasWidth, canvasHeight)
    case BottomLeft => Rect(0, bottom, width, canvasHeight)
  }

  /** The bounds draw gives the border gradient of side. */
  function BorderBounds(side: Side, canvasWidth: int32, canvasHeight: int32, width: int32): Rect
  {
    var right := Wrap32(canvasWidth as int - width as int);
    var bottom := Wrap32(canvasHeight as int - width as int);
    match side
    case TopSide => Rect(width, 0, right, width)
    case RightSide => Rect(right, width, canvasWidth, bottom)
    case BottomSide => Rect(width, bottom, right, canvasHeight)
    case LeftSide => Rect(0, width, width, bottom)
  }

  /** What draw draws, in order: the corners clockwise from the top left,
      each followed by the border after it. */
  function FrameSteps(canvasWidth: int32, canvasHeight: int32, width: int32): seq<Step>
  {
    [ Step(Corner(TopLeft), CornerBounds(TopLeft, canvasWidth, canvasHeight, width)),
      Step(Border(TopSide), BorderBounds(TopSide, canvasWidth, canvasHeight, width)),
      Step(Corner(TopRight), CornerBounds(TopRight, canvasWidth, canvasHeight, width)),
      Step(Border(RightSide), BorderBounds(RightSide, canvasWidth, canvasHeight, width)),
      Step(Corner(BottomRight), CornerBounds(BottomRight, canvasWidth, canvasHeight, width)),
      Step(Border(BottomSide), BorderBounds(BottomSide, canvasWidth, canvasHeight, width)),
      Step(Corner(BottomLeft), CornerBounds(BottomLeft, canvasWidth, canvasHeight, width)),
      Step(Border(LeftSide), BorderBounds(LeftSide, canvasWidth, canvasHeight, width)) ]
  }

  /** 1 when the step's bounds hold the pixel (x, y), else 0. */
  function Hit(step: Step, x: int, y: int): nat
  {
    if Contains(step.bounds, x, y) then 1 else 0
  }

  /** How many of the steps' bounds hold the pixel (x, y). */
  function Covering(steps: seq<Step>, x: int, y: int): nat
  {
    if steps == [] then 0 else Hit(steps[0], x, y) + Covering(steps[1..], x, y)
  }

  lemma {:induction false} CoveringEight(steps: seq<Step>, x: int, y: int)
    requires |steps| == 8
    ensures Covering(steps, x, y) ==
              Hit(steps[0], x, y) + Hit(steps[1], x, y) + Hit(steps[2], x, y) + Hit(steps[3], x, y) +
              Hit(steps[4], x, y) + Hit(steps[5], x, y) + Hit(steps[6], x, y) + Hit(steps[7], x, y)
  {
    var t := steps;
    assert Covering(t, x, y) == Hit(t[0], x, y) + Covering(t[1..], x, y);
    t := steps[1..];
    assert Covering(t, x, y) == Hit(steps[1], x, y) + Covering(steps[2..], x, y) by { assert t[1..] == steps[2..]; }
    t := steps[2..];
    assert Covering(t, x, y) == Hit(steps[2], x, y) + Covering(steps[3..], x, y) by { assert t[1..] == steps[3..]; }
    t := steps[3..];
    assert Covering(t, x, y) == Hit(steps[3], x, y) + Covering(steps[4..], x, y) by { assert t[1..] == steps[4..]; }
    t := steps[4..];
    assert Covering(t, x, y) == Hit(steps[4], x, y) + Covering(steps[5..], x, y) by { assert t[1..] == steps[5..]; }
    t := steps[5..];
    assert Covering(t, x, y) == Hit(steps[5], x, y) + Covering(steps[6..], x, y) by { assert t[1..] == steps[6..]; }
    t := steps[6..];
    assert Covering(t, x, y) == Hit(steps[6], x, y) + Covering(steps[7..], x, y) by { assert t[1..] == steps[7..]; }
    t := steps[7..];
    assert Covering(t, x, y) == Hit(steps[7], x, y) by { assert t[1..] == []; }
  }

  /** The pixel lies on the canvas within width of its edge. */
  predicate InFrame(canvasWidth: int, canvasHeight: int, width: int, x: int, y: int)
  {
    && 0 <= x < canvasWidth && 0 <= y < canvasHeight
    && !(width <= x < canvasWidth - width && width <= y < canvasHeight - width)
  }

  /** On a canvas at least twice the width in both directions, the eight
      parts tile the frame: every pixel of the frame is drawn exactly once
      and no other pixel is drawn. */
  lemma FrameTiled(canvasWidth: int32, canvasHeight: int32, width: int32, x: int, y: int)
    requires 0 < width && 2 * width <= canvasWidth && 2 * width <= canvasHeight
    ensures Covering(FrameSteps(canvasWidth, canvasHeight, width), x, y) ==
            if InFrame(canvasWidth, canvasHeight, width, x, y) then 1 else 0
  {
    CoveringEight(FrameSteps(canvasWidth, canvasHeight, width), x, y);
  }

  /** The centre of the gradient of each corner of the frame lies on the
      matching corner of the content inside the frame. */
  function InnerCorner(part: Part, canvasWidth: int, canvasHeight: int, width: int): (int, int)
  {
    match part
    case TopLeft => (width, width)
    case TopRight => (canvasWidth - width, width)
    case BottomRight => (canvasWidth - width, canvasHeight - width)
    case BottomLeft => (width, canvasHeight - width)
  }

  /** With the same canvas, each corner is drawn with its own quadrant of
      the gradient, which rounds the shadow around the content's corner. */
  lemma CornersRoundTheContent(canvasWidth: int32, canvasHeight: int32, width: int32, k: nat)
    requires 0 < width && 2 * width <= canvasWidth && 2 * width <= canvasHeight
    requires k < 8 && FrameSteps(canvasWidth, canvasHeight, width)[k].layer.Corner?
    ensures var step := FrameSteps(canvasWidth, canvasHeight, width)[k];
            var start := StartOf(step.layer.part);
            && Piece(step.bounds, start.0, start.1).Ok?
            && CentreOnCanvas(Piece(step.bounds, start.0, start.1).value) ==
                 InnerCorner(step.layer.part, canvasWidth, canvasHeight, width)
  {
    var step := FrameSteps(canvasWidth, canvasHeight, width)[k];
    var start := StartOf(step.layer.part);
    PieceOfBounds(step.bounds, start.0, start.1);
    CentreOppositePart(step.bounds, step.layer.part);
  }

  /** The first corner can be drawn: its doubled size is a positive int. */
  predicate CornerFits(width: int32)
  {
    Wrap32(JavaAbs(Wrap32(-(width as int))) as int * 2) > 0
  }

  /** That is, the width is not 0 and its size is below 2^30. */
  lemma CornerFitsIff(width: int32)
    ensures CornerFits(width) <==> width != 0 && Abs(width) < 0x4000_0000
  {
  }

  /** Bounds whose int width and height are those of the first corner
      can be drawn exactly when the first corner can. */
  lemma LikeFirstCorner(b: Rect, startX: Start, startY: Start, width: int32)
    requires Wrap32(b.left as int - b.right as int) == Wrap32(-(width as int))
    requires Wrap32(b.top as int - b.bottom as int) == Wrap32(-(width as int))
    ensures Piece(b, startX, startY).Ok? == CornerFits(width)
  {
    PieceSize(b, startX, startY);
  }

  /** Every corner's bounds span width in both directions, in int
      arithmetic. */
  lemma CornerSpans(part: Part, canvasWidth: int32, canvasHeight: int32, width: int32)
    ensures var b := CornerBounds(part, canvasWidth, canvasHeight, width);
            && Wrap32(b.left as int - b.right as int) == Wrap32(-(width as int))
            && Wrap32(b.top as int - b.bottom as int) == Wrap32(-(width as int))
  {
    match part
    case TopLeft =>
    case TopRight =>
      Wrap32Cancel(canvasWidth as int, width as int);
    case BottomRight =>
      Wrap32Cancel(canvasWidth as int, width as int);
      Wrap32Cancel(canvasHeight as int, width as int);
    case BottomLeft =>
      Wrap32Cancel(canvasHeight as int, width as int);
  }

  /** Each corner can be drawn with its own quadrant exactly when the
      first can. */
  lemma CornerLikeFirst(part: Part, canvasWidth: int32, canvasHeight: int32, width: int32)
    ensures Piece(CornerBounds(part, canvasWidth, canvasHeight, width), StartOf(part).0, StartOf(part).1).Ok? ==
            CornerFits(width)
  {
    CornerSpans(part, canvasWidth, canvasHeight, width);
    LikeFirstCorner(CornerBounds(part, canvasWidth, canvasHeight, width), StartOf(part).0, StartOf(part).1, width);
  }

  class ShadowDrawable {
    const width: int32
    const colors: seq<Color>
    const orientations: map<Side, Orientation>
    const corners: RadialGradient
    /** The bounds of the four border gradients. */
    var borderBounds: map<Side, Rect>

    /** ShadowDrawable(widthPixels, shadowColor): every gradient runs from
        the shadow colour to transparent, the borders outwards, and the
        corners' radius is the width. */
    constructor (widthPixels: int32, shadowColor: Color)
      ensures width == widthPixels && colors == ShadowColors(shadowColor)
      ensures forall side :: side in orientations && orientations[side] == Outwards(side)
      ensures fresh(corners) && corners.colors == colors && corners.radius == widthPixels as int
      ensures corners.startX == Zero && corners.startY == Zero
      ensures forall side :: side in borderBounds && borderBounds[side] == Rect(0, 0, 0, 0)
    {
      width := widthPixels;
      var shadowColors := ShadowColors(shadowColor);
      colors := shadowColors;
      orientations := map[TopSide := BottomTop, LeftSide := RightLeft,
                          BottomSide := TopBottom, RightSide := LeftRight];
      borderBounds := map[TopSide := Rect(0, 0, 0, 0), LeftSide := Rect(0, 0, 0, 0),
                          BottomSide := Rect(0, 0, 0, 0), RightSide := Rect(0, 0, 0, 0)];
      corners := new RadialGradient(shadowColors, widthPixels as int);
      new;
      forall side: Side
        ensures side in orientations && orientations[side] == Outwards(side)
        ensures side in borderBounds && borderBounds[side] == Rect(0, 0, 0, 0)
      {
        match side
        case TopSide =>
        case RightSide =>
        case BottomSide =>
        case LeftSide =>
      }
    }

    /** ShadowDrawable(widthPixels): the shadow is #777777. */
    constructor Grey(widthPixels: int32)
      ensures width == widthPixels && colors == ShadowColors(DEFAULT_SHADOW)
      ensures forall side :: side in orientations && orientations[side] == Outwards(side)
      ensures fresh(corners) && corners.colors == colors && corners.radius == widthPixels as int
      ensures corners.startX == Zero && corners.startY == Zero
      ensures forall side :: side in borderBounds && borderBounds[side] == Rect(0, 0, 0, 0)
    {
      width := widthPixels;
      var shadowColors := ShadowColors(DEFAULT_SHADOW);
      colors := shadowColors;
      orientations := map[TopSide := BottomTop, LeftSide := RightLeft,
                          BottomSide := TopBottom, RightSide := LeftRight];
      borderBounds := map[TopSide := Rect(0, 0, 0, 0), LeftSide := Rect(0, 0, 0, 0),
                          BottomSide := Rect(0, 0, 0, 0), RightSide := Rect(0, 0, 0, 0)];
      corners := new RadialGradient(shadowColors, widthPixels as int);
      new;
      forall side: Side
        ensures side in orientations && orientations[side] == Outwards(side)
        ensures side in borderBounds && borderBounds[side] == Rect(0, 0, 0, 0)
      {
        match side
        case TopSide =>
        case RightSide =>
        case BottomSide =>
        case LeftSide =>
      }
    }

    /** draw(canvas): the eight parts of the frame, in order. A width the
        first corner cannot be drawn with throws the IllegalArgumentException
        of Bitmap.createBitmap before anything is drawn; otherwise every
        corner draws and every border gets its bounds. */
    method Draw(canvasWidth: int32, canvasHeight: int32) returns (r: Result<seq<Step>>)
      modifies this, corners
      ensures r == if CornerFits(width) then Ok(FrameSteps(canvasWidth, canvasHeight, width)) else Throws(IllegalArgument)
      ensures r.Ok? ==> forall side :: side in borderBounds && Step(Border(side), borderBounds[side]) in r.value
      ensures r.Ok? ==> (corners.startX, corners.startY) == StartOf(BottomLeft)
    {
      var steps := FrameSteps(canvasWidth, canvasHeight, width);

      var p := DrawCorner(TopLeft, canvasWidth, canvasHeight);
      if p.Throws? {
        return Throws(p.exc);
      }
      borderBounds := borderBounds[TopSide := BorderBounds(TopSide, canvasWidth, canvasHeight, width)];

      p := DrawCorner(TopRight, canvasWidth, canvasHeight);
      assert p.Ok?;
      borderBounds := borderBounds[RightSide := BorderBounds(RightSide, canvasWidth, canvasHeight, width)];

      p := DrawCorner(BottomRight, canvasWidth, canvasHeight);
      assert p.Ok?;
      borderBounds := borderBounds[BottomSide := BorderBounds(BottomSide, canvasWidth, canvasHeight, width)];

      p := DrawCorner(BottomLeft, canvasWidth, canvasHeight);
      assert p.Ok?;
      borderBounds := borderBounds[LeftSide := BorderBounds(LeftSide, canvasWidth, canvasHeight, width)];

      forall side: Side
        ensures side in borderBounds && Step(Border(side), borderBounds[side]) in steps
      {
        match side
        case TopSide => assert steps[1] == Step(Border(side), borderBounds[side]);
        case RightSide => assert steps[3] == Step(Border(side), borderBounds[side]);
        case BottomSide => assert steps[5] == Step(Border(side), borderBounds[side]);
        case LeftSide => assert steps[7] == Step(Border(side), borderBounds[side]);
      }
      r := Ok(steps);
    }

    /** corners.setCurrentPart(part), corners.setBounds(...) and
        corners.draw(canvas), the three calls draw makes for each corner.
        Every corner has the int size of the first. */
    method DrawCorner(part: Part, canvasWidth: int32, canvasHeight: int32) returns (p: Result<Drawn>)
      modifies corners
      ensures p.Ok? == CornerFits(width) && (p.Throws? ==> p.exc == IllegalArgument)
      ensures (corners.startX, corners.startY) == StartOf(part)
    {
      var b := CornerBounds(part, canvasWidth, canvasHeight, width);
      corners.SetCurrentPart(part);
      corners.SetBounds(b.left, b.top, b.right, b.bottom);
      p := corners.Draw();
      CornerLikeFirst(part, canvasWidth, canvasHeight, width);
    }

    /** setAlpha(alpha): deprecated and ignored. */
    method SetAlpha(alpha: int)
      modifies this, corners
      ensures unchanged(this) && unchanged(corners)
    {
    }

    /** setColorFilter(filter): deprecated and ignored. */
    method SetColorFilter(filter: nat)
      modifies this, corners
      ensures unchanged(this) && unchanged(corners)
    {
    }
  }
}
