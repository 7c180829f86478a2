// The integer side of the drawing context: how a path's (type, point)
// arrays turn into path commands, how gradient colours are widened to
// sixteen bits, which strips the gradient frame and the XOR frame
// paint, the "was painted" flag and the colour that drawing disabled
// text must leave as it found it.  What reaches the device is recorded
// as a trace of calls.

module Graphics {
  import opened Geometry

  /** The point types of a path entry (`PT_*`). */
  const PT_CLOSEFIGURE: bv8 := 0x01
  const PT_LINETO: bv8 := 0x02
  const PT_BEZIERTO: bv8 := 0x04
  const PT_MOVETO: bv8 := 0x06

  /** A colour's 8-bit channels. */
  datatype Color = Color(r: bv8, g: bv8, b: bv8)

  datatype Orientation = Horizontal | Vertical

  /** A `TRIVERTEX`: a position and 16-bit channels. */
  datatype TriVertex = TriVertex(x: int, y: int, red: bv16, green: bv16, blue: bv16, alpha: bv16)

  /** The device calls the drawing operations make, in order. */
  datatype GdiCall =
    | BeginPath
    | MoveTo(p: Point)
    | LineTo(p: Point)
    | PolyBezierTo(p1: Point, p2: Point, p3: Point)
    | CloseFigure
    | EndPath
    | FillPath
    | StrokePath
    | GradientFill(upperLeft: TriVertex, lowerRight: TriVertex, orientation: Orientation)
    | PatInvert(area: Rect)
    | DrawText(text: string, bounds: Rect, color: Color)

  // ---------------------------------------------------------------
  // Paths

  /** A point of the path, moved by the offset the path is drawn at. */
  function At(pt: Point, p: Point): Point {
    Point(pt.x + p.x, pt.y + p.y)
  }

  /** A Bezier entry always has the two further entries it consumes. */
  predicate Complete(types: seq<bv8>)
    decreases |types|
  {
    if types == [] then true
    else if types[0] & 6 == PT_BEZIERTO then |types| >= 3 && Complete(types[3..])
    else Complete(types[1..])
  }

  /** The figure is closed after an entry whose PT_CLOSEFIGURE bit is set. */
  function CloseIf(t: bv8): seq<GdiCall> {
    if t & PT_CLOSEFIGURE != 0 then [CloseFigure] else []
  }

  /** A one-point entry: a move, a line, or nothing when its type names neither. */
  function Segment(t: bv8, p: Point): seq<GdiCall> {
    if t & 6 == PT_MOVETO then [MoveTo(p)]
    else if t & 6 == PT_LINETO then [LineTo(p)]
    else []
  }

  /**
   * The path commands of `renderPath` after its first move: each entry
   * is read by `type & 6`; a Bezier takes three points and three
   * entries, and only the third entry's PT_CLOSEFIGURE bit counts.
   */
  function Decode(types: seq<bv8>, points: seq<Point>, pt: Point): seq<GdiCall>
    requires |points| == |types| && Complete(types)
    decreases |types|
  {
    if types == [] then []
    else if types[0] & 6 == PT_BEZIERTO then
      [PolyBezierTo(At(pt, points[0]), At(pt, points[1]), At(pt, points[2]))] + CloseIf(types[2])
      + Decode(types[3..], points[3..], pt)
    else
      Segment(types[0], At(pt, points[0])) + CloseIf(types[0]) + Decode(types[1..], points[1..], pt)
  }

  /** What a path is made of: moves, lines and Bezier curves, each possibly closing the figure. */
  datatype Shape = Move(p: Point) | Line(p: Point) | Bezier(p1: Point, p2: Point, p3: Point)

  datatype Element = Element(shape: Shape, close: bool)

  function CloseBit(close: bool): bv8 {
    if close then PT_CLOSEFIGURE else 0
  }

  /** The type entries a path holds for its elements. */
  function EncodeTypes(es: seq<Element>): seq<bv8> {
    if es == [] then []
    else
      var c := CloseBit(es[0].close);
      (match es[0].shape
       case Move(_) => [PT_MOVETO | c]
       case Line(_) => [PT_LINETO | c]
       case Bezier(_, _, _) => [PT_BEZIERTO, PT_BEZIERTO, PT_BEZIERTO | c])
      + EncodeTypes(es[1..])
  }

  /** The points a path holds for its elements. */
  function EncodePoints(es: seq<Element>): seq<Point> {
    if es == [] then []
    else
      (match es[0].shape
       case Move(p) => [p]
       case Line(p) => [p]
       case Bezier(p1, p2, p3) => [p1, p2, p3])
      + EncodePoints(es[1..])
  }

  /** The commands that draw the elements at offset `pt`. */
  function Drawn(es: seq<Element>, pt: Point): seq<GdiCall> {
    if es == [] then []
    else
      (match es[0].shape
       case Move(p) => [MoveTo(At(pt, p))]
       case Line(p) => [LineTo(At(pt, p))]
       case Bezier(p1, p2, p3) => [PolyBezierTo(At(pt, p1), At(pt, p2), At(pt, p3))])
      + (if es[0].close then [CloseFigure] else [])
      + Drawn(es[1..], pt)
  }

  /**
   * Reading back what a path holds for its elements draws exactly those
   * elements, each closing the figure when it was meant to.
   */
  lemma {:induction false} DecodeEncoded(es: seq<Element>, pt: Point)
    ensures |EncodePoints(es)| == |EncodeTypes(es)| && Complete(EncodeTypes(es))
    ensures Decode(EncodeTypes(es), EncodePoints(es), pt) == Drawn(es, pt)
  {
    if es != [] {
      DecodeEncoded(es[1..], pt);
      var c := CloseBit(es[0].close);
      var ts := EncodeTypes(es);
      var ps := EncodePoints(es);
      var rest := EncodeTypes(es[1..]);
      var restPoints := EncodePoints(es[1..]);
      assert CloseIf(PT_MOVETO | c) == CloseIf(PT_LINETO | c) == CloseIf(PT_BEZIERTO | c) ==
             (if es[0].close then [CloseFigure] else []);
      match es[0].shape
      case Move(p) =>
        assert ts == [PT_MOVETO | c] + rest && ps == [p] + restPoints;
        assert ts[1..] == rest && ps[1..] == restPoints;
        assert (PT_MOVETO | c) & 6 == PT_MOVETO;
      case Line(p) =>
        assert ts == [PT_LINETO | c] + rest && ps == [p] + restPoints;
        assert ts[1..] == rest && ps[1..] == restPoints;
        assert (PT_LINETO | c) & 6 == PT_LINETO;
      case Bezier(p1, p2, p3) =>
        assert ts == [PT_BEZIERTO, PT_BEZIERTO, PT_BEZIERTO | c] + rest && ps == [p1, p2, p3] + restPoints;
        assert ts[3..] == rest && ps[3..] == restPoints;
    }
  }

  /** The number of entries the entry at `i` takes: three for a Bezier, one otherwise. */
  function Width(t: bv8): nat {
    if t & 6 == PT_BEZIERTO then 3 else 1
  }

  /** The commands the entry at `i` draws. */
  function Piece(types: seq<bv8>, points: seq<Point>, pt: Point, i: nat): seq<GdiCall>
    requires |points| == |types| && i < |types| && i + Width(types[i]) <= |types|
  {
    if types[i] & 6 == PT_BEZIERTO then
      [PolyBezierTo(At(pt, points[i]), At(pt, points[i + 1]), At(pt, points[i + 2]))] + CloseIf(types[i + 2])
    else
      Segment(types[i], At(pt, points[i])) + CloseIf(types[i])
  }

  /** Decoding from entry `i` draws that entry and then decodes from the entry after it. */
  lemma DecodeAt(types: seq<bv8>, points: seq<Point>, pt: Point, i: nat)
    requires |points| == |types| && i < |types| && Complete(types[i..])
    ensures i + Width(types[i]) <= |types| && Complete(types[i + Width(types[i])..])
    ensures Decode(types[i..], points[i..], pt) ==
              Piece(types, points, pt, i) + Decode(types[i + Width(types[i])..], points[i + Width(types[i])..], pt)
  {
    var n := Width(types[i]);
    var ts, ps := types[i..], points[i..];
    assert ts[0] == types[i];
    assert |ts| >= n;
    assert ts[n..] == types[i + n..] && ps[n..] == points[i + n..];
  }

  /** Drawing the entry at `here` keeps what is drawn plus what is left to decode the same. */
  lemma Advance(types: seq<bv8>, points: seq<Point>, pt: Point, here: nat,
                before: seq<GdiCall>, after: seq<GdiCall>, whole: seq<GdiCall>)
    requires |points| == |types| && here < |types| && Complete(types[here..])
    requires before + Decode(types[here..], points[here..], pt) == whole
    requires here + Width(types[here]) <= |types| && after == before + Piece(types, points, pt, here)
    ensures Complete(types[here + Width(types[here])..])
    ensures after + Decode(types[here + Width(types[here])..], points[here + Width(types[here])..], pt) == whole
  {
    DecodeAt(types, points, pt, here);
  }

  // ---------------------------------------------------------------
  // Gradients

  /** An 8-bit channel widened to sixteen bits: `c | (c << 8)`. */
  function Widen(c: bv8): bv16 {
    (c as bv16) | ((c as bv16) << 8)
  }

  /** Widening repeats the byte: it multiplies by 257, so 0 stays 0 and 255 becomes 0xFFFF. */
  lemma WidenScales(c: bv8)
    ensures Widen(c) as int == c as int * 257
    ensures Widen(c) >> 8 == c as bv16 && Widen(c) & 0xFF == c as bv16
  {
  }

  /** A vertex of `fillGradientRect`: the position, the widened colour and the fixed alpha 0xff00. */
  function Vertex(x: int, y: int, c: Color): TriVertex {
    TriVertex(x, y, Widen(c.r), Widen(c.g), Widen(c.b), 0xff00)
  }

  /** The colour a vertex was made from: the high byte of each channel. */
  function ColorOf(v: TriVertex): Color {
    Color((v.red >> 8) as bv8, (v.green >> 8) as bv8, (v.blue >> 8) as bv8)
  }

  /** A vertex gives back the colour it was made from. */
  lemma VertexColor(x: int, y: int, c: Color)
    ensures ColorOf(Vertex(x, y, c)) == c
  {
    WidenScales(c.r);
    WidenScales(c.g);
    WidenScales(c.b);
  }

  /** `fillGradientRect(x, y, w, h, start, end, orientation)`: one gradient from (x, y) to (x+w, y+h). */
  function Gradient(x: int, y: int, w: int, h: int, start: Color, end: Color, o: Orientation): GdiCall {
    GradientFill(Vertex(x, y, start), Vertex(x + w, y + h, end), o)
  }

  /** The pixels a gradient fill paints: its lower-right vertex is exclusive. */
  predicate Fills(g: GdiCall, p: Point)
    requires g.GradientFill?
  {
    g.upperLeft.x <= p.x < g.lowerRight.x && g.upperLeft.y <= p.y < g.lowerRight.y
  }

  /** The four one-pixel gradients of `drawGradientRect`: top, left, bottom, right. */
  function GradientFrame(x: int, y: int, w: int, h: int, topLeft: Color, topRight: Color,
                         bottomLeft: Color, bottomRight: Color): (r: seq<GdiCall>)
    ensures |r| == 4 && forall k :: 0 <= k < 4 ==> r[k].GradientFill?
  {
    [Gradient(x, y, w, 1, topLeft, topRight, Horizontal),
     Gradient(x, y, 1, h, topLeft, bottomLeft, Vertical),
     Gradient(x, y + h - 1, w, 1, bottomLeft, bottomRight, Horizontal),
     Gradient(x + w - 1, y, 1, h, topRight, bottomRight, Vertical)]
  }

  /**
   * The gradient frame paints exactly the border pixels of the
   * rectangle: those inside it on its first or last row or column.
   */
  lemma GradientFrameIsBorder(x: int, y: int, w: int, h: int, tl: Color, tr: Color, bl: Color, br: Color, p: Point)
    requires 1 <= w && 1 <= h
    ensures var f := GradientFrame(x, y, w, h, tl, tr, bl, br);
            (exists k :: 0 <= k < 4 && Fills(f[k], p)) <==>
              Rect(x, y, w, h).Contains(p) && (p.x == x || p.x == x + w - 1 || p.y == y || p.y == y + h - 1)
  {
    var f := GradientFrame(x, y, w, h, tl, tr, bl, br);
    if Rect(x, y, w, h).Contains(p) {
      if p.y == y {
        assert Fills(f[0], p);
      } else if p.x == x {
        assert Fills(f[1], p);
      } else if p.y == y + h - 1 {
        assert Fills(f[2], p);
      } else if p.x == x + w - 1 {
        assert Fills(f[3], p);
      }
    }
  }

  /** A gradient's two vertices give back its start and end colours. */
  lemma GradientColors(x: int, y: int, w: int, h: int, start: Color, end: Color, o: Orientation)
    ensures ColorOf(Gradient(x, y, w, h, start, end, o).upperLeft) == start
    ensures ColorOf(Gradient(x, y, w, h, start, end, o).lowerRight) == end
  {
    VertexColor(x, y, start);
    VertexColor(x + w, y + h, end);
  }

  /**
   * Each corner's colour is where the two strips meeting at it start or
   * end: the top and left strips start from the top-left colour, the top
   * strip ends and the right strip starts at the top-right colour, and
   * so on round the frame.
   */
  lemma GradientFrameCorners(x: int, y: int, w: int, h: int, tl: Color, tr: Color, bl: Color, br: Color)
    ensures var f := GradientFrame(x, y, w, h, tl, tr, bl, br);
            ColorOf(f[0].upperLeft) == ColorOf(f[1].upperLeft) == tl &&
            ColorOf(f[0].lowerRight) == ColorOf(f[3].upperLeft) == tr &&
            ColorOf(f[1].lowerRight) == ColorOf(f[2].upperLeft) == bl &&
            ColorOf(f[2].lowerRight) == ColorOf(f[3].lowerRight) == br
  {
    GradientColors(x, y, w, 1, tl, tr, Horizontal);
    GradientColors(x, y, 1, h, tl, bl, Vertical);
    GradientColors(x, y + h - 1, w, 1, bl, br, Horizontal);
    GradientColors(x + w - 1, y, 1, h, tr, br, Vertical);
  }

  // ---------------------------------------------------------------
  // The XOR frame

  /** The four pattern-inverted strips of `drawXorFrame`, turning round the frame. */
  function XorStrips(x: int, y: int, w: int, h: int, border: int): seq<Rect> {
    [Rect(x + border, y, w - border, border),
     Rect(x + w - border, y + border, border, h - border),
     Rect(x, y + h - border, w - border, border),
     Rect(x, y, border, h - border)]
  }

  function Hit(r: Rect, p: Point): nat {
    if r.Contains(p) then 1 else 0
  }

  /** How many of `rs` hold `p`. */
  function CoverCount(rs: seq<Rect>, p: Point): nat {
    if rs == [] then 0 else Hit(rs[0], p) + CoverCount(rs[1..], p)
  }

  /** `p` lies in the rectangle less than `border` from one of its edges. */
  predicate InFrame(x: int, y: int, w: int, h: int, border: int, p: Point) {
    Rect(x, y, w, h).Contains(p) &&
    (p.x < x + border || p.x >= x + w - border || p.y < y + border || p.y >= y + h - border)
  }

  /**
   * When the border fits twice across the rectangle, every pixel of the
   * frame is inverted exactly once and nothing else is touched, so the
   * frame shows and a second call puts it back.
   */
  lemma XorFrameInvertsOnce(x: int, y: int, w: int, h: int, border: int, p: Point)
    requires 0 <= border && 2 * border <= w && 2 * border <= h
    ensures CoverCount(XorStrips(x, y, w, h, border), p) == if InFrame(x, y, w, h, border, p) then 1 else 0
  {
    var s := XorStrips(x, y, w, h, border);
    var s1, s2, s3 := s[1..], s[2..], s[3..];
    assert s1[1..] == s2 && s2[1..] == s3 && s3[1..] == [];
    assert CoverCount(s3, p) == Hit(s[3], p);
    assert CoverCount(s2, p) == Hit(s[2], p) + Hit(s[3], p);
    assert CoverCount(s, p) == Hit(s[0], p) + Hit(s[1], p) + Hit(s[2], p) + Hit(s[3], p);
  }

  // ---------------------------------------------------------------
  // The drawing context

  class Graphics {
    var noPaint: bool
    var color: Color
    var trace: seq<GdiCall>

    /** Every constructor starts with `m_noPaint` false; the colour is the widget's or a default. */
    constructor (fg: Color)
      ensures !noPaint && WasPainted() && color == fg && trace == []
    {
      noPaint, color, trace := false, fg, [];
    }

    /** `noPaint`: the default paint handler did not touch the context. */
    method NoPaint()
      modifies this`noPaint
      ensures noPaint && !WasPainted()
    {
      noPaint := true;
    }

    /** `wasPainted`. */
    function WasPainted(): bool
      reads this
    {
      !noPaint
    }

    method SetColor(c: Color)
      modifies this`color
      ensures color == c
    {
      color := c;
    }

    /** `drawString(str, rc, flags)` in the current colour. */
    method DrawString(text: string, rc: Rect)
      modifies this`trace
      ensures trace == old(trace) + [DrawText(text, rc, color)]
    {
      trace := trace + [DrawText(text, rc, color)];
    }

    /**
     * `drawDisabledString`: the text in the highlight colour one pixel
     * down and right, then in the grey-text colour in place; the
     * current colour is what it was before.  The two system colours are
     * inputs.
     */
    method DrawDisabledString(text: string, rc: Rect, highlight: Color, grayText: Color)
      modifies this`color, this`trace
      ensures color == old(color)
      ensures trace == old(trace) + [DrawText(text, Rect(rc.x + 1, rc.y + 1, rc.w, rc.h), highlight),
                                     DrawText(text, rc, grayText)]
    {
      var oldColor := color;
      SetColor(highlight);
      DrawString(text, Rect(rc.x + 1, rc.y + 1, rc.w, rc.h));
      SetColor(grayText);
      DrawString(text, rc);
      color := oldColor;
    }

    /** `fillGradientRect(x, y, w, h, start, end, orientation)`. */
    method FillGradientRect(x: int, y: int, w: int, h: int, start: Color, end: Color, o: Orientation)
      modifies this`trace
      ensures trace == old(trace) + [Gradient(x, y, w, h, start, end, o)]
    {
      var v0 := TriVertex(x, y, Widen(start.r), Widen(start.g), Widen(start.b), 0xff00);
      var v1 := TriVertex(x + w, y + h, Widen(end.r), Widen(end.g), Widen(end.b), 0xff00);
      trace := trace + [GradientFill(v0, v1, o)];
    }

    /** `drawGradientRect`: the four strips of `GradientFrame`, in order. */
    method DrawGradientRect(x: int, y: int, w: int, h: int, topLeft: Color, topRight: Color,
                            bottomLeft: Color, bottomRight: Color)
      modifies this`trace
      ensures trace == old(trace) + GradientFrame(x, y, w, h, topLeft, topRight, bottomLeft, bottomRight)
    {
      FillGradientRect(x, y, w, 1, topLeft, topRight, Horizontal);
      FillGradientRect(x, y, 1, h, topLeft, bottomLeft, Vertical);
      FillGradientRect(x, y + h - 1, w, 1, bottomLeft, bottomRight, Horizontal);
      FillGradientRect(x + w - 1, y, 1, h, topRight, bottomRight, Vertical);
    }

    /** `drawXorFrame`: the four strips of `XorStrips`, each pattern-inverted. */
    method DrawXorFrame(x: int, y: int, w: int, h: int, border: int)
      modifies this`trace
      ensures var s := XorStrips(x, y, w, h, border);
              trace == old(trace) + [PatInvert(s[0]), PatInvert(s[1]), PatInvert(s[2]), PatInvert(s[3])]
    {
      trace := trace + [PatInvert(Rect(x + border, y, w - border, border))];
      trace := trace + [PatInvert(Rect(x + w - border, y + border, border, h - border))];
      trace := trace + [PatInvert(Rect(x, y + h - border, w - border, border))];
      trace := trace + [PatInvert(Rect(x, y, border, h - border))];
    }

    /**
     * One turn of `renderPath`'s loop: the entry at `i` drawn, and the
     * position of the entry after it returned.
     */
    method DrawEntry(types: seq<bv8>, points: seq<Point>, pt: Point, i: nat) returns (next: nat)
      requires |points| == |types| && i < |types| && i + Width(types[i]) <= |types|
      modifies this`trace
      ensures next == i + Width(types[i]) && trace == old(trace) + Piece(types, points, pt, i)
    {
      var kind := types[i] & 6;
      next := i;
      if kind == PT_MOVETO {
        trace := trace + [MoveTo(At(pt, points[i]))];
      } else if kind == PT_LINETO {
        trace := trace + [LineTo(At(pt, points[i]))];
      } else if kind == PT_BEZIERTO {
        trace := trace + [PolyBezierTo(At(pt, points[i]), At(pt, points[i + 1]), At(pt, points[i + 2]))];
        next := i + 2;
      }
      if types[next] & PT_CLOSEFIGURE != 0 {
        trace := trace + [CloseFigure];
      }
      next := next + 1;
    }

    /**
     * `renderPath`: a path opened with a move to `pt`, the decoded
     * commands, then filled or stroked.
     */
    method RenderPath(types: seq<bv8>, points: seq<Point>, pt: Point, fill: bool)
      requires |points| == |types| && Complete(types)
      modifies this`trace
      ensures trace == old(trace) + [BeginPath, MoveTo(pt)] + Decode(types, points, pt)
                       + [EndPath, if fill then FillPath else StrokePath]
    {
      trace := trace + [BeginPath, MoveTo(pt)];
      ghost var start := trace;
      var i := 0;
      while i < |types|
        invariant 0 <= i <= |types| && Complete(types[i..])
        invariant trace + Decode(types[i..], points[i..], pt) == start + Decode(types, points, pt)
        decreases |types| - i
      {
        ghost var before, here := trace, i;
        DecodeAt(types, points, pt, i);
        i := DrawEntry(types, points, pt, i);
        Advance(types, points, pt, here, before, trace, start + Decode(types, points, pt));
      }
      assert types[i..] == [];
      trace := trace + [EndPath, if fill then FillPath else StrokePath];
    }

    /** `strokePath`: the path outlined. */
    method Stroke(types: seq<bv8>, points: seq<Point>, pt: Point)
      requires |points| == |types| && Complete(types)
      modifies this`trace
      ensures trace == old(trace) + [BeginPath, MoveTo(pt)] + Decode(types, points, pt) + [EndPath, StrokePath]
    {
      RenderPath(types, points, pt, false);
    }

    /** `fillPath`: the path filled. */
    method Fill(types: seq<bv8>, points: seq<Point>, pt: Point)
      requires |points| == |types| && Complete(types)
      modifies this`trace
      ensures trace == old(trace) + [BeginPath, MoveTo(pt)] + Decode(types, points, pt) + [EndPath, FillPath]
    {
      RenderPath(types, points, pt, true);
    }
  }
}
