/** Screen coordinates and the affine map between the canvas and the complex
    plane (`ScreenPoint`, `Point.toScreen`, `ScreenPoint.toPoint`, `UNIT` and
    the canvas centre `originX`, `originY` in index.js). */
module Screen {
  import opened Complex

  /** Pixels per plane unit (`UNIT`); the scale never changes at run time. */
  const UNIT: real := 200.0

  /** A canvas position in pixels; components may be fractional. */
  datatype ScreenPoint = ScreenPoint(x: real, y: real)

  /** The canvas size (`canvas.width`, `canvas.height`) and the screen position
      of the plane's origin (`originX`, `originY`). */
  datatype Viewport = Viewport(width: nat, height: nat, originX: real, originY: real)

  /** The viewport after a resize: the plane origin sits at the canvas centre. */
  function Centred(width: nat, height: nat): Viewport {
    Viewport(width, height, width as real / 2.0, height as real / 2.0)
  }

  /** `Point.toScreen`: scale by UNIT, then shift by the origin's screen position. */
  function ToScreen(p: Point, v: Viewport): ScreenPoint {
    ScreenPoint(p.x * UNIT + v.originX, p.y * UNIT + v.originY)
  }

  /** `ScreenPoint.toPoint`: the inverse of ToScreen for the same viewport. */
  function ToPoint(s: ScreenPoint, v: Viewport): (p: Point)
    ensures ToScreen(p, v) == s
  {
    Point((s.x - v.originX) / UNIT, (s.y - v.originY) / UNIT)
  }

  /** `ScreenPoint.isInBounds`: the half-open canvas rectangle. */
  predicate InBounds(s: ScreenPoint, v: Viewport) {
    0.0 <= s.x < v.width as real && 0.0 <= s.y < v.height as real
  }

  /** The segment filter of the orbit drawing: a segment is stroked when at
      least one of its endpoints lies on the canvas. */
  predicate SegmentVisible(s: ScreenPoint, t: ScreenPoint, v: Viewport) {
    InBounds(s, v) || InBounds(t, v)
  }

  /** Mapping a plane point to the screen and back gives the point again. */
  lemma ToScreenThenToPoint(p: Point, v: Viewport)
    ensures ToPoint(ToScreen(p, v), v) == p
  {
  }

  /** Which plane points are visible: ToScreen(p) is on the canvas exactly when
      p lies in the plane rectangle the canvas covers. */
  lemma InBoundsInPlane(p: Point, v: Viewport)
    ensures InBounds(ToScreen(p, v), v) <==>
      (-v.originX / UNIT <= p.x < (v.width as real - v.originX) / UNIT &&
       -v.originY / UNIT <= p.y < (v.height as real - v.originY) / UNIT)
  {
  }

  /** After a resize the plane origin maps to the canvas centre, which is on a
      non-empty canvas. */
  lemma CentredOrigin(width: nat, height: nat)
    ensures ToScreen(Zero, Centred(width, height)) ==
      ScreenPoint(width as real / 2.0, height as real / 2.0)
    ensures ToPoint(ScreenPoint(width as real / 2.0, height as real / 2.0), Centred(width, height)) == Zero
    ensures width > 0 && height > 0 ==> InBounds(ToScreen(Zero, Centred(width, height)), Centred(width, height))
  {
  }
}
