/** The escape-time engine of index.js: the iteration z ↦ z·z + c
    (`doesItDiverge`), the orbit that the interactive view draws, and the grid
    selection of the still render (`drawMandelbrotTimed`).

    The original stops when a component of an iterate becomes NaN, which with
    doubles happens some steps after the modulus overflows. Over the reals no
    NaN exists, so that test is a parameter `escaped` of every member here: an
    arbitrary predicate on iterates, standing for "has a NaN component". */
module Fractal {
  import opened Complex
  import opened Screen

  /** One application of the quadratic map: z·z + c. */
  function Step(z: Point, c: Point): Point {
    z.TimesComplex(z).Plus(c)
  }

  /** The k-th iterate of z under z ↦ z·z + c; the 0th is z itself. */
  function Iterate(z: Point, c: Point, k: nat): Point {
    if k == 0 then z else Step(Iterate(z, c, k - 1), c)
  }

  /** Some iterate number 1..depth of z is escaped. */
  ghost predicate EscapesWithin(escaped: Point -> bool, z: Point, c: Point, depth: int) {
    exists k :: 1 <= k <= depth && escaped(Iterate(z, c, k))
  }

  /** `doesItDiverge(point, origin, depth)`: iterates at most `depth` times and
      reports whether an iterate was escaped. A depth of zero or less never
      diverges. */
  method DoesItDiverge(escaped: Point -> bool, point: Point, origin: Point, depth: int)
    returns (diverges: bool)
    ensures diverges <==> EscapesWithin(escaped, point, origin, depth)
    ensures depth <= 0 ==> !diverges
  {
    var nextPoint := point;
    var i := 0;
    while i < depth
      invariant 0 <= i <= if depth < 0 then 0 else depth
      invariant nextPoint == Iterate(point, origin, i)
      invariant forall k :: 1 <= k <= i ==> !escaped(Iterate(point, origin, k))
    {
      nextPoint := Step(nextPoint, origin);
      if escaped(nextPoint) {
        assert nextPoint == Iterate(point, origin, i + 1);
        return true;
      }
      i := i + 1;
    }
    return false;
  }

  /** Once some iterate within `depth` is escaped, it is within every larger depth. */
  lemma EscapesMonotone(escaped: Point -> bool, z: Point, c: Point, depth: int, larger: int)
    requires depth <= larger
    ensures EscapesWithin(escaped, z, c, depth) ==> EscapesWithin(escaped, z, c, larger)
    ensures !EscapesWithin(escaped, z, c, 0)
  {
  }

  /** 0 is a fixed point of z ↦ z·z: every iterate of 0 with parameter 0 is 0. */
  lemma {:induction false} OriginIsFixed(k: nat)
    ensures Iterate(Zero, Zero, k) == Zero
  {
    if k > 0 {
      OriginIsFixed(k - 1);
    }
  }

  /** Hence 0 with parameter 0 never diverges, at any depth, unless 0 itself
      counts as escaped. */
  lemma OriginNeverDiverges(escaped: Point -> bool, depth: int)
    requires !escaped(Zero)
    ensures !EscapesWithin(escaped, Zero, Zero, depth)
  {
    forall k | 1 <= k <= depth
      ensures !escaped(Iterate(Zero, Zero, k))
    {
      OriginIsFixed(k);
    }
  }

  /** On the real axis, z ↦ z·z + 2 is r ↦ r·r + 2. */
  lemma StepParameterTwo(r: real)
    ensures Step(Point(r, 0.0), Point(2.0, 0.0)) == Point(r * r + 2.0, 0.0)
  {
  }

  /** The real orbit of 0 under r ↦ r·r + 2. */
  function RealOrbitTwo(k: nat): real {
    if k == 0 then 0.0 else RealOrbitTwo(k - 1) * RealOrbitTwo(k - 1) + 2.0
  }

  /** With parameter 2 the orbit of 0 stays on the real axis. */
  lemma {:induction false} ParameterTwoOnRealAxis(k: nat)
    ensures Iterate(Zero, Point(2.0, 0.0), k) == Point(RealOrbitTwo(k), 0.0)
  {
    if k > 0 {
      var r := RealOrbitTwo(k - 1);
      assert Iterate(Zero, Point(2.0, 0.0), k) == Step(Point(r, 0.0), Point(2.0, 0.0)) by {
        ParameterTwoOnRealAxis(k - 1);
      }
      assert Step(Point(r, 0.0), Point(2.0, 0.0)) == Point(RealOrbitTwo(k), 0.0) by {
        StepParameterTwo(r);
      }
    }
  }

  /** The real orbit 0, 2, 6, 38, 1446, … grows: its k-th entry is at least
      k + 1 for k ≥ 1. */
  lemma {:induction false} RealOrbitTwoGrows(k: nat)
    ensures RealOrbitTwo(k) >= 0.0
    ensures k >= 1 ==> RealOrbitTwo(k) >= k as real + 1.0
  {
    if k > 0 {
      RealOrbitTwoGrows(k - 1);
      var r := RealOrbitTwo(k - 1);
      SquareAtLeast(r);
      if k >= 2 {
        assert r >= k as real;
      }
    }
  }

  /** r·r ≥ 0, and r·r ≥ r once r ≥ 1. */
  lemma SquareAtLeast(r: real)
    ensures r * r >= 0.0
    ensures r >= 1.0 ==> r * r >= r
  {
  }

  /** Parameter 2 escapes from 0 under any escape test that fires beyond some
      real bound: the iterate number `n` is already escaped for n ≥ bound. */
  lemma ParameterTwoDiverges(escaped: Point -> bool, bound: real, n: nat)
    requires forall p: Point :: p.x >= bound ==> escaped(p)
    requires n >= 1 && n as real >= bound
    ensures EscapesWithin(escaped, Zero, Point(2.0, 0.0), n)
  {
    ParameterTwoOnRealAxis(n);
    RealOrbitTwoGrows(n);
    assert escaped(Iterate(Zero, Point(2.0, 0.0), n));
  }

  /** The list the interactive view draws: the start point, the iterates that
      follow it for as long as none is escaped and at most `numLinks` of them,
      then the parameter `c` as a final sentinel. When the list is shorter than
      numLinks + 2 the next iterate was escaped. */
  ghost predicate IsOrbit(escaped: Point -> bool, z: Point, c: Point, numLinks: int, points: seq<Point>) {
    2 <= |points| <= (if numLinks < 0 then 0 else numLinks) + 2
    && points[|points| - 1] == c
    && (forall k :: 0 <= k < |points| - 1 ==> points[k] == Iterate(z, c, k))
    && (forall k :: 1 <= k < |points| - 1 ==> !escaped(points[k]))
    && (|points| < numLinks + 2 ==> escaped(Iterate(z, c, |points| - 1)))
  }

  /** The orbit-building loop of `draw`: push z·z + origin until `numLinks`
      iterates are on the list or the next one is escaped, then push `origin`. */
  method BuildOrbit(escaped: Point -> bool, mouseLocation: Point, origin: Point, numLinks: int)
    returns (points: seq<Point>)
    ensures IsOrbit(escaped, mouseLocation, origin, numLinks, points)
  {
    points := [mouseLocation];
    var i := 0;
    while i < numLinks
      invariant 0 <= i <= if numLinks < 0 then 0 else numLinks
      invariant |points| == i + 1
      invariant forall k :: 0 <= k < |points| ==> points[k] == Iterate(mouseLocation, origin, k)
      invariant forall k :: 1 <= k < |points| ==> !escaped(points[k])
    {
      var power := Step(points[|points| - 1], origin);
      if escaped(power) {
        assert power == Iterate(mouseLocation, origin, i + 1);
        break;
      }
      points := points + [power];
      i := i + 1;
    }
    points := points + [origin];
  }

  /** An orbit starts at z and each entry before the sentinel is z·z + c of
      the entry before it. */
  lemma OrbitLinks(escaped: Point -> bool, z: Point, c: Point, numLinks: int, points: seq<Point>)
    requires IsOrbit(escaped, z, c, numLinks, points)
    ensures points[0] == z
    ensures forall k :: 1 <= k < |points| - 1 ==> points[k] == Step(points[k - 1], c)
  {
  }

  /** The orbit is cut short exactly when the test of `doesItDiverge` with
      depth numLinks would report divergence. */
  lemma OrbitShortIffEscapes(escaped: Point -> bool, z: Point, c: Point, numLinks: int, points: seq<Point>)
    requires IsOrbit(escaped, z, c, numLinks, points)
    ensures |points| < numLinks + 2 <==> EscapesWithin(escaped, z, c, numLinks)
  {
  }

  /** The list is determined by its inputs: two orbits for the same inputs are equal. */
  lemma OrbitUnique(escaped: Point -> bool, z: Point, c: Point, numLinks: int, p: seq<Point>, q: seq<Point>)
    requires IsOrbit(escaped, z, c, numLinks, p)
    requires IsOrbit(escaped, z, c, numLinks, q)
    ensures p == q
  {
  }

  /** A grid position of the still render: whole pixel coordinates on the
      canvas, both multiples of `stride`. */
  predicate OnGrid(s: ScreenPoint, stride: int, v: Viewport)
    requires stride > 0
  {
    s.x == s.x.Floor as real && s.y == s.y.Floor as real
    && 0 <= s.x.Floor < v.width && 0 <= s.y.Floor < v.height
    && s.x.Floor % stride == 0 && s.y.Floor % stride == 0
  }

  /** A positive multiple of a positive number is at least that number. */
  lemma {:induction false} PositiveMultiple(m: int, d: int)
    requires m > 0 && d > 0
    ensures m * d >= m
  {
    if d > 1 {
      PositiveMultiple(m, d - 1);
      assert m * d == m * (d - 1) + m;
    }
  }

  /** Adding m keeps the remainder modulo m. */
  lemma ModAddStride(a: int, m: int)
    requires m > 0
    ensures (a + m) % m == a % m
  {
    var q, r := a / m, a % m;
    var q', r' := (a + m) / m, (a + m) % m;
    assert a == m * q + r && a + m == m * q' + r';
    var d := q' - q - 1;
    assert m * d == r - r';
    if d > 0 {
      PositiveMultiple(m, d);
    } else if d < 0 {
      PositiveMultiple(m, -d);
    }
  }

  /** Between two multiples of m there is a gap of at least m. */
  lemma NextMultiple(a: int, b: int, m: int)
    requires m > 0 && a % m == 0 && b % m == 0 && a < b
    ensures a + m <= b
  {
    var qa, qb := a / m, b / m;
    assert a == m * qa && b == m * qb;
    assert b - a == m * (qb - qa);
    assert qb - qa > 0;
    PositiveMultiple(m, qb - qa);
  }

  /** A grid point that the still render marks: its orbit does not diverge. */
  ghost predicate Marked(escaped: Point -> bool, origin: Point, v: Viewport, depth: int, stride: int, s: ScreenPoint)
    requires stride > 0
  {
    OnGrid(s, stride, v) && !EscapesWithin(escaped, origin, ToPoint(s, v), depth)
  }

  /** `s` comes before column i, row j in the order of the grid walk. */
  predicate Before(s: ScreenPoint, i: int, j: int) {
    s.x < i as real || (s.x == i as real && s.y < j as real)
  }

  /** Visiting grid point (i, j) extends the marks to the next row position. */
  lemma GridVisit(escaped: Point -> bool, origin: Point, v: Viewport, depth: int, stride: int,
                  i: int, j: int, marks: seq<ScreenPoint>, next: seq<ScreenPoint>)
    requires stride > 0 && 0 <= i < v.width && 0 <= j < v.height
    requires i % stride == 0 && j % stride == 0
    requires forall s :: s in marks <==> Marked(escaped, origin, v, depth, stride, s) && Before(s, i, j)
    requires next == if Marked(escaped, origin, v, depth, stride, ScreenPoint(i as real, j as real))
                     then marks + [ScreenPoint(i as real, j as real)] else marks
    ensures forall s :: s in next <==> Marked(escaped, origin, v, depth, stride, s) && Before(s, i, j + stride)
  {
    forall s | Marked(escaped, origin, v, depth, stride, s) && s.x == i as real && j as real < s.y
      ensures j as real + stride as real <= s.y
    {
      NextMultiple(j, s.y.Floor, stride);
    }
  }

  /** A finished column: every marked point of it and of the columns before it is listed. */
  lemma GridColumnDone(escaped: Point -> bool, origin: Point, v: Viewport, depth: int, stride: int,
                       i: int, j: int, marks: seq<ScreenPoint>)
    requires stride > 0 && 0 <= i && i % stride == 0 && j >= v.height
    requires forall s :: s in marks <==> Marked(escaped, origin, v, depth, stride, s) && Before(s, i, j)
    ensures forall s :: s in marks <==> Marked(escaped, origin, v, depth, stride, s) && s.x < (i + stride) as real
  {
    forall s | Marked(escaped, origin, v, depth, stride, s) && i as real < s.x
      ensures (i + stride) as real <= s.x
    {
      NextMultiple(i, s.x.Floor, stride);
    }
  }

  /** The grid walk of `drawMandelbrotTimed`: column by column, row by row,
      every `stride` pixels; a grid point is marked (drawn in the in-set colour)
      when the orbit of `origin` under parameter toPoint(p) does not diverge
      within `depth` steps. */
  method GridMarks(escaped: Point -> bool, origin: Point, v: Viewport, depth: int, stride: int)
    returns (marks: seq<ScreenPoint>)
    requires stride > 0
    ensures forall s :: s in marks <==>
      OnGrid(s, stride, v) && !EscapesWithin(escaped, origin, ToPoint(s, v), depth)
  {
    marks := [];
    var i := 0;
    while i < v.width
      invariant 0 <= i && i % stride == 0
      invariant forall s :: s in marks <==> Marked(escaped, origin, v, depth, stride, s) && s.x < i as real
    {
      var j := 0;
      while j < v.height
        invariant 0 <= j && j % stride == 0
        invariant forall s :: s in marks <==> Marked(escaped, origin, v, depth, stride, s) && Before(s, i, j)
      {
        var p := ScreenPoint(i as real, j as real);
        var diverges := DoesItDiverge(escaped, origin, ToPoint(p, v), depth);
        assert OnGrid(p, stride, v);
        ghost var before := marks;
        if !diverges {
          marks := marks + [p];
        }
        GridVisit(escaped, origin, v, depth, stride, i, j, before, marks);
        ModAddStride(j, stride);
        j := j + stride;
      }
      GridColumnDone(escaped, origin, v, depth, stride, i, j, marks);
      ModAddStride(i, stride);
      i := i + stride;
    }
  }
}
