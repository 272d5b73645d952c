/** The interaction state of index.js: the globals that the event handlers
    change (`numLinks`, `interactiveMode`, `drew`, `mouseLocation`, `origin`,
    the four arrow flags) gathered in one `Session` object, with one method per
    handler and per timer callback (`draw`, `updatePosition`). Timers and event
    wiring are the caller's business: each method is one callback run. */
module Interaction {
  import opened Complex
  import opened Screen
  import opened Fractal
  import opened Status

  datatype Option<T> = None | Some(value: T)

  /** The bounds and start value of the orbit length (`MAX_NUM_LINKS`, `numLinks`). */
  const MAX_NUM_LINKS: int := 50
  const INITIAL_NUM_LINKS: int := 5
  /** The depth and grid step of the still render: `drawMandelbrotTimed(250, 1, 1)`. */
  const STILL_DEPTH: int := 250
  const STILL_STRIDE: int := 1
  /** The depth of the divergence test that colours the interactive view. */
  const INTERACTIVE_DEPTH: int := 50
  /** How far one pan tick moves the parameter along an axis; exact over reals. */
  const PAN_STEP: real := 0.01

  /** What one `draw` tick does to the canvas. */
  datatype Frame =
      /** Still mode after its render: the canvas is left as it is. */
    | Untouched
      /** Interactive mode before any mouse position: the canvas is only cleared. */
    | Cleared
      /** Still mode, first tick: cleared, then a mark at each listed grid point. */
    | StillRender(marks: seq<ScreenPoint>)
      /** Interactive mode: cleared, the orbit's screen points, whether each
          segment between consecutive points is stroked, and the colour of the
          circles (red when the mouse point diverges, green otherwise). */
    | OrbitView(points: seq<ScreenPoint>, stroked: seq<bool>, diverges: bool)

  /** `parseInt(e.deltaY)`: the wheel delta truncated toward zero. So a
      fractional delta above -1 reads as 0 and counts as "not negative". */
  function ParseIntOfDelta(deltaY: real): (variation: int)
    ensures variation < 0 <==> deltaY <= -1.0
    ensures -1.0 < deltaY < 1.0 ==> variation == 0
  {
    if deltaY >= 0.0 then deltaY.Floor else -((-deltaY).Floor)
  }

  /** The wheel handler's update of `numLinks`: a negative variation adds a
      link unless there are already MAX_NUM_LINKS, any other variation removes
      one unless there are none. Within the bounds this is an increment or a
      decrement saturating at the bounds, and the bounds are kept. */
  function NextLinkCount(numLinks: int, variation: int): (r: int)
    ensures 0 <= numLinks <= MAX_NUM_LINKS ==> 0 <= r <= MAX_NUM_LINKS
    ensures 0 <= numLinks <= MAX_NUM_LINKS ==>
      r == if variation < 0 then Min(numLinks + 1, MAX_NUM_LINKS) else Max(numLinks - 1, 0)
  {
    if variation < 0 then
      (if numLinks < MAX_NUM_LINKS then numLinks + 1 else numLinks)
    else
      (if numLinks > 0 then numLinks - 1 else numLinks)
  }

  /** `count` wheel events with the same variation. */
  function WheelEvents(numLinks: int, variation: int, count: nat): int
    decreases count
  {
    if count == 0 then numLinks else WheelEvents(NextLinkCount(numLinks, variation), variation, count - 1)
  }

  function Min(a: int, b: int): int { if a <= b then a else b }
  function Max(a: int, b: int): int { if a >= b then a else b }

  /** Scrolling up saturates at MAX_NUM_LINKS, scrolling down at 0. */
  lemma {:induction false} WheelEventsSaturate(numLinks: int, variation: int, count: nat)
    requires 0 <= numLinks <= MAX_NUM_LINKS
    ensures variation < 0 ==> WheelEvents(numLinks, variation, count) == Min(numLinks + count, MAX_NUM_LINKS)
    ensures variation >= 0 ==> WheelEvents(numLinks, variation, count) == Max(numLinks - count, 0)
    decreases count
  {
    if count > 0 {
      WheelEventsSaturate(NextLinkCount(numLinks, variation), variation, count - 1);
    }
  }

  /** From the initial 5 links, sixty scroll-ups give exactly 50; from 50,
      sixty scroll-downs give exactly 0. */
  lemma SixtyWheelEvents()
    ensures WheelEvents(INITIAL_NUM_LINKS, -1, 60) == MAX_NUM_LINKS
    ensures WheelEvents(MAX_NUM_LINKS, 1, 60) == 0
  {
    WheelEventsSaturate(INITIAL_NUM_LINKS, -1, 60);
    WheelEventsSaturate(MAX_NUM_LINKS, 1, 60);
  }

  /** The net move of one pan tick along an axis whose negative direction is
      held when `minus` and positive direction when `plus`. */
  function PanDelta(minus: bool, plus: bool): real {
    (if plus then PAN_STEP else 0.0) - (if minus then PAN_STEP else 0.0)
  }

  /** The parameter after one `updatePosition` tick. */
  function Nudge(origin: Point, left: bool, right: bool, up: bool, down: bool): Point {
    Point(origin.x + PanDelta(left, right), origin.y + PanDelta(up, down))
  }

  /** The parameter after `n` pan ticks with the same keys held. */
  function PanTicks(origin: Point, left: bool, right: bool, up: bool, down: bool, n: nat): Point {
    if n == 0 then origin else Nudge(PanTicks(origin, left, right, up, down, n - 1), left, right, up, down)
  }

  /** Holding keys for n ticks moves the parameter by exactly n steps per held
      direction: right adds, left subtracts, both together cancel; likewise
      down and up on the imaginary axis. */
  lemma {:induction false} PanAccumulates(origin: Point, left: bool, right: bool, up: bool, down: bool, n: nat)
    ensures right && !left ==> PanTicks(origin, left, right, up, down, n).x == origin.x + n as real * PAN_STEP
    ensures left && !right ==> PanTicks(origin, left, right, up, down, n).x == origin.x - n as real * PAN_STEP
    ensures left == right ==> PanTicks(origin, left, right, up, down, n).x == origin.x
    ensures down && !up ==> PanTicks(origin, left, right, up, down, n).y == origin.y + n as real * PAN_STEP
    ensures up && !down ==> PanTicks(origin, left, right, up, down, n).y == origin.y - n as real * PAN_STEP
    ensures up == down ==> PanTicks(origin, left, right, up, down, n).y == origin.y
  {
    if n > 0 {
      PanAccumulates(origin, left, right, up, down, n - 1);
    }
  }

  /** Screen positions of a list of plane points (`points.map(p => p.toScreen())`). */
  function ToScreenAll(points: seq<Point>, v: Viewport): (r: seq<ScreenPoint>)
    ensures |r| == |points|
    ensures forall k :: 0 <= k < |points| ==> r[k] == ToScreen(points[k], v)
  {
    if points == [] then [] else [ToScreen(points[0], v)] + ToScreenAll(points[1..], v)
  }

  /** What the interactive view draws for mouse point z and parameter c. */
  ghost predicate ShowsOrbit(frame: Frame, escaped: Point -> bool, z: Point, c: Point, numLinks: int, v: Viewport) {
    frame.OrbitView?
    && (exists orbit :: IsOrbit(escaped, z, c, numLinks, orbit) && frame.points == ToScreenAll(orbit, v))
    && |frame.stroked| == |frame.points| - 1
    && (forall k :: 0 <= k < |frame.stroked| ==>
          (frame.stroked[k] <==> SegmentVisible(frame.points[k], frame.points[k + 1], v)))
    && (frame.diverges <==> EscapesWithin(escaped, z, c, INTERACTIVE_DEPTH))
  }

  /** The colour and the orbit agree: when the orbit is cut short because an
      iterate escaped, the circles are red. */
  lemma ShortOrbitIsRed(frame: Frame, escaped: Point -> bool, z: Point, c: Point, numLinks: int, v: Viewport)
    requires 0 <= numLinks <= MAX_NUM_LINKS
    requires ShowsOrbit(frame, escaped, z, c, numLinks, v)
    requires |frame.points| < numLinks + 2
    ensures frame.diverges
  {
  }

  /** The segment filter of `draw`: for each pair of consecutive screen
      points, whether the segment between them is stroked. */
  method StrokedSegments(points: seq<ScreenPoint>, v: Viewport) returns (stroked: seq<bool>)
    ensures |stroked| == if |points| == 0 then 0 else |points| - 1
    ensures forall k :: 0 <= k < |stroked| ==>
      (stroked[k] <==> SegmentVisible(points[k], points[k + 1], v))
  {
    stroked := [];
    var i := 0;
    while i < |points| - 1
      invariant 0 <= i <= if |points| == 0 then 0 else |points| - 1
      invariant |stroked| == i
      invariant forall k :: 0 <= k < i ==>
        (stroked[k] <==> SegmentVisible(points[k], points[k + 1], v))
    {
      var p, q := points[i], points[i + 1];
      var visible := (p.x >= 0.0 && p.x < v.width as real && p.y >= 0.0 && p.y < v.height as real)
                  || (q.x >= 0.0 && q.x < v.width as real && q.y >= 0.0 && q.y < v.height as real);
      stroked := stroked + [visible];
      i := i + 1;
    }
  }

  /** The interactive branch of `draw` for mouse point z and parameter c: the
      orbit mapped to the screen, the stroked segments, and the colour test. */
  method InteractiveFrame(escaped: Point -> bool, z: Point, c: Point, numLinks: int, v: Viewport)
    returns (frame: Frame)
    ensures ShowsOrbit(frame, escaped, z, c, numLinks, v)
  {
    var orbit := BuildOrbit(escaped, z, c, numLinks);
    var points := ToScreenAll(orbit, v);
    var stroked := StrokedSegments(points, v);
    var diverges := DoesItDiverge(escaped, z, c, INTERACTIVE_DEPTH);
    frame := OrbitView(points, stroked, diverges);
  }

  /** The session state of the page. */
  class Session {
    var view: Viewport
    var numLinks: int
    var interactiveMode: bool
    var drew: bool
    var mouseLocation: Option<Point>
    var origin: Point
    var left: bool
    var right: bool
    var up: bool
    var down: bool

    /** The link count stays within its bounds, and the still render is only
        ever marked done in still mode. */
    ghost predicate Valid()
      reads this
    {
      0 <= numLinks <= MAX_NUM_LINKS && (drew ==> !interactiveMode)
    }

    /** The page as loaded, on a canvas of the given size. */
    constructor (width: nat, height: nat)
      ensures Valid()
      ensures view == Centred(width, height)
      ensures numLinks == INITIAL_NUM_LINKS && interactiveMode && !drew
      ensures mouseLocation == None && origin == Zero
      ensures !left && !right && !up && !down
    {
      view := Centred(width, height);
      numLinks := INITIAL_NUM_LINKS;
      interactiveMode := true;
      drew := false;
      mouseLocation := None;
      origin := Zero;
      left, right, up, down := false, false, false, false;
    }

    /** The resize listener: the plane origin moves to the new canvas centre. */
    method Resize(width: nat, height: nat)
      requires Valid()
      modifies this`view
      ensures Valid()
      ensures view == Centred(width, height)
    {
      view := Centred(width, height);
    }

    /** The mousemove listener, given the mouse's canvas position. */
    method MouseMove(s: ScreenPoint)
      requires Valid()
      modifies this`mouseLocation
      ensures Valid()
      ensures mouseLocation == Some(ToPoint(s, view))
    {
      mouseLocation := Some(ToPoint(s, view));
    }

    /** The wheel listener; returns the new status line. */
    method Wheel(deltaY: real) returns (status: string)
      requires Valid()
      modifies this`numLinks
      ensures Valid()
      ensures numLinks == NextLinkCount(old(numLinks), ParseIntOfDelta(deltaY))
      ensures status == StatusText(interactiveMode, numLinks)
    {
      var variation := ParseIntOfDelta(deltaY);
      if variation < 0 {
        if numLinks < MAX_NUM_LINKS {
          numLinks := numLinks + 1;
        }
      } else {
        if numLinks > 0 {
          numLinks := numLinks - 1;
        }
      }
      status := StatusText(interactiveMode, numLinks);
    }

    /** `switchInteractive`: flips the mode and forgets the still render;
        returns the new status line. */
    method SwitchInteractive() returns (status: string)
      requires Valid()
      modifies this`interactiveMode, this`drew
      ensures Valid()
      ensures interactiveMode == !old(interactiveMode) && !drew
      ensures status == StatusText(interactiveMode, numLinks)
    {
      interactiveMode := !interactiveMode;
      drew := false;
      status := StatusText(interactiveMode, numLinks);
    }

    /** `drawMandelbrotTimed`: marks the still render done and selects the
        grid points whose orbit of `origin` does not diverge. */
    method DrawMandelbrotTimed(escaped: Point -> bool, depth: int, stride: int)
      returns (marks: seq<ScreenPoint>)
      requires Valid() && !interactiveMode && stride > 0
      modifies this`drew
      ensures Valid() && drew
      ensures forall s :: s in marks <==>
        OnGrid(s, stride, view) && !EscapesWithin(escaped, origin, ToPoint(s, view), depth)
    {
      drew := true;
      marks := GridMarks(escaped, origin, view, depth, stride);
    }

    /** `draw`, one tick of the render timer. */
    method Draw(escaped: Point -> bool) returns (frame: Frame)
      requires Valid()
      modifies this`drew
      ensures Valid()
      ensures !interactiveMode && old(drew) ==> frame == Untouched && drew
      ensures !interactiveMode && !old(drew) ==>
        drew && frame.StillRender? &&
        (forall s :: s in frame.marks <==>
          OnGrid(s, STILL_STRIDE, view) && !EscapesWithin(escaped, origin, ToPoint(s, view), STILL_DEPTH))
      ensures interactiveMode ==> drew == old(drew)
      ensures interactiveMode && mouseLocation.None? ==> frame == Cleared
      ensures interactiveMode && mouseLocation.Some? ==>
        ShowsOrbit(frame, escaped, mouseLocation.value, origin, numLinks, view)
    {
      if !interactiveMode {
        if !drew {
          var marks := DrawMandelbrotTimed(escaped, STILL_DEPTH, STILL_STRIDE);
          frame := StillRender(marks);
        } else {
          frame := Untouched;
        }
        return;
      }
      if mouseLocation.None? {
        return Cleared;
      }
      frame := InteractiveFrame(escaped, mouseLocation.value, origin, numLinks, view);
    }

    /** `updatePosition`, one tick of the pan timer: each held arrow moves the
        parameter by PAN_STEP; nothing else changes. */
    method UpdatePosition()
      requires Valid()
      modifies this`origin
      ensures Valid()
      ensures origin == Nudge(old(origin), left, right, up, down)
    {
      if left {
        origin := Point(origin.x - PAN_STEP, origin.y);
      }
      if right {
        origin := Point(origin.x + PAN_STEP, origin.y);
      }
      if up {
        origin := Point(origin.x, origin.y - PAN_STEP);
      }
      if down {
        origin := Point(origin.x, origin.y + PAN_STEP);
      }
    }

    /** The keydown listener: sets the flag of the pressed arrow key only. */
    method KeyDown(key: string)
      requires Valid()
      modifies this`left, this`right, this`up, this`down
      ensures Valid()
      ensures right == (old(right) || key == "ArrowRight")
      ensures left == (old(left) || key == "ArrowLeft")
      ensures up == (old(up) || key == "ArrowUp")
      ensures down == (old(down) || key == "ArrowDown")
    {
      if key == "ArrowRight" {
        right := true;
      } else if key == "ArrowLeft" {
        left := true;
      } else if key == "ArrowUp" {
        up := true;
      } else if key == "ArrowDown" {
        down := true;
      }
    }

    /** The keyup listener: clears the flag of the released arrow key only. */
    method KeyUp(key: string)
      requires Valid()
      modifies this`left, this`right, this`up, this`down
      ensures Valid()
      ensures right == (old(right) && key != "ArrowRight")
      ensures left == (old(left) && key != "ArrowLeft")
      ensures up == (old(up) && key != "ArrowUp")
      ensures down == (old(down) && key != "ArrowDown")
    {
      if key == "ArrowRight" {
        right := false;
      } else if key == "ArrowLeft" {
        left := false;
      } else if key == "ArrowUp" {
        up := false;
      } else if key == "ArrowDown" {
        down := false;
      }
    }
  }

  /** In still mode the grid is rendered on the first tick only; the second
      tick leaves the canvas alone, and switching away and back renders again. */
  method StillRendersOnce(s: Session, escaped: Point -> bool)
    returns (first: Frame, second: Frame, third: Frame)
    requires s.Valid() && !s.interactiveMode && !s.drew
    modifies s
    ensures first.StillRender? && second == Untouched && third.StillRender?
    ensures !s.interactiveMode && s.drew
  {
    first := s.Draw(escaped);
    second := s.Draw(escaped);
    var _ := s.SwitchInteractive();
    var _ := s.SwitchInteractive();
    third := s.Draw(escaped);
  }

  /** Sixty scroll-ups on a fresh session leave exactly MAX_NUM_LINKS links. */
  method SixtyScrollUps(s: Session)
    requires s.Valid() && s.numLinks == INITIAL_NUM_LINKS
    modifies s
    ensures s.Valid() && s.numLinks == MAX_NUM_LINKS
  {
    var n := 0;
    while n < 60
      invariant 0 <= n <= 60
      invariant s.Valid() && s.numLinks == WheelEvents(INITIAL_NUM_LINKS, -1, n)
    {
      WheelEventsPrefix(INITIAL_NUM_LINKS, -1, n);
      var _ := s.Wheel(-1.0);
      n := n + 1;
    }
    SixtyWheelEvents();
  }

  /** One more event after n events. */
  lemma {:induction false} WheelEventsPrefix(numLinks: int, variation: int, n: nat)
    ensures WheelEvents(numLinks, variation, n + 1) == NextLinkCount(WheelEvents(numLinks, variation, n), variation)
    decreases n
  {
    if n > 0 {
      WheelEventsPrefix(NextLinkCount(numLinks, variation), variation, n - 1);
    }
  }

  /** n pan ticks run by the pan timer land where PanTicks says. */
  method HoldKeys(s: Session, n: nat)
    requires s.Valid()
    modifies s
    ensures s.Valid()
    ensures s.origin == PanTicks(old(s.origin), s.left, s.right, s.up, s.down, n)
    ensures s.left == old(s.left) && s.right == old(s.right) && s.up == old(s.up) && s.down == old(s.down)
  {
    var k := 0;
    while k < n
      invariant 0 <= k <= n && s.Valid()
      invariant s.left == old(s.left) && s.right == old(s.right) && s.up == old(s.up) && s.down == old(s.down)
      invariant s.origin == PanTicks(old(s.origin), s.left, s.right, s.up, s.down, k)
    {
      s.UpdatePosition();
      k := k + 1;
    }
  }
}
