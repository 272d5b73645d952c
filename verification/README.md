# Mandelbrot/Julia orbit explorer — a Dafny model

This project models the core of a small browser page (`index.js`) for exploring the quadratic map z ↦ z·z + c. It shows the orbit of the mouse point under the map. The arrow keys pan the parameter c, and the scroll wheel sets how many links the orbit has. A button switches to a still render that marks the grid points whose orbit does not diverge.

The model has five modules:

- `Complex` (complex.dfy): the immutable `Point` value with `Plus`, `Minus` and `TimesComplex`.
- `Screen` (screen.dfy): screen points, the canvas (`Viewport`: size plus the screen position of the plane origin), and the affine map between canvas and plane with scale `UNIT` = 200. It also holds the bounds test and the segment filter.
- `Fractal` (fractal.dfy): the escape-time loop `DoesItDiverge`, the orbit loop `BuildOrbit`, and the grid walk `GridMarks` of the still render.
- `Status` (status.dfy): the status line `getText`, including the decimal printing of the link count.
- `Interaction` (interaction.dfy): the page's global state as one `Session` object. It has one method per event handler (wheel, keydown, keyup, mousemove, resize, mode switch) and per timer callback (`Draw`, `UpdatePosition`). `Draw` returns a `Frame` value that says what the tick puts on the canvas.

Arithmetic is over `real`. The page computes with IEEE-754 doubles. It decides that an orbit diverges when an iterate gets a NaN component. That happens a few steps after the modulus overflows. The reals have no NaN, so every member that iterates takes the test as a parameter `escaped: Point -> bool`. Most properties hold for every such test. Two assume something of it: `OriginNeverDiverges` needs 0 itself not to be escaped, and `ParameterTwoDiverges` needs a test that fires for every point whose real part is at least a given bound. Over the reals the canvas/plane round trip is exact, and opposite pan steps cancel exactly.

Three facts about the code shape the model:

- The still render calls `drawMandelbrotTimed(250, 1, 1)` (index.js:169). So its grid step is 1 pixel. The `stride` = 25 and `size` = 10 globals are used only by the unused `drawMandelbrot`.
- With doubles, the orbit of 0 under parameter 2 gets its first NaN component at iterate 12. Iterate 10 is about 1.8·10^202 and still finite, iterate 11 is (+∞, 0), and iterate 12 has a NaN from ∞·0. So `doesItDiverge(0, 2, d)` is false for every d ≤ 11. `ParameterTwoDiverges` states what holds for an escape test that fires above a real bound.
- A wheel delta goes through `parseInt` (index.js:250). A delta strictly between −1 and 0 reads as 0, so it removes a link rather than adding one.

## Model

| member | source | states |
|---|---|---|
| Complex.Point.Minus | index.js:83-89 | `minus` is componentwise and undoes `plus`: (p − q) + q = p |
| Complex.PlusMinusInverse | index.js:83-89 | `plus` and `minus` are inverse in both orders; `plus` is commutative with 0 as identity; p − p = 0 |
| Complex.TimesComplexCommutes | index.js:91-94 | `timesComplex` is commutative |
| Complex.TimesComplexUnits | index.js:91-94 | 1 is the identity of `timesComplex`, 0 annihilates, and i·i = −1, as the standard complex product requires |
| Complex.TimesComplexDistributes | index.js:91-94 | `timesComplex` distributes over `plus` |
| Complex.TimesComplexNorm | index.js:91-94 | the squared modulus is multiplicative: \|pq\|² = \|p\|²·\|q\|² |
| Screen.ToPoint | index.js:33-35 | `toPoint` is inverse to `toScreen` for the same origin: mapping its result back to the screen gives the screen point again |
| Screen.ToScreenThenToPoint | index.js:75-77 | `toScreen` then `toPoint` gives the plane point back (UNIT = 200 ≠ 0) |
| Screen.InBoundsInPlane | index.js:45-47 | a plane point's screen image passes `isInBounds` exactly when the point lies in the half-open plane rectangle the canvas covers |
| Screen.CentredOrigin | index.js:13-19 | after a resize the plane origin maps to the canvas centre and back, and the centre is on any non-empty canvas |
| Fractal.DoesItDiverge | index.js:128-137 | the loop returns true exactly when one of iterates 1..depth of z ↦ z·z + c from the start point is escaped; depth ≤ 0 gives false |
| Fractal.EscapesMonotone | index.js:128-137 | a divergence found at some depth is found at every larger depth; depth 0 never diverges |
| Fractal.OriginIsFixed | index.js:131 | every iterate of 0 under z ↦ z·z + 0 is 0 |
| Fractal.OriginNeverDiverges | index.js:128-137 | start 0 with parameter 0 never diverges at any depth, unless 0 itself is escaped |
| Fractal.ParameterTwoOnRealAxis | index.js:131 | with parameter 2 the orbit of 0 stays on the real axis and follows r ↦ r·r + 2 |
| Fractal.RealOrbitTwoGrows | index.js:131 | that real orbit 0, 2, 6, 38, … has its k-th entry at least k + 1 |
| Fractal.ParameterTwoDiverges | index.js:128-137 | start 0 with parameter 2 diverges within n steps under any escape test that fires for real parts ≥ n |
| Fractal.BuildOrbit | index.js:181-189 | the list starts at the mouse point and holds iterates k = 0, 1, … for as long as none is escaped, at most numLinks of them after the start; it ends with the parameter as sentinel, has 2..numLinks + 2 entries, and is shorter only when the next iterate was escaped |
| Fractal.OrbitLinks | index.js:181-189 | the orbit starts with the mouse point, and each entry before the sentinel is the square-plus-parameter of the one before it |
| Fractal.OrbitShortIffEscapes | index.js:181-189 | the orbit is cut short exactly when `doesItDiverge` with depth numLinks would report divergence |
| Fractal.OrbitUnique | index.js:181-189 | the orbit is determined by its inputs: two lists meeting the orbit description are equal |
| Fractal.GridMarks | index.js:155-162 | the nested grid loops mark exactly the canvas grid points (whole pixels, multiples of the stride) whose orbit of the pan origin, with the point's plane value as parameter, does not diverge within the depth |
| Status.Decimal | index.js:114 | the printed count is non-empty, all digits, with a leading zero only for 0 |
| Status.DecimalRoundTrip | index.js:114 | reading the printed count back gives the count |
| Status.StatusTextDistinguishes | index.js:111-120 | two status lines are equal exactly when the modes match and, in interactive mode, the counts match |
| Interaction.ParseIntOfDelta | index.js:250-251 | the parsed wheel delta is negative exactly when the delta is ≤ −1; deltas in (−1, 1) parse to 0 |
| Interaction.NextLinkCount | index.js:249-260 | one wheel event keeps numLinks in [0, 50]: a negative variation adds a link up to 50, any other variation removes one down to 0 |
| Interaction.WheelEventsSaturate | index.js:249-260 | n scroll-ups from a count in bounds give min(count + n, 50); n scroll-downs give max(count − n, 0) |
| Interaction.SixtyWheelEvents | index.js:107-108 | from the initial 5, sixty scroll-ups give exactly 50; from 50, sixty scroll-downs give exactly 0 |
| Interaction.PanAccumulates | index.js:286-299 | n pan ticks with right held (and not left) add exactly n·0.01 to the real part, left subtracts, both together cancel; down and up do the same on the imaginary part |
| Interaction.ToScreenAll | index.js:190 | the screen list has the orbit's length and entry k is `toScreen` of orbit entry k |
| Interaction.StrokedSegments | index.js:194-203 | the segment between consecutive orbit points is stroked exactly when at least one endpoint is in bounds |
| Interaction.InteractiveFrame | index.js:181-212 | the interactive view shows the orbit mapped to the screen, strokes the visible segments, and colours red exactly when the mouse point diverges within depth 50 |
| Interaction.ShortOrbitIsRed | index.js:181-212 | an orbit cut short by an escaped iterate is always drawn red, because numLinks ≤ 50 |
| Interaction.Session.constructor | index.js:101-122 | the page starts in interactive mode with 5 links, nothing rendered, no mouse position, parameter 0, no arrow held, and the plane origin at the canvas centre |
| Interaction.Session.Resize | index.js:15-20 | a resize moves the plane origin to the new canvas centre and keeps the session invariant |
| Interaction.Session.MouseMove | index.js:240-245 | the mouse position is stored as its plane point; the session invariant is kept |
| Interaction.Session.Wheel | index.js:249-262 | numLinks takes one clamped step and stays in [0, 50]; the returned status line reports it |
| Interaction.Session.SwitchInteractive | index.js:264-270 | the mode flips, the still render is forgotten (`drew` false), and the returned status line reports the new mode |
| Interaction.Session.DrawMandelbrotTimed | index.js:153-163 | sets `drew` and marks exactly the non-diverging grid points |
| Interaction.Session.Draw | index.js:165-238 | still mode renders the grid once and leaves the canvas alone after that; interactive mode always clears; with no mouse position it draws nothing else, otherwise it shows the orbit; `drew` changes only in still mode |
| Interaction.Session.UpdatePosition | index.js:286-299 | the parameter moves by −0.01 or +0.01 per held arrow (left/right on the real part, up/down on the imaginary part); nothing else changes and the session invariant is kept |
| Interaction.Session.KeyDown | index.js:314-327 | only the flag of the pressed arrow key is set; the session invariant is kept |
| Interaction.Session.KeyUp | index.js:300-313 | only the flag of the released arrow key is cleared; the session invariant is kept |
| Interaction.StillRendersOnce | index.js:165-171 | in still mode the first tick renders, the second leaves the canvas alone, and switching away and back renders again |
| Interaction.SixtyScrollUps | index.js:249-260 | sixty scroll-ups on a session with 5 links leave exactly 50 |
| Interaction.HoldKeys | index.js:286-299 | n pan ticks move the parameter as PanAccumulates describes and leave the arrow flags alone |

## Left out

- Canvas and DOM acquisition and the window-size arithmetic (index.js:10-25): `Resize` takes the new canvas size.
- The `Canvas` helper class (index.js:1-8): nothing in the page calls it.
- Every drawing call, such as `clearCanvas`, arcs, lines, strokes and text. `Draw` returns a `Frame` that lists what is drawn: the grid marks, the orbit's screen points, which segments are stroked, and the colour. The filled circles and the `z`/`c` labels (index.js:214-223) sit at the orbit's screen points, at the mouse point (the orbit's first point) and at the parameter (its sentinel), all of which the frame carries. The two axes and the unit circle (index.js:225-236) are not part of the frame: they depend only on the canvas, not on the session state.
- `drawMandelbrot` (index.js:139-151): unused, since its only call is commented out. The commented-out click handler (index.js:271-280) is left out too.
- The two `setInterval` timers (index.js:247, index.js:328): `Draw` and `UpdatePosition` are methods that any scheduler can call.
- The page-offset arithmetic of the mousemove handler (index.js:241-243), which reads browser layout: `MouseMove` takes the canvas position.
- The button and instruction text set by `switchInteractive` and at start-up (index.js:124-125, index.js:267-268). These are DOM text only.
- IEEE-754 rounding, overflow and NaN: coordinates are reals, and the NaN test is the parameter `escaped`.
- `Point.copy` (index.js:79-81): it is never called, and a datatype value is its own copy.
- ParseIntOfDelta: models `parseInt` as truncation of decimal notation. JavaScript prints numbers below 10^-6 or from 10^21 upward in exponent form, which `parseInt` reads differently (−5e-7 parses as −5).
- Interaction.Session.UpdatePosition: the parameter is a value that gets reassigned, not an object changed in place. The only alias in the source is the orbit's sentinel, which is mapped to the screen within the same tick, so reassignment loses nothing.
- Fractal.GridMarks: states which grid points are marked, not the column-by-column order in which they are drawn. Marks of one colour drawn in any order give the same picture.
