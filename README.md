# Fractal explorer: escape-time kernels and render passes

A model of the core of a small Swing fractal explorer. It has two
parts. The first is the three escape-time kernels: Mandelbrot, Tricorn
and Burning Ship. The second is the window's render-pass
bookkeeping: the row jobs, the countdown of outstanding rows, and the
enabling of the controls.

- `geometry.dfy` — `Geometry.Rect`, the mutable viewport (x, y, width,
  height), and its value `Rectangle`.
- `escape_time.dfy` — the counting loop all three kernels share
  (`EscapeTime.CountEscape`). It is proved against the specification
  functions `Iterate` (the n-th point of the orbit), `StopCount` (where the
  loop stops) and `Outcome` (the counter, or the sentinel -1 when the counter has
  reached the cap). Lemmas characterise the result as "the first step after
  which the point lies outside radius 2". The edge case where a point first
  escapes on step 2000, which is still reported as -1, is proved as a lemma.
- `mandelbrot.dfy`, `tricorn.dfy`, `burning_ship.dfy` — each kernel's
  `MAX_ITERATIONS`, `GetInitialRange`, recurrence `Step` and `NumIterations`.
  Per-kernel lemmas cover the origin, a far point, the Tricorn agreeing with
  the Mandelbrot set on the real axis, and every Burning Ship point with
  y > 2 escaping at once.
- `generators.dfy` — the closed choice among the three kernels (the combo
  box's items), dispatching `getInitialRange` and `numIterations`.
- `rendering.dfy` — the colour of one pixel and of one row: black for the
  sentinel, otherwise the hue colour of the count.
- `explorer.dfy` — `Explorer.FractalExplorer`, a class with the frame
  buffer (`array2<int>`), the countdown `rowsRemaining`, the `enabled` state
  of the controls, and the multiset `pending` of dispatched row jobs that
  have not completed.
  - `PassInvariant` states the discipline of one pass:
    - each row has at most one job;
    - the countdown equals the number of outstanding jobs;
    - the controls are on exactly when no job is outstanding.
  - `DrawFractal` establishes `PassInvariant` when no job is outstanding.
    `Reset`, `SelectGenerator`, `MouseClicked` and `Done` preserve it, the
    last for any job, completed in any order. A `DrawFractal` started while
    jobs are outstanding, as the unguarded click does, can break it (see
    "## Findings").
  - `CompletePass` runs a whole pass with the jobs completing in an
    arbitrary order. It proves that every pixel then holds the colour of its
    point and that the controls come back on.

The calls into library code that is not part of this model are parameters
of the explorer, fixed at construction. They are
`FractalGenerator.getCoord`, `FractalGenerator.recenterAndZoomRange` and the
HSB colour conversion. Reset and the generator choice require the controls
to be enabled, because those controls are disabled during a pass. A mouse
click on the image can arrive at any time, since nothing disables the
image display.

The imaginary coordinate of a pixel is mapped over the range's width, not
its height (`RowCoord`; src/FractalExplorer.java lines 149 and 184). The model
follows the code. `Generators.InitialRangesAreSquare` shows that this makes
no difference for the default viewports.

## Model

| member | source | states |
|---|---|---|
| Geometry.Rect.constructor | src/FractalExplorer.java:36 | a new viewport holds exactly the given x, y, width and height |
| EscapeTime.StopCount | src/Mandelbrot.java:23-32 | the loop, entered after k steps, stops with a counter between k and the cap, and strictly after k while the cap is not reached |
| EscapeTime.StopCountIsFirstEscape | src/Mandelbrot.java:24-32 | a stopping counter below the cap is a step whose point lies outside radius 2, and no earlier step after k escaped |
| EscapeTime.Outcome | src/Mandelbrot.java:35-37 | the result is -1 or a count in 1 .. cap-1, never 0 and never the cap |
| EscapeTime.OutcomeIsFirstEscape | src/Mandelbrot.java:20-38 | a positive result is the first step whose point escapes; the result is -1 exactly when no step before the cap escapes |
| EscapeTime.CountEscape | src/Mandelbrot.java:21-37 | the loop with its early break returns Outcome, that is the first escaping step or -1, with the bounds and both directions of the -1 case |
| EscapeTime.FixedOrbit | src/Mandelbrot.java:26-29 | a point the recurrence maps to itself stays there for any number of steps |
| EscapeTime.FixedPointIsBounded | src/Mandelbrot.java:35-36 | a fixed point inside radius 2 is reported as -1 |
| EscapeTime.FirstStepEscapes | src/Mandelbrot.java:30-31 | a point whose first iterate lies outside radius 2 is reported as 1 |
| EscapeTime.FinalStepEscapeIsSentinel | src/Mandelbrot.java:24-37 | a point that first escapes on the last permitted step is still reported as -1 |
| EscapeTime.SameOrbitSameStop | src/Mandelbrot.java:24-32 | two recurrences with the same orbit stop at the same counter |
| EscapeTime.SameOrbitSameOutcome | src/Mandelbrot.java:20-38 | two recurrences with the same orbit give the same result |
| Mandelbrot.GetInitialRange | src/Mandelbrot.java:12-17 | the viewport becomes x = -2, y = -1.5, width = height = 3 |
| Mandelbrot.NumIterations | src/Mandelbrot.java:20-38 | with z' = z*z + c and at most 2000 steps: -1 or a count below 2000, the first escaping step, -1 exactly when no step below 2000 escapes |
| Mandelbrot.OriginIsBounded | src/Mandelbrot.java:26-27 | the origin is fixed by the recurrence and is reported as -1 |
| Mandelbrot.FarPointEscapesAtOnce | src/Mandelbrot.java:26-31 | (10, 10) goes to (10, 210) and is reported as 1 |
| Tricorn.GetInitialRange | src/Tricorn.java:12-17 | the viewport becomes x = -2, y = -2, width = height = 4 |
| Tricorn.NumIterations | src/Tricorn.java:21-40 | with the conjugate step (imaginary part -2ab + y): -1 or a count below 2000, the first escaping step, -1 exactly when none escapes |
| Tricorn.OriginIsBounded | src/Tricorn.java:27-28 | the origin is reported as -1 |
| Tricorn.FarPointEscapesAtOnce | src/Tricorn.java:27-32 | (10, 10) goes to (10, -190) and is reported as 1 |
| Tricorn.RealAxisOrbit | src/Tricorn.java:27-28 | for y = 0 the imaginary part stays 0 and the orbit equals the Mandelbrot orbit |
| Tricorn.RealAxisMatchesMandelbrot | src/Tricorn.java:21-40 | on the real axis Tricorn and Mandelbrot return the same value |
| BurningShip.GetInitialRange | src/BurningShip.java:12-17 | the viewport becomes x = -2, y = -2.5, width = height = 4 |
| BurningShip.NumIterations | src/BurningShip.java:21-39 | with imaginary part abs(2ab) + y: -1 or a count below 2000, the first escaping step, -1 exactly when none escapes |
| BurningShip.OriginIsBounded | src/BurningShip.java:27-28 | the origin is reported as -1 |
| BurningShip.FarPointEscapesAtOnce | src/BurningShip.java:27-31 | (10, 10) goes to (10, 210) and is reported as 1 |
| BurningShip.ImaginaryAtLeastY | src/BurningShip.java:28 | after one or more steps the imaginary part is at least y |
| BurningShip.HighPointEscapesAtOnce | src/BurningShip.java:28-31 | every point with y > 2 is reported as 1 |
| Generators.GetInitialRange | src/FractalExplorer.java:37 | getInitialRange through the base class sets the chosen generator's default viewport |
| Generators.NumIterations | src/FractalExplorer.java:183-184 | numIterations through the base class returns the chosen kernel's value, -1 or a count below its cap of 2000 |
| Generators.InitialRangesAreSquare | src/FractalExplorer.java:149 | every default viewport has equal, positive width and height |
| Generators.OriginIsBounded | src/FractalExplorer.java:183-184 | every generator reports the origin as -1 |
| Generators.FarPointEscapesAtOnce | src/FractalExplorer.java:183-184 | every generator reports (10, 10) as 1 |
| Rendering.PixelColour | src/FractalExplorer.java:183-190 | the colour of pixel (i, y) is 0 (black) when the kernel returns the sentinel -1 at the pixel's coordinates in the viewport, and the hue colour of the count otherwise |
| Rendering.RowColours | src/FractalExplorer.java:181-193 | a fresh array of displaySize colours, entry i the colour of pixel (i, y) |
| Explorer.AllRows | src/FractalExplorer.java:101-104 | one pass dispatches displaySize jobs, one for each row 0 .. displaySize-1 and none for any other row |
| Explorer.FractalExplorer.constructor | src/FractalExplorer.java:33-38 | a new explorer shows Mandelbrot's default viewport, with no job outstanding and the controls on |
| Explorer.FractalExplorer.DrawFractal | src/FractalExplorer.java:97-105 | controls off, countdown = displaySize, one job added per row; starting from no outstanding job this establishes the pass invariant |
| Explorer.FractalExplorer.Reset | src/FractalExplorer.java:117-120 | the current viewport is rewritten in place to the generator's default, then a pass starts; the pass invariant is preserved |
| Explorer.FractalExplorer.SelectGenerator | src/FractalExplorer.java:135-139 | the chosen generator, a fresh viewport set to its default, then a pass; the pass invariant is preserved |
| Explorer.FractalExplorer.MouseClickedAsWritten | src/FractalExplorer.java:147-151 | the viewport is recentred on the clicked point's coordinates and zoomed by 0.5, then a pass starts, whether or not one is in progress |
| Explorer.FractalExplorer.MouseClicked | src/FractalExplorer.java:147-151 | as above while the controls are on; a click during a pass changes nothing; the pass invariant is preserved in every case |
| Explorer.FractalExplorer.DoInBackground | src/FractalExplorer.java:180-194 | the row job computes, for each column i, the colour of pixel (i, y) in the viewport current at the time it runs |
| Explorer.FractalExplorer.Done | src/FractalExplorer.java:201-209 | row y of the image gets the job's colours and nothing else changes; the job leaves pending, the countdown drops by one, the controls turn on when it reaches 0; the pass invariant is preserved |
| Explorer.FractalExplorer.CompleteRow | src/FractalExplorer.java:180-209 | a job run to completion keeps the pass invariant and every completed row correct (`RowsDrawn`: every row with no outstanding job shows the current viewport) |
| Explorer.FractalExplorer.CompletePass | src/FractalExplorer.java:97-209 | jobs completing in any order bring the countdown to 0, turn the controls on, and leave the whole image showing the current viewport |
| Explorer.ClickWhileRendering | src/FractalExplorer.java:147-151 | a click during a pass leaves the controls on with the countdown at 0 while a row job is still outstanding, which breaks the pass invariant |

## Left out

- Floating point: the kernels and the coordinates compute on exact reals,
  not IEEE-754 doubles. Rounding at each step, and so the counts for points
  near the boundary, is not modelled.
- Mandelbrot.NumIterations: exact real arithmetic in place of the double
  arithmetic of the source, for the reason above. The same holds for
  Tricorn.NumIterations, BurningShip.NumIterations and EscapeTime.CountEscape.
- `FractalGenerator.getCoord` and `FractalGenerator.recenterAndZoomRange`:
  FractalGenerator.java is not part of this model. Both are unconstrained
  function parameters, so nothing is stated about the zoom arithmetic
  beyond its 0.5 argument, or about the pixel-to-coordinate mapping.
- The colour of an escaping count, `Color.HSBtoRGB(0.7 + count / 200, 1, 1)`,
  is an unconstrained function parameter. It is Java library code, in float
  arithmetic.
- JImageDisplay is not part of this model: the frame buffer is a
  displaySize by displaySize integer array indexed [column, row].
  `repaint` has no effect on it and is dropped.
- Explorer.FractalExplorer.constructor: creates the frame buffer itself,
  where the source creates the image display in `setGUI` (line 55). The rest
  of `setGUI` (frames, panels, layout, listeners) is user-interface wiring
  and is left out.
- Threads: SwingWorker jobs are a row index in `pending` and the array
  `DoInBackground` returns. Background computation and event-thread
  completion alternate as whole steps. Interleaving inside a job, and a
  job reading a viewport that an event changes halfway through a row, are
  not modelled.
- The Save button (file chooser, PNG writing, its error dialog) is I/O
  and is left out. So are `main`, which only constructs, calls `setGUI` and
  draws, and the kernels' `toString`.
- `displaySize` is a non-negative integer. With displaySize = 0 a pass
  dispatches no job and the controls stay off; `PassInvariant` only demands
  that they come back on when displaySize > 0.

## Findings

| source | as written | input that shows it | evidently intended | confidence | as-written member | corrected member |
|---|---|---|---|---|---|---|
| src/FractalExplorer.java:108-112, 147-151 | `enableGUI(false)` disables only the two buttons and the combo box, so a click on the image during a pass starts a second pass. That pass resets `rowsRemaining` to displaySize while jobs of the first are still outstanding. | displaySize 2: draw; row 0 completes; click; rows 1 and 0 complete. The countdown reaches 0 and the controls come back on while row 1 of the second pass is still outstanding. | clicks are ignored while a pass is in progress, as the other controls are | medium, not executed | Explorer.FractalExplorer.MouseClickedAsWritten, Explorer.ClickWhileRendering | Explorer.FractalExplorer.MouseClicked |
