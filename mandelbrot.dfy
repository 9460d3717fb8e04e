/** The Mandelbrot kernel: z' = z*z + c, escape radius 2, at most 2000 steps. */
module Mandelbrot {
  import opened Geometry
  import opened EscapeTime

  const MAX_ITERATIONS: nat := 2000

  /** Sets the viewport to the region from (-2 - 1.5i) to (1 + 1.5i). */
  method GetInitialRange(range: Rect)
    modifies range
    ensures range.x == -2.0 && range.y == -1.5
    ensures range.width == 3.0 && range.height == 3.0
  {
    range.x := -2.0;
    range.y := -1.5;
    range.height := 3.0;
    range.width := 3.0;
  }

  /** One step of the recurrence for the point (x, y): k = a*a - b*b + x, m = 2*a*b + y. */
  function Step(x: real, y: real, z: Point): Point {
    Point(z.r * z.r - z.i * z.i + x, 2.0 * z.r * z.i + y)
  }

  function StepOf(x: real, y: real): Point -> Point {
    z => Step(x, y, z)
  }

  /** The n-th iterate of the point (x, y). */
  function Orbit(x: real, y: real, n: nat): Point {
    Iterate(StepOf(x, y), Point(x, y), n)
  }

  /** The value numIterations returns for (x, y). */
  function Iterations(x: real, y: real): int {
    Outcome(StepOf(x, y), Point(x, y), MAX_ITERATIONS)
  }

  method NumIterations(x: real, y: real) returns (count: int)
    ensures count == Iterations(x, y)
    ensures count == -1 || 1 <= count < MAX_ITERATIONS
    ensures count > 0 ==> Escaped(Iterate(StepOf(x, y), Point(x, y), count))
    ensures count > 0 ==> forall j :: 1 <= j < count ==> !Escaped(Iterate(StepOf(x, y), Point(x, y), j))
    ensures count == -1 <==> forall j :: 1 <= j < MAX_ITERATIONS ==> !Escaped(Iterate(StepOf(x, y), Point(x, y), j))
  {
    count := CountEscape(StepOf(x, y), Point(x, y), MAX_ITERATIONS);
  }

  /** The origin is a fixed point of the step, so it never escapes. */
  lemma OriginIsBounded()
    ensures Step(0.0, 0.0, Point(0.0, 0.0)) == Point(0.0, 0.0)
    ensures Iterations(0.0, 0.0) == -1
  {
    FixedPointIsBounded(StepOf(0.0, 0.0), Point(0.0, 0.0), MAX_ITERATIONS);
  }

  /** (10, 10) goes to (10, 210) on the first step, outside radius 2. */
  lemma FarPointEscapesAtOnce()
    ensures Orbit(10.0, 10.0, 1) == Point(10.0, 210.0)
    ensures Iterations(10.0, 10.0) == 1
  {
    FirstStepEscapes(StepOf(10.0, 10.0), Point(10.0, 10.0), MAX_ITERATIONS);
  }
}
