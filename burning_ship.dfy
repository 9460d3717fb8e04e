/** The Burning Ship kernel: the imaginary part of each step is |2*r*i| + y. */
module BurningShip {
  import opened Geometry
  import opened EscapeTime

  const MAX_ITERATIONS: nat := 2000

  /** Sets the viewport to the region from (-2, -2.5) to (2, 1.5). */
  method GetInitialRange(range: Rect)
    modifies range
    ensures range.x == -2.0 && range.y == -2.5
    ensures range.width == 4.0 && range.height == 4.0
  {
    range.x := -2.0;
    range.y := -2.5;
    range.height := 4.0;
    range.width := 4.0;
  }

  /** Math.abs on the exact reals. */
  function Abs(v: real): real {
    if v < 0.0 then -v else v
  }

  /** One step for the point (x, y): k = r*r - i*i + x, m = |2*r*i| + y. */
  function Step(x: real, y: real, z: Point): Point {
    Point(z.r * z.r - z.i * z.i + x, Abs(2.0 * z.r * z.i) + y)
  }

  function StepOf(x: real, y: real): Point -> Point {
    z => Step(x, y, z)
  }

  function Orbit(x: real, y: real, n: nat): Point {
    Iterate(StepOf(x, y), Point(x, y), n)
  }

  function Iterations(x: real, y: real): int {
    Outcome(StepOf(x, y), Point(x, y), MAX_ITERATIONS)
  }

  method NumIterations(x: real, y: real) returns (count: int)
    ensures count == Iterations(x, y)
    ensures count == -1 || 1 <= count < MAX_ITERATIONS
    ensures count > 0 ==> Escaped(Iterate(StepOf(x, y), Point(x, y), count))
    ensures count > 0 ==> forall j :: 1 <= j < count ==> !Escaped(Iterate(StepOf(x, y), Point(x, y), j))
    ensures count == -1 <==> forall j :: 1 <= j < MAX_ITERATIONS ==> !Escaped(Iterate(StepOf(x, y), Point(x, y), j))
  {
    count := CountEscape(StepOf(x, y), Point(x, y), MAX_ITERATIONS);
  }

  /** The origin is fixed by the step for c = 0. */
  lemma OriginIsFixed()
    ensures StepOf(0.0, 0.0)(Point(0.0, 0.0)) == Point(0.0, 0.0)
  {
  }

  /** For c = 0 the origin never escapes, whatever the cap. */
  lemma OriginIsBoundedFor(cap: nat)
    ensures Outcome(StepOf(0.0, 0.0), Point(0.0, 0.0), cap) == -1
  {
    OriginIsFixed();
    FixedPointIsBounded(StepOf(0.0, 0.0), Point(0.0, 0.0), cap);
  }

  lemma OriginIsBounded()
    ensures Step(0.0, 0.0, Point(0.0, 0.0)) == Point(0.0, 0.0)
    ensures Iterations(0.0, 0.0) == -1
  {
    OriginIsFixed();
    OriginIsBoundedFor(MAX_ITERATIONS);
  }

  /** (10, 10) goes to (10, 210) on the first step. */
  lemma FarPointEscapesAtOnce()
    ensures Orbit(10.0, 10.0, 1) == Point(10.0, 210.0)
    ensures Iterations(10.0, 10.0) == 1
  {
    FirstStepEscapes(StepOf(10.0, 10.0), Point(10.0, 10.0), MAX_ITERATIONS);
  }

  /** After at least one step the imaginary part is never below y. */
  lemma ImaginaryAtLeastY(x: real, y: real, n: nat)
    requires 1 <= n
    ensures Orbit(x, y, n).i >= y
  {
    // Orbit(x, y, n) is Step applied to Orbit(x, y, n - 1), whose imaginary part is |..| + y.
  }

  /** Consequently every point with y > 2 escapes on the first step. */
  lemma HighPointEscapesAtOnce(x: real, y: real)
    requires y > 2.0
    ensures Iterations(x, y) == 1
  {
    // The first iterate has imaginary part at least y > 2, so it lies outside radius 2.
    FirstStepEscapes(StepOf(x, y), Point(x, y), MAX_ITERATIONS);
  }
}
