/** The Tricorn kernel: z' = conj(z)*conj(z) + c, escape radius 2, at most 2000 steps. */
module Tricorn {
  import opened Geometry
  import opened EscapeTime
  import Mandelbrot

  const MAX_ITERATIONS: nat := 2000

  /** Sets the viewport to the region from (-2, -2) to (2, 2). */
  method GetInitialRange(range: Rect)
    modifies range
    ensures range.x == -2.0 && range.y == -2.0
    ensures range.width == 4.0 && range.height == 4.0
  {
    range.x := -2.0;
    range.y := -2.0;
    range.width := 4.0;
    range.height := 4.0;
  }

  /** One step for the point (x, y): k = r*r - i*i + x, m = -2*r*i + y. */
  function Step(x: real, y: real, z: Point): Point {
    Point(z.r * z.r - z.i * z.i + x, -2.0 * z.r * z.i + y)
  }

  function StepOf(x: real, y: real): Point -> Point {
    z => Step(x, y, z)
  }

  function Orbit(x: real, y: real, n: nat): Point {
    Iterate(StepOf(x, y), Point(x, y), n)
  }

  function Iterations(x: real, y: real): int {
    Outcome(StepOf(x, y), Point(x, y), MAX_ITERATIONS)
  }

  method NumIterations(x: real, y: real) returns (count: int)
    ensures count == Iterations(x, y)
    ensures count == -1 || 1 <= count < MAX_ITERATIONS
    ensures count > 0 ==> Escaped(Iterate(StepOf(x, y), Point(x, y), count))
    ensures count > 0 ==> forall j :: 1 <= j < count ==> !Escaped(Iterate(StepOf(x, y), Point(x, y), j))
    ensures count == -1 <==> forall j :: 1 <= j < MAX_ITERATIONS ==> !Escaped(Iterate(StepOf(x, y), Point(x, y), j))
  {
    count := CountEscape(StepOf(x, y), Point(x, y), MAX_ITERATIONS);
  }

  lemma OriginIsBounded()
    ensures Step(0.0, 0.0, Point(0.0, 0.0)) == Point(0.0, 0.0)
    ensures Iterations(0.0, 0.0) == -1
  {
    FixedPointIsBounded(StepOf(0.0, 0.0), Point(0.0, 0.0), MAX_ITERATIONS);
  }

  /** (10, 10) goes to (10, -190) on the first step. */
  lemma FarPointEscapesAtOnce()
    ensures Orbit(10.0, 10.0, 1) == Point(10.0, -190.0)
    ensures Iterations(10.0, 10.0) == 1
  {
    FirstStepEscapes(StepOf(10.0, 10.0), Point(10.0, 10.0), MAX_ITERATIONS);
  }

  /** On the real axis the imaginary part stays 0 and the orbit is Mandelbrot's. */
  lemma {:induction false} RealAxisOrbit(x: real, n: nat)
    ensures Orbit(x, 0.0, n) == Mandelbrot.Orbit(x, 0.0, n)
    ensures Orbit(x, 0.0, n).i == 0.0
  {
    if n > 0 {
      RealAxisOrbit(x, n - 1);
      var z := Orbit(x, 0.0, n - 1);
      assert Orbit(x, 0.0, n) == Step(x, 0.0, z);
      assert Mandelbrot.Orbit(x, 0.0, n) == Mandelbrot.Step(x, 0.0, z);
    }
  }

  /** For y = 0 the Tricorn and Mandelbrot kernels return the same value. */
  lemma RealAxisMatchesMandelbrot(x: real)
    ensures Iterations(x, 0.0) == Mandelbrot.Iterations(x, 0.0)
  {
    forall n: nat
      ensures Iterate(StepOf(x, 0.0), Point(x, 0.0), n) == Iterate(Mandelbrot.StepOf(x, 0.0), Point(x, 0.0), n)
    {
      RealAxisOrbit(x, n);
    }
    SameOrbitSameOutcome(StepOf(x, 0.0), Mandelbrot.StepOf(x, 0.0), Point(x, 0.0), MAX_ITERATIONS);
  }
}
