/**
 * The closed set of fractal generators and their dispatch, standing for the
 * abstract base class the three kernels override.
 */
module Generators {
  import opened Geometry
  import M = Mandelbrot
  import T = Tricorn
  import B = BurningShip

  datatype Generator = Mandelbrot | Tricorn | BurningShip

  /** The fixed default viewport of each generator. */
  function InitialRange(g: Generator): Rectangle {
    match g
    case Mandelbrot => Rectangle(-2.0, -1.5, 3.0, 3.0)
    case Tricorn => Rectangle(-2.0, -2.0, 4.0, 4.0)
    case BurningShip => Rectangle(-2.0, -2.5, 4.0, 4.0)
  }

  function MaxIterations(g: Generator): nat {
    match g
    case Mandelbrot => M.MAX_ITERATIONS
    case Tricorn => T.MAX_ITERATIONS
    case BurningShip => B.MAX_ITERATIONS
  }

  /** The value numIterations returns for (x, y) under generator g. */
  function Iterations(g: Generator, x: real, y: real): int {
    match g
    case Mandelbrot => M.Iterations(x, y)
    case Tricorn => T.Iterations(x, y)
    case BurningShip => B.Iterations(x, y)
  }

  /** getInitialRange called through the base class; agrees with the table above. */
  method GetInitialRange(g: Generator, range: Rect)
    modifies range
    ensures range.Bounds() == InitialRange(g)
  {
    match g
    case Mandelbrot => M.GetInitialRange(range);
    case Tricorn => T.GetInitialRange(range);
    case BurningShip => B.GetInitialRange(range);
  }

  /** numIterations called through the base class: -1 or a count below 2000. */
  method NumIterations(g: Generator, x: real, y: real) returns (count: int)
    ensures count == Iterations(g, x, y)
    ensures count == -1 || 1 <= count < MaxIterations(g)
    ensures MaxIterations(g) == 2000
  {
    match g
    case Mandelbrot => count := M.NumIterations(x, y);
    case Tricorn => count := T.NumIterations(x, y);
    case BurningShip => count := B.NumIterations(x, y);
  }

  /** Every default viewport is square, so mapping the y-axis with the width
      instead of the height makes no difference until the range stops being square. */
  lemma InitialRangesAreSquare(g: Generator)
    ensures InitialRange(g).width == InitialRange(g).height > 0.0
  {
  }

  /** The origin is reported as bounded by every generator. */
  lemma OriginIsBounded(g: Generator)
    ensures Iterations(g, 0.0, 0.0) == -1
  {
    match g
    case Mandelbrot => M.OriginIsBounded();
    case Tricorn => T.OriginIsBounded();
    case BurningShip => B.OriginIsBounded();
  }

  /** (10, 10) escapes after one step under every generator, never reported as -1. */
  lemma FarPointEscapesAtOnce(g: Generator)
    ensures Iterations(g, 10.0, 10.0) == 1
  {
    match g
    case Mandelbrot => M.FarPointEscapesAtOnce();
    case Tricorn => T.FarPointEscapesAtOnce();
    case BurningShip => B.FarPointEscapesAtOnce();
  }
}
