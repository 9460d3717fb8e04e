/**
 * The render-pass bookkeeping of the explorer window. Each row job (a worker
 * for one row index) is dispatched by DrawFractal, computes its colours in
 * DoInBackground and writes them in Done; the Done calls run one at a time on
 * the event thread, in any order. The coordinate mapping, the HSB colour
 * conversion and the recentre-and-zoom computation belong to library code
 * outside this model and are parameters of the explorer.
 */
module Explorer {
  import opened Geometry
  import opened Generators
  import opened Rendering

  /** The row jobs of one pass: each row index 0 .. n-1 exactly once. */
  function AllRows(n: nat): (rows: multiset<int>)
    ensures |rows| == n
    ensures forall y :: rows[y] == if 0 <= y < n then 1 else 0
  {
    if n == 0 then multiset{} else AllRows(n - 1) + multiset{n - 1}
  }

  /** A pending multiset that is not empty holds some row. */
  lemma SomeRowPending(pending: multiset<int>)
    requires pending != multiset{}
    ensures exists y :: y in pending
  {
    if forall y :: y !in pending {
      assert false;
    }
  }

  class FractalExplorer {
    const displaySize: nat
    /** getCoord(rangeMin, rangeMax, size, pixel): the plane coordinate of a pixel. */
    const getCoord: (real, real, int, int) -> real
    /** The colour of a count that is not the sentinel: HSB(0.7 + count / 200, 1, 1). */
    const hueColour: int -> int
    /** recenterAndZoomRange(range, x, y, scale): the viewport after recentring and scaling. */
    const recenterAndZoom: (Rectangle, real, real, real) -> Rectangle
    /** The displaySize by displaySize frame buffer, indexed [column, row]. */
    const image: array2<int>

    var generator: Generator
    var range: Rect
    var rowsRemaining: int
    /** Whether the save button, the reset button and the generator list are enabled. */
    var enabled: bool
    /** The rows whose job has been dispatched and whose Done has not run yet. */
    var pending: multiset<int>

    ghost predicate Valid()
      reads this
    {
      image.Length0 == displaySize && image.Length1 == displaySize &&
      (forall y :: y in pending ==> 0 <= y < displaySize) &&
      rowsRemaining <= |pending|
    }

    /** The discipline of a render pass: one job per row, the countdown equals the
        number of outstanding jobs, and the controls are enabled exactly when none is left. */
    ghost predicate PassInvariant()
      reads this
    {
      rowsRemaining == |pending| &&
      (forall y :: pending[y] <= 1) &&
      (enabled ==> pending == multiset{}) &&
      (displaySize > 0 && pending == multiset{} ==> enabled)
    }

    constructor (displaySize: nat, getCoord: (real, real, int, int) -> real,
                 hueColour: int -> int, recenterAndZoom: (Rectangle, real, real, real) -> Rectangle)
      ensures Valid() && PassInvariant()
      ensures this.displaySize == displaySize && this.getCoord == getCoord
      ensures this.hueColour == hueColour && this.recenterAndZoom == recenterAndZoom
      ensures generator == Mandelbrot && range.Bounds() == InitialRange(Mandelbrot)
      ensures fresh(range) && fresh(image)
      ensures enabled && rowsRemaining == 0 && pending == multiset{}
    {
      this.displaySize := displaySize;
      this.getCoord := getCoord;
      this.hueColour := hueColour;
      this.recenterAndZoom := recenterAndZoom;
      image := new int[displaySize, displaySize];
      generator := Mandelbrot;
      range := new Rect(0.0, 0.0, 0.0, 0.0);
      rowsRemaining := 0;
      enabled := true;
      pending := multiset{};
      new;
      GetInitialRange(generator, range);
    }

    /** Disables the controls, starts the countdown and dispatches one job per row. */
    method DrawFractal()
      requires Valid()
      modifies this
      ensures Valid()
      ensures !enabled && rowsRemaining == displaySize
      ensures pending == old(pending) + AllRows(displaySize)
      ensures generator == old(generator) && range == old(range)
      ensures old(pending) == multiset{} ==> PassInvariant()
    {
      enabled := false;
      rowsRemaining := displaySize;
      var jobs := multiset{};
      for row := 0 to displaySize
        invariant jobs == AllRows(row)
      {
        jobs := jobs + multiset{row};
      }
      pending := pending + jobs;
    }

    /** The Reset button: rewrites the current range in place, then redraws. */
    method Reset()
      requires Valid() && enabled
      modifies this, range
      ensures Valid()
      ensures range == old(range) && generator == old(generator)
      ensures range.Bounds() == InitialRange(generator)
      ensures !enabled && rowsRemaining == displaySize
      ensures pending == old(pending) + AllRows(displaySize)
      ensures old(PassInvariant()) ==> PassInvariant()
    {
      GetInitialRange(generator, range);
      DrawFractal();
    }

    /** Choosing a generator in the list: a fresh range set to its default, then a redraw. */
    method SelectGenerator(g: Generator)
      requires Valid() && enabled
      modifies this
      ensures Valid()
      ensures generator == g && fresh(range) && range.Bounds() == InitialRange(g)
      ensures !enabled && rowsRemaining == displaySize
      ensures pending == old(pending) + AllRows(displaySize)
      ensures old(PassInvariant()) ==> PassInvariant()
    {
      generator := g;
      range := new Rect(0.0, 0.0, 0.0, 0.0);
      GetInitialRange(g, range);
      DrawFractal();
    }

    /** A click on pixel (px, py) as the source handles it: the display is never
        disabled, so this also runs while a pass is still in progress. */
    method MouseClickedAsWritten(px: int, py: int)
      requires Valid()
      modifies this, range
      ensures Valid()
      ensures range == old(range) && generator == old(generator)
      ensures range.Bounds() == recenterAndZoom(old(range.Bounds()),
        ColumnCoord(getCoord, old(range.Bounds()), displaySize, px),
        RowCoord(getCoord, old(range.Bounds()), displaySize, py), 0.5)
      ensures !enabled && rowsRemaining == displaySize
      ensures pending == old(pending) + AllRows(displaySize)
      ensures old(pending) == multiset{} ==> PassInvariant()
    {
      var view := range.Bounds();
      var x := ColumnCoord(getCoord, view, displaySize, px);
      var y := RowCoord(getCoord, view, displaySize, py);
      var zoomed := recenterAndZoom(view, x, y, 0.5);
      range.x, range.y, range.width, range.height := zoomed.x, zoomed.y, zoomed.width, zoomed.height;
      DrawFractal();
    }

    /** A click handled as the disabled controls intend: ignored while a pass is in progress. */
    method MouseClicked(px: int, py: int)
      requires Valid()
      modifies this, range
      ensures Valid()
      ensures range == old(range) && generator == old(generator)
      ensures !old(enabled) ==> unchanged(this) && unchanged(range)
      ensures old(enabled) ==> range.Bounds() == recenterAndZoom(old(range.Bounds()),
        ColumnCoord(getCoord, old(range.Bounds()), displaySize, px),
        RowCoord(getCoord, old(range.Bounds()), displaySize, py), 0.5)
      ensures old(enabled) ==> !enabled && rowsRemaining == displaySize
      ensures old(enabled) ==> pending == old(pending) + AllRows(displaySize)
      ensures old(PassInvariant()) ==> PassInvariant()
    {
      if enabled {
        MouseClickedAsWritten(px, py);
      }
    }

    /** The background part of the job for row y: the colours of the row in the current view. */
    method DoInBackground(y: int) returns (rgb: array<int>)
      ensures fresh(rgb) && rgb.Length == displaySize
      ensures forall i :: 0 <= i < displaySize ==> rgb[i] == Pixel(generator, getCoord, hueColour, range.Bounds(), displaySize, i, y)
    {
      rgb := RowColours(generator, getCoord, hueColour, range.Bounds(), displaySize, y);
    }

    /** The event-thread part of the job for row y: writes the row, counts it down,
        and re-enables the controls when the countdown reaches 0. */
    method Done(y: int, rgb: array<int>)
      requires Valid() && y in pending && rgb.Length == displaySize
      modifies this, image
      ensures Valid()
      ensures forall i :: 0 <= i < displaySize ==> image[i, y] == rgb[i]
      ensures forall i, j :: 0 <= i < displaySize && 0 <= j < displaySize && j != y ==>
        image[i, j] == old(image[i, j])
      ensures pending == old(pending) - multiset{y}
      ensures rowsRemaining == old(rowsRemaining) - 1
      ensures enabled == (old(enabled) || rowsRemaining == 0)
      ensures generator == old(generator) && range == old(range)
      ensures old(PassInvariant()) ==> PassInvariant()
    {
      for i := 0 to displaySize
        modifies image
        invariant forall k :: 0 <= k < i ==> image[k, y] == rgb[k]
        invariant forall k, j :: 0 <= k < displaySize && 0 <= j < displaySize && (j != y || i <= k) ==>
          image[k, j] == old(image[k, j])
      {
        image[i, y] := rgb[i];
      }
      rowsRemaining := rowsRemaining - 1;
      pending := pending - multiset{y};
      if rowsRemaining == 0 {
        enabled := true;
      }
    }

    /** Every row whose job has completed holds the colours of the current view. */
    ghost predicate RowsDrawn()
      reads this, range, image
    {
      forall i, j ::
        0 <= i < image.Length0 && 0 <= j < image.Length1 && i < displaySize && j < displaySize && j !in pending ==>
        image[i, j] == Pixel(generator, getCoord, hueColour, range.Bounds(), displaySize, i, j)
    }

    /** A helper for CompletePass: when every completed row is drawn and no job is outstanding, every pixel holds its colour. */
    lemma FrameComplete()
      requires Valid() && RowsDrawn() && pending == multiset{}
      ensures forall i, j :: 0 <= i < displaySize && 0 <= j < displaySize ==>
        image[i, j] == Pixel(generator, getCoord, hueColour, range.Bounds(), displaySize, i, j)
    {
    }

    /** One job run to completion: its colours are computed and its row is written. */
    method CompleteRow(y: int)
      requires Valid() && PassInvariant() && RowsDrawn() && y in pending
      modifies this, image
      ensures Valid() && PassInvariant() && RowsDrawn()
      ensures pending == old(pending) - multiset{y}
      ensures generator == old(generator) && range == old(range)
    {
      var rgb := DoInBackground(y);
      Done(y, rgb);
    }

    /** A whole pass after DrawFractal: the outstanding jobs complete one at a time,
        each time any one of them; afterwards every pixel holds its colour and the
        controls are enabled again. */
    method CompletePass()
      requires Valid() && PassInvariant() && pending == AllRows(displaySize)
      modifies this, image
      ensures Valid() && PassInvariant()
      ensures pending == multiset{} && rowsRemaining == 0
      ensures displaySize > 0 ==> enabled
      ensures generator == old(generator) && range == old(range)
      ensures forall i, j :: 0 <= i < displaySize && 0 <= j < displaySize ==>
        image[i, j] == Pixel(generator, getCoord, hueColour, range.Bounds(), displaySize, i, j)
    {
      while pending != multiset{}
        invariant Valid() && PassInvariant() && RowsDrawn()
        invariant generator == old(generator) && range == old(range)
        decreases |pending|
      {
        SomeRowPending(pending);
        var y :| y in pending;
        CompleteRow(y);
      }
      FrameComplete();
    }
  }

  /** A click during a pass, as the source handles it: the second pass resets the
      countdown while a job of the first is still outstanding, so the controls come
      back on while row 1 of the second pass has not been written. */
  method ClickWhileRendering() returns (e: FractalExplorer)
    ensures e.Valid() && e.enabled && e.rowsRemaining == 0
    ensures e.pending == multiset{1}
    ensures !e.PassInvariant()
  {
    e := new FractalExplorer(2, (lo: real, hi: real, n: int, p: int) => lo,
                             (c: int) => c, (r: Rectangle, x: real, y: real, s: real) => r);
    var rgb := new int[2];
    e.DrawFractal();
    e.Done(0, rgb);
    e.MouseClickedAsWritten(0, 0);
    e.Done(1, rgb);
    e.Done(0, rgb);
  }
}
