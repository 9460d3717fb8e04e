/** The colour of one pixel: the kernel's count at the pixel's point, mapped to a colour. */
module Rendering {
  import opened Geometry
  import opened Generators

  /** The colour of a pixel: 0 (black) for the sentinel, otherwise the hue colour of the count. */
  function Colour(hue: int -> int, count: int): int {
    if count == -1 then 0 else hue(count)
  }

  /** The real coordinate of column i of an n-pixel display showing viewport r. */
  function ColumnCoord(getCoord: (real, real, int, int) -> real, r: Rectangle, n: int, i: int): real {
    getCoord(r.x, r.x + r.width, n, i)
  }

  /** The imaginary coordinate of row y. Its extent runs from r.y to r.y + r.width:
      the width, not the height. */
  function RowCoord(getCoord: (real, real, int, int) -> real, r: Rectangle, n: int, y: int): real {
    getCoord(r.y, r.y + r.width, n, y)
  }

  /** The colour of pixel (i, y) of an n by n display showing viewport r under generator g. */
  function Pixel(g: Generator, getCoord: (real, real, int, int) -> real, hue: int -> int,
                 r: Rectangle, n: int, i: int, y: int): int
  {
    Colour(hue, Iterations(g, ColumnCoord(getCoord, r, n, i), RowCoord(getCoord, r, n, y)))
  }

  /** The body of the column loop: the count of pixel (i, y) and its colour. */
  method PixelColour(g: Generator, getCoord: (real, real, int, int) -> real, hue: int -> int,
                     r: Rectangle, n: int, i: int, y: int) returns (colour: int)
    ensures colour == Pixel(g, getCoord, hue, r, n, i, y)
    ensures var count := Iterations(g, ColumnCoord(getCoord, r, n, i), RowCoord(getCoord, r, n, y));
      (count == -1 ==> colour == 0) && (count != -1 ==> colour == hue(count))
  {
    var count := NumIterations(g, ColumnCoord(getCoord, r, n, i), RowCoord(getCoord, r, n, y));
    colour := Colour(hue, count);
  }

  /** The column loop of a row job: the colours of row y of an n by n display. */
  method RowColours(g: Generator, getCoord: (real, real, int, int) -> real, hue: int -> int,
                    r: Rectangle, n: nat, y: int) returns (rgb: array<int>)
    ensures fresh(rgb) && rgb.Length == n
    ensures forall i :: 0 <= i < n ==> rgb[i] == Pixel(g, getCoord, hue, r, n, i, y)
  {
    rgb := new int[n];
    for i := 0 to n
      invariant forall k :: 0 <= k < i ==> rgb[k] == Pixel(g, getCoord, hue, r, n, k, y)
    {
      rgb[i] := PixelColour(g, getCoord, hue, r, n, i, y);
    }
  }
}
