/** The viewport rectangle of the complex plane (java.awt.geom.Rectangle2D.Double). */
module Geometry {

  /** The value of a rectangle: top-left corner (x, y) and its extent. */
  datatype Rectangle = Rectangle(x: real, y: real, width: real, height: real)

  /** A rectangle whose four public fields are assigned in place. */
  class Rect {
    var x: real
    var y: real
    var width: real
    var height: real

    constructor (x: real, y: real, width: real, height: real)
      ensures Bounds() == Rectangle(x, y, width, height)
    {
      this.x, this.y, this.width, this.height := x, y, width, height;
    }

    /** The current value of the four fields. */
    function Bounds(): Rectangle
      reads this
    {
      Rectangle(x, y, width, height)
    }
  }
}
