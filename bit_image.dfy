/**
 * The binarised image the detectors read: a width, a height and a
 * pixel predicate, `true` meaning black.  It is never changed by the
 * detection code; pixel reads are only defined inside the image, so
 * every read that verifies is a read the image can answer.
 */
module BitImage {

  /** An integer pixel position. */
  datatype Point = Point(x: int, y: int)

  datatype BitMatrix = BitMatrix(width: nat, height: nat, rows: seq<seq<bool>>) {

    /** `rows` holds `height` rows of `width` pixels each. */
    predicate Valid() {
      |rows| == height && forall j :: 0 <= j < |rows| ==> |rows[j]| == width
    }

    predicate InImage(x: int, y: int) {
      0 <= x < width && 0 <= y < height
    }

    /** `BitMatrix::get(x, y)`: is the pixel at column `x`, row `y` black? */
    function Get(x: int, y: int): bool
      requires Valid() && InImage(x, y)
    {
      rows[y][x]
    }

    /** A pixel that is inside the image and black; outside, nothing is black. */
    predicate IsBlack(p: Point)
      requires Valid()
    {
      InImage(p.x, p.y) && Get(p.x, p.y)
    }

    /** No pixel of the image is black. */
    ghost predicate AllWhite()
      requires Valid()
    {
      forall x, y :: InImage(x, y) ==> !Get(x, y)
    }

    /** Some pixel of column `x` with a row in `[y0, y1]` is black. */
    ghost predicate BlackInColumn(x: int, y0: int, y1: int)
      requires Valid()
    {
      exists y :: y0 <= y <= y1 && InImage(x, y) && Get(x, y)
    }

    /** Some pixel of row `y` with a column in `[x0, x1]` is black. */
    ghost predicate BlackInRow(y: int, x0: int, x1: int)
      requires Valid()
    {
      exists x :: x0 <= x <= x1 && InImage(x, y) && Get(x, y)
    }
  }

  /**
   * One row (`horizontal`) or one column of an image, the line a
   * one-dimensional scan walks along; `fixed` is the row or column index.
   */
  datatype ScanLine = ScanLine(img: BitMatrix, horizontal: bool, fixed: int) {

    predicate Valid() {
      img.Valid() && 0 <= fixed < (if horizontal then img.height else img.width)
    }

    /** Number of pixels on the line. */
    function Len(): nat {
      if horizontal then img.width else img.height
    }

    /** Is the pixel at position `pos` along the line black? */
    function Black(pos: int): bool
      requires Valid() && 0 <= pos < Len()
    {
      if horizontal then img.Get(pos, fixed) else img.Get(fixed, pos)
    }

    /** Every pixel of the line with a position in `[lo, hi)` is white. */
    ghost predicate WhiteOn(lo: int, hi: int)
      requires Valid()
    {
      forall pos :: lo <= pos < hi && 0 <= pos < Len() ==> !Black(pos)
    }
  }
}
