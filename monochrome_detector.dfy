/**
 * The deprecated centre-outward corner scanner
 * (`MonochromeRectangleDetector`).  Each corner search steps a scan line
 * outward from the image centre as long as the line holds a mostly-black
 * run; the corner is taken from the last run found.  Five searches, each
 * bounded by the corners already found, give the quadrilateral
 * `[top, left, right, bottom]`.
 *
 * Each loop of the source is a method proved equal to a recursive
 * reference function; the properties are proved about the functions.
 */
module MonochromeRectangleDetector {
  import opened Wrappers
  import opened BitImage

  const MAX_MODULES: int := 32

  /** A run `[start, end]` of positions on a scan line (the source's two-element vector). */
  datatype Range = Range(start: int, end: int)

  // ----- blackWhiteRange: reference definition -----

  /** Moving down from `pos`, the first black position at or below `pos`, or `minDim - 1`. */
  function SkipWhiteDown(line: ScanLine, minDim: int, pos: int): (r: int)
    requires line.Valid() && 0 <= minDim && minDim - 1 <= pos < line.Len()
    ensures minDim - 1 <= r <= pos
    ensures r >= minDim ==> line.Black(r)
    decreases pos - minDim + 1
  {
    if pos >= minDim && !line.Black(pos) then SkipWhiteDown(line, minDim, pos - 1) else pos
  }

  /** Every position `SkipWhiteDown` passes over is white. */
  lemma {:induction false} SkipWhiteDownSkipsWhite(line: ScanLine, minDim: int, pos: int)
    requires line.Valid() && 0 <= minDim && minDim - 1 <= pos < line.Len()
    ensures line.WhiteOn(SkipWhiteDown(line, minDim, pos) + 1, pos + 1)
    decreases pos - minDim + 1
  {
    if pos >= minDim && !line.Black(pos) {
      SkipWhiteDownSkipsWhite(line, minDim, pos - 1);
    }
  }

  /** Over a white stretch `[minDim, pos]`, `SkipWhiteDown` runs off its lower end. */
  lemma {:induction false} SkipWhiteDownAllWhite(line: ScanLine, minDim: int, pos: int)
    requires line.Valid() && 0 <= minDim && minDim - 1 <= pos < line.Len()
    requires line.WhiteOn(minDim, pos + 1)
    ensures SkipWhiteDown(line, minDim, pos) == minDim - 1
    decreases pos - minDim + 1
  {
    if pos >= minDim {
      SkipWhiteDownAllWhite(line, minDim, pos - 1);
    }
  }

  /** Moving up from `pos`, the first black position at or above `pos`, or `maxDim`. */
  function SkipWhiteUp(line: ScanLine, maxDim: int, pos: int): (r: int)
    requires line.Valid() && maxDim <= line.Len() && 0 <= pos <= maxDim
    ensures pos <= r <= maxDim
    ensures r < maxDim ==> line.Black(r)
    decreases maxDim - pos
  {
    if pos < maxDim && !line.Black(pos) then SkipWhiteUp(line, maxDim, pos + 1) else pos
  }

  /** Every position `SkipWhiteUp` passes over is white. */
  lemma {:induction false} SkipWhiteUpSkipsWhite(line: ScanLine, maxDim: int, pos: int)
    requires line.Valid() && maxDim <= line.Len() && 0 <= pos <= maxDim
    ensures line.WhiteOn(pos, SkipWhiteUp(line, maxDim, pos))
    decreases maxDim - pos
  {
    if pos < maxDim && !line.Black(pos) {
      SkipWhiteUpSkipsWhite(line, maxDim, pos + 1);
    }
  }

  /** Over a white stretch `[pos, maxDim)`, `SkipWhiteUp` runs off its upper end. */
  lemma {:induction false} SkipWhiteUpAllWhite(line: ScanLine, maxDim: int, pos: int)
    requires line.Valid() && maxDim <= line.Len() && 0 <= pos <= maxDim
    requires line.WhiteOn(pos, maxDim)
    ensures SkipWhiteUp(line, maxDim, pos) == maxDim
    decreases maxDim - pos
  {
    if pos < maxDim {
      SkipWhiteUpAllWhite(line, maxDim, pos + 1);
    }
  }

  /**
   * The value `start` has when the source's left/up loop ends, started
   * at `start`: black pixels are passed, a white run is passed only if
   * black follows it within `maxWhiteRun` pixels.
   */
  function ScanStart(line: ScanLine, maxWhiteRun: int, minDim: int, start: int): (r: int)
    requires line.Valid() && 0 <= minDim && minDim - 1 <= start < line.Len()
    ensures minDim - 1 <= r <= start
    ensures r < start ==> line.Black(r + 1)
    ensures start >= minDim && line.Black(start) ==> r < start
    decreases start - minDim + 1
  {
    if start < minDim then start
    else if line.Black(start) then ScanStart(line, maxWhiteRun, minDim, start - 1)
    else
      var s := SkipWhiteDown(line, minDim, start - 1);
      if s < minDim || start - s > maxWhiteRun then start
      else ScanStart(line, maxWhiteRun, minDim, s)
  }

  /** The value `end` has when the source's right/down loop ends, started at `end`. */
  function ScanEnd(line: ScanLine, maxWhiteRun: int, maxDim: int, end: int): (r: int)
    requires line.Valid() && maxDim <= line.Len() && 0 <= end <= maxDim
    ensures end <= r <= maxDim
    ensures r > end ==> line.Black(r - 1)
    ensures end < maxDim && line.Black(end) ==> r > end
    decreases maxDim - end
  {
    if end >= maxDim then end
    else if line.Black(end) then ScanEnd(line, maxWhiteRun, maxDim, end + 1)
    else
      var e := SkipWhiteUp(line, maxDim, end + 1);
      if e >= maxDim || e - end > maxWhiteRun then end
      else ScanEnd(line, maxWhiteRun, maxDim, e)
  }

  /**
   * `blackWhiteRange`: the mostly-black run around the middle of
   * `[minDim, maxDim)` on `line`.  A run found lies strictly inside the
   * bounds with `start < end` and has a black endpoint.
   */
  function BlackWhiteRangeOf(line: ScanLine, maxWhiteRun: int, minDim: int, maxDim: int): (r: Option<Range>)
    requires line.Valid() && 0 <= minDim < maxDim <= line.Len()
    ensures r.Some? ==> minDim <= r.value.start < r.value.end < maxDim
    ensures r.Some? ==> line.Black(r.value.start) || line.Black(r.value.end)
  {
    var center := (minDim + maxDim) / 2;
    var start := ScanStart(line, maxWhiteRun, minDim, center) + 1;
    var end := ScanEnd(line, maxWhiteRun, maxDim, center) - 1;
    if end > start then Some(Range(start, end)) else None
  }

  /** A line that is white over the bounds has no range. */
  lemma WhiteLineHasNoRange(line: ScanLine, maxWhiteRun: int, minDim: int, maxDim: int)
    requires line.Valid() && 0 <= minDim < maxDim <= line.Len()
    requires line.WhiteOn(minDim, maxDim)
    ensures BlackWhiteRangeOf(line, maxWhiteRun, minDim, maxDim).None?
  {
    var center := (minDim + maxDim) / 2;
    assert !line.Black(center);
    SkipWhiteDownAllWhite(line, minDim, center - 1);
    SkipWhiteUpAllWhite(line, maxDim, center + 1);
  }

  /** The source's left/up loop of `blackWhiteRange`, started at `center`. */
  method ScanStartLoop(line: ScanLine, maxWhiteRun: int, minDim: int, center: int) returns (start: int)
    requires line.Valid() && 0 <= minDim <= center < line.Len()
    ensures start == ScanStart(line, maxWhiteRun, minDim, center)
  {
    start := center;
    while start >= minDim
      invariant minDim - 1 <= start <= center
      invariant ScanStart(line, maxWhiteRun, minDim, start) == ScanStart(line, maxWhiteRun, minDim, center)
      decreases start - minDim + 1
    {
      if line.Black(start) {
        start := start - 1;
      } else {
        var whiteRunStart := start;
        start := start - 1;
        while start >= minDim && !line.Black(start)
          invariant minDim - 1 <= start < whiteRunStart
          invariant SkipWhiteDown(line, minDim, start) == SkipWhiteDown(line, minDim, whiteRunStart - 1)
          decreases start - minDim + 1
        {
          start := start - 1;
        }
        var whiteRunSize := whiteRunStart - start;
        if start < minDim || whiteRunSize > maxWhiteRun {
          start := whiteRunStart;
          break;
        }
      }
    }
  }

  /** The source's right/down loop of `blackWhiteRange`, started at `center`. */
  method ScanEndLoop(line: ScanLine, maxWhiteRun: int, maxDim: int, center: int) returns (end: int)
    requires line.Valid() && 0 <= center < maxDim <= line.Len()
    ensures end == ScanEnd(line, maxWhiteRun, maxDim, center)
  {
    end := center;
    while end < maxDim
      invariant center <= end <= maxDim
      invariant ScanEnd(line, maxWhiteRun, maxDim, end) == ScanEnd(line, maxWhiteRun, maxDim, center)
      decreases maxDim - end
    {
      if line.Black(end) {
        end := end + 1;
      } else {
        var whiteRunStart := end;
        end := end + 1;
        while end < maxDim && !line.Black(end)
          invariant whiteRunStart < end <= maxDim
          invariant SkipWhiteUp(line, maxDim, end) == SkipWhiteUp(line, maxDim, whiteRunStart + 1)
          decreases maxDim - end
        {
          end := end + 1;
        }
        var whiteRunSize := end - whiteRunStart;
        if end >= maxDim || whiteRunSize > maxWhiteRun {
          end := whiteRunStart;
          break;
        }
      }
    }
  }

  /**
   * `blackWhiteRange` as the source runs it: `start` moves left/up from
   * the centre, then `end` moves right/down.
   */
  method BlackWhiteRange(img: BitMatrix, fixedDimension: int, maxWhiteRun: int, minDim: int,
                         maxDim: int, horizontal: bool) returns (r: Option<Range>)
    requires ScanLine(img, horizontal, fixedDimension).Valid()
    requires 0 <= minDim < maxDim <= ScanLine(img, horizontal, fixedDimension).Len()
    ensures r == BlackWhiteRangeOf(ScanLine(img, horizontal, fixedDimension), maxWhiteRun, minDim, maxDim)
  {
    var line := ScanLine(img, horizontal, fixedDimension);
    var center := (minDim + maxDim) / 2;
    var start := ScanStartLoop(line, maxWhiteRun, minDim, center);
    start := start + 1;
    var end := ScanEndLoop(line, maxWhiteRun, maxDim, center);
    end := end - 1;
    r := if end > start then Some(Range(start, end)) else None;
  }

  // ----- findCornerFromCenter -----

  /** The arguments of one corner search, in the source's order. */
  datatype Search = Search(centerX: int, deltaX: int, left: int, right: int,
                           centerY: int, deltaY: int, top: int, bottom: int, maxWhiteRun: int)
  {
    /** The search box lies in the image, and exactly one of the two steps is non-zero. */
    predicate WellFormed(img: BitMatrix) {
      img.Valid() && 0 <= left && right <= img.width && 0 <= top && bottom <= img.height
      && (deltaX == 0) != (deltaY == 0)
    }

    /** The loop condition: `(x, y)` lies in `[left, right) x [top, bottom)`. */
    predicate Inside(x: int, y: int) {
      top <= y < bottom && left <= x < right
    }

    /** `p` is not behind the line through `(x, y)` in the scan direction. */
    predicate NotBehind(p: Point, x: int, y: int) {
      (deltaY < 0 ==> p.y <= y) && (deltaY > 0 ==> p.y >= y)
      && (deltaX < 0 ==> p.x <= x) && (deltaX > 0 ==> p.x >= x)
    }

    /** Steps left before the scan line leaves the box. */
    function Remaining(x: int, y: int): nat {
      var n :=
        if deltaX > 0 then right - x
        else if deltaX < 0 then x - left + 1
        else if deltaY > 0 then bottom - y
        else y - top + 1;
      if n > 0 then n else 0
    }

    /** The range found on the scan line through `(x, y)`: a row when `deltaX == 0`, else a column. */
    function LineRange(img: BitMatrix, x: int, y: int): (r: Option<Range>)
      requires WellFormed(img) && Inside(x, y)
      ensures r.Some? && deltaX == 0 ==> left <= r.value.start < r.value.end < right
      ensures r.Some? && deltaX != 0 ==> top <= r.value.start < r.value.end < bottom
    {
      if deltaX == 0 then BlackWhiteRangeOf(ScanLine(img, true, y), maxWhiteRun, left, right)
      else BlackWhiteRangeOf(ScanLine(img, false, x), maxWhiteRun, top, bottom)
    }

    /** One step along the scan brings the line closer to leaving the box. */
    lemma StepDecreases(x: int, y: int)
      requires (deltaX == 0) != (deltaY == 0) && Inside(x, y)
      ensures Remaining(x + deltaX, y + deltaY) < Remaining(x, y)
    {
    }

    /** A range found on a line of this search lies within the box across the scan direction. */
    predicate Fits(r: Range) {
      if deltaX == 0 then left <= r.start < r.end < right else top <= r.start < r.end < bottom
    }

    /**
     * The corner read off the last range `last` when the line through
     * `(x, y)` has none: one step back along the scan, and the endpoint
     * of `last` chosen by whether it straddles the centre.
     */
    function Corner(x: int, y: int, last: Range): Point {
      if deltaX == 0 then
        var lastY := y - deltaY;
        if last.start < centerX then
          if last.end > centerX then
            // the range spans the centre: the end is picked by the scan direction
            Point(if deltaY > 0 then last.start else last.end, lastY)
          else Point(last.start, lastY)
        else Point(last.end, lastY)
      else
        var lastX := x - deltaX;
        if last.start < centerY then
          if last.end > centerY then
            Point(lastX, if deltaX < 0 then last.start else last.end)
          else Point(lastX, last.start)
        else Point(lastX, last.end)
    }
  }

  /**
   * The ranges of a search's scan lines, indexed by a point on the line.
   * The corner search is stated over such a function so that its proofs
   * do not depend on how each range is computed.
   */
  type Lines = (int, int) -> Option<Range>

  /** The ranges `blackWhiteRange` finds on the scan lines of `s` in `img`. */
  ghost function LinesOf(img: BitMatrix, s: Search): Lines
    requires s.WellFormed(img)
  {
    (x: int, y: int) => if s.Inside(x, y) then s.LineRange(img, x, y) else None
  }

  /**
   * `lines` gives the range `blackWhiteRange` finds on every line in the
   * box.  The quantifier fires only on a `LineRange` term, so a proof
   * about `lines` sees the image only on the lines it scans.
   */
  ghost predicate AgreesWith(img: BitMatrix, s: Search, lines: Lines)
    requires s.WellFormed(img)
  {
    forall x: int, y: int {:trigger s.LineRange(img, x, y)} ::
      s.Inside(x, y) ==> lines(x, y) == s.LineRange(img, x, y)
  }

  lemma AgreeingLinesExist(img: BitMatrix, s: Search)
    requires s.WellFormed(img)
    ensures exists lines :: AgreesWith(img, s, lines)
  {
    assert AgreesWith(img, s, LinesOf(img, s));
  }

  /** Every range of `lines` on a line in the box fits the box. */
  ghost predicate AllFit(s: Search, lines: Lines) {
    forall x: int, y: int :: s.Inside(x, y) && lines(x, y).Some? ==> s.Fits(lines(x, y).value)
  }

  lemma AgreeingLinesFit(img: BitMatrix, s: Search, lines: Lines)
    requires s.WellFormed(img) && AgreesWith(img, s, lines)
    ensures AllFit(s, lines)
  {
    forall x: int, y: int | s.Inside(x, y) && lines(x, y).Some?
      ensures s.Fits(lines(x, y).value)
    {
      assert lines(x, y) == s.LineRange(img, x, y);
    }
  }

  /** Every scan line from `(x, y)` onward has a range until the scan leaves the box. */
  ghost predicate AllRanged(s: Search, lines: Lines, x: int, y: int)
    requires s.deltaX != 0 || s.deltaY != 0
    decreases s.Remaining(x, y)
  {
    s.Inside(x, y) ==> lines(x, y).Some? && AllRanged(s, lines, x + s.deltaX, y + s.deltaY)
  }

  /**
   * Reference definition of the loop of `findCornerFromCenter`, from the
   * scan line through `(x, y)` with `last` the range of the previous line.
   */
  function CornerSearch(s: Search, lines: Lines, x: int, y: int, last: Option<Range>): Result<Point>
    requires (s.deltaX == 0) != (s.deltaY == 0)
    decreases s.Remaining(x, y)
  {
    if !s.Inside(x, y) then Err(NotFound)
    else
      var range := lines(x, y);
      if range.None? then
        if last.None? then Err(NotFound) else Ok(s.Corner(x, y, last.value))
      else CornerSearch(s, lines, x + s.deltaX, y + s.deltaY, range)
  }

  /**
   * A corner found lies in the box, the (empty) line after it too, and it
   * is not behind the line the search started from (or behind, when a
   * previous range was given).
   */
  lemma {:induction false} CornerSearchBounds(s: Search, lines: Lines, x: int, y: int, last: Option<Range>)
    requires (s.deltaX == 0) != (s.deltaY == 0) && AllFit(s, lines)
    requires last.Some? ==> s.Fits(last.value) && s.Inside(x - s.deltaX, y - s.deltaY)
    requires CornerSearch(s, lines, x, y, last).Ok?
    ensures var p := CornerSearch(s, lines, x, y, last).value;
            s.Inside(p.x, p.y) && s.Inside(p.x + s.deltaX, p.y + s.deltaY)
            && (last.None? ==> s.NotBehind(p, x, y))
            && (last.Some? ==> s.NotBehind(p, x - s.deltaX, y - s.deltaY))
    decreases s.Remaining(x, y)
  {
    var here := lines(x, y);
    if here.Some? {
      assert CornerSearch(s, lines, x, y, last) == CornerSearch(s, lines, x + s.deltaX, y + s.deltaY, here);
      CornerSearchBounds(s, lines, x + s.deltaX, y + s.deltaY, here);
    }
  }

  /** Two functions that both agree with the image's lines give the same search. */
  lemma {:induction false} CornerSearchAgree(img: BitMatrix, s: Search, lines1: Lines, lines2: Lines,
                                             x: int, y: int, last: Option<Range>)
    requires s.WellFormed(img) && AgreesWith(img, s, lines1) && AgreesWith(img, s, lines2)
    ensures CornerSearch(s, lines1, x, y, last) == CornerSearch(s, lines2, x, y, last)
    decreases s.Remaining(x, y)
  {
    if s.Inside(x, y) {
      assert lines1(x, y) == s.LineRange(img, x, y) == lines2(x, y);
      if lines1(x, y).Some? {
        CornerSearchAgree(img, s, lines1, lines2, x + s.deltaX, y + s.deltaY, lines1(x, y));
      }
    }
  }

  /** `findCornerFromCenter`'s result: the scan from the centre, on the image's lines, with no previous range. */
  ghost function FindCorner(img: BitMatrix, s: Search): Result<Point>
    requires s.WellFormed(img)
  {
    AgreeingLinesExist(img, s);
    var lines :| AgreesWith(img, s, lines);
    CornerSearch(s, lines, s.centerX, s.centerY, None)
  }

  /** `FindCorner` is the search on any function that agrees with the image's lines. */
  lemma FindCornerOn(img: BitMatrix, s: Search, lines: Lines)
    requires s.WellFormed(img) && AgreesWith(img, s, lines)
    ensures FindCorner(img, s) == CornerSearch(s, lines, s.centerX, s.centerY, None)
  {
    forall other: Lines | AgreesWith(img, s, other)
      ensures CornerSearch(s, other, s.centerX, s.centerY, None) == CornerSearch(s, lines, s.centerX, s.centerY, None)
    {
      CornerSearchAgree(img, s, other, lines, s.centerX, s.centerY, None);
    }
  }

  /** `j` steps of `d` from `a` are one step, then `j - 1` more. */
  lemma StepAhead(a: int, d: int, j: int)
    ensures a + j * d == (a + d) + (j - 1) * d
  {
  }

  /**
   * A corner that is found comes from the first empty scan line
   * `(xf, yf)` in the box, `k` steps along the scan: every line before it
   * has a range, and the corner is `Corner` of that line and of the range
   * one step back (`last` when no step was taken).
   */
  lemma {:induction false} CornerSearchFound(s: Search, lines: Lines, x: int, y: int, last: Option<Range>)
    returns (k: nat, xf: int, yf: int, range: Range)
    requires (s.deltaX == 0) != (s.deltaY == 0)
    requires CornerSearch(s, lines, x, y, last).Ok?
    ensures xf == x + k * s.deltaX && yf == y + k * s.deltaY
    ensures forall j :: 0 <= j < k ==> lines(x + j * s.deltaX, y + j * s.deltaY).Some?
    ensures s.Inside(xf, yf) && lines(xf, yf).None?
    ensures CornerSearch(s, lines, x, y, last).value == s.Corner(xf, yf, range)
    ensures k == 0 ==> last == Some(range)
    ensures k > 0 ==> s.Inside(xf - s.deltaX, yf - s.deltaY) && lines(xf - s.deltaX, yf - s.deltaY) == Some(range)
    decreases s.Remaining(x, y)
  {
    assert s.Inside(x, y);
    var here := lines(x, y);
    if here.None? {
      k, xf, yf, range := 0, x, y, last.value;
      assert CornerSearch(s, lines, x, y, last) == Ok(s.Corner(x, y, range));
    } else {
      assert CornerSearch(s, lines, x, y, last) == CornerSearch(s, lines, x + s.deltaX, y + s.deltaY, here);
      var k';
      k', xf, yf, range := CornerSearchFound(s, lines, x + s.deltaX, y + s.deltaY, here);
      k := k' + 1;
      StepAhead(x, s.deltaX, k);
      StepAhead(y, s.deltaY, k);
      forall j | 0 <= j < k
        ensures lines(x + j * s.deltaX, y + j * s.deltaY).Some?
      {
        if j > 0 {
          StepAhead(x, s.deltaX, j);
          StepAhead(y, s.deltaY, j);
        }
      }
    }
  }

  /**
   * A search that has already seen a range fails exactly when every line
   * from here on has a range until the scan leaves the box.
   */
  lemma {:induction false} CornerSearchFailsIffAllRanged(s: Search, lines: Lines, x: int, y: int, last: Range)
    requires (s.deltaX == 0) != (s.deltaY == 0)
    ensures CornerSearch(s, lines, x, y, Some(last)).Err? <==> AllRanged(s, lines, x, y)
    decreases s.Remaining(x, y)
  {
    if s.Inside(x, y) {
      var here := lines(x, y);
      if here.Some? {
        CornerSearchFailsIffAllRanged(s, lines, x + s.deltaX, y + s.deltaY, here.value);
      }
    }
  }

  /**
   * A search from the centre with no previous range fails exactly when the
   * centre line is outside the box or has no range, or when every later
   * line has a range until the scan leaves the box.
   */
  lemma CornerSearchFromCenterFails(s: Search, lines: Lines)
    requires (s.deltaX == 0) != (s.deltaY == 0)
    ensures CornerSearch(s, lines, s.centerX, s.centerY, None).Err? <==>
              !s.Inside(s.centerX, s.centerY)
              || lines(s.centerX, s.centerY).None?
              || AllRanged(s, lines, s.centerX + s.deltaX, s.centerY + s.deltaY)
  {
    if s.Inside(s.centerX, s.centerY) {
      var first := lines(s.centerX, s.centerY);
      if first.Some? {
        assert CornerSearch(s, lines, s.centerX, s.centerY, None)
          == CornerSearch(s, lines, s.centerX + s.deltaX, s.centerY + s.deltaY, first);
        CornerSearchFailsIffAllRanged(s, lines, s.centerX + s.deltaX, s.centerY + s.deltaY, first.value);
      }
    }
  }

  /**
   * `findCornerFromCenter` fails exactly when the centre line is outside
   * the box or has no range, or when every later line has a range until
   * the scan leaves the box.
   */
  lemma FindCornerFails(img: BitMatrix, s: Search, lines: Lines)
    requires s.WellFormed(img) && AgreesWith(img, s, lines)
    ensures FindCorner(img, s).Err? <==>
              !s.Inside(s.centerX, s.centerY)
              || s.LineRange(img, s.centerX, s.centerY).None?
              || AllRanged(s, lines, s.centerX + s.deltaX, s.centerY + s.deltaY)
  {
    FindCornerOn(img, s, lines);
    CornerSearchFromCenterFails(s, lines);
  }

  /** The range on the scan line of `s` through `(x, y)`: a row, or a column. */
  method ScanRange(img: BitMatrix, s: Search, ghost lines: Lines, x: int, y: int) returns (range: Option<Range>)
    requires s.WellFormed(img) && s.Inside(x, y) && AgreesWith(img, s, lines)
    ensures range == lines(x, y)
  {
    if s.deltaX == 0 {
      // a vertical scan reads rows
      range := BlackWhiteRange(img, y, s.maxWhiteRun, s.left, s.right, true);
    } else {
      // a horizontal scan reads columns
      range := BlackWhiteRange(img, x, s.maxWhiteRun, s.top, s.bottom, false);
    }
    assert range == s.LineRange(img, x, y);
  }

  /** `findCornerFromCenter` as the source runs it, stepping `x`, `y` and `lastRange`. */
  method FindCornerFromCenter(img: BitMatrix, centerX: int, deltaX: int, left: int, right: int,
                              centerY: int, deltaY: int, top: int, bottom: int, maxWhiteRun: int)
    returns (r: Result<Point>)
    requires Search(centerX, deltaX, left, right, centerY, deltaY, top, bottom, maxWhiteRun).WellFormed(img)
    ensures r == FindCorner(img, Search(centerX, deltaX, left, right, centerY, deltaY, top, bottom, maxWhiteRun))
  {
    var s := Search(centerX, deltaX, left, right, centerY, deltaY, top, bottom, maxWhiteRun);
    AgreeingLinesExist(img, s);
    ghost var lines :| AgreesWith(img, s, lines);
    FindCornerOn(img, s, lines);
    var lastRange: Option<Range> := None;
    var y := centerY;
    var x := centerX;
    while s.Inside(x, y)
      invariant CornerSearch(s, lines, x, y, lastRange) == CornerSearch(s, lines, centerX, centerY, None)
      decreases s.Remaining(x, y)
    {
      var range := ScanRange(img, s, lines, x, y);
      if range.None? {
        if lastRange.None? {
          return Err(NotFound);
        }
        // the previous line had a range: the corner is read off it
        var last := lastRange.value;
        assert CornerSearch(s, lines, x, y, lastRange) == Ok(s.Corner(x, y, last));
        if deltaX == 0 {
          var lastY := y - deltaY;
          if last.start < centerX {
            if last.end > centerX {
              // the range spans the centre: the end is picked by the scan direction
              return Ok(Point(if deltaY > 0 then last.start else last.end, lastY));
            }
            return Ok(Point(last.start, lastY));
          } else {
            return Ok(Point(last.end, lastY));
          }
        } else {
          var lastX := x - deltaX;
          if last.start < centerY {
            if last.end > centerY {
              return Ok(Point(lastX, if deltaX < 0 then last.start else last.end));
            }
            return Ok(Point(lastX, last.start));
          } else {
            return Ok(Point(lastX, last.end));
          }
        }
      }
      assert CornerSearch(s, lines, x, y, lastRange) == CornerSearch(s, lines, x + deltaX, y + deltaY, range);
      s.StepDecreases(x, y);
      lastRange := range;
      y := y + deltaY;
      x := x + deltaX;
    }
    return Err(NotFound);
  }

  /**
   * A corner `findCornerFromCenter` finds lies in the box, and so does the
   * (empty) line one step past it; it is not behind the centre line.
   */
  lemma FindCornerBounds(img: BitMatrix, s: Search)
    requires s.WellFormed(img) && FindCorner(img, s).Ok?
    ensures var p := FindCorner(img, s).value;
            s.Inside(p.x, p.y) && s.Inside(p.x + s.deltaX, p.y + s.deltaY)
            && s.NotBehind(p, s.centerX, s.centerY)
  {
    AgreeingLinesExist(img, s);
    var lines :| AgreesWith(img, s, lines);
    FindCornerOn(img, s, lines);
    AgreeingLinesFit(img, s, lines);
    CornerSearchBounds(s, lines, s.centerX, s.centerY, None);
  }

  // ----- detect -----

  /** The step between scan lines: one line in `MAX_MODULES * 8` of `extent`, at least 1. */
  function Step(extent: nat): (r: int)
    ensures r >= 1 && (extent >= MAX_MODULES * 8 ==> r * MAX_MODULES * 8 <= extent)
  {
    Max(1, extent / (MAX_MODULES * 8))
  }

  /** The first search of `detect`: up from the centre over the whole image. */
  function SearchA(img: BitMatrix): Search {
    Search(img.width / 2, 0, 0, img.width, img.height / 2, -Step(img.height), 0, img.height, img.width / 2 / 2)
  }

  /** The search for the left corner, below the line above `pointA`. */
  function SearchB(img: BitMatrix, top: int): Search {
    Search(img.width / 2, -Step(img.width), 0, img.width, img.height / 2, 0, top, img.height, img.height / 2 / 2)
  }

  /** The search for the right corner, right of the column left of `pointB`. */
  function SearchC(img: BitMatrix, top: int, left: int): Search {
    Search(img.width / 2, Step(img.width), left, img.width, img.height / 2, 0, top, img.height, img.height / 2 / 2)
  }

  /** The search for the bottom corner, inside the columns of `pointB` and `pointC`. */
  function SearchD(img: BitMatrix, top: int, left: int, right: int): Search {
    Search(img.width / 2, 0, left, right, img.height / 2, Step(img.height), top, img.height, img.width / 2 / 2)
  }

  /** The second search for the top corner, inside the box of the other three. */
  function SearchA2(img: BitMatrix, top: int, left: int, right: int, bottom: int): Search {
    Search(img.width / 2, 0, left, right, img.height / 2, -Step(img.height), top, bottom, img.width / 2 / 4)
  }

  /**
   * Reference definition of `detect`: five corner searches, each bounded
   * by the corners before it, giving `[top, left, right, bottom]`.  All
   * four corners lie in the image; the left corner is not right of the
   * centre column and the right one not left of it; the top corner is not
   * below the centre row and the bottom one not above it; the top and
   * bottom corners lie between the columns next to the left and right
   * corners, and the top corner is not below the bottom one.
   */
  ghost function Quadrilateral(img: BitMatrix): (r: Result<seq<Point>>)
    requires img.Valid()
    ensures r.Ok? ==> |r.value| == 4 && forall i :: 0 <= i < 4 ==> img.InImage(r.value[i].x, r.value[i].y)
    ensures r.Ok? ==> r.value[1].x <= img.width / 2 <= r.value[2].x
    ensures r.Ok? ==> r.value[0].y <= img.height / 2 <= r.value[3].y
    ensures r.Ok? ==> r.value[1].x - 1 <= r.value[0].x <= r.value[2].x && r.value[0].y <= r.value[3].y
    ensures r.Ok? ==> r.value[1].x - 1 <= r.value[3].x <= r.value[2].x
  {
    var sA := SearchA(img);
    var pointA :- FindCorner(img, sA);
    FindCornerBounds(img, sA);
    var top := pointA.y - 1;
    var sB := SearchB(img, top);
    var pointB :- FindCorner(img, sB);
    FindCornerBounds(img, sB);
    var left := pointB.x - 1;
    var sC := SearchC(img, top, left);
    var pointC :- FindCorner(img, sC);
    FindCornerBounds(img, sC);
    var right := pointC.x + 1;
    var sD := SearchD(img, top, left, right);
    var pointD :- FindCorner(img, sD);
    FindCornerBounds(img, sD);
    var bottom := pointD.y + 1;
    var sA2 := SearchA2(img, top, left, right, bottom);
    var pointA2 :- FindCorner(img, sA2);
    FindCornerBounds(img, sA2);
    Ok([pointA2, pointB, pointC, pointD])
  }

  /** An image with no black pixel has no quadrilateral: the centre row has no range. */
  lemma WhiteImageHasNoQuadrilateral(img: BitMatrix)
    requires img.Valid() && img.AllWhite()
    ensures Quadrilateral(img).Err?
  {
    var sA := SearchA(img);
    if sA.Inside(sA.centerX, sA.centerY) {
      var line := ScanLine(img, true, sA.centerY);
      assert line.WhiteOn(0, img.width);
      WhiteLineHasNoRange(line, sA.maxWhiteRun, 0, img.width);
      AgreeingLinesExist(img, sA);
      var lines :| AgreesWith(img, sA, lines);
      FindCornerFails(img, sA, lines);
    }
  }

  /** `detect` as the source runs it: the five searches, stopping at the first that fails. */
  method Detect(img: BitMatrix) returns (r: Result<seq<Point>>)
    requires img.Valid()
    ensures r == Quadrilateral(img)
  {
    var height := img.height;
    var width := img.width;
    var halfHeight := height / 2;
    var halfWidth := width / 2;
    var deltaY := Max(1, height / (MAX_MODULES * 8));
    var deltaX := Max(1, width / (MAX_MODULES * 8));

    var top := 0;
    var bottom := height;
    var left := 0;
    var right := width;
    var pointA :- FindCornerFromCenter(img, halfWidth, 0, left, right, halfHeight, -deltaY, top, bottom,
                                       halfWidth / 2);
    FindCornerBounds(img, SearchA(img));
    top := pointA.y - 1;
    var pointB :- FindCornerFromCenter(img, halfWidth, -deltaX, left, right, halfHeight, 0, top, bottom,
                                       halfHeight / 2);
    FindCornerBounds(img, SearchB(img, top));
    left := pointB.x - 1;
    var pointC :- FindCornerFromCenter(img, halfWidth, deltaX, left, right, halfHeight, 0, top, bottom,
                                       halfHeight / 2);
    FindCornerBounds(img, SearchC(img, top, left));
    right := pointC.x + 1;
    var pointD :- FindCornerFromCenter(img, halfWidth, 0, left, right, halfHeight, deltaY, top, bottom,
                                       halfWidth / 2);
    FindCornerBounds(img, SearchD(img, top, left, right));
    bottom := pointD.y + 1;

    // point A is searched for a second time, now bounded by the points found
    pointA :- FindCornerFromCenter(img, halfWidth, 0, left, right, halfHeight, -deltaY, top, bottom,
                                   halfWidth / 4);
    return Ok([pointA, pointB, pointC, pointD]);
  }
}
