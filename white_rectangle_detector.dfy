/**
 * The white-frame rectangle detector (`WhiteRectangleDetector`).  A
 * window around a point grows border by border until each border has
 * seen black and then gone white, or until a border reaches the image
 * edge.  Each corner region of the final window is then swept with
 * diagonal segments for a black point, and each of the four points
 * found is nudged one pixel inward along its own axis and one pixel
 * along the other.
 *
 * The segment rasterizer of `getBlackPointOnSegment` works in floating
 * point; here it is a parameter `probes`, the points probed on the
 * segment from `a` to `b`, in order.
 */
module WhiteRectangleDetector {
  import opened Wrappers
  import opened BitImage
  import opened RustInt

  const INIT_SIZE: int := 10
  const CORR: int := 1

  /** The detector's state: the image and the initial window `[leftInit, rightInit] x [upInit, downInit]`. */
  datatype Detector = Detector(image: BitMatrix, height: int, width: int,
                               leftInit: int, rightInit: int, downInit: int, upInit: int)
  {
    /** What `new` establishes: the initial window lies inside the image. */
    predicate Valid() {
      image.Valid() && height == image.height && width == image.width
      && 0 <= upInit && 0 <= leftInit && downInit < height && rightInit < width
    }

    /** The initial window is not inverted (it is not when `initSize >= 0`). */
    predicate Ordered() {
      leftInit <= rightInit && upInit <= downInit
    }
  }

  /**
   * `new`: the window `x +- initSize/2`, `y +- initSize/2`.  It fails
   * exactly when the window sticks out of the image.
   */
  function New(image: BitMatrix, initSize: int, x: int, y: int): (r: Result<Detector>)
    requires image.Valid()
    ensures r.Ok? <==>
              0 <= y - TruncDiv(initSize, 2) && 0 <= x - TruncDiv(initSize, 2)
              && y + TruncDiv(initSize, 2) < image.height && x + TruncDiv(initSize, 2) < image.width
    ensures r.Ok? ==> r.value.Valid() && r.value.image == image
    ensures r.Ok? ==> r.value.rightInit - r.value.leftInit == r.value.downInit - r.value.upInit
    // the square is centred on (x, y), its half side `initSize / 2` rounded toward zero
    ensures r.Ok? ==> r.value.height == image.height && r.value.width == image.width
    ensures r.Ok? ==> x - r.value.leftInit == r.value.rightInit - x == TruncDiv(initSize, 2)
    ensures r.Ok? ==> y - r.value.upInit == r.value.downInit - y == TruncDiv(initSize, 2)
    ensures r.Ok? && initSize >= 0 ==>
              (r.value.Ordered() && r.value.leftInit <= x <= r.value.rightInit
               && r.value.upInit <= y <= r.value.downInit)
  {
    var halfsize := TruncDiv(initSize, 2);
    var d := Detector(image, image.height, image.width, x - halfsize, x + halfsize, y + halfsize, y - halfsize);
    if d.upInit < 0 || d.leftInit < 0 || d.downInit >= d.height || d.rightInit >= d.width then
      Err(NotFound)
    else
      Ok(d)
  }

  /** `new_from_image`: a window of `INIT_SIZE` around the image centre. */
  function NewFromImage(image: BitMatrix): Result<Detector>
    requires image.Valid()
  {
    New(image, INIT_SIZE, image.width / 2, image.height / 2)
  }

  /** `new_from_image` succeeds exactly on images at least 11 pixels wide and high. */
  lemma NewFromImageSucceeds(image: BitMatrix)
    requires image.Valid()
    ensures NewFromImage(image).Ok? <==> image.width >= 11 && image.height >= 11
    ensures NewFromImage(image).Ok? ==> NewFromImage(image).value.Ordered()
  {
    assert TruncDiv(INIT_SIZE, 2) == 5;
  }

  // ----- containsBlackPoint -----

  /** Row `fixed` (`horizontal`) or column `fixed` holds a black pixel at a position in `[a, b]`. */
  ghost predicate BlackOnLine(img: BitMatrix, horizontal: bool, fixed: int, a: int, b: int)
    requires img.Valid()
  {
    if horizontal then img.BlackInRow(fixed, a, b) else img.BlackInColumn(fixed, a, b)
  }

  /** The line `fixed` and, when `[a, b]` is not empty, the whole of it lie in the image. */
  predicate LineInImage(img: BitMatrix, horizontal: bool, fixed: int, a: int, b: int) {
    if horizontal then 0 <= fixed < img.height && (a <= b ==> 0 <= a && b < img.width)
    else 0 <= fixed < img.width && (a <= b ==> 0 <= a && b < img.height)
  }

  /**
   * `containsBlackPoint`: some pixel of the inclusive range `[a, b]` on the
   * line is black.  Every pixel it reads lies in the image.
   */
  function ContainsBlackPoint(img: BitMatrix, a: int, b: int, fixed: int, horizontal: bool): (r: bool)
    requires img.Valid() && LineInImage(img, horizontal, fixed, a, b)
    ensures r <==> BlackOnLine(img, horizontal, fixed, a, b)
    decreases b - a
  {
    if a > b then false
    else if (if horizontal then img.Get(a, fixed) else img.Get(fixed, a)) then true
    else ContainsBlackPoint(img, a + 1, b, fixed, horizontal)
  }

  /** A black pixel of `[a, b]` is also one of any range containing it. */
  lemma BlackOnWiderLine(img: BitMatrix, horizontal: bool, fixed: int, a: int, b: int, a': int, b': int)
    requires img.Valid() && a' <= a && b <= b'
    requires BlackOnLine(img, horizontal, fixed, a, b)
    ensures BlackOnLine(img, horizontal, fixed, a', b')
  {
    if horizontal {
      var x :| a <= x <= b && img.InImage(x, fixed) && img.Get(x, fixed);
      assert a' <= x <= b';
    } else {
      var y :| a <= y <= b && img.InImage(fixed, y) && img.Get(fixed, y);
      assert a' <= y <= b';
    }
  }

  // ----- border growth -----

  /** Number of lines across the scan direction: columns for a column border, rows for a row border. */
  function Extent(img: BitMatrix, horizontal: bool): int {
    if horizontal then img.height else img.width
  }

  /** What one border loop of `detect` leaves: the border's line, its flag, and whether it met black. */
  datatype Pushed = Pushed(pos: int, seen: bool, found: bool)

  /**
   * One border loop of `detect`, as a recursive reference: the border at
   * line `pos` (a row when `horizontal`, else a column, spanning
   * `[lo, hi]`) steps `outward` (+1 or -1) past every black line, and
   * past white ones while it has never seen black (`seen` is the
   * border's `atLeastOneBlackPointFound...` flag), stopping at the image
   * edge.  The border ends on a white line or just outside the image,
   * and when it met black the line it last passed is black.
   */
  function Push(img: BitMatrix, horizontal: bool, lo: int, hi: int, pos: int, outward: int, seen: bool): (r: Pushed)
    requires img.Valid() && (outward == 1 || outward == -1)
    requires -1 <= pos <= Extent(img, horizontal)
    requires lo <= hi ==> 0 <= lo && hi < Extent(img, !horizontal)
    ensures outward == 1 ==> pos <= r.pos <= Extent(img, horizontal)
    ensures outward == -1 ==> -1 <= r.pos <= pos
    ensures r.seen == (seen || r.found)
    ensures r.found ==> r.pos != pos
    ensures !r.found && seen ==> r.pos == pos
    decreases if outward == 1 then Extent(img, horizontal) - pos else pos + 1
  {
    if !(0 <= pos < Extent(img, horizontal)) then Pushed(pos, seen, false)
    else if ContainsBlackPoint(img, lo, hi, pos, horizontal) then
      Pushed(Push(img, horizontal, lo, hi, pos + outward, outward, true).pos, true, true)
    else if !seen then Push(img, horizontal, lo, hi, pos + outward, outward, false)
    else Pushed(pos, true, false)
  }

  /**
   * Where a push stops: inside the image only on a white line, and only
   * once the border has seen black; when it met black, the line it last
   * passed is black.
   */
  lemma {:induction false} PushEnds(img: BitMatrix, horizontal: bool, lo: int, hi: int, pos: int, outward: int, seen: bool)
    requires img.Valid() && (outward == 1 || outward == -1)
    requires -1 <= pos <= Extent(img, horizontal)
    requires lo <= hi ==> 0 <= lo && hi < Extent(img, !horizontal)
    ensures Push(img, horizontal, lo, hi, pos, outward, seen).found ==>
              BlackOnLine(img, horizontal, Push(img, horizontal, lo, hi, pos, outward, seen).pos - outward, lo, hi)
    ensures 0 <= Push(img, horizontal, lo, hi, pos, outward, seen).pos < Extent(img, horizontal) ==>
              Push(img, horizontal, lo, hi, pos, outward, seen).seen
              && !BlackOnLine(img, horizontal, Push(img, horizontal, lo, hi, pos, outward, seen).pos, lo, hi)
    decreases if outward == 1 then Extent(img, horizontal) - pos else pos + 1
  {
    if 0 <= pos < Extent(img, horizontal) {
      var black := ContainsBlackPoint(img, lo, hi, pos, horizontal);
      if black || !seen {
        PushEnds(img, horizontal, lo, hi, pos + outward, outward, black);
      }
    }
  }

  /** `Push` continued from a state that has `found` black already. */
  function Resume(found: bool, p: Pushed): Pushed {
    p.(found := found || p.found)
  }

  /**
   * One border loop of `detect`.  `seen'` is the border's
   * `atLeastOneBlackPointFound...` flag after the loop, `found` whether
   * a black line was met on this call.
   */
  method PushBorder(img: BitMatrix, horizontal: bool, lo: int, hi: int, pos: int, outward: int, seen: bool)
    returns (pos': int, seen': bool, found: bool)
    requires img.Valid() && (outward == 1 || outward == -1)
    requires 0 <= pos < Extent(img, horizontal)
    requires lo <= hi ==> 0 <= lo && hi < Extent(img, !horizontal)
    ensures Pushed(pos', seen', found) == Push(img, horizontal, lo, hi, pos, outward, seen)
  {
    pos' := pos;
    seen' := seen;
    found := false;
    var borderNotWhite := true;
    while (borderNotWhite || !seen') && 0 <= pos' < Extent(img, horizontal)
      invariant -1 <= pos' <= Extent(img, horizontal)
      invariant Push(img, horizontal, lo, hi, pos, outward, seen)
                == Resume(found, Push(img, horizontal, lo, hi, pos', outward, seen'))
      invariant !borderNotWhite && seen' ==> 0 <= pos' < Extent(img, horizontal)
                                             && !ContainsBlackPoint(img, lo, hi, pos', horizontal)
      decreases if outward == 1 then Extent(img, horizontal) - pos' else pos' + 1,
                if borderNotWhite || !seen' then 1 else 0
    {
      borderNotWhite := ContainsBlackPoint(img, lo, hi, pos', horizontal);
      ghost var next := Push(img, horizontal, lo, hi, pos' + outward, outward, borderNotWhite || seen');
      if borderNotWhite {
        assert Push(img, horizontal, lo, hi, pos', outward, seen') == Pushed(next.pos, true, true);
        pos' := pos' + outward;
        found := true;
        seen' := true;
      } else if !seen' {
        assert Push(img, horizontal, lo, hi, pos', outward, seen') == next;
        pos' := pos' + outward;
      }
    }
  }

  /** The window of `detect`: columns `[left, right]`, rows `[up, down]`. */
  datatype Window = Window(left: int, right: int, up: int, down: int)

  /**
   * The window border growth ends with: inside the image and larger than
   * the initial window on every side, a white frame, and a black line
   * inside the frame along each of its four sides.
   */
  ghost predicate Framed(d: Detector, w: Window)
    requires d.Valid()
  {
    0 <= w.left < d.leftInit && d.rightInit < w.right < d.width
    && 0 <= w.up < d.upInit && d.downInit < w.down < d.height
    && !d.image.BlackInColumn(w.right, w.up, w.down) && !d.image.BlackInRow(w.down, w.left, w.right)
    && !d.image.BlackInColumn(w.left, w.up, w.down) && !d.image.BlackInRow(w.up, w.left, w.right)
    && (exists c :: d.rightInit <= c < w.right && d.image.BlackInColumn(c, w.up, w.down))
    && (exists c :: d.downInit <= c < w.down && d.image.BlackInRow(c, w.left, w.right))
    && (exists c :: w.left < c <= d.leftInit && d.image.BlackInColumn(c, w.up, w.down))
    && (exists c :: w.up < c <= d.upInit && d.image.BlackInRow(c, w.left, w.right))
  }

  /**
   * The part of `Framed` that holds during growth: the bounds, and for
   * each border that has seen black, a black line `c...` inside it.
   */
  ghost predicate Growing(d: Detector, w: Window, seenR: bool, seenB: bool, seenL: bool, seenT: bool,
                          cR: int, cB: int, cL: int, cT: int)
    requires d.Valid()
  {
    0 <= w.left <= d.leftInit && d.rightInit <= w.right < d.width
    && 0 <= w.up <= d.upInit && d.downInit <= w.down < d.height
    && (seenR ==> d.rightInit <= cR < w.right && d.image.BlackInColumn(cR, w.up, w.down))
    && (seenB ==> d.downInit <= cB < w.down && d.image.BlackInRow(cB, w.left, w.right))
    && (seenL ==> w.left < cL <= d.leftInit && d.image.BlackInColumn(cL, w.up, w.down))
    && (seenT ==> w.up < cT <= d.upInit && d.image.BlackInRow(cT, w.left, w.right))
  }

  /** Widening the window along the columns keeps the black rows of the bottom and top borders black. */
  lemma WidenRows(d: Detector, w: Window, w': Window, seenB: bool, seenT: bool, cB: int, cT: int)
    requires d.Valid() && w'.left <= w.left && w.right <= w'.right
    requires seenB ==> d.image.BlackInRow(cB, w.left, w.right)
    requires seenT ==> d.image.BlackInRow(cT, w.left, w.right)
    ensures seenB ==> d.image.BlackInRow(cB, w'.left, w'.right)
    ensures seenT ==> d.image.BlackInRow(cT, w'.left, w'.right)
  {
    if seenB {
      BlackOnWiderLine(d.image, true, cB, w.left, w.right, w'.left, w'.right);
    }
    if seenT {
      BlackOnWiderLine(d.image, true, cT, w.left, w.right, w'.left, w'.right);
    }
  }

  /** Heightening the window along the rows keeps the black columns of the right and left borders black. */
  lemma WidenColumns(d: Detector, w: Window, w': Window, seenR: bool, seenL: bool, cR: int, cL: int)
    requires d.Valid() && w'.up <= w.up && w.down <= w'.down
    requires seenR ==> d.image.BlackInColumn(cR, w.up, w.down)
    requires seenL ==> d.image.BlackInColumn(cL, w.up, w.down)
    ensures seenR ==> d.image.BlackInColumn(cR, w'.up, w'.down)
    ensures seenL ==> d.image.BlackInColumn(cL, w'.up, w'.down)
  {
    if seenR {
      BlackOnWiderLine(d.image, false, cR, w.up, w.down, w'.up, w'.down);
    }
    if seenL {
      BlackOnWiderLine(d.image, false, cL, w.up, w.down, w'.up, w'.down);
    }
  }

  /** A window that has seen black on every side and whose four borders are white is framed. */
  lemma SettledWindowIsFramed(d: Detector, w: Window, cR: int, cB: int, cL: int, cT: int)
    requires d.Valid() && Growing(d, w, true, true, true, true, cR, cB, cL, cT)
    requires !d.image.BlackInColumn(w.right, w.up, w.down) && !d.image.BlackInRow(w.down, w.left, w.right)
    requires !d.image.BlackInColumn(w.left, w.up, w.down) && !d.image.BlackInRow(w.up, w.left, w.right)
    ensures Framed(d, w)
  {
  }

  /** The distance of a window in the image from the image edges, summed over the four sides. */
  function Slack(d: Detector, w: Window): int {
    (d.width - w.right) + (d.height - w.down) + w.left + w.up
  }

  /** Every border of the window is a line of the image. */
  predicate WithinImage(d: Detector, w: Window) {
    0 <= w.left < d.width && 0 <= w.right < d.width && 0 <= w.up < d.height && 0 <= w.down < d.height
  }

  /** What one pass of the border loop leaves: `Exceeded` (the source's `sizeExceeded`) when a border left the image. */
  datatype Pass = Exceeded | Passed(w: Window, seenR: bool, seenB: bool, seenL: bool, seenT: bool, moved: bool)

  /**
   * One pass of the border loop of `detect` over window `w`: the right,
   * bottom, left and top borders are pushed in turn, each over the
   * window as the earlier pushes left it.
   */
  function GrowPass(d: Detector, w: Window, seenR: bool, seenB: bool, seenL: bool, seenT: bool): Pass
    requires d.Valid() && WithinImage(d, w)
  {
    var r := Push(d.image, false, w.up, w.down, w.right, 1, seenR);
    if r.pos >= d.width then Exceeded
    else
      var b := Push(d.image, true, w.left, r.pos, w.down, 1, seenB);
      if b.pos >= d.height then Exceeded
      else PassLeftTop(d, w, r, b, seenL, seenT)
  }

  /** The left and top pushes of a pass, after the right and bottom ones gave `r` and `b`. */
  function PassLeftTop(d: Detector, w: Window, r: Pushed, b: Pushed, seenL: bool, seenT: bool): Pass
    requires d.Valid() && WithinImage(d, w)
    requires w.right <= r.pos < d.width && w.down <= b.pos < d.height
  {
    var l := Push(d.image, false, w.up, b.pos, w.left, -1, seenL);
    if l.pos < 0 then Exceeded
    else
      var t := Push(d.image, true, l.pos, r.pos, w.up, -1, seenT);
      if t.pos < 0 then Exceeded
      else Passed(Window(l.pos, r.pos, t.pos, b.pos), r.seen, b.seen, l.seen, t.seen,
                  r.found || b.found || l.found || t.found)
  }

  /**
   * A pass that met black moves the window closer to the image edges,
   * and one that met none leaves it as it was; the window stays in the
   * image either way.
   */
  lemma GrowPassMoves(d: Detector, w: Window, seenR: bool, seenB: bool, seenL: bool, seenT: bool)
    requires d.Valid() && WithinImage(d, w)
    ensures var p := GrowPass(d, w, seenR, seenB, seenL, seenT);
      && (p.Passed? ==> WithinImage(d, p.w))
      && (p.Passed? ==> if p.moved then Slack(d, p.w) < Slack(d, w) else p.w == w)
  {
    var r := Push(d.image, false, w.up, w.down, w.right, 1, seenR);
    PushEnds(d.image, false, w.up, w.down, w.right, 1, seenR);
    if r.pos < d.width {
      var b := Push(d.image, true, w.left, r.pos, w.down, 1, seenB);
      PushEnds(d.image, true, w.left, r.pos, w.down, 1, seenB);
      if b.pos < d.height {
        var l := Push(d.image, false, w.up, b.pos, w.left, -1, seenL);
        PushEnds(d.image, false, w.up, b.pos, w.left, -1, seenL);
        if l.pos >= 0 {
          PushEnds(d.image, true, l.pos, r.pos, w.up, -1, seenT);
        }
      }
    }
  }

  /**
   * The border growth of `detect` from window `w`, as a recursive
   * reference: `None` as soon as a border leaves the image, another pass
   * while some border met black, else the window.
   */
  function Grow(d: Detector, w: Window, seenR: bool, seenB: bool, seenL: bool, seenT: bool): Option<Window>
    requires d.Valid() && WithinImage(d, w)
    decreases Slack(d, w)
  {
    var p := GrowPass(d, w, seenR, seenB, seenL, seenT);
    GrowPassMoves(d, w, seenR, seenB, seenL, seenT);
    if p.Exceeded? then None
    else if p.moved then Grow(d, p.w, p.seenR, p.seenB, p.seenL, p.seenT)
    else Some(p.w)
  }

  /** The initial window of the detector. */
  function Start(d: Detector): Window {
    Window(d.leftInit, d.rightInit, d.upInit, d.downInit)
  }

  /** The window border growth settles on, from the initial window with no border having seen black. */
  function Grown(d: Detector): Option<Window>
    requires d.Valid() && d.Ordered()
  {
    Grow(d, Start(d), false, false, false, false)
  }

  /** Pushing the right border keeps `Growing`; a push that met no black leaves it on a white column. */
  lemma PushRightGrowing(d: Detector, w: Window, seenR: bool, seenB: bool, seenL: bool, seenT: bool,
                         cR: int, cB: int, cL: int, cT: int) returns (cR': int)
    requires d.Valid() && d.Ordered() && Growing(d, w, seenR, seenB, seenL, seenT, cR, cB, cL, cT)
    requires Push(d.image, false, w.up, w.down, w.right, 1, seenR).pos < d.width
    ensures Growing(d, w.(right := Push(d.image, false, w.up, w.down, w.right, 1, seenR).pos),
                    Push(d.image, false, w.up, w.down, w.right, 1, seenR).seen, seenB, seenL, seenT, cR', cB, cL, cT)
    ensures !Push(d.image, false, w.up, w.down, w.right, 1, seenR).found ==>
              Push(d.image, false, w.up, w.down, w.right, 1, seenR).pos == w.right
              && seenR && !d.image.BlackInColumn(w.right, w.up, w.down)
  {
    var r := Push(d.image, false, w.up, w.down, w.right, 1, seenR);
    PushEnds(d.image, false, w.up, w.down, w.right, 1, seenR);
    cR' := if r.found then r.pos - 1 else cR;
    WidenRows(d, w, w.(right := r.pos), seenB, seenT, cB, cT);
  }

  /** Pushing the bottom border keeps `Growing`; a push that met no black leaves it on a white row. */
  lemma PushBottomGrowing(d: Detector, w: Window, seenR: bool, seenB: bool, seenL: bool, seenT: bool,
                          cR: int, cB: int, cL: int, cT: int) returns (cB': int)
    requires d.Valid() && d.Ordered() && Growing(d, w, seenR, seenB, seenL, seenT, cR, cB, cL, cT)
    requires Push(d.image, true, w.left, w.right, w.down, 1, seenB).pos < d.height
    ensures Growing(d, w.(down := Push(d.image, true, w.left, w.right, w.down, 1, seenB).pos),
                    seenR, Push(d.image, true, w.left, w.right, w.down, 1, seenB).seen, seenL, seenT, cR, cB', cL, cT)
    ensures !Push(d.image, true, w.left, w.right, w.down, 1, seenB).found ==>
              Push(d.image, true, w.left, w.right, w.down, 1, seenB).pos == w.down
              && seenB && !d.image.BlackInRow(w.down, w.left, w.right)
  {
    var b := Push(d.image, true, w.left, w.right, w.down, 1, seenB);
    PushEnds(d.image, true, w.left, w.right, w.down, 1, seenB);
    cB' := if b.found then b.pos - 1 else cB;
    WidenColumns(d, w, w.(down := b.pos), seenR, seenL, cR, cL);
  }

  /** Pushing the left border keeps `Growing`; a push that met no black leaves it on a white column. */
  lemma PushLeftGrowing(d: Detector, w: Window, seenR: bool, seenB: bool, seenL: bool, seenT: bool,
                        cR: int, cB: int, cL: int, cT: int) returns (cL': int)
    requires d.Valid() && d.Ordered() && Growing(d, w, seenR, seenB, seenL, seenT, cR, cB, cL, cT)
    requires Push(d.image, false, w.up, w.down, w.left, -1, seenL).pos >= 0
    ensures Growing(d, w.(left := Push(d.image, false, w.up, w.down, w.left, -1, seenL).pos),
                    seenR, seenB, Push(d.image, false, w.up, w.down, w.left, -1, seenL).seen, seenT, cR, cB, cL', cT)
    ensures !Push(d.image, false, w.up, w.down, w.left, -1, seenL).found ==>
              Push(d.image, false, w.up, w.down, w.left, -1, seenL).pos == w.left
              && seenL && !d.image.BlackInColumn(w.left, w.up, w.down)
  {
    var l := Push(d.image, false, w.up, w.down, w.left, -1, seenL);
    PushEnds(d.image, false, w.up, w.down, w.left, -1, seenL);
    cL' := if l.found then l.pos + 1 else cL;
    WidenRows(d, w, w.(left := l.pos), seenB, seenT, cB, cT);
  }

  /** Pushing the top border keeps `Growing`; a push that met no black leaves it on a white row. */
  lemma PushTopGrowing(d: Detector, w: Window, seenR: bool, seenB: bool, seenL: bool, seenT: bool,
                       cR: int, cB: int, cL: int, cT: int) returns (cT': int)
    requires d.Valid() && d.Ordered() && Growing(d, w, seenR, seenB, seenL, seenT, cR, cB, cL, cT)
    requires Push(d.image, true, w.left, w.right, w.up, -1, seenT).pos >= 0
    ensures Growing(d, w.(up := Push(d.image, true, w.left, w.right, w.up, -1, seenT).pos),
                    seenR, seenB, seenL, Push(d.image, true, w.left, w.right, w.up, -1, seenT).seen, cR, cB, cL, cT')
    ensures !Push(d.image, true, w.left, w.right, w.up, -1, seenT).found ==>
              Push(d.image, true, w.left, w.right, w.up, -1, seenT).pos == w.up
              && seenT && !d.image.BlackInRow(w.up, w.left, w.right)
  {
    var t := Push(d.image, true, w.left, w.right, w.up, -1, seenT);
    PushEnds(d.image, true, w.left, w.right, w.up, -1, seenT);
    cT' := if t.found then t.pos + 1 else cT;
    WidenColumns(d, w, w.(up := t.pos), seenR, seenL, cR, cL);
  }

  /**
   * A pass keeps `Growing`, with the black lines `c...` that the borders
   * which met black passed last, and a pass that met no black leaves a
   * framed window.
   */
  lemma PassKeepsGrowing(d: Detector, w: Window, seenR: bool, seenB: bool, seenL: bool, seenT: bool,
                         cR: int, cB: int, cL: int, cT: int)
    returns (cR': int, cB': int, cL': int, cT': int)
    requires d.Valid() && d.Ordered() && Growing(d, w, seenR, seenB, seenL, seenT, cR, cB, cL, cT)
    requires GrowPass(d, w, seenR, seenB, seenL, seenT).Passed?
    ensures Growing(d, GrowPass(d, w, seenR, seenB, seenL, seenT).w,
                    GrowPass(d, w, seenR, seenB, seenL, seenT).seenR, GrowPass(d, w, seenR, seenB, seenL, seenT).seenB,
                    GrowPass(d, w, seenR, seenB, seenL, seenT).seenL, GrowPass(d, w, seenR, seenB, seenL, seenT).seenT,
                    cR', cB', cL', cT')
    ensures !GrowPass(d, w, seenR, seenB, seenL, seenT).moved ==> Framed(d, GrowPass(d, w, seenR, seenB, seenL, seenT).w)
  {
    var r := Push(d.image, false, w.up, w.down, w.right, 1, seenR);
    cR' := PushRightGrowing(d, w, seenR, seenB, seenL, seenT, cR, cB, cL, cT);
    var w1 := w.(right := r.pos);
    var b := Push(d.image, true, w1.left, w1.right, w1.down, 1, seenB);
    cB' := PushBottomGrowing(d, w1, r.seen, seenB, seenL, seenT, cR', cB, cL, cT);
    var w2 := w1.(down := b.pos);
    var l := Push(d.image, false, w2.up, w2.down, w2.left, -1, seenL);
    cL' := PushLeftGrowing(d, w2, r.seen, b.seen, seenL, seenT, cR', cB', cL, cT);
    var w3 := w2.(left := l.pos);
    var t := Push(d.image, true, w3.left, w3.right, w3.up, -1, seenT);
    cT' := PushTopGrowing(d, w3, r.seen, b.seen, l.seen, seenT, cR', cB', cL', cT);
    var w4 := w3.(up := t.pos);
    assert GrowPass(d, w, seenR, seenB, seenL, seenT) == Passed(w4, r.seen, b.seen, l.seen, t.seen,
                                                                r.found || b.found || l.found || t.found);
    if !(r.found || b.found || l.found || t.found) {
      SettledWindowIsFramed(d, w4, cR', cB', cL', cT');
    }
  }

  /**
   * Growth that settles ends framed: from a window satisfying `Growing`,
   * every window `Grow` returns is `Framed`.
   */
  lemma {:induction false} GrowFramed(d: Detector, w: Window, seenR: bool, seenB: bool, seenL: bool, seenT: bool,
                                      cR: int, cB: int, cL: int, cT: int)
    requires d.Valid() && d.Ordered() && Growing(d, w, seenR, seenB, seenL, seenT, cR, cB, cL, cT)
    ensures Grow(d, w, seenR, seenB, seenL, seenT).Some? ==> Framed(d, Grow(d, w, seenR, seenB, seenL, seenT).value)
    decreases Slack(d, w)
  {
    var p := GrowPass(d, w, seenR, seenB, seenL, seenT);
    GrowPassMoves(d, w, seenR, seenB, seenL, seenT);
    if p.Passed? {
      var cR', cB', cL', cT' := PassKeepsGrowing(d, w, seenR, seenB, seenL, seenT, cR, cB, cL, cT);
      if p.moved {
        GrowFramed(d, p.w, p.seenR, p.seenB, p.seenL, p.seenT, cR', cB', cL', cT');
      }
    }
  }

  /**
   * One pass of the border-growth loop: the right, bottom, left and top
   * border loops in turn, stopping with `Exceeded` as soon as a border
   * leaves the image.
   */
  method BorderPass(d: Detector, w: Window, seenR: bool, seenB: bool, seenL: bool, seenT: bool) returns (p: Pass)
    requires d.Valid() && WithinImage(d, w)
    ensures p == GrowPass(d, w, seenR, seenB, seenL, seenT)
  {
    var right, atLeastOneBlackPointFoundOnRight, foundRight := PushBorder(d.image, false, w.up, w.down, w.right, 1, seenR);
    if right >= d.width {
      return Exceeded;
    }
    var down, atLeastOneBlackPointFoundOnBottom, foundBottom := PushBorder(d.image, true, w.left, right, w.down, 1, seenB);
    if down >= d.height {
      return Exceeded;
    }
    p := BorderPassLeftTop(d, w, Pushed(right, atLeastOneBlackPointFoundOnRight, foundRight),
                           Pushed(down, atLeastOneBlackPointFoundOnBottom, foundBottom), seenL, seenT);
  }

  /** The left and top loops of one pass, after the right and bottom ones. */
  method BorderPassLeftTop(d: Detector, w: Window, r: Pushed, b: Pushed, seenL: bool, seenT: bool) returns (p: Pass)
    requires d.Valid() && WithinImage(d, w)
    requires w.right <= r.pos < d.width && w.down <= b.pos < d.height
    ensures p == PassLeftTop(d, w, r, b, seenL, seenT)
  {
    var left, atLeastOneBlackPointFoundOnLeft, foundLeft := PushBorder(d.image, false, w.up, b.pos, w.left, -1, seenL);
    if left < 0 {
      return Exceeded;
    }
    var up, atLeastOneBlackPointFoundOnTop, foundTop := PushBorder(d.image, true, left, r.pos, w.up, -1, seenT);
    if up < 0 {
      return Exceeded;
    }
    var aBlackPointFoundOnBorder := r.found || b.found || foundLeft || foundTop;
    return Passed(Window(left, r.pos, up, b.pos), r.seen, b.seen,
                  atLeastOneBlackPointFoundOnLeft, atLeastOneBlackPointFoundOnTop, aBlackPointFoundOnBorder);
  }


  /**
   * The first phase of `detect`, the border-growth loop: it computes
   * `Grown`, and a window it settles on is framed.
   */
  method GrowBorders(d: Detector) returns (w: Option<Window>)
    requires d.Valid() && d.Ordered()
    ensures w == Grown(d)
    ensures w.Some? ==> Framed(d, w.value)
  {
    var window := Start(d);
    var aBlackPointFoundOnBorder := true;
    var atLeastOneBlackPointFoundOnRight := false;
    var atLeastOneBlackPointFoundOnBottom := false;
    var atLeastOneBlackPointFoundOnLeft := false;
    var atLeastOneBlackPointFoundOnTop := false;

    while aBlackPointFoundOnBorder
      invariant WithinImage(d, window)
      invariant Grown(d) == if aBlackPointFoundOnBorder then
                              Grow(d, window, atLeastOneBlackPointFoundOnRight, atLeastOneBlackPointFoundOnBottom,
                                   atLeastOneBlackPointFoundOnLeft, atLeastOneBlackPointFoundOnTop)
                            else Some(window)
      decreases Slack(d, window), aBlackPointFoundOnBorder
    {
      var p := BorderPass(d, window, atLeastOneBlackPointFoundOnRight, atLeastOneBlackPointFoundOnBottom,
                          atLeastOneBlackPointFoundOnLeft, atLeastOneBlackPointFoundOnTop);
      GrowPassMoves(d, window, atLeastOneBlackPointFoundOnRight, atLeastOneBlackPointFoundOnBottom,
                    atLeastOneBlackPointFoundOnLeft, atLeastOneBlackPointFoundOnTop);
      if p.Exceeded? {
        return None;
      }
      window := p.w;
      atLeastOneBlackPointFoundOnRight, atLeastOneBlackPointFoundOnBottom := p.seenR, p.seenB;
      atLeastOneBlackPointFoundOnLeft, atLeastOneBlackPointFoundOnTop := p.seenL, p.seenT;
      aBlackPointFoundOnBorder := p.moved;
    }
    GrowFramed(d, Start(d), false, false, false, false, 0, 0, 0, 0);
    return Some(window);
  }

  // ----- getBlackPointOnSegment and the diagonal sweeps -----

  /** The points the rasterizer probes on the segment from its first to its second point, in order. */
  type Probes = (Point, Point) -> seq<Point>

  /** The first black point of `pts`, if any. */
  function FirstBlack(img: BitMatrix, pts: seq<Point>): (r: Option<Point>)
    requires img.Valid()
    ensures r.Some? ==> img.IsBlack(r.value)
    ensures r.None? <==> forall i :: 0 <= i < |pts| ==> !img.IsBlack(pts[i])
  {
    if |pts| == 0 then None
    else if img.IsBlack(pts[0]) then Some(pts[0])
    else FirstBlack(img, pts[1..])
  }

  /** `FirstBlack` returns a probed point, and no earlier probe is black. */
  lemma {:induction false} FirstBlackIsFirst(img: BitMatrix, pts: seq<Point>)
    requires img.Valid() && FirstBlack(img, pts).Some?
    ensures exists i :: 0 <= i < |pts| && pts[i] == FirstBlack(img, pts).value
                        && forall j :: 0 <= j < i ==> !img.IsBlack(pts[j])
  {
    if !img.IsBlack(pts[0]) {
      FirstBlackIsFirst(img, pts[1..]);
      var i :| 0 <= i < |pts[1..]| && pts[1..][i] == FirstBlack(img, pts[1..]).value
                && forall j :: 0 <= j < i ==> !img.IsBlack(pts[1..][j]);
      assert pts[i + 1] == FirstBlack(img, pts).value;
      forall j | 0 <= j < i + 1
        ensures !img.IsBlack(pts[j])
      {
        if j > 0 {
          assert pts[j] == pts[1..][j - 1];
        }
      }
    }
  }

  /**
   * `getBlackPointOnSegment`: the first probe on the segment from `a` to
   * `b` whose pixel is black.  A probe outside the image reads as white.
   */
  method GetBlackPointOnSegment(img: BitMatrix, probes: Probes, a: Point, b: Point) returns (r: Option<Point>)
    requires img.Valid()
    ensures r == FirstBlack(img, probes(a, b))
  {
    var pts := probes(a, b);
    var i := 0;
    while i < |pts|
      invariant 0 <= i <= |pts|
      invariant FirstBlack(img, pts[i..]) == FirstBlack(img, pts)
    {
      assert pts[i..][1..] == pts[i + 1..];
      if img.IsBlack(pts[i]) {
        return Some(pts[i]);
      }
      i := i + 1;
    }
    return None;
  }

  /**
   * The four diagonal sweeps of `detect`, named after the point each
   * finds: `Z` from the bottom-left corner, `T` from the top-left, `X`
   * from the top-right and `Y` from the bottom-right.
   */
  datatype Sweep = Z | T | X | Y

  /** The `i`-th segment of a sweep: it cuts the corner of the window at distance `i`. */
  function Segment(k: Sweep, w: Window, i: int): (Point, Point) {
    match k
    case Z => (Point(w.left, w.down - i), Point(w.left + i, w.down))
    case T => (Point(w.left, w.up + i), Point(w.left + i, w.up))
    case X => (Point(w.right, w.up + i), Point(w.right - i, w.up))
    case Y => (Point(w.right, w.down - i), Point(w.right - i, w.down))
  }

  /** The black point found on the first of the segments `i`, `i+1`, ... below `maxSize` that has one. */
  function SweepFrom(img: BitMatrix, probes: Probes, k: Sweep, w: Window, i: int, maxSize: int): Option<Point>
    requires img.Valid()
    decreases maxSize - i
  {
    if i >= maxSize then None
    else
      var p := FirstBlack(img, probes(Segment(k, w, i).0, Segment(k, w, i).1));
      if p.Some? then p else SweepFrom(img, probes, k, w, i + 1, maxSize)
  }

  /** Segment `i` of the sweep holds no black probe. */
  ghost predicate SegmentWhite(img: BitMatrix, probes: Probes, k: Sweep, w: Window, i: int)
    requires img.Valid()
  {
    FirstBlack(img, probes(Segment(k, w, i).0, Segment(k, w, i).1)).None?
  }

  /**
   * A sweep finds nothing exactly when every segment it tries is white,
   * and what it finds is the first black probe of the first segment
   * that has one.
   */
  lemma {:induction false} SweepFromFinds(img: BitMatrix, probes: Probes, k: Sweep, w: Window, i: int, maxSize: int)
    requires img.Valid()
    ensures SweepFrom(img, probes, k, w, i, maxSize).None? <==>
              forall j :: i <= j < maxSize ==> SegmentWhite(img, probes, k, w, j)
    ensures SweepFrom(img, probes, k, w, i, maxSize).Some? ==>
              img.IsBlack(SweepFrom(img, probes, k, w, i, maxSize).value)
              && exists j :: i <= j < maxSize
                             && SweepFrom(img, probes, k, w, i, maxSize)
                                == FirstBlack(img, probes(Segment(k, w, j).0, Segment(k, w, j).1))
                             && forall j' :: i <= j' < j ==> SegmentWhite(img, probes, k, w, j')
    decreases maxSize - i
  {
    if i < maxSize && SegmentWhite(img, probes, k, w, i) {
      SweepFromFinds(img, probes, k, w, i + 1, maxSize);
      if SweepFrom(img, probes, k, w, i, maxSize).Some? {
        var j :| i + 1 <= j < maxSize
                 && SweepFrom(img, probes, k, w, i + 1, maxSize)
                    == FirstBlack(img, probes(Segment(k, w, j).0, Segment(k, w, j).1))
                 && forall j' :: i + 1 <= j' < j ==> SegmentWhite(img, probes, k, w, j');
        assert forall j' :: i <= j' < j ==> SegmentWhite(img, probes, k, w, j');
      }
    }
  }

  /** One diagonal counter loop of `detect`: segments `i = 1, 2, ...` while nothing is found and `i < maxSize`. */
  method DiagonalSweep(img: BitMatrix, probes: Probes, k: Sweep, w: Window, maxSize: int) returns (r: Option<Point>)
    requires img.Valid()
    ensures r == SweepFrom(img, probes, k, w, 1, maxSize)
  {
    r := None;
    var i := 1;
    while r.None? && i < maxSize
      invariant r.None? ==> SweepFrom(img, probes, k, w, i, maxSize) == SweepFrom(img, probes, k, w, 1, maxSize)
      invariant r.Some? ==> r == SweepFrom(img, probes, k, w, 1, maxSize)
      decreases maxSize - i
    {
      var seg := Segment(k, w, i);
      r := GetBlackPointOnSegment(img, probes, seg.0, seg.1);
      i := i + 1;
    }
  }

  // ----- centerEdges -----

  /**
   * `centerEdges(y, z, x, t)`: the corners `[t, z, x, y]`, each moved one
   * pixel on both axes, by one of two sign tables chosen by whether `y`
   * lies in the left half of the image.
   */
  function CenterEdges(y: Point, z: Point, x: Point, t: Point, width: int): (r: seq<Point>)
    ensures |r| == 4
    // the top point moves down, the left one right, the right one left, the bottom one up;
    // which way each moves along the other axis follows the table, and
    // `CenterEdgesQuarterTurn` relates the two tables to each other
    ensures r[0].y == t.y + CORR && r[1].x == z.x + CORR && r[2].x == x.x - CORR && r[3].y == y.y - CORR
    // and each also moves by exactly one pixel along the other axis
    ensures (r[0].x - t.x) * (r[0].x - t.x) == 1 && (r[1].y - z.y) * (r[1].y - z.y) == 1
    ensures (r[2].y - x.y) * (r[2].y - x.y) == 1 && (r[3].x - y.x) * (r[3].x - y.x) == 1
    // the four moves cancel: the centroid stays put
    ensures r[0].x + r[1].x + r[2].x + r[3].x == t.x + z.x + x.x + y.x
    ensures r[0].y + r[1].y + r[2].y + r[3].y == t.y + z.y + x.y + y.y
  {
    // `y.x < width / 2.0` in floating point, for integer coordinates
    if 2 * y.x < width then
      [Point(t.x - CORR, t.y + CORR), Point(z.x + CORR, z.y + CORR),
       Point(x.x - CORR, x.y - CORR), Point(y.x + CORR, y.y - CORR)]
    else
      [Point(t.x + CORR, t.y + CORR), Point(z.x + CORR, z.y - CORR),
       Point(x.x - CORR, x.y + CORR), Point(y.x - CORR, y.y - CORR)]
  }

  /** The move `centerEdges` applies to the `k`-th corner. */
  function Nudge(y: Point, z: Point, x: Point, t: Point, width: int, k: int): Point
    requires 0 <= k < 4
  {
    var src := [t, z, x, y];
    var dst := CenterEdges(y, z, x, t, width);
    Point(dst[k].x - src[k].x, dst[k].y - src[k].y)
  }

  /**
   * The sign table for a `y` in the right half is the left-half table
   * turned a quarter: each move `(dx, dy)` becomes `(dy, -dx)`.
   */
  lemma CenterEdgesQuarterTurn(y: Point, z: Point, x: Point, t: Point, width: int, y': Point)
    requires 2 * y.x < width <= 2 * y'.x
    ensures forall k :: 0 <= k < 4 ==>
              Nudge(y', z, x, t, width, k) == Point(Nudge(y, z, x, t, width, k).y, -Nudge(y, z, x, t, width, k).x)
  {
    forall k | 0 <= k < 4
      ensures Nudge(y', z, x, t, width, k) == Point(Nudge(y, z, x, t, width, k).y, -Nudge(y, z, x, t, width, k).x)
    {
    }
  }

  // ----- detect -----

  /** The corner points `detect` returns once the borders have settled on window `w`. */
  ghost function Corners(d: Detector, probes: Probes, w: Window): Result<seq<Point>>
    requires d.Valid()
  {
    var maxSize := w.right - w.left;
    var z := SweepFrom(d.image, probes, Z, w, 1, maxSize);
    var t := SweepFrom(d.image, probes, T, w, 1, maxSize);
    var x := SweepFrom(d.image, probes, X, w, 1, maxSize);
    var y := SweepFrom(d.image, probes, Y, w, 1, maxSize);
    if z.None? || t.None? || x.None? || y.None? then Err(NotFound)
    else Ok(CenterEdges(y.value, z.value, x.value, t.value, d.width))
  }

  /**
   * `detect`: grow the borders, then sweep the four corners of the
   * window.  It fails when a border left the image, and otherwise
   * returns the corners of the window growth settled on.
   */
  method Detect(d: Detector, probes: Probes) returns (r: Result<seq<Point>>)
    requires d.Valid() && d.Ordered()
    ensures r == if Grown(d).None? then Err(NotFound) else Corners(d, probes, Grown(d).value)
    ensures r.Ok? ==> exists y, z, x, t ::
              d.image.IsBlack(y) && d.image.IsBlack(z) && d.image.IsBlack(x) && d.image.IsBlack(t)
              && r.value == CenterEdges(y, z, x, t, d.width)
    ensures d.image.AllWhite() ==> r.Err?
  {
    var window := GrowBorders(d);
    if window.None? {
      return Err(NotFound);
    }
    var w := window.value;
    var maxSize := w.right - w.left;
    if d.image.AllWhite() {
      WhiteImageHasNoCorners(d, probes, w);
    }

    var z := DiagonalSweep(d.image, probes, Z, w, maxSize);
    if z.None? {
      return Err(NotFound);
    }
    var t := DiagonalSweep(d.image, probes, T, w, maxSize);
    if t.None? {
      return Err(NotFound);
    }
    var x := DiagonalSweep(d.image, probes, X, w, maxSize);
    if x.None? {
      return Err(NotFound);
    }
    var y := DiagonalSweep(d.image, probes, Y, w, maxSize);
    if y.None? {
      return Err(NotFound);
    }
    CornersOfBlackPoints(d, probes, w);
    return Ok(CenterEdges(y.value, z.value, x.value, t.value, d.width));
  }

  /**
   * What `detect` returns: `centerEdges` of four black points, the
   * first black probes of the four corner sweeps.
   */
  lemma CornersOfBlackPoints(d: Detector, probes: Probes, w: Window)
    requires d.Valid() && Corners(d, probes, w).Ok?
    ensures exists y, z, x, t ::
              d.image.IsBlack(y) && d.image.IsBlack(z) && d.image.IsBlack(x) && d.image.IsBlack(t)
              && Corners(d, probes, w).value == CenterEdges(y, z, x, t, d.width)
  {
    var maxSize := w.right - w.left;
    SweepFromFinds(d.image, probes, Z, w, 1, maxSize);
    SweepFromFinds(d.image, probes, T, w, 1, maxSize);
    SweepFromFinds(d.image, probes, X, w, 1, maxSize);
    SweepFromFinds(d.image, probes, Y, w, 1, maxSize);
    var z := SweepFrom(d.image, probes, Z, w, 1, maxSize).value;
    var t := SweepFrom(d.image, probes, T, w, 1, maxSize).value;
    var x := SweepFrom(d.image, probes, X, w, 1, maxSize).value;
    var y := SweepFrom(d.image, probes, Y, w, 1, maxSize).value;
    assert Corners(d, probes, w).value == CenterEdges(y, z, x, t, d.width);
  }

  /** A white image has no black point for any sweep to find, so `detect` never succeeds on it. */
  lemma WhiteImageHasNoCorners(d: Detector, probes: Probes, w: Window)
    requires d.Valid() && d.image.AllWhite()
    ensures Corners(d, probes, w).Err?
  {
    var maxSize := w.right - w.left;
    SweepFromFinds(d.image, probes, Z, w, 1, maxSize);
  }
}
