/**
 * `GenericMultipleBarcodeReader`: finds several barcodes in one image by
 * decoding it with a single-barcode reader (the delegate) and then decoding,
 * recursively, the parts of the image left of, above, right of and below
 * the points of what was found, up to a fixed depth.
 *
 * The delegate and `BinaryBitmap.crop` are not part of this model: they are
 * function parameters of the reader.  Results are kept in a shared list
 * object, as in the source; the reader also keeps a ghost log of the depths
 * at which it called the delegate.
 */
module GenericMultipleBarcode {
  import opened Wrappers
  import opened ScanResult

  const MIN_DIMENSION_TO_RECUR: int := 100
  const MAX_DEPTH: int := 4

  /** The delegate's `decode(image, hints)`. */
  type Delegate = (BinaryBitmap, DecodingHints) -> Result<RXingResult>

  /** `image.crop(left, top, width, height)`. */
  type Cropper = (BinaryBitmap, int, int, int, int) -> BinaryBitmap

  /** No two results carry the same text. */
  predicate DistinctTexts(results: seq<RXingResult>) {
    forall i, j :: 0 <= i < j < |results| ==> results[i].text != results[j].text
  }

  /** A point moved by the given offsets; an absent point stays absent. */
  function TranslatedPoint(p: Option<ResultPoint>, xOffset: int, yOffset: int): Option<ResultPoint> {
    match p
    case None => None
    case Some(q) => Some(ResultPoint(q.x + xOffset as real, q.y + yOffset as real))
  }

  /** A result with its points moved by the given offsets, all else kept. */
  function Translated(result: RXingResult, xOffset: int, yOffset: int): (t: RXingResult)
    ensures |t.points| == |result.points|
    ensures t.text == result.text && t.rawBytes == result.rawBytes && t.numBits == result.numBits
    ensures t.format == result.format && t.timestamp == result.timestamp && t.metadata == result.metadata
  {
    result.(points := seq(|result.points|, i requires 0 <= i < |result.points| =>
                            TranslatedPoint(result.points[i], xOffset, yOffset)))
  }

  /**
   * Translating twice is translating once by the summed offsets, and
   * translating back undoes a translation.
   */
  lemma TranslatedComposes(result: RXingResult, x1: int, y1: int, x2: int, y2: int)
    ensures Translated(Translated(result, x1, y1), x2, y2) == Translated(result, x1 + x2, y1 + y2)
    ensures Translated(Translated(result, x1, y1), -x1, -y1) == result
  {
    var once := Translated(result, x1, y1);
    var twice := Translated(once, x2, y2);
    var direct := Translated(result, x1 + x2, y1 + y2);
    forall i | 0 <= i < |result.points|
      ensures twice.points[i] == direct.points[i]
    {
      if result.points[i].Some? {
        var q := result.points[i].value;
        assert q.x + x1 as real + x2 as real == q.x + (x1 + x2) as real;
      }
    }
    assert twice.points == direct.points;
    var back := Translated(once, -x1, -y1);
    assert back.points == result.points;
  }

  /**
   * `translateRXingResultPoints`: a copy of the result whose points are
   * filled in one by one, moved by the offsets; absent points stay absent.
   */
  method TranslateRXingResultPoints(result: RXingResult, xOffset: int, yOffset: int) returns (t: RXingResult)
    ensures t == Translated(result, xOffset, yOffset)
    ensures forall i :: 0 <= i < |result.points| ==> (t.points[i].None? <==> result.points[i].None?)
  {
    var oldPoints := result.points;
    var newPoints := new Option<ResultPoint>[|oldPoints|](_ => None);
    for i := 0 to |oldPoints|
      invariant forall j :: 0 <= j < i ==> newPoints[j] == TranslatedPoint(oldPoints[j], xOffset, yOffset)
      invariant forall j :: i <= j < newPoints.Length ==> newPoints[j].None?
    {
      var oldPoint := oldPoints[i];
      if oldPoint.Some? {
        newPoints[i] := Some(ResultPoint(oldPoint.value.x + xOffset as real, oldPoint.value.y + yOffset as real));
      }
    }
    t := result.(points := newPoints[..]);
    assert t.points == Translated(result, xOffset, yOffset).points;
  }

  /** Whether some result in the list already carries this text. */
  method AlreadyFound(results: seq<RXingResult>, text: string) returns (found: bool)
    ensures found <==> exists i :: 0 <= i < |results| && results[i].text == text
  {
    found := false;
    var i := 0;
    while i < |results|
      invariant 0 <= i <= |results|
      invariant !found && forall j :: 0 <= j < i ==> results[j].text != text
    {
      if results[i].text == text {
        found := true;
        break;
      }
      i := i + 1;
    }
  }

  /** Some result in `found` carries `text`. */
  ghost predicate HasText(found: seq<RXingResult>, text: string) {
    exists i :: 0 <= i < |found| && found[i].text == text
  }

  /** A text recorded stays recorded as the list grows. */
  lemma HasTextGrows(found: seq<RXingResult>, found': seq<RXingResult>, text: string)
    requires found <= found' && HasText(found, text)
    ensures HasText(found', text)
  {
    var i :| 0 <= i < |found| && found[i].text == text;
    assert found'[i] == found[i];
  }

  /** The box spanned by the points of a result, started from the image size. */
  datatype Box = Box(minX: real, minY: real, maxX: real, maxY: real)

  /** One step of the bounding-box loop: an absent point leaves the box as it is. */
  function Enclose(b: Box, p: Option<ResultPoint>): Box {
    if p.None? then b
    else Box(if p.value.x < b.minX then p.value.x else b.minX,
             if p.value.y < b.minY then p.value.y else b.minY,
             if p.value.x > b.maxX then p.value.x else b.maxX,
             if p.value.y > b.maxY then p.value.y else b.maxY)
  }

  /** The box the bounding-box loop computes: the points enclosed in order, from the image-size start box. */
  function BoxOf(points: seq<Option<ResultPoint>>, width: int, height: int): Box
    decreases |points|
  {
    if |points| == 0 then Box(width as real, height as real, 0.0, 0.0)
    else Enclose(BoxOf(points[..|points| - 1], width, height), points[|points| - 1])
  }

  /** Enclosing one more point extends the box of the prefix. */
  lemma BoxOfStep(points: seq<Option<ResultPoint>>, i: int, width: int, height: int)
    requires 0 <= i < |points|
    ensures BoxOf(points[..i + 1], width, height) == Enclose(BoxOf(points[..i], width, height), points[i])
  {
    assert points[..i + 1][..i] == points[..i];
  }

  /**
   * The bounding-box loop: `minX`/`minY` start at the image's width and
   * height, `maxX`/`maxY` at 0, and absent points are skipped.  The box
   * holds every point, and each bound is either its start value or the
   * coordinate of some point.
   */
  method BoundingBox(points: seq<Option<ResultPoint>>, width: int, height: int) returns (b: Box)
    ensures b == BoxOf(points, width, height)
    ensures forall i :: 0 <= i < |points| && points[i].Some? ==>
      b.minX <= points[i].value.x <= b.maxX && b.minY <= points[i].value.y <= b.maxY
    ensures b.minX <= width as real && b.minY <= height as real && 0.0 <= b.maxX && 0.0 <= b.maxY
    ensures b.minX == width as real || exists i :: 0 <= i < |points| && points[i].Some? && points[i].value.x == b.minX
    ensures b.minY == height as real || exists i :: 0 <= i < |points| && points[i].Some? && points[i].value.y == b.minY
    ensures b.maxX == 0.0 || exists i :: 0 <= i < |points| && points[i].Some? && points[i].value.x == b.maxX
    ensures b.maxY == 0.0 || exists i :: 0 <= i < |points| && points[i].Some? && points[i].value.y == b.maxY
  {
    var minX := width as real;
    var minY := height as real;
    var maxX := 0.0;
    var maxY := 0.0;
    // the points that set each bound, or -1 while it keeps its start value
    ghost var atMinX, atMinY, atMaxX, atMaxY := -1, -1, -1, -1;
    for i := 0 to |points|
      invariant forall j :: 0 <= j < i && points[j].Some? ==>
        minX <= points[j].value.x <= maxX && minY <= points[j].value.y <= maxY
      invariant minX <= width as real && minY <= height as real && 0.0 <= maxX && 0.0 <= maxY
      invariant Box(minX, minY, maxX, maxY) == BoxOf(points[..i], width, height)
      invariant -1 <= atMinX < i && -1 <= atMinY < i && -1 <= atMaxX < i && -1 <= atMaxY < i
      invariant atMinX == -1 ==> minX == width as real
      invariant atMinX >= 0 ==> points[atMinX].Some? && points[atMinX].value.x == minX
      invariant atMinY == -1 ==> minY == height as real
      invariant atMinY >= 0 ==> points[atMinY].Some? && points[atMinY].value.y == minY
      invariant atMaxX == -1 ==> maxX == 0.0
      invariant atMaxX >= 0 ==> points[atMaxX].Some? && points[atMaxX].value.x == maxX
      invariant atMaxY == -1 ==> maxY == 0.0
      invariant atMaxY >= 0 ==> points[atMaxY].Some? && points[atMaxY].value.y == maxY
    {
      BoxOfStep(points, i, width, height);
      if points[i].None? {
        continue;
      }
      var x := points[i].value.x;
      var y := points[i].value.y;
      if x < minX {
        minX := x;
        atMinX := i;
      }
      if y < minY {
        minY := y;
        atMinY := i;
      }
      if x > maxX {
        maxX := x;
        atMaxX := i;
      }
      if y > maxY {
        maxY := y;
        atMaxY := i;
      }
    }
    assert points[..|points|] == points;
    b := Box(minX, minY, maxX, maxY);
  }

  /** The four parts of the image searched after a success, in the order searched. */
  datatype Side = Left | Above | Right | Below

  /** A part of the image to search: the crop rectangle and the offsets of its origin. */
  datatype SubSearch = SubSearch(left: int, top: int, width: int, height: int, xOffset: int, yOffset: int)

  /**
   * The search on one side of the box, if that side leaves more than
   * `MIN_DIMENSION_TO_RECUR` pixels; float coordinates are truncated to
   * `int`, which for these non-negative values is the floor.
   */
  function SubSearchOn(side: Side, b: Box, width: int, height: int, xOffset: int, yOffset: int): Option<SubSearch> {
    match side
    case Left =>
      if b.minX > MIN_DIMENSION_TO_RECUR as real
      then Some(SubSearch(0, 0, b.minX.Floor, height, xOffset, yOffset)) else None
    case Above =>
      if b.minY > MIN_DIMENSION_TO_RECUR as real
      then Some(SubSearch(0, 0, width, b.minY.Floor, xOffset, yOffset)) else None
    case Right =>
      if b.maxX < (width - MIN_DIMENSION_TO_RECUR) as real
      then Some(SubSearch(b.maxX.Floor, 0, width - b.maxX.Floor, height, xOffset + b.maxX.Floor, yOffset)) else None
    case Below =>
      if b.maxY < (height - MIN_DIMENSION_TO_RECUR) as real
      then Some(SubSearch(0, b.maxY.Floor, width, height - b.maxY.Floor, xOffset, yOffset + b.maxY.Floor)) else None
  }

  /**
   * For a box as `BoundingBox` makes it: each side is searched exactly when
   * its margin exceeds `MIN_DIMENSION_TO_RECUR`; the part searched lies
   * inside the image, on its side of the box, at least that many pixels
   * across; and its offsets are those of the image plus its origin, so that
   * points found in it translate back to the image.
   */
  lemma SubSearchRules(side: Side, b: Box, width: int, height: int, xOffset: int, yOffset: int)
    requires 0 <= width && 0 <= height
    requires b.minX <= width as real && b.minY <= height as real && 0.0 <= b.maxX && 0.0 <= b.maxY
    ensures var s := SubSearchOn(side, b, width, height, xOffset, yOffset);
      && (side == Left ==> (s.Some? <==> b.minX > MIN_DIMENSION_TO_RECUR as real))
      && (side == Above ==> (s.Some? <==> b.minY > MIN_DIMENSION_TO_RECUR as real))
      && (side == Right ==> (s.Some? <==> b.maxX < (width - MIN_DIMENSION_TO_RECUR) as real))
      && (side == Below ==> (s.Some? <==> b.maxY < (height - MIN_DIMENSION_TO_RECUR) as real))
      && (s.Some? ==>
            && 0 <= s.value.left && s.value.left + s.value.width <= width
            && 0 <= s.value.top && s.value.top + s.value.height <= height
            && s.value.xOffset == xOffset + s.value.left && s.value.yOffset == yOffset + s.value.top)
      && (s.Some? && side == Left ==> MIN_DIMENSION_TO_RECUR <= s.value.width && s.value.width as real <= b.minX)
      && (s.Some? && side == Above ==> MIN_DIMENSION_TO_RECUR <= s.value.height && s.value.height as real <= b.minY)
      && (s.Some? && side == Right ==> MIN_DIMENSION_TO_RECUR < s.value.width && s.value.left as real <= b.maxX)
      && (s.Some? && side == Below ==> MIN_DIMENSION_TO_RECUR < s.value.height && s.value.top as real <= b.maxY)
  {
  }

  /** The number of sides of the box whose margin leaves room for a search. */
  function SidesSearched(b: Box, width: int, height: int, xOffset: int, yOffset: int): nat {
    (if SubSearchOn(Left, b, width, height, xOffset, yOffset).Some? then 1 else 0)
    + (if SubSearchOn(Above, b, width, height, xOffset, yOffset).Some? then 1 else 0)
    + (if SubSearchOn(Right, b, width, height, xOffset, yOffset).Some? then 1 else 0)
    + (if SubSearchOn(Below, b, width, height, xOffset, yOffset).Some? then 1 else 0)
  }

  /** The part of a log after its first `n` entries, split where a longer prefix ends. */
  lemma LogSplit(a: seq<int>, b: seq<int>, c: seq<int>)
    requires a <= b <= c
    ensures c[|a|..] == b[|a|..] + c[|b|..]
  {
    assert b == c[..|b|];
  }

  /** How many entries of `log` equal `v`. */
  function Count(log: seq<int>, v: int): nat {
    if |log| == 0 then 0 else (if log[0] == v then 1 else 0) + Count(log[1..], v)
  }

  /** Counting is additive over concatenation. */
  lemma {:induction false} CountAppend(a: seq<int>, b: seq<int>, v: int)
    ensures Count(a + b, v) == Count(a, v) + Count(b, v)
  {
    if |a| > 0 {
      assert (a + b)[1..] == a[1..] + b;
      CountAppend(a[1..], b, v);
    } else {
      assert a + b == b;
    }
  }

  /** A log whose entries all exceed `v` counts no `v`. */
  lemma {:induction false} CountAbove(log: seq<int>, v: int)
    requires forall k :: 0 <= k < |log| ==> v < log[k]
    ensures Count(log, v) == 0
  {
    if |log| > 0 {
      CountAbove(log[1..], v);
    }
  }

  /** The entries a log gained, counted per value, add up over four stretches of growth. */
  lemma LogCounts(d0: seq<int>, d1: seq<int>, d2: seq<int>, d3: seq<int>, d4: seq<int>, v: int)
    requires d0 <= d1 <= d2 <= d3 <= d4
    ensures Count(d4[|d0|..], v)
            == Count(d1[|d0|..], v) + Count(d2[|d1|..], v) + Count(d3[|d2|..], v) + Count(d4[|d3|..], v)
  {
    LogSplit(d0, d1, d4);
    LogSplit(d1, d2, d4);
    LogSplit(d2, d3, d4);
    CountAppend(d1[|d0|..], d4[|d1|..], v);
    CountAppend(d2[|d1|..], d4[|d2|..], v);
    CountAppend(d3[|d2|..], d4[|d3|..], v);
  }

  /** The list that collects the results across the recursive searches. */
  class ResultList {
    var results: seq<RXingResult>

    constructor()
      ensures results == []
    {
      results := [];
    }
  }

  class GenericMultipleBarcodeReader {
    const delegate: Delegate
    const crop: Cropper
    /** The depth of every call to the delegate so far. */
    ghost var depths: seq<int>

    constructor(delegate: Delegate, crop: Cropper)
      ensures this.delegate == delegate && this.crop == crop && depths == []
    {
      this.delegate := delegate;
      this.crop := crop;
      depths := [];
    }

    /**
     * When side `side` of the box is searched one level below
     * `currentDepth` and its crop decodes, that text is in `found`.
     */
    ghost predicate SideKept(side: Side, image: BinaryBitmap, hints: DecodingHints, box: Box,
                             xOffset: int, yOffset: int, currentDepth: int, found: seq<RXingResult>)
    {
      var s := SubSearchOn(side, box, image.width, image.height, xOffset, yOffset);
      s.Some? && currentDepth < MAX_DEPTH && delegate(crop(image, s.value.left, s.value.top, s.value.width, s.value.height), hints).Ok?
      ==> HasText(found, delegate(crop(image, s.value.left, s.value.top, s.value.width, s.value.height), hints).value.text)
    }

    /** `SideKept` survives the list growing. */
    lemma SideKeptGrows(side: Side, image: BinaryBitmap, hints: DecodingHints, box: Box,
                        xOffset: int, yOffset: int, currentDepth: int, found: seq<RXingResult>, found': seq<RXingResult>)
      requires found <= found' && SideKept(side, image, hints, box, xOffset, yOffset, currentDepth, found)
      ensures SideKept(side, image, hints, box, xOffset, yOffset, currentDepth, found')
    {
      var s := SubSearchOn(side, box, image.width, image.height, xOffset, yOffset);
      if s.Some? && currentDepth < MAX_DEPTH && delegate(crop(image, s.value.left, s.value.top, s.value.width, s.value.height), hints).Ok? {
        HasTextGrows(found, found', delegate(crop(image, s.value.left, s.value.top, s.value.width, s.value.height), hints).value.text);
      }
    }

    /** The four side searches, each kept by the list as it stood after it, are all kept by the final list. */
    lemma AllSidesKept(image: BinaryBitmap, hints: DecodingHints, box: Box, xOffset: int, yOffset: int, currentDepth: int,
                       r1: seq<RXingResult>, r2: seq<RXingResult>, r3: seq<RXingResult>, r4: seq<RXingResult>)
      requires r1 <= r2 <= r3 <= r4
      requires SideKept(Left, image, hints, box, xOffset, yOffset, currentDepth, r1)
      requires SideKept(Above, image, hints, box, xOffset, yOffset, currentDepth, r2)
      requires SideKept(Right, image, hints, box, xOffset, yOffset, currentDepth, r3)
      requires SideKept(Below, image, hints, box, xOffset, yOffset, currentDepth, r4)
      ensures forall side :: SideKept(side, image, hints, box, xOffset, yOffset, currentDepth, r4)
    {
      SideKeptGrows(Left, image, hints, box, xOffset, yOffset, currentDepth, r1, r4);
      SideKeptGrows(Above, image, hints, box, xOffset, yOffset, currentDepth, r2, r4);
      SideKeptGrows(Right, image, hints, box, xOffset, yOffset, currentDepth, r3, r4);
      forall side | true
        ensures SideKept(side, image, hints, box, xOffset, yOffset, currentDepth, r4)
      {
      }
    }

    /**
     * The list `doDecodeMultiple` leaves behind, starting from `found`:
     * nothing past `MAX_DEPTH` or when the delegate fails; otherwise the
     * result translated to the original image unless its text is already
     * there, followed by the searches around its points.
     */
    ghost function Collect(found: seq<RXingResult>, image: BinaryBitmap, hints: DecodingHints,
                           xOffset: int, yOffset: int, currentDepth: int): seq<RXingResult>
      decreases MAX_DEPTH + 1 - currentDepth, 2
    {
      if currentDepth > MAX_DEPTH then found
      else match delegate(image, hints)
        case Err(_) => found
        case Ok(result) =>
          var kept := if HasText(found, result.text) then found else found + [Translated(result, xOffset, yOffset)];
          if |result.points| == 0 then kept
          else CollectAround(kept, image, hints, BoxOf(result.points, image.width, image.height), xOffset, yOffset, currentDepth)
    }

    /** The four side searches around `box`, in the order left, above, right, below. */
    ghost function CollectAround(found: seq<RXingResult>, image: BinaryBitmap, hints: DecodingHints, box: Box,
                                 xOffset: int, yOffset: int, currentDepth: int): seq<RXingResult>
      requires currentDepth <= MAX_DEPTH
      decreases MAX_DEPTH + 1 - currentDepth, 1
    {
      var afterLeft := CollectSide(Left, found, image, hints, box, xOffset, yOffset, currentDepth);
      var afterAbove := CollectSide(Above, afterLeft, image, hints, box, xOffset, yOffset, currentDepth);
      var afterRight := CollectSide(Right, afterAbove, image, hints, box, xOffset, yOffset, currentDepth);
      CollectSide(Below, afterRight, image, hints, box, xOffset, yOffset, currentDepth)
    }

    /** One side search: the crop of that side, one level deeper, at that side's offsets. */
    ghost function CollectSide(side: Side, found: seq<RXingResult>, image: BinaryBitmap, hints: DecodingHints, box: Box,
                               xOffset: int, yOffset: int, currentDepth: int): seq<RXingResult>
      requires currentDepth <= MAX_DEPTH
      decreases MAX_DEPTH + 1 - currentDepth, 0
    {
      match SubSearchOn(side, box, image.width, image.height, xOffset, yOffset)
      case None => found
      case Some(s) => Collect(found, crop(image, s.left, s.top, s.width, s.height), hints, s.xOffset, s.yOffset, currentDepth + 1)
    }

    /** The search only ever appends to the list, and keeps its texts distinct. */
    lemma {:induction false} CollectGrows(found: seq<RXingResult>, image: BinaryBitmap, hints: DecodingHints,
                                          xOffset: int, yOffset: int, currentDepth: int)
      decreases MAX_DEPTH + 1 - currentDepth, 2
      ensures found <= Collect(found, image, hints, xOffset, yOffset, currentDepth)
      ensures DistinctTexts(found) ==> DistinctTexts(Collect(found, image, hints, xOffset, yOffset, currentDepth))
    {
      if currentDepth <= MAX_DEPTH && delegate(image, hints).Ok? {
        var result := delegate(image, hints).value;
        var kept := if HasText(found, result.text) then found else found + [Translated(result, xOffset, yOffset)];
        if |result.points| > 0 {
          CollectAroundGrows(kept, image, hints, BoxOf(result.points, image.width, image.height), xOffset, yOffset, currentDepth);
        }
      }
    }

    /** The same for the four side searches. */
    lemma {:induction false} CollectAroundGrows(found: seq<RXingResult>, image: BinaryBitmap, hints: DecodingHints, box: Box,
                                                xOffset: int, yOffset: int, currentDepth: int)
      requires currentDepth <= MAX_DEPTH
      decreases MAX_DEPTH + 1 - currentDepth, 1
      ensures found <= CollectAround(found, image, hints, box, xOffset, yOffset, currentDepth)
      ensures DistinctTexts(found) ==> DistinctTexts(CollectAround(found, image, hints, box, xOffset, yOffset, currentDepth))
    {
      var r1 := CollectSide(Left, found, image, hints, box, xOffset, yOffset, currentDepth);
      var r2 := CollectSide(Above, r1, image, hints, box, xOffset, yOffset, currentDepth);
      var r3 := CollectSide(Right, r2, image, hints, box, xOffset, yOffset, currentDepth);
      CollectSideGrows(Left, found, image, hints, box, xOffset, yOffset, currentDepth);
      CollectSideGrows(Above, r1, image, hints, box, xOffset, yOffset, currentDepth);
      CollectSideGrows(Right, r2, image, hints, box, xOffset, yOffset, currentDepth);
      CollectSideGrows(Below, r3, image, hints, box, xOffset, yOffset, currentDepth);
    }

    /** The same for one side search. */
    lemma {:induction false} CollectSideGrows(side: Side, found: seq<RXingResult>, image: BinaryBitmap, hints: DecodingHints,
                                              box: Box, xOffset: int, yOffset: int, currentDepth: int)
      requires currentDepth <= MAX_DEPTH
      decreases MAX_DEPTH + 1 - currentDepth, 0
      ensures found <= CollectSide(side, found, image, hints, box, xOffset, yOffset, currentDepth)
      ensures DistinctTexts(found) ==> DistinctTexts(CollectSide(side, found, image, hints, box, xOffset, yOffset, currentDepth))
    {
      var s := SubSearchOn(side, box, image.width, image.height, xOffset, yOffset);
      if s.Some? {
        CollectGrows(found, crop(image, s.value.left, s.value.top, s.value.width, s.value.height), hints,
                     s.value.xOffset, s.value.yOffset, currentDepth + 1);
      }
    }

    /** Whatever a side search decodes is in the list it leaves. */
    lemma CollectSideKept(side: Side, found: seq<RXingResult>, image: BinaryBitmap, hints: DecodingHints, box: Box,
                          xOffset: int, yOffset: int, currentDepth: int)
      requires currentDepth <= MAX_DEPTH
      ensures SideKept(side, image, hints, box, xOffset, yOffset, currentDepth,
                       CollectSide(side, found, image, hints, box, xOffset, yOffset, currentDepth))
    {
      var s := SubSearchOn(side, box, image.width, image.height, xOffset, yOffset);
      if s.Some? && currentDepth < MAX_DEPTH {
        var sub := crop(image, s.value.left, s.value.top, s.value.width, s.value.height);
        if delegate(sub, hints).Ok? {
          var result := delegate(sub, hints).value;
          var kept := if HasText(found, result.text) then found else found + [Translated(result, s.value.xOffset, s.value.yOffset)];
          assert HasText(kept, result.text) by {
            if !HasText(found, result.text) {
              assert kept[|found|].text == result.text;
            }
          }
          if |result.points| > 0 {
            CollectAroundGrows(kept, sub, hints, BoxOf(result.points, sub.width, sub.height),
                               s.value.xOffset, s.value.yOffset, currentDepth + 1);
          }
          HasTextGrows(kept, Collect(found, sub, hints, s.value.xOffset, s.value.yOffset, currentDepth + 1), result.text);
        }
      }
    }

    /** Whatever each of the four side searches decodes is in the list they leave. */
    lemma CollectAroundKept(found: seq<RXingResult>, image: BinaryBitmap, hints: DecodingHints, box: Box,
                            xOffset: int, yOffset: int, currentDepth: int)
      requires currentDepth <= MAX_DEPTH
      ensures forall side :: SideKept(side, image, hints, box, xOffset, yOffset, currentDepth,
                                      CollectAround(found, image, hints, box, xOffset, yOffset, currentDepth))
    {
      var r1 := CollectSide(Left, found, image, hints, box, xOffset, yOffset, currentDepth);
      var r2 := CollectSide(Above, r1, image, hints, box, xOffset, yOffset, currentDepth);
      var r3 := CollectSide(Right, r2, image, hints, box, xOffset, yOffset, currentDepth);
      var r4 := CollectSide(Below, r3, image, hints, box, xOffset, yOffset, currentDepth);
      CollectSideKept(Left, found, image, hints, box, xOffset, yOffset, currentDepth);
      CollectSideKept(Above, r1, image, hints, box, xOffset, yOffset, currentDepth);
      CollectSideKept(Right, r2, image, hints, box, xOffset, yOffset, currentDepth);
      CollectSideKept(Below, r3, image, hints, box, xOffset, yOffset, currentDepth);
      CollectSideGrows(Above, r1, image, hints, box, xOffset, yOffset, currentDepth);
      CollectSideGrows(Right, r2, image, hints, box, xOffset, yOffset, currentDepth);
      CollectSideGrows(Below, r3, image, hints, box, xOffset, yOffset, currentDepth);
      AllSidesKept(image, hints, box, xOffset, yOffset, currentDepth, r1, r2, r3, r4);
    }

    /**
     * What `Collect` does with the image's own decode: nothing past
     * `MAX_DEPTH` or on a failed decode; otherwise the text is recorded,
     * a new text as the next result translated by the offsets, and after
     * a success with points whatever each side search decodes is recorded.
     */
    lemma CollectRecords(found: seq<RXingResult>, image: BinaryBitmap, hints: DecodingHints,
                         xOffset: int, yOffset: int, currentDepth: int)
      ensures var r := Collect(found, image, hints, xOffset, yOffset, currentDepth);
        && (currentDepth > MAX_DEPTH ==> r == found)
        && (currentDepth <= MAX_DEPTH && delegate(image, hints).Err? ==> r == found)
        && (currentDepth <= MAX_DEPTH && delegate(image, hints).Ok? ==> HasText(r, delegate(image, hints).value.text))
        && (currentDepth <= MAX_DEPTH && delegate(image, hints).Ok? && !HasText(found, delegate(image, hints).value.text) ==>
              |found| < |r| && r[|found|] == Translated(delegate(image, hints).value, xOffset, yOffset))
        && (currentDepth <= MAX_DEPTH && delegate(image, hints).Ok? && |delegate(image, hints).value.points| > 0 ==>
              forall side :: SideKept(side, image, hints, BoxOf(delegate(image, hints).value.points, image.width, image.height),
                                      xOffset, yOffset, currentDepth, r))
    {
      if currentDepth <= MAX_DEPTH && delegate(image, hints).Ok? {
        var result := delegate(image, hints).value;
        var kept := if HasText(found, result.text) then found else found + [Translated(result, xOffset, yOffset)];
        assert HasText(kept, result.text) by {
          if !HasText(found, result.text) {
            assert kept[|found|].text == result.text;
          }
        }
        var r := Collect(found, image, hints, xOffset, yOffset, currentDepth);
        if |result.points| > 0 {
          CollectAroundGrows(kept, image, hints, BoxOf(result.points, image.width, image.height), xOffset, yOffset, currentDepth);
        }
        HasTextGrows(kept, r, result.text);
        if |result.points| > 0 {
          CollectAroundKept(kept, image, hints, BoxOf(result.points, image.width, image.height), xOffset, yOffset, currentDepth);
        }
      }
    }

    /** `CollectAround` is the four side searches taken one after another. */
    lemma CollectAroundSteps(r0: seq<RXingResult>, r1: seq<RXingResult>, r2: seq<RXingResult>, r3: seq<RXingResult>,
                             r4: seq<RXingResult>, image: BinaryBitmap, hints: DecodingHints, box: Box,
                             xOffset: int, yOffset: int, currentDepth: int)
      requires currentDepth <= MAX_DEPTH
      requires r1 == CollectSide(Left, r0, image, hints, box, xOffset, yOffset, currentDepth)
      requires r2 == CollectSide(Above, r1, image, hints, box, xOffset, yOffset, currentDepth)
      requires r3 == CollectSide(Right, r2, image, hints, box, xOffset, yOffset, currentDepth)
      requires r4 == CollectSide(Below, r3, image, hints, box, xOffset, yOffset, currentDepth)
      ensures r4 == CollectAround(r0, image, hints, box, xOffset, yOffset, currentDepth)
    {
    }

    /**
     * `doDecodeMultiple`: decodes `image`, adds the result (translated to
     * the original image) unless its text was found before, then searches
     * the four sides of its points one level deeper.
     */
    method DoDecodeMultiple(image: BinaryBitmap, hints: DecodingHints, results: ResultList,
                            xOffset: int, yOffset: int, currentDepth: int)
      modifies this, results
      decreases MAX_DEPTH + 1 - currentDepth, 2
      ensures results.results == Collect(old(results.results), image, hints, xOffset, yOffset, currentDepth)
      ensures old(results.results) <= results.results
      ensures DistinctTexts(old(results.results)) ==> DistinctTexts(results.results)
      ensures old(depths) <= depths
      ensures forall k :: |old(depths)| <= k < |depths| ==> currentDepth <= depths[k] <= MAX_DEPTH
      ensures forall k :: |old(depths)| < k < |depths| ==> currentDepth < depths[k]
      ensures currentDepth > MAX_DEPTH ==> results.results == old(results.results) && depths == old(depths)
      ensures currentDepth <= MAX_DEPTH ==> |old(depths)| < |depths| && depths[|old(depths)|] == currentDepth
      ensures currentDepth <= MAX_DEPTH && delegate(image, hints).Err? ==>
        results.results == old(results.results) && depths == old(depths) + [currentDepth]
      ensures currentDepth <= MAX_DEPTH && delegate(image, hints).Ok? && |delegate(image, hints).value.points| == 0 ==>
        depths == old(depths) + [currentDepth]
      ensures currentDepth <= MAX_DEPTH && delegate(image, hints).Ok? ==>
        HasText(results.results, delegate(image, hints).value.text)
      ensures currentDepth <= MAX_DEPTH && delegate(image, hints).Ok? &&
              !HasText(old(results.results), delegate(image, hints).value.text) ==>
        |old(results.results)| < |results.results| &&
        results.results[|old(results.results)|] == Translated(delegate(image, hints).value, xOffset, yOffset)
      // after a success with points, each side is searched exactly when it has room, and what it decodes is kept
      ensures currentDepth <= MAX_DEPTH && delegate(image, hints).Ok? && |delegate(image, hints).value.points| > 0 ==>
        && (forall side :: SideKept(side, image, hints, BoxOf(delegate(image, hints).value.points, image.width, image.height),
                                    xOffset, yOffset, currentDepth, results.results))
        && Count(depths[|old(depths)|..], currentDepth + 1)
           == if currentDepth < MAX_DEPTH
              then SidesSearched(BoxOf(delegate(image, hints).value.points, image.width, image.height),
                                 image.width, image.height, xOffset, yOffset)
              else 0
    {
      CollectRecords(results.results, image, hints, xOffset, yOffset, currentDepth);
      CollectGrows(results.results, image, hints, xOffset, yOffset, currentDepth);
      if currentDepth > MAX_DEPTH {
        return;
      }
      depths := depths + [currentDepth];
      ghost var logged := depths;
      var decoded := delegate(image, hints);
      if decoded.Err? {
        return;
      }
      var result := decoded.value;
      var alreadyFound := AlreadyFound(results.results, result.text);
      if !alreadyFound {
        var translated := TranslateRXingResultPoints(result, xOffset, yOffset);
        results.results := results.results + [translated];
      }
      if |result.points| == 0 {
        return;
      }
      SearchAround(image, hints, results, result.points, xOffset, yOffset, currentDepth);
      LogSplit(old(depths), logged, depths);
      assert logged[|old(depths)|..] == [currentDepth];
      CountAppend([currentDepth], depths[|logged|..], currentDepth + 1);
    }

    /**
     * The second half of `doDecodeMultiple`: the bounding box of the points
     * found, then the searches left of, above, right of and below it.
     */
    method SearchAround(image: BinaryBitmap, hints: DecodingHints, results: ResultList,
                        points: seq<Option<ResultPoint>>, xOffset: int, yOffset: int, currentDepth: int)
      requires currentDepth <= MAX_DEPTH
      modifies this, results
      decreases MAX_DEPTH + 1 - currentDepth, 1
      ensures results.results == CollectAround(old(results.results), image, hints, BoxOf(points, image.width, image.height),
                                               xOffset, yOffset, currentDepth)
      ensures old(results.results) <= results.results
      ensures DistinctTexts(old(results.results)) ==> DistinctTexts(results.results)
      ensures old(depths) <= depths
      ensures forall k :: |old(depths)| <= k < |depths| ==> currentDepth < depths[k] <= MAX_DEPTH
      ensures forall side :: SideKept(side, image, hints, BoxOf(points, image.width, image.height),
                                      xOffset, yOffset, currentDepth, results.results)
      ensures Count(depths[|old(depths)|..], currentDepth + 1)
              == if currentDepth < MAX_DEPTH
                 then SidesSearched(BoxOf(points, image.width, image.height), image.width, image.height, xOffset, yOffset)
                 else 0
    {
      var width := image.width;
      var height := image.height;
      var box := BoundingBox(points, width, height);
      ghost var d0, r0 := depths, results.results;
      SearchSide(Left, image, hints, results, box, xOffset, yOffset, currentDepth);
      ghost var d1, r1 := depths, results.results;
      SearchSide(Above, image, hints, results, box, xOffset, yOffset, currentDepth);
      ghost var d2, r2 := depths, results.results;
      SearchSide(Right, image, hints, results, box, xOffset, yOffset, currentDepth);
      ghost var d3, r3 := depths, results.results;
      SearchSide(Below, image, hints, results, box, xOffset, yOffset, currentDepth);
      CollectAroundKept(r0, image, hints, box, xOffset, yOffset, currentDepth);
      CollectAroundGrows(r0, image, hints, box, xOffset, yOffset, currentDepth);
      LogCounts(d0, d1, d2, d3, depths, currentDepth + 1);
      CollectAroundSteps(r0, r1, r2, r3, results.results, image, hints, box, xOffset, yOffset, currentDepth);
    }

    /** One of the four recursive searches of `doDecodeMultiple`, one level deeper. */
    method SearchSide(side: Side, image: BinaryBitmap, hints: DecodingHints, results: ResultList,
                      box: Box, xOffset: int, yOffset: int, currentDepth: int)
      requires currentDepth <= MAX_DEPTH
      modifies this, results
      decreases MAX_DEPTH + 1 - currentDepth, 0
      ensures results.results == CollectSide(side, old(results.results), image, hints, box, xOffset, yOffset, currentDepth)
      ensures old(depths) <= depths
      ensures forall k :: |old(depths)| <= k < |depths| ==> currentDepth < depths[k] <= MAX_DEPTH
      ensures SubSearchOn(side, box, image.width, image.height, xOffset, yOffset).None? ==>
        results.results == old(results.results) && depths == old(depths)
      // a side with room is searched once, one level deeper
      ensures Count(depths[|old(depths)|..], currentDepth + 1)
              == if SubSearchOn(side, box, image.width, image.height, xOffset, yOffset).Some? && currentDepth < MAX_DEPTH
                 then 1 else 0
    {
      var search := SubSearchOn(side, box, image.width, image.height, xOffset, yOffset);
      if search.Some? {
        var s := search.value;
        DoDecodeMultiple(crop(image, s.left, s.top, s.width, s.height), hints, results, s.xOffset, s.yOffset, currentDepth + 1);
        ghost var added := depths[|old(depths)|..];
        if currentDepth < MAX_DEPTH {
          CountAbove(added[1..], currentDepth + 1);
        } else {
          assert added == [];
        }
      }
    }

    /**
     * `decodeMultiple(image, hints)`: `NotFound` exactly when the whole
     * image does not decode; otherwise the distinct results found, the
     * first being the whole image's, and among them what each searched
     * side decodes.
     */
    method DecodeMultipleWithHints(image: BinaryBitmap, hints: DecodingHints) returns (r: Result<seq<RXingResult>>)
      modifies this
      ensures r == if Collect([], image, hints, 0, 0, 0) == [] then Err(NotFound) else Ok(Collect([], image, hints, 0, 0, 0))
      ensures r.Err? <==> delegate(image, hints).Err?
      ensures r.Err? ==> r == Err(NotFound)
      ensures r.Ok? ==> DistinctTexts(r.value) && |r.value| > 0 && r.value[0] == Translated(delegate(image, hints).value, 0, 0)
      ensures r.Ok? && |delegate(image, hints).value.points| > 0 ==>
        forall side :: SideKept(side, image, hints, BoxOf(delegate(image, hints).value.points, image.width, image.height),
                                0, 0, 0, r.value)
      ensures forall k :: |old(depths)| <= k < |depths| ==> 0 <= depths[k] <= MAX_DEPTH
    {
      var results := new ResultList();
      DoDecodeMultiple(image, hints, results, 0, 0, 0);
      if |results.results| == 0 {
        return Err(NotFound);
      }
      return Ok(results.results);
    }

    /** `decodeMultiple(image)`: the same with no hints, a `null` hint map being empty. */
    method DecodeMultiple(image: BinaryBitmap) returns (r: Result<seq<RXingResult>>)
      modifies this
      ensures r == if Collect([], image, map[], 0, 0, 0) == [] then Err(NotFound) else Ok(Collect([], image, map[], 0, 0, 0))
      ensures r.Err? <==> delegate(image, map[]).Err?
      ensures r.Err? ==> r == Err(NotFound)
      ensures r.Ok? ==> DistinctTexts(r.value) && |r.value| > 0 && r.value[0] == Translated(delegate(image, map[]).value, 0, 0)
      ensures r.Ok? && |delegate(image, map[]).value.points| > 0 ==>
        forall side :: SideKept(side, image, map[], BoxOf(delegate(image, map[]).value.points, image.width, image.height),
                                0, 0, 0, r.value)
    {
      r := DecodeMultipleWithHints(image, map[]);
    }
  }
}
