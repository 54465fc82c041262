/**
 * `MultiFormatOneDReader`: a one-dimensional reader that tries a list of
 * symbology readers (Code 39, Code 93, Code 128, ITF, Codabar) in turn,
 * chosen from the decoding hints, and that retries on the image rotated
 * a quarter turn counter-clockwise when asked to try harder.
 *
 * The symbology readers themselves, the row-by-row `doDecode` driver and
 * the image rotation are not part of this model: they are function
 * parameters.  What a symbology reader keeps between calls is an opaque
 * `ReaderState`.
 */
module MultiFormatOneD {
  import opened Wrappers
  import opened RustInt
  import opened ScanResult

  /** The symbology readers this reader can hold. */
  datatype OneDReaderKind =
    | Code39Reader(usingCheckDigit: bool)
    | Code93Reader
    | Code128Reader
    | ITFReader
    | CodaBarReader

  /** What a symbology reader carries from one call to the next. */
  datatype ReaderState = ReaderState(scratch: seq<int>)

  /** The state of a reader that was just made or just reset. */
  const INITIAL := ReaderState([])

  /** One row handed to `decodeRow`. */
  datatype RowScan = RowScan(rowNumber: int, row: seq<bool>, hints: DecodingHints)

  /** A symbology reader's `decodeRow`: its outcome and its next state. */
  type RowDecoder = (OneDReaderKind, ReaderState, RowScan) -> (Result<RXingResult>, ReaderState)

  /** A whole-image decode driven by the given readers. */
  type ImageDecoder = (seq<OneDReaderKind>, BinaryBitmap, DecodingHints) -> Result<RXingResult>

  /** `rotateCounterClockwise`. */
  type Rotation = BinaryBitmap -> BinaryBitmap

  /** The number of formats with a reader here. */
  const FORMAT_COUNT: nat := 5

  /** The readers used when the hints select none. */
  const DEFAULT_READERS: seq<OneDReaderKind> :=
    [Code39Reader(false), CodaBarReader, Code93Reader, Code128Reader, ITFReader]

  function FormatOf(k: OneDReaderKind): BarcodeFormat {
    match k
    case Code39Reader(_) => CODE_39
    case Code93Reader => CODE_93
    case Code128Reader => CODE_128
    case ITFReader => ITF
    case CodaBarReader => CODABAR
  }

  /**
   * The order in which formats named by `POSSIBLE_FORMATS` get their
   * readers: Code 39, Code 93, Code 128, ITF, Codabar.
   */
  function FormatAt(n: nat): BarcodeFormat
    requires n < FORMAT_COUNT
  {
    if n == 0 then CODE_39
    else if n == 1 then CODE_93
    else if n == 2 then CODE_128
    else if n == 3 then ITF
    else CODABAR
  }

  /** The position of a reader's format in that order. */
  function Position(k: OneDReaderKind): (n: nat)
    ensures n < FORMAT_COUNT && FormatAt(n) == FormatOf(k)
  {
    match k
    case Code39Reader(_) => 0
    case Code93Reader => 1
    case Code128Reader => 2
    case ITFReader => 3
    case CodaBarReader => 4
  }

  /** The reader made for the format at position `n`. */
  function ReaderAt(n: nat, useCheckDigit: bool): (k: OneDReaderKind)
    requires n < FORMAT_COUNT
    ensures Position(k) == n
    ensures k.Code39Reader? ==> k.usingCheckDigit == useCheckDigit
  {
    if n == 0 then Code39Reader(useCheckDigit)
    else if n == 1 then Code93Reader
    else if n == 2 then Code128Reader
    else if n == 3 then ITFReader
    else CodaBarReader
  }

  /** The readers for the formats of `formats` among the first `n` of that order. */
  function SelectedUpTo(n: nat, formats: set<BarcodeFormat>, useCheckDigit: bool): seq<OneDReaderKind>
    requires n <= FORMAT_COUNT
  {
    if n == 0 then []
    else SelectedUpTo(n - 1, formats, useCheckDigit)
         + (if FormatAt(n - 1) in formats then [ReaderAt(n - 1, useCheckDigit)] else [])
  }

  /** The format set of a `POSSIBLE_FORMATS` hint, if there is one. */
  function PossibleFormatsHint(hints: DecodingHints): Option<set<BarcodeFormat>> {
    if POSSIBLE_FORMATS in hints && hints[POSSIBLE_FORMATS].PossibleFormats?
    then Some(hints[POSSIBLE_FORMATS].formats)
    else None
  }

  /** The reader list `new` builds from the hints. */
  function ReadersFor(hints: DecodingHints): seq<OneDReaderKind> {
    var chosen := match PossibleFormatsHint(hints)
                  case None => []
                  case Some(formats) => SelectedUpTo(FORMAT_COUNT, formats, ASSUME_CODE_39_CHECK_DIGIT in hints);
    if chosen == [] then DEFAULT_READERS else chosen
  }

  /**
   * `rs` holds readers of listed formats among the first `n`, in strictly
   * increasing position, with Code 39 checking its digit as asked.
   */
  ghost predicate SoundSelection(rs: seq<OneDReaderKind>, formats: set<BarcodeFormat>, n: nat, useCheckDigit: bool) {
    (forall i :: 0 <= i < |rs| ==> FormatOf(rs[i]) in formats && Position(rs[i]) < n)
    && (forall i :: 0 <= i < |rs| && rs[i].Code39Reader? ==> rs[i].usingCheckDigit == useCheckDigit)
    && (forall i, j :: 0 <= i < j < |rs| ==> Position(rs[i]) < Position(rs[j]))
  }

  /** Appending the reader of the next listed position keeps a selection sound. */
  lemma SoundSelectionAppend(rs: seq<OneDReaderKind>, k: OneDReaderKind, formats: set<BarcodeFormat>,
                             n: nat, useCheckDigit: bool)
    requires SoundSelection(rs, formats, n, useCheckDigit)
    requires FormatOf(k) in formats && Position(k) == n && (k.Code39Reader? ==> k.usingCheckDigit == useCheckDigit)
    ensures SoundSelection(rs + [k], formats, n + 1, useCheckDigit)
  {
    var r := rs + [k];
    assert forall i :: 0 <= i < |rs| ==> r[i] == rs[i];
    assert r[|rs|] == k;
  }

  /**
   * The readers chosen among the first `n` formats are readers of listed
   * formats there, in strictly increasing position, and Code 39 checks its
   * digit as asked.
   */
  lemma {:induction false} SelectedUpToSound(n: nat, formats: set<BarcodeFormat>, useCheckDigit: bool)
    requires n <= FORMAT_COUNT
    ensures SoundSelection(SelectedUpTo(n, formats, useCheckDigit), formats, n, useCheckDigit)
  {
    if n > 0 {
      SelectedUpToSound(n - 1, formats, useCheckDigit);
      var prefix := SelectedUpTo(n - 1, formats, useCheckDigit);
      if FormatAt(n - 1) in formats {
        SoundSelectionAppend(prefix, ReaderAt(n - 1, useCheckDigit), formats, n - 1, useCheckDigit);
      }
    }
  }

  /** Every listed format among the first `n` gets its reader. */
  lemma {:induction false} SelectedUpToComplete(n: nat, formats: set<BarcodeFormat>, useCheckDigit: bool, m: nat)
    requires m < n <= FORMAT_COUNT && FormatAt(m) in formats
    ensures exists i :: 0 <= i < |SelectedUpTo(n, formats, useCheckDigit)| && Position(SelectedUpTo(n, formats, useCheckDigit)[i]) == m
  {
    var prefix := SelectedUpTo(n - 1, formats, useCheckDigit);
    if m == n - 1 {
      var r := prefix + [ReaderAt(n - 1, useCheckDigit)];
      assert SelectedUpTo(n, formats, useCheckDigit) == r;
      assert Position(r[|prefix|]) == m;
    } else {
      SelectedUpToComplete(n - 1, formats, useCheckDigit, m);
      var i :| 0 <= i < |prefix| && Position(prefix[i]) == m;
      if FormatAt(n - 1) in formats {
        var r := prefix + [ReaderAt(n - 1, useCheckDigit)];
        assert SelectedUpTo(n, formats, useCheckDigit) == r;
        assert r[i] == prefix[i];
      } else {
        assert SelectedUpTo(n, formats, useCheckDigit) == prefix;
      }
    }
  }

  /** A hint set that names none of the first `n` formats gives no reader. */
  lemma {:induction false} SelectedUpToNone(n: nat, formats: set<BarcodeFormat>, useCheckDigit: bool)
    requires n <= FORMAT_COUNT
    requires forall m :: 0 <= m < n ==> FormatAt(m) !in formats
    ensures SelectedUpTo(n, formats, useCheckDigit) == []
  {
    if n > 0 {
      SelectedUpToNone(n - 1, formats, useCheckDigit);
    }
  }

  /**
   * What `new` selects: with a `POSSIBLE_FORMATS` hint naming some of the
   * five formats, exactly the readers of the named formats, in the order
   * Code 39, Code 93, Code 128, ITF, Codabar, Code 39 checking its digit
   * exactly when `ASSUME_CODE_39_CHECK_DIGIT` is present; otherwise the
   * default list.  The list is never empty.
   */
  lemma ReadersForSelection(hints: DecodingHints)
    ensures |ReadersFor(hints)| > 0
    ensures PossibleFormatsHint(hints).None? ==> ReadersFor(hints) == DEFAULT_READERS
    ensures PossibleFormatsHint(hints).Some? && !SelectsSome(PossibleFormatsHint(hints).value) ==>
      ReadersFor(hints) == DEFAULT_READERS
    ensures PossibleFormatsHint(hints).Some? && SelectsSome(PossibleFormatsHint(hints).value) ==>
      var r := ReadersFor(hints);
      var formats := PossibleFormatsHint(hints).value;
      && (forall i :: 0 <= i < |r| ==> FormatOf(r[i]) in formats)
      && (forall i, j :: 0 <= i < j < |r| ==> Position(r[i]) < Position(r[j]))
      && (forall m :: 0 <= m < FORMAT_COUNT && FormatAt(m) in formats ==>
            exists i :: 0 <= i < |r| && Position(r[i]) == m)
      && (forall i :: 0 <= i < |r| && r[i].Code39Reader? ==>
            r[i].usingCheckDigit == (ASSUME_CODE_39_CHECK_DIGIT in hints))
  {
    match PossibleFormatsHint(hints)
    case None =>
    case Some(formats) =>
      var u := ASSUME_CODE_39_CHECK_DIGIT in hints;
      var r := SelectedUpTo(FORMAT_COUNT, formats, u);
      SelectedUpToSound(FORMAT_COUNT, formats, u);
      forall m | 0 <= m < FORMAT_COUNT && FormatAt(m) in formats
        ensures exists i :: 0 <= i < |r| && Position(r[i]) == m
      {
        SelectedUpToComplete(FORMAT_COUNT, formats, u, m);
      }
      if SelectsSome(formats) {
        var m :| 0 <= m < FORMAT_COUNT && FormatAt(m) in formats;
        var i :| 0 <= i < |r| && Position(r[i]) == m;
        assert r != [];
      } else {
        SelectedUpToNone(FORMAT_COUNT, formats, u);
      }
  }

  /** Whether a format set names one of the five formats with a reader here. */
  predicate SelectsSome(formats: set<BarcodeFormat>) {
    exists m :: 0 <= m < FORMAT_COUNT && FormatAt(m) in formats
  }

  /**
   * The result of trying the readers from position `i` on with their
   * states, and the states they leave: the first success, or `NotFound`
   * when every reader fails.
   */
  function FirstSuccess(readers: seq<OneDReaderKind>, states: seq<ReaderState>, i: nat,
                        scan: RowScan, decode: RowDecoder): (Result<RXingResult>, seq<ReaderState>)
    requires |states| == |readers| && i <= |readers|
    decreases |readers| - i
  {
    if i == |readers| then (Err(NotFound), states)
    else
      var (res, next) := decode(readers[i], states[i], scan);
      if res.Ok? then (res, states[i := next])
      else FirstSuccess(readers, states[i := next], i + 1, scan, decode)
  }

  /**
   * `decodeRow` answers with the first reader that succeeds, each reader
   * having been tried once on its own state, and fails exactly when all of
   * them fail; readers before `i` keep their state.
   */
  lemma {:induction false} FirstSuccessIsFirst(readers: seq<OneDReaderKind>, states: seq<ReaderState>, i: nat,
                                               scan: RowScan, decode: RowDecoder)
    requires |states| == |readers| && i <= |readers|
    ensures var (r, after) := FirstSuccess(readers, states, i, scan, decode);
      && |after| == |states|
      && (forall j :: 0 <= j < i ==> after[j] == states[j])
      && (r.Err? <==> forall j :: i <= j < |readers| ==> decode(readers[j], states[j], scan).0.Err?)
      && (r.Ok? ==> exists j :: i <= j < |readers| && decode(readers[j], states[j], scan).0 == r
                      && forall k :: i <= k < j ==> decode(readers[k], states[k], scan).0.Err?)
    decreases |readers| - i
  {
    if i < |readers| {
      var (res, next) := decode(readers[i], states[i], scan);
      if res.Err? {
        var states' := states[i := next];
        FirstSuccessIsFirst(readers, states', i + 1, scan, decode);
        assert forall j :: i < j < |readers| ==> states'[j] == states[j];
      }
    }
  }

  /** The orientation recorded after a rotated success. */
  function RotatedOrientation(metadata: map<MetadataType, MetadataValue>): (o: int)
    ensures ORIENTATION !in metadata ==> o == 270
    ensures -360 < o < 360
    ensures ORIENTATION in metadata && metadata[ORIENTATION].Orientation? && metadata[ORIENTATION].degrees >= 0 ==>
      0 <= o < 360 && (o - 270 - metadata[ORIENTATION].degrees) % 360 == 0
  {
    if ORIENTATION in metadata then
      var or := if metadata[ORIENTATION].Orientation? then metadata[ORIENTATION].degrees else 0;
      TruncRem(270 + or, 360)
    else 270
  }

  /** A point found in the rotated image, placed back in the image as given. */
  function UnrotatedPoint(p: Option<ResultPoint>, height: int): Option<ResultPoint> {
    match p
    case None => None
    case Some(q) => Some(ResultPoint(height as real - q.y - 1.0, q.x))
  }

  /** Where a quarter turn counter-clockwise moves a point of an image `width` wide. */
  function RotatedPoint(p: ResultPoint, width: int): ResultPoint {
    ResultPoint(p.y, width as real - 1.0 - p.x)
  }

  /** A result found in the rotated image, `height` high, as reported. */
  function Unrotated(result: RXingResult, height: int): RXingResult {
    result.(metadata := result.metadata[ORIENTATION := Orientation(RotatedOrientation(result.metadata))],
            points := seq(|result.points|, i requires 0 <= i < |result.points| => UnrotatedPoint(result.points[i], height)))
  }

  /**
   * Putting a rotated result back keeps its text, bytes, format, timestamp,
   * other metadata and point count, and undoes the rotation of every point:
   * the rotated image is as high as the original is wide.
   */
  lemma UnrotatedUndoesRotation(result: RXingResult, original: seq<Option<ResultPoint>>, width: int)
    requires |result.points| == |original|
    requires forall i :: 0 <= i < |original| ==>
      result.points[i] == (if original[i].Some? then Some(RotatedPoint(original[i].value, width)) else None)
    ensures var u := Unrotated(result, width);
      && u.points == original
      && u.text == result.text && u.rawBytes == result.rawBytes && u.numBits == result.numBits
      && u.format == result.format && u.timestamp == result.timestamp
      && u.metadata.Keys == result.metadata.Keys + {ORIENTATION}
      && (forall k :: k in result.metadata && k != ORIENTATION ==> u.metadata[k] == result.metadata[k])
  {
    var u := Unrotated(result, width);
    assert forall i :: 0 <= i < |original| ==> u.points[i] == original[i];
  }

  /** `decode_with_hints`. */
  function DecodedWithHints(readers: seq<OneDReaderKind>, image: BinaryBitmap, hints: DecodingHints,
                            doDecode: ImageDecoder, rotate: Rotation): Result<RXingResult>
  {
    var first := doDecode(readers, image, hints);
    if first.Ok? then first
    else if TRY_HARDER in hints && image.rotateSupported then
      var rotated := rotate(image);
      var second := doDecode(readers, rotated, hints);
      if second.Err? then Err(second.error) else Ok(Unrotated(second.value, rotated.height))
    else Err(NotFound)
  }

  /**
   * A first success is returned as it is; the rotated image is tried only
   * after a failure, with `TRY_HARDER` given and rotation supported, and
   * then its success is reported with the orientation and points put back.
   */
  lemma DecodedWithHintsRetries(readers: seq<OneDReaderKind>, image: BinaryBitmap, hints: DecodingHints,
                                doDecode: ImageDecoder, rotate: Rotation)
    ensures var r := DecodedWithHints(readers, image, hints, doDecode, rotate);
      var first := doDecode(readers, image, hints);
      && (first.Ok? ==> r == first)
      && (first.Err? && !(TRY_HARDER in hints && image.rotateSupported) ==> r == Err(NotFound))
      && (first.Err? && r.Ok? ==>
            && TRY_HARDER in hints && image.rotateSupported
            && doDecode(readers, rotate(image), hints).Ok?
            && |r.value.points| == |doDecode(readers, rotate(image), hints).value.points|
            && ORIENTATION in r.value.metadata && r.value.metadata[ORIENTATION].Orientation?
            && -360 < r.value.metadata[ORIENTATION].degrees < 360)
  {
  }

  /** The part of `new` that pushes a reader for each format of a `POSSIBLE_FORMATS` hint. */
  method PossibleFormatReaders(possibleFormats: set<BarcodeFormat>, useCode39CheckDigit: bool)
    returns (readers: seq<OneDReaderKind>)
    ensures readers == SelectedUpTo(FORMAT_COUNT, possibleFormats, useCode39CheckDigit)
  {
    readers := [];
    if CODE_39 in possibleFormats {
      readers := readers + [Code39Reader(useCode39CheckDigit)];
    }
    assert readers == SelectedUpTo(1, possibleFormats, useCode39CheckDigit);
    if CODE_93 in possibleFormats {
      readers := readers + [Code93Reader];
    }
    assert readers == SelectedUpTo(2, possibleFormats, useCode39CheckDigit);
    if CODE_128 in possibleFormats {
      readers := readers + [Code128Reader];
    }
    assert readers == SelectedUpTo(3, possibleFormats, useCode39CheckDigit);
    if ITF in possibleFormats {
      readers := readers + [ITFReader];
    }
    assert readers == SelectedUpTo(4, possibleFormats, useCode39CheckDigit);
    if CODABAR in possibleFormats {
      readers := readers + [CodaBarReader];
    }
    assert readers == SelectedUpTo(5, possibleFormats, useCode39CheckDigit);
  }

  class MultiFormatOneDReader {
    var readers: seq<OneDReaderKind>
    var states: seq<ReaderState>

    /** Every reader has its state. */
    predicate Valid()
      reads this
    {
      |states| == |readers|
    }

    /** `new`: the readers the hints select, all in their first state. */
    constructor(hints: DecodingHints)
      ensures Valid()
      ensures readers == ReadersFor(hints)
      ensures forall i :: 0 <= i < |states| ==> states[i] == INITIAL
    {
      var useCode39CheckDigit := ASSUME_CODE_39_CHECK_DIGIT in hints;
      var chosen: seq<OneDReaderKind> := [];
      if POSSIBLE_FORMATS in hints && hints[POSSIBLE_FORMATS].PossibleFormats? {
        chosen := PossibleFormatReaders(hints[POSSIBLE_FORMATS].formats, useCode39CheckDigit);
      }
      if chosen == [] {
        chosen := chosen + [Code39Reader(false)];
        chosen := chosen + [CodaBarReader];
        chosen := chosen + [Code93Reader];
        chosen := chosen + [Code128Reader];
        chosen := chosen + [ITFReader];
      }
      readers := chosen;
      states := seq(|chosen|, _ => INITIAL);
    }

    /**
     * `decodeRow`: tries the readers in list order and stops at the first
     * success; `FirstSuccessIsFirst` says what that result is.
     */
    method DecodeRow(scan: RowScan, decode: RowDecoder) returns (r: Result<RXingResult>)
      requires Valid()
      modifies this
      ensures Valid() && readers == old(readers)
      ensures (r, states) == FirstSuccess(old(readers), old(states), 0, scan, decode)
    {
      var i := 0;
      while i < |readers|
        invariant 0 <= i <= |readers| && Valid() && readers == old(readers)
        invariant FirstSuccess(readers, states, i, scan, decode) == FirstSuccess(readers, old(states), 0, scan, decode)
        decreases |readers| - i
      {
        var (res, next) := decode(readers[i], states[i], scan);
        states := states[i := next];
        if res.Ok? {
          return res;
        }
        i := i + 1;
      }
      return Err(NotFound);
    }

    /** `reset`: every reader back to its first state. */
    method Reset()
      requires Valid()
      modifies this
      ensures Valid() && readers == old(readers)
      ensures forall i :: 0 <= i < |states| ==> states[i] == INITIAL
    {
      for i := 0 to |states|
        invariant Valid() && readers == old(readers)
        invariant forall j :: 0 <= j < i ==> states[j] == INITIAL
      {
        states := states[i := INITIAL];
      }
    }

    /** `decode_with_hints`, turning the points of a rotated success back in place. */
    method DecodeWithHints(image: BinaryBitmap, hints: DecodingHints, doDecode: ImageDecoder, rotate: Rotation)
      returns (r: Result<RXingResult>)
      ensures r == DecodedWithHints(readers, image, hints, doDecode, rotate)
    {
      var first := doDecode(readers, image, hints);
      if first.Ok? {
        return first;
      }
      var tryHarder := TRY_HARDER in hints;
      if tryHarder && image.rotateSupported {
        var rotatedImage := rotate(image);
        var second := doDecode(readers, rotatedImage, hints);
        if second.Err? {
          return Err(second.error);
        }
        var result := second.value;
        var orientation := RotatedOrientation(result.metadata);
        var height := rotatedImage.height;
        var old_points := result.points;
        var points := new Option<ResultPoint>[|old_points|](i requires 0 <= i < |old_points| => old_points[i]);
        for i := 0 to points.Length
          invariant forall j :: 0 <= j < i ==> points[j] == UnrotatedPoint(old_points[j], height)
          invariant forall j :: i <= j < points.Length ==> points[j] == old_points[j]
        {
          points[i] := UnrotatedPoint(points[i], height);
        }
        result := result.(metadata := result.metadata[ORIENTATION := Orientation(orientation)], points := points[..]);
        assert result == Unrotated(second.value, height);
        return Ok(result);
      } else {
        return Err(NotFound);
      }
    }

    /** `decode`: `decode_with_hints` with no hints, so without the rotated retry. */
    method Decode(image: BinaryBitmap, doDecode: ImageDecoder, rotate: Rotation) returns (r: Result<RXingResult>)
      ensures r == DecodedWithHints(readers, image, map[], doDecode, rotate)
      ensures r == doDecode(readers, image, map[]) || (r == Err(NotFound) && doDecode(readers, image, map[]).Err?)
    {
      r := DecodeWithHints(image, map[], doDecode, rotate);
    }
  }
}
