/**
 * The values the readers exchange: decoding hints, an image to decode,
 * and the decoded result with its points and metadata.  Result points
 * are `real`s: the floating-point points of the readers, with the
 * arithmetic done on them taken as exact.
 */
module ScanResult {
  import opened Wrappers

  /** `RXingResultPoint`. */
  datatype ResultPoint = ResultPoint(x: real, y: real)

  datatype BarcodeFormat =
    | AZTEC | CODABAR | CODE_39 | CODE_93 | CODE_128 | DATA_MATRIX | EAN_8 | EAN_13 | ITF
    | MAXICODE | PDF_417 | QR_CODE | RSS_14 | RSS_EXPANDED | UPC_A | UPC_E | UPC_EAN_EXTENSION

  /** The metadata keys; only the orientation is looked at here. */
  datatype MetadataType = ORIENTATION | OtherMetadata(name: string)

  datatype MetadataValue = Orientation(degrees: int) | OtherValue(text: string)

  /**
   * `RXingResult`.  `points` may hold absent entries (Java `null`); a
   * `null` points array behaves exactly like an empty one wherever it is
   * read here, so it is the empty sequence.
   */
  datatype RXingResult = RXingResult(text: string, rawBytes: seq<int>, numBits: int,
                                     points: seq<Option<ResultPoint>>, format: BarcodeFormat,
                                     timestamp: int, metadata: map<MetadataType, MetadataValue>)

  /** The hint keys the modelled readers look at, and the rest. */
  datatype DecodeHintType = ASSUME_CODE_39_CHECK_DIGIT | POSSIBLE_FORMATS | TRY_HARDER | OtherHint(name: string)

  datatype DecodeHintValue = PossibleFormats(formats: set<BarcodeFormat>) | Flag(on: bool) | OtherHintValue(text: string)

  /** `DecodingHintDictionary`; a Java `null` hint map is the empty map. */
  type DecodingHints = map<DecodeHintType, DecodeHintValue>

  /**
   * `BinaryBitmap`: its size and whether it can be rotated; its pixels
   * are only read by the decoders, which are parameters of this model.
   */
  datatype BinaryBitmap = BinaryBitmap(width: int, height: int, rotateSupported: bool, pixels: seq<seq<bool>>)
}
