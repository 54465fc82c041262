# rxing detectors and readers, modelled in Dafny

This project models five parts of rxing, a Rust port of the ZXing barcode
library:

- **`MonochromeRectangleDetector`** (`monochrome_detector.dfy`). A corner
  search starts at the centre of a bit matrix. It steps a scan line
  outward while the line still holds a mostly-black run
  (`blackWhiteRange`), and takes the corner from the last run it found.
  Five searches, each bounded by the corners before it, give the
  quadrilateral `[top, left, right, bottom]`.
- **`WhiteRectangleDetector`** (`white_rectangle_detector.dfy`). A window
  around a point grows border by border until every border has seen black
  and then gone white. Growth stops early when a border reaches the image
  edge. Each corner region of the window is then swept with diagonal
  segments for a black point. `centerEdges` moves each of the four points
  found one pixel inward along its own axis and one pixel along the other.
- **`DetectionRXingResultRowIndicatorColumn`** of the PDF417 decoder
  (`row_indicator_column.dfy`). The codewords of a row-indicator column
  vote for the symbol's metadata (column count, row count, error
  correction level). Codewords that disagree with the metadata, or whose
  row numbers do not fit their neighbours', are cleared in place. The row
  heights are counted from what remains.
- **`MultiFormatOneDReader`** (`multi_format_one_d_reader.dfy`). It picks
  the 1D symbology readers from the `POSSIBLE_FORMATS` hint and uses the
  first of them that decodes a row. With `TRY_HARDER` it retries on the
  image rotated a quarter turn, then maps the result's orientation and
  points back.
- **`GenericMultipleBarcodeReader`** (`generic_multiple_barcode_reader.dfy`).
  It decodes one barcode and records it, unless its text was already
  found. It then searches the four image regions left of, above, right of
  and below the barcode's bounding box, recursively and to a bounded
  depth. The points of each result are translated back into the original
  image.

Shared definitions: `wrappers.dfy` holds `Option`/`Result`, `rust_int.dfy`
holds Rust's truncating `/` and `%`, `bit_image.dfy` holds the bit matrix
and its scan lines, and `scan_result.dfy` holds results, hints and bitmaps.

Each `while` loop of the source is a `method` with a `while` loop, and
each `for` loop that fills or updates state is a `method` with a loop; the
`for` loops of `containsBlackPoint`, which only compute a value, are the
recursive function `ContainsBlackPoint`. Each such method is proved
equal to a recursive reference function or to the property the source
promises. The lemmas then state what the reference function does. Reader
objects whose fields the source updates are `class`es: the PDF417 column
over an `array` of slots, the OneD reader with its reader states, and the
multiple-barcode reader with its shared result list. Code the source calls
but does not contain is a function parameter: the segment rasterizer, the
symbology readers, the image decode driver, rotation, cropping, and the
single-barcode delegate.

## Model

| member | source | states |
|---|---|---|
| MonochromeRectangleDetector.SkipWhiteDown | src/common/detector/mod.rs:248-256 | stops at the first black position at or below the start, or one below the lower bound |
| MonochromeRectangleDetector.SkipWhiteDownSkipsWhite | src/common/detector/mod.rs:248-256 | every position the downward skip passes over is white |
| MonochromeRectangleDetector.SkipWhiteDownAllWhite | src/common/detector/mod.rs:248-256 | over an all-white stretch, the downward skip runs off the lower bound |
| MonochromeRectangleDetector.SkipWhiteUp | src/common/detector/mod.rs:277-285 | stops at the first black position at or above the start, or at the upper bound |
| MonochromeRectangleDetector.SkipWhiteUpSkipsWhite | src/common/detector/mod.rs:277-285 | every position the upward skip passes over is white |
| MonochromeRectangleDetector.SkipWhiteUpAllWhite | src/common/detector/mod.rs:277-285 | over an all-white stretch, the upward skip runs off the upper bound |
| MonochromeRectangleDetector.ScanStart | src/common/detector/mod.rs:237-263 | the left/up scan stays within the bounds; when it moves, the position after it is black; from a black start it always moves |
| MonochromeRectangleDetector.ScanEnd | src/common/detector/mod.rs:266-292 | the right/down scan stays within the bounds; when it moves, the position before it is black; from a black start it always moves |
| MonochromeRectangleDetector.BlackWhiteRangeOf | src/common/detector/mod.rs:226-301 | a range found lies inside `[minDim, maxDim)`, has `start < end`, and has a black endpoint |
| MonochromeRectangleDetector.WhiteLineHasNoRange | src/common/detector/mod.rs:226-301 | a scan line that is white within the bounds yields no range |
| MonochromeRectangleDetector.ScanStartLoop | src/common/detector/mod.rs:237-263 | the left/up loop, with its inner white-run loop, ends where the reference scan does |
| MonochromeRectangleDetector.ScanEndLoop | src/common/detector/mod.rs:266-292 | the right/down loop, with its inner white-run loop, ends where the reference scan does |
| MonochromeRectangleDetector.BlackWhiteRange | src/common/detector/mod.rs:226-301 | `blackWhiteRange` on a row or a column returns the reference range |
| MonochromeRectangleDetector.LineRange | src/common/detector/mod.rs:162-168 | the range found on the scan line through a point lies within the search box, across the scan direction |
| MonochromeRectangleDetector.CornerSearchBounds | src/common/detector/mod.rs:160-208 | a corner found lies in the search box, the empty line one step past it does too, and it is not behind the line the search started from |
| MonochromeRectangleDetector.CornerSearchFound | src/common/detector/mod.rs:159-208 | a corner found comes from the line `k` steps along the scan: every line before it has a range, that line is empty and inside the box, and the corner is read off the range one step back (the previous range when `k` is 0) |
| MonochromeRectangleDetector.CornerSearchFailsIffAllRanged | src/common/detector/mod.rs:160-208 | after a range was seen, the search fails exactly when every later line has a range until the scan leaves the box |
| MonochromeRectangleDetector.CornerSearchFromCenterFails | src/common/detector/mod.rs:160-208 | from the centre, the search fails exactly when the centre line is outside the box or empty, or every later line has a range |
| MonochromeRectangleDetector.FindCornerFails | src/common/detector/mod.rs:147-210 | the same failure condition, for `findCornerFromCenter` on the image's lines |
| MonochromeRectangleDetector.ScanRange | src/common/detector/mod.rs:162-168 | the range scanned at a point is the range of that point's line |
| MonochromeRectangleDetector.FindCornerFromCenter | src/common/detector/mod.rs:147-210 | the loop stepping `x`, `y` and `lastRange` returns the reference corner search |
| MonochromeRectangleDetector.FindCornerBounds | src/common/detector/mod.rs:147-210 | a corner `findCornerFromCenter` finds lies in the box, with the line one step past it, and is not behind the centre line |
| MonochromeRectangleDetector.Step | src/common/detector/mod.rs:57-58 | the step between scan lines is at least 1, and at most one `MAX_MODULES * 8`-th of the extent once the extent reaches `MAX_MODULES * 8` |
| MonochromeRectangleDetector.Quadrilateral | src/common/detector/mod.rs:52-127 | four corners in the image: left not right of the centre column, right not left of it, top not below the centre row, bottom not above it, top and bottom between the columns next to left and right, top not below bottom |
| MonochromeRectangleDetector.WhiteImageHasNoQuadrilateral | src/common/detector/mod.rs:52-127 | `detect` fails on an image with no black pixel |
| MonochromeRectangleDetector.Detect | src/common/detector/mod.rs:52-127 | the five searches, stopping at the first failure, return the reference quadrilateral |
| WhiteRectangleDetector.New | src/common/detector/mod.rs:366-390 | fails exactly when `x ± initSize/2`, `y ± initSize/2` sticks out of the image; otherwise gives that window, centred on `(x, y)` with half side `initSize/2` rounded toward zero, on the image and its size |
| WhiteRectangleDetector.NewFromImageSucceeds | src/common/detector/mod.rs:350-357 | `new_from_image` succeeds exactly on images at least 11 pixels wide and high, with a non-inverted window |
| WhiteRectangleDetector.ContainsBlackPoint | src/common/detector/mod.rs:649-665 | true exactly when some pixel of the inclusive range on the row or column is black |
| WhiteRectangleDetector.Push | src/common/detector/mod.rs:425-436 | one border moves outward, at most to just past the image edge; its "black seen" flag is set once it met black; it moves whenever it meets black and otherwise, once it has seen black, it stays |
| WhiteRectangleDetector.PushEnds | src/common/detector/mod.rs:425-436 | a border push stops inside the image only on a white line and only after black was seen; when it met black, the line it passed last is black |
| WhiteRectangleDetector.PushBorder | src/common/detector/mod.rs:425-436 | one border loop of `detect` ends in the state of the reference push |
| WhiteRectangleDetector.GrowPassMoves | src/common/detector/mod.rs:419-503 | in the reference pass of the four border loops, a pass that met black moves the window closer to the image edges, one that met none leaves it unchanged, and the window stays in the image |
| WhiteRectangleDetector.BorderPass | src/common/detector/mod.rs:419-503 | one pass of the four border loops of `detect`, in order, each over the window the earlier ones left, with an early exit when a border leaves the image, gives the reference pass `GrowPass` |
| WhiteRectangleDetector.BorderPassLeftTop | src/common/detector/mod.rs:468-503 | the left and top loops of a pass, after the right and bottom ones, give the rest of the reference pass |
| WhiteRectangleDetector.SettledWindowIsFramed | src/common/detector/mod.rs:419-504 | a window whose four borders have seen black and are now white is framed |
| WhiteRectangleDetector.PushRightGrowing | src/common/detector/mod.rs:425-441 | pushing the right border keeps the growth invariant; a push that met no black leaves it on a white column it had already seen black before |
| WhiteRectangleDetector.PushBottomGrowing | src/common/detector/mod.rs:446-463 | the same for the bottom border and its row |
| WhiteRectangleDetector.PushLeftGrowing | src/common/detector/mod.rs:468-483 | the same for the left border and its column |
| WhiteRectangleDetector.PushTopGrowing | src/common/detector/mod.rs:488-503 | the same for the top border and its row |
| WhiteRectangleDetector.PassKeepsGrowing | src/common/detector/mod.rs:419-504 | a pass keeps the growth invariant (each border that met black has a black line inside it), and a pass that met no black leaves a framed window |
| WhiteRectangleDetector.GrowFramed | src/common/detector/mod.rs:419-504 | every window the growth settles on is framed: in the image, around the initial window, with a white frame and a black line inside each side |
| WhiteRectangleDetector.GrowBorders | src/common/detector/mod.rs:419-504 | the growth loop, with its early exits when a border leaves the image, returns the reference growth `Grown`, and a window it settles on is framed |
| WhiteRectangleDetector.FirstBlack | src/common/detector/mod.rs:566-585 | the point returned is black; none is returned exactly when no probe is black |
| WhiteRectangleDetector.FirstBlackIsFirst | src/common/detector/mod.rs:566-585 | the point returned is a probe and no earlier probe is black |
| WhiteRectangleDetector.GetBlackPointOnSegment | src/common/detector/mod.rs:566-585 | the probe loop returns the first black probe of the segment |
| WhiteRectangleDetector.SweepFromFinds | src/common/detector/mod.rs:509-557 | a corner sweep finds nothing exactly when every segment it tries is white; what it finds is the first black probe of the first non-white segment |
| WhiteRectangleDetector.DiagonalSweep | src/common/detector/mod.rs:509-519 | each diagonal counter loop returns the reference sweep of its corner |
| WhiteRectangleDetector.CenterEdges | src/common/detector/mod.rs:600-638 | each corner moves one pixel inward along its own axis (the top point down, the left one right, the right one left, the bottom one up) and one pixel either way along the other; the moves cancel out over the four corners |
| WhiteRectangleDetector.CenterEdgesQuarterTurn | src/common/detector/mod.rs:620-637 | the sign table for the right half is the left-half table turned a quarter |
| WhiteRectangleDetector.Detect | src/common/detector/mod.rs:406-564 | fails exactly when the reference growth leaves the image or one of the four sweeps of its window finds no black point; otherwise returns `centerEdges` of the sweeps' first black points; fails on a white image |
| WhiteRectangleDetector.CornersOfBlackPoints | src/common/detector/mod.rs:509-559 | a result is `centerEdges` of four black points, each the first black probe of its sweep |
| WhiteRectangleDetector.WhiteImageHasNoCorners | src/common/detector/mod.rs:406-564 | `detect` fails on a white image |
| Pdf417RowIndicator.IndicatorRow | src/pdf417/decoder/detection_result_row_indicator_column.rs:214 | renumbering keeps the codeword's bucket and value |
| Pdf417RowIndicator.IndicatorRowKind | src/pdf417/decoder/detection_result_row_indicator_column.rs:214-227 | a left row indicator of bucket 0, 3 or 6 lands on a row of kind 0, 1 or 2: upper row-count part, level and lower part, column count |
| Pdf417RowIndicator.Renumbered | src/pdf417/decoder/detection_result_row_indicator_column.rs:37-45 | `setRowNumbers` keeps the slot count and which slots are empty |
| Pdf417RowIndicator.RenumberedSetsRows | src/pdf417/decoder/detection_result_row_indicator_column.rs:37-45 | after renumbering every codeword carries its indicator row, and renumbering again changes nothing |
| Pdf417RowIndicator.RemoveIncorrect | src/pdf417/decoder/detection_result_row_indicator_column.rs:257-300 | the slot count is kept; a slot is either kept as it was or cleared; empty slots stay empty |
| Pdf417RowIndicator.RemoveIncorrectSurvivors | src/pdf417/decoder/detection_result_row_indicator_column.rs:269-295 | a survivor's row number is at most the row count, and its value modulo 30 encodes what its row kind says (row count part, error-correction level, column count) |
| Pdf417RowIndicator.RemoveIncorrectKeepsMatching | src/pdf417/decoder/detection_result_row_indicator_column.rs:269-295 | a codeword survives exactly when it passes the check |
| Pdf417RowIndicator.RemoveIncorrectIdempotent | src/pdf417/decoder/detection_result_row_indicator_column.rs:257-300 | a second pass removes nothing more |
| Pdf417RowIndicator.RemoveIncorrectCodewords | src/pdf417/decoder/detection_result_row_indicator_column.rs:257-300 | the in-place loop leaves the array equal to the reference removal |
| Pdf417RowIndicator.CompleteFromProperties | src/pdf417/decoder/detection_result_row_indicator_column.rs:74-125 | the row walk only clears slots of the rows it visits, and the surviving row numbers ascend |
| Pdf417RowIndicator.AdjustCompleteProperties | src/pdf417/decoder/detection_result_row_indicator_column.rs:51-127 | the complete adjustment leaves the renumbered slots that pass the check, with some slots of `[firstRow, lastRow)` cleared and the survivors in ascending row order |
| Pdf417RowIndicator.CompleteStepClears | src/pdf417/decoder/detection_result_row_indicator_column.rs:78-123 | a codeword with a negative row difference or a row past the row count is cleared, and so is one too far from the rows above; a difference of 0 or 1 is kept |
| Pdf417RowIndicator.IncompleteStepClears | src/pdf417/decoder/detection_result_row_indicator_column.rs:166-199 | a codeword reached is renumbered, and cleared exactly when its new row differs from the counter's row by neither 0 nor 1 and is at least the row count |
| Pdf417RowIndicator.IncompleteFromRenumbers | src/pdf417/decoder/detection_result_row_indicator_column.rs:157-203 | the incomplete adjustment only touches slots it visits; it renumbers each codeword there, and clears it exactly when, with the counters held on reaching it, the row difference is neither 0 nor 1 and the new row is at least the row count |
| Pdf417RowIndicator.IncompleteFromClears | src/pdf417/decoder/detection_result_row_indicator_column.rs:157-203 | on codewords that already carry their rows, the incomplete adjustment changes exactly the codewords whose row difference is neither 0 nor 1 and whose row is at least the row count, and nothing outside the walked rows |
| Pdf417RowIndicator.RowHeightsAdjustmentClears | src/pdf417/decoder/detection_result_row_indicator_column.rs:129-131 | inside `getRowHeights` the incomplete adjustment clears exactly the kept codewords of the walked rows whose row difference is neither 0 nor 1 and whose row lies at or past the row count |
| Pdf417RowIndicator.BestFrom | src/pdf417/decoder/detection_result_row_indicator_column.rs:234-245 | the candidate chosen is a vote and is cast at least as often as the others |
| Pdf417RowIndicator.MostFrequent | src/pdf417/decoder/detection_result_row_indicator_column.rs:234-245 | nothing exactly when no vote was cast; otherwise a value cast at least as often as every other |
| Pdf417RowIndicator.MetadataOf | src/pdf417/decoder/detection_result_row_indicator_column.rs:205-255 | each field of the metadata found is a most frequent vote for it; the column count is at least 1 and the row count lies between 3 and 90 |
| Pdf417RowIndicator.TallyFromCodewords | src/pdf417/decoder/detection_result_row_indicator_column.rs:211-232 | every vote comes from a codeword of the matching row kind, and the lower row count part and the error-correction level are voted together |
| Pdf417RowIndicator.MetadataFromCodewords | src/pdf417/decoder/detection_result_row_indicator_column.rs:205-255 | each field of the metadata found was voted by a codeword of the matching kind |
| Pdf417RowIndicator.RowIndicatorColumn.constructor | src/pdf417/decoder/detection_result_row_indicator_column.rs:30-35 | a column of the given side over the given slots |
| Pdf417RowIndicator.RowIndicatorColumn.SetRowNumbers | src/pdf417/decoder/detection_result_row_indicator_column.rs:37-45 | the loop renumbers every codeword in place |
| Pdf417RowIndicator.RowIndicatorColumn.ClosePreviousCodeword | src/pdf417/decoder/detection_result_row_indicator_column.rs:104-114 | the inner loop finds a codeword within `checkedRows` slots above, or reaches the first slot |
| Pdf417RowIndicator.RowIndicatorColumn.AdjustCompleteIndicatorColumnRowNumbers | src/pdf417/decoder/detection_result_row_indicator_column.rs:51-127 | the in-place walk leaves the slots equal to the reference complete adjustment |
| Pdf417RowIndicator.RowIndicatorColumn.AdjustIncompleteIndicatorColumnRowNumbers | src/pdf417/decoder/detection_result_row_indicator_column.rs:157-203 | the in-place walk leaves the slots equal to the reference incomplete adjustment |
| Pdf417RowIndicator.RowIndicatorColumn.TallyVotes | src/pdf417/decoder/detection_result_row_indicator_column.rs:211-232 | the loop renumbers every codeword in place and casts its votes in slot order |
| Pdf417RowIndicator.RowIndicatorColumn.GetBarcodeMetadata | src/pdf417/decoder/detection_result_row_indicator_column.rs:205-255 | returns the metadata the renumbered codewords elect; when found, the disagreeing codewords are removed; otherwise the codewords are only renumbered |
| Pdf417RowIndicator.RowIndicatorColumn.RowHistogram | src/pdf417/decoder/detection_result_row_indicator_column.rs:134-147 | entry `row` is the number of codewords on that row; codewords on other rows are ignored |
| Pdf417RowIndicator.RowIndicatorColumn.GetRowHeights | src/pdf417/decoder/detection_result_row_indicator_column.rs:129-152 | none exactly when no metadata is found; otherwise the count of codewords on each row, taken after the incomplete adjustment |
| MultiFormatOneD.Position | src/oned/multi_format_one_d_reader.rs:73-89 | each reader kind has a place in the push order, and that place holds its format |
| MultiFormatOneD.ReaderAt | src/oned/multi_format_one_d_reader.rs:59-89 | the reader pushed at a place; Code 39 carries the check-digit flag |
| MultiFormatOneD.SelectedUpToSound | src/oned/multi_format_one_d_reader.rs:61-96 | every reader pushed reads a requested format, the readers come in push order without repeats, and Code 39 carries the flag |
| MultiFormatOneD.SelectedUpToComplete | src/oned/multi_format_one_d_reader.rs:61-96 | every requested format with a reader here gets one |
| MultiFormatOneD.SelectedUpToNone | src/oned/multi_format_one_d_reader.rs:61-96 | a hint naming none of the five formats pushes no reader |
| MultiFormatOneD.ReadersForSelection | src/oned/multi_format_one_d_reader.rs:58-109 | the list is never empty; the default list without a usable hint; otherwise exactly the requested readers, in order |
| MultiFormatOneD.FirstSuccessIsFirst | src/oned/multi_format_one_d_reader.rs:33-51 | answers with the first reader that succeeds, fails exactly when all fail, and readers before the start keep their state |
| MultiFormatOneD.RotatedOrientation | src/oned/multi_format_one_d_reader.rs:140-157 | 270 without an orientation; otherwise the old orientation plus 270, reduced modulo 360 |
| MultiFormatOneD.UnrotatedUndoesRotation | src/oned/multi_format_one_d_reader.rs:158-171 | putting a rotated result back restores every point, sets the orientation, and keeps the other fields |
| MultiFormatOneD.DecodedWithHintsRetries | src/oned/multi_format_one_d_reader.rs:127-179 | a first success is returned as it is; the rotated image is tried only after a failure with `TRY_HARDER` and rotation support |
| MultiFormatOneD.PossibleFormatReaders | src/oned/multi_format_one_d_reader.rs:61-96 | the pushes produce the reference selection |
| MultiFormatOneD.MultiFormatOneDReader.constructor | src/oned/multi_format_one_d_reader.rs:58-109 | holds the readers the hints select, each in its initial state |
| MultiFormatOneD.MultiFormatOneDReader.DecodeRow | src/oned/multi_format_one_d_reader.rs:33-51 | the loop's answer and reader states are those of the first-success reference |
| MultiFormatOneD.MultiFormatOneDReader.Reset | src/oned/multi_format_one_d_reader.rs:180-185 | every reader is back in its initial state |
| MultiFormatOneD.MultiFormatOneDReader.DecodeWithHints | src/oned/multi_format_one_d_reader.rs:127-179 | the result is the reference decode, points fixed up in place |
| MultiFormatOneD.MultiFormatOneDReader.Decode | src/oned/multi_format_one_d_reader.rs:122-124 | decoding without hints; the result is the plain decode or `NotFound` after it failed |
| GenericMultipleBarcode.Translated | src/multi/GenericMultipleBarcodeReader.java:160-180 | a translated result keeps its text, bytes, format, timestamp, metadata and point count |
| GenericMultipleBarcode.TranslatedComposes | src/multi/GenericMultipleBarcodeReader.java:160-180 | two translations are one by the summed offset, and translating back undoes a translation |
| GenericMultipleBarcode.TranslateRXingResultPoints | src/multi/GenericMultipleBarcodeReader.java:160-180 | the point loop gives the translated result; absent points stay absent |
| GenericMultipleBarcode.AlreadyFound | src/multi/GenericMultipleBarcodeReader.java:90-97 | true exactly when some recorded result has the same text |
| GenericMultipleBarcode.HasTextGrows | src/multi/GenericMultipleBarcodeReader.java:90-97 | a text recorded stays recorded as the list grows |
| GenericMultipleBarcode.BoxOfStep | src/multi/GenericMultipleBarcodeReader.java:110-127 | the reference box of one more point is the box so far enlarged to enclose it |
| GenericMultipleBarcode.BoundingBox | src/multi/GenericMultipleBarcodeReader.java:104-128 | the loop computes the reference box `BoxOf`; every present point lies in it, and each bound is its start value or is attained by a point |
| GenericMultipleBarcode.SubSearchRules | src/multi/GenericMultipleBarcodeReader.java:131-157 | a side gets a sub-search exactly when its margin exceeds `MIN_DIMENSION_TO_RECUR`; the strip lies in the image, beside the box, and its offset is the parent's plus its origin |
| GenericMultipleBarcode.CountAppend | src/multi/GenericMultipleBarcodeReader.java:74-158 | counting the depth log is additive over concatenation |
| GenericMultipleBarcode.LogCounts | src/multi/GenericMultipleBarcodeReader.java:131-157 | the depth entries added by four searches in turn add up |
| GenericMultipleBarcode.ResultList.constructor | src/multi/GenericMultipleBarcodeReader.java:66 | an empty result list |
| GenericMultipleBarcode.GenericMultipleBarcodeReader.constructor | src/multi/GenericMultipleBarcodeReader.java:54-56 | a reader around the given delegate |
| GenericMultipleBarcode.GenericMultipleBarcodeReader.SideKeptGrows | src/multi/GenericMultipleBarcodeReader.java:90-100 | what a side search kept stays kept as the list grows |
| GenericMultipleBarcode.GenericMultipleBarcodeReader.AllSidesKept | src/multi/GenericMultipleBarcodeReader.java:131-157 | what each of the four side searches kept is in the final list |
| GenericMultipleBarcode.GenericMultipleBarcodeReader.CollectGrows | src/multi/GenericMultipleBarcodeReader.java:74-158 | the reference list `Collect` the recursion leaves only ever extends the list it starts from, and keeps its texts distinct |
| GenericMultipleBarcode.GenericMultipleBarcodeReader.CollectAroundGrows | src/multi/GenericMultipleBarcodeReader.java:130-157 | the same for `CollectAround`, the four side searches in source order |
| GenericMultipleBarcode.GenericMultipleBarcodeReader.CollectSideGrows | src/multi/GenericMultipleBarcodeReader.java:131-157 | the same for `CollectSide`, one side search on that side's crop at that side's offsets, one level deeper |
| GenericMultipleBarcode.GenericMultipleBarcodeReader.CollectRecords | src/multi/GenericMultipleBarcodeReader.java:80-157 | the reference list is unchanged past `MAX_DEPTH` and on a failed decode; otherwise it records the decoded text, a new one as the next result translated by the offsets, and after a success with points whatever each side search decodes |
| GenericMultipleBarcode.GenericMultipleBarcodeReader.CollectSideKept | src/multi/GenericMultipleBarcodeReader.java:131-157 | what a side's crop decodes, when the side has room and the depth allows, is in the list the side search leaves |
| GenericMultipleBarcode.GenericMultipleBarcodeReader.CollectAroundKept | src/multi/GenericMultipleBarcodeReader.java:131-157 | the same for all four sides, in the list the four searches leave |
| GenericMultipleBarcode.GenericMultipleBarcodeReader.CollectAroundSteps | src/multi/GenericMultipleBarcodeReader.java:131-157 | the four side searches one after another make up the reference search around the box |
| GenericMultipleBarcode.GenericMultipleBarcodeReader.DoDecodeMultiple | src/multi/GenericMultipleBarcodeReader.java:74-158 | leaves exactly the reference list `Collect`; results are only appended and keep distinct texts; nothing happens past `MAX_DEPTH`; a failed decode adds nothing; a decoded text is recorded, translated by the offset when new; after a success with points each side of the reference box is searched exactly when it has room and the depth allows, and what its crop decodes is recorded |
| GenericMultipleBarcode.GenericMultipleBarcodeReader.SearchAround | src/multi/GenericMultipleBarcodeReader.java:104-157 | leaves exactly the reference list `CollectAround` of the reference box; the four side searches only append distinct results, at a greater depth; one level down they search exactly the sides of the reference box that have room, and what each crop decodes is recorded |
| GenericMultipleBarcode.GenericMultipleBarcodeReader.SearchSide | src/multi/GenericMultipleBarcodeReader.java:131-157 | leaves exactly the reference list `CollectSide`, whose search uses that side's crop and offsets; a side without room changes nothing; a side with room is searched once, one level deeper when the depth allows |
| GenericMultipleBarcode.GenericMultipleBarcodeReader.DecodeMultipleWithHints | src/multi/GenericMultipleBarcodeReader.java:64-72 | `NotFound` when the reference list `Collect` from an empty list is empty, otherwise that list; `NotFound` exactly when the whole image does not decode; otherwise distinct results, the first being the whole image's, holding what each searched side decodes; the recursion never exceeds `MAX_DEPTH` |
| GenericMultipleBarcode.GenericMultipleBarcodeReader.DecodeMultiple | src/multi/GenericMultipleBarcodeReader.java:59-61 | the same, with no hints |
| RustInt.TruncDiv | src/pdf417/decoder/detection_result_row_indicator_column.rs:223 | Rust's `/` on `i32` for a positive divisor: the quotient rounds toward zero, so that `r * b` is the multiple of `b` nearest `a` on the side of zero |
| RustInt.TruncRem | src/pdf417/decoder/detection_result_row_indicator_column.rs:215 | Rust's `%` on `i32` for a positive divisor: has the sign of the dividend, is smaller than the divisor in size, and recombines with `TruncDiv` to the dividend |

## Left out

- Floating point. Result points are exact `real`s. The rounding of the `f32` point arithmetic is not modelled.
- `getBlackPointOnSegment`'s rasterizer. It computes probe positions in floating point. Here it is the parameter `probes`, the points probed on a segment, in order. A probe outside the image reads as white.
- Integer width. Coordinates, counts and row numbers are unbounded integers. The source's `i32` and `u32` overflow cannot occur at image sizes and is not modelled.
- `MonochromeRectangleDetector::new` only stores the image. Its detector here is the bit matrix itself.
- `Codeword` is not part of this model. Its `setRowNumberAsRowIndicatorColumn` follows ZXing: the row is `3 * (value / 30) + bucket / 3`. The codeword's start and end columns are left out.
- The PDF417 bounding box and `imageRowToCodewordIndex`. They only decide which array slots the adjustments walk over. Here they are the parameters `firstRow` and `lastRow`, checked to lie within the column.
- `BarcodeValue` is the sequence of values set, in order. `getValue()[0]` is a most frequent value. On a tie the model takes the earliest value set; the source's map order is not modelled.
- `MIN_ROWS_IN_BARCODE` and `MAX_ROWS_IN_BARCODE` come from `PDF417Common`, which is not part of this model. Their ZXing values, 3 and 90, are used.
- The `Display` implementation of the row-indicator column is left out: it only formats text.
- The symbology readers (Code 39, Code 93, Code 128, ITF, Codabar) are not part of this model. Each is the parameter `decode`, with its carried state opaque.
- `doDecode`, the row scanner the 1D reader inherits, is not part of this model. It is the parameter `doDecode`, a function of the reader list, so the reader states it changes are not modelled.
- `BinaryBitmap::rotateCounterClockwise` is the parameter `rotate`. `crop` and the single-barcode delegate of the multiple reader are the parameters `crop` and `delegate`.
- The 1D reader's source vector cannot hold absent points. The model allows them and keeps them absent.
- The `null` hint map of `decodeMultiple(image)` is the empty map. A `null` points array is the empty sequence, and reads the same wherever it is read.
- The `ReaderException` swallowed by `doDecodeMultiple` is the delegate returning `Err`.
- `RustInt.TruncDiv` and `RustInt.TruncRem` state Rust's rounding for positive divisors only, the only ones the modelled code divides by. The `i32` overflow of `i32::MIN / -1` is not modelled.
- `WhiteRectangleDetector.GrowBorders` and `WhiteRectangleDetector.Detect` require a non-inverted initial window (`Ordered`). `new` gives one for every `initSize >= 0`, and `new_from_image` always does. The inverted window that a negative `initSize` would give is not modelled.
