/**
 * The row-indicator column of a PDF417 symbol
 * (`DetectionRXingResultRowIndicatorColumn`): the codewords found in the
 * left or right row-indicator column, one slot per image row of the
 * bounding box.  The row indicators vote for the symbol's metadata
 * (column count, row count in two parts, error-correction level), and
 * slots whose codeword disagrees with the metadata or with its
 * neighbours' row numbers are cleared in place.
 */
module Pdf417RowIndicator {
  import opened Wrappers
  import opened RustInt

  const MIN_ROWS_IN_BARCODE: int := 3
  const MAX_ROWS_IN_BARCODE: int := 90

  /**
   * A decoded codeword: the bucket (cluster number 0, 3 or 6) its pattern
   * fell in, its value, and the row number it was given.
   */
  datatype Codeword = Codeword(bucket: int, value: int, rowNumber: int)

  /** `BarcodeMetadata`; the row count is stored in two parts. */
  datatype BarcodeMetadata = BarcodeMetadata(columnCount: int, rowCountUpperPart: int,
                                             rowCountLowerPart: int, errorCorrectionLevel: int)
  {
    function RowCount(): int {
      rowCountUpperPart + rowCountLowerPart
    }
  }

  // ----- setRowNumbers -----

  /**
   * `setRowNumberAsRowIndicatorColumn` (a member of `Codeword`, which is
   * not part of this model, as in ZXing): a row indicator names the row
   * `3 * (value / 30) + bucket / 3`.
   */
  function IndicatorRow(c: Codeword): (r: Codeword)
    ensures r.bucket == c.bucket && r.value == c.value
  {
    c.(rowNumber := TruncDiv(c.value, 30) * 3 + TruncDiv(c.bucket, 3))
  }

  /**
   * A left row indicator's row is of the kind its bucket says: bucket 0
   * carries the upper row-count part, 3 the level and lower part, 6 the
   * column count.
   */
  lemma IndicatorRowKind(c: Codeword)
    requires c.value >= 0 && (c.bucket == 0 || c.bucket == 3 || c.bucket == 6)
    ensures RowKind(IndicatorRow(c).rowNumber, true) == c.bucket / 3
  {
    var q := TruncDiv(c.value, 30);
    assert q >= 0;
    assert TruncDiv(c.bucket, 3) == c.bucket / 3;
    assert (q * 3 + c.bucket / 3) % 3 == c.bucket / 3;
  }

  /** Every codeword of `s` carries the row its indicator value names. */
  ghost predicate RowsSet(s: seq<Option<Codeword>>) {
    forall i :: 0 <= i < |s| && s[i].Some? ==> s[i].value == IndicatorRow(s[i].value)
  }

  /** The slots after `setRowNumbers`: every codeword renumbered, empty slots left empty. */
  function Renumbered(s: seq<Option<Codeword>>): (r: seq<Option<Codeword>>)
    ensures |r| == |s|
    ensures forall i :: 0 <= i < |s| ==> (r[i].None? <==> s[i].None?)
  {
    seq(|s|, i requires 0 <= i < |s| => if s[i].Some? then Some(IndicatorRow(s[i].value)) else None)
  }

  /**
   * After `setRowNumbers` every codeword carries its indicator row, and a
   * second call changes nothing; on slots that already carry their rows
   * it changes nothing either.
   */
  lemma RenumberedSetsRows(s: seq<Option<Codeword>>)
    ensures RowsSet(Renumbered(s))
    ensures Renumbered(Renumbered(s)) == Renumbered(s)
    ensures RowsSet(s) ==> Renumbered(s) == s
  {
    var r := Renumbered(s);
    forall i | 0 <= i < |s| && r[i].Some?
      ensures r[i].value == IndicatorRow(r[i].value)
    {
      assert r[i].value == IndicatorRow(s[i].value);
      assert s[i].value.(rowNumber := r[i].value.rowNumber) == r[i].value;
    }
    assert forall i :: 0 <= i < |r| ==> Renumbered(r)[i] == r[i];
    if RowsSet(s) {
      assert forall i :: 0 <= i < |s| ==> r[i] == s[i];
    }
  }

  // ----- removeIncorrectCodewords -----

  /** Which of the three row-indicator kinds row `rowNumber` carries: 0, 1, 2, or negative for a negative row. */
  function RowKind(rowNumber: int, isLeft: bool): int {
    TruncRem(rowNumber + (if isLeft then 0 else 2), 3)
  }

  /** The check `removeIncorrectCodewords` makes of one codeword. */
  predicate Kept(c: Codeword, m: BarcodeMetadata, isLeft: bool) {
    var rowIndicatorValue := TruncRem(c.value, 30);
    if c.rowNumber > m.RowCount() then false
    else
      match RowKind(c.rowNumber, isLeft)
      case 0 => rowIndicatorValue * 3 + 1 == m.rowCountUpperPart
      case 1 => TruncDiv(rowIndicatorValue, 3) == m.errorCorrectionLevel
                && TruncRem(rowIndicatorValue, 3) == m.rowCountLowerPart
      case 2 => rowIndicatorValue + 1 == m.columnCount
      case _ => true
  }

  /**
   * The slots after `removeIncorrectCodewords`: a codeword failing the
   * check is cleared; nothing else changes.
   */
  function RemoveIncorrect(s: seq<Option<Codeword>>, m: BarcodeMetadata, isLeft: bool): (r: seq<Option<Codeword>>)
    ensures |r| == |s|
    ensures forall i :: 0 <= i < |s| ==> (r[i].Some? ==> r[i] == s[i]) && (s[i].None? ==> r[i].None?)
  {
    seq(|s|, i requires 0 <= i < |s| => if s[i].Some? && !Kept(s[i].value, m, isLeft) then None else s[i])
  }

  /**
   * Every survivor matches the metadata: its row number is at most the
   * row count, and for a row indicator with a non-negative value and
   * row, with `v` its value modulo 30, the kind of its row fixes what `v`
   * encodes.
   */
  lemma RemoveIncorrectSurvivors(s: seq<Option<Codeword>>, m: BarcodeMetadata, isLeft: bool, i: int)
    requires 0 <= i < |s| && RemoveIncorrect(s, m, isLeft)[i].Some?
    ensures s[i].value.rowNumber <= m.RowCount()
    ensures var c := s[i].value; var v := c.value % 30; var k := (c.rowNumber + (if isLeft then 0 else 2)) % 3;
            c.value >= 0 && c.rowNumber >= 0 ==>
              (k == 0 ==> v * 3 + 1 == m.rowCountUpperPart)
              && (k == 1 ==> v / 3 == m.errorCorrectionLevel && v % 3 == m.rowCountLowerPart)
              && (k == 2 ==> v + 1 == m.columnCount)
  {
    var c := s[i].value;
    assert Kept(c, m, isLeft);
    if c.value >= 0 && c.rowNumber >= 0 {
      var v := c.value % 30;
      assert TruncRem(c.value, 30) == v;
      assert TruncDiv(v, 3) == v / 3 && TruncRem(v, 3) == v % 3;
      assert RowKind(c.rowNumber, isLeft) == (c.rowNumber + (if isLeft then 0 else 2)) % 3;
    }
  }

  /** A codeword that passes the check survives: with the ensures of `RemoveIncorrect`, survival is exactly passing. */
  lemma RemoveIncorrectKeepsMatching(s: seq<Option<Codeword>>, m: BarcodeMetadata, isLeft: bool, i: int)
    requires 0 <= i < |s| && s[i].Some?
    ensures RemoveIncorrect(s, m, isLeft)[i].Some? <==> Kept(s[i].value, m, isLeft)
  {
  }

  /** Each slot is judged on its own, so a second pass removes nothing more. */
  lemma RemoveIncorrectIdempotent(s: seq<Option<Codeword>>, m: BarcodeMetadata, isLeft: bool)
    ensures RemoveIncorrect(RemoveIncorrect(s, m, isLeft), m, isLeft) == RemoveIncorrect(s, m, isLeft)
  {
    var r := RemoveIncorrect(s, m, isLeft);
    assert forall i :: 0 <= i < |r| ==> RemoveIncorrect(r, m, isLeft)[i] == r[i];
  }

  /** `removeIncorrectCodewords`: clears, in place, every slot whose codeword fails the check. */
  method RemoveIncorrectCodewords(codewords: array<Option<Codeword>>, m: BarcodeMetadata, isLeft: bool)
    modifies codewords
    ensures codewords[..] == RemoveIncorrect(old(codewords[..]), m, isLeft)
  {
    ghost var s := codewords[..];
    ghost var rs := RemoveIncorrect(s, m, isLeft);
    for codewordRow := 0 to codewords.Length
      invariant forall i :: 0 <= i < codewordRow ==> codewords[i] == rs[i]
      invariant forall i :: codewordRow <= i < codewords.Length ==> codewords[i] == s[i]
    {
      var slot := codewords[codewordRow];
      if slot.Some? {
        var codeword := slot.value;
        var rowIndicatorValue := TruncRem(codeword.value, 30);
        var codewordRowNumber := codeword.rowNumber;
        if codewordRowNumber > m.RowCount() {
          codewords[codewordRow] := None;
        } else {
          if !isLeft {
            codewordRowNumber := codewordRowNumber + 2;
          }
          match TruncRem(codewordRowNumber, 3)
          case 0 =>
            if rowIndicatorValue * 3 + 1 != m.rowCountUpperPart {
              codewords[codewordRow] := None;
            }
          case 1 =>
            if TruncDiv(rowIndicatorValue, 3) != m.errorCorrectionLevel
               || TruncRem(rowIndicatorValue, 3) != m.rowCountLowerPart {
              codewords[codewordRow] := None;
            }
          case 2 =>
            if rowIndicatorValue + 1 != m.columnCount {
              codewords[codewordRow] := None;
            }
          case _ =>
        }
      }
      assert codewords[codewordRow] == rs[codewordRow];
    }
    assert codewords[..] == rs;
  }

  // ----- the row-number adjustments -----

  /** The counters the adjustment loops thread through: `barcodeRow`, `maxRowHeight`, `currentRowHeight`. */
  datatype Tracker = Tracker(barcodeRow: int, maxRowHeight: int, currentRowHeight: int)

  /** The counters before the first row. */
  const START: Tracker := Tracker(-1, 1, 0)

  /**
   * The inner search of the complete adjustment: `checkedRows` reaches
   * back to the first slot, or one of the `checkedRows` slots above `row`
   * holds a codeword.
   */
  ghost predicate ClosePrevious(s: seq<Option<Codeword>>, row: int, checkedRows: int)
    requires 0 <= row < |s|
  {
    checkedRows >= row || exists j :: row - checkedRows <= j < row && s[j].Some?
  }

  /** One row of `adjustCompleteIndicatorColumnRowNumbers`: the new slots and counters. */
  ghost function CompleteStep(s: seq<Option<Codeword>>, row: int, t: Tracker, rowCount: int): (seq<Option<Codeword>>, Tracker)
    requires 0 <= row < |s|
  {
    match s[row]
    case None => (s, t)
    case Some(c) =>
      var rowDifference := c.rowNumber - t.barcodeRow;
      if rowDifference == 0 then (s, t.(currentRowHeight := t.currentRowHeight + 1))
      else if rowDifference == 1 then (s, Tracker(c.rowNumber, Max(t.maxRowHeight, t.currentRowHeight), 1))
      else if rowDifference < 0 || c.rowNumber >= rowCount || rowDifference > row then (s[row := None], t)
      else
        var checkedRows := if t.maxRowHeight > 2 then (t.maxRowHeight - 2) * rowDifference else rowDifference;
        if ClosePrevious(s, row, checkedRows) then (s[row := None], t)
        else (s, t.(barcodeRow := c.rowNumber, currentRowHeight := 1))
  }

  /** Rows `row` .. `lastRow - 1` of the complete adjustment. */
  ghost function CompleteFrom(s: seq<Option<Codeword>>, row: int, lastRow: int, t: Tracker, rowCount: int): seq<Option<Codeword>>
    requires 0 <= row && lastRow <= |s|
    decreases lastRow - row
  {
    if row >= lastRow then s
    else
      var next := CompleteStep(s, row, t, rowCount);
      CompleteFrom(next.0, row + 1, lastRow, next.1, rowCount)
  }

  /**
   * The slots after `adjustCompleteIndicatorColumnRowNumbers` over codeword
   * rows `[firstRow, lastRow)`: renumbered, checked against the metadata,
   * then walked.
   */
  ghost function AdjustComplete(s: seq<Option<Codeword>>, m: BarcodeMetadata, isLeft: bool,
                                firstRow: int, lastRow: int): seq<Option<Codeword>>
    requires 0 <= firstRow && lastRow <= |s|
  {
    CompleteFrom(RemoveIncorrect(Renumbered(s), m, isLeft), firstRow, lastRow, START, m.RowCount())
  }

  /** `s'` is `s` with some slots of `[lo, hi)` cleared and nothing else changed. */
  ghost predicate ClearsOnlyIn(s: seq<Option<Codeword>>, s': seq<Option<Codeword>>, lo: int, hi: int) {
    |s'| == |s|
    && forall i :: 0 <= i < |s| ==> (s'[i].Some? ==> s'[i] == s[i]) && (s'[i] != s[i] ==> lo <= i < hi)
  }

  /** The survivors of `[lo, hi)` have non-decreasing row numbers, none below `-1`. */
  ghost predicate RowsAscend(s: seq<Option<Codeword>>, lo: int, hi: int) {
    (forall i :: lo <= i < hi && 0 <= i < |s| && s[i].Some? ==> -1 <= s[i].value.rowNumber)
    && forall i, j :: lo <= i < j < hi && 0 <= i && j < |s| && s[i].Some? && s[j].Some? ==>
                        s[i].value.rowNumber <= s[j].value.rowNumber
  }

  /**
   * The complete adjustment only clears slots of `[row, lastRow)`, and
   * the survivors it has passed keep ascending row numbers: a kept
   * codeword's row never lies below the counter `barcodeRow`, which
   * then moves up to it.
   */
  lemma {:induction false} CompleteFromProperties(s: seq<Option<Codeword>>, firstRow: int, row: int, lastRow: int,
                                                  t: Tracker, rowCount: int)
    requires 0 <= firstRow <= row && lastRow <= |s|
    requires -1 <= t.barcodeRow
    requires RowsAscend(s, firstRow, row)
    requires forall i :: firstRow <= i < row && i < |s| && s[i].Some? ==> s[i].value.rowNumber <= t.barcodeRow
    ensures ClearsOnlyIn(s, CompleteFrom(s, row, lastRow, t, rowCount), row, lastRow)
    ensures RowsAscend(CompleteFrom(s, row, lastRow, t, rowCount), firstRow, lastRow)
    decreases lastRow - row
  {
    if row < lastRow {
      var next := CompleteStep(s, row, t, rowCount);
      var s', t' := next.0, next.1;
      assert ClearsOnlyIn(s, s', row, row + 1);
      assert t.barcodeRow <= t'.barcodeRow;
      assert s'[row].Some? ==> t.barcodeRow <= s'[row].value.rowNumber == t'.barcodeRow;
      assert forall i :: firstRow <= i < row ==> s'[i] == s[i];
      CompleteFromProperties(s', firstRow, row + 1, lastRow, t', rowCount);
    }
  }

  /**
   * What `adjustCompleteIndicatorColumnRowNumbers` leaves: the renumbered
   * slots that `removeIncorrectCodewords` keeps, with some slots of
   * `[firstRow, lastRow)` cleared, and the survivors of that range in
   * ascending row order.
   */
  lemma AdjustCompleteProperties(s: seq<Option<Codeword>>, m: BarcodeMetadata, isLeft: bool, firstRow: int, lastRow: int)
    requires 0 <= firstRow && lastRow <= |s|
    ensures ClearsOnlyIn(RemoveIncorrect(Renumbered(s), m, isLeft), AdjustComplete(s, m, isLeft, firstRow, lastRow),
                         firstRow, lastRow)
    ensures RowsAscend(AdjustComplete(s, m, isLeft, firstRow, lastRow), firstRow, lastRow)
  {
    CompleteFromProperties(RemoveIncorrect(Renumbered(s), m, isLeft), firstRow, firstRow, lastRow, START, m.RowCount());
  }

  /**
   * A codeword the complete adjustment reaches with a negative row
   * difference, a row number of at least `rowCount`, or a row difference
   * above its own slot index (and a difference other than 0 or 1) is
   * cleared; one with difference 0 or 1 is kept.
   */
  lemma CompleteStepClears(s: seq<Option<Codeword>>, row: int, t: Tracker, rowCount: int)
    requires 0 <= row < |s| && s[row].Some?
    ensures var d := s[row].value.rowNumber - t.barcodeRow;
            (d == 0 || d == 1 ==> CompleteStep(s, row, t, rowCount).0 == s)
            && (d != 0 && d != 1 && (d < 0 || s[row].value.rowNumber >= rowCount || d > row) ==>
                  CompleteStep(s, row, t, rowCount).0 == s[row := None])
  {
  }

  /** One row of `adjustIncompleteIndicatorColumnRowNumbers`: the codeword is renumbered, then judged. */
  function IncompleteStep(s: seq<Option<Codeword>>, row: int, t: Tracker, rowCount: int): (seq<Option<Codeword>>, Tracker)
    requires 0 <= row < |s|
  {
    match s[row]
    case None => (s, t)
    case Some(c0) =>
      var c := IndicatorRow(c0);
      var s1 := s[row := Some(c)];
      var rowDifference := c.rowNumber - t.barcodeRow;
      if rowDifference == 0 then (s1, t.(currentRowHeight := t.currentRowHeight + 1))
      else if rowDifference == 1 then (s1, Tracker(c.rowNumber, Max(t.maxRowHeight, t.currentRowHeight), 1))
      else if c.rowNumber >= rowCount then (s[row := None], t)
      else (s1, t.(barcodeRow := c.rowNumber, currentRowHeight := 1))
  }

  /** Rows `row` .. `lastRow - 1` of the incomplete adjustment. */
  function IncompleteFrom(s: seq<Option<Codeword>>, row: int, lastRow: int, t: Tracker, rowCount: int): seq<Option<Codeword>>
    requires 0 <= row && lastRow <= |s|
    decreases lastRow - row
  {
    if row >= lastRow then s
    else
      var next := IncompleteStep(s, row, t, rowCount);
      IncompleteFrom(next.0, row + 1, lastRow, next.1, rowCount)
  }

  /**
   * A codeword the incomplete adjustment reaches is renumbered, and
   * cleared exactly when its new row differs from the counter
   * `barcodeRow` by neither 0 nor 1 and is at least `rowCount`.
   */
  lemma IncompleteStepClears(s: seq<Option<Codeword>>, row: int, t: Tracker, rowCount: int)
    requires 0 <= row < |s| && s[row].Some?
    ensures var c := IndicatorRow(s[row].value);
            var d := c.rowNumber - t.barcodeRow;
            (d != 0 && d != 1 && c.rowNumber >= rowCount ==> IncompleteStep(s, row, t, rowCount).0 == s[row := None])
            && (d == 0 || d == 1 || c.rowNumber < rowCount ==> IncompleteStep(s, row, t, rowCount).0 == s[row := Some(c)])
  {
  }

  /** The counters the incomplete adjustment holds when it reaches slot `i`, having started at `row`. */
  function TrackerAt(s: seq<Option<Codeword>>, row: int, i: int, t: Tracker, rowCount: int): Tracker
    requires 0 <= row && i <= |s|
    decreases i - row
  {
    if row >= i then t
    else
      var next := IncompleteStep(s, row, t, rowCount);
      TrackerAt(next.0, row + 1, i, next.1, rowCount)
  }

  /** Whether the incomplete adjustment, holding `t`, clears codeword `c`: its renumbered row is off by more than one step and past the row count. */
  predicate IncompleteClears(c: Codeword, t: Tracker, rowCount: int) {
    var d := IndicatorRow(c).rowNumber - t.barcodeRow;
    d != 0 && d != 1 && IndicatorRow(c).rowNumber >= rowCount
  }

  /**
   * The incomplete adjustment only touches slots of `[row, lastRow)`: it
   * renumbers each codeword there, and clears it exactly when, with the
   * counters it holds on reaching it, its new row differs from
   * `barcodeRow` by neither 0 nor 1 and is at least `rowCount`.
   */
  lemma {:induction false} IncompleteFromRenumbers(s: seq<Option<Codeword>>, row: int, lastRow: int, t: Tracker, rowCount: int)
    requires 0 <= row && lastRow <= |s|
    ensures |IncompleteFrom(s, row, lastRow, t, rowCount)| == |s|
    ensures forall i :: 0 <= i < |s| && !(row <= i < lastRow) ==> IncompleteFrom(s, row, lastRow, t, rowCount)[i] == s[i]
    ensures forall i :: row <= i < lastRow && IncompleteFrom(s, row, lastRow, t, rowCount)[i].Some? ==>
                          s[i].Some? && IncompleteFrom(s, row, lastRow, t, rowCount)[i].value == IndicatorRow(s[i].value)
    ensures forall i :: row <= i < lastRow && s[i].Some? ==>
                          (IncompleteFrom(s, row, lastRow, t, rowCount)[i].None?
                           <==> IncompleteClears(s[i].value, TrackerAt(s, row, i, t, rowCount), rowCount))
    decreases lastRow - row
  {
    if row < lastRow {
      var next := IncompleteStep(s, row, t, rowCount);
      IncompleteFromRenumbers(next.0, row + 1, lastRow, next.1, rowCount);
      assert forall i :: row < i < |s| ==> next.0[i] == s[i];
      forall i | row <= i < lastRow && s[i].Some?
        ensures IncompleteFrom(s, row, lastRow, t, rowCount)[i].None?
                <==> IncompleteClears(s[i].value, TrackerAt(s, row, i, t, rowCount), rowCount)
      {
        if i == row {
          IncompleteStepClears(s, row, t, rowCount);
        } else {
          assert TrackerAt(s, row, i, t, rowCount) == TrackerAt(next.0, row + 1, i, next.1, rowCount);
        }
      }
    }
  }

  /**
   * On slots whose codewords already carry their rows, as `getRowHeights`
   * leaves them, the incomplete adjustment only clears slots of
   * `[row, lastRow)`, and exactly the codewords whose row number is at
   * least `rowCount` and differs from the counter's by neither 0 nor 1.
   */
  lemma IncompleteFromClears(s: seq<Option<Codeword>>, row: int, lastRow: int, t: Tracker, rowCount: int)
    requires 0 <= row && lastRow <= |s| && RowsSet(s)
    ensures ClearsOnlyIn(s, IncompleteFrom(s, row, lastRow, t, rowCount), row, lastRow)
    ensures forall i :: 0 <= i < |s| && IncompleteFrom(s, row, lastRow, t, rowCount)[i] != s[i] ==>
                          s[i].value.rowNumber >= rowCount
    ensures forall i :: row <= i < lastRow && s[i].Some? ==>
                          (IncompleteFrom(s, row, lastRow, t, rowCount)[i] != s[i]
                           <==> IncompleteClears(s[i].value, TrackerAt(s, row, i, t, rowCount), rowCount))
  {
    IncompleteFromRenumbers(s, row, lastRow, t, rowCount);
  }

  /**
   * In `getRowHeights` the incomplete adjustment runs on the renumbered
   * codewords that `removeIncorrectCodewords` kept, so it only clears
   * slots of `[firstRow, lastRow)` whose row lies at or past the row count
   * and differs from the counter's by neither 0 nor 1, and all of those.
   */
  lemma RowHeightsAdjustmentClears(s: seq<Option<Codeword>>, m: BarcodeMetadata, isLeft: bool,
                                   firstRow: int, lastRow: int)
    requires 0 <= firstRow && lastRow <= |s|
    ensures var kept := RemoveIncorrect(Renumbered(s), m, isLeft);
            var after := IncompleteFrom(kept, firstRow, lastRow, START, m.RowCount());
            ClearsOnlyIn(kept, after, firstRow, lastRow)
            && (forall i :: 0 <= i < |s| && after[i] != kept[i] ==> kept[i].value.rowNumber >= m.RowCount())
            && forall i :: firstRow <= i < lastRow && kept[i].Some? ==>
                             (after[i] != kept[i]
                              <==> IncompleteClears(kept[i].value, TrackerAt(kept, firstRow, i, START, m.RowCount()), m.RowCount()))
  {
    RenumberedSetsRows(s);
    IncompleteFromClears(RemoveIncorrect(Renumbered(s), m, isLeft), firstRow, lastRow, START, m.RowCount());
  }

  // ----- the metadata vote -----

  /** `BarcodeValue`: the values set so far, in order; `getValue()[0]` is a most frequent one. */
  type BarcodeValue = seq<int>

  /** The candidate with the highest count among `votes[i..]` and `best`, the earliest on a tie. */
  function BestFrom(votes: BarcodeValue, i: int, best: int): (r: int)
    requires 0 <= i <= |votes| && best in votes
    ensures r in votes
    ensures multiset(votes)[best] <= multiset(votes)[r]
    ensures forall j :: i <= j < |votes| ==> multiset(votes)[votes[j]] <= multiset(votes)[r]
    decreases |votes| - i
  {
    if i == |votes| then best
    else if multiset(votes)[votes[i]] > multiset(votes)[best] then BestFrom(votes, i + 1, votes[i])
    else BestFrom(votes, i + 1, best)
  }

  /** `getValue()[0]`, if any value was set: a value set at least as often as every other. */
  function MostFrequent(votes: BarcodeValue): (r: Option<int>)
    ensures r.None? <==> |votes| == 0
    ensures r.Some? ==> r.value in votes && forall u :: u in votes ==> multiset(votes)[u] <= multiset(votes)[r.value]
  {
    if |votes| == 0 then None else Some(BestFrom(votes, 1, votes[0]))
  }

  /** `v` was voted, at least as often as any other value. */
  ghost predicate Elected(votes: BarcodeValue, v: int) {
    v in votes && forall u :: u in votes ==> multiset(votes)[u] <= multiset(votes)[v]
  }

  /** The four `BarcodeValue`s `getBarcodeMetadata` fills. */
  datatype Tally = Tally(columnCount: BarcodeValue, rowCountUpperPart: BarcodeValue,
                         rowCountLowerPart: BarcodeValue, ecLevel: BarcodeValue)

  /** The votes one slot casts. */
  function Vote(t: Tally, slot: Option<Codeword>, isLeft: bool): Tally {
    match slot
    case None => t
    case Some(c) =>
      var rowIndicatorValue := TruncRem(c.value, 30);
      match RowKind(c.rowNumber, isLeft)
      case 0 => t.(rowCountUpperPart := t.rowCountUpperPart + [rowIndicatorValue * 3 + 1])
      case 1 => t.(ecLevel := t.ecLevel + [TruncDiv(rowIndicatorValue, 3)],
                   rowCountLowerPart := t.rowCountLowerPart + [TruncRem(rowIndicatorValue, 3)])
      case 2 => t.(columnCount := t.columnCount + [rowIndicatorValue + 1])
      case _ => t
  }

  /** The votes of all slots, in slot order. */
  function TallyOf(s: seq<Option<Codeword>>, isLeft: bool): Tally
    decreases |s|
  {
    if |s| == 0 then Tally([], [], [], [])
    else Vote(TallyOf(s[..|s| - 1], isLeft), s[|s| - 1], isLeft)
  }

  /** The metadata `getBarcodeMetadata` finds in the slots `s`, if any. */
  function MetadataOf(s: seq<Option<Codeword>>, isLeft: bool): (r: Option<BarcodeMetadata>)
    ensures r.Some? ==> r.value.columnCount >= 1
                        && MIN_ROWS_IN_BARCODE <= r.value.RowCount() <= MAX_ROWS_IN_BARCODE
    ensures r.Some? ==> Elected(TallyOf(s, isLeft).columnCount, r.value.columnCount)
                        && Elected(TallyOf(s, isLeft).rowCountUpperPart, r.value.rowCountUpperPart)
                        && Elected(TallyOf(s, isLeft).rowCountLowerPart, r.value.rowCountLowerPart)
                        && Elected(TallyOf(s, isLeft).ecLevel, r.value.errorCorrectionLevel)
  {
    var t := TallyOf(s, isLeft);
    var columnCount := MostFrequent(t.columnCount);
    var upper := MostFrequent(t.rowCountUpperPart);
    var lower := MostFrequent(t.rowCountLowerPart);
    var ecLevel := MostFrequent(t.ecLevel);
    if columnCount.None? || upper.None? || lower.None? || ecLevel.None? then None
    else if columnCount.value < 1
            || upper.value + lower.value < MIN_ROWS_IN_BARCODE
            || upper.value + lower.value > MAX_ROWS_IN_BARCODE then None
    else Some(BarcodeMetadata(columnCount.value, upper.value, lower.value, ecLevel.value))
  }

  /** Slot `i` holds a codeword whose row is of kind `k`. */
  predicate OfKind(s: seq<Option<Codeword>>, isLeft: bool, i: int, k: int)
    requires 0 <= i < |s|
  {
    s[i].Some? && RowKind(s[i].value.rowNumber, isLeft) == k
  }

  /**
   * Every vote comes from a codeword of the matching kind: a column
   * count `v%30 + 1` from a kind-2 row, an upper row-count part
   * `3*(v%30) + 1` from a kind-0 row, and the error-correction level
   * and the lower part from one kind-1 row.
   */
  lemma {:induction false} TallyFromCodewords(s: seq<Option<Codeword>>, isLeft: bool)
    ensures forall u :: u in TallyOf(s, isLeft).columnCount ==>
              exists i :: 0 <= i < |s| && OfKind(s, isLeft, i, 2) && TruncRem(s[i].value.value, 30) + 1 == u
    ensures forall u :: u in TallyOf(s, isLeft).rowCountUpperPart ==>
              exists i :: 0 <= i < |s| && OfKind(s, isLeft, i, 0) && TruncRem(s[i].value.value, 30) * 3 + 1 == u
    ensures forall u :: u in TallyOf(s, isLeft).rowCountLowerPart ==>
              exists i :: 0 <= i < |s| && OfKind(s, isLeft, i, 1) && TruncRem(TruncRem(s[i].value.value, 30), 3) == u
    ensures forall u :: u in TallyOf(s, isLeft).ecLevel ==>
              exists i :: 0 <= i < |s| && OfKind(s, isLeft, i, 1) && TruncDiv(TruncRem(s[i].value.value, 30), 3) == u
    ensures (|TallyOf(s, isLeft).rowCountLowerPart| == 0) == (|TallyOf(s, isLeft).ecLevel| == 0)
    decreases |s|
  {
    if |s| > 0 {
      var p := s[..|s| - 1];
      TallyFromCodewords(p, isLeft);
      assert forall i :: 0 <= i < |p| ==> p[i] == s[i];
      assert forall i :: 0 <= i < |p| && OfKind(p, isLeft, i, 0) ==> OfKind(s, isLeft, i, 0);
      assert forall i :: 0 <= i < |p| && OfKind(p, isLeft, i, 1) ==> OfKind(s, isLeft, i, 1);
      assert forall i :: 0 <= i < |p| && OfKind(p, isLeft, i, 2) ==> OfKind(s, isLeft, i, 2);
    }
  }

  /**
   * The metadata found is made of votes: each of its four fields was
   * cast by some codeword of the matching kind.  In particular, there is
   * none unless each of the three kinds occurs in the column.
   */
  lemma MetadataFromCodewords(s: seq<Option<Codeword>>, isLeft: bool)
    requires MetadataOf(s, isLeft).Some?
    ensures var m := MetadataOf(s, isLeft).value;
            (exists i :: 0 <= i < |s| && OfKind(s, isLeft, i, 2) && TruncRem(s[i].value.value, 30) + 1 == m.columnCount)
            && (exists i :: 0 <= i < |s| && OfKind(s, isLeft, i, 0)
                            && TruncRem(s[i].value.value, 30) * 3 + 1 == m.rowCountUpperPart)
            && (exists i :: 0 <= i < |s| && OfKind(s, isLeft, i, 1)
                            && TruncRem(TruncRem(s[i].value.value, 30), 3) == m.rowCountLowerPart)
            && (exists i :: 0 <= i < |s| && OfKind(s, isLeft, i, 1)
                            && TruncDiv(TruncRem(s[i].value.value, 30), 3) == m.errorCorrectionLevel)
  {
    TallyFromCodewords(s, isLeft);
  }

  // ----- getRowHeights -----

  /** How many slots of `s` hold a codeword with row number `row`. */
  function CountRow(s: seq<Option<Codeword>>, row: int): nat
    decreases |s|
  {
    if |s| == 0 then 0
    else CountRow(s[..|s| - 1], row) + (if s[|s| - 1].Some? && s[|s| - 1].value.rowNumber == row then 1 else 0)
  }

  /** The slots of the column: one per image row of the bounding box. */
  class RowIndicatorColumn {
    const codewords: array<Option<Codeword>>
    const isLeft: bool

    /** A column over the given slots (filling them is the column's collaborator's work). */
    constructor(initial: seq<Option<Codeword>>, isLeft: bool)
      ensures codewords[..] == initial && this.isLeft == isLeft && fresh(codewords)
    {
      codewords := new Option<Codeword>[|initial|](i requires 0 <= i < |initial| => initial[i]);
      this.isLeft := isLeft;
      new;
      assert codewords[..] == initial by {
        forall i | 0 <= i < |initial|
          ensures codewords[i] == initial[i]
        {
        }
      }
    }

    /** `setRowNumbers`: renumbers every codeword of the column in place. */
    method SetRowNumbers()
      modifies codewords
      ensures codewords[..] == Renumbered(old(codewords[..]))
    {
      ghost var s := codewords[..];
      for k := 0 to codewords.Length
        invariant forall i :: 0 <= i < k ==> codewords[i] == Renumbered(s)[i]
        invariant forall i :: k <= i < codewords.Length ==> codewords[i] == s[i]
      {
        if codewords[k].Some? {
          codewords[k] := Some(IndicatorRow(codewords[k].value));
        }
      }
      assert forall i :: 0 <= i < codewords.Length ==> codewords[..][i] == Renumbered(s)[i];
    }

    /**
     * The inner loop of `adjustCompleteIndicatorColumnRowNumbers`: look up
     * to `checkedRows` slots back from `codewordsRow` for a codeword.
     */
    method ClosePreviousCodeword(codewordsRow: int, checkedRows: int) returns (closePreviousCodewordFound: bool)
      requires 0 <= codewordsRow < codewords.Length
      ensures closePreviousCodewordFound == ClosePrevious(codewords[..], codewordsRow, checkedRows)
    {
      closePreviousCodewordFound := checkedRows >= codewordsRow;
      var i := 1;
      while i <= checkedRows && !closePreviousCodewordFound
        invariant 1 <= i
        invariant !closePreviousCodewordFound ==>
                    checkedRows < codewordsRow && (i == 1 || i <= checkedRows + 1)
                    && forall j :: codewordsRow - i < j < codewordsRow ==> codewords[j].None?
        invariant closePreviousCodewordFound ==> ClosePrevious(codewords[..], codewordsRow, checkedRows)
        decreases checkedRows + 1 - i
      {
        closePreviousCodewordFound := codewords[codewordsRow - i].Some?;
        i := i + 1;
      }
    }

    /**
     * `adjustCompleteIndicatorColumnRowNumbers`: renumber the codewords,
     * remove those that disagree with the metadata, then walk the codeword rows
     * `[firstRow, lastRow)` clearing codewords whose row number does not
     * fit the rows above.
     */
    method AdjustCompleteIndicatorColumnRowNumbers(m: BarcodeMetadata, firstRow: int, lastRow: int)
      requires 0 <= firstRow && lastRow <= codewords.Length
      modifies codewords
      ensures codewords[..] == AdjustComplete(old(codewords[..]), m, isLeft, firstRow, lastRow)
    {
      SetRowNumbers();
      RemoveIncorrectCodewords(codewords, m, isLeft);
      ghost var start := codewords[..];
      var barcodeRow := -1;
      var maxRowHeight := 1;
      var currentRowHeight := 0;
      var codewordsRow := firstRow;
      while codewordsRow < lastRow
        invariant firstRow <= codewordsRow
        invariant CompleteFrom(codewords[..], codewordsRow, lastRow,
                               Tracker(barcodeRow, maxRowHeight, currentRowHeight), m.RowCount())
                  == CompleteFrom(start, firstRow, lastRow, START, m.RowCount())
        decreases lastRow - codewordsRow
      {
        ghost var before := codewords[..];
        ghost var t := Tracker(barcodeRow, maxRowHeight, currentRowHeight);
        if codewords[codewordsRow].Some? {
          var codeword := codewords[codewordsRow].value;
          var rowDifference := codeword.rowNumber - barcodeRow;
          if rowDifference == 0 {
            currentRowHeight := currentRowHeight + 1;
          } else if rowDifference == 1 {
            maxRowHeight := Max(maxRowHeight, currentRowHeight);
            currentRowHeight := 1;
            barcodeRow := codeword.rowNumber;
          } else if rowDifference < 0 || codeword.rowNumber >= m.RowCount() || rowDifference > codewordsRow {
            codewords[codewordsRow] := None;
          } else {
            var checkedRows;
            if maxRowHeight > 2 {
              checkedRows := (maxRowHeight - 2) * rowDifference;
            } else {
              checkedRows := rowDifference;
            }
            var closePreviousCodewordFound := ClosePreviousCodeword(codewordsRow, checkedRows);
            if closePreviousCodewordFound {
              codewords[codewordsRow] := None;
            } else {
              barcodeRow := codeword.rowNumber;
              currentRowHeight := 1;
            }
          }
        }
        assert (codewords[..], Tracker(barcodeRow, maxRowHeight, currentRowHeight))
               == CompleteStep(before, codewordsRow, t, m.RowCount());
        codewordsRow := codewordsRow + 1;
      }
    }

    /**
     * `adjustIncompleteIndicatorColumnRowNumbers`: walk the codeword rows
     * `[firstRow, lastRow)`, renumbering each codeword and clearing those
     * that start a new row past the row count.
     */
    method AdjustIncompleteIndicatorColumnRowNumbers(m: BarcodeMetadata, firstRow: int, lastRow: int)
      requires 0 <= firstRow && lastRow <= codewords.Length
      modifies codewords
      ensures codewords[..] == IncompleteFrom(old(codewords[..]), firstRow, lastRow, START, m.RowCount())
    {
      ghost var start := codewords[..];
      var barcodeRow := -1;
      var maxRowHeight := 1;
      var currentRowHeight := 0;
      var codewordsRow := firstRow;
      while codewordsRow < lastRow
        invariant firstRow <= codewordsRow
        invariant IncompleteFrom(codewords[..], codewordsRow, lastRow,
                                 Tracker(barcodeRow, maxRowHeight, currentRowHeight), m.RowCount())
                  == IncompleteFrom(start, firstRow, lastRow, START, m.RowCount())
        decreases lastRow - codewordsRow
      {
        ghost var before := codewords[..];
        ghost var t := Tracker(barcodeRow, maxRowHeight, currentRowHeight);
        if codewords[codewordsRow].Some? {
          var codeword := IndicatorRow(codewords[codewordsRow].value);
          codewords[codewordsRow] := Some(codeword);
          assert codewords[..] == before[codewordsRow := Some(codeword)];
          var rowDifference := codeword.rowNumber - barcodeRow;
          if rowDifference == 0 {
            currentRowHeight := currentRowHeight + 1;
          } else if rowDifference == 1 {
            maxRowHeight := Max(maxRowHeight, currentRowHeight);
            currentRowHeight := 1;
            barcodeRow := codeword.rowNumber;
          } else if codeword.rowNumber >= m.RowCount() {
            codewords[codewordsRow] := None;
            assert codewords[..] == before[codewordsRow := None];
          } else {
            barcodeRow := codeword.rowNumber;
            currentRowHeight := 1;
          }
        }
        assert (codewords[..], Tracker(barcodeRow, maxRowHeight, currentRowHeight))
               == IncompleteStep(before, codewordsRow, t, m.RowCount());
        codewordsRow := codewordsRow + 1;
      }
    }

    /**
     * The loop of `getBarcodeMetadata`: renumber every codeword in place
     * and tally its votes, in slot order.
     */
    method TallyVotes() returns (t: Tally)
      modifies codewords
      ensures codewords[..] == Renumbered(old(codewords[..]))
      ensures t == TallyOf(codewords[..], isLeft)
    {
      ghost var s := codewords[..];
      ghost var rs := Renumbered(s);
      var barcodeColumnCount: BarcodeValue := [];
      var barcodeRowCountUpperPart: BarcodeValue := [];
      var barcodeRowCountLowerPart: BarcodeValue := [];
      var barcodeECLevel: BarcodeValue := [];
      for k := 0 to codewords.Length
        invariant forall i :: 0 <= i < k ==> codewords[i] == rs[i]
        invariant forall i :: k <= i < codewords.Length ==> codewords[i] == s[i]
        invariant TallyOf(rs[..k], isLeft)
                  == Tally(barcodeColumnCount, barcodeRowCountUpperPart, barcodeRowCountLowerPart, barcodeECLevel)
      {
        assert rs[..k + 1][..k] == rs[..k];
        if codewords[k].Some? {
          var codeword := IndicatorRow(codewords[k].value);
          codewords[k] := Some(codeword);
          var rowIndicatorValue := TruncRem(codeword.value, 30);
          var codewordRowNumber := codeword.rowNumber;
          if !isLeft {
            codewordRowNumber := codewordRowNumber + 2;
          }
          match TruncRem(codewordRowNumber, 3)
          case 0 =>
            barcodeRowCountUpperPart := barcodeRowCountUpperPart + [rowIndicatorValue * 3 + 1];
          case 1 =>
            barcodeECLevel := barcodeECLevel + [TruncDiv(rowIndicatorValue, 3)];
            barcodeRowCountLowerPart := barcodeRowCountLowerPart + [TruncRem(rowIndicatorValue, 3)];
          case 2 =>
            barcodeColumnCount := barcodeColumnCount + [rowIndicatorValue + 1];
          case _ =>
        }
      }
      assert rs[..codewords.Length] == rs;
      assert codewords[..] == rs;
      t := Tally(barcodeColumnCount, barcodeRowCountUpperPart, barcodeRowCountLowerPart, barcodeECLevel);
    }

    /**
     * `getBarcodeMetadata`: renumber every codeword and tally its votes;
     * if the metadata they elect is complete and plausible, remove the
     * codewords that disagree with it.
     */
    method GetBarcodeMetadata() returns (r: Option<BarcodeMetadata>)
      modifies codewords
      ensures r == MetadataOf(Renumbered(old(codewords[..])), isLeft)
      ensures r.Some? ==> codewords[..] == RemoveIncorrect(Renumbered(old(codewords[..])), r.value, isLeft)
      ensures r.None? ==> codewords[..] == Renumbered(old(codewords[..]))
    {
      var tally := TallyVotes();
      var barcodeColumnCount, barcodeRowCountUpperPart, barcodeRowCountLowerPart, barcodeECLevel :=
        tally.columnCount, tally.rowCountUpperPart, tally.rowCountLowerPart, tally.ecLevel;
      var columnCount := MostFrequent(barcodeColumnCount);
      var upper := MostFrequent(barcodeRowCountUpperPart);
      var lower := MostFrequent(barcodeRowCountLowerPart);
      var ecLevel := MostFrequent(barcodeECLevel);
      if columnCount.None? || upper.None? || lower.None? || ecLevel.None?
         || columnCount.value < 1
         || upper.value + lower.value < MIN_ROWS_IN_BARCODE
         || upper.value + lower.value > MAX_ROWS_IN_BARCODE {
        return None;
      }
      var barcodeMetadata := BarcodeMetadata(columnCount.value, upper.value, lower.value, ecLevel.value);
      RemoveIncorrectCodewords(codewords, barcodeMetadata, isLeft);
      return Some(barcodeMetadata);
    }

    /** The histogram loop of `getRowHeights`: codewords per row `0 .. rowCount - 1`, other rows ignored. */
    method RowHistogram(rowCount: nat) returns (heights: seq<int>)
      ensures |heights| == rowCount
      ensures forall row :: 0 <= row < rowCount ==> heights[row] == CountRow(codewords[..], row)
    {
      var result := new int[rowCount](_ => 0);
      for k := 0 to codewords.Length
        invariant forall row :: 0 <= row < result.Length ==> result[row] == CountRow(codewords[..k], row)
      {
        assert codewords[..k + 1][..k] == codewords[..k];
        if codewords[k].Some? {
          var rowNumber := codewords[k].value.rowNumber;
          if 0 <= rowNumber < result.Length {
            result[rowNumber] := result[rowNumber] + 1;
          }
        }
      }
      assert codewords[..codewords.Length] == codewords[..];
      heights := result[..];
    }

    /**
     * `getRowHeights`: with the metadata found and the incomplete
     * adjustment applied, the number of codewords on each row
     * `0 .. rowCount - 1`; codewords on other rows are ignored.
     */
    method GetRowHeights(firstRow: int, lastRow: int) returns (r: Option<seq<int>>)
      requires 0 <= firstRow && lastRow <= codewords.Length
      modifies codewords
      ensures r.None? <==> MetadataOf(Renumbered(old(codewords[..])), isLeft).None?
      ensures r.None? ==> codewords[..] == Renumbered(old(codewords[..]))
      ensures r.Some? ==>
                var m := MetadataOf(Renumbered(old(codewords[..])), isLeft).value;
                codewords[..] == IncompleteFrom(RemoveIncorrect(Renumbered(old(codewords[..])), m, isLeft),
                                                firstRow, lastRow, START, m.RowCount())
                && |r.value| == m.RowCount()
                && forall row :: 0 <= row < |r.value| ==> r.value[row] == CountRow(codewords[..], row)
    {
      var barcodeMetadata := GetBarcodeMetadata();
      if barcodeMetadata.None? {
        return None;
      }
      AdjustIncompleteIndicatorColumnRowNumbers(barcodeMetadata.value, firstRow, lastRow);
      var result := RowHistogram(barcodeMetadata.value.RowCount());
      return Some(result);
    }

    /** `isLeft`. */
    function IsLeft(): bool {
      isLeft
    }
  }
}
