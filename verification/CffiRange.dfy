/** The range text of the C interface. Unlike the inspection binding it never quotes a sheet name:
    the formatter writes the name as it is and the parser cuts at the first `!`. */
module CffiRange {
  import opened Options
  import opened Columns
  import opened Addresses

  datatype RangeError =
    | NotOneBased | NotOrdered | RowPastGrid | ColumnPastGrid
    | Empty | MissingColumn | MissingRow | InvalidRowChar | TrailingCharacters
    | ColumnOutOfRange | RowOutOfRange

  datatype RangeAddress = RangeAddress(sheet: string, startRow: nat, startCol: nat, endRow: nat, endCol: nat)

  /** `validate_cffi_range`. */
  function Validated(a: RangeAddress): Result<RangeAddress, RangeError> {
    if a.startRow == 0 || a.startCol == 0 || a.endRow == 0 || a.endCol == 0 then Err(NotOneBased)
    else if a.startRow > a.endRow || a.startCol > a.endCol then Err(NotOrdered)
    else if a.endRow > MAX_ROW then Err(RowPastGrid)
    else if a.endCol > MAX_COL then Err(ColumnPastGrid)
    else Ok(a)
  }

  /** `fz_common_format_range_a1`. */
  function Format(a: RangeAddress): Result<string, RangeError> {
    match Validated(a)
    case Err(e) => Err(e)
    case Ok(_) =>
      match (LettersInGrid(a.startCol), LettersInGrid(a.endCol))
      case (Some(startCol), Some(endCol)) =>
        Ok((if a.sheet == "" then "" else a.sheet + "!")
           + (startCol + Decimal(a.startRow))
           + if a.startRow != a.endRow || a.startCol != a.endCol then ":" + (endCol + Decimal(a.endRow)) else "")
      case _ => Err(ColumnOutOfRange)
  }

  function DigitCount(s: string): (n: nat)
    ensures n <= |s| && AllDigits(s[..n])
  {
    if s != "" && IsDigit(s[0]) then
      var n := 1 + DigitCount(s[1..]);
      assert s[..n] == [s[0]] + s[1..][..n - 1];
      n
    else 0
  }

  /** `parse_a1_components`: row and column of one A1 reference, with optional `$` marks. */
  function ParseA1(input: string): Result<(nat, nat), RangeError> {
    if input == "" then Err(Empty)
    else
      var afterMark := if input[0] == '$' then input[1..] else input;
      var letters := afterMark[..LetterCount(afterMark)];
      var behind := afterMark[LetterCount(afterMark)..];
      if letters == "" then Err(RangeError.MissingColumn)
      else
        var rest := if behind != "" && behind[0] == '$' then behind[1..] else behind;
        var digits := rest[..DigitCount(rest)];
        if rest == "" then Err(RangeError.MissingRow)
        else if digits == "" then Err(InvalidRowChar)
        else if digits != rest then Err(TrailingCharacters)
        else if ColumnInGrid(letters).None? then Err(ColumnOutOfRange)
        else if !(1 <= Number(digits) <= MAX_ROW) then Err(RowOutOfRange)
        else Ok((Number(digits), ColumnInGrid(letters).value))
  }

  /** `RangeAddress::new`. */
  function NewRange(a: RangeAddress): Result<RangeAddress, RangeError> {
    if a.startRow == 0 || a.startCol == 0 || a.endRow == 0 || a.endCol == 0 then Err(NotOneBased)
    else if a.startRow > a.endRow || a.startCol > a.endCol then Err(NotOrdered)
    else Ok(a)
  }

  /** The text in front of the first `!`, and the text behind it. */
  function SplitSheetName(input: string): (string, string) {
    var n := IndexOfChar(input, '!');
    if n < |input| then (input[..n], input[n + 1..]) else ("", input)
  }

  /** `fz_common_parse_range_a1`. */
  function Parse(input: string): Result<RangeAddress, RangeError> {
    var (sheet, rest) := SplitSheetName(input);
    var (start, end) := SplitColon(rest);
    match ParseA1(start)
    case Err(e) => Err(e)
    case Ok((startRow, startCol)) =>
      match ParseA1(end)
      case Err(e) => Err(e)
      case Ok((endRow, endCol)) =>
        match NewRange(RangeAddress(sheet, startRow, startCol, endRow, endCol))
        case Err(e) => Err(e)
        case Ok(a) => Validated(a)
  }

  function CellLabel(row: nat, col: nat): string {
    Letters(col) + Decimal(row)
  }

  lemma {:induction false} AllCounted(digits: string)
    requires AllDigits(digits)
    ensures DigitCount(digits) == |digits|
  {
    if digits != "" {
      AllCounted(digits[1..]);
    }
  }

  lemma ParseA1OfLabel(row: nat, col: nat)
    requires RowInGrid(row) && ColInGrid(col)
    ensures ParseA1(CellLabel(row, col)) == Ok((row, col))
  {
    hide Letters, Decimal, Number, ColumnInGrid, LetterCount, DigitCount;
    var letters, digits := Letters(col), Decimal(row);
    LettersUpper(col);
    LettersBijection(col, "");
    ColumnRoundTrip(col);
    NumberOfDecimal(row);
    LetterCountOf(letters, digits);
    AllCounted(digits);
    var s := CellLabel(row, col);
    assert s[0] == letters[0] && IsUpper(s[0]);
    assert s[..|letters|] == letters && s[|letters|..] == digits;
    assert digits[..|digits|] == digits && IsDigit(digits[0]);
  }

  lemma LabelChars(row: nat, col: nat)
    ensures AllEndpointChars(CellLabel(row, col))
  {
    EndpointTextChars(Some(row), Some(col));
  }

  /** The reference part splits back into its two labels; a single cell is both. */
  lemma SplitColonOfLabels(a: RangeAddress)
    ensures var start, end := CellLabel(a.startRow, a.startCol), CellLabel(a.endRow, a.endCol);
            && SplitColon(start + ":" + end) == (start, end)
            && SplitColon(start) == (start, start)
            && '!' !in start + ":" + end && '!' !in start
  {
    hide CellLabel, SplitColon;
    var start, end := CellLabel(a.startRow, a.startCol), CellLabel(a.endRow, a.endCol);
    LabelChars(a.startRow, a.startCol);
    LabelChars(a.endRow, a.endCol);
    EndpointCharsArePlain(start);
    EndpointCharsArePlain(end);
    SplitColonOf(start, end);
    NoColon(start);
  }

  lemma NoColon(s: string)
    requires ':' !in s
    ensures SplitColon(s) == (s, s)
  {
  }

  lemma SplitSheetNameOf(sheet: string, reference: string)
    requires '!' !in sheet && '!' !in reference
    ensures SplitSheetName(sheet + "!" + reference) == (sheet, reference)
    ensures SplitSheetName(reference) == ("", reference)
  {
    var s := sheet + "!" + reference;
    FirstIndex(s, '!', |sheet|) by {
      assert s[..|sheet|] == sheet;
    }
    assert s[..|sheet|] == sheet && s[|sheet| + 1..] == reference;
  }

  lemma SplitSheetNameHasNoBang(input: string)
    ensures '!' !in SplitSheetName(input).0
  {
  }

  function Reference(a: RangeAddress): string {
    var start, end := CellLabel(a.startRow, a.startCol), CellLabel(a.endRow, a.endCol);
    if a.startRow != a.endRow || a.startCol != a.endCol then start + ":" + end else start
  }

  lemma FormatOf(a: RangeAddress)
    requires Validated(a).Ok?
    ensures Format(a) == Ok(if a.sheet == "" then Reference(a) else a.sheet + "!" + Reference(a))
  {
    hide Letters, Decimal;
    var start, end := CellLabel(a.startRow, a.startCol), CellLabel(a.endRow, a.endCol);
    assert a.sheet + "!" + start + (":" + end) == a.sheet + "!" + (start + ":" + end);
    assert "" + start + (":" + end) == start + ":" + end;
    assert "" + start + "" == start && a.sheet + "!" + start + "" == a.sheet + "!" + start;
  }

  /** The formatter accepts exactly the ordered ranges of the grid, and parsing its text gives the
      range back exactly when the sheet name holds no `!`. */
  lemma RangeRoundTrip(a: RangeAddress)
    ensures Format(a).Ok? <==>
            RowInGrid(a.startRow) && RowInGrid(a.endRow) && ColInGrid(a.startCol) && ColInGrid(a.endCol)
            && a.startRow <= a.endRow && a.startCol <= a.endCol
    ensures Format(a).Ok? ==> (Parse(Format(a).value) == Ok(a) <==> '!' !in a.sheet)
  {
    if Validated(a).Ok? {
      FormatOf(a);
      hide Format, SplitColon, SplitSheetName, ParseA1, CellLabel;
      SplitColonOfLabels(a);
      ParseA1OfLabel(a.startRow, a.startCol);
      ParseA1OfLabel(a.endRow, a.endCol);
      if '!' !in a.sheet {
        SplitSheetNameOf(a.sheet, Reference(a));
      } else {
        SplitSheetNameHasNoBang(Format(a).value);
      }
    }
  }
}
