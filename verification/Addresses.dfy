/** Sheet-qualified A1 text: how the common crate prints cell and area addresses and how the Python
    inspection binding reads them back.

    Strings are sequences of characters here. The source scans UTF-8 bytes, but only for ASCII
    marks, which never occur inside a longer character. */
module Addresses {
  import opened Options
  import opened Columns

  const MAX_ROW: nat := 1_048_576

  // ----- Decimal numbers -----

  predicate IsDigit(c: char) {
    '0' <= c <= '9'
  }

  predicate AllDigits(s: string) {
    forall i :: 0 <= i < |s| ==> IsDigit(s[i])
  }

  function Decimal(n: nat): string {
    if n < 10 then ['0' + n as char] else Decimal(n / 10) + ['0' + (n % 10) as char]
  }

  function Number(s: string): nat
    requires AllDigits(s)
  {
    if s == "" then 0 else 10 * Number(s[..|s| - 1]) + (s[|s| - 1] - '0') as nat
  }

  lemma {:induction false} NumberOfDecimal(n: nat)
    ensures Decimal(n) != "" && AllDigits(Decimal(n)) && Number(Decimal(n)) == n
  {
    if n >= 10 {
      NumberOfDecimal(n / 10);
      assert Decimal(n)[..|Decimal(n)| - 1] == Decimal(n / 10);
    } else {
      assert Decimal(n)[..0] == "";
    }
  }

  // ----- Sheet names -----

  const APOSTROPHE: char := '\''

  /** The ASCII punctuation `a1_sheet_name_needs_quoting` lists: all of it but the underscore. */
  predicate IsQuoteMark(c: char) {
    || ' ' <= c <= '/'
    || ':' <= c <= '@'
    || ('[' <= c <= '`' && c != '_')
    || '{' <= c <= '~'
  }

  /** `str::to_uppercase` as far as it can produce the ASCII keywords below: besides a-z, only
      the dotless i and the long s map to a single ASCII letter. */
  function Upper(c: char): char {
    if 'a' <= c <= 'z' then c - 'a' + 'A'
    else if c == '\U{131}' then 'I'
    else if c == '\U{17F}' then 'S'
    else c
  }

  function UpperAll(s: string): string {
    seq(|s|, i requires 0 <= i < |s| => Upper(s[i]))
  }

  predicate NeedsQuoting(name: string) {
    && name != ""
    && (|| IsDigit(name[0])
        || (exists i :: 0 <= i < |name| && IsQuoteMark(name[i]))
        || UpperAll(name) in ["TRUE", "FALSE", "NULL", "REF", "DIV", "NAME", "NUM", "VALUE", "N/A"])
  }

  /** Every apostrophe doubled. */
  function Doubled(s: string): string {
    if s == "" then ""
    else if s[0] == APOSTROPHE then "''" + Doubled(s[1..])
    else [s[0]] + Doubled(s[1..])
  }

  /** `str::replace("''", "'")`: pairs are taken from the left and do not overlap. */
  function Undoubled(s: string): string {
    if s == "" then ""
    else if |s| >= 2 && s[0] == APOSTROPHE && s[1] == APOSTROPHE then "'" + Undoubled(s[2..])
    else [s[0]] + Undoubled(s[1..])
  }

  lemma {:induction false} UndoubledDoubled(s: string)
    ensures Undoubled(Doubled(s)) == s
  {
    if s != "" {
      UndoubledDoubled(s[1..]);
      if s[0] == APOSTROPHE {
        assert Doubled(s)[2..] == Doubled(s[1..]);
      } else {
        assert Doubled(s)[1..] == Doubled(s[1..]);
      }
    }
  }

  function SheetText(name: string): string {
    if NeedsQuoting(name) then "'" + Doubled(name) + "'" else name
  }

  // ----- Splitting at the sheet -----

  datatype AddressError =
    | UnterminatedQuote | NotQualified | EmptyPart
    | InvalidEndpoint | InvalidColumn | InvalidRow
    | NotOneCell | MissingRow | MissingColumn | OutOfGrid | InvalidBounds

  /** The scanner's state at the end, from index `i` on: whether a quote is open, and the last `!`
      seen outside quotes. */
  function Scan(s: string, i: nat, quoted: bool, split: Option<nat>): (bool, Option<nat>)
    decreases |s| - i
  {
    if i >= |s| then (quoted, split)
    else if s[i] == APOSTROPHE then
      if quoted && i + 1 < |s| && s[i + 1] == APOSTROPHE then Scan(s, i + 2, quoted, split)
      else Scan(s, i + 1, !quoted, split)
    else if s[i] == '!' && !quoted then Scan(s, i + 1, quoted, Some(i))
    else Scan(s, i + 1, quoted, split)
  }

  function Unquoted(raw: string): string {
    if |raw| >= 2 && raw[0] == APOSTROPHE && raw[|raw| - 1] == APOSTROPHE then Undoubled(raw[1..|raw| - 1]) else raw
  }

  lemma {:induction false} ScanSplitBound(s: string, i: nat, quoted: bool, split: Option<nat>)
    requires split.Some? ==> split.value < |s|
    ensures Scan(s, i, quoted, split).1.Some? ==> Scan(s, i, quoted, split).1.value < |s|
    decreases |s| - i
  {
    if i < |s| {
      if s[i] == APOSTROPHE {
        if quoted && i + 1 < |s| && s[i + 1] == APOSTROPHE {
          ScanSplitBound(s, i + 2, quoted, split);
        } else {
          ScanSplitBound(s, i + 1, !quoted, split);
        }
      } else {
        ScanSplitBound(s, i + 1, quoted, if s[i] == '!' && !quoted then Some(i) else split);
      }
    }
  }

  function Split(s: string): Result<(string, string), AddressError> {
    var (quoted, split) := Scan(s, 0, false, None);
    ScanSplitBound(s, 0, false, None);
    if quoted then Err(UnterminatedQuote)
    else if split.None? then Err(NotQualified)
    else
      var raw, reference := s[..split.value], s[split.value + 1..];
      if raw == "" || reference == "" then Err(EmptyPart) else Ok((Unquoted(raw), reference))
  }

  method SplitSheet(input: string) returns (r: Result<(string, string), AddressError>)
    ensures r == Split(input)
  {
    var quoted := false;
    var split: Option<nat> := None;
    var index: nat := 0;
    while index < |input|
      invariant index <= |input|
      invariant split.Some? ==> split.value < |input|
      invariant Scan(input, 0, false, None) == Scan(input, index, quoted, split)
    {
      if input[index] == APOSTROPHE {
        if quoted && index + 1 < |input| && input[index + 1] == APOSTROPHE {
          index := index + 2;
          continue;
        }
        quoted := !quoted;
      } else if input[index] == '!' && !quoted {
        split := Some(index);
      }
      index := index + 1;
    }
    if quoted {
      return Err(UnterminatedQuote);
    }
    if split.None? {
      return Err(NotQualified);
    }
    var rawSheet, reference := input[..split.value], input[split.value + 1..];
    if rawSheet == "" || reference == "" {
      return Err(EmptyPart);
    }
    var sheet := rawSheet;
    if |rawSheet| >= 2 && rawSheet[0] == APOSTROPHE && rawSheet[|rawSheet| - 1] == APOSTROPHE {
      sheet := Undoubled(rawSheet[1..|rawSheet| - 1]);
    }
    return Ok((sheet, reference));
  }

  predicate Plain(c: char) {
    c != APOSTROPHE && c != '!'
  }

  /** Outside quotes the scanner runs over plain characters unchanged. */
  lemma {:induction false} ScanPlain(s: string, i: nat, j: nat, split: Option<nat>)
    requires i <= j <= |s| && forall k :: i <= k < j ==> Plain(s[k])
    ensures Scan(s, i, false, split) == Scan(s, j, false, split)
    decreases j - i
  {
    if i < j {
      ScanPlain(s, i + 1, j, split);
    }
  }

  lemma SliceTail(s: string, i: nat, d: string, step: nat)
    requires step <= |d| && i + |d| <= |s| && s[i..i + |d|] == d
    ensures s[i + step..i + |d|] == d[step..]
    ensures d != [] ==> s[i] == d[0]
    ensures |d| > 1 ==> s[i + 1] == d[1]
  {
    var slice := s[i..i + |d|];
    assert d != [] ==> s[i] == slice[0];
    assert |d| > 1 ==> s[i + 1] == slice[1];
  }

  /** Inside quotes it runs over a doubled name, whatever the name, and closes at the first
      apostrophe that is not doubled. */
  lemma {:induction false} ScanQuoted(s: string, i: nat, name: string, split: Option<nat>)
    requires i + |Doubled(name)| + 1 < |s|
    requires s[i..i + |Doubled(name)|] == Doubled(name)
    requires s[i + |Doubled(name)|] == APOSTROPHE && s[i + |Doubled(name)| + 1] != APOSTROPHE
    ensures Scan(s, i, true, split) == Scan(s, i + |Doubled(name)| + 1, false, split)
    decreases |name|
  {
    if name != "" {
      var d, tail := Doubled(name), Doubled(name[1..]);
      var step := if name[0] == APOSTROPHE then 2 else 1;
      assert d[step..] == tail && d[0] == name[0] && (step == 2 ==> d[1] == APOSTROPHE);
      SliceTail(s, i, d, step);
      hide Doubled;
      assert Scan(s, i, true, split) == Scan(s, i + step, true, split);
      ScanQuoted(s, i + step, name[1..], split);
    }
  }

  /** A reference behind the sheet: no quotes and no `!`. */
  predicate PlainText(s: string) {
    forall i :: 0 <= i < |s| ==> Plain(s[i])
  }

  lemma ScanQuotedName(name: string, reference: string)
    requires name != "" && PlainText(reference)
    ensures var q := "'" + Doubled(name) + "'";
            Scan(q + "!" + reference, 0, false, None) == (false, Some(|q|)) && Unquoted(q) == name
  {
    var d := Doubled(name);
    var q := "'" + d + "'";
    var s := q + "!" + reference;
    assert s[0] == APOSTROPHE && s[1..1 + |d|] == d && s[1 + |d|] == APOSTROPHE && s[|q|] == '!';
    ScanOpens(s);
    ScanQuoted(s, 1, name, None);
    assert forall k :: |q| + 1 <= k < |s| ==> s[k] == reference[k - |q| - 1];
    ScanPlain(s, |q| + 1, |s|, Some(|q|));
    assert q[1..|q| - 1] == d;
    UndoubledDoubled(name);
  }

  lemma ScanUnquotedName(name: string, reference: string)
    requires PlainText(name) && PlainText(reference)
    ensures Scan(name + "!" + reference, 0, false, None) == (false, Some(|name|)) && Unquoted(name) == name
  {
    var s := name + "!" + reference;
    assert s[|name|] == '!' && forall k :: 0 <= k < |name| ==> s[k] == name[k];
    ScanPlain(s, 0, |name|, None);
    assert forall k :: |name| + 1 <= k < |s| ==> s[k] == reference[k - |name| - 1];
    ScanPlain(s, |name| + 1, |s|, Some(|name|));
  }

  lemma UnquotedNamesArePlain(name: string)
    requires !NeedsQuoting(name)
    ensures PlainText(name)
  {
    hide UpperAll;
    forall i | 0 <= i < |name| ensures Plain(name[i]) {
      assert !IsQuoteMark(name[i]);
    }
  }

  lemma SplitOfText(name: string, reference: string)
    requires name != "" && reference != "" && PlainText(reference)
    ensures Split(SheetText(name) + "!" + reference) == Ok((name, reference))
  {
    var q := SheetText(name);
    var s := q + "!" + reference;
    assert s[..|q|] == q && s[|q| + 1..] == reference;
    if NeedsQuoting(name) {
      ScanQuotedName(name, reference);
    } else {
      UnquotedNamesArePlain(name);
      ScanUnquotedName(name, reference);
    }
    hide Scan, Unquoted, NeedsQuoting, Doubled;
    ScanSplitBound(s, 0, false, None);
  }

  lemma ScanOpens(s: string)
    requires s != "" && s[0] == APOSTROPHE
    ensures Scan(s, 0, false, None) == Scan(s, 1, true, None)
  {
  }

  /** Without a sheet name there is nothing in front of the `!`. */
  lemma SplitOfNoSheet(reference: string)
    requires PlainText(reference)
    ensures Split("!" + reference) == Err(EmptyPart)
  {
    var s := "!" + reference;
    ScanPlain(s, 1, |s|, Some(0));
  }

  // ----- Endpoints -----

  function LetterCount(s: string): (n: nat)
    ensures n <= |s|
  {
    if s != "" && IsAlphabetic(s[0]) then 1 + LetterCount(s[1..]) else 0
  }

  function WithoutDollars(s: string): string {
    if s == "" then "" else (if s[0] == '$' then "" else [s[0]]) + WithoutDollars(s[1..])
  }

  type Endpoint = (Option<nat>, Option<nat>)

  /** `parse_endpoint`: row and column, either of which may be missing. */
  function ParseEndpoint(text: string): Result<Endpoint, AddressError> {
    var input := WithoutDollars(text);
    if input == "" then Ok((None, None))
    else
      var letters, digits := input[..LetterCount(input)], input[LetterCount(input)..];
      if !AllDigits(digits) then Err(InvalidEndpoint)
      else if letters != "" && ColumnInGrid(letters).None? then Err(InvalidColumn)
      else if digits != "" && Number(digits) > U32_MAX then Err(InvalidRow)
      else Ok((if digits == "" then None else Some(Number(digits)),
               if letters == "" then None else ColumnInGrid(letters)))
  }

  predicate RowInGrid(row: nat) {
    1 <= row <= MAX_ROW
  }

  predicate ColInGrid(column: nat) {
    1 <= column <= MAX_COL
  }

  /** The text of an endpoint within the grid. */
  function EndpointText(row: Option<nat>, column: Option<nat>): string {
    (if column.Some? then Letters(column.value) else "") + (if row.Some? then Decimal(row.value) else "")
  }

  predicate EndpointChar(c: char) {
    IsUpper(c) || IsDigit(c)
  }

  predicate AllEndpointChars(s: string) {
    forall i :: 0 <= i < |s| ==> EndpointChar(s[i])
  }

  lemma EndpointTextChars(row: Option<nat>, column: Option<nat>)
    ensures AllEndpointChars(EndpointText(row, column))
  {
    if column.Some? { LettersUpper(column.value); }
    if row.Some? { NumberOfDecimal(row.value); }
  }

  lemma {:induction false} NoDollars(s: string)
    requires AllEndpointChars(s)
    ensures WithoutDollars(s) == s
  {
    if s != "" {
      NoDollars(s[1..]);
    }
  }

  lemma {:induction false} LetterCountOf(letters: string, digits: string)
    requires AllUpper(letters) && AllDigits(digits)
    ensures LetterCount(letters + digits) == |letters|
  {
    if letters != "" {
      assert (letters + digits)[1..] == letters[1..] + digits;
      LetterCountOf(letters[1..], digits);
    } else {
      assert letters + digits == digits;
    }
  }

  lemma EndpointRoundTrip(row: Option<nat>, column: Option<nat>)
    requires row.Some? ==> RowInGrid(row.value)
    requires column.Some? ==> ColInGrid(column.value)
    ensures ParseEndpoint(EndpointText(row, column)) == Ok((row, column))
  {
    hide Letters, Decimal, Number, ColumnInGrid, LetterCount, WithoutDollars, AllEndpointChars;
    var letters := if column.Some? then Letters(column.value) else "";
    var digits := if row.Some? then Decimal(row.value) else "";
    var text := EndpointText(row, column);
    EndpointTextChars(row, column);
    NoDollars(text);
    if column.Some? {
      LettersUpper(column.value);
      LettersBijection(column.value, "");
      ColumnRoundTrip(column.value);
    }
    if row.Some? {
      NumberOfDecimal(row.value);
    }
    LetterCountOf(letters, digits);
    assert text[..|letters|] == letters && text[|letters|..] == digits;
  }

  // ----- Cells -----

  datatype CellAddress = CellAddress(sheet: string, row: nat, column: nat)

  predicate InGrid(c: CellAddress) {
    RowInGrid(c.row) && ColInGrid(c.column)
  }

  /** `Display` for a cell address: total, with `#REF!` for a zero coordinate. */
  function CellText(c: CellAddress): string {
    SheetText(c.sheet) + "!" +
    if c.row == 0 || c.column == 0 then "#REF!" else Letters(c.column) + Decimal(c.row)
  }

  function ParseCell(text: string): Result<CellAddress, AddressError> {
    match Split(text)
    case Err(e) => Err(e)
    case Ok((sheet, reference)) =>
      if ':' in reference then Err(NotOneCell)
      else
        match ParseEndpoint(reference)
        case Err(e) => Err(e)
        case Ok((row, column)) =>
          if row.None? then Err(MissingRow)
          else if column.None? then Err(MissingColumn)
          else
            var cell := CellAddress(sheet, row.value, column.value);
            if InGrid(cell) then Ok(cell) else Err(OutOfGrid)
  }

  lemma EndpointCharsArePlain(s: string)
    requires AllEndpointChars(s)
    ensures PlainText(s) && ':' !in s
  {
  }

  /** Printing a cell and parsing the text gives the cell back exactly when the cell is in the
      grid and has a sheet name, whatever characters the name holds. */
  lemma CellRoundTrip(c: CellAddress)
    ensures ParseCell(CellText(c)) == Ok(c) <==> InGrid(c) && c.sheet != ""
    ensures InGrid(c) && c.sheet == "" ==> ParseCell(CellText(c)) == Err(EmptyPart)
  {
    if InGrid(c) {
      var reference := EndpointText(Some(c.row), Some(c.column));
      EndpointTextChars(Some(c.row), Some(c.column));
      EndpointCharsArePlain(reference);
      NumberOfDecimal(c.row);
      assert CellText(c) == SheetText(c.sheet) + "!" + reference;
      if c.sheet == "" {
        SplitOfNoSheet(reference);
        assert CellText(c) == "!" + reference;
      } else {
        SplitOfText(c.sheet, reference);
        hide Split, SheetText, ParseEndpoint, EndpointText, Letters, Decimal;
        EndpointRoundTrip(Some(c.row), Some(c.column));
      }
    }
  }

  lemma CellTextInjective(a: CellAddress, b: CellAddress)
    requires InGrid(a) && a.sheet != "" && InGrid(b)
    ensures CellText(a) == CellText(b) <==> a == b
  {
    hide ParseCell, CellText;
    CellRoundTrip(a);
    CellRoundTrip(b);
  }

  // ----- Areas -----

  datatype RangeArea = RangeArea(sheet: string,
                                 startRow: Option<nat>, startColumn: Option<nat>,
                                 endRow: Option<nat>, endColumn: Option<nat>)

  predicate Ordered(a: Option<nat>, b: Option<nat>) {
    a.Some? && b.Some? ==> a.value <= b.value
  }

  /** What `RangeArea::new` demands. */
  predicate ValidArea(a: RangeArea) {
    && (a.startRow.Some? ==> RowInGrid(a.startRow.value))
    && (a.endRow.Some? ==> RowInGrid(a.endRow.value))
    && (a.startColumn.Some? ==> ColInGrid(a.startColumn.value))
    && (a.endColumn.Some? ==> ColInGrid(a.endColumn.value))
    && Ordered(a.startRow, a.endRow) && Ordered(a.startColumn, a.endColumn)
  }

  /** `endpoint` inside `area_text`: a cell label, bare letters, bare digits, or nothing. */
  function AreaEndpoint(row: Option<nat>, column: Option<nat>): string {
    match (row, column)
    case (Some(r), Some(c)) => if r == 0 || c == 0 then "#REF!" else Letters(c) + Decimal(r)
    case (None, Some(c)) => (match LettersInGrid(c) case Some(letters) => letters case None => "#REF!")
    case (Some(r), None) => Decimal(r)
    case (None, None) => ""
  }

  function AreaText(a: RangeArea): string {
    SheetText(a.sheet) + "!" + (AreaEndpoint(a.startRow, a.startColumn) + ":" + AreaEndpoint(a.endRow, a.endColumn))
  }

  /** `range_text`, for a range with four bounds. */
  function RangeText(sheet: string, startRow: nat, startColumn: nat, endRow: nat, endColumn: nat): string {
    var endpoint := (row, column) =>
      (match LettersInGrid(column) case Some(letters) => letters case None => "#REF!") + Decimal(row);
    SheetText(sheet) + "!" + (endpoint(startRow, startColumn) + ":" + endpoint(endRow, endColumn))
  }

  /** The first position of `c`, the length of `s` if there is none. */
  function IndexOfChar(s: string, c: char): (n: nat)
    ensures n <= |s|
    ensures n < |s| ==> s[n] == c
    ensures c !in s[..n]
  {
    if s == "" || s[0] == c then 0
    else
      var n := IndexOfChar(s[1..], c) + 1;
      assert s[..n] == [s[0]] + s[1..][..n - 1];
      n
  }

  lemma {:induction false} FirstIndex(s: string, c: char, n: nat)
    requires n < |s| && s[n] == c && c !in s[..n]
    ensures IndexOfChar(s, c) == n
  {
    if n > 0 {
      assert s[0] == s[..n][0];
      assert s[..n] == [s[0]] + s[1..][..n - 1];
      FirstIndex(s[1..], c, n - 1);
    }
  }

  /** `split_once(':')`, with the whole text on both sides when there is no colon. */
  function SplitColon(s: string): (string, string) {
    var n := IndexOfChar(s, ':');
    if n < |s| then (s[..n], s[n + 1..]) else (s, s)
  }

  function ParseArea(text: string): Result<RangeArea, AddressError> {
    match Split(text)
    case Err(e) => Err(e)
    case Ok((sheet, reference)) =>
      var (start, end) := SplitColon(reference);
      match ParseEndpoint(start)
      case Err(e) => Err(e)
      case Ok((startRow, startColumn)) =>
        match ParseEndpoint(end)
        case Err(e) => Err(e)
        case Ok((endRow, endColumn)) =>
          if startColumn.Some? != endColumn.Some? then Err(InvalidBounds)
          else
            var area := RangeArea(sheet, startRow, startColumn, endRow, endColumn);
            if ValidArea(area) then Ok(area) else Err(OutOfGrid)
  }

  lemma SplitColonOf(a: string, b: string)
    requires ':' !in a
    ensures SplitColon(a + ":" + b) == (a, b)
  {
    var s := a + ":" + b;
    FirstIndex(s, ':', |a|) by {
      assert s[..|a|] == a;
    }
    assert s[..|a|] == a && s[|a| + 1..] == b;
  }

  lemma AreaTextOfValid(a: RangeArea)
    requires ValidArea(a)
    ensures AreaEndpoint(a.startRow, a.startColumn) == EndpointText(a.startRow, a.startColumn)
    ensures AreaEndpoint(a.endRow, a.endColumn) == EndpointText(a.endRow, a.endColumn)
  {
    if a.startRow.Some? { assert "" + Decimal(a.startRow.value) == Decimal(a.startRow.value); }
    if a.endRow.Some? { assert "" + Decimal(a.endRow.value) == Decimal(a.endRow.value); }
    if a.startColumn.Some? { assert Letters(a.startColumn.value) + "" == Letters(a.startColumn.value); }
    if a.endColumn.Some? { assert Letters(a.endColumn.value) + "" == Letters(a.endColumn.value); }
  }

  lemma PlainJoin(start: string, end: string)
    requires PlainText(start) && PlainText(end)
    ensures PlainText(start + ":" + end)
  {
  }

  lemma EmptySheetText(reference: string)
    ensures SheetText("") + "!" + reference == "!" + reference
  {
  }

  /** The reference part of a valid area's text, as the splitter hands it on. */
  lemma SplitOfAreaText(a: RangeArea)
    requires ValidArea(a)
    ensures var start, end := EndpointText(a.startRow, a.startColumn), EndpointText(a.endRow, a.endColumn);
            && SplitColon(start + ":" + end) == (start, end)
            && Split(AreaText(a)) == if a.sheet == "" then Err(EmptyPart) else Ok((a.sheet, start + ":" + end))
  {
    hide Split, SplitColon, EndpointText, AreaEndpoint, AllEndpointChars, SheetText, PlainText;
    var start, end := EndpointText(a.startRow, a.startColumn), EndpointText(a.endRow, a.endColumn);
    AreaTextOfValid(a);
    EndpointTextChars(a.startRow, a.startColumn);
    EndpointTextChars(a.endRow, a.endColumn);
    EndpointCharsArePlain(start);
    EndpointCharsArePlain(end);
    SplitColonOf(start, end);
    PlainJoin(start, end);
    if a.sheet == "" {
      SplitOfNoSheet(start + ":" + end);
      EmptySheetText(start + ":" + end);
    } else {
      SplitOfText(a.sheet, start + ":" + end);
    }
  }

  /** Printing an area and parsing the text gives the area back exactly when the area is valid,
      names its sheet, and bounds its columns on both sides or on neither. */
  lemma AreaRoundTrip(a: RangeArea)
    ensures ParseArea(AreaText(a)) == Ok(a) <==>
            ValidArea(a) && a.sheet != "" && (a.startColumn.Some? <==> a.endColumn.Some?)
  {
    hide Split, SplitColon, ParseEndpoint, EndpointText, AreaText;
    if ValidArea(a) {
      SplitOfAreaText(a);
      EndpointRoundTrip(a.startRow, a.startColumn);
      EndpointRoundTrip(a.endRow, a.endColumn);
    }
  }

  /** A finite range prints like the area with its four bounds. */
  lemma RangeTextIsAreaText(sheet: string, startRow: nat, startColumn: nat, endRow: nat, endColumn: nat)
    requires RowInGrid(startRow) && RowInGrid(endRow) && ColInGrid(startColumn) && ColInGrid(endColumn)
    requires startRow <= endRow && startColumn <= endColumn && sheet != ""
    ensures ParseArea(RangeText(sheet, startRow, startColumn, endRow, endColumn))
         == Ok(RangeArea(sheet, Some(startRow), Some(startColumn), Some(endRow), Some(endColumn)))
  {
    AreaRoundTrip(RangeArea(sheet, Some(startRow), Some(startColumn), Some(endRow), Some(endColumn)));
  }
}
