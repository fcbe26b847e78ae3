/** The bounds checks in front of block writes, in the C binding and in the WebAssembly binding, and the
    cells that a block write then touches. */
module BlockBounds {
  import opened Options

  newtype u32 = x: int | 0 <= x < 0x1_0000_0000

  const MAX_ROWS: u32 := 1_048_576
  const MAX_COLS: u32 := 16_384

  datatype BlockError =
    | StartRow | StartCol
    | RowExtent | ColExtent
    | RowOverflow | ColOverflow
    | EndRow | EndCol

  function TryU32(n: nat): Option<u32> {
    if n < 0x1_0000_0000 then Some(n as u32) else None
  }

  function CheckedAdd(a: u32, b: u32): Option<u32> {
    if a as int + b as int < 0x1_0000_0000 then Some(a + b) else None
  }

  /** `checked_excel_coordinates`: the first check that fails, if any. */
  function CheckedExcelCoordinates(row: u32, col: u32, dimensions: Option<(nat, nat)>): Option<BlockError> {
    if !(1 <= row <= MAX_ROWS) then Some(StartRow)
    else if !(1 <= col <= MAX_COLS) then Some(StartCol)
    else
      match dimensions
      case None => None
      case Some((height, width)) =>
        if height == 0 || width == 0 then None
        else
          match (TryU32(height - 1), TryU32(width - 1))
          case (None, _) => Some(RowExtent)
          case (_, None) => Some(ColExtent)
          case (Some(down), Some(right)) =>
            match (CheckedAdd(row, down), CheckedAdd(col, right))
            case (None, _) => Some(RowOverflow)
            case (_, None) => Some(ColOverflow)
            case (Some(endRow), Some(endCol)) =>
              if endRow > MAX_ROWS then Some(EndRow) else if endCol > MAX_COLS then Some(EndCol) else None
  }

  function Max(a: nat, b: nat): nat {
    if a < b then b else a
  }

  function Width<T>(rows: seq<seq<T>>): nat {
    if rows == [] then 0 else Max(|rows[0]|, Width(rows[1..]))
  }

  /** One more than the position of the last row that has a cell. */
  function Height<T(0)>(rows: seq<seq<T>>): nat {
    if rows == [] then 0 else if |rows[|rows| - 1]| > 0 then |rows| else Height(rows[..|rows| - 1])
  }

  function ActualBlockDimensions<T(0)>(rows: seq<seq<T>>): (nat, nat) {
    (Height(rows), Width(rows))
  }

  function FormulaBlockDimensions<T>(rows: seq<seq<T>>): (nat, nat) {
    if Width(rows) == 0 then (0, 0) else (|rows|, Width(rows))
  }

  /** `validate_block` of the WebAssembly binding. Its sums are in 64 bits and the lengths in 32. */
  function ValidateBlock(row: u32, col: u32, rows: nat, cols: nat): bool {
    && 1 <= row <= MAX_ROWS && 1 <= col <= MAX_COLS
    && (rows == 0 || cols == 0
        || (row as int + rows - 1 <= MAX_ROWS as int && col as int + cols - 1 <= MAX_COLS as int))
  }

  // ----- What the checks mean -----

  predicate InGrid(row: int, col: int) {
    1 <= row <= MAX_ROWS as int && 1 <= col <= MAX_COLS as int
  }

  predicate Present<T>(rows: seq<seq<T>>, i: int, j: int) {
    0 <= i < |rows| && 0 <= j < |rows[i]|
  }

  /** Every cell the block really has lands in the grid. */
  ghost predicate CellsInGrid<T>(row: u32, col: u32, rows: seq<seq<T>>) {
    forall i, j :: Present(rows, i, j) ==> InGrid(row as int + i, col as int + j)
  }

  lemma {:induction false} WidthIs<T>(rows: seq<seq<T>>)
    ensures forall i :: 0 <= i < |rows| ==> |rows[i]| <= Width(rows)
    ensures Width(rows) > 0 ==> exists i :: 0 <= i < |rows| && |rows[i]| == Width(rows)
  {
    if rows != [] {
      WidthIs(rows[1..]);
      assert forall i :: 1 <= i < |rows| ==> rows[i] == rows[1..][i - 1];
      if Width(rows) > |rows[0]| {
        var i :| 0 <= i < |rows[1..]| && |rows[1..][i]| == Width(rows[1..]);
        assert |rows[i + 1]| == Width(rows);
      }
    }
  }

  lemma {:induction false} HeightIs<T(0)>(rows: seq<seq<T>>)
    ensures Height(rows) <= |rows|
    ensures forall i :: Height(rows) <= i < |rows| ==> rows[i] == []
    ensures Height(rows) > 0 ==> rows[Height(rows) - 1] != []
  {
    if rows != [] {
      HeightIs(rows[..|rows| - 1]);
    }
  }

  lemma ExtentIs(row: u32, col: u32, height: nat, width: nat)
    requires InGrid(row as int, col as int) && height > 0 && width > 0
    ensures CheckedExcelCoordinates(row, col, Some((height, width))).None?
            <==> InGrid(row as int + height - 1, col as int + width - 1)
  {
  }

  /** With its actual dimensions a block is accepted exactly when the anchor and every cell it has are in
      the grid: trailing empty rows do not count, and no sum overflows unnoticed. */
  lemma ActualIff<T(0)>(row: u32, col: u32, rows: seq<seq<T>>)
    ensures CheckedExcelCoordinates(row, col, Some(ActualBlockDimensions(rows))).None?
            <==> InGrid(row as int, col as int) && CellsInGrid(row, col, rows)
  {
    hide Width, Height;
    WidthIs(rows);
    HeightIs(rows);
    if InGrid(row as int, col as int) {
      if Height(rows) == 0 || Width(rows) == 0 {
        assert forall i, j :: !Present(rows, i, j);
      } else {
        ExtentIs(row, col, Height(rows), Width(rows));
        var i :| 0 <= i < |rows| && |rows[i]| == Width(rows);
        assert Present(rows, i, Width(rows) - 1);
        assert Present(rows, Height(rows) - 1, 0);
        if InGrid(row as int + Height(rows) - 1, col as int + Width(rows) - 1) {
          ReachOfCells(row, col, rows);
        }
      }
    }
  }

  lemma ReachOfCells<T(0)>(row: u32, col: u32, rows: seq<seq<T>>)
    requires row >= 1 && col >= 1 && InGrid(row as int + Height(rows) - 1, col as int + Width(rows) - 1)
    ensures CellsInGrid(row, col, rows)
  {
    hide Width, Height;
    WidthIs(rows);
    HeightIs(rows);
  }

  /** Counting trailing empty rows as well, a block that has cells is accepted exactly when in addition
      its last row, empty or not, is in the grid. */
  lemma FormulaIff<T(0)>(row: u32, col: u32, rows: seq<seq<T>>)
    ensures CheckedExcelCoordinates(row, col, Some(FormulaBlockDimensions(rows))).None?
            <==> CheckedExcelCoordinates(row, col, Some(ActualBlockDimensions(rows))).None?
                 && (Width(rows) == 0 || row as int + |rows| - 1 <= MAX_ROWS as int)
  {
    hide Width, Height;
    WidthIs(rows);
    HeightIs(rows);
    if InGrid(row as int, col as int) && Width(rows) > 0 {
      var i :| 0 <= i < |rows| && |rows[i]| == Width(rows);
      assert rows[i] != [];
      ExtentIs(row, col, Height(rows), Width(rows));
      ExtentIs(row, col, |rows|, Width(rows));
    }
  }

  /** The WebAssembly check accepts the same blocks as that. */
  lemma BindingsAgree<T(0)>(row: u32, col: u32, rows: seq<seq<T>>)
    ensures ValidateBlock(row, col, |rows|, Width(rows))
            <==> CheckedExcelCoordinates(row, col, Some(FormulaBlockDimensions(rows))).None?
  {
    hide Width;
    if InGrid(row as int, col as int) && Width(rows) > 0 {
      WidthIs(rows);
      ExtentIs(row, col, |rows|, Width(rows));
    }
  }

  /** One cell in the last grid row and an empty row below it: only the exact check accepts it. */
  lemma TrailingRowRefused(x: int)
    ensures CheckedExcelCoordinates(MAX_ROWS, 1, Some(ActualBlockDimensions([[x], []]))).None?
    ensures CheckedExcelCoordinates(MAX_ROWS, 1, Some(FormulaBlockDimensions([[x], []]))) == Some(EndRow)
  {
    var rows := [[x], []];
    assert rows[..1] == [[x]] && Height([[x]]) == 1;
    assert Height(rows) == Height(rows[..1]);
    assert Width(rows[1..]) == 0 && Width(rows) == 1;
  }

  // ----- What a block write touches -----

  function Wrap(x: int): u32 {
    (x % 0x1_0000_0000) as u32
  }

  /** The cells of one row of the block, from `row` on, left to right. */
  function RowTargets(row: u32, col: u32, n: nat): seq<(u32, u32)> {
    if n == 0 then [] else RowTargets(row, col, n - 1) + [(row, Wrap(col as int + (n - 1)))]
  }

  function Targets<T>(row: u32, col: u32, rows: seq<seq<T>>, n: nat): seq<(u32, u32)>
    requires n <= |rows|
  {
    if n == 0 then []
    else Targets(row, col, rows, n - 1) + RowTargets(Wrap(row as int + (n - 1)), col, |rows[n - 1]|)
  }

  lemma WrapSum(a: int, b: int)
    ensures Wrap(a + Wrap(b) as int) == Wrap(a + b)
  {
    assert a + b == (a + b % 0x1_0000_0000) + 0x1_0000_0000 * (b / 0x1_0000_0000);
  }

  /** The two loops of `set_values`: positions are cast to u32 and added without a check. */
  method WriteTargets<T>(row: u32, col: u32, rows: seq<seq<T>>) returns (targets: seq<(u32, u32)>)
    ensures targets == Targets(row, col, rows, |rows|)
  {
    hide Wrap;
    targets := [];
    for i := 0 to |rows|
      invariant targets == Targets(row, col, rows, i)
    {
      var r := Wrap(row as int + Wrap(i) as int);
      WrapSum(row as int, i);
      ghost var before := targets;
      for j := 0 to |rows[i]|
        invariant targets == before + RowTargets(r, col, j)
      {
        var c := Wrap(col as int + Wrap(j) as int);
        WrapSum(col as int, j);
        targets := targets + [(r, c)];
      }
    }
  }

  lemma {:induction false} RowTargetsAre(row: u32, col: u32, n: nat)
    requires col as int + n <= 0x1_0000_0000
    ensures forall t :: t in RowTargets(row, col, n)
              <==> t.0 == row && col as int <= t.1 as int < col as int + n
    ensures |RowTargets(row, col, n)| == n
  {
    if n > 0 {
      RowTargetsAre(row, col, n - 1);
    }
  }

  ghost predicate Lands<T>(row: u32, col: u32, rows: seq<seq<T>>, n: nat, t: (u32, u32)) {
    exists i, j :: 0 <= i < n && Present(rows, i, j) && t.0 as int == row as int + i && t.1 as int == col as int + j
  }

  /** An accepted block writes each of its cells at its own place in the grid, and touches nothing else:
      no sum of the loops wraps for a cell that is there. */
  lemma {:induction false} AcceptedTargets<T(0)>(row: u32, col: u32, rows: seq<seq<T>>, n: nat, t: (u32, u32))
    requires CheckedExcelCoordinates(row, col, Some(ActualBlockDimensions(rows))).None? && n <= |rows|
    ensures t in Targets(row, col, rows, n) <==> Lands(row, col, rows, n, t)
    ensures t in Targets(row, col, rows, n) ==> InGrid(t.0 as int, t.1 as int)
  {
    hide CheckedExcelCoordinates, Wrap, RowTargets, Lands;
    ActualIff(row, col, rows);
    if n == 0 {
      LandsStep(row, col, rows, 0, t);
    } else {
      AcceptedTargets(row, col, rows, n - 1, t);
      LandsStep(row, col, rows, n, t);
      RowLands(row, col, rows, n - 1, t);
    }
  }

  ghost predicate LandsInRow<T>(row: u32, col: u32, rows: seq<seq<T>>, i: nat, t: (u32, u32)) {
    && i < |rows| && t.0 as int == row as int + i
    && col as int <= t.1 as int < col as int + |rows[i]|
  }

  lemma LandsStep<T>(row: u32, col: u32, rows: seq<seq<T>>, n: nat, t: (u32, u32))
    requires n <= |rows|
    ensures n == 0 ==> !Lands(row, col, rows, n, t)
    ensures n > 0 ==> (Lands(row, col, rows, n, t)
                       <==> Lands(row, col, rows, n - 1, t) || LandsInRow(row, col, rows, n - 1, t))
  {
    if n > 0 && LandsInRow(row, col, rows, n - 1, t) {
      assert Present(rows, n - 1, t.1 as int - col as int);
    }
  }

  lemma RowLands<T>(row: u32, col: u32, rows: seq<seq<T>>, i: nat, t: (u32, u32))
    requires i < |rows| && CellsInGrid(row, col, rows)
    ensures var targets := RowTargets(Wrap(row as int + i), col, |rows[i]|);
            && (t in targets <==> LandsInRow(row, col, rows, i, t))
            && (t in targets ==> InGrid(t.0 as int, t.1 as int))
  {
    hide RowTargets;
    var width := |rows[i]|;
    if width == 0 {
      NoTargets(Wrap(row as int + i), col);
    } else {
      assert Present(rows, i, width - 1);
      RowTargetsAre(Wrap(row as int + i), col, width);
      if LandsInRow(row, col, rows, i, t) {
        assert Present(rows, i, t.1 as int - col as int);
      }
    }
  }

  lemma NoTargets(row: u32, col: u32)
    ensures RowTargets(row, col, 0) == []
  {
  }
}
