/** The parity comparison of two workbooks: which values count as the same, and which differing cells
    are reported. */
module Parity {
  import opened Options

  /** A 64-bit float by its bits. */
  newtype Bits = x: int | 0 <= x < 0x1_0000_0000_0000_0000

  datatype LiteralValue =
    | Int(n: int)
    | Number(bits: Bits)
    | Text(text: string)
    | Boolean(flag: bool)
    | Array(rows: seq<Row>)
    | Date(day: int)
    | DateTime(instant: int)
    | Time(time: int)
    | Duration(span: int)
    | Empty
    | Pending
    | Error(kind: string, message: Option<string>)

  datatype Row = Row(cells: seq<LiteralValue>)

  /** All exponent bits set, and a fraction. */
  predicate IsNan(b: Bits) {
    (b / 0x10_0000_0000_0000) % 2048 == 2047 && b % 0x10_0000_0000_0000 != 0
  }

  const NAN: Bits := 0x7FF8_0000_0000_0000

  predicate FloatParityEqual(a: Bits, b: Bits) {
    if IsNan(a) && IsNan(b) then true else a == b
  }

  function NormalizeEmpty(value: Option<LiteralValue>): Option<LiteralValue> {
    match value
    case Some(Empty) => None
    case other => other
  }

  /** `literal_parity_equal`. */
  predicate LiteralParityEqual(off: Option<LiteralValue>, auth: Option<LiteralValue>) {
    match (off, auth)
    case (None, None) => true
    case (Some(a), Some(b)) => ValueParityEqual(a, b)
    case _ => false
  }

  /** Two present values. Elements of arrays are compared after empty ones are made absent. */
  predicate ValueParityEqual(a: LiteralValue, b: LiteralValue)
    decreases a, 0
  {
    match (a, b)
    case (Number(x), Number(y)) => FloatParityEqual(x, y)
    case (Array(rows), Array(others)) =>
      |rows| == |others| && forall i :: 0 <= i < |rows| ==> RowParityEqual(rows[i], others[i])
    case _ => a == b
  }

  predicate RowParityEqual(a: Row, b: Row)
    decreases a, 0
  {
    |a.cells| == |b.cells| && forall j :: 0 <= j < |a.cells| ==> ElementParityEqual(a.cells[j], b.cells[j])
  }

  predicate ElementParityEqual(a: LiteralValue, b: LiteralValue)
    decreases a, 1
  {
    var x, y := NormalizeEmpty(Some(a)), NormalizeEmpty(Some(b));
    (x.None? && y.None?) || (x.Some? && y.Some? && ValueParityEqual(a, b))
  }

  // ----- One representative for each class -----

  function Canon(v: LiteralValue): LiteralValue {
    match v
    case Number(b) => Number(if IsNan(b) then NAN else b)
    case Array(rows) => Array(seq(|rows|, i requires 0 <= i < |rows| => CanonRow(rows[i])))
    case _ => v
  }

  function CanonRow(row: Row): Row {
    Row(seq(|row.cells|, j requires 0 <= j < |row.cells| => Canon(row.cells[j])))
  }

  function CanonOption(v: Option<LiteralValue>): Option<LiteralValue> {
    match v
    case None => None
    case Some(x) => Some(Canon(x))
  }

  lemma {:induction false} ValueParityIff(a: LiteralValue, b: LiteralValue)
    ensures ValueParityEqual(a, b) <==> Canon(a) == Canon(b)
    decreases a
  {
    match (a, b) {
      case (Number(x), Number(y)) =>
        assert IsNan(NAN);
      case (Array(rows), Array(others)) =>
        if |rows| == |others| {
          forall i | 0 <= i < |rows|
            ensures RowParityEqual(rows[i], others[i]) <==> CanonRow(rows[i]) == CanonRow(others[i])
          {
            RowParityIff(rows[i], others[i]);
          }
          var x, y := Canon(a).rows, Canon(b).rows;
          assert forall i :: 0 <= i < |rows| ==> x[i] == CanonRow(rows[i]) && y[i] == CanonRow(others[i]);
        } else {
          assert |Canon(a).rows| != |Canon(b).rows|;
        }
      case _ =>
    }
  }

  lemma {:induction false} RowParityIff(a: Row, b: Row)
    ensures RowParityEqual(a, b) <==> CanonRow(a) == CanonRow(b)
    decreases a
  {
    if |a.cells| == |b.cells| {
      forall j | 0 <= j < |a.cells|
        ensures ElementParityEqual(a.cells[j], b.cells[j]) <==> Canon(a.cells[j]) == Canon(b.cells[j])
      {
        ValueParityIff(a.cells[j], b.cells[j]);
      }
      var x, y := CanonRow(a).cells, CanonRow(b).cells;
      assert forall j :: 0 <= j < |a.cells| ==> x[j] == Canon(a.cells[j]) && y[j] == Canon(b.cells[j]);
    } else {
      assert |CanonRow(a).cells| != |CanonRow(b).cells|;
    }
  }

  /** Two values are equal exactly when they differ at most in the payloads of their NaNs, at any depth.
      So the comparison is an equivalence. */
  lemma ParityIff(a: Option<LiteralValue>, b: Option<LiteralValue>)
    ensures LiteralParityEqual(a, b) <==> CanonOption(a) == CanonOption(b)
  {
    if a.Some? && b.Some? {
      ValueParityIff(a.value, b.value);
    }
  }

  lemma ParityIsEquivalence(a: Option<LiteralValue>, b: Option<LiteralValue>, c: Option<LiteralValue>)
    ensures LiteralParityEqual(a, a)
    ensures LiteralParityEqual(a, b) <==> LiteralParityEqual(b, a)
    ensures LiteralParityEqual(a, b) && LiteralParityEqual(b, c) ==> LiteralParityEqual(a, c)
  {
    ParityIff(a, a);
    ParityIff(a, b);
    ParityIff(b, a);
    ParityIff(b, c);
    ParityIff(a, c);
  }

  // ----- Sheet names in order -----

  /** Code point order, which is also the byte order of UTF-8. */
  predicate Precedes(a: string, b: string) {
    b != "" && (a == "" || a[0] < b[0] || (a[0] == b[0] && Precedes(a[1..], b[1..])))
  }

  lemma {:induction false} PrecedesTotal(a: string, b: string)
    ensures a == b || Precedes(a, b) || Precedes(b, a)
  {
    if a != "" && b != "" && a[0] == b[0] {
      PrecedesTotal(a[1..], b[1..]);
      assert a == [a[0]] + a[1..] && b == [b[0]] + b[1..];
    }
  }

  lemma {:induction false} PrecedesTransitive(a: string, b: string, c: string)
    requires Precedes(a, b) && Precedes(b, c)
    ensures Precedes(a, c)
  {
    if a != "" && a[0] == b[0] && b[0] == c[0] {
      PrecedesTransitive(a[1..], b[1..], c[1..]);
    }
  }

  predicate Ordered(names: seq<string>) {
    forall i, j :: 0 <= i < j < |names| ==> Precedes(names[i], names[j])
  }

  /** `BTreeSet::insert`. */
  function Insert(names: seq<string>, name: string): seq<string> {
    if names == [] || Precedes(name, names[0]) then [name] + names
    else if name == names[0] then names
    else [names[0]] + Insert(names[1..], name)
  }

  lemma {:induction false} InsertIs(names: seq<string>, name: string)
    requires Ordered(names)
    ensures Ordered(Insert(names, name))
    ensures forall n :: n in Insert(names, name) <==> n == name || n in names
  {
    if names != [] {
      var head, tail := names[0], names[1..];
      assert names == [head] + tail;
      PrecedesTotal(name, head);
      if Precedes(name, head) {
        forall n | n in tail ensures Precedes(name, n) {
          PrecedesTransitive(name, head, n);
        }
        OrderedCons(name, names);
      } else if name != head {
        InsertIs(tail, name);
        OrderedCons(head, Insert(tail, name));
      }
    }
  }

  lemma OrderedCons(head: string, tail: seq<string>)
    requires Ordered(tail) && forall n <- tail :: Precedes(head, n)
    ensures Ordered([head] + tail)
  {
  }

  function Extend(names: seq<string>, more: seq<string>): seq<string>
    decreases |more|
  {
    if more == [] then names else Extend(Insert(names, more[0]), more[1..])
  }

  lemma {:induction false} ExtendIs(names: seq<string>, more: seq<string>)
    requires Ordered(names)
    ensures Ordered(Extend(names, more))
    ensures forall n :: n in Extend(names, more) <==> n in names || n in more
    decreases |more|
  {
    hide Ordered, Precedes, Insert;
    if more != [] {
      InsertIs(names, more[0]);
      ExtendIs(Insert(names, more[0]), more[1..]);
      assert more == [more[0]] + more[1..];
    }
  }

  // ----- Comparing workbooks -----

  datatype Workbook = Workbook(
    names: seq<string>, dimensions: map<string, (nat, nat)>, cells: map<(string, nat, nat), LiteralValue>)

  datatype Divergence = Divergence(
    sheet: string, row: nat, col: nat, off: Option<LiteralValue>, auth: Option<LiteralValue>)

  function Dimensions(w: Workbook, sheet: string): (nat, nat) {
    if sheet in w.dimensions then w.dimensions[sheet] else (0, 0)
  }

  function Read(w: Workbook, sheet: string, row: nat, col: nat): Option<LiteralValue> {
    NormalizeEmpty(if (sheet, row, col) in w.cells then Some(w.cells[(sheet, row, col)]) else None)
  }

  predicate Agrees(off: Workbook, auth: Workbook, sheet: string, row: nat, col: nat) {
    LiteralParityEqual(Read(off, sheet, row, col), Read(auth, sheet, row, col))
  }

  function At(off: Workbook, auth: Workbook, sheet: string, row: nat, col: nat): Divergence {
    Divergence(sheet, row, col, Read(off, sheet, row, col), Read(auth, sheet, row, col))
  }

  function Max(a: nat, b: nat): nat {
    if a < b then b else a
  }

  function Rows(off: Workbook, auth: Workbook, sheet: string): nat {
    Max(Dimensions(off, sheet).0, Dimensions(auth, sheet).0)
  }

  function Cols(off: Workbook, auth: Workbook, sheet: string): nat {
    Max(Dimensions(off, sheet).1, Dimensions(auth, sheet).1)
  }

  function Names(off: Workbook, auth: Workbook): seq<string> {
    Extend(Extend([], off.names), auth.names)
  }

  function InRow(off: Workbook, auth: Workbook, sheet: string, row: nat, cols: nat): seq<Divergence> {
    if cols == 0 then []
    else
      InRow(off, auth, sheet, row, cols - 1)
      + if Agrees(off, auth, sheet, row, cols) then [] else [At(off, auth, sheet, row, cols)]
  }

  function InSheet(off: Workbook, auth: Workbook, sheet: string, rows: nat, cols: nat): seq<Divergence> {
    if rows == 0 then [] else InSheet(off, auth, sheet, rows - 1, cols) + InRow(off, auth, sheet, rows, cols)
  }

  function InSheets(off: Workbook, auth: Workbook, names: seq<string>): seq<Divergence> {
    if names == [] then []
    else
      var front, sheet := names[..|names| - 1], names[|names| - 1];
      InSheets(off, auth, front) + InSheet(off, auth, sheet, Rows(off, auth, sheet), Cols(off, auth, sheet))
  }

  function Area(off: Workbook, auth: Workbook, names: seq<string>): nat {
    if names == [] then 0
    else
      var front, sheet := names[..|names| - 1], names[|names| - 1];
      Area(off, auth, front) + Rows(off, auth, sheet) * Cols(off, auth, sheet)
  }

  function Take(s: seq<Divergence>, max: nat): seq<Divergence> {
    if |s| <= max then s else s[..max]
  }

  lemma TakeStep(s: seq<Divergence>, d: Divergence, max: nat)
    ensures Take(s + [d], max) == if |Take(s, max)| < max then Take(s, max) + [d] else Take(s, max)
  {
  }

  /** The two loops over one sheet. */
  method CompareSheet(
    off: Workbook, auth: Workbook, sheet: string, max: nat, count0: nat, divergences0: seq<Divergence>,
    ghost before: seq<Divergence>)
    returns (count: nat, divergences: seq<Divergence>)
    requires divergences0 == Take(before, max)
    ensures count == count0 + Rows(off, auth, sheet) * Cols(off, auth, sheet)
    ensures divergences
            == Take(before + InSheet(off, auth, sheet, Rows(off, auth, sheet), Cols(off, auth, sheet)), max)
  {
    hide Take, Agrees;
    count, divergences := count0, divergences0;
    var rows, cols := Rows(off, auth, sheet), Cols(off, auth, sheet);
    ghost var done := before;
    for row := 0 to rows
      invariant count == count0 + row * cols
      invariant done == before + InSheet(off, auth, sheet, row, cols) && divergences == Take(done, max)
    {
      ghost var atRow := done;
      for col := 0 to cols
        invariant count == count0 + row * cols + col
        invariant done == atRow + InRow(off, auth, sheet, row + 1, col) && divergences == Take(done, max)
      {
        count := count + 1;
        var offValue, authValue := Read(off, sheet, row + 1, col + 1), Read(auth, sheet, row + 1, col + 1);
        assert Agrees(off, auth, sheet, row + 1, col + 1) == LiteralParityEqual(offValue, authValue) by {
          AgreesIs(off, auth, sheet, row + 1, col + 1);
        }
        ghost var d := At(off, auth, sheet, row + 1, col + 1);
        TakeStep(done, d, max);
        if !LiteralParityEqual(offValue, authValue) {
          done := done + [d];
          if |divergences| < max {
            divergences := divergences + [Divergence(sheet, row + 1, col + 1, offValue, authValue)];
          }
        }
      }
      assert (row + 1) * cols == row * cols + cols;
    }
  }

  lemma AgreesIs(off: Workbook, auth: Workbook, sheet: string, row: nat, col: nat)
    ensures Agrees(off, auth, sheet, row, col)
            <==> LiteralParityEqual(Read(off, sheet, row, col), Read(auth, sheet, row, col))
  {
  }

  /** `compare_workbooks`. */
  method CompareWorkbooks(off: Workbook, auth: Workbook, max: nat) returns (count: nat, divergences: seq<Divergence>)
    ensures count == Area(off, auth, Names(off, auth))
    ensures divergences == Take(InSheets(off, auth, Names(off, auth)), max)
  {
    hide Extend, InSheet, Rows, Cols;
    var names := Names(off, auth);
    count, divergences := 0, [];
    assert names[..0] == [];
    for i := 0 to |names|
      invariant count == Area(off, auth, names[..i])
      invariant divergences == Take(InSheets(off, auth, names[..i]), max)
    {
      count, divergences := CompareSheet(off, auth, names[i], max, count, divergences, InSheets(off, auth, names[..i]));
      assert names[..i + 1][..i] == names[..i];
    }
    assert names[..|names|] == names;
  }

  // ----- What is reported -----

  predicate Before(a: Divergence, b: Divergence) {
    Precedes(a.sheet, b.sheet) || (a.sheet == b.sheet && (a.row < b.row || (a.row == b.row && a.col < b.col)))
  }

  predicate InOrder(s: seq<Divergence>) {
    forall i, j :: 0 <= i < j < |s| ==> Before(s[i], s[j])
  }

  lemma InOrderAppend(a: seq<Divergence>, b: seq<Divergence>)
    requires InOrder(a) && InOrder(b) && forall x, y :: x in a && y in b ==> Before(x, y)
    ensures InOrder(a + b)
  {
    hide Before;
    var s := a + b;
    forall i, j | 0 <= i < j < |s| ensures Before(s[i], s[j]) {
      assert s[i] == if i < |a| then a[i] else b[i - |a|];
      assert s[j] == if j < |a| then a[j] else b[j - |a|];
    }
  }

  /** `d` is the report of a differing cell. */
  predicate Differs(off: Workbook, auth: Workbook, d: Divergence) {
    d == At(off, auth, d.sheet, d.row, d.col) && !Agrees(off, auth, d.sheet, d.row, d.col)
  }

  lemma {:induction false} InRowIs(off: Workbook, auth: Workbook, sheet: string, row: nat, cols: nat)
    ensures InOrder(InRow(off, auth, sheet, row, cols))
    ensures forall d :: d in InRow(off, auth, sheet, row, cols)
              <==> Differs(off, auth, d) && d.sheet == sheet && d.row == row && 1 <= d.col <= cols
  {
    hide Agrees;
    if cols > 0 {
      InRowIs(off, auth, sheet, row, cols - 1);
      var last := if Agrees(off, auth, sheet, row, cols) then [] else [At(off, auth, sheet, row, cols)];
      InOrderAppend(InRow(off, auth, sheet, row, cols - 1), last);
    }
  }

  lemma {:induction false} InSheetIs(off: Workbook, auth: Workbook, sheet: string, rows: nat, cols: nat)
    ensures InOrder(InSheet(off, auth, sheet, rows, cols))
    ensures forall d :: d in InSheet(off, auth, sheet, rows, cols)
              <==> Differs(off, auth, d) && d.sheet == sheet && 1 <= d.row <= rows && 1 <= d.col <= cols
  {
    hide Differs, InOrder;
    if rows == 0 {
      EmptyInOrder();
    } else {
      InSheetIs(off, auth, sheet, rows - 1, cols);
      InRowIs(off, auth, sheet, rows, cols);
      InOrderAppend(InSheet(off, auth, sheet, rows - 1, cols), InRow(off, auth, sheet, rows, cols));
    }
  }

  lemma EmptyInOrder()
    ensures InOrder([])
  {
  }

  predicate InRectangle(off: Workbook, auth: Workbook, sheet: string, row: nat, col: nat) {
    1 <= row <= Rows(off, auth, sheet) && 1 <= col <= Cols(off, auth, sheet)
  }

  lemma {:induction false} InSheetsIs(off: Workbook, auth: Workbook, names: seq<string>)
    requires Ordered(names)
    ensures InOrder(InSheets(off, auth, names))
    ensures forall d :: d in InSheets(off, auth, names)
              <==> Differs(off, auth, d) && d.sheet in names && InRectangle(off, auth, d.sheet, d.row, d.col)
  {
    hide Differs, InOrder, Precedes, Rows, Cols, InSheet;
    if names == [] {
      EmptyInOrder();
    } else {
      var front, sheet := names[..|names| - 1], names[|names| - 1];
      assert names == front + [sheet];
      InSheetsIs(off, auth, front);
      InSheetIs(off, auth, sheet, Rows(off, auth, sheet), Cols(off, auth, sheet));
      forall n | n in front ensures Precedes(n, sheet) {
        var i :| 0 <= i < |front| && front[i] == n;
        assert names[i] == n;
      }
      InOrderAppend(InSheets(off, auth, front),
                    InSheet(off, auth, sheet, Rows(off, auth, sheet), Cols(off, auth, sheet)));
    }
  }

  lemma NamesAre(off: Workbook, auth: Workbook)
    ensures Ordered(Names(off, auth))
    ensures forall n :: n in Names(off, auth) <==> n in off.names || n in auth.names
  {
    ExtendIs([], off.names);
    ExtendIs(Extend([], off.names), auth.names);
  }

  /** The report before it is cut to the limit lists exactly the differing cells of the combined
      rectangle of every sheet, in sheet, row and column order. */
  lemma ReportIs(off: Workbook, auth: Workbook, d: Divergence)
    ensures var all := InSheets(off, auth, Names(off, auth));
            && InOrder(all)
            && (d in all <==> Differs(off, auth, d) && (d.sheet in off.names || d.sheet in auth.names)
                              && InRectangle(off, auth, d.sheet, d.row, d.col))
  {
    hide Differs, InOrder, Ordered, InRectangle, Names, InSheets;
    NamesAre(off, auth);
    InSheetsIs(off, auth, Names(off, auth));
  }

  /** There is nothing to report, under a limit of at least one, exactly when the workbooks agree on
      every cell of every combined rectangle. */
  lemma NoneIffAgree(off: Workbook, auth: Workbook, max: nat)
    requires max >= 1
    ensures Take(InSheets(off, auth, Names(off, auth)), max) == []
            <==> forall sheet, row: nat, col: nat ::
                   (sheet in off.names || sheet in auth.names) && InRectangle(off, auth, sheet, row, col)
                   ==> Agrees(off, auth, sheet, row, col)
  {
    hide InRectangle, Agrees, Names, InSheets, InOrder;
    var all := InSheets(off, auth, Names(off, auth));
    if Take(all, max) == [] {
      assert all == [];
      forall sheet, row: nat, col: nat
        | (sheet in off.names || sheet in auth.names) && InRectangle(off, auth, sheet, row, col)
        ensures Agrees(off, auth, sheet, row, col)
      {
        ReportIs(off, auth, At(off, auth, sheet, row, col));
      }
    } else {
      assert all[0] in all;
      ReportIs(off, auth, all[0]);
    }
  }

  /** Every cell with a value lies on a named sheet within its dimensions. */
  ghost predicate Bounded(w: Workbook) {
    forall sheet, row: nat, col: nat :: Read(w, sheet, row, col).Some? ==>
      sheet in w.names && 1 <= row <= Dimensions(w, sheet).0 && 1 <= col <= Dimensions(w, sheet).1
  }

  ghost predicate SameEverywhere(a: Workbook, b: Workbook) {
    forall sheet, row: nat, col: nat :: Agrees(a, b, sheet, row, col)
  }

  /** For workbooks whose dimensions hold their cells, an empty report means agreement everywhere. */
  lemma NoneIffSame(off: Workbook, auth: Workbook, max: nat)
    requires max >= 1 && Bounded(off) && Bounded(auth)
    ensures Take(InSheets(off, auth, Names(off, auth)), max) == [] <==> SameEverywhere(off, auth)
  {
    hide Names, InSheets, Take, Read, LiteralParityEqual;
    NoneIffAgree(off, auth, max);
    forall sheet, row: nat, col: nat
      | !((sheet in off.names || sheet in auth.names) && InRectangle(off, auth, sheet, row, col))
      ensures Agrees(off, auth, sheet, row, col)
    {
      BothAbsent(off, auth, sheet, row, col);
    }
  }

  lemma BothAbsent(off: Workbook, auth: Workbook, sheet: string, row: nat, col: nat)
    requires Bounded(off) && Bounded(auth)
    requires !((sheet in off.names || sheet in auth.names) && InRectangle(off, auth, sheet, row, col))
    ensures Agrees(off, auth, sheet, row, col)
  {
    hide Read;
    assert Read(off, sheet, row, col).None? && Read(auth, sheet, row, col).None?;
  }

  /** Passing the comparison is then an equivalence of workbooks, whatever the limits. */
  lemma PassingIsEquivalence(a: Workbook, b: Workbook, c: Workbook, m: nat, n: nat, k: nat)
    requires m >= 1 && n >= 1 && k >= 1 && Bounded(a) && Bounded(b) && Bounded(c)
    ensures Take(InSheets(a, a, Names(a, a)), m) == []
    ensures Take(InSheets(a, b, Names(a, b)), m) == [] <==> Take(InSheets(b, a, Names(b, a)), n) == []
    ensures Take(InSheets(a, b, Names(a, b)), m) == [] && Take(InSheets(b, c, Names(b, c)), n) == []
            ==> Take(InSheets(a, c, Names(a, c)), k) == []
  {
    hide Names, InSheets, Take, Bounded, LiteralParityEqual, Read;
    NoneIffSame(a, a, m);
    NoneIffSame(a, b, m);
    NoneIffSame(b, a, n);
    NoneIffSame(b, c, n);
    NoneIffSame(a, c, k);
    forall sheet, row: nat, col: nat
      ensures Agrees(a, a, sheet, row, col)
      ensures Agrees(a, b, sheet, row, col) <==> Agrees(b, a, sheet, row, col)
      ensures Agrees(a, b, sheet, row, col) && Agrees(b, c, sheet, row, col) ==> Agrees(a, c, sheet, row, col)
    {
      ParityIsEquivalence(Read(a, sheet, row, col), Read(b, sheet, row, col), Read(c, sheet, row, col));
    }
  }
}
