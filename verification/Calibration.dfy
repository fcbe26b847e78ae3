/** The calibration fixture: a workbook of four branches of chained formulas, the closed form that
    predicts the end of a branch, and the count of formulas an evaluation may touch. Numbers are exact
    reals. */
module Calibration {
  import opened Options

  newtype u32 = x: int | 0 <= x < 0x1_0000_0000

  newtype u64 = x: int | 0 <= x < 0x1_0000_0000_0000_0000

  // ----- The shape -----

  datatype FixtureShape = FixtureShape(formulas: u32, tiny: u32, medium: u32, large: u32, dirty: u32)

  function Max(a: u32, b: u32): u32 {
    if a < b then b else a
  }

  function CheckedSub(a: u32, b: u32): Option<u32> {
    if b <= a then Some(a - b) else None
  }

  /** `FixtureShape::new`. Every u32 step is in range, and the second error never comes up. */
  function NewShape(formulas: u32): (r: Option<FixtureShape>)
    ensures r.Some? <==> formulas >= 200
    ensures r.Some? ==>
      var s := r.value;
      && s.formulas == formulas
      && s.tiny as int + s.medium as int + s.large as int + s.dirty as int == formulas as int
      && 0 < s.tiny < s.medium < s.large && s.dirty == 8
      && 100 * s.tiny as int < formulas as int && 10 * s.medium as int <= formulas as int < 10 * s.medium as int + 10
  {
    if formulas < 200 then None
    else
      var tiny, medium, dirty := Max(formulas / 200, 1), Max(formulas / 10, 1), 8;
      var large := CheckedSub(formulas, tiny + medium + dirty);
      if large.None? then None else Some(FixtureShape(formulas, tiny, medium, large.value, dirty))
  }

  // ----- The sheet -----

  /** A column and a row. */
  type Place = (int, int)

  datatype Expr =
    | Const(value: real)
    | Ref(place: Place)
    | Add(l: Expr, r: Expr)
    | Sub(l: Expr, r: Expr)
    | Mul(l: Expr, r: Expr)

  datatype Content = Number(value: real) | Formula(expr: Expr)

  type Cells = map<Place, Content>

  function First(): Expr {
    Sub(Mul(Ref((1, 1)), Const(1.015)), Const(0.25))
  }

  function Next(row: int): Expr {
    Add(Mul(Ref((2, row - 1)), Const(1.0001)), Mul(Ref((1, 1)), Const(0.00001)))
  }

  function Populated(cells: Cells, formulas: int, seed: real): Cells
    decreases formulas
  {
    if formulas <= 1 then cells[(1, 1) := Number(seed)][(2, 1) := Formula(First())]
    else Populated(cells, formulas - 1, seed)[(2, formulas) := Formula(Next(formulas))]
  }

  class Sheet {
    var cells: Cells

    /** `populate_finance_branch`. */
    method PopulateFinanceBranch(formulas: u32, seed: real)
      modifies this
      ensures cells == Populated(old(cells), formulas as int, seed)
    {
      cells := cells[(1, 1) := Number(seed)];
      cells := cells[(2, 1) := Formula(First())];
      var row: int := 2;
      while row <= formulas as int
        invariant 2 <= row && (row == 2 || row <= formulas as int + 1)
        invariant cells == Populated(old(cells), row - 1, seed)
      {
        cells := cells[(2, row) := Formula(Next(row))];
        row := row + 1;
      }
      assert Populated(old(cells), row - 1, seed) == Populated(old(cells), formulas as int, seed);
    }
  }

  /** The sheet holds a branch, whatever else it holds. */
  ghost predicate IsBranch(cells: Cells, formulas: nat, seed: real) {
    && (1, 1) in cells && cells[(1, 1)] == Number(seed)
    && (2, 1) in cells && cells[(2, 1)] == Formula(First())
    && forall row :: 2 <= row <= formulas ==> (2, row) in cells && cells[(2, row)] == Formula(Next(row))
  }

  lemma {:induction false} PopulatedIsBranch(cells: Cells, formulas: nat, seed: real)
    requires 1 <= formulas
    ensures IsBranch(Populated(cells, formulas, seed), formulas, seed)
    decreases formulas
  {
    if formulas > 1 {
      PopulatedIsBranch(cells, formulas - 1, seed);
    }
  }

  // ----- What the sheet computes -----

  function Meaning(e: Expr, v: Place -> real): real {
    match e
    case Const(x) => x
    case Ref(p) => v(p)
    case Add(l, r) => Meaning(l, v) + Meaning(r, v)
    case Sub(l, r) => Meaning(l, v) - Meaning(r, v)
    case Mul(l, r) => Meaning(l, v) * Meaning(r, v)
  }

  function Holds(content: Content, v: Place -> real): real {
    match content
    case Number(x) => x
    case Formula(e) => Meaning(e, v)
  }

  /** `v` gives every cell its number, or the value of its formula under `v` itself. */
  ghost predicate Solves(cells: Cells, v: Place -> real) {
    forall p <- cells :: v(p) == Holds(cells[p], v)
  }

  lemma Formulas(v: Place -> real, row: int)
    ensures Meaning(First(), v) == v((1, 1)) * 1.015 - 0.25
    ensures Meaning(Next(row), v) == v((2, row - 1)) * 1.0001 + v((1, 1)) * 0.00001
  {
    var l, r := Mul(Ref((2, row - 1)), Const(1.0001)), Mul(Ref((1, 1)), Const(0.00001));
    assert Meaning(l, v) == v((2, row - 1)) * 1.0001;
    assert Meaning(r, v) == v((1, 1)) * 0.00001;
    assert Meaning(Add(l, r), v) == Meaning(l, v) + Meaning(r, v);
  }

  lemma References(row: int)
    ensures Refs(First()) == {(1, 1)} && Refs(Next(row)) == {(2, row - 1), (1, 1)}
  {
    var l, r := Mul(Ref((2, row - 1)), Const(1.0001)), Mul(Ref((1, 1)), Const(0.00001));
    assert Refs(Ref((2, row - 1))) == {(2, row - 1)} && Refs(Ref((1, 1))) == {(1, 1)};
    assert Refs(l) == Refs(l.l) + Refs(l.r) && Refs(r) == Refs(r.l) + Refs(r.r);
    assert Refs(Add(l, r)) == Refs(l) + Refs(r);
    assert Refs(Mul(Ref((1, 1)), Const(1.015))) == {(1, 1)};
  }

  function Pow(x: real, k: nat): real {
    if k == 0 then 1.0 else x * Pow(x, k - 1)
  }

  const RATIO := 1.0001

  /** The last of `formulas` cells. */
  function Last(seed: real, formulas: nat): real
    requires formulas >= 1
  {
    if formulas == 1 then seed * 1.015 - 0.25 else Last(seed, formulas - 1) * 1.0001 + seed * 0.00001
  }

  lemma {:induction false} SolutionIsRecurrence(cells: Cells, formulas: nat, seed: real, v: Place -> real, row: nat)
    requires 1 <= row <= formulas && IsBranch(cells, formulas, seed) && Solves(cells, v)
    ensures v((2, row)) == Last(seed, row)
    decreases row
  {
    hide Meaning, First, Next;
    Formulas(v, row);
    assert v((1, 1)) == Holds(Number(seed), v);
    if row > 1 {
      SolutionIsRecurrence(cells, formulas, seed, v, row - 1);
      assert v((2, row)) == Holds(Formula(Next(row)), v);
    } else {
      assert v((2, row)) == Holds(Formula(First()), v);
    }
  }

  /** A branch written to an empty sheet has a solution: the recurrence. */
  lemma RecurrenceSolves(formulas: nat, seed: real)
    requires 1 <= formulas
    ensures Solves(Populated(map[], formulas, seed), Values(seed))
  {
    hide Populated, Meaning, First, Next;
    var v := Values(seed);
    var written := Populated(map[], formulas, seed);
    FreshKeys(formulas, seed);
    PopulatedIsBranch(map[], formulas, seed);
    forall p | p in written ensures v(p) == Holds(written[p], v) {
      Formulas(v, p.1);
    }
  }

  function Values(seed: real): Place -> real {
    (p: Place) => if p.0 == 2 && p.1 >= 1 then Last(seed, p.1) else seed
  }

  lemma {:induction false} FreshKeys(formulas: nat, seed: real)
    requires 1 <= formulas
    ensures forall p <- Populated(map[], formulas, seed) :: p == (1, 1) || (p.0 == 2 && 1 <= p.1 <= formulas)
    decreases formulas
  {
    if formulas > 1 {
      FreshKeys(formulas - 1, seed);
    }
  }

  // ----- The oracle -----

  function AsI32(x: u32): int {
    if x < 0x8000_0000 then x as int else x as int - 0x1_0000_0000
  }

  lemma {:induction false} PowGrows(k: nat)
    ensures Pow(RATIO, k) >= 1.0
    ensures k > 0 ==> Pow(RATIO, k) > 1.0
  {
    if k > 0 {
      PowGrows(k - 1);
    }
  }

  function PowI(k: int): real {
    if k >= 0 then Pow(RATIO, k)
    else
      PowGrows(-k);
      1.0 / Pow(RATIO, -k)
  }

  function AnalyticalTerminal(seed: real, formulas: u32): real
    requires formulas >= 1
  {
    var first := seed * 1.015 - 0.25;
    if formulas == 1 then first
    else
      var power := PowI(AsI32(formulas - 1));
      first * power + seed * 0.00001 * (power - 1.0) / (RATIO - 1.0)
  }

  /** The closed form over a power: the distance from the fixed point is scaled by it. */
  function Closed(seed: real, power: real): real {
    (1.115 * seed - 0.25) * power - 0.1 * seed
  }

  lemma ClosedForm(seed: real, power: real)
    ensures (seed * 1.015 - 0.25) * power + seed * 0.00001 * (power - 1.0) / (RATIO - 1.0) == Closed(seed, power)
  {
    var x := seed * (power - 1.0);
    assert seed * 0.00001 * (power - 1.0) == 0.00001 * x;
    assert 0.00001 * x / 0.0001 == 0.1 * x;
    assert x == seed * power - seed;
  }

  lemma {:induction false} LastIsClosed(seed: real, formulas: nat)
    requires formulas >= 1
    ensures Last(seed, formulas) == Closed(seed, Pow(RATIO, formulas - 1))
    decreases formulas
  {
    if formulas > 1 {
      LastIsClosed(seed, formulas - 1);
      var power := Pow(RATIO, formulas - 2);
      var d := 1.115 * seed - 0.25;
      assert (d * power) * 1.0001 == d * (1.0001 * power);
    }
  }

  /** The closed form is the recurrence exactly when the exponent survives the cast to i32, or the
      branch starts at its fixed point and never moves. */
  lemma TerminalIff(seed: real, formulas: u32)
    requires formulas >= 1
    ensures AnalyticalTerminal(seed, formulas) == Last(seed, formulas as nat)
            <==> formulas <= 0x8000_0000 || 1.115 * seed == 0.25
  {
    LastIsClosed(seed, formulas as nat);
    if formulas > 1 {
      var power := PowI(AsI32(formulas - 1));
      ClosedForm(seed, power);
      if formulas > 0x8000_0000 {
        WrappedPowerIsSmall(formulas);
        var d, far := 1.115 * seed - 0.25, Pow(RATIO, formulas as nat - 1);
        assert Closed(seed, power) - Closed(seed, far) == d * (power - far);
        assert d * (power - far) == 0.0 <==> d == 0.0;
      }
    }
  }

  lemma WrappedPowerIsSmall(formulas: u32)
    requires formulas > 0x8000_0000
    ensures PowI(AsI32(formulas - 1)) < Pow(RATIO, formulas as nat - 1)
  {
    var k := AsI32(formulas - 1);
    PowGrows(-k);
    PowGrows(formulas as nat - 1);
    var p := Pow(RATIO, -k);
    assert 1.0 / p * p == 1.0;
    assert 1.0 / p <= 1.0;
  }

  /** Whatever the sheet held before, solving it after the branch is written puts the closed form in
      the last cell of the branch, under the same condition. */
  lemma OracleAgreesIff(cells: Cells, formulas: u32, seed: real, v: Place -> real)
    requires 1 <= formulas && Solves(Populated(cells, formulas as int, seed), v)
    ensures v((2, formulas as int)) == AnalyticalTerminal(seed, formulas)
            <==> formulas <= 0x8000_0000 || 1.115 * seed == 0.25
  {
    hide Solves, Populated, IsBranch, AnalyticalTerminal, Last;
    PopulatedIsBranch(cells, formulas as nat, seed);
    SolutionIsRecurrence(Populated(cells, formulas as nat, seed), formulas as nat, seed, v, formulas as nat);
    TerminalIff(seed, formulas);
  }

  // ----- The work oracle -----

  function Refs(e: Expr): set<Place> {
    match e
    case Const(_) => {}
    case Ref(p) => {p}
    case _ => Refs(e.l) + Refs(e.r)
  }

  /** `s` holds, with every formula in it, what the formula refers to. */
  ghost predicate Precedents(cells: Cells, s: set<Place>) {
    forall p <- s :: p in cells && (cells[p].Formula? ==> Refs(cells[p].expr) <= s)
  }

  ghost predicate IsCone(cells: Cells, target: Place, s: set<Place>) {
    && target in s && Precedents(cells, s)
    && forall other :: Precedents(cells, other) && target in other ==> s <= other
  }

  function FormulasIn(cells: Cells, s: set<Place>): set<Place>
    requires s <= cells.Keys
  {
    set p | p in s && cells[p].Formula?
  }

  function Chain(row: nat): set<Place> {
    if row == 0 then {(1, 1)} else Chain(row - 1) + {(2, row)}
  }

  lemma {:induction false} ChainIs(row: nat)
    ensures forall p :: p in Chain(row) <==> p == (1, 1) || (p.0 == 2 && 1 <= p.1 <= row)
    ensures |Chain(row)| == row + 1
  {
    if row > 0 {
      ChainIs(row - 1);
    }
  }

  lemma {:induction false} ChainIsNeeded(cells: Cells, formulas: nat, seed: real, row: nat, other: set<Place>)
    requires 1 <= row <= formulas && IsBranch(cells, formulas, seed)
    requires Precedents(cells, other) && (2, row) in other
    ensures forall k :: 1 <= k <= row ==> (2, k) in other
    ensures (1, 1) in other
    decreases row
  {
    hide First, Next, Refs;
    References(row);
    if row > 1 {
      assert cells[(2, row)] == Formula(Next(row));
      assert Refs(Next(row)) <= other;
      assert (2, row - 1) in Refs(Next(row));
      ChainIsNeeded(cells, formulas, seed, row - 1, other);
    } else {
      assert cells[(2, row)] == Formula(First());
      assert Refs(First()) <= other;
      assert (1, 1) in Refs(First());
    }
  }

  lemma ChainIsClosed(cells: Cells, formulas: nat, seed: real)
    requires 1 <= formulas && IsBranch(cells, formulas, seed)
    ensures Precedents(cells, Chain(formulas))
  {
    hide First, Next, Refs, Chain;
    ChainIs(formulas);
    forall p | p in Chain(formulas)
      ensures p in cells && (cells[p].Formula? ==> Refs(cells[p].expr) <= Chain(formulas))
    {
      References(p.1);
      if p != (1, 1) {
        assert p == (2, p.1);
      }
    }
  }

  lemma ChainFormulas(cells: Cells, formulas: nat, seed: real)
    requires 1 <= formulas && IsBranch(cells, formulas, seed) && Precedents(cells, Chain(formulas))
    ensures |FormulasIn(cells, Chain(formulas))| == formulas
  {
    hide First, Next, Refs, Chain;
    ChainIs(formulas);
    forall p | p in Chain(formulas) && p != (1, 1) ensures cells[p].Formula? {
      assert p == (2, p.1);
    }
    assert FormulasIn(cells, Chain(formulas)) == Chain(formulas) - {(1, 1)};
  }

  /** The last cell of a branch needs the whole branch and its seed, and nothing else: as many formulas
      as the branch has. */
  lemma TargetCone(cells: Cells, formulas: nat, seed: real)
    requires 1 <= formulas && IsBranch(cells, formulas, seed)
    ensures IsCone(cells, (2, formulas), Chain(formulas))
    ensures |FormulasIn(cells, Chain(formulas))| == formulas
  {
    hide First, Next, Refs, Chain;
    ChainIsClosed(cells, formulas, seed);
    ChainIs(formulas);
    assert (2, formulas) in Chain(formulas);
    forall other | Precedents(cells, other) && (2, formulas) in other ensures Chain(formulas) <= other {
      ChainIsNeeded(cells, formulas, seed, formulas, other);
      forall p | p in Chain(formulas) ensures p in other {
        assert p == (1, 1) || p == (2, p.1);
      }
    }
    ChainFormulas(cells, formulas, seed);
  }

  datatype Scope = Tiny | Medium | Full

  function Oracle(shape: FixtureShape, scope: Scope): u32 {
    match scope
    case Tiny => shape.tiny
    case Medium => shape.medium
    case Full => shape.formulas
  }

  /** The branches a scope targets, each at its last cell. */
  function Targets(shape: FixtureShape, scope: Scope): seq<u32> {
    match scope
    case Tiny => [shape.tiny]
    case Medium => [shape.medium]
    case Full => [shape.tiny, shape.medium, shape.large, shape.dirty]
  }

  /** The formulas that the targeted cells need, branch by branch on sheets of their own, given a cone
      for each target. */
  function Needed(sheets: seq<Cells>, cones: seq<set<Place>>): nat
    requires |sheets| == |cones|
  {
    if sheets == [] then 0 else |FormulasIn(sheets[0], cones[0] * sheets[0].Keys)| + Needed(sheets[1..], cones[1..])
  }

  function Sum(s: seq<u32>): nat {
    if s == [] then 0 else s[0] as nat + Sum(s[1..])
  }

  lemma SumStep(x: u32, s: seq<u32>)
    ensures Sum([x] + s) == x as nat + Sum(s)
  {
    assert ([x] + s)[1..] == s;
  }

  ghost predicate ConesOf(sheets: seq<Cells>, targets: seq<u32>, seeds: seq<real>, cones: seq<set<Place>>) {
    && |sheets| == |targets| == |seeds| == |cones|
    && forall i :: 0 <= i < |targets| ==>
      && targets[i] >= 1 && IsBranch(sheets[i], targets[i] as nat, seeds[i])
      && IsCone(sheets[i], (2, targets[i] as int), cones[i])
  }

  lemma {:induction false} NeededIsSum(sheets: seq<Cells>, targets: seq<u32>, seeds: seq<real>, cones: seq<set<Place>>)
    requires ConesOf(sheets, targets, seeds, cones)
    ensures Needed(sheets, cones) == Sum(targets)
    decreases |targets|
  {
    hide IsBranch, FormulasIn, Chain, Precedents;
    if targets != [] {
      var n := targets[0] as nat;
      TargetCone(sheets[0], n, seeds[0]);
      assert cones[0] == Chain(n);
      assert cones[0] * sheets[0].Keys == cones[0] by {
        ConeInSheet(sheets[0], cones[0]);
      }
      NeededIsSum(sheets[1..], targets[1..], seeds[1..], cones[1..]);
    }
  }

  lemma ConeInSheet(cells: Cells, s: set<Place>)
    requires Precedents(cells, s)
    ensures s <= cells.Keys
  {
  }

  lemma SumOfShape(shape: FixtureShape, scope: Scope)
    requires shape.tiny as int + shape.medium as int + shape.large as int + shape.dirty as int == shape.formulas as int
    ensures Sum(Targets(shape, scope)) == Oracle(shape, scope) as nat
  {
    assert Targets(shape, Full) == [shape.tiny] + ([shape.medium] + ([shape.large] + ([shape.dirty] + [])));
    assert Targets(shape, Tiny) == [shape.tiny] + [] && Targets(shape, Medium) == [shape.medium] + [];
    SumStep(shape.dirty, []);
    SumStep(shape.large, [shape.dirty] + []);
    SumStep(shape.medium, [shape.large] + ([shape.dirty] + []));
    SumStep(shape.tiny, [shape.medium] + ([shape.large] + ([shape.dirty] + [])));
    SumStep(shape.tiny, []);
    SumStep(shape.medium, []);
  }

  /** The oracle of a scope is the number of formulas its targets need. */
  lemma OracleCountsNeeded(
    formulas: u32, scope: Scope, sheets: seq<Cells>, seeds: seq<real>, cones: seq<set<Place>>)
    requires formulas >= 200
    requires ConesOf(sheets, Targets(NewShape(formulas).value, scope), seeds, cones)
    ensures Needed(sheets, cones) == Oracle(NewShape(formulas).value, scope) as nat
  {
    hide ConesOf, Targets, Oracle, Needed, Sum;
    SumOfShape(NewShape(formulas).value, scope);
    NeededIsSum(sheets, Targets(NewShape(formulas).value, scope), seeds, cones);
  }

  /** `allowed_oracle`: a hundredth more, rounded up, and never saturated. */
  function AllowedOracle(oracle: u32): (r: u64)
    ensures 100 * (r as int - 1) < 101 * oracle as int <= 100 * r as int
  {
    SaturatingAdd(oracle as u64, DivCeil(oracle as u64, 100))
  }

  function SaturatingAdd(a: u64, b: u64): u64 {
    if a <= 0xFFFF_FFFF_FFFF_FFFF - b then a + b else 0xFFFF_FFFF_FFFF_FFFF
  }

  function DivCeil(a: u64, b: u64): u64
    requires b > 1
  {
    if a % b == 0 then a / b else a / b + 1
  }
}
