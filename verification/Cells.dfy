/** What the Python binding sees of the engine: a value store in layers, kept under the spelling of sheet
    names, beside a graph of formulas that ignores case, and the compatibility cache in front of both. */
module Cells {
  import opened Options
  import opened Literals

  /** A sheet as the caller spells it, a row and a column. */
  type Cell = (string, nat, nat)

  /** What an evaluation makes of a formula, with the number format it derives. */
  datatype Outcome = Outcome(lane: Lane, format: Format)

  /** The value store in layers: what users typed, what evaluations computed, and the base that typed
      values are compacted into; and the number formats set with typed values. */
  datatype Store = Store(
    user: map<Cell, Lane>, computed: map<Cell, Outcome>, base: map<Cell, Lane>, formats: map<Cell, Format>)

  /** `display` is the spelling under which each sheet was registered first, `formulas` are the places with
      a formula and `derived` the results whose number formats it keeps; `staged` are the cells with a formula
      text that waits for an evaluation. */
  datatype Graph = Graph(
    display: map<string, string>, formulas: set<Cell>, derived: map<Cell, Outcome>, staged: set<Cell>)

  /** `logged` says whether edits go through the change log. */
  datatype Engine = Engine(logged: bool, system: DateSystem, policy: Egress, graph: Graph, store: Store)

  function NewEngine(logged: bool, system: DateSystem, policy: Egress): Engine {
    Engine(logged, system, policy, Graph(map[], {}, map[], {}), Store(map[], map[], map[], map[]))
  }

  /** How the registry compares sheet names. Only the concrete runs depend on what it folds. */
  function Fold(name: string): string {
    seq(|name|, i requires 0 <= i < |name| => if 'A' <= name[i] <= 'Z' then name[i] - 'A' + 'a' else name[i])
  }

  /** The spelling of the sheet that `sheet` reaches. */
  function Registered(g: Graph, sheet: string): string {
    if Fold(sheet) in g.display then g.display[Fold(sheet)] else sheet
  }

  function Register(g: Graph, sheet: string): Graph {
    g.(display := g.display[Fold(sheet) := Registered(g, sheet)])
  }

  /** The same place under the registered spelling. */
  function Alias(g: Graph, cell: Cell): Cell {
    (Registered(g, cell.0), cell.1, cell.2)
  }

  // ----- Reading -----

  /** What shows at a place once nothing typed covers it. */
  function Beneath(s: Store, place: Cell): Lane {
    if place in s.computed then s.computed[place].lane else if place in s.base then s.base[place] else NoValue
  }

  function Visible(s: Store, place: Cell): Lane {
    if place in s.user then s.user[place] else Beneath(s, place)
  }

  /** The number format that a read applies; the graph's own formats do not depend on the spelling. */
  function FormatAt(e: Engine, cell: Cell): Format {
    if cell in e.store.formats && e.store.formats[cell] != General then e.store.formats[cell]
    else if cell in e.store.computed && e.store.computed[cell].format != General then e.store.computed[cell].format
    else if Alias(e.graph, cell) in e.graph.derived then e.graph.derived[Alias(e.graph, cell)].format
    else General
  }

  /** `Workbook::get_value`, which looks under the caller's spelling. */
  function DirectRead(e: Engine, cell: Cell): Option<Literal> {
    ReadBack(Visible(e.store, cell), FormatAt(e, cell), e.policy, e.system)
  }

  // ----- Writing -----

  /** `compacted`: the places whose typed values the engine may move into the base while it takes the
      value. `deferred`: the engine keeps the text for the next evaluation instead of editing the cell. */
  datatype Input = ByValue(value: Literal, compacted: set<Cell>) | ByFormula(text: string, deferred: bool)

  datatype Write = Write(cell: Cell, input: Input)

  predicate Deferred(w: Write) {
    w.input.ByFormula? && w.input.deferred
  }

  /** The spelling under which an edit reaches the store: a logged one is mirrored from the graph. */
  function Host(e: Engine, sheet: string): string {
    if e.logged then Registered(e.graph, sheet) else sheet
  }

  function Home(e: Engine, cell: Cell): Cell {
    (Host(e, cell.0), cell.1, cell.2)
  }

  /** The graph has one place per registered sheet, row and column. */
  function PutInGraph(g: Graph, w: Write): Graph {
    if Deferred(w) then g.(staged := g.staged + {w.cell})
    else
      var place := Alias(g, w.cell);
      Register(g, w.cell.0).(
        formulas := if w.input.ByFormula? then g.formulas + {place} else g.formulas - {place},
        derived := g.derived - {place},
        staged := g.staged - {w.cell})
  }

  /** Compaction works on the column of the value that sets it off. */
  predicate SameColumn(place: Cell, home: Cell) {
    place.0 == home.0 && place.2 == home.2
  }

  /** The typed values that a compaction moves. */
  function Moving(typed: map<Cell, Lane>, compacted: set<Cell>, home: Cell): set<Cell> {
    set place | place in compacted && place in typed && SameColumn(place, home)
  }

  function Only<T>(m: map<Cell, T>, places: set<Cell>): map<Cell, T> {
    m - (m.Keys - places)
  }

  /** The edit itself, at its home. */
  function PutTyped(s: Store, home: Cell, lane: Lane, format: Format, compacted: set<Cell>): Store {
    var typed := s.user[home := lane];
    var moving := Moving(typed, compacted, home);
    Store(typed - moving, s.computed - {home}, s.base + Only(typed, moving), s.formats[home := format])
  }

  /** The second copy of a logged value, under the caller's spelling and without its format. */
  function PutPlain(s: Store, cell: Cell, lane: Lane): Store {
    s.(user := s.user[cell := lane])
  }

  /** A formula takes away what is typed at its home, with all formats. */
  function PutFormula(s: Store, home: Cell): Store {
    s.(user := s.user - {home},
       computed := if home in s.computed then s.computed[home := s.computed[home].(format := General)] else s.computed,
       formats := s.formats - {home})
  }

  function PutInStore(e: Engine, w: Write): Store {
    match w.input
    case ByValue(v, compacted) =>
      var lane := StoreAs(v, e.system);
      var s := PutTyped(e.store, Home(e, w.cell), lane, FormatOf(v), compacted);
      if e.logged then PutPlain(s, w.cell, lane) else s
    case ByFormula(_, deferred) => if deferred then e.store else PutFormula(e.store, Home(e, w.cell))
  }

  function Put(e: Engine, w: Write): Engine {
    e.(graph := PutInGraph(e.graph, w), store := PutInStore(e, w))
  }

  /** The writes of one call, in order. */
  function PutAll(e: Engine, writes: seq<Write>): Engine {
    if writes == [] then e else Put(PutAll(e, writes[..|writes| - 1]), writes[|writes| - 1])
  }

  /** Calls that change no cell: switching the change log, and adding a sheet, which registers its spelling
      unless the sheet is there under another. */
  datatype Change = Logging(enabled: bool) | NewSheet(name: string)

  function Changed(e: Engine, change: Change): Engine {
    match change
    case Logging(enabled) => e.(logged := enabled)
    case NewSheet(name) => e.(graph := Register(e.graph, name))
  }

  // ----- Evaluating -----

  /** The staged formulas of `cells` move into the graph, in this order. */
  function Built(g: Graph, cells: seq<Cell>): Graph {
    if cells == [] then g
    else
      var front, last := Built(g, cells[..|cells| - 1]), cells[|cells| - 1];
      if last !in front.staged then front
      else Register(front, last.0).(formulas := front.formulas + {Alias(front, last)}, staged := front.staged - {last})
  }

  /** The results that an evaluation publishes: only places with a formula get one. */
  function Published(g: Graph, results: map<Cell, Outcome>): map<Cell, Outcome> {
    Only(results, g.formulas)
  }

  /** Evaluation publishes under the registered spelling, beneath whatever is typed there. */
  function Recalculated(e: Engine, built: seq<Cell>, results: map<Cell, Outcome>): Engine {
    var graph := Built(e.graph, built);
    var published := Published(graph, results);
    e.(graph := graph.(derived := graph.derived + published),
       store := e.store.(computed := e.store.computed + published))
  }

  // ----- The compatibility cache -----

  /** The value part of the cache, under the caller's spelling: a cell set by value holds it, a cell set
      by formula holds none and sends the reader to the engine. */
  type Cache = map<Cell, Option<Literal>>

  function Cached(input: Input): Option<Literal> {
    match input
    case ByValue(v, _) => Some(v)
    case ByFormula(_, _) => None
  }

  function CacheAll(cache: Cache, writes: seq<Write>): Cache {
    if writes == [] then cache
    else
      var last := writes[|writes| - 1];
      CacheAll(cache, writes[..|writes| - 1])[last.cell := Cached(last.input)]
  }

  predicate Holds(cache: Cache, cell: Cell) {
    cell in cache && cache[cell].Some?
  }

  /** The engine shows at `cell` what it stores of `v`. */
  predicate StoredAs(e: Engine, cell: Cell, v: Literal) {
    Visible(e.store, cell) == StoreAs(v, e.system)
  }

  /** Wherever the cache has a value, the engine shows that value too. */
  ghost predicate Coherent(cache: Cache, e: Engine) {
    forall cell :: Holds(cache, cell) ==> StoredAs(e, cell, cache[cell].value)
  }

  // ----- What a call does to a place -----

  /** All writes of one call name the sheet in one spelling. */
  predicate OneSheet(writes: seq<Write>, sheet: string) {
    forall i :: 0 <= i < |writes| ==> writes[i].cell.0 == sheet
  }

  predicate AllValues(writes: seq<Write>) {
    forall i :: 0 <= i < |writes| ==> writes[i].input.ByValue?
  }

  predicate AllFormulas(writes: seq<Write>) {
    forall i :: 0 <= i < |writes| ==> writes[i].input.ByFormula?
  }

  /** A call sets values or formulas, not both. */
  predicate Uniform(writes: seq<Write>) {
    AllValues(writes) || AllFormulas(writes)
  }

  lemma SameSpellingOne(e: Engine, w: Write)
    ensures Registered(Put(e, w).graph, w.cell.0) == Registered(e.graph, w.cell.0)
  {
    hide Fold, PutInStore;
  }

  lemma {:induction false} SameSpelling(e: Engine, writes: seq<Write>, sheet: string)
    requires OneSheet(writes, sheet)
    ensures PutAll(e, writes).logged == e.logged && PutAll(e, writes).system == e.system
    ensures Registered(PutAll(e, writes).graph, sheet) == Registered(e.graph, sheet)
  {
    if writes != [] {
      var front, last := writes[..|writes| - 1], writes[|writes| - 1];
      SameSpelling(e, front, sheet);
      SameSpellingOne(PutAll(e, front), last);
      hide PutInStore, PutInGraph, Registered;
    }
  }

  /** The last input that a call gives to a cell at once, deferred formulas aside. */
  function LastOwn(writes: seq<Write>, cell: Cell): Option<Input> {
    if writes == [] then None
    else
      var front, last := writes[..|writes| - 1], writes[|writes| - 1];
      if last.cell == cell && !Deferred(last) then Some(last.input) else LastOwn(front, cell)
  }

  predicate Compacts(w: Write, place: Cell) {
    w.input.ByValue? && place in w.input.compacted && place.2 == w.cell.2
  }

  /** Some value of the call compacts the place. */
  predicate Moves(e: Engine, writes: seq<Write>, sheet: string, place: Cell) {
    place.0 == Host(e, sheet) && exists i :: 0 <= i < |writes| && Compacts(writes[i], place)
  }

  /** A compaction within the call moves what is typed at `place` beneath the result computed there. */
  predicate Uncovered(e: Engine, writes: seq<Write>, sheet: string, place: Cell) {
    place in e.store.user && place in e.store.computed && Moves(e, writes, sheet, place)
  }

  /** What shows at a place after a call under `sheet`, told from the store before it. */
  function Shown(e: Engine, writes: seq<Write>, sheet: string, place: Cell): Lane {
    match LastOwn(writes, (sheet, place.1, place.2))
    case Some(ByValue(v, _)) =>
      if place.0 == sheet || place.0 == Host(e, sheet) then StoreAs(v, e.system) else Visible(e.store, place)
    case Some(ByFormula(_, _)) => if place.0 == Host(e, sheet) then Beneath(e.store, place) else Visible(e.store, place)
    case None => if Uncovered(e, writes, sheet, place) then Beneath(e.store, place) else Visible(e.store, place)
  }

  lemma OneFormula(e: Engine, w: Write, place: Cell)
    requires w.input.ByFormula?
    ensures var e' := Put(e, w);
            && Beneath(e'.store, place) == Beneath(e.store, place)
            && Visible(e'.store, place)
               == if !Deferred(w) && place == Home(e, w.cell) then Beneath(e.store, place) else Visible(e.store, place)
  {
    hide Registered, PutInGraph;
  }

  /** Formulas leave results and base alone and take away what is typed at their places. */
  lemma {:induction false} AfterFormulas(e: Engine, writes: seq<Write>, sheet: string, place: Cell)
    requires OneSheet(writes, sheet) && AllFormulas(writes)
    ensures var own, e' := LastOwn(writes, (sheet, place.1, place.2)), PutAll(e, writes);
            && (own.Some? ==> own.value.ByFormula?)
            && Beneath(e'.store, place) == Beneath(e.store, place)
            && Visible(e'.store, place)
               == if own.Some? && place.0 == Host(e, sheet) then Beneath(e.store, place) else Visible(e.store, place)
  {
    if writes != [] {
      var front, last := writes[..|writes| - 1], writes[|writes| - 1];
      SameSpelling(e, front, sheet);
      AfterFormulas(e, front, sheet, place);
      OneFormula(PutAll(e, front), last, place);
      hide PutInStore, PutInGraph, Registered, Visible, Beneath;
    }
  }

  /** What a value does to a place, layer by layer. */
  lemma OneValue(e: Engine, w: Write, place: Cell)
    requires w.input.ByValue?
    ensures var e', home, lane := Put(e, w), Home(e, w.cell), StoreAs(w.input.value, e.system);
            && (place == home ==> place !in e'.store.computed && Visible(e'.store, place) == lane)
            && (place == w.cell && e.logged ==> place in e'.store.user && e'.store.user[place] == lane)
            && (place != home ==>
                  && (place in e'.store.computed <==> place in e.store.computed)
                  && (place in e.store.computed ==> e'.store.computed[place] == e.store.computed[place]))
            && (place != home && !(e.logged && place == w.cell) ==>
                  && (place in e'.store.user <==>
                        place in e.store.user && !(place in w.input.compacted && SameColumn(place, home)))
                  && (place in e'.store.user ==> e'.store.user[place] == e.store.user[place])
                  && (place !in e.store.computed ==> Visible(e'.store, place) == Visible(e.store, place)))
  {
    hide Registered, StoreAs, PutInGraph;
  }

  /** A place that a call of values sets, with nothing computed left under it that could come up. */
  predicate SetTo(e: Engine, sheet: string, place: Cell, lane: Lane) {
    && Visible(e.store, place) == lane
    && (place !in e.store.computed || (place.0 != Host(e, sheet) && place in e.store.user))
  }

  /** A place that a call of values leaves as it was, compaction aside. */
  predicate LeftAs(e: Engine, e': Engine, place: Cell, uncovered: bool) {
    && (place in e'.store.computed <==> place in e.store.computed)
    && (place in e.store.computed ==>
          && e'.store.computed[place] == e.store.computed[place]
          && (place in e'.store.user <==> place in e.store.user && !uncovered))
    && (place in e.store.user && place in e'.store.user ==> e'.store.user[place] == e.store.user[place])
    && (place !in e.store.computed ==> Visible(e'.store, place) == Visible(e.store, place))
  }

  lemma MovesPush(e: Engine, writes: seq<Write>, sheet: string, place: Cell)
    requires writes != []
    ensures Moves(e, writes, sheet, place)
            <==> Moves(e, writes[..|writes| - 1], sheet, place)
                 || (place.0 == Host(e, sheet) && Compacts(writes[|writes| - 1], place))
  {
    var front := writes[..|writes| - 1];
    if i :| 0 <= i < |writes| && Compacts(writes[i], place) && i < |front| {
      assert Compacts(front[i], place);
    }
    if i :| 0 <= i < |front| && Compacts(front[i], place) {
      assert Compacts(writes[i], place);
    }
  }

  lemma SetNow(e: Engine, w: Write, sheet: string, place: Cell)
    requires w.input.ByValue? && w.cell == (sheet, place.1, place.2)
    requires place.0 == sheet || place.0 == Host(e, sheet)
    ensures Host(Put(e, w), sheet) == Host(e, sheet)
    ensures SetTo(Put(e, w), sheet, place, StoreAs(w.input.value, e.system))
  {
    OneValue(e, w, place);
    SameSpellingOne(e, w);
    hide PutInStore, PutInGraph, Registered, StoreAs, Beneath;
  }

  lemma SetStays(e: Engine, w: Write, sheet: string, place: Cell, lane: Lane)
    requires w.input.ByValue? && w.cell.0 == sheet && w.cell != (sheet, place.1, place.2)
    requires (place.0 == sheet || place.0 == Host(e, sheet)) && SetTo(e, sheet, place, lane)
    ensures SetTo(Put(e, w), sheet, place, lane)
  {
    OneValue(e, w, place);
    SameSpellingOne(e, w);
    hide PutInStore, PutInGraph, Registered, StoreAs;
  }

  lemma LeftStays(e: Engine, e1: Engine, w: Write, sheet: string, place: Cell, uncovered: bool)
    requires w.input.ByValue? && w.cell.0 == sheet && LeftAs(e, e1, place, uncovered)
    requires w.cell != (sheet, place.1, place.2) || (place.0 != sheet && place.0 != Host(e1, sheet))
    ensures LeftAs(e, Put(e1, w), place,
                   uncovered || (place in e.store.user && place.0 == Host(e1, sheet) && Compacts(w, place)))
  {
    OneValue(e1, w, place);
    hide PutInStore, PutInGraph, Registered, StoreAs;
  }

  lemma {:induction false} AfterValues(e: Engine, writes: seq<Write>, sheet: string, place: Cell)
    requires OneSheet(writes, sheet) && AllValues(writes)
    ensures var own, e' := LastOwn(writes, (sheet, place.1, place.2)), PutAll(e, writes);
            if own.Some? && (place.0 == sheet || place.0 == Host(e, sheet))
            then own.value.ByValue? && SetTo(e', sheet, place, StoreAs(own.value.value, e.system))
            else LeftAs(e, e', place, place in e.store.user && Moves(e, writes, sheet, place))
  {
    if writes != [] {
      var front, last := writes[..|writes| - 1], writes[|writes| - 1];
      var e1, own := PutAll(e, front), LastOwn(front, (sheet, place.1, place.2));
      SameSpelling(e, front, sheet);
      AfterValues(e, front, sheet, place);
      MovesPush(e, writes, sheet, place);
      hide PutInStore, PutInGraph, Registered, StoreAs, Moves, SetTo, LeftAs;
      if place.0 != sheet && place.0 != Host(e, sheet) {
        LeftStays(e, e1, last, sheet, place, place in e.store.user && Moves(e, front, sheet, place));
      } else if last.cell == (sheet, place.1, place.2) {
        SetNow(e1, last, sheet, place);
      } else if own.Some? {
        SetStays(e1, last, sheet, place, StoreAs(own.value.value, e.system));
      } else {
        LeftStays(e, e1, last, sheet, place, place in e.store.user && Moves(e, front, sheet, place));
      }
    }
  }

  /** What shows after a call is what the description says, for every place. */
  lemma CallShows(e: Engine, writes: seq<Write>, sheet: string, place: Cell)
    requires OneSheet(writes, sheet) && Uniform(writes)
    ensures Visible(PutAll(e, writes).store, place) == Shown(e, writes, sheet, place)
  {
    hide PutAll, LastOwn, StoreAs, Registered;
    if AllValues(writes) {
      AfterValues(e, writes, sheet, place);
    } else {
      AfterFormulas(e, writes, sheet, place);
    }
  }

  // ----- What a call does to the cache -----

  predicate Touches(writes: seq<Write>, cell: Cell) {
    exists i :: 0 <= i < |writes| && writes[i].cell == cell
  }

  lemma {:induction false} CacheUntouched(cache: Cache, writes: seq<Write>, cell: Cell)
    requires !Touches(writes, cell)
    ensures Holds(CacheAll(cache, writes), cell) <==> Holds(cache, cell)
    ensures Holds(cache, cell) ==> CacheAll(cache, writes)[cell] == cache[cell]
  {
    if writes != [] {
      assert writes[|writes| - 1].cell != cell;
      assert !Touches(writes[..|writes| - 1], cell);
      CacheUntouched(cache, writes[..|writes| - 1], cell);
    }
  }

  /** A value that the cache takes from a call is the last that the call gives to the cell. */
  lemma {:induction false} CachedIsLast(cache: Cache, writes: seq<Write>, cell: Cell)
    requires Touches(writes, cell) && Holds(CacheAll(cache, writes), cell)
    ensures var own := LastOwn(writes, cell);
            own.Some? && own.value.ByValue? && own.value.value == CacheAll(cache, writes)[cell].value
  {
    var front, last := writes[..|writes| - 1], writes[|writes| - 1];
    if last.cell != cell {
      var i :| 0 <= i < |writes| && writes[i].cell == cell;
      assert front[i].cell == cell;
      CachedIsLast(cache, front, cell);
    }
  }

  lemma {:induction false} UntouchedIsNotOwn(writes: seq<Write>, cell: Cell)
    requires !Touches(writes, cell)
    ensures LastOwn(writes, cell).None?
  {
    if writes != [] {
      assert writes[|writes| - 1].cell != cell;
      assert !Touches(writes[..|writes| - 1], cell);
      UntouchedIsNotOwn(writes[..|writes| - 1], cell);
    }
  }

  /** What a call leaves to show is, for every cell the cache has a value for, that value. */
  ghost predicate Spares(cache: Cache, e: Engine, writes: seq<Write>, sheet: string) {
    forall cell :: Holds(cache, cell) ==> Shown(e, writes, sheet, cell) == StoreAs(cache[cell].value, e.system)
  }

  /** A call whose writes reach the engine, and not the cache, keeps the two coherent exactly when it
      spares what the cache holds. */
  lemma UncachedWritesIff(cache: Cache, e: Engine, writes: seq<Write>, sheet: string)
    requires OneSheet(writes, sheet) && Uniform(writes)
    ensures Coherent(cache, PutAll(e, writes)) <==> Spares(cache, e, writes, sheet)
  {
    SameSpelling(e, writes, sheet);
    forall cell | Holds(cache, cell)
      ensures Visible(PutAll(e, writes).store, cell) == Shown(e, writes, sheet, cell)
    {
      CallShows(e, writes, sheet, cell);
    }
    hide PutAll, Shown, Visible, StoreAs;
  }

  /** The special case of formulas: beneath the places they reach must lie what the cache holds. */
  lemma FailedFormulaBatch(cache: Cache, e: Engine, committed: seq<Write>, sheet: string)
    requires Coherent(cache, e) && OneSheet(committed, sheet) && AllFormulas(committed)
    ensures Coherent(cache, PutAll(e, committed))
            <==> forall cell :: Holds(cache, cell) && Reached(e, committed, sheet, cell) ==>
                   Beneath(e.store, cell) == StoreAs(cache[cell].value, e.system)
  {
    UncachedWritesIff(cache, e, committed, sheet);
    forall cell | Holds(cache, cell)
      ensures Shown(e, committed, sheet, cell)
              == if Reached(e, committed, sheet, cell) then Beneath(e.store, cell) else Visible(e.store, cell)
    {
      AfterFormulas(e, committed, sheet, cell);
      CallShows(e, committed, sheet, cell);
    }
    hide PutAll, Shown, Visible, Beneath, StoreAs, Reached;
  }

  /** A call under `sheet` edits the place itself, or mirrors an edit to it. */
  predicate Reached(e: Engine, writes: seq<Write>, sheet: string, place: Cell) {
    place.0 == Host(e, sheet) && LastOwn(writes, (sheet, place.1, place.2)).Some?
  }

  /** The call leaves another value at a cell that it does not name and that the cache has a value for. */
  ghost predicate Overtaken(cache: Cache, e: Engine, writes: seq<Write>, sheet: string, place: Cell) {
    && Holds(cache, place) && !Touches(writes, place)
    && Shown(e, writes, sheet, place) != StoreAs(cache[place].value, e.system)
  }

  /** A call that updates engine and cache keeps them coherent exactly when it overtakes nothing. */
  lemma CachedWritesIff(cache: Cache, e: Engine, writes: seq<Write>, sheet: string)
    requires OneSheet(writes, sheet) && Uniform(writes)
    ensures Coherent(CacheAll(cache, writes), PutAll(e, writes))
            <==> forall place :: !Overtaken(cache, e, writes, sheet, place)
  {
    var after := CacheAll(cache, writes);
    SameSpelling(e, writes, sheet);
    forall cell | Holds(after, cell)
      ensures StoredAs(PutAll(e, writes), cell, after[cell].value) <==> !Overtaken(cache, e, writes, sheet, cell)
    {
      CallShows(e, writes, sheet, cell);
      if Touches(writes, cell) {
        CachedIsLast(cache, writes, cell);
        NamedInSheet(writes, sheet, cell);
      } else {
        CacheUntouched(cache, writes, cell);
      }
      hide PutAll, LastOwn, CacheAll, Visible, StoreAs, Registered;
    }
    forall place | Overtaken(cache, e, writes, sheet, place) ensures Holds(after, place) {
      CacheUntouched(cache, writes, place);
    }
    hide PutAll, CacheAll, StoredAs, Overtaken;
  }

  lemma NamedInSheet(writes: seq<Write>, sheet: string, cell: Cell)
    requires OneSheet(writes, sheet) && Touches(writes, cell)
    ensures cell.0 == sheet
  {
  }

  /** Only two things overtake a value: a logged edit under another spelling of its sheet, and a
      compaction that uncovers a result beneath it. */
  lemma WhoIsOvertaken(cache: Cache, e: Engine, writes: seq<Write>, sheet: string, place: Cell)
    requires Coherent(cache, e) && Overtaken(cache, e, writes, sheet, place)
    ensures Uncovered(e, writes, sheet, place) || (e.logged && place.0 != sheet && Reached(e, writes, sheet, place))
  {
    if place.0 == sheet {
      UntouchedIsNotOwn(writes, place);
    }
    hide LastOwn, Visible, Beneath, StoreAs, Registered, Uncovered;
  }

  /** A call under the spelling that its edits have in the store, with nothing computed beneath the cached
      values that it compacts, is always safe. */
  lemma WritesKeepCoherent(cache: Cache, e: Engine, writes: seq<Write>, sheet: string)
    requires Coherent(cache, e) && OneSheet(writes, sheet) && Uniform(writes) && Host(e, sheet) == sheet
    requires forall place :: Holds(cache, place) ==> !Uncovered(e, writes, sheet, place)
    ensures Coherent(CacheAll(cache, writes), PutAll(e, writes))
  {
    CachedWritesIff(cache, e, writes, sheet);
    forall place ensures !Overtaken(cache, e, writes, sheet, place) {
      if Overtaken(cache, e, writes, sheet, place) {
        WhoIsOvertaken(cache, e, writes, sheet, place);
      }
      hide Coherent, PutAll, CacheAll, Uncovered, Shown, Touches, LastOwn, Registered;
    }
    hide Overtaken, Coherent, Uncovered, PutAll, CacheAll;
  }

  // ----- Evaluations and the cache -----

  /** An evaluation puts another result in sight where the cache has a value. */
  ghost predicate Exposed(cache: Cache, e: Engine, built: seq<Cell>, results: map<Cell, Outcome>, place: Cell) {
    && Holds(cache, place) && place in Published(Built(e.graph, built), results)
    && place !in e.store.user && results[place].lane != StoreAs(cache[place].value, e.system)
  }

  /** Evaluation keeps the cache right exactly when no result differs from a value of the cache that nothing
      typed covers. */
  lemma EvaluationIff(cache: Cache, e: Engine, built: seq<Cell>, results: map<Cell, Outcome>)
    requires Coherent(cache, e)
    ensures Coherent(cache, Recalculated(e, built, results))
            <==> forall place :: !Exposed(cache, e, built, results, place)
  {
    hide Built, StoreAs;
    var after := Recalculated(e, built, results);
    forall place | Holds(cache, place)
      ensures StoredAs(after, place, cache[place].value) <==> !Exposed(cache, e, built, results, place)
    {
      assert StoredAs(e, place, cache[place].value);
    }
  }

  // ----- Reading through the cache -----

  /** A cached read gives Python what a direct read under the same spelling would, exactly when the cached
      value survives the store with the number format in force at the cell. */
  lemma CachedReadIff(cache: Cache, e: Engine, cell: Cell)
    requires Coherent(cache, e) && Holds(cache, cell)
    ensures ReadByPython(cache[cell]) == ReadByPython(DirectRead(e, cell))
            <==> Survives(cache[cell].value, FormatAt(e, cell), e.policy, e.system)
  {
    SurvivesIff(cache[cell].value, FormatAt(e, cell), e.policy, e.system);
    hide ToPython, ReadBack, StoreAs, Survives, FormatAt, Visible;
    assert StoredAs(e, cell, cache[cell].value);
  }

  /** Right after a value is set, it reads with its own format, or with none where the log gave the cell
      only the plain copy and the store has no format there. */
  lemma ReadAfterWrite(e: Engine, cell: Cell, v: Literal, compacted: set<Cell>)
    requires Home(e, cell) == cell || (cell !in e.store.formats && cell !in e.store.computed)
    ensures var e' := Put(e, Write(cell, ByValue(v, compacted)));
            && Visible(e'.store, cell) == StoreAs(v, e.system)
            && FormatAt(e', cell) == if Home(e, cell) == cell then FormatOf(v) else General
  {
    var w := Write(cell, ByValue(v, compacted));
    OneValue(e, w, cell);
    SameSpellingOne(e, w);
    hide Fold, StoreAs, FormatOf, Visible, Registered, Moving, Only;
  }
}
