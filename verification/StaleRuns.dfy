/** Runs of whole calls, one after the other, and five short ones that show when the compatibility cache and
    the engine part and when they do not. */
module StaleRuns {
  import opened Options
  import opened Literals
  import opened Cells
  import opened CacheProtocol

  /** Nobody is at work. */
  predicate Quiet(s: State) {
    && s.gates.gil.None? && s.gates.wb == FREE && s.gates.cacheLock == FREE
    && s.data.committed == s.data.engine
    && forall t :: t in s.threads ==> s.threads[t].Idle?
  }

  function CallSteps(t: Tid, call: Call): seq<(Tid, Action)> {
    [] + [(t, Begin(WriteOp(call)))] + [(t, Acquire)] + [(t, Edit(|call.writes|))] + [(t, Acquire)] + [(t, Publish)]
    + [(t, Release)]
  }

  /** A call that fails behind its first `taken` writes. */
  function FailSteps(t: Tid, call: Call, taken: nat): seq<(Tid, Action)> {
    [] + [(t, Begin(WriteOp(call)))] + [(t, Acquire)] + [(t, Edit(taken))] + [(t, Release)]
  }

  /** The state of a call on its own, with the workbook lock. */
  function Inside(s: State, t: Tid, pc: Pc, d: Data): State {
    State(s.threads[t := pc], TakeGil(s.gates, t).(wb := Lock(Some(t), {})), d)
  }

  lemma Overwrite(threads: map<Tid, Pc>, t: Tid, a: Pc, b: Pc)
    ensures threads[t := a][t := b] == threads[t := b]
  {
  }

  lemma EnterAlone(s: State, t: Tid, call: Call)
    requires Quiet(s) && t in s.threads
    ensures Run(s, [] + [(t, Begin(WriteOp(call)))] + [(t, Acquire)]) == Some(Inside(s, t, Editing(call), s.data))
  {
    hide Effect;
    Overwrite(s.threads, t, WaitWb(WriteOp(call)), Editing(call));
    var s1 := State(s.threads[t := WaitWb(WriteOp(call))], TakeGil(s.gates, t), s.data);
    assert Step(s, t, Begin(WriteOp(call))) == Some(s1) by {
      NoEffect(s.data, Idle, Begin(WriteOp(call)));
    }
    assert Step(s1, t, Acquire) == Some(Inside(s, t, Editing(call), s.data)) by {
      NoEffect(s.data, WaitWb(WriteOp(call)), Acquire);
    }
    hide Run, Step;
    assert Run(s, []) == Some(s) by {
      RunNothing(s);
    }
    Grow(s, [], s, t, Begin(WriteOp(call)), s1);
    Grow(s, [] + [(t, Begin(WriteOp(call)))], s1, t, Acquire, Inside(s, t, Editing(call), s.data));
  }

  lemma LeaveAlone(s: State, t: Tid, d: Data)
    requires Quiet(s) && t in s.threads
    ensures Step(Inside(s, t, Leaving, d), t, Release) == Some(s.(data := d))
  {
    assert s.threads[t := Leaving][t := Idle] == s.threads;
  }

  /** The same with the cache lock as well. */
  function InsideBoth(s: State, t: Tid, pc: Pc, d: Data): State {
    State(s.threads[t := pc], TakeGil(s.gates, t).(wb := Lock(Some(t), {}), cacheLock := Lock(Some(t), {})), d)
  }

  lemma EditAlone(s: State, t: Tid, call: Call)
    requires Quiet(s) && t in s.threads
    ensures Step(Inside(s, t, Editing(call), s.data), t, Edit(|call.writes|))
         == Some(Inside(s, t, WaitCache(WriteOp(call)), s.data.(engine := PutAll(s.data.engine, call.writes))))
  {
    hide PutAll, CacheAll;
    Overwrite(s.threads, t, Editing(call), WaitCache(WriteOp(call)));
    assert call.writes[..|call.writes|] == call.writes;
  }

  lemma PublishAlone(s: State, t: Tid, call: Call, d: Data)
    requires Quiet(s) && t in s.threads
    ensures Step(Inside(s, t, WaitCache(WriteOp(call)), d), t, Acquire)
         == Some(InsideBoth(s, t, Caching(WriteOp(call)), d))
    ensures Step(InsideBoth(s, t, Caching(WriteOp(call)), d), t, Publish)
         == Some(Inside(s, t, Leaving, Data(d.engine, CacheAll(d.cache, call.writes), d.engine)))
  {
    hide PutAll, CacheAll;
    Overwrite(s.threads, t, WaitCache(WriteOp(call)), Caching(WriteOp(call)));
    Overwrite(s.threads, t, Caching(WriteOp(call)), Leaving);
  }

  /** A call on its own runs through. */
  lemma CallAlone(s: State, t: Tid, call: Call)
    requires Quiet(s) && t in s.threads
    ensures var e := PutAll(s.data.engine, call.writes);
            Run(s, CallSteps(t, call)) == Some(s.(data := Data(e, CacheAll(s.data.cache, call.writes), e)))
  {
    var e := PutAll(s.data.engine, call.writes);
    var d3 := s.data.(engine := e);
    var d5 := Data(e, CacheAll(s.data.cache, call.writes), e);
    EnterAlone(s, t, call);
    EditAlone(s, t, call);
    PublishAlone(s, t, call, d3);
    LeaveAlone(s, t, d5);
    var s2 := Inside(s, t, Editing(call), s.data);
    var s3 := Inside(s, t, WaitCache(WriteOp(call)), d3);
    var s4 := InsideBoth(s, t, Caching(WriteOp(call)), d3);
    var s5 := Inside(s, t, Leaving, d5);
    assert t in s2.threads && t in s3.threads && t in s4.threads && t in s5.threads;
    hide Step, Inside, InsideBoth, Quiet, PutAll, CacheAll, Run;
    var steps := [] + [(t, Begin(WriteOp(call)))] + [(t, Acquire)];
    Grow(s, steps, s2, t, Edit(|call.writes|), s3);
    Grow(s, steps + [(t, Edit(|call.writes|))], s3, t, Acquire, s4);
    Grow(s, steps + [(t, Edit(|call.writes|))] + [(t, Acquire)], s4, t, Publish, s5);
    Grow(s, steps + [(t, Edit(|call.writes|))] + [(t, Acquire)] + [(t, Publish)], s5, t, Release, s.(data := d5));
  }

  lemma FailAlone(s: State, t: Tid, call: Call, taken: nat)
    requires Quiet(s) && t in s.threads && taken < |call.writes| && MayStop(call.writes, taken)
    ensures var e := PutAll(s.data.engine, call.writes[..taken]);
            Run(s, FailSteps(t, call, taken)) == Some(s.(data := Data(e, s.data.cache, e)))
  {
    hide PutAll, CacheAll, Run;
    Overwrite(s.threads, t, Editing(call), Leaving);
    var e := PutAll(s.data.engine, call.writes[..taken]);
    var d3 := Data(e, s.data.cache, e);
    EnterAlone(s, t, call);
    LeaveAlone(s, t, d3);
    var s2 := Inside(s, t, Editing(call), s.data);
    var s3 := Inside(s, t, Leaving, d3);
    assert Step(s2, t, Edit(taken)) == Some(s3);
    hide Step, Inside, Quiet;
    var steps := [] + [(t, Begin(WriteOp(call)))] + [(t, Acquire)];
    Grow(s, steps, s2, t, Edit(taken), s3);
    Grow(s, steps + [(t, Edit(taken))], s3, t, Release, s.(data := d3));
  }

  // ----- Evaluations on their own -----

  function EvalSteps(t: Tid, built: seq<Cell>, results: map<Cell, Outcome>): seq<(Tid, Action)> {
    [] + [(t, Begin(EvalOp))] + [(t, Detach)] + [(t, Acquire)] + [(t, Recalculate(built, results))] + [(t, Release)]
    + [(t, Acquire)]
  }

  /** The state inside a detached evaluation. */
  function Detached(s: State, t: Tid, pc: Pc, d: Data): State {
    State(s.threads[t := pc], s.gates.(wb := Lock(Some(t), {})), d)
  }

  lemma DetachAlone(s: State, t: Tid)
    requires Quiet(s) && t in s.threads
    ensures Run(s, [] + [(t, Begin(EvalOp))] + [(t, Detach)] + [(t, Acquire)])
         == Some(Detached(s, t, Evaluating, s.data))
  {
    hide Effect;
    Overwrite(s.threads, t, Detaching, WaitEval);
    Overwrite(s.threads, t, WaitEval, Evaluating);
    var s1 := State(s.threads[t := Detaching], TakeGil(s.gates, t), s.data);
    var s2 := State(s.threads[t := WaitEval], s.gates, s.data);
    assert Step(s, t, Begin(EvalOp)) == Some(s1) by {
      NoEffect(s.data, Idle, Begin(EvalOp));
    }
    assert Step(s1, t, Detach) == Some(s2) by {
      NoEffect(s.data, Detaching, Detach);
    }
    assert Step(s2, t, Acquire) == Some(Detached(s, t, Evaluating, s.data)) by {
      NoEffect(s.data, WaitEval, Acquire);
    }
    hide Run, Step;
    assert Run(s, []) == Some(s) by {
      RunNothing(s);
    }
    Grow(s, [], s, t, Begin(EvalOp), s1);
    Grow(s, [] + [(t, Begin(EvalOp))], s1, t, Detach, s2);
    Grow(s, [] + [(t, Begin(EvalOp))] + [(t, Detach)], s2, t, Acquire, Detached(s, t, Evaluating, s.data));
  }

  lemma AttachAlone(s: State, t: Tid, d: Data)
    requires Quiet(s) && t in s.threads
    ensures var s5 := State(s.threads[t := WaitAttach], s.gates, d);
            && Step(Detached(s, t, Evaluating, d), t, Release) == Some(s5)
            && Step(s5, t, Acquire) == Some(s.(data := d))
  {
    Overwrite(s.threads, t, Evaluating, WaitAttach);
    assert s.threads[t := WaitAttach][t := Idle] == s.threads;
  }

  lemma RecalculateAlone(s: State, t: Tid, built: seq<Cell>, results: map<Cell, Outcome>)
    requires Quiet(s) && t in s.threads
    ensures var e := Recalculated(s.data.engine, built, results);
            Step(Detached(s, t, Evaluating, s.data), t, Recalculate(built, results))
            == Some(Detached(s, t, Evaluating, Data(e, s.data.cache, e)))
  {
    hide Recalculated;
    Overwrite(s.threads, t, Evaluating, Evaluating);
  }

  lemma EvalAlone(s: State, t: Tid, built: seq<Cell>, results: map<Cell, Outcome>)
    requires Quiet(s) && t in s.threads
    ensures var e := Recalculated(s.data.engine, built, results);
            Run(s, EvalSteps(t, built, results)) == Some(s.(data := Data(e, s.data.cache, e)))
  {
    var e := Recalculated(s.data.engine, built, results);
    var d := Data(e, s.data.cache, e);
    DetachAlone(s, t);
    RecalculateAlone(s, t, built, results);
    AttachAlone(s, t, d);
    var s3 := Detached(s, t, Evaluating, s.data);
    var s4 := Detached(s, t, Evaluating, d);
    var s5 := State(s.threads[t := WaitAttach], s.gates, d);
    assert t in s3.threads && t in s4.threads && t in s5.threads;
    hide Step, Detached, Quiet, Recalculated, Run;
    var steps := [] + [(t, Begin(EvalOp))] + [(t, Detach)] + [(t, Acquire)];
    Grow(s, steps, s3, t, Recalculate(built, results), s4);
    Grow(s, steps + [(t, Recalculate(built, results))], s4, t, Release, s5);
    Grow(s, steps + [(t, Recalculate(built, results))] + [(t, Release)], s5, t, Acquire, s.(data := d));
  }

  // ----- Five short runs -----

  /** Two spellings of one sheet. */
  predicate SameSheet(sheet: string, other: string) {
    sheet != other && Fold(sheet) == Fold(other)
  }

  lemma SpellingsExist()
    ensures SameSheet("Sheet1", "sheet1")
  {
    assert "Sheet1"[0] != "sheet1"[0];
  }

  function One(w: Write): Call {
    Writes(w.cell.0, [w])
  }

  lemma PutOne(e: Engine, cache: Cache, w: Write)
    ensures PutAll(e, [w]) == Put(e, w) && CacheAll(cache, [w]) == cache[w.cell := Cached(w.input)]
  {
    assert [w][..0] == [];
    assert PutAll(e, []) == e && CacheAll(cache, []) == cache;
  }

  /** One write as a whole call. */
  lemma CallOne(e: Engine, cache: Cache, w: Write)
    ensures Run(Two(e, cache), CallSteps(0, One(w))) == Some(Two(Put(e, w), cache[w.cell := Cached(w.input)]))
  {
    CallAlone(Two(e, cache), 0, One(w));
    PutOne(e, cache, w);
    hide Run, CallSteps, Put, PutAll, CacheAll;
  }

  lemma EvalOne(e: Engine, cache: Cache, built: seq<Cell>, results: map<Cell, Outcome>)
    ensures Run(Two(e, cache), EvalSteps(0, built, results)) == Some(Two(Recalculated(e, built, results), cache))
  {
    EvalAlone(Two(e, cache), 0, built, results);
    hide Run, EvalSteps, Recalculated;
  }

  lemma RunBoth(s: State, a: seq<(Tid, Action)>, mid: State, b: seq<(Tid, Action)>, end: State)
    requires Run(s, a) == Some(mid) && Run(mid, b) == Some(end)
    ensures Run(s, a + b) == Some(end)
  {
    RunAppend(s, a, b);
    hide Run;
  }

  /** A workbook at rest whose cache answers with a value that the engine does not show. */
  ghost predicate Stale(s: State) {
    Quiet(s) && !Coherent(s.data.cache, s.data.engine)
  }

  ghost predicate Fine(s: State) {
    Quiet(s) && Coherent(s.data.cache, s.data.engine)
  }

  /** Setting A1 to 5; the column has one row, so the engine compacts at once. */
  function Five(sheet: string): Write {
    Write((sheet, 1, 1), ByValue(Int(5), {(sheet, 1, 1)}))
  }

  function AfterFive(logged: bool, sheet: string): Engine {
    Put(NewEngine(logged, Excel1900, Native), Five(sheet))
  }

  /** A logged 5 is typed and in the base; an unlogged one is in the base alone. */
  lemma FiveLayers(logged: bool, sheet: string)
    ensures var e, a1 := AfterFive(logged, sheet), (sheet, 1, 1);
            && e.logged == logged && e.system == Excel1900 && e.policy == Native
            && e.graph == Graph(map[Fold(sheet) := sheet], {}, map[], {})
            && e.store.user == (if logged then map[a1 := NumberLane(5.0)] else map[])
            && e.store.base == map[a1 := NumberLane(5.0)] && e.store.computed == map[]
  {
    hide Fold;
  }

  function Held(sheet: string): Cache {
    map[(sheet, 1, 1) := Some(Int(5))]
  }

  /** The cached 5 and what the engine shows for it decide. */
  lemma StaleAt(e: Engine, cache: Cache, sheet: string)
    requires (sheet, 1, 1) in cache && cache[(sheet, 1, 1)] == Some(Int(5)) && e.system == Excel1900
    requires Visible(e.store, (sheet, 1, 1)) != NumberLane(5.0)
    ensures Stale(Two(e, cache))
  {
    hide Visible;
    assert Holds(cache, (sheet, 1, 1));
  }

  lemma FineAt(e: Engine, cell: Cell, sheet: string)
    requires cell != (sheet, 1, 1) && e.system == Excel1900
    requires Visible(e.store, (sheet, 1, 1)) == NumberLane(5.0)
    ensures Fine(Two(e, Held(sheet))) && Fine(Two(e, Held(sheet)[cell := None]))
  {
    hide Visible;
  }

  function Start(logged: bool): State {
    Two(NewEngine(logged, Excel1900, Native), map[])
  }

  /** The first call of every run below. */
  lemma FirstCall(logged: bool, sheet: string)
    ensures Init(Start(logged))
    ensures Run(Start(logged), CallSteps(0, One(Five(sheet)))) == Some(Two(AfterFive(logged, sheet), Held(sheet)))
  {
    CallOne(NewEngine(logged, Excel1900, Native), map[], Five(sheet));
    hide Run, CallSteps, Put;
  }

  /** The first call and one more. */
  lemma SecondCall(logged: bool, sheet: string, w: Write)
    ensures var e, cache := Put(AfterFive(logged, sheet), w), Held(sheet)[w.cell := Cached(w.input)];
            Run(Start(logged), CallSteps(0, One(Five(sheet))) + CallSteps(0, One(w))) == Some(Two(e, cache))
  {
    FirstCall(logged, sheet);
    CallOne(AfterFive(logged, sheet), Held(sheet), w);
    hide Run, CallSteps, Put, AfterFive, One, Five, Held, Start, Two;
    RunBoth(Start(logged), CallSteps(0, One(Five(sheet))), Two(AfterFive(logged, sheet), Held(sheet)),
            CallSteps(0, One(w)), Two(Put(AfterFive(logged, sheet), w), Held(sheet)[w.cell := Cached(w.input)]));
  }

  function Six(sheet: string): Write {
    Write((sheet, 1, 1), ByValue(Int(6), {}))
  }

  lemma SixShows(sheet: string, other: string)
    requires SameSheet(sheet, other)
    ensures var e := Put(AfterFive(true, sheet), Six(other));
            e.system == Excel1900 && Visible(e.store, (sheet, 1, 1)) == NumberLane(6.0)
  {
    FiveLayers(true, sheet);
    hide AfterFive, Fold, PutInStore, PutInGraph, Visible;
    OneValue(AfterFive(true, sheet), Six(other), (sheet, 1, 1));
  }

  /** Two logged calls that succeed: setting A1 to 5, and to 6 under another spelling of the sheet, leaves 5 in
      the cache where the engine shows 6. */
  lemma OtherSpellingGoesStale(sheet: string, other: string)
    requires SameSheet(sheet, other)
    ensures var end := Run(Start(true), CallSteps(0, One(Five(sheet))) + CallSteps(0, One(Six(other))));
            Init(Start(true)) && end.Some? && Stale(end.value)
  {
    FirstCall(true, sheet);
    SecondCall(true, sheet, Six(other));
    SixShows(sheet, other);
    hide Run, CallSteps, Put, AfterFive, Fold, Visible, Stale;
    StaleAt(Put(AfterFive(true, sheet), Six(other)), Held(sheet)[(other, 1, 1) := Some(Int(6))], sheet);
  }

  // ----- An evaluation that exposes its result -----

  function Sum(sheet: string, deferred: bool): Write {
    Write((sheet, 1, 1), ByFormula("=1+1", deferred))
  }

  function TwoAt(sheet: string): map<Cell, Outcome> {
    map[(sheet, 1, 1) := Outcome(NumberLane(2.0), General)]
  }

  /** After a formula under another spelling the base still shows 5, and the formula stands in the graph. */
  lemma SumLayers(logged: bool, sheet: string, other: string)
    requires SameSheet(sheet, other)
    ensures var e := Put(AfterFive(logged, sheet), Sum(other, false));
            && e.system == Excel1900 && e.policy == Native && e.graph.formulas == {(sheet, 1, 1)}
            && (sheet, 1, 1) !in e.store.user && Visible(e.store, (sheet, 1, 1)) == NumberLane(5.0)
  {
    FiveLayers(logged, sheet);
    hide AfterFive, Fold;
  }

  lemma TwoShows(logged: bool, sheet: string, other: string)
    requires SameSheet(sheet, other)
    ensures var e := Recalculated(Put(AfterFive(logged, sheet), Sum(other, false)), [], TwoAt(sheet));
            e.system == Excel1900 && Visible(e.store, (sheet, 1, 1)) == NumberLane(2.0)
  {
    SumLayers(logged, sheet, other);
    hide AfterFive, Fold, Put;
  }

  /** In any workbook, logged or not: setting A1 to 5 and then to a formula under another spelling keeps the
      cache right, until an evaluation. */
  lemma EvaluationGoesStale(logged: bool, sheet: string, other: string)
    requires SameSheet(sheet, other)
    ensures var calls := CallSteps(0, One(Five(sheet))) + CallSteps(0, One(Sum(other, false)));
            var before, after := Run(Start(logged), calls), Run(Start(logged), calls + EvalSteps(0, [], TwoAt(sheet)));
            Init(Start(logged)) && before.Some? && Fine(before.value) && after.Some? && Stale(after.value)
  {
    var e := Put(AfterFive(logged, sheet), Sum(other, false));
    var cache := Held(sheet)[(other, 1, 1) := None];
    FirstCall(logged, sheet);
    SecondCall(logged, sheet, Sum(other, false));
    EvalOne(e, cache, [], TwoAt(sheet));
    SumLayers(logged, sheet, other);
    TwoShows(logged, sheet, other);
    FineAt(e, (other, 1, 1), sheet);
    StaleAt(Recalculated(e, [], TwoAt(sheet)), cache, sheet);
    hide Run, CallSteps, EvalSteps, Put, AfterFive, Fold, Visible, Recalculated, TwoAt, Fine, Stale, Start;
    RunBoth(Start(logged), CallSteps(0, One(Five(sheet))) + CallSteps(0, One(Sum(other, false))), Two(e, cache),
            EvalSteps(0, [], TwoAt(sheet)), Two(Recalculated(e, [], TwoAt(sheet)), cache));
  }

  // ----- A failed batch -----

  /** A formula that parses and one that does not. */
  function Broken(sheet: string): Call {
    Writes(sheet, [Sum(sheet, false), Write((sheet, 1, 2), ByFormula("=(", false))])
  }

  lemma BrokenFails(e: Engine, cache: Cache, sheet: string)
    ensures Run(Two(e, cache), FailSteps(0, Broken(sheet), 1)) == Some(Two(Put(e, Sum(sheet, false)), cache))
  {
    assert Broken(sheet).writes[..1] == [Sum(sheet, false)];
    FailAlone(Two(e, cache), 0, Broken(sheet), 1);
    PutOne(e, cache, Sum(sheet, false));
    hide Run, FailSteps, Put, PutAll;
  }

  lemma SumAtHome(sheet: string)
    ensures var e := Put(AfterFive(true, sheet), Sum(sheet, false));
            && e.system == Excel1900 && Visible(e.store, (sheet, 1, 1)) == NumberLane(5.0)
            && Visible(Recalculated(e, [], TwoAt(sheet)).store, (sheet, 1, 1)) == NumberLane(2.0)
  {
    FiveLayers(true, sheet);
    hide AfterFive, Fold;
  }

  /** In a logged workbook that does not defer: a formula batch that fails at its second formula leaves A1 a
      formula and 5 in the cache. The engine still shows 5 from its base, until an evaluation. */
  lemma FailedBatchGoesStale(sheet: string)
    ensures var calls := CallSteps(0, One(Five(sheet))) + FailSteps(0, Broken(sheet), 1);
            var before, after := Run(Start(true), calls), Run(Start(true), calls + EvalSteps(0, [], TwoAt(sheet)));
            Init(Start(true)) && before.Some? && Fine(before.value) && after.Some? && Stale(after.value)
  {
    var e := Put(AfterFive(true, sheet), Sum(sheet, false));
    var e' := Recalculated(e, [], TwoAt(sheet));
    FirstCall(true, sheet);
    BrokenFails(AfterFive(true, sheet), Held(sheet), sheet);
    EvalOne(e, Held(sheet), [], TwoAt(sheet));
    SumAtHome(sheet);
    FineAt(e, (sheet, 1, 2), sheet);
    StaleAt(e', Held(sheet), sheet);
    hide Run, CallSteps, FailSteps, EvalSteps, Put, AfterFive, Visible, Recalculated, TwoAt, Fine, Stale, Start, Broken;
    var first, fail := CallSteps(0, One(Five(sheet))), FailSteps(0, Broken(sheet), 1);
    RunBoth(Start(true), first, Two(AfterFive(true, sheet), Held(sheet)), fail, Two(e, Held(sheet)));
    RunBoth(Start(true), first + fail, Two(e, Held(sheet)), EvalSteps(0, [], TwoAt(sheet)), Two(e', Held(sheet)));
  }

  // ----- A masked result -----

  /** What a deferred formula under another spelling and its evaluation leave: the typed 5 above the result. */
  function Masked(sheet: string, other: string): Engine {
    Recalculated(Put(AfterFive(true, sheet), Sum(other, true)), [(other, 1, 1)], TwoAt(sheet))
  }

  lemma OneBuilt(g: Graph, cell: Cell)
    requires cell in g.staged
    ensures Built(g, [cell])
         == Register(g, cell.0).(formulas := g.formulas + {Alias(g, cell)}, staged := g.staged - {cell})
  {
    assert [cell][..0] == [];
    assert Built(g, []) == g;
    hide Register, Alias;
  }

  lemma MaskedLayers(sheet: string, other: string)
    requires SameSheet(sheet, other)
    ensures var e, a1 := Masked(sheet, other), (sheet, 1, 1);
            && e.logged && e.system == Excel1900 && e.policy == Native && Registered(e.graph, sheet) == sheet
            && a1 in e.store.user && e.store.user[a1] == NumberLane(5.0)
            && a1 in e.store.computed && e.store.computed[a1] == Outcome(NumberLane(2.0), General)
            && a1 in e.graph.derived && e.graph.derived[a1].format == General
  {
    var e1 := AfterFive(true, sheet);
    FiveLayers(true, sheet);
    OneBuilt(Put(e1, Sum(other, true)).graph, (other, 1, 1));
    hide AfterFive, Fold, Built;
  }

  lemma MaskedFormat(sheet: string, other: string)
    requires SameSheet(sheet, other)
    ensures (sheet, 1, 1) !in Masked(sheet, other).store.formats
            || Masked(sheet, other).store.formats[(sheet, 1, 1)] == General
  {
    hide Fold, Built;
  }

  /** Interactive mode stages the formula of another spelling; its result stays beneath the typed 5, and the
      cache stays right. */
  lemma MaskedResultIsHarmless(sheet: string, other: string)
    requires SameSheet(sheet, other)
    ensures var end := Run(Start(true), MaskedSteps(sheet, other));
            && Init(Start(true)) && end == Some(Two(Masked(sheet, other), Held(sheet)[(other, 1, 1) := None]))
            && Fine(end.value) && DirectRead(end.value.data.engine, (sheet, 1, 1)) == Some(Number(5.0))
  {
    var e := Put(AfterFive(true, sheet), Sum(other, true));
    var cache := Held(sheet)[(other, 1, 1) := None];
    FirstCall(true, sheet);
    SecondCall(true, sheet, Sum(other, true));
    EvalOne(e, cache, [(other, 1, 1)], TwoAt(sheet));
    MaskedLayers(sheet, other);
    FineAt(Masked(sheet, other), (other, 1, 1), sheet);
    hide Run, CallSteps, EvalSteps, Put, AfterFive, Fold, Recalculated, TwoAt, Fine, Start;
    RunBoth(Start(true), CallSteps(0, One(Five(sheet))) + CallSteps(0, One(Sum(other, true))), Two(e, cache),
            EvalSteps(0, [(other, 1, 1)], TwoAt(sheet)), Two(Masked(sheet, other), cache));
    MaskedReads(sheet, other);
  }

  lemma MaskedReads(sheet: string, other: string)
    requires SameSheet(sheet, other)
    ensures DirectRead(Masked(sheet, other), (sheet, 1, 1)) == Some(Number(5.0))
  {
    MaskedLayers(sheet, other);
    MaskedFormat(sheet, other);
    hide Masked, Fold;
  }

  function MaskedSteps(sheet: string, other: string): seq<(Tid, Action)> {
    CallSteps(0, One(Five(sheet))) + CallSteps(0, One(Sum(other, true))) + EvalSteps(0, [(other, 1, 1)], TwoAt(sheet))
  }

  /** A value for the next row, which sets off a compaction of the whole column. */
  function Seven(sheet: string): Write {
    Write((sheet, 2, 1), ByValue(Int(7), {(sheet, 1, 1), (sheet, 2, 1)}))
  }

  lemma SevenUncovers(sheet: string, other: string)
    requires SameSheet(sheet, other)
    ensures Put(Masked(sheet, other), Seven(sheet)).system == Excel1900
    ensures Visible(Put(Masked(sheet, other), Seven(sheet)).store, (sheet, 1, 1)) == NumberLane(2.0)
  {
    MaskedLayers(sheet, other);
    OneValue(Masked(sheet, other), Seven(sheet), (sheet, 1, 1));
    hide Masked, Fold, PutInStore, PutInGraph;
  }

  /** Then a value in the next row, under the same spelling as the first, uncovers the result. */
  lemma CompactionGoesStale(sheet: string, other: string)
    requires SameSheet(sheet, other)
    ensures var end := Run(Start(true), MaskedSteps(sheet, other) + CallSteps(0, One(Seven(sheet))));
            end.Some? && Stale(end.value)
  {
    var cache := Held(sheet)[(other, 1, 1) := None];
    var end := Put(Masked(sheet, other), Seven(sheet));
    MaskedResultIsHarmless(sheet, other);
    CallOne(Masked(sheet, other), cache, Seven(sheet));
    SevenUncovers(sheet, other);
    StaleAt(end, cache[(sheet, 2, 1) := Some(Int(7))], sheet);
    hide Run, CallSteps, Put, Fold, Visible, Masked, MaskedSteps, Start, Fine, Stale, DirectRead, Init;
    RunBoth(Start(true), MaskedSteps(sheet, other), Two(Masked(sheet, other), cache), CallSteps(0, One(Seven(sheet))),
            Two(end, cache[(sheet, 2, 1) := Some(Int(7))]));
  }
}
