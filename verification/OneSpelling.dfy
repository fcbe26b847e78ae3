/** Callers that spell every sheet in one way: then no evaluation, no compaction and no call that goes through
    ever parts the compatibility cache from the engine. */
module OneSpelling {
  import opened Options
  import opened Literals
  import opened Cells
  import opened CacheProtocol

  /** One spelling for each sheet. */
  ghost predicate OnePerSheet(names: set<string>) {
    forall a, b :: a in names && b in names && Fold(a) == Fold(b) ==> a == b
  }

  /** The registry and the staged formulas use these spellings. */
  ghost predicate GraphUses(names: set<string>, g: Graph) {
    && (forall folded :: folded in g.display ==> g.display[folded] in names && Fold(g.display[folded]) == folded)
    && (forall cell :: cell in g.staged ==> cell.0 in names)
  }

  /** The cache has a value only where the engine has nothing but a typed one: no formula, no result and no
      staged text. */
  ghost predicate Apart(cache: Cache, e: Engine) {
    forall cell :: Holds(cache, cell) ==>
      cell !in e.graph.formulas && cell !in e.store.computed && cell !in e.graph.staged
  }

  ghost predicate Tidy(names: set<string>, cache: Cache, e: Engine) {
    OnePerSheet(names) && GraphUses(names, e.graph) && Apart(cache, e) && Coherent(cache, e)
  }

  lemma RegisteredIsOwn(names: set<string>, g: Graph, sheet: string)
    requires OnePerSheet(names) && GraphUses(names, g) && sheet in names
    ensures Registered(g, sheet) == sheet && GraphUses(names, Register(g, sheet))
  {
    hide Fold;
  }

  /** One write, with or without the cache's own entry for it. */
  lemma PutKeepsApart(names: set<string>, cache: Cache, cache': Cache, e: Engine, w: Write)
    requires OnePerSheet(names) && GraphUses(names, e.graph) && Apart(cache, e) && w.cell.0 in names
    requires cache' == cache[w.cell := Cached(w.input)] || (cache' == cache && !Holds(cache, w.cell))
    ensures GraphUses(names, Put(e, w).graph) && Apart(cache', Put(e, w))
  {
    RegisteredIsOwn(names, e.graph, w.cell.0);
    hide Fold, Registered, OnePerSheet;
    assert Home(e, w.cell) == w.cell == Alias(e.graph, w.cell);
    GraphOfPut(names, e, w);
    hide GraphUses, Home, Alias, StoreAs, Moving, Only, FormatOf;
  }

  lemma GraphOfPut(names: set<string>, e: Engine, w: Write)
    requires GraphUses(names, e.graph) && GraphUses(names, Register(e.graph, w.cell.0)) && w.cell.0 in names
    ensures GraphUses(names, Put(e, w).graph)
  {
    hide Fold, Registered, PutInStore, Alias;
  }

  lemma {:induction false} WritesKeepApart(names: set<string>, cache: Cache, e: Engine, writes: seq<Write>)
    requires OnePerSheet(names) && GraphUses(names, e.graph) && Apart(cache, e)
    requires forall i :: 0 <= i < |writes| ==> writes[i].cell.0 in names
    ensures GraphUses(names, PutAll(e, writes).graph) && Apart(CacheAll(cache, writes), PutAll(e, writes))
  {
    if writes != [] {
      var front, last := writes[..|writes| - 1], writes[|writes| - 1];
      WritesKeepApart(names, cache, e, front);
      PutKeepsApart(names, CacheAll(cache, front), CacheAll(cache, writes), PutAll(e, front), last);
      hide OnePerSheet, GraphUses, Apart, Put;
    }
  }

  /** Writes to cells that the cache has no value for. */
  predicate NoneHeld(cache: Cache, writes: seq<Write>) {
    forall i :: 0 <= i < |writes| ==> !Holds(cache, writes[i].cell)
  }

  lemma {:induction false} UnheldKeepApart(names: set<string>, cache: Cache, e: Engine, writes: seq<Write>)
    requires OnePerSheet(names) && GraphUses(names, e.graph) && Apart(cache, e) && NoneHeld(cache, writes)
    requires forall i :: 0 <= i < |writes| ==> writes[i].cell.0 in names
    ensures GraphUses(names, PutAll(e, writes).graph) && Apart(cache, PutAll(e, writes))
  {
    if writes != [] {
      var front, last := writes[..|writes| - 1], writes[|writes| - 1];
      UnheldKeepApart(names, cache, e, front);
      PutKeepsApart(names, cache, cache, PutAll(e, front), last);
      hide OnePerSheet, GraphUses, Apart, Put;
    }
  }

  /** A call that goes through. */
  lemma CallKeepsTidy(names: set<string>, cache: Cache, e: Engine, call: Call)
    requires Tidy(names, cache, e) && call.sheet in names
    ensures Tidy(names, CacheAll(cache, call.writes), PutAll(e, call.writes))
    ensures forall place :: !Overtaken(cache, e, call.writes, call.sheet, place)
  {
    RegisteredIsOwn(names, e.graph, call.sheet);
    WritesKeepApart(names, cache, e, call.writes);
    WritesKeepCoherent(cache, e, call.writes, call.sheet);
    CachedWritesIff(cache, e, call.writes, call.sheet);
    hide OnePerSheet, GraphUses, Registered, CacheAll, PutAll, Overtaken, Coherent;
  }

  /** A call that fails behind writes to cells that the cache has no value for. */
  lemma FailureKeepsTidy(names: set<string>, cache: Cache, e: Engine, writes: seq<Write>, sheet: string)
    requires Tidy(names, cache, e) && sheet in names && OneSheet(writes, sheet) && Uniform(writes)
    requires NoneHeld(cache, writes)
    ensures Tidy(names, cache, PutAll(e, writes)) && Spares(cache, e, writes, sheet)
  {
    RegisteredIsOwn(names, e.graph, sheet);
    UnheldKeepApart(names, cache, e, writes);
    forall cell | Holds(cache, cell) ensures Shown(e, writes, sheet, cell) == StoreAs(cache[cell].value, e.system) {
      if cell.0 == sheet {
        UntouchedIsNotOwn(writes, cell);
      }
      hide OnePerSheet, GraphUses, Registered, Visible, StoreAs, PutAll;
    }
    UncachedWritesIff(cache, e, writes, sheet);
    hide OnePerSheet, GraphUses, Registered, PutAll, Coherent, Apart, Shown;
  }

  lemma {:induction false} BuiltUses(names: set<string>, g: Graph, cells: seq<Cell>)
    requires OnePerSheet(names) && GraphUses(names, g)
    ensures var built := Built(g, cells);
            GraphUses(names, built) && built.staged <= g.staged && built.formulas <= g.formulas + g.staged
  {
    if cells != [] {
      var front, last := Built(g, cells[..|cells| - 1]), cells[|cells| - 1];
      BuiltUses(names, g, cells[..|cells| - 1]);
      if last in front.staged {
        RegisteredIsOwn(names, front, last.0);
      }
      hide Fold, Registered, OnePerSheet;
    }
  }

  /** Any evaluation, whatever it builds and whatever comes out. */
  lemma EvaluationKeepsTidy(
    names: set<string>, cache: Cache, e: Engine, built: seq<Cell>, results: map<Cell, Outcome>)
    requires Tidy(names, cache, e)
    ensures Tidy(names, cache, Recalculated(e, built, results))
    ensures forall place :: !Exposed(cache, e, built, results, place)
  {
    BuiltUses(names, e.graph, built);
    EvaluationIff(cache, e, built, results);
    hide OnePerSheet, Built, Coherent, StoreAs, Fold;
  }

  lemma ChangeKeepsTidy(names: set<string>, cache: Cache, e: Engine, change: Change)
    requires Tidy(names, cache, e) && (change.NewSheet? ==> change.name in names)
    ensures Tidy(names, cache, Changed(e, change))
  {
    ChangeKeepsCoherent(cache, e, change);
    if change.NewSheet? {
      RegisteredIsOwn(names, e.graph, change.name);
    }
    hide Coherent, OnePerSheet, GraphUses;
  }

  /** What the discipline asks of a step: calls under these spellings, failures only behind writes to cells
      without a cached value, new sheets and undo within these spellings. */
  ghost predicate Proper(names: set<string>, s: State, t: Tid, a: Action)
    requires t in s.threads
  {
    var pc := s.threads[t];
    if pc.Caching? && a.Publish? && pc.op.WriteOp? then pc.op.call.sheet in names
    else if pc.Editing? && a.Edit? && a.taken < |pc.call.writes| then
      pc.call.sheet in names && NoneHeld(s.data.cache, pc.call.writes[..a.taken])
    else if pc.Changing? && a.Apply? then pc.change.NewSheet? ==> pc.change.name in names
    else if pc.Undoing? && a.Undo? then a.outcome.Some? ==> GraphUses(names, a.outcome.value.graph)
    else true
  }

  lemma ProperEffect(names: set<string>, s: State, t: Tid, a: Action)
    requires t in s.threads && Proper(names, s, t, a) && Tidy(names, s.data.cache, s.data.committed)
    requires var pc := s.threads[t];
             s.data.engine == if CacheProtocol.Pending(pc) then PutAll(s.data.committed, pc.op.call.writes)
                              else s.data.committed
    requires s.threads[t].Undoing? ==> s.data.cache == map[]
    ensures var d := Effect(s.data, s.threads[t], a); Harmless(s, t, a) && Tidy(names, d.cache, d.committed)
  {
    var pc, d := s.threads[t], s.data;
    if Silent(pc, a) {
      SilentEffect(d, pc, a);
      hide Tidy, Effect;
    } else if pc.Caching? && pc.op.WriteOp? {
      CallKeepsTidy(names, d.cache, d.committed, pc.op.call);
      hide Tidy, PutAll, CacheAll, Overtaken;
    } else if pc.Editing? {
      FailureKeepsTidy(names, d.cache, d.committed, pc.call.writes[..a.taken], pc.call.sheet);
      hide Tidy, PutAll, Spares, NoneHeld;
    } else if pc.Changing? {
      ChangeKeepsTidy(names, d.cache, d.committed, pc.change);
      hide Tidy, Changed;
    } else if pc.Evaluating? {
      EvaluationKeepsTidy(names, d.cache, d.committed, a.built, a.results);
      hide Tidy, Recalculated, Exposed;
    } else {
      hide PutAll, GraphUses, OnePerSheet;
    }
  }

  lemma ProperStep(names: set<string>, s: State, t: Tid, a: Action)
    requires Inv(s) && t in s.threads && Step(s, t, a).Some?
    requires Proper(names, s, t, a) && Tidy(names, s.data.cache, s.data.committed)
    ensures var s' := Step(s, t, a).value;
            Harmless(s, t, a) && Inv(s') && Tidy(names, s'.data.cache, s'.data.committed)
  {
    var pc := s.threads[t];
    if HasWbWrite(pc) {
      forall u | u in s.threads && u != t ensures !CacheProtocol.Pending(s.threads[u]) {
        if CacheProtocol.Pending(s.threads[u]) {
          OnePending(s, t, u);
        }
      }
      EngineForThread(s, t);
      ProperEffect(names, s, t, a);
    } else {
      EffectNeedsLock(s.data, pc, a);
      assert Harmless(s, t, a);
    }
    StepKeepsInv(s, t, a);
    hide Tidy, Inv, Harmless, Proper, Effect, Move;
  }

  ghost predicate ProperRun(names: set<string>, s: State, steps: seq<(Tid, Action)>)
    requires Run(s, steps).Some?
    decreases |steps|
  {
    steps != [] ==>
      && Proper(names, s, steps[0].0, steps[0].1)
      && ProperRun(names, Step(s, steps[0].0, steps[0].1).value, steps[1..])
  }

  lemma {:induction false} ProperIsHarmless(names: set<string>, s: State, steps: seq<(Tid, Action)>)
    requires Inv(s) && Tidy(names, s.data.cache, s.data.committed)
    requires Run(s, steps).Some? && ProperRun(names, s, steps)
    ensures HarmlessRun(s, steps)
    decreases |steps|
  {
    hide Step, Inv, Harmless, Tidy, Proper;
    if steps != [] {
      ProperStep(names, s, steps[0].0, steps[0].1);
      ProperIsHarmless(names, Step(s, steps[0].0, steps[0].1).value, steps[1..]);
    }
  }

  /** In every interleaving of callers that spell each sheet in one way, from a fresh workbook: whenever no
      thread holds the workbook lock for writing, the engine shows every value that the cache has. */
  lemma OneSpellingIsSafe(names: set<string>, s: State, steps: seq<(Tid, Action)>)
    requires OnePerSheet(names) && Init(s) && GraphUses(names, s.data.engine.graph)
    requires Run(s, steps).Some? && ProperRun(names, s, steps)
    ensures var s' := Run(s, steps).value;
            s'.gates.wb.writer.None? ==> Coherent(s'.data.cache, s'.data.engine)
  {
    InitInv(s);
    ProperIsHarmless(names, s, steps);
    CacheCoherentWhenFree(s, steps);
  }
}
