/** The locks of the Python workbook as a state machine over the steps of its threads: the
    non-reentrant lock around the engine, the lock around the compatibility cache, and the
    interpreter lock (GIL), which every native call holds except inside a detached evaluation. */
module CacheProtocol {
  import opened Options
  import opened Literals
  import opened Cells

  type Tid = nat

  /** The writes of one call, under one spelling of the sheet: values or formulas. */
  datatype Writes = Writes(sheet: string, writes: seq<Write>)

  type Call = c: Writes | OneSheet(c.writes, c.sheet) && Uniform(c.writes) witness Writes("", [])

  datatype Op =
    | WriteOp(call: Call)  // set_value, set_formula and both batch setters
    | UndoOp               // undo and redo
    | GetOp(cell: Cell)    // get_value
    | EvalOp               // evaluate_cell, evaluate_all, evaluate_cells
    | ChangeOp(change: Change)  // set_changelog_enabled, add_sheet

  /** Where a thread stands in its call. */
  datatype Pc =
    | Idle
    | WaitWb(op: Op)                 // wants the workbook lock for writing
    | Editing(call: Call)            // has it; the engine is next
    | WaitCache(op: Op)              // has it; wants the cache lock for writing
    | Caching(op: Op)                // has both
    | Changing(change: Change)       // has the workbook lock; the engine is next
    | Undoing                        // has the workbook lock; the cache is cleared
    | Leaving                        // has the workbook lock; the call is over
    | WaitCacheRead(cell: Cell)
    | ReadingCache(cell: Cell)
    | WaitWbRead(cell: Cell)
    | ReadingWb(cell: Cell)
    | Detaching                      // about to give up the GIL
    | WaitEval                       // wants the workbook lock for writing, without the GIL
    | Evaluating                     // has it, without the GIL
    | WaitGil                        // has it; a callback wants the GIL
    | InCallback                     // has it; the callback runs
    | CallbackWaitCache(cell: Cell)  // has it; the callback reads the cache
    | CallbackReading(cell: Cell)
    | WaitAttach                     // evaluation over; wants the GIL back

  datatype Lock = Lock(writer: Option<Tid>, readers: set<Tid>)

  /** The three locks. Without an interpreter lock `gil` stays None. */
  datatype Gates = Gates(hasGil: bool, gil: Option<Tid>, wb: Lock, cacheLock: Lock)

  /** The shared data, and for the proofs what the calls that took effect so far have made of the
      workbook. */
  datatype Data = Data(engine: Engine, cache: Cache, committed: Engine)

  datatype State = State(threads: map<Tid, Pc>, gates: Gates, data: Data)

  const FREE := Lock(None, {})

  predicate FreeForWrite(l: Lock) {
    l.writer.None? && l.readers == {}
  }

  predicate FreeForRead(l: Lock) {
    l.writer.None?
  }

  function AddReader(l: Lock, t: Tid): Lock {
    l.(readers := l.readers + {t})
  }

  function DropReader(l: Lock, t: Tid): Lock {
    l.(readers := l.readers - {t})
  }

  function TakeGil(g: Gates, t: Tid): Gates {
    if g.hasGil then g.(gil := Some(t)) else g
  }

  function DropGil(g: Gates): Gates {
    g.(gil := None)
  }

  datatype Action =
    | Begin(op: Op)
    | Acquire                                    // take the lock the thread waits for
    | Edit(taken: nat)                           // the engine commits the first `taken` writes
    | Publish                                    // update or clear the cache, release its lock
    | Apply                                      // the engine takes a change
    | Undo(outcome: Option<Engine>)              // the engine moves, or refuses
    | Read                                       // read under a read lock, release it
    | Detach
    | Recalculate(built: seq<Cell>, results: map<Cell, Outcome>)
    | CallOut                                    // the engine calls a Python function
    | CallbackGet(cell: Cell)                    // the callback calls get_value
    | YieldGil                                   // the interpreter switches threads in the callback
    | Return                                     // the callback returns
    | Release                                    // release the workbook lock

  function FirstPc(op: Op): Pc {
    match op
    case WriteOp(_) => WaitWb(op)
    case UndoOp => WaitWb(op)
    case ChangeOp(_) => WaitWb(op)
    case GetOp(cell) => WaitCacheRead(cell)
    case EvalOp => Detaching
  }

  function PcInside(op: Op): Pc {
    match op
    case WriteOp(call) => Editing(call)
    case ChangeOp(change) => Changing(change)
    case _ => WaitCache(op)
  }

  /** Taking the awaited lock, if it can be taken. */
  function Acquired(g: Gates, t: Tid, pc: Pc): Option<(Gates, Pc)> {
    match pc
    case WaitWb(op) =>
      if FreeForWrite(g.wb) then Some((g.(wb := Lock(Some(t), {})), PcInside(op))) else None
    case WaitCache(op) =>
      if FreeForWrite(g.cacheLock) then Some((g.(cacheLock := Lock(Some(t), {})), Caching(op))) else None
    case WaitCacheRead(cell) =>
      if FreeForRead(g.cacheLock) then Some((g.(cacheLock := AddReader(g.cacheLock, t)), ReadingCache(cell))) else None
    case CallbackWaitCache(cell) =>
      if FreeForRead(g.cacheLock) then Some((g.(cacheLock := AddReader(g.cacheLock, t)), CallbackReading(cell)))
      else None
    case WaitWbRead(cell) =>
      if FreeForRead(g.wb) then Some((g.(wb := AddReader(g.wb, t)), ReadingWb(cell))) else None
    case WaitEval =>
      if FreeForWrite(g.wb) then Some((g.(wb := Lock(Some(t), {})), Evaluating)) else None
    case WaitGil => if g.gil.None? then Some((TakeGil(g, t), InCallback)) else None
    case WaitAttach => if g.gil.None? then Some((g, Idle)) else None
    case _ => None
  }

  /** Ending a read. `hit` says whether the cache has a value; a miss in `get_value` goes on to the
      engine, a miss inside a callback raises the re-entrancy error. */
  function AfterRead(g: Gates, t: Tid, pc: Pc, hit: bool): Option<(Gates, Pc)> {
    match pc
    case ReadingCache(cell) =>
      var g' := g.(cacheLock := DropReader(g.cacheLock, t));
      Some(if hit then (DropGil(g'), Idle) else (g', WaitWbRead(cell)))
    case ReadingWb(_) => Some((DropGil(g.(wb := DropReader(g.wb, t))), Idle))
    case CallbackReading(_) => Some((g.(cacheLock := DropReader(g.cacheLock, t)), InCallback))
    case _ => None
  }

  /** The engine takes all writes, or gives up part way. Keeping a formula for later never fails. */
  predicate MayStop(writes: seq<Write>, taken: nat) {
    && taken <= |writes|
    && (taken < |writes| ==> forall i :: 0 <= i < |writes| ==> !Deferred(writes[i]))
  }

  /** What action `a` of thread `t` does to the locks and to the thread's place; None when the
      thread cannot take it now. */
  function Move(g: Gates, t: Tid, pc: Pc, a: Action, hit: bool): Option<(Gates, Pc)> {
    match a
    case Begin(op) => if pc.Idle? && g.gil.None? then Some((TakeGil(g, t), FirstPc(op))) else None
    case Acquire => Acquired(g, t, pc)
    case Read => AfterRead(g, t, pc, hit)
    case Edit(taken) =>
      if !pc.Editing? || !MayStop(pc.call.writes, taken) then None
      else Some((g, if taken == |pc.call.writes| then WaitCache(WriteOp(pc.call)) else Leaving))
    case Publish =>
      if !pc.Caching? then None else Some((g.(cacheLock := FREE), if pc.op.UndoOp? then Undoing else Leaving))
    case Apply =>
      if !pc.Changing? then None
      else Some((g, if pc.change.NewSheet? then WaitCache(ChangeOp(pc.change)) else Leaving))
    case Undo(_) => if pc.Undoing? then Some((g, Leaving)) else None
    case Detach => if pc.Detaching? then Some((DropGil(g), WaitEval)) else None
    case Recalculate(_, _) => if pc.Evaluating? then Some((g, Evaluating)) else None
    case CallOut => if pc.Evaluating? then Some((g, WaitGil)) else None
    case CallbackGet(cell) => if pc.InCallback? then Some((g, CallbackWaitCache(cell))) else None
    case YieldGil => if pc.InCallback? then Some((DropGil(g), WaitGil)) else None
    case Return => if pc.InCallback? then Some((DropGil(g), Evaluating)) else None
    case Release =>
      if pc.Evaluating? then Some((g.(wb := FREE), WaitAttach))
      else if pc.Leaving? then Some((DropGil(g.(wb := FREE)), Idle))
      else None
  }

  /** What the action does to the data. A call takes effect, as far as others can tell, when it
      publishes to the cache; a failed batch when the engine gives up; undo, evaluation and the
      changes when the engine moves. A new sheet gets an empty map in the cache. */
  function Effect(d: Data, pc: Pc, a: Action): Data {
    match (pc, a)
    case (Editing(call), Edit(taken)) =>
      if taken > |call.writes| then d
      else
        var engine := PutAll(d.engine, call.writes[..taken]);
        if taken == |call.writes| then d.(engine := engine) else d.(engine := engine, committed := engine)
    case (Caching(op), Publish) =>
      if op.WriteOp? then d.(cache := CacheAll(d.cache, op.call.writes), committed := d.engine)
      else if op.UndoOp? then d.(cache := map[])
      else d
    case (Changing(change), Apply) =>
      var engine := Changed(d.engine, change);
      d.(engine := engine, committed := engine)
    case (Undoing, Undo(outcome)) =>
      if outcome.Some? then d.(engine := outcome.value, committed := outcome.value) else d
    case (Evaluating, Recalculate(built, results)) =>
      var engine := Recalculated(d.engine, built, results);
      d.(engine := engine, committed := engine)
    case _ => d
  }

  predicate Hit(d: Data, pc: Pc) {
    pc.ReadingCache? && Holds(d.cache, pc.cell)
  }

  function Step(s: State, t: Tid, a: Action): Option<State>
    requires t in s.threads
  {
    var pc := s.threads[t];
    match Move(s.gates, t, pc, a, Hit(s.data, pc))
    case None => None
    case Some((gates, pc')) => Some(State(s.threads[t := pc'], gates, Effect(s.data, pc, a)))
  }

  // ----- Who holds what -----

  predicate HasWbWrite(pc: Pc) {
    pc.Editing? || pc.Changing? || pc.WaitCache? || pc.Caching? || pc.Undoing? || pc.Leaving?
    || pc.Evaluating? || pc.WaitGil? || pc.InCallback? || pc.CallbackWaitCache? || pc.CallbackReading?
  }

  predicate HasCacheRead(pc: Pc) {
    pc.ReadingCache? || pc.CallbackReading?
  }

  predicate HasGil(pc: Pc) {
    !(pc.Idle? || pc.WaitEval? || pc.Evaluating? || pc.WaitGil? || pc.WaitAttach?)
  }

  predicate LockOk(l: Lock, threads: set<Tid>) {
    && (l.writer.Some? ==> l.writer.value in threads && l.readers == {})
    && l.readers <= threads
  }

  predicate GatesOk(g: Gates, threads: set<Tid>) {
    && LockOk(g.wb, threads) && LockOk(g.cacheLock, threads)
    && (g.gil.Some? ==> g.hasGil && g.gil.value in threads)
  }

  /** Thread `t` holds exactly the locks its place in the program says it holds. */
  predicate PcOk(g: Gates, t: Tid, pc: Pc) {
    && (HasWbWrite(pc) <==> g.wb.writer == Some(t))
    && (pc.ReadingWb? <==> t in g.wb.readers)
    && (pc.Caching? <==> g.cacheLock.writer == Some(t))
    && (HasCacheRead(pc) <==> t in g.cacheLock.readers)
    && (g.hasGil ==> (HasGil(pc) <==> g.gil == Some(t)))
  }

  predicate LocksOk(s: State) {
    GatesOk(s.gates, s.threads.Keys) && forall t :: t in s.threads ==> PcOk(s.gates, t, s.threads[t])
  }

  /** A call that has changed the engine and not yet the cache. */
  predicate Pending(pc: Pc) {
    (pc.WaitCache? || pc.Caching?) && pc.op.WriteOp?
  }

  /** The engine is what the calls have committed, plus the writes of the one call in between. */
  ghost predicate EngineOk(s: State) {
    && (forall t :: t in s.threads && Pending(s.threads[t]) ==>
          s.data.engine == PutAll(s.data.committed, s.threads[t].op.call.writes))
    && ((forall t :: t in s.threads ==> !Pending(s.threads[t])) ==> s.data.engine == s.data.committed)
  }

  /** Between clearing the cache and moving the engine nobody fills the cache. */
  predicate UndoOk(s: State) {
    forall t :: t in s.threads && s.threads[t].Undoing? ==> s.data.cache == map[]
  }

  ghost predicate Inv(s: State) {
    LocksOk(s) && EngineOk(s) && UndoOk(s) && Coherent(s.data.cache, s.data.committed)
  }

  predicate Init(s: State) {
    && (forall t :: t in s.threads ==> s.threads[t].Idle?)
    && s.gates.gil.None? && s.gates.wb == FREE && s.gates.cacheLock == FREE
    && s.data.cache == map[] && s.data.committed == s.data.engine
  }

  /** Three kinds of step can do harm: a call that overtakes a value of the cache; a call that fails behind
      writes the cache does not learn of; and an evaluation that puts another result in sight where the cache
      has a value. */
  ghost predicate Harmless(s: State, t: Tid, a: Action)
    requires t in s.threads
  {
    var pc, d := s.threads[t], s.data;
    if pc.Caching? && a.Publish? && pc.op.WriteOp? then
      forall place :: !Overtaken(d.cache, d.committed, pc.op.call.writes, pc.op.call.sheet, place)
    else if pc.Editing? && a.Edit? && a.taken < |pc.call.writes| then
      Spares(d.cache, d.committed, pc.call.writes[..a.taken], pc.call.sheet)
    else if pc.Evaluating? && a.Recalculate? then
      forall place :: !Exposed(d.cache, d.committed, a.built, a.results, place)
    else true
  }

  // ----- Safety over every run -----

  /** The lock changed hands for nobody but `t`. */
  ghost predicate OnlyFor(l: Lock, l': Lock, t: Tid) {
    && (forall u :: u != t ==> (l'.writer == Some(u) <==> l.writer == Some(u)))
    && (forall u :: u != t ==> (u in l'.readers <==> u in l.readers))
  }

  ghost predicate GatesOnlyFor(g: Gates, g': Gates, t: Tid) {
    && g'.hasGil == g.hasGil && OnlyFor(g.wb, g'.wb, t) && OnlyFor(g.cacheLock, g'.cacheLock, t)
    && (forall u :: u != t ==> (g'.gil == Some(u) <==> g.gil == Some(u)))
  }

  lemma AcquireMove(g: Gates, t: Tid, pc: Pc, threads: set<Tid>)
    requires GatesOk(g, threads) && t in threads && PcOk(g, t, pc) && Acquired(g, t, pc).Some?
    ensures var (g', pc') := Acquired(g, t, pc).value;
            GatesOk(g', threads) && PcOk(g', t, pc') && GatesOnlyFor(g, g', t)
  {
  }

  lemma ReadMove(g: Gates, t: Tid, pc: Pc, hit: bool, threads: set<Tid>)
    requires GatesOk(g, threads) && t in threads && PcOk(g, t, pc) && AfterRead(g, t, pc, hit).Some?
    ensures var (g', pc') := AfterRead(g, t, pc, hit).value;
            GatesOk(g', threads) && PcOk(g', t, pc') && GatesOnlyFor(g, g', t)
  {
  }

  lemma MoveKeepsLocks(g: Gates, t: Tid, pc: Pc, a: Action, hit: bool, threads: set<Tid>)
    requires GatesOk(g, threads) && t in threads && PcOk(g, t, pc) && Move(g, t, pc, a, hit).Some?
    ensures var (g', pc') := Move(g, t, pc, a, hit).value;
            GatesOk(g', threads) && PcOk(g', t, pc') && GatesOnlyFor(g, g', t)
  {
    hide Acquired, AfterRead;
    if a.Acquire? {
      AcquireMove(g, t, pc, threads);
    } else if a.Read? {
      ReadMove(g, t, pc, hit, threads);
    }
  }

  lemma LocksKept(s: State, t: Tid, a: Action)
    requires LocksOk(s) && t in s.threads && Step(s, t, a).Some?
    ensures LocksOk(Step(s, t, a).value) && Step(s, t, a).value.threads.Keys == s.threads.Keys
  {
    hide Move, Effect, Hit, GatesOk;
    var pc := s.threads[t];
    MoveKeepsLocks(s.gates, t, pc, a, Hit(s.data, pc), s.threads.Keys);
    var s' := Step(s, t, a).value;
    assert s'.threads.Keys == s.threads.Keys;
    forall u | u in s'.threads ensures PcOk(s'.gates, u, s'.threads[u]) {
      assert u != t ==> PcOk(s.gates, u, s.threads[u]);
    }
  }

  /** Only the holder of the workbook lock changes the data. */
  lemma EffectNeedsLock(d: Data, pc: Pc, a: Action)
    ensures HasWbWrite(pc) || Effect(d, pc, a) == d
  {
  }

  /** The state of the engine between a call's edit and its publication, thread by thread. */
  lemma EffectOnEngine(g: Gates, t: Tid, d: Data, pc: Pc, a: Action, hit: bool)
    requires Move(g, t, pc, a, hit).Some?
    requires d.engine == if Pending(pc) then PutAll(d.committed, pc.op.call.writes) else d.committed
    ensures var pc', d' := Move(g, t, pc, a, hit).value.1, Effect(d, pc, a);
            d'.engine == if Pending(pc') then PutAll(d'.committed, pc'.op.call.writes) else d'.committed
  {
    hide PutAll, CacheAll, Recalculated;
    if pc.Editing? && a.Edit? && a.taken == |pc.call.writes| {
      assert pc.call.writes[..a.taken] == pc.call.writes;
    }
  }

  /** While `u` holds the workbook lock the steps of others leave the data alone. */
  lemma OthersLeaveData(s: State, t: Tid, a: Action, u: Tid)
    requires LocksOk(s) && t in s.threads && u in s.threads && u != t && HasWbWrite(s.threads[u])
    ensures Effect(s.data, s.threads[t], a) == s.data && !HasWbWrite(s.threads[t])
  {
    hide Effect, GatesOk;
    assert PcOk(s.gates, u, s.threads[u]) && PcOk(s.gates, t, s.threads[t]);
    EffectNeedsLock(s.data, s.threads[t], a);
  }

  /** The engine as thread `t` knows it when no other call is pending. */
  lemma EngineForThread(s: State, t: Tid)
    requires LocksOk(s) && EngineOk(s) && t in s.threads
    requires forall u :: u in s.threads && u != t ==> !Pending(s.threads[u])
    ensures s.data.engine == if Pending(s.threads[t]) then PutAll(s.data.committed, s.threads[t].op.call.writes)
                             else s.data.committed
  {
  }

  lemma EngineKept(s: State, t: Tid, a: Action)
    requires LocksOk(s) && EngineOk(s) && t in s.threads && Step(s, t, a).Some?
    ensures EngineOk(Step(s, t, a).value)
  {
    hide Move, Effect, Hit, GatesOk, PutAll, LocksOk;
    var pc, s' := s.threads[t], Step(s, t, a).value;
    if u :| u in s.threads && u != t && Pending(s.threads[u]) {
      OthersLeaveData(s, t, a, u);
      assert s'.threads[u] == s.threads[u];
      LocksKept(s, t, a);
      forall w | w in s'.threads && Pending(s'.threads[w]) ensures w == u {
        OnePending(s', w, u);
      }
    } else {
      EngineForThread(s, t);
      EffectOnEngine(s.gates, t, s.data, pc, a, Hit(s.data, pc));
      assert forall w :: w in s'.threads && w != t ==> s'.threads[w] == s.threads[w];
      assert t in s'.threads;
    }
  }

  lemma OnePending(s: State, t: Tid, u: Tid)
    requires LocksOk(s) && t in s.threads && u in s.threads && HasWbWrite(s.threads[t]) && HasWbWrite(s.threads[u])
    ensures t == u
  {
    assert PcOk(s.gates, t, s.threads[t]) && PcOk(s.gates, u, s.threads[u]);
  }

  /** A step that changes neither cache nor committed workbook, by its kind. */
  predicate Silent(pc: Pc, a: Action) {
    && !(pc.Caching? && a.Publish?) && !(pc.Undoing? && a.Undo?) && !(pc.Evaluating? && a.Recalculate?)
    && !(pc.Editing? && a.Edit? && a.taken < |pc.call.writes|) && !(pc.Changing? && a.Apply?)
  }

  lemma SilentEffect(d: Data, pc: Pc, a: Action)
    requires Silent(pc, a)
    ensures Effect(d, pc, a).cache == d.cache && Effect(d, pc, a).committed == d.committed
  {
    hide PutAll, CacheAll, Recalculated;
  }

  lemma PublishOnCache(s: State, t: Tid)
    requires t in s.threads && s.threads[t].Caching?
    requires Coherent(s.data.cache, s.data.committed)
    requires Pending(s.threads[t]) ==> s.data.engine == PutAll(s.data.committed, s.threads[t].op.call.writes)
    ensures var d := Effect(s.data, s.threads[t], Publish);
            Coherent(d.cache, d.committed) <==> Harmless(s, t, Publish)
  {
    hide PutAll, CacheAll, Overtaken, Recalculated, Spares, StoredAs;
    var pc := s.threads[t];
    if pc.op.WriteOp? {
      CachedWritesIff(s.data.cache, s.data.committed, pc.op.call.writes, pc.op.call.sheet);
    }
  }

  lemma StopOnCache(s: State, t: Tid, taken: nat)
    requires t in s.threads && s.threads[t].Editing?
    requires taken < |s.threads[t].call.writes| && s.data.engine == s.data.committed
    ensures var d := Effect(s.data, s.threads[t], Edit(taken));
            Coherent(d.cache, d.committed) <==> Harmless(s, t, Edit(taken))
  {
    var call := s.threads[t].call;
    UncachedWritesIff(s.data.cache, s.data.committed, call.writes[..taken], call.sheet);
    hide PutAll, CacheAll, Overtaken, Recalculated, Spares, Coherent;
  }

  lemma EvaluationOnCache(s: State, t: Tid, a: Action)
    requires t in s.threads && s.threads[t].Evaluating? && a.Recalculate? && s.data.engine == s.data.committed
    requires Coherent(s.data.cache, s.data.committed)
    ensures var d := Effect(s.data, s.threads[t], a);
            Coherent(d.cache, d.committed) <==> Harmless(s, t, a)
  {
    EvaluationIff(s.data.cache, s.data.committed, a.built, a.results);
    hide PutAll, CacheAll, Overtaken, Spares, Exposed, Coherent, Recalculated;
  }

  /** What a step of a thread that holds the workbook lock makes of cache and committed workbook. */
  lemma EffectOnCache(s: State, t: Tid, a: Action)
    requires Inv(s) && t in s.threads && HasWbWrite(s.threads[t]) && Step(s, t, a).Some?
    ensures var d := Step(s, t, a).value.data; Coherent(d.cache, d.committed) <==> Harmless(s, t, a)
  {
    var pc := s.threads[t];
    forall u | u in s.threads && u != t ensures !HasWbWrite(s.threads[u]) {
      if HasWbWrite(s.threads[u]) {
        OnePending(s, t, u);
      }
    }
    EngineForThread(s, t);
    hide PutAll, Coherent, LocksOk;
    if Silent(pc, a) {
      SilentEffect(s.data, pc, a);
      hide Effect;
    } else if pc.Caching? {
      PublishOnCache(s, t);
      hide Effect, Harmless;
    } else if pc.Editing? {
      StopOnCache(s, t, a.taken);
      hide Effect, Harmless;
    } else if pc.Evaluating? {
      EvaluationOnCache(s, t, a);
      hide Effect, Harmless;
    } else if pc.Changing? {
      ChangeOnCache(s, t);
      hide Effect, Harmless;
    } else {
      EmptyCacheOnUndo(s, t, a);
    }
  }

  /** A change shows at no cell. */
  lemma ChangeOnCache(s: State, t: Tid)
    requires t in s.threads && s.threads[t].Changing? && s.data.engine == s.data.committed
    requires Coherent(s.data.cache, s.data.committed)
    ensures var d := Effect(s.data, s.threads[t], Apply); Coherent(d.cache, d.committed) && Harmless(s, t, Apply)
  {
    ChangeKeepsCoherent(s.data.cache, s.data.committed, s.threads[t].change);
    hide Coherent, Changed;
  }

  lemma ChangeKeepsCoherent(cache: Cache, e: Engine, change: Change)
    requires Coherent(cache, e)
    ensures Coherent(cache, Changed(e, change))
  {
    assert Changed(e, change).store == e.store && Changed(e, change).system == e.system;
    hide Changed, Visible, StoreAs;
    assert forall cell, v :: StoredAs(Changed(e, change), cell, v) == StoredAs(e, cell, v);
  }

  lemma EmptyCacheOnUndo(s: State, t: Tid, a: Action)
    requires UndoOk(s) && t in s.threads && s.threads[t].Undoing?
    requires Coherent(s.data.cache, s.data.committed)
    ensures var d := Effect(s.data, s.threads[t], a); Coherent(d.cache, d.committed) && Harmless(s, t, a)
  {
  }

  lemma CacheKept(s: State, t: Tid, a: Action)
    requires Inv(s) && t in s.threads && Step(s, t, a).Some?
    ensures var s' := Step(s, t, a).value;
            UndoOk(s') && (Coherent(s'.data.cache, s'.data.committed) <==> Harmless(s, t, a))
  {
    var pc, s' := s.threads[t], Step(s, t, a).value;
    if HasWbWrite(pc) {
      EffectOnCache(s, t, a);
      hide Effect, Coherent, LocksOk, Harmless, EngineOk;
      forall u | u in s.threads && u != t ensures !HasWbWrite(s.threads[u]) {
        if HasWbWrite(s.threads[u]) {
          OnePending(s, t, u);
        }
      }
      if s'.threads[t].Undoing? {
        UndoingIsCleared(s.data, s.gates, t, pc, a);
      }
      hide Move, Hit;
      assert forall u :: u in s'.threads && u != t ==> s'.threads[u] == s.threads[u];
    } else {
      EffectNeedsLock(s.data, pc, a);
      NotUndoing(s.gates, t, pc, a, Hit(s.data, pc));
      hide Effect, Coherent, LocksOk, EngineOk, Move, Hit;
      assert forall u :: u in s'.threads && u != t ==> s'.threads[u] == s.threads[u];
    }
  }

  lemma UndoingIsCleared(d: Data, g: Gates, t: Tid, pc: Pc, a: Action)
    requires Move(g, t, pc, a, Hit(d, pc)).Some? && Move(g, t, pc, a, Hit(d, pc)).value.1.Undoing?
    ensures Effect(d, pc, a).cache == map[]
  {
  }

  lemma NotUndoing(g: Gates, t: Tid, pc: Pc, a: Action, hit: bool)
    requires !HasWbWrite(pc) && Move(g, t, pc, a, hit).Some?
    ensures !Move(g, t, pc, a, hit).value.1.Undoing?
  {
  }

  /** Every step keeps the locks, the engine and the cache in step exactly when it is harmless. */
  lemma StepKeepsInv(s: State, t: Tid, a: Action)
    requires Inv(s) && t in s.threads && Step(s, t, a).Some?
    ensures Inv(Step(s, t, a).value) <==> Harmless(s, t, a)
  {
    LocksKept(s, t, a);
    EngineKept(s, t, a);
    CacheKept(s, t, a);
    hide Harmless, LocksOk, EngineOk, UndoOk, Coherent, Step;
  }

  /** Runs: any number of steps of any threads in any order. */
  function Run(s: State, steps: seq<(Tid, Action)>): Option<State>
    decreases |steps|
  {
    if steps == [] then Some(s)
    else if steps[0].0 !in s.threads then None
    else
      match Step(s, steps[0].0, steps[0].1)
      case None => None
      case Some(s') => Run(s', steps[1..])
  }

  ghost predicate HarmlessRun(s: State, steps: seq<(Tid, Action)>)
    requires Run(s, steps).Some?
    decreases |steps|
  {
    steps != [] ==>
      Harmless(s, steps[0].0, steps[0].1) && HarmlessRun(Step(s, steps[0].0, steps[0].1).value, steps[1..])
  }

  /** The invariant at the start and after every step. */
  ghost predicate InvAlong(s: State, steps: seq<(Tid, Action)>)
    requires Run(s, steps).Some?
    decreases |steps|
  {
    Inv(s) && (steps != [] ==> InvAlong(Step(s, steps[0].0, steps[0].1).value, steps[1..]))
  }

  /** Along a run the invariant holds all the way exactly when every step is harmless. */
  lemma {:induction false} RunKeepsInv(s: State, steps: seq<(Tid, Action)>)
    requires Inv(s) && Run(s, steps).Some?
    ensures InvAlong(s, steps) <==> HarmlessRun(s, steps)
    ensures InvAlong(s, steps) ==> Inv(Run(s, steps).value)
    decreases |steps|
  {
    hide Step, Inv, Harmless;
    if steps != [] {
      var next := Step(s, steps[0].0, steps[0].1).value;
      StepKeepsInv(s, steps[0].0, steps[0].1);
      if Inv(next) {
        RunKeepsInv(next, steps[1..]);
      }
    }
  }

  /** In every harmless interleaving from a fresh workbook, whenever no thread holds the workbook lock for
      writing, each cached value is the engine's stored value for its cell. */
  lemma CacheCoherentWhenFree(s: State, steps: seq<(Tid, Action)>)
    requires Init(s) && Run(s, steps).Some? && HarmlessRun(s, steps)
    ensures var s' := Run(s, steps).value;
            Inv(s') && (s'.gates.wb.writer.None? ==> Coherent(s'.data.cache, s'.data.engine))
  {
    InitInv(s);
    RunKeepsInv(s, steps);
    var s' := Run(s, steps).value;
    if s'.gates.wb.writer.None? {
      NonePending(s');
    }
  }

  lemma NonePending(s: State)
    requires LocksOk(s) && EngineOk(s) && s.gates.wb.writer.None?
    ensures s.data.engine == s.data.committed
  {
    forall t | t in s.threads ensures !Pending(s.threads[t]) {
      assert PcOk(s.gates, t, s.threads[t]);
    }
  }

  lemma InitInv(s: State)
    requires Init(s)
    ensures Inv(s)
  {
  }

  /** Every read under a lock, cached or direct, answers from what has been committed at that moment, also
      while another thread is in the middle of a call. */
  lemma ReadsAreCommitted(s: State, t: Tid)
    requires Inv(s) && t in s.threads
    ensures var pc := s.threads[t];
            HasCacheRead(pc) && Holds(s.data.cache, pc.cell) ==>
              StoredAs(s.data.committed, pc.cell, s.data.cache[pc.cell].value)
    ensures var pc := s.threads[t];
            pc.ReadingWb? ==> DirectRead(s.data.engine, pc.cell) == DirectRead(s.data.committed, pc.cell)
  {
    if s.threads[t].ReadingWb? {
      assert PcOk(s.gates, t, s.threads[t]);
      NonePending(s);
    }
  }

  // ----- One call after the other -----

  datatype Commit =
    | Whole(writes: seq<Write>)
    | Prefix(writes: seq<Write>)
    | Restored(to: Engine)
    | Applied(change: Change)
    | Evaluated(built: seq<Cell>, results: map<Cell, Outcome>)

  function Committed(e: Engine, commit: Commit): Engine {
    match commit
    case Whole(writes) => PutAll(e, writes)
    case Prefix(writes) => PutAll(e, writes)
    case Restored(to) => to
    case Applied(change) => Changed(e, change)
    case Evaluated(built, results) => Recalculated(e, built, results)
  }

  /** What a thread that takes action `a` where it stands commits. */
  function CommitOf(pc: Pc, a: Action): Option<Commit> {
    match (pc, a)
    case (Caching(op), Publish) => if op.WriteOp? then Some(Whole(op.call.writes)) else None
    case (Editing(call), Edit(taken)) => if taken < |call.writes| then Some(Prefix(call.writes[..taken])) else None
    case (Undoing, Undo(outcome)) => if outcome.Some? then Some(Restored(outcome.value)) else None
    case (Changing(change), Apply) => Some(Applied(change))
    case (Evaluating, Recalculate(built, results)) => Some(Evaluated(built, results))
    case _ => None
  }

  lemma CommitOfStep(s: State, t: Tid, a: Action)
    requires LocksOk(s) && EngineOk(s) && t in s.threads && Step(s, t, a).Some?
    ensures var commit := CommitOf(s.threads[t], a);
            Step(s, t, a).value.data.committed
            == if commit.Some? then Committed(s.data.committed, commit.value) else s.data.committed
  {
    if HasWbWrite(s.threads[t]) {
      forall u | u in s.threads && u != t ensures !Pending(s.threads[u]) {
        if Pending(s.threads[u]) {
          OnePending(s, t, u);
        }
      }
      EngineForThread(s, t);
    }
    hide LocksOk, EngineOk, PutAll, CacheAll, Recalculated, MayStop, Acquired, AfterRead;
  }

  /** The commits of a run, in the order in which they take effect. */
  function Commits(s: State, steps: seq<(Tid, Action)>): seq<Commit>
    requires Run(s, steps).Some?
    decreases |steps|
  {
    if steps == [] then []
    else
      var commit := CommitOf(s.threads[steps[0].0], steps[0].1);
      (if commit.Some? then [commit.value] else []) + Commits(Step(s, steps[0].0, steps[0].1).value, steps[1..])
  }

  function Replay(e: Engine, commits: seq<Commit>): Engine
    decreases |commits|
  {
    if commits == [] then e else Replay(Committed(e, commits[0]), commits[1..])
  }

  lemma {:induction false} RunReplays(s: State, steps: seq<(Tid, Action)>)
    requires LocksOk(s) && EngineOk(s) && Run(s, steps).Some?
    ensures var s' := Run(s, steps).value;
            LocksOk(s') && EngineOk(s') && s'.data.committed == Replay(s.data.committed, Commits(s, steps))
    decreases |steps|
  {
    hide LocksOk, EngineOk, Step, CommitOf, Committed;
    if steps != [] {
      var (t, a) := steps[0];
      var next := Step(s, t, a).value;
      LocksKept(s, t, a);
      EngineKept(s, t, a);
      CommitOfStep(s, t, a);
      RunReplays(next, steps[1..]);
      var commit, rest := CommitOf(s.threads[t], a), Commits(next, steps[1..]);
      if commit.Some? {
        assert ([commit.value] + rest)[1..] == rest;
      } else {
        assert [] + rest == rest;
      }
    }
  }

  /** Calls do not mix: after any run, harmless or not, the workbook is what whole calls, failed prefixes,
      undos and evaluations make of it one after the other; and whenever no thread holds the workbook lock
      for writing, the engine is that workbook. */
  lemma CommitsAreWholeCalls(s: State, steps: seq<(Tid, Action)>)
    requires Init(s) && Run(s, steps).Some?
    ensures var s' := Run(s, steps).value;
            && s'.data.committed == Replay(s.data.engine, Commits(s, steps))
            && (s'.gates.wb.writer.None? ==> s'.data.engine == s'.data.committed)
  {
    InitInv(s);
    RunReplays(s, steps);
    if Run(s, steps).value.gates.wb.writer.None? {
      NonePending(Run(s, steps).value);
    }
  }

  // ----- Deadlock -----

  /** The thread has a step it can take. */
  predicate CanMove(s: State, t: Tid)
    requires t in s.threads
  {
    var g := s.gates;
    match s.threads[t]
    case Idle => g.gil.None?
    case WaitWb(_) => FreeForWrite(g.wb)
    case WaitEval => FreeForWrite(g.wb)
    case WaitWbRead(_) => FreeForRead(g.wb)
    case WaitCache(_) => FreeForWrite(g.cacheLock)
    case WaitCacheRead(_) => FreeForRead(g.cacheLock)
    case CallbackWaitCache(_) => FreeForRead(g.cacheLock)
    case WaitGil => g.gil.None?
    case WaitAttach => g.gil.None?
    case _ => true
  }

  /** An action the thread can always take where it stands. */
  function OwnAction(pc: Pc): Action {
    match pc
    case Idle => Begin(EvalOp)
    case Editing(call) => Edit(|call.writes|)
    case Caching(_) => Publish
    case Changing(_) => Apply
    case Undoing => Undo(None)
    case Leaving => Release
    case ReadingCache(_) => Read
    case ReadingWb(_) => Read
    case CallbackReading(_) => Read
    case Detaching => Detach
    case Evaluating => Release
    case InCallback => Return
    case _ => Acquire
  }

  lemma CanMoveIff(s: State, t: Tid)
    requires t in s.threads
    ensures CanMove(s, t) <==> exists a :: Step(s, t, a).Some?
  {
    hide Effect;
    var pc := s.threads[t];
    if CanMove(s, t) {
      assert Step(s, t, OwnAction(pc)).Some?;
    }
  }

  /** A thread that holds the GIL waits for the workbook lock, and the evaluation that holds the
      workbook lock waits for the GIL to run a callback. */
  predicate Wedge(s: State, t: Tid, u: Tid) {
    && t in s.threads && u in s.threads
    && s.gates.gil == Some(t) && (s.threads[t].WaitWb? || s.threads[t].WaitWbRead?)
    && s.gates.wb.writer == Some(u) && s.threads[u].WaitGil?
  }

  ghost predicate Wedged(s: State) {
    exists t, u :: Wedge(s, t, u)
  }

  predicate WaitsForCache(pc: Pc) {
    pc.WaitCache? || pc.WaitCacheRead? || pc.CallbackWaitCache?
  }

  /** Whoever waits for the cache lock waits for a thread that can move: the lock is never held by
      a thread that is itself waiting. */
  lemma CacheHolderMoves(s: State, t: Tid) returns (u: Tid)
    requires LocksOk(s) && t in s.threads && WaitsForCache(s.threads[t])
    ensures u in s.threads && !s.threads[u].Idle? && CanMove(s, u)
  {
    var l := s.gates.cacheLock;
    if l.writer.Some? {
      u := l.writer.value;
      assert PcOk(s.gates, u, s.threads[u]);
    } else if l.readers != {} {
      u :| u in l.readers;
      assert PcOk(s.gates, u, s.threads[u]);
    } else {
      u := t;
    }
  }

  /** Whoever holds the GIL can move, or waits for one that can, unless the workbook is wedged. */
  lemma GilHolderMoves(s: State) returns (u: Tid)
    requires LocksOk(s) && s.gates.gil.Some? && !Wedged(s)
    ensures u in s.threads && !s.threads[u].Idle? && CanMove(s, u)
  {
    var t := s.gates.gil.value;
    var pc := s.threads[t];
    assert PcOk(s.gates, t, pc);
    if CanMove(s, t) {
      u := t;
    } else if WaitsForCache(pc) {
      u := CacheHolderMoves(s, t);
    } else if s.gates.wb.writer.Some? {
      u := s.gates.wb.writer.value;
      assert PcOk(s.gates, u, s.threads[u]);
      assert !Wedge(s, t, u);
    } else {
      u :| u in s.gates.wb.readers;
      assert PcOk(s.gates, u, s.threads[u]);
    }
  }

  /** As long as the workbook is not wedged, some call that is under way can go on. */
  lemma CallsGoOn(s: State, t: Tid) returns (u: Tid)
    requires LocksOk(s) && t in s.threads && !s.threads[t].Idle? && !Wedged(s)
    ensures u in s.threads && !s.threads[u].Idle? && CanMove(s, u)
  {
    var pc := s.threads[t];
    if CanMove(s, t) {
      u := t;
    } else if WaitsForCache(pc) {
      u := CacheHolderMoves(s, t);
    } else if s.gates.gil.Some? {
      u := GilHolderMoves(s);
    } else if s.gates.wb.writer.Some? {
      var w := s.gates.wb.writer.value;
      assert PcOk(s.gates, w, s.threads[w]);
      if CanMove(s, w) {
        u := w;
      } else {
        u := CacheHolderMoves(s, w);
      }
    } else {
      u :| u in s.gates.wb.readers;
      assert PcOk(s.gates, u, s.threads[u]);
    }
  }

  /** The only deadlock: in a reachable state no thread can take any step exactly when the
      workbook is wedged. Without an interpreter lock that never happens. */
  lemma DeadlockIff(s: State)
    requires LocksOk(s) && s.threads != map[]
    ensures (forall t :: t in s.threads ==> !CanMove(s, t)) <==> Wedged(s)
    ensures Wedged(s) ==> s.gates.hasGil
  {
    if Wedged(s) {
      var t, u :| Wedge(s, t, u);
      forall w | w in s.threads ensures !CanMove(s, w) {
        assert PcOk(s.gates, w, s.threads[w]) && PcOk(s.gates, t, s.threads[t]);
      }
    } else {
      var t :| t in s.threads;
      if s.threads[t].Idle? {
        if s.gates.gil.Some? {
          var u := GilHolderMoves(s);
        }
      } else {
        var u := CallsGoOn(s, t);
      }
    }
  }

  lemma {:induction false} RunThen(s: State, steps: seq<(Tid, Action)>, t: Tid, a: Action)
    requires Run(s, steps).Some? && t in Run(s, steps).value.threads
    ensures Run(s, steps + [(t, a)]) == Step(Run(s, steps).value, t, a)
    decreases |steps|
  {
    hide Step;
    if steps == [] {
      assert steps + [(t, a)] == [(t, a)];
      var next := Step(s, t, a);
      assert next.Some? ==> Run(next.value, []) == next;
    } else {
      assert (steps + [(t, a)])[1..] == steps[1..] + [(t, a)];
      RunThen(Step(s, steps[0].0, steps[0].1).value, steps[1..], t, a);
    }
  }

  lemma Grow(s: State, steps: seq<(Tid, Action)>, mid: State, t: Tid, a: Action, next: State)
    requires Run(s, steps) == Some(mid) && t in mid.threads && Step(mid, t, a) == Some(next)
    ensures Run(s, steps + [(t, a)]) == Some(next)
  {
    hide Step;
    RunThen(s, steps, t, a);
  }

  lemma RunNothing(s: State)
    ensures Run(s, []) == Some(s)
  {
  }

  lemma {:induction false} RunAppend(s: State, a: seq<(Tid, Action)>, b: seq<(Tid, Action)>)
    requires Run(s, a).Some?
    ensures Run(s, a + b) == Run(Run(s, a).value, b)
    decreases |a|
  {
    hide Step;
    if a == [] {
      assert a + b == b;
    } else {
      assert (a + b)[1..] == a[1..] + b;
      RunAppend(Step(s, a[0].0, a[0].1).value, a[1..], b);
    }
  }

  lemma NoEffect(d: Data, pc: Pc, a: Action)
    requires !a.Edit? && !a.Publish? && !a.Undo? && !a.Recalculate? && !a.Apply?
    ensures Effect(d, pc, a) == d
  {
  }

  /** An empty workbook whose edits are logged, as in interactive mode. */
  const FRESH := NewEngine(true, Excel1900, Native)

  /** Two idle threads in front of a workbook at rest. */
  function Two(e: Engine, cache: Cache): State {
    State(map[0 := Idle, 1 := Idle], Gates(true, None, FREE, FREE), Data(e, cache, e))
  }

  const TWO := Two(FRESH, map[])

  /** The same two threads, one at a time further on. */
  function Pair(zero: Pc, one: Pc, gil: Option<Tid>, wb: Lock): State {
    State(map[0 := zero, 1 := one], Gates(true, gil, wb, FREE), TWO.data)
  }

  lemma PairSteps()
    ensures TWO == Pair(Idle, Idle, None, FREE)
    ensures Step(Pair(Idle, Idle, None, FREE), 1, Begin(EvalOp)) == Some(Pair(Idle, Detaching, Some(1), FREE))
    ensures Step(Pair(Idle, Detaching, Some(1), FREE), 1, Detach) == Some(Pair(Idle, WaitEval, None, FREE))
    ensures var held := Lock(Some(1), {});
            && Step(Pair(Idle, WaitEval, None, FREE), 1, Acquire) == Some(Pair(Idle, Evaluating, None, held))
            && Step(Pair(Idle, Evaluating, None, held), 1, CallOut) == Some(Pair(Idle, WaitGil, None, held))
  {
    hide FRESH;
    assert forall zero: Pc, one: Pc, next: Pc :: map[0 := zero, 1 := one][1 := next] == map[0 := zero, 1 := next];
  }

  lemma PairLast(held: Lock)
    ensures Step(Pair(Idle, WaitGil, None, held), 0, Begin(UndoOp))
         == Some(Pair(WaitWb(UndoOp), WaitGil, Some(0), held))
  {
    hide FRESH;
    assert map[0 := Idle, 1 := WaitGil][0 := WaitWb(UndoOp)] == map[0 := WaitWb(UndoOp), 1 := WaitGil];
  }

  /** The wedge is reached by one evaluation with a callback and one ordinary call beside it. */
  lemma WedgeIsReachable()
    ensures Init(TWO)
    ensures var steps :=
              [] + [(1, Begin(EvalOp))] + [(1, Detach)] + [(1, Acquire)] + [(1, CallOut)] + [(0, Begin(UndoOp))];
            Run(TWO, steps).Some? && Wedged(Run(TWO, steps).value)
  {
    var held := Lock(Some(1), {});
    PairSteps();
    PairLast(held);
    RunNothing(TWO);
    assert Wedge(Pair(WaitWb(UndoOp), WaitGil, Some(0), held), 0, 1);
    hide Run, Step;
    var begun := [] + [(1, Begin(EvalOp))];
    Grow(TWO, [], TWO, 1, Begin(EvalOp), Pair(Idle, Detaching, Some(1), FREE));
    Grow(TWO, begun, Pair(Idle, Detaching, Some(1), FREE), 1, Detach, Pair(Idle, WaitEval, None, FREE));
    Grow(TWO, begun + [(1, Detach)], Pair(Idle, WaitEval, None, FREE), 1, Acquire, Pair(Idle, Evaluating, None, held));
    Grow(TWO, begun + [(1, Detach)] + [(1, Acquire)], Pair(Idle, Evaluating, None, held), 1, CallOut,
         Pair(Idle, WaitGil, None, held));
    Grow(TWO, begun + [(1, Detach)] + [(1, Acquire)] + [(1, CallOut)], Pair(Idle, WaitGil, None, held),
         0, Begin(UndoOp), Pair(WaitWb(UndoOp), WaitGil, Some(0), held));
  }

  /** A batch that fails part way, of values or of formulas, keeps the workbook in step exactly when what its
      taken writes leave to show is, wherever the cache has a value, that value. */
  lemma FailedBatchIff(s: State, t: Tid, taken: nat)
    requires Inv(s) && t in s.threads && s.threads[t].Editing?
    requires taken < |s.threads[t].call.writes| && MayStop(s.threads[t].call.writes, taken)
    ensures Step(s, t, Edit(taken)).Some?
    ensures Inv(Step(s, t, Edit(taken)).value)
            <==> Spares(s.data.cache, s.data.committed, s.threads[t].call.writes[..taken], s.threads[t].call.sheet)
  {
    StepKeepsInv(s, t, Edit(taken));
    hide Inv;
  }
}
