/** Nested calls over several workbooks: the lock of each workbook, the interpreter lock (GIL), the threads
    that wait for them, and the callbacks that the engine runs on the evaluating thread or on others. An
    ordinary call keeps the GIL while it waits for a workbook; an evaluation gives it up first and takes it
    back at the end. The guard of `Reentrancy` stands in front of every workbook. */
module Nesting {
  import opened Options
  import opened Reentrancy

  datatype Kind =
    | Waiting(evaluates: bool)  // past the guard, in front of the lock
    | Using                     // has the lock, for an ordinary call
    | Evaluating                // has the lock, for an evaluation
    | InCallback                // a callback of the workbook is under way here

  /** One entry of a thread's call stack. */
  datatype Frame =
    | Frame(kind: Kind, w: WorkbookId)
    | Attaching  // Python code that wants the GIL
    | Attached   // Python code that has it

  type Stack = seq<Frame>

  datatype Resource = Book(w: WorkbookId) | Gil

  /** `locks` gives the thread and the stack position that hold a lock; `markers` are the threads' vectors
      of active callbacks. */
  datatype State = State(stacks: seq<Stack>, markers: seq<seq<WorkbookId>>, locks: map<Resource, (Tid, nat)>)

  datatype Action =
    | Begin                                 // a thread outside wants to run Python code
    | End                                   // it is done
    | YieldGil                              // the interpreter switches threads
    | Call(w: WorkbookId, evaluates: bool)  // Python code uses a workbook
    | Acquire                               // take the awaited lock
    | Finish                                // the call is over, its lock is released
    | Start(w: WorkbookId)                  // the engine runs a callback of `w` on this thread
    | Return                                // the callback is over

  /** The lock that the frame wants, holds or runs under. */
  function Target(f: Frame): Resource {
    if f.Frame? then Book(f.w) else Gil
  }

  predicate IsCallback(f: Frame) {
    f.Frame? && f.kind.InCallback?
  }

  predicate Awaits(f: Frame) {
    f.Attaching? || (f.Frame? && f.kind.Waiting?)
  }

  predicate Holder(f: Frame) {
    f.Attached? || (f.Frame? && (f.kind.Using? || f.kind.Evaluating?))
  }

  function Held(f: Frame): Frame {
    if !f.Frame? then Attached
    else if f.kind.Waiting? && f.kind.evaluates then Frame(Evaluating, f.w)
    else Frame(Using, f.w)
  }

  predicate MayCall(stack: Stack) {
    stack != [] && stack[|stack| - 1] == Attached
  }

  predicate EvaluatesOnTop(stack: Stack) {
    stack != [] && stack[|stack| - 1].Frame? && stack[|stack| - 1].kind.Evaluating?
  }

  predicate UsesOnTop(stack: Stack) {
    stack != [] && stack[|stack| - 1].Frame? && stack[|stack| - 1].kind.Using?
  }

  /** The thread is free to take a callback of an evaluation that is under way. */
  predicate MayStart(s: State, stack: Stack, w: WorkbookId) {
    && (stack == [] || EvaluatesOnTop(stack))
    && Book(w) in s.locks && s.locks[Book(w)].0 < |s.stacks| && Frame(Evaluating, w) in s.stacks[s.locks[Book(w)].0]
  }

  predicate CallbacksOver(s: State, w: WorkbookId) {
    forall t :: 0 <= t < |s.stacks| ==> Frame(InCallback, w) !in s.stacks[t]
  }

  function With(s: State, t: Tid, stack: Stack): State
    requires t < |s.stacks|
  {
    s.(stacks := s.stacks[t := stack])
  }

  /** The top frame replaced. */
  function Retopped(stack: Stack, f: Frame): Stack
    requires stack != []
  {
    stack[..|stack| - 1] + [f]
  }

  /** The thread gives up the GIL and its top frame becomes `f`. */
  function Detached(s: State, t: Tid, f: Frame): State
    requires t < |s.stacks| && s.stacks[t] != []
  {
    With(s, t, Retopped(s.stacks[t], f)).(locks := s.locks - {Gil})
  }

  /** Past the guard: an evaluation waits without the GIL, an ordinary call with it. */
  function Past(s: State, t: Tid, w: WorkbookId, evaluates: bool): State
    requires t < |s.stacks| && MayCall(s.stacks[t])
  {
    var f := Frame(Waiting(evaluates), w);
    if evaluates then Detached(s, t, f) else With(s, t, s.stacks[t] + [f])
  }

  /** One step of thread `t`; None when it cannot take it now. */
  function Step(s: State, t: Tid, a: Action): Option<State>
    requires t < |s.stacks| == |s.markers|
  {
    var stack := s.stacks[t];
    var n := |stack| - 1;
    match a
    case Begin => if stack == [] then Some(With(s, t, [Attaching])) else None
    case End => if stack == [Attached] then Some(With(s, t, []).(locks := s.locks - {Gil})) else None
    case YieldGil => if MayCall(stack) then Some(Detached(s, t, Attaching)) else None
    case Call(w, evaluates) =>
      if !MayCall(stack) then None
      else if w !in s.markers[t] then Some(Past(s, t, w, evaluates))
      else Some(if evaluates then Detached(s, t, Attaching) else s)
    case Acquire =>
      if stack == [] || !Awaits(stack[n]) || Target(stack[n]) in s.locks then None
      else Some(With(s, t, Retopped(stack, Held(stack[n]))).(locks := s.locks[Target(stack[n]) := (t, n)]))
    case Finish =>
      if UsesOnTop(stack) then Some(With(s, t, stack[..n]).(locks := s.locks - {Target(stack[n])}))
      else if EvaluatesOnTop(stack) && CallbacksOver(s, stack[n].w)
      then Some(With(s, t, Retopped(stack, Attaching)).(locks := s.locks - {Target(stack[n])}))
      else None
    case Start(w) =>
      if MayStart(s, stack, w)
      then Some(With(s, t, stack + [Frame(InCallback, w), Attaching]).(markers := s.markers[t := s.markers[t] + [w]]))
      else None
    case Return =>
      if MayCall(stack) && n > 0 && IsCallback(stack[n - 1])
      then Some(With(s, t, stack[..n - 1]).(
                  locks := s.locks - {Gil}, markers := s.markers[t := Dropped(s.markers[t], stack[n - 1].w)]))
      else None
  }

  // ----- What every run keeps -----

  predicate At(s: State, t: int, i: int) {
    0 <= t < |s.stacks| && 0 <= i < |s.stacks[t]|
  }

  /** The frame holds or wants the lock. */
  predicate Upper(f: Frame) {
    !IsCallback(f)
  }

  /** The frame keeps a lock, or belongs to an evaluation that does, and further frames may stand on it. */
  predicate Lower(f: Frame) {
    f.Attached? || (f.Frame? && (f.kind.Evaluating? || f.kind.InCallback?))
  }

  ghost predicate LocksOk(s: State) {
    && (forall t, i :: At(s, t, i) && Holder(s.stacks[t][i]) ==>
          Target(s.stacks[t][i]) in s.locks && s.locks[Target(s.stacks[t][i])] == (t, i))
    && (forall r :: r in s.locks ==>
          At(s, s.locks[r].0, s.locks[r].1) && Target(s.stacks[s.locks[r].0][s.locks[r].1]) == r
          && Holder(s.stacks[s.locks[r].0][s.locks[r].1]))
  }

  function FrameOfLock(s: State, r: Resource): Option<Frame> {
    if r in s.locks && At(s, s.locks[r].0, s.locks[r].1) then Some(s.stacks[s.locks[r].0][s.locks[r].1]) else None
  }

  /** The workbook's lock is held by an evaluation. */
  predicate UnderEvaluation(s: State, w: WorkbookId) {
    FrameOfLock(s, Book(w)) == Some(Frame(Evaluating, w))
  }

  /** A callback under way belongs to an evaluation that has not finished. */
  ghost predicate CallbacksOk(s: State) {
    forall t, i :: At(s, t, i) && IsCallback(s.stacks[t][i]) ==> UnderEvaluation(s, s.stacks[t][i].w)
  }

  /** Where Python code or a detached evaluation may stand. */
  predicate Ground(below: Stack) {
    below == [] || IsCallback(below[|below| - 1])
  }

  predicate Fits(below: Stack, f: Frame) {
    match f
    case Attaching => Ground(below)
    case Attached => Ground(below)
    case Frame(kind, _) =>
      match kind
      case Waiting(evaluates) => if evaluates then Ground(below) else MayCall(below)
      case Using => MayCall(below)
      case Evaluating => Ground(below)
      case InCallback => below == [] || EvaluatesOnTop(below)
  }

  /** Frames stand on one another as calls nest, and above a callback of a workbook no frame of the same
      stack wants or holds that workbook's lock. */
  ghost predicate Nested(stack: Stack) {
    && (forall i :: 0 <= i < |stack| ==> Fits(stack[..i], stack[i]))
    && (forall i, j :: 0 <= i < j < |stack| && IsCallback(stack[i]) && Upper(stack[j]) ==>
          Target(stack[j]) != Target(stack[i]))
  }

  ghost predicate StackOk(stack: Stack) {
    Nested(stack) && (stack != [] ==> Upper(stack[|stack| - 1]))
  }

  function Marks(stack: Stack): seq<WorkbookId> {
    if stack == [] then []
    else
      var last := stack[|stack| - 1];
      Marks(stack[..|stack| - 1]) + if IsCallback(last) then [last.w] else []
  }

  predicate MarkersOk(s: State) {
    |s.markers| == |s.stacks| && forall t :: 0 <= t < |s.stacks| ==> s.markers[t] == Marks(s.stacks[t])
  }

  ghost predicate StacksOk(s: State) {
    forall t :: 0 <= t < |s.stacks| ==> StackOk(s.stacks[t])
  }

  ghost predicate Inv(s: State) {
    LocksOk(s) && CallbacksOk(s) && MarkersOk(s) && StacksOk(s)
  }

  /** The parts about locks and callbacks, which do not look at the vectors. */
  ghost predicate TablesOk(s: State) {
    LocksOk(s) && CallbacksOk(s)
  }

  // ----- The tables -----

  /** Whatever is not at position `n` keeps its holder, and no other holder comes up. */
  predicate HoldersBut(stack: Stack, stack': Stack, n: int) {
    && (forall i :: 0 <= i < |stack| && i != n && Holder(stack[i]) ==> i < |stack'| && stack'[i] == stack[i])
    && (forall i :: 0 <= i < |stack'| && Holder(stack'[i]) ==> i != n && i < |stack| && stack[i] == stack'[i])
  }

  predicate CallbacksFrom(stack: Stack, stack': Stack) {
    forall f :: f in stack' && IsCallback(f) ==> f in stack
  }

  /** Moves that touch no lock. */
  lemma TablesSame(s: State, t: Tid, stack': Stack, markers': seq<seq<WorkbookId>>)
    requires TablesOk(s) && t < |s.stacks| && HoldersBut(s.stacks[t], stack', -1)
    requires forall f :: f in stack' && IsCallback(f) ==> f in s.stacks[t] || UnderEvaluation(s, f.w)
    ensures TablesOk(With(s, t, stack').(markers := markers'))
  {
    var s' := With(s, t, stack').(markers := markers');
    assert forall r :: r in s.locks ==> FrameOfLock(s', r) == FrameOfLock(s, r);
    forall u, i | At(s', u, i) && IsCallback(s'.stacks[u][i]) ensures UnderEvaluation(s', s'.stacks[u][i].w) {
      var f := s'.stacks[u][i];
      assert f in s'.stacks[u];
      if f in s.stacks[u] {
        CallbackIsLocked(s, u, f);
      }
    }
  }

  lemma CallbackIsLocked(s: State, t: Tid, f: Frame)
    requires CallbacksOk(s) && t < |s.stacks| && f in s.stacks[t] && IsCallback(f)
    ensures Book(f.w) in s.locks && UnderEvaluation(s, f.w)
  {
    var i :| 0 <= i < |s.stacks[t]| && s.stacks[t][i] == f;
    assert At(s, t, i);
  }

  /** The holder at position `n` goes, and its lock with it. */
  lemma TablesRelease(s: State, t: Tid, stack': Stack, n: nat, markers': seq<seq<WorkbookId>>)
    requires TablesOk(s) && t < |s.stacks| && n < |s.stacks[t]| && Holder(s.stacks[t][n])
    requires HoldersBut(s.stacks[t], stack', n) && CallbacksFrom(s.stacks[t], stack')
    requires s.stacks[t][n].Frame? && s.stacks[t][n].kind.Evaluating? ==> CallbacksOver(s, s.stacks[t][n].w)
    ensures TablesOk(With(s, t, stack').(locks := s.locks - {Target(s.stacks[t][n])}, markers := markers'))
  {
    var top := s.stacks[t][n];
    var s' := With(s, t, stack').(locks := s.locks - {Target(top)}, markers := markers');
    assert At(s, t, n);
    assert forall r :: r in s'.locks ==> FrameOfLock(s', r) == FrameOfLock(s, r);
    assert LocksOk(s');
    forall u, i | At(s', u, i) && IsCallback(s'.stacks[u][i]) ensures UnderEvaluation(s', s'.stacks[u][i].w) {
      var f := s'.stacks[u][i];
      assert f in s'.stacks[u] && f in s.stacks[u];
      CallbackIsLocked(s, u, f);
      assert Target(f) != Target(top);
    }
  }

  lemma LocksTake(s: State, t: Tid)
    requires LocksOk(s) && t < |s.stacks| == |s.markers| && Step(s, t, Acquire).Some?
    ensures LocksOk(Step(s, t, Acquire).value)
    ensures forall r :: r in s.locks ==> FrameOfLock(Step(s, t, Acquire).value, r) == FrameOfLock(s, r)
  {
    var s', n := Step(s, t, Acquire).value, |s.stacks[t]| - 1;
    assert forall u, i :: At(s', u, i) <==> At(s, u, i);
    assert forall u, i :: At(s, u, i) && !(u == t && i == n) ==> s'.stacks[u][i] == s.stacks[u][i];
    assert s'.locks == s.locks[Target(s.stacks[t][n]) := (t, n)];
    assert Holder(s'.stacks[t][n]) && Target(s'.stacks[t][n]) == Target(s.stacks[t][n]);
    hide Step;
  }

  lemma TablesTake(s: State, t: Tid)
    requires TablesOk(s) && t < |s.stacks| == |s.markers| && Step(s, t, Acquire).Some?
    ensures TablesOk(Step(s, t, Acquire).value)
  {
    var s' := Step(s, t, Acquire).value;
    LocksTake(s, t);
    hide FrameOfLock, LocksOk;
    forall u, i | At(s', u, i) && IsCallback(s'.stacks[u][i]) ensures UnderEvaluation(s', s'.stacks[u][i].w) {
      assert At(s, u, i) && s.stacks[u][i] == s'.stacks[u][i] && s.stacks[u][i] in s.stacks[u];
      CallbackIsLocked(s, u, s.stacks[u][i]);
    }
  }

  /** An evaluation holds its workbook's lock. */
  lemma LockOfEvaluation(s: State, t: Tid, w: WorkbookId)
    requires LocksOk(s) && t < |s.stacks| && Frame(Evaluating, w) in s.stacks[t]
    ensures UnderEvaluation(s, w)
  {
    var i :| 0 <= i < |s.stacks[t]| && s.stacks[t][i] == Frame(Evaluating, w);
    assert At(s, t, i);
  }

  lemma StepKeepsTables(s: State, t: Tid, a: Action)
    requires TablesOk(s) && t < |s.stacks| == |s.markers| && Step(s, t, a).Some?
    ensures TablesOk(Step(s, t, a).value)
  {
    var stack := s.stacks[t];
    var n := |stack| - 1;
    hide TablesOk;
    match a
    case Begin => TablesSame(s, t, [Attaching], s.markers);
    case End => TablesRelease(s, t, [], 0, s.markers);
    case YieldGil => TablesRelease(s, t, Retopped(stack, Attaching), n, s.markers);
    case Call(w, evaluates) =>
      if w !in s.markers[t] {
        PastKeepsTables(s, t, w, evaluates);
      } else if evaluates {
        TablesRelease(s, t, Retopped(stack, Attaching), n, s.markers);
      }
    case Acquire => TablesTake(s, t);
    case Finish =>
      TablesRelease(s, t, if UsesOnTop(stack) then stack[..n] else Retopped(stack, Attaching), n, s.markers);
    case Start(w) => StartKeepsTables(s, t, w);
    case Return =>
      TablesRelease(s, t, stack[..n - 1], n, s.markers[t := Dropped(s.markers[t], stack[n - 1].w)]);
  }

  lemma PastKeepsTables(s: State, t: Tid, w: WorkbookId, evaluates: bool)
    requires TablesOk(s) && t < |s.stacks| && MayCall(s.stacks[t])
    ensures TablesOk(Past(s, t, w, evaluates))
  {
    hide TablesOk;
    var stack, f := s.stacks[t], Frame(Waiting(evaluates), w);
    if evaluates {
      TablesRelease(s, t, Retopped(stack, f), |stack| - 1, s.markers);
    } else {
      TablesSame(s, t, stack + [f], s.markers);
    }
  }

  lemma StartKeepsTables(s: State, t: Tid, w: WorkbookId)
    requires TablesOk(s) && t < |s.stacks| == |s.markers| && Step(s, t, Start(w)).Some?
    ensures TablesOk(Step(s, t, Start(w)).value)
  {
    LockOfEvaluation(s, s.locks[Book(w)].0, w);
    hide TablesOk, LocksOk, CallbacksOk;
    TablesSame(s, t, s.stacks[t] + [Frame(InCallback, w), Attaching], s.markers[t := s.markers[t] + [w]]);
  }

  // ----- The stacks -----

  lemma {:induction false} MarksIff(stack: Stack, w: WorkbookId)
    ensures w in Marks(stack) <==> Frame(InCallback, w) in stack
  {
    if stack != [] {
      var front := stack[..|stack| - 1];
      MarksIff(front, w);
      assert stack == front + [stack[|stack| - 1]];
    }
  }

  lemma MarksPush(stack: Stack, f: Frame)
    ensures Marks(stack + [f]) == Marks(stack) + if IsCallback(f) then [f.w] else []
  {
    assert (stack + [f])[..|stack|] == stack;
  }

  lemma MarksPop(stack: Stack)
    requires stack != []
    ensures var front, last := stack[..|stack| - 1], stack[|stack| - 1];
            Marks(stack) == Marks(front) + if IsCallback(last) then [last.w] else []
  {
  }

  lemma DropsLast(active: seq<WorkbookId>, w: WorkbookId)
    ensures Dropped(active + [w], w) == active
  {
    assert (active + [w])[..|active|] == active;
  }

  lemma {:induction false} NestedTake(stack: Stack, n: nat)
    requires Nested(stack) && n <= |stack|
    ensures Nested(stack[..n])
  {
    assert forall i :: 0 <= i < n ==> stack[..n][..i] == stack[..i];
  }

  lemma {:induction false} NestedPush(stack: Stack, f: Frame)
    requires Nested(stack) && Fits(stack, f)
    requires Upper(f) ==> forall i :: 0 <= i < |stack| && IsCallback(stack[i]) ==> Target(f) != Target(stack[i])
    ensures Nested(stack + [f])
  {
    var stack' := stack + [f];
    hide Fits;
    assert stack'[..|stack|] == stack;
    assert forall i :: 0 <= i < |stack| ==> stack'[..i] == stack[..i];
  }

  /** The top frame is replaced by one that fits in its place. */
  lemma {:induction false} NestedRetop(stack: Stack, f: Frame)
    requires stack != [] && Nested(stack) && Fits(stack[..|stack| - 1], f)
    requires Target(f) == Gil || (Upper(stack[|stack| - 1]) && Target(f) == Target(stack[|stack| - 1]))
    requires Upper(f)
    ensures StackOk(Retopped(stack, f)) && Marks(Retopped(stack, f)) == Marks(stack[..|stack| - 1])
  {
    var front := stack[..|stack| - 1];
    NestedTake(stack, |stack| - 1);
    NestedPush(front, f);
    MarksPush(front, f);
    hide Fits, Nested;
  }

  /** What a step that takes or gives back a lock without a new call makes of the thread's stack. */
  lemma {:induction false} SwapStack(stack: Stack, f: Frame)
    requires stack != [] && StackOk(stack)
    requires if f == Attaching then MayCall(stack) || EvaluatesOnTop(stack)
             else Awaits(stack[|stack| - 1]) && f == Held(stack[|stack| - 1])
    ensures StackOk(Retopped(stack, f)) && Marks(Retopped(stack, f)) == Marks(stack)
  {
    var n := |stack| - 1;
    assert Fits(stack[..n], stack[n]);
    MarksPop(stack);
    NestedRetop(stack, f);
  }

  lemma {:induction false} PastStack(stack: Stack, w: WorkbookId, evaluates: bool)
    requires StackOk(stack) && MayCall(stack) && w !in Marks(stack)
    ensures var f := Frame(Waiting(evaluates), w);
            var stack' := if evaluates then Retopped(stack, f) else stack + [f];
            StackOk(stack') && Marks(stack') == Marks(stack)
  {
    var n, f := |stack| - 1, Frame(Waiting(evaluates), w);
    assert Fits(stack[..n], stack[n]);
    MarksIff(stack, w);
    MarksPop(stack);
    assert stack == stack[..n] + [stack[n]];
    assert forall i :: 0 <= i < |stack| && IsCallback(stack[i]) ==> stack[i] in stack;
    if evaluates {
      NestedTake(stack, n);
      NestedPush(stack[..n], f);
      MarksPush(stack[..n], f);
    } else {
      NestedPush(stack, f);
      MarksPush(stack, f);
    }
  }

  lemma {:induction false} StartPush(stack: Stack, w: WorkbookId)
    requires Nested(stack) && (stack == [] || EvaluatesOnTop(stack))
    ensures var stack' := stack + [Frame(InCallback, w)];
            Nested(stack') && Ground(stack') && Marks(stack') == Marks(stack) + [w]
  {
    NestedPush(stack, Frame(InCallback, w));
    MarksPush(stack, Frame(InCallback, w));
    hide Nested, Marks;
  }

  lemma {:induction false} WantsGil(stack: Stack)
    requires Nested(stack) && Ground(stack)
    ensures StackOk(stack + [Attaching]) && Marks(stack + [Attaching]) == Marks(stack)
  {
    NestedPush(stack, Attaching);
    MarksPush(stack, Attaching);
    hide Nested, Marks;
  }

  lemma {:induction false} StartStack(stack: Stack, w: WorkbookId)
    requires StackOk(stack) && (stack == [] || EvaluatesOnTop(stack))
    ensures var stack' := stack + [Frame(InCallback, w), Attaching];
            StackOk(stack') && Marks(stack') == Marks(stack) + [w]
  {
    StartPush(stack, w);
    WantsGil(stack + [Frame(InCallback, w)]);
    hide Nested, Marks;
    assert stack + [Frame(InCallback, w)] + [Attaching] == stack + [Frame(InCallback, w), Attaching];
  }

  lemma {:induction false} PopStack(stack: Stack)
    requires stack != [] && StackOk(stack) && UsesOnTop(stack)
    ensures StackOk(stack[..|stack| - 1]) && Marks(stack[..|stack| - 1]) == Marks(stack)
  {
    var n := |stack| - 1;
    assert Fits(stack[..n], stack[n]);
    NestedTake(stack, n);
    MarksPop(stack);
  }

  lemma {:induction false} ReturnStack(stack: Stack)
    requires |stack| > 1 && StackOk(stack) && MayCall(stack) && IsCallback(stack[|stack| - 2])
    ensures var n := |stack| - 1;
            StackOk(stack[..n - 1]) && Marks(stack[..n - 1]) == Dropped(Marks(stack), stack[n - 1].w)
  {
    var n := |stack| - 1;
    var front := stack[..n];
    assert Fits(stack[..n - 1], stack[n - 1]);
    NestedTake(stack, n - 1);
    MarksPop(stack);
    MarksPop(front);
    assert front[..n - 1] == stack[..n - 1];
    DropsLast(Marks(stack[..n - 1]), stack[n - 1].w);
  }

  /** Only the thread's own stack and vector change. */
  lemma OthersStay(s: State, t: Tid, a: Action)
    requires t < |s.stacks| == |s.markers| && Step(s, t, a).Some?
    ensures var s' := Step(s, t, a).value;
            && |s'.stacks| == |s.stacks| && |s'.markers| == |s.markers|
            && forall u :: 0 <= u < |s.stacks| && u != t ==>
                 s'.stacks[u] == s.stacks[u] && s'.markers[u] == s.markers[u]
  {
    hide CallbacksOver, MayStart, Retopped, Held, Dropped;
  }

  lemma StepKeepsStack(s: State, t: Tid, a: Action)
    requires t < |s.stacks| == |s.markers| && Step(s, t, a).Some?
    requires StackOk(s.stacks[t]) && s.markers[t] == Marks(s.stacks[t])
    ensures var s' := Step(s, t, a).value;
            && t < |s'.stacks| && t < |s'.markers|
            && StackOk(s'.stacks[t]) && s'.markers[t] == Marks(s'.stacks[t])
  {
    var stack := s.stacks[t];
    hide StackOk, Marks, CallbacksOver, Retopped, Held, Awaits, Target, EvaluatesOnTop, UsesOnTop, IsCallback;
    match a
    case Begin => OneFrame();
    case End => NoFrame();
    case YieldGil => SwapStack(stack, Attaching);
    case Call(w, evaluates) =>
      if w !in s.markers[t] {
        PastStack(stack, w, evaluates);
      } else if evaluates {
        SwapStack(stack, Attaching);
      }
    case Acquire => SwapStack(stack, Held(stack[|stack| - 1]));
    case Finish =>
      if UsesOnTop(stack) {
        PopStack(stack);
      } else {
        SwapStack(stack, Attaching);
      }
    case Start(w) => StartStack(stack, w);
    case Return => ReturnStack(stack);
  }

  lemma NoFrame()
    ensures StackOk([]) && Marks([]) == []
  {
  }

  lemma OneFrame()
    ensures StackOk([Attaching]) && Marks([Attaching]) == Marks([])
  {
    NoFrame();
    WantsGil([]);
    assert [] + [Attaching] == [Attaching];
  }

  lemma StepKeepsInv(s: State, t: Tid, a: Action)
    requires Inv(s) && t < |s.stacks| && Step(s, t, a).Some?
    ensures Inv(Step(s, t, a).value) && |Step(s, t, a).value.stacks| == |s.stacks|
  {
    hide Step, Marks, StackOk, LocksOk, CallbacksOk;
    StepKeepsTables(s, t, a);
    StepKeepsStack(s, t, a);
    OthersStay(s, t, a);
    var s' := Step(s, t, a).value;
    forall u | 0 <= u < |s'.stacks| ensures StackOk(s'.stacks[u]) && s'.markers[u] == Marks(s'.stacks[u]) {
      assert StackOk(s.stacks[u]) && s.markers[u] == Marks(s.stacks[u]);
    }
  }

  // ----- Runs -----

  function Run(s: State, steps: seq<(Tid, Action)>): Option<State> {
    if steps == [] then Some(s)
    else
      var (t, a) := steps[|steps| - 1];
      match Run(s, steps[..|steps| - 1])
      case None => None
      case Some(mid) => if t < |mid.stacks| == |mid.markers| then Step(mid, t, a) else None
  }

  predicate Done(s: State) {
    s.locks == map[] && forall t :: 0 <= t < |s.stacks| ==> s.stacks[t] == []
  }

  /** All threads outside, all vectors empty. */
  function Outside(threads: nat): State {
    State(seq(threads, _ => []), seq(threads, _ => []), map[])
  }

  predicate Init(s: State) {
    s == Outside(|s.stacks|)
  }

  lemma {:induction false} RunKeepsInv(s: State, steps: seq<(Tid, Action)>)
    requires Inv(s) && Run(s, steps).Some?
    ensures Inv(Run(s, steps).value) && |Run(s, steps).value.stacks| == |s.stacks|
  {
    hide Inv, Step;
    if steps != [] {
      var (t, a) := steps[|steps| - 1];
      RunKeepsInv(s, steps[..|steps| - 1]);
      StepKeepsInv(Run(s, steps[..|steps| - 1]).value, t, a);
    }
  }

  lemma OutsideInv(s: State)
    ensures Init(s) ==> Inv(s)
  {
  }

  /** What thread `t` does to its vector of active callbacks in a step. */
  function MarkEvents(s: State, step: (Tid, Action), t: Tid): seq<Event>
    requires step.0 < |s.stacks|
  {
    var stack := s.stacks[step.0];
    if step.0 != t then []
    else
      match step.1
      case Start(w) => [Enter(w)]
      case Return =>
        if |stack| > 1 && IsCallback(stack[|stack| - 2]) then [Leave(stack[|stack| - 2].w)] else []
      case _ => []
  }

  function EventsOf(s: State, steps: seq<(Tid, Action)>, t: Tid): seq<Event>
    requires Run(s, steps).Some?
  {
    if steps == [] then []
    else
      var front := steps[..|steps| - 1];
      EventsOf(s, front, t) + MarkEvents(Run(s, front).value, steps[|steps| - 1], t)
  }

  /** The vector that the guard searches is the one that the thread's guards have left by pushing and
      dropping; so a call is rejected exactly when one of the workbook's callbacks runs on the thread. */
  lemma {:induction false} MarkersAreVector(s: State, steps: seq<(Tid, Action)>, t: Tid)
    requires Init(s) && t < |s.stacks| && Run(s, steps).Some?
    ensures var s' := Run(s, steps).value;
            && |s'.stacks| == |s'.markers| == |s.stacks|
            && s'.markers[t] == Vector(EventsOf(s, steps, t)) == Marks(s'.stacks[t])
            && forall w :: w in s'.markers[t] <==> Running(EventsOf(s, steps, t))[w] > 0
  {
    OutsideInv(s);
    RunKeepsInv(s, steps);
    if steps != [] {
      var front := steps[..|steps| - 1];
      var (u, a) := steps[|steps| - 1];
      MarkersAreVector(s, front, t);
      MarksOfStep(Run(s, front).value, u, a, t, EventsOf(s, front, t));
    }
    hide Step, Run, Running, Vector, EventsOf;
    forall w ensures w in Vector(EventsOf(s, steps, t)) <==> Running(EventsOf(s, steps, t))[w] > 0 {
      ActiveIffRunning(EventsOf(s, steps, t), w);
    }
  }

  lemma {:induction false} MarksOfStep(s: State, u: Tid, a: Action, t: Tid, events: seq<Event>)
    requires u < |s.stacks| == |s.markers| && t < |s.stacks| && Step(s, u, a).Some? && s.markers[t] == Vector(events)
    ensures |Step(s, u, a).value.markers| == |s.markers|
    ensures Step(s, u, a).value.markers[t] == Vector(events + MarkEvents(s, (u, a), t))
  {
    var more := MarkEvents(s, (u, a), t);
    if more == [] {
      assert events + more == events;
    } else {
      assert (events + more)[..|events|] == events && (events + more)[|events|] == more[0];
    }
  }
}
