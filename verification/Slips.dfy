/** Three short runs from scratch that slip past the re-entrancy guard into a knot. */
module Slips {
  import opened Options
  import opened Reentrancy
  import opened Nesting
  import opened Knots

  lemma Grow(s: State, steps: seq<(Tid, Action)>, mid: State, t: Tid, a: Action, next: State)
    requires Run(s, steps) == Some(mid) && t < |mid.stacks| == |mid.markers| && Step(mid, t, a) == Some(next)
    ensures Run(s, steps + [(t, a)]) == Some(next)
  {
    hide Step;
    assert (steps + [(t, a)])[..|steps|] == steps;
  }

  /** The state with another stack for `t`, and other locks. */
  function Moved(s: State, t: Tid, stack: Stack, locks: map<Resource, (Tid, nat)>): State
    requires t < |s.stacks|
  {
    With(s, t, stack).(locks := locks)
  }

  function Waits(w: WorkbookId, evaluates: bool): Frame {
    Frame(Waiting(evaluates), w)
  }

  lemma AttachStep(s: State, t: Tid, below: Stack)
    requires t < |s.stacks| == |s.markers| && s.stacks[t] == below + [Attaching] && Gil !in s.locks
    ensures Step(s, t, Acquire) == Some(Moved(s, t, below + [Attached], s.locks[Gil := (t, |below|)]))
  {
    assert s.stacks[t][..|s.stacks[t]| - 1] == below;
  }

  lemma AskStep(s: State, t: Tid, below: Stack, w: WorkbookId, evaluates: bool)
    requires t < |s.stacks| == |s.markers| && s.stacks[t] == below + [Attached] && w !in s.markers[t]
    ensures Step(s, t, Call(w, evaluates))
         == Some(if evaluates then Moved(s, t, below + [Waits(w, true)], s.locks - {Gil})
                 else Moved(s, t, below + [Attached, Waits(w, false)], s.locks))
  {
    assert s.stacks[t][..|s.stacks[t]| - 1] == below;
    assert below + [Attached] + [Waits(w, false)] == below + [Attached, Waits(w, false)];
  }

  type Steps = seq<(Tid, Action)>

  /** A thread that wants the GIL comes to wait for a workbook. */
  function Ask(e: Steps, t: Tid, w: WorkbookId, evaluates: bool): Steps {
    e + [(t, Acquire)] + [(t, Call(w, evaluates))]
  }

  /** A thread outside begins and comes to evaluate a workbook. */
  function Evaluate(e: Steps, t: Tid, w: WorkbookId): Steps {
    Ask(e + [(t, Begin)], t, w, true) + [(t, Acquire)]
  }

  /** The other threads stay as they are, and the thread's vector too. */
  predicate Becomes(s: State, s': State, t: Tid, stack: Stack) {
    && |s'.stacks| == |s.stacks| == |s.markers| == |s'.markers| && t < |s.stacks| && s'.stacks[t] == stack
    && s'.markers == s.markers && forall u :: 0 <= u < |s.stacks| && u != t ==> s'.stacks[u] == s.stacks[u]
  }

  lemma BecomesMoved(s: State, s': State, t: Tid, stack: Stack)
    requires Becomes(s, s', t, stack)
    ensures s' == Moved(s, t, stack, s'.locks)
  {
    assert s'.stacks == s.stacks[t := stack];
  }

  lemma AskFrom(
    start: State, e: Steps, s: State, t: Tid, below: Stack, w: WorkbookId, evaluates: bool, s': State)
    requires Run(start, e) == Some(s) && t < |s.stacks| == |s.markers| && s.stacks[t] == below + [Attaching]
    requires Gil !in s.locks && w !in s.markers[t]
    requires s'.locks == if evaluates then s.locks else s.locks[Gil := (t, |below|)]
    requires Becomes(s, s', t, if evaluates then below + [Waits(w, true)] else below + [Attached, Waits(w, false)])
    ensures Run(start, Ask(e, t, w, evaluates)) == Some(s')
  {
    var s1 := Moved(s, t, below + [Attached], s.locks[Gil := (t, |below|)]);
    AttachStep(s, t, below);
    AskStep(s1, t, below, w, evaluates);
    BecomesMoved(s, s', t, s'.stacks[t]);
    assert s.locks[Gil := (t, |below|)] - {Gil} == s.locks;
    assert s1.stacks[t := s'.stacks[t]] == s'.stacks;
    assert Step(s1, t, Call(w, evaluates)) == Some(s');
    hide Step, Run;
    Grow(start, e, s, t, Acquire, s1);
    Grow(start, e + [(t, Acquire)], s1, t, Call(w, evaluates), s');
  }

  lemma TakeStep(s: State, t: Tid, below: Stack, w: WorkbookId)
    requires t < |s.stacks| == |s.markers| && s.stacks[t] == below + [Waits(w, true)] && Book(w) !in s.locks
    ensures Step(s, t, Acquire)
         == Some(Moved(s, t, below + [Frame(Evaluating, w)], s.locks[Book(w) := (t, |below|)]))
  {
    assert s.stacks[t][..|s.stacks[t]| - 1] == below;
  }

  lemma TakeFrom(start: State, e: Steps, s: State, t: Tid, below: Stack, w: WorkbookId, s': State)
    requires Run(start, e) == Some(s) && t < |s.stacks| == |s.markers| && s.stacks[t] == below + [Waits(w, true)]
    requires Book(w) !in s.locks && s'.locks == s.locks[Book(w) := (t, |below|)]
    requires Becomes(s, s', t, below + [Frame(Evaluating, w)])
    ensures Run(start, e + [(t, Acquire)]) == Some(s')
  {
    TakeStep(s, t, below, w);
    BecomesMoved(s, s', t, below + [Frame(Evaluating, w)]);
    hide Step, Run;
    Grow(start, e, s, t, Acquire, s');
  }

  lemma BeginFrom(start: State, e: Steps, s: State, t: Tid, s': State)
    requires Run(start, e) == Some(s) && t < |s.stacks| && s.stacks[t] == []
    requires s'.locks == s.locks && Becomes(s, s', t, [Attaching])
    ensures Run(start, e + [(t, Begin)]) == Some(s')
  {
    BecomesMoved(s, s', t, [Attaching]);
    assert Step(s, t, Begin) == Some(s');
    hide Step, Run;
    Grow(start, e, s, t, Begin, s');
  }

  lemma BeginAskFrom(start: State, e: Steps, s: State, t: Tid, w: WorkbookId)
    requires Run(start, e) == Some(s) && t < |s.stacks| == |s.markers| && s.stacks[t] == []
    requires Gil !in s.locks && w !in s.markers[t]
    ensures Run(start, Ask(e + [(t, Begin)], t, w, true)) == Some(With(s, t, [Waits(w, true)]))
  {
    assert [] + [Attaching] == [Attaching] && [] + [Waits(w, true)] == [Waits(w, true)];
    hide Step, Run, Ask;
    BeginFrom(start, e, s, t, With(s, t, [Attaching]));
    AskFrom(start, e + [(t, Begin)], With(s, t, [Attaching]), t, [], w, true, With(s, t, [Waits(w, true)]));
  }

  lemma EvaluateFrom(start: State, e: Steps, s: State, t: Tid, w: WorkbookId, s': State)
    requires Run(start, e) == Some(s) && t < |s.stacks| == |s.markers| && s.stacks[t] == []
    requires Gil !in s.locks && Book(w) !in s.locks && w !in s.markers[t]
    requires s'.locks == s.locks[Book(w) := (t, 0)] && Becomes(s, s', t, [Frame(Evaluating, w)])
    ensures Run(start, Evaluate(e, t, w)) == Some(s')
  {
    hide Step, Run, Ask;
    BeginAskFrom(start, e, s, t, w);
    assert [] + [Waits(w, true)] == [Waits(w, true)];
    assert [] + [Frame(Evaluating, w)] == [Frame(Evaluating, w)];
    TakeFrom(start, Ask(e + [(t, Begin)], t, w, true), With(s, t, [Waits(w, true)]), t, [], w, s');
  }

  lemma StartFrom(start: State, e: Steps, s: State, t: Tid, w: WorkbookId, s': State)
    requires Run(start, e) == Some(s) && t < |s.stacks| == |s.markers| && MayStart(s, s.stacks[t], w)
    requires s'.locks == s.locks && |s'.markers| == |s.markers| && s'.markers[t] == s.markers[t] + [w]
    requires forall u :: 0 <= u < |s.markers| && u != t ==> s'.markers[u] == s.markers[u]
    requires Becomes(s.(markers := s'.markers), s', t, s.stacks[t] + [Frame(InCallback, w), Attaching])
    ensures Run(start, e + [(t, Start(w))]) == Some(s')
  {
    BecomesMoved(s.(markers := s'.markers), s', t, s'.stacks[t]);
    assert s'.markers == s.markers[t := s.markers[t] + [w]];
    assert Step(s, t, Start(w)) == Some(s');
    hide Step, Run;
    Grow(start, e, s, t, Start(w), s');
  }

  const EVAL1 := Frame(Evaluating, 1)
  const EVAL2 := Frame(Evaluating, 2)
  const CALL1 := Frame(InCallback, 1)
  const CALL2 := Frame(InCallback, 2)
  const WAIT1 := Frame(Waiting(true), 1)
  const WAIT2 := Frame(Waiting(true), 2)

  /** Thread 0 evaluates workbook 1, whose callback runs on thread 1 and evaluates workbook 2, whose
      callback runs on thread 2 and evaluates workbook 1. */
  function WorkerStart(): Steps {
    Evaluate([], 0, 1) + [(1, Start(1))]
  }

  function WorkerSteps(): Steps {
    Ask(Ask(WorkerStart(), 1, 2, true) + [(1, Acquire)] + [(2, Start(2))], 2, 1, true)
  }

  const STARTED := State([[EVAL1], [CALL1, Attaching], []], [[], [1], []], map[Book(1) := (0, 0)])
  const WORKERS := State(
    [[EVAL1], [CALL1, EVAL2], [CALL2, WAIT1]], [[], [1], [2]], map[Book(1) := (0, 0)][Book(2) := (1, 1)])

  lemma WorkerRunStarts()
    ensures Run(Outside(3), WorkerStart()) == Some(STARTED)
  {
    var s0 := State([[], [], []], [[], [], []], map[]);
    var s1 := State([[EVAL1], [], []], [[], [], []], map[Book(1) := (0, 0)]);
    assert Outside(3) == s0;
    assert Run(s0, []) == Some(s0);
    hide Step, Run, Evaluate;
    EvaluateFrom(s0, [], s0, 0, 1, s1);
    assert s1.markers[1] + [1] == [1];
    StartFrom(s0, Evaluate([], 0, 1), s1, 1, 1, STARTED);
  }

  const WORKER_ASKS :=
    State([[EVAL1], [CALL1, WAIT2], []], [[], [1], []], map[Book(1) := (0, 0)])
  const WORKER_EVALUATES :=
    State([[EVAL1], [CALL1, EVAL2], []], [[], [1], []], map[Book(1) := (0, 0)][Book(2) := (1, 1)])

  lemma WorkerRunGoesOn()
    ensures Run(Outside(3), Ask(WorkerStart(), 1, 2, true) + [(1, Acquire)]) == Some(WORKER_EVALUATES)
  {
    WorkerRunStarts();
    hide Step, Run, Outside, WorkerStart, Ask;
    assert [CALL1] + [Attaching] == [CALL1, Attaching] && [CALL1] + [WAIT2] == [CALL1, WAIT2];
    AskFrom(Outside(3), WorkerStart(), STARTED, 1, [CALL1], 2, true, WORKER_ASKS);
    TakeFrom(Outside(3), Ask(WorkerStart(), 1, 2, true), WORKER_ASKS, 1, [CALL1], 2, WORKER_EVALUATES);
  }

  lemma WorkerRun()
    ensures Run(Outside(3), WorkerSteps()) == Some(WORKERS)
  {
    var s4 := State([[EVAL1], [CALL1, EVAL2], [CALL2, Attaching]], [[], [1], [2]], WORKERS.locks);
    WorkerRunGoesOn();
    hide Step, Run, Outside, WorkerStart, Ask;
    var e := Ask(WorkerStart(), 1, 2, true) + [(1, Acquire)];
    assert WORKER_EVALUATES.markers[2] + [2] == [2];
    StartFrom(Outside(3), e, WORKER_EVALUATES, 2, 2, s4);
    assert [CALL2] + [Attaching] == [CALL2, Attaching] && [CALL2] + [WAIT1] == [CALL2, WAIT1];
    AskFrom(Outside(3), e + [(2, Start(2))], s4, 2, [CALL2], 1, true, WORKERS);
  }

  lemma EdgeOnStack(s: State, t: Tid, stack: Stack, a: Resource, b: Resource, i: nat, j: nat)
    requires t < |s.stacks| && s.stacks[t] == stack && StackEdgeAt(stack, a, b, i, j)
    ensures Edge(s, a, b)
  {
  }

  lemma TwoInAKnot(s: State, a: Resource, b: Resource)
    requires Edge(s, a, b) && Edge(s, b, a)
    ensures Knotted(s)
  {
    hide Edge, WaitsIn;
    AnEdgeWaits(s, {a, b}, a, b);
    AnEdgeWaits(s, {a, b}, b, a);
    assert Knot(s, {a, b});
  }

  lemma KnottedForGood(start: State, steps: Steps)
    requires Init(start) && Run(start, steps).Some? && Knotted(Run(start, steps).value)
    ensures forall more :: Run(Run(start, steps).value, more).Some? ==> !Done(Run(Run(start, steps).value, more).value)
  {
    hide Run, Done;
    OutsideInv(start);
    RunKeepsInv(start, steps);
    var s := Run(start, steps).value;
    InvShape(s);
    var c :| Knot(s, c);
    forall more | Run(s, more).Some? ensures !Done(Run(s, more).value) {
      KnotPersistsForever(s, more, c);
    }
  }

  lemma WorkersKnotted()
    ensures Knotted(WORKERS)
  {
    var one, two := WORKERS.stacks[1], WORKERS.stacks[2];
    assert StackEdgeAt(one, Book(1), Book(2), 0, 1) && StackEdgeAt(two, Book(2), Book(1), 0, 1);
    hide Edge, Knotted, StackEdgeAt;
    EdgeOnStack(WORKERS, 1, one, Book(1), Book(2), 0, 1);
    EdgeOnStack(WORKERS, 2, two, Book(2), Book(1), 0, 1);
    TwoInAKnot(WORKERS, Book(1), Book(2));
  }

  lemma OutsideIsInit(threads: nat)
    ensures Init(Outside(threads))
  {
  }

  /** A nested evaluation whose callback the engine hands to another worker slips past the guard, and none
      of the calls ever comes through. */
  lemma SecondWorkerSlipsPast()
    ensures Init(Outside(3)) && Run(Outside(3), WorkerSteps()).Some?
    ensures var s := Run(Outside(3), WorkerSteps()).value;
            Knotted(s) && forall more :: Run(s, more).Some? ==> !Done(Run(s, more).value)
  {
    WorkerRun();
    WorkersKnotted();
    OutsideIsInit(3);
    hide Run, WORKERS, Knotted, WorkerSteps, Done, Outside, Init;
    KnottedForGood(Outside(3), WorkerSteps());
  }

  /** Two threads evaluate a workbook each. */
  function BothEvaluate(): Steps {
    Evaluate(Evaluate([], 0, 1), 1, 2)
  }

  /** They run their own callbacks, each in the other's workbook. */
  function CrossSteps(): Steps {
    Ask(Ask(BothEvaluate() + [(0, Start(1))], 0, 2, true) + [(1, Start(2))], 1, 1, true)
  }

  const BOTH := State([[EVAL1], [EVAL2]], [[], []], map[Book(1) := (0, 0)][Book(2) := (1, 0)])
  const CROSSED := State(
    [[EVAL1, CALL1, WAIT2], [EVAL2, CALL2, WAIT1]], [[1], [2]], map[Book(1) := (0, 0)][Book(2) := (1, 0)])

  lemma BothRun()
    ensures Run(Outside(2), BothEvaluate()) == Some(BOTH)
  {
    var s0 := State([[], []], [[], []], map[]);
    var s1 := State([[EVAL1], []], [[], []], map[Book(1) := (0, 0)]);
    assert Outside(2) == s0;
    assert Run(s0, []) == Some(s0);
    hide Step, Run, Evaluate;
    EvaluateFrom(s0, [], s0, 0, 1, s1);
    EvaluateFrom(s0, Evaluate([], 0, 1), s1, 1, 2, BOTH);
  }

  const HALF_CROSSED := State([[EVAL1, CALL1, WAIT2], [EVAL2]], [[1], []], BOTH.locks)

  lemma CrossRunHalf()
    ensures Run(Outside(2), Ask(BothEvaluate() + [(0, Start(1))], 0, 2, true)) == Some(HALF_CROSSED)
  {
    var s3 := State([[EVAL1, CALL1, Attaching], [EVAL2]], [[1], []], BOTH.locks);
    BothRun();
    hide Step, Run, Outside, BothEvaluate, Ask;
    assert BOTH.markers[0] + [1] == [1];
    StartFrom(Outside(2), BothEvaluate(), BOTH, 0, 1, s3);
    assert [EVAL1, CALL1] + [Attaching] == [EVAL1, CALL1, Attaching];
    assert [EVAL1, CALL1] + [WAIT2] == [EVAL1, CALL1, WAIT2];
    AskFrom(Outside(2), BothEvaluate() + [(0, Start(1))], s3, 0, [EVAL1, CALL1], 2, true, HALF_CROSSED);
  }

  lemma CrossRun()
    ensures Run(Outside(2), CrossSteps()) == Some(CROSSED)
  {
    var s5 := State([[EVAL1, CALL1, WAIT2], [EVAL2, CALL2, Attaching]], [[1], [2]], BOTH.locks);
    CrossRunHalf();
    hide Step, Run, Outside, BothEvaluate, Ask;
    var e := Ask(BothEvaluate() + [(0, Start(1))], 0, 2, true);
    assert HALF_CROSSED.markers[1] + [2] == [2];
    StartFrom(Outside(2), e, HALF_CROSSED, 1, 2, s5);
    assert [EVAL2, CALL2] + [Attaching] == [EVAL2, CALL2, Attaching];
    assert [EVAL2, CALL2] + [WAIT1] == [EVAL2, CALL2, WAIT1];
    AskFrom(Outside(2), e + [(1, Start(2))], s5, 1, [EVAL2, CALL2], 1, true, CROSSED);
  }

  lemma CrossedKnotted()
    ensures Knotted(CROSSED)
  {
    var one, two := CROSSED.stacks[0], CROSSED.stacks[1];
    assert StackEdgeAt(one, Book(1), Book(2), 0, 2) && StackEdgeAt(two, Book(2), Book(1), 0, 2);
    hide Edge, Knotted, StackEdgeAt;
    EdgeOnStack(CROSSED, 0, one, Book(1), Book(2), 0, 2);
    EdgeOnStack(CROSSED, 1, two, Book(2), Book(1), 0, 2);
    TwoInAKnot(CROSSED, Book(1), Book(2));
  }

  /** Crossed calls of two threads slip past as well, although each thread runs its own callbacks. */
  lemma CrossedCallsSlipPast()
    ensures Init(Outside(2)) && Run(Outside(2), CrossSteps()).Some?
    ensures var s := Run(Outside(2), CrossSteps()).value;
            Knotted(s) && forall more :: Run(s, more).Some? ==> !Done(Run(s, more).value)
  {
    CrossRun();
    CrossedKnotted();
    OutsideIsInit(2);
    hide Run, CROSSED, Knotted, CrossSteps, Done, Outside, Init;
    KnottedForGood(Outside(2), CrossSteps());
  }

  /** Thread 0 evaluates a workbook and wants the GIL for a callback; thread 1 has the GIL and makes an ordinary
      call to the same workbook. */
  function OrdinarySteps(): Steps {
    Ask(Evaluate([], 0, 1) + [(0, Start(1))] + [(1, Begin)], 1, 1, false)
  }

  const ORDINARY := State(
    [[EVAL1, CALL1, Attaching], [Attached, Frame(Waiting(false), 1)]], [[1], []],
    map[Book(1) := (0, 0)][Gil := (1, 0)])

  lemma OrdinaryRun()
    ensures Run(Outside(2), OrdinarySteps()) == Some(ORDINARY)
  {
    var s0 := State([[], []], [[], []], map[]);
    var s1 := State([[EVAL1], []], [[], []], map[Book(1) := (0, 0)]);
    var s2 := State([[EVAL1, CALL1, Attaching], []], [[1], []], map[Book(1) := (0, 0)]);
    var s3 := State([[EVAL1, CALL1, Attaching], [Attaching]], [[1], []], map[Book(1) := (0, 0)]);
    assert Outside(2) == s0;
    assert Run(s0, []) == Some(s0);
    hide Step, Run, Evaluate, Ask;
    var e := Evaluate([], 0, 1);
    EvaluateFrom(s0, [], s0, 0, 1, s1);
    assert s1.markers[0] + [1] == [1];
    StartFrom(s0, e, s1, 0, 1, s2);
    BeginFrom(s0, e + [(0, Start(1))], s2, 1, s3);
    assert [] + [Attaching] == [Attaching];
    assert [] + [Attached, Waits(1, false)] == [Attached, Waits(1, false)];
    AskFrom(s0, e + [(0, Start(1))] + [(1, Begin)], s3, 1, [], 1, false, ORDINARY);
  }

  lemma OrdinaryKnotted()
    ensures Knotted(ORDINARY)
  {
    var one, two := ORDINARY.stacks[0], ORDINARY.stacks[1];
    assert StackEdgeAt(one, Book(1), Gil, 0, 2) && StackEdgeAt(two, Gil, Book(1), 0, 1);
    hide Edge, Knotted, StackEdgeAt;
    EdgeOnStack(ORDINARY, 0, one, Book(1), Gil, 0, 2);
    EdgeOnStack(ORDINARY, 1, two, Gil, Book(1), 0, 1);
    TwoInAKnot(ORDINARY, Book(1), Gil);
  }

  /** One workbook is enough: an ordinary call of another thread knots the workbook with the GIL. */
  lemma OrdinaryCallSlipsPast()
    ensures Init(Outside(2)) && Run(Outside(2), OrdinarySteps()).Some?
    ensures var s := Run(Outside(2), OrdinarySteps()).value;
            Knotted(s) && forall more :: Run(s, more).Some? ==> !Done(Run(s, more).value)
  {
    OrdinaryRun();
    OrdinaryKnotted();
    OutsideIsInit(2);
    hide Run, ORDINARY, Knotted, OrdinarySteps, Done, Outside, Init;
    KnottedForGood(Outside(2), OrdinarySteps());
  }
}
