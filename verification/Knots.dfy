/** Deadlocks among nested calls: the knots in which locks, the interpreter lock among them, wait for each
    other's release, that they stay for good and are all that can keep the calls from coming through, and
    which of them the re-entrancy guard prevents. */
module Knots {
  import opened Options
  import opened Reentrancy
  import opened Nesting

  /** Above, or at, a frame that keeps `a` from being released stands one that wants or holds `b`, or a
      callback, which needs the GIL to come to its end. */
  predicate StackEdgeAt(stack: Stack, a: Resource, b: Resource, i: int, j: int) {
    && 0 <= i <= j < |stack| && Lower(stack[i]) && Target(stack[i]) == a
    && if IsCallback(stack[j]) then b == Gil else i < j && Target(stack[j]) == b
  }

  ghost predicate StackEdge(stack: Stack, a: Resource, b: Resource) {
    exists i, j :: StackEdgeAt(stack, a, b, i, j)
  }

  /** Releasing `a` waits for `b`. */
  ghost predicate Edge(s: State, a: Resource, b: Resource) {
    exists t :: 0 <= t < |s.stacks| && StackEdge(s.stacks[t], a, b)
  }

  ghost predicate WaitsIn(s: State, c: set<Resource>, a: Resource) {
    exists b :: b in c && Edge(s, a, b)
  }

  /** Every lock of the knot waits for one of the knot. */
  ghost predicate Knot(s: State, c: set<Resource>) {
    c != {} && forall a :: a in c ==> WaitsIn(s, c, a)
  }

  lemma NextInKnot(s: State, c: set<Resource>, a: Resource) returns (b: Resource)
    requires Knot(s, c) && a in c
    ensures b in c && Edge(s, a, b)
  {
    hide Edge;
    assert WaitsIn(s, c, a);
    b :| b in c && Edge(s, a, b);
  }

  ghost predicate Knotted(s: State) {
    exists c :: Knot(s, c)
  }

  lemma EdgePush(stack: Stack, f: Frame, a: Resource, b: Resource)
    requires StackEdge(stack, a, b)
    ensures StackEdge(stack + [f], a, b)
  {
    var i, j :| StackEdgeAt(stack, a, b, i, j);
    assert StackEdgeAt(stack + [f], a, b, i, j);
  }

  lemma EdgePop(stack: Stack, a: Resource, b: Resource)
    requires StackEdge(stack, a, b)
    ensures stack != []
    ensures var top := stack[|stack| - 1];
            StackEdge(stack[..|stack| - 1], a, b) || b == if IsCallback(top) then Gil else Target(top)
  {
    var i, j :| StackEdgeAt(stack, a, b, i, j);
    if j < |stack| - 1 {
      assert StackEdgeAt(stack[..|stack| - 1], a, b, i, j);
    }
  }

  lemma EdgeSwap(stack: Stack, f: Frame, a: Resource, b: Resource)
    requires StackEdge(stack, a, b)
    requires stack != [] ==> Upper(f) && Upper(stack[|stack| - 1]) && Target(f) == Target(stack[|stack| - 1])
    ensures stack != [] && StackEdge(Retopped(stack, f), a, b)
  {
    var i, j :| StackEdgeAt(stack, a, b, i, j);
    assert StackEdgeAt(Retopped(stack, f), a, b, i, j);
  }

  ghost predicate Shape(s: State) {
    TablesOk(s) && |s.markers| == |s.stacks|
  }

  lemma InvShape(s: State)
    requires Inv(s)
    ensures Shape(s)
  {
    hide StackOk, LocksOk, CallbacksOk;
  }

  lemma StepKeepsShape(s: State, t: Tid, a: Action)
    requires Shape(s) && t < |s.stacks| && Step(s, t, a).Some?
    ensures Shape(Step(s, t, a).value) && |Step(s, t, a).value.stacks| == |s.stacks|
  {
    StepKeepsTables(s, t, a);
    hide TablesOk, CallbacksOver;
  }

  lemma {:induction false} RunKeepsShape(s: State, steps: seq<(Tid, Action)>)
    requires Shape(s) && Run(s, steps).Some?
    ensures Shape(Run(s, steps).value)
  {
    hide Shape, Step;
    if steps != [] {
      var (t, a) := steps[|steps| - 1];
      RunKeepsShape(s, steps[..|steps| - 1]);
      StepKeepsShape(Run(s, steps[..|steps| - 1]).value, t, a);
    }
  }

  lemma OneHolder(s: State, t: int, i: int, t2: int, i2: int)
    requires LocksOk(s) && At(s, t, i) && At(s, t2, i2) && Holder(s.stacks[t][i]) && Holder(s.stacks[t2][i2])
    requires Target(s.stacks[t][i]) == Target(s.stacks[t2][i2])
    ensures t == t2 && i == i2
  {
    assert s.locks[Target(s.stacks[t][i])] == (t, i);
    assert s.locks[Target(s.stacks[t2][i2])] == (t2, i2);
  }

  /** A frame on top of its stack that holds a lock of the knot is an evaluation with callbacks out. */
  lemma HeldInKnot(s: State, b: Resource, d: Resource, t: Tid)
    requires Shape(s) && Edge(s, b, d) && t < |s.stacks| && s.stacks[t] != []
    requires Holder(s.stacks[t][|s.stacks[t]| - 1]) && Target(s.stacks[t][|s.stacks[t]| - 1]) == b
    ensures EvaluatesOnTop(s.stacks[t]) && !CallbacksOver(s, s.stacks[t][|s.stacks[t]| - 1].w)
  {
    var n := |s.stacks[t]| - 1;
    assert At(s, t, n) && s.locks[b] == (t, n);
    var t2 :| 0 <= t2 < |s.stacks| && StackEdge(s.stacks[t2], b, d);
    var i2, j2 :| StackEdgeAt(s.stacks[t2], b, d, i2, j2);
    assert At(s, t2, i2);
    var f := s.stacks[t2][i2];
    if IsCallback(f) {
      assert f in s.stacks[t2];
      CallbackIsLocked(s, t2, f);
      assert f == Frame(InCallback, f.w);
    } else {
      OneHolder(s, t, n, t2, i2);
      assert false;
    }
  }

  lemma EdgeKept(s: State, u: Tid, act: Action, a: Resource, b: Resource, d: Resource)
    requires Shape(s) && u < |s.stacks| && Step(s, u, act).Some? && Edge(s, a, b) && Edge(s, b, d)
    ensures Edge(Step(s, u, act).value, a, b)
  {
    OthersStay(s, u, act);
    var s' := Step(s, u, act).value;
    var t :| 0 <= t < |s.stacks| && StackEdge(s.stacks[t], a, b);
    hide StackEdge, TablesOk, Step;
    assert StackEdge(s'.stacks[t], a, b) by {
      if t == u {
        StackEdgeKept(s, u, act, a, b, d);
      }
    }
  }

  lemma EdgeRetop(stack: Stack, f: Frame, a: Resource, b: Resource)
    requires stack != [] && StackEdge(stack[..|stack| - 1], a, b)
    ensures StackEdge(Retopped(stack, f), a, b)
  {
    EdgePush(stack[..|stack| - 1], f, a, b);
  }

  lemma EdgeStart(stack: Stack, w: WorkbookId, a: Resource, b: Resource)
    requires StackEdge(stack, a, b)
    ensures StackEdge(stack + [Frame(InCallback, w), Attaching], a, b)
  {
    hide StackEdge;
    EdgePush(stack, Frame(InCallback, w), a, b);
    EdgePush(stack + [Frame(InCallback, w)], Attaching, a, b);
    assert stack + [Frame(InCallback, w)] + [Attaching] == stack + [Frame(InCallback, w), Attaching];
  }

  lemma EdgeReturn(stack: Stack, a: Resource, b: Resource)
    requires StackEdge(stack, a, b) && b != Gil
    requires |stack| > 1 && MayCall(stack) && IsCallback(stack[|stack| - 2])
    ensures StackEdge(stack[..|stack| - 2], a, b)
  {
    hide StackEdge;
    var front := stack[..|stack| - 1];
    EdgePop(stack, a, b);
    EdgePop(front, a, b);
    assert front[..|front| - 1] == stack[..|stack| - 2];
  }

  lemma StackEdgeKept(s: State, u: Tid, act: Action, a: Resource, b: Resource, d: Resource)
    requires Shape(s) && u < |s.stacks| && Step(s, u, act).Some? && StackEdge(s.stacks[u], a, b) && Edge(s, b, d)
    ensures StackEdge(Step(s, u, act).value.stacks[u], a, b)
  {
    var stack := s.stacks[u];
    hide StackEdge, TablesOk, Edge, CallbacksOver, Retopped, MayStart;
    EdgePop(stack, a, b);
    var top := stack[|stack| - 1];
    if Holder(top) && Target(top) == b {
      HeldInKnot(s, b, d, u);
    }
    match act
    case Begin =>
    case End => EdgePop([], a, b);
    case YieldGil => EdgeRetop(stack, Attaching, a, b);
    case Call(w, evaluates) =>
      if w in s.markers[u] {
        if evaluates {
          EdgeRetop(stack, Attaching, a, b);
        }
      } else if evaluates {
        EdgeRetop(stack, Frame(Waiting(true), w), a, b);
      } else {
        EdgePush(stack, Frame(Waiting(false), w), a, b);
      }
    case Acquire => EdgeSwap(stack, Held(top), a, b);
    case Finish =>
      if EvaluatesOnTop(stack) {
        EdgeRetop(stack, Attaching, a, b);
      }
    case Start(w) => EdgeStart(stack, w, a, b);
    case Return => EdgeReturn(stack, a, b);
  }

  /** A knot stays, whatever anyone does. */
  lemma KnotPersists(s: State, u: Tid, act: Action, c: set<Resource>)
    requires Shape(s) && u < |s.stacks| && Step(s, u, act).Some? && Knot(s, c)
    ensures Knot(Step(s, u, act).value, c)
  {
    hide Edge, TablesOk, Step, WaitsIn;
    forall a | a in c ensures WaitsIn(Step(s, u, act).value, c, a) {
      var b := NextInKnot(s, c, a);
      var d := NextInKnot(s, c, b);
      EdgeKept(s, u, act, a, b, d);
      AnEdgeWaits(Step(s, u, act).value, c, a, b);
    }
  }

  lemma AnEdgeWaits(s: State, c: set<Resource>, a: Resource, b: Resource)
    requires b in c && Edge(s, a, b)
    ensures WaitsIn(s, c, a)
  {
    hide Edge;
  }

  lemma {:induction false} KnotPersistsForever(s: State, steps: seq<(Tid, Action)>, c: set<Resource>)
    requires Shape(s) && Run(s, steps).Some? && Knot(s, c)
    ensures Knot(Run(s, steps).value, c) && !Done(Run(s, steps).value)
  {
    hide TablesOk, Step, Knot;
    if steps != [] {
      var (t, a) := steps[|steps| - 1];
      var mid := Run(s, steps[..|steps| - 1]).value;
      KnotPersistsForever(s, steps[..|steps| - 1], c);
      RunKeepsShape(s, steps[..|steps| - 1]);
      KnotPersists(mid, t, a, c);
    }
    KnotIsBusy(Run(s, steps).value, c);
  }

  lemma KnotIsBusy(s: State, c: set<Resource>)
    requires Knot(s, c)
    ensures !Done(s)
  {
    hide StackEdge, WaitsIn;
    var a :| a in c;
    var b := NextInKnot(s, c, a);
    var t :| 0 <= t < |s.stacks| && StackEdge(s.stacks[t], a, b);
    EdgePop(s.stacks[t], a, b);
  }

  // ----- Without a knot everyone gets through -----

  /** Steps that bring a thread nearer to the end of its calls. */
  predicate Settles(a: Action) {
    a.Acquire? || a.Finish? || a.Return? || a.End?
  }

  predicate CanSettle(s: State, t: Tid)
    requires t < |s.stacks| == |s.markers|
  {
    Step(s, t, Acquire).Some? || Step(s, t, Finish).Some? || Step(s, t, Return).Some? || Step(s, t, End).Some?
  }

  function TopOf(s: State, t: Tid): Resource
    requires t < |s.stacks| && s.stacks[t] != []
  {
    Target(s.stacks[t][|s.stacks[t]| - 1])
  }

  function Tops(s: State): set<Resource> {
    set t | 0 <= t < |s.stacks| && s.stacks[t] != [] :: TopOf(s, t)
  }

  lemma EdgeOfTop(s: State, t: Tid, i: nat, a: Resource)
    requires t < |s.stacks| && i < |s.stacks[t]| - 1 && Lower(s.stacks[t][i]) && Target(s.stacks[t][i]) == a
    requires Upper(s.stacks[t][|s.stacks[t]| - 1])
    ensures Edge(s, a, TopOf(s, t))
  {
    assert StackEdgeAt(s.stacks[t], a, TopOf(s, t), i, |s.stacks[t]| - 1);
  }

  /** Only the top of a stack can be a frame that nothing may stand on. */
  lemma LowerBelow(stack: Stack, i: nat)
    requires Nested(stack) && i < |stack| - 1
    ensures Lower(stack[i])
  {
    assert Fits(stack[..i + 1], stack[i + 1]);
    assert stack[..i + 1][i] == stack[i];
  }

  /** Python code on top of its stack can end its callback or the thread's work. */
  lemma PythonSettles(s: State, t: Tid)
    requires t < |s.stacks| == |s.markers| && StackOk(s.stacks[t]) && MayCall(s.stacks[t])
    ensures CanSettle(s, t)
  {
    var stack := s.stacks[t];
    var n := |stack| - 1;
    assert Fits(stack[..n], stack[n]);
    if n == 0 {
      assert stack == [Attached];
    }
  }

  /** The lock at the top of a stack waits for another top, unless that thread or the lock's holder can settle. */
  lemma TopWaits(s: State, t: Tid) returns (x: Tid)
    requires Inv(s) && t < |s.stacks| && s.stacks[t] != [] && !CanSettle(s, t)
    requires forall h :: 0 <= h < |s.stacks| && s.stacks[h] != [] && TopOf(s, h) == TopOf(s, t) ==> !CanSettle(s, h)
    ensures x < |s.stacks| && s.stacks[x] != [] && Edge(s, TopOf(s, t), TopOf(s, x))
  {
    hide Edge, Marks, StackOk, Nested;
    var a := TopOf(s, t);
    TopIsUpper(s, t);
    TopIsLocked(s, t);
    var (h, i) := s.locks[a];
    assert At(s, h, i) && Holder(s.stacks[h][i]) && Target(s.stacks[h][i]) == a;
    TopIsUpper(s, h);
    if i < |s.stacks[h]| - 1 {
      LowerBelow(s.stacks[h], i) by {
        NestedOf(s, h);
      }
      EdgeOfTop(s, h, i, a);
      x := h;
    } else {
      var k;
      x, k := CallbackOut(s, h, a);
      TopIsUpper(s, x);
      EdgeOfTop(s, x, k, a);
    }
  }

  lemma TopIsLocked(s: State, t: Tid)
    requires LocksOk(s) && t < |s.stacks| == |s.markers| && s.stacks[t] != [] && !CanSettle(s, t)
    requires Upper(s.stacks[t][|s.stacks[t]| - 1])
    ensures TopOf(s, t) in s.locks
  {
    assert At(s, t, |s.stacks[t]| - 1);
  }

  lemma NestedOf(s: State, t: Tid)
    requires StacksOk(s) && t < |s.stacks|
    ensures StackOk(s.stacks[t]) && Nested(s.stacks[t])
  {
  }

  lemma TopIsUpper(s: State, t: Tid)
    requires StacksOk(s) && t < |s.stacks| && s.stacks[t] != []
    ensures Upper(s.stacks[t][|s.stacks[t]| - 1])
  {
    assert StackOk(s.stacks[t]);
  }

  /** A lock held on top of a stack that cannot settle is an evaluation's, which has a callback out. */
  lemma CallbackOut(s: State, h: Tid, a: Resource) returns (x: Tid, k: nat)
    requires StacksOk(s) && h < |s.stacks| == |s.markers| && s.stacks[h] != [] && TopOf(s, h) == a
    requires Holder(s.stacks[h][|s.stacks[h]| - 1]) && !CanSettle(s, h)
    ensures x < |s.stacks| && k < |s.stacks[x]| - 1 && Target(s.stacks[x][k]) == a && Lower(s.stacks[x][k])
  {
    assert StackOk(s.stacks[h]);
    if MayCall(s.stacks[h]) {
      PythonSettles(s, h);
    }
    hide StackOk;
    var w := s.stacks[h][|s.stacks[h]| - 1].w;
    assert !CallbacksOver(s, w);
    x :| 0 <= x < |s.stacks| && Frame(InCallback, w) in s.stacks[x];
    k :| 0 <= k < |s.stacks[x]| && s.stacks[x][k] == Frame(InCallback, w);
    TopIsUpper(s, x);
  }

  /** When nobody can settle, the tops of the stacks are a knot. */
  lemma BlockedIsKnot(s: State, t: Tid)
    requires Inv(s) && t < |s.stacks| && s.stacks[t] != []
    requires forall u :: 0 <= u < |s.stacks| ==> !CanSettle(s, u)
    ensures Knot(s, Tops(s))
  {
    hide Inv, WaitsIn, CanSettle, Edge;
    assert TopOf(s, t) in Tops(s);
    forall a | a in Tops(s) ensures WaitsIn(s, Tops(s), a) {
      var u :| 0 <= u < |s.stacks| && s.stacks[u] != [] && TopOf(s, u) == a;
      var x := TopWaits(s, u);
      assert TopOf(s, x) in Tops(s);
      AnEdgeWaits(s, Tops(s), a, TopOf(s, x));
    }
  }

  /** Settling steps add no edge: an evaluation that ends inside a callback wants the GIL, which the callback
      needed already. */
  lemma SettlingAddsNoEdge(s: State, t: Tid, act: Action, a: Resource, b: Resource)
    requires t < |s.stacks| == |s.markers| && Settles(act) && Step(s, t, act).Some? && StackOk(s.stacks[t])
    requires Edge(Step(s, t, act).value, a, b)
    ensures Edge(s, a, b)
  {
    var s' := Step(s, t, act).value;
    var u :| 0 <= u < |s'.stacks| && StackEdge(s'.stacks[u], a, b);
    hide StackEdge, CallbacksOver, StackOk;
    if u == t {
      SettlingOnStack(s, t, act, a, b);
    }
    assert StackEdge(s.stacks[u], a, b);
  }

  lemma SettlingOnStack(s: State, t: Tid, act: Action, a: Resource, b: Resource)
    requires t < |s.stacks| == |s.markers| && Settles(act) && Step(s, t, act).Some? && StackOk(s.stacks[t])
    requires StackEdge(Step(s, t, act).value.stacks[t], a, b)
    ensures StackEdge(s.stacks[t], a, b)
  {
    hide StackEdge, CallbacksOver, StackOk;
    var s', stack := Step(s, t, act).value, s.stacks[t];
    var n := |stack| - 1;
    if act.Acquire? {
      EdgeSwap(s'.stacks[t], stack[n], a, b);
      assert Retopped(s'.stacks[t], stack[n]) == stack;
    } else if act.Finish? && EvaluatesOnTop(stack) {
      EndedEvaluation(stack, a, b);
    } else if act.Return? {
      EdgePush(stack[..n - 1], stack[n - 1], a, b);
      assert stack[..n - 1] + [stack[n - 1]] == stack[..n];
      EdgePush(stack[..n], stack[n], a, b);
      assert stack[..n] + [stack[n]] == stack;
    } else {
      EdgePush(stack[..n], stack[n], a, b);
      assert stack[..n] + [stack[n]] == stack;
    }
  }

  lemma EndedEvaluation(stack: Stack, a: Resource, b: Resource)
    requires StackOk(stack) && EvaluatesOnTop(stack) && StackEdge(Retopped(stack, Attaching), a, b)
    ensures StackEdge(stack, a, b)
  {
    var n := |stack| - 1;
    var i, j :| StackEdgeAt(Retopped(stack, Attaching), a, b, i, j);
    if j < n {
      assert StackEdgeAt(stack, a, b, i, j);
    } else {
      assert Fits(stack[..n], stack[n]);
      hide Nested;
      assert IsCallback(stack[n - 1]) && b == Gil && i <= n - 1;
      assert StackEdgeAt(stack, a, b, i, n - 1);
    }
  }

  lemma KnotWasThere(s: State, t: Tid, act: Action, c: set<Resource>)
    requires t < |s.stacks| == |s.markers| && Settles(act) && Step(s, t, act).Some? && StackOk(s.stacks[t])
    requires Knot(Step(s, t, act).value, c)
    ensures Knot(s, c)
  {
    hide Edge, Step, WaitsIn, StackOk;
    var s' := Step(s, t, act).value;
    forall a | a in c ensures WaitsIn(s, c, a) {
      var b := NextInKnot(s', c, a);
      SettlingAddsNoEdge(s, t, act, a, b);
      AnEdgeWaits(s, c, a, b);
    }
  }

  lemma SettlingTiesNoKnot(s: State, t: Tid, act: Action)
    requires t < |s.stacks| == |s.markers| && Settles(act) && Step(s, t, act).Some? && StackOk(s.stacks[t])
    ensures Knotted(Step(s, t, act).value) ==> Knotted(s)
  {
    hide Knot, Step, StackOk;
    if c :| Knot(Step(s, t, act).value, c) {
      KnotWasThere(s, t, act, c);
    }
  }

  /** How far the top frame is from its end. */
  function Rank(f: Frame): nat {
    if f.Attached? then 0
    else if f.Attaching? then 1
    else if f.kind.Evaluating? then 2
    else if f.kind.Waiting? then 3
    else 0
  }

  function Weight(stack: Stack): nat {
    4 * |stack| + if stack != [] then Rank(stack[|stack| - 1]) else 0
  }

  function Work(stacks: seq<Stack>): nat {
    if stacks == [] then 0 else Weight(stacks[0]) + Work(stacks[1..])
  }

  lemma {:induction false} WorkUpdate(stacks: seq<Stack>, t: nat, stack: Stack)
    requires t < |stacks|
    ensures Work(stacks[t := stack]) == Work(stacks) - Weight(stacks[t]) + Weight(stack)
  {
    hide Weight;
    if t > 0 {
      assert stacks[t := stack][1..] == stacks[1..][t - 1 := stack];
      WorkUpdate(stacks[1..], t - 1, stack);
    } else {
      assert stacks[0 := stack][1..] == stacks[1..];
    }
  }

  lemma SettlingIsProgress(s: State, t: Tid, act: Action)
    requires t < |s.stacks| == |s.markers| && Settles(act) && Step(s, t, act).Some?
    ensures Work(Step(s, t, act).value.stacks) < Work(s.stacks)
  {
    hide Work, CallbacksOver;
    var s' := Step(s, t, act).value;
    WorkUpdate(s.stacks, t, s'.stacks[t]);
    assert s'.stacks == s.stacks[t := s'.stacks[t]];
  }

  lemma {:induction false} RunPrepend(s: State, t: Tid, a: Action, rest: seq<(Tid, Action)>)
    requires t < |s.stacks| == |s.markers| && Step(s, t, a).Some?
    ensures Run(s, [(t, a)] + rest) == Run(Step(s, t, a).value, rest)
  {
    hide Step;
    if rest == [] {
      assert [(t, a)] + rest == [(t, a)];
      assert Run(s, [(t, a)][..0]) == Some(s);
    } else {
      assert ([(t, a)] + rest)[..|rest|] == [(t, a)] + rest[..|rest| - 1];
      RunPrepend(s, t, a, rest[..|rest| - 1]);
    }
  }

  lemma SettlingAction(s: State, t: Tid) returns (a: Action)
    requires t < |s.stacks| == |s.markers| && CanSettle(s, t)
    ensures Settles(a) && Step(s, t, a).Some?
  {
    a := if Step(s, t, Acquire).Some? then Acquire else if Step(s, t, Finish).Some? then Finish
         else if Step(s, t, Return).Some? then Return else End;
  }

  lemma AllOut(s: State)
    requires Inv(s) && forall t :: 0 <= t < |s.stacks| ==> s.stacks[t] == []
    ensures Done(s)
  {
    assert s.locks.Keys == {};
  }

  lemma {:induction false} NoKnotCanFinish(s: State) returns (steps: seq<(Tid, Action)>)
    requires Inv(s) && !Knotted(s)
    ensures Run(s, steps).Some? && Done(Run(s, steps).value)
    decreases Work(s.stacks)
  {
    if forall t :: 0 <= t < |s.stacks| ==> s.stacks[t] == [] {
      AllOut(s);
      steps := [];
    } else {
      var t: Tid :| t < |s.stacks| && s.stacks[t] != [];
      if forall u :: 0 <= u < |s.stacks| ==> !CanSettle(s, u) {
        BlockedIsKnot(s, t);
        assert false;
      }
      var u: Tid :| u < |s.stacks| && CanSettle(s, u);
      var a := SettlingAction(s, u);
      assert StackOk(s.stacks[u]);
      StepKeepsInv(s, u, a);
      SettlingTiesNoKnot(s, u, a);
      SettlingIsProgress(s, u, a);
      hide Inv, Step, Knotted, Done, Work;
      steps := NoKnotCanFinish(Step(s, u, a).value);
      RunPrepend(s, u, a, steps);
      steps := [(u, a)] + steps;
    }
  }

  /** Everyone can still get through exactly when there is no knot. */
  lemma CanFinishIff(s: State)
    requires Inv(s)
    ensures (exists steps :: Run(s, steps).Some? && Done(Run(s, steps).value)) <==> !Knotted(s)
  {
    hide Run, Done, Inv;
    if Knotted(s) {
      var c :| Knot(s, c);
      InvShape(s);
      forall steps | Run(s, steps).Some? ensures !Done(Run(s, steps).value) {
        KnotPersistsForever(s, steps, c);
      }
    } else {
      var steps := NoKnotCanFinish(s);
    }
  }

  // ----- One thread among others -----

  ghost predicate InKnot(s: State, a: Resource) {
    exists c :: Knot(s, c) && a in c
  }

  /** The thread stands on, or wants, a lock of a knot; and whoever is under way needs the GIL in the end. */
  ghost predicate Caught(s: State, t: Tid)
    requires t < |s.stacks|
  {
    s.stacks[t] != [] && (InKnot(s, Gil) || CaughtFor(s, t))
  }

  ghost predicate CaughtFor(s: State, t: Tid)
    requires t < |s.stacks|
  {
    exists j :: 0 <= j < |s.stacks[t]| && Upper(s.stacks[t][j]) && InKnot(s, Target(s.stacks[t][j]))
  }

  /** What waits for a lock of a knot is in a knot itself. */
  lemma WaitingJoins(s: State, a: Resource, b: Resource)
    requires Edge(s, a, b) && InKnot(s, b)
    ensures InKnot(s, a)
  {
    hide Edge, WaitsIn;
    var c :| Knot(s, c) && b in c;
    forall x | x in c + {a} ensures WaitsIn(s, c + {a}, x) {
      var y := if x in c then NextOf(s, c, x) else b;
      AnEdgeWaits(s, c + {a}, x, y);
    }
    assert Knot(s, c + {a});
  }

  ghost function NextOf(s: State, c: set<Resource>, a: Resource): (b: Resource)
    requires Knot(s, c) && a in c
    ensures b in c && Edge(s, a, b)
  {
    assert WaitsIn(s, c, a);
    var b :| b in c && Edge(s, a, b);
    b
  }

  lemma InKnotStays(s: State, u: Tid, act: Action, a: Resource)
    requires Shape(s) && u < |s.stacks| && Step(s, u, act).Some? && InKnot(s, a)
    ensures InKnot(Step(s, u, act).value, a)
  {
    hide WaitsIn, Shape, Step;
    var c :| Knot(s, c) && a in c;
    KnotPersists(s, u, act, c);
  }

  /** A lock of a knot that is held on top of a stack is held by an evaluation with callbacks out. */
  predicate Unfinished(s: State, t: Tid)
    requires t < |s.stacks|
  {
    EvaluatesOnTop(s.stacks[t]) && !CallbacksOver(s, s.stacks[t][|s.stacks[t]| - 1].w)
  }

  lemma HeldOnTop(s: State, t: Tid)
    requires Shape(s) && t < |s.stacks| && s.stacks[t] != [] && Holder(s.stacks[t][|s.stacks[t]| - 1])
    requires InKnot(s, TopOf(s, t))
    ensures Unfinished(s, t)
  {
    hide WaitsIn, Edge, Shape;
    var b := TopOf(s, t);
    var c :| Knot(s, c) && b in c;
    HeldInKnot(s, b, NextOf(s, c, b), t);
  }

  /** A frame that wants or holds a lock stays, or its like with the same lock, unless the lock is released. */
  lemma FrameStays(s: State, u: Tid, act: Action, j: nat)
    requires u < |s.stacks| == |s.markers| && Step(s, u, act).Some? && j < |s.stacks[u]| && Upper(s.stacks[u][j])
    requires j == |s.stacks[u]| - 1 && Holder(s.stacks[u][j]) ==> Unfinished(s, u)
    ensures var stack := Step(s, u, act).value.stacks[u];
            j < |stack| && Upper(stack[j]) && Target(stack[j]) == Target(s.stacks[u][j])
  {
    hide CallbacksOver;
  }

  /** Only a thread that has the GIL on top of its stack leaves. */
  lemma NobodyLeaves(s: State, u: Tid, act: Action)
    requires u < |s.stacks| == |s.markers| && Step(s, u, act).Some? && StackOk(s.stacks[u])
    requires s.stacks[u] != [] && !MayCall(s.stacks[u])
    ensures Step(s, u, act).value.stacks[u] != []
  {
    var n := |s.stacks[u]| - 1;
    assert Fits(s.stacks[u][..n], s.stacks[u][n]);
    hide CallbacksOver, MayStart, StackOk, Nested;
  }

  lemma CaughtIf(s: State, t: Tid, j: nat)
    requires t < |s.stacks| && j < |s.stacks[t]| && Upper(s.stacks[t][j]) && InKnot(s, Target(s.stacks[t][j]))
    ensures Caught(s, t)
  {
    hide InKnot;
  }

  lemma GilKnotStays(s: State, u: Tid, act: Action, t: Tid)
    requires Inv(s) && u < |s.stacks| && t < |s.stacks| && Step(s, u, act).Some?
    requires s.stacks[t] != [] && InKnot(s, Gil)
    ensures t < |Step(s, u, act).value.stacks| && Caught(Step(s, u, act).value, t)
  {
    InvShape(s);
    OthersStay(s, u, act);
    NestedOf(s, u);
    hide Step, Shape, InKnot, Inv, StackOk;
    InKnotStays(s, u, act, Gil);
    if t == u {
      if MayCall(s.stacks[u]) {
        HeldOnTop(s, u);
      }
      NobodyLeaves(s, u, act);
    }
  }

  lemma FrameKnotStays(s: State, u: Tid, act: Action, t: Tid, j: nat)
    requires Inv(s) && u < |s.stacks| && t < |s.stacks| && Step(s, u, act).Some?
    requires j < |s.stacks[t]| && Upper(s.stacks[t][j]) && InKnot(s, Target(s.stacks[t][j]))
    ensures t < |Step(s, u, act).value.stacks| && Caught(Step(s, u, act).value, t)
  {
    InvShape(s);
    OthersStay(s, u, act);
    var s' := Step(s, u, act).value;
    hide Step, Shape, InKnot, Inv, Unfinished, Caught;
    InKnotStays(s, u, act, Target(s.stacks[t][j]));
    if t == u {
      if j == |s.stacks[u]| - 1 && Holder(s.stacks[u][j]) {
        HeldOnTop(s, u);
      }
      FrameStays(s, u, act, j);
    }
    CaughtIf(s', t, j);
  }

  lemma CaughtStays(s: State, u: Tid, act: Action, t: Tid)
    requires Inv(s) && u < |s.stacks| && t < |s.stacks| && Step(s, u, act).Some? && Caught(s, t)
    ensures t < |Step(s, u, act).value.stacks| && Caught(Step(s, u, act).value, t)
  {
    hide Step, InKnot, Inv;
    if InKnot(s, Gil) {
      GilKnotStays(s, u, act, t);
    } else {
      var j :| 0 <= j < |s.stacks[t]| && Upper(s.stacks[t][j]) && InKnot(s, Target(s.stacks[t][j]));
      FrameKnotStays(s, u, act, t, j);
    }
  }

  lemma {:induction false} CaughtForever(s: State, steps: seq<(Tid, Action)>, t: Tid)
    requires Inv(s) && Run(s, steps).Some? && t < |s.stacks| && Caught(s, t)
    ensures var s' := Run(s, steps).value; t < |s'.stacks| && Caught(s', t)
  {
    hide Inv, Step, Caught;
    if steps != [] {
      var (u, a) := steps[|steps| - 1];
      var mid := Run(s, steps[..|steps| - 1]).value;
      CaughtForever(s, steps[..|steps| - 1], t);
      RunKeepsInv(s, steps[..|steps| - 1]);
      CaughtStays(mid, u, a, t);
    }
  }

  /** The lock at the top of the stack is in no knot. */
  ghost predicate Live(s: State, t: Tid) {
    t < |s.stacks| && s.stacks[t] != [] && !InKnot(s, TopOf(s, t))
  }

  ghost function LiveTops(s: State): set<Resource> {
    set t | 0 <= t < |s.stacks| && Live(s, t) :: TopOf(s, t)
  }

  /** Among the live threads one can settle, for otherwise their tops would be a knot. */
  lemma LiveSettles(s: State, t: Tid) returns (u: Tid)
    requires Inv(s) && Live(s, t)
    ensures Live(s, u) && CanSettle(s, u)
  {
    InvShape(s);
    assert |s.stacks| == |s.markers| by {
      hide TablesOk, Inv;
    }
    hide Inv, WaitsIn, CanSettle, Edge, InKnot, Shape;
    if v: Tid :| Live(s, v) && CanSettle(s, v) {
      return v;
    }
    forall a | a in LiveTops(s) ensures WaitsIn(s, LiveTops(s), a) {
      var v :| 0 <= v < |s.stacks| && Live(s, v) && TopOf(s, v) == a;
      var x := TopWaits(s, v);
      LiveTopLeadsOn(s, a, x);
      AnEdgeWaits(s, LiveTops(s), a, TopOf(s, x));
    }
    assert TopOf(s, t) in LiveTops(s);
    KnotHolds(s, LiveTops(s), TopOf(s, t));
    assert false;
  }

  lemma LiveTopLeadsOn(s: State, a: Resource, x: Tid)
    requires !InKnot(s, a) && x < |s.stacks| && s.stacks[x] != [] && Edge(s, a, TopOf(s, x))
    ensures TopOf(s, x) in LiveTops(s)
  {
    hide Edge, InKnot;
    if InKnot(s, TopOf(s, x)) {
      WaitingJoins(s, a, TopOf(s, x));
    }
    assert Live(s, x);
  }

  lemma KnotHolds(s: State, c: set<Resource>, a: Resource)
    requires a in c && forall x :: x in c ==> WaitsIn(s, c, x)
    ensures InKnot(s, a)
  {
    hide WaitsIn;
    assert Knot(s, c);
  }

  lemma InKnotBefore(s: State, u: Tid, act: Action, a: Resource)
    requires u < |s.stacks| == |s.markers| && Settles(act) && Step(s, u, act).Some? && StackOk(s.stacks[u])
    requires InKnot(Step(s, u, act).value, a)
    ensures InKnot(s, a)
  {
    hide WaitsIn, Step, StackOk;
    var c :| Knot(Step(s, u, act).value, c) && a in c;
    KnotWasThere(s, u, act, c);
  }

  /** What a frame wants or holds after a settling step it wanted or held before, or it is the GIL. */
  lemma SettledFrame(s: State, u: Tid, act: Action, j: nat)
    requires u < |s.stacks| == |s.markers| && Settles(act) && Step(s, u, act).Some?
    requires j < |Step(s, u, act).value.stacks[u]| && Upper(Step(s, u, act).value.stacks[u][j])
    ensures var f := Step(s, u, act).value.stacks[u][j];
            j < |s.stacks[u]| && (Target(f) == Gil || (Upper(s.stacks[u][j]) && Target(f) == Target(s.stacks[u][j])))
  {
    hide CallbacksOver;
  }

  lemma SettlerIsBusy(s: State, u: Tid, act: Action)
    requires u < |s.stacks| == |s.markers| && Settles(act) && Step(s, u, act).Some?
    ensures s.stacks[u] != []
  {
  }

  lemma GilCatches(s: State, t: Tid)
    requires t < |s.stacks| && s.stacks[t] != [] && InKnot(s, Gil)
    ensures Caught(s, t)
  {
  }

  lemma BusyBefore(s: State, u: Tid, act: Action, t: Tid)
    requires u < |s.stacks| == |s.markers| && t < |s.stacks| && Settles(act) && Step(s, u, act).Some?
    requires t < |Step(s, u, act).value.stacks| && Step(s, u, act).value.stacks[t] != []
    ensures s.stacks[t] != []
  {
    SettlerIsBusy(s, u, act);
    OthersStay(s, u, act);
    hide Step;
  }

  lemma CaughtFrameBefore(s: State, u: Tid, act: Action, t: Tid, j: nat)
    requires u < |s.stacks| == |s.markers| && t < |s.stacks| && Settles(act) && Step(s, u, act).Some?
    requires var stacks := Step(s, u, act).value.stacks;
             && t < |stacks| && j < |stacks[t]| && Upper(stacks[t][j]) && InKnot(s, Target(stacks[t][j]))
    ensures Caught(s, t)
  {
    BusyBefore(s, u, act, t);
    OthersStay(s, u, act);
    if t == u {
      SettledFrame(s, u, act, j);
    }
    hide Step, InKnot, Caught;
    if t == u && Target(Step(s, u, act).value.stacks[t][j]) == Gil {
      GilCatches(s, t);
    } else {
      CaughtIf(s, t, j);
    }
  }

  /** Settling steps catch nobody. */
  lemma CaughtBefore(s: State, u: Tid, act: Action, t: Tid)
    requires u < |s.stacks| == |s.markers| && t < |s.stacks| && Settles(act) && Step(s, u, act).Some?
    requires StackOk(s.stacks[u]) && t < |Step(s, u, act).value.stacks| && Caught(Step(s, u, act).value, t)
    ensures Caught(s, t)
  {
    var s' := Step(s, u, act).value;
    hide Step, InKnot, StackOk;
    BusyBefore(s, u, act, t);
    if InKnot(s', Gil) {
      InKnotBefore(s, u, act, Gil);
      GilCatches(s, t);
    } else {
      var j :| 0 <= j < |s'.stacks[t]| && Upper(s'.stacks[t][j]) && InKnot(s', Target(s'.stacks[t][j]));
      hide Caught, CaughtFor;
      InKnotBefore(s, u, act, Target(s'.stacks[t][j]));
      CaughtFrameBefore(s, u, act, t, j);
    }
  }

  lemma FreeIsLive(s: State, t: Tid)
    requires StacksOk(s) && t < |s.stacks| && s.stacks[t] != [] && !Caught(s, t)
    ensures Live(s, t)
  {
    TopIsUpper(s, t);
    hide InKnot;
    assert Upper(s.stacks[t][|s.stacks[t]| - 1]);
  }

  predicate IsOut(s: State, t: Tid) {
    t < |s.stacks| && s.stacks[t] == []
  }

  lemma {:induction false} FreeComesThrough(s: State, t: Tid) returns (steps: seq<(Tid, Action)>)
    requires Inv(s) && t < |s.stacks| && !Caught(s, t)
    ensures Run(s, steps).Some? && IsOut(Run(s, steps).value, t)
    decreases Work(s.stacks)
  {
    if s.stacks[t] == [] {
      steps := [];
    } else {
      FreeIsLive(s, t);
      var u := LiveSettles(s, t);
      var a := SettlingAction(s, u);
      StepKeepsInv(s, u, a);
      SettlingIsProgress(s, u, a);
      NestedOf(s, u);
      hide Inv, Step, Caught, Work, Live, CanSettle, StackOk;
      if Caught(Step(s, u, a).value, t) {
        CaughtBefore(s, u, a, t);
      }
      steps := FreeComesThrough(Step(s, u, a).value, t);
      RunPrepend(s, u, a, steps);
      steps := [(u, a)] + steps;
    }
  }

  /** A thread can still come through exactly when it is not caught: when no lock that it stands on or wants,
      and not the GIL, is in a knot. */
  lemma ComesThroughIff(s: State, t: Tid)
    requires Inv(s) && t < |s.stacks|
    ensures (exists steps :: Run(s, steps).Some? && IsOut(Run(s, steps).value, t)) <==> !Caught(s, t)
  {
    hide Run, Inv, CaughtFor, InKnot;
    if Caught(s, t) {
      forall steps | Run(s, steps).Some? ensures !IsOut(Run(s, steps).value, t) {
        CaughtForever(s, steps, t);
      }
    } else {
      var steps := FreeComesThrough(s, t);
    }
  }
}
