/** The re-entrancy guard against the knots: what it rejects would have tied one, exactly which of the calls it
    lets through tie one, and that a single thread never does. */
module Guard {
  import opened Options
  import opened Reentrancy
  import opened Nesting
  import opened Knots

  /** A frame that stays on the thread behind the call keeps `a` from being released: an evaluation, or for an
      ordinary call the GIL, which an evaluation gives up. */
  ghost predicate ActiveOn(s: State, t: Tid, a: Resource, evaluates: bool)
    requires t < |s.stacks|
  {
    exists i :: 0 <= i < |s.stacks[t]| && Stays(s.stacks[t], i, evaluates) && Target(s.stacks[t][i]) == a
  }

  predicate Stays(stack: Stack, i: nat, evaluates: bool)
    requires i < |stack|
  {
    Lower(stack[i]) && (evaluates ==> i < |stack| - 1)
  }

  /** `path` follows edges. */
  ghost predicate Leads(s: State, path: seq<Resource>) {
    path != [] && forall i :: 0 <= i < |path| - 1 ==> Edge(s, path[i], path[i + 1])
  }

  ghost predicate Reaches(s: State, a: Resource, b: Resource) {
    exists path :: Leads(s, path) && path[0] == a && path[|path| - 1] == b
  }

  /** Getting hold of `w` waits, at some remove, for something that the caller keeps. */
  ghost predicate Depends(s: State, w: WorkbookId, t: Tid, evaluates: bool)
    requires t < |s.stacks|
  {
    exists a :: Reaches(s, Book(w), a) && ActiveOn(s, t, a, evaluates)
  }

  lemma EdgeOfPast(s: State, t: Tid, w: WorkbookId, evaluates: bool, a: Resource, b: Resource)
    requires t < |s.stacks| && StackOk(s.stacks[t]) && MayCall(s.stacks[t])
    ensures Edge(s, a, b) ==> Edge(Past(s, t, w, evaluates), a, b)
    ensures b == Book(w) && ActiveOn(s, t, a, evaluates) ==> Edge(Past(s, t, w, evaluates), a, b)
    ensures Edge(Past(s, t, w, evaluates), a, b) ==>
              Edge(s, a, b) || (b == Book(w) && ActiveOn(s, t, a, evaluates))
  {
    var s', stack := Past(s, t, w, evaluates), s.stacks[t];
    hide StackOk, StackEdge;
    if Edge(s, a, b) {
      var u :| 0 <= u < |s.stacks| && StackEdge(s.stacks[u], a, b);
      if u == t {
        PastKeepsEdge(stack, w, evaluates, a, b);
      }
      assert StackEdge(s'.stacks[u], a, b);
    }
    if b == Book(w) && ActiveOn(s, t, a, evaluates) {
      var i :| 0 <= i < |stack| && Stays(stack, i, evaluates) && Target(stack[i]) == a;
      PastAddsEdge(stack, w, evaluates, a, i);
      assert StackEdge(s'.stacks[t], a, b);
    }
    if Edge(s', a, b) {
      var u :| 0 <= u < |s'.stacks| && StackEdge(s'.stacks[u], a, b);
      if u == t {
        PastEdge(s, t, w, evaluates, a, b);
      } else {
        assert StackEdge(s.stacks[u], a, b);
      }
    }
  }

  function PastStackOf(stack: Stack, w: WorkbookId, evaluates: bool): Stack
    requires stack != []
  {
    var f := Frame(Waiting(evaluates), w);
    if evaluates then Retopped(stack, f) else stack + [f]
  }

  /** The GIL that an evaluation gives up is still needed by the callback beneath. */
  lemma PastKeepsEdge(stack: Stack, w: WorkbookId, evaluates: bool, a: Resource, b: Resource)
    requires StackOk(stack) && MayCall(stack) && StackEdge(stack, a, b)
    ensures StackEdge(PastStackOf(stack, w, evaluates), a, b)
  {
    var n, stack' := |stack| - 1, PastStackOf(stack, w, evaluates);
    var i, j :| StackEdgeAt(stack, a, b, i, j);
    if j < n || !evaluates {
      assert StackEdgeAt(stack', a, b, i, j);
    } else {
      assert Fits(stack[..n], stack[n]);
      hide StackOk, Nested;
      assert i < n && b == Gil && IsCallback(stack[n - 1]);
      assert StackEdgeAt(stack', a, b, i, n - 1);
    }
  }

  lemma PastAddsEdge(stack: Stack, w: WorkbookId, evaluates: bool, a: Resource, i: nat)
    requires MayCall(stack) && i < |stack| && Stays(stack, i, evaluates) && Target(stack[i]) == a
    ensures StackEdge(PastStackOf(stack, w, evaluates), a, Book(w))
  {
    var stack' := PastStackOf(stack, w, evaluates);
    assert StackEdgeAt(stack', a, Book(w), i, |stack'| - 1);
  }

  lemma PastEdge(s: State, t: Tid, w: WorkbookId, evaluates: bool, a: Resource, b: Resource)
    requires t < |s.stacks| && MayCall(s.stacks[t]) && StackEdge(PastStackOf(s.stacks[t], w, evaluates), a, b)
    ensures StackEdge(s.stacks[t], a, b) || (b == Book(w) && ActiveOn(s, t, a, evaluates))
  {
    var stack, stack' := s.stacks[t], PastStackOf(s.stacks[t], w, evaluates);
    var i, j :| StackEdgeAt(stack', a, b, i, j);
    if j < |stack'| - 1 {
      assert StackEdgeAt(stack, a, b, i, j);
    } else {
      assert Stays(stack, i, evaluates) && Target(stack[i]) == a;
    }
  }

  lemma CallbackKnots(s: State, t: Tid, w: WorkbookId, evaluates: bool)
    requires t < |s.stacks| && StackOk(s.stacks[t]) && MayCall(s.stacks[t]) && Frame(InCallback, w) in s.stacks[t]
    ensures Knot(Past(s, t, w, evaluates), {Book(w)})
  {
    var s', stack := Past(s, t, w, evaluates), s.stacks[t];
    var i :| 0 <= i < |stack| && stack[i] == Frame(InCallback, w);
    assert Stays(stack, i, evaluates) && Target(stack[i]) == Book(w);
    assert ActiveOn(s, t, Book(w), evaluates);
    hide WaitsIn, StackOk, Edge, Past, ActiveOn;
    EdgeOfPast(s, t, w, evaluates, Book(w), Book(w));
    AnEdgeWaits(s', {Book(w)}, Book(w), Book(w));
  }

  lemma Rejected(s: State, t: Tid, w: WorkbookId, evaluates: bool)
    requires t < |s.stacks| == |s.markers| && MayCall(s.stacks[t])
    ensures Step(s, t, Call(w, evaluates))
         == Some(if w !in s.markers[t] then Past(s, t, w, evaluates)
                 else if evaluates then Detached(s, t, Attaching) else s)
  {
    hide Past, Detached;
  }

  /** A call that the guard rejects would have tied a knot on the spot, and never come through. */
  lemma RejectionIsJustified(s: State, t: Tid, w: WorkbookId, evaluates: bool)
    requires Inv(s) && t < |s.stacks| && MayCall(s.stacks[t]) && w in s.markers[t]
    ensures Step(s, t, Call(w, evaluates)) == Some(if evaluates then Detached(s, t, Attaching) else s)
    ensures Knot(Past(s, t, w, evaluates), {Book(w)})
    ensures forall steps :: Run(Past(s, t, w, evaluates), steps).Some? ==>
              !Done(Run(Past(s, t, w, evaluates), steps).value)
  {
    var s' := Past(s, t, w, evaluates);
    InvShape(s);
    NestedOf(s, t);
    hide Run, Done, TablesOk, Knot, StackOk, LocksOk, CallbacksOk, StacksOk;
    Rejected(s, t, w, evaluates);
    assert s.markers[t] == Marks(s.stacks[t]);
    MarksIff(s.stacks[t], w);
    CallbackKnots(s, t, w, evaluates);
    PastKeepsTables(s, t, w, evaluates);
    assert Shape(s');
    hide Step, Past, Inv, Shape;
    forall steps | Run(s', steps).Some? ensures !Done(Run(s', steps).value) {
      KnotPersistsForever(s', steps, {Book(w)});
    }
  }

  lemma PathIsKnot(s: State, t: Tid, w: WorkbookId, evaluates: bool, path: seq<Resource>)
    requires t < |s.stacks| && StackOk(s.stacks[t]) && MayCall(s.stacks[t])
    requires Leads(s, path) && path[0] == Book(w) && ActiveOn(s, t, path[|path| - 1], evaluates)
    ensures Knotted(Past(s, t, w, evaluates))
  {
    hide Edge, ActiveOn, WaitsIn, StackOk, Past;
    var s', c := Past(s, t, w, evaluates), set a | a in path;
    forall a | a in c ensures WaitsIn(s', c, a) {
      var i :| 0 <= i < |path| && path[i] == a;
      if i < |path| - 1 {
        EdgeOfPast(s, t, w, evaluates, a, path[i + 1]);
        AnEdgeWaits(s', c, a, path[i + 1]);
      } else {
        EdgeOfPast(s, t, w, evaluates, a, Book(w));
        AnEdgeWaits(s', c, a, Book(w));
      }
    }
    assert Book(w) in c;
    assert Knot(s', c);
  }

  lemma ReachesOn(s: State, a: Resource, b: Resource, d: Resource)
    requires Reaches(s, a, b) && Edge(s, b, d)
    ensures Reaches(s, a, d)
  {
    hide Edge;
    var path :| Leads(s, path) && path[0] == a && path[|path| - 1] == b;
    assert Leads(s, path + [d]);
  }

  lemma ReachesItself(s: State, a: Resource)
    ensures Reaches(s, a, a)
  {
    hide Edge;
    assert Leads(s, [a]);
  }

  /** A knot behind the guard that was not there before runs through the new call. */
  lemma KnotNeedsPath(s: State, t: Tid, w: WorkbookId, evaluates: bool, c: set<Resource>)
    requires t < |s.stacks| && StackOk(s.stacks[t]) && MayCall(s.stacks[t])
    requires Knot(Past(s, t, w, evaluates), c) && !Depends(s, w, t, evaluates)
    ensures Knotted(s)
  {
    hide Edge, ActiveOn, WaitsIn, Reaches, StackOk, Past;
    var s' := Past(s, t, w, evaluates);
    if Book(w) in c {
      var d := set a | a in c && Reaches(s, Book(w), a);
      ReachesItself(s, Book(w));
      assert Book(w) in d;
      forall a | a in d ensures WaitsIn(s, d, a) {
        var b := NextInKnot(s', c, a);
        EdgeOfPast(s, t, w, evaluates, a, b);
        ReachesOn(s, Book(w), a, b);
        AnEdgeWaits(s, d, a, b);
      }
      assert Knot(s, d);
    } else {
      forall a | a in c ensures WaitsIn(s, c, a) {
        var b := NextInKnot(s', c, a);
        EdgeOfPast(s, t, w, evaluates, a, b);
        AnEdgeWaits(s, c, a, b);
      }
      assert Knot(s, c);
    }
  }

  /** A call that the guard lets through ties a knot exactly when the lock it wants waits, at some remove, for
      something that the caller keeps: an evaluation on its thread, or under an ordinary call the GIL. */
  lemma GuardIsCompleteIff(s: State, t: Tid, w: WorkbookId, evaluates: bool)
    requires Inv(s) && !Knotted(s) && t < |s.stacks| && MayCall(s.stacks[t]) && w !in s.markers[t]
    ensures Step(s, t, Call(w, evaluates)) == Some(Past(s, t, w, evaluates))
    ensures Knotted(Past(s, t, w, evaluates)) <==> Depends(s, w, t, evaluates)
  {
    InvShape(s);
    NestedOf(s, t);
    hide Knot, ActiveOn, Inv, Past, Edge, StackOk, Step, Leads;
    Rejected(s, t, w, evaluates);
    if Depends(s, w, t, evaluates) {
      var a :| Reaches(s, Book(w), a) && ActiveOn(s, t, a, evaluates);
      var path :| Leads(s, path) && path[0] == Book(w) && path[|path| - 1] == a;
      PathIsKnot(s, t, w, evaluates, path);
    } else if Knotted(Past(s, t, w, evaluates)) {
      var c :| Knot(Past(s, t, w, evaluates), c);
      KnotNeedsPath(s, t, w, evaluates, c);
    }
  }

  // ----- One thread alone -----

  predicate OnlyThread(s: State, t: Tid) {
    t < |s.stacks| && forall u :: 0 <= u < |s.stacks| && u != t ==> s.stacks[u] == []
  }

  /** Every callback runs on top of its own evaluation. */
  predicate Serial(stack: Stack) {
    forall i :: 0 <= i < |stack| - 1 && stack[i].Frame? && stack[i].kind.Evaluating? ==>
      stack[i + 1] == Frame(InCallback, stack[i].w)
  }

  /** A frame that wants or holds a workbook stands on no evaluation of that workbook. */
  lemma NoLowerBelow(stack: Stack, i: nat, j: nat)
    requires Nested(stack) && Serial(stack) && i < |stack| && j < |stack|
    requires Lower(stack[i]) && Upper(stack[j]) && Target(stack[i]) == Target(stack[j]) && stack[j].Frame?
    ensures j <= i
  {
    assert stack[i].kind.Evaluating? && i < |stack| - 1 ==> stack[i + 1] == Frame(InCallback, stack[i].w);
  }

  lemma EdgeOnTheStack(s: State, t: Tid, a: Resource, b: Resource) returns (i: nat, j: nat)
    requires OnlyThread(s, t) && Edge(s, a, b)
    ensures StackEdgeAt(s.stacks[t], a, b, i, j)
  {
    var u :| 0 <= u < |s.stacks| && StackEdge(s.stacks[u], a, b);
    i, j :| StackEdgeAt(s.stacks[u], a, b, i, j);
  }

  /** Only the top of the stack stands on running Python code. */
  lemma OnPython(stack: Stack, i: nat, j: nat)
    requires Nested(stack) && i <= j < |stack| && stack[i].Attached? && (i < j || IsCallback(stack[j]))
    ensures j == i + 1 == |stack| - 1 && stack[j].Frame? && Upper(stack[j]) && !Lower(stack[j])
  {
    assert Fits(stack[..i + 1], stack[i + 1]);
    assert stack[..i + 1][i] == stack[i];
    if i + 1 < |stack| - 1 {
      LowerBelow(stack, i + 1);
    }
  }

  lemma GilEdge(stack: Stack, d: Resource, i: nat, j: nat)
    requires Nested(stack) && StackEdgeAt(stack, Gil, d, i, j)
    ensures j == |stack| - 1 && stack[j].Frame? && Upper(stack[j]) && !Lower(stack[j]) && d == Target(stack[j])
  {
    hide Nested;
    OnPython(stack, i, j);
  }

  /** The frame on top waits for `d`, or uses it, in an ordinary call. */
  predicate OnTopFor(stack: Stack, d: Resource) {
    stack != [] && stack[|stack| - 1].Frame? && !Lower(stack[|stack| - 1]) && d == Target(stack[|stack| - 1])
  }

  lemma GilLeadsToTop(s: State, t: Tid, d: Resource)
    requires OnlyThread(s, t) && Nested(s.stacks[t]) && Edge(s, Gil, d)
    ensures OnTopFor(s.stacks[t], d)
  {
    var i, j := EdgeOnTheStack(s, t, Gil, d);
    hide OnlyThread, Nested, Edge;
    GilEdge(s.stacks[t], d, i, j);
  }

  lemma TopKeepsNothing(s: State, t: Tid, d: Resource, e: Resource)
    requires OnlyThread(s, t) && Nested(s.stacks[t]) && Serial(s.stacks[t]) && OnTopFor(s.stacks[t], d)
    ensures !Edge(s, d, e)
  {
    if Edge(s, d, e) {
      var i, j := EdgeOnTheStack(s, t, d, e);
      hide OnlyThread, Nested, Serial, Edge;
      NoLowerBelow(s.stacks[t], i, |s.stacks[t]| - 1);
    }
  }

  /** A thread that waits for a workbook with the GIL has no evaluation of that workbook below. */
  lemma GilIsFree(s: State, t: Tid, c: set<Resource>)
    requires OnlyThread(s, t) && Nested(s.stacks[t]) && Serial(s.stacks[t]) && Knot(s, c)
    ensures Gil !in c
  {
    hide OnlyThread, Nested, Serial, Edge, Knot, OnTopFor;
    if Gil in c {
      var d := NextInKnot(s, c, Gil);
      var e := NextInKnot(s, c, d);
      GilLeadsToTop(s, t, d);
      TopKeepsNothing(s, t, d, e);
    }
  }

  /** In a knot on one stack each frame would need one above it. */
  lemma {:induction false} NoTopmost(s: State, t: Tid, c: set<Resource>, j: nat)
    requires Inv(s) && OnlyThread(s, t) && Serial(s.stacks[t]) && Knot(s, c) && Gil !in c
    requires j < |s.stacks[t]| && Upper(s.stacks[t][j]) && Target(s.stacks[t][j]) in c
    ensures false
    decreases |s.stacks[t]| - j
  {
    NestedOf(s, t);
    var stack := s.stacks[t];
    hide WaitsIn, Inv, Nested, StackOk, Serial, OnlyThread, Edge, Knot;
    var b := NextInKnot(s, c, Target(stack[j]));
    var i2, j2 := EdgeOnTheStack(s, t, Target(stack[j]), b);
    NoLowerBelow(stack, i2, j);
    NoTopmost(s, t, c, j2);
  }

  lemma NotAKnot(s: State, t: Tid, c: set<Resource>)
    requires Inv(s) && OnlyThread(s, t) && Serial(s.stacks[t])
    ensures !Knot(s, c)
  {
    NestedOf(s, t);
    hide WaitsIn, Inv, Serial, OnlyThread, Nested, StackOk, Edge;
    if Knot(s, c) {
      GilIsFree(s, t, c);
      var a :| a in c;
      var b := NextInKnot(s, c, a);
      var i, j := EdgeOnTheStack(s, t, a, b);
      NoTopmost(s, t, c, j);
    }
  }

  lemma NoKnotOnOneStack(s: State, t: Tid)
    requires Inv(s) && OnlyThread(s, t) && Serial(s.stacks[t])
    ensures !Knotted(s)
  {
    hide Knot, Inv, OnlyThread, Serial;
    forall c ensures !Knot(s, c) {
      NotAKnot(s, t, c);
    }
  }

  /** All steps are taken by thread `t`, and callbacks are started by their own evaluation only. */
  predicate SerialRun(s: State, steps: seq<(Tid, Action)>, t: Tid)
    requires Run(s, steps).Some?
  {
    steps == []
    || (var front, step := steps[..|steps| - 1], steps[|steps| - 1];
        && SerialRun(s, front, t) && step.0 == t
        && (step.1.Start? ==>
              var stack := Run(s, front).value.stacks[t];
              stack != [] && stack[|stack| - 1] == Frame(Evaluating, step.1.w)))
  }

  lemma SerialStep(s: State, t: Tid, a: Action)
    requires OnlyThread(s, t) && |s.markers| == |s.stacks| && Serial(s.stacks[t]) && Step(s, t, a).Some?
    requires a.Start? ==> s.stacks[t] != [] && s.stacks[t][|s.stacks[t]| - 1] == Frame(Evaluating, a.w)
    ensures OnlyThread(Step(s, t, a).value, t) && Serial(Step(s, t, a).value.stacks[t])
  {
    hide CallbacksOver;
  }

  lemma {:induction false} SerialRunKeeps(s: State, steps: seq<(Tid, Action)>, t: Tid)
    requires Init(s) && t < |s.stacks| && Run(s, steps).Some? && SerialRun(s, steps, t)
    ensures OnlyThread(Run(s, steps).value, t) && Serial(Run(s, steps).value.stacks[t])
  {
    hide Step, OnlyThread, Serial;
    if steps == [] {
      NoStacks(s, t);
    } else {
      SerialRunKeeps(s, steps[..|steps| - 1], t);
      SerialStep(Run(s, steps[..|steps| - 1]).value, t, steps[|steps| - 1].1);
    }
  }

  lemma NoStacks(s: State, t: Tid)
    requires Init(s) && t < |s.stacks|
    ensures OnlyThread(s, t) && Serial(s.stacks[t])
  {
  }

  /** One thread that runs its own callbacks never ties a knot, however deep it nests workbooks: there the
      guard is enough. */
  lemma OneThreadIsSafe(s: State, steps: seq<(Tid, Action)>, t: Tid)
    requires Init(s) && t < |s.stacks| && Run(s, steps).Some? && SerialRun(s, steps, t)
    ensures !Knotted(Run(s, steps).value)
  {
    hide Inv, Run, Knotted, Serial, OnlyThread, SerialRun;
    OutsideInv(s);
    RunKeepsInv(s, steps);
    SerialRunKeeps(s, steps, t);
    NoKnotOnOneStack(Run(s, steps).value, t);
  }
}
