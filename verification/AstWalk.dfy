/** The formula tree of the Python binding, its visitor with early exit, and its two collectors of
    references. */
module AstWalk {
  import opened Options

  datatype Node =
    | Literal(value: string)
    | Omitted
    | Reference(original: string, reference: string)
    | UnaryOp(op: string, expr: Node)
    | BinaryOp(op: string, left: Node, right: Node)
    | Function(name: string, args: seq<Node>)
    | Call(callee: Node, args: seq<Node>)
    | Array(rows: seq<Row>)

  datatype Row = Row(cells: seq<Node>)

  datatype Control = Continue | Skip | Stop

  function Flatten(rows: seq<Row>): seq<Node> {
    if rows == [] then [] else rows[0].cells + Flatten(rows[1..])
  }

  /** All of `nodes` are proper parts of `parent`. */
  ghost predicate PartsOf(parent: Node, nodes: seq<Node>) {
    forall i :: 0 <= i < |nodes| ==> nodes[i] < parent
  }

  lemma PartsAppend(parent: Node, a: seq<Node>, b: seq<Node>)
    requires PartsOf(parent, a) && PartsOf(parent, b)
    ensures PartsOf(parent, a + b)
  {
  }

  lemma {:induction false} FlattenParts(parent: Node, rows: seq<Row>)
    requires forall i :: 0 <= i < |rows| ==> rows[i] < parent
    ensures PartsOf(parent, Flatten(rows))
  {
    if rows != [] {
      FlattenParts(parent, rows[1..]);
      RowParts(parent, rows[0]);
      PartsAppend(parent, rows[0].cells, Flatten(rows[1..]));
    }
  }

  lemma RowParts(parent: Node, row: Row)
    requires row < parent
    ensures PartsOf(parent, row.cells)
  {
    forall i | 0 <= i < |row.cells| ensures row.cells[i] < parent {
      assert row.cells[i] < row;
    }
  }

  /** `children`. */
  function Children(node: Node): (r: seq<Node>)
    ensures PartsOf(node, r)
  {
    match node
    case UnaryOp(_, expr) => [expr]
    case BinaryOp(_, left, right) => [left, right]
    case Function(_, args) => args
    case Call(callee, args) =>
      PartsAppend(node, [callee], args);
      [callee] + args
    case Array(rows) =>
      FlattenParts(node, rows);
      Flatten(rows)
    case _ => []
  }

  // ----- The tree laid out flat -----

  /** A node, and the number of nodes of its subtree. */
  datatype Entry = Entry(node: Node, size: nat)

  type Flat = seq<Entry>

  /** Every subtree ends within the layout. */
  predicate Nested(flat: Flat) {
    forall i :: 0 <= i < |flat| ==> 1 <= flat[i].size && i + flat[i].size <= |flat|
  }

  /** Of two subtrees one holds the other, or they do not meet. */
  predicate Laminar(flat: Flat) {
    forall i, j :: 0 <= i < j < |flat| && j < i + flat[i].size ==> j + flat[j].size <= i + flat[i].size
  }

  function Preorder(node: Node): (r: Flat)
    ensures |r| > 0 && Nested(r)
    decreases node, |Children(node)| + 1
  {
    var below := PreorderAll(node, Children(node));
    var r := [Entry(node, 1 + |below|)] + below;
    assert forall i :: 1 <= i < |r| ==> r[i] == below[i - 1];
    r
  }

  function PreorderAll(ghost parent: Node, nodes: seq<Node>): (r: Flat)
    requires PartsOf(parent, nodes)
    ensures Nested(r)
    decreases parent, |nodes|
  {
    if nodes == [] then []
    else
      var a, b := Preorder(nodes[0]), PreorderAll(parent, nodes[1..]);
      NestedAppend(a, b);
      a + b
  }

  lemma NestedAppend(a: Flat, b: Flat)
    requires Nested(a) && Nested(b)
    ensures Nested(a + b)
  {
    forall i | 0 <= i < |a + b| ensures 1 <= (a + b)[i].size && i + (a + b)[i].size <= |a + b| {
      if i >= |a| {
        assert (a + b)[i] == b[i - |a|];
      }
    }
  }

  lemma LaminarAppend(a: Flat, b: Flat)
    requires Nested(a) && Laminar(a) && Laminar(b)
    ensures Laminar(a + b)
  {
    var flat := a + b;
    forall i, j | 0 <= i < j < |flat| && j < i + flat[i].size ensures j + flat[j].size <= i + flat[i].size {
      if i >= |a| {
        assert flat[i] == b[i - |a|] && flat[j] == b[j - |a|];
      }
    }
  }

  lemma {:induction false} PreorderLaminar(node: Node)
    ensures Laminar(Preorder(node))
    decreases node, |Children(node)| + 1
  {
    var below := PreorderAll(node, Children(node));
    PreorderAllLaminar(node, Children(node));
    var r := Preorder(node);
    assert r == [Entry(node, 1 + |below|)] + below;
    forall i, j | 0 <= i < j < |r| && j < i + r[i].size ensures j + r[j].size <= i + r[i].size {
      assert r[j] == below[j - 1];
      if i > 0 {
        assert r[i] == below[i - 1];
      }
    }
  }

  lemma {:induction false} PreorderAllLaminar(parent: Node, nodes: seq<Node>)
    requires PartsOf(parent, nodes)
    ensures Laminar(PreorderAll(parent, nodes))
    decreases parent, |nodes|
  {
    if nodes != [] {
      PreorderLaminar(nodes[0]);
      PreorderAllLaminar(parent, nodes[1..]);
      LaminarAppend(Preorder(nodes[0]), PreorderAll(parent, nodes[1..]));
    }
  }

  // ----- Visiting -----

  /** A visitor may keep state of its own from call to call. */
  type Visitor<!S> = (S, Node) -> (S, Control)

  /** Visit the layout from left to right: after `Skip` jump over the subtree, at `Stop` end. */
  function Scan<S>(flat: Flat, visitor: Visitor<S>, s: S): (S, bool)
    requires Nested(flat)
    decreases |flat|
  {
    if flat == [] then (s, false)
    else
      var (next, answer) := visitor(s, flat[0].node);
      match answer
      case Stop => (next, true)
      case Skip => NestedSuffix(flat, flat[0].size); Scan(flat[flat[0].size..], visitor, next)
      case Continue => NestedSuffix(flat, 1); Scan(flat[1..], visitor, next)
  }

  lemma NestedSuffix(flat: Flat, k: nat)
    requires Nested(flat) && k <= |flat|
    ensures Nested(flat[k..])
  {
    forall i | 0 <= i < |flat[k..]| ensures 1 <= flat[k..][i].size && i + flat[k..][i].size <= |flat[k..]| {
      assert flat[k..][i] == flat[k + i];
    }
  }

  lemma {:induction false} ScanAppend<S>(a: Flat, b: Flat, visitor: Visitor<S>, s: S)
    requires Nested(a) && Nested(b) && Nested(a + b)
    ensures var first := Scan(a, visitor, s);
            Scan(a + b, visitor, s) == if first.1 then first else Scan(b, visitor, first.0)
    decreases |a|
  {
    if a == [] {
      assert a + b == b;
    } else {
      var (next, answer) := visitor(s, a[0].node);
      var k := if answer == Skip then a[0].size else 1;
      NestedSuffix(a, k);
      NestedSuffix(a + b, k);
      assert (a + b)[k..] == a[k..] + b;
      ScanAppend(a[k..], b, visitor, next);
    }
  }

  /** `_walk_recursive`: the state of the visitor is handed through, and the result says whether the
      whole walk is to stop. */
  method Walk<S>(node: Node, visitor: Visitor<S>, s: S) returns (end: S, stop: bool)
    ensures (end, stop) == Scan(Preorder(node), visitor, s)
    decreases node
  {
    hide Nested;
    ScanNode(node, visitor, s);
    var (next, answer) := visitor(s, node);
    if answer == Stop {
      return next, true;
    } else if answer == Skip {
      return next, false;
    }
    end := next;
    var children := Children(node);
    assert children[0..] == children;
    for i := 0 to |children|
      invariant Scan(PreorderAll(node, children[i..]), visitor, end) == Scan(Preorder(node), visitor, s)
    {
      assert children[i..][1..] == children[i + 1..];
      assert children[i..][0] == children[i];
      ScanAppend(Preorder(children[i]), PreorderAll(node, children[i + 1..]), visitor, end);
      end, stop := Walk(children[i], visitor, end);
      if stop {
        return end, true;
      }
    }
    return end, false;
  }

  lemma ScanNode<S>(node: Node, visitor: Visitor<S>, s: S)
    ensures var (next, answer) := visitor(s, node);
            Scan(Preorder(node), visitor, s)
            == match answer
               case Stop => (next, true)
               case Skip => (next, false)
               case Continue => Scan(PreorderAll(node, Children(node)), visitor, next)
  {
    var flat := Preorder(node);
    assert flat[1..] == PreorderAll(node, Children(node));
    assert flat[flat[0].size..] == [];
  }

  /** `walk_ast`. */
  method WalkAst<S>(node: Node, visitor: Visitor<S>, s: S) returns (end: S)
    ensures end == Scan(Preorder(node), visitor, s).0
  {
    var stop;
    end, stop := Walk(node, visitor, s);
  }

  // ----- Which nodes are visited -----

  /** The positions visited from `i` on, with the answers given there. */
  function Trace<S>(flat: Flat, i: nat, visitor: Visitor<S>, s: S): seq<(nat, Control)>
    requires Nested(flat) && i <= |flat|
    decreases |flat| - i
  {
    if i == |flat| then []
    else
      var (next, answer) := visitor(s, flat[i].node);
      [(i, answer)]
      + match answer
        case Stop => []
        case Skip => Trace(flat, i + flat[i].size, visitor, next)
        case Continue => Trace(flat, i + 1, visitor, next)
  }

  /** The visitor's state after it has been shown the nodes at the given positions. */
  function Shown<S>(flat: Flat, visits: seq<(nat, Control)>, visitor: Visitor<S>, s: S): S
    requires forall v <- visits :: v.0 < |flat|
  {
    if visits == [] then s else Shown(flat, visits[1..], visitor, visitor(s, flat[visits[0].0].node).0)
  }

  lemma {:induction false} TraceInRange<S>(flat: Flat, i: nat, visitor: Visitor<S>, s: S)
    requires Nested(flat) && i <= |flat|
    ensures forall v <- Trace(flat, i, visitor, s) :: i <= v.0 < |flat|
    decreases |flat| - i
  {
    if i < |flat| {
      var (next, answer) := visitor(s, flat[i].node);
      if answer != Stop {
        TraceInRange(flat, if answer == Skip then i + flat[i].size else i + 1, visitor, next);
      }
    }
  }

  lemma {:induction false} ScanShowsTrace<S>(flat: Flat, i: nat, visitor: Visitor<S>, s: S)
    requires Nested(flat) && i <= |flat|
    ensures Nested(flat[i..])
    ensures forall v <- Trace(flat, i, visitor, s) :: v.0 < |flat|
    ensures Scan(flat[i..], visitor, s).0 == Shown(flat, Trace(flat, i, visitor, s), visitor, s)
    decreases |flat| - i
  {
    hide Nested, Scan, Trace, Shown;
    NestedSuffix(flat, i);
    TraceInRange(flat, i, visitor, s);
    ScanStep(flat, i, visitor, s);
    if i == |flat| {
      EmptyTrace(flat, visitor, s);
    } else {
      var (next, answer) := visitor(s, flat[i].node);
      TraceUnfolds(flat, i, visitor, s);
      if answer == Stop {
        assert [(i, answer)] + [] == [(i, answer)];
        ShownFirst(flat, i, answer, [], visitor, s);
        EmptyTrace(flat, visitor, next);
      } else {
        var k := Jump(flat, i, answer);
        ShownFirst(flat, i, answer, Trace(flat, k, visitor, next), visitor, s);
        ScanShowsTrace(flat, k, visitor, next);
      }
    }
  }

  lemma EmptyTrace<S>(flat: Flat, visitor: Visitor<S>, s: S)
    requires Nested(flat)
    ensures Trace(flat, |flat|, visitor, s) == [] && Shown(flat, [], visitor, s) == s
  {
  }

  lemma {:induction false} ScanStep<S>(flat: Flat, i: nat, visitor: Visitor<S>, s: S)
    requires Nested(flat) && i <= |flat| && Nested(flat[i..])
    ensures i == |flat| ==> Scan(flat[i..], visitor, s) == (s, false)
    ensures i < |flat| ==>
      var (next, answer) := visitor(s, flat[i].node);
      var k := Jump(flat, i, answer);
      && k <= |flat| && Nested(flat[k..])
      && Scan(flat[i..], visitor, s) == if answer == Stop then (next, true) else Scan(flat[k..], visitor, next)
  {
    if i < |flat| {
      var (next, answer) := visitor(s, flat[i].node);
      var k := if answer == Skip then flat[i].size else 1;
      NestedSuffix(flat, i + k);
      assert flat[i..][k..] == flat[i + k..];
    }
  }

  function Jump(flat: Flat, i: nat, answer: Control): nat
    requires i < |flat|
  {
    i + if answer == Skip then flat[i].size else 1
  }

  lemma JumpFits(flat: Flat, i: nat, answer: Control)
    requires Nested(flat) && i < |flat|
    ensures i < Jump(flat, i, answer) <= |flat|
  {
  }

  lemma {:induction false} TraceUnfolds<S>(flat: Flat, i: nat, visitor: Visitor<S>, s: S)
    requires Nested(flat) && i < |flat|
    ensures var (next, answer) := visitor(s, flat[i].node);
            && i < Jump(flat, i, answer) <= |flat|
            && (answer == Stop ==> Trace(flat, i, visitor, s) == [(i, answer)])
            && (answer != Stop ==>
                  Trace(flat, i, visitor, s) == [(i, answer)] + Trace(flat, Jump(flat, i, answer), visitor, next))
  {
    var (next, answer) := visitor(s, flat[i].node);
    JumpFits(flat, i, answer);
    hide Nested;
    if answer == Stop {
      assert Trace(flat, i, visitor, s) == [(i, answer)] + [];
    }
  }

  lemma {:induction false} ShownFirst<S>(flat: Flat, i: nat, answer: Control, rest: seq<(nat, Control)>,
                                            visitor: Visitor<S>, s: S)
    requires i < |flat| && forall v <- [(i, answer)] + rest :: v.0 < |flat|
    ensures forall v <- rest :: v.0 < |flat|
    ensures Shown(flat, [(i, answer)] + rest, visitor, s) == Shown(flat, rest, visitor, visitor(s, flat[i].node).0)
  {
    var visits := [(i, answer)] + rest;
    assert visits[1..] == rest;
    assert forall v <- rest :: v in visits;
  }

  /** Some node above position `i` was answered with `Skip`. */
  ghost predicate Hidden(flat: Flat, answers: nat -> Control, i: nat) {
    exists j :: 0 <= j < i && j < |flat| && i < j + flat[j].size && answers(j) == Skip
  }

  /** Position `i` lies under no skipped node, and behind no unskipped stop. */
  ghost predicate Reported(flat: Flat, answers: nat -> Control, i: nat) {
    !Hidden(flat, answers, i) && forall j: nat :: j < i && !Hidden(flat, answers, j) ==> answers(j) != Stop
  }

  /** If the first `i` positions hold no visible stop and `i` itself is visible, the trace from there is
      exactly the reported positions. */
  lemma {:induction false} TraceIsReported<S>(
    flat: Flat, i: nat, visitor: Visitor<S>, s: S, answers: nat -> Control, p: nat)
    requires Nested(flat) && Laminar(flat) && i <= p < |flat|
    requires forall v <- Trace(flat, i, visitor, s) :: answers(v.0) == v.1
    requires Reported(flat, answers, i)
    ensures (exists v :: v in Trace(flat, i, visitor, s) && v.0 == p) <==> Reported(flat, answers, p)
    decreases |flat| - i
  {
    hide Reported, Hidden, Laminar;
    var (next, answer) := visitor(s, flat[i].node);
    var trace := Trace(flat, i, visitor, s);
    assert trace[0] == (i, answer) && trace[0] in trace;
    assert answers(i) == answer;
    if p == i {
      assert trace[0].0 == p;
    } else if answer == Stop {
      assert trace == [(i, answer)];
      AfterStop(flat, answers, i, p);
    } else {
      var k := if answer == Skip then i + flat[i].size else i + 1;
      var rest := Trace(flat, k, visitor, next);
      assert trace == [(i, answer)] + rest;
      TraceInRange(flat, k, visitor, next);
      if p < k {
        UnderSkip(flat, answers, i, p);
        assert forall v <- trace :: v.0 != p;
      } else {
        NextReported(flat, answers, i, k);
        assert forall v <- rest :: v in trace;
        TraceIsReported(flat, k, visitor, next, answers, p);
      }
    }
  }

  lemma AfterStop(flat: Flat, answers: nat -> Control, i: nat, p: nat)
    requires i < p && Reported(flat, answers, i) && answers(i) == Stop
    ensures !Reported(flat, answers, p)
  {
  }

  lemma UnderSkip(flat: Flat, answers: nat -> Control, i: nat, p: nat)
    requires i < p < |flat| && p < i + flat[i].size && answers(i) == Skip
    ensures Hidden(flat, answers, p) && !Reported(flat, answers, p)
  {
  }

  lemma HiddenBack(flat: Flat, answers: nat -> Control, i: nat, j: nat, k: nat)
    requires Laminar(flat) && i < |flat| && j < k && j < |flat| && k < j + flat[j].size && answers(j) == Skip
    requires k == if answers(i) == Skip then i + flat[i].size else i + 1
    requires flat[i].size >= 1
    ensures Hidden(flat, answers, i)
  {
  }

  /** From a visited position that does not stop, the next position is visible again. */
  lemma NextReported(flat: Flat, answers: nat -> Control, i: nat, k: nat)
    requires Nested(flat) && Laminar(flat) && i < |flat| && Reported(flat, answers, i)
    requires answers(i) != Stop && k == if answers(i) == Skip then i + flat[i].size else i + 1
    ensures Reported(flat, answers, k)
  {
    if Hidden(flat, answers, k) {
      var j :| 0 <= j < k && j < |flat| && k < j + flat[j].size && answers(j) == Skip;
      HiddenBack(flat, answers, i, j, k);
      assert false;
    }
    forall j: nat | j < k && !Hidden(flat, answers, j) ensures answers(j) != Stop {
      if j > i {
        UnderSkip(flat, answers, i, j);
      }
    }
  }

  ghost predicate Ascends(visits: seq<(nat, Control)>) {
    forall a, b :: 0 <= a < b < |visits| ==> visits[a].0 < visits[b].0
  }

  lemma AscendsFrom(i: nat, answer: Control, rest: seq<(nat, Control)>)
    requires Ascends(rest) && forall v <- rest :: i < v.0
    ensures Ascends([(i, answer)] + rest)
  {
    assert forall a :: 0 <= a < |rest| ==> rest[a] in rest;
  }

  lemma {:induction false} TraceAscends<S>(flat: Flat, i: nat, visitor: Visitor<S>, s: S)
    requires Nested(flat) && i <= |flat|
    ensures Ascends(Trace(flat, i, visitor, s))
    decreases |flat| - i
  {
    hide Ascends, Trace, Nested;
    EmptyAscends();
    if i == |flat| {
      EmptyTrace(flat, visitor, s);
    } else {
      var (next, answer) := visitor(s, flat[i].node);
      TraceUnfolds(flat, i, visitor, s);
      if answer == Stop {
        AscendsFrom(i, answer, []);
        assert [(i, answer)] + [] == [(i, answer)];
      } else {
        var k := Jump(flat, i, answer);
        TraceAscends(flat, k, visitor, next);
        TraceInRange(flat, k, visitor, next);
        AscendsFrom(i, answer, Trace(flat, k, visitor, next));
      }
    }
  }

  lemma EmptyAscends()
    ensures Ascends([])
  {
  }

  /** The walk shows the visitor, once each and in preorder, exactly the nodes that lie under no skipped
      node and behind no stop. `answers` may be anything that agrees with what the visitor answered. */
  lemma WalkVisits<S>(node: Node, visitor: Visitor<S>, s: S, answers: nat -> Control, p: nat)
    requires p < |Preorder(node)|
    requires forall v <- Trace(Preorder(node), 0, visitor, s) :: answers(v.0) == v.1
    ensures var flat := Preorder(node); var t := Trace(flat, 0, visitor, s);
            && (forall v <- t :: v.0 < |flat|)
            && Scan(flat, visitor, s).0 == Shown(flat, t, visitor, s)
            && Ascends(t)
            && ((exists v :: v in t && v.0 == p) <==> Reported(flat, answers, p))
  {
    hide Trace, Scan, Shown, Reported, Laminar, Ascends;
    var flat := Preorder(node);
    assert flat[0..] == flat;
    PreorderLaminar(node);
    ScanShowsTrace(flat, 0, visitor, s);
    TraceAscends(flat, 0, visitor, s);
    assert Reported(flat, answers, 0) by {
      FirstReported(flat, answers);
    }
    TraceIsReported(flat, 0, visitor, s, answers, p);
  }

  lemma FirstReported(flat: Flat, answers: nat -> Control)
    ensures Reported(flat, answers, 0)
  {
  }

  // ----- Collecting -----

  /** A visitor that never prunes, and appends what `pick` finds in a node. */
  function Collector<T>(pick: Node -> seq<T>): Visitor<seq<T>> {
    (found: seq<T>, node: Node) => (found + pick(node), Continue)
  }

  function Picked<T>(flat: Flat, pick: Node -> seq<T>): seq<T> {
    if flat == [] then [] else pick(flat[0].node) + Picked(flat[1..], pick)
  }

  lemma {:induction false} CollectorPicks<T>(flat: Flat, pick: Node -> seq<T>, found: seq<T>)
    requires Nested(flat)
    ensures Scan(flat, Collector(pick), found) == (found + Picked(flat, pick), false)
    decreases |flat|
  {
    if flat == [] {
      assert found + [] == found;
    } else {
      NestedSuffix(flat, 1);
      CollectorPicks(flat[1..], pick, found + pick(flat[0].node));
      assert (found + pick(flat[0].node)) + Picked(flat[1..], pick) == found + Picked(flat, pick);
    }
  }

  lemma {:induction false} PickedAppend<T>(a: Flat, b: Flat, pick: Node -> seq<T>)
    ensures Picked(a + b, pick) == Picked(a, pick) + Picked(b, pick)
  {
    if a == [] {
      assert a + b == b;
    } else {
      assert (a + b)[1..] == a[1..] + b;
      PickedAppend(a[1..], b, pick);
    }
  }

  /** `get_reference`. */
  function GetReference(node: Node): seq<(string, string)> {
    if node.Reference? then [(node.reference, node.original)] else []
  }

  /** `collect_references` of the Python package: a walk over `children`. */
  method CollectReferences(node: Node) returns (refs: seq<(string, string)>)
    ensures refs == Picked(Preorder(node), GetReference)
  {
    CollectorPicks(Preorder(node), GetReference, []);
    refs := WalkAst(node, Collector(GetReference), []);
  }

  /** The references of the subtrees of some siblings. */
  ghost function Found(parent: Node, nodes: seq<Node>): seq<(string, string)>
    requires PartsOf(parent, nodes)
  {
    Picked(PreorderAll(parent, nodes), GetReference)
  }

  lemma FoundFirst(parent: Node, nodes: seq<Node>)
    requires PartsOf(parent, nodes) && nodes != []
    ensures PartsOf(parent, nodes[1..])
    ensures Found(parent, nodes) == Picked(Preorder(nodes[0]), GetReference) + Found(parent, nodes[1..])
  {
    hide Preorder, Picked;
    PickedAppend(Preorder(nodes[0]), PreorderAll(parent, nodes[1..]), GetReference);
  }

  lemma {:induction false} FoundAppend(parent: Node, nodes: seq<Node>, more: seq<Node>)
    requires PartsOf(parent, nodes) && PartsOf(parent, more)
    ensures PartsOf(parent, nodes + more)
    ensures Found(parent, nodes + more) == Found(parent, nodes) + Found(parent, more)
    decreases |nodes|
  {
    hide Found, Preorder, Picked;
    PartsAppend(parent, nodes, more);
    if nodes == [] {
      assert nodes + more == more;
      EmptyFound(parent);
    } else {
      FoundFirst(parent, nodes);
      FoundFirst(parent, nodes + more);
      assert (nodes + more)[1..] == nodes[1..] + more;
      FoundAppend(parent, nodes[1..], more);
    }
  }

  lemma FoundOne(parent: Node, node: Node)
    requires node < parent
    ensures Found(parent, [node]) == Picked(Preorder(node), GetReference)
  {
    assert [node][1..] == [];
    assert PreorderAll(parent, [node]) == Preorder(node) + [];
    assert Preorder(node) + [] == Preorder(node);
  }

  lemma PickedNode(node: Node)
    ensures Picked(Preorder(node), GetReference) == GetReference(node) + Found(node, Children(node))
  {
    var flat := Preorder(node);
    assert flat[1..] == PreorderAll(node, Children(node));
  }

  // ----- Collecting case by case -----

  /** What `collect_refs_recursive` pushes for a node. */
  function Collected(node: Node): seq<(string, string)>
    decreases node, 2, 0
  {
    match node
    case Reference(original, reference) => [(reference, original)]
    case UnaryOp(_, expr) => Collected(expr)
    case BinaryOp(_, left, right) => Collected(left) + Collected(right)
    case Function(_, args) => CollectedFrom(node, args)
    case Call(callee, args) => Collected(callee) + CollectedFrom(node, args)
    case Array(rows) => CollectedFromRows(node, rows)
    case _ => []
  }

  function CollectedFrom(ghost parent: Node, nodes: seq<Node>): seq<(string, string)>
    requires PartsOf(parent, nodes)
    decreases parent, 0, |nodes|
  {
    if nodes == [] then []
    else CollectedFrom(parent, nodes[..|nodes| - 1]) + Collected(nodes[|nodes| - 1])
  }

  function CollectedFromRows(ghost parent: Node, rows: seq<Row>): seq<(string, string)>
    requires forall i :: 0 <= i < |rows| ==> rows[i] < parent
    decreases parent, 1, |rows|
  {
    if rows == [] then []
    else
      RowParts(parent, rows[|rows| - 1]);
      CollectedFromRows(parent, rows[..|rows| - 1]) + CollectedFrom(parent, rows[|rows| - 1].cells)
  }

  lemma {:induction false} CollectedIs(node: Node)
    ensures Collected(node) == Picked(Preorder(node), GetReference)
    decreases node, 2, 0
  {
    hide Preorder, PreorderAll, Picked, Flatten, Found, CollectedFrom, CollectedFromRows;
    PickedNode(node);
    EmptyFound(node);
    match node
    case UnaryOp(_, expr) =>
      CollectedIs(expr);
      FoundOne(node, expr);
    case BinaryOp(_, left, right) =>
      CollectedIs(left);
      CollectedIs(right);
      FoundOne(node, left);
      FoundOne(node, right);
      FoundAppend(node, [left], [right]);
      assert [left] + [right] == Children(node);
    case Function(_, args) => CollectedFromIs(node, args);
    case Call(callee, args) =>
      CollectedIs(callee);
      FoundOne(node, callee);
      CollectedFromIs(node, args);
      FoundAppend(node, [callee], args);
    case Array(rows) => CollectedFromRowsIs(node, rows);
    case _ =>
  }

  lemma {:induction false} CollectedFromIs(parent: Node, nodes: seq<Node>)
    requires PartsOf(parent, nodes)
    ensures CollectedFrom(parent, nodes) == Found(parent, nodes)
    decreases parent, 0, |nodes|
  {
    hide Preorder, PreorderAll, Picked, Found, Collected;
    if nodes == [] {
      EmptyFound(parent);
    } else {
      var front, last := nodes[..|nodes| - 1], nodes[|nodes| - 1];
      CollectedFromIs(parent, front);
      CollectedIs(last);
      FoundOne(parent, last);
      FoundAppend(parent, front, [last]);
      assert front + [last] == nodes;
    }
  }

  lemma {:induction false} CollectedFromRowsIs(parent: Node, rows: seq<Row>)
    requires forall i :: 0 <= i < |rows| ==> rows[i] < parent
    ensures PartsOf(parent, Flatten(rows))
    ensures CollectedFromRows(parent, rows) == Found(parent, Flatten(rows))
    decreases parent, 1, |rows|
  {
    hide Preorder, PreorderAll, Picked, Found, Collected, CollectedFrom;
    FlattenParts(parent, rows);
    if rows == [] {
      EmptyFound(parent);
    } else {
      var n := |rows| - 1;
      CollectedFromRowsIs(parent, rows[..n]);
      RowParts(parent, rows[n]);
      CollectedFromIs(parent, rows[n].cells);
      FlattenStep(rows, n);
      assert rows[..n + 1] == rows;
      FoundAppend(parent, Flatten(rows[..n]), rows[n].cells);
    }
  }

  /** `collect_refs_recursive`: it appends to the list, case by case. */
  method CollectRefsRecursive(node: Node, refs: seq<(string, string)>) returns (r: seq<(string, string)>)
    ensures r == refs + Collected(node)
    decreases node
  {
    hide Flatten, CollectedFrom;
    r := refs;
    match node
    case Reference(original, reference) =>
      r := r + [(reference, original)];
    case UnaryOp(_, expr) =>
      r := CollectRefsRecursive(expr, r);
    case BinaryOp(_, left, right) =>
      r := CollectRefsRecursive(left, r);
      r := CollectRefsRecursive(right, r);
    case Function(_, args) =>
      r := CollectFromAll(node, args, r);
    case Call(callee, args) =>
      r := CollectRefsRecursive(callee, r);
      r := CollectFromAll(node, args, r);
    case Array(rows) =>
      RowsBelow(node);
      for i := 0 to |rows|
        invariant r == refs + CollectedFromRows(node, rows[..i])
      {
        r := CollectFromAll(node, rows[i].cells, r);
        assert rows[..i + 1][..i] == rows[..i];
      }
      assert rows[..|rows|] == rows;
    case _ =>
  }

  /** The loop over a list of nodes. */
  method CollectFromAll(ghost parent: Node, nodes: seq<Node>, refs: seq<(string, string)>)
    returns (r: seq<(string, string)>)
    requires PartsOf(parent, nodes)
    ensures r == refs + CollectedFrom(parent, nodes)
    decreases parent, 0
  {
    hide Collected;
    r := refs;
    for i := 0 to |nodes|
      invariant r == refs + CollectedFrom(parent, nodes[..i])
    {
      r := CollectRefsRecursive(nodes[i], r);
      assert nodes[..i + 1][..i] == nodes[..i];
    }
    assert nodes[..|nodes|] == nodes;
  }

  lemma EmptyFound(parent: Node)
    ensures Found(parent, []) == []
  {
  }

  lemma RowsBelow(node: Node)
    requires node.Array?
    ensures forall i :: 0 <= i < |node.rows| ==> PartsOf(node, node.rows[i].cells)
    ensures Flatten([]) == [] && node.rows[..0] == []
  {
    forall i | 0 <= i < |node.rows| ensures PartsOf(node, node.rows[i].cells) {
      RowParts(node, node.rows[i]);
    }
  }

  lemma {:induction false} FlattenStep(rows: seq<Row>, i: nat)
    requires i < |rows|
    ensures Flatten(rows[..i + 1]) == Flatten(rows[..i]) + rows[i].cells
    decreases i
  {
    if i == 0 {
      assert rows[..1] == [rows[0]] && rows[..1][1..] == [];
    } else {
      FlattenStep(rows[1..], i - 1);
      assert rows[..i + 1][1..] == rows[1..][..i] && rows[..i][1..] == rows[1..][..i - 1];
      assert rows[1..][..i - 1 + 1] == rows[1..][..i];
    }
  }

  /** For every tree the walk over `children` and the case-by-case recursion find the same references in
      the same order. */
  lemma CollectBothWays(node: Node)
    ensures Scan(Preorder(node), Collector(GetReference), []).0 == Collected(node)
  {
    hide Scan, Picked, Preorder, Collected;
    CollectorPicks(Preorder(node), GetReference, []);
    CollectedIs(node);
    assert [] + Collected(node) == Collected(node);
  }
}
