/**
 Cost computation of the extractor (src/extract.rs): Bellman-Ford relaxation over the rows of the
 constructor tables, the topological rank that records the order of the updates, and the parent
 edges saved for reconstruction.

 A value of a container sort is represented by its unfolding, so a pair (value, sort) of the source
 is one `Node` here.  The cost of an e-node without its children is stored in its row.
 */
module Extract {
  import opened Options

  datatype ClassId = ClassId(sort: string, value: int)

  datatype Node =
    | Base(sort: string, text: string)
    | Class(id: ClassId)
    | Container(sort: string, ctor: string, value: int, elems: seq<Node>)

  datatype Row = Row(func: string, head: string, children: seq<Node>, target: ClassId, headCost: nat, subsumed: bool)

  datatype CostModel = CostModel(
    fold: (string, seq<nat>, nat) -> nat,
    containerCost: (string, int, seq<nat>) -> nat,
    baseCost: (string, string) -> nat)

  type Costs = map<ClassId, nat>
  type Ranks = map<ClassId, nat>

  /** What the relaxation loop updates. */
  datatype State = State(costs: Costs, ranks: Ranks, count: nat)

  const INITIAL: State := State(map[], map[], 0)

  // ---------------------------------------------------------------- costs and ranks of nodes

  function NodeCost(m: CostModel, costs: Costs, node: Node): Option<nat>
    decreases node, 1
  {
    match node
    case Base(sort, text) => Some(m.baseCost(sort, text))
    case Class(id) => if id in costs then Some(costs[id]) else None
    case Container(sort, _, value, elems) =>
      match NodeCosts(m, costs, elems)
      case None => None
      case Some(cs) => Some(m.containerCost(sort, value, cs))
  }

  function NodeCosts(m: CostModel, costs: Costs, nodes: seq<Node>): (r: Option<seq<nat>>)
    ensures r.Some? ==> |r.value| == |nodes|
    decreases nodes, 0
  {
    if nodes == [] then Some([])
    else
      match (NodeCost(m, costs, nodes[0]), NodeCosts(m, costs, nodes[1..]))
      case (Some(c), Some(cs)) => Some([c] + cs)
      case _ => None
  }

  function RowCost(m: CostModel, costs: Costs, row: Row): Option<nat>
  {
    match NodeCosts(m, costs, row.children)
    case None => None
    case Some(cs) => Some(m.fold(row.head, cs, row.headCost))
  }

  /** The rank of a node; `None` stands for the source's `usize::MAX`. */
  function NodeRank(ranks: Ranks, node: Node): Option<nat>
    decreases node, 1
  {
    match node
    case Base(_, _) => Some(0)
    case Class(id) => if id in ranks then Some(ranks[id]) else None
    case Container(_, _, _, elems) => NodesRank(ranks, elems)
  }

  function NodesRank(ranks: Ranks, nodes: seq<Node>): Option<nat>
    decreases nodes, 0
  {
    if nodes == [] then Some(0)
    else
      match (NodeRank(ranks, nodes[0]), NodesRank(ranks, nodes[1..]))
      case (Some(a), Some(b)) => Some(if a < b then b else a)
      case _ => None
  }

  // ---------------------------------------------------------------- the relaxation, as a function

  function Relax(m: CostModel, row: Row, st: State): State
  {
    if row.subsumed then st
    else
      match RowCost(m, st.costs, row)
      case None => st
      case Some(c) =>
        if row.target in st.costs && st.costs[row.target] <= c then st
        else State(st.costs[row.target := c], st.ranks[row.target := st.count + 1], st.count + 1)
  }

  function Pass(m: CostModel, rows: seq<Row>, st: State): State
  {
    if rows == [] then st else Pass(m, rows[1..], Relax(m, rows[0], st))
  }

  /** Rows whose target has no cost yet. */
  function Missing(rows: seq<Row>, costs: Costs): nat
  {
    if rows == [] then 0
    else (if rows[0].target in costs then 0 else 1) + Missing(rows[1..], costs)
  }

  /** The recorded costs, summed over the rows. */
  function Total(rows: seq<Row>, costs: Costs): nat
  {
    if rows == [] then 0
    else (if rows[0].target in costs then costs[rows[0].target] else 0) + Total(rows[1..], costs)
  }

  ghost predicate Smaller(rows: seq<Row>, a: Costs, b: Costs)
  {
    Missing(rows, a) < Missing(rows, b) || (Missing(rows, a) == Missing(rows, b) && Total(rows, a) < Total(rows, b))
  }

  lemma {:induction false} MeasureStep(rows: seq<Row>, costs: Costs, id: ClassId, c: nat)
    requires id in costs ==> c < costs[id]
    ensures id in costs ==> Missing(rows, costs[id := c]) == Missing(rows, costs)
    ensures id in costs ==> Total(rows, costs[id := c]) <= Total(rows, costs)
    ensures id !in costs ==> Missing(rows, costs[id := c]) <= Missing(rows, costs)
    ensures (exists r :: r in rows && r.target == id) ==> Smaller(rows, costs[id := c], costs)
  {
    if rows != [] {
      MeasureStep(rows[1..], costs, id, c);
      if rows[0].target != id && exists r :: r in rows && r.target == id {
        var r :| r in rows && r.target == id;
        assert r in rows[1..];
      }
    }
  }

  lemma {:induction false} RelaxDecreases(m: CostModel, rows: seq<Row>, row: Row, st: State)
    requires row in rows
    ensures Relax(m, row, st) == st || Smaller(rows, Relax(m, row, st).costs, st.costs)
    ensures st.count <= Relax(m, row, st).count
    ensures Relax(m, row, st) != st <==> st.count < Relax(m, row, st).count
  {
    if Relax(m, row, st) != st {
      var c := RowCost(m, st.costs, row).value;
      MeasureStep(rows, st.costs, row.target, c);
    }
  }

  lemma {:induction false} PassDecreases(m: CostModel, all: seq<Row>, rows: seq<Row>, st: State)
    requires forall r :: r in rows ==> r in all
    ensures Pass(m, rows, st) == st || Smaller(all, Pass(m, rows, st).costs, st.costs)
    ensures st.count <= Pass(m, rows, st).count
    ensures Pass(m, rows, st) != st <==> st.count < Pass(m, rows, st).count
  {
    if rows != [] {
      RelaxDecreases(m, all, rows[0], st);
      PassDecreases(m, all, rows[1..], Relax(m, rows[0], st));
    }
  }

  /** Passes over the rows until a pass changes nothing. */
  function Run(m: CostModel, rows: seq<Row>, st: State): State
    decreases Missing(rows, st.costs), Total(rows, st.costs)
  {
    var next := Pass(m, rows, st);
    if next == st then st
    else
      assert Smaller(rows, next.costs, st.costs) by { PassDecreases(m, rows, rows, st); }
      Run(m, rows, next)
  }

  lemma {:induction false} PassKeys(m: CostModel, rows: seq<Row>, st: State)
    requires st.ranks.Keys == st.costs.Keys
    ensures Pass(m, rows, st).ranks.Keys == Pass(m, rows, st).costs.Keys
  {
    if rows != [] {
      PassKeys(m, rows[1..], Relax(m, rows[0], st));
    }
  }

  lemma {:induction false} RunKeys(m: CostModel, rows: seq<Row>, st: State)
    requires st.ranks.Keys == st.costs.Keys
    ensures Run(m, rows, st).ranks.Keys == Run(m, rows, st).costs.Keys
    decreases Missing(rows, st.costs), Total(rows, st.costs)
  {
    PassKeys(m, rows, st);
    var next := Pass(m, rows, st);
    if next != st {
      PassDecreases(m, rows, rows, st);
      RunKeys(m, rows, next);
    }
  }

  // ---------------------------------------------------------------- assumptions on the cost model

  /** Where the arithmetic of costs stops being exact; `NoCap` for unbounded costs. */
  datatype Cap = NoCap | Cap(limit: nat)

  predicate Below(cap: Cap, c: nat) { cap.NoCap? || c < cap.limit }

  ghost predicate PointwiseLe(a: seq<nat>, b: seq<nat>)
  {
    |a| == |b| && forall i :: 0 <= i < |a| ==> a[i] <= b[i]
  }

  ghost predicate Monotone(m: CostModel)
  {
    && (forall h, a, b, c :: PointwiseLe(a, b) ==> m.fold(h, a, c) <= m.fold(h, b, c))
    && (forall s, v, a, b :: PointwiseLe(a, b) ==> m.containerCost(s, v, a) <= m.containerCost(s, v, b))
  }

  /**
   Cheaper parts give a strictly cheaper whole, and no part costs more than the whole, while the whole is below the
   cap.
   */
  ghost predicate StrictBelow(m: CostModel, cap: Cap)
  {
    && (forall h, a, b, c :: PointwiseLe(a, b) && a != b && Below(cap, m.fold(h, b, c)) ==>
          m.fold(h, a, c) < m.fold(h, b, c))
    && (forall s, v, a, b :: PointwiseLe(a, b) && a != b && Below(cap, m.containerCost(s, v, b)) ==>
          m.containerCost(s, v, a) < m.containerCost(s, v, b))
    && (forall h, a, c, i :: 0 <= i < |a| && Below(cap, m.fold(h, a, c)) ==> Below(cap, a[i]))
    && (forall s, v, a, i :: 0 <= i < |a| && Below(cap, m.containerCost(s, v, a)) ==> Below(cap, a[i]))
  }

  // ---------------------------------------------------------------- one relaxation and the costs it changes

  /** Lowering or adding one cost lowers a node's cost, or leaves both its cost and its rank alone. */
  lemma {:induction false} NodeAfterUpdate(m: CostModel, cap: Cap, st: State, id: ClassId, c: nat, k: nat, node: Node)
    requires Monotone(m) && StrictBelow(m, cap)
    requires id in st.costs ==> c < st.costs[id]
    requires NodeCost(m, st.costs, node).Some?
    ensures
      var before, after := NodeCost(m, st.costs, node), NodeCost(m, st.costs[id := c], node);
      && after.Some? && after.value <= before.value
      && (Below(cap, before.value) ==>
            after.value < before.value || NodeRank(st.ranks[id := k], node) == NodeRank(st.ranks, node))
    decreases node, 1
  {
    match node
    case Base(_, _) =>
    case Class(_) =>
    case Container(sort, _, value, elems) =>
      NodesAfterUpdate(m, cap, st, id, c, k, elems);
      var a, b := NodeCosts(m, st.costs[id := c], elems).value, NodeCosts(m, st.costs, elems).value;
      assert m.containerCost(sort, value, a) <= m.containerCost(sort, value, b);
      if Below(cap, m.containerCost(sort, value, b)) {
        assert forall i :: 0 <= i < |b| ==> Below(cap, b[i]);
      }
  }

  lemma {:induction false} NodesAfterUpdate(m: CostModel, cap: Cap, st: State, id: ClassId, c: nat, k: nat,
                                            nodes: seq<Node>)
    requires Monotone(m) && StrictBelow(m, cap)
    requires id in st.costs ==> c < st.costs[id]
    requires NodeCosts(m, st.costs, nodes).Some?
    ensures
      var before, after := NodeCosts(m, st.costs, nodes), NodeCosts(m, st.costs[id := c], nodes);
      && after.Some? && PointwiseLe(after.value, before.value)
      && ((forall i :: 0 <= i < |before.value| ==> Below(cap, before.value[i])) ==>
            after.value != before.value || NodesRank(st.ranks[id := k], nodes) == NodesRank(st.ranks, nodes))
    decreases nodes, 0
  {
    hide Monotone, StrictBelow;
    if nodes != [] {
      NodeAfterUpdate(m, cap, st, id, c, k, nodes[0]);
      NodesAfterUpdate(m, cap, st, id, c, k, nodes[1..]);
      var b, b0, bs := NodeCosts(m, st.costs, nodes).value, NodeCost(m, st.costs, nodes[0]).value,
        NodeCosts(m, st.costs, nodes[1..]).value;
      var a, a0, as0 := NodeCosts(m, st.costs[id := c], nodes).value, NodeCost(m, st.costs[id := c], nodes[0]).value,
        NodeCosts(m, st.costs[id := c], nodes[1..]).value;
      assert b == [b0] + bs && a == [a0] + as0;
      assert b[0] == b0 && b[1..] == bs && a[0] == a0 && a[1..] == as0;
      assert forall i :: 0 <= i < |bs| ==> b[i + 1] == bs[i];
    }
  }

  lemma {:induction false} RanksDefined(m: CostModel, st: State, nodes: seq<Node>)
    requires st.ranks.Keys == st.costs.Keys
    requires forall id :: id in st.ranks ==> st.ranks[id] <= st.count
    requires NodeCosts(m, st.costs, nodes).Some?
    ensures NodesRank(st.ranks, nodes).Some? && NodesRank(st.ranks, nodes).value <= st.count
  {
    if nodes != [] {
      RanksDefined(m, st, nodes[1..]);
      if nodes[0].Container? {
        RanksDefined(m, st, nodes[0].elems);
      }
    }
  }

  // ---------------------------------------------------------------- what every state of the relaxation keeps

  /** `row` explains the recorded cost of its target. */
  ghost predicate Explains(m: CostModel, cap: Cap, row: Row, st: State)
    requires row.target in st.costs && row.target in st.ranks
  {
    var c := RowCost(m, st.costs, row);
    var k := NodesRank(st.ranks, row.children);
    && !row.subsumed && c.Some? && c.value <= st.costs[row.target]
    && (Below(cap, st.costs[row.target]) ==>
          c.value < st.costs[row.target] || (k.Some? && k.value < st.ranks[row.target]))
  }

  ghost predicate Inv(m: CostModel, cap: Cap, rows: seq<Row>, st: State)
  {
    && st.ranks.Keys == st.costs.Keys
    && (forall id :: id in st.ranks ==> st.ranks[id] <= st.count)
    && (forall id :: id in st.costs ==> exists row :: row in rows && row.target == id && Explains(m, cap, row, st))
  }

  lemma {:induction false} ExplainsAfterRelax(m: CostModel, cap: Cap, st: State, row: Row, old': Row)
    requires Monotone(m) && StrictBelow(m, cap) && st.ranks.Keys == st.costs.Keys
    requires Relax(m, row, st) != st
    requires old'.target in st.costs && old'.target != row.target && Explains(m, cap, old', st)
    ensures Explains(m, cap, old', Relax(m, row, st))
  {
    var c := RowCost(m, st.costs, row).value;
    NodesAfterUpdate(m, cap, st, row.target, c, st.count + 1, old'.children);
    var a, b := NodeCosts(m, st.costs[row.target := c], old'.children).value,
      NodeCosts(m, st.costs, old'.children).value;
    assert m.fold(old'.head, a, old'.headCost) <= m.fold(old'.head, b, old'.headCost);
    if Below(cap, st.costs[old'.target]) {
      assert Below(cap, m.fold(old'.head, b, old'.headCost));
      assert forall i :: 0 <= i < |b| ==> Below(cap, b[i]);
    }
  }

  lemma {:induction false} ExplainsRelaxed(m: CostModel, cap: Cap, st: State, row: Row)
    requires Monotone(m) && StrictBelow(m, cap) && st.ranks.Keys == st.costs.Keys
    requires forall id :: id in st.ranks ==> st.ranks[id] <= st.count
    requires Relax(m, row, st) != st
    ensures Explains(m, cap, row, Relax(m, row, st))
  {
    var c := RowCost(m, st.costs, row).value;
    RanksDefined(m, st, row.children);
    NodesAfterUpdate(m, cap, st, row.target, c, st.count + 1, row.children);
    var a, b := NodeCosts(m, st.costs[row.target := c], row.children).value, NodeCosts(m, st.costs, row.children).value;
    assert m.fold(row.head, a, row.headCost) <= m.fold(row.head, b, row.headCost);
    if Below(cap, c) {
      assert forall i :: 0 <= i < |b| ==> Below(cap, b[i]);
    }
  }

  lemma {:induction false} RelaxInv(m: CostModel, cap: Cap, rows: seq<Row>, st: State, row: Row)
    requires Monotone(m) && StrictBelow(m, cap)
    requires Inv(m, cap, rows, st) && row in rows
    ensures Inv(m, cap, rows, Relax(m, row, st))
  {
    var next := Relax(m, row, st);
    if next != st {
      forall id | id in next.costs
        ensures exists r :: r in rows && r.target == id && Explains(m, cap, r, next)
      {
        if id == row.target {
          ExplainsRelaxed(m, cap, st, row);
        } else {
          var r :| r in rows && r.target == id && Explains(m, cap, r, st);
          ExplainsAfterRelax(m, cap, st, row, r);
        }
      }
    }
  }

  lemma {:induction false} PassInv(m: CostModel, cap: Cap, all: seq<Row>, rows: seq<Row>, st: State)
    requires Monotone(m) && StrictBelow(m, cap)
    requires Inv(m, cap, all, st) && forall r :: r in rows ==> r in all
    ensures Inv(m, cap, all, Pass(m, rows, st))
  {
    if rows != [] {
      RelaxInv(m, cap, all, st, rows[0]);
      PassInv(m, cap, all, rows[1..], Relax(m, rows[0], st));
    }
  }

  lemma {:induction false} RunInv(m: CostModel, cap: Cap, rows: seq<Row>, st: State)
    requires Monotone(m) && StrictBelow(m, cap)
    requires Inv(m, cap, rows, st)
    ensures Inv(m, cap, rows, Run(m, rows, st))
    decreases Missing(rows, st.costs), Total(rows, st.costs)
  {
    var next := Pass(m, rows, st);
    PassInv(m, cap, rows, rows, st);
    if next != st {
      PassDecreases(m, rows, rows, st);
      RunInv(m, cap, rows, next);
    }
  }

  // ---------------------------------------------------------------- the fixpoint

  ghost predicate Fixpoint(m: CostModel, rows: seq<Row>, st: State)
  {
    forall row :: row in rows ==> Relax(m, row, st) == st
  }

  lemma {:induction false} StablePass(m: CostModel, rows: seq<Row>, st: State)
    requires Pass(m, rows, st) == st
    ensures Fixpoint(m, rows, st)
  {
    if rows != [] {
      var next := Relax(m, rows[0], st);
      RelaxDecreases(m, rows, rows[0], st);
      PassDecreases(m, rows[1..], rows[1..], next);
      StablePass(m, rows[1..], st);
    }
  }

  lemma {:induction false} RunFixpoint(m: CostModel, rows: seq<Row>, st: State)
    ensures Fixpoint(m, rows, Run(m, rows, st))
    decreases Missing(rows, st.costs), Total(rows, st.costs)
  {
    var next := Pass(m, rows, st);
    if next == st {
      StablePass(m, rows, st);
    } else {
      PassDecreases(m, rows, rows, st);
      RunFixpoint(m, rows, next);
    }
  }

  // ---------------------------------------------------------------- parent edges

  /** The test a row must pass to be saved as a parent edge. */
  predicate IsParentEdge(m: CostModel, st: State, row: Row)
  {
    && !row.subsumed && row.target in st.costs && row.target in st.ranks
    && RowCost(m, st.costs, row) == Some(st.costs[row.target])
    && var k := NodesRank(st.ranks, row.children);
       k.Some? && k.value < st.ranks[row.target]
  }

  /** The first such row for each class. */
  function ParentEdges(m: CostModel, rows: seq<Row>, st: State): map<ClassId, Row>
  {
    if rows == [] then map[]
    else
      var rest := ParentEdges(m, rows[..|rows| - 1], st);
      var row := rows[|rows| - 1];
      if IsParentEdge(m, st, row) && row.target !in rest then rest[row.target := row] else rest
  }

  lemma {:induction false} ParentEdgesSound(m: CostModel, rows: seq<Row>, st: State)
    ensures forall id :: id in ParentEdges(m, rows, st) ==>
              var row := ParentEdges(m, rows, st)[id];
              row in rows && row.target == id && IsParentEdge(m, st, row)
    ensures forall row :: row in rows && IsParentEdge(m, st, row) ==> row.target in ParentEdges(m, rows, st)
  {
    if rows != [] {
      ParentEdgesSound(m, rows[..|rows| - 1], st);
      forall row | row in rows && IsParentEdge(m, st, row)
        ensures row.target in ParentEdges(m, rows, st)
      {
        if row != rows[|rows| - 1] {
          assert row in rows[..|rows| - 1];
        }
      }
    }
  }

  /** Acyclic parent edges: every class whose cost stayed below the cap has one. */
  lemma {:induction false} ParentEdgeExists(m: CostModel, cap: Cap, rows: seq<Row>, id: ClassId)
    requires Monotone(m) && StrictBelow(m, cap)
    requires
      var st := Run(m, rows, INITIAL);
      id in st.costs && Below(cap, st.costs[id])
    ensures id in ParentEdges(m, rows, Run(m, rows, INITIAL))
  {
    hide Monotone, StrictBelow, Run, Relax, Explains, IsParentEdge;
    var st := Run(m, rows, INITIAL);
    RunInv(m, cap, rows, INITIAL);
    RunFixpoint(m, rows, INITIAL);
    var row :| row in rows && row.target == id && Explains(m, cap, row, st);
    assert Relax(m, row, st) == st;
    ExplainedIsEdge(m, cap, row, st);
    ParentEdgesSound(m, rows, st);
  }

  /** A row that explains a cost and cannot lower it passes the test. */
  lemma {:induction false} ExplainedIsEdge(m: CostModel, cap: Cap, row: Row, st: State)
    requires row.target in st.costs && row.target in st.ranks && Explains(m, cap, row, st)
    requires Below(cap, st.costs[row.target]) && Relax(m, row, st) == st
    ensures IsParentEdge(m, st, row)
  {
  }
}
