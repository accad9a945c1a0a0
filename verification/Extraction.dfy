/**
 Optimality and acyclicity of extraction (src/extract.rs): the recorded costs are the least costs of
 finite terms, and following the parent edges rebuilds a term of exactly that cost.
 */
module Extraction {
  import opened Ast
  import opened Extract
  import opened Options
  import opened Representation
  import opened TermDags

  /** A finite way to build a value from the rows. */
  datatype Deriv =
    | DBase(sort: string, text: string)
    | DRow(row: Row, subs: seq<Deriv>)
    | DBox(sort: string, ctor: string, value: int, subs: seq<Deriv>)

  ghost predicate Derives(rows: seq<Row>, d: Deriv, node: Node)
    decreases d, 1
  {
    match (d, node)
    case (DBase(s, t), Base(sort, text)) => s == sort && t == text
    case (DRow(row, subs), Class(id)) =>
      row in rows && !row.subsumed && row.target == id && DerivesAll(rows, subs, row.children)
    case (DBox(s, c, v, subs), Container(sort, ctor, value, elems)) =>
      s == sort && c == ctor && v == value && DerivesAll(rows, subs, elems)
    case _ => false
  }

  ghost predicate DerivesAll(rows: seq<Row>, ds: seq<Deriv>, nodes: seq<Node>)
    decreases ds, 0
  {
    |ds| == |nodes| && (ds != [] ==> Derives(rows, ds[0], nodes[0]) && DerivesAll(rows, ds[1..], nodes[1..]))
  }

  function DerivCost(m: CostModel, d: Deriv): nat
    decreases d, 1
  {
    match d
    case DBase(sort, text) => m.baseCost(sort, text)
    case DRow(row, subs) => m.fold(row.head, DerivCosts(m, subs), row.headCost)
    case DBox(sort, _, value, subs) => m.containerCost(sort, value, DerivCosts(m, subs))
  }

  function DerivCosts(m: CostModel, ds: seq<Deriv>): (cs: seq<nat>)
    ensures |cs| == |ds|
    decreases ds, 0
  {
    if ds == [] then [] else [DerivCost(m, ds[0])] + DerivCosts(m, ds[1..])
  }

  /** The term a derivation builds. */
  function Erase(d: Deriv): Expr
    decreases d, 1
  {
    match d
    case DBase(sort, text) => ELit(Lit(sort, text))
    case DRow(row, subs) => ECall(row.head, EraseAll(subs))
    case DBox(_, ctor, _, subs) => ECall(ctor, EraseAll(subs))
  }

  function EraseAll(ds: seq<Deriv>): (es: seq<Expr>)
    ensures |es| == |ds| && forall k :: 0 <= k < |ds| ==> es[k] == Erase(ds[k])
    decreases ds, 0
  {
    if ds == [] then [] else [Erase(ds[0])] + EraseAll(ds[1..])
  }

  // ---------------------------------------------------------------- derivations and the expressions they build

  /** What a derivation builds represents the node, at the cost of the derivation. */
  lemma {:induction false} DerivRepresents(m: CostModel, rows: seq<Row>, d: Deriv, node: Node)
    requires Derives(rows, d, node)
    ensures Represents(m, rows, Erase(d), node, DerivCost(m, d))
    decreases d, 1
  {
    match d
    case DBase(_, _) =>
    case DRow(row, subs) =>
      DerivsRepresent(m, rows, subs, row.children);
      assert RepresentsRow(m, rows, Erase(d), row, DerivCosts(m, subs));
    case DBox(_, _, _, subs) =>
      DerivsRepresent(m, rows, subs, node.elems);
  }

  lemma {:induction false} DerivsRepresent(m: CostModel, rows: seq<Row>, ds: seq<Deriv>, nodes: seq<Node>)
    requires DerivesAll(rows, ds, nodes)
    ensures RepresentAll(m, rows, EraseAll(ds), nodes, DerivCosts(m, ds))
    decreases ds, 0
  {
    if ds != [] {
      hide Represents, Derives, Erase;
      DerivRepresents(m, rows, ds[0], nodes[0]);
      DerivsRepresent(m, rows, ds[1..], nodes[1..]);
      var es, cs := EraseAll(ds), DerivCosts(m, ds);
      forall k | 0 <= k < |es| ensures Represents(m, rows, es[k], nodes[k], cs[k]) {
        if k > 0 {
          assert es[k] == EraseAll(ds[1..])[k - 1] && cs[k] == DerivCosts(m, ds[1..])[k - 1];
          assert nodes[k] == nodes[1..][k - 1];
        }
      }
    }
  }

  /** An expression that represents a node is built by a derivation of that cost. */
  lemma {:induction false} DerivFor(m: CostModel, rows: seq<Row>, e: Expr, node: Node, cost: nat) returns (d: Deriv)
    requires Represents(m, rows, e, node, cost)
    ensures Derives(rows, d, node) && Erase(d) == e && DerivCost(m, d) == cost
    decreases e, 1
  {
    match node
    case Base(sort, text) =>
      d := DBase(sort, text);
    case Class(id) =>
      var row: Row, cs: seq<nat> :|
        RepresentsRow(m, rows, e, row, cs) && row.target == id && cost == m.fold(row.head, cs, row.headCost);
      var subs := DerivsFor(m, rows, e.args, row.children, cs);
      d := DRow(row, subs);
    case Container(sort, ctor, value, elems) =>
      var cs :| RepresentAll(m, rows, e.args, elems, cs) && cost == m.containerCost(sort, value, cs);
      var subs := DerivsFor(m, rows, e.args, elems, cs);
      d := DBox(sort, ctor, value, subs);
  }

  lemma {:induction false} DerivsFor(m: CostModel, rows: seq<Row>, es: seq<Expr>, nodes: seq<Node>, cs: seq<nat>)
    returns (ds: seq<Deriv>)
    requires RepresentAll(m, rows, es, nodes, cs)
    ensures DerivesAll(rows, ds, nodes) && EraseAll(ds) == es && DerivCosts(m, ds) == cs
    decreases es, 0
  {
    if es == [] {
      ds := [];
    } else {
      hide Represents, Derives, Erase, DerivCost;
      assert RepresentAll(m, rows, es[1..], nodes[1..], cs[1..]);
      var d := DerivFor(m, rows, es[0], nodes[0], cs[0]);
      var rest := DerivsFor(m, rows, es[1..], nodes[1..], cs[1..]);
      ds := [d] + rest;
      assert ds[1..] == rest;
    }
  }

  /** An expression of least cost. */
  ghost predicate Cheapest(m: CostModel, rows: seq<Row>, e: Expr, node: Node, cost: nat)
  {
    Represents(m, rows, e, node, cost) && forall f, c :: Represents(m, rows, f, node, c) ==> cost <= c
  }

  ghost predicate HasExpr(m: CostModel, rows: seq<Row>, node: Node) { exists e, c :: Represents(m, rows, e, node, c) }

  ghost predicate HasDeriv(rows: seq<Row>, node: Node) { exists d :: Derives(rows, d, node) }

  /** A node has an expression exactly if it has a derivation. */
  lemma {:induction false} ExprsAndDerivs(m: CostModel, rows: seq<Row>, node: Node)
    ensures HasExpr(m, rows, node) <==> HasDeriv(rows, node)
  {
    if HasDeriv(rows, node) {
      var d :| Derives(rows, d, node);
      DerivRepresents(m, rows, d, node);
    }
    if HasExpr(m, rows, node) {
      var e, c :| Represents(m, rows, e, node, c);
      var d := DerivFor(m, rows, e, node, c);
    }
  }

  /** The least cost of a derivation is the least cost of an expression. */
  lemma {:induction false} LeastIsCheapest(m: CostModel, rows: seq<Row>, node: Node, d: Deriv)
    requires IsLeastCost(m, rows, node, DerivCost(m, d)) && Derives(rows, d, node)
    ensures Cheapest(m, rows, Erase(d), node, DerivCost(m, d))
  {
    hide Represents, Derives, DerivCost, Erase;
    DerivRepresents(m, rows, d, node);
    forall f, c | Represents(m, rows, f, node, c) ensures DerivCost(m, d) <= c {
      var other := DerivFor(m, rows, f, node, c);
    }
  }

  // ---------------------------------------------------------------- optimality of the recorded costs

  lemma {:induction false} NoDerivIsCheaper(m: CostModel, rows: seq<Row>, st: State, d: Deriv, node: Node)
    requires Monotone(m) && Fixpoint(m, rows, st) && Derives(rows, d, node)
    ensures NodeCost(m, st.costs, node).Some? && NodeCost(m, st.costs, node).value <= DerivCost(m, d)
    decreases d, 1
  {
    match d
    case DBase(_, _) =>
    case DRow(row, subs) =>
      NoDerivsAreCheaper(m, rows, st, subs, row.children);
      var cs := NodeCosts(m, st.costs, row.children).value;
      assert m.fold(row.head, cs, row.headCost) <= m.fold(row.head, DerivCosts(m, subs), row.headCost);
      assert Relax(m, row, st) == st;
    case DBox(sort, _, value, subs) =>
      NoDerivsAreCheaper(m, rows, st, subs, node.elems);
      var cs := NodeCosts(m, st.costs, node.elems).value;
      assert m.containerCost(sort, value, cs) <= m.containerCost(sort, value, DerivCosts(m, subs));
  }

  lemma {:induction false} NoDerivsAreCheaper(m: CostModel, rows: seq<Row>, st: State, ds: seq<Deriv>, nodes: seq<Node>)
    requires Monotone(m) && Fixpoint(m, rows, st) && DerivesAll(rows, ds, nodes)
    ensures NodeCosts(m, st.costs, nodes).Some? && PointwiseLe(NodeCosts(m, st.costs, nodes).value, DerivCosts(m, ds))
    decreases ds, 0
  {
    if ds != [] {
      NoDerivIsCheaper(m, rows, st, ds[0], nodes[0]);
      NoDerivsAreCheaper(m, rows, st, ds[1..], nodes[1..]);
    }
  }

  /** Every recorded cost is paid for by some derivation. */
  ghost predicate Paid(m: CostModel, rows: seq<Row>, costs: Costs)
  {
    forall id :: id in costs ==> exists d :: Derives(rows, d, Class(id)) && DerivCost(m, d) <= costs[id]
  }

  lemma {:induction false} DerivOf(m: CostModel, rows: seq<Row>, costs: Costs, node: Node) returns (d: Deriv)
    requires Monotone(m) && Paid(m, rows, costs) && NodeCost(m, costs, node).Some?
    ensures Derives(rows, d, node) && DerivCost(m, d) <= NodeCost(m, costs, node).value
    decreases node, 1
  {
    match node
    case Base(sort, text) => d := DBase(sort, text);
    case Class(id) => d :| Derives(rows, d, Class(id)) && DerivCost(m, d) <= costs[id];
    case Container(sort, ctor, value, elems) =>
      var ds := DerivsOf(m, rows, costs, elems);
      d := DBox(sort, ctor, value, ds);
      assert m.containerCost(sort, value, DerivCosts(m, ds)) <=
             m.containerCost(sort, value, NodeCosts(m, costs, elems).value);
  }

  lemma {:induction false} DerivsOf(m: CostModel, rows: seq<Row>, costs: Costs,
                                    nodes: seq<Node>) returns (ds: seq<Deriv>)
    requires Monotone(m) && Paid(m, rows, costs) && NodeCosts(m, costs, nodes).Some?
    ensures DerivesAll(rows, ds, nodes) && PointwiseLe(DerivCosts(m, ds), NodeCosts(m, costs, nodes).value)
    decreases nodes, 0
  {
    if nodes == [] {
      ds := [];
    } else {
      var d := DerivOf(m, rows, costs, nodes[0]);
      var rest := DerivsOf(m, rows, costs, nodes[1..]);
      ds := [d] + rest;
      assert ds[1..] == rest;
    }
  }

  lemma {:induction false} PaidAfterPass(m: CostModel, all: seq<Row>, rows: seq<Row>, st: State)
    requires Monotone(m) && Paid(m, all, st.costs) && forall r :: r in rows ==> r in all
    ensures Paid(m, all, Pass(m, rows, st).costs)
  {
    if rows != [] {
      var row, next := rows[0], Relax(m, rows[0], st);
      if next != st {
        var ds := DerivsOf(m, all, st.costs, row.children);
        var d := DRow(row, ds);
        assert m.fold(row.head, DerivCosts(m, ds), row.headCost) <=
               m.fold(row.head, NodeCosts(m, st.costs, row.children).value, row.headCost);
        assert Derives(all, d, Class(row.target)) && DerivCost(m, d) <= next.costs[row.target];
      }
      PaidAfterPass(m, all, rows[1..], next);
    }
  }

  lemma {:induction false} PaidAfterRun(m: CostModel, rows: seq<Row>, st: State)
    requires Monotone(m) && Paid(m, rows, st.costs)
    ensures Paid(m, rows, Run(m, rows, st).costs)
    decreases Missing(rows, st.costs), Total(rows, st.costs)
  {
    PaidAfterPass(m, rows, rows, st);
    var next := Pass(m, rows, st);
    if next != st {
      PassDecreases(m, rows, rows, st);
      PaidAfterRun(m, rows, next);
    }
  }

  /** `c` is the least cost of a derivation of the node. */
  ghost predicate IsLeastCost(m: CostModel, rows: seq<Row>, node: Node, c: nat)
  {
    && (exists d :: Derives(rows, d, node) && DerivCost(m, d) == c)
    && (forall d :: Derives(rows, d, node) ==> c <= DerivCost(m, d))
  }

  /** The relaxation computes least costs, and a node has no cost only if no finite term builds it. */
  lemma {:induction false} CostsAreOptimal(m: CostModel, rows: seq<Row>, node: Node)
    requires Monotone(m)
    ensures
      match NodeCost(m, Run(m, rows, INITIAL).costs, node)
      case Some(c) => IsLeastCost(m, rows, node, c)
      case None => !exists d :: Derives(rows, d, node)
  {
    var st := Run(m, rows, INITIAL);
    RunFixpoint(m, rows, INITIAL);
    PaidAfterRun(m, rows, INITIAL);
    forall d | Derives(rows, d, node)
      ensures NodeCost(m, st.costs, node).Some? && NodeCost(m, st.costs, node).value <= DerivCost(m, d)
    {
      NoDerivIsCheaper(m, rows, st, d, node);
    }
    if NodeCost(m, st.costs, node).Some? {
      var d := DerivOf(m, rows, st.costs, node);
    }
  }

  // ---------------------------------------------------------------- reconstruction

  /** The rank of a node, with zero for a class that has none. */
  function Depth(ranks: Ranks, node: Node): nat
    decreases node, 1
  {
    match node
    case Base(_, _) => 0
    case Class(id) => if id in ranks then ranks[id] else 0
    case Container(_, _, _, elems) => Depths(ranks, elems)
  }

  function Depths(ranks: Ranks, nodes: seq<Node>): (k: nat)
    ensures forall i :: 0 <= i < |nodes| ==> Depth(ranks, nodes[i]) <= k
    decreases nodes, 0
  {
    if nodes == [] then 0
    else
      var a, b := Depth(ranks, nodes[0]), Depths(ranks, nodes[1..]);
      if a < b then b else a
  }

  lemma {:induction false} DepthIsRank(ranks: Ranks, nodes: seq<Node>)
    requires NodesRank(ranks, nodes).Some?
    ensures Depths(ranks, nodes) == NodesRank(ranks, nodes).value
  {
    if nodes != [] {
      if nodes[0].Container? {
        DepthIsRank(ranks, nodes[0].elems);
      }
      DepthIsRank(ranks, nodes[1..]);
    }
  }

  /** Saved edges lead to classes of smaller rank. */
  ghost predicate Descending(ranks: Ranks, edges: map<ClassId, Row>)
  {
    forall id :: id in edges ==> id in ranks && Depths(ranks, edges[id].children) < ranks[id]
  }

  /** What the uncached recursion over the saved edges rebuilds. */
  function Rebuild(ranks: Ranks, edges: map<ClassId, Row>, node: Node): Outcome<Deriv>
    requires Descending(ranks, edges)
    decreases Depth(ranks, node), node, 0
  {
    match node
    case Base(sort, text) => Done(DBase(sort, text))
    case Class(id) =>
      if id !in edges then Panic
      else
        (match RebuildAll(ranks, edges, edges[id].children)
         case Panic => Panic
         case Done(subs) => Done(DRow(edges[id], subs)))
    case Container(sort, ctor, value, elems) =>
      match RebuildAll(ranks, edges, elems)
      case Panic => Panic
      case Done(subs) => Done(DBox(sort, ctor, value, subs))
  }

  function RebuildAll(ranks: Ranks, edges: map<ClassId, Row>, nodes: seq<Node>): (r: Outcome<seq<Deriv>>)
    requires Descending(ranks, edges)
    ensures r.Done? <==> forall i :: 0 <= i < |nodes| ==> Rebuild(ranks, edges, nodes[i]).Done?
    ensures r.Done? ==> |r.value| == |nodes| && forall i :: 0 <= i < |nodes| ==>
      Rebuild(ranks, edges, nodes[i]) == Done(r.value[i])
    decreases Depths(ranks, nodes), nodes, 1
  {
    if nodes == [] then Done([])
    else
      match (Rebuild(ranks, edges, nodes[0]), RebuildAll(ranks, edges, nodes[1..]))
      case (Done(d), Done(ds)) => Done([d] + ds)
      case _ => Panic
  }

  /** The saved edges are parent edges of the fixpoint. */
  ghost predicate Saved(m: CostModel, rows: seq<Row>, st: State, edges: map<ClassId, Row>)
  {
    forall id :: id in edges ==> edges[id] in rows && edges[id].target == id && IsParentEdge(m, st, edges[id])
  }

  lemma {:induction false} SavedDescends(m: CostModel, rows: seq<Row>, st: State, edges: map<ClassId, Row>)
    requires Saved(m, rows, st, edges)
    ensures Descending(st.ranks, edges)
  {
    forall id | id in edges
      ensures id in st.ranks && Depths(st.ranks, edges[id].children) < st.ranks[id]
    {
      DepthIsRank(st.ranks, edges[id].children);
    }
  }

  /** A rebuilt term belongs to the node and costs exactly what was recorded. */
  lemma {:induction false} RebuiltIsExact(m: CostModel, rows: seq<Row>, st: State, edges: map<ClassId, Row>, node: Node)
    requires Saved(m, rows, st, edges) && Descending(st.ranks, edges)
    requires Rebuild(st.ranks, edges, node).Done?
    ensures Derives(rows, Rebuild(st.ranks, edges, node).value, node)
    ensures NodeCost(m, st.costs, node) == Some(DerivCost(m, Rebuild(st.ranks, edges, node).value))
    decreases Depth(st.ranks, node), node, 0
  {
    match node
    case Base(_, _) =>
    case Class(id) => RebuiltAreExact(m, rows, st, edges, edges[id].children);
    case Container(_, _, _, elems) => RebuiltAreExact(m, rows, st, edges, elems);
  }

  lemma {:induction false} RebuiltAreExact(m: CostModel, rows: seq<Row>, st: State, edges: map<ClassId, Row>,
                                           nodes: seq<Node>)
    requires Saved(m, rows, st, edges) && Descending(st.ranks, edges)
    requires RebuildAll(st.ranks, edges, nodes).Done?
    ensures DerivesAll(rows, RebuildAll(st.ranks, edges, nodes).value, nodes)
    ensures NodeCosts(m, st.costs, nodes) == Some(DerivCosts(m, RebuildAll(st.ranks, edges, nodes).value))
    decreases Depths(st.ranks, nodes), nodes, 1
  {
    if nodes != [] {
      RebuiltIsExact(m, rows, st, edges, nodes[0]);
      RebuiltAreExact(m, rows, st, edges, nodes[1..]);
    }
  }

  /** Below the cap, reconstruction never meets a class without a parent edge. */
  lemma {:induction false} RebuildSucceeds(m: CostModel, cap: Cap, rows: seq<Row>, node: Node)
    requires Monotone(m) && StrictBelow(m, cap)
    requires
      var st := Run(m, rows, INITIAL);
      && Descending(st.ranks, ParentEdges(m, rows, st))
      && NodeCost(m, st.costs, node).Some? && Below(cap, NodeCost(m, st.costs, node).value)
    ensures
      var st := Run(m, rows, INITIAL);
      Rebuild(st.ranks, ParentEdges(m, rows, st), node).Done?
    decreases Depth(Run(m, rows, INITIAL).ranks, node), node, 0
  {
    var st := Run(m, rows, INITIAL);
    var edges := ParentEdges(m, rows, st);
    match node
    case Base(_, _) =>
    case Class(id) =>
      ParentEdgeExists(m, cap, rows, id);
      ParentEdgesSound(m, rows, st);
      var cs := NodeCosts(m, st.costs, edges[id].children).value;
      assert m.fold(edges[id].head, cs, edges[id].headCost) == st.costs[id];
      RebuildAllSucceeds(m, cap, rows, edges[id].children);
    case Container(sort, _, value, elems) =>
      var cs := NodeCosts(m, st.costs, elems).value;
      assert NodeCost(m, st.costs, node).value == m.containerCost(sort, value, cs);
      RebuildAllSucceeds(m, cap, rows, elems);
  }

  lemma {:induction false} RebuildAllSucceeds(m: CostModel, cap: Cap, rows: seq<Row>, nodes: seq<Node>)
    requires Monotone(m) && StrictBelow(m, cap)
    requires
      var st := Run(m, rows, INITIAL);
      && Descending(st.ranks, ParentEdges(m, rows, st))
      && NodeCosts(m, st.costs, nodes).Some?
      && forall i :: 0 <= i < |nodes| ==> Below(cap, NodeCosts(m, st.costs, nodes).value[i])
    ensures
      var st := Run(m, rows, INITIAL);
      RebuildAll(st.ranks, ParentEdges(m, rows, st), nodes).Done?
    decreases Depths(Run(m, rows, INITIAL).ranks, nodes), nodes, 1
  {
    if nodes != [] {
      var st := Run(m, rows, INITIAL);
      var cs, rest := NodeCosts(m, st.costs, nodes).value, NodeCosts(m, st.costs, nodes[1..]).value;
      assert cs == [NodeCost(m, st.costs, nodes[0]).value] + rest;
      assert cs[0] == NodeCost(m, st.costs, nodes[0]).value;
      assert forall i :: 0 <= i < |rest| ==> rest[i] == cs[i + 1];
      RebuildSucceeds(m, cap, rows, nodes[0]);
      RebuildAllSucceeds(m, cap, rows, nodes[1..]);
    }
  }

  /** Least cost, success below the cap, and exactness of what is rebuilt, for the state the relaxation ends in. */
  lemma {:induction false} BestTerm(m: CostModel, cap: Cap, rows: seq<Row>, node: Node)
    requires Monotone(m) && StrictBelow(m, cap)
    ensures
      var st := Run(m, rows, INITIAL);
      var edges := ParentEdges(m, rows, st);
      && Descending(st.ranks, edges)
      && match NodeCost(m, st.costs, node)
         case None => (forall d :: !Derives(rows, d, node)) && Rebuild(st.ranks, edges, node).Panic?
         case Some(c) =>
           && IsLeastCost(m, rows, node, c)
           && (Below(cap, c) ==> Rebuild(st.ranks, edges, node).Done?)
           && (Rebuild(st.ranks, edges, node).Done? ==>
                 && Derives(rows, Rebuild(st.ranks, edges, node).value, node)
                 && DerivCost(m, Rebuild(st.ranks, edges, node).value) == c)
  {
    var st := Run(m, rows, INITIAL);
    var edges := ParentEdges(m, rows, st);
    CostsAreOptimal(m, rows, node);
    ParentEdgesSound(m, rows, st);
    SavedDescends(m, rows, st, edges);
    if NodeCost(m, st.costs, node).Some? && Below(cap, NodeCost(m, st.costs, node).value) {
      RebuildSucceeds(m, cap, rows, node);
    }
    if Rebuild(st.ranks, edges, node).Done? {
      RebuiltIsExact(m, rows, st, edges, node);
    }
  }

  /** The ids stand for the terms of the derivations. */
  ghost predicate Stands(nodes: seq<Term>, ids: seq<TermId>, ds: seq<Deriv>)
    requires Ordered(nodes)
  {
    |ids| == |ds| && forall k :: 0 <= k < |ids| ==> ids[k] < |nodes| && TermToExpr(nodes, ids[k]) == Erase(ds[k])
  }

  method AddApp(dag: TermDag, head: string, ids: seq<TermId>, ghost ds: seq<Deriv>) returns (r: Outcome<TermId>)
    requires dag.Valid() && Stands(dag.nodes, ids, ds)
    modifies dag
    ensures dag.Valid() && old(dag.nodes) <= dag.nodes
    ensures r.Done? && r.value < |dag.nodes| && TermToExpr(dag.nodes, r.value) == ECall(head, EraseAll(ds))
  {
    var id := dag.AddNode(TApp(head, ids));
    forall k | 0 <= k < |ids| ensures TermsToExprs(dag.nodes, ids, id)[k] == EraseAll(ds)[k] {
      Extend(old(dag.nodes), dag.nodes, ids[k]);
    }
    assert TermsToExprs(dag.nodes, ids, id) == EraseAll(ds);
    r := Done(id);
  }

  // ---------------------------------------------------------------- the extractor object

  lemma {:induction false} PassNext(m: CostModel, rows: seq<Row>, i: nat, st: State)
    requires i < |rows|
    ensures Pass(m, rows[i..], st) == Pass(m, rows[i + 1..], Relax(m, rows[i], st))
  {
    hide Relax;
    assert rows[i..][0] == rows[i] && rows[i..][1..] == rows[i + 1..];
  }

  lemma {:induction false} RelaxIs(m: CostModel, row: Row, st: State)
    ensures row.subsumed || RowCost(m, st.costs, row).None? ==> Relax(m, row, st) == st
    ensures !row.subsumed && RowCost(m, st.costs, row).Some? ==>
      var c := RowCost(m, st.costs, row).value;
      Relax(m, row, st) ==
        if row.target !in st.costs || c < st.costs[row.target]
        then State(st.costs[row.target := c], st.ranks[row.target := st.count + 1], st.count + 1) else st
  {
    hide RowCost;
  }

  lemma {:induction false} PassEnds(m: CostModel, rows: seq<Row>, st: State)
    ensures Pass(m, rows[|rows|..], st) == st
  {
  }

  lemma {:induction false} RunNext(m: CostModel, rows: seq<Row>, st: State)
    ensures Run(m, rows, st) == if Pass(m, rows, st) == st then st else Run(m, rows, Pass(m, rows, st))
  {
    hide Pass;
  }

  lemma {:induction false} EdgesNext(m: CostModel, rows: seq<Row>, i: nat, st: State)
    requires i < |rows|
    ensures ParentEdges(m, rows[..i + 1], st) ==
      var rest := ParentEdges(m, rows[..i], st);
      if IsParentEdge(m, st, rows[i]) && rows[i].target !in rest then rest[rows[i].target := rows[i]] else rest
  {
    hide IsParentEdge;
    assert rows[..i + 1][..i] == rows[..i];
  }

  lemma {:induction false} LeastDeriv(m: CostModel, rows: seq<Row>, node: Node, cost: nat) returns (d: Deriv)
    requires IsLeastCost(m, rows, node, cost)
    ensures Derives(rows, d, node) && DerivCost(m, d) == cost
  {
    hide Derives, DerivCost;
    d :| Derives(rows, d, node) && DerivCost(m, d) == cost;
  }

  class Extractor {
    const m: CostModel
    const rows: seq<Row>
    var costs: Costs
    var topoRnkCnt: nat
    var topoRnk: Ranks
    var parentEdge: map<ClassId, Row>

    function St(): State
      reads this
    {
      State(costs, topoRnk, topoRnkCnt)
    }

    /** The relaxation has run and its edges are saved. */
    ghost predicate Computed()
      reads this
    {
      St() == Run(m, rows, INITIAL) && parentEdge == ParentEdges(m, rows, St())
    }

    constructor (m: CostModel, rows: seq<Row>)
      ensures this.m == m && this.rows == rows && Computed()
    {
      this.m := m;
      this.rows := rows;
      costs, topoRnkCnt, topoRnk, parentEdge := map[], 0, map[], map[];
      new;
      BellmanFord();
    }

    method BellmanFord()
      requires St() == INITIAL && parentEdge == map[]
      modifies this
      ensures Computed()
    {
      var ensureFixpoint := false;
      while !ensureFixpoint
        invariant parentEdge == map[]
        invariant if ensureFixpoint then St() == Run(m, rows, INITIAL) else Run(m, rows, St()) == Run(m, rows, INITIAL)
        decreases !ensureFixpoint, Missing(rows, costs), Total(rows, costs)
      {
        hide ParentEdges, Run, Pass, RowCost, Missing, Total;
        ensureFixpoint := true;
        ghost var before := St();
        assert rows[0..] == rows;
        RunNext(m, rows, before);
        for i := 0 to |rows|
          invariant parentEdge == map[]
          invariant Pass(m, rows[i..], St()) == Pass(m, rows, before)
          invariant before.count <= topoRnkCnt && (ensureFixpoint <==> topoRnkCnt == before.count)
        {
          hide Relax;
          var row := rows[i];
          PassNext(m, rows, i, St());
          RelaxIs(m, row, St());
          if !row.subsumed {
            var target := row.target;
            var updated := false;
            var newCost := RowCost(m, costs, row);
            if newCost.Some? {
              if target !in costs || newCost.value < costs[target] {
                updated := true;
                costs := costs[target := newCost.value];
              }
            }
            if updated {
              ensureFixpoint := false;
              topoRnkCnt := topoRnkCnt + 1;
              topoRnk := topoRnk[target := topoRnkCnt];
            }
          }
        }
        PassEnds(m, rows, St());
        PassDecreases(m, rows, rows, before);
      }
      SaveParentEdges();
    }

    /** The last pass over the rows, which saves the first edge to every class. */
    method SaveParentEdges()
      requires St() == Run(m, rows, INITIAL) && parentEdge == map[]
      modifies this`parentEdge
      ensures Computed()
    {
      for i := 0 to |rows|
        invariant St() == Run(m, rows, INITIAL)
        invariant parentEdge == ParentEdges(m, rows[..i], St())
      {
        hide Run, Pass, Relax, RowCost, NodesRank, ParentEdges;
        var row := rows[i];
        EdgesNext(m, rows, i, St());
        RunKeys(m, rows, INITIAL);
        if !row.subsumed {
          var target := row.target;
          if target in costs && RowCost(m, costs, row) == Some(costs[target]) {
            var targetTopoRnk := topoRnk[target];
            var childRnk := NodesRank(topoRnk, row.children);
            if childRnk.Some? && targetTopoRnk > childRnk.value {
              if target !in parentEdge {
                parentEdge := parentEdge[target := row];
              }
            }
          }
        }
      }
      assert rows[..|rows|] == rows;
    }

    /** Cached terms are the terms the uncached recursion rebuilds. */
    ghost predicate CacheOk(nodes: seq<Term>, cache: map<Node, TermId>)
      requires Ordered(nodes)
      reads this
    {
      && Descending(topoRnk, parentEdge)
      && forall node :: node in cache ==>
           && cache[node] < |nodes|
           && Rebuild(topoRnk, parentEdge, node).Done?
           && TermToExpr(nodes, cache[node]) == Erase(Rebuild(topoRnk, parentEdge, node).value)
    }

    lemma CacheExtends(a: seq<Term>, b: seq<Term>, cache: map<Node, TermId>)
      requires Ordered(a) && Ordered(b) && a <= b && CacheOk(a, cache)
      ensures CacheOk(b, cache)
    {
      forall node | node in cache ensures TermToExpr(b, cache[node]) == TermToExpr(a, cache[node]) {
        Extend(a, b, cache[node]);
      }
    }

    /** The memo cache and the sharing in the DAG do not change the rebuilt term. */
    method ReconstructHelper(dag: TermDag, node: Node, cache: map<Node, TermId>)
      returns (r: Outcome<TermId>, cache': map<Node, TermId>)
      requires dag.Valid() && CacheOk(dag.nodes, cache)
      modifies dag
      ensures dag.Valid() && old(dag.nodes) <= dag.nodes && CacheOk(dag.nodes, cache')
      ensures r.Done? <==> Rebuild(topoRnk, parentEdge, node).Done?
      ensures r.Done? ==>
        r.value < |dag.nodes| && TermToExpr(dag.nodes, r.value) == Erase(Rebuild(topoRnk, parentEdge, node).value)
      decreases Depth(topoRnk, node), node, 3
    {
      if node in cache {
        return Done(cache[node]), cache;
      }
      match node
      case Base(sort, text) =>
        var id := dag.AddNode(TLit(Lit(sort, text)));
        CacheExtends(old(dag.nodes), dag.nodes, cache);
        r, cache' := Done(id), cache[node := id];
      case Class(id) =>
        if id !in parentEdge {
          return Panic, cache;
        }
        r, cache' := ReconstructApp(dag, parentEdge[id].head, parentEdge[id].children, cache);
        if r.Done? {
          cache' := cache'[node := r.value];
        }
      case Container(sort, ctor, value, elems) =>
        r, cache' := ReconstructApp(dag, ctor, elems, cache);
        if r.Done? {
          cache' := cache'[node := r.value];
        }
    }

    method ReconstructApp(dag: TermDag, head: string, nodes: seq<Node>, cache: map<Node, TermId>)
      returns (r: Outcome<TermId>, cache': map<Node, TermId>)
      requires dag.Valid() && CacheOk(dag.nodes, cache)
      modifies dag
      ensures dag.Valid() && old(dag.nodes) <= dag.nodes && CacheOk(dag.nodes, cache')
      ensures r.Done? <==> RebuildAll(topoRnk, parentEdge, nodes).Done?
      ensures r.Done? ==> r.value < |dag.nodes|
      ensures r.Done? ==>
        TermToExpr(dag.nodes, r.value) == ECall(head, EraseAll(RebuildAll(topoRnk, parentEdge, nodes).value))
      decreases Depths(topoRnk, nodes), nodes, 2
    {
      var chTerms;
      chTerms, cache' := ReconstructAll(dag, nodes, cache);
      if chTerms.Panic? {
        return Panic, cache';
      }
      ghost var before := dag.nodes;
      r := AddApp(dag, head, chTerms.value, RebuildAll(topoRnk, parentEdge, nodes).value);
      CacheExtends(before, dag.nodes, cache');
    }

    method ReconstructAll(dag: TermDag, nodes: seq<Node>, cache: map<Node, TermId>)
      returns (r: Outcome<seq<TermId>>, cache': map<Node, TermId>)
      requires dag.Valid() && CacheOk(dag.nodes, cache)
      modifies dag
      ensures dag.Valid() && old(dag.nodes) <= dag.nodes && CacheOk(dag.nodes, cache')
      ensures r.Done? <==> RebuildAll(topoRnk, parentEdge, nodes).Done?
      ensures r.Done? ==> Stands(dag.nodes, r.value, RebuildAll(topoRnk, parentEdge, nodes).value)
      decreases Depths(topoRnk, nodes), nodes, 1
    {
      hide Erase, TermToExpr;
      cache' := cache;
      var chTerms: seq<TermId> := [];
      for i := 0 to |nodes|
        invariant dag.Valid() && old(dag.nodes) <= dag.nodes && CacheOk(dag.nodes, cache')
        invariant |chTerms| == i && AllBelow(chTerms, |dag.nodes|)
        invariant forall k :: 0 <= k < i ==> Rebuild(topoRnk, parentEdge, nodes[k]).Done?
        invariant forall k :: 0 <= k < i ==>
                    TermToExpr(dag.nodes, chTerms[k]) == Erase(Rebuild(topoRnk, parentEdge, nodes[k]).value)
      {
        ghost var before := dag.nodes;
        var child;
        child, cache' := ReconstructHelper(dag, nodes[i], cache');
        if child.Panic? {
          return Panic, cache';
        }
        forall k | 0 <= k < i ensures TermToExpr(dag.nodes, chTerms[k]) == TermToExpr(before, chTerms[k]) {
          hide TermToExpr, Distinct, Ordered;
          Extend(before, dag.nodes, chTerms[k]);
        }
        chTerms := chTerms + [child.value];
      }
      r := Done(chTerms);
    }

    /**
     `None` exactly when no expression represents the node.  Otherwise the cost is the least cost of such an expression,
     and the term that is rebuilt represents the node at that cost; with a cost below the cap rebuilding succeeds.
     */
    method ExtractBest(dag: TermDag, node: Node, ghost cap: Cap) returns (r: Outcome<Option<(nat, TermId)>>)
      requires Computed() && dag.Valid() && Monotone(m) && StrictBelow(m, cap)
      modifies dag
      ensures dag.Valid() && old(dag.nodes) <= dag.nodes
      ensures r == Done(None) <==> !HasExpr(m, rows, node)
      ensures forall cost, id :: r == Done(Some((cost, id))) ==>
                id < |dag.nodes| && Cheapest(m, rows, TermToExpr(dag.nodes, id), node, cost)
      ensures r == Panic ==> exists e, cost :: Cheapest(m, rows, e, node, cost) && !Below(cap, cost)
    {
      hide Represents, Erase, DerivCost, Derives, Cheapest;
      BestTerm(m, cap, rows, node);
      ExprsAndDerivs(m, rows, node);
      var cost := NodeCost(m, costs, node);
      if cost.None? {
        return Done(None);
      }
      ghost var d := LeastDeriv(m, rows, node, cost.value);
      LeastIsCheapest(m, rows, node, d);
      assert Derives(rows, d, node);
      var id, _ := ReconstructHelper(dag, node, map[]);
      if id.Panic? {
        return Panic;
      }
      LeastIsCheapest(m, rows, node, Rebuild(topoRnk, parentEdge, node).value);
      r := Done(Some((cost.value, id.value)));
      assert r != Done(None);
    }
  }
}
