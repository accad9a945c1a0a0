/** Which expressions stand for a value of the e-graph, and at what cost (src/extract.rs), told on expressions alone. */
module Representation {
  import opened Ast
  import opened Extract

  /**
   The expression represents the node and costs so much: a base value is the literal of its sort and text, a class is a
   call of the head of a row of the class that is not subsumed, and a container is a call of its constructor.
   */
  ghost predicate Represents(m: CostModel, rows: seq<Row>, e: Expr, node: Node, cost: nat)
    decreases e, 1
  {
    match node
    case Base(sort, text) => e == ELit(Lit(sort, text)) && cost == m.baseCost(sort, text)
    case Class(id) => e.ECall? && exists row: Row, cs: seq<nat> ::
      RepresentsRow(m, rows, e, row, cs) && row.target == id && cost == m.fold(row.head, cs, row.headCost)
    case Container(sort, ctor, value, elems) => e.ECall? && e.head == ctor && exists cs: seq<nat> ::
      RepresentAll(m, rows, e.args, elems, cs) && cost == m.containerCost(sort, value, cs)
  }

  /** The expression calls the head of the row, over expressions for its children. */
  ghost predicate RepresentsRow(m: CostModel, rows: seq<Row>, e: Expr, row: Row, cs: seq<nat>)
    requires e.ECall?
    decreases e, 0
  {
    row in rows && !row.subsumed && e.head == row.head && RepresentAll(m, rows, e.args, row.children, cs)
  }

  ghost predicate RepresentAll(m: CostModel, rows: seq<Row>, es: seq<Expr>, nodes: seq<Node>, cs: seq<nat>)
    decreases es, 0
  {
    |es| == |nodes| == |cs| && forall k :: 0 <= k < |es| ==> Represents(m, rows, es[k], nodes[k], cs[k])
  }
}
