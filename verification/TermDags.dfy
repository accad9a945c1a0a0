/** The hash-consing arena of terms (src/termdag.rs) and its conversions from and to expressions. */
module TermDags {
  import opened Ast

  type TermId = nat

  datatype Term = TLit(lit: Literal) | TVar(name: string) | TApp(head: string, args: seq<TermId>)

  /** Children come before their parents. */
  ghost predicate Ordered(nodes: seq<Term>)
  {
    forall i, k :: 0 <= i < |nodes| && nodes[i].TApp? && 0 <= k < |nodes[i].args| ==> nodes[i].args[k] < i
  }

  ghost predicate Distinct(nodes: seq<Term>)
  {
    forall i, j :: 0 <= i < j < |nodes| ==> nodes[i] != nodes[j]
  }

  ghost predicate AllBelow(ids: seq<TermId>, bound: nat)
  {
    forall k :: 0 <= k < |ids| ==> ids[k] < bound
  }

  /** The expression a term id stands for. */
  function TermToExpr(nodes: seq<Term>, id: TermId): Expr
    requires Ordered(nodes) && id < |nodes|
    decreases id, 1, 0
  {
    match nodes[id]
    case TLit(lit) => ELit(lit)
    case TVar(name) => EVar(name)
    case TApp(head, args) => ECall(head, TermsToExprs(nodes, args, id))
  }

  function TermsToExprs(nodes: seq<Term>, ids: seq<TermId>, bound: nat): (es: seq<Expr>)
    requires Ordered(nodes) && AllBelow(ids, bound) && bound <= |nodes|
    ensures |es| == |ids|
    ensures forall k :: 0 <= k < |ids| ==> es[k] == TermToExpr(nodes, ids[k])
    decreases bound, 0, |ids|
  {
    if ids == [] then [] else [TermToExpr(nodes, ids[0])] + TermsToExprs(nodes, ids[1..], bound)
  }

  /** Adding nodes leaves the meaning of the old ids alone. */
  lemma {:induction false} Extend(a: seq<Term>, b: seq<Term>, id: TermId)
    requires Ordered(a) && Ordered(b) && a <= b && id < |a|
    ensures TermToExpr(b, id) == TermToExpr(a, id)
    decreases id
  {
    if a[id].TApp? {
      var args := a[id].args;
      forall k | 0 <= k < |args|
        ensures TermsToExprs(a, args, id)[k] == TermsToExprs(b, args, id)[k]
      {
        Extend(a, b, args[k]);
      }
      assert TermsToExprs(a, args, id) == TermsToExprs(b, args, id);
    }
  }

  /** Hash-consing: two ids stand for one expression only if they are one id. */
  lemma {:induction false} IdsAreTerms(nodes: seq<Term>, a: TermId, b: TermId)
    requires Ordered(nodes) && Distinct(nodes) && a < |nodes| && b < |nodes|
    ensures a == b <==> TermToExpr(nodes, a) == TermToExpr(nodes, b)
    decreases a
  {
    if TermToExpr(nodes, a) == TermToExpr(nodes, b) && nodes[a].TApp? {
      var x, y := nodes[a].args, nodes[b].args;
      forall k | 0 <= k < |x|
        ensures x[k] == y[k]
      {
        assert TermsToExprs(nodes, x, a)[k] == TermsToExprs(nodes, y, b)[k];
        IdsAreTerms(nodes, x[k], y[k]);
      }
      assert x == y;
    }
  }

  class TermDag {
    var nodes: seq<Term>

    ghost predicate Valid()
      reads this
    {
      Ordered(nodes) && Distinct(nodes)
    }

    constructor ()
      ensures Valid() && nodes == []
    {
      nodes := [];
    }

    method AddNode(node: Term) returns (id: TermId)
      requires Valid() && (node.TApp? ==> AllBelow(node.args, |nodes|))
      modifies this
      ensures Valid() && old(nodes) <= nodes && id < |nodes| && nodes[id] == node
      ensures nodes == if node in old(nodes) then old(nodes) else old(nodes) + [node]
    {
      if node in nodes {
        id :| id < |nodes| && nodes[id] == node;
      } else {
        id := |nodes|;
        nodes := nodes + [node];
      }
    }

    /** Inserting an expression and reading it back gives the expression. */
    method ExprToTerm(expr: Expr) returns (id: TermId)
      requires Valid()
      modifies this
      ensures Valid() && old(nodes) <= nodes && id < |nodes|
      ensures TermToExpr(nodes, id) == expr
      decreases expr
    {
      match expr
      case ELit(lit) => id := AddNode(TLit(lit));
      case EVar(name) => id := AddNode(TVar(name));
      case ECall(head, args) =>
        var ids: seq<TermId> := [];
        for i := 0 to |args|
          invariant Valid() && old(nodes) <= nodes
          invariant |ids| == i && AllBelow(ids, |nodes|)
          invariant forall k :: 0 <= k < i ==> TermToExpr(nodes, ids[k]) == args[k]
        {
          ghost var before := nodes;
          var child := ExprToTerm(args[i]);
          forall k | 0 <= k < i ensures TermToExpr(nodes, ids[k]) == args[k] {
            Extend(before, nodes, ids[k]);
          }
          ids := ids + [child];
        }
        ghost var before := nodes;
        id := AddNode(TApp(head, ids));
        forall k | 0 <= k < |args| ensures TermsToExprs(nodes, ids, id)[k] == args[k] {
          Extend(before, nodes, ids[k]);
        }
        assert TermsToExprs(nodes, ids, id) == args;
    }
  }
}
