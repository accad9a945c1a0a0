/**
 The CNOT tree of parity synthesis (src/pathsum.rs, `synthesize_steiner_logic_64`): a depth-first search from the root,
 CX gates from every vertex to its parent in post-order, the rotation, and the same gates in reverse.
 */
module CnotTree {
  import opened Gf2Rank
  import opened Options

  type Graph = seq<seq<nat>>

  predicate WellFormed(adj: Graph) { forall u, k :: 0 <= u < |adj| && 0 <= k < |adj[u]| ==> adj[u][k] < |adj| }

  ghost predicate Closed(adj: Graph, s: set<nat>)
  {
    forall u, k :: u in s && u < |adj| && 0 <= k < |adj[u]| ==> adj[u][k] in s
  }

  ghost predicate Unique(vs: seq<nat>) { forall i, j :: 0 <= i < j < |vs| ==> vs[i] != vs[j] }

  /** The vertices reachable from the root, each once. */
  ghost predicate Reachable(adj: Graph, root: nat, vs: seq<nat>)
  {
    && Unique(vs) && root in vs
    && (forall u, k :: u in vs && u < |adj| && 0 <= k < |adj[u]| ==> adj[u][k] in vs)
    && (forall s :: root in s && Closed(adj, s) ==> forall v :: v in vs ==> v in s)
  }

  // ---------------------------------------------------------------- the search

  /** Vertices found in this order: new, each once, with a parent that comes later, or `top`. */
  ghost predicate Found(adj: Graph, top: nat, vis: seq<bool>, vis': seq<bool>, par: seq<Option<nat>>,
                        par': seq<Option<nat>>, order: seq<nat>)
  {
    && |vis| == |vis'| == |par| == |par'| == |adj| && Unique(order)
    && (forall v :: v in order ==> v < |adj| && !vis[v])
    && (forall v :: 0 <= v < |adj| ==> (vis'[v] <==> vis[v] || v in order) && (v !in order ==> par'[v] == par[v]))
    && (forall k :: 0 <= k < |order| ==> HasParent(adj, par', top, order, k))
    && (forall v, k :: v in order && 0 <= k < |adj[v]| && adj[v][k] < |adj| ==> vis'[adj[v][k]])
    && (forall s :: top in s && Closed(adj, s) ==> forall v :: v in order ==> v in s)
  }

  /** The parent is the top or comes later in the order. */
  ghost predicate HasParent(adj: Graph, par: seq<Option<nat>>, top: nat, order: seq<nat>, k: nat)
    requires k < |order|
  {
    order[k] < |par| && par[order[k]].Some? && Edge(adj, par[order[k]].value, order[k])
    && (par[order[k]].value == top || par[order[k]].value in order[k + 1..])
  }

  predicate Edge(adj: Graph, u: nat, v: nat) { u < |adj| && v in adj[u] }

  function Unvisited(vis: seq<bool>): set<nat> { set v | 0 <= v < |vis| && !vis[v] }

  class Search {
    const adj: Graph
    var visited: seq<bool>
    var parent: seq<Option<nat>>
    var postOrder: seq<nat>

    constructor (adj: Graph)
      ensures this.adj == adj && Shaped() && postOrder == [] && forall v :: 0 <= v < |adj| ==> !visited[v]
    {
      this.adj := adj;
      visited, parent, postOrder := seq(|adj|, _ => false), seq(|adj|, _ => None), [];
    }

    predicate Shaped()
      reads this
    {
      |visited| == |parent| == |adj|
    }

    /** Visits what is reachable through unvisited vertices; `u` comes last. */
    method Dfs(u: nat, p: Option<nat>) returns (ghost below: seq<nat>)
      requires Shaped() && WellFormed(adj) && u < |adj| && !visited[u]
      requires p.Some? ==> p.value < |adj| && visited[p.value]
      modifies this
      ensures Shaped() && postOrder == old(postOrder) + below + [u] && parent[u] == p
      ensures visited[u] && Found(adj, u, old(visited)[u := true], visited, old(parent)[u := p], parent, below)
      ensures forall k :: 0 <= k < |adj[u]| ==> visited[adj[u][k]]
      decreases Unvisited(visited)
    {
      visited, parent := visited[u := true], parent[u := p];
      ghost var vis, par := visited, parent;
      below := [];
      for i := 0 to |adj[u]|
        invariant Shaped() && postOrder == old(postOrder) + below
        invariant Found(adj, u, vis, visited, par, parent, below)
        invariant forall k :: 0 <= k < i ==> visited[adj[u][k]]
      {
        var v := adj[u][i];
        if Some(v) != p && !visited[v] {
          ghost var vis1, par1 := visited, parent;
          assert Unvisited(visited) < Unvisited(old(visited)) by {
            assert u in Unvisited(old(visited)) && u !in Unvisited(visited);
          }
          ghost var more := Dfs(v, Some(u));
          FoundChild(adj, u, i, vis1, visited, par1, parent, more);
          FoundJoin(adj, u, vis, vis1, visited, par, par1, parent, below, more + [v]);
          below := below + (more + [v]);
        }
      }
      postOrder := postOrder + [u];
    }
  }

  /** The vertices below a child, and the child, are found below its parent. */
  lemma {:induction false} FoundChild(adj: Graph, u: nat, i: nat, vis: seq<bool>, vis': seq<bool>,
                                      par: seq<Option<nat>>, par': seq<Option<nat>>, below: seq<nat>)
    requires u < |adj| && i < |adj[u]| && adj[u][i] < |adj| == |vis| == |par| && !vis[adj[u][i]]
    requires Found(adj, adj[u][i], vis[adj[u][i] := true], vis', par[adj[u][i] := Some(u)], par', below)
    requires forall k :: 0 <= k < |adj[adj[u][i]]| && adj[adj[u][i]][k] < |adj| ==> vis'[adj[adj[u][i]][k]]
    ensures Found(adj, u, vis, vis', par, par', below + [adj[u][i]])
  {
    var v := adj[u][i];
    var order := below + [v];
    assert v !in below && forall x :: x in order <==> x in below || x == v;
    assert Unique(order) by {
      forall j | 0 <= j < |below| ensures below[j] != v {
        assert below[j] in below;
      }
    }
    forall k | 0 <= k < |order| ensures HasParent(adj, par', u, order, k) {
      if k < |below| {
        assert HasParent(adj, par', v, below, k);
        assert order[k + 1..] == below[k + 1..] + [v];
      }
    }
  }

  lemma {:induction false} FoundJoin(adj: Graph, u: nat, vis: seq<bool>, vis1: seq<bool>, vis2: seq<bool>,
                                     par: seq<Option<nat>>, par1: seq<Option<nat>>, par2: seq<Option<nat>>,
                  a: seq<nat>, b: seq<nat>)
    requires Found(adj, u, vis, vis1, par, par1, a) && Found(adj, u, vis1, vis2, par1, par2, b)
    ensures Found(adj, u, vis, vis2, par, par2, a + b)
  {
    forall i, j | 0 <= i < j < |a + b| ensures (a + b)[i] != (a + b)[j] {
      if i < |a| <= j {
        assert a[i] in a && b[j - |a|] in b;
      }
    }
    forall k | 0 <= k < |a + b| ensures HasParent(adj, par2, u, a + b, k) {
      if k < |a| {
        assert HasParent(adj, par1, u, a, k) && a[k] in a;
        assert (a + b)[k + 1..] == a[k + 1..] + b;
      } else {
        assert HasParent(adj, par2, u, b, k - |a|);
        assert (a + b)[k + 1..] == b[k - |a| + 1..];
      }
    }
  }

  // ---------------------------------------------------------------- what the gates do

  predicate Below(vs: seq<nat>, n: nat) { forall k :: 0 <= k < |vs| ==> vs[k] < n }

  /** The exclusive or of the wires of the vertices. */
  function XorAll(rows: seq<Row>, vs: seq<nat>): Row
    requires Below(vs, |rows|)
  {
    if vs == [] then {} else Xor(rows[vs[0]], XorAll(rows, vs[1..]))
  }

  lemma {:induction false} XorOther(rows: seq<Row>, vs: seq<nat>, p: nat, x: Row)
    requires Below(vs, |rows|) && p < |rows| && p !in vs
    ensures XorAll(rows[p := x], vs) == XorAll(rows, vs)
  {
    if vs != [] {
      XorOther(rows, vs[1..], p, x);
    }
  }

  lemma {:induction false} XorToggle(rows: seq<Row>, vs: seq<nat>, p: nat, x: Row)
    requires Below(vs, |rows|) && p in vs && p < |rows| && Unique(vs)
    ensures XorAll(rows[p := Xor(rows[p], x)], vs) == Xor(x, XorAll(rows, vs))
  {
    hide Xor;
    if vs[0] == p {
      assert p !in vs[1..];
      XorOther(rows, vs[1..], p, Xor(rows[p], x));
      XorLaws(x, rows[p], XorAll(rows, vs[1..]));
    } else {
      XorToggle(rows, vs[1..], p, x);
      XorLaws(rows[vs[0]], x, XorAll(rows, vs[1..]));
      XorLaws(x, rows[vs[0]], XorAll(rows, vs[1..]));
    }
  }

  /** The gate from a vertex to its parent. */
  function Gate(par: seq<Option<nat>>, u: nat): Cx { Cx(u, if u < |par| && par[u].Some? then par[u].value else u) }

  /** One gate for each vertex but the root. */
  function Gates(order: seq<nat>, root: nat, par: seq<Option<nat>>): seq<Cx>
  {
    if order == [] then []
    else
      var u := order[|order| - 1];
      Gates(order[..|order| - 1], root, par) + if u != root then [Gate(par, u)] else []
  }

  lemma {:induction false} ApplyLast(rows: seq<Row>, gates: seq<Cx>, g: Cx)
    ensures ApplyAll(rows, gates + [g]) == ApplyCx(ApplyAll(rows, gates), g)
  {
    assert (gates + [g])[..|gates|] == gates;
  }

  /** Post-order with the root at the end. */
  ghost predicate PostOrder(adj: Graph, order: seq<nat>, root: nat, par: seq<Option<nat>>, below: seq<nat>)
  {
    && order == below + [root] && Unique(order) && Below(order, |par|)
    && forall k :: 0 <= k < |below| ==> HasParent(adj, par, root, below, k)
  }

  lemma {:induction false} ParentIsLater(adj: Graph, order: seq<nat>, root: nat, par: seq<Option<nat>>, below: seq<nat>,
                                         k: nat)
    requires PostOrder(adj, order, root, par, below) && k < |below|
    ensures order[k] != root && order[k] < |par| && par[order[k]].Some? && par[order[k]].value in order[k + 1..]
    ensures par[order[k]].value < |par|
    ensures Edge(adj, par[order[k]].value, order[k])
  {
    assert HasParent(adj, par, root, below, k) && order[|below|] == root;
    var p := par[order[k]].value;
    if p == root {
      assert order[k + 1..][|below| - k - 1] == root;
    } else {
      var j :| 0 <= j < |below[k + 1..]| && below[k + 1..][j] == p;
      assert order[k + 1..][j] == p && order[k + 1 + j] == p;
    }
  }

  /** A gate to a later vertex moves the first vertex's wire into the others. */
  lemma {:induction false} OneGate(rows: seq<Row>, vs: seq<nat>, p: nat)
    requires vs != [] && Unique(vs) && Below(vs, |rows|) && p in vs[1..]
    ensures XorAll(ApplyCx(rows, Cx(vs[0], p)), vs[1..]) == XorAll(rows, vs)
  {
    hide Xor;
    var j :| 0 <= j < |vs[1..]| && vs[1..][j] == p;
    assert vs[j + 1] == p;
    XorToggle(rows, vs[1..], p, rows[vs[0]]);
  }

  lemma {:induction false} Suffix(vs: seq<nat>, n: nat, k: nat)
    requires Unique(vs) && Below(vs, n) && k <= |vs|
    ensures Unique(vs[k..]) && Below(vs[k..], n)
  {
  }

  /** While the gates of the first vertices run, the exclusive or over the others stays what it was over all. */
  lemma {:induction false} PassKeepsParity(adj: Graph, rows: seq<Row>, order: seq<nat>, root: nat,
                                           par: seq<Option<nat>>, below: seq<nat>, k: nat)
    requires PostOrder(adj, order, root, par, below) && k <= |below| && |rows| == |par|
    ensures XorAll(ApplyAll(rows, Gates(order[..k], root, par)), order[k..]) == XorAll(rows, order)
  {
    hide HasParent, XorAll, Xor, Unique, Below, ApplyCx, ApplyAll;
    if k == 0 {
      assert order[0..] == order && order[..0] == [];
      NoGates(rows, root, par);
    } else {
      var front, rest, u := order[..k - 1], order[k - 1..], order[k - 1];
      PassKeepsParity(adj, rows, order, root, par, below, k - 1);
      assert order[..k][..k - 1] == front && order[..k][k - 1] == u;
      ParentIsLater(adj, order, root, par, below, k - 1);
      var before := ApplyAll(rows, Gates(front, root, par));
      var p := par[u].value;
      ApplyLast(rows, Gates(front, root, par), Cx(u, p));
      Suffix(order, |rows|, k - 1);
      assert rest[1..] == order[k..];
      OneGate(before, rest, p);
    }
  }

  lemma {:induction false} NoGates(rows: seq<Row>, root: nat, par: seq<Option<nat>>)
    ensures ApplyAll(rows, Gates([], root, par)) == rows
  {
  }

  /** A gate undoes itself. */
  lemma {:induction false} SelfInverse(rows: seq<Row>, g: Cx)
    ensures ApplyCx(ApplyCx(rows, g), g) == rows
  {
    if g.control != g.target && g.control < |rows| && g.target < |rows| {
      XorLaws(rows[g.target], rows[g.control], {});
    }
  }

  function Reverse(gates: seq<Cx>): (r: seq<Cx>)
    ensures |r| == |gates| && forall g :: g in r ==> g in gates
  {
    if gates == [] then [] else [gates[|gates| - 1]] + Reverse(gates[..|gates| - 1])
  }

  lemma {:induction false} ApplyAppend(rows: seq<Row>, a: seq<Cx>, b: seq<Cx>)
    ensures ApplyAll(rows, a + b) == ApplyAll(ApplyAll(rows, a), b)
    decreases |b|
  {
    if b == [] {
      assert a + b == a;
    } else {
      var n := |b| - 1;
      assert (a + b)[..|a| + n] == a + b[..n];
      ApplyAppend(rows, a, b[..n]);
    }
  }

  /** The gates in reverse undo the gates. */
  lemma {:induction false} ReverseUndoes(rows: seq<Row>, gates: seq<Cx>)
    ensures ApplyAll(ApplyAll(rows, gates), Reverse(gates)) == rows
    decreases |gates|
  {
    if gates != [] {
      var front, g := gates[..|gates| - 1], gates[|gates| - 1];
      var mid := ApplyAll(rows, front);
      ApplyAppend(ApplyAll(rows, gates), [g], Reverse(front));
      assert ApplyAll(ApplyAll(rows, gates), [g]) == ApplyCx(ApplyCx(mid, g), g) by {
        assert [g][..0] == [];
        assert ApplyAll(ApplyAll(rows, gates), []) == ApplyAll(rows, gates);
      }
      SelfInverse(mid, g);
      ReverseUndoes(rows, front);
    }
  }

  // ---------------------------------------------------------------- emission

  lemma {:induction false} ReachableFrom(adj: Graph, root: nat, vis: seq<bool>, vis': seq<bool>, par: seq<Option<nat>>,
                                         par': seq<Option<nat>>, below: seq<nat>)
    requires WellFormed(adj) && root < |adj| == |vis| && forall v :: 0 <= v < |adj| ==> (vis[v] <==> v == root)
    requires Found(adj, root, vis, vis', par, par', below) && forall k :: 0 <= k < |adj[root]| ==> vis'[adj[root][k]]
    ensures Reachable(adj, root, below + [root]) && PostOrder(adj, below + [root], root, par', below)
  {
    var order := below + [root];
    assert forall v :: v in order <==> v in below || v == root;
    assert root !in below;
    forall k | 0 <= k < |order| ensures order[k] < |adj| {
      if k < |below| {
        assert below[k] in below;
      }
    }
  }

  /** For wires that each hold their own variable, the exclusive or over vertices holds exactly their variables. */
  lemma {:induction false} XorOfIdentity(n: nat, vs: seq<nat>)
    requires Below(vs, n) && Unique(vs)
    ensures XorAll(Identity(n), vs) == set v | v in vs
  {
    if vs != [] {
      XorOfIdentity(n, vs[1..]);
      assert vs[0] !in vs[1..];
    }
  }

  method EmitPass(adj: Graph, order: seq<nat>, root: nat, par: seq<Option<nat>>,
                  ghost below: seq<nat>) returns (gates: seq<Cx>)
    requires PostOrder(adj, order, root, par, below)
    ensures gates == Gates(order, root, par) && |gates| == |below|
    ensures forall g :: g in gates ==> Edge(adj, g.target, g.control)
  {
    hide PostOrder, HasParent, Edge;
    gates := [];
    PostOrderLength(adj, order, root, par, below);
    for i := 0 to |order|
      invariant gates == Gates(order[..i], root, par) && |gates| == if i <= |below| then i else |below|
      invariant forall g :: g in gates ==> Edge(adj, g.target, g.control)
    {
      var u := order[i];
      assert order[..i + 1][..i] == order[..i];
      if i < |below| {
        ParentIsLater(adj, order, root, par, below, i);
      }
      if u != root {
        gates := gates + [Cx(u, par[u].value)];
      }
    }
    assert order[..|order|] == order;
  }

  lemma {:induction false} PostOrderLength(adj: Graph, order: seq<nat>, root: nat, par: seq<Option<nat>>,
                                           below: seq<nat>)
    requires PostOrder(adj, order, root, par, below)
    ensures |order| == |below| + 1 && order[|below|] == root
  {
  }

  method EmitReverse(adj: Graph, order: seq<nat>, root: nat, par: seq<Option<nat>>,
                     ghost below: seq<nat>) returns (gates: seq<Cx>)
    requires PostOrder(adj, order, root, par, below)
    ensures gates == Reverse(Gates(order, root, par))
  {
    hide PostOrder, HasParent, Edge;
    gates := [];
    PostOrderLength(adj, order, root, par, below);
    assert order[..|order|] == order;
    for i := |order| downto 0
      invariant gates + Reverse(Gates(order[..i], root, par)) == Reverse(Gates(order, root, par))
    {
      hide Gates, Reverse;
      var u := order[i];
      ReverseStep(order, root, par, i, gates);
      if i < |below| {
        ParentIsLater(adj, order, root, par, below, i);
      }
      if u != root {
        gates := gates + [Cx(u, par[u].value)];
      }
    }
    assert order[..0] == [];
  }

  /** The gate of the last vertex comes first in the reverse. */
  lemma {:induction false} ReverseStep(order: seq<nat>, root: nat, par: seq<Option<nat>>, i: nat, done: seq<Cx>)
    requires i < |order|
    ensures done + Reverse(Gates(order[..i + 1], root, par)) ==
      (if order[i] != root then done + [Gate(par, order[i])] else done) + Reverse(Gates(order[..i], root, par))
  {
    hide *;
    GatesNext(order, root, par, i);
    var front := Gates(order[..i], root, par);
    if order[i] != root {
      ReverseLast(front, Gate(par, order[i]));
      assert done + ([Gate(par, order[i])] + Reverse(front)) == (done + [Gate(par, order[i])]) + Reverse(front);
    } else {
      assert front + [] == front;
    }
  }

  lemma {:induction false} GatesNext(order: seq<nat>, root: nat, par: seq<Option<nat>>, i: nat)
    requires i < |order|
    ensures Gates(order[..i + 1], root, par) ==
      Gates(order[..i], root, par) + if order[i] != root then [Gate(par, order[i])] else []
  {
    assert order[..i + 1][..i] == order[..i];
  }

  lemma {:induction false} ReverseLast(gates: seq<Cx>, g: Cx)
    ensures Reverse(gates + [g]) == [g] + Reverse(gates)
  {
    assert (gates + [g])[..|gates|] == gates;
  }

  /**
   The passes around the rotation.  After the first the root wire holds the exclusive or of exactly the vertices of the
   tree; the second restores every wire.
   */
  method EmitTree(adj: Graph, root: nat) returns (compute: seq<Cx>, uncompute: seq<Cx>, ghost order: seq<nat>)
    requires WellFormed(adj) && root < |adj|
    ensures Reachable(adj, root, order) && Below(order, |adj|) && |compute| == |uncompute| == |order| - 1
    ensures forall rows: seq<Row> :: |rows| == |adj| ==> ApplyAll(rows, compute)[root] == XorAll(rows, order)
    ensures forall rows: seq<Row> :: |rows| == |adj| ==> ApplyAll(rows, compute + uncompute) == rows
    ensures forall g :: g in compute + uncompute ==> Edge(adj, g.target, g.control)
  {
    hide Found, Reachable;
    var search := new Search(adj);
    ghost var vis, par0 := search.visited[root := true], search.parent[root := None];
    ghost var below := search.Dfs(root, None);
    order := search.postOrder;
    assert order == below + [root];
    var par := search.parent;
    ReachableFrom(adj, root, vis, search.visited, par0, par, below);
    compute := EmitPass(adj, search.postOrder, root, par, below);
    uncompute := EmitReverse(adj, search.postOrder, root, par, below);
    forall rows: seq<Row> | |rows| == |adj|
      ensures ApplyAll(rows, compute)[root] == XorAll(rows, order) && ApplyAll(rows, compute + uncompute) == rows
    {
      PassKeepsParity(adj, rows, order, root, par, below, |below|);
      RootGetsParity(rows, order, root, par, below);
      ReverseUndoes(rows, compute);
      ApplyAppend(rows, compute, uncompute);
    }
  }

  lemma {:induction false} RootGetsParity(rows: seq<Row>, order: seq<nat>, root: nat, par: seq<Option<nat>>,
                                          below: seq<nat>)
    requires order == below + [root] && root < |rows|
    ensures order[..|below|] == below && order[|below|..] == [root]
    ensures Gates(order, root, par) == Gates(below, root, par)
    ensures forall rows': seq<Row> :: |rows'| == |rows| ==> XorAll(rows', [root]) == rows'[root]
  {
    forall rows': seq<Row> | |rows'| == |rows| ensures XorAll(rows', [root]) == rows'[root] {
      assert [root][1..] == [];
      XorLaws(rows'[root], {}, {});
    }
  }

  /** The vertex lies in every set with the root that is closed under the edges. */
  ghost predicate Reached(adj: Graph, root: nat, v: nat) { forall s :: root in s && Closed(adj, s) ==> v in s }

  lemma {:induction false} ReachedAre(adj: Graph, root: nat, order: seq<nat>, v: nat)
    requires Reachable(adj, root, order)
    ensures v in order <==> Reached(adj, root, v)
  {
    var s := set u | u in order;
    assert Closed(adj, s);
  }

  /**
   The root wire is to hold a parity when the rotation is applied.  On wires that hold one variable each it does exactly
   if the vertices that the tree reaches are those of the parity: a vertex on the way between them is added too.
   */
  lemma {:induction false} ParityNeedsNoOthers(adj: Graph, root: nat, order: seq<nat>, parity: Row)
    requires Reachable(adj, root, order) && Below(order, |adj|)
    ensures XorAll(Identity(|adj|), order) == parity <==> forall v :: v in parity <==> Reached(adj, root, v)
  {
    XorOfIdentity(|adj|, order);
    forall v ensures v in XorAll(Identity(|adj|), order) <==> Reached(adj, root, v) {
      ReachedAre(adj, root, order, v);
    }
  }

  /** The passes for a parity: the root wire holds it in between exactly if the tree has its vertices and no others. */
  method EmitParity(adj: Graph, root: nat, parity: Row) returns (compute: seq<Cx>, uncompute: seq<Cx>)
    requires WellFormed(adj) && root < |adj|
    ensures ApplyAll(Identity(|adj|), compute)[root] == parity <==> forall v :: v in parity <==> Reached(adj, root, v)
    ensures ApplyAll(Identity(|adj|), compute + uncompute) == Identity(|adj|)
  {
    hide Reachable, Reached;
    ghost var order;
    compute, uncompute, order := EmitTree(adj, root);
    ParityNeedsNoOthers(adj, root, order, parity);
  }

  const LINE: Graph := [[1], [0, 2], [1]]

  /** Three wires in a line: the parity of the outer two comes out with the middle one added. */
  method LineAddsTheMiddle() returns (compute: seq<Cx>, uncompute: seq<Cx>)
    ensures ApplyAll(Identity(3), compute)[0] == {0, 1, 2} != {0, 2}
  {
    compute, uncompute := EmitParity(LINE, 0, {0, 1, 2});
    forall v ensures v in {0, 1, 2} <==> Reached(LINE, 0, v) {
      LineReached(v);
    }
  }

  lemma {:induction false} LineReached(v: nat)
    ensures Reached(LINE, 0, v) <==> v in {0, 1, 2}
  {
    assert Closed(LINE, {0, 1, 2});
    forall s | 0 in s && Closed(LINE, s) ensures 1 in s && 2 in s {
      assert LINE[0][0] == 1 && LINE[1][1] == 2;
    }
  }
}
