/**
 The default, tree-additive cost model (src/extract.rs) with saturating addition, and exactly which
 costs are safe to reconstruct under it.
 */
module TreeCosts {
  import opened Extract
  import opened Extraction
  import opened Options

  const U64_MAX: nat := 0xffff_ffff_ffff_ffff

  /** `saturating_add` at the cap. */
  function Combine(cap: Cap, a: nat, b: nat): nat
  {
    if cap.NoCap? || a + b < cap.limit then a + b else cap.limit
  }

  function FoldCosts(cap: Cap, acc: nat, cs: seq<nat>): nat
    decreases cs
  {
    if cs == [] then acc else FoldCosts(cap, Combine(cap, acc, cs[0]), cs[1..])
  }

  function TreeAdditive(cap: Cap): CostModel
  {
    CostModel(
      (head, cs, headCost) => FoldCosts(cap, headCost, cs),
      (sort, value, cs) => FoldCosts(cap, 0, cs),
      (sort, text) => 1)
  }

  lemma {:induction false} FoldComparison(cap: Cap, a: nat, xs: seq<nat>, b: nat, ys: seq<nat>)
    requires a <= b && PointwiseLe(xs, ys)
    ensures FoldCosts(cap, a, xs) <= FoldCosts(cap, b, ys)
    ensures Below(cap, FoldCosts(cap, b, ys)) && (a < b || xs != ys) ==> FoldCosts(cap, a, xs) < FoldCosts(cap, b, ys)
    ensures Below(cap, FoldCosts(cap, b, ys)) ==> Below(cap, b) && forall i :: 0 <= i < |ys| ==> Below(cap, ys[i])
    decreases xs
  {
    if ys != [] {
      FoldComparison(cap, Combine(cap, a, xs[0]), xs[1..], Combine(cap, b, ys[0]), ys[1..]);
      assert xs == [xs[0]] + xs[1..] && ys == [ys[0]] + ys[1..];
      forall i | 0 <= i < |ys| && Below(cap, FoldCosts(cap, b, ys))
        ensures Below(cap, ys[i])
      {
        if i > 0 {
          assert ys[i] == ys[1..][i - 1];
        }
      }
    }
  }

  /** The default model meets the assumptions of the optimality and reconstruction theorems. */
  lemma {:induction false} TreeAdditiveIsGood(cap: Cap)
    ensures Monotone(TreeAdditive(cap)) && StrictBelow(TreeAdditive(cap), cap)
  {
    forall a, b, c: nat | PointwiseLe(a, b)
      ensures FoldCosts(cap, c, a) <= FoldCosts(cap, c, b)
      ensures a != b && Below(cap, FoldCosts(cap, c, b)) ==> FoldCosts(cap, c, a) < FoldCosts(cap, c, b)
    {
      FoldComparison(cap, c, a, c, b);
    }
    forall a, c: nat, i | 0 <= i < |a| && Below(cap, FoldCosts(cap, c, a))
      ensures Below(cap, a[i])
    {
      FoldComparison(cap, c, a, c, a);
    }
  }

  // ---------------------------------------------------------------- what the folds add up to

  /** The head costs of the rows of the derivation, and one for each base value. */
  function Size(d: Deriv): nat
    decreases d, 1
  {
    match d
    case DBase(_, _) => 1
    case DRow(row, subs) => row.headCost + Sizes(subs)
    case DBox(_, _, _, subs) => Sizes(subs)
  }

  function Sizes(ds: seq<Deriv>): nat
    decreases ds, 0
  {
    if ds == [] then 0 else Size(ds[0]) + Sizes(ds[1..])
  }

  function Capped(cap: Cap, n: nat): nat { if cap.NoCap? || n < cap.limit then n else cap.limit }

  /** The costs that rows and base values have by themselves fit under the cap, as machine integers do. */
  ghost predicate HeadsFit(cap: Cap, d: Deriv)
    decreases d
  {
    match d
    case DBase(_, _) => cap.Cap? ==> 1 <= cap.limit
    case DRow(row, subs) =>
      (cap.Cap? ==> row.headCost <= cap.limit) && forall k :: 0 <= k < |subs| ==> HeadsFit(cap, subs[k])
    case DBox(_, _, _, subs) => forall k :: 0 <= k < |subs| ==> HeadsFit(cap, subs[k])
  }

  /** The cost of a derivation is the sum of its heads and base values, or the cap if that is smaller. */
  lemma {:induction false} CostIsSize(cap: Cap, d: Deriv)
    requires HeadsFit(cap, d)
    ensures DerivCost(TreeAdditive(cap), d) == Capped(cap, Size(d))
    decreases d, 1
  {
    match d
    case DBase(_, _) =>
    case DRow(row, subs) =>
      FoldIsSum(cap, row.headCost, row.headCost, subs);
    case DBox(_, _, _, subs) =>
      FoldIsSum(cap, 0, 0, subs);
  }

  lemma {:induction false} FoldIsSum(cap: Cap, acc: nat, sum: nat, ds: seq<Deriv>)
    requires acc == Capped(cap, sum) && forall k :: 0 <= k < |ds| ==> HeadsFit(cap, ds[k])
    ensures FoldCosts(cap, acc, DerivCosts(TreeAdditive(cap), ds)) == Capped(cap, sum + Sizes(ds))
    decreases ds, 0
  {
    if ds != [] {
      CostIsSize(cap, ds[0]);
      var cs := DerivCosts(TreeAdditive(cap), ds);
      assert cs[1..] == DerivCosts(TreeAdditive(cap), ds[1..]);
      FoldIsSum(cap, Combine(cap, acc, cs[0]), sum + Size(ds[0]), ds[1..]);
    }
  }

  // ---------------------------------------------------------------- which costs are safe

  /** Follow the saved edges of a finished relaxation. */
  ghost predicate Reconstructs(m: CostModel, rows: seq<Row>, node: Node)
  {
    var st := Run(m, rows, INITIAL);
    var edges := ParentEdges(m, rows, st);
    Descending(st.ranks, edges) && Rebuild(st.ranks, edges, node).Done?
  }

  /** A head that costs the cap, over a class that first gets cost 2 and later 1: the parent's cost cannot follow. */
  function SaturatedRows(limit: nat): seq<Row>
  {
    var (c, d) := (ClassId("S", 0), ClassId("S", 1));
    [Row("g", "g", [], d, 2, false), Row("f", "f", [Class(d)], c, limit, false), Row("h", "h", [], d, 1, false)]
  }

  lemma {:induction false} OnlyChild(m: CostModel, st: State, id: ClassId)
    requires id in st.costs && id in st.ranks
    ensures NodeCosts(m, st.costs, [Class(id)]) == Some([st.costs[id]])
    ensures NodesRank(st.ranks, [Class(id)]) == Some(st.ranks[id])
  {
    var nodes := [Class(id)];
    assert nodes[1..] == [];
    assert NodeCosts(m, st.costs, nodes[1..]) == Some([]);
    assert [st.costs[id]] + [] == [st.costs[id]];
    assert NodesRank(st.ranks, nodes[1..]) == Some(0);
  }

  /** The states of the relaxation of these rows. */
  function Saturating(limit: nat, k: nat): State
  {
    var (c, d) := (ClassId("S", 0), ClassId("S", 1));
    if k == 1 then State(map[d := 2], map[d := 1], 1)
    else if k == 2 then State(map[d := 2, c := limit], map[d := 1, c := 2], 2)
    else State(map[d := 1, c := limit], map[d := 3, c := 2], 3)
  }

  lemma {:induction false} SaturatedParent(limit: nat, st: State)
    requires 2 < limit && st in [Saturating(limit, 1), Saturating(limit, 2), Saturating(limit, 3)]
    ensures var m, row := TreeAdditive(Cap(limit)), SaturatedRows(limit)[1];
      RowCost(m, st.costs, row) == Some(limit) && NodesRank(st.ranks, row.children) == Some(st.ranks[ClassId("S", 1)])
  {
    var cost := st.costs[ClassId("S", 1)];
    OnlyChild(TreeAdditive(Cap(limit)), st, ClassId("S", 1));
    assert FoldCosts(Cap(limit), limit, [cost]) == FoldCosts(Cap(limit), limit, []) == limit;
  }

  lemma {:induction false} SaturatedSteps(limit: nat)
    requires 2 < limit
    ensures var m, rows := TreeAdditive(Cap(limit)), SaturatedRows(limit);
      && Relax(m, rows[0], INITIAL) == Saturating(limit, 1)
      && Relax(m, rows[1], Saturating(limit, 1)) == Saturating(limit, 2)
      && Relax(m, rows[2], Saturating(limit, 2)) == Saturating(limit, 3)
  {
    SaturatedParent(limit, Saturating(limit, 1));
  }

  lemma {:induction false} SaturatedStable(limit: nat, row: Row)
    requires 2 < limit && row in SaturatedRows(limit)
    ensures Relax(TreeAdditive(Cap(limit)), row, Saturating(limit, 3)) == Saturating(limit, 3)
  {
    SaturatedParent(limit, Saturating(limit, 3));
  }

  lemma {:induction false} SaturationLosesTheEdge(limit: nat)
    requires 2 < limit
    ensures
      var m, rows, node := TreeAdditive(Cap(limit)), SaturatedRows(limit), Class(ClassId("S", 0));
      NodeCost(m, Run(m, rows, INITIAL).costs, node) == Some(limit) && !Reconstructs(m, rows, node)
  {
    hide Relax, RowCost, NodesRank, TreeAdditive, Run;
    var m, rows, st := TreeAdditive(Cap(limit)), SaturatedRows(limit), Saturating(limit, 3);
    SaturatedSteps(limit);
    forall row | row in rows ensures Relax(m, row, st) == st {
      SaturatedStable(limit, row);
    }
    ThreeRows(m, rows, Saturating(limit, 1), Saturating(limit, 2), st);
    SaturatedParent(limit, st);
    ParentEdgesSound(m, rows, st);
    assert ClassId("S", 0) !in ParentEdges(m, rows, st);
  }

  /** A run over three rows that is stable after its first pass. */
  lemma {:induction false} ThreeRows(m: CostModel, rows: seq<Row>, s1: State, s2: State, s3: State)
    requires |rows| == 3 && Relax(m, rows[0], INITIAL) == s1 && Relax(m, rows[1], s1) == s2
    requires Relax(m, rows[2], s2) == s3
    requires forall row :: row in rows ==> Relax(m, row, s3) == s3
    ensures Run(m, rows, INITIAL) == s3
  {
    hide Relax;
    var r1, r2 := rows[1..], rows[2..];
    assert r1[1..] == r2 && r2[1..] == [] && r1[0] == rows[1] && r2[0] == rows[2];
    assert rows[0] in rows && rows[1] in rows && rows[2] in rows;
    assert Pass(m, r2, s2) == Pass(m, [], s3) == s3;
    assert Pass(m, rows, INITIAL) == Pass(m, r1, s1) == Pass(m, r2, s2) == s3;
    assert Pass(m, r2, s3) == Pass(m, [], s3) == s3;
    assert Pass(m, rows, s3) == Pass(m, r1, s3) == Pass(m, r2, s3) == s3;
    assert Run(m, rows, INITIAL) == Run(m, rows, s3) == s3;
  }

  /** Under saturating costs, a cost always reconstructs exactly when it is below the cap. */
  lemma {:induction false} SafeCosts(limit: nat, v: nat)
    requires 2 < limit && v <= limit
    ensures v < limit <==>
              forall rows, node :: NodeCost(TreeAdditive(Cap(limit)),
                                            Run(TreeAdditive(Cap(limit)), rows, INITIAL).costs, node) == Some(v) ==>
                                     Reconstructs(TreeAdditive(Cap(limit)), rows, node)
  {
    var m := TreeAdditive(Cap(limit));
    TreeAdditiveIsGood(Cap(limit));
    if v < limit {
      forall rows, node | NodeCost(m, Run(m, rows, INITIAL).costs, node) == Some(v)
        ensures Reconstructs(m, rows, node)
      {
        BestTerm(m, Cap(limit), rows, node);
      }
    } else {
      SaturationLosesTheEdge(limit);
    }
  }

  /** For the 64-bit costs of the source: every cost but the largest one reconstructs. */
  lemma {:induction false} SafeU64Costs(v: nat)
    requires v <= U64_MAX
    ensures v != U64_MAX <==>
              forall rows, node :: NodeCost(TreeAdditive(Cap(U64_MAX)),
                                            Run(TreeAdditive(Cap(U64_MAX)), rows, INITIAL).costs, node) == Some(v) ==>
                                     Reconstructs(TreeAdditive(Cap(U64_MAX)), rows, node)
  {
    SafeCosts(U64_MAX, v);
  }
}
