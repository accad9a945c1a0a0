/**
 The search over sorts that selects the tables to relax (src/extract.rs), and why leaving the other
 tables out changes no cost of a root sort.  A sort is its name; the sort table says what the name is.
 */
module SortSearch {
  import opened Extract
  import opened Extraction
  import opened Options

  datatype Sort = EqSort | BaseSort | ContainerSort(inner: seq<string>)

  datatype Func = Func(name: string, inputs: seq<string>, output: string, isConstructor: bool, unextractable: bool,
                       hidden: bool, rows: seq<Row>)

  type Sorts = map<string, Sort>

  /** Which flags keep a table out of the extraction. */
  datatype Flags = Flags(respectUnextractable: bool, respectHidden: bool)

  predicate Eligible(flags: Flags, f: Func)
  {
    !(f.unextractable && flags.respectUnextractable) && !(f.hidden && flags.respectHidden) && f.isConstructor
  }

  /** The eligible tables, in order. */
  function Kept(flags: Flags, funcs: seq<Func>): seq<Func>
  {
    if funcs == [] then []
    else
      var rest := Kept(flags, funcs[..|funcs| - 1]);
      var f := funcs[|funcs| - 1];
      if Eligible(flags, f) then rest + [f] else rest
  }

  lemma {:induction false} KeptAre(flags: Flags, funcs: seq<Func>, f: Func)
    ensures f in Kept(flags, funcs) <==> f in funcs && Eligible(flags, f)
  {
    if funcs != [] {
      KeptAre(flags, funcs[..|funcs| - 1], f);
      assert funcs == funcs[..|funcs| - 1] + [funcs[|funcs| - 1]];
    }
  }

  // ---------------------------------------------------------------- closed sets of sorts

  /** The names a container sort or a table refers to are declared, and tables build equality sorts. */
  ghost predicate WellFormed(sorts: Sorts, kept: seq<Func>)
  {
    && (forall n, k :: n in sorts && sorts[n].ContainerSort? && k in sorts[n].inner ==> k in sorts)
    && (forall f :: f in kept ==> f.output in sorts && sorts[f.output].EqSort?)
    && (forall f, k :: f in kept && k in f.inputs ==> k in sorts)
  }

  /**
   `k` is needed to build the sort `n`: it occurs in the container sort, or in the arguments of a table that builds the
   sort.
   */
  ghost predicate Needs(sorts: Sorts, kept: seq<Func>, n: string, k: string)
  {
    || (n in sorts && sorts[n].ContainerSort? && k in sorts[n].inner)
    || exists f :: f in kept && f.output == n && k in f.inputs
  }

  ghost predicate Closed(sorts: Sorts, kept: seq<Func>, names: set<string>)
  {
    forall n, k :: n in names && Needs(sorts, kept, n, k) ==> k in names
  }

  /** Every closed set with the roots in it contains the name. */
  ghost predicate Forced(sorts: Sorts, kept: seq<Func>, roots: seq<string>, n: string)
  {
    forall names :: Closed(sorts, kept, names) && (forall s :: s in roots ==> s in names) ==> n in names
  }

  // ---------------------------------------------------------------- the search

  /** The index lists, for each output sort, exactly the tables that build it. */
  ghost predicate Indexed(kept: seq<Func>, revIndex: map<string, seq<Func>>)
  {
    && (forall f :: f in kept ==> f.output in revIndex && f in revIndex[f.output])
    && (forall n, f :: n in revIndex && f in revIndex[n] ==> f in kept && f.output == n)
  }

  ghost predicate Outputs(kept: seq<Func>, roots: seq<string>)
  {
    forall s :: s in roots <==> exists f :: f in kept && f.output == s
  }

  /** Index the eligible tables by output sort; without given roots, every indexed sort is one. */
  method BuildIndex(functions: seq<Func>, flags: Flags, rootsorts: Option<seq<string>>)
    returns (roots: seq<string>, revIndex: map<string, seq<Func>>)
    ensures Indexed(Kept(flags, functions), revIndex)
    ensures if rootsorts.Some? then roots == rootsorts.value else Outputs(Kept(flags, functions), roots)
  {
    roots := if rootsorts.Some? then rootsorts.value else [];
    revIndex := map[];
    for i := 0 to |functions|
      invariant Indexed(Kept(flags, functions[..i]), revIndex)
      invariant forall n :: n in revIndex ==> revIndex[n] != []
      invariant if rootsorts.Some? then roots == rootsorts.value else Outputs(Kept(flags, functions[..i]), roots)
    {
      var f := functions[i];
      assert functions[..i + 1][..i] == functions[..i];
      var unextractable := f.unextractable && flags.respectUnextractable;
      var hidden := f.hidden && flags.respectHidden;
      if !unextractable && !hidden && f.isConstructor {
        if f.output in revIndex {
          assert revIndex[f.output][0].output == f.output;
          revIndex := revIndex[f.output := revIndex[f.output] + [f]];
        } else {
          revIndex := revIndex[f.output := [f]];
          if rootsorts.None? {
            roots := roots + [f.output];
          }
        }
      }
    }
    assert functions[..|functions|] == functions;
  }

  /** Queue the sorts of the list that have not been seen. */
  method VisitAll(list: seq<string>, queue: seq<string>,
                  seen: set<string>) returns (queue': seq<string>, seen': set<string>)
    ensures seen <= seen' && forall n :: n in seen' <==> n in seen || n in list
    ensures forall n :: n in queue' <==> n in queue || (n in list && n !in seen)
    ensures seen' == seen ==> queue' == queue
  {
    queue', seen' := queue, seen;
    for i := 0 to |list|
      invariant seen <= seen' && forall n :: n in seen' <==> n in seen || n in list[..i]
      invariant forall n :: n in queue' <==> n in queue || (n in list[..i] && n !in seen)
      invariant seen' == seen ==> queue' == queue
    {
      assert list[..i + 1] == list[..i] + [list[i]];
      if list[i] !in seen' {
        queue' := queue' + [list[i]];
        seen' := seen' + {list[i]};
      }
    }
    assert list[..|list|] == list;
  }

  /** What every step of the search keeps, over the queue, the visited sorts and the selected tables. */
  ghost predicate Progress(sorts: Sorts, kept: seq<Func>, roots: seq<string>, queue: seq<string>, seen: set<string>,
                           funcs: seq<Func>)
  {
    && (forall n :: n in queue ==> n in seen)
    && (forall n :: n in seen ==> n in sorts && Forced(sorts, kept, roots, n))
    && (forall f :: f in funcs ==> f in kept && f.output in seen && forall k :: k in f.inputs ==> k in seen)
  }

  /** Nothing is missing for the sort. */
  ghost predicate Finished(sorts: Sorts, kept: seq<Func>, seen: set<string>, funcs: seq<Func>, n: string)
  {
    && (forall k :: Needs(sorts, kept, n, k) ==> k in seen)
    && (forall f :: f in kept && f.output == n ==> f in funcs)
  }

  lemma {:induction false} NeededIsForced(sorts: Sorts, kept: seq<Func>, roots: seq<string>, n: string, k: string)
    requires Forced(sorts, kept, roots, n) && Needs(sorts, kept, n, k)
    ensures Forced(sorts, kept, roots, k)
  {
  }

  /**
   The visited sorts are the least closed set that contains the roots, and the selected tables are the
   eligible tables that build one of them.
   */
  method Reachable(sorts: Sorts, functions: seq<Func>, flags: Flags, rootsorts: Option<seq<string>>)
    returns (roots: seq<string>, seen: set<string>, funcs: seq<Func>)
    requires WellFormed(sorts, Kept(flags, functions))
    requires rootsorts.Some? ==> forall s :: s in rootsorts.value ==> s in sorts
    ensures if rootsorts.Some? then roots == rootsorts.value else Outputs(Kept(flags, functions), roots)
    ensures Closed(sorts, Kept(flags, functions), seen) && forall s :: s in roots ==> s in seen
    ensures forall n :: n in seen ==> Forced(sorts, Kept(flags, functions), roots, n)
    ensures forall f :: f in funcs <==> f in functions && Eligible(flags, f) && f.output in seen
  {
    ghost var kept := Kept(flags, functions);
    var revIndex;
    roots, revIndex := BuildIndex(functions, flags, rootsorts);
    seen := set s | s in roots;
    var queue := roots;
    funcs := [];
    while queue != []
      invariant Progress(sorts, kept, roots, queue, seen, funcs) && forall s :: s in roots ==> s in seen
      invariant forall n :: n in seen && n !in queue ==> Finished(sorts, kept, seen, funcs, n)
      decreases sorts.Keys - seen, |queue|
    {
      queue, seen, funcs := Expand(sorts, kept, roots, revIndex, queue, seen, funcs);
    }
    forall f ensures f in kept <==> f in functions && Eligible(flags, f) {
      KeptAre(flags, functions, f);
    }
  }

  /** Take the next sort from the queue, select its tables and visit what they need. */
  method Expand(sorts: Sorts, ghost kept: seq<Func>, ghost roots: seq<string>, revIndex: map<string, seq<Func>>,
                queue: seq<string>, seen: set<string>, funcs: seq<Func>)
    returns (queue': seq<string>, seen': set<string>, funcs': seq<Func>)
    requires queue != [] && Indexed(kept, revIndex) && WellFormed(sorts, kept)
    requires Progress(sorts, kept, roots, queue, seen, funcs)
    requires forall n :: n in seen && n !in queue ==> Finished(sorts, kept, seen, funcs, n)
    ensures Progress(sorts, kept, roots, queue', seen', funcs')
    ensures forall n :: n in seen' && n !in queue' ==> Finished(sorts, kept, seen', funcs', n)
    ensures seen < seen' || (seen == seen' && |queue'| < |queue|)
  {
    hide Forced, Closed;
    var sort := queue[0];
    assert forall n :: n in queue ==> n == sort || n in queue[1..];
    queue', seen', funcs' := queue[1..], seen, funcs;
    if sorts[sort].ContainerSort? {
      forall k | k in sorts[sort].inner ensures Forced(sorts, kept, roots, k) {
        NeededIsForced(sorts, kept, roots, sort, k);
      }
      queue', seen' := VisitAll(sorts[sort].inner, queue', seen');
    } else if sorts[sort].EqSort? && sort in revIndex {
      var heads := revIndex[sort];
      for i := 0 to |heads|
        invariant Progress(sorts, kept, roots, queue', seen', funcs')
        invariant seen <= seen' && (seen' == seen ==> queue' == queue[1..])
        invariant forall n :: n in seen' && n !in queue' && n != sort ==> Finished(sorts, kept, seen', funcs', n)
        invariant forall j :: 0 <= j < i ==> heads[j] in funcs'
      {
        if heads[i] !in funcs' {
          forall k | k in heads[i].inputs ensures Forced(sorts, kept, roots, k) {
            NeededIsForced(sorts, kept, roots, sort, k);
          }
          queue', seen' := VisitAll(heads[i].inputs, queue', seen');
          funcs' := funcs' + [heads[i]];
        }
      }
    }
  }

  // ---------------------------------------------------------------- restricting the tables keeps the costs

  function Rows(funcs: seq<Func>): (rows: seq<Row>)
    ensures forall row :: row in rows <==> exists f :: f in funcs && row in f.rows
  {
    if funcs == [] then [] else funcs[0].rows + Rows(funcs[1..])
  }

  predicate HasSort(sorts: Sorts, node: Node, n: string)
    decreases node
  {
    match node
    case Base(s, _) => s == n
    case Class(id) => id.sort == n
    case Container(s, _, _, elems) =>
      s == n && n in sorts && sorts[n].ContainerSort? && forall e :: e in elems ==>
        exists k :: k in sorts[n].inner && HasSort(sorts, e, k)
  }

  /** Rows follow the schema of their table. */
  ghost predicate RowsFollow(sorts: Sorts, kept: seq<Func>)
  {
    forall f, row :: f in kept && row in f.rows ==>
      && row.target.sort == f.output && |row.children| == |f.inputs|
      && forall i :: 0 <= i < |f.inputs| ==> HasSort(sorts, row.children[i], f.inputs[i])
  }

  lemma {:induction false} MoreRows(few: seq<Row>, many: seq<Row>, d: Deriv, node: Node)
    requires Derives(few, d, node) && forall r :: r in few ==> r in many
    ensures Derives(many, d, node)
    decreases d, 1
  {
    match d
    case DBase(_, _) =>
    case DRow(row, subs) => MoreRowsAll(few, many, subs, row.children);
    case DBox(_, _, _, subs) => MoreRowsAll(few, many, subs, node.elems);
  }

  lemma {:induction false} MoreRowsAll(few: seq<Row>, many: seq<Row>, ds: seq<Deriv>, nodes: seq<Node>)
    requires DerivesAll(few, ds, nodes) && forall r :: r in few ==> r in many
    ensures DerivesAll(many, ds, nodes)
    decreases ds, 0
  {
    if ds != [] {
      MoreRows(few, many, ds[0], nodes[0]);
      MoreRowsAll(few, many, ds[1..], nodes[1..]);
    }
  }

  /** A derivation of a node of a visited sort uses selected tables only. */
  lemma {:induction false} UsesSelected(sorts: Sorts, kept: seq<Func>, funcs: seq<Func>, names: set<string>, d: Deriv,
                                        node: Node, n: string)
    requires Closed(sorts, kept, names) && RowsFollow(sorts, kept) && n in names && HasSort(sorts, node, n)
    requires forall f :: f in kept && f.output in names ==> f in funcs
    requires Derives(Rows(kept), d, node)
    ensures Derives(Rows(funcs), d, node)
    decreases d, 1
  {
    match d
    case DBase(_, _) =>
    case DRow(row, subs) =>
      var f :| f in kept && row in f.rows;
      forall i | 0 <= i < |row.children|
        ensures exists k :: k in names && HasSort(sorts, row.children[i], k)
      {
        assert Needs(sorts, kept, n, f.inputs[i]);
        assert HasSort(sorts, row.children[i], f.inputs[i]);
      }
      AllUseSelected(sorts, kept, funcs, names, subs, row.children);
    case DBox(_, _, _, subs) =>
      forall i | 0 <= i < |node.elems|
        ensures exists k :: k in names && HasSort(sorts, node.elems[i], k)
      {
        assert node.elems[i] in node.elems;
        var k :| k in sorts[n].inner && HasSort(sorts, node.elems[i], k);
        assert Needs(sorts, kept, n, k);
      }
      AllUseSelected(sorts, kept, funcs, names, subs, node.elems);
  }

  lemma {:induction false} AllUseSelected(sorts: Sorts, kept: seq<Func>, funcs: seq<Func>, names: set<string>,
                                          ds: seq<Deriv>, nodes: seq<Node>)
    requires Closed(sorts, kept, names) && RowsFollow(sorts, kept)
    requires forall i :: 0 <= i < |nodes| ==> exists k :: k in names && HasSort(sorts, nodes[i], k)
    requires forall f :: f in kept && f.output in names ==> f in funcs
    requires DerivesAll(Rows(kept), ds, nodes)
    ensures DerivesAll(Rows(funcs), ds, nodes)
    decreases ds, 0
  {
    if ds != [] {
      var k :| k in names && HasSort(sorts, nodes[0], k);
      UsesSelected(sorts, kept, funcs, names, ds[0], nodes[0], k);
      forall i | 0 <= i < |nodes[1..]|
        ensures exists k :: k in names && HasSort(sorts, nodes[1..][i], k)
      {
        assert nodes[1..][i] == nodes[i + 1];
      }
      AllUseSelected(sorts, kept, funcs, names, ds[1..], nodes[1..]);
    }
  }

  ghost predicate IsOptimum(m: CostModel, rows: seq<Row>, node: Node, cost: Option<nat>)
  {
    match cost
    case Some(c) => IsLeastCost(m, rows, node, c)
    case None => !exists d :: Derives(rows, d, node)
  }

  lemma {:induction false} OneOptimum(m: CostModel, a: seq<Row>, b: seq<Row>, node: Node, x: Option<nat>,
                                      y: Option<nat>)
    requires (forall d :: Derives(a, d, node) <==> Derives(b, d, node)) && IsOptimum(m, a, node, x)
    requires IsOptimum(m, b, node, y)
    ensures x == y
  {
    hide Derives, DerivCost;
  }

  lemma {:induction false} RunIsOptimum(m: CostModel, rows: seq<Row>, node: Node)
    requires Monotone(m)
    ensures IsOptimum(m, rows, node, NodeCost(m, Run(m, rows, INITIAL).costs, node))
  {
    hide Monotone, Run, NodeCost, IsLeastCost;
    CostsAreOptimal(m, rows, node);
  }

  /** A node of a visited sort has the same cost over the selected tables as over all eligible tables. */
  lemma {:induction false} RestrictionKeepsCosts(m: CostModel, sorts: Sorts, kept: seq<Func>, funcs: seq<Func>,
                                                 names: set<string>, node: Node, n: string)
    requires Monotone(m) && Closed(sorts, kept, names) && RowsFollow(sorts, kept) && n in names
    requires HasSort(sorts, node, n)
    requires forall f :: f in funcs <==> f in kept && f.output in names
    ensures NodeCost(m, Run(m, Rows(funcs), INITIAL).costs, node) ==
      NodeCost(m, Run(m, Rows(kept), INITIAL).costs, node)
  {
    hide Monotone, Run, NodeCost, IsOptimum, Closed, RowsFollow, HasSort, Derives;
    RunIsOptimum(m, Rows(funcs), node);
    RunIsOptimum(m, Rows(kept), node);
    forall d
      ensures Derives(Rows(funcs), d, node) <==> Derives(Rows(kept), d, node)
    {
      if Derives(Rows(funcs), d, node) {
        MoreRows(Rows(funcs), Rows(kept), d, node);
      }
      if Derives(Rows(kept), d, node) {
        UsesSelected(sorts, kept, funcs, names, d, node, n);
      }
    }
    OneOptimum(m, Rows(funcs), Rows(kept), node,
      NodeCost(m, Run(m, Rows(funcs), INITIAL).costs, node), NodeCost(m, Run(m, Rows(kept), INITIAL).costs, node));
  }
}
