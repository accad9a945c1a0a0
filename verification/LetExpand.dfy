/**
 Terms printed with lets for shared subterms (src/termdag.rs): what a rendering shows, what it expands to, and exactly
 when a let name captures a variable of the term.  A rendering is an expression; layout is left out.
 */
module LetExpand {
  import opened Ast
  import opened TermDags

  datatype Let = Let(name: string, body: Expr)

  function Vars(e: Expr): set<string>
    decreases e, 1
  {
    match e
    case ELit(_) => {}
    case EVar(x) => {x}
    case ECall(_, args) => VarsAll(args)
  }

  function VarsAll(es: seq<Expr>): set<string>
    decreases es, 0
  {
    if es == [] then {} else Vars(es[0]) + VarsAll(es[1..])
  }

  // ---------------------------------------------------------------- expanding lets

  function Subst(env: map<string, Expr>, e: Expr): Expr
    decreases e, 1
  {
    match e
    case ELit(_) => e
    case EVar(x) => if x in env then env[x] else e
    case ECall(head, args) => ECall(head, SubstAll(env, args))
  }

  function SubstAll(env: map<string, Expr>, es: seq<Expr>): (r: seq<Expr>)
    ensures |r| == |es| && forall k :: 0 <= k < |es| ==> r[k] == Subst(env, es[k])
    decreases es, 0
  {
    if es == [] then [] else [Subst(env, es[0])] + SubstAll(env, es[1..])
  }

  /** What the bound names stand for: each body is expanded with the lets before it. */
  function Env(lets: seq<Let>): map<string, Expr>
  {
    if lets == [] then map[]
    else
      var env, last := Env(lets[..|lets| - 1]), lets[|lets| - 1];
      env[last.name := Subst(env, last.body)]
  }

  function Expand(lets: seq<Let>, e: Expr): Expr { Subst(Env(lets), e) }

  function Names(lets: seq<Let>): set<string> { set l | l in lets :: l.name }

  lemma {:induction false} EnvKeys(lets: seq<Let>)
    ensures Env(lets).Keys == Names(lets)
  {
    if lets != [] {
      EnvKeys(lets[..|lets| - 1]);
      assert lets == lets[..|lets| - 1] + [lets[|lets| - 1]];
    }
  }

  ghost predicate DistinctNames(lets: seq<Let>) { forall i, j :: 0 <= i < j < |lets| ==> lets[i].name != lets[j].name }

  /** A name keeps the meaning that its let gave it. */
  lemma {:induction false} EnvAt(lets: seq<Let>, i: nat)
    requires DistinctNames(lets) && i < |lets|
    ensures lets[i].name in Env(lets) && Env(lets)[lets[i].name] == Subst(Env(lets[..i]), lets[i].body)
    decreases |lets|
  {
    var n := |lets| - 1;
    if i < n {
      EnvAt(lets[..n], i);
      assert lets[..n][..i] == lets[..i];
    }
  }

  // ---------------------------------------------------------------- renderings

  /** The rendering of a term in which every named subterm is shown by its name. */
  function Body(nodes: seq<Term>, names: map<TermId, string>, id: TermId): Expr
    requires Ordered(nodes) && id < |nodes|
    decreases id, 1, 0
  {
    match nodes[id]
    case TLit(lit) => ELit(lit)
    case TVar(x) => EVar(x)
    case TApp(head, args) => ECall(head, Bodies(nodes, names, args, id))
  }

  function Bodies(nodes: seq<Term>, names: map<TermId, string>, ids: seq<TermId>, bound: nat): (es: seq<Expr>)
    requires Ordered(nodes) && AllBelow(ids, bound) && bound <= |nodes|
    ensures |es| == |ids| && forall k :: 0 <= k < |ids| ==> es[k] == Shown(nodes, names, ids[k])
    decreases bound, 0, |ids|
  {
    if ids == [] then [] else [Shown(nodes, names, ids[0])] + Bodies(nodes, names, ids[1..], bound)
  }

  /** The name of the term, or its rendering. */
  function Shown(nodes: seq<Term>, names: map<TermId, string>, id: TermId): Expr
    requires Ordered(nodes) && id < |nodes|
    decreases id, 2, 0
  {
    if id in names then EVar(names[id]) else Body(nodes, names, id)
  }

  /** The named subterms that the rendering of a term mentions. */
  function Cites(nodes: seq<Term>, named: set<TermId>, id: TermId): set<TermId>
    requires Ordered(nodes) && id < |nodes|
    decreases id, 1, 0
  {
    if nodes[id].TApp? then CitesAll(nodes, named, nodes[id].args, id) else {}
  }

  function CitesAll(nodes: seq<Term>, named: set<TermId>, ids: seq<TermId>, bound: nat): set<TermId>
    requires Ordered(nodes) && AllBelow(ids, bound) && bound <= |nodes|
    decreases bound, 0, |ids|
  {
    if ids == [] then {}
    else (if ids[0] in named then {ids[0]} else Cites(nodes, named, ids[0])) + CitesAll(nodes, named, ids[1..], bound)
  }

  /** The variables of the term that its rendering shows as such. */
  function Leaves(nodes: seq<Term>, named: set<TermId>, id: TermId): set<string>
    requires Ordered(nodes) && id < |nodes|
    decreases id, 1, 0
  {
    match nodes[id]
    case TLit(_) => {}
    case TVar(x) => {x}
    case TApp(_, args) => LeavesAll(nodes, named, args, id)
  }

  function LeavesAll(nodes: seq<Term>, named: set<TermId>, ids: seq<TermId>, bound: nat): set<string>
    requires Ordered(nodes) && AllBelow(ids, bound) && bound <= |nodes|
    decreases bound, 0, |ids|
  {
    if ids == [] then {}
    else (if ids[0] in named then {} else Leaves(nodes, named, ids[0])) + LeavesAll(nodes, named, ids[1..], bound)
  }

  function NamesOf(names: map<TermId, string>, ids: set<TermId>): set<string>
  {
    set t | t in ids && t in names :: names[t]
  }

  lemma {:induction false} BodyVars(nodes: seq<Term>, names: map<TermId, string>, id: TermId)
    requires Ordered(nodes) && id < |nodes|
    ensures Cites(nodes, names.Keys, id) <= names.Keys && Leaves(nodes, names.Keys, id) <= Vars(TermToExpr(nodes, id))
    ensures Vars(Body(nodes, names, id)) == Leaves(nodes, names.Keys, id) + NamesOf(names, Cites(nodes, names.Keys, id))
    decreases id, 1, 0
  {
    if nodes[id].TApp? {
      BodiesVars(nodes, names, nodes[id].args, id);
    }
  }

  lemma {:induction false} BodiesVars(nodes: seq<Term>, names: map<TermId, string>, ids: seq<TermId>, bound: nat)
    requires Ordered(nodes) && AllBelow(ids, bound) && bound <= |nodes|
    ensures CitesAll(nodes, names.Keys, ids, bound) <= names.Keys
    ensures LeavesAll(nodes, names.Keys, ids, bound) <= VarsAll(TermsToExprs(nodes, ids, bound))
    ensures VarsAll(Bodies(nodes, names, ids, bound)) ==
            LeavesAll(nodes, names.Keys, ids, bound) + NamesOf(names, CitesAll(nodes, names.Keys, ids, bound))
    decreases bound, 0, |ids|
  {
    if ids != [] {
      BodiesVars(nodes, names, ids[1..], bound);
      if ids[0] !in names {
        BodyVars(nodes, names, ids[0]);
      }
      var es, ts := Bodies(nodes, names, ids, bound), TermsToExprs(nodes, ids, bound);
      assert es[1..] == Bodies(nodes, names, ids[1..], bound) && ts[1..] == TermsToExprs(nodes, ids[1..], bound);
    }
  }

  // ---------------------------------------------------------------- what a rendering expands to

  /** The variables stay variables, and the names stand for their terms. */
  ghost predicate Meant(nodes: seq<Term>, names: map<TermId, string>, env: map<string, Expr>, leaves: set<string>,
                        cited: set<TermId>)
    requires Ordered(nodes)
  {
    && (forall x :: x in leaves ==> x in env ==> env[x] == EVar(x))
    && forall t :: t in cited ==> t in names && t < |nodes| && names[t] in env && env[names[t]] == TermToExpr(nodes, t)
  }

  /** A rendering expands to its term if and only if its leaves and names mean what they should. */
  lemma {:induction false} BodyMeans(nodes: seq<Term>, names: map<TermId, string>, env: map<string, Expr>, id: TermId)
    requires Ordered(nodes) && id < |nodes|
    requires forall t :: t in Cites(nodes, names.Keys, id) ==> t in names && t < |nodes| && names[t] in env
    ensures Subst(env, Body(nodes, names, id)) == TermToExpr(nodes, id) <==>
            Meant(nodes, names, env, Leaves(nodes, names.Keys, id), Cites(nodes, names.Keys, id))
    decreases id, 1, 0
  {
    if nodes[id].TApp? {
      BodiesMean(nodes, names, env, nodes[id].args, id);
    }
  }

  lemma {:induction false} BodiesMean(nodes: seq<Term>, names: map<TermId, string>, env: map<string, Expr>,
                                      ids: seq<TermId>, bound: nat)
    requires Ordered(nodes) && AllBelow(ids, bound) && bound <= |nodes|
    requires forall t :: t in CitesAll(nodes, names.Keys, ids, bound) ==> t in names && t < |nodes| && names[t] in env
    ensures SubstAll(env, Bodies(nodes, names, ids, bound)) == TermsToExprs(nodes, ids, bound) <==>
            Meant(nodes, names, env, LeavesAll(nodes, names.Keys, ids, bound), CitesAll(nodes, names.Keys, ids, bound))
    decreases bound, 0, |ids|
  {
    hide Meant, TermToExpr, Ordered, Body, Leaves, Cites;
    if ids == [] {
      NothingMeant(nodes, names, env);
    } else {
      var es, ts := Bodies(nodes, names, ids, bound), TermsToExprs(nodes, ids, bound);
      assert es[1..] == Bodies(nodes, names, ids[1..], bound) && ts[1..] == TermsToExprs(nodes, ids[1..], bound);
      BodiesMean(nodes, names, env, ids[1..], bound);
      HeadAndTail(SubstAll(env, es), ts);
      var leaves, cited := LeavesAll(nodes, names.Keys, ids[1..], bound), CitesAll(nodes, names.Keys, ids[1..], bound);
      if ids[0] in names {
        MeantBoth(nodes, names, env, {}, {ids[0]}, leaves, cited);
        NameMeans(nodes, names, env, ids[0]);
      } else {
        BodyMeans(nodes, names, env, ids[0]);
        MeantBoth(nodes, names, env, Leaves(nodes, names.Keys, ids[0]), Cites(nodes, names.Keys, ids[0]), leaves,
                  cited);
      }
    }
  }

  lemma {:induction false} NothingMeant(nodes: seq<Term>, names: map<TermId, string>, env: map<string, Expr>)
    requires Ordered(nodes)
    ensures Meant(nodes, names, env, {}, {})
  {
  }

  lemma {:induction false} NameMeans(nodes: seq<Term>, names: map<TermId, string>, env: map<string, Expr>, id: TermId)
    requires Ordered(nodes) && id in names && id < |nodes| && names[id] in env
    ensures Meant(nodes, names, env, {}, {id}) <==> Subst(env, EVar(names[id])) == TermToExpr(nodes, id)
  {
    hide TermToExpr, Ordered;
  }

  lemma {:induction false} MeantBoth(nodes: seq<Term>, names: map<TermId, string>, env: map<string, Expr>,
                                     leaves1: set<string>, cited1: set<TermId>, leaves2: set<string>,
                                     cited2: set<TermId>)
    requires Ordered(nodes)
    ensures Meant(nodes, names, env, leaves1 + leaves2, cited1 + cited2) <==>
            Meant(nodes, names, env, leaves1, cited1) && Meant(nodes, names, env, leaves2, cited2)
  {
    hide TermToExpr, Ordered;
  }

  lemma {:induction false} HeadAndTail(a: seq<Expr>, b: seq<Expr>)
    requires a != [] && b != []
    ensures a == b <==> a[0] == b[0] && a[1..] == b[1..]
  {
    assert a == [a[0]] + a[1..] && b == [b[0]] + b[1..];
  }

  // ---------------------------------------------------------------- capture

  function Elems(ids: seq<TermId>): set<TermId> { set t | t in ids }

  /** The lets bind the terms of `order`, each by its rendering and after what that mentions; names are distinct. */
  ghost predicate Printed(nodes: seq<Term>, names: map<TermId, string>, lets: seq<Let>, order: seq<TermId>)
    requires Ordered(nodes)
  {
    && |order| == |lets| && DistinctNames(lets) && names.Keys == Elems(order)
    && (forall i, j :: 0 <= i < j < |order| ==> order[i] != order[j])
    && forall i :: 0 <= i < |order| ==>
         && order[i] < |nodes| && nodes[order[i]].TApp? && names[order[i]] == lets[i].name
         && lets[i].body == Body(nodes, names, order[i]) && Cites(nodes, names.Keys, order[i]) <= Elems(order[..i])
  }

  /** The term is mentioned by the root, or by the term of a let from the n-th on. */
  ghost predicate Cited(nodes: seq<Term>, named: set<TermId>, order: seq<TermId>, root: TermId, n: nat, t: TermId)
    requires Ordered(nodes) && root < |nodes|
  {
    || t in Cites(nodes, named, root)
    || exists j :: n <= j < |order| && CitedBy(nodes, named, order[j], t)
  }

  ghost predicate CitedBy(nodes: seq<Term>, named: set<TermId>, id: TermId, t: TermId)
    requires Ordered(nodes)
  {
    id < |nodes| && t in Cites(nodes, named, id)
  }

  /** Every bound term is mentioned by the root or in a later let. */
  ghost predicate AllCited(nodes: seq<Term>, named: set<TermId>, order: seq<TermId>, root: TermId)
    requires Ordered(nodes) && root < |nodes|
  {
    forall i :: 0 <= i < |order| ==> Cited(nodes, named, order, root, i + 1, order[i])
  }

  /** A variable of the term is shown where a let of its name is in scope: in a later let, or in the final term. */
  ghost predicate Captures(nodes: seq<Term>, names: map<TermId, string>, lets: seq<Let>, order: seq<TermId>,
                           root: TermId)
    requires Ordered(nodes) && root < |nodes| && |order| == |lets|
  {
    || Leaves(nodes, names.Keys, root) * Names(lets) != {}
    || exists i ::
         0 <= i < |order| && order[i] < |nodes| && Leaves(nodes, names.Keys, order[i]) * Names(lets[..i]) != {}
  }

  ghost predicate Good(nodes: seq<Term>, lets: seq<Let>, order: seq<TermId>, i: nat)
    requires Ordered(nodes) && i < |lets| == |order|
  {
    order[i] < |nodes| && lets[i].name in Env(lets) && Env(lets)[lets[i].name] == TermToExpr(nodes, order[i])
  }

  /** Of the first `n` lets, those of the given terms stand for them. */
  ghost predicate GoodIn(nodes: seq<Term>, lets: seq<Let>, order: seq<TermId>, ids: set<TermId>, n: nat)
    requires Ordered(nodes) && n <= |lets| == |order|
  {
    forall i :: 0 <= i < n && order[i] in ids ==> Good(nodes, lets, order, i)
  }

  lemma {:induction false} BodyIsCall(nodes: seq<Term>, names: map<TermId, string>, lets: seq<Let>, order: seq<TermId>,
                                      i: nat)
    requires Ordered(nodes) && Printed(nodes, names, lets, order) && i < |lets|
    ensures lets[i].body.ECall? && DistinctNames(lets)
  {
    assert lets[i].body == Body(nodes, names, order[i]);
  }

  lemma {:induction false} EnvPrefix(lets: seq<Let>, n: nat, i: nat)
    requires DistinctNames(lets) && i < n <= |lets| && lets[i].body.ECall?
    ensures lets[i].name in Env(lets[..n]) && lets[i].name in Env(lets)
    ensures Env(lets[..n])[lets[i].name] == Env(lets)[lets[i].name] && Env(lets)[lets[i].name].ECall?
  {
    assert lets[..n][..i] == lets[..i];
    EnvAt(lets[..n], i);
    EnvAt(lets, i);
  }

  lemma {:induction false} PrefixPrinted(nodes: seq<Term>, names: map<TermId, string>, lets: seq<Let>,
                                         order: seq<TermId>,
                                         n: nat, x: string)
    requires Ordered(nodes) && Printed(nodes, names, lets, order) && n <= |lets|
    ensures x in Env(lets[..n]) <==> x in Names(lets[..n])
    ensures x in Names(lets[..n]) ==> x in Env(lets) && Env(lets[..n])[x] == Env(lets)[x] && Env(lets)[x].ECall?
  {
    hide Ordered, Printed, Env, DistinctNames;
    EnvKeys(lets[..n]);
    if x in Names(lets[..n]) {
      var l :| l in lets[..n] && l.name == x;
      var i :| 0 <= i < n && lets[..n][i] == l;
      BodyIsCall(nodes, names, lets, order, i);
      EnvPrefix(lets, n, i);
    }
  }

  lemma {:induction false} NamedBefore(nodes: seq<Term>, names: map<TermId, string>, lets: seq<Let>, order: seq<TermId>,
                                       n: nat, t: TermId)
    requires Ordered(nodes) && Printed(nodes, names, lets, order) && n <= |lets| && t in Elems(order[..n])
    ensures t in names && t < |nodes| && names[t] in Env(lets[..n])
  {
    hide Ordered, Env;
    var i :| 0 <= i < n && order[..n][i] == t;
    assert lets[..n][i] == lets[i] && order[i] == t;
    EnvKeys(lets[..n]);
  }

  /**
   The rendering of a term expands to it after `n` lets if and only if none captures a leaf and the cited are good.
   */
  lemma {:induction false} ExpandsAfter(nodes: seq<Term>, names: map<TermId, string>, lets: seq<Let>,
                                        order: seq<TermId>,
                                        id: TermId, n: nat)
    requires Ordered(nodes) && Printed(nodes, names, lets, order) && n <= |lets| && id < |nodes|
    requires Cites(nodes, names.Keys, id) <= Elems(order[..n])
    ensures Subst(Env(lets[..n]), Body(nodes, names, id)) == TermToExpr(nodes, id) <==>
            Leaves(nodes, names.Keys, id) * Names(lets[..n]) == {} &&
            GoodIn(nodes, lets, order, Cites(nodes, names.Keys, id), n)
  {
    hide Ordered, TermToExpr, Body, Subst, Env, Cites, Leaves, Printed, Names, GoodIn, Meant, Elems;
    var env, cited, leaves := Env(lets[..n]), Cites(nodes, names.Keys, id), Leaves(nodes, names.Keys, id);
    forall t | t in cited ensures t in names && t < |nodes| && names[t] in env {
      NamedBefore(nodes, names, lets, order, n, t);
    }
    forall x | x in leaves ensures (x in env ==> env[x] == EVar(x)) <==> x !in Names(lets[..n]) {
      PrefixPrinted(nodes, names, lets, order, n, x);
    }
    BodyMeans(nodes, names, env, id);
    MeantIsGood(nodes, names, lets, order, leaves, cited, n);
  }

  lemma {:induction false} MeantIsGood(nodes: seq<Term>, names: map<TermId, string>, lets: seq<Let>, order: seq<TermId>,
                                       leaves: set<string>, cited: set<TermId>, n: nat)
    requires Ordered(nodes) && Printed(nodes, names, lets, order) && n <= |lets| && cited <= Elems(order[..n])
    requires forall x :: x in leaves ==>
      ((x in Env(lets[..n]) ==> Env(lets[..n])[x] == EVar(x)) <==> x !in Names(lets[..n]))
    ensures Meant(nodes, names, Env(lets[..n]), leaves, cited) <==>
            leaves * Names(lets[..n]) == {} && GoodIn(nodes, lets, order, cited, n)
  {
    var env := Env(lets[..n]);
    forall i | 0 <= i < n && order[i] in cited
      ensures names[order[i]] in env
      ensures (env[names[order[i]]] == TermToExpr(nodes, order[i]) <==> Good(nodes, lets, order, i))
    {
      assert lets[..n][i] == lets[i] && lets[i] in lets[..n];
      PrefixPrinted(nodes, names, lets, order, n, lets[i].name);
    }
    forall t | t in cited ensures exists i :: 0 <= i < n && order[i] == t {
      var i :| 0 <= i < n && order[..n][i] == t;
      assert order[i] == t;
    }
    Apart(leaves, Names(lets[..n]));
  }

  lemma {:induction false} Apart(a: set<string>, b: set<string>)
    ensures a * b == {} <==> forall x :: x in a ==> x !in b
  {
    if a * b == {} {
      forall x | x in a ensures x !in b {
        assert x !in a * b;
      }
    }
  }

  /**
   A let stands for its term if and only if no earlier let captures one of its leaves and the terms it mentions are
   good.
   */
  lemma {:induction false} GoodStep(nodes: seq<Term>, names: map<TermId, string>, lets: seq<Let>, order: seq<TermId>,
                                    i: nat)
    requires Ordered(nodes) && Printed(nodes, names, lets, order) && i < |lets|
    ensures Good(nodes, lets, order, i) <==>
            Leaves(nodes, names.Keys, order[i]) * Names(lets[..i]) == {} &&
            GoodIn(nodes, lets, order, Cites(nodes, names.Keys, order[i]), i)
  {
    EnvAt(lets, i);
    ExpandsAfter(nodes, names, lets, order, order[i], i);
  }

  lemma {:induction false} AllGood(nodes: seq<Term>, names: map<TermId, string>, lets: seq<Let>, order: seq<TermId>,
                                   root: TermId, n: nat)
    requires Ordered(nodes) && root < |nodes| && Printed(nodes, names, lets, order) && n <= |lets|
    requires !Captures(nodes, names, lets, order, root)
    ensures forall i :: 0 <= i < n ==> Good(nodes, lets, order, i)
  {
    if n > 0 {
      AllGood(nodes, names, lets, order, root, n - 1);
      GoodStep(nodes, names, lets, order, n - 1);
    }
  }

  ghost predicate GoodFrom(nodes: seq<Term>, lets: seq<Let>, order: seq<TermId>, n: nat)
    requires Ordered(nodes) && |lets| == |order|
  {
    forall i :: n <= i < |lets| ==> Good(nodes, lets, order, i)
  }

  /** If the final term is right, so are the lets, from the last to the first. */
  lemma {:induction false} GoodBack(nodes: seq<Term>, names: map<TermId, string>, lets: seq<Let>, order: seq<TermId>,
                                    root: TermId, n: nat)
    requires Ordered(nodes) && root < |nodes| && |order| == |lets| && Printed(nodes, names, lets, order) && n <= |lets|
    requires AllCited(nodes, names.Keys, order, root)
    requires GoodIn(nodes, lets, order, Cites(nodes, names.Keys, root), |lets|)
    ensures GoodFrom(nodes, lets, order, n)
    decreases |lets| - n
  {
    hide Ordered, Printed, Good, Cites, Env, Cited, AllCited, GoodIn;
    if n < |lets| {
      GoodBack(nodes, names, lets, order, root, n + 1);
      GoodIfCited(nodes, names, lets, order, root, n);
    }
  }

  lemma {:induction false} GoodIfCited(nodes: seq<Term>, names: map<TermId, string>, lets: seq<Let>, order: seq<TermId>,
                                       root: TermId, n: nat)
    requires Ordered(nodes) && root < |nodes| && |order| == |lets| && Printed(nodes, names, lets, order) && n < |lets|
    requires AllCited(nodes, names.Keys, order, root)
    requires GoodIn(nodes, lets, order, Cites(nodes, names.Keys, root), |lets|)
    requires GoodFrom(nodes, lets, order, n + 1)
    ensures Good(nodes, lets, order, n)
  {
    hide Ordered, Printed, Good, Cites, Env;
    assert Cited(nodes, names.Keys, order, root, n + 1, order[n]);
    if order[n] !in Cites(nodes, names.Keys, root) {
      var j :| n + 1 <= j < |order| && CitedBy(nodes, names.Keys, order[j], order[n]);
      assert Good(nodes, lets, order, j);
      GoodStep(nodes, names, lets, order, j);
    }
  }

  /** The printed text expands to the term if and only if no let name captures a variable. */
  lemma {:induction false} ExpandsUnlessCaptured(nodes: seq<Term>, names: map<TermId, string>, lets: seq<Let>,
                                                 order: seq<TermId>, root: TermId)
    requires Ordered(nodes) && root < |nodes| && Printed(nodes, names, lets, order)
    requires AllCited(nodes, names.Keys, order, root)
    requires Cites(nodes, names.Keys, root) <= Elems(order)
    ensures Expand(lets, Body(nodes, names, root)) == TermToExpr(nodes, root) <==>
      !Captures(nodes, names, lets, order, root)
    ensures !Captures(nodes, names, lets, order, root) ==> forall i :: 0 <= i < |lets| ==> Good(nodes, lets, order, i)
  {
    assert lets[..|lets|] == lets && order[..|lets|] == order;
    ExpandsAfter(nodes, names, lets, order, root, |lets|);
    if !Captures(nodes, names, lets, order, root) {
      AllGood(nodes, names, lets, order, root, |lets|);
    }
    if Expand(lets, Body(nodes, names, root)) == TermToExpr(nodes, root) {
      GoodBack(nodes, names, lets, order, root, 0);
      forall i | 0 <= i < |order| ensures Leaves(nodes, names.Keys, order[i]) * Names(lets[..i]) == {} {
        GoodStep(nodes, names, lets, order, i);
      }
    }
  }

  /** Each bound name is used after its let only, in bodies whose other variables are variables of the term. */
  lemma {:induction false} PrintedScopes(nodes: seq<Term>, names: map<TermId, string>, lets: seq<Let>,
                                         order: seq<TermId>, i: nat)
    requires Ordered(nodes) && Printed(nodes, names, lets, order) && i < |lets|
    ensures Vars(lets[i].body) <= Names(lets[..i]) + Vars(TermToExpr(nodes, order[i]))
  {
    BodyVars(nodes, names, order[i]);
    forall t | t in Cites(nodes, names.Keys, order[i]) ensures names[t] in Names(lets[..i]) {
      var j :| 0 <= j < i && order[..i][j] == t;
      assert lets[..i][j] == lets[j] && lets[j] in lets[..i] && order[j] == t;
    }
  }
}
