/**
 Flattening of nested expressions to atoms (src/core.rs, `to_query`): every call gets a fresh variable for its value.
 `names` lists the fresh variables, a call's own before those of its arguments.
 */
module Flatten {
  import opened CoreRules
  import opened Options
  import opened Source
  import opened SymbolGens

  function FlatTerm(globals: set<string>, e: Source, names: seq<string>): AtomTerm
    requires |names| == Calls(e)
  {
    match e
    case SLit(l) => Const(l)
    case SVar(x) => Leaf(globals, x)
    case SCall(_, _) => Var(names[0])
  }

  function FlatTerms(globals: set<string>, es: seq<Source>, names: seq<string>): (ts: seq<AtomTerm>)
    requires |names| == CallsAll(es)
    ensures |ts| == |es|
  {
    if es == [] then []
    else
      var n := Calls(es[0]);
      [FlatTerm(globals, es[0], names[..n])] + FlatTerms(globals, es[1..], names[n..])
  }

  function FlatAtoms(globals: set<string>, e: Source, names: seq<string>): seq<Atom>
    requires |names| == Calls(e)
    decreases e, 1
  {
    match e
    case SCall(h, args) =>
      FlatAll(globals, args, names[1..]) +
        [Atom(CoreRules.Head(h), FlatTerms(globals, args, names[1..]) + [Var(names[0])])]
    case _ => []
  }

  function FlatAll(globals: set<string>, es: seq<Source>, names: seq<string>): seq<Atom>
    requires |names| == CallsAll(es)
    decreases es, 0
  {
    if es == [] then []
    else
      var n := Calls(es[0]);
      FlatAtoms(globals, es[0], names[..n]) + FlatAll(globals, es[1..], names[n..])
  }

  /** The first expression and the others, with their names. */
  lemma {:induction false} Unfold(globals: set<string>, es: seq<Source>, names: seq<string>)
    requires es != [] && |names| == CallsAll(es)
    ensures var n := Calls(es[0]);
      && n <= |names| && |names| - n == CallsAll(es[1..]) && names == names[..n] + names[n..]
      && FlatAll(globals, es, names) == FlatAtoms(globals, es[0], names[..n]) + FlatAll(globals, es[1..], names[n..])
      && FlatTerms(globals, es, names) ==
        [FlatTerm(globals, es[0], names[..n])] + FlatTerms(globals, es[1..], names[n..])
  {
    hide FlatAtoms, FlatTerm, Calls;
  }

  // ---------------------------------------------------------------- meaning

  lemma {:induction false} FlatCalls(globals: set<string>, e: Source, names: seq<string>)
    requires |names| == Calls(e)
    ensures forall a :: a in FlatAtoms(globals, e, names) ==> a.head.Head? && |a.args| >= 1
    decreases e, 1
  {
    if e.SCall? {
      FlatAllCalls(globals, e.args, names[1..]);
    }
  }

  lemma {:induction false} FlatAllCalls(globals: set<string>, es: seq<Source>, names: seq<string>)
    requires |names| == CallsAll(es)
    ensures forall a :: a in FlatAll(globals, es, names) ==> a.head.Head? && |a.args| >= 1
    decreases es, 0
  {
    if es != [] {
      var n := Calls(es[0]);
      FlatCalls(globals, es[0], names[..n]);
      FlatAllCalls(globals, es[1..], names[n..]);
    }
  }

  ghost predicate AllHold(i: Interp, atoms: seq<Atom>, env: Env)
    requires Total(i)
  {
    forall a :: a in atoms ==> a.head.Head? && |a.args| >= 1 && Holds(i, a, env)
  }

  lemma {:induction false} SplitAllHold(i: Interp, a: seq<Atom>, b: seq<Atom>, env: Env)
    requires Total(i)
    ensures AllHold(i, a + b, env) <==> AllHold(i, a, env) && AllHold(i, b, env)
  {
    assert (forall t :: t in a ==> t in a + b) && forall t :: t in b ==> t in a + b;
  }

  /** Where the atoms hold, every call is defined and the term is the expression's value. */
  lemma {:induction false} HoldsIsDefined(i: Interp, globals: set<string>, e: Source, names: seq<string>, env: Env)
    requires Total(i)
    requires |names| == Calls(e) && AllHold(i, FlatAtoms(globals, e, names), env)
    ensures Eval(i, globals, e, env) == Some(Val(i, FlatTerm(globals, e, names), env))
    decreases e, 1
  {
    if e.SCall? {
      HoldsIsDefinedAll(i, globals, e.args, names[1..], env);
      var atoms, terms := FlatAtoms(globals, e, names), FlatTerms(globals, e.args, names[1..]);
      var call := Atom(CoreRules.Head(e.head), terms + [Var(names[0])]);
      assert call in atoms && Inputs(call) == terms;
    }
  }

  lemma {:induction false} HoldsIsDefinedAll(i: Interp, globals: set<string>, es: seq<Source>, names: seq<string>,
                                             env: Env)
    requires Total(i)
    requires |names| == CallsAll(es) && AllHold(i, FlatAll(globals, es, names), env)
    ensures EvalAll(i, globals, es, env) == Some(Vals(i, FlatTerms(globals, es, names), env))
    decreases es, 0
  {
    if es == [] {
      assert Vals(i, [], env) == [];
    } else {
      Unfold(globals, es, names);
      hide AllHold, FlatAtoms, FlatTerm, Eval, FlatAll, FlatTerms, Calls, CallsAll, Vals, Val;
      var n := Calls(es[0]);
      SplitAllHold(i, FlatAtoms(globals, es[0], names[..n]), FlatAll(globals, es[1..], names[n..]), env);
      HoldsIsDefined(i, globals, es[0], names[..n], env);
      HoldsIsDefinedAll(i, globals, es[1..], names[n..], env);
      var t, ts := FlatTerm(globals, es[0], names[..n]), FlatTerms(globals, es[1..], names[n..]);
      ValsCons(i, t, ts, env);
    }
  }

  lemma {:induction false} ValsCons(i: Interp, t: AtomTerm, ts: seq<AtomTerm>, env: Env)
    requires Total(i)
    ensures Vals(i, [t] + ts, env) == [Val(i, t, env)] + Vals(i, ts, env)
  {
  }

  /** The fresh variables are determined by the source variables. */
  lemma {:induction false} Determined(i: Interp, globals: set<string>, e: Source, names: seq<string>, a: Env, b: Env)
    requires Total(i)
    requires |names| == Calls(e) && AllHold(i, FlatAtoms(globals, e, names), a)
    requires AllHold(i, FlatAtoms(globals, e, names), b)
    requires forall x :: x in Vars(e) ==> a[x] == b[x]
    ensures forall x :: x in names ==> a[x] == b[x]
    decreases e, 1
  {
    if e.SCall? {
      hide Eval, FlatTerms, FlatAll, Val;
      DeterminedAll(i, globals, e.args, names[1..], a, b);
      HoldsIsDefined(i, globals, e, names, a);
      HoldsIsDefined(i, globals, e, names, b);
      SameEval(i, globals, e, a, b);
      assert names == [names[0]] + names[1..];
    }
  }

  lemma {:induction false} DeterminedAll(i: Interp, globals: set<string>, es: seq<Source>, names: seq<string>, a: Env,
                                         b: Env)
    requires Total(i)
    requires |names| == CallsAll(es) && AllHold(i, FlatAll(globals, es, names), a)
    requires AllHold(i, FlatAll(globals, es, names), b)
    requires forall x :: x in VarsAll(es) ==> a[x] == b[x]
    ensures forall x :: x in names ==> a[x] == b[x]
    decreases es, 0
  {
    if es != [] {
      Unfold(globals, es, names);
      hide AllHold, FlatAtoms, FlatAll, Calls, CallsAll;
      var n := Calls(es[0]);
      var m, rest := names[..n], names[n..];
      SplitAllHold(i, FlatAtoms(globals, es[0], m), FlatAll(globals, es[1..], rest), a);
      SplitAllHold(i, FlatAtoms(globals, es[0], m), FlatAll(globals, es[1..], rest), b);
      Determined(i, globals, es[0], m, a, b);
      DeterminedAll(i, globals, es[1..], rest, a, b);
      assert names == m + rest;
    }
  }

  // ---------------------------------------------------------------- extending a valuation

  /** Give the fresh variables their values. */
  ghost function Fill(i: Interp, globals: set<string>, e: Source, names: seq<string>, env: Env): Env
    requires Total(i)
    requires |names| == Calls(e)
    decreases e, 1
  {
    match e
    case SCall(_, args) =>
      (match Eval(i, globals, e, env)
       case None => env
       case Some(v) => FillAll(i, globals, args, names[1..], env)[names[0] := v])
    case _ => env
  }

  ghost function FillAll(i: Interp, globals: set<string>, es: seq<Source>, names: seq<string>, env: Env): Env
    requires Total(i)
    requires |names| == CallsAll(es)
    decreases es, 0
  {
    if es == [] then env
    else
      var n := Calls(es[0]);
      FillAll(i, globals, es[1..], names[n..], Fill(i, globals, es[0], names[..n], env))
  }

  /** The two agree on everything but the names. */
  ghost predicate AgreeOff(names: seq<string>, a: Env, b: Env)
  {
    forall x: string :: x !in names ==> a[x] == b[x]
  }

  lemma {:induction false} Chain(m: seq<string>, n: seq<string>, a: Env, b: Env, c: Env)
    requires AgreeOff(m, a, b) && AgreeOff(n, b, c)
    ensures AgreeOff(m + n, a, c)
  {
  }

  lemma {:induction false} FillKeeps(i: Interp, globals: set<string>, e: Source, names: seq<string>, env: Env)
    requires Total(i)
    requires |names| == Calls(e)
    ensures AgreeOff(names, env, Fill(i, globals, e, names, env))
    decreases e, 1
  {
    if e.SCall? {
      FillAllKeeps(i, globals, e.args, names[1..], env);
      assert names == [names[0]] + names[1..];
    }
  }

  lemma {:induction false} FillAllKeeps(i: Interp, globals: set<string>, es: seq<Source>, names: seq<string>, env: Env)
    requires Total(i)
    requires |names| == CallsAll(es)
    ensures AgreeOff(names, env, FillAll(i, globals, es, names, env))
    decreases es, 0
  {
    if es != [] {
      Unfold(globals, es, names);
      hide AgreeOff, Fill, Calls, CallsAll;
      var n := Calls(es[0]);
      var a, b := names[..n], names[n..];
      var env1, env2 := Fill(i, globals, es[0], a, env), FillAll(i, globals, es, names, env);
      FillKeeps(i, globals, es[0], a, env);
      FillAllKeeps(i, globals, es[1..], b, env1);
      Chain(a, b, env, env1, env2);
      assert names == a + b;
    }
  }

  /** The atoms mention the source variables and the fresh ones. */
  ghost predicate Mentions(atoms: seq<Atom>, vars: set<string>, names: seq<string>)
  {
    forall a, x :: a in atoms && Var(x) in a.args ==> x in vars || x in names
  }

  lemma {:induction false} FlatMentions(globals: set<string>, e: Source, names: seq<string>)
    requires |names| == Calls(e)
    ensures Mentions(FlatAtoms(globals, e, names), Vars(e), names)
    ensures forall x :: FlatTerm(globals, e, names) == Var(x) ==> x in Vars(e) || x in names
    decreases e, 1
  {
    if e.SCall? {
      FlatAllMentions(globals, e.args, names[1..]);
      assert names == [names[0]] + names[1..];
    }
  }

  lemma {:induction false} FlatAllMentions(globals: set<string>, es: seq<Source>, names: seq<string>)
    requires |names| == CallsAll(es)
    ensures Mentions(FlatAll(globals, es, names), VarsAll(es), names)
    ensures forall x :: Var(x) in FlatTerms(globals, es, names) ==> x in VarsAll(es) || x in names
    decreases es, 0
  {
    if es != [] {
      var n := Calls(es[0]);
      FlatMentions(globals, es[0], names[..n]);
      FlatAllMentions(globals, es[1..], names[n..]);
      assert names == names[..n] + names[n..];
    }
  }

  lemma {:induction false} HoldsLater(i: Interp, atoms: seq<Atom>, vars: set<string>, names: seq<string>,
                                      later: seq<string>, a: Env, b: Env)
    requires Total(i)
    requires Mentions(atoms, vars, names) && AllHold(i, atoms, a) && AgreeOff(later, a, b)
    requires forall x :: x in later ==> x !in vars && x !in names
    ensures AllHold(i, atoms, b)
  {
    forall t | t in atoms ensures t.head.Head? && |t.args| >= 1 && Holds(i, t, b) {
      assert Vals(i, Inputs(t), a) == Vals(i, Inputs(t), b);
    }
  }

  ghost predicate Unique(names: seq<string>) { forall i, j :: 0 <= i < j < |names| ==> names[i] != names[j] }

  ghost predicate Avoids(names: seq<string>, vars: set<string>) { forall x :: x in names ==> x !in vars }

  /** If the expression is defined, its atoms hold in the filled valuation. */
  lemma {:induction false} FillHolds(i: Interp, globals: set<string>, e: Source, names: seq<string>, env: Env)
    requires Total(i)
    requires |names| == Calls(e) && Unique(names) && Avoids(names, Vars(e)) && Eval(i, globals, e, env).Some?
    ensures AllHold(i, FlatAtoms(globals, e, names), Fill(i, globals, e, names, env))
    decreases e, 1
  {
    if e.SCall? {
      var ns := names[1..];
      var env1, env2 := FillAll(i, globals, e.args, ns, env), Fill(i, globals, e, names, env);
      assert forall x :: x in ns ==> x in names;
      FillAllHolds(i, globals, e.args, ns, env);
      FlatAllMentions(globals, e.args, ns);
      assert names[0] !in ns && names[0] in names;
      HoldsLater(i, FlatAll(globals, e.args, ns), VarsAll(e.args), ns, [names[0]], env1, env2);
      HoldsIsDefinedAll(i, globals, e.args, ns, env2);
      FillKeeps(i, globals, e, names, env);
      SameEvalAll(i, globals, e.args, env, env2);
      var terms := FlatTerms(globals, e.args, ns);
      assert Inputs(Atom(CoreRules.Head(e.head), terms + [Var(names[0])])) == terms;
    }
  }

  /** The two parts of the names share nothing with each other or the variables. */
  lemma {:induction false} SplitNames(names: seq<string>, n: nat, vars: set<string>)
    requires Unique(names) && Avoids(names, vars) && n <= |names|
    ensures Unique(names[..n]) && Unique(names[n..]) && Avoids(names[..n], vars) && Avoids(names[n..], vars)
    ensures forall x :: x in names[n..] ==> x !in vars && x !in names[..n]
  {
    assert forall x :: x in names[..n] || x in names[n..] ==> x in names;
  }

  /** The names of the first expression and of the others. */
  lemma {:induction false} SplitFor(es: seq<Source>, names: seq<string>)
    requires es != [] && |names| == CallsAll(es) && Unique(names) && Avoids(names, VarsAll(es))
    ensures var n := Calls(es[0]);
      && n <= |names| && |names| - n == CallsAll(es[1..]) && names == names[..n] + names[n..]
      && Unique(names[..n]) && Unique(names[n..])
      && Avoids(names[..n], Vars(es[0])) && Avoids(names[..n], VarsAll(es[1..])) && Avoids(names[n..], VarsAll(es[1..]))
      && forall x :: x in names[n..] ==> x !in Vars(es[0]) && x !in names[..n]
  {
    SplitNames(names, Calls(es[0]), VarsAll(es));
  }

  lemma {:induction false} AgreeOn(names: seq<string>, vars: set<string>, a: Env, b: Env)
    requires AgreeOff(names, a, b) && Avoids(names, vars)
    ensures forall x :: x in vars ==> a[x] == b[x]
  {
  }

  lemma {:induction false} FillAllHolds(i: Interp, globals: set<string>, es: seq<Source>, names: seq<string>, env: Env)
    requires Total(i)
    requires |names| == CallsAll(es) && Unique(names) && Avoids(names, VarsAll(es))
    requires EvalAll(i, globals, es, env).Some?
    ensures AllHold(i, FlatAll(globals, es, names), FillAll(i, globals, es, names, env))
    decreases es, 0
  {
    hide AllHold, Mentions, AgreeOff, Fill, FlatAtoms, Unique, Avoids, Vars, VarsAll;
    if es == [] {
      NoneHold(i, env);
    } else {
      var n := Calls(es[0]);
      var a, b := names[..n], names[n..];
      var env1, env2 := Fill(i, globals, es[0], a, env), FillAll(i, globals, es, names, env);
      SplitFor(es, names);
      FillHolds(i, globals, es[0], a, env);
      FillKeeps(i, globals, es[0], a, env);
      AgreeOn(a, VarsAll(es[1..]), env, env1);
      SameEvalAll(i, globals, es[1..], env, env1);
      FillAllHolds(i, globals, es[1..], b, env1);
      FillAllKeeps(i, globals, es[1..], b, env1);
      FlatMentions(globals, es[0], a);
      HoldsLater(i, FlatAtoms(globals, es[0], a), Vars(es[0]), a, b, env1, env2);
      SplitAllHold(i, FlatAtoms(globals, es[0], a), FlatAll(globals, es[1..], b), env2);
    }
  }

  // ---------------------------------------------------------------- facts

  function FactAtoms(globals: set<string>, f: Fact, names: seq<string>): seq<Atom>
    requires |names| == CallsAll(Parts(f))
  {
    FlatAll(globals, Parts(f), names) + if f.FactEq? then [Atom(Eq, FlatTerms(globals, Parts(f), names))] else []
  }

  function FactCalls(facts: seq<Fact>): nat
  {
    if facts == [] then 0 else CallsAll(Parts(facts[0])) + FactCalls(facts[1..])
  }

  function QueryAtoms(globals: set<string>, facts: seq<Fact>, names: seq<string>): seq<Atom>
    requires |names| == FactCalls(facts)
  {
    if facts == [] then []
    else
      var n := CallsAll(Parts(facts[0]));
      FactAtoms(globals, facts[0], names[..n]) + QueryAtoms(globals, facts[1..], names[n..])
  }

  ghost function FillFacts(i: Interp, globals: set<string>, facts: seq<Fact>, names: seq<string>, env: Env): Env
    requires Total(i)
    requires |names| == FactCalls(facts)
  {
    if facts == [] then env
    else
      var n := CallsAll(Parts(facts[0]));
      FillFacts(i, globals, facts[1..], names[n..], FillAll(i, globals, Parts(facts[0]), names[..n], env))
  }

  lemma {:induction false} NoneHold(i: Interp, env: Env)
    requires Total(i)
    ensures AllHold(i, [], env) && QueryHolds(i, [], env)
  {
  }

  /** Every atom is well formed and holds. */
  ghost predicate QueryHolds(i: Interp, atoms: seq<Atom>, env: Env)
    requires Total(i)
  {
    WellFormed(atoms) && Matches(i, atoms, env)
  }

  lemma {:induction false} FactAtomsWellFormed(globals: set<string>, f: Fact, names: seq<string>)
    requires |names| == CallsAll(Parts(f))
    ensures WellFormed(FactAtoms(globals, f, names))
  {
    FlatAllCalls(globals, Parts(f), names);
  }

  lemma {:induction false} QueryWellFormed(globals: set<string>, facts: seq<Fact>, names: seq<string>)
    requires |names| == FactCalls(facts)
    ensures WellFormed(QueryAtoms(globals, facts, names))
  {
    if facts != [] {
      var n := CallsAll(Parts(facts[0]));
      FactAtomsWellFormed(globals, facts[0], names[..n]);
      QueryWellFormed(globals, facts[1..], names[n..]);
    }
  }

  lemma {:induction false} SplitHolds(i: Interp, a: seq<Atom>, b: seq<Atom>, env: Env)
    requires Total(i)
    ensures QueryHolds(i, a + b, env) <==> QueryHolds(i, a, env) && QueryHolds(i, b, env)
  {
    assert (forall t :: t in a ==> t in a + b) && forall t :: t in b ==> t in a + b;
  }

  lemma {:induction false} TwoParts(i: Interp, globals: set<string>, f: Fact, env: Env)
    requires Total(i)
    ensures FactHolds(i, globals, f, env) ==> EvalAll(i, globals, Parts(f), env).Some?
    ensures match EvalAll(i, globals, Parts(f), env)
      case None => !FactHolds(i, globals, f, env)
      case Some(vs) => |vs| == |Parts(f)| && (FactHolds(i, globals, f, env) <==> f.FactExpr? || vs[0] == vs[1])
  {
    var es := Parts(f);
    assert EvalAll(i, globals, [], env) == Some([]);
    if f.FactEq? {
      assert es[1..] == [f.rhs] && [f.rhs][1..] == [];
    } else {
      assert es[1..] == [];
    }
  }

  /** The atoms of a fact hold only if the fact does, and then determine its fresh variables. */
  lemma {:induction false} FactSound(i: Interp, globals: set<string>, f: Fact, names: seq<string>, env: Env)
    requires Total(i)
    requires |names| == CallsAll(Parts(f)) && AllHold(i, FlatAll(globals, Parts(f), names), env)
    ensures QueryHolds(i, FactAtoms(globals, f, names), env) <==> FactHolds(i, globals, f, env)
  {
    var es, atoms := Parts(f), FlatAll(globals, Parts(f), names);
    FactAtomsWellFormed(globals, f, names);
    HoldsIsDefinedAll(i, globals, es, names, env);
    TwoParts(i, globals, f, env);
    if f.FactEq? {
      var eq := Atom(Eq, FlatTerms(globals, es, names));
      assert QueryHolds(i, [eq], env) <==> Holds(i, eq, env);
    }
    SplitHolds(i, atoms, FactAtoms(globals, f, names)[|atoms|..], env);
  }

  lemma {:induction false} FactHoldsIsAll(i: Interp, globals: set<string>, f: Fact, names: seq<string>, env: Env)
    requires Total(i)
    requires |names| == CallsAll(Parts(f)) && QueryHolds(i, FactAtoms(globals, f, names), env)
    ensures AllHold(i, FlatAll(globals, Parts(f), names), env)
  {
    var atoms := FlatAll(globals, Parts(f), names);
    FlatAllCalls(globals, Parts(f), names);
    forall a | a in atoms ensures Holds(i, a, env) {
      assert a in FactAtoms(globals, f, names);
    }
  }

  lemma {:induction false} QuerySound(i: Interp, globals: set<string>, facts: seq<Fact>, names: seq<string>, env: Env)
    requires Total(i)
    requires |names| == FactCalls(facts) && QueryHolds(i, QueryAtoms(globals, facts, names), env)
    ensures FactsHold(i, globals, facts, env)
  {
    hide FactHolds, QueryHolds;
    if facts != [] {
      var n := CallsAll(Parts(facts[0]));
      SplitHolds(i, FactAtoms(globals, facts[0], names[..n]), QueryAtoms(globals, facts[1..], names[n..]), env);
      FactHoldsIsAll(i, globals, facts[0], names[..n], env);
      FactSound(i, globals, facts[0], names[..n], env);
      QuerySound(i, globals, facts[1..], names[n..], env);
    }
  }

  lemma {:induction false} QueryDetermined(i: Interp, globals: set<string>, facts: seq<Fact>, names: seq<string>,
                                           a: Env, b: Env)
    requires Total(i)
    requires |names| == FactCalls(facts) && QueryHolds(i, QueryAtoms(globals, facts, names), a)
    requires QueryHolds(i, QueryAtoms(globals, facts, names), b)
    requires forall x :: x in FactVars(facts) ==> a[x] == b[x]
    ensures forall x :: x in names ==> a[x] == b[x]
  {
    hide QueryHolds, AllHold;
    if facts != [] {
      var n := CallsAll(Parts(facts[0]));
      var m, rest := names[..n], names[n..];
      SplitHolds(i, FactAtoms(globals, facts[0], m), QueryAtoms(globals, facts[1..], rest), a);
      SplitHolds(i, FactAtoms(globals, facts[0], m), QueryAtoms(globals, facts[1..], rest), b);
      FactHoldsIsAll(i, globals, facts[0], m, a);
      FactHoldsIsAll(i, globals, facts[0], m, b);
      DeterminedAll(i, globals, Parts(facts[0]), m, a, b);
      QueryDetermined(i, globals, facts[1..], rest, a, b);
      assert names == m + rest;
    }
  }

  lemma {:induction false} FactMentions(globals: set<string>, f: Fact, names: seq<string>)
    requires |names| == CallsAll(Parts(f))
    ensures Mentions(FactAtoms(globals, f, names), VarsAll(Parts(f)), names)
  {
    FlatAllMentions(globals, Parts(f), names);
  }

  lemma {:induction false} QueryHoldsLater(i: Interp, atoms: seq<Atom>, vars: set<string>, names: seq<string>,
                                           later: seq<string>, a: Env, b: Env)
    requires Total(i)
    requires Mentions(atoms, vars, names) && QueryHolds(i, atoms, a) && AgreeOff(later, a, b)
    requires forall x :: x in later ==> x !in vars && x !in names
    ensures QueryHolds(i, atoms, b)
  {
    forall t | t in atoms ensures Holds(i, t, b) {
      if t.head.Eq? {
        assert t.args[0] in t.args && t.args[1] in t.args;
      } else {
        assert Vals(i, Inputs(t), a) == Vals(i, Inputs(t), b);
      }
    }
  }

  lemma {:induction false} SameFact(i: Interp, globals: set<string>, f: Fact, a: Env, b: Env)
    requires Total(i)
    requires forall x :: x in VarsAll(Parts(f)) ==> a[x] == b[x]
    ensures FactHolds(i, globals, f, a) <==> FactHolds(i, globals, f, b)
  {
    SameEvalAll(i, globals, Parts(f), a, b);
    TwoParts(i, globals, f, a);
    TwoParts(i, globals, f, b);
  }

  lemma {:induction false} SameFacts(i: Interp, globals: set<string>, facts: seq<Fact>, a: Env, b: Env)
    requires Total(i)
    requires forall x :: x in FactVars(facts) ==> a[x] == b[x]
    ensures FactsHold(i, globals, facts, a) <==> FactsHold(i, globals, facts, b)
  {
    if facts != [] {
      assert facts == [facts[0]] + facts[1..];
      SameFact(i, globals, facts[0], a, b);
      SameFacts(i, globals, facts[1..], a, b);
      assert FactsHold(i, globals, facts, a) <==>
        FactHolds(i, globals, facts[0], a) && FactsHold(i, globals, facts[1..], a);
      assert FactsHold(i, globals, facts, b) <==>
        FactHolds(i, globals, facts[0], b) && FactsHold(i, globals, facts[1..], b);
    }
  }

  lemma {:induction false} UnfoldFill(i: Interp, globals: set<string>, facts: seq<Fact>, names: seq<string>, env: Env)
    requires Total(i) && facts != [] && |names| == FactCalls(facts)
    ensures var n := CallsAll(Parts(facts[0]));
      && n <= |names| && |names| - n == FactCalls(facts[1..]) && names == names[..n] + names[n..]
      && FillFacts(i, globals, facts, names, env) ==
         FillFacts(i, globals, facts[1..], names[n..], FillAll(i, globals, Parts(facts[0]), names[..n], env))
  {
    hide FillAll, CallsAll, Parts;
  }

  lemma {:induction false} FillFactsKeeps(i: Interp, globals: set<string>, facts: seq<Fact>, names: seq<string>,
                                          env: Env)
    requires Total(i)
    requires |names| == FactCalls(facts)
    ensures AgreeOff(names, env, FillFacts(i, globals, facts, names, env))
  {
    if facts == [] {
      hide AgreeOff;
      AgreeSelf(names, env);
    } else {
      UnfoldFill(i, globals, facts, names, env);
      hide *;
      var n := CallsAll(Parts(facts[0]));
      var a, b := names[..n], names[n..];
      var env1 := FillAll(i, globals, Parts(facts[0]), a, env);
      FillAllKeeps(i, globals, Parts(facts[0]), a, env);
      FillFactsKeeps(i, globals, facts[1..], b, env1);
      Chain(a, b, env, env1, FillFacts(i, globals, facts[1..], b, env1));
    }
  }

  lemma {:induction false} AgreeSelf(names: seq<string>, env: Env)
    ensures AgreeOff(names, env, env)
  {
  }

  /** If the facts hold, the atoms hold once the fresh variables have their values. */
  lemma {:induction false} QueryFilled(i: Interp, globals: set<string>, facts: seq<Fact>, names: seq<string>, env: Env)
    requires Total(i)
    requires |names| == FactCalls(facts) && Unique(names) && Avoids(names, FactVars(facts))
    requires FactsHold(i, globals, facts, env)
    ensures QueryHolds(i, QueryAtoms(globals, facts, names), FillFacts(i, globals, facts, names, env))
  {
    hide FactHolds, AllHold, FactAtoms, Mentions, AgreeOff, QueryHolds, Unique;
    if facts == [] {
      NoneHold(i, env);
    } else {
      var n, f := CallsAll(Parts(facts[0])), facts[0];
      var a, b := names[..n], names[n..];
      SplitNames(names, n, FactVars(facts));
      var env1, env2 := FillAll(i, globals, Parts(f), a, env), FillFacts(i, globals, facts, names, env);
      TwoParts(i, globals, f, env);
      FillAllHolds(i, globals, Parts(f), a, env);
      FillAllKeeps(i, globals, Parts(f), a, env);
      AgreeOn(a, FactVars(facts), env, env1);
      SameFact(i, globals, f, env, env1);
      FactSound(i, globals, f, a, env1);
      SameFacts(i, globals, facts[1..], env, env1);
      QueryFilled(i, globals, facts[1..], b, env1);
      FillFactsKeeps(i, globals, facts[1..], b, env1);
      FactMentions(globals, f, a);
      QueryHoldsLater(i, FactAtoms(globals, f, a), VarsAll(Parts(f)), a, b, env1, env2);
      SplitHolds(i, FactAtoms(globals, f, a), QueryAtoms(globals, facts[1..], b), env2);
    }
  }

  /**
   A valuation extends to the fresh variables so that the atoms match if and only if the facts hold under it,
   and in one way only.
   */
  ghost predicate ExtendsUniquely(i: Interp, globals: set<string>, facts: seq<Fact>, atoms: seq<Atom>,
                                  names: seq<string>)
    requires Total(i)
  {
    && (forall env :: FactsHold(i, globals, facts, env) <==>
         exists env' :: AgreeOff(names, env, env') && QueryHolds(i, atoms, env'))
    && (forall a, b :: QueryHolds(i, atoms, a) && QueryHolds(i, atoms, b) && AgreeOff(names, a, b) ==> a == b)
  }

  lemma {:induction false} QueryExtendsUniquely(i: Interp, globals: set<string>, facts: seq<Fact>, names: seq<string>)
    requires Total(i)
    requires |names| == FactCalls(facts) && Unique(names) && Avoids(names, FactVars(facts))
    ensures ExtendsUniquely(i, globals, facts, QueryAtoms(globals, facts, names), names)
  {
    hide FactsHold, QueryHolds;
    var atoms := QueryAtoms(globals, facts, names);
    forall env ensures FactsHold(i, globals, facts, env) <==>
      exists env' :: AgreeOff(names, env, env') && QueryHolds(i, atoms, env') {
      if FactsHold(i, globals, facts, env) {
        QueryFilled(i, globals, facts, names, env);
        FillFactsKeeps(i, globals, facts, names, env);
      }
      forall env' | AgreeOff(names, env, env') && QueryHolds(i, atoms, env') ensures FactsHold(i, globals, facts, env) {
        QuerySound(i, globals, facts, names, env');
        SameFacts(i, globals, facts, env, env');
      }
    }
    forall a, b | QueryHolds(i, atoms, a) && QueryHolds(i, atoms, b) && AgreeOff(names, a, b) ensures a == b {
      QueryDetermined(i, globals, facts, names, a, b);
      assert forall x: string :: a[x] == b[x];
    }
  }

  // ---------------------------------------------------------------- the compiler

  /** The names were generated in this stretch, each once. */
  ghost predicate NewNames(reserved: string, before: set<string>, after: set<string>, names: seq<string>)
  {
    before <= after && Unique(names) && forall x :: x in names ==> x in after && x !in before && reserved <= x
  }

  lemma {:induction false} NewNamesJoin(reserved: string, s: set<string>, t: set<string>, u: set<string>,
                                        a: seq<string>, b: seq<string>)
    requires NewNames(reserved, s, t, a) && NewNames(reserved, t, u, b)
    ensures NewNames(reserved, s, u, a + b)
  {
    forall i, j | 0 <= i < j < |a + b| ensures (a + b)[i] != (a + b)[j] {
      if i < |a| <= j {
        assert a[i] in a && b[j - |a|] in b;
      }
    }
  }

  lemma {:induction false} NoNewNames(reserved: string, s: set<string>)
    ensures NewNames(reserved, s, s, []) && FactCalls([]) == 0
  {
  }

  lemma {:induction false} NewNamesAvoid(reserved: string, before: set<string>, after: set<string>, names: seq<string>,
                                         vars: set<string>)
    requires NewNames(reserved, before, after, names) && Spared(reserved, before, vars)
    ensures Unique(names) && Avoids(names, vars)
  {
  }

  lemma {:induction false} SparedLater(reserved: string, before: set<string>, after: set<string>, names: seq<string>,
                                       vars: set<string>, fewer: set<string>)
    requires NewNames(reserved, before, after, names) && Spared(reserved, before, vars) && fewer <= vars
    ensures Spared(reserved, after, fewer)
  {
  }

  function Hint(h: Head): string { h.name }

  lemma {:induction false} FlatAllAppend(globals: set<string>, es: seq<Source>, e: Source, a: seq<string>,
                                         b: seq<string>)
    requires |a| == CallsAll(es) && |b| == Calls(e)
    ensures CallsAll(es + [e]) == |a + b|
    ensures FlatAll(globals, es + [e], a + b) == FlatAll(globals, es, a) + FlatAtoms(globals, e, b)
    ensures FlatTerms(globals, es + [e], a + b) == FlatTerms(globals, es, a) + [FlatTerm(globals, e, b)]
  {
    hide FlatAtoms, FlatTerm, Calls;
    if es == [] {
      assert es + [e] == [e] && [e][1..] == [] && a + b == b && b[..|b|] == b && b[|b|..] == [];
      assert CallsAll([]) == 0;
    } else {
      var n := Calls(es[0]);
      assert (es + [e])[0] == es[0] && (es + [e])[1..] == es[1..] + [e];
      assert (a + b)[..n] == a[..n] && (a + b)[n..] == a[n..] + b;
      FlatAllAppend(globals, es[1..], e, a[n..], b);
    }
  }

  method ExprToQuery(globals: set<string>, e: Source,
                     gen: SymbolGen) returns (atoms: seq<Atom>, term: AtomTerm, ghost names: seq<string>)
    modifies gen
    ensures |names| == Calls(e) && NewNames(gen.reserved, old(gen.generated), gen.generated, names)
    ensures atoms == FlatAtoms(globals, e, names) && term == FlatTerm(globals, e, names)
    decreases e, 1
  {
    match e
    case SLit(l) =>
      atoms, term, names := [], Const(l), [];
    case SVar(x) =>
      atoms, term, names := [], Leaf(globals, x), [];
    case SCall(h, args) =>
      var name := gen.FreshName(Hint(h));
      ghost var mid := gen.generated;
      var terms;
      atoms, terms, names := ExprsToQuery(globals, args, gen);
      atoms := atoms + [Atom(CoreRules.Head(h), terms + [Var(name)])];
      term := Var(name);
      NewNamesJoin(gen.reserved, old(gen.generated), mid, gen.generated, [name], names);
      assert ([name] + names)[1..] == names;
      names := [name] + names;
  }

  method ExprsToQuery(globals: set<string>, es: seq<Source>,
                      gen: SymbolGen) returns (atoms: seq<Atom>, terms: seq<AtomTerm>, ghost names: seq<string>)
    modifies gen
    ensures |names| == CallsAll(es) && NewNames(gen.reserved, old(gen.generated), gen.generated, names)
    ensures atoms == FlatAll(globals, es, names) && terms == FlatTerms(globals, es, names)
    decreases es, 0
  {
    atoms, terms, names := [], [], [];
    for k := 0 to |es|
      invariant |names| == CallsAll(es[..k]) && NewNames(gen.reserved, old(gen.generated), gen.generated, names)
      invariant atoms == FlatAll(globals, es[..k], names) && terms == FlatTerms(globals, es[..k], names)
    {
      ghost var mid := gen.generated;
      var moreAtoms, term, more := ExprToQuery(globals, es[k], gen);
      NewNamesJoin(gen.reserved, old(gen.generated), mid, gen.generated, names, more);
      FlatAllAppend(globals, es[..k], es[k], names, more);
      assert es[..k + 1] == es[..k] + [es[k]];
      atoms, terms, names := atoms + moreAtoms, terms + [term], names + more;
    }
    assert es[..|es|] == es;
  }

  lemma {:induction false} QueryAppend(globals: set<string>, facts: seq<Fact>, f: Fact, a: seq<string>, b: seq<string>)
    requires |a| == FactCalls(facts) && |b| == CallsAll(Parts(f))
    ensures FactCalls(facts + [f]) == |a + b|
    ensures QueryAtoms(globals, facts + [f], a + b) == QueryAtoms(globals, facts, a) + FactAtoms(globals, f, b)
  {
    hide FactAtoms, CallsAll;
    if facts == [] {
      assert facts + [f] == [f] && [f][1..] == [] && a + b == b && b[..|b|] == b && b[|b|..] == [];
      assert FactCalls([]) == 0;
    } else {
      var n := CallsAll(Parts(facts[0]));
      assert (facts + [f])[0] == facts[0] && (facts + [f])[1..] == facts[1..] + [f];
      assert (a + b)[..n] == a[..n] && (a + b)[n..] == a[n..] + b;
      QueryAppend(globals, facts[1..], f, a[n..], b);
    }
  }

  /**
   The facts become atoms that a valuation of the source variables satisfies in exactly one way if and only if the
   facts hold.
   */
  method FactsToQuery(globals: set<string>, facts: seq<Fact>,
                      gen: SymbolGen) returns (atoms: seq<Atom>, ghost names: seq<string>)
    requires Spared(gen.reserved, gen.generated, FactVars(facts))
    modifies gen
    ensures |names| == FactCalls(facts) && NewNames(gen.reserved, old(gen.generated), gen.generated, names)
    ensures atoms == QueryAtoms(globals, facts, names) && WellFormed(atoms)
    ensures forall i :: Total(i) ==> ExtendsUniquely(i, globals, facts, atoms, names)
  {
    hide ExtendsUniquely, FactAtoms, FactCalls, NewNames, FlatAll, FlatTerms, CallsAll, WellFormed;
    atoms, names := [], [];
    NoNewNames(gen.reserved, gen.generated);
    for k := 0 to |facts|
      invariant |names| == FactCalls(facts[..k]) && NewNames(gen.reserved, old(gen.generated), gen.generated, names)
      invariant atoms == QueryAtoms(globals, facts[..k], names)
    {
      hide QueryAtoms;
      ghost var mid := gen.generated;
      var moreAtoms, terms, more := ExprsToQuery(globals, Parts(facts[k]), gen);
      atoms := atoms + moreAtoms;
      if facts[k].FactEq? {
        atoms := atoms + [Atom(Eq, terms)];
      }
      NewNamesJoin(gen.reserved, old(gen.generated), mid, gen.generated, names, more);
      QueryAppend(globals, facts[..k], facts[k], names, more);
      assert facts[..k + 1] == facts[..k] + [facts[k]];
      FactAtomsAre(globals, facts[k], more, moreAtoms, terms);
      assert atoms == QueryAtoms(globals, facts[..k], names) + FactAtoms(globals, facts[k], more);
      names := names + more;
    }
    assert facts[..|facts|] == facts;
    QueryWellFormed(globals, facts, names);
    NewNamesAvoid(gen.reserved, old(gen.generated), gen.generated, names, FactVars(facts));
    forall i | Total(i) ensures ExtendsUniquely(i, globals, facts, atoms, names) {
      QueryExtendsUniquely(i, globals, facts, names);
    }
  }

  lemma {:induction false} FactAtomsAre(globals: set<string>, f: Fact, names: seq<string>, atoms: seq<Atom>,
                                        terms: seq<AtomTerm>)
    requires |names| == CallsAll(Parts(f)) && atoms == FlatAll(globals, Parts(f), names)
    requires terms == FlatTerms(globals, Parts(f), names)
    ensures FactAtoms(globals, f, names) == atoms + if f.FactEq? then [Atom(Eq, terms)] else []
  {
  }
}
