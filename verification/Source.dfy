/** Rules as written, after name resolution: nested expressions, facts and actions, and what they mean. */
module Source {
  import opened Ast
  import opened CoreRules
  import opened Options

  datatype Source = SLit(lit: Literal) | SVar(name: string) | SCall(head: Head, args: seq<Source>)

  datatype Fact = FactEq(lhs: Source, rhs: Source) | FactExpr(e: Source)

  function Vars(e: Source): set<string>
    decreases e, 1
  {
    match e
    case SLit(_) => {}
    case SVar(x) => {x}
    case SCall(_, args) => VarsAll(args)
  }

  function VarsAll(es: seq<Source>): set<string>
    decreases es, 0
  {
    if es == [] then {} else Vars(es[0]) + VarsAll(es[1..])
  }

  /** The number of calls in the expression: each gets a fresh variable. */
  function Calls(e: Source): nat
    decreases e, 1
  {
    match e
    case SCall(_, args) => 1 + CallsAll(args)
    case _ => 0
  }

  function CallsAll(es: seq<Source>): nat
    decreases es, 0
  {
    if es == [] then 0 else Calls(es[0]) + CallsAll(es[1..])
  }

  /** A variable, or the global of that name. */
  function Leaf(globals: set<string>, x: string): AtomTerm { if x in globals then Global(x) else Var(x) }

  // ---------------------------------------------------------------- meaning in a query

  /** The value of an expression where each head is a partial function; `None` if a call in it is undefined. */
  ghost function Eval(i: Interp, globals: set<string>, e: Source, env: Env): Option<Value>
    requires Total(i)
    decreases e, 1
  {
    match e
    case SLit(l) => Some(i.lits[l])
    case SVar(x) => Some(Val(i, Leaf(globals, x), env))
    case SCall(h, args) =>
      match EvalAll(i, globals, args, env)
      case None => None
      case Some(vs) => if (h, vs) in i.calls then Some(i.calls[(h, vs)]) else None
  }

  ghost function EvalAll(i: Interp, globals: set<string>, es: seq<Source>, env: Env): Option<seq<Value>>
    requires Total(i)
    decreases es, 0
  {
    if es == [] then Some([])
    else
      match (Eval(i, globals, es[0], env), EvalAll(i, globals, es[1..], env))
      case (Some(v), Some(vs)) => Some([v] + vs)
      case _ => None
  }

  function Parts(f: Fact): seq<Source>
  {
    match f
    case FactEq(lhs, rhs) => [lhs, rhs]
    case FactExpr(e) => [e]
  }

  /** All parts are defined, and the sides of an equation have one value. */
  ghost predicate FactHolds(i: Interp, globals: set<string>, f: Fact, env: Env)
    requires Total(i)
  {
    match f
    case FactEq(lhs, rhs) => Eval(i, globals, lhs, env).Some? &&
        Eval(i, globals, lhs, env) == Eval(i, globals, rhs, env)
    case FactExpr(e) => Eval(i, globals, e, env).Some?
  }

  ghost predicate FactsHold(i: Interp, globals: set<string>, facts: seq<Fact>, env: Env)
    requires Total(i)
  {
    forall f :: f in facts ==> FactHolds(i, globals, f, env)
  }

  function FactVars(facts: seq<Fact>): set<string>
  {
    if facts == [] then {} else VarsAll(Parts(facts[0])) + FactVars(facts[1..])
  }

  lemma {:induction false} SameEval(i: Interp, globals: set<string>, e: Source, a: Env, b: Env)
    requires Total(i)
    requires forall x :: x in Vars(e) ==> a[x] == b[x]
    ensures Eval(i, globals, e, a) == Eval(i, globals, e, b)
    decreases e, 1
  {
    if e.SCall? {
      SameEvalAll(i, globals, e.args, a, b);
    }
  }

  lemma {:induction false} SameEvalAll(i: Interp, globals: set<string>, es: seq<Source>, a: Env, b: Env)
    requires Total(i)
    requires forall x :: x in VarsAll(es) ==> a[x] == b[x]
    ensures EvalAll(i, globals, es, a) == EvalAll(i, globals, es, b)
    decreases es, 0
  {
    if es != [] {
      SameEval(i, globals, es[0], a, b);
      SameEvalAll(i, globals, es[1..], a, b);
    }
  }
}
