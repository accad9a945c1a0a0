/** Core rules (src/core.rs): conjunctive bodies, straight-line heads, and what they mean. */
module CoreRules {
  import opened Ast
  import opened Options

  /** Arguments of atoms and actions. */
  datatype AtomTerm = Var(name: string) | Const(lit: Literal) | Global(name: string)

  /** A resolved call: a table, or a primitive with the sorts it is specialised to. */
  datatype Head = Func(name: string) | Prim(name: string, sorts: seq<string>)

  datatype HeadOrEq = Head(head: Head) | Eq

  datatype Atom = Atom(head: HeadOrEq, args: seq<AtomTerm>)

  datatype CoreAction =
    | Let(v: string, head: Head, args: seq<AtomTerm>)
    | LetAtomTerm(v: string, at: AtomTerm)
    | Set(head: Head, args: seq<AtomTerm>, out: AtomTerm)
    | Change(delete: bool, head: Head, args: seq<AtomTerm>)
    | Union(lhs: AtomTerm, rhs: AtomTerm)
    | Panic(msg: string)

  datatype Rule = Rule(body: seq<Atom>, head: seq<CoreAction>)

  /** Calls carry an output as their last argument, equalities have two arguments. */
  predicate WellFormed(body: seq<Atom>)
  {
    forall a :: a in body ==> if a.head.Eq? then |a.args| == 2 else |a.args| >= 1
  }

  predicate NoEq(body: seq<Atom>) { forall a :: a in body ==> a.head.Head? }

  // ---------------------------------------------------------------- meaning of bodies

  type Value = int

  /** Every variable has a value. */
  type Env = e: imap<string, Value> | forall x :: x in e ghost witness imap x: string :: 0

  /** Values of literals and globals, and each head as a partial function. */
  datatype Interp = Interp(lits: imap<Literal, Value>, globals: imap<string, Value>,
                           calls: imap<(Head, seq<Value>), Value>)

  /** Literals and globals have values. */
  ghost predicate Total(i: Interp) { (forall l :: l in i.lits) && (forall g :: g in i.globals) }

  type ValueEq = (AtomTerm, AtomTerm) -> Head

  /** Literals and globals have values, and `value-eq` is equality. */
  ghost predicate Sound(i: Interp, valueEq: ValueEq)
  {
    && Total(i)
    && (forall s, t, x, y {:trigger (valueEq(s, t), [x, y]) in i.calls} ::
          && ((valueEq(s, t), [x, y]) in i.calls <==> x == y)
          && (x == y ==> i.calls[(valueEq(s, t), [x, y])] == i.lits[Unit]))
  }

  ghost function Val(i: Interp, t: AtomTerm, env: Env): Value
    requires Total(i)
  {
    match t
    case Var(x) => env[x]
    case Const(l) => i.lits[l]
    case Global(g) => i.globals[g]
  }

  ghost function Vals(i: Interp, ts: seq<AtomTerm>, env: Env): (vs: seq<Value>)
    requires Total(i)
  {
    seq(|ts|, k requires 0 <= k < |ts| => Val(i, ts[k], env))
  }

  /** All arguments but the last, and the last; a call always has one. */
  function Inputs(a: Atom): seq<AtomTerm> { if a.args == [] then [] else a.args[..|a.args| - 1] }

  function Output(a: Atom): AtomTerm { if a.args == [] then Const(Unit) else a.args[|a.args| - 1] }

  /** An equality holds if its sides agree; a call holds if it is defined with the output as its value. */
  ghost predicate Holds(i: Interp, a: Atom, env: Env)
    requires Total(i)
    requires if a.head.Eq? then |a.args| == 2 else |a.args| >= 1
  {
    match a.head
    case Eq => Val(i, a.args[0], env) == Val(i, a.args[1], env)
    case Head(h) =>
      var vs := Vals(i, Inputs(a), env);
      (h, vs) in i.calls && i.calls[(h, vs)] == Val(i, Output(a), env)
  }

  ghost predicate Matches(i: Interp, body: seq<Atom>, env: Env)
    requires Total(i)
    requires WellFormed(body)
  {
    forall a :: a in body ==> Holds(i, a, env)
  }

  // ---------------------------------------------------------------- meaning of heads

  datatype Binding = Binding(v: string, at: AtomTerm)

  function LetActions(lets: seq<Binding>): (r: seq<CoreAction>)
    ensures |r| == |lets|
  {
    if lets == [] then [] else [LetAtomTerm(lets[0].v, lets[0].at)] + LetActions(lets[1..])
  }

  ghost function RunLets(i: Interp, lets: seq<Binding>, env: Env): Env
    requires Total(i)
  {
    if lets == [] then env else RunLets(i, lets[1..], env[lets[0].v := Val(i, lets[0].at, env)])
  }

  /** How the calls and updates of a head act on a database; `None` when an action fails. */
  datatype Effects<!D> = Effects(
    call: (Head, seq<Value>, D) -> Option<(Value, D)>,
    update: (CoreAction, seq<Value>, D) -> Option<D>)

  /** The terms an updating action reads. */
  function Reads(a: CoreAction): seq<AtomTerm>
  {
    match a
    case Set(_, args, out) => args + [out]
    case Change(_, _, args) => args
    case Union(lhs, rhs) => [lhs, rhs]
    case _ => []
  }

  /** The action with its terms blanked: what an update may depend on besides the values it reads. */
  function Shape(a: CoreAction): CoreAction
  {
    match a
    case Set(h, _, _) => Set(h, [], Const(Unit))
    case Change(d, h, _) => Change(d, h, [])
    case Union(_, _) => Union(Const(Unit), Const(Unit))
    case _ => a
  }

  ghost function RunHead<D>(i: Interp, fx: Effects<D>, actions: seq<CoreAction>, env: Env, db: D): Option<(Env, D)>
    requires Total(i)
  {
    if actions == [] then Some((env, db))
    else
      match actions[0]
      case Let(v, h, args) =>
        (match fx.call(h, Vals(i, args, env), db)
         case None => None
         case Some((x, db')) => RunHead(i, fx, actions[1..], env[v := x], db'))
      case LetAtomTerm(v, at) => RunHead(i, fx, actions[1..], env[v := Val(i, at, env)], db)
      case Panic(_) => None
      case a =>
        (match fx.update(Shape(a), Vals(i, Reads(a), env), db)
         case None => None
         case Some(db') => RunHead(i, fx, actions[1..], env, db'))
  }

  // ---------------------------------------------------------------- groundedness

  /**
   A table grounds its arguments, a primitive its output once its inputs are grounded, an equality one side by the
   other.
   */
  ghost predicate GroundAtom(a: Atom, s: iset<AtomTerm>)
  {
    match a.head
    case Head(Func(_)) => forall t :: t in a.args ==> t in s
    case Head(Prim(_, _)) => (forall t :: t in Inputs(a) ==> t in s) ==> Output(a) in s
    case Eq => |a.args| == 2 ==> (a.args[0] in s <==> a.args[1] in s)
  }

  /** The set holds every literal and global and is closed under what the atoms ground. */
  ghost predicate GroundClosed(body: seq<Atom>, s: iset<AtomTerm>)
  {
    && (forall t: AtomTerm :: !t.Var? ==> t in s)
    && (forall a :: a in body ==> GroundAtom(a, s))
  }

  /** The least closed set. */
  ghost predicate Grounded(body: seq<Atom>, t: AtomTerm)
  {
    forall s :: GroundClosed(body, s) ==> t in s
  }

  // ---------------------------------------------------------------- steps of the compilation

  /** Substitution of one variable. */
  function SubstTerm(x: string, y: AtomTerm, t: AtomTerm): AtomTerm { if t == Var(x) then y else t }

  function Resolve(lets: seq<Binding>, t: AtomTerm): AtomTerm
  {
    if lets == [] then t else SubstTerm(lets[0].v, lets[0].at, Resolve(lets[1..], t))
  }

  /**
   Matches of the two bodies correspond: the new lets turn a match of the new body into one of the old body, and leave
   every match of the old body alone.
   */
  ghost predicate SameMatches(valueEq: ValueEq, before: Rule, after: Rule, lets: seq<Binding>)
    requires WellFormed(before.body) && WellFormed(after.body)
  {
    forall i, env :: Sound(i, valueEq) ==>
      && (Matches(i, before.body, env) ==> Matches(i, after.body, env) && RunLets(i, lets, env) == env)
      && (Matches(i, after.body, env) ==> Matches(i, before.body, RunLets(i, lets, env)))
  }

  /** Grounded terms resolve to grounded terms. */
  ghost predicate KeepsGround(before: Rule, after: Rule, lets: seq<Binding>)
  {
    forall t :: Grounded(before.body, t) ==> Grounded(after.body, Resolve(lets, t))
  }

  /** One compilation step: lets prepended to the head, matches and groundedness kept. */
  ghost predicate Step(valueEq: ValueEq, before: Rule, after: Rule, lets: seq<Binding>)
  {
    && WellFormed(before.body) && WellFormed(after.body)
    && after.head == LetActions(lets) + before.head
    && SameMatches(valueEq, before, after, lets)
    && KeepsGround(before, after, lets)
  }

  lemma {:induction false} LetsAppend(i: Interp, a: seq<Binding>, b: seq<Binding>, env: Env)
    requires Total(i)
    ensures RunLets(i, a + b, env) == RunLets(i, b, RunLets(i, a, env))
  {
    if a == [] {
      assert a + b == b;
    } else {
      assert (a + b)[1..] == a[1..] + b;
      LetsAppend(i, a[1..], b, env[a[0].v := Val(i, a[0].at, env)]);
    }
  }

  lemma {:induction false} LetActionsAppend(a: seq<Binding>, b: seq<Binding>)
    ensures LetActions(a + b) == LetActions(a) + LetActions(b)
  {
    if a == [] {
      assert a + b == b;
    } else {
      assert (a + b)[1..] == a[1..] + b;
      LetActionsAppend(a[1..], b);
    }
  }

  lemma {:induction false} ResolveAppend(a: seq<Binding>, b: seq<Binding>, t: AtomTerm)
    ensures Resolve(a + b, t) == Resolve(a, Resolve(b, t))
  {
    if a == [] {
      assert a + b == b;
    } else {
      assert (a + b)[1..] == a[1..] + b;
      ResolveAppend(a[1..], b, t);
    }
  }

  /** Steps compose; the lets of the later step come first. */
  lemma {:induction false} Compose(valueEq: ValueEq, a: Rule, b: Rule, c: Rule, ab: seq<Binding>, bc: seq<Binding>)
    requires Step(valueEq, a, b, ab) && Step(valueEq, b, c, bc)
    ensures Step(valueEq, a, c, bc + ab)
  {
    LetActionsAppend(bc, ab);
    forall i, env | Sound(i, valueEq)
      ensures Matches(i, a.body, env) ==> Matches(i, c.body, env) && RunLets(i, bc + ab, env) == env
      ensures Matches(i, c.body, env) ==> Matches(i, a.body, RunLets(i, bc + ab, env))
    {
      LetsAppend(i, bc, ab, env);
    }
    forall t | Grounded(a.body, t)
      ensures Grounded(c.body, Resolve(bc + ab, t))
    {
      ResolveAppend(bc, ab, t);
      assert Grounded(b.body, Resolve(ab, t));
    }
  }

  lemma {:induction false} StepRefl(valueEq: ValueEq, r: Rule)
    requires WellFormed(r.body)
    ensures Step(valueEq, r, r, [])
  {
  }

  /** The head of a compiled rule does on each match what the source head does on the corresponding match. */
  lemma {:induction false} SameEffect<D>(i: Interp, fx: Effects<D>, lets: seq<Binding>, actions: seq<CoreAction>,
                                         env: Env, db: D)
    requires Total(i)
    ensures RunHead(i, fx, LetActions(lets) + actions, env, db) == RunHead(i, fx, actions, RunLets(i, lets, env), db)
  {
    if lets == [] {
      assert LetActions(lets) + actions == actions;
    } else {
      var all := LetActions(lets) + actions;
      assert all[0] == LetAtomTerm(lets[0].v, lets[0].at);
      assert all[1..] == LetActions(lets[1..]) + actions;
      SameEffect(i, fx, lets[1..], actions, env[lets[0].v := Val(i, lets[0].at, env)], db);
    }
  }

  /** The value of a term after the lets is the value of what it resolves to. */
  lemma {:induction false} ResolveValue(i: Interp, lets: seq<Binding>, t: AtomTerm, env: Env)
    requires Total(i)
    ensures Val(i, t, RunLets(i, lets, env)) == Val(i, Resolve(lets, t), env)
  {
    if lets != [] {
      var next := env[lets[0].v := Val(i, lets[0].at, env)];
      ResolveValue(i, lets[1..], t, next);
    }
  }

  /** A variable that no let binds keeps its value. */
  lemma {:induction false} UnboundKept(i: Interp, lets: seq<Binding>, x: string, env: Env)
    requires Total(i)
    requires forall b :: b in lets ==> b.v != x
    ensures RunLets(i, lets, env)[x] == env[x]
  {
    if lets != [] {
      UnboundKept(i, lets[1..], x, env[lets[0].v := Val(i, lets[0].at, env)]);
    }
  }

  /** Corresponding matches exist in both directions and the heads have the same effect on them. */
  lemma {:induction false} StepKeepsMeaning<D>(valueEq: ValueEq, before: Rule, after: Rule, lets: seq<Binding>,
                                               i: Interp, fx: Effects<D>, env: Env, db: D)
    requires Step(valueEq, before, after, lets) && Sound(i, valueEq)
    ensures Matches(i, before.body, env) ==>
              Matches(i, after.body, env) && RunHead(i, fx, after.head, env, db) == RunHead(i, fx, before.head, env, db)
    ensures Matches(i, after.body, env) ==>
              Matches(i, before.body, RunLets(i, lets, env)) &&
                RunHead(i, fx, after.head, env, db) == RunHead(i, fx, before.head, RunLets(i, lets, env), db)
  {
    SameEffect(i, fx, lets, before.head, env, db);
  }
}
