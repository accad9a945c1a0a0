/**
 Lowering of actions to straight-line core actions (src/core.rs, `to_core_actions`): every call becomes a let of a
 fresh variable.  `names` lists these variables in the order of the lets, a call's own after those of its arguments.
 */
module Lowering {
  import opened Ast
  import opened CoreRules
  import opened Flatten
  import opened Options
  import opened Source
  import opened SymbolGens

  datatype Action =
    | ALet(v: string, e: Source)
    | ASet(head: Head, args: seq<Source>, e: Source)
    | AChange(delete: bool, head: Head, args: seq<Source>)
    | AUnion(lhs: Source, rhs: Source)
    | APanic(msg: string)
    | AExpr(e: Source)

  datatype Types = Types(globals: set<string>, constructors: set<Head>, unionToSet: bool)

  datatype ScopeError = AlreadyDefined(v: string) | Unbound(v: string)

  datatype Lowered<+T> = Ok(value: T) | Fail(error: ScopeError)

  // ---------------------------------------------------------------- direct evaluation

  /** Evaluation from left to right; each call may change the database or fail. */
  ghost function EvalA<D>(i: Interp, fx: Effects<D>, globals: set<string>, e: Source, env: Env,
                          db: D): Option<(Value, D)>
    requires Total(i)
    decreases e, 1
  {
    match e
    case SLit(l) => Some((i.lits[l], db))
    case SVar(x) => Some((Val(i, Leaf(globals, x), env), db))
    case SCall(h, args) =>
      match EvalAllA(i, fx, globals, args, env, db)
      case None => None
      case Some((vs, db')) => fx.call(h, vs, db')
  }

  ghost function EvalAllA<D>(i: Interp, fx: Effects<D>, globals: set<string>, es: seq<Source>, env: Env,
                             db: D): (r: Option<(seq<Value>, D)>)
    requires Total(i)
    ensures r.Some? ==> |r.value.0| == |es|
    decreases es, 0
  {
    if es == [] then Some(([], db))
    else
      match EvalA(i, fx, globals, es[0], env, db)
      case None => None
      case Some((v, db')) =>
        match EvalAllA(i, fx, globals, es[1..], env, db')
        case None => None
        case Some((vs, db'')) => Some(([v] + vs, db''))
  }

  /** The expressions an action evaluates, in order. */
  function Operands(a: Action): seq<Source>
  {
    match a
    case ALet(_, e) => [e]
    case ASet(_, args, e) => args + [e]
    case AChange(_, _, args) => args
    case AUnion(lhs, rhs) => [lhs, rhs]
    case APanic(_) => []
    case AExpr(e) => [e]
  }

  /** The action, once its operands have their values. */
  ghost function Finish<D>(fx: Effects<D>, a: Action, operands: Option<(seq<Value>, D)>, env: Env): Option<(Env, D)>
    requires operands.Some? ==> |operands.value.0| == |Operands(a)|
  {
    match operands
    case None => None
    case Some((vs, db')) =>
      match a
      case ALet(v, _) => Some((env[v := vs[0]], db'))
      case APanic(_) => None
      case AExpr(_) => Some((env, db'))
      case _ =>
        match fx.update(UpdateShape(a), vs, db')
        case None => None
        case Some(db'') => Some((env, db''))
  }

  /** The database after an update, or failure. */
  function Updated<D>(env: Env, db: Option<D>): Option<(Env, D)> { if db.Some? then Some((env, db.value)) else None }

  /** What an action does, evaluating its expressions from left to right. */
  ghost function RunAction<D>(i: Interp, fx: Effects<D>, globals: set<string>, a: Action, env: Env,
                              db: D): Option<(Env, D)>
    requires Total(i)
  {
    match a
    case ALet(v, e) =>
      (match EvalA(i, fx, globals, e, env, db)
       case None => None
       case Some((x, db')) => Some((env[v := x], db')))
    case ASet(h, args, e) =>
      (match EvalAllA(i, fx, globals, args, env, db)
       case None => None
       case Some((vs, db1)) =>
         match EvalA(i, fx, globals, e, env, db1)
         case None => None
         case Some((x, db2)) => Updated(env, fx.update(CoreRules.Set(h, [], Const(Unit)), vs + [x], db2)))
    case AChange(d, h, args) =>
      (match EvalAllA(i, fx, globals, args, env, db)
       case None => None
       case Some((vs, db')) => Updated(env, fx.update(Change(d, h, []), vs, db')))
    case AUnion(lhs, rhs) =>
      (match EvalA(i, fx, globals, lhs, env, db)
       case None => None
       case Some((x, db1)) =>
         match EvalA(i, fx, globals, rhs, env, db1)
         case None => None
         case Some((y, db2)) => Updated(env, fx.update(Union(Const(Unit), Const(Unit)), [x, y], db2)))
    case APanic(_) => None
    case AExpr(e) =>
      (match EvalA(i, fx, globals, e, env, db)
       case None => None
       case Some((_, db')) => Some((env, db')))
  }

  lemma {:induction false} EvalSnoc<D>(i: Interp, fx: Effects<D>, globals: set<string>, es: seq<Source>, e: Source,
                                       env: Env, db: D)
    requires Total(i)
    ensures EvalAllA(i, fx, globals, es + [e], env, db) ==
            match EvalAllA(i, fx, globals, es, env, db)
            case None => None
            case Some((vs, db1)) =>
              match EvalA(i, fx, globals, e, env, db1)
              case None => None
              case Some((x, db2)) => Some((vs + [x], db2))
    decreases |es|
  {
    hide EvalA;
    var all := es + [e];
    if es == [] {
      assert all == [e] && all[1..] == [];
      assert EvalAllA(i, fx, globals, [], env, db) == Some(([], db));
      match EvalA(i, fx, globals, e, env, db)
      case None =>
      case Some((v, db')) =>
        assert EvalAllA(i, fx, globals, [], env, db') == Some(([], db'));
        assert [v] + [] == [v] && [] + [v] == [v];
    } else {
      assert all[0] == es[0] && all[1..] == es[1..] + [e];
      match EvalA(i, fx, globals, es[0], env, db)
      case None =>
      case Some((u, db')) =>
        EvalSnoc(i, fx, globals, es[1..], e, env, db');
        match EvalAllA(i, fx, globals, es[1..], env, db')
        case None =>
        case Some((us, db1)) =>
          match EvalA(i, fx, globals, e, env, db1)
          case None =>
          case Some((v, _)) => assert [u] + (us + [v]) == ([u] + us) + [v];
    }
  }

  lemma {:induction false} EvalOne<D>(i: Interp, fx: Effects<D>, globals: set<string>, e: Source, env: Env, db: D)
    requires Total(i)
    ensures EvalAllA(i, fx, globals, [e], env, db) ==
            match EvalA(i, fx, globals, e, env, db)
            case None => None
            case Some((x, db')) => Some(([x], db'))
    ensures EvalAllA(i, fx, globals, [], env, db) == Some(([], db))
  {
    hide EvalA;
    assert [] + [e] == [e];
    EvalSnoc(i, fx, globals, [], e, env, db);
    match EvalA(i, fx, globals, e, env, db)
    case None =>
    case Some((x, _)) => assert [] + [x] == [x];
  }

  ghost function Two<D>(i: Interp, fx: Effects<D>, globals: set<string>, e: Source, f: Source, env: Env,
                        db: D): Option<(seq<Value>, D)>
    requires Total(i)
  {
    match EvalA(i, fx, globals, e, env, db)
    case None => None
    case Some((x, db')) =>
      match EvalA(i, fx, globals, f, env, db')
      case None => None
      case Some((y, db'')) => Some(([x, y], db''))
  }

  lemma {:induction false} EvalTwo<D>(i: Interp, fx: Effects<D>, globals: set<string>, e: Source, f: Source, env: Env,
                                      db: D)
    requires Total(i)
    ensures EvalAllA(i, fx, globals, [e, f], env, db) == Two(i, fx, globals, e, f, env, db)
  {
    assert [e, f][1..] == [f] && [f][1..] == [];
    match EvalA(i, fx, globals, e, env, db)
    case None =>
    case Some((x, db1)) =>
      match EvalA(i, fx, globals, f, env, db1)
      case None => assert EvalAllA(i, fx, globals, [f], env, db1) == None;
      case Some((y, db2)) =>
        assert EvalAllA(i, fx, globals, [], env, db2) == Some(([], db2));
        assert EvalAllA(i, fx, globals, [f], env, db1) == Some(([y] + [], db2));
        assert [x] + ([y] + []) == [x, y];
  }

  /** An action evaluates its operands in order and then acts on their values; only a panic fails without them. */
  lemma {:induction false} RunActionIs<D>(i: Interp, fx: Effects<D>, globals: set<string>, a: Action, env: Env, db: D)
    requires Total(i)
    ensures RunAction(i, fx, globals, a, env, db) == Finish(fx, a, EvalAllA(i, fx, globals, Operands(a), env, db), env)
  {
    hide EvalA, EvalAllA;
    match a
    case ALet(_, e) => EvalOne(i, fx, globals, e, env, db);
    case ASet(_, args, e) => EvalSnoc(i, fx, globals, args, e, env, db);
    case AChange(_, _, _) =>
    case AUnion(lhs, rhs) => EvalTwo(i, fx, globals, lhs, rhs, env, db);
    case APanic(_) =>
    case AExpr(e) => EvalOne(i, fx, globals, e, env, db);
  }

  /** The update of an action with its operands blanked. */
  function UpdateShape(a: Action): CoreAction
  {
    match a
    case ASet(h, _, _) => CoreRules.Set(h, [], Const(Unit))
    case AChange(d, h, _) => Change(d, h, [])
    case _ => Union(Const(Unit), Const(Unit))
  }

  ghost function RunActions<D>(i: Interp, fx: Effects<D>, globals: set<string>, actions: seq<Action>, env: Env,
                               db: D): Option<(Env, D)>
    requires Total(i)
  {
    if actions == [] then Some((env, db))
    else
      match RunAction(i, fx, globals, actions[0], env, db)
      case None => None
      case Some((env', db')) => RunActions(i, fx, globals, actions[1..], env', db')
  }

  lemma {:induction false} SameEvalA<D>(i: Interp, fx: Effects<D>, globals: set<string>, e: Source, a: Env, b: Env,
                                        db: D)
    requires Total(i) && forall x :: x in Vars(e) ==> a[x] == b[x]
    ensures EvalA(i, fx, globals, e, a, db) == EvalA(i, fx, globals, e, b, db)
    decreases e, 1
  {
    if e.SCall? {
      SameEvalAllA(i, fx, globals, e.args, a, b, db);
    }
  }

  lemma {:induction false} SameEvalAllA<D>(i: Interp, fx: Effects<D>, globals: set<string>, es: seq<Source>, a: Env,
                                           b: Env, db: D)
    requires Total(i) && forall x :: x in VarsAll(es) ==> a[x] == b[x]
    ensures EvalAllA(i, fx, globals, es, a, db) == EvalAllA(i, fx, globals, es, b, db)
    decreases es, 0
  {
    if es != [] {
      SameEvalA(i, fx, globals, es[0], a, b, db);
      match EvalA(i, fx, globals, es[0], a, db)
      case None =>
      case Some((_, db')) => SameEvalAllA(i, fx, globals, es[1..], a, b, db');
    }
  }

  // ---------------------------------------------------------------- the lowered form

  function LowTerm(globals: set<string>, e: Source, names: seq<string>): AtomTerm
    requires |names| == Calls(e)
  {
    match e
    case SLit(l) => Const(l)
    case SVar(x) => Leaf(globals, x)
    case SCall(_, _) => Var(names[|names| - 1])
  }

  function LowTerms(globals: set<string>, es: seq<Source>, names: seq<string>): (ts: seq<AtomTerm>)
    requires |names| == CallsAll(es)
    ensures |ts| == |es|
  {
    if es == [] then []
    else
      var n := Calls(es[0]);
      [LowTerm(globals, es[0], names[..n])] + LowTerms(globals, es[1..], names[n..])
  }

  function LowExpr(globals: set<string>, e: Source, names: seq<string>): seq<CoreAction>
    requires |names| == Calls(e)
    decreases e, 1
  {
    match e
    case SCall(h, args) =>
      var n := |names| - 1;
      LowAll(globals, args, names[..n]) + [Let(names[n], h, LowTerms(globals, args, names[..n]))]
    case _ => []
  }

  function LowAll(globals: set<string>, es: seq<Source>, names: seq<string>): seq<CoreAction>
    requires |names| == CallsAll(es)
    decreases es, 0
  {
    if es == [] then []
    else
      var n := Calls(es[0]);
      LowExpr(globals, es[0], names[..n]) + LowAll(globals, es[1..], names[n..])
  }

  // ---------------------------------------------------------------- lets do what evaluation does

  lemma {:induction false} RunAppend<D>(i: Interp, fx: Effects<D>, a: seq<CoreAction>, b: seq<CoreAction>, env: Env,
                                        db: D)
    requires Total(i)
    ensures RunHead(i, fx, a + b, env, db) ==
            match RunHead(i, fx, a, env, db)
            case None => None
            case Some((env', db')) => RunHead(i, fx, b, env', db')
    decreases |a|
  {
    if a == [] {
      assert a + b == b;
    } else {
      assert (a + b)[0] == a[0] && (a + b)[1..] == a[1..] + b;
      match a[0]
      case Let(v, h, args) =>
        var r := fx.call(h, Vals(i, args, env), db);
        if r.Some? { RunAppend(i, fx, a[1..], b, env[v := r.value.0], r.value.1); }
      case LetAtomTerm(v, at) => RunAppend(i, fx, a[1..], b, env[v := Val(i, at, env)], db);
      case Panic(_) =>
      case act =>
        var r := fx.update(Shape(act), Vals(i, Reads(act), env), db);
        if r.Some? { RunAppend(i, fx, a[1..], b, env, r.value); }
    }
  }

  /** The run ends as the evaluation does, and the terms hold its values; only the names are assigned. */
  ghost predicate Computes<D>(i: Interp, run: Option<(Env, D)>, result: Option<(seq<Value>, D)>, names: seq<string>,
                              terms: seq<AtomTerm>, env: Env)
    requires Total(i)
  {
    match result
    case None => run.None?
    case Some((vs, db')) =>
      && run.Some? && run.value.1 == db' && AgreeOff(names, env, run.value.0)
      && Vals(i, terms, run.value.0) == vs
  }

  ghost function One<D>(r: Option<(Value, D)>): Option<(seq<Value>, D)>
  {
    match r
    case None => None
    case Some((v, db)) => Some(([v], db))
  }

  lemma {:induction false} LowMentions(globals: set<string>, e: Source, names: seq<string>)
    requires |names| == Calls(e)
    ensures forall x :: LowTerm(globals, e, names) == Var(x) ==> x in Vars(e) || x in names
  {
  }

  lemma {:induction false} ValLater(i: Interp, t: AtomTerm, vars: set<string>, a: seq<string>, b: seq<string>, env: Env,
                                    env': Env)
    requires Total(i) && AgreeOff(b, env, env') && forall x :: t == Var(x) ==> x in vars || x in a
    requires forall x :: x in b ==> x !in vars && x !in a
    ensures Val(i, t, env) == Val(i, t, env')
  {
  }

  lemma {:induction false} LowExprComputes<D>(i: Interp, fx: Effects<D>, globals: set<string>, e: Source,
                                              names: seq<string>, env: Env, db: D)
    requires Total(i) && |names| == Calls(e) && Unique(names) && Avoids(names, Vars(e))
    ensures Computes(i, RunHead(i, fx, LowExpr(globals, e, names), env, db), One(EvalA(i, fx, globals, e, env, db)),
                     names, [LowTerm(globals, e, names)], env)
    decreases e, 1
  {
    hide Unique, LowAll, LowTerms, EvalAllA;
    match e
    case SCall(h, args) =>
      var n := |names| - 1;
      var front, terms := names[..n], LowTerms(globals, args, names[..n]);
      SplitNames(names, n, Vars(e));
      LowAllComputes(i, fx, globals, args, front, env, db);
      RunAppend(i, fx, LowAll(globals, args, front), [Let(names[n], h, terms)], env, db);
      OneLet(i, fx, names[n], h, terms, front, env, RunHead(i, fx, LowAll(globals, args, front), env, db),
             EvalAllA(i, fx, globals, args, env, db));
      assert names == front + [names[n]];
    case _ =>
      assert Vals(i, [LowTerm(globals, e, names)], env) == [Val(i, LowTerm(globals, e, names), env)];
  }

  lemma {:induction false} OneLet<D>(i: Interp, fx: Effects<D>, x: string, h: Head, terms: seq<AtomTerm>,
                                     names: seq<string>, env: Env,
                  run: Option<(Env, D)>, args: Option<(seq<Value>, D)>)
    requires Total(i) && Computes(i, run, args, names, terms, env)
    ensures
      var run' := (match run case None => None case Some((env', db')) => RunHead(i, fx, [Let(x, h, terms)], env', db'));
      var result := (match args case None => None case Some((vs, db')) => fx.call(h, vs, db'));
      Computes(i, run', One(result), names + [x], [Var(x)], env)
  {
    if run.Some? {
      var (env', db') := run.value;
      assert [Let(x, h, terms)][1..] == [];
      match fx.call(h, Vals(i, terms, env'), db')
      case None =>
      case Some((v, db'')) =>
        var env'' := env'[x := v];
        assert RunHead(i, fx, [Let(x, h, terms)], env', db') == Some((env'', db''));
        assert AgreeOff(names + [x], env, env'');
        assert Vals(i, [Var(x)], env'') == [v];
    }
  }

  /** Evaluating one more expression first: its term keeps its value while the others are computed. */
  lemma {:induction false} ComputesMore<D>(i: Interp, t: AtomTerm, ts: seq<AtomTerm>, vars: set<string>, a: seq<string>,
                                           b: seq<string>, env: Env, v: Value, run1: Option<(Env, D)>,
                        run2: Option<(Env, D)>, rest: Option<(seq<Value>, D)>)
    requires Total(i) && run1.Some? && AgreeOff(a, env, run1.value.0) && Val(i, t, run1.value.0) == v
    requires Computes(i, run2, rest, b, ts, run1.value.0)
    requires (forall x :: t == Var(x) ==> x in vars || x in a) && forall x :: x in b ==> x !in vars && x !in a
    ensures Computes(i, run2, if rest.None? then None else Some(([v] + rest.value.0, rest.value.1)), a + b, [t] + ts,
                     env)
  {
    hide AgreeOff;
    if run2.Some? {
      var env1, env2 := run1.value.0, run2.value.0;
      Chain(a, b, env, env1, env2);
      ValLater(i, t, vars, a, b, env1, env2);
      assert Vals(i, [t] + ts, env2) == [Val(i, t, env2)] + Vals(i, ts, env2);
    }
  }

  lemma {:induction false} ComputesNothing<D>(i: Interp, names: seq<string>, env: Env, db: D)
    requires Total(i)
    ensures Computes(i, Some((env, db)), Some(([], db)), names, [], env)
  {
    assert Vals(i, [], env) == [];
  }

  lemma {:induction false} ComputesOne<D>(i: Interp, run: Option<(Env, D)>, r: Option<(Value, D)>, names: seq<string>,
                                          t: AtomTerm, env: Env)
    requires Total(i) && Computes(i, run, One(r), names, [t], env)
    ensures match r
      case None => run.None?
      case Some((v, db')) =>
        && run.Some? && run.value.1 == db' && AgreeOff(names, env, run.value.0)
        && Val(i, t, run.value.0) == v
  {
    if run.Some? {
      assert Vals(i, [t], run.value.0)[0] == Val(i, t, run.value.0);
    }
  }

  lemma {:induction false} LowAllComputes<D>(i: Interp, fx: Effects<D>, globals: set<string>, es: seq<Source>,
                                             names: seq<string>, env: Env, db: D)
    requires Total(i) && |names| == CallsAll(es) && Unique(names) && Avoids(names, VarsAll(es))
    ensures Computes(i, RunHead(i, fx, LowAll(globals, es, names), env, db), EvalAllA(i, fx, globals, es, env, db),
                     names, LowTerms(globals, es, names), env)
    decreases es, 0
  {
    hide Unique, LowExpr, LowTerm, EvalA, AgreeOff, Computes, Val, Avoids, Vars, VarsAll;
    if es == [] {
      ComputesNothing(i, names, env, db);
    } else {
      var n := Calls(es[0]);
      var a, b, t, ts := names[..n], names[n..], LowTerm(globals, es[0], names[..n]),
        LowTerms(globals, es[1..], names[n..]);
      SplitFor(es, names);
      var run1 := RunHead(i, fx, LowExpr(globals, es[0], a), env, db);
      var r := EvalA(i, fx, globals, es[0], env, db);
      LowExprComputes(i, fx, globals, es[0], a, env, db);
      ComputesOne(i, run1, r, a, t, env);
      RunAppend(i, fx, LowExpr(globals, es[0], a), LowAll(globals, es[1..], b), env, db);
      match r
      case None => NoneComputes<D>(i, names, LowTerms(globals, es, names), env);
      case Some((v, db1)) =>
        var env1 := run1.value.0;
        AgreeOn(a, VarsAll(es[1..]), env, env1);
        SameEvalAllA(i, fx, globals, es[1..], env, env1, db1);
        LowAllComputes(i, fx, globals, es[1..], b, env1, db1);
        LowMentions(globals, es[0], a);
        var rest := EvalAllA(i, fx, globals, es[1..], env1, db1);
        ComputesMore(i, t, ts, Vars(es[0]), a, b, env, v, run1, RunHead(i, fx, LowAll(globals, es[1..], b), env1, db1),
                     rest);
        assert a + b == names;
    }
  }

  lemma {:induction false} NoneComputes<D>(i: Interp, names: seq<string>, terms: seq<AtomTerm>, env: Env)
    requires Total(i)
    ensures Computes<D>(i, None, None, names, terms, env)
  {
  }

  // ---------------------------------------------------------------- lowering an action

  /** A union of a constructor call and a variable is stored as the call's value instead, if that is asked for. */
  predicate StoresUnion(t: Types, a: Action)
  {
    && a.AUnion? && t.unionToSet
    && ((a.lhs.SVar? && a.rhs.SCall? && a.rhs.head in t.constructors) ||
         (a.lhs.SCall? && a.rhs.SVar? && a.lhs.head in t.constructors))
  }

  /** The expressions that are lowered, in order. */
  function Visited(t: Types, a: Action): seq<Source>
  {
    if !StoresUnion(t, a) then Operands(a)
    else if a.lhs.SVar? then a.rhs.args + [a.lhs]
    else a.lhs.args + [a.rhs]
  }

  /** The core action that follows the lets, given the terms of the visited expressions. */
  function Emit(t: Types, a: Action, ts: seq<AtomTerm>): seq<CoreAction>
    requires |ts| == |Visited(t, a)|
  {
    match a
    case ALet(v, _) => [LetAtomTerm(v, ts[0])]
    case ASet(h, _, _) => [CoreRules.Set(h, ts[..|ts| - 1], ts[|ts| - 1])]
    case AChange(d, h, _) => [Change(d, h, ts)]
    case AUnion(lhs, rhs) =>
      if StoresUnion(t, a) then [CoreRules.Set(if lhs.SCall? then lhs.head else rhs.head, ts[..|ts| - 1], ts[|ts| - 1])]
      else [Union(ts[0], ts[1])]
    case APanic(msg) => [CoreRules.Panic(msg)]
    case AExpr(_) => []
  }

  function LowAction(t: Types, a: Action, names: seq<string>): seq<CoreAction>
    requires |names| == CallsAll(Visited(t, a))
  {
    LowAll(t.globals, Visited(t, a), names) + Emit(t, a, LowTerms(t.globals, Visited(t, a), names))
  }

  /** A union becomes a store exactly if that is asked for and one side is a constructor call, the other a variable. */
  lemma {:induction false} UnionsStored(t: Types, lhs: Source, rhs: Source, names: seq<string>)
    requires |names| == CallsAll(Visited(t, AUnion(lhs, rhs)))
    ensures var acts := LowAction(t, AUnion(lhs, rhs), names);
      acts != [] && (acts[|acts| - 1].Set? <==>
        t.unionToSet && ((lhs.SVar? && rhs.SCall? && rhs.head in t.constructors) ||
                         (lhs.SCall? && rhs.SVar? && lhs.head in t.constructors)))
  {
    hide LowAll, LowTerms;
    var a := AUnion(lhs, rhs);
    var ts := LowTerms(t.globals, Visited(t, a), names);
    assert |Emit(t, a, ts)| == 1;
  }

  function ActionCalls(t: Types, actions: seq<Action>): nat
  {
    if actions == [] then 0 else CallsAll(Visited(t, actions[0])) + ActionCalls(t, actions[1..])
  }

  function LowActions(t: Types, actions: seq<Action>, names: seq<string>): seq<CoreAction>
    requires |names| == ActionCalls(t, actions)
  {
    if actions == [] then []
    else
      var n := CallsAll(Visited(t, actions[0]));
      LowAction(t, actions[0], names[..n]) + LowActions(t, actions[1..], names[n..])
  }

  function ActionVars(actions: seq<Action>): set<string>
  {
    if actions == [] then {}
    else (if actions[0].ALet? then {actions[0].v} else {}) + VarsAll(Operands(actions[0])) + ActionVars(actions[1..])
  }

  ghost function Store<D>(fx: Effects<D>, h: Head, vs: seq<Value>, x: Value, db: D): Option<D>
  {
    fx.update(CoreRules.Set(h, [], Const(Unit)), vs + [x], db)
  }

  ghost function Unite<D>(fx: Effects<D>, h: Head, vs: seq<Value>, x: Value, callFirst: bool, db: D): Option<D>
  {
    match fx.call(h, vs, db)
    case None => None
    case Some((y, db')) => fx.update(Union(Const(Unit), Const(Unit)), if callFirst then [y, x] else [x, y], db')
  }

  /** Storing a value for a constructor call does what calling it and uniting the result with the value does. */
  ghost predicate StoreIsUnion<D(!new)>(fx: Effects<D>, constructors: set<Head>)
  {
    forall h, vs, x, first, db {:trigger Unite(fx, h, vs, x, first, db)} ::
      h in constructors ==> Store(fx, h, vs, x, db) == Unite(fx, h, vs, x, first, db)
  }

  /** Both fail, or both succeed with one database and valuations that differ in generated names only. */
  ghost predicate SameOutcome<D>(low: Option<(Env, D)>, direct: Option<(Env, D)>, generated: seq<string>)
  {
    match direct
    case None => low.None?
    case Some((env, db)) => low.Some? && low.value.1 == db && AgreeOff(generated, env, low.value.0)
  }

  lemma {:induction false} EmitRuns<D>(i: Interp, fx: Effects<D>, t: Types, a: Action, ts: seq<AtomTerm>, env: Env,
                                       db: D)
    requires Total(i) && !StoresUnion(t, a) && |ts| == |Operands(a)|
    ensures RunHead(i, fx, Emit(t, a, ts), env, db) == Finish(fx, a, Some((Vals(i, ts, env), db)), env)
  {
    hide Val;
    var acts := Emit(t, a, ts);
    if acts != [] {
      assert acts[1..] == [];
    }
    if a.ASet? {
      assert Reads(acts[0]) == ts;
    } else if a.AUnion? {
      assert ts == [ts[0], ts[1]];
    }
  }

  lemma {:induction false} FinishSame<D>(fx: Effects<D>, a: Action, vs: seq<Value>, db: D, generated: seq<string>,
                                         env: Env, env': Env)
    requires |vs| == |Operands(a)| && AgreeOff(generated, env, env')
    ensures SameOutcome(Finish(fx, a, Some((vs, db)), env'), Finish(fx, a, Some((vs, db)), env), generated)
  {
  }

  /** Lowered on its own, an action does what it does directly. */
  lemma {:induction false} LowActionRuns<D>(i: Interp, fx: Effects<D>, t: Types, a: Action, names: seq<string>,
                                            generated: seq<string>, env: Env, env': Env, db: D)
    requires Total(i) && !StoresUnion(t, a)
    requires |names| == CallsAll(Operands(a)) && Unique(names) && Avoids(generated, VarsAll(Operands(a)))
    requires (forall x :: x in names ==> x in generated) && AgreeOff(generated, env, env')
    ensures SameOutcome(RunHead(i, fx, LowAction(t, a, names), env', db), RunAction(i, fx, t.globals, a, env, db),
                        generated)
  {
    hide Unique, Finish, Emit, LowAll, LowTerms, EvalAllA, AgreeOff, RunAction;
    RunActionIs(i, fx, t.globals, a, env, db);
    var es, ts := Operands(a), LowTerms(t.globals, Operands(a), names);
    assert Avoids(names, VarsAll(es));
    AgreeOn(generated, VarsAll(es), env, env');
    SameEvalAllA(i, fx, t.globals, es, env, env', db);
    LowAllComputes(i, fx, t.globals, es, names, env', db);
    RunAppend(i, fx, LowAll(t.globals, es, names), Emit(t, a, ts), env', db);
    FinishNone(fx, a, env);
    match RunHead(i, fx, LowAll(t.globals, es, names), env', db)
    case None =>
    case Some((env1, db1)) =>
      EmitRuns(i, fx, t, a, ts, env1, db1);
      Weaken(names, generated, env', env1);
      Chain2(generated, env, env', env1);
      FinishSame(fx, a, Vals(i, ts, env1), db1, generated, env, env1);
  }

  lemma {:induction false} FinishNone<D>(fx: Effects<D>, a: Action, env: Env)
    ensures Finish(fx, a, None, env) == None
  {
  }

  lemma {:induction false} Weaken(names: seq<string>, generated: seq<string>, a: Env, b: Env)
    requires AgreeOff(names, a, b) && forall x :: x in names ==> x in generated
    ensures AgreeOff(generated, a, b)
  {
  }

  lemma {:induction false} Chain2(generated: seq<string>, a: Env, b: Env, c: Env)
    requires AgreeOff(generated, a, b) && AgreeOff(generated, b, c)
    ensures AgreeOff(generated, a, c)
  {
  }

  /** Evaluating the sides of a union of a call and a variable is evaluating the arguments and calling. */
  lemma {:induction false} UnionDirect<D>(i: Interp, fx: Effects<D>, globals: set<string>, a: Action, h: Head,
                                          args: seq<Source>, x: string, callFirst: bool, env: Env, db: D)
    requires Total(i) && a == if callFirst then AUnion(SCall(h, args), SVar(x)) else AUnion(SVar(x), SCall(h, args))
    ensures RunAction(i, fx, globals, a, env, db) ==
            match EvalAllA(i, fx, globals, args, env, db)
            case None => None
            case Some((vs, db')) =>
              match Unite(fx, h, vs, Val(i, Leaf(globals, x), env), callFirst, db')
              case None => None
              case Some(db'') => Some((env, db''))
  {
  }

  /** Storing instead of uniting does what the union does directly. */
  lemma {:induction false} StoredUnionRuns<D(!new)>(i: Interp, fx: Effects<D>, t: Types, a: Action, names: seq<string>,
                                                    generated: seq<string>, env: Env, env': Env, db: D)
    requires Total(i) && StoresUnion(t, a) && StoreIsUnion(fx, t.constructors)
    requires |names| == CallsAll(Visited(t, a)) && Unique(names) && Avoids(generated, VarsAll(Visited(t, a)))
    requires (forall x :: x in names ==> x in generated) && AgreeOff(generated, env, env')
    ensures SameOutcome(RunHead(i, fx, LowAction(t, a, names), env', db), RunAction(i, fx, t.globals, a, env, db),
                        generated)
  {
    hide Unique, LowAll, LowTerms, EvalAllA, AgreeOff, RunAction, StoreIsUnion;
    var callFirst := a.lhs.SCall?;
    var (call, x) := if callFirst then (a.lhs, a.rhs.name) else (a.rhs, a.lhs.name);
    var h, args := call.head, call.args;
    var es, ts := Visited(t, a), LowTerms(t.globals, Visited(t, a), names);
    var v := Val(i, Leaf(t.globals, x), env);
    assert Avoids(names, VarsAll(es));
    AgreeOn(generated, VarsAll(es), env, env');
    SameEvalAllA(i, fx, t.globals, es, env, env', db);
    LowAllComputes(i, fx, t.globals, es, names, env', db);
    RunAppend(i, fx, LowAll(t.globals, es, names), Emit(t, a, ts), env', db);
    EvalSnoc(i, fx, t.globals, args, SVar(x), env, db);
    UnionDirect(i, fx, t.globals, a, h, args, x, callFirst, env, db);
    match EvalAllA(i, fx, t.globals, args, env, db)
    case None =>
    case Some((vs, db1)) =>
      StoreFor(fx, t.constructors, h, vs, v, callFirst, db1);
      var env1 := RunHead(i, fx, LowAll(t.globals, es, names), env', db).value.0;
      StoreRuns(i, fx, h, ts, vs, v, env1, db1);
      Weaken(names, generated, env', env1);
      Chain2(generated, env, env', env1);
  }

  lemma {:induction false} StoreFor<D(!new)>(fx: Effects<D>, constructors: set<Head>, h: Head, vs: seq<Value>, x: Value,
                                             first: bool, db: D)
    requires StoreIsUnion(fx, constructors) && h in constructors
    ensures Store(fx, h, vs, x, db) == Unite(fx, h, vs, x, first, db)
  {
  }

  lemma {:induction false} StoreRuns<D>(i: Interp, fx: Effects<D>, h: Head, ts: seq<AtomTerm>, vs: seq<Value>, x: Value,
                                        env: Env, db: D)
    requires Total(i) && |ts| > 0 && Vals(i, ts, env) == vs + [x]
    ensures RunHead(i, fx, [CoreRules.Set(h, ts[..|ts| - 1], ts[|ts| - 1])], env, db) ==
            match Store(fx, h, vs, x, db) case None => None case Some(db') => Some((env, db'))
  {
    var act := CoreRules.Set(h, ts[..|ts| - 1], ts[|ts| - 1]);
    assert [act][1..] == [] && Reads(act) == ts;
  }

  lemma {:induction false} VarsAppend(a: seq<Source>, b: seq<Source>)
    ensures VarsAll(a + b) == VarsAll(a) + VarsAll(b)
  {
    if a == [] {
      assert a + b == b;
    } else {
      assert (a + b)[0] == a[0] && (a + b)[1..] == a[1..] + b;
      VarsAppend(a[1..], b);
    }
  }

  lemma {:induction false} VarsTwo(e: Source, f: Source)
    ensures VarsAll([e, f]) == Vars(e) + Vars(f) && VarsAll([e]) == Vars(e)
  {
    assert [e, f][1..] == [f] && [f][1..] == [] && [e][1..] == [] && VarsAll([]) == {};
    assert VarsAll([f]) == Vars(f);
  }

  lemma {:induction false} VisitedVars(t: Types, a: Action)
    ensures VarsAll(Visited(t, a)) == VarsAll(Operands(a))
  {
    if StoresUnion(t, a) {
      var (call, leaf) := if a.lhs.SCall? then (a.lhs, a.rhs) else (a.rhs, a.lhs);
      VarsTwo(a.lhs, a.rhs);
      VarsTwo(leaf, leaf);
      VarsAppend(call.args, [leaf]);
    }
  }

  /** The lowered actions do what the actions do directly; the valuations differ in generated names only. */
  lemma {:induction false} LowActionsRun<D(!new)>(i: Interp, fx: Effects<D>, t: Types, actions: seq<Action>,
                                                  names: seq<string>, generated: seq<string>, env: Env, env': Env,
                                                  db: D)
    requires Total(i) && (t.unionToSet ==> StoreIsUnion(fx, t.constructors))
    requires |names| == ActionCalls(t, actions) && Unique(names) && Avoids(generated, ActionVars(actions))
    requires (forall x :: x in names ==> x in generated) && AgreeOff(generated, env, env')
    ensures SameOutcome(RunHead(i, fx, LowActions(t, actions, names), env', db),
                        RunActions(i, fx, t.globals, actions, env, db), generated)
    decreases |actions|
  {
    hide Unique, AgreeOff, LowAction, RunAction, StoresUnion, Visited, Operands, StoreIsUnion;
    if actions != [] {
      var a, n := actions[0], CallsAll(Visited(t, actions[0]));
      SplitNames(names, n, {});
      VisitedVars(t, a);
      assert names == names[..n] + names[n..];
      if StoresUnion(t, a) {
        StoringIsAskedFor(t, a);
        StoredUnionRuns(i, fx, t, a, names[..n], generated, env, env', db);
      } else {
        OperandsVisited(t, a);
        LowActionRuns(i, fx, t, a, names[..n], generated, env, env', db);
      }
      RunAppend(i, fx, LowAction(t, a, names[..n]), LowActions(t, actions[1..], names[n..]), env', db);
      match RunAction(i, fx, t.globals, a, env, db)
      case None =>
      case Some((env1, db1)) =>
        var env2 := RunHead(i, fx, LowAction(t, a, names[..n]), env', db).value.0;
        LowActionsRun(i, fx, t, actions[1..], names[n..], generated, env1, env2, db1);
    }
  }

  lemma {:induction false} OperandsVisited(t: Types, a: Action)
    requires !StoresUnion(t, a)
    ensures Visited(t, a) == Operands(a)
  {
  }

  // ---------------------------------------------------------------- scopes

  /** The first variable, from left to right, that is neither bound nor a global. */
  function FirstUnbound(globals: set<string>, bound: set<string>, e: Source): Option<string>
    decreases e, 1
  {
    match e
    case SLit(_) => None
    case SVar(x) => if x in bound || x in globals then None else Some(x)
    case SCall(_, args) => FirstUnboundOf(globals, bound, args)
  }

  function FirstUnboundOf(globals: set<string>, bound: set<string>, es: seq<Source>): Option<string>
    decreases es, 0
  {
    if es == [] then None
    else
      var first := FirstUnbound(globals, bound, es[0]);
      if first.Some? then first else FirstUnboundOf(globals, bound, es[1..])
  }

  function ScopeErrorOf(t: Types, bound: set<string>, a: Action): Option<ScopeError>
  {
    if a.ALet? && a.v in bound then Some(AlreadyDefined(a.v))
    else
      match FirstUnboundOf(t.globals, bound, Visited(t, a))
      case None => None
      case Some(x) => Some(Unbound(x))
  }

  function Defines(a: Action): set<string> { if a.ALet? then {a.v} else {} }

  function FirstScopeError(t: Types, bound: set<string>, actions: seq<Action>): Option<ScopeError>
    decreases |actions|
  {
    if actions == [] then None
    else
      var first := ScopeErrorOf(t, bound, actions[0]);
      if first.Some? then first else FirstScopeError(t, bound + Defines(actions[0]), actions[1..])
  }

  /** Every used variable is bound or global, every introduced one is unbound before. */
  predicate WellScoped(t: Types, bound: set<string>, actions: seq<Action>)
    decreases |actions|
  {
    actions == [] ||
    (VarsAll(Operands(actions[0])) <= bound + t.globals && Defines(actions[0]) !! bound &&
      WellScoped(t, bound + Defines(actions[0]), actions[1..]))
  }

  lemma {:induction false} UnboundIsFirst(globals: set<string>, bound: set<string>, e: Source)
    ensures FirstUnbound(globals, bound, e).None? <==> Vars(e) <= bound + globals
    ensures FirstUnbound(globals, bound, e).Some? ==> FirstUnbound(globals, bound, e).value in Vars(e) - bound - globals
    decreases e, 1
  {
    if e.SCall? {
      UnboundIsFirstOf(globals, bound, e.args);
    }
  }

  lemma {:induction false} UnboundIsFirstOf(globals: set<string>, bound: set<string>, es: seq<Source>)
    ensures FirstUnboundOf(globals, bound, es).None? <==> VarsAll(es) <= bound + globals
    ensures FirstUnboundOf(globals, bound, es).Some? ==>
      FirstUnboundOf(globals, bound, es).value in VarsAll(es) - bound - globals
    decreases es, 0
  {
    if es != [] {
      UnboundIsFirst(globals, bound, es[0]);
      UnboundIsFirstOf(globals, bound, es[1..]);
    }
  }

  /** An error is reported exactly for the actions that are not well scoped. */
  lemma {:induction false} ScopeErrors(t: Types, bound: set<string>, actions: seq<Action>)
    ensures FirstScopeError(t, bound, actions).None? <==> WellScoped(t, bound, actions)
    decreases |actions|
  {
    if actions != [] {
      UnboundIsFirstOf(t.globals, bound, Visited(t, actions[0]));
      VisitedVars(t, actions[0]);
      ScopeErrors(t, bound + Defines(actions[0]), actions[1..]);
    }
  }

  // ---------------------------------------------------------------- bound before use

  function Uses(a: CoreAction): seq<AtomTerm>
  {
    match a
    case Let(_, _, args) => args
    case LetAtomTerm(_, at) => [at]
    case _ => Reads(a)
  }

  function Introduces(a: CoreAction): set<string> { if a.Let? || a.LetAtomTerm? then {a.v} else {} }

  /** Each core action reads bound variables only and introduces an unbound one; the variables bound at the end. */
  ghost predicate BoundBeforeUse(bound: set<string>, acts: seq<CoreAction>, bound': set<string>)
    decreases |acts|
  {
    if acts == [] then bound' == bound
    else
      && (forall x :: Var(x) in Uses(acts[0]) ==> x in bound)
      && Introduces(acts[0]) !! bound
      && BoundBeforeUse(bound + Introduces(acts[0]), acts[1..], bound')
  }

  lemma {:induction false} BoundAppend(s: set<string>, a: seq<CoreAction>, t: set<string>, b: seq<CoreAction>,
                                       u: set<string>)
    requires BoundBeforeUse(s, a, t) && BoundBeforeUse(t, b, u)
    ensures BoundBeforeUse(s, a + b, u)
    decreases |a|
  {
    if a == [] {
      assert a + b == b;
    } else {
      assert (a + b)[0] == a[0] && (a + b)[1..] == a[1..] + b;
      BoundAppend(s + Introduces(a[0]), a[1..], t, b, u);
    }
  }

  function Elems(names: seq<string>): set<string> { set x | x in names }

  lemma {:induction false} LowTermsMention(globals: set<string>, es: seq<Source>, names: seq<string>)
    requires |names| == CallsAll(es)
    ensures forall x :: Var(x) in LowTerms(globals, es, names) ==> x in VarsAll(es) - globals || x in names
  {
    if es != [] {
      var n := Calls(es[0]);
      LowTermsMention(globals, es[1..], names[n..]);
      assert names == names[..n] + names[n..];
    }
  }

  lemma {:induction false} OneLetBound(bound: set<string>, x: string, h: Head, ts: seq<AtomTerm>)
    requires x !in bound && forall y :: Var(y) in ts ==> y in bound
    ensures BoundBeforeUse(bound, [Let(x, h, ts)], bound + {x})
  {
    var acts := [Let(x, h, ts)];
    assert acts[1..] == [] && BoundBeforeUse(bound + Introduces(acts[0]), acts[1..], bound + {x});
  }

  lemma {:induction false} LastName(names: seq<string>, bound: set<string>)
    requires names != [] && Unique(names) && Avoids(names, bound)
    ensures var n := |names| - 1;
      Unique(names[..n]) && Avoids(names[..n], bound) && names[n] !in bound + Elems(names[..n]) &&
        Elems(names) == Elems(names[..n]) + {names[n]}
  {
    var n := |names| - 1;
    SplitNames(names, n, bound);
    assert names[n] in names[n..] && names == names[..n] + [names[n]];
  }

  lemma {:induction false} LowExprBound(globals: set<string>, e: Source, names: seq<string>, bound: set<string>)
    requires |names| == Calls(e) && Unique(names) && Avoids(names, bound) && Vars(e) <= bound + globals
    ensures BoundBeforeUse(bound, LowExpr(globals, e, names), bound + Elems(names))
    decreases e, 1
  {
    if e.SCall? {
      hide Unique, Avoids, LowAll, BoundBeforeUse;
      var n := |names| - 1;
      var front, terms := names[..n], LowTerms(globals, e.args, names[..n]);
      LastName(names, bound);
      LowAllBound(globals, e.args, front, bound);
      LowTermsMention(globals, e.args, front);
      OneLetBound(bound + Elems(front), names[n], e.head, terms);
      assert bound + Elems(front) + {names[n]} == bound + Elems(names);
      BoundAppend(bound, LowAll(globals, e.args, front), bound + Elems(front), [Let(names[n], e.head, terms)],
                  bound + Elems(names));
    } else {
      assert Elems(names) == {} && bound + {} == bound;
    }
  }

  lemma {:induction false} AvoidMore(names: seq<string>, n: nat, bound: set<string>)
    requires Unique(names) && Avoids(names, bound) && n <= |names|
    ensures Avoids(names[n..], bound + Elems(names[..n]))
  {
    SplitNames(names, n, bound);
  }

  lemma {:induction false} BoundJoin(bound: set<string>, a: seq<string>, b: seq<string>, first: seq<CoreAction>,
                                     rest: seq<CoreAction>)
    requires BoundBeforeUse(bound, first, bound + Elems(a))
    requires BoundBeforeUse(bound + Elems(a), rest, bound + Elems(a) + Elems(b))
    ensures BoundBeforeUse(bound, first + rest, bound + Elems(a + b))
  {
    hide BoundBeforeUse;
    ElemsAppend(a, b);
    assert bound + Elems(a) + Elems(b) == bound + Elems(a + b);
    BoundAppend(bound, first, bound + Elems(a), rest, bound + Elems(a + b));
  }

  /** The bound variables of the first expression and of the others. */
  lemma {:induction false} BoundFor(globals: set<string>, es: seq<Source>, names: seq<string>, bound: set<string>)
    requires es != [] && |names| == CallsAll(es) && Unique(names) && Avoids(names, bound)
    requires VarsAll(es) <= bound + globals
    ensures var n := Calls(es[0]);
      && n <= |names| && |names| - n == CallsAll(es[1..]) && names == names[..n] + names[n..]
      && Unique(names[..n]) && Avoids(names[..n], bound) && Vars(es[0]) <= bound + globals
      && Unique(names[n..]) && Avoids(names[n..], bound + Elems(names[..n])) &&
        VarsAll(es[1..]) <= bound + Elems(names[..n]) + globals
  {
    SplitNames(names, Calls(es[0]), bound);
    AvoidMore(names, Calls(es[0]), bound);
  }

  lemma {:induction false} LowAllBound(globals: set<string>, es: seq<Source>, names: seq<string>, bound: set<string>)
    requires |names| == CallsAll(es) && Unique(names) && Avoids(names, bound) && VarsAll(es) <= bound + globals
    ensures BoundBeforeUse(bound, LowAll(globals, es, names), bound + Elems(names))
    decreases es, 0
  {
    if es == [] {
      assert Elems(names) == {} && bound + {} == bound;
    } else {
      hide Unique, LowExpr, Avoids, BoundBeforeUse, Elems, Vars, VarsAll;
      var n := Calls(es[0]);
      var a, b := names[..n], names[n..];
      BoundFor(globals, es, names, bound);
      LowExprBound(globals, es[0], a, bound);
      LowAllBound(globals, es[1..], b, bound + Elems(a));
      BoundJoin(bound, a, b, LowExpr(globals, es[0], a), LowAll(globals, es[1..], b));
    }
  }

  lemma {:induction false} EmitBound(t: Types, a: Action, ts: seq<AtomTerm>, bound: set<string>)
    requires |ts| == |Visited(t, a)| && Defines(a) !! bound && forall x :: Var(x) in ts ==> x in bound
    ensures BoundBeforeUse(bound, Emit(t, a, ts), bound + Defines(a))
  {
    var acts := Emit(t, a, ts);
    if acts != [] {
      assert acts[1..] == [] && BoundBeforeUse(bound + Introduces(acts[0]), acts[1..], bound + Introduces(acts[0]));
    }
  }

  lemma {:induction false} LowActionBound(t: Types, a: Action, names: seq<string>, bound: set<string>)
    requires |names| == CallsAll(Visited(t, a)) && Unique(names) && Avoids(names, bound + Defines(a))
    requires VarsAll(Operands(a)) <= bound + t.globals && Defines(a) !! bound
    ensures BoundBeforeUse(bound, LowAction(t, a, names), bound + Elems(names) + Defines(a))
  {
    var es, bound' := Visited(t, a), bound + Elems(names);
    VisitedVars(t, a);
    LowAllBound(t.globals, es, names, bound);
    LowTermsMention(t.globals, es, names);
    EmitBound(t, a, LowTerms(t.globals, es, names), bound');
    BoundAppend(bound, LowAll(t.globals, es, names), bound', Emit(t, a, LowTerms(t.globals, es, names)),
                bound' + Defines(a));
  }

  lemma {:induction false} StoringIsAskedFor(t: Types, a: Action)
    requires StoresUnion(t, a)
    ensures t.unionToSet
  {
  }

  // ---------------------------------------------------------------- the compiler

  lemma {:induction false} LowAllAppend(globals: set<string>, es: seq<Source>, e: Source, a: seq<string>,
                                        b: seq<string>)
    requires |a| == CallsAll(es) && |b| == Calls(e)
    ensures CallsAll(es + [e]) == |a + b|
    ensures LowAll(globals, es + [e], a + b) == LowAll(globals, es, a) + LowExpr(globals, e, b)
    ensures LowTerms(globals, es + [e], a + b) == LowTerms(globals, es, a) + [LowTerm(globals, e, b)]
  {
    hide LowExpr, LowTerm, Calls;
    if es == [] {
      assert es + [e] == [e] && [e][1..] == [] && a + b == b && b[..|b|] == b && b[|b|..] == [];
      assert CallsAll([]) == 0;
    } else {
      var n := Calls(es[0]);
      assert (es + [e])[0] == es[0] && (es + [e])[1..] == es[1..] + [e];
      assert (a + b)[..n] == a[..n] && (a + b)[n..] == a[n..] + b;
      LowAllAppend(globals, es[1..], e, a[n..], b);
    }
  }

  lemma {:induction false} LowActionsAppend(t: Types, actions: seq<Action>, act: Action, a: seq<string>, b: seq<string>)
    requires |a| == ActionCalls(t, actions) && |b| == CallsAll(Visited(t, act))
    ensures ActionCalls(t, actions + [act]) == |a + b|
    ensures LowActions(t, actions + [act], a + b) == LowActions(t, actions, a) + LowAction(t, act, b)
  {
    if actions == [] {
      OneActionLowered(t, act, b);
      assert a == [] && a + b == b && actions + [act] == [act];
    } else {
      var n := CallsAll(Visited(t, actions[0]));
      UnfoldActions(t, actions, a);
      CallsOfAppend(t, actions, act);
      hide *;
      LowActionsAppend(t, actions[1..], act, a[n..], b);
      SplitJoined(actions, [act], 1);
      SplitJoined(a, b, n);
      UnfoldActions(t, actions + [act], a + b);
      Associate(LowAction(t, actions[0], a[..n]), LowActions(t, actions[1..], a[n..]), LowAction(t, act, b));
    }
  }

  lemma {:induction false} SplitJoined<T>(a: seq<T>, b: seq<T>, n: nat)
    requires n <= |a|
    ensures (a + b)[..n] == a[..n] && (a + b)[n..] == a[n..] + b && (a != [] ==> (a + b)[0] == a[0])
  {
  }

  lemma {:induction false} Associate<T>(a: seq<T>, b: seq<T>, c: seq<T>)
    ensures a + (b + c) == (a + b) + c
  {
  }

  lemma {:induction false} CallsOfAppend(t: Types, actions: seq<Action>, act: Action)
    ensures ActionCalls(t, actions + [act]) == ActionCalls(t, actions) + CallsAll(Visited(t, act))
  {
    hide CallsAll, Visited;
    if actions == [] {
      assert actions + [act] == [act] && [act][1..] == [];
    } else {
      CallsOfAppend(t, actions[1..], act);
      assert (actions + [act])[1..] == actions[1..] + [act];
    }
  }

  lemma {:induction false} OneActionLowered(t: Types, act: Action, b: seq<string>)
    requires |b| == CallsAll(Visited(t, act))
    ensures ActionCalls(t, []) == 0 && LowActions(t, [], []) == []
    ensures ActionCalls(t, [act]) == |b| && LowActions(t, [act], b) == LowAction(t, act, b)
  {
    hide LowAction, CallsAll, Visited;
    assert [act][1..] == [] && b[..|b|] == b && b[|b|..] == [];
    assert ActionCalls(t, []) == 0;
  }

  /** Generated names do not matter for the scope of the variables as written. */
  lemma {:induction false} ScopeIgnores(globals: set<string>, bound: set<string>, names: set<string>, e: Source)
    requires names !! Vars(e)
    ensures FirstUnbound(globals, bound + names, e) == FirstUnbound(globals, bound, e)
    decreases e, 1
  {
    if e.SCall? {
      ScopeIgnoresAll(globals, bound, names, e.args);
    }
  }

  lemma {:induction false} ScopeIgnoresAll(globals: set<string>, bound: set<string>, names: set<string>,
                                           es: seq<Source>)
    requires names !! VarsAll(es)
    ensures FirstUnboundOf(globals, bound + names, es) == FirstUnboundOf(globals, bound, es)
    decreases es, 0
  {
    if es != [] {
      ScopeIgnores(globals, bound, names, es[0]);
      ScopeIgnoresAll(globals, bound, names, es[1..]);
    }
  }

  lemma {:induction false} UnboundAppend(globals: set<string>, bound: set<string>, a: seq<Source>, b: seq<Source>)
    ensures FirstUnboundOf(globals, bound, a + b) ==
            if FirstUnboundOf(globals, bound, a).Some? then FirstUnboundOf(globals, bound, a)
            else FirstUnboundOf(globals, bound, b)
    decreases |a|
  {
    if a == [] {
      assert a + b == b;
    } else {
      assert (a + b)[0] == a[0] && (a + b)[1..] == a[1..] + b;
      UnboundAppend(globals, bound, a[1..], b);
    }
  }

  /** After the operands before it, the next one decides, whatever names were generated for those. */
  lemma {:induction false} NextUnbound(globals: set<string>, bound: set<string>, names: set<string>, es: seq<Source>,
                                       k: nat)
    requires k < |es| && names !! VarsAll(es) && FirstUnboundOf(globals, bound, es[..k]).None?
    ensures Vars(es[k]) <= VarsAll(es)
    ensures FirstUnboundOf(globals, bound, es[..k + 1]) == FirstUnbound(globals, bound + names, es[k])
    ensures FirstUnbound(globals, bound + names, es[k]).Some? ==>
      FirstUnboundOf(globals, bound, es) == FirstUnbound(globals, bound + names, es[k])
  {
    var e := es[k];
    assert es == es[..k] + ([e] + es[k + 1..]) && es[..k + 1] == es[..k] + [e] && [e][1..] == [] &&
      ([e] + es[k + 1..])[1..] == es[k + 1..];
    VarsAppend(es[..k], [e] + es[k + 1..]);
    UnboundAppend(globals, bound, es[..k], [e]);
    UnboundAppend(globals, bound, es[..k], [e] + es[k + 1..]);
    ScopeIgnores(globals, bound, names, e);
    assert FirstUnboundOf(globals, bound, []).None?;
  }

  lemma {:induction false} ElemsAppend(a: seq<string>, b: seq<string>)
    ensures Elems(a + b) == Elems(a) + Elems(b)
  {
  }

  lemma {:induction false} NothingLowered(t: Types, bound: set<string>)
    ensures Elems([]) == {} && CallsAll([]) == 0 && ActionCalls(t, []) == 0
    ensures FirstUnboundOf(t.globals, bound, []).None?
    ensures LowTerms(t.globals, [], []) == [] && LowAll(t.globals, [], []) == [] && LowActions(t, [], []) == []
    ensures AllDefines([]) == {} && FirstScopeError(t, bound, []).None?
  {
  }

  lemma {:induction false} NamesAreNotUsed(reserved: string, before: set<string>, after: set<string>,
                                           names: seq<string>, vars: set<string>)
    requires NewNames(reserved, before, after, names) && Spared(reserved, before, vars)
    ensures Elems(names) !! vars
  {
  }

  lemma {:induction false} OperandVars(actions: seq<Action>, k: nat)
    requires k < |actions|
    ensures VarsAll(Operands(actions[k])) + Defines(actions[k]) <= ActionVars(actions)
  {
    if k > 0 {
      OperandVars(actions[1..], k - 1);
    }
  }

  function AllDefines(actions: seq<Action>): set<string>
  {
    if actions == [] then {} else Defines(actions[0]) + AllDefines(actions[1..])
  }

  lemma {:induction false} ScopeAppend(t: Types, bound: set<string>, a: seq<Action>, b: seq<Action>)
    ensures AllDefines(a + b) == AllDefines(a) + AllDefines(b)
    ensures FirstScopeError(t, bound, a + b) ==
            if FirstScopeError(t, bound, a).Some? then FirstScopeError(t, bound, a)
            else FirstScopeError(t, bound + AllDefines(a), b)
    decreases |a|
  {
    hide ScopeErrorOf;
    if a == [] {
      assert a + b == b && bound + {} == bound;
    } else {
      assert (a + b)[0] == a[0] && (a + b)[1..] == a[1..] + b;
      ScopeAppend(t, bound + Defines(a[0]), a[1..], b);
      assert bound + Defines(a[0]) + AllDefines(a[1..]) == bound + AllDefines(a);
    }
  }

  /** After the actions before it, the next one decides, whatever names were generated for those. */
  lemma {:induction false} NextScopeError(t: Types, bound: set<string>, names: set<string>, actions: seq<Action>,
                                          k: nat)
    requires k < |actions| && names !! ActionVars(actions) && FirstScopeError(t, bound, actions[..k]).None?
    ensures var error := ScopeErrorOf(t, bound + AllDefines(actions[..k]) + names, actions[k]);
      FirstScopeError(t, bound, actions[..k + 1]) == error &&
        (error.Some? ==> FirstScopeError(t, bound, actions) == error)
    ensures AllDefines(actions[..k + 1]) == AllDefines(actions[..k]) + Defines(actions[k])
  {
    var a, rest := actions[k], actions[k + 1..];
    assert actions == actions[..k] + ([a] + rest) && actions[..k + 1] == actions[..k] + [a] && [a][1..] == [] &&
      ([a] + rest)[1..] == rest;
    ScopeAppend(t, bound, actions[..k], [a]);
    ScopeAppend(t, bound, actions[..k], [a] + rest);
    OperandVars(actions, k);
    VisitedVars(t, a);
    ScopeIgnoresAll(t.globals, bound + AllDefines(actions[..k]), names, Visited(t, a));
    assert AllDefines([a]) == Defines(a) + AllDefines([]) && AllDefines([]) == {};
  }

  lemma {:induction false} ScopedMore(t: Types, bound: set<string>, extra: set<string>, actions: seq<Action>)
    requires WellScoped(t, bound, actions) && extra !! ActionVars(actions)
    ensures WellScoped(t, bound + extra, actions)
    decreases |actions|
  {
    if actions != [] {
      ScopedMore(t, bound + Defines(actions[0]), extra, actions[1..]);
      assert bound + Defines(actions[0]) + extra == bound + extra + Defines(actions[0]);
    }
  }

  /** What the first action and the rest of the names give for the others. */
  lemma {:induction false} AfterFirst(t: Types, actions: seq<Action>, names: seq<string>, bound: set<string>, n: nat)
    requires actions != [] && n <= |names| && Unique(names) && Avoids(names, bound + ActionVars(actions))
    requires WellScoped(t, bound, actions)
    ensures Unique(names[..n]) && Unique(names[n..]) && Avoids(names[..n], bound + Defines(actions[0]))
    ensures VarsAll(Operands(actions[0])) <= bound + t.globals && Defines(actions[0]) !! bound
    ensures var bound' := bound + Elems(names[..n]) + Defines(actions[0]);
      WellScoped(t, bound', actions[1..]) && Avoids(names[n..], bound' + ActionVars(actions[1..]))
  {
    SplitNames(names, n, bound + ActionVars(actions));
    ScopedMore(t, bound + Defines(actions[0]), Elems(names[..n]), actions[1..]);
    assert bound + Defines(actions[0]) + Elems(names[..n]) == bound + Elems(names[..n]) + Defines(actions[0]);
  }

  lemma {:induction false} BoundSets(bound: set<string>, front: seq<string>, back: seq<string>, a: Action,
                                     rest: seq<Action>)
    ensures bound + Elems(front) + Defines(a) + Elems(back) + AllDefines(rest) ==
      bound + Elems(front + back) + AllDefines([a] + rest)
  {
    ElemsAppend(front, back);
    assert ([a] + rest)[1..] == rest;
  }

  /** The lowered actions use bound variables only, and introduce unbound ones. */
  lemma {:induction false} LowActionsBound(t: Types, actions: seq<Action>, names: seq<string>, bound: set<string>)
    requires |names| == ActionCalls(t, actions) && Unique(names) && Avoids(names, bound + ActionVars(actions))
    requires WellScoped(t, bound, actions)
    ensures BoundBeforeUse(bound, LowActions(t, actions, names), bound + Elems(names) + AllDefines(actions))
    decreases |actions|
  {
    if actions == [] {
      NothingBound(t, names, bound);
    } else {
      var a, n := actions[0], CallsAll(Visited(t, actions[0]));
      var front, back := names[..n], names[n..];
      UnfoldActions(t, actions, names);
      hide *;
      var bound' := bound + Elems(front) + Defines(a);
      AfterFirst(t, actions, names, bound, n);
      LowActionBound(t, a, front, bound);
      LowActionsBound(t, actions[1..], back, bound');
      assert actions == [a] + actions[1..];
      BoundSets(bound, front, back, a, actions[1..]);
      BoundAppend(bound, LowAction(t, a, front), bound', LowActions(t, actions[1..], back),
                  bound + Elems(names) + AllDefines(actions));
    }
  }

  lemma {:induction false} NothingBound(t: Types, names: seq<string>, bound: set<string>)
    requires |names| == ActionCalls(t, [])
    ensures BoundBeforeUse(bound, LowActions(t, [], names), bound + Elems(names) + AllDefines([]))
  {
    assert bound + Elems(names) + AllDefines([]) == bound;
  }

  lemma {:induction false} UnfoldActions(t: Types, actions: seq<Action>, names: seq<string>)
    requires actions != [] && |names| == ActionCalls(t, actions)
    ensures var n := CallsAll(Visited(t, actions[0]));
      && n <= |names| && |names| - n == ActionCalls(t, actions[1..]) && names == names[..n] + names[n..]
      && LowActions(t, actions, names) == LowAction(t, actions[0], names[..n]) + LowActions(t, actions[1..], names[n..])
  {
    hide LowAction, CallsAll, Visited;
  }

  class CoreActionContext {
    const types: Types
    const gen: SymbolGen
    var binding: set<string>

    constructor (types: Types, binding: set<string>, gen: SymbolGen)
      ensures this.types == types && this.binding == binding && this.gen == gen
    {
      this.types, this.binding, this.gen := types, binding, gen;
    }

    method ExprToCoreActions(e: Source,
                             actions: seq<CoreAction>)
      returns (r: Lowered<AtomTerm>, actions': seq<CoreAction>, ghost names: seq<string>)
      requires Spared(gen.reserved, gen.generated, Vars(e))
      modifies this, gen
      ensures NewNames(gen.reserved, old(gen.generated), gen.generated, names)
      ensures binding == old(binding) + Elems(names)
      ensures match FirstUnbound(types.globals, old(binding), e)
        case Some(x) => r == Fail(Unbound(x))
        case None =>
          && |names| == Calls(e) && r == Ok(LowTerm(types.globals, e, names))
          && actions' == actions + LowExpr(types.globals, e, names)
      decreases e, 1
    {
      hide *;
      NoNewNames(gen.reserved, gen.generated);
      ExprForm(types.globals, binding, e);
      names, actions' := [], actions;
      assert actions + [] == actions;
      match e
      case SLit(l) => r := Ok(Const(l));
      case SVar(x) =>
        if x in binding || x in types.globals {
          r := Ok(Leaf(types.globals, x));
        } else {
          r := Fail(Unbound(x));
        }
      case SCall(h, args) =>
        var terms;
        terms, actions', names := ExprsToCoreActions(args, actions);
        if terms.Fail? {
          return Fail(terms.error), actions', names;
        }
        ghost var mid := gen.generated;
        var name := gen.FreshName(Hint(h));
        binding := binding + {name};
        GeneratedIsReserved(gen);
        OneNewName(gen.reserved, mid, gen.generated, name);
        NewNamesJoin(gen.reserved, old(gen.generated), mid, gen.generated, names, [name]);
        ElemsAppend(names, [name]);
        CallLowered(types.globals, h, args, names, name);
        assert (actions + LowAll(types.globals, args, names)) + [Let(name, h, terms.value)] ==
               actions + (LowAll(types.globals, args, names) + [Let(name, h, terms.value)]);
        actions' := actions' + [Let(name, h, terms.value)];
        names := names + [name];
        r := Ok(Var(name));
    }

    method ExprsToCoreActions(es: seq<Source>,
                              actions: seq<CoreAction>)
      returns (r: Lowered<seq<AtomTerm>>, actions': seq<CoreAction>, ghost names: seq<string>)
      requires Spared(gen.reserved, gen.generated, VarsAll(es))
      modifies this, gen
      ensures NewNames(gen.reserved, old(gen.generated), gen.generated, names)
      ensures binding == old(binding) + Elems(names)
      ensures match FirstUnboundOf(types.globals, old(binding), es)
        case Some(x) => r == Fail(Unbound(x))
        case None =>
          && |names| == CallsAll(es) && r == Ok(LowTerms(types.globals, es, names))
          && actions' == actions + LowAll(types.globals, es, names)
      decreases es, 0
    {
      hide NewNames, Elems, LowAll, LowTerms, FirstUnboundOf, FirstUnbound, VarsAll, CallsAll;
      NoNewNames(gen.reserved, gen.generated);
      NothingLowered(types, binding);
      names, actions' := [], actions;
      var terms := [];
      for k := 0 to |es|
        invariant NewNames(gen.reserved, old(gen.generated), gen.generated, names)
        invariant binding == old(binding) + Elems(names)
        invariant FirstUnboundOf(types.globals, old(binding), es[..k]).None?
        invariant |names| == CallsAll(es[..k]) && terms == LowTerms(types.globals, es[..k], names)
        invariant actions' == actions + LowAll(types.globals, es[..k], names)
      {
        ghost var mid, before := gen.generated, names;
        ghost var more;
        var term;
        NamesAreNotUsed(gen.reserved, old(gen.generated), gen.generated, names, VarsAll(es));
        NextUnbound(types.globals, old(binding), Elems(names), es, k);
        SparedLater(gen.reserved, old(gen.generated), gen.generated, names, VarsAll(es), Vars(es[k]));
        term, actions', more := ExprToCoreActions(es[k], actions');
        NewNamesJoin(gen.reserved, old(gen.generated), mid, gen.generated, names, more);
        ElemsAppend(names, more);
        names := names + more;
        if term.Fail? {
          return Fail(term.error), actions', names;
        }
        LowAllAppend(types.globals, es[..k], es[k], before, more);
        assert es[..k + 1] == es[..k] + [es[k]];
        terms := terms + [term.value];
      }
      assert es[..|es|] == es;
      r := Ok(terms);
    }

    method ActionToCoreActions(a: Action,
                               actions: seq<CoreAction>)
      returns (error: Option<ScopeError>, actions': seq<CoreAction>, ghost names: seq<string>)
      requires Spared(gen.reserved, gen.generated, VarsAll(Operands(a)) + Defines(a))
      modifies this, gen
      ensures NewNames(gen.reserved, old(gen.generated), gen.generated, names)
      ensures error == ScopeErrorOf(types, old(binding), a)
      ensures error.None? ==>
        |names| == CallsAll(Visited(types, a)) && actions' == actions + LowAction(types, a, names) &&
          binding == old(binding) + Elems(names) + Defines(a)
    {
      hide NewNames, Elems, LowAll, LowTerms, FirstUnboundOf, VarsAll, CallsAll, Visited, Emit, Operands;
      if a.ALet? && a.v in binding {
        NoNewNames(gen.reserved, gen.generated);
        return Some(AlreadyDefined(a.v)), actions, [];
      }
      VisitedVars(types, a);
      var terms;
      terms, actions', names := ExprsToCoreActions(Visited(types, a), actions);
      if terms.Fail? {
        return Some(terms.error), actions', names;
      }
      error := None;
      actions' := actions' + Emit(types, a, terms.value);
      if a.ALet? {
        binding := binding + {a.v};
      } else if a.ASet? || a.AChange? || StoresUnion(types, a) {
        ghost var mid := gen.generated;
        var unused := gen.FreshName(Hint(Target(a)));
        NewNamesMore(gen.reserved, old(gen.generated), mid, gen.generated, names);
      }
      assert actions + LowAll(types.globals, Visited(types, a), names) + Emit(types, a, terms.value) ==
        actions + LowAction(types, a, names);
    }

    /** Lower the actions, or report the first variable that is unbound where used or bound where introduced. */
    method ToCoreActions(actions: seq<Action>) returns (r: Lowered<seq<CoreAction>>, ghost names: seq<string>)
      requires Spared(gen.reserved, gen.generated, ActionVars(actions) + binding)
      modifies this, gen
      ensures NewNames(gen.reserved, old(gen.generated), gen.generated, names) && Unique(names)
      ensures Avoids(names, ActionVars(actions) + old(binding))
      ensures match FirstScopeError(types, old(binding), actions)
        case Some(error) => r == Fail(error) && !WellScoped(types, old(binding), actions)
        case None =>
          && WellScoped(types, old(binding), actions) && |names| == ActionCalls(types, actions)
          && r == Ok(LowActions(types, actions, names))
      ensures r.Ok? ==> BoundBeforeUse(old(binding), r.value, old(binding) + Elems(names) + AllDefines(actions))
    {
      hide NewNames, Elems, LowAction, LowActions, FirstScopeError, ScopeErrorOf, ActionVars, ActionCalls, AllDefines;
      hide WellScoped;
      NoNewNames(gen.reserved, gen.generated);
      NothingLowered(types, binding);
      ScopeErrors(types, binding, actions);
      names := [];
      var out: seq<CoreAction> := [];
      for k := 0 to |actions|
        invariant NewNames(gen.reserved, old(gen.generated), gen.generated, names)
        invariant binding == old(binding) + AllDefines(actions[..k]) + Elems(names)
        invariant FirstScopeError(types, old(binding), actions[..k]).None?
        invariant |names| == ActionCalls(types, actions[..k]) && out == LowActions(types, actions[..k], names)
      {
        ghost var mid, before := gen.generated, names;
        ghost var more;
        var error;
        OperandVars(actions, k);
        NamesAreNotUsed(gen.reserved, old(gen.generated), gen.generated, names, ActionVars(actions));
        NextScopeError(types, old(binding), Elems(names), actions, k);
        SparedLater(gen.reserved, old(gen.generated), gen.generated, names,
                    ActionVars(actions) + old(binding), VarsAll(Operands(actions[k])) + Defines(actions[k]));
        error, out, more := ActionToCoreActions(actions[k], out);
        NewNamesJoin(gen.reserved, old(gen.generated), mid, gen.generated, names, more);
        ElemsAppend(names, more);
        names := names + more;
        if error.Some? {
          NewNamesAvoid(gen.reserved, old(gen.generated), gen.generated, names, ActionVars(actions) + old(binding));
          return Fail(error.value), names;
        }
        LowActionsAppend(types, actions[..k], actions[k], before, more);
        assert actions[..k + 1] == actions[..k] + [actions[k]];
      }
      assert actions[..|actions|] == actions;
      r := Ok(out);
      NewNamesAvoid(gen.reserved, old(gen.generated), gen.generated, names, ActionVars(actions) + old(binding));
      LowActionsBound(types, actions, names, old(binding));
    }
  }

  /** The table whose name is the hint for the unused variable of an update. */
  function Target(a: Action): Head
    requires a.ASet? || a.AChange? || (a.AUnion? && (a.lhs.SCall? || a.rhs.SCall?))
  {
    match a
    case ASet(h, _, _) => h
    case AChange(_, h, _) => h
    case AUnion(lhs, rhs) => if lhs.SCall? then lhs.head else rhs.head
  }

  lemma {:induction false} NewNamesMore(reserved: string, s: set<string>, t: set<string>, u: set<string>,
                                        names: seq<string>)
    requires NewNames(reserved, s, t, names) && t <= u
    ensures NewNames(reserved, s, u, names)
  {
  }

  lemma {:induction false} ExprForm(globals: set<string>, bound: set<string>, e: Source)
    ensures match e
      case SLit(l) =>
        && FirstUnbound(globals, bound, e) == None && Calls(e) == 0 && LowTerm(globals, e, []) == Const(l)
        && LowExpr(globals, e, []) == []
      case SVar(x) =>
        && FirstUnbound(globals, bound, e) == (if x in bound || x in globals then None else Some(x))
        && Calls(e) == 0 && LowTerm(globals, e, []) == Leaf(globals, x) && LowExpr(globals, e, []) == []
      case SCall(_, args) =>
        FirstUnbound(globals, bound, e) == FirstUnboundOf(globals, bound, args) && Vars(e) == VarsAll(args)
    ensures Elems([]) == {}
  {
    hide LowAll, LowTerms, CallsAll, FirstUnboundOf, Leaf, VarsAll;
  }

  lemma {:induction false} GeneratedIsReserved(gen: SymbolGen)
    ensures forall x :: gen.IsReserved(x) ==> gen.reserved <= x
  {
  }

  lemma {:induction false} CallLowered(globals: set<string>, h: Head, args: seq<Source>, names: seq<string>,
                                       name: string)
    ensures Elems([name]) == {name}
    ensures |names| == CallsAll(args) ==>
      && Calls(SCall(h, args)) == |names + [name]| && LowTerm(globals, SCall(h, args), names + [name]) == Var(name)
      && LowExpr(globals, SCall(h, args), names + [name]) ==
         LowAll(globals, args, names) + [Let(name, h, LowTerms(globals, args, names))]
  {
    hide LowAll, LowTerms, CallsAll;
    assert (names + [name])[..|names|] == names;
  }

  lemma {:induction false} OneNewName(reserved: string, before: set<string>, after: set<string>, name: string)
    requires after == before + {name} && name !in before && reserved <= name
    ensures NewNames(reserved, before, after, [name])
  {
  }
}
