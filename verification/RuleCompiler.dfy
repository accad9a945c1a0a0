/**
 The compilation of a rule as written (src/core.rs, `to_core_rule` and `to_canonicalized_core_rule`): flatten the facts,
 lower the actions, check groundedness, eliminate equalities, merge duplicates.
 */
module RuleCompiler {
  import opened CoreRules
  import opened Flatten
  import G = Groundedness
  import opened Lowering
  import opened Options
  import Q = QueryCompiler
  import R = RemoveDups
  import opened Source
  import opened SymbolGens
  import V = FreeVars

  lemma {:induction false} MentionsVars(atoms: seq<Atom>, vars: set<string>, names: seq<string>)
    requires Mentions(atoms, vars, names)
    ensures Q.Vars(atoms) <= vars + Elems(names)
  {
  }

  lemma {:induction false} QueryMentions(globals: set<string>, facts: seq<Fact>, names: seq<string>)
    requires |names| == FactCalls(facts)
    ensures Mentions(QueryAtoms(globals, facts, names), FactVars(facts), names)
  {
    hide FactAtoms;
    if facts != [] {
      var n := CallsAll(Parts(facts[0]));
      FactMentions(globals, facts[0], names[..n]);
      QueryMentions(globals, facts[1..], names[n..]);
      assert names == names[..n] + names[n..];
    }
  }

  /** The core rule of the facts and actions, with the fresh variables of its body and of its head. */
  ghost predicate CoreOf(t: Types, facts: seq<Fact>, actions: seq<Action>, core: Rule, names: seq<string>,
                         lets: seq<string>)
  {
    && |names| == FactCalls(facts) && Unique(names) && Avoids(names, FactVars(facts) + ActionVars(actions))
    && core.body == QueryAtoms(t.globals, facts, names) && WellFormed(core.body)
    && |lets| == ActionCalls(t, actions) && Unique(lets) && Avoids(lets, ActionVars(actions) + Q.Vars(core.body))
    && core.head == LowActions(t, actions, lets)
    && WellScoped(t, Q.Vars(core.body), actions)
    && BoundBeforeUse(Q.Vars(core.body), core.head, Q.Vars(core.body) + Elems(lets) + AllDefines(actions))
  }

  method ToCoreRule(t: Types, facts: seq<Fact>, actions: seq<Action>, gen: SymbolGen)
    returns (r: Lowered<Rule>, ghost atoms: seq<Atom>, ghost names: seq<string>, ghost lets: seq<string>)
    requires Spared(gen.reserved, gen.generated, FactVars(facts) + ActionVars(actions))
    modifies gen
    ensures |names| == FactCalls(facts) && atoms == QueryAtoms(t.globals, facts, names)
    ensures forall i :: Total(i) ==> ExtendsUniquely(i, t.globals, facts, atoms, names)
    ensures match FirstScopeError(t, Q.Vars(atoms), actions)
      case Some(error) => r == Fail(error) && !WellScoped(t, Q.Vars(atoms), actions)
      case None => r.Ok? && CoreOf(t, facts, actions, r.value, names, lets)
  {
    hide Q.Vars, ActionVars, FactVars, QueryAtoms, BoundBeforeUse, LowActions, ExtendsUniquely, NewNames, ActionCalls;
    hide FactCalls, WellScoped, FirstScopeError;
    var before := gen.generated;
    var body;
    body, names := FactsToQuery(t.globals, facts, gen);
    atoms := body;
    NewNamesAvoid(gen.reserved, before, gen.generated, names, FactVars(facts) + ActionVars(actions));
    NamesAreIn(gen.reserved, before, gen.generated, names);
    SparedLater(gen.reserved, before, gen.generated, names, FactVars(facts) + ActionVars(actions),
                FactVars(facts) + ActionVars(actions));
    QueryMentions(t.globals, facts, names);
    MentionsVars(body, FactVars(facts), names);
    var ctx := new CoreActionContext(t, Q.Vars(body), gen);
    var head;
    head, lets := ctx.ToCoreActions(actions);
    r := match head case Fail(error) => Fail(error) case Ok(acts) => Ok(Rule(body, acts));
  }

  lemma {:induction false} NamesAreIn(reserved: string, before: set<string>, after: set<string>, names: seq<string>)
    requires NewNames(reserved, before, after, names)
    ensures Elems(names) <= after
  {
  }

  lemma {:induction false} ReadyHeadBound(valueEq: ValueEq, core: Rule, rule: Rule, bindings: seq<Binding>,
                                          bound: set<string>)
    requires Step(valueEq, core, rule, bindings) && Q.EliminationOrder(Q.Vars(core.body), bindings, Q.Vars(rule.body))
    requires forall x :: x in Q.Vars(core.body) ==> R.BoundBy(bindings, rule.body, x)
    requires BoundBeforeUse(Q.Vars(core.body), core.head, bound)
    ensures BoundBeforeUse(Q.Vars(rule.body), rule.head, bound)
    ensures V.Collected(rule.head) == V.Free(rule.head) <= Q.Vars(rule.body)
  {
    forall x | x in Q.Vars(core.body) && Resolve(bindings, Var(x)).Var?
      ensures Resolve(bindings, Var(x)).name in Q.Vars(rule.body)
    {
      assert R.BoundBy(bindings, rule.body, x);
    }
    V.CompiledHeadBound(Q.Vars(core.body), bindings, Q.Vars(rule.body), core.head, bound);
  }

  datatype Compiled = Ready(rule: Rule) | BadScope(error: ScopeError) | BadQuery(ungrounded: string)

  /**
   Compile the rule.  It is refused exactly if a variable of an action is out of scope or one of the query is not
   grounded; otherwise the result is the core rule after meaning-preserving steps, without equalities or duplicates,
   and its lets bind every variable of the query.
   */
  method ToCanonicalizedCoreRule(valueEq: ValueEq, t: Types, facts: seq<Fact>, actions: seq<Action>, gen: SymbolGen)
    returns (c: Compiled, ghost core: Rule, ghost names: seq<string>, ghost lets: seq<string>,
             ghost bindings: seq<Binding>)
    requires Spared(gen.reserved, gen.generated, FactVars(facts) + ActionVars(actions))
    modifies gen
    ensures |names| == FactCalls(facts) && core.body == QueryAtoms(t.globals, facts, names)
    ensures forall i :: Total(i) ==> ExtendsUniquely(i, t.globals, facts, core.body, names)
    ensures c.BadScope? <==> !WellScoped(t, Q.Vars(core.body), actions)
    ensures c.BadScope? ==> FirstScopeError(t, Q.Vars(core.body), actions) == Some(c.error)
    ensures !c.BadScope? ==> CoreOf(t, facts, actions, core, names, lets)
    ensures c.Ready? <==> WellScoped(t, Q.Vars(core.body), actions) && R.Accepted(core)
    ensures c.BadQuery? ==> c.ungrounded in Q.Vars(core.body) && !Grounded(core.body, Var(c.ungrounded))
    ensures c.Ready? ==>
      && Step(valueEq, core, c.rule, bindings) && R.Calls(c.rule.body) && R.NoDups(c.rule.body)
      && Q.Eliminated(bindings, c.rule.body)
    ensures c.Ready? ==> forall x :: x in Q.Vars(core.body) ==> R.BoundBy(bindings, c.rule.body, x)
    ensures c.Ready? ==>
      BoundBeforeUse(Q.Vars(c.rule.body), c.rule.head, Q.Vars(core.body) + Elems(lets) + AllDefines(actions))
    ensures c.Ready? ==> V.Collected(c.rule.head) == V.Free(c.rule.head) <= Q.Vars(c.rule.body)
  {
    hide V.Collected, V.Free, Elems, AllDefines, Q.Vars, ActionVars, FactVars, QueryAtoms, BoundBeforeUse, LowActions;
    hide ExtendsUniquely, ActionCalls, FactCalls, WellScoped, FirstScopeError, R.Accepted, Step, R.BoundBy;
    var lowered;
    ghost var atoms;
    lowered, atoms, names, lets := ToCoreRule(t, facts, actions, gen);
    bindings := [];
    if lowered.Fail? {
      return BadScope(lowered.error), Rule(atoms, []), names, lets, bindings;
    }
    core := lowered.value;
    assert WellScoped(t, Q.Vars(core.body), actions);
    var verdict := G.GroundedCheck(lowered.value);
    if verdict.Ungrounded? {
      return BadQuery(verdict.name), core, names, lets, bindings;
    }
    var rule;
    rule, bindings := R.Compile(valueEq, lowered.value);
    c := Ready(rule);
    ReadyHeadBound(valueEq, core, rule, bindings, Q.Vars(core.body) + Elems(lets) + AllDefines(actions));
  }

  /**
   A valuation that makes the facts true extends to a match of the compiled rule, on which its head does what the
   actions do.
   */
  lemma {:induction false} SourceMatchesCompiled<D(!new)>(valueEq: ValueEq, t: Types, facts: seq<Fact>,
                                                          actions: seq<Action>, core: Rule, names: seq<string>,
                                                          lets: seq<string>,
                                       rule: Rule, bindings: seq<Binding>, i: Interp, fx: Effects<D>, env: Env, db: D)
    returns (env': Env)
    requires CoreOf(t, facts, actions, core, names, lets) && Step(valueEq, core, rule, bindings) && Sound(i, valueEq)
    requires t.unionToSet ==> StoreIsUnion(fx, t.constructors)
    requires FactsHold(i, t.globals, facts, env)
    ensures AgreeOff(names, env, env') && Matches(i, rule.body, env')
    ensures SameOutcome(RunHead(i, fx, rule.head, env', db), RunActions(i, fx, t.globals, actions, env, db),
                        names + lets)
  {
    hide StoreIsUnion, ActionVars, FactVars, QueryAtoms, LowActions, WellScoped, BoundBeforeUse, ActionCalls, FactCalls;
    env' := FillFacts(i, t.globals, facts, names, env);
    assert Avoids(names, FactVars(facts));
    QueryFilled(i, t.globals, facts, names, env);
    FillFactsKeeps(i, t.globals, facts, names, env);
    StepKeepsMeaning(valueEq, core, rule, bindings, i, fx, env', db);
    assert Avoids(names + lets, ActionVars(actions));
    LowActionsRun(i, fx, t, actions, lets, names + lets, env, env', db);
  }

  /** A match of the compiled rule, after its lets, makes the facts true, and its head does what the actions do. */
  lemma {:induction false} CompiledMatchesSource<D(!new)>(valueEq: ValueEq, t: Types, facts: seq<Fact>,
                                                          actions: seq<Action>, core: Rule, names: seq<string>,
                                                          lets: seq<string>,
                                       rule: Rule, bindings: seq<Binding>, i: Interp, fx: Effects<D>, env: Env, db: D)
    requires CoreOf(t, facts, actions, core, names, lets) && Step(valueEq, core, rule, bindings) && Sound(i, valueEq)
    requires t.unionToSet ==> StoreIsUnion(fx, t.constructors)
    requires Matches(i, rule.body, env)
    ensures FactsHold(i, t.globals, facts, RunLets(i, bindings, env))
    ensures SameOutcome(RunHead(i, fx, rule.head, env, db),
                        RunActions(i, fx, t.globals, actions, RunLets(i, bindings, env), db), lets)
  {
    hide StoreIsUnion, ActionVars, FactVars, QueryAtoms, LowActions, WellScoped, BoundBeforeUse, ActionCalls, FactCalls;
    var env' := RunLets(i, bindings, env);
    StepKeepsMeaning(valueEq, core, rule, bindings, i, fx, env, db);
    QuerySound(i, t.globals, facts, names, env');
    AgreeSelf(lets, env');
    LowActionsRun(i, fx, t, actions, lets, lets, env', env', db);
  }
}
