/**
 Canonicalization and removal of duplicate calls (src/core.rs): equalities are substituted away, and
 calls with equal inputs are merged until no two atoms share a head and inputs.
 */
module QueryCompiler {
  import opened Ast
  import opened CoreRules
  import opened Options

  // ---------------------------------------------------------------- substitution

  function SubstAtom(x: string, y: AtomTerm, a: Atom): Atom
  {
    Atom(a.head, seq(|a.args|, k requires 0 <= k < |a.args| => SubstTerm(x, y, a.args[k])))
  }

  function SubstBody(x: string, y: AtomTerm, body: seq<Atom>): (r: seq<Atom>)
  {
    seq(|body|, k requires 0 <= k < |body| => SubstAtom(x, y, body[k]))
  }

  function SubstRule(x: string, y: AtomTerm, r: Rule): Rule
  {
    Rule(SubstBody(x, y, r.body), [LetAtomTerm(x, y)] + r.head)
  }

  function TermVars(ts: seq<AtomTerm>): set<string> { set t | t in ts && t.Var? :: t.name }

  function Vars(body: seq<Atom>): set<string> { set a, t | a in body && t in a.args && t.Var? :: t.name }

  /** The first equality of a variable and another term, as the substitution it calls for. */
  function ToSubst(body: seq<Atom>): (r: Option<(string, AtomTerm)>)
    requires WellFormed(body)
    ensures r.Some? ==> exists a :: a in body && Equates(a, r.value.0, r.value.1)
    ensures r.None? ==> forall a :: a in body && a.head.Eq? && a.args[0] != a.args[1] ==>
      !a.args[0].Var? && !a.args[1].Var?
  {
    if body == [] then None
    else
      var a := body[0];
      if a.head.Eq? && a.args[0] != a.args[1] && a.args[0].Var? then Some((a.args[0].name, a.args[1]))
      else if a.head.Eq? && a.args[0] != a.args[1] && a.args[1].Var? then Some((a.args[1].name, a.args[0]))
      else ToSubst(body[1..])
  }

  predicate Equates(a: Atom, x: string, y: AtomTerm)
  {
    a.head.Eq? && |a.args| == 2 && y != Var(x) && (a.args == [Var(x), y] || a.args == [y, Var(x)])
  }

  lemma {:induction false} SubstValue(i: Interp, x: string, y: AtomTerm, a: Atom, env: Env)
    requires Total(i)
    requires if a.head.Eq? then |a.args| == 2 else |a.args| >= 1
    ensures Holds(i, SubstAtom(x, y, a), env) <==> Holds(i, a, env[x := Val(i, y, env)])
  {
    var env', b := env[x := Val(i, y, env)], SubstAtom(x, y, a);
    assert forall k :: 0 <= k < |a.args| ==> Val(i, b.args[k], env) == Val(i, a.args[k], env');
    if a.head.Head? {
      assert Vals(i, Inputs(b), env) == Vals(i, Inputs(a), env');
    }
  }

  lemma {:induction false} SubstIsStep(valueEq: ValueEq, r: Rule, x: string, y: AtomTerm)
    requires WellFormed(r.body) && exists a :: a in r.body && Equates(a, x, y)
    ensures Step(valueEq, r, SubstRule(x, y, r), [Binding(x, y)])
  {
    var r', lets := SubstRule(x, y, r), [Binding(x, y)];
    assert forall k :: 0 <= k < |r.body| ==> r'.body[k] == SubstAtom(x, y, r.body[k]);
    assert LetActions(lets) == [LetAtomTerm(x, y)] by {
      assert lets[1..] == [];
    }
    forall i, env | Sound(i, valueEq)
      ensures Matches(i, r.body, env) ==> Matches(i, r'.body, env) && RunLets(i, lets, env) == env
      ensures Matches(i, r'.body, env) ==> Matches(i, r.body, RunLets(i, lets, env))
    {
      var env' := env[x := Val(i, y, env)];
      assert RunLets(i, lets, env) == env' by {
        assert lets[1..] == [];
      }
      if Matches(i, r.body, env) {
        var a :| a in r.body && Equates(a, x, y);
        assert Holds(i, a, env);
        assert env' == env;
      }
      forall k | 0 <= k < |r.body|
        ensures Holds(i, r'.body[k], env) <==> Holds(i, r.body[k], env')
      {
        SubstValue(i, x, y, r.body[k], env);
      }
    }
    forall t | Grounded(r.body, t)
      ensures Grounded(r'.body, Resolve(lets, t))
    {
      assert lets[1..] == [] && Resolve(lets, t) == SubstTerm(x, y, t);
      forall s | GroundClosed(r'.body, s)
        ensures SubstTerm(x, y, t) in s
      {
        SubstGroundClosed(r.body, x, y, s);
      }
    }
  }

  /** The terms that substitution takes into a closed set form a closed set. */
  lemma {:induction false} SubstGroundClosed(body: seq<Atom>, x: string, y: AtomTerm, s: iset<AtomTerm>)
    requires WellFormed(body) && GroundClosed(SubstBody(x, y, body), s)
    ensures GroundClosed(body, iset t | SubstTerm(x, y, t) in s)
  {
    var s' := iset t | SubstTerm(x, y, t) in s;
    forall t: AtomTerm | !t.Var? ensures t in s' {
      assert SubstTerm(x, y, t) == t;
    }
    hide GroundAtom, SubstAtom, SubstTerm;
    forall k | 0 <= k < |body|
      ensures GroundAtom(body[k], s')
    {
      assert SubstBody(x, y, body)[k] == SubstAtom(x, y, body[k]);
      assert SubstAtom(x, y, body[k]) in SubstBody(x, y, body);
      SubstGroundAtom(body[k], x, y, s, s');
    }
  }

  lemma {:induction false} SubstGroundAtom(a: Atom, x: string, y: AtomTerm, s: iset<AtomTerm>, s': iset<AtomTerm>)
    requires if a.head.Eq? then |a.args| == 2 else |a.args| >= 1
    requires GroundAtom(SubstAtom(x, y, a), s) && forall t :: t in s' <==> SubstTerm(x, y, t) in s
    ensures GroundAtom(a, s')
  {
    var b := SubstAtom(x, y, a);
    hide SubstTerm;
    assert forall j :: 0 <= j < |a.args| ==> b.args[j] == SubstTerm(x, y, a.args[j]);
    assert forall j :: 0 <= j < |a.args| ==> (a.args[j] in s' <==> b.args[j] in s);
    if a.head.Head? {
      assert forall t :: t in Inputs(b) ==>
        exists j :: 0 <= j < |Inputs(a)| && Inputs(b)[j] == t && Inputs(a)[j] in Inputs(a);
    }
  }

  /** Substitution removes the variable and adds none. */
  lemma {:induction false} SubstVars(body: seq<Atom>, x: string, y: AtomTerm)
    requires exists a :: a in body && Equates(a, x, y)
    ensures Vars(SubstBody(x, y, body)) < Vars(body) && x !in Vars(SubstBody(x, y, body))
  {
    var e :| e in body && Equates(e, x, y);
    var body' := SubstBody(x, y, body);
    assert e.args[0] in e.args && e.args[1] in e.args;
    assert x in Vars(body);
    forall n | n in Vars(body')
      ensures n in Vars(body) && n != x
    {
      var a', t' :| a' in body' && t' in a'.args && t'.Var? && t'.name == n;
      var k :| 0 <= k < |body| && a' == body'[k];
      var j :| 0 <= j < |body[k].args| && t' == SubstTerm(x, y, body[k].args[j]);
      assert body[k] in body && body[k].args[j] in body[k].args;
    }
  }

  // ---------------------------------------------------------------- dropping and translating the remaining equalities

  const UNIT: AtomTerm := Const(Unit)

  function Translate(valueEq: ValueEq, a: Atom): Option<Atom>
  {
    if a.head.Head? || |a.args| != 2 then Some(a)
    else if a.args[0] == a.args[1] then None
    else Some(Atom(Head(valueEq(a.args[0], a.args[1])), [a.args[0], a.args[1], UNIT]))
  }

  function TranslateAll(valueEq: ValueEq, body: seq<Atom>): seq<Atom>
  {
    if body == [] then []
    else
      var rest := TranslateAll(valueEq, body[..|body| - 1]);
      match Translate(valueEq, body[|body| - 1])
      case None => rest
      case Some(a) => rest + [a]
  }

  lemma {:induction false} Translated(valueEq: ValueEq, body: seq<Atom>, b: Atom)
    ensures b in TranslateAll(valueEq, body) <==> exists a :: a in body && Translate(valueEq, a) == Some(b)
  {
    if body != [] {
      Translated(valueEq, body[..|body| - 1], b);
      assert body == body[..|body| - 1] + [body[|body| - 1]];
    }
  }

  lemma {:induction false} TranslatedForm(valueEq: ValueEq, body: seq<Atom>)
    requires WellFormed(body)
    ensures WellFormed(TranslateAll(valueEq, body)) && NoEq(TranslateAll(valueEq, body))
    ensures Vars(TranslateAll(valueEq, body)) <= Vars(body)
  {
    forall b | b in TranslateAll(valueEq, body)
      ensures b.head.Head? && |b.args| >= 1 && forall t :: t in b.args && t.Var? ==> t.name in Vars(body)
    {
      Translated(valueEq, body, b);
      var a :| a in body && Translate(valueEq, a) == Some(b);
      assert forall t :: t in b.args && t.Var? ==> t in a.args;
    }
  }

  lemma {:induction false} TranslateHolds(i: Interp, valueEq: ValueEq, a: Atom, env: Env)
    requires Sound(i, valueEq) && if a.head.Eq? then |a.args| == 2 else |a.args| >= 1
    ensures Translate(valueEq, a).None? ==> Holds(i, a, env)
    ensures Translate(valueEq, a).Some? ==> (Holds(i, Translate(valueEq, a).value, env) <==> Holds(i, a, env))
  {
    if a.head.Eq? && a.args[0] != a.args[1] {
      var b := Translate(valueEq, a).value;
      var x, y := Val(i, a.args[0], env), Val(i, a.args[1], env);
      assert (valueEq(a.args[0], a.args[1]), [x, y]) in i.calls <==> x == y;
      assert Inputs(b) == [a.args[0], a.args[1]] && Vals(i, Inputs(b), env) == [x, y];
    }
  }

  /** With no variable left to substitute, the remaining equalities can be dropped or turned into `value-eq` calls. */
  lemma {:induction false} TranslateIsStep(valueEq: ValueEq, r: Rule)
    requires WellFormed(r.body) && ToSubst(r.body).None?
    ensures WellFormed(TranslateAll(valueEq, r.body))
    ensures Step(valueEq, r, Rule(TranslateAll(valueEq, r.body), r.head), [])
  {
    var body' := TranslateAll(valueEq, r.body);
    TranslatedForm(valueEq, r.body);
    forall i, env | Sound(i, valueEq)
      ensures Matches(i, r.body, env) <==> Matches(i, body', env)
    {
      forall a | a in r.body
        ensures Translate(valueEq, a).None? ==> Holds(i, a, env)
        ensures Translate(valueEq, a).Some? ==>
          Translate(valueEq, a).value in body' && (Holds(i, Translate(valueEq, a).value, env) <==> Holds(i, a, env))
      {
        TranslateHolds(i, valueEq, a, env);
        if Translate(valueEq, a).Some? {
          Translated(valueEq, r.body, Translate(valueEq, a).value);
        }
      }
      forall b | b in body'
        ensures exists a :: a in r.body && Translate(valueEq, a) == Some(b)
      {
        Translated(valueEq, r.body, b);
      }
    }
    forall s | GroundClosed(body', s)
      ensures GroundClosed(r.body, s)
    {
      forall a | a in r.body && a.head.Head?
        ensures a in body'
      {
        Translated(valueEq, r.body, a);
      }
    }
  }

  /** No variable bound by the lets is left in the body. */
  predicate Eliminated(lets: seq<Binding>, body: seq<Atom>) { forall b :: b in lets ==> b.v !in Vars(body) }

  /**
   The lets bind variables that were there before and are not there after, each once; the term of a let is a constant or
   a variable that was there before and that neither this let nor a later one binds.
   */
  ghost predicate EliminationOrder(before: set<string>, lets: seq<Binding>, after: set<string>)
  {
    && after <= before
    && (forall k :: 0 <= k < |lets| ==> lets[k].v in before && lets[k].v !in after)
    && (forall j, k :: 0 <= j < k < |lets| ==> lets[j].v != lets[k].v)
    && (forall k :: 0 <= k < |lets| && lets[k].at.Var? ==> lets[k].at.name in before)
    && (forall j, k :: 0 <= j <= k < |lets| && lets[j].at.Var? ==> lets[k].v != lets[j].at.name)
  }

  /** Eliminations compose as steps do, the later ones first. */
  lemma {:induction false} ComposeOrder(a: set<string>, b: set<string>, c: set<string>, ab: seq<Binding>,
                                        bc: seq<Binding>)
    requires EliminationOrder(a, ab, b) && EliminationOrder(b, bc, c)
    ensures EliminationOrder(a, bc + ab, c)
  {
    var lets := bc + ab;
    forall k | 0 <= k < |lets| ensures lets[k] == if k < |bc| then bc[k] else ab[k - |bc|] {
    }
  }

  lemma {:induction false} SubstOrder(body: seq<Atom>, x: string, y: AtomTerm)
    requires exists a :: a in body && Equates(a, x, y)
    ensures EliminationOrder(Vars(body), [Binding(x, y)], Vars(SubstBody(x, y, body)))
  {
    var e :| e in body && Equates(e, x, y);
    assert e.args[0] in e.args && e.args[1] in e.args;
    SubstVars(body, x, y);
  }

  // ---------------------------------------------------------------- canonicalize

  /** So far the rule has been rewritten by these lets, and has lost a variable unless nothing has happened yet. */
  ghost predicate Progressed(valueEq: ValueEq, rule: Rule, current: Rule, lets: seq<Binding>)
    requires WellFormed(rule.body)
  {
    && Step(valueEq, rule, current, lets) && EliminationOrder(Vars(rule.body), lets, Vars(current.body))
    && (current == rule || (ToSubst(rule.body).Some? && Vars(current.body) < Vars(rule.body)))
  }

  lemma {:induction false} NothingYet(valueEq: ValueEq, rule: Rule)
    requires WellFormed(rule.body)
    ensures Progressed(valueEq, rule, rule, [])
  {
    hide Step, ToSubst, Vars;
    StepRefl(valueEq, rule);
  }

  lemma {:induction false} OneMoreSubst(valueEq: ValueEq, rule: Rule, current: Rule, lets: seq<Binding>, x: string,
                                        y: AtomTerm)
    requires WellFormed(rule.body) && Progressed(valueEq, rule, current, lets)
    requires WellFormed(current.body) && ToSubst(current.body) == Some((x, y))
    ensures Progressed(valueEq, rule, SubstRule(x, y, current), [Binding(x, y)] + lets)
    ensures Vars(SubstBody(x, y, current.body)) < Vars(current.body)
  {
    var next := SubstRule(x, y, current);
    assert exists a :: a in current.body && Equates(a, x, y);
    SubstIsStep(valueEq, current, x, y);
    SubstVars(current.body, x, y);
    SubstOrder(current.body, x, y);
    hide Step, EliminationOrder, Vars, WellFormed, SubstBody, ToSubst, Equates;
    ComposeOrder(Vars(rule.body), Vars(current.body), Vars(next.body), lets, [Binding(x, y)]);
    Compose(valueEq, rule, current, next, lets, [Binding(x, y)]);
  }

  lemma {:induction false} Canonicalized(valueEq: ValueEq, rule: Rule, current: Rule, lets: seq<Binding>, r: Rule)
    requires WellFormed(rule.body) && Progressed(valueEq, rule, current, lets)
    requires WellFormed(current.body) && ToSubst(current.body).None?
    requires r == Rule(TranslateAll(valueEq, current.body), current.head)
    ensures Step(valueEq, rule, r, lets) && NoEq(r.body)
    ensures Vars(r.body) <= Vars(rule.body) && EliminationOrder(Vars(rule.body), lets, Vars(r.body))
    ensures ToSubst(rule.body).Some? ==> Vars(r.body) < Vars(rule.body)
    ensures ToSubst(rule.body).None? ==> current == rule
  {
    TranslateIsStep(valueEq, current);
    TranslatedForm(valueEq, current.body);
    hide Step, Vars, WellFormed, ToSubst, NoEq, TranslateAll, EliminationOrder;
    Compose(valueEq, rule, current, r, lets, []);
    assert [] + lets == lets;
    OrderShrinks(Vars(rule.body), lets, Vars(current.body), Vars(r.body));
  }

  lemma {:induction false} OrderShrinks(before: set<string>, lets: seq<Binding>, mid: set<string>, after: set<string>)
    requires EliminationOrder(before, lets, mid) && after <= mid
    ensures EliminationOrder(before, lets, after) && after <= before && (mid < before ==> after < before)
  {
  }

  lemma {:induction false} OrderEliminates(before: set<string>, lets: seq<Binding>, body: seq<Atom>)
    requires EliminationOrder(before, lets, Vars(body))
    ensures Eliminated(lets, body)
  {
    hide Vars;
    forall b | b in lets ensures b.v !in Vars(body) {
      var k :| 0 <= k < |lets| && lets[k] == b;
    }
  }

  /**
   Substitute equalities of variables until none is left, then drop or translate the others.  The
   source's panic and assertion on leftover equalities are the two `assert`s of the last loop.
   */
  method Canonicalize(valueEq: ValueEq, rule: Rule) returns (r: Rule, ghost lets: seq<Binding>)
    requires WellFormed(rule.body)
    ensures Step(valueEq, rule, r, lets) && NoEq(r.body)
    ensures Vars(r.body) <= Vars(rule.body) && Eliminated(lets, r.body)
    ensures EliminationOrder(Vars(rule.body), lets, Vars(r.body))
    ensures ToSubst(rule.body).Some? ==> Vars(r.body) < Vars(rule.body)
    ensures ToSubst(rule.body).None? ==> r == Rule(TranslateAll(valueEq, rule.body), rule.head)
  {
    hide Progressed, Step, EliminationOrder, Vars, NoEq, SubstBody, Eliminated, ToSubst;
    var resultRule := rule;
    lets := [];
    NothingYet(valueEq, rule);
    while true
      invariant WellFormed(resultRule.body) && Progressed(valueEq, rule, resultRule, lets)
      decreases Vars(resultRule.body)
    {
      var toSubst := ToSubst(resultRule.body);
      if toSubst.None? {
        break;
      }
      var (x, y) := toSubst.value;
      OneMoreSubst(valueEq, rule, resultRule, lets, x, y);
      ProgressedForm(valueEq, rule, SubstRule(x, y, resultRule), [Binding(x, y)] + lets);
      resultRule, lets := SubstRule(x, y, resultRule), [Binding(x, y)] + lets;
    }
    var body := resultRule.body;
    var atoms: seq<Atom> := [];
    for k := 0 to |body|
      invariant atoms == TranslateAll(valueEq, body[..k])
    {
      var atom := body[k];
      assert body[..k + 1][..k] == body[..k] && atom in body;
      match atom.head
      case Head(_) => atoms := atoms + [atom];
      case Eq =>
        var at1, at2 := atom.args[0], atom.args[1];
        if at1.Var? && at2.Var? {
          assert at1 == at2;
        } else if at1.Var? || at2.Var? {
          assert false;
        } else if at1 != at2 {
          atoms := atoms + [Atom(Head(valueEq(at1, at2)), [at1, at2, UNIT])];
        }
    }
    assert body[..|body|] == body;
    r := Rule(atoms, resultRule.head);
    Canonicalized(valueEq, rule, resultRule, lets, r);
    OrderEliminates(Vars(rule.body), lets, r.body);
  }

  lemma {:induction false} ProgressedForm(valueEq: ValueEq, rule: Rule, current: Rule, lets: seq<Binding>)
    requires WellFormed(rule.body) && Progressed(valueEq, rule, current, lets)
    ensures WellFormed(current.body)
  {
    hide WellFormed, SameMatches, KeepsGround;
  }
}
