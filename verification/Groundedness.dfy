/**
 The groundedness check (src/constraint.rs, `grounded_check`): solving the constraints of a rule body
 accepts exactly the bodies whose variables all lie in the inductively grounded set.
 */
module Groundedness {
  import C = Constraints
  import opened CoreRules
  import opened QueryCompiler
  import opened RemoveDups

  type GroundConstraint = C.Constraint<AtomTerm, ()>

  type Marks = map<AtomTerm, ()>

  function Assigns(ts: seq<AtomTerm>, onlyConstants: bool): seq<GroundConstraint>
  {
    if ts == [] then []
    else (if onlyConstants && ts[0].Var? then [] else [C.Assign(ts[0], ())]) + Assigns(ts[1..], onlyConstants)
  }

  /**
   What an atom demands: a table marks its arguments, a primitive its output once the inputs are marked, an equality
   both or neither.
   */
  function AtomConstraints(a: Atom): seq<GroundConstraint>
    requires if a.head.Eq? then |a.args| == 2 else |a.args| >= 1
  {
    match a.head
    case Head(Func(_)) => Assigns(a.args, false)
    case Head(Prim(_, _)) => [C.Implies(Inputs(a), C.Pending([], C.Assign(Output(a), ())))] + Assigns(a.args, true)
    case Eq => [C.Eq(a.args[0], a.args[1])] + Assigns(a.args, true)
  }

  function BodyConstraints(body: seq<Atom>): seq<GroundConstraint>
    requires WellFormed(body)
  {
    if body == [] then [] else BodyConstraints(body[..|body| - 1]) + AtomConstraints(body[|body| - 1])
  }

  ghost predicate Fixed(c: GroundConstraint, m: Marks) { C.Update(c, m).Ok? && C.Update(c, m).a == m }

  ghost predicate AllFixed(cs: seq<GroundConstraint>, m: Marks) { forall c :: c in cs ==> Fixed(c, m) }

  lemma {:induction false} FixedIsCommon(cs: seq<GroundConstraint>, m: Marks)
    ensures AllFixed(cs, m) <==> C.CommonFixpoint(cs, m)
  {
    if C.CommonFixpoint(cs, m) {
      forall c | c in cs ensures Fixed(c, m) {
        var i :| 0 <= i < |cs| && cs[i] == c;
      }
    }
    if AllFixed(cs, m) {
      forall i | 0 <= i < |cs| ensures C.Update(cs[i], m).Ok? && C.Update(cs[i], m).a == m {
        assert Fixed(cs[i], m);
      }
    }
  }

  lemma {:induction false} FixedAssign(t: AtomTerm, m: Marks)
    ensures Fixed(C.Assign(t, ()), m) <==> t in m
  {
    if t in m {
      assert m[t] == ();
    } else {
      assert t in m[t := ()];
    }
  }

  lemma {:induction false} FixedEq(t: AtomTerm, u: AtomTerm, m: Marks)
    ensures Fixed(C.Eq(t, u), m) <==> (t in m <==> u in m)
  {
    if t in m && u in m {
      assert m[t] == () == m[u];
    } else {
      assert t in m[t := ()] && u in m[u := ()];
    }
  }

  lemma {:induction false} FixedImplies(watch: seq<AtomTerm>, t: AtomTerm, m: Marks)
    ensures Fixed(C.Implies(watch, C.Pending([], C.Assign(t, ()))), m) <==>
      ((forall u :: u in watch ==> u in m) ==> t in m)
  {
    FixedAssign(t, m);
    assert (forall i :: 0 <= i < |watch| ==> watch[i] in m) <==> forall u :: u in watch ==> u in m;
    if forall i :: 0 <= i < |watch| ==> watch[i] in m {
      assert C.Select([], C.Assign(t, ()), C.Watched(watch, m)) == C.Assign(t, ());
    }
  }

  lemma {:induction false} FixedAssigns(ts: seq<AtomTerm>, onlyConstants: bool, m: Marks)
    ensures AllFixed(Assigns(ts, onlyConstants), m) <==> forall t :: t in ts && (t.Var? ==> !onlyConstants) ==> t in m
  {
    if ts != [] {
      FixedAssigns(ts[1..], onlyConstants, m);
      var cs, rest := Assigns(ts, onlyConstants), Assigns(ts[1..], onlyConstants);
      var one: GroundConstraint := C.Assign(ts[0], ());
      FixedAssign(ts[0], m);
      assert forall c :: c in cs <==> c in rest || (!(onlyConstants && ts[0].Var?) && c == one);
      assert forall t :: t in ts <==> t == ts[0] || t in ts[1..];
    }
  }

  /** What it means for an assignment that the atom's constraints add nothing to it. */
  ghost predicate AtomFixed(a: Atom, m: Marks)
    requires if a.head.Eq? then |a.args| == 2 else |a.args| >= 1
  {
    match a.head
    case Head(Func(_)) => forall t :: t in a.args ==> t in m
    case Head(Prim(_, _)) =>
      ((forall t :: t in Inputs(a) ==> t in m) ==> Output(a) in m) && forall t :: t in a.args && !t.Var? ==> t in m
    case Eq => (a.args[0] in m <==> a.args[1] in m) && forall t :: t in a.args && !t.Var? ==> t in m
  }

  lemma {:induction false} FixedAtom(a: Atom, m: Marks)
    requires if a.head.Eq? then |a.args| == 2 else |a.args| >= 1
    ensures AllFixed(AtomConstraints(a), m) <==> AtomFixed(a, m)
  {
    FixedAssigns(a.args, false, m);
    FixedAssigns(a.args, true, m);
    match a.head
    case Head(Func(_)) =>
    case Head(Prim(_, _)) =>
      var c: GroundConstraint := C.Implies(Inputs(a), C.Pending([], C.Assign(Output(a), ())));
      FixedImplies(Inputs(a), Output(a), m);
      assert forall d :: d in AtomConstraints(a) <==> d == c || d in Assigns(a.args, true);
    case Eq =>
      var c: GroundConstraint := C.Eq(a.args[0], a.args[1]);
      FixedEq(a.args[0], a.args[1], m);
      assert forall d :: d in AtomConstraints(a) <==> d == c || d in Assigns(a.args, true);
  }

  lemma {:induction false} FixedBody(body: seq<Atom>, m: Marks)
    requires WellFormed(body)
    ensures AllFixed(BodyConstraints(body), m) <==> forall a :: a in body ==> AtomFixed(a, m)
  {
    if body != [] {
      var rest, last := body[..|body| - 1], body[|body| - 1];
      FixedBody(rest, m);
      FixedAtom(last, m);
      assert forall a :: a in body <==> a in rest || a == last;
    }
  }

  // ---------------------------------------------------------------- the least assignment is the grounded set

  lemma {:induction false} LeastIsGrounded(body: seq<Atom>, m: Marks, x: string)
    requires WellFormed(body) && C.LeastFixpoint(BodyConstraints(body), m)
    ensures Var(x) in m <==> Grounded(body, Var(x))
  {
    var cs := BodyConstraints(body);
    FixedIsCommon(cs, m);
    FixedBody(body, m);
    MarkedTermsAreClosed(body, m);
    if Var(x) in m {
      forall s | GroundClosed(body, s)
        ensures Var(x) in s
      {
        var m' := map t | t in m && t in s :: ();
        forall a | a in body ensures AtomFixed(a, m') {
          assert GroundAtom(a, s) && AtomFixed(a, m);
          SplitArgsOf(a);
        }
        FixedBody(body, m');
        FixedIsCommon(cs, m');
        assert C.Extends(m, m');
      }
    }
  }

  lemma {:induction false} SplitArgsOf(a: Atom)
    ensures a.args != [] ==> forall t :: t in a.args <==> t in Inputs(a) || t == Output(a)
  {
    if a.args != [] {
      SplitArgs(a);
    }
  }

  lemma {:induction false} MarkedTermsAreClosed(body: seq<Atom>, m: Marks)
    requires WellFormed(body) && forall a :: a in body ==> AtomFixed(a, m)
    ensures GroundClosed(body, iset t: AtomTerm | t.Var? ==> t in m)
  {
    var s := iset t: AtomTerm | t.Var? ==> t in m;
    forall a | a in body
      ensures GroundAtom(a, s)
    {
      assert AtomFixed(a, m);
      SplitArgsOf(a);
      if a.head.Eq? {
        assert a.args[0] in a.args && a.args[1] in a.args;
      }
    }
  }

  /** Marking everything is a common fixpoint, so the solver never reports a conflict here. */
  lemma {:induction false} NoConflict(body: seq<Atom>) returns (m: Marks)
    requires WellFormed(body)
    ensures C.CommonFixpoint(BodyConstraints(body), m)
  {
    m := map a, t | a in body && t in a.args :: t := ();
    forall a | a in body ensures AtomFixed(a, m) {
      SplitArgsOf(a);
      if a.head.Eq? {
        assert a.args[0] in a.args && a.args[1] in a.args;
      }
    }
    FixedBody(body, m);
    FixedIsCommon(BodyConstraints(body), m);
  }

  datatype Verdict = Accept | Ungrounded(name: string)

  lemma {:induction false} NoConstraints()
    ensures BodyConstraints([]) == []
  {
  }

  lemma {:induction false} MoreConstraints(body: seq<Atom>, a: Atom)
    requires WellFormed(body + [a])
    ensures WellFormed(body) && BodyConstraints(body + [a]) == BodyConstraints(body) + AtomConstraints(a)
  {
    hide AtomConstraints;
    assert (body + [a])[..|body|] == body;
  }

  /** Accepts exactly the rules whose body variables are all grounded, and otherwise names one that is not. */
  method GroundedCheck(rule: Rule) returns (v: Verdict)
    requires WellFormed(rule.body)
    ensures v.Accept? <==> Accepted(rule)
    ensures v.Ungrounded? ==> v.name in Vars(rule.body) && !Grounded(rule.body, Var(v.name))
  {
    hide Vars, Grounded, AtomConstraints, BodyConstraints;
    var body := rule.body;
    var range := set x | x in Vars(body) :: Var(x);
    NoConstraints();
    var constraints: seq<GroundConstraint> := [];
    for i := 0 to |body|
      invariant constraints == BodyConstraints(body[..i])
    {
      assert body[..i + 1] == body[..i] + [body[i]];
      MoreConstraints(body[..i], body[i]);
      constraints := constraints + AtomConstraints(body[i]);
    }
    assert body[..|body|] == body;
    var problem := new C.Problem(constraints, range);
    var solution := problem.Solve();
    match solution
    case Conflict =>
      ghost var m := NoConflict(body);
      assert false;
    case Unconstrained(x) =>
      ghost var m :| C.LeastFixpoint(constraints, m) && x !in m;
      LeastIsGrounded(body, m, x.name);
      v := Ungrounded(x.name);
    case Solved(m) =>
      forall x | x in Vars(body) ensures Grounded(body, Var(x)) {
        assert Var(x) in range;
        LeastIsGrounded(body, m, x);
      }
      v := Accept;
  }
}
