/**
 Constraint solving by repeated updates (src/constraint.rs): what one update does to the constraint and
 to the assignment, and why the solver's result does not depend on the order of the constraints.

 Values are identified with their keys.  The function of a delayed constraint is given by its cases on
 the watched values and a constraint for all other values.
 */
module Constraints {

  type Assignment<X, T> = map<X, T>

  datatype Constraint<X, T> =
    | Eq(x: X, y: X)
    | Assign(x: X, v: T)
    | And(cs: seq<Constraint<X, T>>)
    | Xor(cs: seq<Constraint<X, T>>)
    | Implies(watch: seq<X>, state: Delayed<X, T>)
    | Impossible

  datatype Delayed<X, T> =
    | Pending(cases: seq<Case<X, T>>, otherwise: Constraint<X, T>)
    | Active(c: Constraint<X, T>)

  datatype Case<X, T> = Case(vals: seq<T>, body: Constraint<X, T>)

  /** The updated constraint and assignment and whether anything was updated, or failure. */
  datatype Result<X, T> = Err | Ok(c: Constraint<X, T>, a: Assignment<X, T>, updated: bool)

  datatype Results<X, T> = Fail | Done(cs: seq<Constraint<X, T>>, a: Assignment<X, T>, updated: bool)

  // ---------------------------------------------------------------- one update, as a function

  /** The constraint that a delayed function returns for the watched values. */
  function Select<X(==), T(==)>(cases: seq<Case<X, T>>, otherwise: Constraint<X, T>,
                                vals: seq<T>): (c: Constraint<X, T>)
    ensures c == otherwise || exists i :: 0 <= i < |cases| && c == cases[i].body
  {
    if cases == [] then otherwise
    else if cases[0].vals == vals then cases[0].body
    else
      var c := Select(cases[1..], otherwise, vals);
      assert c == otherwise || exists i :: 1 <= i < |cases| && c == cases[i].body by {
        if c != otherwise {
          var i :| 0 <= i < |cases[1..]| && c == cases[1..][i].body;
          assert c == cases[i + 1].body;
        }
      }
      c
  }

  /** The values of the watched variables. */
  function Watched<X(==), T(==)>(watch: seq<X>, a: Assignment<X, T>): seq<T>
    requires forall i :: 0 <= i < |watch| ==> watch[i] in a
  {
    seq(|watch|, i requires 0 <= i < |watch| => a[watch[i]])
  }

  function Update<X(==), T(==)>(c: Constraint<X, T>, a: Assignment<X, T>): Result<X, T>
    decreases c, 1
  {
    match c
    case Eq(x, y) =>
      if x in a && y !in a then Ok(c, a[y := a[x]], true)
      else if x !in a && y in a then Ok(c, a[x := a[y]], true)
      else if x in a && y in a && a[x] != a[y] then Err
      else Ok(c, a, false)
    case Assign(x, v) =>
      if x !in a then Ok(c, a[x := v], true)
      else if a[x] == v then Ok(c, a, false)
      else Err
    case And(cs) =>
      (match UpdateAll(cs, a)
       case Fail => Err
       case Done(cs', a', u) => Ok(And(cs'), a', u))
    case Xor(cs) =>
      var k := FirstOk(cs, a);
      if k == |cs| then Err
      else if FirstOk(cs[k + 1..], a) < |cs| - k - 1 then Ok(c, a, false)
      else
        var r := Update(cs[k], a);
        if r.Err? then Err else Ok(Xor([r.c]), r.a, r.updated)
    case Implies(watch, Pending(cases, otherwise)) =>
      if forall i :: 0 <= i < |watch| ==> watch[i] in a then
        var r := Update(Select(cases, otherwise, Watched(watch, a)), a);
        if r.Err? then Err else Ok(Implies(watch, Active(r.c)), r.a, true)
      else Ok(c, a, false)
    case Implies(watch, Active(d)) =>
      var r := Update(d, a);
      if r.Err? then Err else Ok(Implies(watch, Active(r.c)), r.a, r.updated)
    case Impossible => Err
  }

  /** The constraints in turn, each on the assignment left by the ones before it. */
  function UpdateAll<X(==), T(==)>(cs: seq<Constraint<X, T>>, a: Assignment<X, T>): (r: Results<X, T>)
    ensures r.Done? ==> |r.cs| == |cs|
    decreases cs, 0
  {
    if cs == [] then Done([], a, false)
    else
      match Update(cs[0], a)
      case Err => Fail
      case Ok(c', a', u) =>
        match UpdateAll(cs[1..], a')
        case Fail => Fail
        case Done(cs', a'', u') => Done([c'] + cs', a'', u || u')
  }

  /** The first alternative that succeeds on the assignment. */
  function FirstOk<X(==), T(==)>(cs: seq<Constraint<X, T>>, a: Assignment<X, T>): (k: nat)
    ensures k <= |cs|
    ensures forall i :: 0 <= i < k ==> Update(cs[i], a).Err?
    ensures k < |cs| ==> Update(cs[k], a).Ok?
    decreases cs, 0
  {
    if cs == [] then 0
    else if Update(cs[0], a).Ok? then 0
    else 1 + FirstOk(cs[1..], a)
  }

  ghost predicate Extends<X, T>(a: Assignment<X, T>, b: Assignment<X, T>)
  {
    forall x :: x in a ==> x in b && b[x] == a[x]
  }

  // ---------------------------------------------------------------- updates are inflationary and monotone

  /** An update only adds, and adds nothing when it reports no change. */
  lemma {:induction false} Inflationary<X, T>(c: Constraint<X, T>, a: Assignment<X, T>)
    requires Update(c, a).Ok?
    ensures Extends(a, Update(c, a).a)
    ensures !Update(c, a).updated ==> Update(c, a).a == a
    decreases c, 1
  {
    match c
    case And(cs) => InflationaryAll(cs, a);
    case Xor(cs) =>
      var k := FirstOk(cs, a);
      Inflationary(cs[k], a);
    case Implies(watch, Pending(cases, otherwise)) =>
      if forall i :: 0 <= i < |watch| ==> watch[i] in a {
        Inflationary(Select(cases, otherwise, Watched(watch, a)), a);
      }
    case Implies(_, Active(d)) => Inflationary(d, a);
    case _ =>
  }

  lemma {:induction false} InflationaryAll<X, T>(cs: seq<Constraint<X, T>>, a: Assignment<X, T>)
    requires UpdateAll(cs, a).Done?
    ensures Extends(a, UpdateAll(cs, a).a)
    ensures !UpdateAll(cs, a).updated ==> UpdateAll(cs, a).a == a
    decreases cs, 0
  {
    if cs != [] {
      Inflationary(cs[0], a);
      InflationaryAll(cs[1..], Update(cs[0], a).a);
    }
  }

  /** What succeeds on an assignment succeeds on every smaller one, with a smaller result; so a failure persists. */
  lemma {:induction false} Monotone<X, T>(c: Constraint<X, T>, a: Assignment<X, T>, b: Assignment<X, T>)
    requires Extends(a, b) && Update(c, b).Ok?
    ensures Update(c, a).Ok? && Extends(Update(c, a).a, Update(c, b).a)
    decreases c, 1
  {
    Inflationary(c, b);
    match c
    case And(cs) => MonotoneAll(cs, a, b);
    case Xor(cs) => MonotoneXor(cs, a, b);
    case Implies(watch, Pending(cases, otherwise)) =>
      if forall i :: 0 <= i < |watch| ==> watch[i] in a {
        assert Watched(watch, a) == Watched(watch, b);
        Monotone(Select(cases, otherwise, Watched(watch, a)), a, b);
      }
    case Implies(_, Active(d)) => Monotone(d, a, b);
    case _ =>
  }

  lemma {:induction false} MonotoneXor<X, T>(cs: seq<Constraint<X, T>>, a: Assignment<X, T>, b: Assignment<X, T>)
    requires Extends(a, b) && Update(Xor(cs), b).Ok?
    ensures Update(Xor(cs), a).Ok? && Extends(Update(Xor(cs), a).a, Update(Xor(cs), b).a)
    decreases cs, 2
  {
    hide Update;
    XorStep(cs, a);
    XorStep(cs, b);
    Inflationary(Xor(cs), b);
    var k, j := FirstOk(cs, b), FirstOk(cs, a);
    Monotone(cs[k], a, b);
    if FirstOk(cs[j + 1..], a) == |cs| - j - 1 {
      PrunedFail(cs, j, a, b);
    }
  }

  lemma {:induction false} MonotoneAll<X, T>(cs: seq<Constraint<X, T>>, a: Assignment<X, T>, b: Assignment<X, T>)
    requires Extends(a, b) && UpdateAll(cs, b).Done?
    ensures UpdateAll(cs, a).Done? && Extends(UpdateAll(cs, a).a, UpdateAll(cs, b).a)
    decreases cs, 0
  {
    if cs != [] {
      Monotone(cs[0], a, b);
      MonotoneAll(cs[1..], Update(cs[0], a).a, Update(cs[0], b).a);
    }
  }

  /** What an exclusive choice does, by its first successful alternative. */
  lemma {:induction false} XorStep<X, T>(cs: seq<Constraint<X, T>>, a: Assignment<X, T>)
    ensures var k := FirstOk(cs, a);
      Update(Xor(cs), a) ==
        if k == |cs| then Err
        else if FirstOk(cs[k + 1..], a) < |cs| - k - 1 then Ok(Xor(cs), a, false)
        else Ok(Xor([Update(cs[k], a).c]), Update(cs[k], a).a, Update(cs[k], a).updated)
  {
  }

  /** Both constraints succeed on the assignment with one result, or both fail. */
  ghost predicate SameOn<X, T>(c: Constraint<X, T>, d: Constraint<X, T>, b: Assignment<X, T>)
  {
    var (r, q) := (Update(c, b), Update(d, b));
    (r.Err? <==> q.Err?) && (r.Ok? && q.Ok? ==> r.a == q.a)
  }

  /** Activating a delayed constraint and pruning failed alternatives lose nothing on later assignments. */
  lemma {:induction false} UpdatedMeansSame<X, T>(c: Constraint<X, T>, a: Assignment<X, T>, b: Assignment<X, T>)
    requires Update(c, a).Ok? && Extends(a, b)
    ensures SameOn(Update(c, a).c, c, b)
    decreases c, 1
  {
    match c
    case And(cs) => UpdatedAllMeansSame(cs, a, b);
    case Xor(cs) => UpdatedXorMeansSame(cs, a, b);
    case Implies(watch, Pending(cases, otherwise)) =>
      if forall i :: 0 <= i < |watch| ==> watch[i] in a {
        assert Watched(watch, a) == Watched(watch, b);
        UpdatedMeansSame(Select(cases, otherwise, Watched(watch, a)), a, b);
      }
    case Implies(_, Active(d)) => UpdatedMeansSame(d, a, b);
    case _ =>
  }

  lemma {:induction false} UpdatedXorMeansSame<X, T>(cs: seq<Constraint<X, T>>, a: Assignment<X, T>,
                                                     b: Assignment<X, T>)
    requires Update(Xor(cs), a).Ok? && Extends(a, b)
    ensures SameOn(Update(Xor(cs), a).c, Xor(cs), b)
    decreases cs, 2
  {
    hide Update, FirstOk;
    var k := FirstOk(cs, a);
    XorStep(cs, a);
    XorStep(cs, b);
    if FirstOk(cs[k + 1..], a) == |cs| - k - 1 {
      var d := Update(cs[k], a).c;
      UpdatedMeansSame(cs[k], a, b);
      PrunedFail(cs, k, a, b);
      OneAlternative(d, b);
    }
  }

  lemma {:induction false} OneAlternative<X, T>(c: Constraint<X, T>, b: Assignment<X, T>)
    ensures Update(Xor([c]), b).Err? <==> Update(c, b).Err?
    ensures Update(c, b).Ok? ==> Update(Xor([c]), b).a == Update(c, b).a
  {
    assert [c][1..] == [] && FirstOk([], b) == 0;
    assert FirstOk([c], b) == if Update(c, b).Ok? then 0 else 1;
  }

  lemma {:induction false} UpdatedAllMeansSame<X, T>(cs: seq<Constraint<X, T>>, a: Assignment<X, T>,
                                                     b: Assignment<X, T>)
    requires UpdateAll(cs, a).Done? && Extends(a, b)
    ensures
      var (r, q) := (UpdateAll(UpdateAll(cs, a).cs, b), UpdateAll(cs, b));
      (r.Fail? <==> q.Fail?) && (r.Done? && q.Done? ==> r.a == q.a)
    decreases cs, 0
  {
    if cs != [] {
      var cs' := UpdateAll(cs, a).cs;
      var a1 := Update(cs[0], a).a;
      assert cs'[0] == Update(cs[0], a).c && cs'[1..] == UpdateAll(cs[1..], a1).cs;
      UpdatedMeansSame(cs[0], a, b);
      if Update(cs[0], b).Ok? {
        Monotone(cs[0], a, b);
        UpdatedAllMeansSame(cs[1..], a1, Update(cs[0], b).a);
      }
    }
  }

  /** When one alternative succeeds on an assignment, no other one does on any extension. */
  lemma {:induction false} PrunedFail<X, T>(cs: seq<Constraint<X, T>>, k: nat, a: Assignment<X, T>, b: Assignment<X, T>)
    requires k == FirstOk(cs, a) < |cs| && FirstOk(cs[k + 1..], a) == |cs| - k - 1 && Extends(a, b)
    ensures forall i :: 0 <= i < |cs| && i != k ==> Update(cs[i], b).Err?
    ensures FirstOk(cs, b) == if Update(cs[k], b).Ok? then k else |cs|
    ensures FirstOk(cs[k + 1..], b) == |cs| - k - 1
    decreases cs, 0
  {
    forall i | 0 <= i < |cs| && i != k
      ensures Update(cs[i], b).Err?
    {
      if i > k {
        assert cs[i] == cs[k + 1..][i - k - 1];
      }
      if Update(cs[i], b).Ok? {
        Monotone(cs[i], a, b);
      }
    }
  }

  // ---------------------------------------------------------------- solving

  /** Every constraint succeeds on the assignment and adds nothing to it. */
  ghost predicate CommonFixpoint<X, T>(cs: seq<Constraint<X, T>>, a: Assignment<X, T>)
  {
    forall i :: 0 <= i < |cs| ==> Update(cs[i], a).Ok? && Update(cs[i], a).a == a
  }

  ghost predicate LeastFixpoint<X(!new), T(!new)>(cs: seq<Constraint<X, T>>, a: Assignment<X, T>)
  {
    CommonFixpoint(cs, a) && forall b :: CommonFixpoint(cs, b) ==> Extends(a, b)
  }

  // ---------------------------------------------------------------- why the solver stops

  ghost function Vars<X, T>(c: Constraint<X, T>): set<X>
    decreases c, 1
  {
    match c
    case Eq(x, y) => {x, y}
    case Assign(x, _) => {x}
    case And(cs) => VarsAll(cs)
    case Xor(cs) => VarsAll(cs)
    case Implies(_, Pending(cases, otherwise)) => VarsCases(cases) + Vars(otherwise)
    case Implies(_, Active(d)) => Vars(d)
    case Impossible => {}
  }

  ghost function VarsAll<X, T>(cs: seq<Constraint<X, T>>): set<X>
    decreases cs, 0
  {
    if cs == [] then {} else Vars(cs[0]) + VarsAll(cs[1..])
  }

  ghost function VarsCases<X, T>(cases: seq<Case<X, T>>): set<X>
    decreases cases, 0
  {
    if cases == [] then {} else Vars(cases[0].body) + VarsCases(cases[1..])
  }

  /** The nodes of a constraint, with every case of a delayed one. */
  ghost function Size<X, T>(c: Constraint<X, T>): nat
    decreases c, 1
  {
    match c
    case And(cs) => SizeAll(cs)
    case Xor(cs) => SizeAll(cs)
    case Implies(_, Pending(cases, otherwise)) => 1 + SizeCases(cases) + Size(otherwise)
    case Implies(_, Active(d)) => Size(d)
    case _ => 0
  }

  ghost function SizeAll<X, T>(cs: seq<Constraint<X, T>>): nat
    decreases cs, 0
  {
    if cs == [] then 0 else Size(cs[0]) + SizeAll(cs[1..])
  }

  ghost function SizeCases<X, T>(cases: seq<Case<X, T>>): nat
    decreases cases, 0
  {
    if cases == [] then 0 else Size(cases[0].body) + SizeCases(cases[1..])
  }

  lemma {:induction false} Selected<X, T>(cases: seq<Case<X, T>>, otherwise: Constraint<X, T>, vals: seq<T>)
    ensures Vars(Select(cases, otherwise, vals)) <= VarsCases(cases) + Vars(otherwise)
    ensures Size(Select(cases, otherwise, vals)) <= SizeCases(cases) + Size(otherwise)
  {
    if cases != [] {
      Selected(cases[1..], otherwise, vals);
    }
  }

  lemma {:induction false} MemberOfAll<X, T>(cs: seq<Constraint<X, T>>, k: nat)
    requires k < |cs|
    ensures Vars(cs[k]) <= VarsAll(cs) && Size(cs[k]) <= SizeAll(cs)
  {
    if k > 0 {
      MemberOfAll(cs[1..], k - 1);
    }
  }

  /**
   An update assigns only variables of the constraint, and one that assigns nothing shrinks the constraint if it
   changes anything.
   */
  lemma {:induction false} UpdateShrinks<X, T>(c: Constraint<X, T>, a: Assignment<X, T>)
    requires Update(c, a).Ok?
    ensures Update(c, a).a.Keys <= a.Keys + Vars(c) && Vars(Update(c, a).c) <= Vars(c)
    ensures Size(Update(c, a).c) <= Size(c)
    ensures Update(c, a).updated && Update(c, a).a == a ==> Size(Update(c, a).c) < Size(c)
    decreases c, 1
  {
    match c
    case And(cs) =>
      UpdateAllShrinks(cs, a);
    case Xor(cs) =>
      UpdateXorShrinks(cs, a);
    case Implies(watch, Pending(cases, otherwise)) =>
      PendingShrinks(watch, cases, otherwise, a);
    case Implies(_, Active(d)) =>
      UpdateShrinks(d, a);
    case _ =>
  }

  lemma {:induction false} UpdateXorShrinks<X, T>(cs: seq<Constraint<X, T>>, a: Assignment<X, T>)
    requires Update(Xor(cs), a).Ok?
    ensures var r := Update(Xor(cs), a);
      && r.a.Keys <= a.Keys + VarsAll(cs) && Vars(r.c) <= VarsAll(cs) && Size(r.c) <= SizeAll(cs)
      && (r.updated && r.a == a ==> Size(r.c) < SizeAll(cs))
    decreases cs, 2
  {
    XorStep(cs, a);
    hide Update, FirstOk;
    var k := FirstOk(cs, a);
    UpdateShrinks(cs[k], a);
    MemberOfAll(cs, k);
    OneMember(Update(cs[k], a).c);
  }

  lemma {:induction false} OneMember<X, T>(c: Constraint<X, T>)
    ensures Vars(Xor([c])) == Vars(c) && Size(Xor([c])) == Size(c)
  {
    assert [c][1..] == [] && VarsAll([c]) == Vars(c) && SizeAll([c]) == Size(c);
  }

  lemma {:induction false} PendingShrinks<X, T>(watch: seq<X>, cases: seq<Case<X, T>>, otherwise: Constraint<X, T>,
                                                a: Assignment<X, T>)
    requires Update(Implies(watch, Pending(cases, otherwise)), a).Ok?
    ensures var r := Update(Implies(watch, Pending(cases, otherwise)), a);
      var vars, size := VarsCases(cases) + Vars(otherwise), 1 + SizeCases(cases) + Size(otherwise);
      && r.a.Keys <= a.Keys + vars && Vars(r.c) <= vars && Size(r.c) <= size && (r.updated ==> Size(r.c) < size)
    decreases Implies(watch, Pending(cases, otherwise)), 0
  {
    if forall i :: 0 <= i < |watch| ==> watch[i] in a {
      var d := Select(cases, otherwise, Watched(watch, a));
      Selected(cases, otherwise, Watched(watch, a));
      UpdateShrinks(d, a);
    }
  }

  lemma {:induction false} UpdateAllShrinks<X, T>(cs: seq<Constraint<X, T>>, a: Assignment<X, T>)
    requires UpdateAll(cs, a).Done?
    ensures UpdateAll(cs, a).a.Keys <= a.Keys + VarsAll(cs) && VarsAll(UpdateAll(cs, a).cs) <= VarsAll(cs)
    ensures SizeAll(UpdateAll(cs, a).cs) <= SizeAll(cs)
    ensures UpdateAll(cs, a).updated && UpdateAll(cs, a).a == a ==> SizeAll(UpdateAll(cs, a).cs) < SizeAll(cs)
    decreases cs, 0
  {
    if cs != [] {
      var r := Update(cs[0], a);
      UpdateShrinks(cs[0], a);
      Inflationary(cs[0], a);
      UpdateAllShrinks(cs[1..], r.a);
      InflationaryAll(cs[1..], r.a);
      assert UpdateAll(cs, a).cs == [r.c] + UpdateAll(cs[1..], r.a).cs;
      if UpdateAll(cs, a).a == a {
        assert r.a == a;
      }
    }
  }

  // ---------------------------------------------------------------- the update in place

  /** The assignment that the caller is left with: the new one, or the one it passed in. */
  function After<X, T>(r: Result<X, T>, assignment: Assignment<X, T>): Assignment<X, T>
  {
    if r.Ok? then r.a else assignment
  }

  /** The loops of the source compute the update; `after` is the assignment as they leave it, also when they fail. */
  method UpdateConstraint<X(==), T(==)>(c: Constraint<X, T>, assignment: Assignment<X, T>)
    returns (r: Result<X, T>, after: Assignment<X, T>)
    ensures r == Update(c, assignment) && after == After(r, assignment)
    decreases c, 1
  {
    after := assignment;
    match c
    case Eq(x, y) =>
      r := Ok(c, after, false);
      if x in after && y !in after {
        after := after[y := after[x]];
        r := Ok(c, after, true);
      } else if x !in after && y in after {
        after := after[x := after[y]];
        r := Ok(c, after, true);
      } else if x in after && y in after && after[x] != after[y] {
        r := Err;
      }
    case Assign(x, v) =>
      if x !in after {
        after := after[x := v];
        r := Ok(c, after, true);
      } else {
        r := if after[x] == v then Ok(c, after, false) else Err;
      }
    case Impossible =>
      r := Err;
    case And(cs) =>
      r, after := UpdateAnd(cs, assignment);
    case Xor(cs) =>
      r, after := UpdateXor(cs, assignment);
    case Implies(watch, Pending(cases, otherwise)) =>
      r := Ok(c, after, false);
      if forall i :: 0 <= i < |watch| ==> watch[i] in after {
        var inner;
        inner, after := UpdateConstraint(Select(cases, otherwise, Watched(watch, after)), after);
        r := if inner.Err? then Err else Ok(Implies(watch, Active(inner.c)), after, true);
      }
    case Implies(watch, Active(d)) =>
      var inner;
      inner, after := UpdateConstraint(d, after);
      r := if inner.Err? then Err else Ok(Implies(watch, Active(inner.c)), after, inner.updated);
  }

  /** A conjunction puts the assignment back when one of its members fails after others have changed it. */
  method UpdateAnd<X(==), T(==)>(cs: seq<Constraint<X, T>>, assignment: Assignment<X, T>)
    returns (r: Result<X, T>, after: Assignment<X, T>)
    ensures r == Update(And(cs), assignment) && after == After(r, assignment)
    decreases cs, 0
  {
    hide Update, UpdateAll;
    var updated, done := false, [];
    after := assignment;
    AndStep(cs, assignment);
    for i := 0 to |cs|
      invariant UpdateAll(cs, assignment) == AfterPrefix(done, updated, UpdateAll(cs[i..], after))
    {
      AllStep(cs, i, after);
      var one;
      one, after := UpdateConstraint(cs[i], after);
      if one.Err? {
        return Err, assignment;
      }
      ghost var rest := UpdateAll(cs[i + 1..], after);
      assert rest.Done? ==> done + ([one.c] + rest.cs) == (done + [one.c]) + rest.cs;
      updated, done := updated || one.updated, done + [one.c];
    }
    NoneLeft(cs, after);
    assert done + [] == done;
    r := Ok(And(done), after, updated);
  }

  lemma {:induction false} AndStep<X, T>(cs: seq<Constraint<X, T>>, a: Assignment<X, T>)
    ensures cs[0..] == cs && forall rest: Results<X, T> :: AfterPrefix([], false, rest) == rest
    ensures Update(And(cs), a) ==
      match UpdateAll(cs, a)
      case Fail => Err
      case Done(cs', a', u) => Ok(And(cs'), a', u)
  {
    forall rest: Results<X, T> ensures AfterPrefix([], false, rest) == rest {
      assert rest.Done? ==> [] + rest.cs == rest.cs;
    }
  }

  lemma {:induction false} AllStep<X, T>(cs: seq<Constraint<X, T>>, i: nat, a: Assignment<X, T>)
    requires i < |cs|
    ensures UpdateAll(cs[i..], a) ==
      match Update(cs[i], a)
      case Err => Fail
      case Ok(c, a', u) => AfterPrefix([c], u, UpdateAll(cs[i + 1..], a'))
  {
    assert cs[i..][0] == cs[i] && cs[i..][1..] == cs[i + 1..];
  }

  lemma {:induction false} NoneLeft<X, T>(cs: seq<Constraint<X, T>>, a: Assignment<X, T>)
    ensures UpdateAll(cs[|cs|..], a) == Done([], a, false)
  {
  }

  ghost function AfterPrefix<X, T>(done: seq<Constraint<X, T>>, updated: bool, rest: Results<X, T>): Results<X, T>
  {
    match rest
    case Fail => Fail
    case Done(cs, a, u) => Done(done + cs, a, updated || u)
  }

  /** The alternatives run on one assignment; a successful one's is saved and the original put back. */
  method UpdateXor<X(==), T(==)>(cs: seq<Constraint<X, T>>, origAssignment: Assignment<X, T>)
    returns (r: Result<X, T>, assignment: Assignment<X, T>)
    ensures r == Update(Xor(cs), origAssignment) && assignment == After(r, origAssignment)
    decreases cs, 0
  {
    hide Update, FirstOk;
    XorStep(cs, origAssignment);
    var successCount, resultAssignment, assignmentUpdated := 0, origAssignment, false;
    var resultConstraint: Constraint<X, T> := Impossible;
    assignment := origAssignment;
    ghost var k := FirstOk(cs, origAssignment);
    for i := 0 to |cs|
      invariant assignment == origAssignment && (i <= k ==> resultAssignment == origAssignment)
      invariant successCount == (if i <= k then 0 else 1)
      invariant i <= k || (i > k && k < |cs| && FirstOk(cs[k + 1..], origAssignment) >= i - k - 1)
      invariant i > k ==> Update(cs[k], origAssignment) == Ok(resultConstraint, resultAssignment, assignmentUpdated)
    {
      var result;
      result, assignment := UpdateConstraint(cs[i], assignment);
      if result.Ok? {
        successCount := successCount + 1;
        if successCount > 1 {
          assert cs[k + 1..][i - k - 1] == cs[i];
          break;
        }
        Inflationary(cs[i], origAssignment);
        resultConstraint := result.c;
        if result.updated {
          resultAssignment, assignment := assignment, resultAssignment;
        }
        assignmentUpdated := result.updated;
      } else if i > k {
        assert cs[k + 1..][i - k - 1] == cs[i];
      }
    }
    if successCount == 1 {
      assignment := resultAssignment;
      r := Ok(Xor([resultConstraint]), assignment, assignmentUpdated);
    } else if successCount > 1 {
      assignment := origAssignment;
      r := Ok(Xor(cs), assignment, false);
    } else {
      assignment := origAssignment;
      r := Err;
    }
  }

  // ---------------------------------------------------------------- the solver

  datatype Solution<X, T> = Solved(a: Assignment<X, T>) | Conflict | Unconstrained(x: X)

  /** The least common fixpoint if there is one that assigns the range; otherwise why there is not. */
  ghost predicate SolutionOf<X(!new), T(!new)>(cs: seq<Constraint<X, T>>, range: set<X>, s: Solution<X, T>)
  {
    match s
    case Solved(a) => LeastFixpoint(cs, a) && range <= a.Keys
    case Conflict => !exists a :: CommonFixpoint(cs, a)
    case Unconstrained(x) => x in range && exists a :: LeastFixpoint(cs, a) && x !in a
  }

  /** The current constraints mean what the given ones did, and the assignment is below every common fixpoint. */
  ghost predicate Sound<X(!new), T(!new)>(given: seq<Constraint<X, T>>, cs: seq<Constraint<X, T>>, a: Assignment<X, T>,
                                          vars: set<X>)
  {
    && |cs| == |given|
    && (forall i, b :: 0 <= i < |cs| && Extends(a, b) ==> SameOn(cs[i], given[i], b))
    && (forall b :: CommonFixpoint(given, b) ==> Extends(a, b))
    && a.Keys <= vars && forall i :: 0 <= i < |cs| ==> Vars(cs[i]) <= vars
  }

  lemma {:induction false} SoundAfterUpdate<X(!new), T(!new)>(given: seq<Constraint<X, T>>, cs: seq<Constraint<X, T>>,
        a: Assignment<X, T>, vars: set<X>, i: nat)
    requires Sound(given, cs, a, vars) && i < |cs| && Update(cs[i], a).Ok?
    ensures Sound(given, cs[i := Update(cs[i], a).c], Update(cs[i], a).a, vars)
  {
    var r := Update(cs[i], a);
    Inflationary(cs[i], a);
    UpdateShrinks(cs[i], a);
    forall j, b | 0 <= j < |cs| && Extends(r.a, b)
      ensures SameOn(cs[i := r.c][j], given[j], b)
    {
      assert Extends(a, b);
      assert SameOn(cs[j], given[j], b);
      UpdatedMeansSame(cs[i], a, b);
    }
    forall b | CommonFixpoint(given, b)
      ensures Extends(r.a, b)
    {
      assert SameOn(cs[i], given[i], b);
      Monotone(cs[i], a, b);
    }
  }

  lemma {:induction false} ConflictMeansNone<X(!new), T(!new)>(given: seq<Constraint<X, T>>, cs: seq<Constraint<X, T>>,
        a: Assignment<X, T>, vars: set<X>, i: nat)
    requires Sound(given, cs, a, vars) && i < |cs| && Update(cs[i], a).Err?
    ensures !exists b :: CommonFixpoint(given, b)
  {
    forall b | CommonFixpoint(given, b)
      ensures false
    {
      assert SameOn(cs[i], given[i], b);
      Monotone(cs[i], a, b);
    }
  }

  lemma {:induction false} SizeUpdate<X, T>(cs: seq<Constraint<X, T>>, i: nat, c: Constraint<X, T>)
    requires i < |cs|
    ensures SizeAll(cs[i := c]) == SizeAll(cs) - Size(cs[i]) + Size(c)
  {
    if i == 0 {
      assert cs[i := c][1..] == cs[1..];
    } else {
      assert cs[i := c][1..] == cs[1..][i - 1 := c];
      SizeUpdate(cs[1..], i - 1, c);
    }
  }

  /** What a successful update of one constraint does to the measure of the solver. */
  lemma {:induction false} Progress<X, T>(cs: seq<Constraint<X, T>>, a: Assignment<X, T>, i: nat)
    requires i < |cs| && Update(cs[i], a).Ok?
    ensures
      var r := Update(cs[i], a);
      && a.Keys <= r.a.Keys
      && (!r.updated ==> r.a == a && SizeAll(cs[i := r.c]) <= SizeAll(cs))
      && (r.updated ==> a.Keys < r.a.Keys || (a == r.a && SizeAll(cs[i := r.c]) < SizeAll(cs)))
  {
    var r := Update(cs[i], a);
    Inflationary(cs[i], a);
    UpdateShrinks(cs[i], a);
    SizeUpdate(cs, i, r.c);
    if a.Keys == r.a.Keys {
      assert a == r.a;
    }
  }

  class Problem<X(==, !new), T(==, !new)> {
    var constraints: seq<Constraint<X, T>>
    var range: set<X>

    constructor (constraints: seq<Constraint<X, T>>, range: set<X>)
      ensures this.constraints == constraints && this.range == range
    {
      this.constraints, this.range := constraints, range;
    }

    /** Update the constraints in turn until a whole pass changes nothing. */
    method Solve() returns (s: Solution<X, T>)
      modifies this
      ensures SolutionOf(old(constraints), old(range), s)
    {
      ghost var given, vars := constraints, VarsAll(constraints);
      var assignment: Assignment<X, T> := map[];
      var changed := true;
      forall i | 0 <= i < |constraints| ensures Vars(constraints[i]) <= vars {
        MemberOfAll(constraints, i);
      }
      while changed
        invariant range == old(range) && Sound(given, constraints, assignment, vars)
        invariant !changed ==> CommonFixpoint(given, assignment)
        decreases vars - assignment.Keys, SizeAll(constraints), changed
      {
        changed := false;
        ghost var a0, size0 := assignment, SizeAll(constraints);
        for i := 0 to |constraints|
          invariant range == old(range) && Sound(given, constraints, assignment, vars)
          invariant !changed ==> assignment == a0 && SizeAll(constraints) <= size0
          invariant changed ==> a0.Keys < assignment.Keys || (a0 == assignment && SizeAll(constraints) < size0)
          invariant !changed ==> forall j :: 0 <= j < i ==> Update(given[j], a0).Ok? && Update(given[j], a0).a == a0
        {
          ghost var before := assignment;
          var r;
          r, assignment := UpdateConstraint(constraints[i], assignment);
          if r.Err? {
            ConflictMeansNone(given, constraints, before, vars, i);
            return Conflict;
          }
          assert Extends(before, before) && SameOn(constraints[i], given[i], before);
          SoundAfterUpdate(given, constraints, before, vars, i);
          Progress(constraints, before, i);
          constraints := constraints[i := r.c];
          changed := changed || r.updated;
        }
      }
      if x :| x in range && x !in assignment {
        return Unconstrained(x);
      }
      s := Solved(assignment);
    }
  }

  // ---------------------------------------------------------------- order independence

  lemma {:induction false} LeastIsUnique<X(!new), T(!new)>(cs: seq<Constraint<X, T>>, a: Assignment<X, T>,
                                                           b: Assignment<X, T>)
    requires LeastFixpoint(cs, a) && LeastFixpoint(cs, b)
    ensures a == b
  {
    assert Extends(a, b) && Extends(b, a);
  }

  /** Reordering or repeating the constraints changes neither success nor failure nor the assignment. */
  lemma {:induction false} OrderIndependent<X(!new), T(!new)>(cs: seq<Constraint<X, T>>, ds: seq<Constraint<X, T>>,
        range: set<X>, s: Solution<X, T>, t: Solution<X, T>)
    requires forall c :: c in cs <==> c in ds
    requires SolutionOf(cs, range, s) && SolutionOf(ds, range, t)
    ensures s.Solved? <==> t.Solved?
    ensures s.Solved? ==> s == t
    ensures s.Conflict? <==> t.Conflict?
  {
    forall a
      ensures CommonFixpoint(cs, a) <==> CommonFixpoint(ds, a)
    {
      if CommonFixpoint(cs, a) {
        forall i | 0 <= i < |ds| ensures Update(ds[i], a).Ok? && Update(ds[i], a).a == a {
          assert ds[i] in cs;
        }
      }
      if CommonFixpoint(ds, a) {
        forall i | 0 <= i < |cs| ensures Update(cs[i], a).Ok? && Update(cs[i], a).a == a {
          assert cs[i] in ds;
        }
      }
    }
    forall a, b | LeastFixpoint(cs, a) && LeastFixpoint(cs, b) ensures a == b {
      LeastIsUnique(cs, a, b);
    }
    assert forall a :: LeastFixpoint(cs, a) <==> LeastFixpoint(ds, a);
  }
}
