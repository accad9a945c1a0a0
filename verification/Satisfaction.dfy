/**
 What constraints mean (src/constraint.rs), told without the solver: when an assignment of all variables satisfies a
 constraint, when an assignment of some of them leaves nothing to infer, and that this is what the solver solves.
 */
module Satisfaction {
  import opened Constraints

  // ---------------------------------------------------------------- assignments of all variables

  /** Every variable of the constraint has a value. */
  ghost predicate Covers<X, T>(c: Constraint<X, T>, a: Assignment<X, T>)
  {
    match c
    case Eq(x, y) => x in a && y in a
    case Assign(x, _) => x in a
    case And(cs) => forall k :: 0 <= k < |cs| ==> Covers(cs[k], a)
    case Xor(cs) => forall k :: 0 <= k < |cs| ==> Covers(cs[k], a)
    case Implies(watch, Pending(cases, otherwise)) =>
      && (forall i :: 0 <= i < |watch| ==> watch[i] in a)
      && (forall i :: 0 <= i < |cases| ==> Covers(cases[i].body, a)) && Covers(otherwise, a)
    case Implies(_, Active(d)) => Covers(d, a)
    case Impossible => true
  }

  /** The watched variables have these values. */
  predicate Has<X(==), T(==)>(watch: seq<X>, a: Assignment<X, T>, vals: seq<T>)
  {
    |vals| == |watch| && forall i :: 0 <= i < |watch| ==> watch[i] in a && a[watch[i]] == vals[i]
  }

  /** It is the first case for the values of the watched variables. */
  predicate Applies<X(==), T(==)>(cases: seq<Case<X, T>>, i: nat, watch: seq<X>, a: Assignment<X, T>)
  {
    i < |cases| && Has(watch, a, cases[i].vals) && forall j :: 0 <= j < i ==> !Has(watch, a, cases[j].vals)
  }

  /** The assignment satisfies the constraint. */
  ghost predicate Sat<X, T>(c: Constraint<X, T>, a: Assignment<X, T>)
    requires Covers(c, a)
  {
    match c
    case Eq(x, y) => a[x] == a[y]
    case Assign(x, v) => a[x] == v
    case And(cs) => forall k :: 0 <= k < |cs| ==> Sat(cs[k], a)
    case Xor(cs) => exists k :: 0 <= k < |cs| && Sat(cs[k], a)
    case Implies(watch, Pending(cases, otherwise)) =>
      && (forall i :: 0 <= i < |cases| && Applies(cases, i, watch, a) ==> Sat(cases[i].body, a))
      && ((forall i :: 0 <= i < |cases| ==> !Applies(cases, i, watch, a)) ==> Sat(otherwise, a))
    case Implies(_, Active(d)) => Sat(d, a)
    case Impossible => false
  }

  lemma {:induction false} Selects<X, T>(cases: seq<Case<X, T>>, otherwise: Constraint<X, T>, watch: seq<X>,
                                         a: Assignment<X, T>)
    requires forall i :: 0 <= i < |watch| ==> watch[i] in a
    ensures var c := Select(cases, otherwise, Watched(watch, a));
      && (forall i :: 0 <= i < |cases| && Applies(cases, i, watch, a) ==> c == cases[i].body)
      && ((forall i :: 0 <= i < |cases| ==> !Applies(cases, i, watch, a)) ==> c == otherwise)
      && ((exists i :: 0 <= i < |cases| && Applies(cases, i, watch, a)) || c == otherwise)
  {
    if cases != [] {
      var rest := cases[1..];
      Selects(rest, otherwise, watch, a);
      HasWatched(watch, a, cases[0].vals);
      if Has(watch, a, cases[0].vals) {
        assert Applies(cases, 0, watch, a);
      } else {
        forall i | 0 <= i < |rest| ensures Applies(cases, i + 1, watch, a) <==> Applies(rest, i, watch, a) {
          AppliesLater(cases, i, watch, a);
        }
        if i :| 0 <= i < |rest| && Applies(rest, i, watch, a) {
          assert Applies(cases, i + 1, watch, a);
        }
        forall i | 0 <= i < |cases| && Applies(cases, i, watch, a) ensures i > 0 && Applies(rest, i - 1, watch, a) {
          assert i > 0;
          AppliesLater(cases, i - 1, watch, a);
        }
      }
    }
  }

  lemma {:induction false} HasWatched<X, T>(watch: seq<X>, a: Assignment<X, T>, vals: seq<T>)
    requires forall i :: 0 <= i < |watch| ==> watch[i] in a
    ensures Has(watch, a, vals) <==> vals == Watched(watch, a)
  {
  }

  lemma {:induction false} AppliesLater<X, T>(cases: seq<Case<X, T>>, i: nat, watch: seq<X>, a: Assignment<X, T>)
    requires i + 1 < |cases| && !Has(watch, a, cases[0].vals)
    ensures Applies(cases, i + 1, watch, a) <==> Applies(cases[1..], i, watch, a)
  {
    hide Has;
    assert forall j :: 0 <= j < |cases[1..]| ==> cases[1..][j] == cases[j + 1];
    if Applies(cases, i + 1, watch, a) {
      forall j | 0 <= j < i ensures !Has(watch, a, cases[1..][j].vals) {
        assert !Has(watch, a, cases[j + 1].vals);
      }
    }
    if Applies(cases[1..], i, watch, a) {
      forall j | 0 <= j < i + 1 ensures !Has(watch, a, cases[j].vals) {
        assert j > 0 ==> !Has(watch, a, cases[1..][j - 1].vals);
      }
    }
  }

  /** On an assignment of all variables an update succeeds exactly if the constraint is satisfied, and adds nothing. */
  lemma {:induction false} UpdateChecks<X, T>(c: Constraint<X, T>, a: Assignment<X, T>)
    requires Covers(c, a)
    ensures Update(c, a).Ok? <==> Sat(c, a)
    ensures Update(c, a).Ok? ==> Update(c, a).a == a
    decreases c, 1
  {
    match c
    case And(cs) =>
      UpdateChecksAll(cs, a);
    case Xor(cs) =>
      UpdateChecksXor(cs, a);
    case Implies(watch, Pending(cases, otherwise)) =>
      Selects(cases, otherwise, watch, a);
      var d := Select(cases, otherwise, Watched(watch, a));
      PendingMeans(watch, cases, otherwise, a, d);
      UpdateChecks(d, a);
    case Implies(_, Active(d)) =>
      UpdateChecks(d, a);
    case _ =>
  }

  lemma {:induction false} PendingMeans<X, T>(watch: seq<X>, cases: seq<Case<X, T>>, otherwise: Constraint<X, T>,
                                              a: Assignment<X, T>, d: Constraint<X, T>)
    requires Covers(Implies(watch, Pending(cases, otherwise)), a) && d == Select(cases, otherwise, Watched(watch, a))
    ensures Covers(d, a) && (Sat(Implies(watch, Pending(cases, otherwise)), a) <==> Sat(d, a))
  {
    hide Applies, Has, Select;
    Selects(cases, otherwise, watch, a);
  }

  lemma {:induction false} UpdateChecksAll<X, T>(cs: seq<Constraint<X, T>>, a: Assignment<X, T>)
    requires forall k :: 0 <= k < |cs| ==> Covers(cs[k], a)
    ensures UpdateAll(cs, a).Done? <==> forall k :: 0 <= k < |cs| ==> Sat(cs[k], a)
    ensures UpdateAll(cs, a).Done? ==> UpdateAll(cs, a).a == a
    decreases cs, 0
  {
    if cs != [] {
      hide Covers, Sat, Update;
      UpdateChecks(cs[0], a);
      UpdateChecksAll(cs[1..], a);
      assert forall k :: 0 < k < |cs| ==> cs[k] == cs[1..][k - 1];
    }
  }

  lemma {:induction false} UpdateChecksXor<X, T>(cs: seq<Constraint<X, T>>, a: Assignment<X, T>)
    requires Covers(Xor(cs), a)
    ensures Update(Xor(cs), a).Ok? <==> Sat(Xor(cs), a)
    ensures Update(Xor(cs), a).Ok? ==> Update(Xor(cs), a).a == a
    decreases cs, 2
  {
    XorStep(cs, a);
    hide Update;
    forall k | 0 <= k < |cs|
      ensures Update(cs[k], a).Ok? <==> Sat(cs[k], a)
      ensures Update(cs[k], a).Ok? ==> Update(cs[k], a).a == a
    {
      UpdateChecks(cs[k], a);
    }
  }

  // ---------------------------------------------------------------- the solver's answers

  ghost predicate CoversAll<X, T>(cs: seq<Constraint<X, T>>, a: Assignment<X, T>)
  {
    forall k :: 0 <= k < |cs| ==> Covers(cs[k], a)
  }

  /** The assignment gives all variables values that satisfy all constraints. */
  ghost predicate Model<X, T>(cs: seq<Constraint<X, T>>, a: Assignment<X, T>)
  {
    forall k :: 0 <= k < |cs| ==> Covers(cs[k], a) && Sat(cs[k], a)
  }

  lemma {:induction false} ModelsAreFixpoints<X, T>(cs: seq<Constraint<X, T>>, a: Assignment<X, T>)
    requires CoversAll(cs, a)
    ensures Model(cs, a) <==> CommonFixpoint(cs, a)
  {
    forall k | 0 <= k < |cs| ensures Sat(cs[k], a) <==> Update(cs[k], a).Ok? && Update(cs[k], a).a == a {
      UpdateChecks(cs[k], a);
    }
  }

  /**
   A conflict means that no assignment of all variables satisfies the constraints; a solution agrees with every one that
   does, and satisfies all constraints itself if it assigns all variables.
   */
  lemma {:induction false} SolutionsAreModels<X(!new), T(!new)>(cs: seq<Constraint<X, T>>, range: set<X>,
                                                                s: Solution<X, T>)
    requires SolutionOf(cs, range, s)
    ensures s.Conflict? ==> !exists b :: Model(cs, b)
    ensures s.Solved? ==> forall b :: Model(cs, b) ==> Extends(s.a, b)
    ensures s.Solved? && CoversAll(cs, s.a) ==> Model(cs, s.a)
  {
    forall b | Model(cs, b) ensures CommonFixpoint(cs, b) {
      ModelsAreFixpoints(cs, b);
    }
    if s.Solved? && CoversAll(cs, s.a) {
      ModelsAreFixpoints(cs, s.a);
    }
  }

  // ---------------------------------------------------------------- assignments of some variables

  /** Exactly this alternative has not failed. */
  ghost predicate OnlyPossible<X, T>(cs: seq<Constraint<X, T>>, k: nat, a: Assignment<X, T>)
  {
    k < |cs| && Update(cs[k], a).Ok? && forall j :: 0 <= j < |cs| && j != k ==> Update(cs[j], a).Err?
  }

  ghost predicate TwoPossible<X, T>(cs: seq<Constraint<X, T>>, a: Assignment<X, T>)
  {
    exists j, k :: 0 <= j < k < |cs| && Update(cs[j], a).Ok? && Update(cs[k], a).Ok?
  }

  /** Nothing is left to infer from the constraint: equal sides are both known or both not, and what is assigned is. */
  ghost predicate Settled<X, T>(c: Constraint<X, T>, a: Assignment<X, T>)
  {
    match c
    case Eq(x, y) => (x in a <==> y in a) && (x in a && y in a ==> a[x] == a[y])
    case Assign(x, v) => x in a && a[x] == v
    case And(cs) => forall k :: 0 <= k < |cs| ==> Settled(cs[k], a)
    case Xor(cs) => TwoPossible(cs, a) || exists k :: 0 <= k < |cs| && OnlyPossible(cs, k, a) && Settled(cs[k], a)
    case Implies(watch, Pending(cases, otherwise)) =>
      (forall i :: 0 <= i < |watch| ==> watch[i] in a) ==>
        && (forall i :: 0 <= i < |cases| && Applies(cases, i, watch, a) ==> Settled(cases[i].body, a))
        && ((forall i :: 0 <= i < |cases| ==> !Applies(cases, i, watch, a)) ==> Settled(otherwise, a))
    case Implies(_, Active(d)) => Settled(d, a)
    case Impossible => false
  }

  /** An update succeeds and adds nothing exactly if the constraint is settled. */
  lemma {:induction false} UpdateSettles<X, T>(c: Constraint<X, T>, a: Assignment<X, T>)
    ensures Settled(c, a) <==> Update(c, a).Ok? && Update(c, a).a == a
    decreases c, 1
  {
    match c
    case And(cs) =>
      UpdateSettlesAll(cs, a);
    case Xor(cs) =>
      UpdateSettlesXor(cs, a);
    case Implies(watch, Pending(cases, otherwise)) =>
      if forall i :: 0 <= i < |watch| ==> watch[i] in a {
        var d := Select(cases, otherwise, Watched(watch, a));
        PendingSettles(watch, cases, otherwise, a, d);
        UpdateSettles(d, a);
      }
    case Implies(_, Active(d)) =>
      UpdateSettles(d, a);
    case _ =>
  }

  lemma {:induction false} PendingSettles<X, T>(watch: seq<X>, cases: seq<Case<X, T>>, otherwise: Constraint<X, T>,
                                                a: Assignment<X, T>, d: Constraint<X, T>)
    requires forall i :: 0 <= i < |watch| ==> watch[i] in a
    requires d == Select(cases, otherwise, Watched(watch, a))
    ensures Settled(Implies(watch, Pending(cases, otherwise)), a) <==> Settled(d, a)
  {
    hide Applies, Has, Select;
    Selects(cases, otherwise, watch, a);
  }

  lemma {:induction false} UpdateSettlesAll<X, T>(cs: seq<Constraint<X, T>>, a: Assignment<X, T>)
    ensures (forall k :: 0 <= k < |cs| ==> Settled(cs[k], a)) <==> UpdateAll(cs, a).Done? && UpdateAll(cs, a).a == a
    decreases cs, 0
  {
    if cs != [] {
      hide Settled, Update;
      UpdateSettles(cs[0], a);
      UpdateSettlesAll(cs[1..], a);
      assert forall k :: 0 < k < |cs| ==> cs[k] == cs[1..][k - 1];
      if UpdateAll(cs, a).Done? && UpdateAll(cs, a).a == a {
        Inflationary(cs[0], a);
        InflationaryAll(cs[1..], Update(cs[0], a).a);
        assert Update(cs[0], a).a == a;
      }
    }
  }

  lemma {:induction false} UpdateSettlesXor<X, T>(cs: seq<Constraint<X, T>>, a: Assignment<X, T>)
    ensures Settled(Xor(cs), a) <==> Update(Xor(cs), a).Ok? && Update(Xor(cs), a).a == a
    decreases cs, 2
  {
    XorStep(cs, a);
    var k := FirstOk(cs, a);
    hide Update;
    if k < |cs| {
      var rest := cs[k + 1..];
      var j := FirstOk(rest, a);
      UpdateSettles(cs[k], a);
      if j < |rest| {
        assert rest[j] == cs[k + 1 + j] && TwoPossible(cs, a);
      } else {
        forall i | 0 <= i < |cs| && i != k ensures Update(cs[i], a).Err? {
          assert i > k ==> cs[i] == rest[i - k - 1];
        }
        assert OnlyPossible(cs, k, a) && !TwoPossible(cs, a);
      }
    }
  }

  /** The solver's assignment is the least one that leaves nothing to infer from any constraint. */
  lemma {:induction false} LeastIsLeastSettled<X(!new), T(!new)>(cs: seq<Constraint<X, T>>, a: Assignment<X, T>)
    ensures CommonFixpoint(cs, a) <==> forall k :: 0 <= k < |cs| ==> Settled(cs[k], a)
  {
    forall k | 0 <= k < |cs| ensures Settled(cs[k], a) <==> Update(cs[k], a).Ok? && Update(cs[k], a).a == a {
      UpdateSettles(cs[k], a);
    }
  }
}
