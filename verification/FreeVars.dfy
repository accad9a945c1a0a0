/**
 The free variables of a head (src/core.rs, `get_free_vars`), which a scheduler stores with every match: exactly when
 the backward pass finds them all, and that they are all a head depends on.
 */
module FreeVars {
  import opened CoreRules
  import opened Lowering
  import opened Options
  import opened QueryCompiler

  /** Variables that are read before they are introduced. */
  function Free(acts: seq<CoreAction>): set<string>
  {
    if acts == [] then {} else TermVars(Uses(acts[0])) + (Free(acts[1..]) - Introduces(acts[0]))
  }

  /** What the backward pass leaves: it adds what an action reads before it takes away what the action introduces. */
  function Collected(acts: seq<CoreAction>): set<string>
  {
    if acts == [] then {} else Collected(acts[1..]) + TermVars(Uses(acts[0])) - Introduces(acts[0])
  }

  method GetFreeVars(acts: seq<CoreAction>) returns (freeVars: set<string>)
    ensures freeVars == Collected(acts)
  {
    freeVars := {};
    assert acts[|acts|..] == [];
    for i := |acts| downto 0
      invariant freeVars == Collected(acts[i..])
    {
      assert acts[i..][0] == acts[i] && acts[i..][1..] == acts[i + 1..];
      freeVars := freeVars + TermVars(Uses(acts[i]));
      if acts[i].Let? || acts[i].LetAtomTerm? {
        freeVars := freeVars - {acts[i].v};
      }
    }
    assert acts[0..] == acts;
  }

  /** The first action that mentions the variable is a let of the variable by itself. */
  predicate SelfFirst(acts: seq<CoreAction>, x: string)
  {
    acts != [] &&
    if x in TermVars(Uses(acts[0])) || x in Introduces(acts[0])
    then x in TermVars(Uses(acts[0])) && x in Introduces(acts[0])
    else SelfFirst(acts[1..], x)
  }

  /** The pass misses a free variable if and only if a let of the variable by itself mentions it first. */
  lemma {:induction false} CollectedAre(acts: seq<CoreAction>, x: string)
    ensures x in Collected(acts) <==> x in Free(acts) && !SelfFirst(acts, x)
  {
    if acts != [] {
      CollectedAre(acts[1..], x);
    }
  }

  /** Lowered actions bind variables before use, so nothing is missed. */
  lemma {:induction false} NoneMissed(bound: set<string>, acts: seq<CoreAction>, bound': set<string>)
    requires BoundBeforeUse(bound, acts, bound')
    ensures Collected(acts) == Free(acts) <= bound
    decreases |acts|
  {
    if acts != [] {
      var rest := acts[1..];
      NoneMissed(bound + Introduces(acts[0]), rest, bound');
      forall x | x in TermVars(Uses(acts[0])) ensures x in bound {
        assert Var(x) in Uses(acts[0]);
      }
    }
  }

  /** Here the pass misses `x`. */
  lemma {:induction false} MissedVariable()
    ensures var acts := [LetAtomTerm("x", Var("x"))]; Free(acts) == {"x"} && Collected(acts) == {}
  {
    var acts := [LetAtomTerm("x", Var("x"))];
    assert acts[1..] == [] && TermVars(Uses(acts[0])) == {"x"} by {
      assert Var("x") in Uses(acts[0]);
    }
  }

  lemma {:induction false} SameVals(i: Interp, ts: seq<AtomTerm>, a: Env, b: Env)
    requires Total(i) && forall x :: x in TermVars(ts) ==> a[x] == b[x]
    ensures Vals(i, ts, a) == Vals(i, ts, b)
  {
    forall k | 0 <= k < |ts| ensures Val(i, ts[k], a) == Val(i, ts[k], b) {
      assert ts[k] in ts;
      if ts[k].Var? {
        assert ts[k].name in TermVars(ts);
      }
    }
  }

  /** Two valuations that agree on the free variables give one outcome. */
  lemma {:induction false} HeadReadsFree<D>(i: Interp, fx: Effects<D>, acts: seq<CoreAction>, a: Env, b: Env, db: D)
    requires Total(i) && forall x :: x in Free(acts) ==> a[x] == b[x]
    ensures var (r, q) := (RunHead(i, fx, acts, a, db), RunHead(i, fx, acts, b, db));
      (r.None? <==> q.None?) && (r.Some? ==> r.value.1 == q.value.1)
    decreases |acts|
  {
    if acts != [] {
      SameVals(i, Uses(acts[0]), a, b);
      match acts[0]
      case Let(v, h, args) =>
        var r := fx.call(h, Vals(i, args, a), db);
        if r.Some? {
          HeadReadsFree(i, fx, acts[1..], a[v := r.value.0], b[v := r.value.0], r.value.1);
        }
      case LetAtomTerm(v, at) =>
        assert Val(i, at, a) == Vals(i, [at], a)[0] == Vals(i, [at], b)[0] == Val(i, at, b);
        HeadReadsFree(i, fx, acts[1..], a[v := Val(i, at, a)], b[v := Val(i, at, b)], db);
      case Panic(_) =>
      case act =>
        var r := fx.update(Shape(act), Vals(i, Reads(act), a), db);
        if r.Some? {
          HeadReadsFree(i, fx, acts[1..], a, b, r.value);
        }
    }
  }

  // ---------------------------------------------------------------- heads of compiled rules

  /** A term that no let binds resolves to itself. */
  lemma {:induction false} ResolveOther(lets: seq<Binding>, x: string)
    requires forall k :: 0 <= k < |lets| ==> lets[k].v != x
    ensures Resolve(lets, Var(x)) == Var(x)
  {
    if lets != [] {
      ResolveOther(lets[1..], x);
    }
  }

  function BoundVars(lets: seq<Binding>): set<string> { set b | b in lets :: b.v }

  /** Every variable that the lets do not bind is left. */
  ghost predicate OthersLeft(before: set<string>, lets: seq<Binding>, after: set<string>)
  {
    forall x :: x in before && Resolve(lets, Var(x)).Var? ==> Resolve(lets, Var(x)).name in after
  }

  lemma {:induction false} LeftOrBound(before: set<string>, lets: seq<Binding>, after: set<string>, x: string)
    requires OthersLeft(before, lets, after) && x in before && forall k :: 0 <= k < |lets| ==> lets[k].v != x
    ensures x in after
  {
    hide Resolve;
    ResolveOther(lets, x);
  }

  lemma {:induction false} AllBound(before: set<string>, lets: seq<Binding>, after: set<string>)
    requires EliminationOrder(before, lets, after) && OthersLeft(before, lets, after)
    ensures after + BoundVars(lets) == before
  {
    hide OthersLeft;
    forall x | x in before ensures x in after + BoundVars(lets) {
      if forall k :: 0 <= k < |lets| ==> lets[k].v != x {
        LeftOrBound(before, lets, after, x);
      }
    }
    forall b | b in lets ensures b.v in before {
      var k :| 0 <= k < |lets| && lets[k] == b;
    }
  }

  /** What the k-th let reads is left or bound before it, and its own variable is not. */
  lemma {:induction false} LetReads(before: set<string>, lets: seq<Binding>, after: set<string>, k: nat)
    requires EliminationOrder(before, lets, after) && OthersLeft(before, lets, after) && k < |lets|
    ensures lets[k].at.Var? ==> lets[k].at.name in after + BoundVars(lets[..k])
    ensures lets[k].v !in after + BoundVars(lets[..k])
  {
    hide OthersLeft;
    var l := lets[k];
    if l.at.Var? && l.at.name !in BoundVars(lets[..k]) {
      forall j | 0 <= j < |lets| ensures lets[j].v != l.at.name {
        if j < k {
          assert lets[j] in lets[..k];
        }
      }
      LeftOrBound(before, lets, after, l.at.name);
    }
    forall b | b in lets[..k] ensures b.v != l.v {
      var j :| 0 <= j < k && lets[..k][j] == b;
      assert lets[j] == b;
    }
  }

  lemma {:induction false} OneMoreBound(lets: seq<Binding>, k: nat)
    requires k < |lets|
    ensures BoundVars(lets[..k + 1]) == BoundVars(lets[..k]) + {lets[k].v}
    ensures LetActions(lets[k..]) == [LetAtomTerm(lets[k].v, lets[k].at)] + LetActions(lets[k + 1..])
  {
    assert lets[..k + 1] == lets[..k] + [lets[k]];
    assert lets[k..][0] == lets[k] && lets[k..][1..] == lets[k + 1..];
  }

  lemma {:induction false} BoundCons(bound: set<string>, v: string, at: AtomTerm, rest: seq<CoreAction>,
                                     bound': set<string>)
    requires (at.Var? ==> at.name in bound) && v !in bound && BoundBeforeUse(bound + {v}, rest, bound')
    ensures BoundBeforeUse(bound, [LetAtomTerm(v, at)] + rest, bound')
  {
    var acts := [LetAtomTerm(v, at)] + rest;
    assert acts[1..] == rest && Introduces(acts[0]) == {v};
  }

  /** The lets of a compilation bind before use, from the variables that are left to all variables that were there. */
  lemma {:induction false} LetsBind(before: set<string>, lets: seq<Binding>, after: set<string>, k: nat)
    requires EliminationOrder(before, lets, after) && OthersLeft(before, lets, after) && k <= |lets|
    ensures BoundBeforeUse(after + BoundVars(lets[..k]), LetActions(lets[k..]), before)
    decreases |lets| - k
  {
    hide EliminationOrder, OthersLeft, BoundVars;
    if k == |lets| {
      assert lets[..k] == lets && lets[k..] == [];
      AllBound(before, lets, after);
    } else {
      hide BoundBeforeUse, LetActions;
      LetsBind(before, lets, after, k + 1);
      LetReads(before, lets, after, k);
      OneMoreBound(lets, k);
      assert after + BoundVars(lets[..k + 1]) == after + BoundVars(lets[..k]) + {lets[k].v};
      BoundCons(after + BoundVars(lets[..k]), lets[k].v, lets[k].at, LetActions(lets[k + 1..]), before);
    }
  }

  /** So the head of a compiled rule is bound by its body, and its free variables are what the pass collects. */
  lemma {:induction false} CompiledHeadBound(before: set<string>, lets: seq<Binding>, after: set<string>,
                                             acts: seq<CoreAction>, bound': set<string>)
    requires EliminationOrder(before, lets, after) && BoundBeforeUse(before, acts, bound')
    requires OthersLeft(before, lets, after)
    ensures BoundBeforeUse(after, LetActions(lets) + acts, bound')
    ensures Collected(LetActions(lets) + acts) == Free(LetActions(lets) + acts) <= after
  {
    LetsBind(before, lets, after, 0);
    assert lets[0..] == lets && after + BoundVars(lets[..0]) == after;
    BoundAppend(after, LetActions(lets), before, acts, bound');
    NoneMissed(after, LetActions(lets) + acts, bound');
  }
}
