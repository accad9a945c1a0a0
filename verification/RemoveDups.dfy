/**
 Merging calls by functional dependency (src/core.rs, `remove_dup_vars`): atoms with one head and equal
 inputs have equal outputs, so all but the first are replaced by equalities, to a fixpoint.
 */
module RemoveDups {
  import opened CoreRules
  import opened QueryCompiler

  datatype Key = Key(head: HeadOrEq, inp: seq<AtomTerm>)

  type Groups = map<Key, seq<AtomTerm>>

  function KeyOf(a: Atom): Key { Key(a.head, Inputs(a)) }

  predicate Calls(body: seq<Atom>) { WellFormed(body) && NoEq(body) }

  /** No two atoms share a head and inputs. */
  ghost predicate NoDups(body: seq<Atom>)
  {
    forall p, q :: 0 <= p < q < |body| && body[p].head == body[q].head ==> Inputs(body[p]) != Inputs(body[q])
  }

  /** Atoms whose output is not the unit literal. */
  function NonUnit(body: seq<Atom>): nat
  {
    if body == [] then 0
    else NonUnit(body[..|body| - 1]) + if Output(body[|body| - 1]) == UNIT then 0 else 1
  }

  /** A call with another output comes before the same call with the unit output. */
  ghost predicate LateUnit(body: seq<Atom>)
  {
    exists p, q :: 0 <= p < q < |body| && KeyOf(body[p]) == KeyOf(body[q]) && Output(body[p]) != UNIT &&
      Output(body[q]) == UNIT
  }

  // ---------------------------------------------------------------- grouping

  /** The outputs of the calls with the key, in order. */
  function Outputs(body: seq<Atom>, k: Key): seq<AtomTerm>
  {
    if body == [] then []
    else
      var a := body[|body| - 1];
      Outputs(body[..|body| - 1], k) + if KeyOf(a) == k then [Output(a)] else []
  }

  /** The first call with each key. */
  function Firsts(body: seq<Atom>): seq<Atom>
  {
    if body == [] then []
    else
      var rest, a := body[..|body| - 1], body[|body| - 1];
      Firsts(rest) + if Outputs(rest, KeyOf(a)) == [] then [a] else []
  }

  /** The groups hold the outputs of every key that occurs. */
  ghost predicate GroupsOf(body: seq<Atom>, groups: Groups)
  {
    forall k :: if k in groups then groups[k] == Outputs(body, k) != [] else Outputs(body, k) == []
  }

  function GroupFor(groups: Groups, k: Key): seq<AtomTerm> { if k in groups then groups[k] else [] }

  lemma {:induction false} NoGroups()
    ensures GroupsOf([], map[])
  {
  }

  lemma {:induction false} GroupsNext(front: seq<Atom>, groups: Groups, a: Atom)
    requires GroupsOf(front, groups)
    ensures GroupsOf(front + [a], groups[KeyOf(a) := GroupFor(groups, KeyOf(a)) + [Output(a)]])
    ensures Firsts(front + [a]) == Firsts(front) + if GroupFor(groups, KeyOf(a)) == [] then [a] else []
  {
    hide KeyOf, Output;
    assert (front + [a])[..|front|] == front;
  }

  /** Keep the first atom for each head and inputs, and collect the outputs. */
  method Retain(body: seq<Atom>) returns (kept: seq<Atom>, groups: Groups)
    ensures kept == Firsts(body) && GroupsOf(body, groups)
  {
    kept, groups := [], map[];
    assert body[..0] == [];
    NoGroups();
    hide GroupsOf, KeyOf, Output;
    for i := 0 to |body|
      invariant kept == Firsts(body[..i]) && GroupsOf(body[..i], groups)
    {
      hide Firsts;
      var atom := body[i];
      assert body[..i + 1] == body[..i] + [atom];
      GroupsNext(body[..i], groups, atom);
      var key := KeyOf(atom);
      var group := GroupFor(groups, key);
      groups := groups[key := group + [Output(atom)]];
      if |groups[key]| == 1 {
        kept := kept + [atom];
      }
    }
    assert body[..|body|] == body;
  }

  lemma {:induction false} OutputsOfMembers(body: seq<Atom>, a: Atom)
    requires a in body
    ensures Output(a) in Outputs(body, KeyOf(a))
  {
    var last := |body| - 1;
    if a != body[last] {
      assert a in body[..last];
      OutputsOfMembers(body[..last], a);
    }
  }

  lemma {:induction false} FirstsOf(body: seq<Atom>, k: Key)
    ensures forall a :: a in Firsts(body) ==> a in body
    ensures Outputs(body, k) != [] ==>
      exists a :: a in Firsts(body) && KeyOf(a) == k && Output(a) == Outputs(body, k)[0]
  {
    if body != [] {
      var rest := body[..|body| - 1];
      FirstsOf(rest, k);
      if Outputs(rest, k) != [] {
        var a :| a in Firsts(rest) && KeyOf(a) == k && Output(a) == Outputs(rest, k)[0];
        assert a in Firsts(body) && Outputs(body, k)[0] == Outputs(rest, k)[0];
      } else if KeyOf(body[|body| - 1]) == k {
        assert body[|body| - 1] in Firsts(body);
      }
    }
  }

  lemma {:induction false} FirstsDistinct(body: seq<Atom>)
    ensures NoDups(Firsts(body))
    ensures forall a :: a in Firsts(body) ==> Outputs(body, KeyOf(a)) != []
  {
    FirstKeysDistinct(body);
    DistinctKeys(Firsts(body));
  }

  lemma {:induction false} DistinctKeys(body: seq<Atom>)
    requires forall p, q :: 0 <= p < q < |body| ==> KeyOf(body[p]) != KeyOf(body[q])
    ensures NoDups(body)
  {
    hide Inputs;
    forall p, q | 0 <= p < q < |body| && body[p].head == body[q].head
      ensures Inputs(body[p]) != Inputs(body[q])
    {
      assert KeyOf(body[p]) != KeyOf(body[q]);
    }
  }

  lemma {:induction false} FirstKeysDistinct(body: seq<Atom>)
    ensures forall p, q :: 0 <= p < q < |Firsts(body)| ==> KeyOf(Firsts(body)[p]) != KeyOf(Firsts(body)[q])
    ensures forall a :: a in Firsts(body) ==> Outputs(body, KeyOf(a)) != []
  {
    if body != [] {
      FirstKeysDistinct(body[..|body| - 1]);
    }
  }

  ghost predicate Later(body: seq<Atom>, k: Key, first: AtomTerm, other: AtomTerm)
  {
    exists p, q :: 0 <= p < q < |body| && KeyOf(body[p]) == k && KeyOf(body[q]) == k && Output(body[p]) == first &&
      Output(body[q]) == other
  }

  lemma {:induction false} OutputAt(body: seq<Atom>, k: Key, m: nat) returns (p: nat)
    requires m < |Outputs(body, k)|
    ensures p < |body| && KeyOf(body[p]) == k && Output(body[p]) == Outputs(body, k)[m]
    ensures p == |body| - 1 ||
      (m < |Outputs(body[..|body| - 1], k)| && Outputs(body[..|body| - 1], k)[m] == Outputs(body, k)[m])
  {
    var rest := body[..|body| - 1];
    if m < |Outputs(rest, k)| {
      p := OutputAt(rest, k, m);
    } else {
      p := |body| - 1;
    }
  }

  lemma {:induction false} OutputsAreLater(body: seq<Atom>, k: Key, m: nat)
    requires 1 <= m < |Outputs(body, k)|
    ensures Later(body, k, Outputs(body, k)[0], Outputs(body, k)[m])
  {
    var rest := body[..|body| - 1];
    if m < |Outputs(rest, k)| {
      OutputsAreLater(rest, k, m);
      var p, q :| 0 <= p < q < |rest| && KeyOf(rest[p]) == k && KeyOf(rest[q]) == k &&
        Output(rest[p]) == Outputs(rest, k)[0] && Output(rest[q]) == Outputs(rest, k)[m];
      assert KeyOf(body[p]) == k && KeyOf(body[q]) == k;
    } else {
      var p := OutputAt(rest, k, 0);
      assert KeyOf(body[p]) == k && KeyOf(body[|body| - 1]) == k;
    }
  }

  /** One more call at the end is kept if it is the first with its key. */
  lemma {:induction false} FirstsStep(rest: seq<Atom>, a: Atom, k: Key)
    ensures NonUnit(rest + [a]) == NonUnit(rest) + if Output(a) == UNIT then 0 else 1
    ensures NonUnit(Firsts(rest + [a])) ==
      NonUnit(Firsts(rest)) + if Outputs(rest, KeyOf(a)) == [] && Output(a) != UNIT then 1 else 0
    ensures Outputs(rest + [a], k) == Outputs(rest, k) + if KeyOf(a) == k then [Output(a)] else []
  {
    var body := rest + [a];
    assert body[..|body| - 1] == rest && body[|body| - 1] == a;
    if Outputs(rest, KeyOf(a)) == [] {
      assert Firsts(body) == Firsts(rest) + [a];
      assert (Firsts(rest) + [a])[..|Firsts(rest)|] == Firsts(rest);
    } else {
      assert Firsts(body) == Firsts(rest) + [] == Firsts(rest);
    }
  }

  /** Removing calls removes no output but unit ones, unless fewer non-unit outputs remain. */
  lemma {:induction false} FirstsNonUnit(body: seq<Atom>, k: Key, m: nat)
    ensures NonUnit(Firsts(body)) <= NonUnit(body)
    ensures 1 <= m < |Outputs(body, k)| && NonUnit(Firsts(body)) == NonUnit(body) ==> Outputs(body, k)[m] == UNIT
  {
    if body != [] {
      hide Firsts, NonUnit, Outputs, KeyOf;
      var rest, a := body[..|body| - 1], body[|body| - 1];
      assert body == rest + [a];
      FirstsStep(rest, a, k);
      FirstsNonUnit(rest, k, m);
    }
  }

  /** `e` equates the first output of a group with a different later one. */
  ghost predicate FromGroup(groups: Groups, e: Atom)
  {
    exists k, m :: k in groups && 1 <= m < |groups[k]| && groups[k][m] != groups[k][0] &&
      e == Atom(Eq, [groups[k][0], groups[k][m]])
  }

  /** The equalities are exactly those of the groups. */
  ghost predicate EqsOf(groups: Groups, eqs: seq<Atom>)
  {
    && (forall e :: e in eqs ==> FromGroup(groups, e))
    && (forall k, m :: k in groups && 1 <= m < |groups[k]| && groups[k][m] != groups[k][0] ==>
         Atom(Eq, [groups[k][0], groups[k][m]]) in eqs)
  }

  /** One equality for each group and output that differs from its first; the groups come in any order. */
  method EquivGroupsToEqConstraints(groups: Groups) returns (eqs: seq<Atom>)
    requires forall k :: k in groups ==> groups[k] != []
    ensures EqsOf(groups, eqs)
  {
    eqs := [];
    var todo := groups.Keys;
    while todo != {}
      invariant todo <= groups.Keys
      invariant forall e :: e in eqs ==> FromGroup(groups, e)
      invariant forall k, m :: k in groups && k !in todo && 1 <= m < |groups[k]| && groups[k][m] != groups[k][0] ==>
                  Atom(Eq, [groups[k][0], groups[k][m]]) in eqs
      decreases todo
    {
      var key :| key in todo;
      var group := groups[key];
      var more: seq<Atom> := [];
      for m := 1 to |group|
        invariant forall e :: e in more ==> FromGroup(groups, e)
        invariant forall j :: 1 <= j < m && group[j] != group[0] ==> Atom(Eq, [group[0], group[j]]) in more
      {
        if group[0] != group[m] {
          more := more + [Atom(Eq, [group[0], group[m]])];
        }
      }
      eqs := eqs + more;
      todo := todo - {key};
    }
  }

  // ---------------------------------------------------------------- merging is a compilation step

  lemma {:induction false} KeptUpToOutput(body: seq<Atom>, a: Atom) returns (b: Atom, m: nat)
    requires a in body
    ensures b in Firsts(body) && KeyOf(b) == KeyOf(a)
    ensures m < |Outputs(body, KeyOf(a))| && Output(b) == Outputs(body, KeyOf(a))[0]
    ensures Output(a) == Outputs(body, KeyOf(a))[m]
  {
    OutputsOfMembers(body, a);
    FirstsOf(body, KeyOf(a));
    b :| b in Firsts(body) && KeyOf(b) == KeyOf(a) && Output(b) == Outputs(body, KeyOf(a))[0];
    m :| 0 <= m < |Outputs(body, KeyOf(a))| && Outputs(body, KeyOf(a))[m] == Output(a);
  }

  lemma {:induction false} EqsRelateCalls(body: seq<Atom>, groups: Groups, e: Atom)
    requires GroupsOf(body, groups) && FromGroup(groups, e)
    ensures e.head.Eq? && |e.args| == 2
    ensures exists a, b :: a in body && b in body && KeyOf(a) == KeyOf(b) && e.args == [Output(a), Output(b)]
  {
    var k, m :| k in groups && 1 <= m < |groups[k]| && e == Atom(Eq, [groups[k][0], groups[k][m]]);
    OutputsAreLater(body, k, m);
    var p, q :| 0 <= p < q < |body| && KeyOf(body[p]) == k && KeyOf(body[q]) == k && Output(body[p]) == groups[k][0] &&
      Output(body[q]) == groups[k][m];
    assert body[p] in body && body[q] in body;
  }

  lemma {:induction false} KeptFor(body: seq<Atom>, groups: Groups, eqs: seq<Atom>, a: Atom) returns (b: Atom)
    requires a in body && GroupsOf(body, groups) && EqsOf(groups, eqs)
    ensures b in Firsts(body) && KeyOf(b) == KeyOf(a)
    ensures (Output(b) == Output(a) || Atom(Eq, [Output(b), Output(a)]) in eqs)
  {
    hide Outputs, Firsts, KeyOf, Output, GroupsOf, EqsOf;
    var m;
    b, m := KeptUpToOutput(body, a);
    GroupIs(body, groups, KeyOf(a));
    if Output(b) != Output(a) {
      assert m != 0;
      EqFor(groups, eqs, KeyOf(a), m);
    }
  }

  lemma {:induction false} NoEmptyGroup(body: seq<Atom>, groups: Groups)
    requires GroupsOf(body, groups)
    ensures forall k :: k in groups ==> groups[k] != []
  {
    hide Outputs;
  }

  lemma {:induction false} GroupIs(body: seq<Atom>, groups: Groups, k: Key)
    requires GroupsOf(body, groups) && Outputs(body, k) != []
    ensures k in groups && groups[k] == Outputs(body, k)
  {
    hide Outputs;
  }

  lemma {:induction false} EqFor(groups: Groups, eqs: seq<Atom>, k: Key, m: nat)
    requires EqsOf(groups, eqs) && k in groups && 1 <= m < |groups[k]| && groups[k][m] != groups[k][0]
    ensures Atom(Eq, [groups[k][0], groups[k][m]]) in eqs
  {
    hide FromGroup;
  }

  lemma {:induction false} FirstsMerge(body: seq<Atom>, groups: Groups, eqs: seq<Atom>)
    requires Calls(body) && GroupsOf(body, groups) && EqsOf(groups, eqs)
    ensures Calls(Firsts(body)) && Merged(body, Firsts(body), eqs)
  {
    FirstsOf(body, Key(Eq, []));
    var kept := Firsts(body);
    assert Calls(kept);
    forall a | a in body
      ensures exists b ::
        b in kept && KeyOf(b) == KeyOf(a) && (Output(b) == Output(a) || Atom(Eq, [Output(b), Output(a)]) in eqs)
    {
      var b := KeptFor(body, groups, eqs, a);
    }
    forall e | e in eqs
      ensures e.head.Eq? && |e.args| == 2
      ensures exists a, b :: a in body && b in body && KeyOf(a) == KeyOf(b) && e.args == [Output(a), Output(b)]
    {
      EqsRelateCalls(body, groups, e);
    }
  }

  /** Every atom is kept up to its output, and the new equalities relate outputs of one call. */
  ghost predicate Merged(body: seq<Atom>, kept: seq<Atom>, eqs: seq<Atom>)
    requires Calls(body) && Calls(kept)
  {
    && (forall a :: a in kept ==> a in body)
    && (forall a :: a in body ==> exists b ::
         b in kept && KeyOf(b) == KeyOf(a) && (Output(b) == Output(a) || Atom(Eq, [Output(b), Output(a)]) in eqs))
    && (forall e :: e in eqs ==> e.head.Eq? && |e.args| == 2)
    && (forall e :: e in eqs ==>
         exists a, b :: a in body && b in body && KeyOf(a) == KeyOf(b) && e.args == [Output(a), Output(b)])
  }

  lemma {:induction false} MergeVars(body: seq<Atom>, kept: seq<Atom>, eqs: seq<Atom>)
    requires Calls(body) && Calls(kept) && Merged(body, kept, eqs)
    ensures Vars(eqs + kept) <= Vars(body)
  {
    forall e, t | e in eqs + kept && t in e.args && t.Var?
      ensures t.name in Vars(body)
    {
      if e in eqs {
        var a, b :| a in body && b in body && KeyOf(a) == KeyOf(b) && e.args == [Output(a), Output(b)];
        assert Output(a) in a.args && Output(b) in b.args;
      }
    }
  }

  lemma {:induction false} MergeMatches(valueEq: ValueEq, body: seq<Atom>, head: seq<CoreAction>, kept: seq<Atom>,
                                        eqs: seq<Atom>)
    requires Calls(body) && Calls(kept) && Merged(body, kept, eqs)
    ensures WellFormed(eqs + kept) && SameMatches(valueEq, Rule(body, head), Rule(eqs + kept, head), [])
  {
    assert WellFormed(eqs + kept);
    forall i, env | Sound(i, valueEq)
      ensures Matches(i, body, env) <==> Matches(i, eqs + kept, env)
    {
      if Matches(i, body, env) {
        forall e | e in eqs ensures Holds(i, e, env) {
          var a, b :| a in body && b in body && KeyOf(a) == KeyOf(b) && e.args == [Output(a), Output(b)];
          assert Holds(i, a, env) && Holds(i, b, env);
        }
      }
      if Matches(i, eqs + kept, env) {
        forall a | a in body ensures Holds(i, a, env) {
          var b :| b in kept && KeyOf(b) == KeyOf(a) &&
            (Output(b) == Output(a) || Atom(Eq, [Output(b), Output(a)]) in eqs);
          assert b in eqs + kept;
          assert Holds(i, b, env);
          if Output(b) != Output(a) {
            var e := Atom(Eq, [Output(b), Output(a)]);
            assert e in eqs + kept;
            assert Holds(i, e, env);
          }
        }
      }
    }
  }

  lemma {:induction false} MergeGround(body: seq<Atom>, head: seq<CoreAction>, kept: seq<Atom>, eqs: seq<Atom>)
    requires Calls(body) && Calls(kept) && Merged(body, kept, eqs) && WellFormed(eqs + kept)
    ensures KeepsGround(Rule(body, head), Rule(eqs + kept, head), [])
  {
    forall s | GroundClosed(eqs + kept, s)
      ensures GroundClosed(body, s)
    {
      forall a | a in body
        ensures GroundAtom(a, s)
      {
        var b :| b in kept && KeyOf(b) == KeyOf(a) &&
          (Output(b) == Output(a) || Atom(Eq, [Output(b), Output(a)]) in eqs);
        assert b in eqs + kept && GroundAtom(b, s);
        hide GroundAtom;
        if Output(b) != Output(a) {
          var e := Atom(Eq, [Output(b), Output(a)]);
          assert e in eqs + kept && GroundAtom(e, s);
        }
        SameKeyGround(a, b, s);
      }
    }
  }

  lemma {:induction false} SameKeyGround(a: Atom, b: Atom, s: iset<AtomTerm>)
    requires a.head.Head? && b.head.Head? && |a.args| >= 1 && |b.args| >= 1 && KeyOf(b) == KeyOf(a) && GroundAtom(b, s)
    requires Output(b) != Output(a) ==> GroundAtom(Atom(Eq, [Output(b), Output(a)]), s)
    ensures GroundAtom(a, s)
  {
    SplitArgs(a);
    SplitArgs(b);
  }

  lemma {:induction false} SplitArgs(a: Atom)
    requires |a.args| >= 1
    ensures forall t :: t in a.args <==> t in Inputs(a) || t == Output(a)
  {
    assert a.args == Inputs(a) + [Output(a)];
  }

  // ---------------------------------------------------------------- the recursion

  lemma {:induction false} NonUnitAppend(a: seq<Atom>, b: seq<Atom>)
    ensures NonUnit(a + b) == NonUnit(a) + NonUnit(b)
  {
    if b == [] {
      assert a + b == a;
    } else {
      assert (a + b)[..|a + b| - 1] == a + b[..|b| - 1];
      NonUnitAppend(a, b[..|b| - 1]);
    }
  }

  lemma {:induction false} TranslateCalls(valueEq: ValueEq, eqs: seq<Atom>, kept: seq<Atom>)
    requires NoEq(kept)
    ensures TranslateAll(valueEq, eqs + kept) == TranslateAll(valueEq, eqs) + kept
  {
    if kept == [] {
      assert eqs + kept == eqs;
    } else {
      var all := eqs + kept;
      assert all[..|all| - 1] == eqs + kept[..|kept| - 1];
      assert all[|all| - 1] == kept[|kept| - 1];
      TranslateCalls(valueEq, eqs, kept[..|kept| - 1]);
    }
  }

  lemma {:induction false} TranslateEqs(valueEq: ValueEq, eqs: seq<Atom>)
    requires WellFormed(eqs) && forall e :: e in eqs ==> e.head.Eq?
    ensures NonUnit(TranslateAll(valueEq, eqs)) == 0
    ensures forall p :: 0 <= p < |TranslateAll(valueEq, eqs)| ==> Output(TranslateAll(valueEq, eqs)[p]) == UNIT
  {
    if eqs != [] {
      var rest, last := eqs[..|eqs| - 1], eqs[|eqs| - 1];
      assert last in eqs && forall e :: e in rest ==> e in eqs;
      TranslateEqs(valueEq, rest);
      hide WellFormed, NonUnit;
      var t := Translate(valueEq, last);
      if t.Some? {
        assert Output(t.value) == UNIT;
        NonUnitLast(TranslateAll(valueEq, rest), t.value);
      }
    }
  }

  lemma {:induction false} NonUnitLast(body: seq<Atom>, a: Atom)
    ensures NonUnit(body + [a]) == NonUnit(body) + if Output(a) == UNIT then 0 else 1
  {
    assert (body + [a])[..|body|] == body;
  }

  /** With no variable eliminated, a non-unit output goes or the units stop coming late. */
  lemma {:induction false} RoundDecreases(body: seq<Atom>, groups: Groups, eqs: seq<Atom>, values: seq<Atom>)
    requires GroupsOf(body, groups) && eqs != [] && EqsOf(groups, eqs)
    requires NonUnit(values) == 0 && forall p :: 0 <= p < |values| ==> Output(values[p]) == UNIT
    ensures
      var next := values + Firsts(body);
      && NonUnit(next) <= NonUnit(body)
      && (NonUnit(next) == NonUnit(body) ==> LateUnit(body) && !LateUnit(next))
  {
    var kept := Firsts(body);
    var next := values + kept;
    NonUnitAppend(values, kept);
    assert FromGroup(groups, eqs[0]);
    var k, m :| k in groups && 1 <= m < |groups[k]| && groups[k][m] != groups[k][0];
    FirstsNonUnit(body, k, m);
    OutputsAreLater(body, k, m);
    FirstsDistinct(body);
    forall p, q | |values| <= p < q < |next|
      ensures KeyOf(next[p]) != KeyOf(next[q])
    {
      assert next[p] == kept[p - |values|] && next[q] == kept[q - |values|];
    }
  }

  /**
   Terminates on every rule, keeps matches, head effects and groundedness for every order of the groups,
   and leaves no two atoms with one head and inputs.
   */
  method RemoveDupVars(valueEq: ValueEq, rule: Rule) returns (r: Rule, ghost lets: seq<Binding>)
    requires Calls(rule.body)
    ensures Step(valueEq, rule, r, lets) && Calls(r.body) && NoDups(r.body)
    ensures Vars(r.body) <= Vars(rule.body) && Eliminated(lets, r.body)
    ensures EliminationOrder(Vars(rule.body), lets, Vars(r.body))
    decreases Vars(rule.body), NonUnit(rule.body), LateUnit(rule.body)
  {
    hide Step, Vars, NoDups, Eliminated, EliminationOrder, GroupsOf, EqsOf, ToSubst, Calls, TranslateAll, NonUnit;
    hide LateUnit;
    var kept, groups := Retain(rule.body);
    NoEmptyGroup(rule.body, groups);
    var newAtoms := EquivGroupsToEqConstraints(groups);
    ghost var mid := Rule(newAtoms + kept, rule.head);
    MergeIsStep(valueEq, rule, groups, newAtoms);
    if newAtoms == [] {
      assert newAtoms + kept == kept;
      FirstsDistinct(rule.body);
      r, lets := Rule(kept, rule.head), [];
      NoLets(Vars(rule.body), r.body);
    } else {
      CallsAppend(newAtoms, kept);
      var next;
      ghost var nextLets, moreLets;
      next, nextLets := Canonicalize(valueEq, Rule(newAtoms + kept, rule.head));
      Compose(valueEq, rule, mid, next, [], nextLets);
      assert nextLets + [] == nextLets;
      CallsIf(next.body);
      if ToSubst(mid.body).None? {
        TranslateCalls(valueEq, newAtoms, kept);
        TranslateEqs(valueEq, newAtoms);
        RoundDecreases(rule.body, groups, newAtoms, TranslateAll(valueEq, newAtoms));
      }
      r, moreLets := RemoveDupVars(valueEq, next);
      Compose(valueEq, rule, next, r, nextLets, moreLets);
      NoLets(Vars(rule.body), mid.body);
      ComposeOrder(Vars(rule.body), Vars(mid.body), Vars(next.body), [], nextLets);
      ComposeOrder(Vars(rule.body), Vars(next.body), Vars(r.body), nextLets, moreLets);
      lets := moreLets + nextLets;
      OrderEliminates(Vars(rule.body), lets, r.body);
    }
  }

  lemma {:induction false} NoLets(before: set<string>, body: seq<Atom>)
    requires Vars(body) <= before
    ensures EliminationOrder(before, [], Vars(body)) && Eliminated([], body)
  {
  }

  lemma {:induction false} CallsAppend(eqs: seq<Atom>, calls: seq<Atom>)
    requires WellFormed(eqs) && Calls(calls)
    ensures WellFormed(eqs + calls)
  {
  }

  lemma {:induction false} CallsIf(body: seq<Atom>)
    ensures WellFormed(body) && NoEq(body) ==> Calls(body)
  {
  }

  lemma {:induction false} MergeIsStep(valueEq: ValueEq, rule: Rule, groups: Groups, eqs: seq<Atom>)
    requires Calls(rule.body) && GroupsOf(rule.body, groups) && EqsOf(groups, eqs)
    ensures Calls(Firsts(rule.body)) && WellFormed(eqs) && (forall e :: e in eqs ==> e.head.Eq?)
    ensures Step(valueEq, rule, Rule(eqs + Firsts(rule.body), rule.head), [])
    ensures Vars(eqs + Firsts(rule.body)) <= Vars(rule.body)
  {
    FirstsMerge(rule.body, groups, eqs);
    MergeMatches(valueEq, rule.body, rule.head, Firsts(rule.body), eqs);
    MergeGround(rule.body, rule.head, Firsts(rule.body), eqs);
    MergeVars(rule.body, Firsts(rule.body), eqs);
    assert Rule(rule.body, rule.head) == rule;
  }

  // ---------------------------------------------------------------- the whole compilation

  /** Variables grounded in a body without equalities occur in it. */
  lemma {:induction false} GroundedOccurs(body: seq<Atom>, x: string)
    requires Calls(body) && Grounded(body, Var(x))
    ensures x in Vars(body)
  {
    var s := iset t: AtomTerm | t.Var? ==> t.name in Vars(body);
    forall a | a in body
      ensures forall t :: t in a.args ==> t in s
    {
    }
    assert GroundClosed(body, s);
  }

  /** All body variables are grounded; what `grounded_check` accepts. */
  ghost predicate Accepted(rule: Rule) { forall x :: x in Vars(rule.body) ==> Grounded(rule.body, Var(x)) }

  /** The lets resolve the variable to a literal, a global, or a grounded variable of the body. */
  ghost predicate BoundBy(lets: seq<Binding>, body: seq<Atom>, x: string)
  {
    var t := Resolve(lets, Var(x));
    t.Var? ==> t.name in Vars(body) && Grounded(body, t)
  }

  /** Canonicalize, then merge. */
  method Compile(valueEq: ValueEq, rule: Rule) returns (r: Rule, ghost lets: seq<Binding>)
    requires WellFormed(rule.body)
    ensures Step(valueEq, rule, r, lets) && Calls(r.body) && NoDups(r.body)
    ensures Vars(r.body) <= Vars(rule.body) && Eliminated(lets, r.body)
    ensures EliminationOrder(Vars(rule.body), lets, Vars(r.body))
    ensures Accepted(rule) ==> forall x :: x in Vars(rule.body) ==> BoundBy(lets, r.body, x)
  {
    var canonical;
    ghost var canonicalLets, moreLets;
    canonical, canonicalLets := Canonicalize(valueEq, rule);
    r, moreLets := RemoveDupVars(valueEq, canonical);
    Compose(valueEq, rule, canonical, r, canonicalLets, moreLets);
    ComposeOrder(Vars(rule.body), Vars(canonical.body), Vars(r.body), canonicalLets, moreLets);
    lets := moreLets + canonicalLets;
    if Accepted(rule) {
      forall x | x in Vars(rule.body)
        ensures BoundBy(lets, r.body, x)
      {
        AcceptedIsBound(valueEq, rule, r, lets, x);
      }
    }
  }

  lemma {:induction false} AcceptedIsBound(valueEq: ValueEq, rule: Rule, r: Rule, lets: seq<Binding>, x: string)
    requires Step(valueEq, rule, r, lets) && Calls(r.body) && Accepted(rule) && x in Vars(rule.body)
    ensures BoundBy(lets, r.body, x)
  {
    var t := Resolve(lets, Var(x));
    assert Grounded(r.body, t);
    if t.Var? {
      GroundedOccurs(r.body, t.name);
    }
  }

  /**
   For an accepted rule the matches of both bodies, as values of their own variables, correspond one to
   one: the remaining variables determine the others and keep their values.
   */
  lemma {:induction false} MatchesAreOneToOne(i: Interp, lets: seq<Binding>, old': seq<Atom>, new': seq<Atom>, e1: Env,
                                              e2: Env)
    requires Total(i)
    requires Eliminated(lets, new') && Vars(new') <= Vars(old')
    requires forall x :: x in Vars(old') ==> BoundBy(lets, new', x)
    ensures (forall x :: x in Vars(new') ==> e1[x] == e2[x]) <==>
            (forall x :: x in Vars(old') ==> RunLets(i, lets, e1)[x] == RunLets(i, lets, e2)[x])
  {
    forall x | x in Vars(new')
      ensures RunLets(i, lets, e1)[x] == e1[x] && RunLets(i, lets, e2)[x] == e2[x]
    {
      UnboundKept(i, lets, x, e1);
      UnboundKept(i, lets, x, e2);
    }
    if forall x :: x in Vars(new') ==> e1[x] == e2[x] {
      forall x | x in Vars(old')
        ensures RunLets(i, lets, e1)[x] == RunLets(i, lets, e2)[x]
      {
        assert BoundBy(lets, new', x);
        ResolveValue(i, lets, Var(x), e1);
        ResolveValue(i, lets, Var(x), e2);
      }
    }
  }
}
