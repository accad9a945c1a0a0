/**
 Printing with let bindings for shared subterms (src/termdag.rs, `render_term`): which terms are bound, in which order,
 under which names, and when the text still means the term.
 */
module LetPrint {
  import opened Ast
  import opened LetExpand
  import opened SymbolGens
  import opened TermDags

  const MIN_SHARED_TERM_SIZE: nat := 4

  function Args(nodes: seq<Term>, id: TermId): seq<TermId>
  {
    if id < |nodes| && nodes[id].TApp? then nodes[id].args else []
  }

  // ---------------------------------------------------------------- what later lets leave alone

  /** Below the term, everything worth binding is bound. */
  ghost predicate Complete(nodes: seq<Term>, worth: set<TermId>, bound: set<TermId>, id: TermId)
    requires Ordered(nodes) && id < |nodes|
    decreases id
  {
    nodes[id].TApp? ==> forall k :: 0 <= k < |nodes[id].args| ==>
      (nodes[id].args[k] in worth ==> nodes[id].args[k] in bound) && Complete(nodes, worth, bound, nodes[id].args[k])
  }

  lemma {:induction false} CompleteLater(nodes: seq<Term>, worth: set<TermId>, a: set<TermId>, b: set<TermId>,
                                         id: TermId)
    requires Ordered(nodes) && id < |nodes| && a <= b && Complete(nodes, worth, a, id)
    ensures Complete(nodes, worth, b, id)
    decreases id
  {
    if nodes[id].TApp? {
      forall k | 0 <= k < |nodes[id].args| ensures Complete(nodes, worth, b, nodes[id].args[k]) {
        CompleteLater(nodes, worth, a, b, nodes[id].args[k]);
      }
    }
  }

  /** More names, for terms worth one. */
  ghost predicate Grows(worth: set<TermId>, a: map<TermId, string>, b: map<TermId, string>)
  {
    a.Keys <= b.Keys <= worth && forall t :: t in a ==> a[t] == b[t]
  }

  /** Once everything worth a name below a term has one, its rendering stays. */
  lemma {:induction false} BodyStays(nodes: seq<Term>, worth: set<TermId>, a: map<TermId, string>,
                                     b: map<TermId, string>,
                                     id: TermId)
    requires Ordered(nodes) && id < |nodes| && Grows(worth, a, b) && Complete(nodes, worth, a.Keys, id)
    ensures Body(nodes, b, id) == Body(nodes, a, id)
    ensures Cites(nodes, b.Keys, id) == Cites(nodes, a.Keys, id)
    ensures Leaves(nodes, b.Keys, id) == Leaves(nodes, a.Keys, id)
    decreases id, 1, 0
  {
    if nodes[id].TApp? {
      BodiesStay(nodes, worth, a, b, nodes[id].args, id);
    }
  }

  lemma {:induction false} BodiesStay(nodes: seq<Term>, worth: set<TermId>, a: map<TermId, string>,
                                      b: map<TermId, string>,
                                      ids: seq<TermId>, bound: nat)
    requires Ordered(nodes) && AllBelow(ids, bound) && bound <= |nodes| && Grows(worth, a, b)
    requires forall k :: 0 <= k < |ids| ==> (ids[k] in worth ==> ids[k] in a) && Complete(nodes, worth, a.Keys, ids[k])
    ensures Bodies(nodes, b, ids, bound) == Bodies(nodes, a, ids, bound)
    ensures CitesAll(nodes, b.Keys, ids, bound) == CitesAll(nodes, a.Keys, ids, bound)
    ensures LeavesAll(nodes, b.Keys, ids, bound) == LeavesAll(nodes, a.Keys, ids, bound)
    decreases bound, 0, |ids|
  {
    hide Ordered, Complete, Body, Cites, Leaves;
    if ids != [] {
      BodiesStay(nodes, worth, a, b, ids[1..], bound);
      if ids[0] !in a {
        BodyStays(nodes, worth, a, b, ids[0]);
      }
    }
  }

  lemma {:induction false} ShownStays(nodes: seq<Term>, worth: set<TermId>, a: map<TermId, string>,
                                      b: map<TermId, string>,
                                      id: TermId)
    requires Ordered(nodes) && id < |nodes| && Grows(worth, a, b) && Complete(nodes, worth, a.Keys, id)
    requires id in worth ==> id in a
    ensures Shown(nodes, b, id) == Shown(nodes, a, id)
  {
    BodyStays(nodes, worth, a, b, id);
  }

  /** Only calls worth binding have names, and below a named term nothing worth binding was left out. */
  ghost predicate Frugal(nodes: seq<Term>, worth: set<TermId>, named: set<TermId>)
    requires Ordered(nodes)
  {
    && named <= worth && (forall t :: t in worth ==> t < |nodes| && nodes[t].TApp?)
    && forall t :: t in named ==> t < |nodes| && Complete(nodes, worth, named, t)
  }

  lemma {:induction false} BindFrugal(nodes: seq<Term>, worth: set<TermId>, named: set<TermId>, id: TermId)
    requires Ordered(nodes) && Frugal(nodes, worth, named) && id in worth && Complete(nodes, worth, named, id)
    ensures Frugal(nodes, worth, named + {id})
  {
    hide Complete;
    forall t | t in named + {id} ensures t < |nodes| && Complete(nodes, worth, named + {id}, t) {
      CompleteLater(nodes, worth, named, named + {id}, t);
    }
  }

  /** One let of a printed list. */
  ghost predicate LetOk(nodes: seq<Term>, names: map<TermId, string>, l: Let, id: TermId, before: set<TermId>)
    requires Ordered(nodes)
  {
    && id < |nodes| && nodes[id].TApp? && id in names && names[id] == l.name
    && l.body == Body(nodes, names, id) && Cites(nodes, names.Keys, id) <= before
  }

  lemma {:induction false} LetStays(nodes: seq<Term>, worth: set<TermId>, names: map<TermId, string>,
                                    names': map<TermId, string>, l: Let, id: TermId, before: set<TermId>)
    requires Ordered(nodes) && Grows(worth, names, names') && LetOk(nodes, names, l, id, before)
    requires Complete(nodes, worth, names.Keys, id)
    ensures LetOk(nodes, names', l, id, before)
  {
    hide Body, Cites, Complete, Leaves, Ordered;
    BodyStays(nodes, worth, names, names', id);
  }

  lemma {:induction false} PrintedAt(nodes: seq<Term>, names: map<TermId, string>, lets: seq<Let>, order: seq<TermId>,
                                     i: nat)
    requires Ordered(nodes) && Printed(nodes, names, lets, order) && i < |order|
    ensures |order| == |lets| && LetOk(nodes, names, lets[i], order[i], Elems(order[..i]))
  {
    hide Body, Cites, Ordered;
    assert order[i] in Elems(order);
  }

  lemma {:induction false} PrintedIf(nodes: seq<Term>, names: map<TermId, string>, lets: seq<Let>, order: seq<TermId>)
    requires Ordered(nodes) && |order| == |lets| && DistinctNames(lets) && names.Keys == Elems(order)
    requires forall i, j :: 0 <= i < j < |order| ==> order[i] != order[j]
    requires forall i :: 0 <= i < |order| ==> LetOk(nodes, names, lets[i], order[i], Elems(order[..i]))
    ensures Printed(nodes, names, lets, order)
  {
    hide Body, Cites, Ordered, Elems, DistinctNames;
    forall i | 0 <= i < |order|
      ensures order[i] < |nodes| && nodes[order[i]].TApp? && order[i] in names && names[order[i]] == lets[i].name
      ensures lets[i].body == Body(nodes, names, order[i]) && Cites(nodes, names.Keys, order[i]) <= Elems(order[..i])
    {
      assert LetOk(nodes, names, lets[i], order[i], Elems(order[..i]));
    }
  }

  lemma {:induction false} PrintedParts(nodes: seq<Term>, names: map<TermId, string>, lets: seq<Let>,
                                        order: seq<TermId>)
    requires Ordered(nodes) && Printed(nodes, names, lets, order)
    ensures |order| == |lets| && DistinctNames(lets) && names.Keys == Elems(order)
    ensures forall i, j :: 0 <= i < j < |order| ==> order[i] != order[j]
  {
  }

  lemma {:induction false} AppendDistinct(lets: seq<Let>, order: seq<TermId>, l: Let, id: TermId)
    requires |lets| == |order| && DistinctNames(lets) && forall i, j :: 0 <= i < j < |order| ==> order[i] != order[j]
    requires l.name !in Names(lets) && id !in Elems(order)
    ensures DistinctNames(lets + [l]) && Elems(order + [id]) == Elems(order) + {id}
    ensures forall i, j :: 0 <= i < j <= |order| ==> (order + [id])[i] != (order + [id])[j]
  {
    NewName(lets, l);
    NewTerm(order, id);
  }

  lemma {:induction false} NewName(lets: seq<Let>, l: Let)
    requires DistinctNames(lets) && l.name !in Names(lets)
    ensures DistinctNames(lets + [l])
  {
    forall i | 0 <= i < |lets| ensures lets[i].name != l.name {
      assert lets[i] in lets;
    }
  }

  lemma {:induction false} NewTerm(order: seq<TermId>, id: TermId)
    requires id !in Elems(order) && forall i, j :: 0 <= i < j < |order| ==> order[i] != order[j]
    ensures Elems(order + [id]) == Elems(order) + {id}
    ensures forall i, j :: 0 <= i < j <= |order| ==> (order + [id])[i] != (order + [id])[j]
  {
    forall t ensures t in order + [id] <==> t in order || t == id {
    }
    forall i | 0 <= i < |order| ensures order[i] != id {
      assert order[i] in Elems(order);
    }
  }

  /** One more let. */
  lemma {:induction false} BindPrinted(nodes: seq<Term>, worth: set<TermId>, names: map<TermId, string>, lets: seq<Let>,
                                       order: seq<TermId>, id: TermId, name: string)
    requires Ordered(nodes) && Printed(nodes, names, lets, order) && Frugal(nodes, worth, names.Keys)
    requires id in worth && id !in names && Complete(nodes, worth, names.Keys, id) && name !in Names(lets)
    ensures Printed(nodes, names[id := name], lets + [Let(name, Body(nodes, names, id))], order + [id])
  {
    PrintedParts(nodes, names, lets, order);
    hide Ordered, Body, Cites, Complete, Leaves, Printed, DistinctNames, LetOk, Elems, Names, Grows, Frugal;
    var l := Let(name, Body(nodes, names, id));
    var names', lets', order' := names[id := name], lets + [l], order + [id];
    assert names'.Keys == names.Keys + {id};
    AppendDistinct(lets, order, l, id);
    forall i | 0 <= i < |order'| ensures LetOk(nodes, names', lets'[i], order'[i], Elems(order'[..i])) {
      if i < |order| {
        assert order'[..i] == order[..i];
        OldLetOk(nodes, worth, names, lets, order, id, name, i);
      } else {
        assert order'[..i] == order;
        NewLetOk(nodes, worth, names, id, name);
      }
    }
    PrintedIf(nodes, names', lets', order');
  }

  lemma {:induction false} OldLetOk(nodes: seq<Term>, worth: set<TermId>, names: map<TermId, string>, lets: seq<Let>,
                                    order: seq<TermId>, id: TermId, name: string, i: nat)
    requires Ordered(nodes) && Printed(nodes, names, lets, order) && Frugal(nodes, worth, names.Keys) && i < |order|
    requires id in worth && id !in names
    ensures |order| == |lets| && LetOk(nodes, names[id := name], lets[i], order[i], Elems(order[..i]))
  {
    hide Ordered, Complete, Body, Cites, Leaves, Printed, LetOk, Elems;
    assert Grows(worth, names, names[id := name]);
    PrintedAt(nodes, names, lets, order, i);
    OldIsComplete(nodes, worth, names, lets, order, i);
    LetStays(nodes, worth, names, names[id := name], lets[i], order[i], Elems(order[..i]));
  }

  lemma {:induction false} OldIsComplete(nodes: seq<Term>, worth: set<TermId>, names: map<TermId, string>,
                                         lets: seq<Let>, order: seq<TermId>, i: nat)
    requires Ordered(nodes) && Printed(nodes, names, lets, order) && Frugal(nodes, worth, names.Keys) && i < |order|
    ensures order[i] < |nodes| && Complete(nodes, worth, names.Keys, order[i])
  {
    hide Ordered, Complete, Body, Cites;
    assert order[i] in Elems(order);
  }

  lemma {:induction false} NewLetOk(nodes: seq<Term>, worth: set<TermId>, names: map<TermId, string>, id: TermId,
                                    name: string)
    requires Ordered(nodes) && Frugal(nodes, worth, names.Keys) && id in worth && id !in names && id < |nodes|
    requires Complete(nodes, worth, names.Keys, id)
    ensures LetOk(nodes, names[id := name], Let(name, Body(nodes, names, id)), id, names.Keys)
  {
    hide Complete, Body, Cites, Ordered;
    assert Grows(worth, names, names[id := name]);
    BodyVars(nodes, names, id);
    BodyStays(nodes, worth, names, names[id := name], id);
  }

  // ---------------------------------------------------------------- the names

  /** A generator's state. */
  datatype Start = Start(reserved: string, counts: map<string, nat>, generated: set<string>, leaveOffZero: bool)

  ghost function Snapshot(gen: SymbolGen): Start
    reads gen
  {
    Start(gen.reserved, gen.hintToCount, gen.generated, gen.leaveOffZero)
  }

  function CountIn(counts: map<string, nat>, hint: string): nat { if hint in counts then counts[hint] else 0 }

  function CandidateOf(start: Start, hint: string, k: nat): string
  {
    Candidate(start.reserved, hint, k, start.leaveOffZero)
  }

  ghost predicate Taken(start: Start, hint: string, to: nat, used: set<string>)
  {
    forall k :: CountIn(start.counts, hint) <= k < to ==> CandidateOf(start, hint, k) in used
  }

  ghost predicate FreeAt(start: Start, hint: string, used: set<string>, name: string, k: nat)
  {
    CountIn(start.counts, hint) <= k && name == CandidateOf(start, hint, k) && name !in used &&
      Taken(start, hint, k, used)
  }

  /** The name is the hint's first candidate, from the generator's counter on, that is not used yet. */
  ghost predicate NextName(start: Start, hint: string, used: set<string>, name: string)
  {
    exists k :: FreeAt(start, hint, used, name, k)
  }

  lemma {:induction false} NextNameIsUnique(start: Start, hint: string, used: set<string>, a: string, b: string)
    requires NextName(start, hint, used, a) && NextName(start, hint, used, b)
    ensures a == b
  {
    var k :| FreeAt(start, hint, used, a, k);
    var l :| FreeAt(start, hint, used, b, l);
  }

  /** The hint for a term's name. */
  ghost function HintOf(nodes: seq<Term>, nameHint: string -> string, id: TermId): string
  {
    nameHint(if id < |nodes| && nodes[id].TApp? then nodes[id].head else "t")
  }

  /** Each let has the next name for its term, after the names generated before and those of the earlier lets. */
  ghost predicate Named(nodes: seq<Term>, start: Start, nameHint: string -> string, lets: seq<Let>, order: seq<TermId>)
  {
    |order| == |lets| && forall i :: 0 <= i < |lets| ==>
      NextName(start, HintOf(nodes, nameHint, order[i]), start.generated + Names(lets[..i]), lets[i].name)
  }

  lemma {:induction false} NamedAt(nodes: seq<Term>, start: Start, nameHint: string -> string, lets: seq<Let>,
                                   order: seq<TermId>, i: nat)
    requires Named(nodes, start, nameHint, lets, order) && i < |order|
    ensures |order| == |lets|
    ensures NextName(start, HintOf(nodes, nameHint, order[i]), start.generated + Names(lets[..i]), lets[i].name)
    ensures Names(lets[..i + 1]) == Names(lets[..i]) + {lets[i].name}
  {
    hide NextName, HintOf, Names;
    NamesAppend(lets[..i], lets[i]);
    assert lets[..i + 1] == lets[..i] + [lets[i]];
  }

  /** The order of the lets and the generator's state fix the names. */
  lemma {:induction false} NamesAreDetermined(nodes: seq<Term>, start: Start, nameHint: string -> string, a: seq<Let>,
                                              b: seq<Let>, order: seq<TermId>, n: nat)
    requires Named(nodes, start, nameHint, a, order) && Named(nodes, start, nameHint, b, order) && n <= |order|
    ensures SameNames(a, b, n)
  {
    hide *;
    if n == 0 {
      NoneSame(a, b);
    } else {
      NamesAreDetermined(nodes, start, nameHint, a, b, order, n - 1);
      NextIsSame(nodes, start, nameHint, a, b, order, n - 1);
    }
  }

  lemma {:induction false} NoneSame(a: seq<Let>, b: seq<Let>)
    ensures SameNames(a, b, 0)
  {
    assert a[..0] == b[..0];
  }

  lemma {:induction false} NextIsSame(nodes: seq<Term>, start: Start, nameHint: string -> string, a: seq<Let>,
                                      b: seq<Let>, order: seq<TermId>, n: nat)
    requires Named(nodes, start, nameHint, a, order) && Named(nodes, start, nameHint, b, order) && n < |order|
    requires SameNames(a, b, n)
    ensures SameNames(a, b, n + 1)
  {
    hide *;
    NamedAt(nodes, start, nameHint, a, order, n);
    NamedAt(nodes, start, nameHint, b, order, n);
    SameUpTo(a, b, n);
    NextNameIsUnique(start, HintOf(nodes, nameHint, order[n]), start.generated + Names(a[..n]), a[n].name, b[n].name);
    OneMoreSame(a, b, n);
  }

  /** The first `n` lets have the same names in both lists. */
  ghost predicate SameNames(a: seq<Let>, b: seq<Let>, n: nat)
  {
    n <= |a| && n <= |b| && Names(a[..n]) == Names(b[..n]) && forall i :: 0 <= i < n ==> a[i].name == b[i].name
  }

  lemma {:induction false} SameUpTo(a: seq<Let>, b: seq<Let>, n: nat)
    requires SameNames(a, b, n)
    ensures n <= |a| && n <= |b| && Names(a[..n]) == Names(b[..n])
  {
  }

  lemma {:induction false} OneMoreSame(a: seq<Let>, b: seq<Let>, n: nat)
    requires SameNames(a, b, n) && n < |a| && n < |b| && a[n].name == b[n].name
    requires Names(a[..n + 1]) == Names(a[..n]) + {a[n].name} && Names(b[..n + 1]) == Names(b[..n]) + {b[n].name}
    ensures SameNames(a, b, n + 1)
  {
    hide Names;
  }

  lemma {:induction false} NamesAppend(lets: seq<Let>, l: Let)
    ensures Names(lets + [l]) == Names(lets) + {l.name}
  {
    assert forall m :: m in lets + [l] <==> m in lets || m == l;
  }

  /** Everything between the counters then and now has been generated. */
  ghost predicate Counted(start: Start, counts: map<string, nat>, generated: set<string>)
  {
    forall h :: CountIn(start.counts, h) <= CountIn(counts, h) && Taken(start, h, CountIn(counts, h), generated)
  }

  lemma {:induction false} NothingCounted(start: Start)
    ensures Counted(start, start.counts, start.generated)
  {
  }

  lemma {:induction false} FreshIsNext(start: Start, before: map<string, nat>, after: map<string, nat>,
                                       generated: set<string>, hint: string, name: string)
    requires Counted(start, before, generated) && name !in generated && CountIn(before, hint) < CountIn(after, hint)
    requires after == before[hint := CountIn(after, hint)] && name == CandidateOf(start, hint, CountIn(after, hint) - 1)
    requires forall k :: CountIn(before, hint) <= k < CountIn(after, hint) - 1 ==>
      CandidateOf(start, hint, k) in generated
    ensures NextName(start, hint, generated, name) && Counted(start, after, generated + {name})
  {
    hide CandidateOf;
    var k := CountIn(after, hint) - 1;
    assert Taken(start, hint, CountIn(before, hint), generated);
    assert FreeAt(start, hint, generated, name, k);
    forall h
      ensures CountIn(start.counts, h) <= CountIn(after, h) && Taken(start, h, CountIn(after, h), generated + {name})
    {
      assert Taken(start, h, CountIn(before, h), generated);
    }
  }

  lemma {:induction false} BindNamed(nodes: seq<Term>, start: Start, nameHint: string -> string, lets: seq<Let>,
                                     order: seq<TermId>, id: TermId, l: Let)
    requires Named(nodes, start, nameHint, lets, order)
    requires NextName(start, HintOf(nodes, nameHint, id), start.generated + Names(lets), l.name)
    ensures Named(nodes, start, nameHint, lets + [l], order + [id])
  {
    hide NextName, HintOf;
    assert forall i :: 0 <= i < |lets| ==> (lets + [l])[..i] == lets[..i];
    assert (lets + [l])[..|lets|] == lets;
  }

  /** The variable is a name that the printer might choose for one of the terms. */
  ghost predicate Guessable(nodes: seq<Term>, start: Start, nameHint: string -> string, ids: set<TermId>, x: string)
  {
    exists t, k :: t in ids && IsCandidate(nodes, start, nameHint, t, x, k)
  }

  ghost predicate IsCandidate(nodes: seq<Term>, start: Start, nameHint: string -> string, t: TermId, x: string, k: nat)
  {
    var hint := HintOf(nodes, nameHint, t);
    k >= CountIn(start.counts, hint) && x == CandidateOf(start, hint, k)
  }

  lemma {:induction false} NamesAreGuessable(nodes: seq<Term>, start: Start, nameHint: string -> string, lets: seq<Let>,
                                             order: seq<TermId>, x: string)
    requires Named(nodes, start, nameHint, lets, order) && x in Names(lets)
    ensures Guessable(nodes, start, nameHint, Elems(order), x) && x !in start.generated
  {
    var l :| l in lets && l.name == x;
    var i :| 0 <= i < |lets| && lets[i] == l;
    var hint, used := HintOf(nodes, nameHint, order[i]), start.generated + Names(lets[..i]);
    var k :| FreeAt(start, hint, used, x, k);
    assert order[i] in Elems(order) && IsCandidate(nodes, start, nameHint, order[i], x, k);
  }

  lemma {:induction false} CandidatesStart(nodes: seq<Term>, start: Start, nameHint: string -> string, ids: set<TermId>,
                                           x: string)
    requires Guessable(nodes, start, nameHint, ids, x)
    ensures start.reserved <= x
  {
    var t, k :| t in ids && IsCandidate(nodes, start, nameHint, t, x, k);
  }

  // ---------------------------------------------------------------- the printer

  /** The order of the lets: children from left to right, then the term itself; each term once. */
  ghost function LetOrder(nodes: seq<Term>, worth: set<TermId>, done: seq<TermId>, id: TermId,
                          allowBinding: bool): seq<TermId>
    requires Ordered(nodes) && id < |nodes|
    decreases id, 1, 0
  {
    if id in done then done
    else
      var below := if nodes[id].TApp? then LetOrders(nodes, worth, done, nodes[id].args, id) else done;
      if allowBinding && id in worth then below + [id] else below
  }

  ghost function LetOrders(nodes: seq<Term>, worth: set<TermId>, done: seq<TermId>, ids: seq<TermId>, bound: nat)
    : seq<TermId>
    requires Ordered(nodes) && AllBelow(ids, bound) && bound <= |nodes|
    decreases bound, 0, |ids|
  {
    if ids == [] then done
    else
      var n := |ids| - 1;
      LetOrder(nodes, worth, LetOrders(nodes, worth, done, ids[..n], bound), ids[n], true)
  }

  lemma {:induction false} LetOrdersNext(nodes: seq<Term>, worth: set<TermId>, done: seq<TermId>, ids: seq<TermId>,
                                         bound: nat, k: nat)
    requires Ordered(nodes) && AllBelow(ids, bound) && bound <= |nodes| && k < |ids|
    ensures AllBelow(ids[..k], bound) && AllBelow(ids[..k + 1], bound)
    ensures LetOrders(nodes, worth, done, ids[..k + 1], bound) ==
            LetOrder(nodes, worth, LetOrders(nodes, worth, done, ids[..k], bound), ids[k], true)
  {
    assert ids[..k + 1][..k] == ids[..k];
  }

  class RenderContext {
    const gen: SymbolGen
    const refCounts: map<TermId, nat>
    const sizes: map<TermId, nat>
    const nameHint: string -> string
    var bindings: map<TermId, string>
    var lets: seq<Let>
    ghost var order: seq<TermId>
    ghost const start: Start

    constructor (gen: SymbolGen, refCounts: map<TermId, nat>, sizes: map<TermId, nat>, nameHint: string -> string)
      ensures this.gen == gen && this.refCounts == refCounts && this.sizes == sizes && this.nameHint == nameHint
      ensures start == Snapshot(gen) && bindings == map[] && lets == [] && order == []
    {
      this.gen, this.refCounts, this.sizes, this.nameHint, start := gen, refCounts, sizes, nameHint, Snapshot(gen);
      bindings, lets, order := map[], [], [];
    }

    /** The terms that are referenced more than once and are large enough. */
    ghost function Worth(): set<TermId>
    {
      set t | t in refCounts && t in sizes && refCounts[t] > 1 && sizes[t] >= MIN_SHARED_TERM_SIZE
    }

    ghost predicate Valid(nodes: seq<Term>)
      requires Ordered(nodes)
      reads this, gen
    {
      && Printed(nodes, bindings, lets, order) && Frugal(nodes, Worth(), bindings.Keys)
      && Named(nodes, start, nameHint, lets, order) && SinceStart()
    }

    /** The generator has generated the let names only. */
    ghost predicate SinceStart()
      reads this, gen
    {
      && gen.reserved == start.reserved && gen.leaveOffZero == start.leaveOffZero
      && gen.generated == start.generated + Names(lets) && Counted(start, gen.hintToCount, gen.generated)
    }

    /** Later lets leave the earlier lets and names alone. */
    method RenderTerm(nodes: seq<Term>, id: TermId, allowBinding: bool) returns (e: Expr)
      requires Ordered(nodes) && id < |nodes| && Valid(nodes)
      modifies this, gen
      ensures Valid(nodes) && e == Shown(nodes, bindings, id)
      ensures old(lets) <= lets && order == LetOrder(nodes, Worth(), old(order), id, allowBinding)
      ensures Grows(Worth(), old(bindings), bindings) && forall t :: t in bindings && t !in old(bindings) ==> t <= id
      ensures Complete(nodes, Worth(), bindings.Keys, id) && (allowBinding && id in Worth() ==> id in bindings)
      ensures !allowBinding && id !in old(bindings) ==> id !in bindings
      decreases id
    {
      hide Ordered, Printed, Named, SinceStart, Frugal, Complete, LetOrder, LetOrders, Body, Bodies, AllShown;
      LetOrderIs(nodes, Worth(), order, id, allowBinding);
      NameKnown(nodes, Worth(), bindings, lets, order, id);
      if id in bindings {
        return EVar(bindings[id]);
      }
      match nodes[id] {
        case TLit(lit) =>
          e := ELit(lit);
          LeafShown(nodes, Worth(), bindings, id);
        case TVar(x) =>
          e := EVar(x);
          LeafShown(nodes, Worth(), bindings, id);
        case TApp(name, children) =>
          ChildrenBelow(nodes, id);
          var args := RenderAll(nodes, children, id);
          CallShown(nodes, Worth(), bindings, id, args);
          e := ECall(name, args);
      }
      NameKnown(nodes, Worth(), bindings, lets, order, id);
      var termSize := if id in sizes then sizes[id] else 1;
      var repeatCount := if id in refCounts then refCounts[id] else 1;
      if allowBinding && repeatCount > 1 && termSize >= MIN_SHARED_TERM_SIZE {
        e := Bind(nodes, id, e);
      }
    }

    /** Emit a let for the term and show its name instead. */
    method Bind(nodes: seq<Term>, id: TermId, body: Expr) returns (e: Expr)
      requires Ordered(nodes) && Valid(nodes) && id in Worth() && id !in bindings && id < |nodes|
      requires Complete(nodes, Worth(), bindings.Keys, id) && body == Body(nodes, bindings, id)
      modifies this, gen
      ensures Valid(nodes) && |lets| == |old(lets)| + 1 && lets == old(lets) + [Let(lets[|lets| - 1].name, body)]
      ensures bindings == old(bindings)[id := lets[|lets| - 1].name] && order == old(order) + [id]
      ensures e == EVar(bindings[id]) && Complete(nodes, Worth(), bindings.Keys, id)
    {
      hide Ordered, Printed, Named, Frugal, Counted, Complete, Body, NextName, HintOf, CountIn;
      var hint := nameHint(if nodes[id].TApp? then nodes[id].head else "t");
      ghost var counts, generated := gen.hintToCount, gen.generated;
      CountsAre(gen);
      var letName := gen.FreshName(hint);
      CountsAre(gen);
      assert hint == HintOf(nodes, nameHint, id) by {
        HintIs(nodes, nameHint, id);
      }
      FreshIsNext(start, counts, gen.hintToCount, generated, hint, letName);
      NamesAppend(lets, Let(letName, body));
      BindNamed(nodes, start, nameHint, lets, order, id, Let(letName, body));
      BindPrinted(nodes, Worth(), bindings, lets, order, id, letName);
      BindFrugal(nodes, Worth(), bindings.Keys, id);
      CompleteLater(nodes, Worth(), bindings.Keys, bindings.Keys + {id}, id);
      lets, bindings, order := lets + [Let(letName, body)], bindings[id := letName], order + [id];
      assert bindings.Keys == old(bindings.Keys) + {id};
      e := EVar(letName);
    }

    method RenderAll(nodes: seq<Term>, children: seq<TermId>, bound: TermId) returns (args: seq<Expr>)
      requires Ordered(nodes) && AllBelow(children, bound) && bound < |nodes| && Valid(nodes)
      modifies this, gen
      ensures Valid(nodes) && args == Bodies(nodes, bindings, children, bound)
      ensures old(lets) <= lets && order == LetOrders(nodes, Worth(), old(order), children, bound)
      ensures Grows(Worth(), old(bindings), bindings) && forall t :: t in bindings && t !in old(bindings) ==> t < bound
      ensures AllShown(nodes, Worth(), bindings, args, children, |children|)
      decreases bound, 0
    {
      hide Ordered, Printed, Named, SinceStart, Frugal, Complete, LetOrder, LetOrders, AllShown, Bodies, Shown;
      args := [];
      NoneShown(nodes, Worth(), bindings, order, children, bound);
      for i := 0 to |children|
        invariant Valid(nodes) && old(lets) <= lets && |args| == i && AllBelow(children[..i], bound)
        invariant AllShown(nodes, Worth(), bindings, args, children, i)
        invariant Grows(Worth(), old(bindings), bindings)
        invariant forall t :: t in bindings && t !in old(bindings) ==> t < bound
        invariant order == LetOrders(nodes, Worth(), old(order), children[..i], bound)
      {
        ghost var before := bindings;
        var arg := RenderTerm(nodes, children[i], true);
        LetOrdersNext(nodes, Worth(), old(order), children, bound, i);
        OneMoreShown(nodes, Worth(), before, bindings, args, arg, children, i);
        args := args + [arg];
      }
      assert children[..|children|] == children;
      AllAreShown(nodes, Worth(), bindings, args, children, bound);
    }
  }

  lemma {:induction false} CountsAre(gen: SymbolGen)
    ensures forall h :: gen.Count(h) == CountIn(gen.hintToCount, h)
  {
  }

  lemma {:induction false} HintIs(nodes: seq<Term>, nameHint: string -> string, id: TermId)
    requires id < |nodes|
    ensures HintOf(nodes, nameHint, id) == nameHint(if nodes[id].TApp? then nodes[id].head else "t")
  {
  }

  lemma {:induction false} ChildrenBelow(nodes: seq<Term>, id: TermId)
    requires Ordered(nodes) && id < |nodes| && nodes[id].TApp?
    ensures AllBelow(nodes[id].args, id)
  {
  }

  lemma {:induction false} NameKnown(nodes: seq<Term>, worth: set<TermId>, names: map<TermId, string>, lets: seq<Let>,
                                     order: seq<TermId>, id: TermId)
    requires Ordered(nodes) && id < |nodes| && Printed(nodes, names, lets, order) && Frugal(nodes, worth, names.Keys)
    ensures id in names <==> id in order
    ensures id in names ==> Complete(nodes, worth, names.Keys, id)
    ensures names.Keys <= worth && (id in worth ==> nodes[id].TApp?)
  {
    assert id in names <==> id in Elems(order);
  }

  lemma {:induction false} LetOrderIs(nodes: seq<Term>, worth: set<TermId>, done: seq<TermId>, id: TermId, allow: bool)
    requires Ordered(nodes) && id < |nodes|
    ensures id in done ==> LetOrder(nodes, worth, done, id, allow) == done
    ensures id !in done && !nodes[id].TApp? ==>
      LetOrder(nodes, worth, done, id, allow) == if allow && id in worth then done + [id] else done
    ensures nodes[id].TApp? ==> AllBelow(nodes[id].args, id)
    ensures id !in done && nodes[id].TApp? ==>
      var below := LetOrders(nodes, worth, done, nodes[id].args, id);
      LetOrder(nodes, worth, done, id, allow) == if allow && id in worth then below + [id] else below
  {
  }

  /** The first arguments are shown, and everything worth a name in them has one. */
  ghost predicate AllShown(nodes: seq<Term>, worth: set<TermId>, names: map<TermId, string>, args: seq<Expr>,
                           children: seq<TermId>, n: nat)
    requires Ordered(nodes)
  {
    n <= |args| && n <= |children| && forall k :: 0 <= k < n ==> ChildShown(nodes, worth, names, args[k], children[k])
  }

  ghost predicate ChildShown(nodes: seq<Term>, worth: set<TermId>, names: map<TermId, string>, arg: Expr, child: TermId)
    requires Ordered(nodes)
  {
    && child < |nodes| && arg == Shown(nodes, names, child)
    && Complete(nodes, worth, names.Keys, child) && (child in worth ==> child in names)
  }

  lemma {:induction false} NoneShown(nodes: seq<Term>, worth: set<TermId>, names: map<TermId, string>,
                                     order: seq<TermId>,
                                     children: seq<TermId>, bound: nat)
    requires Ordered(nodes) && bound <= |nodes|
    requires Frugal(nodes, worth, names.Keys)
    ensures AllShown(nodes, worth, names, [], children, 0) && Grows(worth, names, names)
    ensures AllBelow(children[..0], bound) && LetOrders(nodes, worth, order, children[..0], bound) == order
  {
  }

  lemma {:induction false} OneMoreShown(nodes: seq<Term>, worth: set<TermId>, a: map<TermId, string>,
                                        b: map<TermId, string>, args: seq<Expr>, arg: Expr, children: seq<TermId>,
                                        n: nat)
    requires Ordered(nodes) && Grows(worth, a, b) && AllShown(nodes, worth, a, args, children, n) && |args| == n
    requires n < |children| && ChildShown(nodes, worth, b, arg, children[n])
    ensures AllShown(nodes, worth, b, args + [arg], children, n + 1)
  {
    hide Ordered, Complete, Grows, Shown;
    forall k | 0 <= k < n ensures ChildShown(nodes, worth, b, args[k], children[k]) {
      assert ChildShown(nodes, worth, a, args[k], children[k]);
      ChildStays(nodes, worth, a, b, args[k], children[k]);
    }
  }

  lemma {:induction false} ChildStays(nodes: seq<Term>, worth: set<TermId>, a: map<TermId, string>,
                                      b: map<TermId, string>, arg: Expr, child: TermId)
    requires Ordered(nodes) && Grows(worth, a, b) && ChildShown(nodes, worth, a, arg, child)
    ensures ChildShown(nodes, worth, b, arg, child)
  {
    hide Complete, Shown, Ordered;
    ShownStays(nodes, worth, a, b, child);
    CompleteLater(nodes, worth, a.Keys, b.Keys, child);
  }

  lemma {:induction false} AllAreShown(nodes: seq<Term>, worth: set<TermId>, names: map<TermId, string>,
                                       args: seq<Expr>,
                                       children: seq<TermId>, bound: nat)
    requires Ordered(nodes) && AllBelow(children, bound) && bound <= |nodes| && |args| == |children|
    requires AllShown(nodes, worth, names, args, children, |children|)
    ensures args == Bodies(nodes, names, children, bound)
  {
    hide Ordered, Complete, Shown;
    forall k | 0 <= k < |args| ensures args[k] == Shown(nodes, names, children[k]) {
      assert ChildShown(nodes, worth, names, args[k], children[k]);
    }
  }

  /** Over its rendered arguments, a call is rendered and complete. */
  lemma {:induction false} CallShown(nodes: seq<Term>, worth: set<TermId>, names: map<TermId, string>, id: TermId,
                                     args: seq<Expr>)
    requires Ordered(nodes) && id < |nodes| && nodes[id].TApp? && AllBelow(nodes[id].args, id)
    requires args == Bodies(nodes, names, nodes[id].args, id)
    requires AllShown(nodes, worth, names, args, nodes[id].args, |nodes[id].args|)
    ensures ECall(nodes[id].head, args) == Body(nodes, names, id) && Complete(nodes, worth, names.Keys, id)
  {
    hide Bodies, Shown;
    forall k | 0 <= k < |nodes[id].args| ensures ChildShown(nodes, worth, names, args[k], nodes[id].args[k]) {
    }
  }

  lemma {:induction false} LeafShown(nodes: seq<Term>, worth: set<TermId>, names: map<TermId, string>, id: TermId)
    requires Ordered(nodes) && id < |nodes| && !nodes[id].TApp?
    ensures Body(nodes, names, id) == TermToExpr(nodes, id) && Complete(nodes, worth, names.Keys, id)
  {
  }

  // ---------------------------------------------------------------- reference counts and sizes

  function Occurs(ids: seq<TermId>, x: TermId): nat
  {
    if ids == [] then 0 else (if ids[0] == x then 1 else 0) + Occurs(ids[1..], x)
  }

  /** How often the terms of the list mention `x` as an argument. */
  function Mentions(nodes: seq<Term>, ids: seq<TermId>, x: TermId): nat
  {
    if ids == [] then 0 else Occurs(Args(nodes, ids[0]), x) + Mentions(nodes, ids[1..], x)
  }

  lemma {:induction false} OccursAppend(a: seq<TermId>, c: TermId, x: TermId)
    ensures Occurs(a + [c], x) == Occurs(a, x) + if c == x then 1 else 0
  {
    if a == [] {
      assert a + [c] == [c] && [c][1..] == [];
    } else {
      assert (a + [c])[1..] == a[1..] + [c];
      OccursAppend(a[1..], c, x);
    }
  }

  lemma {:induction false} MentionsAppend(nodes: seq<Term>, a: seq<TermId>, b: seq<TermId>, x: TermId)
    ensures Mentions(nodes, a + b, x) == Mentions(nodes, a, x) + Mentions(nodes, b, x)
  {
    if a == [] {
      assert a + b == b;
    } else {
      assert (a + b)[1..] == a[1..] + b;
      MentionsAppend(nodes, a[1..], b, x);
    }
  }

  type Counts = map<TermId, nat>

  function Get(counts: Counts, x: TermId): nat { if x in counts then counts[x] else 0 }

  /** The terms of the set have their arguments in it. */
  ghost predicate ArgsIn(nodes: seq<Term>, s: set<TermId>, t: set<TermId>)
  {
    forall u, k :: u in s && 0 <= k < |Args(nodes, u)| ==> Args(nodes, u)[k] in t
  }

  /** The newly visited terms are visited once, need only visited terms, and are all needed. */
  ghost predicate NewlyVisited(nodes: seq<Term>, roots: seq<TermId>, visited: set<TermId>, visited': set<TermId>,
                               newly: seq<TermId>)
  {
    && visited' == visited + (set u | u in newly)
    && (forall i, j :: 0 <= i < j < |newly| ==> newly[i] != newly[j])
    && (forall u :: u in newly ==> u !in visited && u < |nodes|)
    && (forall r :: r in roots ==> r in visited')
    && ArgsIn(nodes, visited' - visited, visited')
    && (forall s: set<TermId> :: (forall r :: r in roots ==> r in s) && ArgsIn(nodes, s, s) ==>
         forall u :: u in newly ==> u in s)
  }

  /** Each reference from a newly visited term is counted once. */
  method CollectRefCounts(nodes: seq<Term>, id: TermId, counts: Counts, visited: set<TermId>)
    returns (counts': Counts, visited': set<TermId>, ghost newly: seq<TermId>)
    requires Ordered(nodes) && id < |nodes|
    ensures NewlyVisited(nodes, [id], visited, visited', newly)
    ensures forall x :: Get(counts', x) == Get(counts, x) + (if x == id then 1 else 0) + Mentions(nodes, newly, x)
    decreases id
  {
    hide NewlyVisited, Occurs, Mentions, Get, Ordered;
    CountOne(counts, id);
    counts' := counts[id := Get(counts, id) + 1];
    NoneNewly(nodes, visited + {id});
    if id in visited {
      SeenAlready(nodes, id, visited);
      return counts', visited, [];
    }
    visited' := visited + {id};
    ghost var below: seq<TermId> := [];
    if nodes[id].TApp? {
      var children := nodes[id].args;
      assert children[..0] == [];
      for i := 0 to |children|
        invariant NewlyVisited(nodes, children[..i], visited + {id}, visited', below)
        invariant forall x ::
          Get(counts', x) ==
          Get(counts, x) + (if x == id then 1 else 0) + Occurs(children[..i], x) + Mentions(nodes, below, x)
      {
        ghost var more, before := [], visited';
        BelowParent(nodes, id, i);
        counts', visited', more := CollectRefCounts(nodes, children[i], counts', visited');
        assert children[..i + 1] == children[..i] + [children[i]];
        forall x ensures Occurs(children[..i + 1], x) == Occurs(children[..i], x) + (if children[i] == x then 1 else 0)
          ensures Mentions(nodes, below + more, x) == Mentions(nodes, below, x) + Mentions(nodes, more, x)
        {
          OccursAppend(children[..i], children[i], x);
          MentionsAppend(nodes, below, more, x);
        }
        NewlyJoin(nodes, children[..i], children[i], visited + {id}, before, visited', below, more);
        below := below + more;
      }
      assert children[..|children|] == children;
    }
    NewlyRoot(nodes, id, visited, visited', below);
    newly := [id] + below;
  }

  lemma {:induction false} CountOne(counts: Counts, id: TermId)
    ensures forall x :: Get(counts[id := Get(counts, id) + 1], x) == Get(counts, x) + if x == id then 1 else 0
  {
  }

  lemma {:induction false} NoneNewly(nodes: seq<Term>, visited: set<TermId>)
    ensures NewlyVisited(nodes, [], visited, visited, [])
    ensures forall x :: Occurs([], x) == 0 && Mentions(nodes, [], x) == 0
  {
  }

  lemma {:induction false} SeenAlready(nodes: seq<Term>, id: TermId, visited: set<TermId>)
    requires id in visited
    ensures NewlyVisited(nodes, [id], visited, visited, [])
  {
  }

  lemma {:induction false} BelowParent(nodes: seq<Term>, id: TermId, k: nat)
    requires Ordered(nodes) && id < |nodes| && nodes[id].TApp? && k < |nodes[id].args|
    ensures nodes[id].args[k] < id
  {
  }

  lemma {:induction false} NewlyJoin(nodes: seq<Term>, roots: seq<TermId>, r: TermId, v0: set<TermId>, v1: set<TermId>,
                                     v2: set<TermId>, a: seq<TermId>, b: seq<TermId>)
    requires NewlyVisited(nodes, roots, v0, v1, a) && NewlyVisited(nodes, [r], v1, v2, b)
    ensures NewlyVisited(nodes, roots + [r], v0, v2, a + b)
  {
    assert r in [r] && forall x :: x in roots + [r] <==> x in roots || x == r;
    assert forall u :: u in a + b <==> u in a || u in b;
    forall i, j | 0 <= i < j < |a + b| ensures (a + b)[i] != (a + b)[j] {
      if i < |a| && j >= |a| {
        assert a[i] in a && b[j - |a|] in b;
      }
    }
  }

  lemma {:induction false} NewlyRoot(nodes: seq<Term>, id: TermId, v0: set<TermId>, v1: set<TermId>, below: seq<TermId>)
    requires id < |nodes| && id !in v0 && NewlyVisited(nodes, Args(nodes, id), v0 + {id}, v1, below)
    ensures NewlyVisited(nodes, [id], v0, v1, [id] + below)
    ensures forall x :: Mentions(nodes, [id] + below, x) == Occurs(Args(nodes, id), x) + Mentions(nodes, below, x)
  {
    assert id in [id];
    assert forall u :: u in [id] + below <==> u == id || u in below;
    forall i, j | 0 <= i < j < |[id] + below| ensures ([id] + below)[i] != ([id] + below)[j] {
      if i == 0 {
        assert below[j - 1] in below;
      }
    }
    forall k | 0 <= k < |Args(nodes, id)| ensures Args(nodes, id)[k] in v1 {
      assert Args(nodes, id)[k] in Args(nodes, id);
    }
  }

  /** The number of nodes of the tree. */
  function TreeSize(e: Expr): nat
    decreases e, 1
  {
    match e
    case ECall(_, args) => 1 + TreeSizes(args)
    case _ => 1
  }

  function TreeSizes(es: seq<Expr>): nat
    decreases es, 0
  {
    if es == [] then 0 else TreeSize(es[0]) + TreeSizes(es[1..])
  }

  ghost predicate SizesOk(nodes: seq<Term>, sizes: map<TermId, nat>)
    requires Ordered(nodes)
  {
    (forall t :: t in sizes ==> t < |nodes| && sizes[t] == TreeSize(TermToExpr(nodes, t))) &&
      ArgsIn(nodes, sizes.Keys, sizes.Keys)
  }

  /** The memoised sizes are the sizes of the trees. */
  method ComputeTermSize(nodes: seq<Term>, id: TermId,
                         sizes: map<TermId, nat>) returns (size: nat, sizes': map<TermId, nat>)
    requires Ordered(nodes) && id < |nodes| && SizesOk(nodes, sizes)
    ensures SizesOk(nodes, sizes') && sizes.Keys + {id} <= sizes'.Keys
    ensures size == TreeSize(TermToExpr(nodes, id))
    decreases id
  {
    hide SizesOk, TreeSizes, TreeSize, Ordered, TermToExpr, AllBelow, TermsToExprs;
    if id in sizes {
      KnownSize(nodes, sizes, id);
      return sizes[id], sizes;
    }
    size, sizes' := 1, sizes;
    if nodes[id].TApp? {
      var children := nodes[id].args;
      ChildrenBelow(nodes, id);
      NoSizes(nodes, id);
      for i := 0 to |children|
        invariant SizesOk(nodes, sizes') && sizes.Keys <= sizes'.Keys && AllBelow(children[..i], id)
        invariant forall k :: 0 <= k < i ==> children[k] in sizes'
        invariant size == 1 + TreeSizes(TermsToExprs(nodes, children[..i], id))
      {
        BelowParent(nodes, id, i);
        var child;
        child, sizes' := ComputeTermSize(nodes, children[i], sizes');
        assert children[..i] + [children[i]] == children[..i + 1];
        SizesAppend(nodes, children[..i], children[i], id);
        size := size + child;
      }
      assert children[..|children|] == children;
    }
    NewSize(nodes, sizes', id, size);
    sizes' := sizes'[id := size];
  }

  lemma {:induction false} KnownSize(nodes: seq<Term>, sizes: map<TermId, nat>, id: TermId)
    requires Ordered(nodes) && SizesOk(nodes, sizes) && id in sizes
    ensures id < |nodes| && sizes[id] == TreeSize(TermToExpr(nodes, id))
  {
  }

  lemma {:induction false} NoSizes(nodes: seq<Term>, bound: nat)
    requires Ordered(nodes) && bound <= |nodes|
    ensures AllBelow([], bound) && TreeSizes(TermsToExprs(nodes, [], bound)) == 0
  {
  }

  lemma {:induction false} NewSize(nodes: seq<Term>, sizes: map<TermId, nat>, id: TermId, size: nat)
    requires Ordered(nodes) && SizesOk(nodes, sizes) && id < |nodes|
    requires if nodes[id].TApp?
             then AllBelow(nodes[id].args, id) && size == 1 + TreeSizes(TermsToExprs(nodes, nodes[id].args, id))
             else size == 1
    requires nodes[id].TApp? ==> forall k :: 0 <= k < |nodes[id].args| ==> nodes[id].args[k] in sizes
    ensures SizesOk(nodes, sizes[id := size]) && size == TreeSize(TermToExpr(nodes, id))
  {
  }

  lemma {:induction false} SizesAppend(nodes: seq<Term>, a: seq<TermId>, c: TermId, bound: nat)
    requires Ordered(nodes) && AllBelow(a, bound) && c < bound <= |nodes|
    ensures AllBelow(a + [c], bound)
    ensures TreeSizes(TermsToExprs(nodes, a + [c], bound)) ==
      TreeSizes(TermsToExprs(nodes, a, bound)) + TreeSize(TermToExpr(nodes, c))
  {
    var es, fs := TermsToExprs(nodes, a, bound), TermsToExprs(nodes, a + [c], bound);
    assert fs == es + [TermToExpr(nodes, c)];
    SizesOfAppend(es, TermToExpr(nodes, c));
  }

  lemma {:induction false} SizesOfAppend(es: seq<Expr>, e: Expr)
    ensures TreeSizes(es + [e]) == TreeSizes(es) + TreeSize(e)
  {
    if es == [] {
      assert es + [e] == [e] && [e][1..] == [];
    } else {
      assert (es + [e])[1..] == es[1..] + [e];
      SizesOfAppend(es[1..], e);
    }
  }

  // ---------------------------------------------------------------- the whole printer

  /** The root and its subterms, each once. */
  ghost predicate Subterms(nodes: seq<Term>, root: TermId, ts: seq<TermId>)
  {
    && root in ts && (forall i, j :: 0 <= i < j < |ts| ==> ts[i] != ts[j])
    && (forall u, k :: u in ts && 0 <= k < |Args(nodes, u)| ==> Args(nodes, u)[k] in ts)
    && forall s: set<TermId> :: root in s && ArgsIn(nodes, s, s) ==> forall u :: u in ts ==> u in s
  }

  lemma {:induction false} SubtermsBelow(nodes: seq<Term>, root: TermId, ts: seq<TermId>)
    requires Ordered(nodes) && root < |nodes| && Subterms(nodes, root, ts)
    ensures forall u :: u in ts ==> u <= root
  {
    var s := set u | u in ts && u <= root;
    assert ArgsIn(nodes, s, s);
  }

  /** The root is mentioned by none of its subterms. */
  lemma {:induction false} RootIsNotMentioned(nodes: seq<Term>, root: TermId, ts: seq<TermId>)
    requires Ordered(nodes) && forall u :: u in ts ==> u <= root
    ensures Mentions(nodes, ts, root) == 0
  {
    if ts != [] {
      assert ts[0] in ts;
      NoOccurrence(Args(nodes, ts[0]), root);
      assert forall u :: u in ts[1..] ==> u in ts;
      RootIsNotMentioned(nodes, root, ts[1..]);
    }
  }

  lemma {:induction false} NoOccurrence(ids: seq<TermId>, x: TermId)
    requires x !in ids
    ensures Occurs(ids, x) == 0
  {
    if ids != [] {
      NoOccurrence(ids[1..], x);
    }
  }

  lemma {:induction false} CompleteAt(nodes: seq<Term>, worth: set<TermId>, bound: set<TermId>, root: TermId,
                                      ts: seq<TermId>)
    requires Ordered(nodes) && root < |nodes| && Subterms(nodes, root, ts) && Complete(nodes, worth, bound, root)
    ensures forall u :: u in ts && u != root && u in worth ==> u in bound
  {
    SubtermsBelow(nodes, root, ts);
    var s := set u | u in ts && Complete(nodes, worth, bound, u) && (u == root || u !in worth || u in bound);
    assert ArgsIn(nodes, s, s);
  }

  /** Worth a let: a proper subterm that occurs more than once in the DAG and whose tree has at least four nodes. */
  ghost predicate SharedAndLarge(nodes: seq<Term>, root: TermId, ts: seq<TermId>, u: TermId)
    requires Ordered(nodes)
  {
    u in ts && u != root && Mentions(nodes, ts, u) > 1 && u < |nodes| &&
      TreeSize(TermToExpr(nodes, u)) >= MIN_SHARED_TERM_SIZE
  }

  lemma {:induction false} VisitedAreSubterms(nodes: seq<Term>, root: TermId, visited: set<TermId>, ts: seq<TermId>)
    requires NewlyVisited(nodes, [root], {}, visited, ts)
    ensures Subterms(nodes, root, ts)
  {
    assert root in [root];
  }

  lemma {:induction false} MentionedAreSubterms(nodes: seq<Term>, root: TermId, ts: seq<TermId>, us: seq<TermId>,
                                                u: TermId)
    requires Subterms(nodes, root, ts) && (forall t :: t in us ==> t in ts) && Mentions(nodes, us, u) > 0
    ensures u in ts
  {
    var ids := Args(nodes, us[0]);
    assert us[0] in us;
    if u in ids {
      var k :| 0 <= k < |ids| && ids[k] == u;
    } else {
      NoOccurrence(ids, u);
      MentionedAreSubterms(nodes, root, ts, us[1..], u);
    }
  }

  /** The printer's criterion is the definition. */
  lemma {:induction false} WorthIsSharedAndLarge(nodes: seq<Term>, root: TermId, ts: seq<TermId>, counts: Counts,
                                                 sizes: map<TermId, nat>, u: TermId)
    requires Ordered(nodes) && root < |nodes| && Subterms(nodes, root, ts) && SizesOk(nodes, sizes) && root in sizes
    requires forall x :: Get(counts, x) == (if x == root then 1 else 0) + Mentions(nodes, ts, x)
    ensures u in counts && u in sizes && counts[u] > 1 && sizes[u] >= MIN_SHARED_TERM_SIZE <==>
      SharedAndLarge(nodes, root, ts, u)
  {
    SubtermsBelow(nodes, root, ts);
    RootIsNotMentioned(nodes, root, ts);
    assert u in ts ==> u in sizes.Keys;
    assert Get(counts, u) == (if u == root then 1 else 0) + Mentions(nodes, ts, u);
    if Mentions(nodes, ts, u) > 0 {
      MentionedAreSubterms(nodes, root, ts, ts, u);
    }
  }

  lemma {:induction false} NothingBoundYet(nodes: seq<Term>, start: Start, nameHint: string -> string)
    requires Ordered(nodes)
    ensures Printed(nodes, map[], [], []) && Named(nodes, start, nameHint, [], [])
    ensures Counted(start, start.counts, start.generated)
  {
    NothingCounted(start);
  }

  lemma {:induction false} NothingSizedYet(nodes: seq<Term>)
    requires Ordered(nodes)
    ensures SizesOk(nodes, map[])
  {
  }

  lemma {:induction false} LargeAreCalls(nodes: seq<Term>, sizes: map<TermId, nat>)
    requires Ordered(nodes) && SizesOk(nodes, sizes)
    ensures forall t :: t in sizes && sizes[t] >= MIN_SHARED_TERM_SIZE ==> t < |nodes| && nodes[t].TApp?
  {
  }

  /** The terms that get a let. */
  ghost function Shared(nodes: seq<Term>, root: TermId, ts: seq<TermId>): set<TermId>
    requires Ordered(nodes)
  {
    set u | u in ts && SharedAndLarge(nodes, root, ts, u)
  }

  lemma {:induction false} CiteChild(nodes: seq<Term>, named: set<TermId>, ids: seq<TermId>, bound: nat, k: nat)
    requires Ordered(nodes) && AllBelow(ids, bound) && bound <= |nodes| && k < |ids|
    ensures if ids[k] in named then ids[k] in CitesAll(nodes, named, ids, bound)
            else Cites(nodes, named, ids[k]) <= CitesAll(nodes, named, ids, bound)
  {
    hide Ordered, Cites;
    if k > 0 {
      CiteChild(nodes, named, ids[1..], bound, k - 1);
    }
  }

  /** The term and all named terms that its rendering mentions are the root or mentioned. */
  ghost predicate Wanted(nodes: seq<Term>, named: set<TermId>, order: seq<TermId>, root: TermId, u: TermId)
    requires Ordered(nodes) && root < |nodes|
  {
    && u < |nodes| && (u in named ==> Cited(nodes, named, order, root, 0, u))
    && forall c :: c in Cites(nodes, named, u) ==> Cited(nodes, named, order, root, 0, c)
  }

  lemma {:induction false} ChildWanted(nodes: seq<Term>, named: set<TermId>, order: seq<TermId>, root: TermId,
                                       u: TermId,
                                       k: nat)
    requires Ordered(nodes) && root < |nodes| && named == Elems(order) && Wanted(nodes, named, order, root, u)
    requires k < |Args(nodes, u)|
    ensures Wanted(nodes, named, order, root, Args(nodes, u)[k])
  {
    var c := Args(nodes, u)[k];
    CiteChild(nodes, named, nodes[u].args, u, k);
    if c in named {
      forall d | d in Cites(nodes, named, c) ensures Cited(nodes, named, order, root, 0, d) {
        var j :| 0 <= j < |order| && order[j] == c;
        assert CitedBy(nodes, named, order[j], d);
      }
    }
  }

  /** No let is idle: every subterm that has a name is mentioned. */
  lemma {:induction false} EveryLetIsCited(nodes: seq<Term>, root: TermId, ts: seq<TermId>, names: map<TermId, string>,
                                           lets: seq<Let>, order: seq<TermId>)
    requires Ordered(nodes) && root < |nodes| && Subterms(nodes, root, ts) && Printed(nodes, names, lets, order)
    requires forall u :: u in order ==> u in ts && u != root
    ensures AllCited(nodes, names.Keys, order, root)
  {
    hide Cites, Cited, Ordered;
    var s := set u | u in ts && Wanted(nodes, names.Keys, order, root, u);
    RootWanted(nodes, names.Keys, order, root);
    forall u, k | u in s && 0 <= k < |Args(nodes, u)| ensures Args(nodes, u)[k] in s {
      ChildWanted(nodes, names.Keys, order, root, u, k);
    }
    assert root in s && ArgsIn(nodes, s, s);
    forall i | 0 <= i < |order| ensures Cited(nodes, names.Keys, order, root, i + 1, order[i]) {
      assert order[i] in s && order[i] in Elems(order);
      CitedLater(nodes, names, lets, order, root, i);
    }
  }

  lemma {:induction false} RootWanted(nodes: seq<Term>, named: set<TermId>, order: seq<TermId>, root: TermId)
    requires Ordered(nodes) && root < |nodes| && named == Elems(order) && root !in order
    ensures Wanted(nodes, named, order, root, root)
  {
  }

  lemma {:induction false} CitedLater(nodes: seq<Term>, names: map<TermId, string>, lets: seq<Let>, order: seq<TermId>,
                                      root: TermId, i: nat)
    requires Ordered(nodes) && root < |nodes| && Printed(nodes, names, lets, order) && i < |order|
    requires Cited(nodes, names.Keys, order, root, 0, order[i])
    ensures Cited(nodes, names.Keys, order, root, i + 1, order[i])
  {
    PrintedParts(nodes, names, lets, order);
    hide Cites, Ordered, Body, Printed, DistinctNames;
    if order[i] !in Cites(nodes, names.Keys, root) {
      var j :| 0 <= j < |order| && CitedBy(nodes, names.Keys, order[j], order[i]);
      PrintedAt(nodes, names, lets, order, j);
      var k :| 0 <= k < j && order[..j][k] == order[i];
      assert order[k] == order[i];
    }
  }

  lemma {:induction false} TermsDiffer(nodes: seq<Term>, names: map<TermId, string>, lets: seq<Let>, order: seq<TermId>)
    requires Ordered(nodes) && Distinct(nodes) && Printed(nodes, names, lets, order)
    ensures DistinctNames(lets)
    ensures forall i, j :: 0 <= i < j < |lets| ==> TermToExpr(nodes, order[i]) != TermToExpr(nodes, order[j])
  {
    hide Body, Cites;
    forall i, j | 0 <= i < j < |lets| ensures TermToExpr(nodes, order[i]) != TermToExpr(nodes, order[j]) {
      IdsAreTerms(nodes, order[i], order[j]);
    }
  }

  /** Without the let names among the term's variables, nothing is captured. */
  lemma {:induction false} ApartIsSafe(nodes: seq<Term>, names: map<TermId, string>, lets: seq<Let>, order: seq<TermId>,
                                       root: TermId, ts: seq<TermId>)
    requires Ordered(nodes) && root < |nodes| && Printed(nodes, names, lets, order) && Subterms(nodes, root, ts)
    requires Names(lets) !! Vars(TermToExpr(nodes, root)) && forall u :: u in order ==> u in ts
    ensures !Captures(nodes, names, lets, order, root)
  {
    assert |order| == |lets|;
    hide Ordered, Body, Cites, Leaves, TermToExpr, Printed;
    var vars := Vars(TermToExpr(nodes, root));
    var s := set u | u in ts && u < |nodes| && Vars(TermToExpr(nodes, u)) <= vars;
    forall u, k | u in s && 0 <= k < |Args(nodes, u)| ensures Args(nodes, u)[k] in s {
      ArgVars(nodes, u, k);
    }
    assert root in s && ArgsIn(nodes, s, s);
    BodyVars(nodes, names, root);
    forall i | 0 <= i < |order| && order[i] < |nodes|
      ensures Leaves(nodes, names.Keys, order[i]) * Names(lets[..i]) == {}
    {
      BodyVars(nodes, names, order[i]);
      assert order[i] in s;
      assert Names(lets[..i]) <= Names(lets);
    }
  }

  lemma {:induction false} ArgVars(nodes: seq<Term>, u: TermId, k: nat)
    requires Ordered(nodes) && u < |nodes| && k < |Args(nodes, u)|
    ensures Args(nodes, u)[k] < u && Vars(TermToExpr(nodes, Args(nodes, u)[k])) <= Vars(TermToExpr(nodes, u))
  {
    ChildVars(nodes, nodes[u].args, u, k);
  }

  lemma {:induction false} ChildVars(nodes: seq<Term>, ids: seq<TermId>, bound: nat, k: nat)
    requires Ordered(nodes) && AllBelow(ids, bound) && bound <= |nodes| && k < |ids|
    ensures Vars(TermToExpr(nodes, ids[k])) <= VarsAll(TermsToExprs(nodes, ids, bound))
  {
    var es := TermsToExprs(nodes, ids, bound);
    assert es[0] == TermToExpr(nodes, ids[0]) && es[1..] == TermsToExprs(nodes, ids[1..], bound);
    if k > 0 {
      ChildVars(nodes, ids[1..], bound, k - 1);
    }
  }

  /** If no variable of the term is a name that the generator could choose for a shared term, none is a let name. */
  lemma {:induction false} UnguessableIsApart(nodes: seq<Term>, start: Start, nameHint: string -> string,
                                              lets: seq<Let>,
                                              order: seq<TermId>, vars: set<string>)
    requires Named(nodes, start, nameHint, lets, order)
    requires forall x :: x in vars ==> !Guessable(nodes, start, nameHint, Elems(order), x)
    ensures Names(lets) !! vars
  {
    forall x | x in Names(lets) ensures x !in vars {
      NamesAreGuessable(nodes, start, nameHint, lets, order, x);
    }
  }

  /** The whole printer. */
  method ToStringWithLet(nodes: seq<Term>, root: TermId, gen: SymbolGen, nameHint: string -> string)
    returns (lets: seq<Let>, e: Expr, ghost names: map<TermId, string>, ghost order: seq<TermId>, ghost ts: seq<TermId>)
    requires Ordered(nodes) && Distinct(nodes) && root < |nodes|
    modifies gen
    // one let for each large shared subterm, in the order of the first visits, under the generator's next names
    ensures Subterms(nodes, root, ts) && Printed(nodes, names, lets, order) && e == Body(nodes, names, root)
    ensures forall u :: u in order <==> SharedAndLarge(nodes, root, ts, u)
    ensures order == LetOrder(nodes, Shared(nodes, root, ts), [], root, false)
    ensures Named(nodes, old(Snapshot(gen)), nameHint, lets, order) && gen.generated == old(gen.generated) + Names(lets)
    ensures Names(lets) !! old(gen.generated)
    ensures forall i, j :: 0 <= i < j < |lets| ==> TermToExpr(nodes, order[i]) != TermToExpr(nodes, order[j])
    // names are used after their lets only
    ensures Vars(e) <= Names(lets) + Vars(TermToExpr(nodes, root))
    ensures forall i :: 0 <= i < |lets| ==> Vars(lets[i].body) <= Names(lets[..i]) + Vars(TermToExpr(nodes, order[i]))
    // the text means the term exactly when no let name captures a variable
    ensures Expand(lets, e) == TermToExpr(nodes, root) <==> !Captures(nodes, names, lets, order, root)
    ensures Expand(lets, e) == TermToExpr(nodes, root) ==>
      forall i :: 0 <= i < |lets| ==> Expand(lets, EVar(lets[i].name)) == TermToExpr(nodes, order[i])
    ensures (forall x :: x in Vars(TermToExpr(nodes, root)) ==>
      !Guessable(nodes, old(Snapshot(gen)), nameHint, Shared(nodes, root, ts), x)) ==>
      Expand(lets, e) == TermToExpr(nodes, root) && Names(lets) !! Vars(TermToExpr(nodes, root))
    ensures gen.reserved != "" && (forall x :: x in Vars(TermToExpr(nodes, root)) ==> !gen.IsReserved(x)) ==>
      Expand(lets, e) == TermToExpr(nodes, root) && Names(lets) !! Vars(TermToExpr(nodes, root))
  {
    hide Ordered, Distinct, Names, Env, Expand, Complete, Printed, Named, SharedAndLarge, Subterms, NewlyVisited;
    hide SizesOk;
    hide TermToExpr, Vars, Body, Cites, Captures, Guessable, LetOrder, Counted, AllCited, Elems, Frugal;
    ghost var start := Snapshot(gen);
    var refCounts, visited;
    refCounts, visited, ts := CollectRefCounts(nodes, root, map[], {});
    VisitedAreSubterms(nodes, root, visited, ts);
    NothingSizedYet(nodes);
    var size, sizes := ComputeTermSize(nodes, root, map[]);
    var ctx := new RenderContext(gen, refCounts, sizes, nameHint);
    NothingBoundYet(nodes, start, nameHint);
    LargeAreCalls(nodes, sizes);
    FrugalYet(nodes, ctx.Worth());
    NoNames();
    assert ctx.bindings.Keys == {};
    e := ctx.RenderTerm(nodes, root, false);
    lets, names, order := ctx.lets, ctx.bindings, ctx.order;
    CompleteAt(nodes, ctx.Worth(), names.Keys, root, ts);
    forall u ensures u in order <==> SharedAndLarge(nodes, root, ts, u)
      ensures u in ctx.Worth() <==> SharedAndLarge(nodes, root, ts, u)
      ensures u in order ==> u in ts && u != root
    {
      WorthIsSharedAndLarge(nodes, root, ts, refCounts, sizes, u);
      LargeIsProper(nodes, root, ts, u);
      KeysAre(nodes, names, lets, order, u);
      FrugalKeys(nodes, ctx.Worth(), names.Keys);
    }
    assert ctx.Worth() == Shared(nodes, root, ts);
    Summary(nodes, root, ts, names, lets, order);
    Checkable(nodes, root, ts, start, nameHint, names, lets, order);
  }

  lemma {:induction false} LargeIsProper(nodes: seq<Term>, root: TermId, ts: seq<TermId>, u: TermId)
    requires Ordered(nodes)
    ensures SharedAndLarge(nodes, root, ts, u) ==> u in ts && u != root
  {
  }

  lemma {:induction false} FrugalYet(nodes: seq<Term>, worth: set<TermId>)
    requires Ordered(nodes) && forall t :: t in worth ==> t < |nodes| && nodes[t].TApp?
    ensures Frugal(nodes, worth, {})
  {
  }

  lemma {:induction false} FrugalKeys(nodes: seq<Term>, worth: set<TermId>, named: set<TermId>)
    requires Ordered(nodes) && Frugal(nodes, worth, named)
    ensures named <= worth
  {
  }

  lemma {:induction false} NoNames()
    ensures Names([]) == {}
  {
  }

  lemma {:induction false} KeysAre(nodes: seq<Term>, names: map<TermId, string>, lets: seq<Let>, order: seq<TermId>,
                                   u: TermId)
    requires Ordered(nodes) && Printed(nodes, names, lets, order)
    ensures u in names <==> u in order
  {
    assert u in names <==> u in Elems(order);
  }

  lemma {:induction false} Summary(nodes: seq<Term>, root: TermId, ts: seq<TermId>, names: map<TermId, string>,
                                   lets: seq<Let>, order: seq<TermId>)
    requires Ordered(nodes) && Distinct(nodes) && root < |nodes| && Subterms(nodes, root, ts)
    requires Printed(nodes, names, lets, order) && forall u :: u in order ==> u in ts && u != root
    ensures |order| == |lets| && forall i :: 0 <= i < |lets| ==> order[i] < |nodes|
    ensures forall i, j :: 0 <= i < j < |lets| ==> TermToExpr(nodes, order[i]) != TermToExpr(nodes, order[j])
    ensures Vars(Body(nodes, names, root)) <= Names(lets) + Vars(TermToExpr(nodes, root))
    ensures forall i :: 0 <= i < |lets| ==> Vars(lets[i].body) <= Names(lets[..i]) + Vars(TermToExpr(nodes, order[i]))
    ensures Expand(lets, Body(nodes, names, root)) == TermToExpr(nodes, root) <==>
      !Captures(nodes, names, lets, order, root)
    ensures !Captures(nodes, names, lets, order, root) ==>
      forall i :: 0 <= i < |lets| ==> Expand(lets, EVar(lets[i].name)) == TermToExpr(nodes, order[i])
  {
    assert |order| == |lets| && forall i :: 0 <= i < |lets| ==> order[i] < |nodes|;
    hide Ordered, Distinct, Body, Cites, Leaves, TermToExpr, Printed, Subterms, Captures, Vars, AllCited, Names, Env;
    TermsDiffer(nodes, names, lets, order);
    EveryLetIsCited(nodes, root, ts, names, lets, order);
    RootScopes(nodes, names, lets, order, root);
    ExpandsUnlessCaptured(nodes, names, lets, order, root);
    forall i | 0 <= i < |lets| ensures Vars(lets[i].body) <= Names(lets[..i]) + Vars(TermToExpr(nodes, order[i])) {
      PrintedScopes(nodes, names, lets, order, i);
    }
    if !Captures(nodes, names, lets, order, root) {
      forall i | 0 <= i < |lets| ensures Expand(lets, EVar(lets[i].name)) == TermToExpr(nodes, order[i]) {
        assert Good(nodes, lets, order, i);
      }
    }
  }

  lemma {:induction false} RootScopes(nodes: seq<Term>, names: map<TermId, string>, lets: seq<Let>, order: seq<TermId>,
                                      root: TermId)
    requires Ordered(nodes) && root < |nodes| && Printed(nodes, names, lets, order)
    ensures Cites(nodes, names.Keys, root) <= Elems(order)
    ensures Vars(Body(nodes, names, root)) <= Names(lets) + Vars(TermToExpr(nodes, root))
  {
    hide Ordered, Body, Cites, Leaves, TermToExpr, Vars;
    BodyVars(nodes, names, root);
    forall t | t in names ensures names[t] in Names(lets) {
      assert t in Elems(order);
      var i :| 0 <= i < |order| && order[i] == t;
      assert lets[i] in lets;
    }
  }

  lemma {:induction false} Checkable(nodes: seq<Term>, root: TermId, ts: seq<TermId>, start: Start,
                                     nameHint: string -> string, names: map<TermId, string>, lets: seq<Let>,
                                     order: seq<TermId>)
    requires Ordered(nodes) && root < |nodes| && Subterms(nodes, root, ts) && Printed(nodes, names, lets, order)
    requires Named(nodes, start, nameHint, lets, order)
    requires forall u :: u in order <==> SharedAndLarge(nodes, root, ts, u)
    requires forall u :: u in order ==> u in ts && u != root
    ensures Names(lets) !! start.generated
    ensures (forall x :: x in Vars(TermToExpr(nodes, root)) ==>
      !Guessable(nodes, start, nameHint, Shared(nodes, root, ts), x)) ==>
      !Captures(nodes, names, lets, order, root) && Names(lets) !! Vars(TermToExpr(nodes, root))
    ensures (forall x :: x in Vars(TermToExpr(nodes, root)) ==> !(start.reserved <= x)) ==>
      !Captures(nodes, names, lets, order, root) && Names(lets) !! Vars(TermToExpr(nodes, root))
  {
    assert Elems(order) == Shared(nodes, root, ts);
    hide Ordered, Printed, Captures, Guessable, TermToExpr, Subterms, Named, SharedAndLarge, Vars, Shared, Elems, Names;
    var vars := Vars(TermToExpr(nodes, root));
    NamesAreNew(nodes, start, nameHint, lets, order);
    if forall x :: x in vars ==> !(start.reserved <= x) {
      forall x | x in vars ensures !Guessable(nodes, start, nameHint, Elems(order), x) {
        if Guessable(nodes, start, nameHint, Elems(order), x) {
          CandidatesStart(nodes, start, nameHint, Elems(order), x);
        }
      }
    }
    if forall x :: x in vars ==> !Guessable(nodes, start, nameHint, Elems(order), x) {
      UnguessableIsApart(nodes, start, nameHint, lets, order, vars);
      ApartIsSafe(nodes, names, lets, order, root, ts);
    }
  }

  lemma {:induction false} NamesAreNew(nodes: seq<Term>, start: Start, nameHint: string -> string, lets: seq<Let>,
                                       order: seq<TermId>)
    requires Named(nodes, start, nameHint, lets, order)
    ensures Names(lets) !! start.generated
  {
    hide Guessable, Named;
    forall x | x in Names(lets) ensures x !in start.generated {
      NamesAreGuessable(nodes, start, nameHint, lets, order, x);
    }
  }

  // ---------------------------------------------------------------- a captured variable

  const CAPTURING: seq<Term> := [TVar("t"), TApp("g", [0, 0, 0]), TApp("p", [1, 1, 0])]

  lemma {:induction false} MentionsAtLeast(nodes: seq<Term>, ids: seq<TermId>, u: TermId, x: TermId)
    requires u in ids
    ensures Mentions(nodes, ids, x) >= Occurs(Args(nodes, u), x)
  {
    if ids[0] != u {
      MentionsAtLeast(nodes, ids[1..], u, x);
    }
  }

  /** In `(p (g t t t) (g t t t) t)` the call of `g` is the one term that gets a let. */
  lemma {:induction false} CapturingShares(ts: seq<TermId>, u: TermId)
    requires Ordered(CAPTURING) && Subterms(CAPTURING, 2, ts)
    ensures SharedAndLarge(CAPTURING, 2, ts, u) <==> u == 1
  {
    hide TermToExpr, TreeSize;
    SubtermsBelow(CAPTURING, 2, ts);
    CapturingSizes();
    assert Args(CAPTURING, 2)[0] == 1 && 1 in ts;
    assert Occurs([1, 1, 0], 1) == 2 by {
      assert [1, 1, 0][1..] == [1, 0] && [1, 0][1..] == [0] && [0][1..] == [];
    }
    MentionsAtLeast(CAPTURING, ts, 2, 1);
  }

  lemma {:induction false} CapturingSizes()
    ensures Ordered(CAPTURING)
    ensures TreeSize(TermToExpr(CAPTURING, 0)) == 1 && TreeSize(TermToExpr(CAPTURING, 1)) == 4
  {
    var e, t := TermToExpr(CAPTURING, 1), EVar("t");
    assert CAPTURING[1] == TApp("g", [0, 0, 0]) && TermToExpr(CAPTURING, 0) == t;
    assert e == ECall("g", TermsToExprs(CAPTURING, [0, 0, 0], 1));
    assert TermsToExprs(CAPTURING, [0, 0, 0], 1) == [t, t, t];
    hide TermToExpr, TermsToExprs;
    assert [t, t, t][1..] == [t, t] && [t, t][1..] == [t] && [t][1..] == [];
    assert TreeSizes([t]) == 1 + TreeSizes([]) == 1;
    assert TreeSizes([t, t]) == 1 + TreeSizes([t]) == 2;
    assert TreeSizes([t, t, t]) == 1 + TreeSizes([t, t]);
  }

  lemma {:induction false} LeafOfArg(nodes: seq<Term>, named: set<TermId>, ids: seq<TermId>, bound: nat, k: nat)
    requires Ordered(nodes) && AllBelow(ids, bound) && bound <= |nodes| && k < |ids| && ids[k] !in named
    ensures Leaves(nodes, named, ids[k]) <= LeavesAll(nodes, named, ids, bound)
  {
    hide Ordered, Leaves;
    if k > 0 {
      LeafOfArg(nodes, named, ids[1..], bound, k - 1);
    }
  }

  /** The first name for the hint is the hint. */
  lemma {:induction false} FirstName(name: string)
    requires NextName(Start("", map[], {}, true), "t", {}, name)
    ensures name == "t"
  {
    var start := Start("", map[], {}, true);
    assert "" + "t" + "" == "t";
    assert FreeAt(start, "t", {}, "t", 0);
    NextNameIsUnique(start, "t", {}, name, "t");
  }

  /** Printed as the callers do, with a generator without a prefix and the hint `t`, the variable `t` is captured. */
  method CaptureExample() returns (lets: seq<Let>, e: Expr)
    ensures Ordered(CAPTURING) && Distinct(CAPTURING)
    ensures |lets| == 1 && lets[0].name == "t" && Expand(lets, e) != TermToExpr(CAPTURING, 2)
  {
    var gen := new SymbolGen("");
    assert Ordered(CAPTURING) && Distinct(CAPTURING);
    hide Ordered, Distinct, Expand, SharedAndLarge, Subterms, TermToExpr, Guessable, LetOrder, NextName, Vars, Body;
    hide Cites;
    ghost var names, order, ts;
    var hint: string -> string := _ => "t";
    lets, e, names, order, ts := ToStringWithLet(CAPTURING, 2, gen, hint);
    forall u ensures u in order <==> u == 1 {
      CapturingShares(ts, u);
    }
    OneLet(names, lets, order, hint);
  }

  lemma {:induction false} OnlyOnce(order: seq<TermId>, id: TermId)
    requires forall i, j :: 0 <= i < j < |order| ==> order[i] != order[j]
    requires forall u :: u in order <==> u == id
    ensures order == [id]
  {
    assert id in order;
    forall i | 0 <= i < |order| ensures order[i] == id && i == 0 {
      assert order[i] in order && order[0] in order;
    }
    assert order[|order| - 1] == id;
  }

  lemma {:induction false} OneLet(names: map<TermId, string>, lets: seq<Let>, order: seq<TermId>,
                                  nameHint: string -> string)
    requires Ordered(CAPTURING) && Printed(CAPTURING, names, lets, order) && forall u :: u in order <==> u == 1
    requires Named(CAPTURING, Start("", map[], {}, true), nameHint, lets, order) && nameHint("g") == "t"
    ensures |lets| == 1 && lets[0].name == "t" && Captures(CAPTURING, names, lets, order, 2)
  {
    hide Ordered, Body, Cites, NextName;
    OnlyOnce(order, 1);
    assert lets[..0] == [];
    NoNames();
    var start := Start("", map[], {}, true);
    NamedAt(CAPTURING, start, nameHint, lets, order, 0);
    assert start.generated + Names(lets[..0]) == {};
    assert HintOf(CAPTURING, nameHint, 1) == "t";
    FirstName(lets[0].name);
    assert lets[0] in lets;
    assert "t" in Leaves(CAPTURING, names.Keys, 2) by {
      LeafOfArg(CAPTURING, names.Keys, [1, 1, 0], 2, 2);
    }
  }
}
