/**
 Functional dependencies of a query (core-relations/src/query.rs): each atom says that the variables of its key columns
 determine those of its value columns, and `closure` collects what a set of variables determines.
 */
module FunDeps {

  type Variable = nat
  type Value = int

  /** Columns that the query does not care about all carry this variable. */
  const PLACEHOLDER: Variable := 0

  datatype Entry = Var(v: Variable) | Const(c: Value)

  datatype Atom = Atom(table: nat, nKeys: nat, entries: seq<Entry>)

  datatype Dependency = Dependency(antecedent: seq<Variable>, consequent: seq<Variable>)

  // ---------------------------------------------------------------- closures

  ghost predicate ClosedUnder(d: Dependency, s: iset<Variable>)
  {
    (forall v :: v in d.antecedent ==> v in s) ==> forall v :: v in d.consequent ==> v in s
  }

  ghost predicate Closed(deps: seq<Dependency>, s: iset<Variable>) { forall d :: d in deps ==> ClosedUnder(d, s) }

  ghost predicate Covers(start: set<Variable>, s: iset<Variable>) { forall v :: v in start ==> v in s }

  ghost function All(s: set<Variable>): iset<Variable> { iset v | v in s }

  /** In every closed set over the start. */
  ghost predicate Forced(deps: seq<Dependency>, start: set<Variable>, r: set<Variable>)
  {
    forall s :: Covers(start, s) && Closed(deps, s) ==> Covers(r, s)
  }

  /** The least closed set over the start. */
  ghost predicate IsClosure(deps: seq<Dependency>, start: set<Variable>, r: set<Variable>)
  {
    start <= r && Closed(deps, All(r)) && Forced(deps, start, r)
  }

  function Consequents(deps: seq<Dependency>): set<Variable> { set d, v | d in deps && v in d.consequent :: v }

  lemma {:induction false} ForcedMore(deps: seq<Dependency>, start: set<Variable>, r: set<Variable>, d: Dependency,
                                      v: Variable)
    requires Forced(deps, start, r) && d in deps && v in d.consequent && forall u :: u in d.antecedent ==> u in r
    ensures Forced(deps, start, r + {v})
  {
    forall s | Covers(start, s) && Closed(deps, s) ensures Covers(r + {v}, s) {
      assert Covers(r, s) && ClosedUnder(d, s);
    }
  }

  /** The variables of some columns. */
  function EntryVars(entries: seq<Entry>): seq<Variable>
  {
    if entries == [] then []
    else (if entries[0].Var? then [entries[0].v] else []) + EntryVars(entries[1..])
  }

  lemma {:induction false} EntryVar(entries: seq<Entry>, v: Variable)
    ensures v in EntryVars(entries) <==> Var(v) in entries
  {
    if entries != [] {
      EntryVar(entries[1..], v);
    }
  }

  class Deps {
    var dependencies: seq<Dependency>

    constructor ()
      ensures dependencies == []
    {
      dependencies := [];
    }

    method AddDependency(antecedent: seq<Variable>, consequent: seq<Variable>)
      modifies this
      ensures dependencies == old(dependencies) + if antecedent == [] then [] else [Dependency(antecedent, consequent)]
    {
      if antecedent != [] {
        dependencies := dependencies + [Dependency(antecedent, consequent)];
      }
    }

    /** Record what an atom's keys determine. */
    method AddAtom(a: Atom)
      requires a.nKeys <= |a.entries|
      modifies this
      ensures dependencies == old(dependencies) + AtomDeps(a)
    {
      AddDependency(EntryVars(a.entries[..a.nKeys]), EntryVars(a.entries[a.nKeys..]));
    }

    /** Record all atoms of a query. */
    method AddQuery(query: seq<Atom>)
      requires forall k :: 0 <= k < |query| ==> query[k].nKeys <= |query[k].entries|
      modifies this
      ensures dependencies == old(dependencies) + QueryDeps(query)
    {
      for i := 0 to |query|
        invariant dependencies == old(dependencies) + QueryDeps(query[..i])
      {
        AddAtom(query[i]);
        assert query[..i + 1] == query[..i] + [query[i]];
        QueryDepsAppend(query[..i], query[i]);
      }
      assert query[..|query|] == query;
    }

    method Closure(variables: set<Variable>) returns (result: set<Variable>)
      ensures IsClosure(dependencies, variables, result)
    {
      result := variables;
      var changed := true;
      while changed
        invariant variables <= result && Forced(dependencies, variables, result)
        invariant !changed ==> Closed(dependencies, All(result))
        decreases Consequents(dependencies) - result, changed
      {
        changed := false;
        ghost var before := result;
        for i := 0 to |dependencies|
          invariant before <= result && Forced(dependencies, variables, result)
          invariant changed ==> exists v :: v in Consequents(dependencies) && v in result && v !in before
          invariant !changed ==> result == before && forall j :: 0 <= j < i ==>
            ClosedUnder(dependencies[j], All(result))
        {
          var d := dependencies[i];
          ghost var already := changed;
          if forall v :: v in d.antecedent ==> v in result {
            for k := 0 to |d.consequent|
              invariant before <= result && Forced(dependencies, variables, result)
              invariant forall v :: v in d.antecedent ==> v in result
              invariant forall j :: 0 <= j < k ==> d.consequent[j] in result
              invariant changed ==> exists v :: v in Consequents(dependencies) && v in result && v !in before
              invariant (already ==> changed) && (!changed ==> result == before)
            {
              var v := d.consequent[k];
              if v !in result {
                ForcedMore(dependencies, variables, result, d, v);
                result := result + {v};
                changed := true;
                assert v in Consequents(dependencies);
              }
            }
            assert forall v :: v in d.consequent ==> v in result;
          }
          assert !changed ==> ClosedUnder(d, All(result));
        }
        assert !changed ==> Closed(dependencies, All(result));
      }
    }
  }

  function AtomDeps(a: Atom): seq<Dependency>
    requires a.nKeys <= |a.entries|
  {
    var antecedent := EntryVars(a.entries[..a.nKeys]);
    if antecedent == [] then [] else [Dependency(antecedent, EntryVars(a.entries[a.nKeys..]))]
  }

  // ---------------------------------------------------------------- what the closure promises

  /** Tables as sets of rows, and a value for every variable. */
  type Database = imap<nat, iset<seq<Value>>>
  type Env = e: imap<Variable, Value> | forall v: Variable :: v in e ghost witness imap v: Variable :: 0

  /** Rows of a table with equal keys are equal. */
  ghost predicate KeysDetermine(db: Database, table: nat, nKeys: nat)
  {
    table in db ==> forall r, q ::
      r in db[table] && q in db[table] && |r| == |q| >= nKeys && r[..nKeys] == q[..nKeys] ==> r == q
  }

  /** A row fits if its constants and variables are as given; a placeholder column may hold anything. */
  ghost predicate Fits(row: seq<Value>, entries: seq<Entry>, env: Env)
  {
    |row| == |entries| && forall k :: 0 <= k < |entries| ==>
      match entries[k]
      case Const(c) => row[k] == c
      case Var(v) => v == PLACEHOLDER || row[k] == env[v]
  }

  ghost predicate Holds(db: Database, a: Atom,
                        env: Env) { a.table in db && exists row :: row in db[a.table] && Fits(row, a.entries, env) }

  ghost predicate Matches(db: Database, query: seq<Atom>, env: Env) { forall a :: a in query ==> Holds(db, a, env) }

  function QueryDeps(query: seq<Atom>): seq<Dependency>
    requires forall k :: 0 <= k < |query| ==> query[k].nKeys <= |query[k].entries|
  {
    if query == [] then [] else AtomDeps(query[0]) + QueryDeps(query[1..])
  }

  lemma {:induction false} QueryDepsAppend(query: seq<Atom>, a: Atom)
    requires (forall k :: 0 <= k < |query| ==> query[k].nKeys <= |query[k].entries|) && a.nKeys <= |a.entries|
    ensures QueryDeps(query + [a]) == QueryDeps(query) + AtomDeps(a)
  {
    if query == [] {
      assert [] + [a] == [a] && [a][1..] == [];
    } else {
      assert (query + [a])[1..] == query[1..] + [a];
      QueryDepsAppend(query[1..], a);
    }
  }

  /** Where two matches agree on the keys of an atom, and no key is a placeholder, they agree on its values. */
  lemma {:induction false} AtomAgrees(db: Database, a: Atom, e1: Env, e2: Env)
    requires a.nKeys <= |a.entries| && KeysDetermine(db, a.table, a.nKeys) && Holds(db, a, e1) && Holds(db, a, e2)
    requires Var(PLACEHOLDER) !in a.entries[..a.nKeys]
    requires forall v :: v in EntryVars(a.entries[..a.nKeys]) ==> e1[v] == e2[v]
    ensures forall v :: v in EntryVars(a.entries[a.nKeys..]) && v != PLACEHOLDER ==> e1[v] == e2[v]
  {
    var r :| r in db[a.table] && Fits(r, a.entries, e1);
    var q :| q in db[a.table] && Fits(q, a.entries, e2);
    forall k | 0 <= k < a.nKeys ensures r[k] == q[k] {
      var entry := a.entries[k];
      assert a.entries[..a.nKeys][k] == entry;
      if entry.Var? {
        EntryVar(a.entries[..a.nKeys], entry.v);
      }
    }
    assert r[..a.nKeys] == q[..a.nKeys];
    forall v | v in EntryVars(a.entries[a.nKeys..]) && v != PLACEHOLDER ensures e1[v] == e2[v] {
      EntryVar(a.entries[a.nKeys..], v);
      var k :| 0 <= k < |a.entries| - a.nKeys && a.entries[a.nKeys..][k] == Var(v);
      assert a.entries[a.nKeys + k] == Var(v);
    }
  }

  ghost predicate WellFormed(db: Database, query: seq<Atom>)
  {
    forall k :: 0 <= k < |query| ==>
      query[k].nKeys <= |query[k].entries| && KeysDetermine(db, query[k].table, query[k].nKeys)
  }

  function Keys(a: Atom): seq<Entry> { if a.nKeys <= |a.entries| then a.entries[..a.nKeys] else a.entries }

  function Rest(a: Atom): seq<Entry> { if a.nKeys <= |a.entries| then a.entries[a.nKeys..] else [] }

  /** What the tables really determine: the dependencies of the atoms without a placeholder among their keys. */
  function NamedDeps(query: seq<Atom>): seq<Dependency>
  {
    if query == [] then []
    else
      (if Var(PLACEHOLDER) in Keys(query[0]) then []
       else [Dependency(EntryVars(Keys(query[0])), EntryVars(Rest(query[0])))]) + NamedDeps(query[1..])
  }

  lemma {:induction false} NamedDep(query: seq<Atom>, k: nat)
    requires k < |query| && Var(PLACEHOLDER) !in Keys(query[k])
    ensures Dependency(EntryVars(Keys(query[k])), EntryVars(Rest(query[k]))) in NamedDeps(query)
  {
    if k > 0 {
      NamedDep(query[1..], k - 1);
    }
  }

  /** Variables on which two matches agree, and the placeholder, are closed under these dependencies. */
  lemma {:induction false} AgreementClosed(db: Database, query: seq<Atom>, e1: Env, e2: Env)
    requires WellFormed(db, query) && Matches(db, query, e1) && Matches(db, query, e2)
    ensures Closed(NamedDeps(query), iset v: Variable | v == PLACEHOLDER || e1[v] == e2[v])
  {
    if query != [] {
      var a, s := query[0], iset v: Variable | v == PLACEHOLDER || e1[v] == e2[v];
      AgreementClosed(db, query[1..], e1, e2);
      if Var(PLACEHOLDER) !in Keys(a) {
        var d := Dependency(EntryVars(Keys(a)), EntryVars(Rest(a)));
        if forall v :: v in d.antecedent ==> v in s {
          EntryVar(Keys(a), PLACEHOLDER);
          AtomAgrees(db, a, e1, e2);
        }
        assert ClosedUnder(d, s);
      }
    }
  }

  /**
   Two matches over one database that agree on the start agree on the closure, but for the placeholder, which has no
   value.
   */
  ghost predicate Determines(query: seq<Atom>, start: set<Variable>, closure: set<Variable>)
  {
    forall db, e1, e2 {:trigger Matches(db, query, e1), Matches(db, query, e2)} ::
      WellFormed(db, query) && Matches(db, query, e1) && Matches(db, query, e2) && Agree(e1, e2, start) ==>
        Agree(e1, e2, closure - {PLACEHOLDER})
  }

  ghost predicate Agree(e1: Env, e2: Env, vars: set<Variable>) { forall v :: v in vars ==> e1[v] == e2[v] }

  /** The closure determines what it claims if each of its variables follows without a placeholder among the keys. */
  lemma {:induction false} AgreesOnClosure(query: seq<Atom>, start: set<Variable>, closure: set<Variable>,
                                           named: set<Variable>)
    requires forall k :: 0 <= k < |query| ==> query[k].nKeys <= |query[k].entries|
    requires IsClosure(QueryDeps(query), start, closure) && IsClosure(NamedDeps(query), start, named)
    requires closure - {PLACEHOLDER} <= named
    ensures Determines(query, start, closure)
  {
    forall db, e1, e2 | WellFormed(db, query) && Matches(db, query, e1) && Matches(db, query, e2) &&
      Agree(e1, e2, start)
      ensures Agree(e1, e2, closure - {PLACEHOLDER})
    {
      var s := iset v: Variable | v == PLACEHOLDER || e1[v] == e2[v];
      AgreementClosed(db, query, e1, e2);
      assert Covers(start, s);
      assert Covers(named, s);
    }
  }

  // ---------------------------------------------------------------- a counter-model

  /** Atoms of one table follow its schema, and no two of them have the same keys without a placeholder. */
  ghost predicate DistinctKeys(query: seq<Atom>)
  {
    && (forall k :: 0 <= k < |query| ==> query[k].nKeys <= |query[k].entries|)
    && forall i, j :: 0 <= i < j < |query| && query[i].table == query[j].table ==>
         && query[i].nKeys == query[j].nKeys && |query[i].entries| == |query[j].entries|
         && (Var(PLACEHOLDER) in Keys(query[i]) || Keys(query[i]) != Keys(query[j]))
  }

  /** Above every constant of the entries. */
  function Above(entries: seq<Entry>): int
  {
    if entries == [] then 0
    else
      var rest := Above(entries[1..]);
      if entries[0].Const? && rest <= entries[0].c then entries[0].c + 1 else rest
  }

  lemma {:induction false} ConstBelow(entries: seq<Entry>, c: Value)
    requires Const(c) in entries
    ensures c < Above(entries)
  {
    if entries[0] != Const(c) {
      ConstBelow(entries[1..], c);
    }
  }

  function AboveAll(query: seq<Atom>): int
  {
    if query == [] then 0
    else
      var a, rest := Above(query[0].entries), AboveAll(query[1..]);
      if a < rest then rest else a
  }

  lemma {:induction false} AllConstsBelow(query: seq<Atom>, k: nat, c: Value)
    requires k < |query| && Const(c) in query[k].entries
    ensures c < AboveAll(query)
  {
    if k == 0 {
      ConstBelow(query[0].entries, c);
    } else {
      AllConstsBelow(query[1..], k - 1, c);
    }
  }

  /** Two valuations that agree exactly on `same`. */
  function ValueOf(top: int, same: set<Variable>, second: bool, v: Variable): Value
  {
    top + 3 * v + if second && v !in same then 1 else 0
  }

  ghost function Valuation(top: int, same: set<Variable>,
                           second: bool): Env { imap v: Variable :: ValueOf(top, same, second, v) }

  /** The cell of a column; placeholders among the keys get a value that occurs nowhere else. */
  function Cell(top: int, same: set<Variable>, k: nat, second: bool, isKey: bool, entry: Entry): Value
  {
    match entry
    case Const(c) => c
    case Var(v) =>
      if v != PLACEHOLDER then ValueOf(top, same, second, v)
      else if isKey then top + 3 * (2 * k + if second then 1 else 0) + 2
      else 0
  }

  function RowOf(top: int, same: set<Variable>, query: seq<Atom>, k: nat, second: bool): seq<Value>
    requires k < |query|
  {
    seq(|query[k].entries|,
        c requires 0 <= c < |query[k].entries| => Cell(top, same, k, second, c < query[k].nKeys, query[k].entries[c]))
  }

  ghost predicate InTable(top: int, same: set<Variable>, query: seq<Atom>, table: nat, row: seq<Value>)
  {
    exists k: nat, second :: k < |query| && query[k].table == table && row == RowOf(top, same, query, k, second)
  }

  ghost function TableOf(top: int, same: set<Variable>, query: seq<Atom>, table: nat): iset<seq<Value>>
  {
    iset row | InTable(top, same, query, table, row)
  }

  ghost function CounterModel(top: int, same: set<Variable>, query: seq<Atom>): Database
  {
    imap table: nat :: TableOf(top, same, query, table)
  }

  lemma {:induction false} CounterMatches(query: seq<Atom>, top: int, same: set<Variable>, second: bool)
    ensures Matches(CounterModel(top, same, query), query, Valuation(top, same, second))
  {
    forall a | a in query ensures Holds(CounterModel(top, same, query), a, Valuation(top, same, second)) {
      var k: nat :| k < |query| && query[k] == a;
      var row := RowOf(top, same, query, k, second);
      assert InTable(top, same, query, a.table, row);
      assert Fits(row, a.entries, Valuation(top, same, second));
    }
  }

  /** Equal cells in a key column come from one entry; a placeholder's cell from one row only. */
  lemma {:induction false} SameCell(query: seq<Atom>, top: int, same: set<Variable>, i: nat, p: bool, j: nat, q: bool,
                                    c: nat)
    requires top >= AboveAll(query) && i < |query| && j < |query| && c < |query[i].entries| && c < |query[j].entries|
    requires Cell(top, same, i, p, true, query[i].entries[c]) == Cell(top, same, j, q, true, query[j].entries[c])
    ensures query[i].entries[c] == query[j].entries[c]
    ensures query[i].entries[c] == Var(PLACEHOLDER) ==> i == j && p == q
    ensures query[i].entries[c].Var? && query[i].entries[c].v != PLACEHOLDER && p != q ==> query[i].entries[c].v in same
  {
    var x, y := query[i].entries[c], query[j].entries[c];
    if x.Const? {
      AllConstsBelow(query, i, x.c);
    }
    if y.Const? {
      AllConstsBelow(query, j, y.c);
    }
  }

  /** Equal keys are built from equal entries, and by one valuation unless only variables of `same` occur. */
  lemma {:induction false} SameEntry(query: seq<Atom>, top: int, same: set<Variable>, i: nat, p: bool, j: nat, q: bool,
                                     c: nat)
    requires DistinctKeys(query) && top >= AboveAll(query) && i < |query| && j < |query|
    requires query[i].table == query[j].table
    requires RowOf(top, same, query, i, p)[..query[i].nKeys] == RowOf(top, same, query, j, q)[..query[j].nKeys]
    requires c < query[i].nKeys
    ensures c < |query[i].entries| && c < |query[j].entries| && query[i].entries[c] == query[j].entries[c]
    ensures query[i].entries[c] == Var(PLACEHOLDER) ==> i == j && p == q
    ensures query[i].entries[c].Var? && query[i].entries[c].v != PLACEHOLDER && p != q ==> query[i].entries[c].v in same
  {
    var n, r, t := query[i].nKeys, RowOf(top, same, query, i, p), RowOf(top, same, query, j, q);
    assert n == query[j].nKeys && r[..n][c] == r[c] && t[..n][c] == t[c];
    SameCell(query, top, same, i, p, j, q, c);
  }

  /** The variables outside of the keys have one value in both valuations once those of the keys have. */
  lemma {:induction false} SameRest(query: seq<Atom>, top: int, same: set<Variable>, i: nat, p: bool, q: bool)
    requires i < |query| && query[i].nKeys <= |query[i].entries| && Closed(NamedDeps(query), All(same))
    requires RowOf(top, same, query, i, p)[..query[i].nKeys] == RowOf(top, same, query, i, q)[..query[i].nKeys]
    requires Var(PLACEHOLDER) !in Keys(query[i])
    requires forall c :: 0 <= c < |Keys(query[i])| && Keys(query[i])[c].Var? ==> Keys(query[i])[c].v in same
    ensures RowOf(top, same, query, i, p) == RowOf(top, same, query, i, q)
  {
    var a, n, r, t := query[i], query[i].nKeys, RowOf(top, same, query, i, p), RowOf(top, same, query, i, q);
    RestIsSame(query, same, i);
    hide Closed, NamedDeps;
    forall c | 0 <= c < |r| ensures r[c] == t[c] {
      if c >= n {
        assert Rest(a)[c - n] == a.entries[c];
      } else {
        assert r[..n][c] == r[c] && t[..n][c] == t[c];
      }
    }
  }

  lemma {:induction false} SameKeys(query: seq<Atom>, top: int, same: set<Variable>, i: nat, p: bool, j: nat, q: bool)
    requires DistinctKeys(query) && top >= AboveAll(query) && i < |query| && j < |query|
    requires query[i].table == query[j].table
    requires Closed(NamedDeps(query), All(same))
    requires RowOf(top, same, query, i, p)[..query[i].nKeys] == RowOf(top, same, query, j, q)[..query[j].nKeys]
    ensures RowOf(top, same, query, i, p) == RowOf(top, same, query, j, q)
  {
    var a, b, n := query[i], query[j], query[i].nKeys;
    hide RowOf, AboveAll, Closed, NamedDeps;
    forall c | 0 <= c < n
      ensures c < |b.entries| && a.entries[c] == b.entries[c] && (a.entries[c] == Var(PLACEHOLDER) ==> i == j && p == q)
      ensures a.entries[c].Var? && a.entries[c].v != PLACEHOLDER && p != q ==> a.entries[c].v in same
    {
      SameEntry(query, top, same, i, p, j, q, c);
    }
    assert Keys(a) == Keys(b);
    if Var(PLACEHOLDER) !in Keys(a) {
      assert i == j;
      if p != q {
        SameRest(query, top, same, i, p, q);
      }
    } else {
      var c :| 0 <= c < n && Keys(a)[c] == Var(PLACEHOLDER);
    }
  }

  /** If the key variables are among the same, so are the value variables. */
  lemma {:induction false} RestIsSame(query: seq<Atom>, same: set<Variable>, k: nat)
    requires k < |query| && Var(PLACEHOLDER) !in Keys(query[k]) && Closed(NamedDeps(query), All(same))
    requires forall c :: 0 <= c < |Keys(query[k])| && Keys(query[k])[c].Var? ==> Keys(query[k])[c].v in same
    ensures forall c :: 0 <= c < |Rest(query[k])| && Rest(query[k])[c].Var? ==> Rest(query[k])[c].v in same
  {
    var a := query[k];
    var d := Dependency(EntryVars(Keys(a)), EntryVars(Rest(a)));
    NamedDep(query, k);
    assert ClosedUnder(d, All(same));
    forall v | v in d.antecedent ensures v in All(same) {
      EntryVar(Keys(a), v);
      var c :| 0 <= c < |Keys(a)| && Keys(a)[c] == Var(v);
    }
    forall c | 0 <= c < |Rest(a)| && Rest(a)[c].Var? ensures Rest(a)[c].v in same {
      assert Rest(a)[c] in Rest(a) && Rest(a)[c] == Var(Rest(a)[c].v);
      EntryVar(Rest(a), Rest(a)[c].v);
    }
  }

  lemma {:induction false} CounterWellFormed(query: seq<Atom>, top: int, same: set<Variable>)
    requires DistinctKeys(query) && top >= AboveAll(query) && Closed(NamedDeps(query), All(same))
    ensures WellFormed(CounterModel(top, same, query), query)
  {
    var db := CounterModel(top, same, query);
    forall k | 0 <= k < |query| ensures KeysDetermine(db, query[k].table, query[k].nKeys) {
      var n := query[k].nKeys;
      forall r, t | r in db[query[k].table] && t in db[query[k].table] && |r| == |t| >= n && r[..n] == t[..n]
        ensures r == t
      {
        var i: nat, p :| i < |query| && query[i].table == query[k].table && r == RowOf(top, same, query, i, p);
        var j: nat, q :| j < |query| && query[j].table == query[k].table && t == RowOf(top, same, query, j, q);
        assert query[i].nKeys == n == query[j].nKeys;
        SameKeys(query, top, same, i, p, j, q);
      }
    }
  }

  /**
   Exactly when the closure determines what it claims: its variables but for the placeholder follow from dependencies
   without a placeholder.  The query is in the normal form in which no two atoms of a table have the same keys.
   */
  lemma {:induction false} ClosureIsSharp(query: seq<Atom>, start: set<Variable>, closure: set<Variable>,
                                          named: set<Variable>)
    requires DistinctKeys(query) && IsClosure(QueryDeps(query), start, closure)
    requires IsClosure(NamedDeps(query), start, named)
    ensures Determines(query, start, closure) <==> closure - {PLACEHOLDER} <= named
  {
    if closure - {PLACEHOLDER} <= named {
      AgreesOnClosure(query, start, closure, named);
    } else {
      var v :| v in closure - {PLACEHOLDER} && v !in named;
      CounterPair(query, start, closure, named, v);
    }
  }

  /** The counter-model has two matches that agree on the start and differ in `v`. */
  lemma {:induction false} CounterPair(query: seq<Atom>, start: set<Variable>, closure: set<Variable>,
                                       named: set<Variable>,
                                       v: Variable)
    requires DistinctKeys(query) && IsClosure(NamedDeps(query), start, named) && v in closure - {PLACEHOLDER}
    requires v !in named
    ensures !Determines(query, start, closure)
  {
    var top := AboveAll(query);
    var db, e1, e2 := CounterModel(top, named, query), Valuation(top, named, false), Valuation(top, named, true);
    CounterWellFormed(query, top, named);
    CounterMatches(query, top, named, false);
    CounterMatches(query, top, named, true);
    assert Agree(e1, e2, start) && e1[v] != e2[v];
    hide CounterModel, WellFormed, Matches, DistinctKeys, AboveAll, IsClosure;
    assert !Agree(e1, e2, closure - {PLACEHOLDER});
  }

  lemma {:induction false} QueryDepIsNamed(query: seq<Atom>, d: Dependency)
    requires forall k :: 0 <= k < |query| ==> query[k].nKeys <= |query[k].entries|
    requires d in QueryDeps(query) && PLACEHOLDER !in d.antecedent
    ensures d in NamedDeps(query)
  {
    if d in AtomDeps(query[0]) {
      EntryVar(Keys(query[0]), PLACEHOLDER);
    } else {
      QueryDepIsNamed(query[1..], d);
    }
  }

  /** A closure that the placeholder is not in meets the condition. */
  lemma {:induction false} UnreachedPlaceholder(query: seq<Atom>, start: set<Variable>, closure: set<Variable>,
                                                named: set<Variable>)
    requires forall k :: 0 <= k < |query| ==> query[k].nKeys <= |query[k].entries|
    requires IsClosure(QueryDeps(query), start, closure) && IsClosure(NamedDeps(query), start, named)
    requires PLACEHOLDER !in closure
    ensures closure <= named
  {
    var s := All(closure * named);
    forall d | d in QueryDeps(query) ensures ClosedUnder(d, s) {
      if forall v :: v in d.antecedent ==> v in s {
        QueryDepIsNamed(query, d);
        assert ClosedUnder(d, All(closure)) && ClosedUnder(d, All(named));
        assert forall v :: v in d.antecedent ==> v in All(closure) && v in All(named);
      }
    }
    assert Covers(start, s);
    assert Covers(closure, s);
  }

  const REPEATED_KEY: seq<Atom> :=
    [Atom(0, 1, [Var(1), Var(2)]), Atom(0, 1, [Var(1), Var(3)]), Atom(1, 1, [Var(2), Var(PLACEHOLDER)]),
     Atom(2, 1, [Var(PLACEHOLDER), Var(3)])]

  /**
   Outside of the normal form equal calls can make up for a placeholder: in `T(x; y), T(x; z), R(y; _), S(_; z)` `y` is
   `z`.
   */
  lemma {:induction false} RepeatedKeysHelp()
    ensures !DistinctKeys(REPEATED_KEY) && Determines(REPEATED_KEY, {2}, {2, PLACEHOLDER, 3})
    ensures IsClosure(QueryDeps(REPEATED_KEY), {2}, {2, PLACEHOLDER, 3})
    ensures IsClosure(NamedDeps(REPEATED_KEY), {2}, {2, PLACEHOLDER})
  {
    RepeatedDeps();
    RepeatedClosures();
    assert Keys(REPEATED_KEY[0]) == [Var(1)] == Keys(REPEATED_KEY[1]);
    forall db, e1, e2 | WellFormed(db, REPEATED_KEY) && Matches(db, REPEATED_KEY, e1) &&
      Matches(db, REPEATED_KEY, e2) && Agree(e1, e2, {2})
      ensures Agree(e1, e2, {2, PLACEHOLDER, 3} - {PLACEHOLDER})
    {
      OneCall(db, e1);
      OneCall(db, e2);
      assert e1[2] == e2[2];
    }
  }

  /** The dependencies of an atom with one key and one value. */
  lemma {:induction false} BinaryDeps(table: nat, x: Variable, y: Variable, rest: seq<Atom>)
    requires forall k :: 0 <= k < |rest| ==> rest[k].nKeys <= |rest[k].entries|
    ensures var query := [Atom(table, 1, [Var(x), Var(y)])] + rest;
      && QueryDeps(query) == [Dependency([x], [y])] + QueryDeps(rest)
      && NamedDeps(query) == (if x == PLACEHOLDER then [] else [Dependency([x], [y])]) + NamedDeps(rest)
  {
    var a := Atom(table, 1, [Var(x), Var(y)]);
    assert ([a] + rest)[1..] == rest && a.entries[..1] == [Var(x)] && a.entries[1..] == [Var(y)];
    assert [Var(x)][1..] == [] && [Var(y)][1..] == [];
    assert EntryVars([Var(x)]) == [x] && EntryVars([Var(y)]) == [y];
  }

  lemma {:induction false} RepeatedDeps()
    ensures NamedDeps(REPEATED_KEY) == [Dependency([1], [2]), Dependency([1], [3]), Dependency([2], [PLACEHOLDER])]
    ensures QueryDeps(REPEATED_KEY) == NamedDeps(REPEATED_KEY) + [Dependency([PLACEHOLDER], [3])]
  {
    hide QueryDeps, NamedDeps;
    var q := REPEATED_KEY;
    assert q == [q[0]] + q[1..] && q[1..] == [q[1]] + q[2..] && q[2..] == [q[2]] + q[3..] && q[3..] == [q[3]] + [];
    BinaryDeps(0, 1, 2, q[1..]);
    BinaryDeps(0, 1, 3, q[2..]);
    BinaryDeps(1, 2, PLACEHOLDER, q[3..]);
    BinaryDeps(2, PLACEHOLDER, 3, []);
    NoDeps();
  }

  lemma {:induction false} NoDeps()
    ensures QueryDeps([]) == [] && NamedDeps([]) == []
  {
  }

  /** One dependency more is closed under if it does not fire or adds nothing. */
  lemma {:induction false} ClosedOne(x: Variable, y: Variable, s: set<Variable>)
    requires x !in s || y in s
    ensures ClosedUnder(Dependency([x], [y]), All(s))
  {
    assert x in [x];
  }

  lemma {:induction false} RepeatedClosures()
    ensures IsClosure(QueryDeps(REPEATED_KEY), {2}, {2, PLACEHOLDER, 3})
    ensures IsClosure(NamedDeps(REPEATED_KEY), {2}, {2, PLACEHOLDER})
  {
    RepeatedDeps();
    hide QueryDeps, NamedDeps, IsClosure;
    RepeatedNamedClosure(NamedDeps(REPEATED_KEY));
    RepeatedFullClosure(NamedDeps(REPEATED_KEY), Dependency([PLACEHOLDER], [3]));
  }

  lemma {:induction false} RepeatedNamedClosure(deps: seq<Dependency>)
    requires deps == [Dependency([1], [2]), Dependency([1], [3]), Dependency([2], [PLACEHOLDER])]
    ensures IsClosure(deps, {2}, {2, PLACEHOLDER})
  {
    hide ClosedUnder;
    ClosedOne(1, 2, {2, PLACEHOLDER});
    ClosedOne(1, 3, {2, PLACEHOLDER});
    ClosedOne(2, PLACEHOLDER, {2, PLACEHOLDER});
    forall s | Covers({2}, s) && Closed(deps, s) ensures Covers({2, PLACEHOLDER}, s) {
      Fires(deps[2], 2, PLACEHOLDER, s);
    }
  }

  lemma {:induction false} RepeatedFullClosure(named: seq<Dependency>, last: Dependency)
    requires named == [Dependency([1], [2]), Dependency([1], [3]), Dependency([2], [PLACEHOLDER])]
    requires last == Dependency([PLACEHOLDER], [3])
    ensures IsClosure(named + [last], {2}, {2, PLACEHOLDER, 3})
  {
    hide ClosedUnder;
    var deps := named + [last];
    ClosedOne(1, 2, {2, PLACEHOLDER, 3});
    ClosedOne(1, 3, {2, PLACEHOLDER, 3});
    ClosedOne(2, PLACEHOLDER, {2, PLACEHOLDER, 3});
    ClosedOne(PLACEHOLDER, 3, {2, PLACEHOLDER, 3});
    forall s | Covers({2}, s) && Closed(deps, s) ensures Covers({2, PLACEHOLDER, 3}, s) {
      Fires(deps[2], 2, PLACEHOLDER, s);
      Fires(deps[3], PLACEHOLDER, 3, s);
    }
  }

  lemma {:induction false} Fires(d: Dependency, x: Variable, y: Variable, s: iset<Variable>)
    requires d == Dependency([x], [y]) && ClosedUnder(d, s) && x in s
    ensures y in s
  {
    assert y in [y];
  }

  lemma {:induction false} OneCall(db: Database, env: Env)
    requires WellFormed(db, REPEATED_KEY) && Matches(db, REPEATED_KEY, env)
    ensures env[2] == env[3]
  {
    var a, b := REPEATED_KEY[0], REPEATED_KEY[1];
    assert Holds(db, a, env) && Holds(db, b, env) && KeysDetermine(db, a.table, a.nKeys);
    var r :| r in db[0] && Fits(r, a.entries, env);
    var t :| t in db[0] && Fits(t, b.entries, env);
    assert r[0] == env[1] == t[0] && r[1] == env[2] && t[1] == env[3];
    assert r[..1] == [env[1]] == t[..1];
  }

  const UNNAMED_KEY: seq<Atom> := [Atom(0, 1, [Var(1), Var(PLACEHOLDER)]), Atom(1, 1, [Var(PLACEHOLDER), Var(2)])]

  lemma {:induction false} UnnamedDeps()
    ensures QueryDeps(UNNAMED_KEY) == [Dependency([1], [PLACEHOLDER]), Dependency([PLACEHOLDER], [2])]
  {
    var a, b := UNNAMED_KEY[0], UNNAMED_KEY[1];
    assert a.entries[..1] == [Var(1)] && a.entries[1..] == [Var(PLACEHOLDER)];
    assert b.entries[..1] == [Var(PLACEHOLDER)] && b.entries[1..] == [Var(2)];
    assert [Var(1)][1..] == [] && [Var(PLACEHOLDER)][1..] == [] && [Var(2)][1..] == [];
    assert EntryVars([Var(1)]) == [1] && EntryVars([Var(PLACEHOLDER)]) == [PLACEHOLDER] && EntryVars([Var(2)]) == [2];
    assert UNNAMED_KEY[1..] == [b] && [b][1..] == [];
    assert QueryDeps([b]) == AtomDeps(b) + [];
  }

  lemma {:induction false} ClosureOfUnnamed(closure: set<Variable>)
    requires IsClosure(QueryDeps(UNNAMED_KEY), {1}, closure)
    ensures 2 in closure
  {
    UnnamedDeps();
    var deps := QueryDeps(UNNAMED_KEY);
    assert ClosedUnder(deps[0], All(closure)) && ClosedUnder(deps[1], All(closure));
    assert deps[0].consequent[0] in All(closure) && deps[1].consequent[0] in All(closure);
  }

  function PickValue(x: Value, v: Variable): Value { if v == 1 then 5 else x }

  ghost function Valued(x: Value): Env { imap v: Variable :: PickValue(x, v) }

  ghost const TWO_ROWS: Database := imap[0 := iset{[5, 6]}, 1 := iset{[7, 8], [9, 10]}]

  /**
   With a placeholder as a key the closure claims too much: for `R(y; _), T(_; x)` it holds `x` to be determined by `y`
   through the placeholder, and here are two matches with one `y` and two values of `x`.
   */
  lemma {:induction false} PlaceholderKeyIsUnsound(closure: set<Variable>)
    requires IsClosure(QueryDeps(UNNAMED_KEY), {1}, closure)
    ensures WellFormed(TWO_ROWS, UNNAMED_KEY) && Matches(TWO_ROWS, UNNAMED_KEY, Valued(8))
    ensures Matches(TWO_ROWS, UNNAMED_KEY, Valued(10))
    ensures Valued(8)[1] == Valued(10)[1] && 2 in closure && Valued(8)[2] != Valued(10)[2]
  {
    hide IsClosure, QueryDeps;
    ClosureOfUnnamed(closure);
    UnnamedMatch([7, 8]);
    UnnamedMatch([9, 10]);
  }

  lemma {:induction false} UnnamedMatch(row: seq<Value>)
    requires row in TWO_ROWS[1] && |row| == 2
    ensures Matches(TWO_ROWS, UNNAMED_KEY, Valued(row[1]))
  {
    var a, b, env := UNNAMED_KEY[0], UNNAMED_KEY[1], Valued(row[1]);
    assert [5, 6] in TWO_ROWS[0] && Fits([5, 6], a.entries, env);
    assert Fits(row, b.entries, env);
    assert Holds(TWO_ROWS, a, env) && Holds(TWO_ROWS, b, env);
  }
}
