/**
 The bookkeeping of scheduled matches (src/scheduler.rs): matches lie flat in one vector, chosen ones are inserted and
 swap-removed, the rest wait for the next iteration.
 */
module Scheduler {

  type Value = int
  type Row = seq<Value>

  // ---------------------------------------------------------------- rows in a flat vector

  function Concat(rows: seq<Row>): seq<Value> { if rows == [] then [] else rows[0] + Concat(rows[1..]) }

  predicate Wide(rows: seq<Row>, width: nat) { forall i :: 0 <= i < |rows| ==> |rows[i]| == width }

  lemma {:induction false} ConcatAppend(a: seq<Row>, b: seq<Row>)
    ensures Concat(a + b) == Concat(a) + Concat(b)
    decreases |a|
  {
    if a == [] {
      assert a + b == b;
    } else {
      assert (a + b)[0] == a[0] && (a + b)[1..] == a[1..] + b;
      ConcatAppend(a[1..], b);
    }
  }

  lemma {:induction false} ConcatLength(rows: seq<Row>, width: nat)
    requires Wide(rows, width)
    ensures |Concat(rows)| == |rows| * width
  {
    if rows != [] {
      ConcatLength(rows[1..], width);
      Distribute(|rows|, width);
    }
  }

  lemma {:induction false} Distribute(n: int, width: nat)
    ensures n * width == (n - 1) * width + width
  {
  }

  lemma {:induction false} AtLeastOne(k: int, width: nat)
    ensures k >= 1 ==> k * width >= width
  {
  }

  lemma {:induction false} Quotient(n: nat, width: nat)
    requires width > 0
    ensures n * width / width == n
  {
    var m := n * width;
    var d := n - m / width;
    assert d * width == n * width - m / width * width == m % width;
    assert (-d) * width == -(d * width);
    AtLeastOne(d, width);
    AtLeastOne(-d, width);
  }

  lemma {:induction false} Mono(a: nat, b: nat, width: nat)
    requires a <= b
    ensures 0 <= a * width <= b * width
  {
    if a < b {
      Mono(a, b - 1, width);
      Distribute(b, width);
    }
  }

  /** The parts of the vector around one row. */
  lemma {:induction false} AroundRow(rows: seq<Row>, width: nat, c: nat)
    requires Wide(rows, width) && c < |rows|
    ensures Concat(rows) == Concat(rows[..c]) + rows[c] + Concat(rows[c + 1..]) && |Concat(rows[..c])| == c * width
    ensures |rows[c]| == width
  {
    assert rows == rows[..c] + rows[c..] && rows[c..] == [rows[c]] + rows[c + 1..];
    ConcatAppend(rows[..c], rows[c..]);
    ConcatLength(rows[..c], width);
  }

  /** The slice of the vector that holds a row. */
  lemma {:induction false} RowAt(rows: seq<Row>, width: nat, c: nat)
    requires Wide(rows, width) && c < |rows|
    ensures 0 <= c * width <= (c + 1) * width == c * width + width <= |Concat(rows)|
    ensures Concat(rows)[c * width..(c + 1) * width] == rows[c]
  {
    AroundRow(rows, width, c);
    Distribute(c + 1, width);
    Mono(0, c, width);
  }

  // ---------------------------------------------------------------- swapping rows

  function Swapped(rows: seq<Row>, c: nat, p: nat): seq<Row>
    requires c < |rows| && p < |rows|
  {
    rows[c := rows[p]][p := rows[c]]
  }

  /** The vector with two stretches exchanged. */
  ghost predicate Exchanged(before: seq<Value>, after: seq<Value>, a: seq<Value>, r: seq<Value>, b: seq<Value>,
                            s: seq<Value>, c: seq<Value>)
  {
    before == a + r + b + s + c && after == a + s + b + r + c
  }

  lemma {:induction false} SwappedConcat(rows: seq<Row>, width: nat, c: nat,
                                         p: nat) returns (a: seq<Value>, b: seq<Value>, d: seq<Value>)
    requires Wide(rows, width) && c < p < |rows|
    ensures Exchanged(Concat(rows), Concat(Swapped(rows, c, p)), a, rows[c], b, rows[p], d)
    ensures |a| == c * width && |a + rows[c] + b| == p * width && |rows[c]| == |rows[p]| == width
  {
    var rows' := Swapped(rows, c, p);
    AroundRow(rows, width, p);
    AroundRow(rows', width, p);
    AroundRow(rows[..p], width, c);
    AroundRow(rows'[..p], width, c);
    assert rows[..p][..c] == rows[..c] == rows'[..p][..c] && rows'[p + 1..] == rows[p + 1..];
    assert rows'[..p][c + 1..] == rows[..p][c + 1..];
    a, b, d := Concat(rows[..c]), Concat(rows[..p][c + 1..]), Concat(rows[p + 1..]);
  }

  /** One element of each stretch exchanged. */
  lemma {:induction false} SwapStep(a: seq<Value>, s: seq<Value>, b: seq<Value>, t: seq<Value>, d: seq<Value>, i: nat)
    requires |s| == |t| && i < |s|
    ensures var (x, y) := (|a| + i, |a + s + b| + i);
      var r := a + t[..i] + s[i..] + b + s[..i] + t[i..] + d;
      && x < |r| && y < |r| && r[x := r[y]][y := r[x]] == a + t[..i + 1] + s[i + 1..] + b + s[..i + 1] + t[i + 1..] + d
  {
    assert s[i..] == [s[i]] + s[i + 1..] && t[i..] == [t[i]] + t[i + 1..] && t[..i + 1] == t[..i] + [t[i]] &&
      s[..i + 1] == s[..i] + [s[i]];
  }

  method SwapRows(flat: seq<Value>, width: nat, c: nat, p: nat, ghost rows: seq<Row>) returns (r: seq<Value>)
    requires Wide(rows, width) && flat == Concat(rows) && c < p < |rows|
    ensures r == Concat(Swapped(rows, c, p))
  {
    ghost var a, b, d := SwappedConcat(rows, width, c, p);
    var x, y := c * width, p * width;
    ghost var s, t := rows[c], rows[p];
    r := flat;
    for i := 0 to width
      invariant r == a + t[..i] + s[i..] + b + s[..i] + t[i..] + d
    {
      SwapStep(a, s, b, t, d, i);
      r := r[x + i := r[y + i]][y + i := r[x + i]];
    }
    assert t[..width] == t && s[..width] == s && s[width..] == [] && t[width..] == [];
  }

  // ---------------------------------------------------------------- what is left

  /** The rows below `n` whose indices are not dropped, in order. */
  function Kept(rows: seq<Row>, drop: set<nat>, n: nat): seq<Row>
    requires n <= |rows|
  {
    if n == 0 then [] else Kept(rows, drop, n - 1) + if n - 1 in drop then [] else [rows[n - 1]]
  }

  function Count(rows: seq<Row>): multiset<Row> { multiset(rows) }

  lemma {:induction false} CountAppend(a: seq<Row>, b: seq<Row>)
    ensures Count(a + b) == Count(a) + Count(b)
  {
  }

  lemma {:induction false} Rearranged(a: multiset<Row>, b: multiset<Row>, x: multiset<Row>, last: multiset<Row>)
    requires a == b + x
    ensures a + last == b + last + x
  {
  }

  lemma {:induction false} DropOne(rows: seq<Row>, drop: set<nat>, c: nat, n: nat)
    requires c < n <= |rows| && c !in drop
    ensures Count(Kept(rows, drop, n)) == Count(Kept(rows, drop + {c}, n)) + Count([rows[c]])
  {
    hide Count;
    var a, b := Kept(rows, drop, n - 1), Kept(rows, drop + {c}, n - 1);
    if c == n - 1 {
      DropLater(rows, drop, c, n - 1);
      assert Kept(rows, drop, n) == a + [rows[c]] && Kept(rows, drop + {c}, n) == b + [] == b;
      CountAppend(a, [rows[c]]);
    } else {
      DropOne(rows, drop, c, n - 1);
      var last := if n - 1 in drop then [] else [rows[n - 1]];
      assert Kept(rows, drop, n) == a + last && Kept(rows, drop + {c}, n) == b + last;
      CountAppend(a, last);
      CountAppend(b, last);
      Rearranged(Count(a), Count(b), Count([rows[c]]), Count(last));
    }
  }

  lemma {:induction false} DropLater(rows: seq<Row>, drop: set<nat>, c: nat, n: nat)
    requires n <= |rows| && n <= c
    ensures Kept(rows, drop, n) == Kept(rows, drop + {c}, n)
  {
    if n > 0 {
      DropLater(rows, drop, c, n - 1);
    }
  }

  lemma {:induction false} DropNone(rows: seq<Row>, n: nat)
    requires n <= |rows|
    ensures Kept(rows, {}, n) == rows[..n]
  {
    if n > 0 {
      DropNone(rows, n - 1);
    }
  }

  function Elems(s: seq<nat>): set<nat> { set x | x in s }

  predicate Increasing(s: seq<nat>) { forall i, j :: 0 <= i < j < |s| ==> s[i] < s[j] }

  function Insert(x: nat, s: seq<nat>): seq<nat>
  {
    if s == [] || x < s[0] then [x] + s else if x == s[0] then s else [s[0]] + Insert(x, s[1..])
  }

  /** The indices in order, each once. */
  function SortDedup(s: seq<nat>): seq<nat> { if s == [] then [] else Insert(s[0], SortDedup(s[1..])) }

  lemma {:induction false} InsertIncreasing(x: nat, s: seq<nat>)
    requires Increasing(s)
    ensures Increasing(Insert(x, s)) && forall y :: y in Insert(x, s) <==> y == x || y in s
  {
    if !(s == [] || x <= s[0]) {
      InsertIncreasing(x, s[1..]);
      var t := Insert(x, s[1..]);
      forall j | 0 <= j < |t| ensures s[0] < t[j] {
        assert t[j] in t;
      }
      assert s == [s[0]] + s[1..];
    } else if s != [] && x == s[0] {
      assert x in s;
    }
  }

  lemma {:induction false} SortDedupIncreasing(s: seq<nat>)
    ensures Increasing(SortDedup(s)) && Elems(SortDedup(s)) == Elems(s)
  {
    if s != [] {
      SortDedupIncreasing(s[1..]);
      InsertIncreasing(s[0], SortDedup(s[1..]));
      assert s == [s[0]] + s[1..];
      forall y ensures y in SortDedup(s) <==> y in s {
        assert y in SortDedup(s[1..]) <==> y in Elems(SortDedup(s[1..]));
        assert y in s[1..] <==> y in Elems(s[1..]);
      }
    }
  }

  // ---------------------------------------------------------------- instantiating

  const UNIT: Value := 0

  function Picked(rows: seq<Row>, chosen: seq<nat>): (r: seq<Row>)
    requires forall k :: 0 <= k < |chosen| ==> chosen[k] < |rows|
    ensures |r| == |chosen| && forall k :: 0 <= k < |chosen| ==> r[k] == rows[chosen[k]]
  {
    seq(|chosen|, k requires 0 <= k < |chosen| && chosen[k] < |rows| => rows[chosen[k]])
  }

  /** Rows as they are inserted, with the unit value at the end. */
  function WithUnit(rows: seq<Row>): (r: seq<Row>)
    ensures |r| == |rows| && forall k :: 0 <= k < |rows| ==> r[k] == rows[k] + [UNIT]
  {
    seq(|rows|, k requires 0 <= k < |rows| => rows[k] + [UNIT])
  }

  /** Indices in order leave room for the later ones. */
  lemma {:induction false} RoomAbove(s: seq<nat>, k: nat, n: nat)
    requires Increasing(s) && k < |s| && forall i :: 0 <= i < |s| ==> s[i] < n
    ensures s[k] + (|s| - k) <= n
    decreases |s| - k
  {
    if k + 1 < |s| {
      RoomAbove(s, k + 1, n);
    }
  }

  lemma {:induction false} Suffix(s: seq<nat>, k: nat)
    requires Increasing(s) && k < |s|
    ensures Elems(s[k..]) == Elems(s[k + 1..]) + {s[k]} && s[k] !in Elems(s[k + 1..])
  {
    assert s[k..] == [s[k]] + s[k + 1..];
  }

  function AfterRemove(rows: seq<Row>, c: nat, p: nat): seq<Row>
    requires c <= p < |rows|
  {
    if c == p then rows else Swapped(rows, c, p)
  }

  /** Swapped to the end and cut off, one row is gone. */
  lemma {:induction false} RemoveOne(rows: seq<Row>, c: nat, p: nat)
    requires c <= p < |rows|
    ensures Count(rows[..p + 1]) == Count(AfterRemove(rows, c, p)[..p]) + Count([rows[c]])
  {
    var after := AfterRemove(rows, c, p);
    if c == p {
      assert rows[..p + 1] == after[..p] + [rows[c]];
    } else {
      assert rows[..p + 1] == rows[..c] + [rows[c]] + rows[c + 1..p] + [rows[p]];
      assert after[..p] == rows[..c] + [rows[p]] + rows[c + 1..p];
    }
  }

  lemma {:induction false} CancelOne(a: multiset<Row>, b: multiset<Row>, x: multiset<Row>)
    requires a + x == b + x
    ensures a == b
  {
    assert a + x - x == a && b + x - x == b;
  }

  lemma {:induction false} IndicesBelow(chosen: seq<nat>, cs: seq<nat>, size: nat)
    requires (forall k :: 0 <= k < |chosen| ==> chosen[k] < size) && Elems(cs) == Elems(chosen) && Increasing(cs)
    ensures (forall k :: 0 <= k < |cs| ==> cs[k] < size) && Elems([]) == {} && |cs| <= size
  {
    forall k | 0 <= k < |cs| ensures cs[k] < size {
      assert cs[k] in Elems(cs);
    }
    if cs != [] {
      RoomAbove(cs, 0, size);
    }
  }

  /** Removing the next lower index keeps the rows below it in place and drops its row from the rest. */
  lemma {:induction false} RemoveStep(all: seq<Row>, rows: seq<Row>, cs: seq<nat>, k: nat, p: nat)
    requires |rows| == |all| && Increasing(cs) && k < |cs| && (forall i :: 0 <= i < |cs| ==> cs[i] < |all|)
    requires p == |all| - (|cs| - (k + 1))
    requires forall i :: 0 <= i < (if k + 1 < |cs| then cs[k + 1] else |all|) ==> rows[i] == all[i]
    requires Count(rows[..p]) == Count(Kept(all, Elems(cs[k + 1..]), |all|))
    ensures cs[k] < p && forall i :: 0 <= i < cs[k] ==> AfterRemove(rows, cs[k], p - 1)[i] == all[i]
    ensures Count(AfterRemove(rows, cs[k], p - 1)[..p - 1]) == Count(Kept(all, Elems(cs[k..]), |all|))
  {
    hide Count, Kept, Elems;
    var c := cs[k];
    RoomAbove(cs, k, |all|);
    Suffix(cs, k);
    assert k + 1 < |cs| ==> c < cs[k + 1];
    DropOne(all, Elems(cs[k + 1..]), c, |all|);
    RemoveOne(rows, c, p - 1);
    CancelOne(Count(AfterRemove(rows, c, p - 1)[..p - 1]), Count(Kept(all, Elems(cs[k..]), |all|)), Count([all[c]]));
  }

  class Matches {
    var matches: seq<Value>
    var chosen: seq<nat>
    var allChosen: bool
    const width: nat
    ghost var rows: seq<Row>

    ghost predicate Valid()
      reads this
    {
      width > 0 && Wide(rows, width) && matches == Concat(rows)
    }

    constructor (matches: seq<Value>, width: nat, ghost rows: seq<Row>)
      requires width > 0 && Wide(rows, width) && matches == Concat(rows)
      ensures Valid() && this.matches == matches && this.rows == rows && this.width == width && chosen == []
      ensures !allChosen
    {
      this.matches, this.width, this.rows := matches, width, rows;
      chosen, allChosen := [], false;
    }

    method MatchSize() returns (n: nat)
      requires Valid()
      ensures n == |rows|
    {
      ConcatLength(rows, width);
      Quotient(|rows|, width);
      n := |matches| / width;
    }

    method Choose(idx: nat)
      requires Valid()
      modifies this`chosen
      ensures chosen == old(chosen) + [idx]
    {
      chosen := chosen + [idx];
    }

    method ChooseAll()
      requires Valid()
      modifies this`allChosen
      ensures allChosen
    {
      allChosen := true;
    }

    /** Insert the chosen rows, in the order of the choice and as often as chosen; keep the others. */
    method Instantiate() returns (inserted: seq<Row>, residual: seq<Value>, ghost rest: seq<Row>)
      requires Valid() && (!allChosen ==> forall k :: 0 <= k < |chosen| ==> chosen[k] < |rows|)
      modifies this
      ensures Wide(rest, width) && residual == Concat(rest)
      ensures old(allChosen) ==> inserted == WithUnit(old(rows)) && rest == []
      ensures !old(allChosen) ==> inserted == WithUnit(Picked(old(rows), old(chosen)))
      ensures !old(allChosen) ==> Count(rest) == Count(Kept(old(rows), Elems(old(chosen)), |old(rows)|))
    {
      var size := MatchSize();
      inserted := [];
      if allChosen {
        for i := 0 to size
          modifies {}
          invariant inserted == WithUnit(rows[..i])
        {
          RowAt(rows, width, i);
          inserted := inserted + [matches[i * width..(i + 1) * width] + [UNIT]];
        }
        assert rows[..size] == rows;
        return inserted, [], [];
      }
      for k := 0 to |chosen|
        modifies {}
        invariant inserted == WithUnit(Picked(rows, chosen[..k]))
      {
        var idx := chosen[k];
        RowAt(rows, width, idx);
        inserted := inserted + [matches[idx * width..(idx + 1) * width] + [UNIT]];
      }
      assert chosen[..|chosen|] == chosen;
      residual, rest := SwapRemove(size);
    }

    method SwapRemove(size: nat) returns (residual: seq<Value>, ghost rest: seq<Row>)
      requires Valid() && size == |rows| && forall k :: 0 <= k < |chosen| ==> chosen[k] < |rows|
      modifies this
      ensures Wide(rest, width) && residual == Concat(rest)
      ensures Count(rest) == Count(Kept(old(rows), Elems(old(chosen)), |old(rows)|))
    {
      hide Count, Kept, Elems, Concat;
      SortDedupIncreasing(chosen);
      var cs := SortDedup(chosen);
      IndicesBelow(chosen, cs, size);
      ghost var all := rows;
      DropNone(all, size);
      assert rows[..size] == rows && cs[|cs|..] == [];
      var p := size;
      for k := |cs| downto 0
        invariant Valid() && |rows| == |all| == size && p == size - (|cs| - k)
        invariant forall i :: 0 <= i < (if k < |cs| then cs[k] else size) ==> rows[i] == all[i]
        invariant Count(rows[..p]) == Count(Kept(all, Elems(cs[k..]), size))
      {
        var c := cs[k];
        RemoveStep(all, rows, cs, k, p);
        p := p - 1;
        if c != p {
          var swapped := SwapRows(matches, width, c, p, rows);
          matches, rows := swapped, Swapped(rows, c, p);
        }
      }
      assert cs[0..] == cs;
      rest := rows[..p];
      ConcatAppend(rest, rows[p..]);
      assert rest + rows[p..] == rows;
      ConcatLength(rest, width);
      residual := matches[..p * width];
    }
  }

  // ---------------------------------------------------------------- iterations

  /** The rows below `n` whose indices are taken. */
  function Taken(rows: seq<Row>, take: set<nat>, n: nat): seq<Row>
    requires n <= |rows|
  {
    if n == 0 then [] else Taken(rows, take, n - 1) + if n - 1 in take then [rows[n - 1]] else []
  }

  lemma {:induction false} KeptAndTaken(rows: seq<Row>, take: set<nat>, n: nat)
    requires n <= |rows|
    ensures Count(Kept(rows, take, n)) + Count(Taken(rows, take, n)) == Count(rows[..n])
  {
    hide Count;
    if n == 0 {
      CountAppend([], []);
      assert [] + [] == rows[..0];
    } else {
      var a, b, x := Kept(rows, take, n - 1), Taken(rows, take, n - 1), [rows[n - 1]];
      KeptAndTaken(rows, take, n - 1);
      assert rows[..n] == rows[..n - 1] + x && a + [] == a && b + [] == b;
      CountAppend(rows[..n - 1], x);
      CountAppend(a, x);
      CountAppend(b, x);
    }
  }

  lemma {:induction false} TakenAre(rows: seq<Row>, take: set<nat>, n: nat, row: Row)
    requires n <= |rows|
    ensures row in Taken(rows, take, n) <==> exists i :: 0 <= i < n && i in take && rows[i] == row
  {
    if n > 0 {
      TakenAre(rows, take, n - 1, row);
    }
  }

  /** What a scheduler answers: the matches to fire, and whether to look for new ones next time. */
  datatype Decision = Decision(all: bool, indices: seq<nat>, seek: bool)

  /** A scheduler chooses among the matches it is given. */
  ghost predicate Answers(decide: seq<Value> -> Decision, width: nat)
  {
    forall rows {:trigger Concat(rows)} :: Wide(rows, width) ==>
      var d := decide(Concat(rows)); d.all || forall k :: 0 <= k < |d.indices| ==> d.indices[k] < |rows|
  }

  /** The matches that fire, each once. */
  function Firing(rows: seq<Row>,
                  d: Decision): seq<Row> { if d.all then rows else Taken(rows, Elems(d.indices), |rows|) }

  lemma {:induction false} CountOf(rows: seq<Row>, row: Row)
    ensures Count([]) == multiset{} && Count(rows + [row]) == Count(rows) + multiset{row}
  {
  }

  class RuleInfo {
    const width: nat
    var matches: seq<Value>
    var shouldSeek: bool
    ghost var rows: seq<Row>
    ghost var collected: multiset<Row>
    ghost var fired: multiset<Row>

    /** Every collected match has fired or is still waiting. */
    ghost predicate Valid()
      reads this
    {
      width > 0 && Wide(rows, width) && matches == Concat(rows) && Count(rows) + fired == collected
    }

    constructor (width: nat)
      requires width > 0
      ensures Valid() && this.width == width && shouldSeek && rows == [] && collected == fired == multiset{}
    {
      this.width := width;
      matches, shouldSeek, rows, collected, fired := [], true, [], multiset{}, multiset{};
    }

    method Invoke(args: Row)
      requires Valid() && |args| == width
      modifies this`matches, this`rows, this`collected
      ensures Valid() && rows == old(rows) + [args] && collected == old(collected) + multiset{args}
    {
      ConcatAppend(rows, [args]);
      assert Concat([args]) == args + Concat([args][1..]) && [args][1..] == [] && args + [] == args;
      CountAppend(rows, [args]);
      matches, rows, collected := matches + args, rows + [args], collected + multiset{args};
    }

    method Collect(found: seq<Row>)
      requires Valid() && Wide(found, width)
      modifies this`matches, this`rows, this`collected
      ensures Valid() && rows == old(rows) + found && collected == old(collected) + Count(found)
    {
      hide Count, Concat;
      CountOf([], []);
      for i := 0 to |found|
        invariant Valid() && rows == old(rows) + found[..i] && collected == old(collected) + Count(found[..i])
        invariant fired == old(fired)
      {
        assert found[..i + 1] == found[..i] + [found[i]];
        CountOf(found[..i], found[i]);
        Invoke(found[i]);
      }
      assert found[..|found|] == found;
    }

    /** Fire what the scheduler chooses, keep the rest. */
    method Filter(decide: seq<Value> -> Decision) returns (inserted: seq<Row>)
      requires Valid() && Answers(decide, width)
      modifies this
      ensures Valid() && collected == old(collected)
      ensures var d := decide(Concat(old(rows)));
        shouldSeek == d.seek && fired == old(fired) + Count(Firing(old(rows), d)) && Inserts(inserted, old(rows), d)
    {
      hide Count, Concat, Kept, Elems, Firing, Inserts, Picked, WithUnit, Wide;
      var decision := decide(matches);
      var ms := new Matches(matches, width, rows);
      if decision.all {
        ms.ChooseAll();
      } else {
        for k := 0 to |decision.indices|
          modifies ms
          invariant ms.Valid() && ms.rows == rows && !ms.allChosen && ms.chosen == decision.indices[..k]
        {
          ms.Choose(decision.indices[k]);
        }
        assert decision.indices[..|decision.indices|] == decision.indices;
      }
      ghost var all := rows;
      ghost var rest;
      inserted, matches, rest := ms.Instantiate();
      shouldSeek, rows, fired := decision.seek, rest, fired + Count(Firing(all, decision));
      Conserved(all, decision, rest);
      InsertedAreFiring(all, decision, inserted);
    }

    /** One iteration: collect the new matches if they are sought, then fire what the scheduler chooses. */
    method Step(found: seq<Row>, decide: seq<Value> -> Decision) returns (inserted: seq<Row>)
      requires Valid() && Wide(found, width) && Answers(decide, width)
      modifies this
      ensures Valid()
      ensures var all := old(rows) + if old(shouldSeek) then found else [];
        && shouldSeek == decide(Concat(all)).seek
        && collected == old(collected) + (if old(shouldSeek) then Count(found) else multiset{})
        && fired == old(fired) + Count(Firing(all, decide(Concat(all))))
        && Inserts(inserted, all, decide(Concat(all)))
    {
      hide Count, Concat, Firing, Inserts, Answers;
      if shouldSeek {
        Collect(found);
      }
      assert rows == old(rows) + if old(shouldSeek) then found else [];
      inserted := Filter(decide);
    }
  }

  /** The inserted rows are the firing ones, as often as chosen. */
  ghost predicate Inserts(inserted: seq<Row>, rows: seq<Row>, d: Decision)
  {
    && (forall row :: row in inserted <==> exists r :: r in Firing(rows, d) && row == r + [UNIT])
    && |inserted| == if d.all then |rows| else |d.indices|
  }

  lemma {:induction false} Conserved(rows: seq<Row>, d: Decision, rest: seq<Row>)
    requires if d.all then rest == [] else Count(rest) == Count(Kept(rows, Elems(d.indices), |rows|))
    ensures Count(rest) + Count(Firing(rows, d)) == Count(rows)
  {
    if !d.all {
      KeptAndTaken(rows, Elems(d.indices), |rows|);
      assert rows[..|rows|] == rows;
    }
  }

  lemma {:induction false} InsertedAreFiring(rows: seq<Row>, d: Decision, inserted: seq<Row>)
    requires d.all ==> inserted == WithUnit(rows)
    requires !d.all ==>
      (forall k :: 0 <= k < |d.indices| ==> d.indices[k] < |rows|) && inserted == WithUnit(Picked(rows, d.indices))
    ensures Inserts(inserted, rows, d)
  {
    forall row ensures row in inserted <==> exists r :: r in Firing(rows, d) && row == r + [UNIT] {
      if row in inserted {
        var k :| 0 <= k < |inserted| && inserted[k] == row;
        var i := if d.all then k else d.indices[k];
        if !d.all { TakenAre(rows, Elems(d.indices), |rows|, rows[i]); }
        assert rows[i] in Firing(rows, d) && row == rows[i] + [UNIT];
      }
      if r :| r in Firing(rows, d) && row == r + [UNIT] {
        if d.all {
          var k :| 0 <= k < |rows| && rows[k] == r;
          assert inserted[k] == row;
        } else {
          TakenAre(rows, Elems(d.indices), |rows|, r);
          var i :| 0 <= i < |rows| && i in Elems(d.indices) && rows[i] == r;
          var k :| 0 <= k < |d.indices| && d.indices[k] == i;
          assert inserted[k] == row;
        }
      }
    }
  }
}
