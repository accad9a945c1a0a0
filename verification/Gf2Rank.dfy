/**
 The rank bound that gates CNOT synthesis (src/pathsum.rs, `rank_m_minus_i_64`).  A row mask is the set
 of its bits, exclusive or is symmetric difference, and a CX adds one row to another.
 */
module Gf2Rank {

  type Row = set<nat>

  function Xor(a: Row, b: Row): Row { (a - b) + (b - a) }

  lemma {:induction false} XorLaws(a: Row, b: Row, c: Row)
    ensures Xor(a, b) == Xor(b, a) && Xor(Xor(a, b), c) == Xor(a, Xor(b, c))
    ensures Xor(a, a) == {} && Xor(a, {}) == a && Xor(Xor(a, b), b) == a
  {
  }

  // ---------------------------------------------------------------- spans and rank

  /** The row is the exclusive or of some of the vectors. */
  predicate InSpan(vs: seq<Row>, v: Row)
  {
    if vs == [] then v == {} else InSpan(vs[1..], v) || InSpan(vs[1..], Xor(v, vs[0]))
  }

  ghost predicate Generates(vs: seq<Row>, rows: seq<Row>)
  {
    forall i :: 0 <= i < |rows| ==> InSpan(vs, rows[i])
  }

  /** The least number of vectors that generate the rows. */
  ghost predicate IsRank(rows: seq<Row>, r: nat)
  {
    && (exists vs: seq<Row> :: |vs| == r && Generates(vs, rows))
    && (forall vs: seq<Row> :: Generates(vs, rows) ==> r <= |vs|)
  }

  lemma {:induction false} SpanZero(vs: seq<Row>)
    ensures InSpan(vs, {})
  {
    if vs != [] {
      SpanZero(vs[1..]);
    }
  }

  lemma {:induction false} SpanMember(vs: seq<Row>, k: nat)
    requires k < |vs|
    ensures InSpan(vs, vs[k])
  {
    if k == 0 {
      XorLaws(vs[0], vs[0], {});
      SpanZero(vs[1..]);
    } else {
      SpanMember(vs[1..], k - 1);
    }
  }

  lemma {:induction false} SpanXor(vs: seq<Row>, a: Row, b: Row)
    requires InSpan(vs, a) && InSpan(vs, b)
    ensures InSpan(vs, Xor(a, b))
  {
    if vs != [] {
      var h, t := vs[0], vs[1..];
      XorRearranged(a, b, h);
      if InSpan(t, a) {
        if InSpan(t, b) {
          SpanXor(t, a, b);
        } else {
          SpanXor(t, a, Xor(b, h));
        }
      } else if InSpan(t, b) {
        SpanXor(t, Xor(a, h), b);
      } else {
        SpanXor(t, Xor(a, h), Xor(b, h));
      }
    }
  }

  lemma {:induction false} XorRearranged(a: Row, b: Row, h: Row)
    ensures Xor(a, Xor(b, h)) == Xor(Xor(a, b), h) == Xor(Xor(a, h), b)
    ensures Xor(Xor(a, h), Xor(b, h)) == Xor(a, b)
  {
  }

  /** What the generators of the generators generate. */
  lemma {:induction false} SpanTransitive(vs: seq<Row>, ws: seq<Row>, v: Row)
    requires Generates(vs, ws) && InSpan(ws, v)
    ensures InSpan(vs, v)
  {
    if ws == [] {
      SpanZero(vs);
    } else {
      assert forall i :: 0 <= i < |ws[1..]| ==> InSpan(vs, ws[1..][i]) by {
        assert forall i :: 0 <= i < |ws[1..]| ==> ws[1..][i] == ws[i + 1];
      }
      if InSpan(ws[1..], v) {
        SpanTransitive(vs, ws[1..], v);
      } else {
        SpanTransitive(vs, ws[1..], Xor(v, ws[0]));
        SpanXor(vs, Xor(v, ws[0]), ws[0]);
        XorLaws(v, ws[0], {});
      }
    }
  }

  // ---------------------------------------------------------------- independent rows need as many generators

  /** Each row has a column that no other of the rows has. */
  ghost predicate Pivots(rows: seq<Row>, ps: seq<nat>)
  {
    |ps| == |rows| && forall i, j :: 0 <= i < |rows| && 0 <= j < |rows| ==> (ps[i] in rows[j] <==> i == j)
  }

  function Without<T>(s: seq<T>, j: nat): (r: seq<T>)
    requires j < |s|
    ensures |r| == |s| - 1 && forall i :: 0 <= i < |r| ==> r[i] == s[if i < j then i else i + 1]
  {
    s[..j] + s[j + 1..]
  }

  /** The exchange argument: one generator is used up by one row. */
  lemma {:induction false} PivotRowsNeed(rows: seq<Row>, ps: seq<nat>, vs: seq<Row>)
    requires Pivots(rows, ps) && Generates(vs, rows)
    ensures |rows| <= |vs|
    decreases |vs|
  {
    assert rows != [] ==> InSpan(vs, rows[0]) && ps[0] in rows[0];
    if vs == [] {
    } else if j :| 0 <= j < |rows| && !InSpan(vs[1..], rows[j]) {
      var h, t := vs[0], vs[1..];
      var rest := seq(|rows| - 1, i requires 0 <= i < |rows| - 1 =>
        var row := rows[if i < j then i else i + 1];
        if InSpan(t, row) then row else Xor(row, rows[j]));
      forall i | 0 <= i < |rest|
        ensures InSpan(t, rest[i])
      {
        var row := rows[if i < j then i else i + 1];
        assert InSpan(vs, row) && InSpan(vs, rows[j]);
        if !InSpan(t, row) {
          SpanXor(t, Xor(row, h), Xor(rows[j], h));
          XorRearranged(row, rows[j], h);
        }
      }
      forall a, b | 0 <= a < |rest| && 0 <= b < |rest|
        ensures Without(ps, j)[a] in rest[b] <==> a == b
      {
        var a', b' := if a < j then a else a + 1, if b < j then b else b + 1;
        assert (ps[a'] in rows[b'] <==> a' == b') && (ps[a'] in rows[j] <==> a' == j);
        assert Without(ps, j)[a] == ps[a'];
        assert rest[b] == rows[b'] || rest[b] == Xor(rows[b'], rows[j]);
      }
      PivotRowsNeed(rest, Without(ps, j), t);
    } else {
      PivotRowsNeed(rows, ps, vs[1..]);
    }
  }

  // ---------------------------------------------------------------- elimination

  ghost predicate SameSpan(a: seq<Row>, b: seq<Row>) { Generates(a, b) && Generates(b, a) }

  lemma {:induction false} SameSpanTrans(a: seq<Row>, b: seq<Row>, c: seq<Row>)
    requires SameSpan(a, b) && SameSpan(b, c)
    ensures SameSpan(a, c)
  {
    forall i | 0 <= i < |c| ensures InSpan(a, c[i]) {
      SpanTransitive(a, b, c[i]);
    }
    forall i | 0 <= i < |a| ensures InSpan(c, a[i]) {
      SpanTransitive(c, b, a[i]);
    }
  }

  lemma {:induction false} SpanSelf(a: seq<Row>)
    ensures SameSpan(a, a)
  {
    forall i | 0 <= i < |a| ensures InSpan(a, a[i]) {
      SpanMember(a, i);
    }
  }

  lemma {:induction false} SwapSpan(a: seq<Row>, i: nat, j: nat)
    requires i < |a| && j < |a|
    ensures SameSpan(a, a[i := a[j]][j := a[i]])
  {
    var b := a[i := a[j]][j := a[i]];
    forall k | 0 <= k < |a| ensures InSpan(a, b[k]) && InSpan(b, a[k]) {
      SpanMember(a, if k == i then j else if k == j then i else k);
      SpanMember(b, if k == i then j else if k == j then i else k);
    }
  }

  lemma {:induction false} AddSpan(a: seq<Row>, r: nat, p: nat)
    requires r < |a| && p < |a| && r != p
    ensures SameSpan(a, a[r := Xor(a[r], a[p])])
  {
    var b := a[r := Xor(a[r], a[p])];
    forall k | 0 <= k < |a| ensures InSpan(a, b[k]) && InSpan(b, a[k]) {
      SpanMember(a, k);
      SpanMember(b, k);
      if k == r {
        SpanMember(a, p);
        SpanXor(a, a[r], a[p]);
        SpanMember(b, p);
        SpanXor(b, b[r], b[p]);
        XorLaws(a[r], a[p], {});
      }
    }
  }

  /** The first `|ps|` rows are pivoted by `ps`, no other row has a pivot column or any column below `c`. */
  ghost predicate Eliminated(m: seq<Row>, ps: seq<nat>, c: nat)
  {
    && |ps| <= |m| && (forall i :: 0 <= i < |ps| ==> ps[i] < c)
    && (forall i, r :: 0 <= i < |ps| && 0 <= r < |m| ==> (ps[i] in m[r] <==> r == i))
    && (forall r, k :: |ps| <= r < |m| && 0 <= k < c ==> k !in m[r])
  }

  ghost predicate Within(m: seq<Row>, n: nat) { forall r, k :: 0 <= r < |m| && k in m[r] ==> k < n }

  /** Clear column `c` from every row but the pivot row. */
  method ClearColumn(m: seq<Row>, ghost ps: seq<nat>, c: nat, rank: nat, ghost n: nat) returns (m': seq<Row>)
    requires rank == |ps| < |m| && Eliminated(m, ps, c) && c in m[rank] && Within(m, n)
    ensures |m'| == |m| && SameSpan(m, m') && Within(m', n) && Eliminated(m', ps + [c], c + 1)
  {
    m' := m;
    SpanSelf(m);
    for r := 0 to |m|
      invariant |m'| == |m| && SameSpan(m, m') && Within(m', n)
      invariant Eliminated(m', ps, c) && m'[rank] == m[rank]
      invariant forall q :: 0 <= q < r && q != rank ==> c !in m'[q]
    {
      if r != rank && c in m'[r] {
        AddSpan(m', r, rank);
        SameSpanTrans(m, m', m'[r := Xor(m'[r], m'[rank])]);
        m' := m'[r := Xor(m'[r], m'[rank])];
      }
    }
  }

  method FindPivot(m: seq<Row>, c: nat, rank: nat) returns (pivot: nat)
    requires rank <= |m|
    ensures rank <= pivot <= |m| && (pivot < |m| ==> c in m[pivot])
    ensures forall r :: rank <= r < pivot ==> c !in m[r]
  {
    pivot := rank;
    while pivot < |m| && c !in m[pivot]
      invariant rank <= pivot <= |m| && forall r :: rank <= r < pivot ==> c !in m[r]
    {
      pivot := pivot + 1;
    }
  }

  function Identity(n: nat): seq<Row> { seq(n, i requires 0 <= i < n => {i}) }

  /** The rows of the matrix, each with its own bit flipped. */
  function MinusIdentity(masks: seq<Row>): (rows: seq<Row>)
    ensures |rows| == |masks|
  {
    seq(|masks|, i requires 0 <= i < |masks| => Xor(masks[i], {i}))
  }

  /** The elimination loop returns the rank of the matrix minus the identity. */
  method RankMMinusI(masks: seq<Row>) returns (rank: nat)
    requires Within(masks, |masks|)
    ensures IsRank(MinusIdentity(masks), rank)
  {
    var n := |masks|;
    var m := MinusIdentity(masks);
    SpanSelf(m);
    rank := 0;
    ghost var ps: seq<nat> := [];
    for c := 0 to n
      invariant |m| == n && rank == |ps| && Eliminated(m, ps, c) && Within(m, n)
      invariant SameSpan(MinusIdentity(masks), m)
    {
      var pivot := FindPivot(m, c, rank);
      if pivot < n {
        ghost var before := m;
        SwapSpan(m, rank, pivot);
        m := m[rank := m[pivot]][pivot := m[rank]];
        SameSpanTrans(MinusIdentity(masks), before, m);
        before := m;
        m := ClearColumn(m, ps, c, rank, n);
        SameSpanTrans(MinusIdentity(masks), before, m);
        ps := ps + [c];
        rank := rank + 1;
      }
    }
    EliminatedRank(MinusIdentity(masks), m, ps, n);
  }

  lemma {:induction false} EliminatedRank(rows: seq<Row>, m: seq<Row>, ps: seq<nat>, n: nat)
    requires Eliminated(m, ps, n) && Within(m, n) && SameSpan(rows, m)
    ensures IsRank(rows, |ps|)
  {
    var basis := m[..|ps|];
    forall i | 0 <= i < |m| ensures InSpan(basis, m[i]) {
      if i < |ps| {
        SpanMember(basis, i);
      } else {
        assert m[i] == {};
        SpanZero(basis);
      }
    }
    forall i | 0 <= i < |rows| ensures InSpan(basis, rows[i]) {
      SpanTransitive(basis, m, rows[i]);
    }
    assert |basis| == |ps| && Generates(basis, rows);
    forall vs: seq<Row> | Generates(vs, rows)
      ensures |ps| <= |vs|
    {
      forall i | 0 <= i < |basis| ensures InSpan(vs, basis[i]) {
        SpanTransitive(vs, rows, m[i]);
      }
      PivotRowsNeed(basis, ps, vs);
    }
  }

  lemma {:induction false} RankIsUnique(rows: seq<Row>, r: nat, s: nat)
    requires IsRank(rows, r) && IsRank(rows, s)
    ensures r == s
  {
  }

  // ---------------------------------------------------------------- CX circuits

  datatype Cx = Cx(control: nat, target: nat)

  /** A CX with equal or missing wires does nothing. */
  function ApplyCx(rows: seq<Row>, g: Cx): (r: seq<Row>)
    ensures |r| == |rows|
  {
    if g.control == g.target || g.control >= |rows| || g.target >= |rows| then rows
    else rows[g.target := Xor(rows[g.target], rows[g.control])]
  }

  function ApplyAll(rows: seq<Row>, gates: seq<Cx>): (r: seq<Row>)
    ensures |r| == |rows|
  {
    if gates == [] then rows else ApplyCx(ApplyAll(rows, gates[..|gates| - 1]), gates[|gates| - 1])
  }

  // ---------------------------------------------------------------- what the masks mean on bits

  /** A CX on the wires' bits. */
  function Flip(x: seq<bool>, g: Cx): (y: seq<bool>)
    ensures |y| == |x|
  {
    if g.control == g.target || g.control >= |x| || g.target >= |x| then x
    else x[g.target := x[g.target] != x[g.control]]
  }

  function FlipAll(x: seq<bool>, gates: seq<Cx>): (y: seq<bool>)
    ensures |y| == |x|
  {
    if gates == [] then x else Flip(FlipAll(x, gates[..|gates| - 1]), gates[|gates| - 1])
  }

  /** The exclusive or of the bits that the mask selects. */
  predicate Parity(x: seq<bool>, row: Row)
  {
    x != [] && Parity(x[..|x| - 1], row) != (|x| - 1 in row && x[|x| - 1])
  }

  lemma {:induction false} ParityXor(x: seq<bool>, a: Row, b: Row)
    ensures Parity(x, Xor(a, b)) == (Parity(x, a) != Parity(x, b))
  {
    if x != [] {
      ParityXor(x[..|x| - 1], a, b);
      assert |x| - 1 in Xor(a, b) <==> (|x| - 1 in a) != (|x| - 1 in b);
    }
  }

  lemma {:induction false} ParityOfOne(x: seq<bool>, w: nat)
    ensures Parity(x, {w}) == (w < |x| && x[w])
  {
    if x != [] {
      ParityOfOne(x[..|x| - 1], w);
    }
  }

  /** After the gates, each wire holds the parity of the input bits in its mask. */
  lemma {:induction false} MasksAreParities(x: seq<bool>, gates: seq<Cx>, w: nat)
    requires w < |x|
    ensures FlipAll(x, gates)[w] == Parity(x, ApplyAll(Identity(|x|), gates)[w])
    decreases |gates|
  {
    if gates == [] {
      ParityOfOne(x, w);
    } else {
      var rest, g := gates[..|gates| - 1], gates[|gates| - 1];
      MasksAreParities(x, rest, w);
      if g.control < |x| {
        MasksAreParities(x, rest, g.control);
        var before := ApplyAll(Identity(|x|), rest);
        ParityXor(x, before[w], before[g.control]);
      }
    }
  }

  /** The row each gate adds. */
  function Added(rows: seq<Row>, gates: seq<Cx>): (vs: seq<Row>)
    ensures |vs| == |gates|
  {
    if gates == [] then []
    else
      var before, g := ApplyAll(rows, gates[..|gates| - 1]), gates[|gates| - 1];
      [if g.control < |rows| then before[g.control] else {}] + Added(rows, gates[..|gates| - 1])
  }

  /** A circuit of k gates changes the identity by rows generated by the k added rows. */
  lemma {:induction false} AddedGenerate(n: nat, gates: seq<Cx>)
    ensures Generates(Added(Identity(n), gates), MinusIdentity(ApplyAll(Identity(n), gates)))
  {
    if gates == [] {
      forall i | 0 <= i < n ensures MinusIdentity(Identity(n))[i] == {} {
      }
    } else {
      var rest, g := gates[..|gates| - 1], gates[|gates| - 1];
      AddedGenerate(n, rest);
      var before, after := ApplyAll(Identity(n), rest), ApplyAll(Identity(n), gates);
      var vs := Added(Identity(n), gates);
      assert vs[1..] == Added(Identity(n), rest);
      forall i | 0 <= i < n
        ensures InSpan(vs, MinusIdentity(after)[i])
      {
        assert InSpan(vs[1..], MinusIdentity(before)[i]);
        if after[i] != before[i] {
          XorRearranged(before[i], vs[0], {i});
          XorLaws(MinusIdentity(before)[i], vs[0], {});
        }
      }
    }
  }

  /** Any CX circuit for the matrix has at least rank-many gates. */
  lemma {:induction false} RankBoundsGates(masks: seq<Row>, r: nat, gates: seq<Cx>)
    requires IsRank(MinusIdentity(masks), r) && ApplyAll(Identity(|masks|), gates) == masks
    ensures r <= |gates|
  {
    AddedGenerate(|masks|, gates);
  }

  lemma {:induction false} ZeroRankIsIdentity(masks: seq<Row>, r: nat)
    requires IsRank(MinusIdentity(masks), r)
    ensures r == 0 <==> masks == Identity(|masks|)
  {
    if masks == Identity(|masks|) {
      assert Generates([], MinusIdentity(masks)) by {
        forall i | 0 <= i < |masks| ensures MinusIdentity(masks)[i] == {} {
        }
      }
    }
    if r == 0 {
      var vs: seq<Row> :| |vs| == 0 && Generates(vs, MinusIdentity(masks));
      forall i | 0 <= i < |masks| ensures masks[i] == {i} {
        assert InSpan(vs, MinusIdentity(masks)[i]);
        XorLaws(masks[i], {i}, {});
      }
    }
  }

  /**
   The tests before PMH synthesis: how many gates the block has, overflow, purity, and the rank bound.  `terms` and
   `parities` count the terms of the discrete and the continuous phase polynomial.
   */
  method PmhRefuses(masks: seq<Row>, gateCount: int, overflowed: bool, terms: nat, parities: nat, hasOffsets: bool)
    returns (refuses: bool)
    ensures gateCount <= 2 || overflowed || terms > 0 || parities > 0 || !Within(masks, |masks|) ==> refuses
    ensures gateCount > 2 && !overflowed && terms == 0 && parities == 0 && Within(masks, |masks|) ==>
      if masks == Identity(|masks|) then refuses <==> !hasOffsets
      else refuses <==> forall vs: seq<Row> :: Generates(vs, MinusIdentity(masks)) ==> gateCount <= |vs|
    ensures refuses && gateCount > 2 && !overflowed && terms == 0 && parities == 0 && Within(masks, |masks|) &&
            masks != Identity(|masks|) ==>
      forall gates :: ApplyAll(Identity(|masks|), gates) == masks ==> gateCount <= |gates|
  {
    if gateCount <= 2 {
      return true;
    }
    if overflowed {
      return true;
    }
    if terms > 0 || parities > 0 {
      return true;
    }
    for i := 0 to |masks|
      invariant Within(masks[..i], |masks|)
    {
      if !(forall k :: k in masks[i] ==> k < |masks|) {
        assert !Within(masks, |masks|);
        return true;
      }
    }
    var rank := RankMMinusI(masks);
    ZeroRankIsIdentity(masks, rank);
    if rank == 0 && !hasOffsets {
      return true;
    }
    refuses := rank > 0 && gateCount <= rank;
    forall gates | ApplyAll(Identity(|masks|), gates) == masks
      ensures rank <= |gates|
    {
      RankBoundsGates(masks, rank, gates);
    }
  }
}
