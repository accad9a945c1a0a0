/** Fresh names (src/util.rs): a name is never handed out twice, and the search for one ends. */
module SymbolGens {

  function Digit(d: nat): char requires d < 10 { '0' + d as char }

  function Decimal(n: nat): (s: string)
    ensures s != "" && forall c :: c in s ==> '0' <= c <= '9'
  {
    if n < 10 then [Digit(n)] else Decimal(n / 10) + [Digit(n % 10)]
  }

  /** The value of a numeral. */
  function Number(s: string): int
  {
    if s == "" then 0 else 10 * Number(s[..|s| - 1]) + (s[|s| - 1] as int - '0' as int)
  }

  /** The numeral has the value of the number, and no zero in front. */
  lemma {:induction false} DecimalIs(n: nat)
    ensures Number(Decimal(n)) == n && (n > 0 ==> Decimal(n)[0] != '0')
  {
    var s := Decimal(n);
    if n >= 10 {
      DecimalIs(n / 10);
      assert s[..|s| - 1] == Decimal(n / 10) && s[0] == Decimal(n / 10)[0];
    } else {
      assert s[..0] == "";
    }
  }

  lemma {:induction false} DecimalInjective(m: nat, n: nat)
    requires Decimal(m) == Decimal(n)
    ensures m == n
    decreases m
  {
    var a, b := Decimal(m), Decimal(n);
    assert a[|a| - 1] == Digit(m % 10) && b[|b| - 1] == Digit(n % 10);
    assert (|a| == 1 <==> m < 10) && (|b| == 1 <==> n < 10);
    if m >= 10 {
      assert a[..|a| - 1] == Decimal(m / 10) && b[..|b| - 1] == Decimal(n / 10);
      DecimalInjective(m / 10, n / 10);
    }
  }

  /** The name for a hint and a count; the count of the first use may be left off. */
  function Candidate(reserved: string, hint: string, count: nat, leaveOffZero: bool): string
  {
    reserved + hint + if leaveOffZero && count == 0 then "" else Decimal(count)
  }

  lemma {:induction false} CandidateInjective(reserved: string, hint: string, leaveOffZero: bool, m: nat, n: nat)
    requires Candidate(reserved, hint, m, leaveOffZero) == Candidate(reserved, hint, n, leaveOffZero)
    ensures m == n
  {
    var p := reserved + hint;
    var a, b := if leaveOffZero && m == 0 then "" else Decimal(m), if leaveOffZero && n == 0 then "" else Decimal(n);
    assert (p + a)[|p|..] == a && (p + b)[|p|..] == b;
    if a != "" && b != "" {
      DecimalInjective(m, n);
    }
  }

  /** No name that will be generated is among these: each was generated already or does not start with the prefix. */
  ghost predicate Spared(reserved: string, generated: set<string>, vars: set<string>)
  {
    reserved != "" && forall x :: x in vars ==> x in generated || !(reserved <= x)
  }

  class SymbolGen {
    const reserved: string
    var hintToCount: map<string, nat>
    var generated: set<string>
    var leaveOffZero: bool

    constructor (reserved: string)
      ensures this.reserved == reserved && hintToCount == map[] && generated == {} && leaveOffZero
    {
      this.reserved := reserved;
      hintToCount, generated, leaveOffZero := map[], {}, true;
    }

    predicate IsReserved(symbol: string) { reserved != "" && reserved <= symbol }

    function Count(hint: string): nat
      reads this
    {
      if hint in hintToCount then hintToCount[hint] else 0
    }

    /** The first candidate from the hint's counter on that was never generated; it differs from every name so far. */
    method FreshName(hint: string) returns (name: string)
      modifies this
      ensures name !in old(generated) && generated == old(generated) + {name}
      ensures reserved != "" ==> IsReserved(name)
      ensures leaveOffZero == old(leaveOffZero)
      ensures hint in hintToCount && hintToCount == old(hintToCount)[hint := Count(hint)]
      ensures old(Count(hint)) < Count(hint)
      ensures name == Candidate(reserved, hint, Count(hint) - 1, leaveOffZero)
      ensures forall k :: old(Count(hint)) <= k < Count(hint) - 1 ==>
        Candidate(reserved, hint, k, leaveOffZero) in old(generated)
    {
      var entry := Count(hint);
      hintToCount := hintToCount[hint := entry];
      ghost var tried: set<string> := {};
      while true
        invariant entry == Count(hint) && hint in hintToCount && hintToCount == old(hintToCount)[hint := entry]
        invariant old(Count(hint)) <= entry && leaveOffZero == old(leaveOffZero) && generated == old(generated)
        invariant tried <= generated
        invariant forall k :: old(Count(hint)) <= k < entry ==> Candidate(reserved, hint, k, leaveOffZero) in tried
        invariant forall t :: t in tried ==>
          exists k :: old(Count(hint)) <= k < entry && t == Candidate(reserved, hint, k, leaveOffZero)
        decreases generated - tried
      {
        var count := entry;
        entry := entry + 1;
        hintToCount := hintToCount[hint := entry];
        name := Candidate(reserved, hint, count, leaveOffZero);
        forall k | old(Count(hint)) <= k < count ensures name != Candidate(reserved, hint, k, leaveOffZero) {
          if name == Candidate(reserved, hint, k, leaveOffZero) {
            CandidateInjective(reserved, hint, leaveOffZero, k, count);
          }
        }
        if name !in generated {
          generated := generated + {name};
          return;
        }
        tried := tried + {name};
      }
    }
  }
}
