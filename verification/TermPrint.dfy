/**
 Printing a term with an explicit stack and cached ranges of the output (src/termdag.rs, `to_string`):
 the result is the recursive S-expression of the term.
 */
module TermPrint {
  import opened Ast
  import opened Options
  import opened TermDags

  // ---------------------------------------------------------------- the recursive printer

  function Print(e: Expr): string
    decreases e, 1
  {
    match e
    case ELit(lit) => LitText(lit)
    case EVar(name) => name
    case ECall(head, args) => "(" + head + PrintArgs(args) + ")"
  }

  function PrintArgs(es: seq<Expr>): string
    decreases es, 0
  {
    if es == [] then "" else " " + Print(es[0]) + PrintArgs(es[1..])
  }

  /** The number of turns the loop needs for a term. */
  function Turns(e: Expr): nat
    decreases e, 1
  {
    match e
    case ECall(_, args) => 2 + TurnsAll(args)
    case _ => 1
  }

  function TurnsAll(es: seq<Expr>): nat
    decreases es, 0
  {
    if es == [] then 0 else Turns(es[0]) + TurnsAll(es[1..])
  }

  // ---------------------------------------------------------------- texts and turns by id

  function ArgsText(texts: seq<string>, ids: seq<TermId>): string
  {
    if ids == [] then "" else " " + At(texts, ids[0]) + ArgsText(texts, ids[1..])
  }

  function At(texts: seq<string>, id: TermId): string { if id < |texts| then texts[id] else "" }

  function TurnsOf(turns: seq<nat>, ids: seq<TermId>): nat
  {
    if ids == [] then 0 else (if ids[0] < |turns| then turns[ids[0]] else 0) + TurnsOf(turns, ids[1..])
  }

  function TermText(texts: seq<string>, t: Term): string
  {
    match t
    case TLit(lit) => LitText(lit)
    case TVar(name) => name
    case TApp(head, args) => "(" + head + ArgsText(texts, args) + ")"
  }

  /** The tables hold the text and the number of turns of every term. */
  ghost predicate Tables(nodes: seq<Term>, texts: seq<string>, turns: seq<nat>)
  {
    && |texts| == |nodes| == |turns|
    && (forall i :: 0 <= i < |nodes| ==> texts[i] == TermText(texts, nodes[i]))
    && (forall i :: 0 <= i < |nodes| ==> turns[i] == if nodes[i].TApp? then 2 + TurnsOf(turns, nodes[i].args) else 1)
    && (forall i :: 0 <= i < |nodes| && nodes[i].TApp? ==> AllBelow(nodes[i].args, i))
  }

  lemma {:induction false} ArgsAgree(nodes: seq<Term>, texts: seq<string>, turns: seq<nat>, ids: seq<TermId>,
                                     bound: nat)
    requires Ordered(nodes) && AllBelow(ids, bound) && bound <= |nodes| == |texts| == |turns|
    requires forall i :: 0 <= i < |nodes| ==>
      texts[i] == Print(TermToExpr(nodes, i)) && turns[i] == Turns(TermToExpr(nodes, i))
    ensures ArgsText(texts, ids) == PrintArgs(TermsToExprs(nodes, ids, bound))
    ensures TurnsOf(turns, ids) == TurnsAll(TermsToExprs(nodes, ids, bound))
  {
    if ids != [] {
      ArgsAgree(nodes, texts, turns, ids[1..], bound);
      var es := TermsToExprs(nodes, ids, bound);
      assert es[0] == TermToExpr(nodes, ids[0]) && es[1..] == TermsToExprs(nodes, ids[1..], bound);
    }
  }

  lemma {:induction false} TablesExist(nodes: seq<Term>) returns (texts: seq<string>, turns: seq<nat>)
    requires Ordered(nodes)
    ensures Tables(nodes, texts, turns)
    ensures forall i :: 0 <= i < |nodes| ==> texts[i] == Print(TermToExpr(nodes, i))
  {
    texts := seq(|nodes|, i requires 0 <= i < |nodes| => Print(TermToExpr(nodes, i)));
    turns := seq(|nodes|, i requires 0 <= i < |nodes| => Turns(TermToExpr(nodes, i)));
    forall i | 0 <= i < |nodes|
      ensures texts[i] == TermText(texts, nodes[i])
      ensures turns[i] == if nodes[i].TApp? then 2 + TurnsOf(turns, nodes[i].args) else 1
    {
      if nodes[i].TApp? {
        ArgsAgree(nodes, texts, turns, nodes[i].args, i);
      }
    }
  }

  // ---------------------------------------------------------------- the stack

  /** A term to print, or with `start` the end of a call whose text began there. */
  datatype Entry = Entry(id: TermId, spaceBefore: bool, start: Option<nat>)

  function EntryText(texts: seq<string>, e: Entry): string
  {
    if e.start.Some? then ")" else (if e.spaceBefore then " " else "") + At(texts, e.id)
  }

  /** What is still to be printed; the last entry comes first. */
  function StackText(texts: seq<string>, stack: seq<Entry>): string
  {
    if stack == [] then "" else EntryText(texts, stack[|stack| - 1]) + StackText(texts, stack[..|stack| - 1])
  }

  function StackTurns(turns: seq<nat>, stack: seq<Entry>): nat
  {
    if stack == [] then 0
    else
      var top := stack[|stack| - 1];
      (if top.start.Some? then 1 else if top.id < |turns| then turns[top.id] else 0) +
        StackTurns(turns, stack[..|stack| - 1])
  }

  lemma {:induction false} Appended(texts: seq<string>, turns: seq<nat>, a: seq<Entry>, b: seq<Entry>)
    ensures StackText(texts, a + b) == StackText(texts, b) + StackText(texts, a)
    ensures StackTurns(turns, a + b) == StackTurns(turns, b) + StackTurns(turns, a)
  {
    hide EntryText;
    if b == [] {
      assert a + b == a;
    } else {
      assert (a + b)[..|a + b| - 1] == a + b[..|b| - 1];
      Appended(texts, turns, a, b[..|b| - 1]);
    }
  }

  type Ranges = map<TermId, (nat, nat)>

  /** Cached ranges hold the texts of their terms. */
  ghost predicate RangesOk(texts: seq<string>, result: string, ranges: Ranges)
  {
    forall id :: id in ranges ==>
      ranges[id].0 <= ranges[id].1 <= |result| && result[ranges[id].0..ranges[id].1] == At(texts, id)
  }

  /** An open call is not cached, lies below parts of it only, and the entries above it complete its text. */
  ghost predicate OpenCall(texts: seq<string>, result: string, stack: seq<Entry>, ranges: Ranges, k: nat)
    requires k < |stack| && stack[k].start.Some?
  {
    var e := stack[k];
    && e.id !in ranges && e.start.value <= |result|
    && (forall j :: k < j < |stack| ==> stack[j].id < e.id)
    && result[e.start.value..] + StackText(texts, stack[k + 1..]) + ")" == At(texts, e.id)
  }

  /** The entries are terms of the DAG, and the open ones are calls. */
  ghost predicate Shaped(nodes: seq<Term>, stack: seq<Entry>)
  {
    forall k :: 0 <= k < |stack| ==>
      stack[k].id < |nodes| && (stack[k].start.Some? ==> nodes[stack[k].id].TApp? && !stack[k].spaceBefore)
  }

  ghost predicate Good(nodes: seq<Term>, texts: seq<string>, result: string, stack: seq<Entry>, ranges: Ranges,
                       text: string)
  {
    && Shaped(nodes, stack) && RangesOk(texts, result, ranges)
    && result + StackText(texts, stack) == text
    && forall k :: 0 <= k < |stack| && stack[k].start.Some? ==> OpenCall(texts, result, stack, ranges, k)
  }

  lemma {:induction false} Assoc(a: string, b: string, c: string, d: string)
    ensures (a + b) + (c + d) == a + ((b + c) + d)
  {
  }

  lemma {:induction false} Suffix(a: string, b: string, c: string)
    ensures (a + b) + c == a + (b + c) && ((a + b) + c)[|a + b|..] == c
  {
  }

  /** Printing `d` and pushing `pushed` in place of the last entry leaves the text below unchanged. */
  lemma {:induction false} ReplaceTop(texts: seq<string>, result: string, mid: seq<Entry>, top: Entry, d: string,
                                      pushed: seq<Entry>)
    requires d + StackText(texts, pushed) == EntryText(texts, top)
    ensures (result + d) + StackText(texts, mid + pushed) == result + StackText(texts, mid + [top])
  {
    Appended(texts, [], mid, pushed);
    Assoc(result, d, StackText(texts, pushed), StackText(texts, mid));
    assert (mid + [top])[..|mid|] == mid;
  }

  lemma {:induction false} ReplaceOpen(texts: seq<string>, result: string, base: seq<Entry>, top: Entry, ranges: Ranges,
                                       d: string, pushed: seq<Entry>, k: nat)
    requires k < |base| && base[k].start.Some? && OpenCall(texts, result, base + [top], ranges, k)
    requires d + StackText(texts, pushed) == EntryText(texts, top)
    requires forall j :: 0 <= j < |pushed| ==> pushed[j].id <= top.id
    ensures OpenCall(texts, result + d, base + pushed, ranges, k)
  {
    hide StackText, EntryText, At;
    var s, mid := base[k].start.value, base[k + 1..];
    assert (base + [top])[k] == base[k] == (base + pushed)[k];
    assert (base + [top])[k + 1..] == mid + [top] && (base + pushed)[k + 1..] == mid + pushed;
    assert (result + d)[s..] == result[s..] + d;
    ReplaceTop(texts, result[s..], mid, top, d, pushed);
    forall j | k < j < |base + pushed| ensures (base + pushed)[j].id < base[k].id {
      if j >= |base| {
        assert (base + [top])[|base|] == top;
      } else {
        assert (base + [top])[j] == base[j];
      }
    }
  }

  lemma {:induction false} CacheOther(texts: seq<string>, result: string, stack: seq<Entry>, ranges: Ranges, k: nat,
                                      id: TermId, range: (nat, nat))
    requires k < |stack| && stack[k].start.Some? && OpenCall(texts, result, stack, ranges, k) && stack[k].id != id
    ensures OpenCall(texts, result, stack, ranges[id := range], k)
  {
  }

  /** An open call is another term than the entries above it. */
  lemma {:induction false} OpenIsOther(texts: seq<string>, result: string, base: seq<Entry>, top: Entry, ranges: Ranges,
                                       k: nat)
    requires k < |base| && base[k].start.Some? && OpenCall(texts, result, base + [top], ranges, k)
    ensures base[k].id != top.id
  {
    assert (base + [top])[|base|] == top && (base + [top])[k] == base[k];
  }

  /** What is good for the longer stack and holds of the entries below the top. */
  lemma {:induction false} BelowTop(nodes: seq<Term>, texts: seq<string>, result: string, base: seq<Entry>, top: Entry,
                                    ranges: Ranges, text: string)
    requires Good(nodes, texts, result, base + [top], ranges, text)
    ensures Shaped(nodes, base + [top]) && Shaped(nodes, base) && Shaped(nodes, [top])
    ensures forall k :: 0 <= k < |base| && base[k].start.Some? ==>
      OpenCall(texts, result, base + [top], ranges, k) && base[k].id != top.id
    ensures top.start.Some? ==> OpenCall(texts, result, base + [top], ranges, |base|)
  {
    hide OpenCall;
    var stack := base + [top];
    assert stack[|base|] == top;
    assert forall k :: 0 <= k < |base| ==> stack[k] == base[k];
    forall k | 0 <= k < |base| && base[k].start.Some?
      ensures OpenCall(texts, result, stack, ranges, k) && base[k].id != top.id
    {
      OpenIsOther(texts, result, base, top, ranges, k);
    }
  }

  /** All that printing `d` and pushing `pushed` in place of the last entry keeps. */
  lemma {:induction false} Replace(nodes: seq<Term>, texts: seq<string>, result: string, base: seq<Entry>, top: Entry,
                                   ranges: Ranges, text: string, d: string, pushed: seq<Entry>)
    requires Good(nodes, texts, result, base + [top], ranges, text)
    requires d + StackText(texts, pushed) == EntryText(texts, top)
    requires forall j :: 0 <= j < |pushed| ==> pushed[j].id <= top.id
    ensures RangesOk(texts, result + d, ranges) && (result + d) + StackText(texts, base + pushed) == text
    ensures forall k :: 0 <= k < |base| && base[k].start.Some? ==> OpenCall(texts, result + d, base + pushed, ranges, k)
  {
    hide StackText, EntryText, At, OpenCall, Shaped;
    ReplaceTop(texts, result, base, top, d, pushed);
    forall k | 0 <= k < |base| && base[k].start.Some?
      ensures OpenCall(texts, result + d, base + pushed, ranges, k)
    {
      assert (base + [top])[k] == base[k];
      ReplaceOpen(texts, result, base, top, ranges, d, pushed, k);
    }
    forall id | id in ranges
      ensures (result + d)[ranges[id].0..ranges[id].1] == At(texts, id)
    {
      assert (result + d)[ranges[id].0..ranges[id].1] == result[ranges[id].0..ranges[id].1];
    }
  }

  // ---------------------------------------------------------------- the printer

  /** One more child on top. */
  lemma {:induction false} PushStep(texts: seq<string>, turns: seq<nat>, pushed: seq<Entry>, children: seq<TermId>,
                                    i: nat)
    requires i < |children|
    requires StackText(texts, pushed) == ArgsText(texts, children[i + 1..])
    requires StackTurns(turns, pushed) == TurnsOf(turns, children[i + 1..])
    ensures var pushed' := pushed + [Entry(children[i], true, None)];
      StackText(texts, pushed') == ArgsText(texts, children[i..]) &&
        StackTurns(turns, pushed') == TurnsOf(turns, children[i..])
  {
    assert children[i..][0] == children[i] && children[i..][1..] == children[i + 1..];
    assert (pushed + [Entry(children[i], true, None)])[..|pushed|] == pushed;
  }

  lemma {:induction false} NothingPushed(texts: seq<string>, turns: seq<nat>, children: seq<TermId>)
    ensures StackText(texts, []) == ArgsText(texts, children[|children|..])
    ensures StackTurns(turns, []) == TurnsOf(turns, children[|children|..])
  {
  }

  /** Push the children so that the first one is on top. */
  method PushChildren(base: seq<Entry>, children: seq<TermId>, ghost texts: seq<string>, ghost turns: seq<nat>)
    returns (stack: seq<Entry>, ghost pushed: seq<Entry>)
    ensures stack == base + pushed && StackText(texts, pushed) == ArgsText(texts, children)
    ensures StackTurns(turns, pushed) == TurnsOf(turns, children)
    ensures forall k :: 0 <= k < |pushed| ==> pushed[k].id in children && pushed[k].start.None?
  {
    hide StackText, StackTurns, ArgsText, TurnsOf;
    NothingPushed(texts, turns, children);
    stack, pushed := base, [];
    for i := |children| downto 0
      invariant stack == base + pushed && StackText(texts, pushed) == ArgsText(texts, children[i..])
      invariant StackTurns(turns, pushed) == TurnsOf(turns, children[i..])
      invariant forall k :: 0 <= k < |pushed| ==> pushed[k].id in children && pushed[k].start.None?
    {
      var e := Entry(children[i], true, None);
      PushStep(texts, turns, pushed, children, i);
      stack, pushed := stack + [e], pushed + [e];
    }
    assert children[0..] == children;
  }

  lemma {:induction false} CacheRange(texts: seq<string>, result: string, ranges: Ranges, id: TermId, from: nat)
    requires RangesOk(texts, result, ranges) && from <= |result| && result[from..] == At(texts, id)
    ensures RangesOk(texts, result, ranges[id := (from, |result|)])
  {
    assert result[from..|result|] == result[from..];
  }

  /** The top of the stack is printed in full and popped. */
  lemma {:induction false} Pop(nodes: seq<Term>, texts: seq<string>, result: string, base: seq<Entry>, top: Entry,
                               ranges: Ranges, text: string)
    requires Good(nodes, texts, result, base + [top], ranges, text)
    ensures Good(nodes, texts, result + EntryText(texts, top), base, ranges, text)
    ensures forall k :: 0 <= k < |base| && base[k].start.Some? ==> base[k].id != top.id
  {
    var d := EntryText(texts, top);
    assert StackText(texts, []) == "" && d + "" == d && base + [] == base;
    hide OpenCall, StackText, EntryText, At, RangesOk, Shaped;
    BelowTop(nodes, texts, result, base, top, ranges, text);
    Replace(nodes, texts, result, base, top, ranges, text, d, []);
  }

  /** The text just completed is cached. */
  lemma {:induction false} Cache(nodes: seq<Term>, texts: seq<string>, result: string, stack: seq<Entry>,
                                 ranges: Ranges, text: string, id: TermId, from: nat)
    requires Good(nodes, texts, result, stack, ranges, text)
    requires from <= |result| && result[from..] == At(texts, id)
    requires forall k :: 0 <= k < |stack| && stack[k].start.Some? ==> stack[k].id != id
    ensures Good(nodes, texts, result, stack, ranges[id := (from, |result|)], text)
  {
    CacheRange(texts, result, ranges, id, from);
    hide OpenCall, StackText, At, RangesOk, Shaped;
    forall k | 0 <= k < |stack| && stack[k].start.Some?
      ensures OpenCall(texts, result, stack, ranges[id := (from, |result|)], k)
    {
      CacheOther(texts, result, stack, ranges, k, id, (from, |result|));
    }
  }

  /** What closing a call completes. */
  lemma {:induction false} Closing(nodes: seq<Term>, texts: seq<string>, result: string, base: seq<Entry>, top: Entry,
                                   ranges: Ranges, text: string)
    requires Good(nodes, texts, result, base + [top], ranges, text) && top.start.Some?
    ensures top.id !in ranges && top.id < |nodes| && nodes[top.id].TApp? && !top.spaceBefore
    ensures top.start.value <= |result| && (result + ")")[top.start.value..] == At(texts, top.id)
  {
    BelowTop(nodes, texts, result, base, top, ranges, text);
    var stack := base + [top];
    assert stack[|base|] == top && stack[|base| + 1..] == [];
    assert [top][0] == top;
    assert result[top.start.value..] + "" == result[top.start.value..];
    assert (result + ")")[top.start.value..] == result[top.start.value..] + ")";
  }

  /** A call is opened: its closing entry and its children replace it. */
  lemma {:induction false} PopOpen(nodes: seq<Term>, texts: seq<string>, turns: seq<nat>, result: string,
                                   base: seq<Entry>, top: Entry, ranges: Ranges, text: string, pushed: seq<Entry>)
    requires Tables(nodes, texts, turns) && Good(nodes, texts, result, base + [top], ranges, text)
    requires top.start.None? && top.id < |nodes| && nodes[top.id].TApp? && top.id !in ranges
    requires StackText(texts, pushed) == ArgsText(texts, nodes[top.id].args)
    requires StackTurns(turns, pushed) == TurnsOf(turns, nodes[top.id].args)
    requires forall k :: 0 <= k < |pushed| ==> pushed[k].id in nodes[top.id].args && pushed[k].start.None?
    ensures
      var spaced := if top.spaceBefore then result + " " else result;
      var stack' := base + ([Entry(top.id, false, Some(|spaced|))] + pushed);
      && Good(nodes, texts, spaced + ("(" + nodes[top.id].head), stack', ranges, text)
      && StackTurns(turns, stack') < StackTurns(turns, base + [top])
  {
    hide OpenCall, StackText, EntryText, StackTurns, Tables, At, ArgsText, TurnsOf, RangesOk;
    var space, open := if top.spaceBefore then " " else "", "(" + nodes[top.id].head;
    var spaced := if top.spaceBefore then result + " " else result;
    assert spaced == result + space;
    var close := Entry(top.id, false, Some(|spaced|));
    CallText(nodes, texts, turns, top.id);
    OpenTexts(texts, top, close, pushed, space, open);
    OpenTurns(texts, turns, base, top, close, pushed);
    BelowTop(nodes, texts, result, base, top, ranges, text);
    Replace(nodes, texts, result, base, top, ranges, text, space + open, [close] + pushed);
    Suffix(result, space, open);
    NewOpenCall(texts, spaced + open, base, close, pushed, ranges, open);
    OpenGood(nodes, texts, spaced + open, base, top, close, pushed, ranges, text);
  }

  lemma {:induction false} OpenGood(nodes: seq<Term>, texts: seq<string>, result: string, base: seq<Entry>, top: Entry,
                                    close: Entry, pushed: seq<Entry>, ranges: Ranges, text: string)
    requires Shaped(nodes, base) && top.id < |nodes| && nodes[top.id].TApp? && close.id == top.id && !close.spaceBefore
    requires close.start.Some?
    requires forall k :: 0 <= k < |pushed| ==> pushed[k].id < top.id && pushed[k].start.None?
    requires RangesOk(texts, result, ranges) && result + StackText(texts, base + ([close] + pushed)) == text
    requires forall k :: 0 <= k < |base| && base[k].start.Some? ==>
      OpenCall(texts, result, base + ([close] + pushed), ranges, k)
    requires OpenCall(texts, result, base + ([close] + pushed), ranges, |base|)
    ensures Good(nodes, texts, result, base + ([close] + pushed), ranges, text)
  {
    hide OpenCall, StackText, RangesOk;
    var stack := base + ([close] + pushed);
    forall k | 0 <= k < |stack|
      ensures stack[k].id < |nodes| && (stack[k].start.Some? ==> nodes[stack[k].id].TApp? && !stack[k].spaceBefore)
      ensures stack[k].start.Some? ==> OpenCall(texts, result, stack, ranges, k)
    {
      assert stack[k] == if k < |base| then base[k] else if k == |base| then close else pushed[k - |base| - 1];
    }
  }

  lemma {:induction false} CallText(nodes: seq<Term>, texts: seq<string>, turns: seq<nat>, id: TermId)
    requires Tables(nodes, texts, turns) && id < |nodes| && nodes[id].TApp?
    ensures At(texts, id) == "(" + nodes[id].head + ArgsText(texts, nodes[id].args) + ")"
    ensures id < |turns| && turns[id] == 2 + TurnsOf(turns, nodes[id].args) && AllBelow(nodes[id].args, id)
  {
    hide ArgsText, TurnsOf;
    assert texts[id] == TermText(texts, nodes[id]);
  }

  lemma {:induction false} OpenTexts(texts: seq<string>, top: Entry, close: Entry, pushed: seq<Entry>, space: string,
                                     open: string)
    requires top.start.None? && close.start.Some? && space == if top.spaceBefore then " " else ""
    requires At(texts, top.id) == open + StackText(texts, pushed) + ")"
    ensures (space + open) + StackText(texts, [close] + pushed) == EntryText(texts, top)
  {
    Appended(texts, [], [close], pushed);
    assert [close][..0] == [];
    assert StackText(texts, [close]) == ")" + "" == ")";
    hide StackText, At;
    Assoc(space, open, StackText(texts, pushed), ")");
  }

  lemma {:induction false} OpenTurns(texts: seq<string>, turns: seq<nat>, base: seq<Entry>, top: Entry, close: Entry,
                                     pushed: seq<Entry>)
    requires top.start.None? && close.start.Some? && top.id < |turns| && turns[top.id] == 2 + StackTurns(turns, pushed)
    ensures StackTurns(turns, base + ([close] + pushed)) < StackTurns(turns, base + [top])
  {
    Appended(texts, turns, [close], pushed);
    Appended(texts, turns, base, [close] + pushed);
    Appended(texts, turns, base, [top]);
    assert [close][..0] == [] && [top][..0] == [];
    assert StackTurns(turns, [close]) == 1 && StackTurns(turns, [top]) == turns[top.id];
  }

  lemma {:induction false} NewOpenCall(texts: seq<string>, result: string, base: seq<Entry>, close: Entry,
                                       pushed: seq<Entry>, ranges: Ranges, open: string)
    requires close.start.Some? && close.start.value <= |result| && result[close.start.value..] == open
    requires close.id !in ranges
    requires open + StackText(texts, pushed) + ")" == At(texts, close.id)
    requires forall k :: 0 <= k < |pushed| ==> pushed[k].id < close.id
    ensures OpenCall(texts, result, base + ([close] + pushed), ranges, |base|)
  {
    hide StackText, At;
    var stack := base + ([close] + pushed);
    assert stack[|base|] == close && stack[|base| + 1..] == pushed;
    assert forall j :: |base| < j < |stack| ==> stack[j] == pushed[j - |base| - 1];
  }

  /** The stack loop prints the recursive S-expression of the term, and it stops. */
  method ToString(nodes: seq<Term>, term: TermId) returns (result: string)
    requires Ordered(nodes) && term < |nodes|
    ensures result == Print(TermToExpr(nodes, term))
  {
    ghost var texts, turns := TablesExist(nodes);
    result := "";
    var ranges: Ranges := map[];
    var stack := [Entry(term, false, None)];
    assert stack[..0] == [] && texts[term] + "" == texts[term] && "" + texts[term] == texts[term];
    while stack != []
      invariant Good(nodes, texts, result, stack, ranges, texts[term])
      decreases StackTurns(turns, stack)
    {
      result, stack, ranges := Turn(nodes, result, stack, ranges, texts, turns, texts[term]);
    }
  }

  /** One turn of the loop: pop an entry and copy it, open it, close it or print it. */
  method Turn(nodes: seq<Term>, result: string, stack: seq<Entry>, ranges: Ranges, ghost texts: seq<string>,
              ghost turns: seq<nat>, ghost text: string)
    returns (result': string, stack': seq<Entry>, ranges': Ranges)
    requires stack != [] && Tables(nodes, texts, turns) && Good(nodes, texts, result, stack, ranges, text)
    ensures Good(nodes, texts, result', stack', ranges', text) && StackTurns(turns, stack') < StackTurns(turns, stack)
  {
    hide Good, StackTurns, StackText, OpenCall, Tables, ArgsText, LitText, TermText;
    var top, base := stack[|stack| - 1], stack[..|stack| - 1];
    assert stack == base + [top];
    var id := top.id;
    TopShape(nodes, texts, result, base, top, ranges, text);
    TurnsPositive(nodes, texts, turns, base, top);
    Pop(nodes, texts, result, base, top, ranges, text);
    LeafText(nodes, texts, turns, id);
    ghost var space := if top.spaceBefore then " " else "";
    result' := if top.spaceBefore then result + " " else result;
    assert result' == result + space;
    stack', ranges' := base, ranges;
    if id in ranges {
      CachedText(nodes, texts, result, result', stack, ranges, text, id);
      Suffix(result, space, At(texts, id));
      result' := result' + result'[ranges[id].0..ranges[id].1];
      return;
    }
    match nodes[id]
    case TApp(name, children) =>
      if top.start.Some? {
        Closing(nodes, texts, result, base, top, ranges, text);
        result' := result' + ")";
        Cache(nodes, texts, result', base, ranges, text, id, top.start.value);
        ranges' := ranges'[id := (top.start.value, |result'|)];
      } else {
        var close := Entry(id, false, Some(|result'|));
        ghost var pushed;
        stack', pushed := PushChildren(base + [close], children, texts, turns);
        PopOpen(nodes, texts, turns, result, base, top, ranges, text, pushed);
        assert stack' == base + ([close] + pushed);
        result' := result' + ("(" + name);
      }
    case TLit(lit) =>
      Suffix(result, space, LitText(lit));
      var start := |result'|;
      result' := result' + LitText(lit);
      Cache(nodes, texts, result', base, ranges, text, id, start);
      ranges' := ranges'[id := (start, |result'|)];
    case TVar(v) =>
      Suffix(result, space, v);
      var start := |result'|;
      result' := result' + v;
      Cache(nodes, texts, result', base, ranges, text, id, start);
      ranges' := ranges'[id := (start, |result'|)];
  }

  lemma {:induction false} TopShape(nodes: seq<Term>, texts: seq<string>, result: string, base: seq<Entry>, top: Entry,
                                    ranges: Ranges, text: string)
    requires Good(nodes, texts, result, base + [top], ranges, text)
    ensures top.id < |nodes| && (top.start.Some? ==> top.id !in ranges && nodes[top.id].TApp? && !top.spaceBefore)
  {
    BelowTop(nodes, texts, result, base, top, ranges, text);
    hide Good, StackText, RangesOk;
    assert [top][0] == top && (base + [top])[|base|] == top;
  }

  lemma {:induction false} LeafText(nodes: seq<Term>, texts: seq<string>, turns: seq<nat>, id: TermId)
    requires Tables(nodes, texts, turns) && id < |nodes|
    ensures nodes[id].TLit? ==> At(texts, id) == LitText(nodes[id].lit)
    ensures nodes[id].TVar? ==> At(texts, id) == nodes[id].name
  {
    hide ArgsText, TurnsOf;
    assert texts[id] == TermText(texts, nodes[id]);
  }

  lemma {:induction false} TurnsPositive(nodes: seq<Term>, texts: seq<string>, turns: seq<nat>, base: seq<Entry>,
                                         top: Entry)
    requires Tables(nodes, texts, turns) && top.id < |nodes|
    ensures StackTurns(turns, base) < StackTurns(turns, base + [top])
  {
    assert (base + [top])[..|base|] == base;
  }

  lemma {:induction false} CachedText(nodes: seq<Term>, texts: seq<string>, result: string, result': string,
                                      stack: seq<Entry>, ranges: Ranges, text: string, id: TermId)
    requires Good(nodes, texts, result, stack, ranges, text) && id in ranges && result <= result'
    ensures ranges[id].0 <= ranges[id].1 <= |result'| && result'[ranges[id].0..ranges[id].1] == At(texts, id)
  {
    assert result'[ranges[id].0..ranges[id].1] == result[ranges[id].0..ranges[id].1];
  }
}
