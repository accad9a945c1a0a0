/**
 What a printed term parses to (src/termdag.rs, `to_string`; src/ast/parse.rs, `sexp`).  The printer writes a string
 between quotes as it is, and the parser unescapes, so the text reads back exactly when no string needs escaping.
 */
module ReadBack {
  import opened Ast
  import opened Options
  import opened Sexps
  import opened TermDags
  import opened TermPrint

  /** The printed form of a string literal. */
  predicate IsQuoted(t: string) { |t| >= 2 && t[0] == '\"' && t[|t| - 1] == '\"' }

  /** A text that is scanned as one word. */
  predicate IsWord(t: string) { t != "" && t[0] != '\"' && forall c :: c in t ==> !Ends(c) }

  /** Symbols, numbers and truth values print as words; a literal may also be a string between quotes. */
  ghost predicate Printable(e: Expr)
    decreases e, 1
  {
    match e
    case ELit(Unit) => true
    case ELit(Lit(_, text)) => IsQuoted(text) || IsWord(text)
    case EVar(name) => IsWord(name)
    case ECall(head, args) => IsWord(head) && AllPrintable(args)
  }

  ghost predicate AllPrintable(es: seq<Expr>)
    decreases es, 0
  {
    forall k :: 0 <= k < |es| ==> Printable(es[k])
  }

  /** No string holds a quote or a backslash. */
  ghost predicate Verbatim(e: Expr)
    decreases e, 1
  {
    match e
    case ELit(Lit(_, text)) => IsQuoted(text) ==> forall c :: c in text[1..|text| - 1] ==> !NeedsEscape(c)
    case ECall(_, args) => AllVerbatim(args)
    case _ => true
  }

  ghost predicate AllVerbatim(es: seq<Expr>)
    decreases es, 0
  {
    forall k :: 0 <= k < |es| ==> Verbatim(es[k])
  }

  /** The S-expression that the term is written as; the unit literal is the empty list. */
  function SexpOf(e: Expr): Sexp
    decreases e, 1
  {
    match e
    case ELit(Unit) => List([])
    case ELit(Lit(_, text)) => if IsQuoted(text) then Str(text[1..|text| - 1]) else Word(text)
    case EVar(name) => Word(name)
    case ECall(head, args) => List([Word(head)] + SexpsOf(args))
  }

  function SexpsOf(es: seq<Expr>): seq<Sexp>
    decreases es, 0
  {
    if es == [] then [] else [SexpOf(es[0])] + SexpsOf(es[1..])
  }

  // ---------------------------------------------------------------- single tokens

  /** The text ends here, or a character that ends words comes next. */
  predicate Stops(s: string, i: nat) { i <= |s| && (i < |s| ==> Ends(s[i])) }

  lemma {:induction false} WordEndIs(s: string, i: nat, t: string)
    requires StandsAt(s, i, t) && Stops(s, i + |t|) && forall c :: c in t ==> !Ends(c)
    ensures WordEnd(s, i) == i + |t|
    decreases |t|
  {
    hide Ends;
    if t != "" {
      assert t == [t[0]] + t[1..] && t[0] in t;
      StandsHead(s, i, t[0], t[1..]);
      WordEndIs(s, i + 1, t[1..]);
    }
  }

  lemma {:induction false} PlainStays(s: string, i: nat)
    requires i < |s| && !Ends(s[i])
    ensures Skip(s, i, false) == i && s[i] != '(' && s[i] != ')'
  {
  }

  lemma {:induction false} Sliced(s: string, i: nat, t: string)
    requires StandsAt(s, i, t)
    ensures i + |t| <= |s| && s[i..i + |t|] == t && forall k :: 0 <= k < |t| ==> s[i + k] == t[k]
  {
  }

  lemma {:induction false} WordToken(s: string, i: nat, t: string)
    requires StandsAt(s, i, t) && Stops(s, i + |t|) && IsWord(t)
    ensures TokenAt(s, i) == Ok((Other(t), Skip(s, i + |t|, false)))
    ensures Skip(s, i, false) == i
  {
    hide Ends, StandsAt, Skip, WordEnd, Stops;
    Sliced(s, i, t);
    assert t == [t[0]] + t[1..] && t[0] in t && s[i + 0] == t[0];
    StandsHead(s, i, t[0], t[1..]);
    WordEndIs(s, i + 1, t[1..]);
    PlainStays(s, i);
  }

  lemma {:induction false} QuotedToken(s: string, i: nat, v: string)
    requires StandsAt(s, i, "\"" + v + "\"")
    ensures if forall c :: c in v ==> !NeedsEscape(c)
            then TokenAt(s, i) == Ok((Quoted(v), Skip(s, i + |v| + 2, false)))
            else TokenAt(s, i).Ok? ==> TokenAt(s, i).value.0 != Quoted(v)
    ensures Skip(s, i, false) == i
  {
    assert "\"" + v + "\"" == ['\"'] + (v + "\"");
    StandsHead(s, i, '\"', v + "\"");
    VerbatimReadsBack(s, i + 1, v);
  }

  lemma {:induction false} SignToken(s: string, i: nat)
    requires i < |s| && (s[i] == '(' || s[i] == ')')
    ensures TokenAt(s, i) == Ok((if s[i] == '(' then Open else Close, Skip(s, i + 1, false)))
    ensures Skip(s, i, false) == i
  {
  }

  lemma {:induction false} SpaceSkips(s: string, i: nat)
    requires i < |s| && s[i] == ' '
    ensures Skip(s, i, false) == Skip(s, i + 1, false)
  {
  }

  // ---------------------------------------------------------------- whole terms

  /** The tokens are exactly the next `len` characters with the whitespace around them, or the text has others. */
  ghost predicate Reads(s: string, i: nat, toks: seq<Token>, len: nat, same: bool)
    requires i + len <= |s|
  {
    After(s, Skip(s, i, false), toks) == if same then Some(Skip(s, i + len, false)) else None
  }

  lemma {:induction false} ReadsOne(s: string, i: nat, t: Token, len: nat, same: bool)
    requires i + len <= |s| && Skip(s, i, false) == i
    requires if same then TokenAt(s, i) == Ok((t, Skip(s, i + len, false)))
             else TokenAt(s, i).Ok? ==> TokenAt(s, i).value.0 != t
    ensures Reads(s, i, [t], len, same)
  {
    hide TokenAt;
    AfterOne(s, i, t);
  }

  lemma {:induction false} ReadsNone(s: string, i: nat)
    requires i <= |s|
    ensures Reads(s, i, [], 0, true)
  {
  }

  lemma {:induction false} ReadsBoth(s: string, i: nat, a: seq<Token>, l: nat, sameA: bool, b: seq<Token>, m: nat,
                                     sameB: bool)
    requires i + l + m <= |s| && Reads(s, i, a, l, sameA) && Reads(s, i + l, b, m, sameB)
    ensures Reads(s, i, a + b, l + m, sameA && sameB)
  {
    hide TokenAt, Skip;
    AfterBoth(s, Skip(s, i, false), a, b);
  }

  lemma {:induction false} ReadsSpaced(s: string, i: nat, toks: seq<Token>, len: nat, same: bool)
    requires i + 1 + len <= |s| && s[i] == ' ' && Reads(s, i + 1, toks, len, same)
    ensures Reads(s, i, toks, 1 + len, same)
  {
    hide TokenAt, Skip, After;
    SpaceSkips(s, i);
  }

  lemma {:induction false} ReadsSign(s: string, i: nat)
    requires i < |s| && (s[i] == '(' || s[i] == ')')
    ensures Reads(s, i, [if s[i] == '(' then Open else Close], 1, true)
  {
    hide TokenAt, Skip, Reads;
    SignToken(s, i);
    ReadsOne(s, i, if s[i] == '(' then Open else Close, 1, true);
  }

  lemma {:induction false} HeadAndTail(es: seq<Expr>)
    requires es != []
    ensures AllVerbatim(es) == (Verbatim(es[0]) && AllVerbatim(es[1..]))
    ensures AllPrintable(es) == (Printable(es[0]) && AllPrintable(es[1..]))
  {
    hide Verbatim, Printable;
    assert es == [es[0]] + es[1..];
    if AllVerbatim(es[1..]) && Verbatim(es[0]) {
      forall k | 0 <= k < |es| ensures Verbatim(es[k]) {
        if k > 0 {
          assert es[k] == es[1..][k - 1];
        }
      }
    }
    if AllPrintable(es[1..]) && Printable(es[0]) {
      forall k | 0 <= k < |es| ensures Printable(es[k]) {
        if k > 0 {
          assert es[k] == es[1..][k - 1];
        }
      }
    }
  }

  /** Where a printed argument list stands, or nothing of it, a word before it ends. */
  lemma {:induction false} ArgsStop(s: string, i: nat, es: seq<Expr>)
    requires StandsAt(s, i, PrintArgs(es)) && Stops(s, i + |PrintArgs(es)|)
    ensures Stops(s, i)
  {
    if es != [] {
      assert s[i + 0] == PrintArgs(es)[0];
    }
  }

  lemma {:induction false} UnitReads(s: string, i: nat)
    requires StandsAt(s, i, "()")
    ensures i + 2 <= |s| && Reads(s, i, TokensOf(List([])), 2, true)
  {
    hide TokenAt, Skip, Reads;
    assert s[i + 0] == "()"[0] && s[i + 1] == "()"[1];
    ReadsSign(s, i);
    ReadsSign(s, i + 1);
    ReadsBoth(s, i, [Open], 1, true, [Close], 1, true);
    assert TokensOf(List([])) == [Open] + [Close];
  }

  lemma {:induction false} QuotedReads(s: string, i: nat, text: string)
    requires StandsAt(s, i, text) && IsQuoted(text)
    ensures i + |text| <= |s|
    ensures var v := text[1..|text| - 1];
      Reads(s, i, [Quoted(v)], |text|, forall c :: c in v ==> !NeedsEscape(c))
  {
    hide TokenAt, Skip, Reads, NeedsEscape;
    var v := text[1..|text| - 1];
    assert text == "\"" + v + "\"";
    QuotedToken(s, i, v);
    ReadsOne(s, i, Quoted(v), |text|, forall c :: c in v ==> !NeedsEscape(c));
  }

  lemma {:induction false} WordReads(s: string, i: nat, t: string)
    requires StandsAt(s, i, t) && Stops(s, i + |t|) && IsWord(t)
    ensures Reads(s, i, [Other(t)], |t|, true)
  {
    hide TokenAt, Skip, Reads;
    WordToken(s, i, t);
    ReadsOne(s, i, Other(t), |t|, true);
  }

  lemma {:induction false} Fits(s: string, i: nat, t: string)
    requires StandsAt(s, i, t)
    ensures i + |t| <= |s|
  {
  }

  /** A printed term reads as its S-expression if its strings are verbatim, and as nothing like it otherwise. */
  lemma {:induction false} PrintReads(s: string, i: nat, e: Expr)
    requires StandsAt(s, i, Print(e)) && Stops(s, i + |Print(e)|) && Printable(e)
    ensures Reads(s, i, TokensOf(SexpOf(e)), |Print(e)|, Verbatim(e))
    decreases e, 1
  {
    hide TokenAt, Skip, Stops, IsWord, StandsAt, Reads, NeedsEscape, PrintArgs, SexpsOf, TokensAll;
    match e
    case ELit(Unit) =>
      UnitReads(s, i);
    case ELit(Lit(_, text)) =>
      if IsQuoted(text) {
        QuotedReads(s, i, text);
      } else {
        WordReads(s, i, text);
      }
    case EVar(name) => WordReads(s, i, name);
    case ECall(head, args) =>
      CallStands(s, i, head, PrintArgs(args));
      CloseStops(s, i + 1 + |head| + |PrintArgs(args)|);
      ArgsStop(s, i + 1 + |head|, args);
      PrintArgsReads(s, i + 1 + |head|, args);
      CallReads(s, i, head, args);
  }

  lemma {:induction false} CloseStops(s: string, j: nat)
    requires j < |s| && s[j] == ')'
    ensures Stops(s, j)
  {
  }

  lemma {:induction false} CallStands(s: string, i: nat, head: string, args: string)
    requires StandsAt(s, i, "(" + head + args + ")")
    ensures i + 2 + |head| + |args| <= |s| && s[i] == '(' && s[i + 1 + |head| + |args|] == ')'
    ensures StandsAt(s, i + 1, head) && StandsAt(s, i + 1 + |head|, args)
  {
    hide StandsAt;
    assert "(" + head + args + ")" == ['('] + (head + (args + ([')'] + "")));
    StandsHead(s, i, '(', head + (args + ([')'] + "")));
    StandsBoth(s, i + 1, head, args + ([')'] + ""));
    StandsBoth(s, i + 1 + |head|, args, [')'] + "");
    StandsHead(s, i + 1 + |head| + |args|, ')', "");
  }

  /** The parts of a call, put together. */
  lemma {:induction false} CallReads(s: string, i: nat, head: string, args: seq<Expr>)
    requires i + 2 + |head| + |PrintArgs(args)| <= |s| && s[i] == '(' && IsWord(head)
    requires s[i + 1 + |head| + |PrintArgs(args)|] == ')'
    requires StandsAt(s, i + 1, head) && Stops(s, i + 1 + |head|)
    requires Reads(s, i + 1 + |head|, TokensAll(SexpsOf(args)), |PrintArgs(args)|, AllVerbatim(args))
    ensures Reads(s, i, TokensOf(List([Word(head)] + SexpsOf(args))), |head| + |PrintArgs(args)| + 2, AllVerbatim(args))
  {
    hide TokenAt, Skip, Stops, IsWord, StandsAt, Reads, SexpsOf, PrintArgs, AllVerbatim;
    var xs, n, same := SexpsOf(args), |PrintArgs(args)|, AllVerbatim(args);
    ReadsSign(s, i);
    WordReads(s, i + 1, head);
    ReadsBoth(s, i, [Open], 1, true, [Other(head)], |head|, true);
    ReadsBoth(s, i, [Open] + [Other(head)], 1 + |head|, true, TokensAll(xs), n, same);
    ReadsSign(s, i + 1 + |head| + n);
    ReadsBoth(s, i, [Open] + [Other(head)] + TokensAll(xs), 1 + |head| + n, same, [Close], 1, true);
    var all := [Word(head)] + xs;
    assert all[0] == Word(head) && all[1..] == xs && TokensOf(Word(head)) == [Other(head)];
    assert TokensOf(List(all)) == [Open] + [Other(head)] + TokensAll(xs) + [Close];
  }

  lemma {:induction false} NoneVerbatim()
    ensures AllVerbatim([])
  {
  }

  lemma {:induction false} PrintArgsReads(s: string, i: nat, es: seq<Expr>)
    requires StandsAt(s, i, PrintArgs(es)) && Stops(s, i + |PrintArgs(es)|) && AllPrintable(es)
    ensures Reads(s, i, TokensAll(SexpsOf(es)), |PrintArgs(es)|, AllVerbatim(es))
    decreases es, 0
  {
    hide TokenAt, Skip, Stops, StandsAt, Reads, AllVerbatim, AllPrintable, Printable, Verbatim, TokensOf;
    Fits(s, i, PrintArgs(es));
    if es == [] {
      ReadsNone(s, i);
      NoneVerbatim();
    } else {
      var first, rest := Print(es[0]), PrintArgs(es[1..]);
      assert PrintArgs(es) == [' '] + (first + rest);
      StandsHead(s, i, ' ', first + rest);
      StandsBoth(s, i + 1, first, rest);
      HeadAndTail(es);
      ArgsStop(s, i + 1 + |first|, es[1..]);
      PrintReads(s, i + 1, es[0]);
      PrintArgsReads(s, i + 1 + |first|, es[1..]);
      var a, b := TokensOf(SexpOf(es[0])), TokensAll(SexpsOf(es[1..]));
      ReadsBoth(s, i + 1, a, |first|, Verbatim(es[0]), b, |rest|, AllVerbatim(es[1..]));
      ReadsSpaced(s, i, a + b, |first| + |rest|, AllVerbatim(es));
      var xs := SexpsOf(es);
      assert xs[0] == SexpOf(es[0]) && xs[1..] == SexpsOf(es[1..]);
    }
  }

  // ---------------------------------------------------------------- printing, then parsing

  /** The whole printed text has the tokens of the term exactly when its strings are verbatim. */
  lemma {:induction false} WholeReads(e: Expr)
    requires Printable(e)
    ensures After(Print(e), 0, TokensOf(SexpOf(e))) == if Verbatim(e) then Some(|Print(e)|) else None
  {
    hide Printable, Verbatim, Print, TokensOf, SexpOf, After;
    var s := Print(e);
    PrintReads(s, 0, e);
    StartsAtOnce(e);
  }

  lemma {:induction false} StartsAtOnce(e: Expr)
    requires Printable(e)
    ensures Skip(Print(e), 0, false) == 0
  {
    match e
    case ELit(Unit) =>
    case ELit(Lit(_, text)) =>
      if !IsQuoted(text) {
        assert text[0] in text;
      }
    case EVar(name) => assert name[0] in name;
    case ECall(head, args) =>
  }

  /** Every word that the parser reads is one that can be printed. */
  lemma {:induction false} ParsedWords(s: string, i: nat)
    requires i <= |s| && TokenAt(s, i).Ok? && TokenAt(s, i).value.0.Other?
    ensures IsWord(TokenAt(s, i).value.0.text)
  {
    var k := Skip(s, i, false);
    WordIsMaximal(s, k + 1);
    assert !Ends(s[k]) by {
      assert Skip(s, k, false) == k by {
        SkipTwice(s, i, false);
      }
    }
  }

  /** Terms with verbatim strings that print alike are written alike. */
  lemma {:induction false} PrintDetermines(e: Expr, f: Expr)
    requires Printable(e) && Printable(f) && Verbatim(e) && Verbatim(f) && Print(e) == Print(f)
    ensures SexpOf(e) == SexpOf(f)
  {
    hide *;
    WholeReads(e);
    WholeReads(f);
    OneSexp(Print(e), SexpOf(e), SexpOf(f));
  }

  function StringLit(v: string): Expr { ELit(Lit("String", "\"" + v + "\"")) }

  lemma {:induction false} StringVerbatim(v: string)
    ensures Verbatim(StringLit(v)) <==> forall c :: c in v ==> !NeedsEscape(c)
    ensures Printable(StringLit(v))
  {
    var text := "\"" + v + "\"";
    assert text[1..|text| - 1] == v;
  }

  /** One string with quotes inside prints like two strings. */
  lemma {:induction false} SameText()
    ensures
      var one, two := ECall("f", [StringLit("a\" \"b")]), ECall("f", [StringLit("a"), StringLit("b")]);
      Print(one) == Print(two) && one != two && Printable(one) && Printable(two) && !Verbatim(one) && Verbatim(two)
  {
    hide *;
    var a, b, ab := StringLit("a"), StringLit("b"), StringLit("a\" \"b");
    StringVerbatim("a");
    StringVerbatim("b");
    StringVerbatim("a\" \"b");
    QuoteInside();
    CallOf([ab]);
    CallOf([a, b]);
    AllOf([ab]);
    AllOf([a, b]);
    Texts();
    TwoTexts(a, b, ab);
    assert [ab][0] == ab && [a, b][0] == a && [a, b][1] == b && |[ab]| != |[a, b]|;
  }

  lemma {:induction false} QuoteInside()
    ensures !(forall c :: c in "a\" \"b" ==> !NeedsEscape(c))
    ensures (forall c :: c in "a" ==> !NeedsEscape(c)) && forall c :: c in "b" ==> !NeedsEscape(c)
  {
    assert "a\" \"b"[1] == '\"';
    assert '\"' in "a\" \"b" && NeedsEscape('\"');
  }

  lemma {:induction false} CallOf(es: seq<Expr>)
    ensures Verbatim(ECall("f", es)) == AllVerbatim(es) && Printable(ECall("f", es)) == AllPrintable(es)
  {
    assert IsWord("f");
  }

  lemma {:induction false} AllOf(es: seq<Expr>)
    ensures AllVerbatim(es) <==> forall k :: 0 <= k < |es| ==> Verbatim(es[k])
    ensures AllPrintable(es) <==> forall k :: 0 <= k < |es| ==> Printable(es[k])
  {
  }

  lemma {:induction false} Texts()
    ensures Print(StringLit("a\" \"b")) == Print(StringLit("a")) + (" " + Print(StringLit("b")))
  {
    assert Print(StringLit("a")) == "\"a\"" && Print(StringLit("b")) == "\"b\"";
    assert Print(StringLit("a\" \"b")) == "\"a\" \"b\"";
    assert "\"a\"" + (" " + "\"b\"") == "\"a\" \"b\"";
  }

  lemma {:induction false} TwoTexts(a: Expr, b: Expr, ab: Expr)
    requires Print(ab) == Print(a) + (" " + Print(b))
    ensures Print(ECall("f", [ab])) == Print(ECall("f", [a, b]))
  {
    assert [ab][1..] == [] && [a, b][1..] == [b] && [b][1..] == [];
    assert PrintArgs([b]) == " " + Print(b) + "" == " " + Print(b);
    assert PrintArgs([ab]) == " " + Print(ab) + "" == " " + Print(ab);
    assert PrintArgs([a, b]) == " " + Print(a) + PrintArgs([b]) == " " + Print(ab);
  }

  /** Printing a term and parsing the text gives the term's S-expression if and only if its strings are verbatim. */
  method ParsePrinted(nodes: seq<Term>, id: TermId) returns (r: Parsed<Sexp>)
    requires Ordered(nodes) && id < |nodes| && Printable(TermToExpr(nodes, id))
    ensures r == Ok(SexpOf(TermToExpr(nodes, id))) <==> Verbatim(TermToExpr(nodes, id))
  {
    hide After, TokensOf, SexpOf, Printable, Verbatim;
    var text := ToString(nodes, id);
    var parser := new SexpParser(text);
    r := parser.ParseSexp();
    ghost var e := TermToExpr(nodes, id);
    WholeReads(e);
    if r.Ok? && Verbatim(e) {
      OneSexp(text, r.value, SexpOf(e));
    }
  }

  lemma {:induction false} OneSexp(s: string, x: Sexp, y: Sexp)
    requires After(s, 0, TokensOf(x)).Some? && After(s, 0, TokensOf(y)).Some?
    ensures x == y
  {
    hide After, TokensOf;
    var a, b := TokensOf(x), TokensOf(y);
    Comparable(s, 0, a, b);
    if a <= b {
      assert a + b[|a|..] == b + [];
      TokensDetermine(x, y, b[|a|..], []);
    } else {
      assert a + [] == b + a[|b|..];
      TokensDetermine(x, y, [], a[|b|..]);
    }
  }
}
