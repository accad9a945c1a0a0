/**
 The S-expression parser (src/ast/parse.rs, `SexpParser` and `sexp`).  A position counts characters; spans are not
 modelled, and a word is not classified as a number, a truth value or a symbol.
 */
module Sexps {
  import opened Options

  datatype Sexp = Str(value: string) | Word(text: string) | List(items: seq<Sexp>)

  datatype Token = Open | Close | Quoted(value: string) | Other(text: string)

  datatype ParseError = UnexpectedEnd | MissingQuote | BadEscape(c: char) | UnexpectedClose

  datatype Parsed<+T> = Ok(value: T) | Err(error: ParseError)

  /** The Unicode property White_Space. */
  predicate IsWhitespace(c: char)
  {
    var n := c as int;
    9 <= n <= 13 || n == 0x20 || n == 0x85 || n == 0xA0 || n == 0x1680 || 0x2000 <= n <= 0x200A ||
    n == 0x2028 || n == 0x2029 || n == 0x202F || n == 0x205F || n == 0x3000
  }

  /** A character that ends a word. */
  predicate Ends(c: char) { IsWhitespace(c) || c == ';' || c == '(' || c == ')' }

  // ---------------------------------------------------------------- the scanner

  /** Past whitespace and comments. */
  function Skip(s: string, i: nat, inComment: bool): (j: nat)
    requires i <= |s|
    ensures i <= j <= |s|
    decreases |s| - i
  {
    if i == |s| then i
    else if s[i] == ';' then Skip(s, i + 1, true)
    else if s[i] == '\n' then Skip(s, i + 1, false)
    else if IsWhitespace(s[i]) || inComment then Skip(s, i + 1, inComment)
    else i
  }

  /** The end of a word. */
  function WordEnd(s: string, i: nat): (j: nat)
    requires i <= |s|
    ensures i <= j <= |s|
    decreases |s| - i
  {
    if i == |s| || Ends(s[i]) then i else WordEnd(s, i + 1)
  }

  /** What a character after a backslash stands for. */
  function Unescape(c: char): Option<char>
  {
    match c
    case 'n' => Some('\n')
    case 't' => Some('\t')
    case '\\' => Some('\\')
    case '\"' => Some('\"')
    case _ => None
  }

  function Prepend(front: string, r: Parsed<(string, nat)>): Parsed<(string, nat)>
  {
    match r
    case Err(e) => Err(e)
    case Ok((rest, j)) => Ok((front + rest, j))
  }

  lemma {:induction false} PrependNothing(r: Parsed<(string, nat)>)
    ensures Prepend("", r) == r
  {
    if r.Ok? {
      assert "" + r.value.0 == r.value.0;
    }
  }

  lemma {:induction false} PrependBoth(a: string, b: string, r: Parsed<(string, nat)>)
    ensures Prepend(a, Prepend(b, r)) == Prepend(a + b, r)
  {
    if r.Ok? {
      assert a + (b + r.value.0) == (a + b) + r.value.0;
    }
  }

  /** The rest of a quoted string and the position after its end quote. */
  function QuotedAt(s: string, i: nat, inEscape: bool): (r: Parsed<(string, nat)>)
    requires i <= |s|
    ensures if r.Ok? then i < r.value.1 <= |s| else r.error != UnexpectedClose
    decreases |s| - i
  {
    if i == |s| then Err(MissingQuote)
    else if !inEscape && s[i] == '\"' then Ok(("", i + 1))
    else if !inEscape && s[i] == '\\' then QuotedAt(s, i + 1, true)
    else if !inEscape then Prepend([s[i]], QuotedAt(s, i + 1, false))
    else
      match Unescape(s[i])
      case None => Err(BadEscape(s[i]))
      case Some(c) => Prepend([c], QuotedAt(s, i + 1, false))
  }

  /** The token that starts at a position. */
  function TokenFrom(s: string, i: nat): (r: Parsed<(Token, nat)>)
    requires i <= |s|
    ensures if r.Ok? then i < r.value.1 <= |s| else r.error != UnexpectedClose
  {
    if i == |s| then Err(UnexpectedEnd)
    else if s[i] == '(' then Ok((Open, i + 1))
    else if s[i] == ')' then Ok((Close, i + 1))
    else if s[i] == '\"' then
      match QuotedAt(s, i + 1, false)
      case Err(e) => Err(e)
      case Ok((v, j)) => Ok((Quoted(v), j))
    else
      var j := WordEnd(s, i + 1);
      Ok((Other(s[i..j]), j))
  }

  /** The next token and the position past the whitespace after it. */
  function TokenAt(s: string, i: nat): (r: Parsed<(Token, nat)>)
    requires i <= |s|
    ensures if r.Ok? then i < r.value.1 <= |s| else r.error != UnexpectedClose
  {
    match TokenFrom(s, Skip(s, i, false))
    case Err(e) => Err(e)
    case Ok((t, j)) => Ok((t, Skip(s, j, false)))
  }

  // ---------------------------------------------------------------- what the scanner skips and reads

  /** A comment that begins at or after `from` is still open before the position. */
  ghost predicate InComment(s: string, from: nat, k: nat)
    requires k <= |s|
  {
    exists j :: from <= j < k && s[j] == ';' && forall m :: j <= m < k ==> s[m] != '\n'
  }

  ghost predicate Blank(s: string, from: nat, k: nat)
    requires k < |s|
  {
    IsWhitespace(s[k]) || s[k] == ';' || InComment(s, from, k)
  }

  lemma {:induction false} InCommentStep(s: string, from: nat, k: nat)
    requires from <= k < |s|
    ensures InComment(s, from, k + 1) == ((s[k] == ';' || InComment(s, from, k)) && s[k] != '\n')
  {
    if InComment(s, from, k) && s[k] != '\n' {
      var j :| from <= j < k && s[j] == ';' && forall m :: j <= m < k ==> s[m] != '\n';
      assert forall m :: j <= m < k + 1 ==> s[m] != '\n';
    }
  }

  /** Skipping stops at the first character that is outside whitespace and comments. */
  lemma {:induction false} SkipsBlanks(s: string, from: nat, i: nat, inComment: bool)
    requires from <= i <= |s| && inComment == InComment(s, from, i)
    ensures forall k :: i <= k < Skip(s, i, inComment) ==> Blank(s, from, k)
    ensures Skip(s, i, inComment) < |s| ==> !Blank(s, from, Skip(s, i, inComment))
    decreases |s| - i
  {
    hide InComment;
    if i < |s| {
      InCommentStep(s, from, i);
      if Blank(s, from, i) {
        SkipsBlanks(s, from, i + 1, (s[i] == ';' || inComment) && s[i] != '\n');
      }
    }
  }

  /** A word is read up to the first character that ends words. */
  lemma {:induction false} WordIsMaximal(s: string, i: nat)
    requires i <= |s|
    ensures forall k :: i <= k < WordEnd(s, i) ==> !Ends(s[k])
    ensures WordEnd(s, i) < |s| ==> Ends(s[WordEnd(s, i)])
    decreases |s| - i
  {
    hide Ends;
    if i < |s| && !Ends(s[i]) {
      WordIsMaximal(s, i + 1);
    }
  }

  /** The text stands at the position. */
  predicate StandsAt(s: string, i: nat, t: string)
  {
    i + |t| <= |s| && forall k :: 0 <= k < |t| ==> s[i + k] == t[k]
  }

  lemma {:induction false} StandsBoth(s: string, i: nat, a: string, b: string)
    ensures StandsAt(s, i, a + b) <==> StandsAt(s, i, a) && StandsAt(s, i + |a|, b)
  {
    var t := a + b;
    if StandsAt(s, i, t) {
      forall k | 0 <= k < |a| ensures s[i + k] == a[k] {
        assert t[k] == a[k];
      }
      forall k | 0 <= k < |b| ensures s[i + |a| + k] == b[k] {
        assert t[|a| + k] == b[k];
      }
    }
    if StandsAt(s, i, a) && StandsAt(s, i + |a|, b) {
      forall k | 0 <= k < |t| ensures s[i + k] == t[k] {
        if k >= |a| {
          assert t[k] == b[k - |a|] && s[i + |a| + (k - |a|)] == b[k - |a|];
        }
      }
    }
  }

  /** The character and the text after it stand at the position. */
  lemma {:induction false} StandsHead(s: string, i: nat, c: char, t: string)
    ensures StandsAt(s, i, [c] + t) <==> i < |s| && s[i] == c && StandsAt(s, i + 1, t)
  {
    StandsBoth(s, i, [c], t);
    assert StandsAt(s, i, [c]) ==> s[i + 0] == [c][0];
  }

  predicate NeedsEscape(c: char) { c == '\"' || c == '\\' }

  function Escape(c: char): string
  {
    match c
    case '\n' => "\\n"
    case '\t' => "\\t"
    case '\\' => "\\\\"
    case '\"' => "\\\""
    case _ => [c]
  }

  function EscapeAll(v: string): string { if v == "" then "" else Escape(v[0]) + EscapeAll(v[1..]) }

  lemma {:induction false} EscapeReads(s: string, i: nat, c: char)
    requires StandsAt(s, i, Escape(c))
    ensures QuotedAt(s, i, false) == Prepend([c], QuotedAt(s, i + |Escape(c)|, false))
  {
    var e := Escape(c);
    assert s[i + 0] == e[0];
    if |e| == 2 {
      assert s[i + 1] == e[1] && Unescape(e[1]) == Some(c);
      assert QuotedAt(s, i, false) == QuotedAt(s, i + 1, true);
    } else {
      assert !NeedsEscape(s[i]);
    }
  }

  /** Every string in escaped form is read back. */
  lemma {:induction false} EscapedReadsBack(s: string, i: nat, v: string)
    requires StandsAt(s, i, EscapeAll(v) + "\"")
    ensures QuotedAt(s, i, false) == Ok((v, i + |EscapeAll(v)| + 1))
    decreases |v|
  {
    hide Escape, StandsAt;
    if v == "" {
      assert "" + "\"" == ['\"'] + "";
      StandsHead(s, i, '\"', "");
    } else {
      var e, rest := Escape(v[0]), EscapeAll(v[1..]) + "\"";
      assert EscapeAll(v) + "\"" == e + rest;
      StandsBoth(s, i, e, rest);
      EscapeReads(s, i, v[0]);
      EscapedReadsBack(s, i + |e|, v[1..]);
      assert [v[0]] + v[1..] == v;
    }
  }

  /** How many backslashes a text begins with. */
  function Lead(t: string): nat { if t != "" && t[0] == '\\' then 1 + Lead(t[1..]) else 0 }

  function LeadAt(s: string, i: nat): nat
    requires i <= |s|
    decreases |s| - i
  {
    if i < |s| && s[i] == '\\' then 1 + LeadAt(s, i + 1) else 0
  }

  /** Reading halves a run of backslashes. */
  lemma {:induction false} LeadHalves(s: string, i: nat)
    requires i <= |s| && QuotedAt(s, i, false).Ok?
    ensures 2 * Lead(QuotedAt(s, i, false).value.0) <= LeadAt(s, i)
    decreases |s| - i
  {
    var v := QuotedAt(s, i, false).value.0;
    if s[i] == '\\' {
      var w := QuotedAt(s, i + 2, false).value.0;
      assert v[1..] == w;
      if s[i + 1] == '\\' {
        LeadHalves(s, i + 2);
      } else {
        assert v[0] != '\\';
      }
    } else if v != "" {
      assert v[0] == s[i];
    }
  }

  lemma {:induction false} LeadOf(s: string, i: nat, v: string)
    requires StandsAt(s, i, v + "\"")
    ensures LeadAt(s, i) == Lead(v)
    decreases |v|
  {
    if v == "" {
      assert "" + "\"" == ['\"'] + "";
      StandsHead(s, i, '\"', "");
    } else {
      assert v + "\"" == [v[0]] + (v[1..] + "\"");
      StandsHead(s, i, v[0], v[1..] + "\"");
      LeadOf(s, i + 1, v[1..]);
    }
  }

  /** A quoted string as it stands is read back if and only if it has no quote and no backslash. */
  lemma {:induction false} VerbatimReadsBack(s: string, i: nat, v: string)
    requires StandsAt(s, i, v + "\"")
    ensures var r := QuotedAt(s, i, false);
      if forall c :: c in v ==> !NeedsEscape(c) then r == Ok((v, i + |v| + 1)) else r.Ok? ==> r.value.0 != v
    decreases |v|
  {
    if v == "" {
      assert "" + "\"" == ['\"'] + "";
      StandsHead(s, i, '\"', "");
    } else {
      assert v + "\"" == [v[0]] + (v[1..] + "\"") && v == [v[0]] + v[1..];
      StandsHead(s, i, v[0], v[1..] + "\"");
      assert v[0] in v;
      if v[0] == '\\' {
        LeadOf(s, i, v);
        if QuotedAt(s, i, false).Ok? {
          LeadHalves(s, i);
        }
      } else if v[0] != '\"' {
        VerbatimReadsBack(s, i + 1, v[1..]);
        TailOnly(v);
        if QuotedAt(s, i + 1, false).Ok? {
          var w := QuotedAt(s, i + 1, false).value.0;
          assert ([v[0]] + w)[1..] == w;
        }
      }
    }
  }

  lemma {:induction false} TailOnly(v: string)
    requires v != "" && !NeedsEscape(v[0])
    ensures (forall c :: c in v ==> !NeedsEscape(c)) <==> forall c :: c in v[1..] ==> !NeedsEscape(c)
  {
    assert v == [v[0]] + v[1..];
  }

  // ---------------------------------------------------------------- the tokens of an S-expression

  function TokensOf(x: Sexp): (r: seq<Token>)
    ensures r != [] && r[0] != Close
    decreases x, 1
  {
    match x
    case Str(v) => [Quoted(v)]
    case Word(t) => [Other(t)]
    case List(xs) => [Open] + TokensAll(xs) + [Close]
  }

  function TokensAll(xs: seq<Sexp>): (r: seq<Token>)
    ensures r != [] ==> r[0] != Close
    decreases xs, 0
  {
    if xs == [] then [] else TokensOf(xs[0]) + TokensAll(xs[1..])
  }

  lemma {:induction false} TokensSnoc(xs: seq<Sexp>, x: Sexp)
    ensures TokensAll(xs + [x]) == TokensAll(xs) + TokensOf(x)
  {
    var all := xs + [x];
    if xs == [] {
      assert all[1..] == [] && all[0] == x;
    } else {
      assert all[0] == xs[0] && all[1..] == xs[1..] + [x];
      TokensSnoc(xs[1..], x);
    }
  }

  /** An S-expression is determined by its tokens, and where it ends too. */
  lemma {:induction false} TokensDetermine(x: Sexp, y: Sexp, a: seq<Token>, b: seq<Token>)
    requires TokensOf(x) + a == TokensOf(y) + b
    ensures x == y && a == b
    decreases x, 1
  {
    var l, r := TokensOf(x) + a, TokensOf(y) + b;
    assert l[0] == TokensOf(x)[0] && r[0] == TokensOf(y)[0];
    assert l[1..] == TokensOf(x)[1..] + a && r[1..] == TokensOf(y)[1..] + b;
    match x
    case Str(_) => assert a == l[1..] && b == r[1..];
    case Word(_) => assert a == l[1..] && b == r[1..];
    case List(xs) =>
      assert y.List?;
      assert l[1..] == TokensAll(xs) + ([Close] + a) && r[1..] == TokensAll(y.items) + ([Close] + b);
      TokensDetermineAll(xs, y.items, a, b);
  }

  lemma {:induction false} TokensDetermineAll(xs: seq<Sexp>, ys: seq<Sexp>, a: seq<Token>, b: seq<Token>)
    requires TokensAll(xs) + ([Close] + a) == TokensAll(ys) + ([Close] + b)
    ensures xs == ys && a == b
    decreases xs, 0
  {
    var l, r := TokensAll(xs) + ([Close] + a), TokensAll(ys) + ([Close] + b);
    assert l[0] == if xs == [] then Close else TokensOf(xs[0])[0];
    assert r[0] == if ys == [] then Close else TokensOf(ys[0])[0];
    if xs == [] || ys == [] {
      assert xs == [] && ys == [];
      assert a == l[1..] && b == r[1..];
    } else {
      var a', b' := TokensAll(xs[1..]) + ([Close] + a), TokensAll(ys[1..]) + ([Close] + b);
      assert l == TokensOf(xs[0]) + a' && r == TokensOf(ys[0]) + b';
      TokensDetermine(xs[0], ys[0], a', b');
      TokensDetermineAll(xs[1..], ys[1..], a, b);
    }
  }

  // ---------------------------------------------------------------- reading tokens

  /** The position after reading exactly these tokens, if they are what the text has. */
  function After(s: string, i: nat, toks: seq<Token>): (r: Option<nat>)
    requires i <= |s|
    ensures r.Some? ==> i <= r.value <= |s|
    decreases |toks|
  {
    if toks == [] then Some(i)
    else
      match TokenAt(s, i)
      case Err(_) => None
      case Ok((t, j)) => if t == toks[0] then After(s, j, toks[1..]) else None
  }

  lemma {:induction false} AfterBoth(s: string, i: nat, a: seq<Token>, b: seq<Token>)
    requires i <= |s|
    ensures After(s, i, a + b) == if After(s, i, a).None? then None else After(s, After(s, i, a).value, b)
    decreases |a|
  {
    hide TokenAt;
    if a == [] {
      assert a + b == b;
    } else {
      assert (a + b)[0] == a[0] && (a + b)[1..] == a[1..] + b;
      if TokenAt(s, i).Ok? {
        AfterBoth(s, TokenAt(s, i).value.1, a[1..], b);
      }
    }
  }

  lemma {:induction false} AfterOne(s: string, i: nat, t: Token)
    requires i <= |s|
    ensures After(s, i, [t]) ==
            match TokenAt(s, i) case Err(_) => None case Ok((u, j)) => if u == t then Some(j) else None
  {
    hide TokenAt;
    if TokenAt(s, i).Ok? {
      assert [t][1..] == [] && After(s, TokenAt(s, i).value.1, []) == Some(TokenAt(s, i).value.1);
    }
  }

  /** Of two token sequences that the text has, one continues the other. */
  lemma {:induction false} Comparable(s: string, i: nat, a: seq<Token>, b: seq<Token>)
    requires i <= |s| && After(s, i, a).Some? && After(s, i, b).Some?
    ensures a <= b || b <= a
    decreases |a|
  {
    hide TokenAt;
    if a != [] && b != [] {
      Comparable(s, TokenAt(s, i).value.1, a[1..], b[1..]);
      assert a == [a[0]] + a[1..] && b == [b[0]] + b[1..];
    }
  }

  lemma {:induction false} SkipTwice(s: string, i: nat, inComment: bool)
    requires i <= |s|
    ensures Skip(s, Skip(s, i, inComment), false) == Skip(s, i, inComment)
    decreases |s| - i
  {
    if i < |s| && (s[i] == ';' || IsWhitespace(s[i]) || inComment) {
      SkipTwice(s, i + 1, (s[i] == ';' || inComment) && s[i] != '\n');
    }
  }

  /** Reading tokens leaves no whitespace to skip. */
  lemma {:induction false} AfterSkipped(s: string, i: nat, toks: seq<Token>)
    requires i <= |s| && After(s, i, toks).Some? && toks != []
    ensures var k := After(s, i, toks).value; i < k && Skip(s, k, false) == k
    decreases |toks|
  {
    hide TokenFrom, Skip;
    var j := TokenFrom(s, Skip(s, i, false)).value.1;
    SkipTwice(s, j, false);
    if toks[1..] != [] {
      AfterSkipped(s, TokenAt(s, i).value.1, toks[1..]);
    }
  }

  /** A list whose tokens come first comes first. */
  lemma {:induction false} ListPrefix(xs: seq<Sexp>, ys: seq<Sexp>, rest: seq<Token>)
    requires TokensAll(xs) + rest == TokensAll(ys)
    ensures xs <= ys && rest == TokensAll(ys[|xs|..])
  {
    if xs == [] {
      assert TokensAll(xs) + rest == rest;
    } else {
      var a := TokensAll(xs[1..]) + rest;
      assert TokensAll(xs) + rest == TokensOf(xs[0]) + a;
      TokensDetermine(xs[0], ys[0], a, TokensAll(ys[1..]));
      ListPrefix(xs[1..], ys[1..], rest);
      assert xs == [xs[0]] + xs[1..] && ys == [ys[0]] + ys[1..] && ys[1..][|xs| - 1..] == ys[|xs|..];
    }
  }

  // ---------------------------------------------------------------- nesting

  function Delta(t: Token): int { if t.Open? then 1 else if t.Close? then -1 else 0 }

  /** How many lists are open after the tokens. */
  function Depth(toks: seq<Token>): int
  {
    if toks == [] then 0 else Delta(toks[0]) + Depth(toks[1..])
  }

  lemma {:induction false} DepthBoth(a: seq<Token>, b: seq<Token>)
    ensures Depth(a + b) == Depth(a) + Depth(b)
  {
    if a == [] {
      assert a + b == b;
    } else {
      assert (a + b)[0] == a[0] && (a + b)[1..] == a[1..] + b;
      DepthBoth(a[1..], b);
    }
  }

  lemma {:induction false} DepthOne(t: Token)
    ensures Depth([t]) == Delta(t)
  {
    assert [t][1..] == [];
  }

  lemma {:induction false} DepthOfTree(x: Sexp, n: nat)
    requires n <= |TokensOf(x)|
    ensures Depth(TokensOf(x)[..n]) >= 0 && Depth(TokensOf(x)) == 0
    decreases x, 1
  {
    var toks := TokensOf(x);
    if x.List? {
      var inner := TokensAll(x.items);
      DepthOfAll(x.items, if n == 0 then 0 else if n - 1 <= |inner| then n - 1 else |inner|);
      DepthOne(Open);
      DepthOne(Close);
      DepthBoth([Open] + inner, [Close]);
      DepthBoth([Open], inner);
      if 0 < n <= |inner| + 1 {
        assert toks[..n] == [Open] + inner[..n - 1];
        DepthBoth([Open], inner[..n - 1]);
      } else if n > 0 {
        assert toks[..n] == toks;
      }
    } else {
      DepthOne(toks[0]);
      assert toks[..n] == if n == 0 then [] else toks;
    }
  }

  lemma {:induction false} DepthOfAll(xs: seq<Sexp>, n: nat)
    requires n <= |TokensAll(xs)|
    ensures Depth(TokensAll(xs)[..n]) >= 0 && Depth(TokensAll(xs)) == 0
    decreases xs, 0
  {
    if xs != [] {
      var first, rest := TokensOf(xs[0]), TokensAll(xs[1..]);
      DepthOfTree(xs[0], if n <= |first| then n else |first|);
      DepthOfAll(xs[1..], if n <= |first| then 0 else n - |first|);
      DepthBoth(first, rest);
      if n <= |first| {
        assert TokensAll(xs)[..n] == first[..n];
      } else {
        assert TokensAll(xs)[..n] == first + rest[..n - |first|];
        DepthBoth(first, rest[..n - |first|]);
      }
    }
  }

  /** The tokens read while the lists of the stack are open. */
  function StackTokens(stack: seq<seq<Sexp>>): seq<Token>
  {
    if stack == [] then []
    else StackTokens(stack[..|stack| - 1]) + ([Open] + TokensAll(stack[|stack| - 1]))
  }

  lemma {:induction false} DepthOfStack(stack: seq<seq<Sexp>>, n: nat)
    requires 0 < n <= |StackTokens(stack)|
    ensures Depth(StackTokens(stack)[..n]) >= 1
    ensures Depth(StackTokens(stack)) == |stack|
    decreases |stack|
  {
    var toks, below := StackTokens(stack), StackTokens(stack[..|stack| - 1]);
    var top := stack[|stack| - 1];
    var part := [Open] + TokensAll(top);
    DepthOne(Open);
    DepthOfAll(top, 0);
    DepthBoth([Open], TokensAll(top));
    DepthBoth(below, part);
    if below != [] {
      DepthOfStack(stack[..|stack| - 1], if n <= |below| then n else |below|);
    } else {
      assert |stack| == 1;
    }
    if n <= |below| {
      assert toks[..n] == below[..n];
    } else {
      var m := n - |below| - 1;
      DepthOfAll(top, m);
      assert toks[..n] == below + ([Open] + TokensAll(top)[..m]);
      DepthBoth(below, [Open] + TokensAll(top)[..m]);
      DepthBoth([Open], TokensAll(top)[..m]);
    }
  }

  /** No S-expression stands at the position. */
  ghost predicate NoSexp(s: string, i: nat)
    requires i <= |s|
  {
    forall x :: After(s, i, TokensOf(x)) == None
  }

  lemma {:induction false} Unreadable(s: string, k: nat, toks: seq<Token>)
    requires k <= |s| && TokenAt(s, k).Err? && toks != []
    ensures After(s, k, toks) == None
  {
  }

  lemma {:induction false} FailsInside(s: string, i: nat, stack: seq<seq<Sexp>>, k: nat)
    requires i <= |s| && k <= |s| && After(s, i, StackTokens(stack)) == Some(k) && TokenAt(s, k).Err?
    ensures NoSexp(s, i)
  {
    hide TokenAt, TokensOf, StackTokens, Depth, After;
    forall x ensures After(s, i, TokensOf(x)) == None {
      var toks, open := TokensOf(x), StackTokens(stack);
      if After(s, i, toks).Some? {
        Comparable(s, i, toks, open);
        if toks <= open {
          assert open[..|toks|] == toks;
          DepthOfTree(x, 0);
          DepthOfStack(stack, |toks|);
        } else {
          var rest := toks[|open|..];
          assert toks == open + rest;
          AfterBoth(s, i, open, rest);
          Unreadable(s, k, rest);
        }
      }
    }
  }

  /** The error is that of the first token that cannot be read, or the text begins with a closing parenthesis. */
  ghost predicate FailsWith(s: string, i: nat, e: ParseError)
    requires i <= |s|
  {
    if e == UnexpectedClose then TokenAt(s, i).Ok? && TokenAt(s, i).value.0 == Close
    else exists toks :: After(s, i, toks).Some? && TokenAt(s, After(s, i, toks).value) == Err(e)
  }

  // ---------------------------------------------------------------- one turn of the parser

  lemma {:induction false} Extended(s: string, i: nat, toks: seq<Token>, t: Token)
    requires i <= |s| && After(s, i, toks).Some? && TokenAt(s, After(s, i, toks).value).Ok?
    requires TokenAt(s, After(s, i, toks).value).value.0 == t
    ensures After(s, i, toks + [t]) == Some(TokenAt(s, After(s, i, toks).value).value.1)
  {
    hide TokenAt, After;
    AfterBoth(s, i, toks, [t]);
    AfterOne(s, After(s, i, toks).value, t);
  }

  lemma {:induction false} FailsHere(s: string, i: nat, toks: seq<Token>, e: ParseError)
    requires i <= |s| && After(s, i, toks).Some? && TokenAt(s, After(s, i, toks).value) == Err(e)
    ensures FailsWith(s, i, e)
  {
    hide TokenAt, After;
  }

  /** The tokens up to `k` are those read while the lists of the stack were opened. */
  ghost predicate Reading(s: string, i: nat, stack: seq<seq<Sexp>>, k: nat)
    requires i <= |s|
  {
    After(s, i, StackTokens(stack)) == Some(k)
  }

  /** And then the S-expression was read. */
  ghost predicate Read(s: string, i: nat, stack: seq<seq<Sexp>>, x: Sexp, k: nat)
    requires i <= |s|
  {
    After(s, i, StackTokens(stack) + TokensOf(x)) == Some(k)
  }

  lemma {:induction false} OpenTurn(s: string, i: nat, stack: seq<seq<Sexp>>, k: nat)
    requires i <= |s| && k <= |s| && Reading(s, i, stack, k) && TokenAt(s, k).Ok? && TokenAt(s, k).value.0 == Open
    ensures Reading(s, i, stack + [[]], TokenAt(s, k).value.1)
  {
    hide TokenAt, After;
    Extended(s, i, StackTokens(stack), Open);
    assert (stack + [[]])[..|stack|] == stack && [Open] + TokensAll([]) == [Open];
  }

  lemma {:induction false} CloseTurn(s: string, i: nat, stack: seq<seq<Sexp>>, k: nat)
    requires i <= |s| && k <= |s| && Reading(s, i, stack, k) && TokenAt(s, k).Ok? && TokenAt(s, k).value.0 == Close
    requires stack != []
    ensures Read(s, i, stack[..|stack| - 1], List(stack[|stack| - 1]), TokenAt(s, k).value.1)
  {
    hide TokenAt, After;
    Extended(s, i, StackTokens(stack), Close);
    var below, top := stack[..|stack| - 1], stack[|stack| - 1];
    assert StackTokens(stack) + [Close] == StackTokens(below) + TokensOf(List(top));
  }

  lemma {:induction false} LeafTurn(s: string, i: nat, stack: seq<seq<Sexp>>, k: nat, x: Sexp)
    requires i <= |s| && k <= |s| && Reading(s, i, stack, k) && TokenAt(s, k).Ok? && !x.List?
    requires TokenAt(s, k).value.0 == if x.Str? then Quoted(x.value) else Other(x.text)
    ensures Read(s, i, stack, x, TokenAt(s, k).value.1)
  {
    hide TokenAt, After;
    Extended(s, i, StackTokens(stack), TokenAt(s, k).value.0);
  }

  lemma {:induction false} Grown(s: string, i: nat, stack: seq<seq<Sexp>>, x: Sexp, k: nat)
    requires i <= |s| && Read(s, i, stack, x, k) && stack != []
    ensures Reading(s, i, stack[..|stack| - 1] + [stack[|stack| - 1] + [x]], k)
  {
    hide After, TokensOf, TokensAll;
    var below, top := stack[..|stack| - 1], stack[|stack| - 1];
    TokensSnoc(top, x);
    var grown := below + [top + [x]];
    assert grown[..|grown| - 1] == below && grown[|grown| - 1] == top + [x];
    assert StackTokens(grown) == StackTokens(stack) + TokensOf(x);
  }

  lemma {:induction false} Start(s: string, i: nat)
    requires i <= |s|
    ensures Reading(s, i, [], i) && forall k :: Reading(s, i, [], k) ==> k == i
  {
  }

  lemma {:induction false} Whole(s: string, i: nat, x: Sexp, k: nat)
    requires i <= |s| && Read(s, i, [], x, k)
    ensures After(s, i, TokensOf(x)) == Some(k)
  {
    hide After, TokensOf;
    assert StackTokens([]) + TokensOf(x) == TokensOf(x);
  }

  lemma {:induction false} FailedTurn(s: string, i: nat, stack: seq<seq<Sexp>>, k: nat)
    requires i <= |s| && k <= |s| && Reading(s, i, stack, k) && TokenAt(s, k).Err?
    ensures NoSexp(s, i) && FailsWith(s, i, TokenAt(s, k).error)
  {
    hide TokenAt, After, NoSexp, FailsWith;
    FailsInside(s, i, stack, k);
    FailsHere(s, i, StackTokens(stack), TokenAt(s, k).error);
  }

  lemma {:induction false} FailsAtClose(s: string, i: nat)
    requires i <= |s| && TokenAt(s, i).Ok? && TokenAt(s, i).value.0 == Close
    ensures NoSexp(s, i) && FailsWith(s, i, UnexpectedClose)
  {
    hide TokenAt, TokensOf;
  }

  // ---------------------------------------------------------------- the parser

  class SexpParser {
    const contents: string
    var index: nat

    ghost predicate Valid()
      reads this
    {
      index <= |contents|
    }

    constructor (contents: string)
      ensures Valid() && this.contents == contents && index == 0
    {
      this.contents := contents;
      index := 0;
    }

    method AdvancePastWhitespace()
      requires Valid()
      modifies this`index
      ensures Valid() && index == Skip(contents, old(index), false)
    {
      var inComment := false;
      while true
        invariant Valid() && Skip(contents, index, inComment) == Skip(contents, old(index), false)
        decreases |contents| - index
      {
        if index == |contents| {
          return;
        }
        var c := contents[index];
        if c == ';' {
          inComment := true;
        } else if c == '\n' {
          inComment := false;
        } else if IsWhitespace(c) || inComment {
        } else {
          return;
        }
        index := index + 1;
      }
    }

    /** The rest of a quoted string, unescaped. */
    method ReadQuoted() returns (r: Parsed<string>)
      requires Valid()
      modifies this`index
      ensures Valid() && old(index) <= index
      ensures QuotedAt(contents, old(index), false) == if r.Ok? then Ok((r.value, index)) else Err(r.error)
    {
      var inEscape, text := false, "";
      PrependNothing(QuotedAt(contents, index, false));
      while true
        invariant Valid() && old(index) <= index
        invariant QuotedAt(contents, old(index), false) == Prepend(text, QuotedAt(contents, index, inEscape))
        decreases |contents| - index
      {
        if index == |contents| {
          return Err(MissingQuote);
        }
        var c := contents[index];
        if c == '\"' && !inEscape {
          index := index + 1;
          assert text + "" == text;
          return Ok(text);
        } else if c == '\\' && !inEscape {
          inEscape := true;
        } else {
          var out := c;
          if inEscape {
            match c
            case 'n' => out := '\n';
            case 't' => out := '\t';
            case '\\' => out := '\\';
            case '\"' => out := '\"';
            case _ => return Err(BadEscape(c));
          }
          PrependBoth(text, [out], QuotedAt(contents, index + 1, false));
          text := text + [out];
          inEscape := false;
        }
        index := index + 1;
      }
    }

    method Next() returns (r: Parsed<Token>)
      requires Valid()
      modifies this`index
      ensures Valid() && old(index) <= index
      ensures TokenAt(contents, old(index)) == if r.Ok? then Ok((r.value, index)) else Err(r.error)
    {
      AdvancePastWhitespace();
      if index == |contents| {
        return Err(UnexpectedEnd);
      }
      var start, c := index, contents[index];
      index := index + 1;
      if c == '(' {
        r := Ok(Open);
      } else if c == ')' {
        r := Ok(Close);
      } else if c == '\"' {
        var text := ReadQuoted();
        if text.Err? {
          return Err(text.error);
        }
        r := Ok(Quoted(text.value));
      } else {
        while index < |contents| && !(IsWhitespace(contents[index]) || contents[index] in ";()")
          invariant start < index <= |contents| && WordEnd(contents, start + 1) == WordEnd(contents, index)
        {
          index := index + 1;
        }
        r := Ok(Other(contents[start..index]));
      }
      AdvancePastWhitespace();
    }

    /**
     One S-expression, with a stack of the lists that are open: the tokens up to the new position are exactly those of
     the result, and a failure means that no S-expression stands here.
     */
    method ParseSexp() returns (r: Parsed<Sexp>)
      requires Valid()
      modifies this`index
      ensures Valid() && old(index) <= index
      ensures r.Ok? ==> After(contents, old(index), TokensOf(r.value)) == Some(index) && old(index) < index
      ensures r.Err? ==> NoSexp(contents, old(index)) && FailsWith(contents, old(index), r.error)
    {
      hide After, TokenAt, StackTokens, TokensOf, TokensAll, NoSexp, FailsWith, Reading, Read;
      var stack: seq<seq<Sexp>> := [];
      Start(contents, index);
      while true
        invariant Valid() && old(index) <= index && Reading(contents, old(index), stack, index)
        decreases |contents| - index
      {
        ghost var before := index;
        var token := Next();
        if token.Err? {
          FailedTurn(contents, old(index), stack, before);
          return Err(token.error);
        }
        var sexp;
        match token.value {
          case Open =>
            OpenTurn(contents, old(index), stack, before);
            stack := stack + [[]];
            continue;
          case Close =>
            if stack == [] {
              Start(contents, old(index));
              FailsAtClose(contents, old(index));
              return Err(UnexpectedClose);
            }
            CloseTurn(contents, old(index), stack, before);
            sexp := List(stack[|stack| - 1]);
            stack := stack[..|stack| - 1];
          case Quoted(text) =>
            sexp := Str(text);
            LeafTurn(contents, old(index), stack, before, sexp);
          case Other(text) =>
            sexp := Word(text);
            LeafTurn(contents, old(index), stack, before, sexp);
        }
        if stack == [] {
          Whole(contents, old(index), sexp, index);
          return Ok(sexp);
        }
        Grown(contents, old(index), stack, sexp, index);
        stack := stack[..|stack| - 1] + [stack[|stack| - 1] + [sexp]];
      }
    }
  }

  /** The text is exactly these S-expressions. */
  ghost predicate IsText(s: string, xs: seq<Sexp>)
  {
    After(s, Skip(s, 0, false), TokensAll(xs)) == Some(|s|)
  }

  /** After the expressions read so far nothing can be read, so the text is no list of S-expressions. */
  lemma {:induction false} NotText(s: string, xs: seq<Sexp>, k: nat, ys: seq<Sexp>)
    requires After(s, Skip(s, 0, false), TokensAll(xs)) == Some(k) && k < |s| && NoSexp(s, k)
    ensures !IsText(s, ys)
  {
    hide After, TokensAll, TokensOf, Skip;
    var i, a, b := Skip(s, 0, false), TokensAll(xs), TokensAll(ys);
    if IsText(s, ys) {
      Comparable(s, i, a, b);
      if a <= b {
        assert a + b[|a|..] == b;
        ListPrefix(xs, ys, b[|a|..]);
        AfterBoth(s, i, a, b[|a|..]);
        Unread(s, k, ys[|xs|..]);
      } else {
        assert b + a[|b|..] == a;
        AfterBoth(s, i, b, a[|b|..]);
      }
    }
  }

  lemma {:induction false} Unread(s: string, k: nat, ys: seq<Sexp>)
    requires k < |s| && NoSexp(s, k)
    ensures After(s, k, TokensAll(ys)) != Some(|s|)
  {
    hide TokensOf;
    if ys != [] {
      AfterBoth(s, k, TokensOf(ys[0]), TokensAll(ys[1..]));
    }
  }

  lemma {:induction false} TextGrows(s: string, i: nat, xs: seq<Sexp>, k: nat, x: Sexp, k': nat)
    requires i <= |s| && k <= |s| && After(s, i, TokensAll(xs)) == Some(k) && After(s, k, TokensOf(x)) == Some(k')
    ensures After(s, i, TokensAll(xs + [x])) == Some(k') && Skip(s, k', false) == k'
  {
    hide After, TokensAll, TokensOf, Skip;
    TokensSnoc(xs, x);
    AfterBoth(s, i, TokensAll(xs), TokensOf(x));
    AfterSkipped(s, k, TokensOf(x));
  }

  /** All S-expressions of a text, or a failure if and only if the text is no list of S-expressions. */
  method AllSexps(contents: string) returns (r: Parsed<seq<Sexp>>)
    ensures r.Ok? ==> IsText(contents, r.value) && forall ys :: IsText(contents, ys) ==> ys == r.value
    ensures r.Err? ==> forall ys :: !IsText(contents, ys)
  {
    hide After, TokensAll, TokensOf, Skip, NoSexp;
    var ctx := new SexpParser(contents);
    var sexps: seq<Sexp> := [];
    ctx.AdvancePastWhitespace();
    ghost var start := ctx.index;
    NoTokens(contents, start);
    SkipTwice(contents, 0, false);
    while ctx.index != |contents|
      invariant ctx.Valid() && ctx.contents == contents && start == Skip(contents, 0, false)
      invariant After(contents, start, TokensAll(sexps)) == Some(ctx.index)
      invariant Skip(contents, ctx.index, false) == ctx.index
      decreases |contents| - ctx.index
    {
      ghost var before := ctx.index;
      var sexp := ctx.ParseSexp();
      if sexp.Err? {
        forall ys ensures !IsText(contents, ys) {
          NotText(contents, sexps, before, ys);
        }
        return Err(sexp.error);
      }
      TextGrows(contents, start, sexps, before, sexp.value, ctx.index);
      sexps := sexps + [sexp.value];
      ctx.AdvancePastWhitespace();
    }
    forall ys | IsText(contents, ys) ensures ys == sexps {
      OneText(contents, sexps, ys);
    }
    return Ok(sexps);
  }

  lemma {:induction false} NoTokens(s: string, i: nat)
    requires i <= |s|
    ensures After(s, i, TokensAll([])) == Some(i)
  {
  }

  lemma {:induction false} OneText(s: string, xs: seq<Sexp>, ys: seq<Sexp>)
    requires IsText(s, xs) && IsText(s, ys)
    ensures xs == ys
  {
    hide After, TokensAll, TokensOf, Skip;
    var i, a, b := Skip(s, 0, false), TokensAll(xs), TokensAll(ys);
    Comparable(s, i, a, b);
    if a <= b {
      SameEnd(s, i, a, b);
      ListPrefix(xs, ys, []);
      ListPrefix(ys, xs, []);
    } else {
      SameEnd(s, i, b, a);
      ListPrefix(xs, ys, []);
      ListPrefix(ys, xs, []);
    }
  }

  lemma {:induction false} SameEnd(s: string, i: nat, a: seq<Token>, b: seq<Token>)
    requires i <= |s| && a <= b && After(s, i, a) == After(s, i, b) != None
    ensures a == b && a + [] == b && b + [] == a
  {
    hide After;
    var rest := b[|a|..];
    assert a + rest == b;
    AfterBoth(s, i, a, rest);
    if rest != [] {
      AfterSkipped(s, After(s, i, a).value, rest);
    }
  }
}
