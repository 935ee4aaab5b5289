/** Lexing printed text: the two balanced-delimiter scanners pass over it alike, and the lexer
    reads exactly the tokens that were printed. */
module PrintLex {
  import opened Ast
  import opened Decimal
  import opened LexSpec
  import opened ParseSpec
  import opened Print

  lemma Assoc(a: string, b: string, c: string)
    ensures (a + b) + c == a + (b + c)
  {
  }

  lemma DropHead(a: string, b: string)
    ensures (a + b)[|a|..] == b
  {
  }

  // ---------------------------------------------------------------- the two delimiter scanners

  /** Both scanners of a parenthesised text pass over `t` without noticing it, at depth `d` and in
      front of `r`: the lexer's, which skips single-quoted text, and the parser's, which does not. */
  predicate Passes(t: string, d: nat, r: string) {
    && BalancedRun(t + r, '(', ')', d) == Plus(|t|, BalancedRun(r, '(', ')', d))
    && Extract(t + r, d, ")") == Further(|t|, Extract(r, d, ")"))
  }

  ghost predicate Inert(t: string) {
    forall d: nat, r: string :: d > 0 ==> Passes(t, d, r)
  }

  lemma InertEmpty()
    ensures Inert("")
  {
    forall d: nat, r: string | d > 0 ensures Passes("", d, r) {
      assert "" + r == r;
    }
  }

  lemma PassesConcat(a: string, b: string, d: nat, r: string)
    requires Passes(a, d, b + r) && Passes(b, d, r)
    ensures Passes(a + b, d, r)
  {
    hide BalancedRun;
    hide Extract;
    Assoc(a, b, r);
  }

  lemma InertConcat(a: string, b: string)
    requires Inert(a) && Inert(b)
    ensures Inert(a + b)
  {
    hide Passes;
    forall d: nat, r: string | d > 0 ensures Passes(a + b, d, r) {
      PassesConcat(a, b, d, r);
    }
  }

  lemma OneStep(c: char, r: string, d: nat)
    requires c != '\'' && d > 0 && (c == ')' ==> d > 1)
    ensures var e := if c == '(' then d + 1 else if c == ')' then d - 1 else d;
            && BalancedRun([c] + r, '(', ')', d) == Plus(1, BalancedRun(r, '(', ')', e))
            && Extract([c] + r, d, ")") == Further(1, Extract(r, e, ")"))
  {
    assert ([c] + r)[1..] == r;
  }

  lemma InertChar(c: char)
    requires c != '\'' && c != '(' && c != ')'
    ensures Inert([c])
  {
    hide BalancedRun;
    hide Extract;
    forall d: nat, r: string | d > 0 ensures Passes([c], d, r) {
      OneStep(c, r, d);
    }
  }

  /** Text without parentheses or single quotes. */
  predicate IsTame(s: string) {
    '\'' !in s && '(' !in s && ')' !in s
  }

  lemma {:induction false} TameIsBalanced(s: string, k: nat)
    requires IsTame(s)
    ensures Depth(s, k) == Some(k)
  {
    if s != "" { TameIsBalanced(s[1..], k); }
  }

  lemma InertTame(s: string)
    requires IsTame(s)
    ensures Inert(s)
  {
    TameIsBalanced(s, 0);
    InertBalanced(s);
  }

  lemma {:induction false} LexerInStep(s: string, k: nat, d: nat, r: string)
    requires '\'' !in s && Depth(s, k).Some? && d > 0
    ensures BalancedRun(s + r, '(', ')', d + k) == Plus(|s|, BalancedRun(r, '(', ')', d + Depth(s, k).value))
  {
    if s == "" {
      assert s + r == r;
    } else {
      assert (s + r)[1..] == s[1..] + r;
      LexerInStep(s[1..], if s[0] == '(' then k + 1 else if s[0] == ')' then k - 1 else k, d, r);
    }
  }

  lemma {:induction false} ParserInStep(s: string, k: nat, d: nat, r: string, close: string)
    requires Depth(s, k).Some? && d > 0 && (close == ")" || close == "))")
    ensures Extract(s + r, d + k, close) == Further(|s|, Extract(r, d + Depth(s, k).value, close))
  {
    hide Extract;
    hide Further;
    var x := Extract(r, d + Depth(s, k).value, close);
    if s == "" {
      assert s + r == r;
      FurtherZero(x);
    } else {
      var k' := if s[0] == '(' then k + 1 else if s[0] == ')' then k - 1 else k;
      FurtherTwice(1, |s| - 1, x, None);
      ExtractStep(s[0], s[1..] + r, d + k, d + k', close);
      assert s + r == [s[0]] + (s[1..] + r);
      ParserInStep(s[1..], k', d, r, close);
    }
  }

  lemma ExtractStep(c: char, r: string, d: nat, e: nat, close: string)
    requires d > 0 && (c == ')' ==> d > 1) && (close == ")" || close == "))")
    requires e == if c == '(' then d + 1 else if c == ')' then d - 1 else d
    ensures Extract([c] + r, d, close) == Further(1, Extract(r, e, close))
  {
    assert ([c] + r)[1..] == r;
  }

  /** The two scanners stay in step over any text without single quotes that closes only what it
      opened, whatever the delimiter the parser's is looking for. */
  lemma ScannersStayInStep(s: string, k: nat, d: nat, r: string, close: string)
    requires '\'' !in s && Depth(s, k).Some? && d > 0 && (close == ")" || close == "))")
    ensures var e := d + Depth(s, k).value;
            && BalancedRun(s + r, '(', ')', d + k) == Plus(|s|, BalancedRun(r, '(', ')', e))
            && Extract(s + r, d + k, close) == Further(|s|, Extract(r, e, close))
  {
    LexerInStep(s, k, d, r);
    ParserInStep(s, k, d, r, close);
  }

  lemma InertBalanced(s: string)
    requires IsBalanced(s)
    ensures Inert(s)
  {
    hide BalancedRun;
    hide Extract;
    hide Depth;
    forall d: nat, r: string | d > 0 ensures Passes(s, d, r) {
      ScannersStayInStep(s, 0, d, r, ")");
    }
  }

  lemma FurtherZero(x: Option<(nat, nat)>)
    ensures Further(0, x) == x
  {
  }

  lemma FurtherTwice(a: nat, b: nat, x: Option<(nat, nat)>, y: Option<nat>)
    ensures Further(a, Further(b, x)) == Further(a + b, x)
    ensures Plus(a, Plus(b, y)) == Plus(a + b, y)
  {
  }

  lemma PassesParens(t: string, d: nat, r: string)
    requires d > 0 && Passes(t, d + 1, [')'] + r)
    ensures Passes(['('] + t + [')'], d, r)
  {
    hide BalancedRun;
    hide Extract;
    hide Further;
    hide Plus;
    var x, y := Extract(r, d, ")"), BalancedRun(r, '(', ')', d);
    OneStep('(', t + ([')'] + r), d);
    OneStep(')', r, d + 1);
    ParensAssoc(t, r);
    FurtherTwice(|t|, 1, x, y);
    FurtherTwice(1, |t| + 1, x, y);
  }

  lemma ParensAssoc(t: string, r: string)
    ensures ['('] + t + [')'] + r == ['('] + (t + ([')'] + r))
  {
  }

  /** Parentheses around an inert text make an inert text. */
  lemma InertParens(t: string)
    requires Inert(t)
    ensures Inert("(" + t + ")")
  {
    hide Passes;
    forall d: nat, r: string | d > 0 ensures Passes("(" + t + ")", d, r) {
      assert Passes(t, d + 1, [')'] + r);
      PassesParens(t, d, r);
    }
  }

  /** The lexer's scanner skips text between single quotes. */
  lemma LexerSkipsQuoted(t: string, d: nat, r: string)
    requires '\'' !in t && d > 0
    ensures BalancedRun("'" + t + "'" + r, '(', ')', d) == Plus(|t| + 2, BalancedRun(r, '(', ')', d))
  {
    hide Before;
    var s := "'" + t + "'" + r;
    assert s[1..] == t + ("'" + r);
    BeforeOf(t, '\'', "'" + r);
    assert s[|t| + 2..] == r;
  }

  /** The parser's scanner reads it like any other text. */
  lemma ParserReadsQuoted(t: string, d: nat, r: string)
    requires d > 0 && Passes(t, d, "'" + r)
    ensures Extract("'" + t + "'" + r, d, ")") == Further(|t| + 2, Extract(r, d, ")"))
  {
    hide BalancedRun;
    hide Extract;
    var close := "'" + r;
    QuoteStep(t + close, d);
    QuoteStep(r, d);
    assert "'" + t + "'" + r == "'" + (t + close);
  }

  lemma QuoteStep(r: string, d: nat)
    requires d > 0
    ensures Extract("'" + r, d, ")") == Further(1, Extract(r, d, ")"))
  {
    assert ("'" + r)[1..] == r;
  }

  lemma InertQuoted(t: string)
    requires IsBalanced(t)
    ensures Inert("'" + t + "'")
  {
    hide BalancedRun;
    hide Extract;
    InertBalanced(t);
    forall d: nat, r: string | d > 0 ensures Passes("'" + t + "'", d, r) {
      LexerSkipsQuoted(t, d, r);
      assert Passes(t, d, "'" + r);
      ParserReadsQuoted(t, d, r);
    }
  }

  lemma {:induction false} BeforeOf(t: string, c: char, r: string)
    requires c !in t && (r == "" || r[0] == c)
    ensures Before(t + r, c) == |t|
  {
    if t == "" {
      assert t + r == r;
    } else {
      assert (t + r)[1..] == t[1..] + r;
      BeforeOf(t[1..], c, r);
    }
  }

  // ---------------------------------------------------------------- printed text is inert

  lemma {:induction false} EscapeKeepsDepth(s: string, k: nat)
    requires '\'' !in s
    ensures '\'' !in Escape(s) && '\'' !in EscapeDq(s)
    ensures Depth(Escape(s), k) == Depth(s, k) == Depth(EscapeDq(s), k)
  {
    if s != "" {
      var k' := if s[0] == '(' then k + 1 else if s[0] == ')' && k > 0 then k - 1 else k;
      EscapeKeepsDepth(s[1..], k');
      HeadDepth(s[0], s[1..], k);
      EscapedHead(s);
      HeadDepth(s[0], Escape(s[1..]), k);
      HeadDepth(s[0], EscapeDq(s[1..]), k);
      assert s == [s[0]] + s[1..];
    }
  }

  lemma EscapedHead(s: string)
    requires s != ""
    ensures Escape(s) == [s[0]] + Escape(s[1..]) || Escape(s) == ['\\'] + ([s[0]] + Escape(s[1..]))
    ensures EscapeDq(s) == [s[0]] + EscapeDq(s[1..]) || EscapeDq(s) == ['\\'] + ([s[0]] + EscapeDq(s[1..]))
  {
    Assoc(['\\'], [s[0]], Escape(s[1..]));
    Assoc(['\\'], [s[0]], EscapeDq(s[1..]));
    assert ['\\', s[0]] == ['\\'] + [s[0]];
  }

  lemma HeadDepth(c: char, t: string, k: nat)
    ensures var k' := if c == '(' then k + 1 else if c == ')' && k > 0 then k - 1 else k;
            Depth([c] + t, k) == Depth(['\\'] + ([c] + t), k) == if c == ')' && k == 0 then None else Depth(t, k')
  {
    assert ([c] + t)[1..] == t;
    assert (['\\'] + ([c] + t))[1..] == [c] + t;
  }

  lemma InertArith(expr: string)
    requires IsBalanced(expr)
    ensures Inert(ArithText(expr))
  {
    hide Inert;
    hide Depth;
    InertBalanced(expr);
    InertParens(expr);
    InertParens("(" + expr + ")");
    InertChar('$');
    InertConcat("$", "(" + ("(" + expr + ")") + ")");
    assert "$" + ("(" + ("(" + expr + ")") + ")") == ArithText(expr);
  }

  /** Escaping adds backslashes and nothing else. */
  lemma {:induction false} EscapeAddsBackslashes(s: string)
    ensures forall c :: c in Escape(s) ==> c in s || c == '\\'
  {
    if s != "" { EscapeAddsBackslashes(s[1..]); }
  }

  /** No character that a scanner for quotes, parentheses or braces cares about. */
  lemma InnerIsQuiet(v: VarExpr)
    requires WfVar(v) && !v.Special?
    ensures forall c :: c in InnerText(v) ==> c !in "'(){}"
  {
    hide Escape;
    assert forall c :: c in v.name ==> IsNameChar(c);
    if !v.Named? && !v.Length? {
      EscapeAddsBackslashes(v.word.s);
      assert forall c :: c in OperandText(v.word) ==> c !in "'(){}";
    }
  }

  lemma VarTextIsTame(v: VarExpr)
    requires WfVar(v)
    ensures IsTame(VarText(v))
  {
    hide InnerText;
    if v.Special? {
      if v.special.Positional? { assert IsDigit(DigitChar(v.special.n)); }
    } else {
      InnerIsQuiet(v);
    }
  }

  lemma NumberIsTame(n: nat)
    ensures IsTame(Show(n))
  {
    assert forall c :: c in Show(n) ==> IsDigit(c);
  }

  lemma InertSubst(script: seq<Command>)
    requires WfScript(script, true)
    ensures Inert(SubstText(script))
    decreases script, 1
  {
    hide Inert;
    hide WfScript;
    hide ToksScript;
    var t := InertScript(script, AtEof);
    assert Render(AtEof, false) == "" && t + "" == t;
    InertDollarParens(t);
  }

  lemma InertDollarParens(t: string)
    requires Inert(t)
    ensures Inert("$(" + t + ")")
  {
    hide Inert;
    InertParens(t);
    InertChar('$');
    InertConcat("$", "(" + t + ")");
    assert "$" + ("(" + t + ")") == "$(" + t + ")";
  }

  lemma InertPart(w: Word)
    requires WfPart(w, true)
    ensures Inert(PartText(w))
    decreases w, 0
  {
    hide Inert;
    match w
    case Literal(s) => EscapeKeepsDepth(s, 0); InertBalanced(Escape(s));
    case Variable(v) => VarTextIsTame(v); InertTame(VarText(v));
    case CommandSubst(script) => InertSubst(script);
    case ArithSubst(expr) => InertArith(expr);
  }

  lemma {:induction false} InertParts(parts: seq<Word>)
    requires WfParts(parts, true)
    ensures Inert(PartsText(parts))
    decreases parts
  {
    hide Inert;
    if parts == [] {
      InertEmpty();
    } else {
      InertPart(parts[0]);
      InertParts(parts[1..]);
      InertConcat(PartText(parts[0]), PartsText(parts[1..]));
    }
  }

  lemma InertLiteral(s: string)
    requires s != "" && '\n' !in s && IsBalanced(s)
    ensures Inert(LiteralText(s))
  {
    hide Inert;
    hide IsBalanced;
    if IsReserved(s) {
      InertTame(LiteralText(s));
    } else {
      EscapedIsBalanced(s);
      InertBalanced(Escape(s));
    }
  }

  lemma EscapedIsBalanced(s: string)
    requires IsBalanced(s)
    ensures IsBalanced(Escape(s)) && IsBalanced(EscapeDq(s))
  {
    EscapeKeepsDepth(s, 0);
  }

  lemma InertWordText(w: Word)
    requires WfWord(w, true) && !w.SingleQuoted? && !w.DoubleQuoted?
    ensures Inert(WordText(w))
    decreases w, 1
  {
    hide Inert;
    hide WfScript;
    hide WfParts;
    hide PartsText;
    hide SubstText;
    match w
    case Literal(s) => InertLiteral(s);
    case Concat(ps) => InertParts(ps);
    case Variable(_) => InertPart(w);
    case CommandSubst(_) => InertPart(w);
    case ArithSubst(_) => InertPart(w);
  }

  lemma InertDqPart(p: DQPart)
    requires if p.DQLiteral? then IsBalanced(p.s) else WfDqExpansion(p)
    ensures Inert(DqPartText(p))
    decreases p
  {
    hide Inert;
    match p
    case DQVariable(v) => VarTextIsTame(v); InertTame(VarText(v));
    case DQCommandSubst(script) => InertSubst(script);
    case DQArithSubst(expr) => InertArith(expr);
    case DQLiteral(s) => InertBalanced(s);
  }

  lemma {:induction false} InertDqRun(ps: seq<DQPart>)
    requires WfRun(ps, true)
    ensures Inert(DqRunText(ps))
    decreases ps, 0
  {
    hide Inert;
    if ps == [] {
      InertEmpty();
    } else {
      InertDqPart(ps[0]);
      InertDqRun(ps[1..]);
      InertConcat(DqPartText(ps[0]), DqRunText(ps[1..]));
    }
  }

  /** A text that a construct prints in front of what follows it. */
  ghost predicate Prints(ts: Toks, dq: bool, t: string, tl: Toks, dq': bool) {
    Render(ts, dq) == t + Render(tl, dq') && Inert(t)
  }

  lemma NoPrint(tl: Toks, dq: bool)
    ensures Prints(tl, dq, "", tl, dq)
  {
    hide Inert;
    InertEmpty();
    assert "" + Render(tl, dq) == Render(tl, dq);
  }

  /** One more inert token in front. */
  lemma PrintsToken(k: TokenKind, ts: Toks, dq: bool, t: string, tl: Toks, dq': bool) returns (u: string)
    requires !k.TEof? && Inert(KText(k)) && Prints(ts, ModeAfter(dq, k), t, tl, dq')
    ensures Prints(Cons(k, ts), dq, u, tl, dq')
  {
    hide Inert;
    var a := (if dq then "" else " ") + KText(k);
    InertTame(if dq then "" else " ");
    InertConcat(if dq then "" else " ", KText(k));
    InertConcat(a, t);
    Assoc(a, t, Render(tl, dq'));
    u := a + t;
  }

  lemma PrintsTame(k: TokenKind, ts: Toks, dq: bool, t: string, tl: Toks, dq': bool) returns (u: string)
    requires !k.TEof? && IsTame(KText(k)) && Prints(ts, ModeAfter(dq, k), t, tl, dq')
    ensures Prints(Cons(k, ts), dq, u, tl, dq')
  {
    hide Inert;
    InertTame(KText(k));
    u := PrintsToken(k, ts, dq, t, tl, dq');
  }

  lemma PrintsThen(ts: Toks, dq: bool, t: string, mid: Toks, dq': bool, u: string, tl: Toks, dq'': bool)
    requires Prints(ts, dq, t, mid, dq') && Prints(mid, dq', u, tl, dq'')
    ensures Prints(ts, dq, t + u, tl, dq'')
  {
    hide Inert;
    InertConcat(t, u);
    Assoc(t, u, Render(tl, dq''));
  }

  lemma {:induction false} InertDq(ps: seq<DQPart>, tl: Toks) returns (t: string)
    requires WfDq(ps, true)
    ensures Prints(ToksDq(ps, tl), true, t, tl, true)
    decreases ps, 1
  {
    hide Inert;
    if ps == [] {
      NoPrint(tl, true);
      t := "";
    } else if ps[0].DQLiteral? {
      t := InertDq(ps[1..], tl);
      EscapeKeepsDepth(ps[0].s, 0);
      InertBalanced(EscapeDq(ps[0].s));
      t := PrintsToken(TDQText(ps[0].s), ToksDq(ps[1..], tl), true, t, tl, true);
    } else {
      var n := TokenRun(ps, false);
      t := InertDq(ps[n..], tl);
      assert n == |ps| ==> ps[..n] == ps;
      InertDqRun(ps[..n]);
      t := PrintsToken(TWord(DqRunText(ps[..n])), ToksDq(ps[n..], tl), true, t, tl, true);
    }
  }

  lemma InertWord(w: Word, tl: Toks) returns (t: string)
    requires WfWord(w, true)
    ensures Prints(ToksWord(w, tl), false, t, tl, false)
    decreases w, 2, 1
  {
    hide Inert;
    NoPrint(tl, false);
    match w
    case SingleQuoted(s) =>
      InertQuoted(s);
      t := PrintsToken(TSingleQuote(s), tl, false, "", tl, false);
    case DoubleQuoted(ps) =>
      t := PrintsTame(TDoubleQuoteClose, tl, true, "", tl, false);
      var close := Cons(TDoubleQuoteClose, tl);
      var u := InertDq(ps, close);
      PrintsThen(ToksDq(ps, close), true, u, close, true, t, tl, false);
      t := PrintsTame(TDoubleQuoteOpen, ToksDq(ps, close), false, u + t, tl, false);
    case Literal(_) => t := InertUnquoted(w, tl);
    case Concat(_) => t := InertUnquoted(w, tl);
    case Variable(_) => t := InertUnquoted(w, tl);
    case CommandSubst(_) => t := InertUnquoted(w, tl);
    case ArithSubst(_) => t := InertUnquoted(w, tl);
  }

  lemma InertUnquoted(w: Word, tl: Toks) returns (t: string)
    requires WfWord(w, true) && !w.SingleQuoted? && !w.DoubleQuoted?
    ensures Prints(ToksWord(w, tl), false, t, tl, false)
    decreases w, 2, 0
  {
    hide Inert;
    NoPrint(tl, false);
    InertWordText(w);
    t := PrintsToken(TWord(WordText(w)), tl, false, "", tl, false);
  }

  lemma {:induction false} InertAssigns(as_: seq<Assignment>, tl: Toks) returns (t: string)
    requires forall a :: a in as_ ==> IsValidName(a.name) && WfValue(a.value, true)
    ensures Prints(ToksAssigns(as_, tl), false, t, tl, false)
    decreases as_
  {
    hide Inert;
    if as_ == [] {
      NoPrint(tl, false);
      t := "";
    } else {
      t := InertAssigns(as_[1..], tl);
      var a := as_[0];
      assert forall c :: c in a.name ==> IsNameChar(c);
      InertTame(a.name + "=");
      if a.value == Literal("") {
        InertEmpty();
      } else {
        InertWordText(a.value);
      }
      InertConcat(a.name + "=", ValueText(a.value));
      t := PrintsToken(TWord(a.name + "=" + ValueText(a.value)), ToksAssigns(as_[1..], tl), false, t, tl, false);
    }
  }

  lemma {:induction false} InertWords(ws: seq<Word>, tl: Toks) returns (t: string)
    requires forall w :: w in ws ==> WfWord(w, true)
    ensures Prints(ToksWords(ws, tl), false, t, tl, false)
    decreases ws
  {
    hide Inert;
    if ws == [] {
      NoPrint(tl, false);
      t := "";
    } else {
      var u := InertWords(ws[1..], tl);
      t := InertWord(ws[0], ToksWords(ws[1..], tl));
      PrintsThen(ToksWords(ws, tl), false, t, ToksWords(ws[1..], tl), false, u, tl, false);
      t := t + u;
    }
  }

  lemma RedirectIsTame(fd: Option<nat>, op: RedirectOp)
    ensures IsTame(KText(TRedirect(fd, op)))
  {
    if fd.Some? { NumberIsTame(fd.value); }
  }

  lemma InertRedirect(r: Redirect, tl: Toks) returns (t: string)
    requires WfRedirect(r, true)
    ensures Prints(ToksRedirect(r, tl), false, t, tl, false)
    decreases r
  {
    hide Inert;
    hide IsTame;
    hide Show;
    NoPrint(tl, false);
    match r.target
    case ToWord(w) =>
      var fd := ShownFd(r.fd, OpOf(r.kind));
      RedirectIsTame(fd, OpOf(r.kind));
      t := InertWord(w, tl);
      t := PrintsTame(TRedirect(fd, OpOf(r.kind)), ToksWord(w, tl), false, t, tl, false);
    case ToFd(n) =>
      NumberIsTame(n);
      t := InertDup(r, Show(n), tl);
    case CloseFd =>
      assert IsTame("-") by { InertDash(); }
      t := InertDup(r, "-", tl);
  }

  lemma InertDash()
    ensures IsTame("-")
  {
  }

  lemma InertDup(r: Redirect, text: string, tl: Toks) returns (t: string)
    requires IsTame(text)
    ensures var op := if r.kind.Read? then LessAmp else GreaterAmp;
            Prints(Cons(TRedirect(ShownFd(r.fd, op), op), Cons(TWord(text), tl)), false, t, tl, false)
  {
    hide Inert;
    hide IsTame;
    var op := if r.kind.Read? then LessAmp else GreaterAmp;
    NoPrint(tl, false);
    RedirectIsTame(ShownFd(r.fd, op), op);
    t := PrintsTame(TWord(text), tl, false, "", tl, false);
    t := PrintsTame(TRedirect(ShownFd(r.fd, op), op), Cons(TWord(text), tl), false, t, tl, false);
  }

  lemma {:induction false} InertRedirects(rs: seq<Redirect>, tl: Toks) returns (t: string)
    requires forall r :: r in rs ==> WfRedirect(r, true)
    ensures Prints(ToksRedirects(rs, tl), false, t, tl, false)
    decreases rs
  {
    hide Inert;
    if rs == [] {
      NoPrint(tl, false);
      t := "";
    } else {
      var u := InertRedirects(rs[1..], tl);
      t := InertRedirect(rs[0], ToksRedirects(rs[1..], tl));
      PrintsThen(ToksRedirects(rs, tl), false, t, ToksRedirects(rs[1..], tl), false, u, tl, false);
      t := t + u;
    }
  }

  lemma InertSimple(sc: SimpleCommand, tl: Toks) returns (t: string)
    requires WfSimple(sc, true)
    ensures Prints(ToksSimple(sc, tl), false, t, tl, false)
    decreases sc
  {
    hide Inert;
    var t4 := ToksRedirects(sc.redirects, tl);
    var t3 := ToksWords(sc.args, t4);
    var t2 := ToksName(sc.name, t3);
    t := InertRedirects(sc.redirects, tl);
    var u := InertWords(sc.args, t4);
    PrintsThen(t3, false, u, t4, false, t, tl, false);
    t := u + t;
    if sc.name.Some? {
      u := InertWord(sc.name.value, t3);
      PrintsThen(t2, false, u, t3, false, t, tl, false);
      t := u + t;
    }
    u := InertAssigns(sc.assignments, t2);
    PrintsThen(ToksSimple(sc, tl), false, u, t2, false, t, tl, false);
    t := u + t;
  }

  lemma {:induction false} InertStages(scs: seq<SimpleCommand>, tl: Toks) returns (t: string)
    requires forall sc :: sc in scs ==> WfSimple(sc, true)
    ensures Prints(ToksStages(scs, tl), false, t, tl, false)
    decreases scs
  {
    hide Inert;
    if scs == [] {
      NoPrint(tl, false);
      t := "";
    } else if |scs| == 1 {
      t := InertSimple(scs[0], tl);
    } else {
      var rest := ToksStages(scs[1..], tl);
      t := InertStages(scs[1..], tl);
      t := PrintsTame(TPipe, rest, false, t, tl, false);
      var u := InertSimple(scs[0], Cons(TPipe, rest));
      PrintsThen(ToksStages(scs, tl), false, u, Cons(TPipe, rest), false, t, tl, false);
      t := u + t;
    }
  }

  lemma PrintsParens(ts: Toks, u: string, tl: Toks) returns (t: string)
    requires Prints(ts, false, u, Cons(TRParen, tl), false)
    ensures Prints(Cons(TLParen, ts), false, t, tl, false)
  {
    hide Inert;
    InertTame(" ");
    InertConcat(u, " ");
    InertParens(u + " ");
    InertConcat(" ", "(" + (u + " ") + ")");
    t := " " + ("(" + (u + " ") + ")");
    ParensText(u, Render(tl, false));
  }

  lemma ParensText(u: string, r: string)
    ensures " " + "(" + (u + (" " + ")" + r)) == " " + ("(" + (u + " ") + ")") + r
  {
  }

  lemma InertSubshell(body: seq<Command>, tl: Toks) returns (t: string)
    requires WfScript(body, true)
    ensures Prints(Cons(TLParen, ToksScript(body, Cons(TRParen, tl))), false, t, tl, false)
    decreases body, 1
  {
    hide Inert;
    var u := InertScript(body, Cons(TRParen, tl));
    t := PrintsParens(ToksScript(body, Cons(TRParen, tl)), u, tl);
  }

  lemma InertGroup(body: seq<Command>, tl: Toks) returns (t: string)
    requires WfScript(body, true)
    ensures Prints(Cons(TLBrace, ToksScript(body, Cons(TRBrace, tl))), false, t, tl, false)
    decreases body, 1
  {
    hide Inert;
    var close := Cons(TRBrace, tl);
    var u := InertScript(body, close);
    NoPrint(tl, false);
    t := PrintsTame(TRBrace, tl, false, "", tl, false);
    PrintsThen(ToksScript(body, close), false, u, close, false, t, tl, false);
    t := PrintsTame(TLBrace, ToksScript(body, close), false, u + t, tl, false);
  }

  lemma InertPipe(c: Command, tl: Toks) returns (t: string)
    requires WfPipe(c, true)
    ensures Prints(ToksPipe(c, tl), false, t, tl, false)
    decreases c, 0
  {
    hide Inert;
    match c
    case Simple(sc) => t := InertSimple(sc, tl);
    case Pipe(p) =>
      t := InertStages(p.commands, tl);
      if p.negated { t := PrintsTame(TBang, ToksStages(p.commands, tl), false, t, tl, false); }
    case Subshell(body) => t := InertSubshell(body, tl);
    case Group(body) => t := InertGroup(body, tl);
  }

  lemma {:induction false} InertChain(c: Command, tl: Toks) returns (t: string)
    requires WfChain(c, true)
    ensures Prints(ToksChain(c, tl), false, t, tl, false)
    decreases c, 1
  {
    hide Inert;
    if c.And? || c.Or? {
      var k := if c.And? then TAndAnd else TOrOr;
      var right := ToksPipe(c.right, tl);
      t := InertPipe(c.right, tl);
      t := PrintsTame(k, right, false, t, tl, false);
      var u := InertChain(c.left, Cons(k, right));
      PrintsThen(ToksChain(c, tl), false, u, Cons(k, right), false, t, tl, false);
      t := u + t;
    } else {
      t := InertPipe(c, tl);
    }
  }

  lemma {:induction false} InertScript(cmds: seq<Command>, tl: Toks) returns (t: string)
    requires WfScript(cmds, true)
    ensures Prints(ToksScript(cmds, tl), false, t, tl, false)
    decreases cmds, 0
  {
    hide Inert;
    if cmds == [] {
      NoPrint(tl, false);
      t := "";
    } else {
      var rest := ToksScript(cmds[1..], tl);
      var u := InertScript(cmds[1..], tl);
      t := InertItem(cmds[0], rest);
      PrintsThen(ToksScript(cmds, tl), false, t, rest, false, u, tl, false);
      t := t + u;
    }
  }

  lemma InertItem(c: Command, tl: Toks) returns (t: string)
    requires WfItem(c, true)
    ensures Prints(ToksItem(c, tl), false, t, tl, false)
    decreases c, 2
  {
    hide Inert;
    NoPrint(tl, false);
    if c.Background? {
      t := PrintsTame(TAmp, tl, false, "", tl, false);
      var u := InertChain(c.cmd, Cons(TAmp, tl));
      PrintsThen(ToksItem(c, tl), false, u, Cons(TAmp, tl), false, t, tl, false);
      t := u + t;
    } else {
      t := PrintsTame(TSemi, tl, false, "", tl, false);
      var u := InertChain(c, Cons(TSemi, tl));
      PrintsThen(ToksItem(c, tl), false, u, Cons(TSemi, tl), false, t, tl, false);
      t := u + t;
    }
  }
}
