/** Printed tokens are lexed back one by one. */
module PrintTokens {
  import opened Ast
  import opened Decimal
  import opened LexSpec
  import opened ParseSpec
  import opened Print
  import opened PrintLex

  // ---------------------------------------------------------------- texts the word lexer passes over

  predicate Takes(p: string, r: string) {
    WordRun(p + r) == Plus(|p|, WordRun(r))
  }

  /** The word lexer takes the whole of `p` and goes on behind it, whatever follows. */
  ghost predicate Solid(p: string) {
    forall r: string :: Takes(p, r)
  }

  lemma SolidEmpty()
    ensures Solid("")
  {
    forall r: string ensures Takes("", r) {
      assert "" + r == r;
    }
  }

  lemma TakesConcat(a: string, b: string, r: string)
    requires Takes(a, b + r) && Takes(b, r)
    ensures Takes(a + b, r)
  {
    hide WordRun;
    Assoc(a, b, r);
  }

  lemma SolidConcat(a: string, b: string)
    requires Solid(a) && Solid(b)
    ensures Solid(a + b)
  {
    hide Takes;
    forall r: string ensures Takes(a + b, r) {
      TakesConcat(a, b, r);
    }
  }

  lemma SolidChar(c: char)
    requires IsWordChar(c) && c !in "\\$`"
    ensures Solid([c])
  {
    forall r: string ensures Takes([c], r) {
      assert ([c] + r)[1..] == r;
    }
  }

  lemma SolidEscape(c: char)
    ensures Solid(['\\', c])
  {
    forall r: string ensures Takes(['\\', c], r) {
      assert (['\\', c] + r)[2..] == r;
    }
  }

  /** Behind a `$`, the lexer's expansion takes the whole of `q`. */
  predicate Expands(q: string, r: string) {
    DollarRun(q + r) == Some(|q|)
  }

  lemma SolidDollar(p: string)
    requires p != "" && p[0] == '$'
    requires forall r: string :: Expands(p[1..], r)
    ensures Solid(p)
  {
    hide DollarRun;
    forall r: string ensures Takes(p, r) {
      assert Expands(p[1..], r);
      assert (p + r)[1..] == p[1..] + r;
      DropHead(p, r);
    }
  }

  lemma {:induction false} SolidEscaped(s: string)
    ensures Solid(Escape(s))
  {
    hide Solid;
    if s == "" {
      SolidEmpty();
    } else {
      if IsSafe(s[0]) { SolidChar(s[0]); } else { SolidEscape(s[0]); }
      SolidEscaped(s[1..]);
      SolidConcat(if IsSafe(s[0]) then [s[0]] else ['\\', s[0]], Escape(s[1..]));
    }
  }

  lemma {:induction false} BracedRun(inner: string, r: string)
    requires forall i :: 0 <= i < |inner| ==> inner[i] !in "'{}"
    ensures BalancedRun(inner + "}" + r, '{', '}', 1) == Some(|inner| + 1)
  {
    var s := inner + "}" + r;
    if inner != "" {
      assert s[1..] == inner[1..] + "}" + r;
      BracedRun(inner[1..], r);
    }
  }

  lemma SolidBraces(inner: string)
    requires forall i :: 0 <= i < |inner| ==> inner[i] !in "'{}"
    ensures Solid("${" + inner + "}")
  {
    hide Solid;
    var p := "${" + inner + "}";
    forall r: string ensures Expands(p[1..], r) {
      BracedRun(inner, r);
      assert (p[1..] + r)[1..] == inner + "}" + r;
    }
    SolidDollar(p);
  }

  lemma SolidVar(v: VarExpr)
    requires WfVar(v)
    ensures Solid(VarText(v))
  {
    hide Solid;
    hide InnerText;
    if v.Special? {
      SolidSpecial(v.special);
    } else {
      InnerIsQuiet(v);
      assert forall i :: 0 <= i < |InnerText(v)| ==> InnerText(v)[i] in InnerText(v);
      SolidBraces(InnerText(v));
    }
  }

  lemma SolidSpecial(sv: SpecialVar)
    requires WfVar(Special(sv))
    ensures Solid(SpecialText(sv))
  {
    hide Solid;
    var p := SpecialText(sv);
    assert IsDigit(p[1]) || IsSpecialVarChar(p[1]) by {
      if sv.Positional? { assert IsDigit(DigitChar(sv.n)); }
    }
    forall r: string ensures Expands(p[1..], r) {
      assert (p[1..] + r)[0] == p[1];
    }
    SolidDollar(p);
  }

  lemma RenderHead(ts: Toks)
    ensures Render(ts, false) == "" || Render(ts, false)[0] == ' '
  {
  }

  lemma SolidParens(t: string)
    requires Inert(t) && (t == "" || t[0] == ' ')
    ensures Solid("$(" + t + ")")
  {
    hide Solid;
    hide Inert;
    hide DollarRun;
    var p := "$(" + t + ")";
    assert p[1..] == "(" + t + ")";
    forall r: string ensures Expands(p[1..], r) {
      SubstRun(t, r);
      assert p[1..] + r == "(" + (t + (")" + r));
    }
    SolidDollar(p);
  }

  lemma SolidSubst(script: seq<Command>)
    requires WfScript(script, true)
    ensures Solid(SubstText(script))
  {
    hide Solid;
    hide WfScript;
    hide ToksScript;
    hide Inert;
    var toks := ToksScript(script, AtEof);
    var t := InertScript(script, AtEof);
    assert t + "" == t && Render(toks, false) == t;
    RenderHead(toks);
    SolidParens(t);
  }

  lemma SolidArith(expr: string)
    requires IsBalanced(expr)
    ensures Solid(ArithText(expr))
  {
    hide Solid;
    hide IsBalanced;
    var p := ArithText(expr);
    forall r: string ensures Expands(p[1..], r) {
      ArithRun(expr, r);
      assert p[1..] + r == "((" + (expr + ("))" + r));
    }
    SolidDollar(p);
  }

  lemma ArithRun(expr: string, r: string)
    requires IsBalanced(expr)
    ensures DollarRun("((" + (expr + ("))" + r))) == Some(|expr| + 4)
  {
    hide Depth;
    var s, close := "((" + (expr + ("))" + r)), "))" + r;
    assert s[2..] == expr + close;
    assert close[1..] == ")" + r;
    ScannersStayInStep(expr, 0, 2, close, ")");
    assert BalancedRun(close[1..], '(', ')', 1) == Some(1);
    assert BalancedRun(close, '(', ')', 2) == Some(2);
  }

  lemma SubstRun(t: string, r: string)
    requires Inert(t) && (t == "" || t[0] == ' ')
    ensures DollarRun("(" + (t + (")" + r))) == Some(|t| + 2)
  {
    var s, close := "(" + (t + (")" + r)), ")" + r;
    assert s[1..] == t + close;
    assert Passes(t, 1, close);
    assert BalancedRun(close, '(', ')', 1) == Some(1);
  }

  // ---------------------------------------------------------------- words as tokens

  /** How an unquoted word may go on: its first character, and what stands behind leading digits,
      is a safe character or starts an escape or an expansion. */
  predicate Bare(c: char) {
    IsSafe(c) || c == '\\' || c == '$'
  }

  predicate BareHead(t: string) {
    (t != "" ==> Bare(t[0])) && (DigitRun(t) < |t| ==> Bare(t[DigitRun(t)]))
  }

  ghost predicate WordTok(t: string) {
    t != "" && BareHead(t) && Solid(t)
  }

  lemma BareStep(c: char, t: string)
    requires IsSafe(c) && BareHead(t)
    ensures BareHead([c] + t)
  {
    hide IsSafe;
    assert ([c] + t)[1..] == t;
  }

  lemma BackslashIsBare(t: string)
    ensures BareHead(['\\'] + t)
  {
    assert DigitRun(['\\'] + t) == 0;
  }

  lemma {:induction false} BareEscaped(s: string, rest: string)
    requires BareHead(rest)
    ensures BareHead(Escape(s) + rest)
  {
    hide BareHead;
    hide IsSafe;
    if s == "" {
      assert Escape(s) + rest == rest;
    } else if IsSafe(s[0]) {
      BareEscaped(s[1..], rest);
      BareStep(s[0], Escape(s[1..]) + rest);
      Assoc([s[0]], Escape(s[1..]), rest);
    } else {
      BackslashIsBare([s[0]] + Escape(s[1..]) + rest);
      assert Escape(s) + rest == ['\\'] + ([s[0]] + Escape(s[1..]) + rest);
    }
  }

  lemma PartIsSolid(w: Word, nested: bool)
    requires WfPart(w, nested)
    ensures Solid(PartText(w)) && PartText(w) != ""
    ensures !w.Literal? ==> PartText(w)[0] == '$'
  {
    hide Solid;
    match w
    case Literal(s) => SolidEscaped(s);
    case Variable(v) => SolidVar(v);
    case CommandSubst(script) => SolidSubst(script);
    case ArithSubst(expr) => SolidArith(expr);
  }

  lemma {:induction false} PartsAreSolid(parts: seq<Word>, nested: bool)
    requires WfParts(parts, nested)
    ensures Solid(PartsText(parts)) && BareHead(PartsText(parts))
    ensures parts != [] ==> PartsText(parts) != ""
  {
    hide Solid;
    if parts == [] {
      SolidEmpty();
    } else {
      var rest := PartsText(parts[1..]);
      PartIsSolid(parts[0], nested);
      PartsAreSolid(parts[1..], nested);
      SolidConcat(PartText(parts[0]), rest);
      if parts[0].Literal? { BareEscaped(parts[0].s, rest); }
    }
  }

  lemma ReservedIsAlpha(s: string)
    requires IsReserved(s)
    ensures s != "" && forall i :: 0 <= i < |s| ==> IsAlpha(s[i])
  {
  }

  lemma ReservedIsPlain(s: string)
    requires IsReserved(s)
    ensures s != "" && IsAlpha(s[0]) && Escape(s) == s
  {
    hide IsReserved;
    hide Escape;
    ReservedIsAlpha(s);
    EscapeAlpha(s);
  }

  lemma {:induction false} EscapeAlpha(s: string)
    requires forall i :: 0 <= i < |s| ==> IsAlpha(s[i])
    ensures Escape(s) == s
  {
    if s != "" {
      EscapeAlpha(s[1..]);
      assert [s[0]] + s[1..] == s;
    }
  }

  lemma ReservedIsTok(s: string)
    requires IsReserved(s)
    ensures WordTok("\\" + s)
  {
    hide Solid;
    hide IsReserved;
    ReservedIsPlain(s);
    SolidEscape(s[0]);
    SolidEscaped(s[1..]);
    EscapeTail(s);
    SolidConcat(['\\', s[0]], s[1..]);
    assert ['\\', s[0]] + s[1..] == "\\" + s;
    assert DigitRun("\\" + s) == 0;
  }

  lemma EscapeTail(s: string)
    requires IsReserved(s)
    ensures Escape(s[1..]) == s[1..]
  {
    EscapeAlpha(s[1..]);
  }

  lemma LiteralIsTok(s: string)
    requires s != ""
    ensures WordTok(LiteralText(s))
  {
    hide Solid;
    hide IsReserved;
    if IsReserved(s) {
      ReservedIsTok(s);
    } else {
      SolidEscaped(s);
      assert Escape(s) + "" == Escape(s);
      BareEscaped(s, "");
    }
  }

  lemma WordIsTok(w: Word, nested: bool)
    requires WfWord(w, nested) && !w.SingleQuoted? && !w.DoubleQuoted?
    ensures WordTok(WordText(w))
  {
    hide Solid;
    match w
    case Literal(s) => LiteralIsTok(s);
    case Concat(ps) => PartsAreSolid(ps, nested);
    case Variable(_) => PartIsSolid(w, nested);
    case CommandSubst(_) => PartIsSolid(w, nested);
    case ArithSubst(_) => PartIsSolid(w, nested);
  }

  lemma {:induction false} SolidName(s: string)
    requires forall i :: 0 <= i < |s| ==> IsNameChar(s[i]) || s[i] == '='
    ensures Solid(s)
  {
    hide Solid;
    if s == "" {
      SolidEmpty();
    } else {
      SolidChar(s[0]);
      SolidName(s[1..]);
      SolidConcat([s[0]], s[1..]);
      assert [s[0]] + s[1..] == s;
    }
  }

  lemma AssignIsTok(a: Assignment, nested: bool)
    requires IsValidName(a.name) && WfValue(a.value, nested)
    ensures WordTok(a.name + "=" + ValueText(a.value))
  {
    hide Solid;
    SolidName(a.name + "=");
    if a.value == Literal("") {
      SolidEmpty();
    } else {
      WordIsTok(a.value, nested);
    }
    SolidConcat(a.name + "=", ValueText(a.value));
  }

  lemma NumberIsTok(n: nat)
    ensures WordTok(Show(n)) && WordTok("-")
  {
    hide Solid;
    SolidName(Show(n));
    DigitRunOf(Show(n), "");
    assert Show(n) + "" == Show(n);
    SolidChar('-');
  }

  lemma {:induction false} GluedIsSolid(s: string)
    requires IsGlued(s)
    ensures Solid(s)
    decreases |s|
  {
    hide Solid;
    if s == "" {
      SolidEmpty();
    } else if s[0] == '\\' {
      SolidEscape(s[1]);
      GluedIsSolid(s[2..]);
      SolidConcat(['\\', s[1]], s[2..]);
      assert ['\\', s[1]] + s[2..] == s;
    } else {
      SolidChar(s[0]);
      GluedIsSolid(s[1..]);
      SolidConcat([s[0]], s[1..]);
      assert [s[0]] + s[1..] == s;
    }
  }

  lemma {:induction false} DqRunIsSolid(ps: seq<DQPart>, nested: bool)
    requires WfRun(ps, nested)
    ensures Solid(DqRunText(ps))
    ensures ps != [] && !ps[0].DQLiteral? ==> DqRunText(ps) != "" && DqRunText(ps)[0] == '$'
  {
    hide IsGlued;
    hide FitsPlace;
    hide WfScript;
    hide Solid;
    if ps == [] {
      SolidEmpty();
    } else {
      match ps[0] {
        case DQVariable(v) => SolidVar(v);
        case DQCommandSubst(script) => SolidSubst(script);
        case DQArithSubst(expr) => SolidArith(expr);
        case DQLiteral(s) => GluedIsSolid(s);
      }
      DqRunIsSolid(ps[1..], nested);
      SolidConcat(DqPartText(ps[0]), DqRunText(ps[1..]));
    }
  }

  // ---------------------------------------------------------------- token streams

  /** Reading `s` yields the tokens `ts`, in and out of double quotes as they open and close. */
  ghost predicate Stream(s: string, dq: bool, ts: Toks)
    decreases ts
  {
    match ts
    case Nil => true
    case Cons(k, tl) =>
      match Lex(s, dq)
      case Tok(k', _, end) => k' == k && Stream(s[end..], ModeAfter(dq, k), tl)
      case LexErr(_) => false
  }

  predicate IsPunctuation(k: TokenKind) {
    k in {TPipe, TOrOr, TAndAnd, TAmp, TSemi, TLParen, TRParen, TLBrace, TRBrace, TBang}
  }

  /** A token that is read back when a space or the end of the text follows. */
  ghost predicate ReadsBack(k: TokenKind) {
    || IsPunctuation(k) || k.TDoubleQuoteOpen?
    || (k.TWord? && WordTok(k.text))
    || (k.TSingleQuote? && '\'' !in k.text)
    || (k.TRedirect? && (k.fd.Some? ==> k.fd.value < 0x1_0000_0000))
  }

  /** A token inside double quotes that is read back in front of what follows it. */
  ghost predicate DqReadsBack(k: TokenKind, tl: Toks) {
    || k.TDoubleQuoteClose?
    || (tl.Cons? && k.TDQText? && k.text != "" &&
        (tl.k.TDoubleQuoteClose? || (tl.k.TWord? && tl.k.text != "" && tl.k.text[0] == '$')))
    || (tl.Cons? && k.TWord? && Solid(k.text) && k.text != "" && k.text[0] == '$' &&
        (tl.k.TDoubleQuoteClose? || (tl.k.TDQText? && tl.k.text != "" && IsBreak(tl.k.text[0]))))
  }

  ghost predicate Renderable(ts: Toks, dq: bool)
    decreases ts
  {
    match ts
    case Nil => true
    case Cons(k, tl) =>
      if k.TEof? then !dq && tl.Nil?
      else (if dq then DqReadsBack(k, tl) else ReadsBack(k)) && Renderable(tl, ModeAfter(dq, k))
  }

  lemma SkippedBehindBlank(s: string)
    ensures Skipped(" " + s) == 1 + Skipped(s)
  {
    hide Before;
    var t := " " + s;
    assert t[1..] == s;
    var a := Blanks(s);
    assert Blanks(t) == 1 + a;
    assert t[1 + a..] == s[a..];
  }

  lemma LexBehindBlank(s: string)
    ensures Lex(" " + s, false) == Shift(Lex(s, false), 1)
  {
    hide LexHere;
    hide Skipped;
    SkippedBehindBlank(s);
    assert (" " + s)[1 + Skipped(s)..] == s[Skipped(s)..];
  }

  lemma LexStart(s: string)
    requires s != "" && s[0] !in " \t#"
    ensures Lex(s, false) == LexHere(s)
  {
    hide LexHere;
    assert s[0..] == s;
  }

  lemma WordEnds(t: string, r: string)
    requires Solid(t) && (r == "" || !IsWordChar(r[0]))
    ensures LexWord(t + r) == Tok(TWord(t), 0, |t|)
  {
    assert Takes(t, r) && WordRun(r) == Some(0);
    assert (t + r)[..|t|] == t;
  }

  /** Digits do not turn a printed word into a redirection. */
  lemma {:induction false} NotFdRedirect(t: string, r: string)
    requires t != "" && (DigitRun(t) < |t| ==> t[DigitRun(t)] !in "<>") && (r == "" || r[0] in " \t\n|&;(){}\"'")
    ensures !IsFdRedirect(t + r)
  {
    DigitRunPrefix(t, r);
  }

  lemma {:induction false} DigitRunPrefix(t: string, r: string)
    requires r == "" || !IsDigit(r[0])
    ensures DigitRun(t + r) == DigitRun(t)
  {
    if t == "" {
      assert t + r == r;
    } else {
      assert (t + r)[1..] == t[1..] + r;
      DigitRunPrefix(t[1..], r);
    }
  }

  lemma BareStartsWord(s: string)
    requires s != "" && Bare(s[0]) && !IsFdRedirect(s)
    ensures s[0] !in " \t#" && LexHere(s) == LexWord(s)
  {
    hide IsFdRedirect;
    hide LexRedirect;
    hide LexWord;
  }

  lemma LexWordTok(t: string, r: string)
    requires WordTok(t) && (r == "" || r[0] in " \t\n|&;(){}\"'")
    ensures Lex(t + r, false) == Tok(TWord(t), 0, |t|)
  {
    hide Solid;
    hide IsFdRedirect;
    hide LexHere;
    hide LexWord;
    hide Lex;
    hide DigitRun;
    hide Bare;
    WordEnds(t, r);
    BareIsNoOperator(t);
    NotFdRedirect(t, r);
    assert (t + r)[0] == t[0];
    BareStartsWord(t + r);
    LexStart(t + r);
  }

  lemma BareIsNoOperator(t: string)
    requires BareHead(t)
    ensures DigitRun(t) < |t| ==> t[DigitRun(t)] !in "<>"
  {
    hide Bare;
    hide DigitRun;
    if DigitRun(t) < |t| { BareChar(t[DigitRun(t)]); }
  }

  lemma BareChar(c: char)
    requires Bare(c)
    ensures c !in "<>"
  {
  }

  lemma LexPunctuation(k: TokenKind, r: string)
    requires IsPunctuation(k) || k.TDoubleQuoteOpen?
    requires r == "" || r[0] == ' ' || k.TDoubleQuoteOpen?
    ensures Lex(KText(k) + r, false) == Tok(k, 0, |KText(k)|)
  {
    hide Lex;
    LexStart(KText(k) + r);
  }

  lemma LexSingleQuoted(t: string, r: string)
    requires '\'' !in t
    ensures Lex("'" + t + "'" + r, false) == Tok(TSingleQuote(t), 0, |t| + 2)
  {
    hide Lex;
    hide LexRedirect;
    hide LexWord;
    hide Before;
    var s := "'" + t + "'" + r;
    assert s[1..] == t + ("'" + r);
    BeforeOf(t, '\'', "'" + r);
    LexStart(s);
    assert s[1..|t| + 1] == t;
  }

  lemma LexRedirectOp(fd: nat, op: RedirectOp, r: string)
    requires fd < 0x1_0000_0000 && (r == "" || r[0] == ' ')
    ensures Lex(Show(fd) + RedirectText(op) + r, false) ==
            Tok(TRedirect(Some(fd), op), 0, |Show(fd) + RedirectText(op)|)
  {
    hide LexWord;
    hide Lex;
    hide DigitRun;
    hide LessToken;
    hide GreaterToken;
    hide RedirectText;
    hide LexRedirect;
    var d := Show(fd);
    var t := RedirectText(op) + r;
    var s := d + t;
    Assoc(d, RedirectText(op), r);
    OperatorTail(op, r, Some(fd));
    DigitsThenOperator(fd, t);
    LexStart(s);
  }

  lemma OperatorStart(op: RedirectOp)
    ensures RedirectText(op) != "" && RedirectText(op)[0] in "<>"
  {
  }

  /** An operator with nothing in front of it. */
  lemma LexBareOp(op: RedirectOp, r: string)
    requires r == "" || r[0] == ' '
    ensures Lex(RedirectText(op) + r, false) == Tok(TRedirect(None, op), 0, |RedirectText(op)|)
  {
    hide LexWord;
    hide Lex;
    hide LessToken;
    hide GreaterToken;
    hide RedirectText;
    var t := RedirectText(op) + r;
    OperatorTail(op, r, None);
    BareOperator(t);
    LexStart(t);
  }

  lemma BareOperator(t: string)
    requires t != "" && (t[0] == '<' || t[0] == '>')
    ensures LexRedirect(t) == Widen(if t[0] == '<' then LessToken(t[1..], None) else GreaterToken(t[1..], None), 1)
  {
    hide LexWord;
    hide LessToken;
    hide GreaterToken;
    assert DigitRun(t) == 0 && t[..0] == "";
  }

  /** A number directly in front of an operator is its descriptor. */
  lemma DigitsThenOperator(fd: nat, t: string)
    requires fd < 0x1_0000_0000 && t != "" && (t[0] == '<' || t[0] == '>')
    ensures var d, s := Show(fd), Show(fd) + t;
            && s != "" && IsDigit(s[0]) && IsFdRedirect(s)
            && LexRedirect(s) ==
               Widen(if t[0] == '<' then LessToken(t[1..], Some(fd)) else GreaterToken(t[1..], Some(fd)), |d| + 1)
  {
    hide LexWord;
    hide DigitRun;
    hide LessToken;
    hide GreaterToken;
    var d := Show(fd);
    var s := d + t;
    DigitRunOf(d, t);
    ValueOfShow(fd);
    assert s[..|d|] == d && s[0] == d[0] && s[|d|] == t[0];
    assert s[|d| + 1..] == t[1..];
  }

  /** The operator behind its first character. */
  lemma OperatorTail(op: RedirectOp, r: string, fd: Option<nat>)
    requires r == "" || r[0] == ' '
    ensures var t := RedirectText(op) + r;
            && t != "" && (t[0] == '<' || t[0] == '>')
            && (t[0] == '<' ==> LessToken(t[1..], fd) == Tok(TRedirect(fd, op), 0, |RedirectText(op)| - 1))
            && (t[0] == '>' ==> GreaterToken(t[1..], fd) == Tok(TRedirect(fd, op), 0, |RedirectText(op)| - 1))
  {
    var t := RedirectText(op) + r;
    assert t[1..] == RedirectText(op)[1..] + r;
  }

  lemma {:induction false} EscapedRun(t: string, r: string)
    requires r == "" || r[0] in "\"$`"
    ensures DqRun(EscapeDq(t) + r) == |EscapeDq(t)|
  {
    if t == "" {
      assert EscapeDq(t) + r == r;
    } else {
      EscapedRun(t[1..], r);
      DqRunStep(t[0], EscapeDq(t[1..]) + r);
      Assoc(if t[0] in "\"\\$`" then ['\\', t[0]] else [t[0]], EscapeDq(t[1..]), r);
    }
  }

  lemma DqRunStep(c: char, x: string)
    ensures c in "\"\\$`" ==> DqRun(['\\', c] + x) == 2 + DqRun(x)
    ensures c !in "\"\\$`" ==> DqRun([c] + x) == 1 + DqRun(x)
  {
    DropHead(['\\', c], x);
    DropHead([c], x);
  }

  /** Unescaping inverts escaping. */
  lemma {:induction false} UnescapeInvertsEscape(t: string)
    ensures UnescapeDq(EscapeDq(t)) == t
  {
    if t != "" {
      UnescapeInvertsEscape(t[1..]);
      var head := if t[0] in "\"\\$`" then ['\\', t[0]] else [t[0]];
      DropHead(head, EscapeDq(t[1..]));
      assert [t[0]] + t[1..] == t;
    }
  }

  lemma LexDqText(t: string, r: string)
    requires t != "" && r != "" && r[0] in "\"$`"
    ensures Lex(EscapeDq(t) + r, true) == Tok(TDQText(t), 0, |EscapeDq(t)|)
  {
    hide DqRun;
    hide UnescapeDq;
    EscapedRun(t, r);
    UnescapeInvertsEscape(t);
    assert (EscapeDq(t) + r)[..|EscapeDq(t)|] == EscapeDq(t);
    assert EscapeDq(t)[0] !in "\"$`";
  }

  lemma LexDqWord(t: string, r: string)
    requires Solid(t) && t != "" && t[0] == '$' && r != "" && !IsWordChar(r[0])
    ensures Lex(t + r, true) == Tok(TWord(t), 0, |t|)
  {
    hide LexWord;
    hide Solid;
    WordEnds(t, r);
  }

  lemma LexTok(k: TokenKind, r: string)
    requires ReadsBack(k) && (r == "" || r[0] == ' ' || k.TDoubleQuoteOpen?)
    ensures Lex(KText(k) + r, false) == Tok(k, 0, |KText(k)|)
  {
    hide Lex;
    hide WordTok;
    hide Show;
    hide RedirectText;
    if k.TWord? {
      LexWordTok(k.text, r);
    } else if k.TSingleQuote? {
      LexSingleQuoted(k.text, r);
    } else if k.TRedirect? {
      if k.fd.Some? { LexRedirectOp(k.fd.value, k.op, r); } else {
        assert KText(k) == RedirectText(k.op);
        LexBareOp(k.op, r);
      }
    } else {
      LexPunctuation(k, r);
    }
  }

  /** One token outside double quotes. */
  lemma LexOne(k: TokenKind, r: string)
    requires ReadsBack(k) && (r == "" || r[0] == ' ' || k.TDoubleQuoteOpen?)
    ensures Lex(" " + (KText(k) + r), false) == Tok(k, 1, 1 + |KText(k)|)
  {
    hide Lex;
    hide KText;
    hide ReadsBack;
    LexBehindBlank(KText(k) + r);
    LexTok(k, r);
  }

  /** What follows a token inside double quotes ends it. */
  lemma DqNext(k: TokenKind, tl: Toks, r: string)
    requires DqReadsBack(k, tl) && r == Render(tl, true) && !k.TDoubleQuoteClose?
    requires Renderable(tl, true)
    ensures r != "" && (k.TDQText? ==> r[0] in "\"$`") && (k.TWord? ==> !IsWordChar(r[0]))
  {
    hide Solid;
    assert r[0] == KText(tl.k)[0];
  }

  lemma LexOneDq(k: TokenKind, tl: Toks, r: string)
    requires DqReadsBack(k, tl) && r == Render(tl, ModeAfter(true, k))
    requires !k.TDoubleQuoteClose? ==> Renderable(tl, true)
    ensures Lex(KText(k) + r, true) == Tok(k, 0, |KText(k)|)
  {
    hide Lex;
    hide Solid;
    hide Render;
    hide Renderable;
    hide EscapeDq;
    if k.TDoubleQuoteClose? {
      LexClose(r);
    } else {
      DqNext(k, tl, r);
      if k.TDQText? {
        LexDqText(k.text, r);
      } else {
        LexDqWord(k.text, r);
      }
    }
  }

  lemma LexClose(r: string)
    ensures Lex("\"" + r, true) == Tok(TDoubleQuoteClose, 0, 1)
  {
  }

  lemma RenderCons(k: TokenKind, tl: Toks, dq: bool)
    requires !k.TEof?
    ensures var r := Render(tl, ModeAfter(dq, k));
            Render(Cons(k, tl), dq) == if dq then KText(k) + r else " " + (KText(k) + r)
  {
    hide KText;
    var r := Render(tl, ModeAfter(dq, k));
    Assoc(" ", KText(k), r);
    assert "" + KText(k) == KText(k);
  }

  lemma DropBlankHead(a: string, b: string)
    ensures (" " + (a + b))[1 + |a|..] == b
  {
  }

  /** Lexing the text of a printable token list yields the list. */
  lemma {:induction false} LexRender(ts: Toks, dq: bool)
    requires Renderable(ts, dq)
    ensures Stream(Render(ts, dq), dq, ts)
    decreases ts
  {
    hide Lex;
    hide ReadsBack;
    hide DqReadsBack;
    hide KText;
    match ts
    case Nil =>
    case Cons(k, tl) =>
      if k.TEof? {
        LexEnd();
      } else {
        var r := Render(tl, ModeAfter(dq, k));
        LexRender(tl, ModeAfter(dq, k));
        RenderCons(k, tl, dq);
        if dq {
          LexOneDq(k, tl, r);
          DropHead(KText(k), r);
        } else {
          RenderTail(k, tl, r);
          LexOne(k, r);
          DropBlankHead(KText(k), r);
        }
      }
  }

  lemma RenderTail(k: TokenKind, tl: Toks, r: string)
    requires r == Render(tl, ModeAfter(false, k))
    ensures r == "" || r[0] == ' ' || k.TDoubleQuoteOpen?
  {
    RenderHead(tl);
  }

  lemma LexEnd()
    ensures Lex("", false) == Tok(TEof, 0, 0)
  {
  }
}
