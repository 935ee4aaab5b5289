/** The round trip: parsing the text of a printable script gives back exactly the script. */
module RoundTrip {
  import opened Ast
  import opened Decimal
  import opened LexSpec
  import opened ParseSpec
  import opened Print
  import opened PrintLex
  import opened PrintTokens
  import opened PrintParse

  /** A parser state with no heredocs in sight. */
  function At(s: string): PS {
    PS(s, [], Free([]))
  }

  // ---------------------------------------------------------------- reading along a stream

  /** What the first token of a stream is, and what stands behind it. */
  lemma Head(s: string, k: TokenKind, tl: Toks) returns (s': string)
    requires Stream(s, false, Cons(k, tl))
    ensures Lex(s, false).Tok? && Lex(s, false).kind == k && After(At(s)) == At(s')
    ensures Stream(s', ModeAfter(false, k), tl)
    ensures Peek(At(s)) == Good(k, At(s))
  {
    s' := s[Lex(s, false).end..];
  }

  lemma HeadDq(s: string, k: TokenKind, tl: Toks) returns (s': string)
    requires Stream(s, true, Cons(k, tl))
    ensures NextDq(At(s)) == Good(k, At(s')) && Stream(s', ModeAfter(true, k), tl)
  {
    s' := s[Lex(s, true).end..];
  }

  lemma NoNewlines(s: string, ts: Toks)
    requires Stream(s, false, ts) && ts.Cons? && !ts.k.TNewline?
    ensures SkipNewlines(At(s)) == Good((), At(s))
  {
    var _ := Head(s, ts.k, ts.tl);
  }

  lemma NoSeparator(s: string, ts: Toks)
    requires Stream(s, false, ts) && ts.Cons? && !ts.k.TSemi?
    ensures SkipSeparator(At(s)) == Good(false, At(s))
  {
    var _ := Head(s, ts.k, ts.tl);
  }

  /** Tokens that commands start with. */
  predicate StartsCommand(k: TokenKind) {
    StartsWord(k) || k.TRedirect? || k.TLParen? || k.TLBrace? || k.TBang?
  }

  // ---------------------------------------------------------------- literals and expansions

  lemma PlainPart(c: char, t: string, lit: string, cell: Cell)
    requires IsSafe(c)
    ensures WordParts([c] + t, lit, cell) == WordParts(t, lit + [c], cell)
  {
    hide ParseDollar;
    hide ParseBacktick;
    DropHead([c], t);
  }

  lemma EscapedPart(c: char, t: string, lit: string, cell: Cell)
    requires c != '\n'
    ensures WordParts(['\\', c] + t, lit, cell) == WordParts(t, lit + [c], cell)
  {
    hide ParseDollar;
    hide ParseBacktick;
    DropHead(['\\', c], t);
  }

  lemma {:induction false} EscapedParts(s: string, lit: string, rest: string, cell: Cell)
    requires '\n' !in s
    ensures WordParts(Escape(s) + rest, lit, cell) == WordParts(rest, lit + s, cell)
    decreases |s|
  {
    hide WordParts;
    if s == "" {
      assert Escape(s) + rest == rest && lit + s == lit;
    } else {
      var t := Escape(s[1..]) + rest;
      EscapedParts(s[1..], lit + [s[0]], rest, cell);
      assert lit + [s[0]] + s[1..] == lit + s;
      if IsSafe(s[0]) {
        Assoc([s[0]], Escape(s[1..]), rest);
        PlainPart(s[0], t, lit, cell);
      } else {
        Assoc(['\\', s[0]], Escape(s[1..]), rest);
        EscapedPart(s[0], t, lit, cell);
      }
    }
  }

  /** At the end or in front of an expansion the literal read so far becomes a part. */
  lemma {:induction false} FlushLiteral(rest: string, lit: string, cell: Cell, parts: seq<Word>, c: Cell)
    requires rest == "" || rest[0] == '$'
    requires WordParts(rest, "", cell) == Good(parts, c)
    ensures WordParts(rest, lit, cell) == Good(Pending0(lit) + parts, c)
  {
    if rest != "" {
      var d := ParseDollar(rest, cell);
      var more := WordParts(rest[d.value.len..], "", d.st);
      assert [] + [d.value.word] + more.value == [d.value.word] + more.value;
      assert Pending0(lit) + [d.value.word] + more.value == Pending0(lit) + ([d.value.word] + more.value);
    } else {
      assert Pending0(lit) + [] == Pending0(lit);
    }
  }

  lemma {:induction false} NameHasNoOperator(name: string, i: nat)
    requires forall k :: 0 <= k < |name| ==> IsNameChar(name[k])
    ensures FindVarOperator(name, i) == None
    decreases |name| - i
  {
    if i < |name| { NameHasNoOperator(name, i + 1); }
  }

  /** The first operator of a braced variable stands behind the name. */
  lemma {:induction false} OperatorBehindName(name: string, op: string, i: nat)
    requires (forall k :: 0 <= k < |name| ==> IsNameChar(name[k])) && i <= |name| && name != ""
    requires op != "" && (IsVarOperator(op[0]) || (op[0] == ':' && |op| > 1 && IsVarOperator(op[1])))
    ensures FindVarOperator(name + op, i) == Some(|name|)
    decreases |name| - i
  {
    var s := name + op;
    if i < |name| {
      assert s[i] == name[i];
      OperatorBehindName(name, op, i + 1);
    } else {
      assert s[i] == op[0];
      if |op| > 1 { assert s[i + 1] == op[1]; }
    }
  }

  /** The operand of a variable operator, as it was escaped. */
  lemma OperandParses(w: Word, cell: Cell)
    requires IsOperand(w)
    ensures WordOf(OperandText(w), cell) == Good(w, cell)
  {
    EscapedParts(w.s, "", "", cell);
    assert Escape(w.s) + "" == Escape(w.s) && "" + w.s == w.s;
  }

  /** The variable that an operator character makes. */
  function Operated(op: char, name: string, w: Word): VarExpr
    requires op in "-=+?"
  {
    if op == '-' then DefaultIfUnset(name, w)
    else if op == '=' then AssignIfUnset(name, w)
    else if op == '+' then AlternateIfSet(name, w)
    else ErrorIfUnset(name, w)
  }

  /** The inside of the braces, cut at the operator. */
  lemma CutAtOperator(s: string, inner: string, name: string, at: nat, w: Word, cell: Cell)
    requires Before(s, '}') == |inner| < |s| && s[..|inner|] == inner && inner != "" && inner[0] != '#'
    requires FindVarOperator(inner, 0) == Some(|name|) && |name| <= at < |inner| && inner[..|name|] == name
    requires at == (if inner[|name|] == ':' then |name| + 1 else |name|) && inner[at] in "-=+?"
    requires WordOf(inner[at + 1..], cell) == Good(w, cell)
    ensures ParseBraceVar(s, cell) == Good((Operated(inner[at], name, w), |inner|), cell)
  {
    hide WordOf;
    hide FindVarOperator;
    hide Before;
  }

  /** `${name<op>operand}`, with or without a colon in front of the operator. */
  lemma OperatorParses(name: string, colon: string, op: char, w: Word, rest: string, cell: Cell)
    requires IsValidName(name) && IsOperand(w) && op in "-=+?" && (colon == "" || colon == ":")
    ensures var inner := name + (colon + [op] + OperandText(w));
            ParseBraceVar(inner + "}" + rest, cell) == Good((Operated(op, name, w), |inner|), cell)
  {
    hide WordOf;
    hide FindVarOperator;
    hide Before;
    hide Escape;
    hide ParseBraceVar;
    hide Operated;
    var tail := colon + [op] + OperandText(w);
    var inner := name + tail;
    var s := inner + "}" + rest;
    assert forall c :: c in name ==> IsNameChar(c);
    EscapeAddsBackslashes(w.s);
    assert '}' !in inner;
    assert s == inner + ("}" + rest);
    BeforeOf(inner, '}', "}" + rest);
    assert s[..|inner|] == inner && inner[0] == name[0];
    OperatorBehindName(name, tail, 0);
    var at := |name| + |colon|;
    assert inner[at] == op && inner[at + 1..] == OperandText(w) && inner[..|name|] == name;
    assert inner[|name|] == tail[0];
    OperandParses(w, cell);
    CutAtOperator(s, inner, name, at, w, cell);
  }

  function OperatorChar(v: VarExpr): char {
    if v.DefaultIfUnset? then '-' else if v.AssignIfUnset? then '=' else if v.AlternateIfSet? then '+' else '?'
  }

  lemma OperatorInner(v: VarExpr)
    requires WfVar(v) && !v.Special? && !v.Named? && !v.Length?
    ensures InnerText(v) == v.name + (":" + [OperatorChar(v)] + OperandText(v.word))
    ensures Operated(OperatorChar(v), v.name, v.word) == v
  {
    hide OperandText;
    assert v.name + ":-" + OperandText(v.word) == v.name + (":-" + OperandText(v.word));
    assert v.name + ":=" + OperandText(v.word) == v.name + (":=" + OperandText(v.word));
    assert v.name + ":+" + OperandText(v.word) == v.name + (":+" + OperandText(v.word));
    assert v.name + ":?" + OperandText(v.word) == v.name + (":?" + OperandText(v.word));
  }

  lemma BraceVarParses(v: VarExpr, rest: string, cell: Cell)
    requires WfVar(v) && !v.Special?
    ensures ParseBraceVar(InnerText(v) + "}" + rest, cell) == Good((v, |InnerText(v)|), cell)
  {
    hide ParseBraceVar;
    hide OperandText;
    hide Operated;
    if v.Named? || v.Length? {
      PlainBraceVarParses(v, rest, cell);
    } else {
      OperatorInner(v);
      OperatorParses(v.name, ":", OperatorChar(v), v.word, rest, cell);
    }
  }

  lemma PlainBraceVarParses(v: VarExpr, rest: string, cell: Cell)
    requires WfVar(v) && (v.Named? || v.Length?)
    ensures ParseBraceVar(InnerText(v) + "}" + rest, cell) == Good((v, |InnerText(v)|), cell)
  {
    hide WordOf;
    var inner := InnerText(v);
    var s := inner + "}" + rest;
    assert s == inner + ("}" + rest);
    BeforeOf(inner, '}', "}" + rest);
    assert s[..|inner|] == inner;
    NameHasNoOperator(v.name, 0);
    if v.Length? { assert inner[1..] == v.name; }
  }

  lemma SpecialParses(sv: SpecialVar, rest: string, cell: Cell)
    requires WfVar(Special(sv))
    ensures ParseDollar(SpecialText(sv) + rest, cell) == Good(Expansion(Variable(Special(sv)), 2), cell)
  {
    hide ParseBraceVar;
    hide Extract;
    hide NameRun;
    var s := SpecialText(sv) + rest;
    assert s[1] == SpecialText(sv)[1];
    if sv.Positional? { assert IsDigit(s[1]) && DigitValue(s[1]) == sv.n && s[1] != '0'; }
  }

  lemma BraceDollar(t: string, cell: Cell)
    ensures ParseDollar("${" + t, cell) ==
            match ParseBraceVar(t, cell)
            case Good((v, n), c) => Good(Expansion(Variable(v), n + 3), c)
            case Bad(w, q) => Bad(w, q)
  {
    hide ParseBraceVar;
    hide Extract;
    hide NameRun;
    hide IsSpecialVarChar;
    assert ("${" + t)[2..] == t;
  }

  lemma VarParses(v: VarExpr, rest: string, cell: Cell)
    requires WfVar(v)
    ensures ParseDollar(VarText(v) + rest, cell) == Good(Expansion(Variable(v), |VarText(v)|), cell)
  {
    hide ParseBraceVar;
    hide ParseDollar;
    if v.Special? {
      SpecialParses(v.special, rest, cell);
    } else {
      var inner := InnerText(v);
      assert VarText(v) + rest == "${" + (inner + "}" + rest);
      BraceDollar(inner + "}" + rest, cell);
      BraceVarParses(v, rest, cell);
    }
  }

  /** Trimming a printed script only takes off its leading space. */
  lemma TrimPrinted(ts: Toks)
    requires Renderable(ts, false) && EndsItems(ts)
    ensures Render(ts, false) == " " + Trim(Render(ts, false))
  {
    hide Renderable;
    hide Render;
    hide Trim;
    hide EndsItems;
    hide IsSpace;
    var t := Render(ts, false);
    FirstIsText(ts);
    LastIsText(ts, false);
    assert !IsSpace(t[|t| - 1]) by { SeparatorsAreText(t[|t| - 1]); }
    OneBlankTrims(t);
  }

  lemma SeparatorsAreText(c: char)
    requires c in ";&"
    ensures !IsSpace(c)
  {
  }

  /** Trimming a text that begins with one blank takes the blank. */
  lemma OneBlankTrims(t: string)
    requires |t| > 1 && t[0] == ' ' && !IsSpace(t[1]) && !IsSpace(t[|t| - 1])
    ensures t == " " + Trim(t)
  {
    var u := t[1..];
    assert t == " " + u && u[0] == t[1] && u[|u| - 1] == t[|t| - 1];
    assert TrimStart(u) == u && TrimStart(t) == TrimStart(u) && TrimEnd(u) == u;
  }

  lemma PlainIsText(c: char)
    requires IsDigit(c) || c in "'\"|&;(){}!<>"
    ensures !IsSpace(c)
  {
  }

  lemma BareIsText(t: string)
    requires WordTok(t)
    ensures t != "" && !IsSpace(t[0])
  {
    hide Solid;
  }

  lemma TextStarts(k: TokenKind)
    requires ReadsBack(k)
    ensures KText(k) != "" && !IsSpace(KText(k)[0])
  {
    hide WordTok;
    hide IsSpace;
    hide Show;
    hide RedirectText;
    if k.TWord? {
      BareIsText(k.text);
    } else if k.TRedirect? {
      OperatorStart(k.op);
      var c := if k.fd.Some? then Show(k.fd.value)[0] else RedirectText(k.op)[0];
      assert KText(k)[0] == c;
      PlainIsText(c);
    } else if k.TSingleQuote? {
      PlainIsText('\'');
    } else {
      PlainIsText(KText(k)[0]);
    }
  }

  lemma FirstIsText(ts: Toks)
    requires Renderable(ts, false) && EndsItems(ts)
    ensures var t := Render(ts, false); |t| >= 2 && t[0] == ' ' && !IsSpace(t[1])
  {
    hide ReadsBack;
    hide DqReadsBack;
    hide IsSpace;
    hide KText;
    TextStarts(ts.k);
  }

  lemma SeparatorText(k: TokenKind)
    requires k.TSemi? || k.TAmp?
    ensures KText(k) in {";", "&"}
  {
  }

  lemma {:induction false} LastIsText(ts: Toks, dq: bool)
    requires EndsItems(ts)
    ensures var t := Render(ts, dq); t != "" && t[|t| - 1] in ";&"
    decreases ts
  {
    hide KText;
    var r := Render(ts.tl, ModeAfter(dq, ts.k));
    RenderCons(ts.k, ts.tl, dq);
    if ts.tl == AtEof {
      assert r == "" && KText(ts.k) in {";", "&"} by { SeparatorText(ts.k); }
      assert Render(ts, dq) == (if dq then "" else " ") + KText(ts.k);
    } else {
      LastIsText(ts.tl, ModeAfter(dq, ts.k));
      assert Render(ts, dq)[|Render(ts, dq)| - 1] == r[|r| - 1];
    }
  }

  // ---------------------------------------------------------------- words

  lemma SubstParses(script: seq<Command>, rest: string)
    requires WfScript(script, true)
    ensures ParseDollar(SubstText(script) + rest, Free([])) ==
            Good(Expansion(CommandSubst(script), |SubstText(script)|), Free([]))
    decreases script, 6
  {
    hide Parse;
    hide ParseDollar;
    hide Inert;
    hide Trim;
    var t := InertScript(script, AtEof);
    var toks := ToksScript(script, AtEof);
    assert Render(toks, false) == t;
    RenderHead(toks);
    PrintedParses(script, true);
    SubstDollar(t, rest, script);
  }

  lemma SubstDollar(t: string, rest: string, script: seq<Command>)
    requires Inert(t) && (t == "" || t[0] == ' ')
    requires Parse(Trim(t), Free([])) == Good(script, Free([]))
    ensures ParseDollar("$(" + t + ")" + rest, Free([])) == Good(Expansion(CommandSubst(script), |t| + 3), Free([]))
  {
    hide Parse;
    hide Inert;
    hide Trim;
    hide Extract;
    hide Parenthesis;
    SubstExtent(t, rest);
  }

  /** Where a `$(` whose text starts with a blank, or is empty, ends. */
  lemma SubstExtent(t: string, rest: string)
    requires Inert(t) && (t == "" || t[0] == ' ')
    ensures var s := "$(" + t + ")" + rest;
            && !Parenthesis(s, 2)
            && Extract(s[2..], 1, ")") == Some((|t|, |t| + 1))
            && s[2..][..|t|] == t
  {
    hide BalancedRun;
    var s := "$(" + t + ")" + rest;
    assert s[2..] == t + (")" + rest);
    assert Passes(t, 1, ")" + rest);
    assert Extract(")" + rest, 1, ")") == Some((0, 1));
  }

  lemma ArithParses(expr: string, rest: string, cell: Cell)
    requires IsBalanced(expr)
    ensures ParseDollar(ArithText(expr) + rest, cell) == Good(Expansion(ArithSubst(expr), |ArithText(expr)|), cell)
  {
    hide Depth;
    hide Extract;
    var s, close := ArithText(expr) + rest, "))" + rest;
    assert s[3..] == expr + close;
    ScannersStayInStep(expr, 0, 1, close, "))");
    CloseBoth(rest);
    assert s[3..][..|expr|] == expr;
  }

  lemma CloseBoth(rest: string)
    ensures Extract("))" + rest, 1, "))") == Some((0, 2))
  {
  }

  lemma {:induction false} PartsParse(parts: seq<Word>, nested: bool)
    requires WfParts(parts, nested)
    ensures WordParts(PartsText(parts), "", Free([])) == Good(parts, Free([]))
    decreases parts
  {
    hide ParseDollar;
    hide Solid;
    if parts != [] {
      var p, rest := parts[0], PartsText(parts[1..]);
      PartsParse(parts[1..], nested);
      assert parts == [p] + parts[1..];
      match p {
        case Literal(s) =>
          if |parts| > 1 { PartIsSolid(parts[1], nested); assert rest[0] == '$'; }
          EscapedParts(s, "", rest, Free([]));
          assert "" + s == s;
          FlushLiteral(rest, s, Free([]), parts[1..], Free([]));
        case Variable(v) =>
          VarParses(v, rest, Free([]));
          ExpansionFirst(VarText(v), rest, p, parts[1..]);
        case CommandSubst(script) =>
          SubstParses(script, rest);
          ExpansionFirst(SubstText(script), rest, p, parts[1..]);
        case ArithSubst(expr) =>
          ArithParses(expr, rest, Free([]));
          ExpansionFirst(ArithText(expr), rest, p, parts[1..]);
      }
    }
  }

  lemma ExpansionFirst(t: string, rest: string, w: Word, more: seq<Word>)
    requires t != "" && t[0] == '$'
    requires ParseDollar(t + rest, Free([])) == Good(Expansion(w, |t|), Free([]))
    requires WordParts(rest, "", Free([])) == Good(more, Free([]))
    ensures WordParts(t + rest, "", Free([])) == Good([w] + more, Free([]))
  {
    hide ParseDollar;
    DropHead(t, rest);
    assert [] + [w] + more == [w] + more;
  }

  lemma ReservedParses(s: string)
    requires IsReserved(s)
    ensures WordParts("\\" + s, "", Free([])) == Good([Literal(s)], Free([]))
  {
    hide IsReserved;
    var t := "\\" + s;
    ReservedIsPlain(s);
    EscapeTail(s);
    assert t[2..] == s[1..] && "" + [t[1]] == [s[0]];
    assert '\n' !in s[1..] by { ReservedHasNoNewline(s); }
    EscapedParts(s[1..], [s[0]], "", Free([]));
    assert s[1..] + "" == s[1..];
    assert [s[0]] + s[1..] == s;
  }

  lemma ReservedHasNoNewline(s: string)
    requires IsReserved(s)
    ensures '\n' !in s[1..]
  {
  }

  lemma LiteralParses(s: string)
    requires s != "" && '\n' !in s
    ensures WordParts(LiteralText(s), "", Free([])) == Good([Literal(s)], Free([]))
  {
    hide IsReserved;
    if IsReserved(s) {
      ReservedParses(s);
    } else {
      EscapedParts(s, "", "", Free([]));
      assert Escape(s) + "" == Escape(s) && "" + s == s;
    }
  }

  lemma WordOfParses(w: Word, nested: bool)
    requires WfWord(w, nested) && !w.SingleQuoted? && !w.DoubleQuoted?
    ensures WordOf(WordText(w), Free([])) == Good(w, Free([]))
    decreases w, 1, 0
  {
    hide WordParts;
    match w
    case Literal(s) => LiteralParses(s);
    case Concat(ps) => PartsParse(ps, nested);
    case Variable(_) => OnePart(w, nested);
    case CommandSubst(_) => OnePart(w, nested);
    case ArithSubst(_) => OnePart(w, nested);
  }

  lemma OnePart(w: Word, nested: bool)
    requires WfPart(w, nested) && !w.Literal?
    ensures WordParts(PartText(w), "", Free([])) == Good([w], Free([]))
    decreases w, 0
  {
    hide ParseDollar;
    hide Solid;
    PartIsSolid(w, nested);
    assert PartText(w) + "" == PartText(w) && [w] + [] == [w];
    match w {
      case Variable(v) => VarParses(v, "", Free([]));
      case CommandSubst(script) => SubstParses(script, "");
      case ArithSubst(expr) => ArithParses(expr, "", Free([]));
    }
    ExpansionFirst(PartText(w), "", w, []);
  }

  /** Glued text is literal inside double quotes. */
  lemma {:induction false} GluedParts(s: string, lit: string, rest: string)
    requires IsGlued(s)
    ensures DqWordParts(s + rest, lit, Free([])) == DqWordParts(rest, lit + s, Free([]))
    decreases |s|
  {
    hide ParseDollar;
    hide ParseBacktick;
    if s == "" {
      assert s + rest == rest && lit + s == lit;
    } else {
      assert (s + rest)[1..] == s[1..] + rest;
      if s[0] == '\\' {
        assert (s[1..] + rest)[1..] == s[2..] + rest && (s[1..] + rest)[0] == s[1];
        GluedParts(s[2..], lit + [s[0]] + [s[1]], rest);
        assert lit + [s[0]] + [s[1]] + s[2..] == lit + s;
      } else {
        GluedParts(s[1..], lit + [s[0]], rest);
        assert lit + [s[0]] + s[1..] == lit + s;
      }
    }
  }

  /** Literal text ends where an expansion starts. */
  lemma DqLiteralFirst(lit: string, rest: string, more: seq<DQPart>)
    requires lit != "" && (rest == "" || rest[0] == '$')
    requires DqWordParts(rest, "", Free([])) == Good(more, Free([]))
    ensures DqWordParts(rest, lit, Free([])) == Good([DQLiteral(lit)] + more, Free([]))
  {
    hide ParseDollar;
    hide ParseBacktick;
    if rest != "" {
      var d := ParseDollar(rest, Free([]));
      var tail := DqWordParts(rest[d.value.len..], "", d.st);
      assert [] + [ToDqPart(d.value.word)] + tail.value == [ToDqPart(d.value.word)] + tail.value;
      assert PendingDq(lit) + [ToDqPart(d.value.word)] + tail.value == [DQLiteral(lit)] + ([ToDqPart(d.value.word)] + tail.value);
    } else {
      assert [DQLiteral(lit)] + [] == [DQLiteral(lit)];
    }
  }

  lemma {:induction false} DqRunParses(ps: seq<DQPart>, nested: bool)
    requires WfRun(ps, nested)
    ensures DqWordParts(DqRunText(ps), "", Free([])) == Good(ps, Free([]))
    decreases ps, 0
  {
    hide ParseDollar;
    hide Solid;
    hide IsGlued;
    hide FitsPlace;
    if ps != [] {
      var p, rest := ps[0], DqRunText(ps[1..]);
      DqRunParses(ps[1..], nested);
      assert ps == [p] + ps[1..];
      match p {
        case DQVariable(v) =>
          VarParses(v, rest, Free([]));
          SolidVar(v);
          DqExpansionFirst(VarText(v), rest, Variable(v), ps[1..]);
        case DQCommandSubst(script) =>
          SubstParses(script, rest);
          DqExpansionFirst(SubstText(script), rest, CommandSubst(script), ps[1..]);
        case DQArithSubst(expr) =>
          ArithParses(expr, rest, Free([]));
          DqExpansionFirst(ArithText(expr), rest, ArithSubst(expr), ps[1..]);
        case DQLiteral(s) =>
          DqRunIsSolid(ps[1..], nested);
          GluedParts(s, "", rest);
          assert "" + s == s;
          DqLiteralFirst(s, rest, ps[1..]);
      }
    }
  }

  lemma DqExpansionFirst(t: string, rest: string, w: Word, more: seq<DQPart>)
    requires t != "" && t[0] == '$'
    requires ParseDollar(t + rest, Free([])) == Good(Expansion(w, |t|), Free([]))
    requires DqWordParts(rest, "", Free([])) == Good(more, Free([]))
    ensures DqWordParts(t + rest, "", Free([])) == Good([ToDqPart(w)] + more, Free([]))
  {
    hide ParseDollar;
    DropHead(t, rest);
    assert [] + [ToDqPart(w)] + more == [ToDqPart(w)] + more;
  }

  lemma DqTextStep(t: string, s: string, s1: string, more: seq<DQPart>, s2: string)
    requires NextDq(At(s)) == Good(TDQText(t), At(s1)) && DqLoop(At(s1)) == Good(more, At(s2))
    ensures DqLoop(At(s)) == Good([DQLiteral(t)] + more, At(s2))
  {
    hide NextDq;
  }

  lemma DqWordStep(t: string, s: string, s1: string, parts: seq<DQPart>, more: seq<DQPart>, s2: string)
    requires NextDq(At(s)) == Good(TWord(t), At(s1)) && DqLoop(At(s1)) == Good(more, At(s2))
    requires DqWordParts(t, "", Free([])) == Good(parts, Free([]))
    ensures DqLoop(At(s)) == Good(parts + more, At(s2))
  {
    hide NextDq;
    hide DqWordParts;
    assert At(s1).(cell := Free([])) == At(s1);
  }

  lemma DqCloseStep(s: string, s1: string)
    requires NextDq(At(s)) == Good(TDoubleQuoteClose, At(s1))
    ensures DqLoop(At(s)) == Good([], At(s1))
  {
    hide NextDq;
  }

  lemma {:induction false} DqParses(ps: seq<DQPart>, s: string, tl: Toks, nested: bool) returns (s': string)
    requires WfDq(ps, nested)
    requires Stream(s, true, ToksDq(ps, Cons(TDoubleQuoteClose, tl)))
    ensures DqLoop(At(s)) == Good(ps, At(s')) && Stream(s', false, tl)
    decreases ps, 1
  {
    hide DqWordParts;
    hide NextDq;
    hide DqLoop;
    hide Stream;
    hide DqRunText;
    hide WfRun;
    hide FitsPlace;
    hide IsBreak;
    hide TokenRun;
    var close := Cons(TDoubleQuoteClose, tl);
    if ps == [] {
      s' := HeadDq(s, TDoubleQuoteClose, tl);
      DqCloseStep(s, s');
    } else if ps[0].DQLiteral? {
      var s1 := HeadDq(s, TDQText(ps[0].s), ToksDq(ps[1..], close));
      s' := DqParses(ps[1..], s1, tl, nested);
      DqTextStep(ps[0].s, s, s1, ps[1..], s');
      assert ps == [ps[0]] + ps[1..];
    } else {
      var n := TokenRun(ps, false);
      assert n == |ps| ==> ps[..n] == ps;
      DqRunParses(ps[..n], nested);
      var s1 := HeadDq(s, TWord(DqRunText(ps[..n])), ToksDq(ps[n..], close));
      s' := DqParses(ps[n..], s1, tl, nested);
      DqWordStep(DqRunText(ps[..n]), s, s1, ps[..n], ps[n..], s');
      assert ps == ps[..n] + ps[n..];
    }
  }

  lemma WordParses(w: Word, s: string, tl: Toks, nested: bool) returns (s': string)
    requires WfWord(w, nested) && Stream(s, false, ToksWord(w, tl))
    ensures ParseWord(At(s)) == Good(w, At(s')) && Stream(s', false, tl)
    decreases w, 2
  {
    hide WordOf;
    hide Stream;
    match w
    case SingleQuoted(t) => s' := Head(s, TSingleQuote(t), tl);
    case DoubleQuoted(ps) =>
      var toks := ToksDq(ps, Cons(TDoubleQuoteClose, tl));
      s' := Head(s, TDoubleQuoteOpen, toks);
      s' := DqParses(ps, s', tl, nested);
    case Literal(_) => s' := UnquotedParses(w, s, tl, nested);
    case Concat(_) => s' := UnquotedParses(w, s, tl, nested);
    case Variable(_) => s' := UnquotedParses(w, s, tl, nested);
    case CommandSubst(_) => s' := UnquotedParses(w, s, tl, nested);
    case ArithSubst(_) => s' := UnquotedParses(w, s, tl, nested);
  }

  lemma UnquotedParses(w: Word, s: string, tl: Toks, nested: bool) returns (s': string)
    requires WfWord(w, nested) && !w.SingleQuoted? && !w.DoubleQuoted?
    requires Stream(s, false, Cons(TWord(WordText(w)), tl))
    ensures ParseWord(At(s)) == Good(w, At(s')) && Stream(s', false, tl)
    decreases w, 1, 1
  {
    hide WordOf;
    hide Stream;
    s' := Head(s, TWord(WordText(w)), tl);
    WordOfParses(w, nested);
  }

  // ---------------------------------------------------------------- names and assignments

  /** In front of the first `=`, if there is one, stands a character no name has. */
  predicate NoAssignment(t: string) {
    Before(t, '=') < |t| ==> exists i :: 0 <= i < Before(t, '=') && !IsNameChar(t[i])
  }

  lemma NoAssignmentSplits(t: string)
    requires NoAssignment(t)
    ensures SplitAssignment(t) == None
  {
    hide Before;
    var e := Before(t, '=');
    if e < |t| {
      var i :| 0 <= i < e && !IsNameChar(t[i]);
      assert t[..e][i] == t[i];
    }
  }

  lemma ConsIsNoAssignment(c: char, t: string)
    requires c != '=' && (NoAssignment(t) || !IsNameChar(c))
    ensures NoAssignment([c] + t)
  {
    var u := [c] + t;
    assert u[1..] == t;
    if IsNameChar(c) && Before(t, '=') < |t| {
      var i :| 0 <= i < Before(t, '=') && !IsNameChar(t[i]);
      assert u[i + 1] == t[i];
    } else if !IsNameChar(c) {
      assert !IsNameChar(u[0]);
    }
  }

  lemma {:induction false} EscapedIsNoAssignment(s: string, rest: string)
    requires NoAssignment(rest)
    ensures NoAssignment(Escape(s) + rest)
  {
    hide NoAssignment;
    if s == "" {
      assert Escape(s) + rest == rest;
    } else {
      var t := Escape(s[1..]) + rest;
      EscapedIsNoAssignment(s[1..], rest);
      if IsSafe(s[0]) {
        assert Escape(s) + rest == [s[0]] + t;
        ConsIsNoAssignment(s[0], t);
      } else {
        assert Escape(s) + rest == ['\\'] + ([s[0]] + t);
        ConsIsNoAssignment('\\', [s[0]] + t);
      }
    }
  }

  lemma {:induction false} PartsAreNoAssignment(parts: seq<Word>, nested: bool)
    requires WfParts(parts, nested)
    ensures NoAssignment(PartsText(parts))
  {
    hide Solid;
    if parts != [] {
      var rest := PartsText(parts[1..]);
      PartsAreNoAssignment(parts[1..], nested);
      PartIsSolid(parts[0], nested);
      if parts[0].Literal? {
        EscapedIsNoAssignment(parts[0].s, rest);
      } else {
        assert PartsText(parts)[0] == '$' && !IsNameChar('$');
      }
    }
  }

  lemma LiteralIsAName(s: string)
    requires s != ""
    ensures SplitAssignment(LiteralText(s)) == None && !IsReserved(LiteralText(s))
  {
    hide SplitAssignment;
    hide IsReserved;
    LiteralIsNoKeyword(s);
    if IsReserved(s) {
      assert ("\\" + s)[0] == '\\' && !IsNameChar('\\');
    } else {
      EscapedIsNoAssignment(s, "");
      assert Escape(s) + "" == Escape(s);
    }
    NoAssignmentSplits(LiteralText(s));
  }

  /** A printed command name is neither a keyword nor an assignment. */
  lemma NameIsAName(w: Word, nested: bool)
    requires WfWord(w, nested) && !w.SingleQuoted? && !w.DoubleQuoted?
    ensures SplitAssignment(WordText(w)) == None && !IsReserved(WordText(w))
  {
    hide SplitAssignment;
    hide IsReserved;
    hide NoAssignment;
    match w
    case Literal(s) => LiteralIsAName(s);
    case Concat(ps) =>
      PartsAreNoAssignment(ps, nested);
      NoAssignmentSplits(WordText(w));
      ConcatIsNoKeyword(ps, nested);
    case Variable(_) => ExpansionIsAName(w, nested);
    case CommandSubst(_) => ExpansionIsAName(w, nested);
    case ArithSubst(_) => ExpansionIsAName(w, nested);
  }

  lemma ExpansionIsAName(w: Word, nested: bool)
    requires WfPart(w, nested) && !w.Literal?
    ensures SplitAssignment(PartText(w)) == None && !IsReserved(PartText(w))
  {
    hide Solid;
    hide SplitAssignment;
    PartIsSolid(w, nested);
    assert PartText(w)[0] == '$' && !IsNameChar('$');
    NoAssignmentSplits(PartText(w));
  }

  lemma {:induction false} EscapeIsPlain(s: string)
    requires forall i :: 0 <= i < |Escape(s)| ==> IsAlpha(Escape(s)[i])
    ensures Escape(s) == s
  {
    if s != "" {
      assert IsAlpha(Escape(s)[0]);
      assert Escape(s)[1..] == Escape(s[1..]);
      forall i | 0 <= i < |Escape(s[1..])| ensures IsAlpha(Escape(s[1..])[i]) {
        assert Escape(s[1..])[i] == Escape(s)[i + 1];
      }
      EscapeIsPlain(s[1..]);
      assert [s[0]] + s[1..] == s;
    }
  }

  lemma LiteralIsNoKeyword(s: string)
    requires s != ""
    ensures !IsReserved(LiteralText(s))
  {
    if IsReserved(s) {
      assert LiteralText(s)[0] == '\\';
    } else if IsReserved(Escape(s)) {
      EscapeIsPlain(s);
    }
  }

  lemma {:induction false} HasDollar(parts: seq<Word>, nested: bool)
    requires WfParts(parts, nested) && parts != [] && (!parts[0].Literal? || |parts| > 1)
    ensures '$' in PartsText(parts)
  {
    hide Solid;
    PartIsSolid(parts[0], nested);
    var rest := PartsText(parts[1..]);
    if parts[0].Literal? {
      PartIsSolid(parts[1], nested);
      assert rest[0] == '$';
      assert (PartText(parts[0]) + rest)[|PartText(parts[0])|] == '$';
    } else {
      assert PartsText(parts)[0] == '$';
    }
  }

  lemma ConcatIsNoKeyword(parts: seq<Word>, nested: bool)
    requires WfParts(parts, nested) && |parts| >= 2
    ensures !IsReserved(PartsText(parts))
  {
    HasDollar(parts, nested);
  }

  lemma AssignmentSplits(name: string, value: string)
    requires IsValidName(name)
    ensures SplitAssignment(name + "=" + value) == Some((name, value))
    ensures !IsReserved(name + "=" + value)
  {
    hide Before;
    hide IsReserved;
    var t := name + "=" + value;
    assert t == name + ("=" + value);
    NameHasNoEquals(name);
    BeforeOf(name, '=', "=" + value);
    assert t[..|name|] == name && t[|name| + 1..] == value;
    assert t[|name|] == '=';
    HasEqualsIsNoKeyword(t);
  }

  lemma NameHasNoEquals(name: string)
    requires IsValidName(name)
    ensures '=' !in name
  {
    assert forall c :: c in name ==> IsNameChar(c);
  }

  lemma HasEqualsIsNoKeyword(t: string)
    requires '=' in t
    ensures !IsReserved(t)
  {
  }

  // ---------------------------------------------------------------- simple commands

  /** Tokens that a simple command may be followed by when it is read on from the middle. */
  predicate GoesOn(tl: Toks) {
    tl.Cons? && !tl.k.TLParen?
  }

  lemma AssignParses(a: Assignment, s: string, tl: Toks, nested: bool) returns (s': string)
    requires IsValidName(a.name) && WfValue(a.value, nested)
    requires Stream(s, false, Cons(TWord(a.name + "=" + ValueText(a.value)), tl))
    ensures var text := a.name + "=" + ValueText(a.value);
            Peek(At(s)) == Good(TWord(text), At(s)) && SplitAssignment(text).Some?
    ensures ParseAssignment(At(s)) == Good(a, At(s')) && Stream(s', false, tl)
    decreases a, 3
  {
    hide Stream;
    hide WordOf;
    hide SplitAssignment;
    hide Lex;
    AssignmentSplits(a.name, ValueText(a.value));
    s' := Head(s, TWord(a.name + "=" + ValueText(a.value)), tl);
    ValueParses(a.value, nested);
    assert At(s').(cell := Free([])) == At(s');
  }

  lemma AssignStep(a: Assignment, text: string, sc: SimpleCommand, s: string, s': string)
    requires sc.name.None? && Peek(At(s)) == Good(TWord(text), At(s)) && SplitAssignment(text).Some?
    requires ParseAssignment(At(s)) == Good(a, At(s'))
    ensures SimpleLoop(At(s), sc) == SimpleLoop(At(s'), sc.(assignments := sc.assignments + [a]))
  {
    hide Peek;
    hide ParseAssignment;
    hide SplitAssignment;
  }

  lemma AssignRound(a: Assignment, sc: SimpleCommand, s: string, tl: Toks, nested: bool) returns (s': string)
    requires IsValidName(a.name) && WfValue(a.value, nested) && sc.name.None?
    requires Stream(s, false, Cons(TWord(a.name + "=" + ValueText(a.value)), tl))
    ensures SimpleLoop(At(s), sc) == SimpleLoop(At(s'), sc.(assignments := sc.assignments + [a]))
    ensures Stream(s', false, tl)
    decreases a, 4
  {
    hide Stream;
    hide SimpleLoop;
    hide SplitAssignment;
    hide ParseAssignment;
    hide Peek;
    s' := AssignParses(a, s, tl, nested);
    AssignStep(a, a.name + "=" + ValueText(a.value), sc, s, s');
  }

  lemma {:induction false} AssignsParse(as_: seq<Assignment>, sc: SimpleCommand, s: string, tl: Toks, nested: bool) returns (s': string)
    requires forall a :: a in as_ ==> IsValidName(a.name) && WfValue(a.value, nested)
    requires sc.name.None? && Stream(s, false, ToksAssigns(as_, tl))
    ensures SimpleLoop(At(s), sc) == SimpleLoop(At(s'), sc.(assignments := sc.assignments + as_))
    ensures Stream(s', false, tl)
    decreases as_
  {
    hide Stream;
    hide SimpleLoop;
    hide ValueText;
    hide IsValidName;
    hide WfValue;
    if as_ == [] {
      assert sc.assignments + [] == sc.assignments;
      s' := s;
    } else {
      var a := as_[0];
      s' := AssignRound(a, sc, s, ToksAssigns(as_[1..], tl), nested);
      s' := AssignsParse(as_[1..], sc.(assignments := sc.assignments + [a]), s', tl, nested);
      assert sc.assignments + [a] + as_[1..] == sc.assignments + as_;
    }
  }

  lemma ValueParses(w: Word, nested: bool)
    requires WfValue(w, nested)
    ensures WordOf(ValueText(w), Free([])) == Good(w, Free([]))
    decreases w, 2
  {
    hide WordText;
    if w != Literal("") { WordOfParses(w, nested); }
  }

  lemma LooksLikeNoFunction(s: string, k: TokenKind, tl: Toks, first: bool)
    requires Stream(s, false, Cons(k, tl)) && !k.TDoubleQuoteOpen? && !k.TDoubleQuoteClose? && GoesOn(tl)
    ensures FunctionLookahead(At(s), first) == Good((), At(s))
  {
    hide Lex;
    hide IsPlainName;
    var s' := Head(s, k, tl);
    var _ := Head(s', tl.k, tl.tl);
  }

  /** The first token of a word, and that it passes for one in front of `tl`. */
  lemma WordStarts(w: Word, s: string, tl: Toks, nested: bool, first: bool)
    requires WfWord(w, nested) && Stream(s, false, ToksWord(w, tl)) && GoesOn(tl)
    ensures var k := ToksWord(w, tl).k;
            && Peek(At(s)) == Good(k, At(s)) && StartsWord(k)
            && (k.TWord? ==> SplitAssignment(k.text).None? && !IsReserved(k.text))
            && FunctionLookahead(At(s), first) == Good((), At(s))
  {
    hide Stream;
    hide SplitAssignment;
    hide IsReserved;
    var toks := ToksWord(w, tl);
    var _ := Head(s, toks.k, toks.tl);
    if toks.k.TWord? {
      NameIsAName(w, nested);
      LooksLikeNoFunction(s, toks.k, tl, first);
    }
  }

  lemma WordRound(w: Word, sc: SimpleCommand, s: string, tl: Toks, nested: bool) returns (s': string)
    requires WfWord(w, nested) && Stream(s, false, ToksWord(w, tl)) && GoesOn(tl)
    ensures SimpleLoop(At(s), sc) ==
            SimpleLoop(At(s'), if sc.name.None? then sc.(name := Some(w)) else sc.(args := sc.args + [w]))
    ensures Stream(s', false, tl)
    decreases w, 3
  {
    hide Stream;
    hide ParseWord;
    hide FunctionLookahead;
    hide ToksWord;
    hide WfWord;
    WordStarts(w, s, tl, nested, sc.name.None?);
    s' := WordParses(w, s, tl, nested);
    assert ToksWord(w, tl).Cons? by { WordGoesOn(w, tl, nested); }
    WordTaken(w, sc, s, s', ToksWord(w, tl).k);
  }

  lemma WordTaken(w: Word, sc: SimpleCommand, s: string, s': string, k: TokenKind)
    requires Peek(At(s)) == Good(k, At(s)) && StartsWord(k) && (k.TWord? ==> SplitAssignment(k.text).None?)
    requires FunctionLookahead(At(s), sc.name.None?) == Good((), At(s)) && ParseWord(At(s)) == Good(w, At(s'))
    ensures SimpleLoop(At(s), sc) ==
            SimpleLoop(At(s'), if sc.name.None? then sc.(name := Some(w)) else sc.(args := sc.args + [w]))
  {
    hide Lex;
    hide ParseWord;
    hide FunctionLookahead;
    hide SplitAssignment;
    hide ParseAssignment;
    hide ParseRedirect;
  }

  lemma WordGoesOn(w: Word, tl: Toks, nested: bool)
    requires WfWord(w, nested)
    ensures GoesOn(ToksWord(w, tl)) && StartsWord(ToksWord(w, tl).k)
  {
  }

  lemma WordsGoOn(ws: seq<Word>, tl: Toks, nested: bool)
    requires (forall w :: w in ws ==> WfWord(w, nested)) && GoesOn(tl)
    ensures GoesOn(ToksWords(ws, tl))
  {
    if ws != [] { WordGoesOn(ws[0], ToksWords(ws[1..], tl), nested); }
  }

  lemma RedirectsGoOn(rs: seq<Redirect>, tl: Toks, nested: bool)
    requires (forall r :: r in rs ==> WfRedirect(r, nested)) && GoesOn(tl)
    ensures GoesOn(ToksRedirects(rs, tl))
  {
    if rs != [] { assert WfRedirect(rs[0], nested); }
  }

  lemma {:induction false} ArgsParse(ws: seq<Word>, sc: SimpleCommand, s: string, tl: Toks, nested: bool) returns (s': string)
    requires forall w :: w in ws ==> WfWord(w, nested)
    requires sc.name.Some? && GoesOn(tl) && Stream(s, false, ToksWords(ws, tl))
    ensures SimpleLoop(At(s), sc) == SimpleLoop(At(s'), sc.(args := sc.args + ws))
    ensures Stream(s', false, tl)
    decreases ws
  {
    hide Stream;
    hide SimpleLoop;
    hide ToksWord;
    if ws == [] {
      assert sc.args + [] == sc.args;
      s' := s;
    } else {
      WordsGoOn(ws[1..], tl, nested);
      s' := WordRound(ws[0], sc, s, ToksWords(ws[1..], tl), nested);
      s' := ArgsParse(ws[1..], sc.(args := sc.args + [ws[0]]), s', tl, nested);
      assert sc.args + [ws[0]] + ws[1..] == sc.args + ws;
    }
  }

  lemma KindOfOp(kind: RedirectKind)
    ensures KindOf(OpOf(kind)) == kind && !OpOf(kind).GreaterAmp? && !OpOf(kind).LessAmp?
  {
  }

  lemma NumberParses(n: nat)
    requires n < 0x1_0000_0000
    ensures ParseU32(Show(n)) == Some(n) && Show(n) != "-"
  {
    ValueOfShow(n);
    assert IsDigit(Show(n)[0]);
  }

  /** A descriptor that is left out is the one that was meant. */
  lemma ShownFdIsRead(fd: Option<nat>, op: RedirectOp)
    requires fd.Some?
    ensures var shown := ShownFd(fd, op);
            (if shown.Some? then shown.value else DefaultFd(op)) == fd.value
  {
  }

  lemma RedirectParses(r: Redirect, s: string, tl: Toks, nested: bool) returns (s': string)
    requires WfRedirect(r, nested) && Stream(s, false, ToksRedirect(r, tl))
    ensures Peek(At(s)).Good? && Peek(At(s)).value.TRedirect?
    ensures ParseRedirect(At(s)) == Good(r, At(s')) && Stream(s', false, tl)
    decreases r, 0
  {
    hide Stream;
    hide ParseWord;
    match r.target
    case ToWord(w) =>
      KindOfOp(r.kind);
      ShownFdIsRead(r.fd, OpOf(r.kind));
      s' := Head(s, TRedirect(ShownFd(r.fd, OpOf(r.kind)), OpOf(r.kind)), ToksWord(w, tl));
      s' := WordParses(w, s', tl, nested);
    case ToFd(n) =>
      NumberParses(n);
      s' := DupParses(r, Show(n), s, tl);
    case CloseFd =>
      s' := DupParses(r, "-", s, tl);
  }

  lemma DupParses(r: Redirect, text: string, s: string, tl: Toks) returns (s': string)
    requires r.fd.Some? && (r.kind.Write? || r.kind.Read?)
    requires if r.target.CloseFd? then text == "-" else r.target.ToFd? && text != "-" && ParseU32(text) == Some(r.target.fd)
    requires var op := if r.kind.Read? then LessAmp else GreaterAmp;
             Stream(s, false, Cons(TRedirect(ShownFd(r.fd, op), op), Cons(TWord(text), tl)))
    ensures Peek(At(s)).Good? && Peek(At(s)).value.TRedirect?
    ensures ParseRedirect(At(s)) == Good(r, At(s')) && Stream(s', false, tl)
  {
    hide Stream;
    hide ParseU32;
    hide ParseWord;
    hide Lex;
    hide WordOf;
    var op := if r.kind.Read? then LessAmp else GreaterAmp;
    ShownFdIsRead(r.fd, op);
    s' := Head(s, TRedirect(ShownFd(r.fd, op), op), Cons(TWord(text), tl));
    s' := Head(s', TWord(text), tl);
  }

  lemma RedirectStep(r: Redirect, sc: SimpleCommand, s: string, s': string)
    requires Peek(At(s)).Good? && Peek(At(s)).value.TRedirect? && ParseRedirect(At(s)) == Good(r, At(s'))
    ensures SimpleLoop(At(s), sc) == SimpleLoop(At(s'), sc.(redirects := sc.redirects + [r]))
  {
    hide Peek;
    hide ParseRedirect;
  }

  lemma RedirectRound(r: Redirect, sc: SimpleCommand, s: string, tl: Toks, nested: bool) returns (s': string)
    requires WfRedirect(r, nested) && Stream(s, false, ToksRedirect(r, tl))
    ensures SimpleLoop(At(s), sc) == SimpleLoop(At(s'), sc.(redirects := sc.redirects + [r]))
    ensures Stream(s', false, tl)
    decreases r, 1
  {
    hide Stream;
    hide SimpleLoop;
    hide ParseRedirect;
    hide ToksRedirect;
    hide WfRedirect;
    s' := RedirectParses(r, s, tl, nested);
    RedirectStep(r, sc, s, s');
  }

  lemma {:induction false} RedirectsParse(rs: seq<Redirect>, sc: SimpleCommand, s: string, tl: Toks, nested: bool) returns (s': string)
    requires forall r :: r in rs ==> WfRedirect(r, nested)
    requires Stream(s, false, ToksRedirects(rs, tl))
    ensures SimpleLoop(At(s), sc) == SimpleLoop(At(s'), sc.(redirects := sc.redirects + rs))
    ensures Stream(s', false, tl)
    decreases rs
  {
    hide Stream;
    hide SimpleLoop;
    hide ToksRedirect;
    hide WfRedirect;
    if rs == [] {
      assert sc.redirects + [] == sc.redirects;
      s' := s;
    } else {
      s' := RedirectRound(rs[0], sc, s, ToksRedirects(rs[1..], tl), nested);
      s' := RedirectsParse(rs[1..], sc.(redirects := sc.redirects + [rs[0]]), s', tl, nested);
      assert sc.redirects + [rs[0]] + rs[1..] == sc.redirects + rs;
    }
  }

  lemma SimpleParses(sc: SimpleCommand, s: string, tl: Toks, nested: bool) returns (s': string)
    requires WfSimple(sc, nested) && tl.Cons? && IsStop(tl.k)
    requires Stream(s, false, ToksSimple(sc, tl))
    ensures SimpleLoop(At(s), EmptySimple) == Good(sc, At(s'))
    ensures Stream(s', false, tl)
    decreases sc, 0
  {
    hide Stream;
    hide SimpleLoop;
    var t4 := ToksRedirects(sc.redirects, tl);
    var t3 := ToksWords(sc.args, t4);
    RedirectsGoOn(sc.redirects, tl, nested);
    WordsGoOn(sc.args, t4, nested);
    s' := AssignsParse(sc.assignments, EmptySimple, s, ToksName(sc.name, t3), nested);
    assert [] + sc.assignments == sc.assignments;
    var c := EmptySimple.(assignments := sc.assignments);
    if sc.name.Some? {
      s' := WordRound(sc.name.value, c, s', t3, nested);
      c := c.(name := sc.name);
      s' := ArgsParse(sc.args, c, s', t4, nested);
      assert [] + sc.args == sc.args;
      c := c.(args := sc.args);
    }
    s' := RedirectsParse(sc.redirects, c, s', tl, nested);
    assert [] + sc.redirects == sc.redirects;
    SimpleEnds(sc, s', tl);
  }

  lemma SimpleEnds(sc: SimpleCommand, s: string, tl: Toks)
    requires tl.Cons? && IsStop(tl.k) && Stream(s, false, tl)
    ensures SimpleLoop(At(s), sc) == Good(sc, At(s))
  {
    hide Stream;
    var _ := Head(s, tl.k, tl.tl);
  }

  /** The first token of a simple command. */
  lemma SimpleStarts(sc: SimpleCommand, tl: Toks, nested: bool)
    requires WfSimple(sc, nested)
    ensures var ts := ToksSimple(sc, tl);
            ts.Cons? && (StartsWord(ts.k) || ts.k.TRedirect?) && (ts.k.TWord? ==> !IsReserved(ts.k.text))
  {
    hide IsReserved;
    hide SplitAssignment;
    var ts := ToksSimple(sc, tl);
    if sc.assignments != [] {
      assert sc.assignments[0] in sc.assignments;
      AssignmentSplits(sc.assignments[0].name, ValueText(sc.assignments[0].value));
    } else if sc.name.Some? {
      NameStarts(sc.name.value, ToksWords(sc.args, ToksRedirects(sc.redirects, tl)), nested);
    } else {
      var rs := sc.redirects;
      var t4 := ToksRedirects(rs, tl);
      assert WfRedirect(rs[0], nested);
      assert ToksWords(sc.args, t4) == t4;
      assert ToksName(sc.name, t4) == t4;
      assert ToksAssigns(sc.assignments, t4) == t4;
      assert t4 == ToksRedirect(rs[0], ToksRedirects(rs[1..], tl));
    }
  }

  lemma NameStarts(w: Word, tl: Toks, nested: bool)
    requires WfWord(w, nested)
    ensures var ts := ToksWord(w, tl); ts.Cons? && StartsWord(ts.k) && (ts.k.TWord? ==> !IsReserved(ts.k.text))
  {
    hide IsReserved;
    hide SplitAssignment;
    if !w.SingleQuoted? && !w.DoubleQuoted? { NameIsAName(w, nested); }
  }

  lemma CommandParses(sc: SimpleCommand, s: string, tl: Toks, nested: bool) returns (s': string)
    requires WfSimple(sc, nested) && tl.Cons? && IsStop(tl.k)
    requires Stream(s, false, ToksSimple(sc, tl))
    ensures ParseCommand(At(s)) == Good(Simple(sc), At(s'))
    ensures Stream(s', false, tl)
    decreases sc, 1
  {
    hide Stream;
    hide SimpleLoop;
    hide ToksSimple;
    hide IsReserved;
    SimpleStarts(sc, tl, nested);
    var ts := ToksSimple(sc, tl);
    var _ := Head(s, ts.k, ts.tl);
    s' := SimpleParses(sc, s, tl, nested);
  }

  // ---------------------------------------------------------------- pipelines

  lemma StagesStart(scs: seq<SimpleCommand>, tl: Toks, nested: bool)
    requires scs != [] && WfSimple(scs[0], nested)
    ensures var ts := ToksStages(scs, tl); ts.Cons? && (StartsWord(ts.k) || ts.k.TRedirect?)
  {
    hide ToksSimple;
    hide WfSimple;
    SimpleStarts(scs[0], if |scs| == 1 then tl else Cons(TPipe, ToksStages(scs[1..], tl)), nested);
  }

  /** The stages behind the first one, each with its `|`. */
  function TailStages(scs: seq<SimpleCommand>, tl: Toks): Toks {
    if scs == [] then tl else Cons(TPipe, ToksStages(scs, tl))
  }

  lemma FirstStage(scs: seq<SimpleCommand>, tl: Toks)
    requires scs != []
    ensures ToksStages(scs, tl) == ToksSimple(scs[0], TailStages(scs[1..], tl))
  {
    if |scs| == 1 { assert scs[1..] == []; }
  }

  /** A token that ends a whole pipeline. */
  predicate EndsPipeline(k: TokenKind) {
    IsStop(k) && !k.TPipe? && !k.TNewline?
  }

  lemma {:induction false} StageLoopParses(scs: seq<SimpleCommand>, s: string, tl: Toks, nested: bool) returns (s': string)
    requires forall sc :: sc in scs ==> WfSimple(sc, nested)
    requires tl.Cons? && EndsPipeline(tl.k) && Stream(s, false, TailStages(scs, tl))
    ensures StageLoop(At(s)) == Good(scs, At(s')) && Stream(s', false, tl)
    decreases scs
  {
    hide Stream;
    hide ParseCommand;
    hide ToksSimple;
    hide WfSimple;
    hide StageLoop;
    hide SkipNewlines;
    hide Lex;
    hide ToksStages;
    if scs == [] {
      s' := s;
      var _ := Head(s, tl.k, tl.tl);
      StageLoopEnds(s);
    } else {
      var s1 := Head(s, TPipe, ToksStages(scs, tl));
      StagesStart(scs, tl, nested);
      NoNewlines(s1, ToksStages(scs, tl));
      FirstStage(scs, tl);
      var s2 := CommandParses(scs[0], s1, TailStages(scs[1..], tl), nested);
      s' := StageLoopParses(scs[1..], s2, tl, nested);
      StageStep(scs[0], scs[1..], s, s1, s2, s');
      assert [scs[0]] + scs[1..] == scs;
    }
  }

  lemma StageLoopEnds(s: string)
    requires Peek(At(s)).Good? && !Peek(At(s)).value.TPipe?
    ensures StageLoop(At(s)) == Good([], At(s))
  {
    hide Peek;
  }

  lemma StageStep(sc: SimpleCommand, scs: seq<SimpleCommand>, s: string, s1: string, s2: string, s': string)
    requires Peek(At(s)) == Good(TPipe, At(s)) && After(At(s)) == At(s1)
    requires SkipNewlines(At(s1)) == Good((), At(s1))
    requires ParseCommand(At(s1)) == Good(Simple(sc), At(s2))
    requires StageLoop(At(s2)) == Good(scs, At(s'))
    ensures StageLoop(At(s)) == Good([sc] + scs, At(s'))
  {
    hide Lex;
    hide SkipNewlines;
    hide ParseCommand;
  }

  lemma PipelineParses(p: Pipeline, s: string, tl: Toks, nested: bool) returns (s': string)
    requires |p.commands| >= 2 || (|p.commands| == 1 && p.negated)
    requires forall sc :: sc in p.commands ==> WfSimple(sc, nested)
    requires tl.Cons? && EndsPipeline(tl.k) && Stream(s, false, ToksStages(p.commands, tl))
    ensures ParsePipeline(At(s), p.negated) == Good(Pipe(p), At(s')) && Stream(s', false, tl)
  {
    hide Stream;
    hide ParseCommand;
    hide StageLoop;
    hide ToksSimple;
    hide ToksStages;
    hide WfSimple;
    var first, rest := p.commands[0], p.commands[1..];
    assert p.commands == [first] + rest;
    FirstStage(p.commands, tl);
    var ts := TailStages(rest, tl);
    var s1 := CommandParses(first, s, ts, nested);
    var _ := Head(s1, ts.k, ts.tl);
    s' := StageLoopParses(rest, s1, tl, nested);
    if rest == [] { StageLoopStays(s1, s'); }
    PipelineStep(p, s, s1, s');
  }

  lemma PipelineStep(p: Pipeline, s: string, s1: string, s': string)
    requires |p.commands| >= 2 || (|p.commands| == 1 && p.negated)
    requires ParseCommand(At(s)) == Good(Simple(p.commands[0]), At(s1))
    requires Peek(At(s1)).Good? && (Peek(At(s1)).value.TPipe? <==> |p.commands| >= 2)
    requires StageLoop(At(s1)) == Good(p.commands[1..], At(s')) && (|p.commands| == 1 ==> s' == s1)
    ensures ParsePipeline(At(s), p.negated) == Good(Pipe(p), At(s'))
  {
    hide ParsePipeline;
    hide Peek;
    hide ParseCommand;
    hide StageLoop;
    hide MovedOrStopped;
    hide HeadIs;
    var first, rest := p.commands[0], p.commands[1..];
    assert p.commands == [first] + rest;
    if rest == [] {
      assert p == Pipeline([first], true);
      OneStage(first, s, s1);
    } else {
      assert p == Pipeline([first] + rest, p.negated);
      MoreStages(first, rest, p.negated, s, s1, s');
    }
  }

  lemma OneStage(sc: SimpleCommand, s: string, s1: string)
    requires ParseCommand(At(s)) == Good(Simple(sc), At(s1))
    requires Peek(At(s1)).Good? && !Peek(At(s1)).value.TPipe?
    ensures ParsePipeline(At(s), true) == Good(Pipe(Pipeline([sc], true)), At(s1))
  {
    hide Peek;
    hide ParseCommand;
    hide StageLoop;
  }

  lemma MoreStages(sc: SimpleCommand, scs: seq<SimpleCommand>, negated: bool, s: string, s1: string, s': string)
    requires ParseCommand(At(s)) == Good(Simple(sc), At(s1))
    requires Peek(At(s1)).Good? && Peek(At(s1)).value.TPipe?
    requires StageLoop(At(s1)) == Good(scs, At(s'))
    ensures ParsePipeline(At(s), negated) == Good(Pipe(Pipeline([sc] + scs, negated)), At(s'))
  {
    hide Peek;
    hide ParseCommand;
    hide StageLoop;
  }

  lemma StageLoopStays(s: string, s': string)
    requires Peek(At(s)).Good? && !Peek(At(s)).value.TPipe? && StageLoop(At(s)) == Good([], At(s'))
    ensures s' == s
  {
    StageLoopEnds(s);
  }

  // ---------------------------------------------------------------- compound commands, chains, scripts

  lemma PipeStarts(c: Command, tl: Toks, nested: bool)
    requires WfPipe(c, nested)
    ensures var ts := ToksPipe(c, tl); ts.Cons? && StartsCommand(ts.k) && (ts.k.TBang? <==> c.Pipe? && c.pipeline.negated)
  {
    hide WfSimple;
    hide ToksSimple;
    hide ToksStages;
    match c
    case Simple(sc) => SimpleStarts(sc, tl, nested);
    case Pipe(p) => StagesStart(p.commands, tl, nested);
    case Subshell(_) =>
    case Group(_) =>
  }

  lemma {:induction false} ChainStarts(c: Command, tl: Toks, nested: bool)
    requires WfChain(c, nested)
    ensures var ts := ToksChain(c, tl); ts.Cons? && StartsCommand(ts.k)
    decreases c
  {
    if c.And? || c.Or? {
      ChainStarts(c.left, Cons(if c.And? then TAndAnd else TOrOr, ToksPipe(c.right, tl)), nested);
    } else {
      PipeStarts(c, tl, nested);
    }
  }

  lemma ScriptStarts(cmds: seq<Command>, tl: Toks, nested: bool)
    requires WfScript(cmds, nested)
    ensures var ts := ToksScript(cmds, tl); if cmds == [] then ts == tl else ts.Cons? && StartsCommand(ts.k)
  {
    if cmds != [] {
      var c := cmds[0];
      assert WfItem(c, nested);
      var rest := ToksScript(cmds[1..], tl);
      if c.Background? { ChainStarts(c.cmd, Cons(TAmp, rest), nested); } else { ChainStarts(c, Cons(TSemi, rest), nested); }
    }
  }

  /** A script in front of a token that ends scripts. */
  lemma ScriptParses(cmds: seq<Command>, s: string, tl: Toks, nested: bool) returns (s': string)
    requires WfScript(cmds, nested) && tl.Cons? && IsScriptEnd(tl.k)
    requires Stream(s, false, ToksScript(cmds, tl))
    ensures ParseScript(At(s)) == Good(cmds, At(s')) && Stream(s', false, tl)
    ensures SkipNewlines(At(s)) == Good((), At(s))
    decreases cmds, 3
  {
    hide Stream;
    hide ScriptLoop;
    hide SkipNewlines;
    hide ToksScript;
    ScriptStarts(cmds, tl, nested);
    NoNewlines(s, ToksScript(cmds, tl));
    s' := ScriptLoopParses(cmds, s, tl, nested);
  }

  lemma {:induction false} ScriptLoopParses(cmds: seq<Command>, s: string, tl: Toks, nested: bool) returns (s': string)
    requires WfScript(cmds, nested) && tl.Cons? && IsScriptEnd(tl.k)
    requires Stream(s, false, ToksScript(cmds, tl)) && !HeadIs(s, TNewline)
    ensures ScriptLoop(At(s)) == Good(cmds, At(s')) && Stream(s', false, tl)
    decreases cmds, 2
  {
    hide Stream;
    hide ScriptLoop;
    hide ToksItem;
    hide WfItem;
    hide WfScript;
    hide HeadIs;
    hide StartsCommand;
    hide IsScriptEnd;
    hide ParseListItem;
    hide SkipSeparator;
    hide SkipNewlines;
    hide Peek;
    hide Lex;
    if cmds == [] {
      var _ := Head(s, tl.k, tl.tl);
      s' := s;
      ScriptLoopEnds(s);
    } else {
      var rest := ToksScript(cmds[1..], tl);
      WfTail(cmds, nested);
      CommandHead(cmds, s, tl, nested);
      NextHead(cmds[1..], tl, nested);
      var s1, s2 := ItemParses(cmds[0], s, rest, nested);
      NoNewlines(s2, rest);
      NotANewline(s2, rest);
      s' := ScriptLoopParses(cmds[1..], s2, tl, nested);
      ScriptStep(cmds[0], cmds[1..], s, s1, s2, s');
      assert [cmds[0]] + cmds[1..] == cmds;
    }
  }

  lemma WfTail(cmds: seq<Command>, nested: bool)
    requires WfScript(cmds, nested) && cmds != []
    ensures WfItem(cmds[0], nested) && WfScript(cmds[1..], nested)
  {
  }

  lemma CommandHead(cmds: seq<Command>, s: string, tl: Toks, nested: bool)
    requires WfScript(cmds, nested) && cmds != [] && Stream(s, false, ToksScript(cmds, tl))
    ensures Peek(At(s)).Good? && StartsCommand(Peek(At(s)).value)
  {
    hide Stream;
    hide ToksItem;
    var ts := ToksScript(cmds, tl);
    ScriptStarts(cmds, tl, nested);
    var _ := Head(s, ts.k, ts.tl);
  }

  lemma NextHead(cmds: seq<Command>, tl: Toks, nested: bool)
    requires WfScript(cmds, nested) && tl.Cons? && IsScriptEnd(tl.k)
    ensures var ts := ToksScript(cmds, tl); ts.Cons? && (StartsCommand(ts.k) || IsScriptEnd(ts.k)) && !ts.k.TNewline?
  {
    ScriptStarts(cmds, tl, nested);
  }

  lemma NotANewline(s: string, ts: Toks)
    requires Stream(s, false, ts) && ts.Cons? && !ts.k.TNewline?
    ensures !HeadIs(s, TNewline)
  {
    var _ := Head(s, ts.k, ts.tl);
  }

  lemma ScriptLoopEnds(s: string)
    requires Peek(At(s)).Good? && IsScriptEnd(Peek(At(s)).value)
    ensures !HeadIs(s, TNewline) && ScriptLoop(At(s)) == Good([], At(s))
  {
    hide Lex;
  }

  lemma ScriptStep(c: Command, cs: seq<Command>, s: string, s1: string, s2: string, s': string)
    requires Peek(At(s)).Good? && StartsCommand(Peek(At(s)).value)
    requires ParseListItem(At(s)) == Good(c, At(s1))
    requires SkipSeparator(At(s1)).Good? && SkipSeparator(At(s1)).st == At(s2)
    requires SkipNewlines(At(s2)) == Good((), At(s2)) && !HeadIs(s2, TNewline)
    requires ScriptLoop(At(s2)) == Good(cs, At(s')) && !HeadIs(s, TNewline)
    ensures ScriptLoop(At(s)) == Good([c] + cs, At(s'))
  {
    hide Peek;
    hide HeadIs;
    hide ParseListItem;
    hide SkipSeparator;
    hide SkipNewlines;
  }

  /** One item with its separator. */
  lemma ItemParses(c: Command, s: string, tl: Toks, nested: bool) returns (s1: string, s2: string)
    requires WfItem(c, nested) && tl.Cons? && (StartsCommand(tl.k) || IsScriptEnd(tl.k))
    requires Stream(s, false, ToksItem(c, tl))
    ensures ParseListItem(At(s)) == Good(c, At(s1))
    ensures SkipSeparator(At(s1)).Good? && SkipSeparator(At(s1)).st == At(s2)
    ensures Stream(s2, false, tl)
    decreases c, 4
  {
    hide Stream;
    hide SkipSeparator;
    hide ToksChain;
    hide ParsePipelineCmd;
    hide ListLoop;
    hide Lex;
    hide WfChain;
    if c.Background? {
      var end := ChainParses(c.cmd, s, Cons(TAmp, tl), nested);
      s1 := Head(end, TAmp, tl);
      ListLoopEnds(c.cmd, end);
      s2 := s1;
      NoSeparator(s1, tl);
    } else {
      s1 := ChainParses(c, s, Cons(TSemi, tl), nested);
      s2 := Head(s1, TSemi, tl);
      ListLoopEnds(c, s1);
      SkipOne(s1, s2);
    }
  }

  lemma SkipOne(s: string, s': string)
    requires Peek(At(s)) == Good(TSemi, At(s)) && After(At(s)) == At(s')
    ensures SkipSeparator(At(s)) == Good(true, At(s'))
  {
    hide Lex;
  }

  lemma ListLoopEnds(c: Command, s: string)
    requires Peek(At(s)).Good? && !Peek(At(s)).value.TAndAnd? && !Peek(At(s)).value.TOrOr?
    ensures ListLoop(c, At(s)) == Good(c, At(s))
  {
    hide Peek;
  }

  /** Parsing a chain's text reaches the list loop with the whole chain as the left operand. */
  lemma {:induction false} ChainParses(c: Command, s: string, tl: Toks, nested: bool) returns (s': string)
    requires WfChain(c, nested) && tl.Cons? && EndsPipeline(tl.k)
    requires Stream(s, false, ToksChain(c, tl))
    ensures var first := ParsePipelineCmd(At(s));
            first.Good? && ListLoop(first.value, first.st) == ListLoop(c, At(s'))
    ensures Stream(s', false, tl)
    decreases c, 3
  {
    hide Stream;
    hide ListLoop;
    hide ParsePipelineCmd;
    hide ToksPipe;
    hide WfPipe;
    if c.And? || c.Or? {
      var k := if c.And? then TAndAnd else TOrOr;
      var right := ToksPipe(c.right, tl);
      var s1 := ChainParses(c.left, s, Cons(k, right), nested);
      var s2 := Head(s1, k, right);
      PipeStarts(c.right, tl, nested);
      NoNewlines(s2, right);
      s' := PipeParses(c.right, s2, tl, nested);
      ChainStep(c, k, s1, s2, s');
    } else {
      s' := PipeParses(c, s, tl, nested);
    }
  }

  lemma ChainStep(c: Command, k: TokenKind, s1: string, s2: string, s': string)
    requires (c.And? && k == TAndAnd) || (c.Or? && k == TOrOr)
    requires Peek(At(s1)) == Good(k, At(s1)) && After(At(s1)) == At(s2)
    requires SkipNewlines(At(s2)) == Good((), At(s2))
    requires ParsePipelineCmd(At(s2)) == Good(c.right, At(s'))
    ensures ListLoop(c.left, At(s1)) == ListLoop(c, At(s'))
  {
    hide Lex;
    hide SkipNewlines;
    hide ParsePipelineCmd;
  }

  lemma PipeParses(c: Command, s: string, tl: Toks, nested: bool) returns (s': string)
    requires WfPipe(c, nested) && tl.Cons? && EndsPipeline(tl.k)
    requires Stream(s, false, ToksPipe(c, tl))
    ensures ParsePipelineCmd(At(s)) == Good(c, At(s')) && Stream(s', false, tl)
    decreases c, 2
  {
    hide Stream;
    hide ParsePipeline;
    hide ParsePipelineCmd;
    hide ToksSimple;
    hide ToksStages;
    hide ToksScript;
    hide WfSimple;
    hide WfScript;
    PipeStarts(c, tl, nested);
    var ts := ToksPipe(c, tl);
    var s1 := Head(s, ts.k, ts.tl);
    if c.Pipe? {
      s' := PipelineParses(c.pipeline, if c.pipeline.negated then s1 else s, tl, nested);
      NegationStep(c, s, s1, s');
    } else {
      s' := PlainParses(c, s, tl, nested);
      var _ := Head(s', tl.k, tl.tl);
      PlainStep(c, s, s');
    }
  }

  lemma NegationStep(c: Command, s: string, s1: string, s': string)
    requires c.Pipe? && Peek(At(s)).Good? && (Peek(At(s)).value.TBang? <==> c.pipeline.negated)
    requires After(At(s)) == At(s1)
    requires ParsePipeline(At(if c.pipeline.negated then s1 else s), c.pipeline.negated) == Good(c, At(s'))
    ensures ParsePipelineCmd(At(s)) == Good(c, At(s'))
  {
    hide Lex;
    hide ParsePipeline;
  }

  lemma PlainStep(c: Command, s: string, s': string)
    requires Peek(At(s)).Good? && !Peek(At(s)).value.TBang? && ParseCommand(At(s)) == Good(c, At(s'))
    requires Peek(At(s')).Good? && !Peek(At(s')).value.TPipe?
    ensures ParsePipelineCmd(At(s)) == Good(c, At(s'))
  {
    hide Lex;
    hide ParseCommand;
  }

  /** A simple command, a subshell or a group. */
  lemma PlainParses(c: Command, s: string, tl: Toks, nested: bool) returns (s': string)
    requires WfPipe(c, nested) && !c.Pipe? && tl.Cons? && EndsPipeline(tl.k)
    requires Stream(s, false, ToksPipe(c, tl))
    ensures ParseCommand(At(s)) == Good(c, At(s')) && Stream(s', false, tl)
    decreases c, 1
  {
    hide Stream;
    hide ParseCommand;
    hide ToksSimple;
    hide WfSimple;
    hide WfScript;
    hide ToksScript;
    match c
    case Simple(sc) => s' := CommandParses(sc, s, tl, nested);
    case Subshell(body) => s' := SubshellParses(body, s, tl, nested);
    case Group(body) => s' := GroupParses(body, s, tl, nested);
  }

  lemma SubshellParses(body: seq<Command>, s: string, tl: Toks, nested: bool) returns (s': string)
    requires WfScript(body, nested) && Stream(s, false, Cons(TLParen, ToksScript(body, Cons(TRParen, tl))))
    ensures ParseCommand(At(s)) == Good(Subshell(body), At(s')) && Stream(s', false, tl)
    decreases body, 6
  {
    hide Stream;
    hide ParseScript;
    hide SkipNewlines;
    hide ToksScript;
    hide WfScript;
    hide Lex;
    var close := Cons(TRParen, tl);
    var s1 := Head(s, TLParen, ToksScript(body, close));
    var s2 := ScriptParses(body, s1, close, nested);
    s' := Head(s2, TRParen, tl);
    assert ParseSubshell(At(s)) == Good(Subshell(body), At(s'));
  }

  lemma GroupParses(body: seq<Command>, s: string, tl: Toks, nested: bool) returns (s': string)
    requires WfScript(body, nested) && Stream(s, false, Cons(TLBrace, ToksScript(body, Cons(TRBrace, tl))))
    ensures ParseCommand(At(s)) == Good(Group(body), At(s')) && Stream(s', false, tl)
    decreases body, 6
  {
    hide Stream;
    hide ParseScript;
    hide SkipNewlines;
    hide SkipSeparator;
    hide ToksScript;
    hide WfScript;
    hide Lex;
    var close := Cons(TRBrace, tl);
    var s1 := Head(s, TLBrace, ToksScript(body, close));
    var s2 := ScriptParses(body, s1, close, nested);
    s' := Head(s2, TRBrace, tl);
    NoSeparator(s2, close);
    NoNewlines(s2, close);
    assert ParseGroup(At(s)) == Good(Group(body), At(s'));
  }

  // ---------------------------------------------------------------- nothing to fill in

  lemma {:induction false} FillNothing(cmds: seq<Command>)
    ensures FillScript(cmds, []) == Good(cmds, [])
    decreases cmds
  {
    if cmds != [] {
      FillNothingIn(cmds[0]);
      FillNothing(cmds[1..]);
      assert [cmds[0]] + cmds[1..] == cmds;
    }
  }

  lemma {:induction false} FillNothingIn(c: Command)
    ensures FillCommand(c, []) == Good(c, [])
    decreases c
  {
    match c
    case Simple(sc) => FillNothingSimple(sc);
    case Pipe(p) => FillNothingStages(p.commands);
    case And(l, r) => FillNothingIn(l); FillNothingIn(r);
    case Or(l, r) => FillNothingIn(l); FillNothingIn(r);
    case Sequence(cs) => FillNothing(cs);
    case Background(b) => FillNothingIn(b);
    case Subshell(body) => FillNothing(body);
    case Group(body) => FillNothing(body);
  }

  lemma {:induction false} FillNothingStages(scs: seq<SimpleCommand>)
    ensures FillStages(scs, []) == Good(scs, [])
    decreases |scs|
  {
    if scs != [] {
      FillNothingSimple(scs[0]);
      FillNothingStages(scs[1..]);
      assert [scs[0]] + scs[1..] == scs;
    }
  }

  lemma FillNothingSimple(sc: SimpleCommand)
    ensures FillSimple(sc, []) == Good(sc, [])
  {
    FillNothingRedirects(sc.redirects);
  }

  lemma {:induction false} FillNothingRedirects(rs: seq<Redirect>)
    ensures FillRedirects(rs, []) == Good(rs, [])
    decreases |rs|
  {
    if rs != [] {
      FillNothingRedirects(rs[1..]);
      assert [rs[0]] + rs[1..] == rs;
    }
  }

  // ---------------------------------------------------------------- the round trip

  lemma StreamParses(script: seq<Command>, s: string, nested: bool)
    requires WfScript(script, nested) && Stream(s, false, ToksScript(script, AtEof))
    ensures Parse(s, Free([])) == Good(script, Free([]))
    decreases script, 4
  {
    hide Stream;
    hide ParseScript;
    hide FillScript;
    hide ToksScript;
    hide WfScript;
    var _ := ScriptParses(script, s, AtEof, nested);
    FillNothing(script);
  }

  lemma PrintedParses(script: seq<Command>, nested: bool)
    requires WfScript(script, nested)
    ensures Parse(Trim(PrintScript(script)), Free([])) == Good(script, Free([]))
    decreases script, 5
  {
    hide Parse;
    hide Trim;
    hide Stream;
    hide Renderable;
    hide EndsItems;
    hide ToksItem;
    hide WfScript;
    var ts := ToksScript(script, AtEof);
    var t := Render(ts, false);
    assert Renderable(AtEof, false) by { EofIsRenderable(); }
    KeepsScript(script, AtEof, nested);
    LexRender(ts, false);
    if script == [] {
      TrimEmpty();
    } else {
      TrimPrinted(ts);
      BehindBlank(Trim(t), ts);
    }
    StreamParses(script, Trim(t), nested);
  }

  lemma EofIsRenderable()
    ensures Renderable(AtEof, false)
  {
  }

  lemma TrimEmpty()
    ensures Trim("") == ""
  {
  }

  lemma BehindBlank(s: string, ts: Toks)
    requires Stream(" " + s, false, ts)
    ensures Stream(s, false, ts)
  {
    hide Lex;
    LexBehindBlank(s);
    if ts.Cons? {
      var l := Lex(s, false);
      assert (" " + s)[1 + l.end..] == s[l.end..];
    }
  }

  /** Parsing what was printed gives back exactly the tree, for every printable script. */
  lemma ParseInvertsPrint(script: seq<Command>)
    requires WfScript(script, false)
    ensures Parse(PrintScript(script), Free([])) == Good(script, Free([]))
  {
    hide Parse;
    KeepsScript(script, AtEof, false);
    LexRender(ToksScript(script, AtEof), false);
    StreamParses(script, PrintScript(script), false);
  }
}
