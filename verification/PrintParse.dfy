/** Parsing printed text gives back the tree. */
module PrintParse {
  import opened Ast
  import opened Decimal
  import opened LexSpec
  import opened ParseSpec
  import opened Print
  import opened PrintLex
  import opened PrintTokens

  // ---------------------------------------------------------------- printed token lists are readable

  /** The last token before the end of the text ends an item. */
  predicate EndsItems(ts: Toks) {
    ts.Cons? && !ts.k.TEof? && if ts.tl == AtEof then ts.k.TSemi? || ts.k.TAmp? else EndsItems(ts.tl)
  }

  predicate IsClose(k: TokenKind) {
    k.TRParen? || k.TRBrace?
  }

  /** A token list that breaks off behind a `)` or `}`. */
  predicate EndsInClose(ts: Toks) {
    ts.Cons? && if ts.tl.Nil? then IsClose(ts.k) else EndsInClose(ts.tl)
  }

  /** What a construct does to a token list it is printed in front of. */
  ghost predicate Keeps(ts: Toks, tl: Toks) {
    Renderable(ts, false) && (EndsItems(tl) ==> EndsItems(ts)) && (EndsInClose(tl) ==> EndsInClose(ts))
  }

  lemma KeepsToken(k: TokenKind, ts: Toks, tl: Toks)
    requires ReadsBack(k) && !k.TDoubleQuoteOpen? && !k.TEof? && Keeps(ts, tl)
    ensures Keeps(Cons(k, ts), tl)
  {
    hide ReadsBack;
  }

  lemma PunctuationReadsBack(k: TokenKind)
    requires IsPunctuation(k)
    ensures ReadsBack(k) && !k.TDoubleQuoteOpen? && !k.TEof?
  {
  }

  lemma {:induction false} KeepsDq(ps: seq<DQPart>, tl: Toks, nested: bool)
    requires WfDq(ps, nested)
    requires tl.Cons? && tl.k.TDoubleQuoteClose? && Renderable(tl, true)
    ensures Renderable(ToksDq(ps, tl), true) && (EndsItems(tl) ==> EndsItems(ToksDq(ps, tl)))
    ensures EndsInClose(tl) ==> EndsInClose(ToksDq(ps, tl))
    ensures ToksDq(ps, tl).Cons?
    decreases |ps|
  {
    hide WfDqExpansion;
    hide FitsPlace;
    hide Solid;
    hide DqReadsBack;
    hide DqRunText;
    if ps != [] {
      DqHead(ps, tl, nested);
      if ps[0].DQLiteral? {
        KeepsDq(ps[1..], tl, nested);
      } else {
        KeepsDq(ps[TokenRun(ps, false)..], tl, nested);
      }
    }
  }

  /** The first token of the inside of double quotes is read back in front of the next. */
  lemma {:induction false} DqHead(ps: seq<DQPart>, tl: Toks, nested: bool)
    requires WfDq(ps, nested) && ps != [] && tl.Cons? && tl.k.TDoubleQuoteClose?
    ensures var ts := ToksDq(ps, tl);
            && ts.Cons? && (ts.k.TWord? || ts.k.TDQText?) && DqReadsBack(ts.k, ts.tl)
            && ts.tl == ToksDq(ps[if ps[0].DQLiteral? then 1 else TokenRun(ps, false)..], tl)
  {
    hide WfDqExpansion;
    hide FitsPlace;
    hide Solid;
    hide DqRunText;
    if ps[0].DQLiteral? {
      if |ps| > 1 { DqRunHead(ps[1..], nested); }
    } else {
      DqRunHead(ps, nested);
      DqRunIsSolid(ps[..TokenRun(ps, false)], nested);
    }
  }

  lemma DqRunHead(ps: seq<DQPart>, nested: bool)
    requires WfDq(ps, nested) && ps != [] && !ps[0].DQLiteral?
    ensures var t := DqRunText(ps[..TokenRun(ps, false)]); t != "" && t[0] == '$'
  {
    hide Solid;
    DqRunIsSolid(ps[..TokenRun(ps, false)], nested);
  }

  lemma KeepsQuotes(ps: seq<DQPart>, tl: Toks, nested: bool)
    requires WfDq(ps, nested) && Renderable(tl, false)
    ensures Keeps(Cons(TDoubleQuoteOpen, ToksDq(ps, Cons(TDoubleQuoteClose, tl))), tl)
  {
    hide WfDq;
    hide ToksDq;
    hide Solid;
    KeepsDq(ps, Cons(TDoubleQuoteClose, tl), nested);
  }

  lemma KeepsWord(w: Word, tl: Toks, nested: bool)
    requires WfWord(w, nested) && Renderable(tl, false)
    ensures Keeps(ToksWord(w, tl), tl)
  {
    hide Solid;
    hide WfDq;
    hide WfParts;
    hide WfScript;
    hide FitsPlace;
    hide ToksDq;
    match w
    case SingleQuoted(s) => KeepsToken(TSingleQuote(s), tl, tl);
    case DoubleQuoted(ps) => KeepsQuotes(ps, tl, nested);
    case Literal(_) => WordIsTok(w, nested);
    case Concat(_) => WordIsTok(w, nested);
    case Variable(_) => WordIsTok(w, nested);
    case CommandSubst(_) => WordIsTok(w, nested);
    case ArithSubst(_) => WordIsTok(w, nested);
  }

  lemma {:induction false} KeepsAssigns(as_: seq<Assignment>, tl: Toks, nested: bool)
    requires forall a :: a in as_ ==> IsValidName(a.name) && WfValue(a.value, nested)
    requires Renderable(tl, false)
    ensures Keeps(ToksAssigns(as_, tl), tl)
  {
    hide WordTok;
    hide Renderable;
    if as_ != [] {
      KeepsAssigns(as_[1..], tl, nested);
      AssignIsTok(as_[0], nested);
      KeepsToken(TWord(as_[0].name + "=" + ValueText(as_[0].value)), ToksAssigns(as_[1..], tl), tl);
    }
  }

  lemma {:induction false} KeepsWords(ws: seq<Word>, tl: Toks, nested: bool)
    requires forall w :: w in ws ==> WfWord(w, nested)
    requires Renderable(tl, false)
    ensures Keeps(ToksWords(ws, tl), tl)
  {
    hide Renderable;
    if ws != [] {
      KeepsWords(ws[1..], tl, nested);
      KeepsWord(ws[0], ToksWords(ws[1..], tl), nested);
    }
  }

  lemma KeepsRedirect(r: Redirect, tl: Toks, nested: bool)
    requires WfRedirect(r, nested) && Renderable(tl, false)
    ensures Keeps(ToksRedirect(r, tl), tl)
  {
    hide WordTok;
    hide Renderable;
    var dup := if r.kind.Read? then LessAmp else GreaterAmp;
    match r.target
    case ToWord(w) =>
      KeepsWord(w, tl, nested);
      KeepsToken(TRedirect(ShownFd(r.fd, OpOf(r.kind)), OpOf(r.kind)), ToksWord(w, tl), tl);
    case ToFd(n) =>
      NumberIsTok(n);
      KeepsToken(TWord(Show(n)), tl, tl);
      KeepsToken(TRedirect(ShownFd(r.fd, dup), dup), Cons(TWord(Show(n)), tl), tl);
    case CloseFd =>
      NumberIsTok(0);
      KeepsToken(TWord("-"), tl, tl);
      KeepsToken(TRedirect(ShownFd(r.fd, dup), dup), Cons(TWord("-"), tl), tl);
  }

  lemma {:induction false} KeepsRedirects(rs: seq<Redirect>, tl: Toks, nested: bool)
    requires forall r :: r in rs ==> WfRedirect(r, nested)
    requires Renderable(tl, false)
    ensures Keeps(ToksRedirects(rs, tl), tl)
  {
    hide Renderable;
    if rs != [] {
      KeepsRedirects(rs[1..], tl, nested);
      KeepsRedirect(rs[0], ToksRedirects(rs[1..], tl), nested);
    }
  }

  lemma KeepsSimple(sc: SimpleCommand, tl: Toks, nested: bool)
    requires WfSimple(sc, nested) && Renderable(tl, false)
    ensures Keeps(ToksSimple(sc, tl), tl)
  {
    hide Renderable;
    var t4 := ToksRedirects(sc.redirects, tl);
    var t3 := ToksWords(sc.args, t4);
    KeepsRedirects(sc.redirects, tl, nested);
    KeepsWords(sc.args, t4, nested);
    if sc.name.Some? { KeepsWord(sc.name.value, t3, nested); }
    KeepsAssigns(sc.assignments, ToksName(sc.name, t3), nested);
  }

  lemma {:induction false} KeepsStages(scs: seq<SimpleCommand>, tl: Toks, nested: bool)
    requires forall sc :: sc in scs ==> WfSimple(sc, nested)
    requires Renderable(tl, false)
    ensures Keeps(ToksStages(scs, tl), tl)
  {
    hide Renderable;
    if |scs| == 1 {
      KeepsSimple(scs[0], tl, nested);
    } else if scs != [] {
      var rest := ToksStages(scs[1..], tl);
      KeepsStages(scs[1..], tl, nested);
      PunctuationReadsBack(TPipe);
      KeepsToken(TPipe, rest, tl);
      KeepsSimple(scs[0], Cons(TPipe, rest), nested);
    }
  }

  lemma KeepsBody(body: seq<Command>, open: TokenKind, close: TokenKind, tl: Toks, nested: bool)
    requires WfScript(body, nested) && Renderable(tl, false) && IsPunctuation(open) && IsPunctuation(close)
    ensures Keeps(Cons(open, ToksScript(body, Cons(close, tl))), tl)
    decreases body, 1
  {
    hide Renderable;
    hide IsPunctuation;
    PunctuationReadsBack(open);
    PunctuationReadsBack(close);
    KeepsToken(close, tl, tl);
    KeepsScript(body, Cons(close, tl), nested);
    KeepsToken(open, ToksScript(body, Cons(close, tl)), tl);
  }

  lemma KeepsPipe(c: Command, tl: Toks, nested: bool)
    requires WfPipe(c, nested) && Renderable(tl, false)
    ensures Keeps(ToksPipe(c, tl), tl)
    decreases c, 0
  {
    hide Renderable;
    match c
    case Simple(sc) => KeepsSimple(sc, tl, nested);
    case Pipe(p) =>
      KeepsStages(p.commands, tl, nested);
      if p.negated {
        PunctuationReadsBack(TBang);
        KeepsToken(TBang, ToksStages(p.commands, tl), tl);
      }
    case Subshell(body) => KeepsBody(body, TLParen, TRParen, tl, nested);
    case Group(body) => KeepsBody(body, TLBrace, TRBrace, tl, nested);
  }

  lemma {:induction false} KeepsChain(c: Command, tl: Toks, nested: bool)
    requires WfChain(c, nested) && Renderable(tl, false)
    ensures Keeps(ToksChain(c, tl), tl)
    decreases c, 1
  {
    hide Renderable;
    if c.And? || c.Or? {
      var k := if c.And? then TAndAnd else TOrOr;
      var right := ToksPipe(c.right, tl);
      KeepsPipe(c.right, tl, nested);
      PunctuationReadsBack(k);
      KeepsToken(k, right, tl);
      KeepsChain(c.left, Cons(k, right), nested);
    } else {
      KeepsPipe(c, tl, nested);
    }
  }

  lemma KeepsItem(c: Command, tl: Toks, nested: bool)
    requires WfItem(c, nested) && Renderable(tl, false)
    ensures Renderable(ToksItem(c, tl), false)
    ensures EndsItems(tl) || tl == AtEof ==> EndsItems(ToksItem(c, tl))
    ensures EndsInClose(tl) ==> EndsInClose(ToksItem(c, tl))
    decreases c, 2
  {
    hide Renderable;
    var k := if c.Background? then TAmp else TSemi;
    PunctuationReadsBack(k);
    KeepsToken(k, tl, tl);
    if c.Background? {
      KeepsChain(c.cmd, Cons(k, tl), nested);
    } else {
      KeepsChain(c, Cons(k, tl), nested);
    }
  }

  lemma {:induction false} KeepsScript(cmds: seq<Command>, tl: Toks, nested: bool)
    requires WfScript(cmds, nested) && Renderable(tl, false)
    ensures Keeps(ToksScript(cmds, tl), tl)
    ensures cmds != [] && tl == AtEof ==> EndsItems(ToksScript(cmds, tl))
    decreases cmds, 0
  {
    hide Renderable;
    if cmds != [] {
      KeepsScript(cmds[1..], tl, nested);
      KeepsItem(cmds[0], ToksScript(cmds[1..], tl), nested);
    }
  }
}
