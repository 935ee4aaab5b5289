/** From text to effect: what quoting, arithmetic and unmatched delimiters in a script come to. */
module EndToEnd {
  import opened Ast
  import opened Decimal
  import opened LexSpec
  import opened ParseSpec
  import opened Print
  import PrintLex
  import opened PrintTokens
  import opened PrintParse
  import opened RoundTrip
  import Sem
  import A = Arith
  import AV = ArithVars

  // ---------------------------------------------------------------- quoting

  function Quote(s: string): Word {
    DoubleQuoted(if s == "" then [] else [DQLiteral(s)])
  }

  function QuoteAll(ss: seq<string>): seq<Word> {
    if ss == [] then [] else [Quote(ss[0])] + QuoteAll(ss[1..])
  }

  function Call(name: string, args: seq<Word>): seq<Command> {
    [Simple(SimpleCommand([], Some(Literal(name)), args, []))]
  }

  /** Every argument escaped, between double quotes. */
  function QuotedText(ss: seq<string>): string {
    if ss == [] then "" else " \"" + EscapeDq(ss[0]) + "\"" + QuotedText(ss[1..])
  }

  lemma {:induction false} QuotedToks(ss: seq<string>, tl: Toks)
    ensures Render(ToksWords(QuoteAll(ss), tl), false) == QuotedText(ss) + Render(tl, false)
  {
    hide EscapeDq;
    if ss == [] {
      assert "" + Render(tl, false) == Render(tl, false);
    } else {
      QuotedToks(ss[1..], tl);
      assert QuoteAll(ss)[1..] == QuoteAll(ss[1..]);
      var more := ToksWords(QuoteAll(ss[1..]), tl);
      QuoteToks(ss[0], more);
      PrintLex.Assoc(" \"" + EscapeDq(ss[0]) + "\"", QuotedText(ss[1..]), Render(tl, false));
    }
  }

  lemma QuoteToks(s: string, tl: Toks)
    ensures Render(ToksWord(Quote(s), tl), false) == " \"" + EscapeDq(s) + "\"" + Render(tl, false)
  {
    hide Render;
    hide EscapeDq;
    var close := Cons(TDoubleQuoteClose, tl);
    var inner := if s == "" then close else Cons(TDQText(s), close);
    QuoteInside(s, close);
    assert ToksWord(Quote(s), tl) == Cons(TDoubleQuoteOpen, inner);
    RenderCons(TDoubleQuoteOpen, inner, false);
    RenderCons(TDoubleQuoteClose, tl, true);
    if s == "" {
      assert EscapeDq(s) == "" by { NothingEscaped(); }
    } else {
      RenderCons(TDQText(s), close, true);
    }
    var e, r := EscapeDq(s), Render(tl, false);
    assert Render(inner, true) == e + ("\"" + r) by { if s == "" { assert e + ("\"" + r) == "\"" + r; } }
    QuoteText(e, r);
  }

  lemma QuoteText(e: string, r: string)
    ensures " " + ("\"" + (e + ("\"" + r))) == " \"" + e + "\"" + r
  {
  }

  lemma NothingEscaped()
    ensures EscapeDq("") == ""
  {
  }

  lemma QuoteInside(s: string, close: Toks)
    ensures ToksDq(if s == "" then [] else [DQLiteral(s)], close) == if s == "" then close else Cons(TDQText(s), close)
    ensures WfWord(Quote(s), false)
  {
    assert ToksDq([], close) == close && WfDq([], false);
    assert [DQLiteral(s)][1..] == [];
    if s != "" { assert WfDq([DQLiteral(s)], false); }
  }

  lemma {:induction false} QuotedWords(ss: seq<string>)
    ensures forall w :: w in QuoteAll(ss) ==> WfWord(w, false)
  {
    hide WfWord;
    if ss != [] {
      QuotedWords(ss[1..]);
      QuoteInside(ss[0], Nil);
    }
  }

  lemma {:induction false} QuotedExpands(w: Sem.World, ss: seq<string>, st: Sem.St)
    ensures Sem.ExpandWords(w, QuoteAll(ss), st) == Sem.Val(ss, st)
  {
    if ss != [] {
      var q := Quote(ss[0]);
      QuotedExpands(w, ss[1..], st);
      assert QuoteAll(ss)[1..] == QuoteAll(ss[1..]);
      QuoteExpands(w, ss[0], st);
      assert [ss[0]] + ss[1..] == ss;
    }
  }

  lemma QuoteExpands(w: Sem.World, s: string, st: Sem.St)
    ensures Sem.ExpandWord(w, Quote(s), st) == Sem.Val(s, st)
  {
    if s != "" {
      var ps := [DQLiteral(s)];
      assert ps[1..] == [] && s + "" == s;
      assert Sem.ExpandParts(w, [], st) == Sem.Val("", st);
      assert Sem.ExpandParts(w, ps, st) == Sem.Val(s, st);
    }
  }

  /** Double quoting is faithful: whatever the arguments are, escaping and quoting them in a command's
      text makes the command receive exactly them. */
  lemma DoubleQuotingIsFaithful(w: Sem.World, name: string, ss: seq<string>, st: Sem.St)
    requires WfWord(Literal(name), false)
    ensures Parse(" " + LiteralText(name) + (QuotedText(ss) + " ;"), Free([])) == Good(Call(name, QuoteAll(ss)), Free([]))
    ensures Sem.ExpandWords(w, QuoteAll(ss), st) == Sem.Val(ss, st)
  {
    hide Parse;
    hide LiteralText;
    var end := Cons(TSemi, AtEof);
    var args := ToksWords(QuoteAll(ss), end);
    QuotedToks(ss, end);
    QuotedWords(ss);
    QuotedExpands(w, ss, st);
    CallIsPrinted(name, QuoteAll(ss));
    assert Render(end, false) == " ;";
  }

  lemma CallTokens(name: string, args: seq<Word>)
    requires WfWord(Literal(name), false) && forall x :: x in args ==> WfWord(x, false)
    ensures WfScript(Call(name, args), false)
    ensures ToksScript(Call(name, args), AtEof) ==
            Cons(TWord(LiteralText(name)), ToksWords(args, Cons(TSemi, AtEof)))
  {
    hide LiteralText;
    hide ToksWords;
    hide WfWord;
    hide ToksWord;
    var script := Call(name, args);
    var c, sc, end := script[0], script[0].sc, Cons(TSemi, AtEof);
    assert WfSimple(sc, false);
    assert WfPipe(c, false);
    assert WfItem(c, false);
    assert ToksScript(script, AtEof) == ToksItem(c, AtEof) by { assert script[1..] == []; }
    assert ToksSimple(sc, end) == ToksWord(Literal(name), ToksWords(args, end)) by {
      assert ToksRedirects([], end) == end;
      assert ToksAssigns([], ToksName(sc.name, ToksWords(args, end))) == ToksName(sc.name, ToksWords(args, end));
    }
    assert ToksPipe(c, end) == ToksSimple(sc, end);
    assert ToksItem(c, AtEof) == ToksPipe(c, end) by { ItemOfPipe(c); }
    NameToken(name, ToksWords(args, end));
  }

  /** The tokens of a script that is one simple command. */
  lemma LoneTokens(sc: SimpleCommand)
    ensures ToksScript([Simple(sc)], AtEof) == ToksSimple(sc, Cons(TSemi, AtEof))
  {
    hide ToksSimple;
    var c := Simple(sc);
    assert ToksScript([c], AtEof) == ToksItem(c, AtEof) by { assert [c][1..] == []; }
    assert ToksPipe(c, Cons(TSemi, AtEof)) == ToksSimple(sc, Cons(TSemi, AtEof));
    ItemOfPipe(c);
  }

  lemma CallIsPrinted(name: string, args: seq<Word>)
    requires WfWord(Literal(name), false) && forall x :: x in args ==> WfWord(x, false)
    ensures var text := " " + LiteralText(name) + Render(ToksWords(args, Cons(TSemi, AtEof)), false);
            Parse(text, Free([])) == Good(Call(name, args), Free([]))
  {
    hide Parse;
    hide LiteralText;
    hide ToksWords;
    hide WfWord;
    hide ToksScript;
    hide Render;
    var end := Cons(TSemi, AtEof);
    CallTokens(name, args);
    RenderCons(TWord(LiteralText(name)), ToksWords(args, end), false);
    PrintLex.Assoc(" ", LiteralText(name), Render(ToksWords(args, end), false));
    ParseInvertsPrint(Call(name, args));
  }

  lemma ItemOfPipe(c: Command)
    requires !c.And? && !c.Or? && !c.Background?
    ensures ToksItem(c, AtEof) == ToksPipe(c, Cons(TSemi, AtEof))
  {
    hide ToksPipe;
  }

  lemma NameToken(name: string, tl: Toks)
    ensures ToksWord(Literal(name), tl) == Cons(TWord(LiteralText(name)), tl)
  {
  }

  // ---------------------------------------------------------------- arithmetic

  /** A text of arithmetic tokens has no blank, quote or dollar, and closes what it opens. */
  predicate Clean(s: string) {
    forall i :: 0 <= i < |s| ==> s[i] != '\'' && s[i] != '$' && !IsSpace(s[i])
  }

  lemma {:induction false} CleanText(ts: seq<A.Tok>)
    requires A.Printable(ts)
    ensures Clean(A.Text(ts))
  {
    if ts != [] {
      CleanText(ts[1..]);
      assert Clean(A.TokText(ts[0])) by {
        if ts[0].Num? { assert forall i :: 0 <= i < |A.TokText(ts[0])| ==> IsDigit(A.TokText(ts[0])[i]); }
      }
    }
  }

  lemma {:induction false} TameDepth(s: string, r: string, k: nat)
    requires '(' !in s && ')' !in s
    ensures Depth(s + r, k) == Depth(r, k)
  {
    if s == "" {
      assert s + r == r;
    } else {
      assert (s + r)[1..] == s[1..] + r;
      TameDepth(s[1..], r, k);
    }
  }

  lemma TokDepth(t: A.Tok, more: seq<A.Tok>, k: nat)
    requires A.Printable([t] + more)
    ensures A.Printable(more)
    ensures Depth(A.Text([t] + more), k) ==
            if t.LParen? then Depth(A.Text(more), k + 1)
            else if t.RParen? then if k == 0 then None else Depth(A.Text(more), k - 1)
            else Depth(A.Text(more), k)
  {
    var ts := [t] + more;
    assert ts[1..] == more;
    assert A.Printable(more) by {
      forall i | 0 <= i < |more| && more[i].Num? ensures more[i].n >= 0 { assert ts[i + 1] == more[i]; }
    }
    if t.LParen? || t.RParen? {
      assert A.Text(ts)[1..] == A.Text(more);
    } else {
      if t.Num? { assert forall c :: c in A.TokText(t) ==> IsDigit(c); }
      TameDepth(A.TokText(t), A.Text(more), k);
    }
  }

  lemma {:induction false} YieldDepth(e: A.Expr, more: seq<A.Tok>, k: nat)
    requires A.Printable(A.Yield(e) + more)
    ensures A.Printable(more)
    ensures Depth(A.Text(A.Yield(e) + more), k) == Depth(A.Text(more), k)
    decreases e
  {
    hide Depth;
    hide A.Text;
    match e
    case Lit(n) => TokDepth(A.Num(n), more, k);
    case Neg(x) => UnaryDepth(A.Minus, x, more, k); YieldDepth(x, more, k);
    case Pos(x) => UnaryDepth(A.Plus, x, more, k); YieldDepth(x, more, k);
    case Group(x) =>
      var close := [A.RParen] + more;
      assert A.Yield(e) + more == [A.LParen] + (A.Yield(x) + close);
      TokDepth(A.LParen, A.Yield(x) + close, k);
      YieldDepth(x, close, k + 1);
      TokDepth(A.RParen, more, k + 1);
    case Bin(op, l, r) =>
      var right := [A.OpTok(op)] + (A.Yield(r) + more);
      assert A.Yield(e) + more == A.Yield(l) + right;
      YieldDepth(l, right, k);
      TokDepth(A.OpTok(op), A.Yield(r) + more, k);
      YieldDepth(r, more, k);
  }

  lemma UnaryDepth(t: A.Tok, x: A.Expr, more: seq<A.Tok>, k: nat)
    requires (t.Minus? || t.Plus?) && A.Printable([t] + A.Yield(x) + more)
    ensures A.Printable(A.Yield(x) + more)
    ensures Depth(A.Text([t] + A.Yield(x) + more), k) == Depth(A.Text(A.Yield(x) + more), k)
  {
    assert [t] + A.Yield(x) + more == [t] + (A.Yield(x) + more);
    TokDepth(t, A.Yield(x) + more, k);
  }

  lemma PrintedIsBalanced(e: A.Expr)
    requires A.Abstract(e)
    ensures IsBalanced(A.Print(e)) && Clean(A.Print(e))
  {
    hide Depth;
    A.ParenthesizeFits(A.Debug, e, A.LE);
    var t := A.Parenthesize(e, A.LE);
    A.YieldIsOperand(t);
    assert A.Yield(t) + [] == A.Yield(t);
    YieldDepth(t, [], 0);
    CleanText(A.Yield(t));
    assert Depth(A.Text([]), 0) == Some(0) by { NoDepth(); }
  }

  lemma NoDepth()
    ensures Depth("", 0) == Some(0)
  {
  }

  lemma CleanTrims(s: string)
    requires Clean(s)
    ensures Trim(s) == s
  {
  }

  /** From the text of a command to the argument it receives: an expression printed with minimal
      parentheses between `$((` and `))` becomes the decimal text of its value. */
  lemma ArithmeticFromText(w: Sem.World, name: string, e: A.Expr, st: Sem.St)
    requires WfWord(Literal(name), false) && A.Abstract(e)
    ensures Parse(" " + LiteralText(name) + (" $((" + A.Print(e) + ")) ;"), Free([])) ==
            Good(Call(name, [ArithSubst(A.Print(e))]), Free([]))
    ensures Sem.ExpandWord(w, ArithSubst(A.Print(e)), st) == Sem.OfArith(A.Eval(w.profile, e), st)
    ensures A.Fits(e) && A.Exact(e).Some? ==>
              Sem.ExpandWord(w, ArithSubst(A.Print(e)), st) == Sem.Val(Sem.IntText(A.Exact(e).value), st)
  {
    hide Parse;
    hide LiteralText;
    hide AV.ExpandVars;
    hide A.EvalText;
    hide A.Eval;
    hide A.Print;
    hide Depth;
    var t := A.Print(e);
    PrintedIsBalanced(e);
    A.ArithmeticRoundTrip(w.profile, e);
    AV.NothingToExpand(t, st.env);
    CleanTrims(t);
    if A.Fits(e) { A.MachineIsExact(w.profile, e); }
    var args := [ArithSubst(t)];
    CallIsPrinted(name, args);
    assert Render(ToksWords(args, Cons(TSemi, AtEof)), false) == " $((" + t + ")) ;" by { ArithToks(t); }
  }

  /** The text of spaced tokens closes the parentheses its tokens close, and has no quote or dollar. */
  lemma {:induction false} GapsKeepDepth(ts: seq<A.Tok>, gaps: seq<string>, k: nat)
    requires A.Printable(ts) && A.WfGaps(ts, gaps)
    ensures Depth(A.Spaced(ts, gaps), k) == Depth(A.Text(ts), k)
    decreases |ts|
  {
    hide Depth;
    hide A.TokText;
    BlankIsTame(gaps[0]);
    if ts == [] {
      TameDepth(gaps[0], "", k);
      assert gaps[0] + "" == gaps[0];
    } else {
      A.LaterGaps(ts, gaps);
      var rest := A.Spaced(ts[1..], gaps[1..]);
      TameDepth(gaps[0], A.TokText(ts[0]) + rest, k);
      TokInFront(ts[0], rest, k);
      TokInFront(ts[0], A.Text(ts[1..]), k);
      if !(ts[0].RParen? && k == 0) {
        GapsKeepDepth(ts[1..], gaps[1..], if ts[0].LParen? then k + 1 else if ts[0].RParen? then k - 1 else k);
      }
    }
  }

  lemma BlankIsTame(gap: string)
    requires A.AllBlank(gap)
    ensures '(' !in gap && ')' !in gap && '\'' !in gap && '$' !in gap
  {
  }

  lemma TokInFront(t: A.Tok, rest: string, k: nat)
    requires t.Num? ==> t.n >= 0
    ensures Depth(A.TokText(t) + rest, k) ==
            if t.LParen? then Depth(rest, k + 1)
            else if t.RParen? then if k == 0 then None else Depth(rest, k - 1)
            else Depth(rest, k)
  {
    if t.LParen? || t.RParen? {
      assert (A.TokText(t) + rest)[1..] == rest;
    } else {
      if t.Num? { assert forall c :: c in A.TokText(t) ==> IsDigit(c); }
      TameDepth(A.TokText(t), rest, k);
    }
  }

  lemma {:induction false} GapsAreHarmless(ts: seq<A.Tok>, gaps: seq<string>)
    requires A.Printable(ts) && A.WfGaps(ts, gaps)
    ensures '\'' !in A.Spaced(ts, gaps) && '$' !in A.Spaced(ts, gaps)
    decreases |ts|
  {
    BlankIsTame(gaps[0]);
    if ts != [] {
      A.LaterGaps(ts, gaps);
      GapsAreHarmless(ts[1..], gaps[1..]);
      assert '\'' !in A.TokText(ts[0]) && '$' !in A.TokText(ts[0]) by {
        if ts[0].Num? { assert forall c :: c in A.TokText(ts[0]) ==> IsDigit(c); }
      }
    }
  }

  /** The blanks around the whole expression are trimmed. */
  function Tight(gaps: seq<string>): seq<string>
    requires |gaps| >= 2
  {
    [""] + gaps[1..|gaps| - 1] + [""]
  }

  lemma {:induction false} TrimStartSkips(gap: string, s: string)
    requires A.AllBlank(gap) && (s == "" || !IsSpace(s[0]))
    ensures TrimStart(gap + s) == s
  {
    if gap == "" {
      assert gap + s == s;
    } else {
      assert gap[0] in gap && (gap + s)[1..] == gap[1..] + s;
      TrimStartSkips(gap[1..], s);
    }
  }

  lemma {:induction false} TrimEndSkips(s: string, gap: string)
    requires A.AllBlank(gap) && (s == "" || !IsSpace(s[|s| - 1]))
    ensures TrimEnd(s + gap) == s
    decreases |gap|
  {
    if gap == "" {
      assert s + gap == s;
    } else {
      var n := |gap| - 1;
      assert gap[n] in gap && (s + gap)[|s + gap| - 1] == gap[n] && (s + gap)[..|s + gap| - 1] == s + gap[..n];
      TrimEndSkips(s, gap[..n]);
    }
  }

  lemma SpacedStep(ts: seq<A.Tok>, gaps: seq<string>)
    requires ts != [] && A.Printable(ts) && |gaps| == |ts| + 1
    ensures A.Spaced(ts, gaps) == gaps[0] + (A.TokText(ts[0]) + A.Spaced(ts[1..], gaps[1..]))
  {
    hide A.TokText;
  }

  lemma SpacedEnd(gaps: seq<string>)
    requires |gaps| == 1
    ensures A.Spaced([], gaps) == gaps[0]
  {
  }

  /** A text that does not end with a space. */
  predicate EndsTight(s: string) {
    s != "" && !IsSpace(s[|s| - 1])
  }

  lemma TokenIsTight(t: A.Tok)
    requires t.Num? ==> t.n >= 0
    ensures EndsTight(A.TokText(t)) && !IsSpace(A.TokText(t)[0])
  {
    var tok := A.TokText(t);
    if t.Num? { assert IsDigit(tok[0]) && IsDigit(tok[|tok| - 1]); }
  }

  lemma TightBehind(a: string, b: string)
    requires EndsTight(b)
    ensures EndsTight(a + b)
  {
    assert (a + b)[|a + b| - 1] == b[|b| - 1];
  }

  /** The gap behind the last token is the end of the text. */
  lemma {:induction false} SplitLastGap(ts: seq<A.Tok>, gaps: seq<string>)
    requires ts != [] && A.Printable(ts) && |gaps| == |ts| + 1
    ensures var s := A.Spaced(ts, gaps[..|ts|] + [""]);
            A.Spaced(ts, gaps) == s + gaps[|ts|] && EndsTight(s)
    decreases |ts|
  {
    hide A.Spaced;
    hide A.TokText;
    hide EndsTight;
    var front, tok := gaps[..|ts|] + [""], A.TokText(ts[0]);
    SpacedStep(ts, front);
    SpacedStep(ts, gaps);
    TokenIsTight(ts[0]);
    if |ts| == 1 {
      assert ts[1..] == [] && front[1..] == [""] && gaps[1..] == [gaps[1]];
      SpacedEnd([""]);
      SpacedEnd([gaps[1]]);
      assert tok + "" == tok;
      TightBehind(gaps[0], tok);
      PrintLex.Assoc(gaps[0], tok, gaps[1]);
    } else {
      assert front[1..] == gaps[1..][..|ts[1..]|] + [""];
      SplitLastGap(ts[1..], gaps[1..]);
      var inner := A.Spaced(ts[1..], front[1..]);
      TightBehind(tok, inner);
      TightBehind(gaps[0], tok + inner);
      PrintLex.Assoc(tok, inner, gaps[|ts|]);
      PrintLex.Assoc(gaps[0], tok + inner, gaps[|ts|]);
    }
  }

  lemma TightGaps(ts: seq<A.Tok>, gaps: seq<string>)
    requires ts != [] && A.WfGaps(ts, gaps)
    ensures A.WfGaps(ts, Tight(gaps))
    ensures Tight(gaps)[..|ts|] + [""] == Tight(gaps) && Tight(gaps)[1..] == (gaps[..|ts|] + [""])[1..]
    ensures A.AllBlank(gaps[0]) && A.AllBlank(gaps[|ts|])
  {
    var n, tight := |ts|, Tight(gaps);
    assert forall i :: 0 < i < n ==> tight[i] == gaps[i];
    assert tight[0] == "" && tight[n] == "";
  }

  lemma SpacedTrims(ts: seq<A.Tok>, gaps: seq<string>)
    requires ts != [] && A.Printable(ts) && A.WfGaps(ts, gaps)
    ensures A.WfGaps(ts, Tight(gaps)) && Trim(A.Spaced(ts, gaps)) == A.Spaced(ts, Tight(gaps))
  {
    assert |gaps| == |ts| + 1 >= 2;
    hide A.Spaced;
    hide A.TokText;
    hide A.WfGaps;
    hide TrimStart;
    hide TrimEnd;
    var n := |ts|;
    var front, tight, tok := gaps[..n] + [""], Tight(gaps), A.TokText(ts[0]);
    TightGaps(ts, gaps);
    SplitLastGap(ts, gaps);
    SplitLastGap(ts, tight);
    SpacedStep(ts, tight);
    SpacedStep(ts, front);
    TokenIsTight(ts[0]);
    var body := tok + A.Spaced(ts[1..], front[1..]);
    assert "" + body == body;
    assert A.Spaced(ts, tight) + "" == A.Spaced(ts, tight) == body;
    PrintLex.Assoc(gaps[0], body, gaps[n]);
    assert (body + gaps[n])[0] == tok[0];
    TrimStartSkips(gaps[0], body + gaps[n]);
    TrimEndSkips(body, gaps[n]);
  }

  /** From the text of a command to its argument, for every expression with any parentheses and any
      blanks around its tokens: the decimal text of its value, or its failure. */
  lemma SpacedArithmeticFromText(w: Sem.World, name: string, e: A.Expr, gaps: seq<string>, st: Sem.St)
    requires WfWord(Literal(name), false) && A.IsE(e) && A.Printable(A.Yield(e)) && A.WfGaps(A.Yield(e), gaps)
    ensures var t := A.Spaced(A.Yield(e), gaps);
            && Parse(" " + LiteralText(name) + (" $((" + t + ")) ;"), Free([])) == Good(Call(name, [ArithSubst(t)]), Free([]))
            && Sem.ExpandWord(w, ArithSubst(t), st) == Sem.OfArith(A.Eval(w.profile, e), st)
  {
    hide Parse;
    hide LiteralText;
    hide AV.ExpandVars;
    hide A.EvalText;
    hide A.Eval;
    hide A.Spaced;
    hide Depth;
    var ts := A.Yield(e);
    var t := A.Spaced(ts, gaps);
    DerivedIsBalanced(e, gaps);
    AV.NothingToExpand(t, st.env);
    YieldIsSomething(e);
    SpacedTrims(ts, gaps);
    A.SpacedOutcome(w.profile, e, Tight(gaps));
    CallIsPrinted(name, [ArithSubst(t)]);
    assert Render(ToksWords([ArithSubst(t)], Cons(TSemi, AtEof)), false) == " $((" + t + ")) ;" by { ArithToks(t); }
  }

  lemma {:induction false} YieldIsSomething(e: A.Expr)
    ensures A.Yield(e) != []
  {
  }

  lemma DerivedIsBalanced(e: A.Expr, gaps: seq<string>)
    requires A.Printable(A.Yield(e)) && A.WfGaps(A.Yield(e), gaps)
    ensures IsBalanced(A.Spaced(A.Yield(e), gaps)) && '$' !in A.Spaced(A.Yield(e), gaps)
  {
    hide Depth;
    var ts := A.Yield(e);
    assert ts + [] == ts;
    YieldDepth(e, [], 0);
    GapsKeepDepth(ts, gaps, 0);
    GapsAreHarmless(ts, gaps);
    assert Depth(A.Text([]), 0) == Some(0) by { NoDepth(); }
  }

  lemma ArithToks(t: string)
    ensures Render(ToksWords([ArithSubst(t)], Cons(TSemi, AtEof)), false) == " $((" + t + ")) ;"
  {
    var w, end := ArithSubst(t), Cons(TSemi, AtEof);
    assert [w][1..] == [] && ToksWords([], end) == end;
    assert WordText(w) == PartText(w) == ArithText(t);
    assert ToksWord(w, end) == Cons(TWord(WordText(w)), end);
    assert ToksWords([w], end) == ToksWord(w, end);
    assert Render(end, false) == " ;";
    RenderCons(TWord(ArithText(t)), end, false);
  }

  // ---------------------------------------------------------------- descriptors left out

  /** The digit that an operator starting with `c` means when it has none in front. */
  function Meant(c: char): string {
    if c == '<' then "0" else "1"
  }

  lemma LessTokens(r: string, fd: Option<nat>)
    ensures LessToken(r, fd).Tok? ==>
              && LessToken(r, None).Tok? && LessToken(r, fd).end == LessToken(r, None).end
              && var k := LessToken(r, None).kind;
                 && ((k.TRedirect? && !k.op.Greater? && !k.op.GreaterGreater? && !k.op.GreaterPipe? && !k.op.GreaterAmp?) || k.THereDoc?)
                 && LessToken(r, fd).kind == k.(fd := fd) && k.fd == None
    ensures LessToken(r, fd).LexErr? ==> LessToken(r, fd) == LessToken(r, None)
  {
    hide HeredocDelimiter;
  }

  lemma GreaterTokens(r: string, fd: Option<nat>)
    ensures var k := GreaterToken(r, fd);
            && k.Tok? && k.kind.TRedirect? && k.kind.fd == fd && !k.kind.op.Less? && !k.kind.op.LessGreater? && !k.kind.op.LessAmp?
            && GreaterToken(r, None).Tok? && GreaterToken(r, None).kind == TRedirect(None, k.kind.op) && GreaterToken(r, None).end == k.end
  {
  }

  /** The two texts lex alike, but for the descriptor of the token. */
  lemma MeantLexes(c: char, r: string)
    requires c == '<' || c == '>'
    ensures var n := if c == '<' then 0 else 1;
            var tail := if c == '<' then LessToken(r, None) else GreaterToken(r, None);
            var full := if c == '<' then LessToken(r, Some(n)) else GreaterToken(r, Some(n));
            && Lex([c] + r, false) == Widen(tail, 1)
            && Lex(Meant(c) + [c] + r, false) == Widen(full, 2)
  {
    hide Lex;
    hide LessToken;
    hide GreaterToken;
    hide LexWord;
    var n := if c == '<' then 0 else 1;
    var t := [c] + r;
    assert t[1..] == r;
    assert Show(n) == Meant(c) by { assert Show(0) == "0" && Show(1) == "1"; }
    BareOperator(t);
    DigitsThenOperator(n, t);
    LexStart(t);
    LexStart(Meant(c) + t);
    assert Meant(c) + [c] + r == Meant(c) + t;
    MeantIsHere(c, r);
  }

  lemma MeantIsHere(c: char, r: string)
    requires c == '<' || c == '>'
    ensures LexHere([c] + r) == LexRedirect([c] + r)
    ensures var s := Meant(c) + ([c] + r); s != "" && s[0] !in " \t#" && (IsFdRedirect(s) ==> LexHere(s) == LexRedirect(s))
  {
    hide LexRedirect;
    hide LexWord;
    hide Before;
  }

  /** For every redirection or heredoc operator, whatever stands behind it and wherever in a command
      it stands: without a descriptor it is read as with 0 in front of `<` and 1 in front of `>`. */
  lemma DefaultDescriptors(c: char, r: string, pend: seq<Pending>, cell: Cell, sc: SimpleCommand)
    requires c == '<' || c == '>'
    ensures var bare, full := SimpleLoop(PS([c] + r, pend, cell), sc), SimpleLoop(PS(Meant(c) + [c] + r, pend, cell), sc);
            bare == full
  {
    hide Lex;
    hide LessToken;
    hide GreaterToken;
    hide ParseWord;
    hide ParseDupRedirect;
    var n := if c == '<' then 0 else 1;
    var s, t := [c] + r, Meant(c) + [c] + r;
    MeantLexes(c, r);
    if c == '<' { LessTokens(r, Some(n)); } else { GreaterTokens(r, Some(n)); }
    if Lex(s, false).Tok? {
      assert s[Lex(s, false).end..] == t[Lex(t, false).end..];
      SameRedirect(s, t, n, pend, cell);
      OneRound(PS(s, pend, cell), sc);
      OneRound(PS(t, pend, cell), sc);
    } else {
      assert Lex(t, false) == Lex(s, false) by { if c == '<' && LessToken(r, Some(n)).Tok? { assert false; } }
    }
  }

  lemma OneRound(ps: PS, sc: SimpleCommand)
    requires Lex(ps.rest, false).Tok? && (Lex(ps.rest, false).kind.TRedirect? || Lex(ps.rest, false).kind.THereDoc?)
    ensures var r := ParseRedirect(ps);
            SimpleLoop(ps, sc) ==
            if r.Good? then SimpleLoop(r.st, sc.(redirects := sc.redirects + [r.value])) else Bad(r.why, r.queue)
  {
    hide Lex;
    hide ParseRedirect;
  }

  lemma SameRedirect(s: string, t: string, n: nat, pend: seq<Pending>, cell: Cell)
    requires Lex(s, false).Tok? && Lex(t, false).Tok? && s[Lex(s, false).end..] == t[Lex(t, false).end..]
    requires var k, l := Lex(s, false).kind, Lex(t, false).kind;
             && (k.TRedirect? || k.THereDoc?) && k.fd == None && l == k.(fd := Some(n))
             && n == (if k.THereDoc? || k.op.Less? || k.op.LessGreater? || k.op.LessAmp? then 0 else 1)
    ensures ParseRedirect(PS(s, pend, cell)) == ParseRedirect(PS(t, pend, cell))
  {
    hide Lex;
    hide ParseWord;
    hide ParseDupRedirect;
  }

  /** A descriptor that is written is kept, also in front of a heredoc operator. */
  lemma WrittenDescriptor(n: nat, c: char, r: string, pend: seq<Pending>, cell: Cell)
    requires n < 0x1_0000_0000 && (c == '<' || c == '>')
    ensures var s := Show(n) + ([c] + r);
            Lex(s, false).Tok? ==>
              && (Lex(s, false).kind.TRedirect? || Lex(s, false).kind.THereDoc?)
              && (ParseRedirect(PS(s, pend, cell)).Good? ==> ParseRedirect(PS(s, pend, cell)).value.fd == Some(n))
  {
    hide Lex;
    hide LessToken;
    hide GreaterToken;
    hide LexWord;
    hide ParseWord;
    hide Show;
    var t := [c] + r;
    var s := Show(n) + t;
    assert t[1..] == r;
    DigitsThenOperator(n, t);
    LexStart(s);
    if c == '<' { LessTokens(r, Some(n)); } else { GreaterTokens(r, Some(n)); }
    assert IsDigit(s[0]) && LexHere(s) == LexRedirect(s) by { FdIsHere(s); }
    if Lex(s, false).Tok? && Lex(s, false).kind.TRedirect? { DupKeepsFd(After(PS(s, pend, cell)), Some(n)); }
  }

  lemma FdIsHere(s: string)
    requires s != "" && IsDigit(s[0]) && IsFdRedirect(s)
    ensures LexHere(s) == LexRedirect(s)
  {
    hide LexRedirect;
    hide LexWord;
    hide Before;
  }

  lemma DupKeepsFd(ps: PS, fd: Option<nat>)
    ensures forall kind :: ParseDupRedirect(ps, fd, kind).Good? ==> ParseDupRedirect(ps, fd, kind).value.fd == fd
  {
    hide Lex;
    hide ParseWord;
    hide ParseU32;
  }

  /** A plus sign in front of the number of a descriptor means nothing. */
  lemma SignedDescriptor(digits: string)
    requires digits != "" && AllDigits(digits)
    ensures ParseU32("+" + digits) == ParseU32(digits) == U32(digits)
  {
    assert ("+" + digits)[1..] == digits && IsDigit(digits[0]);
  }

  /** Where a command ends: at the end of the text, at a newline, at `&`, `|`, a closing bracket, and
      at `;` but not at `;;`. */
  lemma CommandEnds(r: string, pend: seq<Pending>, cell: Cell, sc: SimpleCommand)
    requires r == "" || r[0] in "\n&|)}" || (r[0] == ';' && !(|r| > 1 && r[1] == ';'))
    ensures SimpleLoop(PS(r, pend, cell), sc) == Good(sc, PS(r, pend, cell))
  {
    hide Lex;
    hide LexRedirect;
    hide LexWord;
    if r == "" {
      NothingIsTheEnd();
    } else {
      LexStart(r);
    }
  }

  lemma NothingIsTheEnd()
    ensures Lex("", false) == Tok(TEof, 0, 0)
  {
  }

  /** Inside double quotes there are three kinds of tokens. */
  lemma DqTokens(s: string)
    ensures Lex(s, true).Tok? ==> var k := Lex(s, true).kind; k.TDoubleQuoteClose? || k.TDQText? || k.TWord?
  {
    hide WordRun;
    hide UnescapeDq;
    hide DqRun;
  }

  lemma {:induction false} TrimStartTakes(gap: string, s: string)
    requires (forall c :: c in gap ==> c in " \t\n\r\U{000B}\U{000C}") && (s == "" || s[0] !in " \t\n\r\U{000B}\U{000C}")
    ensures TrimStart(gap + s) == s
  {
    if gap == "" {
      assert gap + s == s;
    } else {
      assert gap[0] in gap && (gap + s)[1..] == gap[1..] + s;
      TrimStartTakes(gap[1..], s);
    }
  }

  lemma {:induction false} TrimEndTakes(s: string, gap: string)
    requires forall c :: c in gap ==> c in " \t\n\r\U{000B}\U{000C}"
    requires s == "" || s[|s| - 1] !in " \t\n\r\U{000B}\U{000C}"
    ensures TrimEnd(s + gap) == s
    decreases |gap|
  {
    if gap == "" {
      assert s + gap == s;
    } else {
      var n := |gap| - 1;
      assert gap[n] in gap && (s + gap)[|s + gap| - 1] == gap[n] && (s + gap)[..|s + gap| - 1] == s + gap[..n];
      TrimEndTakes(s, gap[..n]);
    }
  }

  /** Six kinds of white space are trimmed from both ends of a nested script, and nothing else. */
  lemma TrimTakesSpace(before: string, s: string, behind: string)
    requires forall c :: c in before || c in behind ==> c in " \t\n\r\U{000B}\U{000C}"
    requires s != "" && s[0] !in " \t\n\r\U{000B}\U{000C}" && s[|s| - 1] !in " \t\n\r\U{000B}\U{000C}"
    ensures Trim(before + (s + behind)) == s
  {
    hide TrimStart;
    hide TrimEnd;
    assert (s + behind)[0] == s[0];
    TrimStartTakes(before, s + behind);
    TrimEndTakes(s, behind);
  }

  // ---------------------------------------------------------------- variables without braces

  lemma NameRuns(x: string, r: string)
    requires IsValidName(x) && (r == "" || !IsWordChar(r[0]))
    ensures DollarRun(x + r) == Some(|x|)
  {
    hide NameRun;
    hide BalancedRun;
    assert (x + r)[1..] == x[1..] + r && (x + r)[0] == x[0];
    assert r != "" ==> !IsNameChar(r[0]);
    AV.NameStops(x[1..], r);
  }

  lemma NameWord(x: string, r: string)
    requires IsValidName(x) && (r == "" || !IsWordChar(r[0]))
    ensures Lex("$" + x + r, false) == Tok(TWord("$" + x), 0, 1 + |x|)
  {
    hide DollarRun;
    hide Lex;
    hide IsValidName;
    hide IsWordChar;
    var s := "$" + x + r;
    assert s[0] == '$' && s[1..] == x + r && s[..1 + |x|] == "$" + x && s[1 + |x|..] == r;
    NameRuns(x, r);
    assert WordPiece(s) == Some(1 + |x|);
    EndsWord(r);
    hide WordPiece;
    assert WordRun(s) == Some(1 + |x|);
    assert LexWord(s) == Tok(TWord("$" + x), 0, 1 + |x|);
    hide LexWord;
    assert LexHere(s) == LexWord(s) by { DollarIsHere(s); }
    LexStart(s);
  }

  lemma DollarIsHere(s: string)
    requires s != "" && s[0] == '$'
    ensures LexHere(s) == LexWord(s)
  {
    hide LexWord;
    hide LexRedirect;
    hide Before;
  }

  /** Inside the word the name is as long as it can be. */
  lemma NameDollar(x: string, r: string, cell: Cell)
    requires IsValidName(x) && (r == "" || !IsNameChar(r[0]))
    ensures ParseDollar("$" + x + r, cell) == Good(Expansion(Variable(Named(x)), 1 + |x|), cell)
  {
    hide Parse;
    hide Extract;
    hide NameRun;
    hide ParseBraceVar;
    var s := "$" + x + r;
    assert s[1..] == x + r && s[1] == x[0] && s[1..][..|x|] == x;
    AV.NameStops(x, r);
  }

  /** `$x` as a word is `${x}` as a word, in front of anything that ends a word. */
  lemma BareVariable(x: string, r: string, pend: seq<Pending>, cell: Cell)
    requires IsValidName(x) && (r == "" || !IsWordChar(r[0]))
    ensures ParseWord(PS("$" + x + r, pend, cell)) == Good(Variable(Named(x)), PS(r, pend, cell))
    ensures ParseWord(PS("${" + x + "}" + r, pend, cell)) == Good(Variable(Named(x)), PS(r, pend, cell))
  {
    hide Lex;
    hide WordOf;
    hide DqLoop;
    hide Solid;
    NameWord(x, r);
    assert ("$" + x + r)[1 + |x|..] == r;
    NameDollar(x, "", cell);
    LoneDollar("$" + x, Variable(Named(x)), cell);
    var braced := VarText(Named(x));
    SolidVar(Named(x));
    assert braced == "${" + x + "}" && braced[0] == '$';
    SolidStops(braced, r);
    assert (braced + r)[|braced|..] == r;
    VarParses(Named(x), "", cell);
    LoneDollar(braced, Variable(Named(x)), cell);
  }

  /** A word that is one expansion. */
  lemma LoneDollar(t: string, w: Word, cell: Cell)
    requires t != "" && t[0] == '$' && ParseDollar(t + "", cell) == Good(Expansion(w, |t|), cell) && !w.Concat?
    ensures WordOf(t, cell) == Good(w, cell) && Simplify([w]) == w
  {
    hide ParseDollar;
    assert t + "" == t && t[|t|..] == "";
    assert WordParts("", "", cell) == Good([], cell);
    assert [] + [w] + [] == [w];
  }

  lemma SolidStops(t: string, r: string)
    requires Solid(t) && t != "" && t[0] == '$' && (r == "" || !IsWordChar(r[0]))
    ensures Lex(t + r, false) == Tok(TWord(t), 0, |t|)
  {
    hide Lex;
    hide WordPiece;
    assert PrintTokens.Takes(t, r);
    assert WordRun(r) == Some(0) by { EndsWord(r); }
    assert (t + r)[..|t|] == t;
    LexStart(t + r);
  }

  lemma EndsWord(r: string)
    requires r == "" || !IsWordChar(r[0])
    ensures WordRun(r) == Some(0)
  {
  }

  // ---------------------------------------------------------------- what ends a parse, and what is dropped

  lemma LexClosing(k: TokenKind, r: string)
    requires IsClose(k)
    ensures Lex(" " + (KText(k) + r), false) == Tok(k, 1, 2)
  {
    hide Lex;
    LexStart(KText(k) + r);
    LexBehindBlank(KText(k) + r);
  }

  lemma {:induction false} RenderNotEmpty(ts: Toks, dq: bool)
    requires EndsInClose(ts) && Renderable(ts, dq)
    ensures Render(ts, false) != "" && Render(ts, false)[0] == ' '
  {
    RenderHead(ts);
    CloseOutside(ts, dq);
    RenderCons(ts.k, ts.tl, false);
  }

  /** The tokens up to an unmatched close are read whatever stands behind it. */
  lemma {:induction false} LexRenderInto(ts: Toks, dq: bool, r: string)
    requires Renderable(ts, dq) && EndsInClose(ts)
    ensures Stream(Render(ts, dq) + r, dq, ts)
    decreases ts
  {
    hide Lex;
    hide ReadsBack;
    hide DqReadsBack;
    hide KText;
    var k, tl := ts.k, ts.tl;
    var dq' := ModeAfter(dq, k);
    CloseOutside(ts, dq);
    var rest := Render(tl, dq');
    RenderCons(k, tl, dq);
    if tl.Nil? {
      LexClosing(k, r);
      assert rest == "" && " " + (KText(k) + "") + r == " " + (KText(k) + r);
    } else {
      LexRenderInto(tl, dq', r);
      if dq {
        LexOneDqInto(k, tl, rest, r);
        PrintLex.Assoc(KText(k), rest, r);
        PrintLex.DropHead(KText(k), rest + r);
      } else {
        RenderTail(k, tl, rest);
        if !dq' { RenderNotEmpty(tl, dq'); }
        LexOne(k, rest + r);
        assert " " + (KText(k) + rest) + r == " " + (KText(k) + (rest + r));
        DropBlankHead(KText(k), rest + r);
      }
    }
  }

  lemma CloseOutside(ts: Toks, dq: bool)
    requires Renderable(ts, dq) && EndsInClose(ts)
    ensures !ts.k.TEof? && (ts.tl.Nil? ==> !dq)
  {
    hide Solid;
  }

  lemma LexOneDqInto(k: TokenKind, tl: Toks, rest: string, r: string)
    requires DqReadsBack(k, tl) && rest == Render(tl, ModeAfter(true, k))
    requires !k.TDoubleQuoteClose? ==> Renderable(tl, true)
    ensures Lex(KText(k) + (rest + r), true) == Tok(k, 0, |KText(k)|)
  {
    hide Lex;
    hide Solid;
    hide Render;
    hide Renderable;
    hide EscapeDq;
    if k.TDoubleQuoteClose? {
      LexClose(rest + r);
    } else {
      DqNext(k, tl, rest);
      assert (rest + r)[0] == rest[0];
      if k.TDQText? { LexDqText(k.text, rest + r); } else { LexDqWord(k.text, rest + r); }
    }
  }

  /** An unmatched `)` or `}` ends the parse: what stands in front of it is the script, and nothing
      behind it is looked at, not even to see whether it is made of tokens. */
  lemma UnmatchedCloseEndsTheParse(script: seq<Command>, k: TokenKind, junk: string)
    requires WfScript(script, false) && IsClose(k)
    ensures Parse(Render(ToksScript(script, Cons(k, Nil)), false) + junk, Free([])) == Good(script, Free([]))
  {
    hide Stream;
    hide ParseScript;
    hide FillScript;
    hide ToksScript;
    hide WfScript;
    var end := Cons(k, Nil);
    assert ReadsBack(k);
    assert Renderable(end, false) && EndsInClose(end);
    KeepsScript(script, end, false);
    var ts := ToksScript(script, end);
    LexRenderInto(ts, false, junk);
    var _ := ScriptParses(script, Render(ts, false) + junk, end, false);
    FillNothing(script);
  }

  /** Inside a bracket of the other kind an unmatched close is an error, whatever follows. */
  lemma OtherBracketIsAnError(script: seq<Command>, junk: string)
    requires WfScript(script, false)
    ensures Parse(Render(Cons(TLParen, ToksScript(script, Cons(TRBrace, Nil))), false) + junk, Free([])) ==
            Bad(Syntax(ExpectedRParen), Free([]))
    ensures Parse(Render(Cons(TLBrace, ToksScript(script, Cons(TRParen, Nil))), false) + junk, Free([])) ==
            Bad(Syntax(ExpectedRBrace), Free([]))
  {
    BracketFails(script, TLParen, TRBrace, junk);
    BracketFails(script, TLBrace, TRParen, junk);
  }

  lemma BracketFails(script: seq<Command>, open: TokenKind, k: TokenKind, junk: string)
    requires WfScript(script, false) && ((open == TLParen && k == TRBrace) || (open == TLBrace && k == TRParen))
    ensures Parse(Render(Cons(open, ToksScript(script, Cons(k, Nil))), false) + junk, Free([])) ==
            Bad(Syntax(if open == TLParen then ExpectedRParen else ExpectedRBrace), Free([]))
  {
    hide Stream;
    hide Lex;
    hide ParseScript;
    hide ToksScript;
    hide WfScript;
    hide SkipNewlines;
    hide SkipSeparator;
    var end := Cons(k, Nil);
    KeepsScript(script, end, false);
    var inner := ToksScript(script, end);
    var ts := Cons(open, inner);
    assert ReadsBack(open);
    LexRenderInto(ts, false, junk);
    var s := Render(ts, false) + junk;
    var s1 := Head(s, open, inner);
    var s2 := ScriptParses(script, s1, end, false);
    var _ := Head(s2, k, Nil);
    NoSeparator(s2, end);
    NoNewlines(s2, end);
    NoNewlines(s, ts);
    var e := Syntax(if open == TLParen then ExpectedRParen else ExpectedRBrace);
    if open == TLParen {
      assert ParseSubshell(RoundTrip.At(s)) == Bad(e, Free([]));
    } else {
      assert ParseGroup(RoundTrip.At(s)) == Bad(e, Free([]));
    }
    CompoundFails(s, e);
  }

  lemma CompoundFails(s: string, e: Why)
    requires Peek(RoundTrip.At(s)).Good? && SkipNewlines(RoundTrip.At(s)) == Good((), RoundTrip.At(s))
    requires var k := Peek(RoundTrip.At(s)).value;
             (k == TLParen && HeadIs(s, TLParen) && ParseSubshell(RoundTrip.At(s)) == Bad(e, Free([]))) ||
             (k == TLBrace && HeadIs(s, TLBrace) && ParseGroup(RoundTrip.At(s)) == Bad(e, Free([])))
    ensures Parse(s, Free([])) == Bad(e, Free([]))
  {
    hide Lex;
    hide ParseSubshell;
    hide ParseGroup;
    hide SkipNewlines;
    var p := RoundTrip.At(s);
    assert ParseCommand(p) == Bad(e, Free([]));
    assert ParsePipeline(p, false) == Bad(e, Free([]));
    assert ParsePipelineCmd(p) == Bad(e, Free([]));
    assert ParseListItem(p) == Bad(e, Free([]));
    assert ScriptLoop(p) == Bad(e, Free([]));
    assert ParseScript(p) == Bad(e, Free([]));
  }

  /** A `!` in front of a subshell or a group is dropped. */
  lemma BangIsDropped(c: Command)
    requires WfPipe(c, false) && (c.Subshell? || c.Group?)
    ensures Parse(Render(Cons(TBang, ToksItem(c, AtEof)), false), Free([])) == Good([c], Free([]))
  {
    hide Parse;
    hide Stream;
    hide ToksPipe;
    hide Renderable;
    hide ParseCommand;
    hide Lex;
    hide WfPipe;
    hide FillScript;
    var end := Cons(TSemi, AtEof);
    var item := ToksItem(c, AtEof);
    ItemOfPipe(c);
    KeepsTheItem(c);
    var ts := Cons(TBang, item);
    var s := Render(ts, false);
    LexRender(ts, false);
    var s1 := Head(s, TBang, item);
    var s2 := PlainParses(c, s1, end, false);
    var s3 := Head(s2, TSemi, AtEof);
    var _ := Head(s3, TEof, Nil);
    OneItem(c, s, s1, s2, s3);
    FillNothing([c]);
    ParsesAs(s, [c], s3);
  }

  lemma ParsesAs(s: string, script: seq<Command>, s': string)
    requires ParseScript(RoundTrip.At(s)) == Good(script, RoundTrip.At(s')) && FillScript(script, []) == Good(script, [])
    ensures Parse(s, Free([])) == Good(script, Free([]))
  {
    hide ParseScript;
    hide FillScript;
  }

  lemma KeepsTheItem(c: Command)
    requires WfPipe(c, false) && (c.Subshell? || c.Group?)
    ensures Renderable(Cons(TBang, ToksItem(c, AtEof)), false)
  {
    hide ToksItem;
    hide WfPipe;
    assert WfScript([c], false) by { assert WfItem(c, false); }
    EofIsRenderable();
    KeepsScript([c], AtEof, false);
    assert ToksScript([c], AtEof) == ToksItem(c, AtEof) by { assert [c][1..] == []; }
  }

  lemma OneItem(c: Command, s: string, s1: string, s2: string, s3: string)
    requires Peek(RoundTrip.At(s)) == Good(TBang, RoundTrip.At(s)) && After(RoundTrip.At(s)) == RoundTrip.At(s1)
    requires ParseCommand(RoundTrip.At(s1)) == Good(c, RoundTrip.At(s2)) && !c.Simple?
    requires Peek(RoundTrip.At(s2)) == Good(TSemi, RoundTrip.At(s2)) && After(RoundTrip.At(s2)) == RoundTrip.At(s3)
    requires Peek(RoundTrip.At(s3)) == Good(TEof, RoundTrip.At(s3))
    ensures ParseScript(RoundTrip.At(s)) == Good([c], RoundTrip.At(s3))
  {
    hide Lex;
    hide ParseCommand;
    assert SkipNewlines(RoundTrip.At(s)) == Good((), RoundTrip.At(s));
    assert ParsePipeline(RoundTrip.At(s1), true) == Good(c, RoundTrip.At(s2));
    assert ParsePipelineCmd(RoundTrip.At(s)) == Good(c, RoundTrip.At(s2));
    assert ListLoop(c, RoundTrip.At(s2)) == Good(c, RoundTrip.At(s2));
    assert ParseListItem(RoundTrip.At(s)) == Good(c, RoundTrip.At(s2));
    assert SkipSeparator(RoundTrip.At(s2)) == Good(true, RoundTrip.At(s3));
    assert SkipNewlines(RoundTrip.At(s3)) == Good((), RoundTrip.At(s3));
    assert ScriptLoop(RoundTrip.At(s3)) == Good([], RoundTrip.At(s3));
    assert [c] + [] == [c];
  }

  // ---------------------------------------------------------------- adjacent pieces

  /** A piece of what looks like one word: between single quotes, between double quotes, or bare. */
  datatype Piece = SingleP(s: string) | DoubleP(s: string) | BareP(s: string)

  function WordOfPiece(p: Piece): Word {
    match p
    case SingleP(s) => SingleQuoted(s)
    case DoubleP(s) => Quote(s)
    case BareP(s) => Literal(s)
  }

  function PieceText(p: Piece): string {
    match p
    case SingleP(s) => "'" + s + "'"
    case DoubleP(s) => "\"" + EscapeDq(s) + "\""
    case BareP(s) => LiteralText(s)
  }

  /** Bare pieces have text, and no two of them stand side by side: written so they are one. */
  predicate WfPieces(ps: seq<Piece>)
    decreases |ps|
  {
    ps == [] || (
      && (ps[0].SingleP? ==> '\'' !in ps[0].s) && (ps[0].BareP? ==> ps[0].s != "" && '\n' !in ps[0].s)
      && (ps[0].BareP? && |ps| > 1 ==> !ps[1].BareP?)
      && WfPieces(ps[1..]))
  }

  function PiecesText(ps: seq<Piece>): string {
    if ps == [] then "" else PieceText(ps[0]) + PiecesText(ps[1..])
  }

  function WordsOfPieces(ps: seq<Piece>): (r: seq<Word>)
    ensures |r| == |ps|
  {
    if ps == [] then [] else [WordOfPiece(ps[0])] + WordsOfPieces(ps[1..])
  }

  lemma {:induction false} LongerBare(a: string, b: string)
    ensures Escape(a) + Escape(b) == Escape(a + b)
  {
    if a == "" {
      assert a + b == b && "" + Escape(b) == Escape(b);
    } else {
      assert (a + b)[0] == a[0] && (a + b)[1..] == a[1..] + b;
      LongerBare(a[1..], b);
      PrintLex.Assoc(if IsSafe(a[0]) then [a[0]] else ['\\', a[0]], Escape(a[1..]), Escape(b));
    }
  }

  /** A bare word ends where a quote begins. */
  lemma LexBare(t: string, r: string)
    requires WordTok(t) && r != "" && r[0] in "'\" "
    ensures Lex(t + r, false) == Tok(TWord(t), 0, |t|)
  {
    hide Solid;
    hide IsFdRedirect;
    hide LexHere;
    hide LexWord;
    hide Lex;
    hide DigitRun;
    hide Bare;
    WordEnds(t, r);
    BareIsNoOperator(t);
    NoDescriptor(t, r);
    assert (t + r)[0] == t[0];
    BareStartsWord(t + r);
    LexStart(t + r);
  }

  lemma NoDescriptor(t: string, r: string)
    requires t != "" && (DigitRun(t) < |t| ==> t[DigitRun(t)] !in "<>") && r != "" && r[0] in "'\" "
    ensures !IsFdRedirect(t + r)
  {
    hide DigitRun;
    DigitRunPrefix(t, r);
    var n := DigitRun(t);
    assert n < |t| ==> (t + r)[n] == t[n];
    assert n == |t| ==> (t + r)[n] == r[0];
  }

  lemma {:induction false} DoubleStream(s: string, r: string, tl: Toks)
    requires Stream(r, false, tl)
    ensures Stream(PieceText(DoubleP(s)) + r, false, ToksWord(Quote(s), tl))
  {
    hide Lex;
    hide EscapeDq;
    var close := Cons(TDoubleQuoteClose, tl);
    var e := EscapeDq(s);
    var inner := e + ("\"" + r);
    LexClose(r);
    PrintLex.DropHead("\"", r);
    assert Stream("\"" + r, true, close);
    QuoteInside(s, close);
    LexPunctuation(TDoubleQuoteOpen, inner);
    PrintLex.DropHead("\"", inner);
    assert PieceText(DoubleP(s)) + r == "\"" + inner;
    if s == "" {
      assert e == "" by { NothingEscaped(); }
      assert inner == "\"" + r;
    } else {
      LexDqText(s, "\"" + r);
      PrintLex.DropHead(e, "\"" + r);
      assert Stream(inner, true, Cons(TDQText(s), close));
    }
  }

  lemma {:induction false} PiecesStream(ps: seq<Piece>, rest: string, tl: Toks)
    requires WfPieces(ps) && Stream(rest, false, tl) && rest != "" && rest[0] == ' '
    ensures Stream(PiecesText(ps) + rest, false, ToksWords(WordsOfPieces(ps), tl))
    ensures ps != [] && !ps[0].BareP? ==> PiecesText(ps) != "" && PiecesText(ps)[0] in "'\""
    decreases |ps|
  {
    hide Lex;
    hide LiteralText;
    hide EscapeDq;
    hide WordTok;
    if ps == [] {
      assert PiecesText(ps) + rest == rest;
    } else {
      var p, more := ps[0], PiecesText(ps[1..]) + rest;
      var toks := ToksWords(WordsOfPieces(ps[1..]), tl);
      PiecesStream(ps[1..], rest, tl);
      PrintLex.Assoc(PieceText(p), PiecesText(ps[1..]), rest);
      assert WordsOfPieces(ps)[1..] == WordsOfPieces(ps[1..]);
      match p
      case SingleP(s) =>
        LexSingleQuoted(s, more);
        PrintLex.DropHead("'" + s + "'", more);
      case DoubleP(s) => DoubleStream(s, more, toks);
      case BareP(s) =>
        LiteralIsTok(s);
        assert ps[1..] == [] ==> more == rest by { if ps[1..] == [] { assert "" + rest == rest; } }
        LexBare(LiteralText(s), more);
        PrintLex.DropHead(LiteralText(s), more);
        NameToken(s, toks);
    }
  }

  lemma {:induction false} PieceWords(ps: seq<Piece>)
    requires WfPieces(ps)
    ensures forall w :: w in WordsOfPieces(ps) ==> WfWord(w, false)
    decreases |ps|
  {
    hide WfWord;
    if ps != [] {
      PieceWords(ps[1..]);
      assert WfWord(WordOfPiece(ps[0]), false) by { PieceWord(ps[0]); }
    }
  }

  lemma PieceWord(p: Piece)
    requires (p.SingleP? ==> '\'' !in p.s) && (p.BareP? ==> p.s != "" && '\n' !in p.s)
    ensures WfWord(WordOfPiece(p), false)
  {
    if p.DoubleP? { QuoteInside(p.s, Nil); }
  }

  /** Pieces written side by side are not one word: each becomes an argument of its own, so what was
      written as one is one argument exactly when it is a single piece. (Bare text next to bare text
      is a single piece.) */
  lemma AdjacentPiecesAreSeparateWords(name: string, ps: seq<Piece>)
    requires WfWord(Literal(name), false) && WfPieces(ps)
    ensures Parse(LiteralText(name) + (" " + (PiecesText(ps) + " ;")), Free([])) ==
            Good(Call(name, WordsOfPieces(ps)), Free([]))
    ensures |WordsOfPieces(ps)| == 1 <==> |ps| == 1
  {
    hide Parse;
    hide Lex;
    hide LiteralText;
    hide WfWord;
    hide Stream;
    hide ToksWords;
    hide WordTok;
    hide PiecesText;
    var script, end := Call(name, WordsOfPieces(ps)), Cons(TSemi, AtEof);
    var args := ToksWords(WordsOfPieces(ps), end);
    var t, run := LiteralText(name), PiecesText(ps) + " ;";
    PieceWords(ps);
    EndStream();
    PiecesStream(ps, " ;", end);
    StreamBlank(run, args);
    assert WordText(Literal(name)) == t;
    WordIsTok(Literal(name), false);
    LexWordTok(t, " " + run);
    StreamWord(t, " " + run, args);
    CallTokens(name, WordsOfPieces(ps));
    StreamParses(script, t + (" " + run), false);
  }

  lemma EndStream()
    ensures Stream(" ;", false, Cons(TSemi, AtEof))
  {
    hide Lex;
    LexEnd();
    assert Stream("", false, AtEof);
    LexSemicolon();
    StreamSemi(";", "", AtEof);
    assert " " + ";" == " ;" && ";" + "" == ";";
    StreamBlank(";", Cons(TSemi, AtEof));
  }

  lemma LexSemicolon()
    ensures Lex(";" + "", false) == Tok(TSemi, 0, 1)
  {
    hide Lex;
    LexStart(";");
    assert ";" + "" == ";";
  }

  lemma StreamSemi(t: string, r: string, tl: Toks)
    requires Lex(t + r, false) == Tok(TSemi, 0, |t|) && Stream(r, false, tl)
    ensures Stream(t + r, false, Cons(TSemi, tl))
  {
    hide Lex;
    PrintLex.DropHead(t, r);
  }

  lemma StreamBlank(s: string, ts: Toks)
    requires Stream(s, false, ts)
    ensures Stream(" " + s, false, ts)
  {
    hide Lex;
    LexBehindBlank(s);
    if ts.Cons? {
      var l := Lex(s, false);
      assert (" " + s)[1 + l.end..] == s[l.end..];
    }
  }

  lemma StreamWord(t: string, r: string, tl: Toks)
    requires Lex(t + r, false) == Tok(TWord(t), 0, |t|) && Stream(r, false, tl)
    ensures Stream(t + r, false, Cons(TWord(t), tl))
  {
    hide Lex;
    PrintLex.DropHead(t, r);
  }
}
