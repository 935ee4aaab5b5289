/** Texts that are refused, and the error each is refused with. */
module Refusals {
  import opened Ast
  import opened Decimal
  import opened LexSpec
  import opened ParseSpec
  import opened Print
  import PrintLex
  import opened PrintTokens
  import opened PrintParse
  import opened RoundTrip
  import EndToEnd

  // ---------------------------------------------------------------- a script that fails at once

  /** What the lexer refuses at the start of a script, the parser refuses. */
  lemma LexerRefuses(s: string, e: SyntaxError)
    requires Lex(s, false) == LexErr(e)
    ensures Parse(s, Free([])) == Bad(Syntax(e), Free([]))
  {
    hide Lex;
    hide ScriptLoop;
    assert SkipNewlines(RoundTrip.At(s)) == Bad(Syntax(e), Free([]));
    assert ParseScript(RoundTrip.At(s)) == Bad(Syntax(e), Free([]));
  }

  /** A script fails as its first command does. */
  lemma FirstRefused(s: string, e: SyntaxError)
    requires Lex(s, false).Tok? && Lex(s, false).kind.TWord?
    requires ParseCommand(RoundTrip.At(s)) == Bad(Syntax(e), Free([]))
    ensures Parse(s, Free([])) == Bad(Syntax(e), Free([]))
  {
    hide Lex;
    hide ParseCommand;
    var p := RoundTrip.At(s);
    assert SkipNewlines(p) == Good((), p);
    assert ParsePipeline(p, false) == Bad(Syntax(e), Free([]));
    assert ParsePipelineCmd(p) == Bad(Syntax(e), Free([]));
    assert ParseListItem(p) == Bad(Syntax(e), Free([]));
    assert ScriptLoop(p) == Bad(Syntax(e), Free([]));
    assert ParseScript(p) == Bad(Syntax(e), Free([]));
  }

  // ---------------------------------------------------------------- words

  predicate IsNameText(t: string) {
    t != "" && forall i :: 0 <= i < |t| ==> IsNameChar(t[i])
  }

  lemma NameIsTok(t: string)
    requires IsNameText(t)
    ensures WordTok(t)
  {
    hide Solid;
    SolidName(t);
  }

  lemma KeywordsAreNames()
    ensures forall k :: k in ["if", "for", "while", "until", "case", "select"] ==> IsNameText(k)
  {
  }

  /** Six words start constructs that are not supported. */
  lemma KeywordRefused(k: string, r: string)
    requires k in ["if", "for", "while", "until", "case", "select"] && (r == "" || r[0] == ' ')
    ensures Parse(k + r, Free([])) == Bad(Syntax(UnsupportedKeyword(k)), Free([]))
  {
    hide Lex;
    hide Parse;
    hide WordTok;
    hide IsNameText;
    KeywordsAreNames();
    NameIsTok(k);
    LexWordTok(k, r);
    assert ParseCommand(RoundTrip.At(k + r)) == Bad(Syntax(UnsupportedKeyword(k)), Free([]));
    FirstRefused(k + r, UnsupportedKeyword(k));
  }

  /** Every other plain word is a command, written as it stands. */
  lemma OtherWordsAreCommands(t: string)
    requires t != "" && (forall i :: 0 <= i < |t| ==> IsSafe(t[i]))
    requires t !in ["if", "for", "while", "until", "case", "select"]
    ensures Parse(" " + t + " ;", Free([])) == Good([Simple(SimpleCommand([], Some(Literal(t)), [], []))], Free([]))
  {
    hide Parse;
    hide Render;
    hide IsSafe;
    SafeIsUnescaped(t);
    SafeHasNoNewline(t);
    assert LiteralText(t) == t;
    EndToEnd.CallIsPrinted(t, []);
    assert ToksWords([], Cons(TSemi, AtEof)) == Cons(TSemi, AtEof);
    assert Render(Cons(TSemi, AtEof), false) == " ;" by { EndText(); }
  }

  lemma EndText()
    ensures Render(Cons(TSemi, AtEof), false) == " ;"
  {
  }

  lemma SafeHasNoNewline(t: string)
    requires forall i :: 0 <= i < |t| ==> IsSafe(t[i])
    ensures '\n' !in t
  {
  }

  lemma {:induction false} SafeIsUnescaped(t: string)
    requires forall i :: 0 <= i < |t| ==> IsSafe(t[i])
    ensures Escape(t) == t
  {
    hide IsSafe;
    if t != "" {
      SafeIsUnescaped(t[1..]);
      assert [t[0]] + t[1..] == t;
    }
  }

  /** A plain word in front of `(` is a function definition, which is not supported. */
  lemma FunctionRefused(t: string, r: string)
    requires IsNameText(t) && t !in ["if", "for", "while", "until", "case", "select"]
    ensures Parse(t + ("(" + r), Free([])) == Bad(Syntax(UnsupportedFunction), Free([]))
  {
    hide Lex;
    hide Parse;
    hide WordTok;
    hide ParseWord;
    hide ParseAssignment;
    var s := t + ("(" + r);
    NameIsTok(t);
    LexWordTok(t, "(" + r);
    LexOpen(r);
    assert s[|t|..] == "(" + r;
    PlainWord(t);
    assert FunctionLookahead(RoundTrip.At(s), true) == Bad(Syntax(UnsupportedFunction), Free([]));
    assert ParseCommand(RoundTrip.At(s)) == Bad(Syntax(UnsupportedFunction), Free([]));
    FirstRefused(s, UnsupportedFunction);
  }

  lemma LexOpen(r: string)
    ensures Lex("(" + r, false) == Tok(TLParen, 0, 1)
  {
    hide Lex;
    LexStart("(" + r);
  }

  lemma PlainWord(t: string)
    requires IsNameText(t)
    ensures IsPlainName(t) && SplitAssignment(t) == None
  {
    assert forall c :: c in t ==> IsNameChar(c);
    NoEquals(t);
  }

  lemma {:induction false} NoEquals(t: string)
    requires '=' !in t
    ensures Before(t, '=') == |t|
  {
    if t != "" { NoEquals(t[1..]); }
  }

  /** Behind the first word a parenthesis is only an unexpected token, and so it is behind a variable
      that stands for the name. */
  lemma ParenthesisRefused(t: string, u: string, r: string)
    requires IsNameText(t) && IsNameText(u) && t !in ["if", "for", "while", "until", "case", "select"]
    ensures Parse(t + (" " + (u + ("(" + r))), Free([])) == Bad(Syntax(UnexpectedToken(TLParen)), Free([]))
  {
    hide Lex;
    hide Parse;
    hide WordTok;
    hide IsNameText;
    hide WordOf;
    hide SimpleLoop;
    hide ParseCommand;
    hide SplitAssignment;
    var more := u + ("(" + r);
    var s := t + (" " + more);
    var sc1 := EmptySimple.(name := Some(Literal(t)));
    NameIsTok(t);
    LexWordTok(t, " " + more);
    LexBehindBlank(more);
    SecondWord(u, r, sc1);
    PlainWord(t);
    NameParses(t);
    assert s[|t|..] == " " + more;
    FirstWord(s, t, " " + more, UnexpectedToken(TLParen));
    FirstRefused(s, UnexpectedToken(TLParen));
  }

  /** A plain name in front of what the rest of the command fails at. */
  lemma FirstWord(s: string, t: string, more: string, e: SyntaxError)
    requires Lex(s, false) == Tok(TWord(t), 0, |t|) && s[|t|..] == more && !IsReserved(t)
    requires SplitAssignment(t) == None && WordOf(t, Free([])) == Good(Literal(t), Free([]))
    requires Lex(more, false).Tok? && !Lex(more, false).kind.TLParen?
    requires SimpleLoop(RoundTrip.At(more), EmptySimple.(name := Some(Literal(t)))) == Bad(Syntax(e), Free([]))
    ensures ParseCommand(RoundTrip.At(s)) == Bad(Syntax(e), Free([]))
  {
    hide Lex;
    hide WordOf;
    hide IsReserved;
    hide SplitAssignment;
    hide IsPlainName;
    assert FunctionLookahead(RoundTrip.At(s), true) == Good((), RoundTrip.At(s));
    assert ParseWord(RoundTrip.At(s)) == Good(Literal(t), RoundTrip.At(more));
    assert SimpleLoop(RoundTrip.At(s), EmptySimple) == Bad(Syntax(e), Free([]));
  }

  /** A second word and the parenthesis behind it. */
  lemma SecondWord(u: string, r: string, sc: SimpleCommand)
    requires IsNameText(u) && sc.name.Some?
    ensures var more := " " + (u + ("(" + r));
            && Lex(more, false).Tok? && !Lex(more, false).kind.TLParen?
            && SimpleLoop(RoundTrip.At(more), sc) == Bad(Syntax(UnexpectedToken(TLParen)), Free([]))
  {
    hide Lex;
    hide WordTok;
    hide IsNameText;
    hide WordOf;
    hide SplitAssignment;
    var more := u + ("(" + r);
    NameIsTok(u);
    LexWordTok(u, "(" + r);
    LexBehindBlank(more);
    NameParses(u);
    assert (" " + more)[1 + |u|..] == "(" + r;
    var next := sc.(args := sc.args + [Literal(u)]);
    ParenthesisEnds(r, next);
    assert ParseWord(RoundTrip.At(" " + more)) == Good(Literal(u), RoundTrip.At("(" + r));
  }

  lemma ParenthesisEnds(r: string, sc: SimpleCommand)
    ensures SimpleLoop(RoundTrip.At("(" + r), sc) == Bad(Syntax(UnexpectedToken(TLParen)), Free([]))
  {
    hide Lex;
    LexOpen(r);
  }

  lemma NameParses(t: string)
    requires IsNameText(t)
    ensures WordOf(t, Free([])) == Good(Literal(t), Free([]))
  {
    hide ParseDollar;
    hide ParseBacktick;
    assert forall i :: 0 <= i < |t| ==> IsSafe(t[i]);
    SafeIsUnescaped(t);
    SafeHasNoNewline(t);
    EscapedParts(t, "", "", Free([]));
    assert t + "" == t && "" + t == t;
  }

  lemma VariableBeforeParenthesis(x: string, r: string)
    requires IsValidName(x)
    ensures Parse("$" + x + ("(" + r), Free([])) == Bad(Syntax(UnexpectedToken(TLParen)), Free([]))
  {
    hide Lex;
    hide Parse;
    hide WordOf;
    hide ParseWord;
    hide IsReserved;
    var s := "$" + x + ("(" + r);
    var e := Syntax(UnexpectedToken(TLParen));
    EndToEnd.NameWord(x, "(" + r);
    EndToEnd.BareVariable(x, "(" + r, [], Free([]));
    NotReserved(x);
    ParenthesisEnds(r, EmptySimple.(name := Some(Variable(Named(x)))));
    hide SplitAssignment;
    assert SimpleLoop(RoundTrip.At(s), EmptySimple) == Bad(e, Free([]));
    assert ParseCommand(RoundTrip.At(s)) == Bad(e, Free([]));
    FirstRefused(s, UnexpectedToken(TLParen));
  }

  lemma NotReserved(x: string)
    ensures !IsReserved("$" + x) && SplitAssignment("$" + x) == None && !IsPlainName("$" + x)
  {
    var s := "$" + x;
    assert s[0] == '$';
    var eq := Before(s, '=');
    if 0 < eq < |s| { assert s[..eq][0] == '$'; }
  }

  // ---------------------------------------------------------------- quotes

  lemma {:induction false} Missing(s: string, c: char)
    requires c !in s
    ensures Before(s, c) == |s|
  {
    if s != "" { Missing(s[1..], c); }
  }

  lemma OpenSingleQuote(t: string)
    requires '\'' !in t
    ensures Parse("'" + t, Free([])) == Bad(Syntax(UnterminatedSingleQuote), Free([]))
  {
    hide Lex;
    hide Before;
    hide Parse;
    var s := "'" + t;
    Missing(t, '\'');
    assert s[1..] == t;
    LexStart(s);
    LexerRefuses(s, UnterminatedSingleQuote);
  }

  /** Double quotes that are never closed, around text in which nothing is special. */
  lemma OpenDoubleQuote(t: string)
    requires forall c :: c in t ==> c !in "\"\\$`"
    ensures Parse("\"" + t, Free([])) == Bad(Syntax(UnterminatedDoubleQuote), Free([]))
  {
    hide Parse;
    hide Lex;
    hide UnescapeDq;
    var s := "\"" + t;
    var e := Syntax(UnterminatedDoubleQuote);
    LexStart(s);
    assert s[1..] == t;
    assert Lex("", true) == LexErr(UnterminatedDoubleQuote) by { EmptyDq(); }
    assert DqLoop(RoundTrip.At("")) == Bad(e, Free([]));
    if t != "" {
      PlainRun(t);
      assert t[|t|..] == "" && DqLoop(RoundTrip.At(t)) == Bad(e, Free([]));
    }
    assert ParseDoubleQuoted(RoundTrip.At(s)) == Bad(e, Free([]));
    assert ParseWord(RoundTrip.At(s)) == Bad(e, Free([]));
    assert SimpleLoop(RoundTrip.At(s), EmptySimple) == Bad(e, Free([]));
    assert ParseCommand(RoundTrip.At(s)) == Bad(e, Free([]));
    QuoteRefused(s, UnterminatedDoubleQuote);
  }

  lemma EmptyDq()
    ensures Lex("", true) == LexErr(UnterminatedDoubleQuote)
  {
  }

  lemma {:induction false} PlainRunLength(t: string)
    requires forall c :: c in t ==> c !in "\"\\$`"
    ensures DqRun(t) == |t|
  {
    if t != "" {
      assert t[0] in t;
      PlainRunLength(t[1..]);
    }
  }

  lemma PlainRun(t: string)
    requires t != "" && forall c :: c in t ==> c !in "\"\\$`"
    ensures Lex(t, true).Tok? && Lex(t, true).kind.TDQText? && Lex(t, true).end == |t|
  {
    hide UnescapeDq;
    hide DqRun;
    assert t[0] in t;
    PlainRunLength(t);
  }

  lemma QuoteRefused(s: string, e: SyntaxError)
    requires Lex(s, false).Tok? && Lex(s, false).kind.TDoubleQuoteOpen?
    requires ParseCommand(RoundTrip.At(s)) == Bad(Syntax(e), Free([]))
    ensures Parse(s, Free([])) == Bad(Syntax(e), Free([]))
  {
    hide Lex;
    hide ParseCommand;
    var p := RoundTrip.At(s);
    assert SkipNewlines(p) == Good((), p);
    assert ParsePipeline(p, false) == Bad(Syntax(e), Free([]));
    assert ParsePipelineCmd(p) == Bad(Syntax(e), Free([]));
    assert ParseListItem(p) == Bad(Syntax(e), Free([]));
    assert ScriptLoop(p) == Bad(Syntax(e), Free([]));
    assert ParseScript(p) == Bad(Syntax(e), Free([]));
  }

  lemma {:induction false} NeverBalanced(t: string, open: char, close: char, depth: nat)
    requires close !in t && close != '\'' && open != close
    ensures BalancedRun(t, open, close, depth).None?
    decreases |t|
  {
    if t != "" {
      if t[0] == '\'' {
        var q := 1 + Before(t[1..], '\'');
        NeverBalanced(t[if q < |t| then q + 1 else q..], open, close, depth);
      } else {
        NeverBalanced(t[1..], open, close, if t[0] == open then depth + 1 else depth);
      }
    }
  }

  /** A substitution or braces that the word never closes. */
  lemma OpenSubstitution(open: char, t: string)
    requires (open == '(' && ')' !in t) || (open == '{' && '}' !in t)
    ensures Parse("$" + ([open] + t), Free([])) == Bad(Syntax(UnterminatedSubstitution), Free([]))
  {
    hide Lex;
    hide Parse;
    hide BalancedRun;
    var s := "$" + ([open] + t);
    assert s[1..] == [open] + t && ([open] + t)[1..] == t;
    if open == '{' {
      NeverBalanced(t, '{', '}', 1);
    } else {
      NeverBalanced(t, '(', ')', 1);
      if t != "" { NeverBalanced(t[1..], '(', ')', 2); }
      if |t| > 0 && t[0] == '(' { assert ([open] + t)[2..] == t[1..]; }
    }
    assert DollarRun([open] + t) == None;
    LexStart(s);
    LexerRefuses(s, UnterminatedSubstitution);
  }

  // ---------------------------------------------------------------- brackets and pipelines

  /** A bracket that is never closed, around any printable script. */
  lemma OpenBracket(script: seq<Command>, open: TokenKind)
    requires WfScript(script, false) && (open == TLParen || open == TLBrace)
    ensures Parse(Render(Cons(open, ToksScript(script, AtEof)), false), Free([])) ==
            Bad(Syntax(if open == TLParen then UnclosedSubshell else UnclosedGroup), Free([]))
  {
    hide Stream;
    hide Lex;
    hide ParseScript;
    hide ToksScript;
    hide WfScript;
    hide SkipNewlines;
    hide SkipSeparator;
    hide Parse;
    assert Renderable(AtEof, false);
    KeepsScript(script, AtEof, false);
    var inner := ToksScript(script, AtEof);
    var ts := Cons(open, inner);
    assert ReadsBack(open);
    LexRender(ts, false);
    var s := Render(ts, false);
    var s1 := Head(s, open, inner);
    var s2 := ScriptParses(script, s1, AtEof, false);
    var _ := Head(s2, TEof, Nil);
    NoSeparator(s2, AtEof);
    NoNewlines(s2, AtEof);
    NoNewlines(s, ts);
    var e := Syntax(if open == TLParen then UnclosedSubshell else UnclosedGroup);
    if open == TLParen {
      assert ParseSubshell(RoundTrip.At(s)) == Bad(e, Free([]));
    } else {
      assert ParseGroup(RoundTrip.At(s)) == Bad(e, Free([]));
    }
    EndToEnd.CompoundFails(s, e);
  }

  /** A subshell or group cannot be a stage of a pipeline. */
  lemma CompoundStageRefused(script: seq<Command>, open: TokenKind)
    requires WfScript(script, false) && (open == TLParen || open == TLBrace)
    ensures var close := if open == TLParen then TRParen else TRBrace;
            Parse(Render(Cons(open, ToksScript(script, Cons(close, Cons(TPipe, AtEof)))), false), Free([])) ==
            Bad(Syntax(OnlySimpleStages), Free([]))
  {
    hide Stream;
    hide Lex;
    hide ParseScript;
    hide ToksScript;
    hide WfScript;
    hide SkipNewlines;
    hide SkipSeparator;
    hide Parse;
    var close := if open == TLParen then TRParen else TRBrace;
    var bar := Cons(TPipe, AtEof);
    var tail := Cons(close, bar);
    assert ReadsBack(open) && ReadsBack(close) && ReadsBack(TPipe);
    assert Renderable(AtEof, false) && Renderable(bar, false) && Renderable(tail, false);
    KeepsScript(script, tail, false);
    var inner := ToksScript(script, tail);
    var ts := Cons(open, inner);
    LexRender(ts, false);
    var s := Render(ts, false);
    var s1 := Head(s, open, inner);
    var s2 := ScriptParses(script, s1, tail, false);
    var s3 := Head(s2, close, bar);
    var _ := Head(s3, TPipe, AtEof);
    NoSeparator(s2, tail);
    NoNewlines(s2, tail);
    NoNewlines(s, ts);
    var c := if open == TLParen then Subshell(script) else Group(script);
    CompoundThenPipe(s, open, c, s3);
  }

  lemma CompoundThenPipe(s: string, open: TokenKind, c: Command, s3: string)
    requires Lex(s, false).Tok? && Lex(s, false).kind == open && (open == TLParen || open == TLBrace) && !c.Simple?
    requires SkipNewlines(RoundTrip.At(s)) == Good((), RoundTrip.At(s))
    requires if open == TLParen then ParseSubshell(RoundTrip.At(s)) == Good(c, RoundTrip.At(s3))
             else ParseGroup(RoundTrip.At(s)) == Good(c, RoundTrip.At(s3))
    requires Lex(s3, false).Tok? && Lex(s3, false).kind == TPipe
    ensures Parse(s, Free([])) == Bad(Syntax(OnlySimpleStages), Free([]))
  {
    hide Lex;
    hide ParseSubshell;
    hide ParseGroup;
    hide SkipNewlines;
    var p, e := RoundTrip.At(s), Syntax(OnlySimpleStages);
    assert ParseCommand(p) == Good(c, RoundTrip.At(s3));
    assert ParsePipeline(p, false) == Bad(e, Free([]));
    assert ParsePipelineCmd(p) == Bad(e, Free([]));
    assert ParseListItem(p) == Bad(e, Free([]));
    assert ScriptLoop(p) == Bad(e, Free([]));
    assert ParseScript(p) == Bad(e, Free([]));
  }

  // ---------------------------------------------------------------- heredocs

  /** An operator without a delimiter. */
  lemma NoDelimiter(r: string)
    requires r == "" || r[0] == '\n'
    ensures Parse("<<" + r, Free([])) == Bad(Syntax(MissingHeredocDelimiter), Free([]))
  {
    hide Parse;
    var s := "<<" + r;
    assert s[1..] == "<" + r && s[1..][1..] == r;
    assert HeredocToken(r, None) == LexErr(MissingHeredocDelimiter) by { BareDelimiterMissing(r); }
    OperatorRefused(r, MissingHeredocDelimiter);
    LexerRefuses(s, MissingHeredocDelimiter);
  }

  lemma BareDelimiterMissing(r: string)
    requires r == "" || r[0] == '\n'
    ensures HeredocToken(r, None) == LexErr(MissingHeredocDelimiter)
  {
    assert Blanks(r) == 0 && r[0..] == r;
  }

  lemma OperatorRefused(r: string, e: SyntaxError)
    requires HeredocToken(r, None) == LexErr(e)
    ensures Lex("<<" + r, false) == LexErr(e)
  {
    hide HeredocToken;
    hide Lex;
    hide LexWord;
    var s := "<<" + r;
    assert s[1..] == "<" + r && ("<" + r)[1..] == r;
    BareOperator(s);
    LexStart(s);
  }

  /** A quoted delimiter has to end on its line. */
  lemma OpenDelimiter(quote: char, t: string, more: string)
    requires (quote == '\'' || quote == '"') && quote !in t && '\n' !in t && (more == "" || more[0] == '\n')
    ensures Parse("<<" + ([quote] + (t + more)), Free([])) == Bad(Syntax(UnterminatedHeredocQuote), Free([]))
  {
    hide Parse;
    hide Before;
    var r := [quote] + (t + more);
    assert r[1..] == t + more && Blanks(r) == 0 && r[0..] == r;
    QuoteRunsOn(t, more, quote);
    assert HeredocToken(r, None) == LexErr(UnterminatedHeredocQuote);
    OperatorRefused(r, UnterminatedHeredocQuote);
    LexerRefuses("<<" + r, UnterminatedHeredocQuote);
  }

  lemma QuoteRunsOn(t: string, more: string, quote: char)
    requires quote !in t && quote != '\n' && (more == "" || more[0] == '\n')
    ensures var n := Before(t + more, quote); n == |t + more| || '\n' in (t + more)[..n]
  {
    var s := t + more;
    var n := Before(s, quote);
    if n < |s| {
      assert forall i :: 0 <= i < |t| ==> s[i] == t[i] != quote;
      assert s[|t|] == more[0] && n != |t|;
      assert s[..n][|t|] == '\n';
    }
  }

  /** A body that no line ends is refused with the delimiter that is missing. */
  lemma {:induction false} OpenBody(s: string, p: Pending)
    ensures OneBody(s, p).BadBodies? ==> OneBody(s, p) == BadBodies(UnterminatedHeredoc(p.delimiter))
    decreases |s|
  {
    hide Before;
    hide IsDelimiterLine;
    var n := Before(s, '\n');
    var next := if n < |s| then n + 1 else n;
    if !IsDelimiterLine(s[..n], p) && next < |s| { OpenBody(s[next..], p); }
  }

  /** Of several bodies the first that is missing is named. */
  lemma {:induction false} FirstOpenBody(s: string, ps: seq<Pending>, cell: Cell) returns (k: nat, at: nat)
    requires ps != [] && AllBodies(s, ps).BadBodies?
    ensures k < |ps| && at <= |s| && AllBodies(s, ps[..k]).Bodies? && AllBodies(s, ps[..k]).len == at
    ensures OneBody(s[at..], ps[k]).BadBodies?
    ensures Flush(PS(s, ps, cell)) == Bad(Syntax(UnterminatedHeredoc(ps[k].delimiter)), cell)
    decreases |ps|
  {
    hide OneBody;
    OpenBody(s, ps[0]);
    assert s[0..] == s && ps[..0] == [];
    if OneBody(s, ps[0]).BadBodies? {
      k, at := 0, 0;
    } else {
      var len := OneBody(s, ps[0]).len;
      var j, b := FirstOpenBody(s[len..], ps[1..], cell);
      k, at := j + 1, len + b;
      assert ps[..k] == [ps[0]] + ps[1..][..j] && ps[..k][1..] == ps[1..][..j];
      assert s[len..][b..] == s[at..];
    }
  }

  // ---------------------------------------------------------------- expansions

  /** What is wrong with a braced variable, a parenthesis or a backtick that is not closed. */
  lemma OpenExpansions(t: string, cell: Cell)
    ensures '}' !in t ==> ParseBraceVar(t, cell) == Bad(Syntax(UnclosedBraceVariable), cell)
    ensures ParseBraceVar("}" + t, cell) == Bad(Syntax(EmptyBraceVariable), cell)
    ensures '`' !in t ==> ParseBacktick("`" + t, cell) == Bad(Syntax(UnterminatedBacktick), cell)
  {
    hide Parse;
    hide WordOf;
    if '}' !in t { Missing(t, '}'); }
    if '`' !in t {
      Missing(t, '`');
      assert ("`" + t)[1..] == t;
    }
    assert ("}" + t)[..0] == "";
  }

  /** An operator that nothing stands in front of is the name itself. */
  lemma LoneOperator(op: char, r: string, cell: Cell)
    requires op in "-=+?"
    ensures ParseBraceVar([op] + ("}" + r), cell) == Good((Named([op]), 1), cell)
  {
    hide WordOf;
    var s := [op] + ("}" + r);
    assert s[1..] == "}" + r;
    assert Before(s, '}') == 1 by { assert s[1..][0] == '}'; }
    assert s[..1] == [op];
    assert FindVarOperator([op], 1) == None;
    assert FindVarOperator([op], 0) == None;
  }

  lemma {:induction false} NoClose(t: string, depth: nat, close: string)
    requires ')' !in t && (close == ")" || close == "))")
    ensures Extract(t, depth, close).None?
  {
    if t != "" { NoClose(t[1..], if t[0] == '(' then depth + 1 else depth, close); }
  }

  lemma OpenParentheses(t: string, cell: Cell)
    requires ')' !in t
    ensures t == "" || t[0] != '(' ==> ParseDollar("$(" + t, cell) == Bad(Syntax(UnmatchedClose(")")), cell)
    ensures ParseDollar("$((" + t, cell) == Bad(Syntax(UnmatchedClose("))")), cell)
  {
    hide Parse;
    hide Extract;
    NoClose(t, 1, ")");
    NoClose(t, 1, "))");
    assert ("$(" + t)[2..] == t && ("$((" + t)[3..] == t;
  }

  /** A `$` in front of nothing it could introduce is a `$`. */
  lemma LoneDollar(r: string, cell: Cell)
    requires r == "" || (!IsNameChar(r[0]) && !IsSpecialVarChar(r[0]) && r[0] != '(' && r[0] != '{')
    ensures ParseDollar("$" + r, cell) == Good(Expansion(Literal("$"), 1), cell)
  {
    hide Parse;
    hide Extract;
    hide ParseBraceVar;
    assert ("$" + r)[1..] == r;
  }
}
