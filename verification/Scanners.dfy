/** The two scanners that look for the end of a `$(...)`: the lexer's, which skips single-quoted
    text, and the parser's, which does not. */
module Scanners {
  import opened Ast
  import opened LexSpec
  import opened ParseSpec
  import opened Print
  import PrintLex
  import PrintTokens
  import RoundTrip

  /** Every single quote has its partner. */
  predicate QuotesClosed(s: string)
    decreases |s|
  {
    if s == "" then true
    else if s[0] != '\'' then QuotesClosed(s[1..])
    else
      var n := Before(s[1..], '\'');
      n < |s| - 1 && QuotesClosed(s[n + 2..])
  }

  /** The text without what stands between single quotes. */
  function DropQuoted(s: string): string
    requires QuotesClosed(s)
    decreases |s|
  {
    if s == "" then ""
    else if s[0] != '\'' then [s[0]] + DropQuoted(s[1..])
    else DropQuoted(s[Before(s[1..], '\'') + 2..])
  }

  /** The parser takes exactly `b` as the inside exactly when its parentheses are balanced. */
  lemma {:induction false} ParserTakesExactly(b: string, k: nat, r: string)
    ensures Extract(b + (")" + r), k + 1, ")") == Some((|b|, |b| + 1)) <==> Depth(b, k) == Some(0)
  {
    var s := b + (")" + r);
    if b == "" {
      assert s == ")" + r && s[1..] == r;
    } else {
      assert s[1..] == b[1..] + (")" + r);
      if b[0] == ')' && k == 0 {
      } else {
        ParserTakesExactly(b[1..], if b[0] == '(' then k + 1 else if b[0] == ')' then k - 1 else k, r);
      }
    }
  }

  lemma CloseAtOne(x: string)
    ensures BalancedRun([')'] + x, '(', ')', 1) == Some(1)
  {
  }

  /** A text up to and through its first quoted span. */
  lemma QuotedSpan(b: string) returns (t: string, rest: string)
    requires b != "" && b[0] == '\'' && Before(b[1..], '\'') < |b| - 1
    ensures b == "'" + t + "'" + rest && '\'' !in t && (QuotesClosed(b) <==> QuotesClosed(rest))
    ensures QuotesClosed(b) ==> DropQuoted(b) == DropQuoted(rest)
  {
    var n := Before(b[1..], '\'');
    t, rest := b[1..][..n], b[n + 2..];
    assert b == [b[0]] + t + [b[n + 1]] + rest;
  }

  lemma DropQuotedStep(b: string)
    requires b != "" && b[0] != '\''
    ensures QuotesClosed(b) <==> QuotesClosed(b[1..])
    ensures QuotesClosed(b) ==> DropQuoted(b) == [b[0]] + DropQuoted(b[1..])
  {
  }

  lemma RunIsPositive(s: string, d: nat)
    ensures BalancedRun(s, '(', ')', d) != Some(0)
  {
  }

  lemma DepthOfNothing(k: nat)
    ensures Depth("", k) == Some(k)
  {
  }

  /** An open quote hides the parenthesis behind `b`, so the lexer does not stop there. */
  lemma OpenQuoteRunsOn(b: string, k: nat, r: string)
    requires b != "" && b[0] == '\'' && Before(b[1..], '\'') == |b| - 1
    ensures !QuotesClosed(b) && BalancedRun(b + (")" + r), '(', ')', k + 1) != Some(|b| + 1)
  {
    var s := b + (")" + r);
    assert s[1..] == b[1..] + (")" + r);
    QuoteFurther(b[1..], ")" + r);
    assert Before(")" + r, '\'') == 1 + Before(r, '\'') by { assert (")" + r)[1..] == r; }
  }

  lemma {:induction false} QuoteFurther(b: string, r: string)
    requires '\'' !in b
    ensures Before(b + r, '\'') == |b| + Before(r, '\'')
  {
    if b == "" {
      assert b + r == r;
    } else {
      assert (b + r)[1..] == b[1..] + r;
      QuoteFurther(b[1..], r);
    }
  }

  /** The lexer does exactly when every quote is closed and the parentheses outside are balanced. */
  lemma {:induction false} LexerTakesExactly(b: string, k: nat, r: string)
    ensures BalancedRun(b + (")" + r), '(', ')', k + 1) == Some(|b| + 1) <==>
            QuotesClosed(b) && Depth(DropQuoted(b), k) == Some(0)
    decreases |b|
  {
    hide BalancedRun;
    hide Depth;
    hide DropQuoted;
    hide QuotesClosed;
    hide Extract;
    var close := ")" + r;
    if b == "" {
      NothingDropped("");
      DepthOfNothing(k);
      assert b + close == [')'] + r;
      EndTaken(k, r);
    } else if b[0] == '\'' && Before(b[1..], '\'') == |b| - 1 {
      OpenQuoteRunsOn(b, k, r);
    } else if b[0] == '\'' {
      var t, rest := QuotedSpan(b);
      LexerTakesExactly(rest, k, r);
      PrintLex.LexerSkipsQuoted(t, k + 1, rest + close);
      assert b + close == "'" + t + "'" + (rest + close);
    } else {
      var c, rest := b[0], b[1..];
      assert b + close == [c] + (rest + close);
      DropQuotedStep(b);
      if QuotesClosed(b) { PrintLex.HeadDepth(c, DropQuoted(rest), k); }
      if c == ')' && k == 0 {
        CloseAtOne(rest + close);
      } else {
        var k' := if c == '(' then k + 1 else if c == ')' then k - 1 else k;
        PrintLex.OneStep(c, rest + close, k + 1);
        LexerTakesExactly(rest, k', r);
        OneMore(BalancedRun(rest + close, '(', ')', k' + 1), |rest| + 1);
      }
    }
  }

  lemma EndTaken(k: nat, r: string)
    ensures BalancedRun([')'] + r, '(', ')', k + 1) == Some(1) <==> k == 0
  {
    hide BalancedRun;
    hide Extract;
    if k == 0 { CloseAtOne(r); } else { PrintLex.OneStep(')', r, k + 1); RunIsPositive(r, k); }
  }

  lemma OneMore(x: Option<nat>, n: nat)
    ensures Plus(1, x) == Some(n + 1) <==> x == Some(n)
  {
  }

  /** Both scanners take exactly `b` out of `$(b)` exactly when its quotes are closed and its
      parentheses are balanced, with and without what single quotes hide. */
  lemma ScannersAgree(b: string, r: string)
    ensures (BalancedRun(b + (")" + r), '(', ')', 1) == Some(|b| + 1) &&
             Extract(b + (")" + r), 1, ")") == Some((|b|, |b| + 1))) <==>
            (Depth(b, 0) == Some(0) && QuotesClosed(b) && Depth(DropQuoted(b), 0) == Some(0))
  {
    ParserTakesExactly(b, 0, r);
    LexerTakesExactly(b, 0, r);
  }

  /** Without single quotes there is nothing to disagree about. */
  lemma {:induction false} NothingDropped(b: string)
    requires '\'' !in b
    ensures QuotesClosed(b) && DropQuoted(b) == b
  {
    if b != "" { NothingDropped(b[1..]); }
  }

  /** `$(b)`: the lexer takes the whole of it into the word, the parser parses exactly `b` and goes on
      behind the same parenthesis. */
  lemma SubstitutionExtent(b: string, r: string, cell: Cell)
    requires IsBalanced(b) && (b == "" || b[0] != '(')
    ensures DollarRun("(" + (b + (")" + r))) == Some(|b| + 2)
    ensures ParseDollar("$" + ("(" + (b + (")" + r))), cell) ==
            match Parse(Trim(b), cell)
            case Good(script, c) => Good(Expansion(CommandSubst(script), |b| + 3), c)
            case Bad(why, c) => Bad(why, c)
  {
    hide Parse;
    hide Trim;
    hide Extract;
    hide BalancedRun;
    NothingDropped(b);
    ScannersAgree(b, r);
    var close := ")" + r;
    var t := "(" + (b + close);
    assert t[1..] == b + close;
    var s := "$" + t;
    assert s[2..] == b + close && s[2..][..|b|] == b;
    if b == "" { assert t[1] == ')'; } else { assert t[1] == b[0]; }
    assert !Parenthesis(s, 2);
  }

  lemma {:induction false} TickRunOf(b: string, r: string)
    requires forall c :: c in b ==> c !in "`\\\n"
    ensures TickRun(b + ("`" + r)) == |b| + 1 && Before(b + ("`" + r), '`') == |b|
  {
    var s := b + ("`" + r);
    if b == "" {
      assert s == "`" + r;
    } else {
      assert b[0] in b && s[1..] == b[1..] + ("`" + r);
      TickRunOf(b[1..], r);
    }
  }

  /** What stands between backticks for the lexer: a backslash takes the next character with it, whatever
      that is, and the line may not end. */
  predicate IsTickText(b: string) {
    b == "" || (if b[0] == '\\' then |b| > 1 && IsTickText(b[2..]) else b[0] != '`' && b[0] != '\n' && IsTickText(b[1..]))
  }

  lemma {:induction false} TicksClose(b: string, r: string)
    requires IsTickText(b)
    ensures TickRun(b + ("`" + r)) == |b| + 1 && TickRun(b + ("\n" + r)) == |b| && TickRun(b) == |b|
    decreases |b|
  {
    var s, t := b + ("`" + r), b + ("\n" + r);
    if b == "" {
      assert s == "`" + r && t == "\n" + r;
    } else if b[0] == '\\' {
      assert s[2..] == b[2..] + ("`" + r) && t[2..] == b[2..] + ("\n" + r);
      TicksClose(b[2..], r);
    } else {
      assert s[1..] == b[1..] + ("`" + r) && t[1..] == b[1..] + ("\n" + r);
      TicksClose(b[1..], r);
    }
  }

  /** In backticks the same script is the same substitution: the lexer takes all of it, the parser
      parses exactly what is inside. */
  lemma BackticksAreDollars(b: string, r: string, cell: Cell)
    requires IsBalanced(b) && (b == "" || b[0] != '(') && forall c :: c in b ==> c !in "`\\\n"
    ensures WordPiece("`" + (b + ("`" + r))) == Some(|b| + 2)
    ensures var tick, dollar := ParseBacktick("`" + (b + ("`" + r)), cell), ParseDollar("$" + ("(" + (b + (")" + r))), cell);
            if dollar.Good? then tick == Good(dollar.value.(len := |b| + 2), dollar.st) else tick == Bad(dollar.why, dollar.queue)
  {
    hide Parse;
    hide ParseDollar;
    hide Trim;
    hide Before;
    var s := "`" + (b + ("`" + r));
    TickRunOf(b, r);
    SubstitutionExtent(b, r, cell);
    assert s[1..] == b + ("`" + r) && s[1..][..|b|] == b;
  }

  /** `$((b))` likewise, with `b` taken as it stands. */
  lemma ArithmeticExtent(b: string, r: string, cell: Cell)
    requires IsBalanced(b)
    ensures DollarRun("((" + (b + ("))" + r))) == Some(|b| + 4)
    ensures ParseDollar("$((" + b + "))" + r, cell) == Good(Expansion(ArithSubst(b), |b| + 5), cell)
  {
    PrintTokens.ArithRun(b, r);
    RoundTrip.ArithParses(b, r, cell);
  }

  /** A quoted parenthesis makes them part ways: the lexer takes all of `$(')')`, the parser ends
      the substitution at the first parenthesis and finds an open quote. */
  lemma QuotedParenthesis(cell: Cell)
    ensures DollarRun("(')')") == Some(5)
    ensures ParseDollar("$(')')", cell) == Bad(Syntax(UnterminatedSingleQuote), cell)
  {
    hide Parse;
    hide BalancedRun;
    hide Extract;
    PrintLex.LexerSkipsQuoted(")", 1, ")");
    CloseAtOne("");
    assert [')'] + "" == ")" && "'" + ")" + "'" + ")" == "')')" && "(')')"[1..] == "')')";
    ParserStopsEarly();
    QuoteAlone(cell);
    var s := "$(')')";
    assert s[2..] == "')')" && s[2..][..1] == "'";
  }

  lemma ParserStopsEarly()
    ensures Extract("')')", 1, ")") == Some((1, 2)) && Trim("'") == "'"
  {
    PrintLex.QuoteStep(")')", 1);
    assert "'" + ")')" == "')')";
    assert Extract(")')", 1, ")") == Some((0, 1));
    assert TrimStart("'") == "'" && TrimEnd("'") == "'";
  }

  lemma QuoteAlone(cell: Cell)
    ensures Parse("'", cell) == Bad(Syntax(UnterminatedSingleQuote), cell)
  {
    hide ParseListItem;
    var s := "'";
    assert Blanks(s) == 0 && s[1..] == "" && Before("", '\'') == 0;
    assert s[0..] == s;
    assert LexHere(s) == LexErr(UnterminatedSingleQuote);
    assert Lex(s, false) == LexErr(UnterminatedSingleQuote);
    assert SkipNewlines(PS(s, [], cell)) == Bad(Syntax(UnterminatedSingleQuote), cell);
    assert ParseScript(PS(s, [], cell)) == Bad(Syntax(UnterminatedSingleQuote), cell);
  }
}
