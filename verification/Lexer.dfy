/** The lexer: a cursor over the source text, each method refining its function in `LexSpec`. */
module LexerObject {
  import opened Ast
  import opened Decimal
  import opened LexSpec

  datatype Token = Token(kind: TokenKind, start: nat, len: nat)

  datatype LexResult<+T> = Got(value: T) | Failed(error: SyntaxError)

  lemma Tail(s: string, i: nat, k: nat)
    requires i + k <= |s|
    ensures s[i..][k..] == s[i + k..]
  {
  }

  lemma {:induction false} BeforeIs(s: string, c: char, n: nat)
    requires n < |s| && s[n] == c && forall i :: 0 <= i < n ==> s[i] != c
    ensures Before(s, c) == n
  {
    if n > 0 { BeforeIs(s[1..], c, n - 1); }
  }

  class Lexer {
    const src: string
    var pos: nat

    ghost predicate Valid()
      reads this
    {
      pos <= |src|
    }

    /** The text still to be read. */
    ghost function Rest(): string
      reads this
      requires Valid()
    {
      src[pos..]
    }

    constructor (src: string)
      ensures Valid() && this.src == src && pos == 0 && Rest() == src
    {
      this.src := src;
      pos := 0;
    }

    function Peek(): (c: Option<char>)
      reads this
      requires Valid()
      ensures c.None? <==> Rest() == ""
      ensures c.Some? ==> c.value == Rest()[0]
    {
      if pos < |src| then Some(src[pos]) else None
    }

    method Advance()
      requires Valid() && Rest() != ""
      modifies this
      ensures Valid() && pos == old(pos) + 1 && Rest() == old(Rest())[1..]
    {
      Tail(src, pos, 1);
      pos := pos + 1;
    }

    method Eat(c: char) returns (ate: bool)
      requires Valid()
      modifies this
      ensures Valid() && ate == (old(Rest()) != "" && old(Rest())[0] == c)
      ensures pos == old(pos) + if ate then 1 else 0
      ensures Rest() == if ate then old(Rest())[1..] else old(Rest())
    {
      ate := Peek() == Some(c);
      if ate { Advance(); }
    }

    method SkipBlanks()
      requires Valid()
      modifies this
      ensures Valid() && pos == old(pos) + Blanks(old(Rest())) && Rest() == old(Rest())[Blanks(old(Rest()))..]
    {
      ghost var start := pos;
      while Peek() == Some(' ') || Peek() == Some('\t')
        invariant Valid() && start <= pos
        invariant Blanks(src[start..]) == pos - start + Blanks(src[pos..])
        decreases |src| - pos
      {
        Advance();
      }
      Tail(src, start, pos - start);
    }

    /** Moves to the next occurrence of `c`, or to the end. */
    method SkipTo(c: char)
      requires Valid()
      modifies this
      ensures Valid() && pos == old(pos) + Before(old(Rest()), c) && Rest() == old(Rest())[Before(old(Rest()), c)..]
    {
      ghost var start := pos;
      while Peek().Some? && Peek() != Some(c)
        invariant Valid() && start <= pos
        invariant Before(src[start..], c) == pos - start + Before(src[pos..], c)
        decreases |src| - pos
      {
        Advance();
      }
      Tail(src, start, pos - start);
    }

    /** The outcome of reading `n` characters whose length a function of the text gives. */
    ghost predicate Consumed(start: nat, n: Option<nat>, r: LexResult<()>)
      reads this
    {
      match n
      case Some(k) => r == Got(()) && pos == start + k
      case None => r == Failed(UnterminatedSubstitution)
    }

    /** Skips raw text and the quote behind it. */
    method SkipQuoted()
      requires Valid()
      modifies this
      ensures Valid() && pos == old(pos) + Through(old(Rest())) && Rest() == old(Rest())[Through(old(Rest()))..]
    {
      hide Before;
      ghost var start := pos;
      SkipTo('\'');
      var _ := Eat('\'');
      Tail(src, start, pos - start);
    }

    method ConsumeBalanced(open: char, close: char, startDepth: nat) returns (r: LexResult<()>)
      requires Valid() && startDepth > 0
      modifies this
      ensures Valid() && Consumed(old(pos), BalancedRun(old(Rest()), open, close, startDepth), r)
    {
      hide BalancedRun;
      hide Through;
      hide Plus;
      ghost var start := pos;
      var depth := startDepth;
      NotPlus(BalancedRun(src[start..], open, close, depth));
      while true
        invariant Valid() && start <= pos && depth > 0
        invariant BalancedRun(src[start..], open, close, startDepth) ==
                  Plus(pos - start, BalancedRun(src[pos..], open, close, depth))
        decreases |src| - pos
      {
        var c := Peek();
        BalancedStep(src[pos..], open, close, depth);
        PlusOf(pos - start, 1);
        if c.None? { return Failed(UnterminatedSubstitution); }
        ghost var here := pos;
        Advance();
        if c.value == '\'' {
          SkipQuoted();
        } else if c.value == open {
          depth := depth + 1;
        } else if c.value == close {
          depth := depth - 1;
          if depth == 0 { return Got(()); }
        }
        PlusTwice(here - start, pos - here, BalancedRun(src[pos..], open, close, depth));
      }
    }

    method LexDollar() returns (r: LexResult<()>)
      requires Valid()
      modifies this
      ensures Valid() && Consumed(old(pos), DollarRun(old(Rest())), r)
    {
      ghost var start := pos;
      var c := Peek();
      if c == Some('{') {
        Advance();
        r := ConsumeBalanced('{', '}', 1);
      } else if c == Some('(') {
        Advance();
        if Peek() == Some('(') {
          Advance();
          Tail(src, start, 2);
          r := ConsumeBalanced('(', ')', 2);
        } else {
          r := ConsumeBalanced('(', ')', 1);
        }
      } else if c.Some? && (IsNameChar(c.value) || IsSpecialVarChar(c.value)) {
        Advance();
        ghost var nameStart := pos;
        if IsAlpha(c.value) || c.value == '_' {
          while Peek().Some? && IsNameChar(Peek().value)
            invariant Valid() && nameStart <= pos
            invariant NameRun(src[nameStart..]) == pos - nameStart + NameRun(src[pos..])
            decreases |src| - pos
          {
            Advance();
          }
        }
        r := Got(());
      } else {
        r := Got(());
      }
    }

    method LexBackticks()
      requires Valid()
      modifies this
      ensures Valid() && pos == old(pos) + TickRun(old(Rest()))
    {
      ghost var start := pos;
      while true
        invariant Valid() && start <= pos
        invariant TickRun(src[start..]) == pos - start + TickRun(src[pos..])
        decreases |src| - pos
      {
        var c := Peek();
        if c.None? || c.value == '\n' { return; }
        ghost var here := pos;
        Advance();
        if c.value == '\\' {
          if Peek().Some? {
            Advance();
            Tail(src, here, 2);
          }
        } else if c.value == '`' {
          return;
        }
      }
    }

    method LexWordPiece() returns (r: LexResult<()>)
      requires Valid()
      modifies this
      ensures Valid() && Consumed(old(pos), WordPiece(old(Rest())), r)
    {
      var c := Peek();
      if c.None? {
      } else if c.value == '\\' {
        Advance();
        if Peek().Some? { Advance(); }
      } else if c.value == '$' {
        Advance();
        r := LexDollar();
        return;
      } else if c.value == '`' {
        Advance();
        LexBackticks();
      } else if IsWordChar(c.value) {
        Advance();
      }
      return Got(());
    }

    method LexWordAt(start: nat) returns (r: LexResult<Token>)
      requires Valid() && start == pos
      modifies this
      ensures Valid() && Reads(start, LexWord(old(Rest())), r)
    {
      hide WordPiece;
      hide WordRun;
      hide Plus;
      var more := true;
      NotPlus(WordRun(src[start..]));
      while more
        invariant Valid() && start <= pos
        invariant WordRun(src[start..]) == Plus(pos - start, if more then WordRun(src[pos..]) else Some(0))
        decreases more, |src| - pos
      {
        var here := pos;
        WordStep(src[pos..]);
        PlusOf(pos - start, 0);
        var piece := LexWordPiece();
        if piece.Failed? { return Failed(piece.error); }
        Tail(src, here, pos - here);
        PlusTwice(here - start, pos - here, WordRun(src[pos..]));
        more := pos != here;
      }
      PlusOf(pos - start, 0);
      assert src[start..][..pos - start] == src[start..pos];
      return Got(Token(TWord(src[start..pos]), start, pos - start));
    }

    /** The method's token is the function's, moved to where it was read. */
    ghost predicate Reads(start: nat, l: Lexed, r: LexResult<Token>)
      reads this
    {
      match l
      case Tok(k, a, b) => a <= b && r == Got(Token(k, start + a, b - a)) && pos == start + b
      case LexErr(e) => r == Failed(e)
    }

    method LexQuotedDelimiter(quote: char) returns (r: LexResult<(string, bool)>)
      requires Valid() && quote != '\n' && Rest() != ""
      modifies this
      ensures Valid()
      ensures match QuotedDelimiter(old(Rest())[1..], quote)
              case Delimiter(name, quoted, len) => r == Got((name, quoted)) && pos == old(pos) + len
              case BadDelimiter(e) => r == Failed(e)
    {
      hide Before;
      Advance();
      var textStart := pos;
      ghost var t := Rest();
      while Peek().Some? && Peek() != Some('\n') && Peek() != Some(quote)
        invariant Valid() && textStart <= pos
        invariant forall i :: 0 <= i < pos - textStart ==> t[i] != '\n' && t[i] != quote
        decreases |src| - pos
      {
        Advance();
      }
      ghost var n := pos - textStart;
      if Peek() != Some(quote) {
        assert n < Before(t, quote) ==> t[n] == '\n' && t[n] in t[..Before(t, quote)];
        return Failed(UnterminatedHeredocQuote);
      }
      BeforeIs(t, quote, n);
      assert t[..n] == src[textStart..pos];
      r := Got((src[textStart..pos], true));
      Advance();
    }

    method LexHeredocDelimiter() returns (r: LexResult<(string, bool)>)
      requires Valid()
      modifies this
      ensures Valid()
      ensures match HeredocDelimiter(old(Rest()))
              case Delimiter(name, quoted, len) => r == Got((name, quoted)) && pos == old(pos) + len
              case BadDelimiter(e) => r == Failed(e)
    {
      var start := pos;
      var c := Peek();
      if c == Some('\'') || c == Some('"') {
        r := LexQuotedDelimiter(c.value);
        return;
      }
      while Peek().Some? && Peek().value !in "\n \t"
        invariant Valid() && start <= pos
        invariant DelimiterRun(src[start..]) == pos - start + DelimiterRun(src[pos..])
        decreases |src| - pos
      {
        Advance();
      }
      if pos == start { return Failed(MissingHeredocDelimiter); }
      assert src[start..][..pos - start] == src[start..pos];
      return Got((src[start..pos], false));
    }

    method SkipDigits()
      requires Valid()
      modifies this
      ensures Valid() && pos == old(pos) + DigitRun(old(Rest())) && Rest() == old(Rest())[DigitRun(old(Rest()))..]
    {
      ghost var start := pos;
      while Peek().Some? && IsDigit(Peek().value)
        invariant Valid() && start <= pos
        invariant DigitRun(src[start..]) == pos - start + DigitRun(src[pos..])
        decreases |src| - pos
      {
        Advance();
      }
      Tail(src, start, pos - start);
    }

    method LexRedirectAt(start: nat) returns (r: LexResult<Token>)
      requires Valid() && start == pos
      modifies this
      ensures Valid() && Reads(start, LexRedirect(old(Rest())), r)
    {
      hide LexWord;
      hide LessToken;
      hide GreaterToken;
      hide U32;
      hide DigitRun;
      SkipDigits();
      ghost var n := pos - start;
      assert src[start..][..n] == src[start..pos];
      var fd := U32(src[start..pos]);
      if Peek() == Some('<') {
        Tail(src, start, n + 1);
        Advance();
        r := LexLess(start, fd);
      } else if Peek() == Some('>') {
        Tail(src, start, n + 1);
        Advance();
        r := LexGreater(start, fd);
      } else {
        pos := start;
        r := LexWordAt(start);
      }
    }

    /** The rest of a token whose beginning is already behind the cursor. */
    ghost predicate Finishes(start: nat, here: nat, l: Lexed, r: LexResult<Token>)
      requires start <= here
      reads this
    {
      match l
      case Tok(k, _, end) => r == Got(Token(k, start, here + end - start)) && pos == here + end
      case LexErr(e) => r == Failed(e)
    }

    method LexLess(start: nat, fd: Option<nat>) returns (r: LexResult<Token>)
      requires Valid() && start <= pos
      modifies this
      ensures Valid() && Finishes(start, old(pos), LessToken(old(Rest()), fd), r)
    {
      var ate := Eat('<');
      if ate {
        r := LexHereDoc(start, fd);
        return;
      }
      ate := Eat('>');
      if ate { return Got(Token(TRedirect(fd, LessGreater), start, pos - start)); }
      ate := Eat('&');
      if ate { return Got(Token(TRedirect(fd, LessAmp), start, pos - start)); }
      return Got(Token(TRedirect(fd, Less), start, pos - start));
    }

    method LexGreater(start: nat, fd: Option<nat>) returns (r: LexResult<Token>)
      requires Valid() && start <= pos
      modifies this
      ensures Valid() && Finishes(start, old(pos), GreaterToken(old(Rest()), fd), r)
    {
      var ate := Eat('>');
      if ate { return Got(Token(TRedirect(fd, GreaterGreater), start, pos - start)); }
      ate := Eat('|');
      if ate { return Got(Token(TRedirect(fd, GreaterPipe), start, pos - start)); }
      ate := Eat('&');
      if ate { return Got(Token(TRedirect(fd, GreaterAmp), start, pos - start)); }
      return Got(Token(TRedirect(fd, Greater), start, pos - start));
    }

    method LexHereDoc(start: nat, fd: Option<nat>) returns (r: LexResult<Token>)
      requires Valid() && start <= pos
      modifies this
      ensures Valid() && Finishes(start, old(pos), HeredocToken(old(Rest()), fd), r)
    {
      hide HeredocDelimiter;
      hide HeredocToken;
      hide Blanks;
      ghost var here := pos;
      HeredocParts(Rest(), fd);
      var strip := Eat('-');
      SkipBlanks();
      var d := LexHeredocDelimiter();
      if d.Failed? { return Failed(d.error); }
      return Got(Token(THereDoc(fd, d.value.0, d.value.1, strip), start, pos - start));
    }

    method LexSingleQuoted(start: nat) returns (r: LexResult<Token>)
      requires Valid() && start == pos && Rest() != "" && Rest()[0] == '\''
      modifies this
      ensures Valid() && Reads(start, LexHere(old(Rest())), r)
    {
      hide LexHere;
      hide Before;
      QuoteHere(src[pos..]);
      Advance();
      var textStart := pos;
      Tail(src, start, 1);
      SkipTo('\'');
      if Peek().None? { return Failed(UnterminatedSingleQuote); }
      assert src[start..][1..pos - start] == src[textStart..pos];
      var text := src[textStart..pos];
      Advance();
      return Got(Token(TSingleQuote(text), start, pos - start));
    }

    /** One- and two-character operators, quotes and words. */
    method LexHereAt(start: nat) returns (r: LexResult<Token>)
      requires Valid() && start == pos && Rest() != "" && Rest()[0] !in " \t#"
      modifies this
      ensures Valid() && Reads(start, LexHere(old(Rest())), r)
    {
      hide LexWord;
      hide LexRedirect;
      hide IsFdRedirect;
      var c := src[pos];
      var two: bool;
      if c == '\'' {
        r := LexSingleQuoted(start);
      } else if c == ';' {
        Advance();
        two := Eat(';');
        r := Got(Token(if two then TSemiSemi else TSemi, start, pos - start));
      } else if c == '&' {
        Advance();
        two := Eat('&');
        r := Got(Token(if two then TAndAnd else TAmp, start, pos - start));
      } else if c == '|' {
        Advance();
        two := Eat('|');
        r := Got(Token(if two then TOrOr else TPipe, start, pos - start));
      } else if c in "\n(){}!\"" {
        Advance();
        r := Got(Token(Single(c), start, 1));
      } else if c == '<' || c == '>' || (IsDigit(c) && IsFdRedirect(src[pos..])) {
        r := LexRedirectAt(start);
      } else {
        r := LexWordAt(start);
      }
    }

    /** The token of a character that is a token by itself. */
    static function Single(c: char): TokenKind
      requires c in "\n(){}!\""
    {
      match c
      case '\n' => TNewline
      case '(' => TLParen
      case ')' => TRParen
      case '{' => TLBrace
      case '}' => TRBrace
      case '!' => TBang
      case _ => TDoubleQuoteOpen
    }

    method LexDqFragment(start: nat) returns (r: LexResult<Token>)
      requires Valid() && start == pos
      modifies this
      ensures Valid() && Reads(start, LexDq(old(Rest())), r)
    {
      var c := Peek();
      if c.None? { return Failed(UnterminatedDoubleQuote); }
      if c.value == '"' {
        Advance();
        return Got(Token(TDoubleQuoteClose, start, 1));
      }
      if c.value == '$' || c.value == '`' {
        r := LexWordAt(start);
        return;
      }
      while Peek().Some? && Peek().value !in "\"$`"
        invariant Valid() && start <= pos
        invariant DqRun(src[start..]) == pos - start + DqRun(src[pos..])
        decreases |src| - pos
      {
        ghost var here := pos;
        if Peek() == Some('\\') {
          Advance();
          if Peek().Some? {
            Advance();
            Tail(src, here, 2);
          }
        } else {
          Advance();
        }
      }
      assert src[start..][..pos - start] == src[start..pos];
      var text := Unescape(src[start..pos]);
      return Got(Token(TDQText(text), start, pos - start));
    }

    static method Unescape(s: string) returns (out: string)
      ensures out == UnescapeDq(s)
    {
      hide Unescaped;
      hide UnescapeDq;
      out := "";
      var i := 0;
      UnescapeStep(s);
      while i < |s|
        invariant 0 <= i <= |s|
        invariant UnescapeDq(s) == out + UnescapeDq(s[i..])
      {
        var piece := UnescapeOne(s, i);
        ghost var rest := s[i..];
        UnescapeStep(rest);
        Tail(s, i, PairLen(rest));
        PrefixLaw(out, piece, UnescapeDq(rest[PairLen(rest)..]));
        out := out + piece;
        i := i + if s[i] == '\\' && i + 1 < |s| then 2 else 1;
      }
      UnescapeStep(s[i..]);
      assert out + "" == out;
    }

    static method UnescapeOne(s: string, i: nat) returns (out: string)
      requires i < |s|
      ensures out == Unescaped(s[i..])
    {
      if s[i] != '\\' {
        out := [s[i]];
      } else if i + 1 == |s| {
        out := "\\";
      } else if s[i + 1] in "\"\\$`" {
        out := [s[i + 1]];
      } else if s[i + 1] == '\n' {
        out := "";
      } else {
        out := ['\\', s[i + 1]];
      }
    }

    /** Skips blanks and a comment. */
    method SkipGap()
      requires Valid()
      modifies this
      ensures Valid() && pos == old(pos) + Skipped(old(Rest())) && Rest() == old(Rest())[Skipped(old(Rest()))..]
    {
      hide Before;
      hide Blanks;
      ghost var start := pos;
      SkipBlanks();
      if Peek() == Some('#') {
        SkipTo('\n');
        Tail(src, start, pos - start);
      }
    }

    method NextToken(dq: bool) returns (r: LexResult<Token>)
      requires Valid()
      modifies this
      ensures Valid() && Reads(old(pos), Lex(old(Rest()), dq), r)
    {
      hide LexHere;
      hide LexDq;
      hide Skipped;
      if dq {
        r := LexDqFragment(pos);
        return;
      }
      SkipGap();
      if Peek().None? { return Got(Token(TEof, pos, 0)); }
      r := LexHereAt(pos);
    }

    // -------------------------------------------------------------- heredoc bodies

    /** A line, and whether a newline ended it. */
    method ReadLine() returns (line: string, hadNewline: bool)
      requires Valid()
      modifies this
      ensures Valid()
      ensures var n := Before(old(Rest()), '\n');
              var next := if n < |old(Rest())| then n + 1 else n;
              && line == old(Rest())[..n] && hadNewline == (n < |old(Rest())|)
              && pos == old(pos) + next && Rest() == old(Rest())[next..]
              && old(Rest())[..next] == line + (if hadNewline then "\n" else "")
    {
      hide Before;
      var start := pos;
      SkipTo('\n');
      assert src[start..][..pos - start] == src[start..pos];
      line := src[start..pos];
      hadNewline := Eat('\n');
      Tail(src, start, pos - start);
    }

    method CollectOneBody(p: Pending) returns (r: LexResult<string>)
      requires Valid()
      modifies this
      ensures Valid()
      ensures match OneBody(old(Rest()), p)
              case Bodies(bs, len) => r == Got(bs[0]) && pos == old(pos) + len
              case BadBodies(e) => r == Failed(e)
    {
      hide OneBody;
      hide Before;
      hide IsDelimiterLine;
      hide Behind;
      ghost var start := pos;
      var body := "";
      BehindNothing(OneBody(src[start..], p));
      while true
        invariant Valid() && start <= pos
        invariant OneBody(src[start..], p) == Behind(body, pos - start, OneBody(src[pos..], p))
        decreases |src| - pos
      {
        ghost var lineStart := pos;
        OneBodyStep(src[pos..], p);
        var line, hadNewline := ReadLine();
        BehindEnd(body, lineStart - start, pos - lineStart, UnterminatedHeredoc(p.delimiter));
        if IsDelimiterLine(line, p) { return Got(body); }
        if pos >= |src| { return Failed(UnterminatedHeredoc(p.delimiter)); }
        BehindTwice(body, lineStart - start, line + "\n", pos - lineStart, OneBody(src[pos..], p));
        PrefixLaw(body, line, "\n");
        body := body + line + (if hadNewline then "\n" else "");
      }
    }

    method CollectHeredocBodies(ps: seq<Pending>) returns (r: LexResult<seq<string>>)
      requires Valid()
      modifies this
      ensures Valid()
      ensures match AllBodies(old(Rest()), ps)
              case Bodies(bs, len) => r == Got(bs) && pos == old(pos) + len
              case BadBodies(e) => r == Failed(e)
    {
      hide AllBodies;
      hide OneBody;
      ghost var start := pos;
      var bodies: seq<string> := [];
      var i := 0;
      FollowingNothing(AllBodies(src[start..], ps));
      assert ps[0..] == ps;
      while i < |ps|
        invariant 0 <= i <= |ps| && Valid() && start <= pos
        invariant AllBodies(src[start..], ps) == Following(bodies, pos - start, AllBodies(src[pos..], ps[i..]))
      {
        ghost var here := pos;
        AllBodiesStep(src[pos..], ps[i..]);
        assert ps[i..][1..] == ps[i + 1..];
        var body := CollectOneBody(ps[i]);
        if body.Failed? { return Failed(body.error); }
        Tail(src, here, pos - here);
        ghost var one := OneBody(src[here..], ps[i]);
        assert one.bodies == [body.value];
        FollowingTwice(bodies, here - start, [body.value], pos - here, AllBodies(src[pos..], ps[i + 1..]));
        bodies := bodies + [body.value];
        i := i + 1;
      }
      AllBodiesStep(src[pos..], ps[i..]);
      assert bodies + [] == bodies;
      return Got(bodies);
    }
  }

  lemma {:induction false} OneBodyStep(s: string, p: Pending)
    ensures var n := Before(s, '\n');
            var next := if n < |s| then n + 1 else n;
            OneBody(s, p) ==
            if IsDelimiterLine(s[..n], p) then Bodies([""], next)
            else if next == |s| then BadBodies(UnterminatedHeredoc(p.delimiter))
            else Behind(s[..next], next, OneBody(s[next..], p))
  {
  }

  lemma BehindNothing(rest: Bodies)
    requires rest.Bodies? ==> |rest.bodies| == 1
    ensures Behind("", 0, rest) == rest
  {
    if rest.Bodies? {
      assert "" + rest.bodies[0] == rest.bodies[0];
      assert rest.bodies == [rest.bodies[0]];
    }
  }

  lemma {:induction false} AllBodiesStep(s: string, ps: seq<Pending>)
    ensures AllBodies(s, ps) ==
            if ps == [] then Bodies([], 0)
            else
              var one := OneBody(s, ps[0]);
              if one.BadBodies? then BadBodies(one.error) else Following(one.bodies, one.len, AllBodies(s[one.len..], ps[1..]))
  {
  }

  lemma FollowingNothing(rest: Bodies)
    ensures Following([], 0, rest) == rest
  {
    if rest.Bodies? { assert [] + rest.bodies == rest.bodies; }
  }

  /** One round of the word lexer. */
  lemma WordStep(s: string)
    ensures var k := WordPiece(s);
            WordRun(s) == if k.None? then None else if k.value == 0 then Some(0) else Plus(k.value, WordRun(s[k.value..]))
  {
    hide WordPiece;
  }

  lemma NotPlus(r: Option<nat>)
    ensures Plus(0, r) == r
  {
  }

  /** A heredoc operator is a dash, blanks and a delimiter. */
  lemma {:induction false} HeredocParts(s: string, fd: Option<nat>)
    ensures var strip := s != "" && s[0] == '-';
            var t := if strip then s[1..] else s;
            var d := HeredocDelimiter(t[Blanks(t)..]);
            HeredocToken(s, fd) ==
            if d.Delimiter? then Tok(THereDoc(fd, d.name, d.quoted, strip), 0, (if strip then 1 else 0) + Blanks(t) + d.len)
            else LexErr(d.error)
  {
    hide HeredocDelimiter;
    hide Blanks;
    var strip := s != "" && s[0] == '-';
    if strip {
      Tail(s, 1, Blanks(s[1..]));
    } else {
      assert s[0..] == s;
    }
  }

  lemma QuoteHere(s: string)
    requires s != "" && s[0] == '\''
    ensures var n := Before(s[1..], '\'');
            LexHere(s) ==
            if n == |s| - 1 then LexErr(UnterminatedSingleQuote) else Tok(TSingleQuote(s[1..n + 1]), 0, n + 2)
  {
    hide Before;
  }

  lemma UnescapeStep(s: string)
    ensures UnescapeDq(s) == if s == "" then "" else Unescaped(s) + UnescapeDq(s[PairLen(s)..])
    ensures s[0..] == s && "" + UnescapeDq(s) == UnescapeDq(s)
  {
    hide Unescaped;
  }

  lemma PlusOf(m: nat, n: nat)
    ensures Plus(m, Some(n)) == Some(m + n) && Plus(m, None) == None
  {
  }

  lemma PlusTwice(m: nat, n: nat, r: Option<nat>)
    ensures Plus(m, Plus(n, r)) == Plus(m + n, r)
  {
  }

  /** The length through the next single quote, or to the end. */
  function Through(s: string): (n: nat)
    ensures n <= |s|
  {
    var q := Before(s, '\'');
    if q < |s| then q + 1 else q
  }

  /** One round of the balanced scanner. */
  lemma BalancedStep(s: string, open: char, close: char, depth: nat)
    ensures var r := BalancedRun(s, open, close, depth);
            if s == "" then r == None
            else if s[0] == '\'' then
              r == Plus(1 + Through(s[1..]), BalancedRun(s[1..][Through(s[1..])..], open, close, depth))
            else if s[0] == open then r == Plus(1, BalancedRun(s[1..], open, close, depth + 1))
            else if s[0] == close then
              r == if depth <= 1 then Some(1) else Plus(1, BalancedRun(s[1..], open, close, depth - 1))
            else r == Plus(1, BalancedRun(s[1..], open, close, depth))
  {
    hide Before;
    if s != "" && s[0] == '\'' { Tail(s, 1, Through(s[1..])); }
  }

  /** The outcome for a text of which `len` characters, contributing `body`, are already read. */
  function Behind(body: string, len: nat, rest: Bodies): Bodies {
    match rest
    case Bodies(bs, k) => if |bs| == 1 then Bodies([body + bs[0]], len + k) else rest
    case BadBodies(e) => rest
  }

  lemma PrefixLaw(a: string, b: string, c: string)
    ensures a + (b + c) == a + b + c
  {
  }

  lemma BehindEnd(body: string, len: nat, k: nat, e: SyntaxError)
    ensures Behind(body, len, Bodies([""], k)) == Bodies([body], len + k)
    ensures Behind(body, len, BadBodies(e)) == BadBodies(e)
  {
    assert body + "" == body;
  }

  lemma BehindTwice(a: string, m: nat, b: string, n: nat, rest: Bodies)
    requires rest.Bodies? ==> |rest.bodies| == 1
    ensures Behind(a, m, Behind(b, n, rest)) == Behind(a + b, m + n, rest)
  {
    if rest.Bodies? { assert a + (b + rest.bodies[0]) == a + b + rest.bodies[0]; }
  }

  function Following(bodies: seq<string>, len: nat, rest: Bodies): Bodies {
    match rest
    case Bodies(bs, k) => Bodies(bodies + bs, len + k)
    case BadBodies(e) => rest
  }

  lemma FollowingTwice(a: seq<string>, m: nat, b: seq<string>, n: nat, rest: Bodies)
    ensures Following(a, m, Following(b, n, rest)) == Following(a + b, m + n, rest)
  {
    if rest.Bodies? { assert a + (b + rest.bodies) == a + b + rest.bodies; }
  }
}
