/** What the lexer answers, as functions of the text that is still to be read. */
module LexSpec {
  import opened Ast
  import opened Decimal

  datatype RedirectOp = Less | Greater | GreaterGreater | LessGreater | GreaterPipe | GreaterAmp | LessAmp

  datatype TokenKind =
    | TWord(text: string)
    | TSingleQuote(text: string)
    | TDoubleQuoteOpen
    | TDoubleQuoteClose
    | TDQText(text: string)
    | TPipe
    | TOrOr
    | TAndAnd
    | TAmp
    | TSemi
    | TSemiSemi
    | TLParen
    | TRParen
    | TLBrace
    | TRBrace
    | TBang
    | TNewline
    | TRedirect(fd: Option<nat>, op: RedirectOp)
    | THereDoc(fd: Option<nat>, delimiter: string, quoted: bool, stripTabs: bool)
    | TEof

  datatype SyntaxError =
    | UnterminatedSingleQuote
    | UnterminatedDoubleQuote
    | UnterminatedSubstitution
    | UnterminatedHeredocQuote
    | MissingHeredocDelimiter
    | UnterminatedHeredoc(delimiter: string)
    | UnsupportedKeyword(word: string)
    | UnsupportedFunction
    | OnlySimpleStages
    | UnclosedSubshell
    | ExpectedRParen
    | UnclosedGroup
    | ExpectedRBrace
    | UnexpectedToken(kind: TokenKind)
    | UnmatchedClose(close: string)
    | UnclosedBraceVariable
    | EmptyBraceVariable
    | UnterminatedBacktick

  /** A token occupies `[start, end)` of the text it was read from. */
  datatype Lexed = Tok(kind: TokenKind, start: nat, end: nat) | LexErr(error: SyntaxError)

  function Shift(l: Lexed, n: nat): Lexed {
    match l
    case Tok(k, a, b) => Tok(k, n + a, n + b)
    case LexErr(e) => LexErr(e)
  }

  // ---------------------------------------------------------------- character classes

  predicate IsAlpha(c: char) {
    'a' <= c <= 'z' || 'A' <= c <= 'Z'
  }

  predicate IsAlnum(c: char) {
    IsAlpha(c) || IsDigit(c)
  }

  predicate IsNameChar(c: char) {
    IsAlnum(c) || c == '_'
  }

  predicate IsWordChar(c: char) {
    c !in " \t\n|&;(){}<>\"'"
  }

  predicate IsSpecialVarChar(c: char) {
    c in "@*#?$!"
  }

  // ---------------------------------------------------------------- runs

  /** How many leading characters are blanks. */
  function Blanks(s: string): (n: nat)
    ensures n <= |s| && (n < |s| ==> s[n] != ' ' && s[n] != '\t')
  {
    if s != "" && (s[0] == ' ' || s[0] == '\t') then 1 + Blanks(s[1..]) else 0
  }

  /** How many characters stand before the first occurrence of `c`, or before the end. */
  function Before(s: string, c: char): (n: nat)
    ensures n <= |s| && c !in s[..n] && (n < |s| ==> s[n] == c)
  {
    if s == "" || s[0] == c then 0 else 1 + Before(s[1..], c)
  }

  function NameRun(s: string): (n: nat)
    ensures n <= |s| && (n < |s| ==> !IsNameChar(s[n]))
    ensures forall i :: 0 <= i < n ==> IsNameChar(s[i])
  {
    if s != "" && IsNameChar(s[0]) then 1 + NameRun(s[1..]) else 0
  }

  function Plus(n: nat, r: Option<nat>): Option<nat> {
    if r.Some? then Some(n + r.value) else None
  }

  /** The length through the delimiter that closes `depth` open ones. A single quote starts raw text
      that runs to the next single quote. */
  function BalancedRun(s: string, open: char, close: char, depth: nat): (r: Option<nat>)
    ensures r.Some? ==> r.value <= |s|
    decreases |s|
  {
    if s == "" then None
    else if s[0] == '\'' then
      var q := 1 + Before(s[1..], '\'');
      var n := if q < |s| then q + 1 else q;
      Plus(n, BalancedRun(s[n..], open, close, depth))
    else if s[0] == open then Plus(1, BalancedRun(s[1..], open, close, depth + 1))
    else if s[0] == close then
      if depth <= 1 then Some(1) else Plus(1, BalancedRun(s[1..], open, close, depth - 1))
    else Plus(1, BalancedRun(s[1..], open, close, depth))
  }

  /** The length of the expansion behind a `$`. */
  function DollarRun(s: string): (r: Option<nat>)
    ensures r.Some? ==> r.value <= |s|
  {
    if s == "" then Some(0)
    else if s[0] == '{' then Plus(1, BalancedRun(s[1..], '{', '}', 1))
    else if s[0] == '(' then
      if |s| > 1 && s[1] == '(' then Plus(2, BalancedRun(s[2..], '(', ')', 2))
      else Plus(1, BalancedRun(s[1..], '(', ')', 1))
    else if IsNameChar(s[0]) || IsSpecialVarChar(s[0]) then
      Some(1 + if IsAlpha(s[0]) || s[0] == '_' then NameRun(s[1..]) else 0)
    else Some(0)
  }

  /** The length behind an opening backtick, through the closing one if the line has one. */
  function TickRun(s: string): (n: nat)
    ensures n <= |s|
    decreases |s|
  {
    if s == "" || s[0] == '\n' then 0
    else if s[0] == '`' then 1
    else if s[0] == '\\' && |s| > 1 then 2 + TickRun(s[2..])
    else 1 + TickRun(s[1..])
  }

  /** The length of the next piece of an unquoted word: an escape, a whole expansion or one
      character; 0 where the word ends. */
  function WordPiece(s: string): (r: Option<nat>)
    ensures r.Some? ==> r.value <= |s|
  {
    if s == "" then Some(0)
    else if s[0] == '\\' then Some(if |s| == 1 then 1 else 2)
    else if s[0] == '$' then Plus(1, DollarRun(s[1..]))
    else if s[0] == '`' then Some(1 + TickRun(s[1..]))
    else Some(if IsWordChar(s[0]) then 1 else 0)
  }

  /** The length of an unquoted word, whole expansions included. */
  function WordRun(s: string): (r: Option<nat>)
    ensures r.Some? ==> r.value <= |s|
    decreases |s|
  {
    match WordPiece(s)
    case None => None
    case Some(k) => if k == 0 then Some(0) else Plus(k, WordRun(s[k..]))
  }

  /** The length of literal text inside double quotes. */
  function DqRun(s: string): (n: nat)
    ensures n <= |s|
    decreases |s|
  {
    if s == "" || s[0] in "\"$`" then 0
    else if s[0] == '\\' && |s| > 1 then 2 + DqRun(s[2..])
    else 1 + DqRun(s[1..])
  }

  /** A backslash and what it quotes, or one character. */
  function PairLen(s: string): (n: nat)
    requires s != ""
    ensures n <= |s|
  {
    if s[0] == '\\' && |s| > 1 then 2 else 1
  }

  /** What the first pair or character of literal text stands for inside double quotes. */
  function Unescaped(s: string): string
    requires s != ""
  {
    if s[0] != '\\' then [s[0]]
    else if |s| == 1 then "\\"
    else if s[1] in "\"\\$`" then [s[1]]
    else if s[1] == '\n' then ""
    else ['\\', s[1]]
  }

  function UnescapeDq(s: string): string
    decreases |s|
  {
    if s == "" then "" else Unescaped(s) + UnescapeDq(s[PairLen(s)..])
  }

  // ---------------------------------------------------------------- tokens

  function LexWord(s: string): (r: Lexed)
    ensures r.Tok? ==> r.kind.TWord? && r.start == 0 && r.end <= |s| && |r.kind.text| == r.end
  {
    match WordRun(s)
    case None => LexErr(UnterminatedSubstitution)
    case Some(n) => Tok(TWord(s[..n]), 0, n)
  }

  function U32(digits: string): Option<nat>
    requires AllDigits(digits)
  {
    if digits != "" && Value(digits) < 0x1_0000_0000 then Some(Value(digits)) else None
  }

  predicate IsFdRedirect(s: string) {
    var n := DigitRun(s);
    n > 0 && n < |s| && (s[n] == '<' || s[n] == '>')
  }

  /** A heredoc delimiter: the name, whether it was quoted, and how much text it took. */
  datatype Delimiter = Delimiter(name: string, quoted: bool, len: nat) | BadDelimiter(error: SyntaxError)

  function QuotedDelimiter(s: string, quote: char): Delimiter {
    var n := Before(s, quote);
    if n == |s| || '\n' in s[..n] then BadDelimiter(UnterminatedHeredocQuote)
    else Delimiter(s[..n], true, n + 2)
  }

  function DelimiterRun(s: string): (n: nat)
    ensures n <= |s| && (n < |s| ==> s[n] in "\n \t")
    ensures forall i :: 0 <= i < n ==> s[i] !in "\n \t"
  {
    if s == "" || s[0] in "\n \t" then 0 else 1 + DelimiterRun(s[1..])
  }

  function HeredocDelimiter(s: string): (d: Delimiter)
    ensures d.Delimiter? ==> 0 < d.len <= |s|
  {
    if s != "" && (s[0] == '\'' || s[0] == '"') then QuotedDelimiter(s[1..], s[0])
    else
      var n := DelimiterRun(s);
      if n == 0 then BadDelimiter(MissingHeredocDelimiter) else Delimiter(s[..n], false, n)
  }

  function HeredocToken(s: string, fd: Option<nat>): (r: Lexed)
    ensures r.Tok? ==> r.start == 0 < r.end <= |s|
  {
    var strip := s != "" && s[0] == '-';
    var a := if strip then 1 else 0;
    var b := a + Blanks(s[a..]);
    match HeredocDelimiter(s[b..])
    case Delimiter(name, quoted, len) => Tok(THereDoc(fd, name, quoted, strip), 0, b + len)
    case BadDelimiter(e) => LexErr(e)
  }

  /** The part of an input redirection behind its `<`. */
  function LessToken(s: string, fd: Option<nat>): (r: Lexed)
    ensures r.Tok? ==> r.start == 0 && r.end <= |s|
  {
    if s != "" && s[0] == '<' then
      match HeredocToken(s[1..], fd)
      case Tok(k, _, end) => Tok(k, 0, 1 + end)
      case LexErr(e) => LexErr(e)
    else if s != "" && s[0] == '>' then Tok(TRedirect(fd, LessGreater), 0, 1)
    else if s != "" && s[0] == '&' then Tok(TRedirect(fd, LessAmp), 0, 1)
    else Tok(TRedirect(fd, Less), 0, 0)
  }

  /** The part of an output redirection behind its `>`. */
  function GreaterToken(s: string, fd: Option<nat>): (r: Lexed)
    ensures r.Tok? ==> r.start == 0 && r.end <= |s|
  {
    if s != "" && s[0] == '>' then Tok(TRedirect(fd, GreaterGreater), 0, 1)
    else if s != "" && s[0] == '|' then Tok(TRedirect(fd, GreaterPipe), 0, 1)
    else if s != "" && s[0] == '&' then Tok(TRedirect(fd, GreaterAmp), 0, 1)
    else Tok(TRedirect(fd, Greater), 0, 0)
  }

  function Widen(l: Lexed, n: nat): Lexed {
    match l
    case Tok(k, a, b) => Tok(k, a, n + b)
    case LexErr(e) => LexErr(e)
  }

  /** A redirection operator, with the digits in front of it as its descriptor. */
  function LexRedirect(s: string): (r: Lexed)
    ensures r.Tok? ==> r.start == 0 && r.end <= |s|
    ensures r.Tok? && r.kind.TWord? ==> |r.kind.text| <= |s|
  {
    var n := DigitRun(s);
    var fd := U32(s[..n]);
    if n < |s| && s[n] == '<' then Widen(LessToken(s[n + 1..], fd), n + 1)
    else if n < |s| && s[n] == '>' then Widen(GreaterToken(s[n + 1..], fd), n + 1)
    else LexWord(s)
  }

  function LexDq(s: string): (r: Lexed)
    ensures r.Tok? ==> r.start == 0 < r.end <= |s|
    ensures r.Tok? && r.kind.TWord? ==> |r.kind.text| <= |s|
  {
    if s == "" then LexErr(UnterminatedDoubleQuote)
    else if s[0] == '"' then Tok(TDoubleQuoteClose, 0, 1)
    else if s[0] == '$' || s[0] == '`' then LexWord(s)
    else Tok(TDQText(UnescapeDq(s[..DqRun(s)])), 0, DqRun(s))
  }

  /** One or two characters, the two-character operator winning. */
  function Operator(s: string, c: char, two: TokenKind, one: TokenKind): Lexed
    requires s != ""
  {
    if |s| > 1 && s[1] == c then Tok(two, 0, 2) else Tok(one, 0, 1)
  }

  /** A token at the very start of a text that does not begin with a blank or a comment. */
  function LexHere(s: string): (r: Lexed)
    requires s != "" && s[0] !in " \t#"
    ensures r.Tok? ==> r.start == 0 < r.end <= |s| && !r.kind.TEof?
    ensures r.Tok? && r.kind.TWord? ==> |r.kind.text| <= |s|
  {
    match s[0]
    case '\n' => Tok(TNewline, 0, 1)
    case ';' => Operator(s, ';', TSemiSemi, TSemi)
    case '&' => Operator(s, '&', TAndAnd, TAmp)
    case '|' => Operator(s, '|', TOrOr, TPipe)
    case '(' => Tok(TLParen, 0, 1)
    case ')' => Tok(TRParen, 0, 1)
    case '{' => Tok(TLBrace, 0, 1)
    case '}' => Tok(TRBrace, 0, 1)
    case '!' => Tok(TBang, 0, 1)
    case '"' => Tok(TDoubleQuoteOpen, 0, 1)
    case '\'' =>
      var n := Before(s[1..], '\'');
      if n == |s| - 1 then LexErr(UnterminatedSingleQuote) else Tok(TSingleQuote(s[1..n + 1]), 0, n + 2)
    case '<' => LexRedirect(s)
    case '>' => LexRedirect(s)
    case _ => if IsDigit(s[0]) && IsFdRedirect(s) then LexRedirect(s) else LexWord(s)
  }

  /** How much stands before the next token: blanks, and a comment up to the end of its line. */
  function Skipped(s: string): (n: nat)
    ensures n <= |s| && (n < |s| ==> s[n] !in " \t#")
  {
    var a := Blanks(s);
    if a < |s| && s[a] == '#' then a + Before(s[a..], '\n') else a
  }

  /** The next token outside (`dq` false) or inside double quotes. */
  function Lex(s: string, dq: bool): (r: Lexed)
    ensures r.Tok? ==> r.start <= r.end <= |s|
    ensures r.Tok? && !r.kind.TEof? ==> r.start < r.end
    ensures r.Tok? && r.kind.TEof? ==> !dq && r.end == |s|
    ensures r.Tok? && r.kind.TWord? ==> |r.kind.text| <= |s|
  {
    if dq then LexDq(s)
    else
      var b := Skipped(s);
      if b == |s| then Tok(TEof, b, b) else Shift(LexHere(s[b..]), b)
  }

  // ---------------------------------------------------------------- heredoc bodies

  datatype Pending = Pending(delimiter: string, quoted: bool, stripTabs: bool)

  function StripTabs(s: string): string {
    if s != "" && s[0] == '\t' then StripTabs(s[1..]) else s
  }

  datatype Bodies = Bodies(bodies: seq<string>, len: nat) | BadBodies(error: SyntaxError)

  predicate IsDelimiterLine(line: string, p: Pending) {
    (if p.stripTabs then StripTabs(line) else line) == p.delimiter
  }

  /** One body: the verbatim lines up to the delimiter line, and the length through that line. */
  function OneBody(s: string, p: Pending): (r: Bodies)
    ensures r.Bodies? ==> |r.bodies| == 1 && r.len <= |s|
    decreases |s|
  {
    var n := Before(s, '\n');
    var next := if n < |s| then n + 1 else n;
    if IsDelimiterLine(s[..n], p) then Bodies([""], next)
    else if next == |s| then BadBodies(UnterminatedHeredoc(p.delimiter))
    else
      match OneBody(s[next..], p)
      case BadBodies(e) => BadBodies(e)
      case Bodies(bs, len) => Bodies([s[..next] + bs[0]], next + len)
  }

  /** The bodies of several pending heredocs, one after the other. */
  function AllBodies(s: string, ps: seq<Pending>): (r: Bodies)
    ensures r.Bodies? ==> |r.bodies| == |ps| && r.len <= |s|
    decreases |ps|
  {
    if ps == [] then Bodies([], 0)
    else
      match OneBody(s, ps[0])
      case BadBodies(e) => BadBodies(e)
      case Bodies(b, len) =>
        match AllBodies(s[len..], ps[1..])
        case BadBodies(e) => BadBodies(e)
        case Bodies(bs, rest) => Bodies(b + bs, len + rest)
  }
}
