/** What the parser answers, as functions of the text still to be read, the heredocs announced on
    the current line, and the thread's queue of collected heredoc bodies. No token is ever peeked:
    looking ahead is reading the same text twice.

    Every function here terminates because the text gets shorter: a nested substitution is parsed
    from a strictly shorter string, and filling heredoc bodies happens with the queue borrowed. */
module ParseSpec {
  import opened Ast
  import opened Decimal
  import opened LexSpec

  datatype QueueItem = QueueItem(quoted: bool, body: string)

  /** The thread-local queue of collected bodies. While it is borrowed, touching it again aborts. */
  datatype Cell = Free(items: seq<QueueItem>) | Borrowed

  datatype Why = Syntax(error: SyntaxError) | Aborted

  /** A value with the state behind it, or a syntax error or an abort with the queue it leaves. */
  datatype Res<+T, +S> = Good(value: T, st: S) | Bad(why: Why, queue: Cell) {
    predicate IsFailure() { Bad? }

    function PropagateFailure<U, V>(): Res<U, V>
      requires Bad?
    {
      Bad(why, queue)
    }

    function Extract(): (T, S)
      requires Good?
    {
      (value, st)
    }
  }

  datatype PS = PS(rest: string, pend: seq<Pending>, cell: Cell)

  function Rank(c: Cell): nat {
    if c.Free? then 1 else 0
  }

  /** The state moved on, or stayed where it was; the queue did not change hands. */
  predicate Kept(ps: PS, st: PS) {
    (|st.rest| < |ps.rest| || st.rest == ps.rest) && st.cell.Free? == ps.cell.Free?
  }

  predicate Moved(ps: PS, st: PS) {
    |st.rest| < |ps.rest| && st.cell.Free? == ps.cell.Free?
  }

  predicate SameHands(c: Cell, d: Cell) {
    c.Free? == d.Free?
  }

  // ---------------------------------------------------------------- tokens

  function Peek(ps: PS): (r: Res<TokenKind, PS>)
    ensures r.Good? ==> r.st == ps && Lex(ps.rest, false).Tok? && r.value == Lex(ps.rest, false).kind
    ensures r.Bad? ==> SameHands(ps.cell, r.queue)
  {
    match Lex(ps.rest, false)
    case Tok(k, _, _) => Good(k, ps)
    case LexErr(e) => Bad(Syntax(e), ps.cell)
  }

  /** The state behind the token that `Peek` sees. */
  function After(ps: PS): (st: PS)
    requires Lex(ps.rest, false).Tok?
    ensures Kept(ps, st) && (!Lex(ps.rest, false).kind.TEof? ==> Moved(ps, st))
  {
    ps.(rest := ps.rest[Lex(ps.rest, false).end..])
  }

  /** The next fragment inside double quotes. */
  function NextDq(ps: PS): (r: Res<TokenKind, PS>)
    ensures r.Good? ==> Moved(ps, r.st) && (r.value.TWord? ==> |r.value.text| <= |ps.rest|)
    ensures r.Bad? ==> SameHands(ps.cell, r.queue)
  {
    match Lex(ps.rest, true)
    case Tok(k, _, end) => Good(k, ps.(rest := ps.rest[end..]))
    case LexErr(e) => Bad(Syntax(e), ps.cell)
  }

  function Flush(ps: PS): (r: Res<(), PS>)
    ensures r.Good? ==> Kept(ps, r.st)
    ensures r.Bad? ==> SameHands(ps.cell, r.queue)
  {
    if ps.pend == [] then Good((), ps)
    else
      match AllBodies(ps.rest, ps.pend)
      case BadBodies(e) => Bad(Syntax(e), ps.cell)
      case Bodies(bodies, len) =>
        match ps.cell
        case Borrowed => Bad(Aborted, Borrowed)
        case Free(items) => Good((), PS(ps.rest[len..], [], Free(items + Queued(ps.pend, bodies))))
  }

  function Queued(pend: seq<Pending>, bodies: seq<string>): seq<QueueItem>
    requires |pend| == |bodies|
  {
    seq(|pend|, i requires 0 <= i < |pend| => QueueItem(pend[i].quoted, bodies[i]))
  }

  predicate HeadIs(s: string, k: TokenKind) {
    Lex(s, false).Tok? && Lex(s, false).kind == k
  }

  function SkipNewlines(ps: PS): (r: Res<(), PS>)
    ensures r.Good? ==> Kept(ps, r.st) && !HeadIs(r.st.rest, TNewline)
    ensures r.Bad? ==> SameHands(ps.cell, r.queue)
    decreases |ps.rest|
  {
    var (k, p0) :- Peek(ps);
    if k.TNewline? then
      var p1 := After(p0);
      var (_, p2) :- Flush(p1);
      SkipNewlines(p2)
    else Good((), ps)
  }

  /** Tokens at which a simple command ends. */
  predicate IsStop(k: TokenKind) {
    k in {TEof, TNewline, TSemi, TAmp, TAndAnd, TOrOr, TPipe, TRParen, TRBrace}
  }

  predicate IsScriptEnd(k: TokenKind) {
    k in {TEof, TRParen, TRBrace}
  }

  predicate HeadStops(s: string) {
    Lex(s, false).Tok? && IsStop(Lex(s, false).kind)
  }

  /** A command either reads something, or stands in front of a token that ends commands. */
  predicate MovedOrStopped(ps: PS, st: PS) {
    Moved(ps, st) || (st.rest == ps.rest && SameHands(st.cell, ps.cell) && HeadStops(ps.rest))
  }

  // ---------------------------------------------------------------- the grammar

  function Parse(s: string, cell: Cell): (r: Res<seq<Command>, Cell>)
    ensures r.Good? ==> r.st == Free([]) && cell.Free?
    ensures r.Bad? ==> SameHands(cell, r.queue)
    decreases Rank(cell), |s|, 30
  {
    var (script, ps) :- ParseScript(PS(s, [], cell));
    match ps.cell
    case Borrowed => Bad(Aborted, Borrowed)
    case Free(items) =>
      match FillScript(script, items)
      case Bad(w, _) => Bad(w, Free([]))
      case Good(filled, _) => Good(filled, Free([]))
  }

  function ParseScript(ps: PS): (r: Res<seq<Command>, PS>)
    ensures r.Good? ==> Kept(ps, r.st)
    ensures r.Bad? ==> SameHands(ps.cell, r.queue)
    decreases Rank(ps.cell), |ps.rest|, 29
  {
    var (_, p0) :- SkipNewlines(ps);
    ScriptLoop(p0)
  }

  function ScriptLoop(ps: PS): (r: Res<seq<Command>, PS>)
    requires !HeadIs(ps.rest, TNewline)
    ensures r.Good? ==> Kept(ps, r.st)
    ensures r.Bad? ==> SameHands(ps.cell, r.queue)
    decreases Rank(ps.cell), |ps.rest|, 28
  {
    var (k, _) :- Peek(ps);
    if IsScriptEnd(k) then Good([], ps)
    else
      var (c, p1) :- ParseListItem(ps);
      var (_, p2) :- SkipSeparator(p1);
      var (_, p3) :- SkipNewlines(p2);
      var (cs, p4) :- ScriptLoop(p3);
      Good([c] + cs, p4)
  }

  function SkipSeparator(ps: PS): (r: Res<bool, PS>)
    ensures r.Good? ==> Kept(ps, r.st) && (HeadIs(ps.rest, TSemi) ==> Moved(ps, r.st))
    ensures r.Bad? ==> SameHands(ps.cell, r.queue)
  {
    var (k, _) :- Peek(ps);
    if k.TSemi? then
      var p1 := After(ps);
      Good(true, p1)
    else Good(false, ps)
  }

  predicate EndsItem(s: string) {
    Lex(s, false).Tok? && Lex(s, false).kind in {TEof, TNewline, TSemi, TRParen, TRBrace}
  }

  function ParseListItem(ps: PS): (r: Res<Command, PS>)
    ensures r.Good? ==> Moved(ps, r.st) || (Kept(ps, r.st) && r.st.rest == ps.rest && EndsItem(ps.rest))
    ensures r.Bad? ==> SameHands(ps.cell, r.queue)
    decreases Rank(ps.cell), |ps.rest|, 27
  {
    var (left, p1) :- ParsePipelineCmd(ps);
    var (c, p2) :- ListLoop(left, p1);
    var (k, _) :- Peek(p2);
    if k.TAmp? then
      var p3 := After(p2);
      Good(Background(c), p3)
    else Good(c, p2)
  }

  function ListLoop(left: Command, ps: PS): (r: Res<Command, PS>)
    ensures r.Good? ==> Moved(ps, r.st) || (Kept(ps, r.st) && r.st.rest == ps.rest && !HeadIs(ps.rest, TAndAnd) && !HeadIs(ps.rest, TOrOr))
    ensures r.Bad? ==> SameHands(ps.cell, r.queue)
    decreases Rank(ps.cell), |ps.rest|, 26
  {
    var (k, _) :- Peek(ps);
    if k.TAndAnd? || k.TOrOr? then
      var p1 := After(ps);
      var (_, p2) :- SkipNewlines(p1);
      assert Moved(ps, p2);
      var (right, p3) :- ParsePipelineCmd(p2);
      assert Moved(ps, p3);
      ListLoop(if k.TAndAnd? then And(left, right) else Or(left, right), p3)
    else Good(left, ps)
  }

  function ParsePipelineCmd(ps: PS): (r: Res<Command, PS>)
    ensures r.Good? ==> MovedOrStopped(ps, r.st)
    ensures r.Bad? ==> SameHands(ps.cell, r.queue)
    ensures r.Good? && !Moved(ps, r.st) ==> !HeadIs(ps.rest, TPipe)
    decreases Rank(ps.cell), |ps.rest|, 25
  {
    var (k, _) :- Peek(ps);
    if k.TBang? then
      var p1 := After(ps);
      ParsePipeline(p1, true)
    else ParsePipeline(ps, false)
  }

  /** A negation in front of a lone subshell or group is dropped. */
  function ParsePipeline(ps: PS, negated: bool): (r: Res<Command, PS>)
    ensures r.Good? ==> MovedOrStopped(ps, r.st)
    ensures r.Bad? ==> SameHands(ps.cell, r.queue)
    ensures r.Good? && !Moved(ps, r.st) ==> !HeadIs(ps.rest, TPipe)
    decreases Rank(ps.cell), |ps.rest|, 24
  {
    var (first, p1) :- ParseCommand(ps);
    var (k, _) :- Peek(p1);
    if !k.TPipe? then
      Good(if negated && first.Simple? then Pipe(Pipeline([first.sc], true)) else first, p1)
    else
      var (sc, _) :- ToSimple(first, p1.cell);
      var (stages, p2) :- StageLoop(p1);
      Good(Pipe(Pipeline([sc] + stages, negated)), p2)
  }

  function ToSimple(c: Command, cell: Cell): Res<SimpleCommand, ()> {
    if c.Simple? then Good(c.sc, ()) else Bad(Syntax(OnlySimpleStages), cell)
  }

  /** The stages behind the first, each with the `|` in front of it. */
  function StageLoop(ps: PS): (r: Res<seq<SimpleCommand>, PS>)
    ensures r.Good? ==> Kept(ps, r.st) && (HeadIs(ps.rest, TPipe) ==> Moved(ps, r.st))
    ensures r.Bad? ==> SameHands(ps.cell, r.queue)
    decreases Rank(ps.cell), |ps.rest|, 23
  {
    hide SkipNewlines;
    hide ParseCommand;
    hide Lex;
    var (k, _) :- Peek(ps);
    if k.TPipe? then
      var p1 := After(ps);
      var (_, p2) :- SkipNewlines(p1);
      var (c, p3) :- ParseCommand(p2);
      var (sc, _) :- ToSimple(c, p3.cell);
      var (scs, p4) :- StageLoop(p3);
      Good([sc] + scs, p4)
    else Good([], ps)
  }

  predicate IsReserved(w: string) {
    w in {"if", "for", "while", "until", "case", "select"}
  }

  function ParseCommand(ps: PS): (r: Res<Command, PS>)
    ensures r.Good? ==> MovedOrStopped(ps, r.st)
    ensures r.Bad? ==> SameHands(ps.cell, r.queue)
    decreases Rank(ps.cell), |ps.rest|, 22
  {
    var (k, _) :- Peek(ps);
    if k.TLParen? then ParseSubshell(ps)
    else if k.TLBrace? then ParseGroup(ps)
    else if k.TWord? && IsReserved(k.text) then Bad(Syntax(UnsupportedKeyword(k.text)), ps.cell)
    else
      var (sc, p1) :- SimpleLoop(ps, EmptySimple);
      Good(Simple(sc), p1)
  }

  function ParseSubshell(ps: PS): (r: Res<Command, PS>)
    requires HeadIs(ps.rest, TLParen)
    ensures r.Good? ==> Moved(ps, r.st)
    ensures r.Bad? ==> SameHands(ps.cell, r.queue)
    decreases Rank(ps.cell), |ps.rest|, 21
  {
    var p1 := After(ps);
    var (_, p2) :- SkipNewlines(p1);
    var (body, p3) :- ParseScript(p2);
    var (k, _) :- Peek(p3);
    if k.TRParen? then
      var p4 := After(p3);
      Good(Subshell(body), p4)
    else Bad(Syntax(if k.TEof? then UnclosedSubshell else ExpectedRParen), p3.cell)
  }

  function ParseGroup(ps: PS): (r: Res<Command, PS>)
    requires HeadIs(ps.rest, TLBrace)
    ensures r.Good? ==> Moved(ps, r.st)
    ensures r.Bad? ==> SameHands(ps.cell, r.queue)
    decreases Rank(ps.cell), |ps.rest|, 21
  {
    hide SkipNewlines;
    hide ParseScript;
    hide EndGroup;
    hide Lex;
    var p1 := After(ps);
    var (_, p2) :- SkipNewlines(p1);
    var (body, p3) :- ParseScript(p2);
    EndGroup(body, p3)
  }

  /** What may stand between the last command of a group and its brace. */
  function EndGroup(body: seq<Command>, ps: PS): (r: Res<Command, PS>)
    ensures r.Good? ==> Moved(ps, r.st)
    ensures r.Bad? ==> SameHands(ps.cell, r.queue)
  {
    hide SkipNewlines;
    hide SkipSeparator;
    hide Lex;
    var (_, p1) :- SkipSeparator(ps);
    var (_, p2) :- SkipNewlines(p1);
    var (k, _) :- Peek(p2);
    if k.TRBrace? then
      var p3 := After(p2);
      Good(Group(body), p3)
    else Bad(Syntax(if k.TEof? then UnclosedGroup else ExpectedRBrace), p2.cell)
  }

  predicate StartsWord(k: TokenKind) {
    k.TWord? || k.TSingleQuote? || k.TDoubleQuoteOpen?
  }

  /** One round of the simple-command loop per assignment, word or redirection. */
  function SimpleLoop(ps: PS, sc: SimpleCommand): (r: Res<SimpleCommand, PS>)
    ensures r.Good? ==> MovedOrStopped(ps, r.st)
    ensures r.Bad? ==> SameHands(ps.cell, r.queue)
    decreases Rank(ps.cell), |ps.rest|, 20
  {
    hide Lex;
    hide ParseRedirect;
    hide ParseAssignment;
    hide ParseWord;
    hide FunctionLookahead;
    hide SplitAssignment;
    var (k, _) :- Peek(ps);
    if IsStop(k) then Good(sc, ps)
    else if k.TRedirect? || k.THereDoc? then
      var (redirect, p1) :- ParseRedirect(ps);
      SimpleLoop(p1, sc.(redirects := sc.redirects + [redirect]))
    else if StartsWord(k) then
      if sc.name.None? && k.TWord? && SplitAssignment(k.text).Some? then
        var (a, p1) :- ParseAssignment(ps);
        SimpleLoop(p1, sc.(assignments := sc.assignments + [a]))
      else
        var (_, _) :- FunctionLookahead(ps, sc.name.None?);
        var (w, p1) :- ParseWord(ps);
        SimpleLoop(p1, if sc.name.None? then sc.(name := Some(w)) else sc.(args := sc.args + [w]))
    else Bad(Syntax(UnexpectedToken(k)), ps.cell)
  }

  function ParseAssignment(ps: PS): (r: Res<Assignment, PS>)
    requires Lex(ps.rest, false).Tok? && Lex(ps.rest, false).kind.TWord?
    requires SplitAssignment(Lex(ps.rest, false).kind.text).Some?
    ensures r.Good? ==> Moved(ps, r.st)
    ensures r.Bad? ==> SameHands(ps.cell, r.queue)
    decreases Rank(ps.cell), |ps.rest|, 19
  {
    var k, p1 := Lex(ps.rest, false).kind, After(ps);
    var (name, text) := SplitAssignment(k.text).value;
    var (w, cell) :- WordOf(text, p1.cell);
    Good(Assign(name, w), p1.(cell := cell))
  }

  predicate IsPlainName(w: string) {
    '$' !in w && '(' !in w && '{' !in w && '`' !in w
  }

  /** Before the command name: a plain word in front of `(` is a function definition, and what
      stands behind a plain word must be a token. Nothing is consumed. */
  function FunctionLookahead(ps: PS, first: bool): (r: Res<(), PS>)
    ensures r.Good? ==> r.st == ps
    ensures r.Bad? ==> SameHands(ps.cell, r.queue)
  {
    var (k, _) :- Peek(ps);
    if first && k.TWord? && IsPlainName(k.text) then
      var p1 := After(ps);
      var (after, _) :- Peek(p1);
      if after.TLParen? then Bad(Syntax(UnsupportedFunction), ps.cell) else Good((), ps)
    else Good((), ps)
  }

  // ---------------------------------------------------------------- words and redirections

  function Simplify(parts: seq<Word>): Word {
    if parts == [] then Literal("") else if |parts| == 1 then parts[0] else Concat(parts)
  }

  /** One token's worth of word; nothing at all where no word starts. */
  function ParseWord(ps: PS): (r: Res<Word, PS>)
    ensures r.Good? ==> Kept(ps, r.st)
    ensures r.Bad? ==> SameHands(ps.cell, r.queue)
    ensures r.Good? && Lex(ps.rest, false).Tok? && StartsWord(Lex(ps.rest, false).kind) ==> Moved(ps, r.st)
    decreases Rank(ps.cell), |ps.rest|, 8
  {
    var (k, _) :- Peek(ps);
    if k.TSingleQuote? then
      var p1 := After(ps);
      Good(SingleQuoted(k.text), p1)
    else if k.TDoubleQuoteOpen? then ParseDoubleQuoted(ps)
    else if k.TWord? then
      var p1 := After(ps);
      var (w, cell) :- WordOf(k.text, p1.cell);
      Good(Simplify(if w.Concat? then w.parts else [w]), p1.(cell := cell))
    else Good(Literal(""), ps)
  }

  function ParseDoubleQuoted(ps: PS): (r: Res<Word, PS>)
    requires HeadIs(ps.rest, TDoubleQuoteOpen)
    ensures r.Good? ==> Moved(ps, r.st)
    ensures r.Bad? ==> SameHands(ps.cell, r.queue)
    decreases Rank(ps.cell), |ps.rest|, 7
  {
    var p1 := After(ps);
    var (parts, p2) :- DqLoop(p1);
    Good(DoubleQuoted(parts), p2)
  }

  function DqLoop(ps: PS): (r: Res<seq<DQPart>, PS>)
    ensures r.Good? ==> Moved(ps, r.st)
    ensures r.Bad? ==> SameHands(ps.cell, r.queue)
    decreases Rank(ps.cell), |ps.rest|, 6
  {
    var (k, p1) :- NextDq(ps);
    if k.TDoubleQuoteClose? then Good([], p1)
    else if k.TDQText? then
      var (more, p2) :- DqLoop(p1);
      Good([DQLiteral(k.text)] + more, p2)
    else if k.TWord? then
      var (parts, cell) :- DqWordParts(k.text, "", p1.cell);
      var (more, p2) :- DqLoop(p1.(cell := cell));
      Good(parts + more, p2)
    else Bad(Syntax(UnexpectedToken(k)), ps.cell)
  }

  function ParseRedirect(ps: PS): (r: Res<Redirect, PS>)
    requires Lex(ps.rest, false).Tok? && (Lex(ps.rest, false).kind.TRedirect? || Lex(ps.rest, false).kind.THereDoc?)
    ensures r.Good? ==> Moved(ps, r.st)
    ensures r.Bad? ==> SameHands(ps.cell, r.queue)
    decreases Rank(ps.cell), |ps.rest|, 10
  {
    var k, p1 := Lex(ps.rest, false).kind, After(ps);
    if k.THereDoc? then
      var body := if k.quoted then LiteralBody("") else PartsBody([]);
      var hd := Heredoc(k.delimiter, k.quoted, k.stripTabs, body);
      Good(Redirect(if k.fd.Some? then k.fd else Some(0), Read, ToHeredoc(hd)),
           p1.(pend := p1.pend + [Pending(k.delimiter, k.quoted, k.stripTabs)]))
    else
      var fd := Some(if k.fd.Some? then k.fd.value else DefaultFd(k.op));
      if k.op.GreaterAmp? then ParseDupRedirect(p1, fd, Write)
      else if k.op.LessAmp? then ParseDupRedirect(p1, fd, Read)
      else
        var (w, p2) :- ParseWord(p1);
        Good(Redirect(fd, KindOf(k.op), ToWord(w)), p2)
  }

  function DefaultFd(op: RedirectOp): nat {
    if op.Less? || op.LessGreater? || op.LessAmp? then 0 else 1
  }

  function KindOf(op: RedirectOp): RedirectKind {
    match op
    case Less => Read
    case Greater => Write
    case GreaterGreater => Append
    case LessGreater => ReadWrite
    case GreaterPipe => Clobber
    case GreaterAmp => Write
    case LessAmp => Read
  }

  /** A word read as an unsigned 32-bit number; a leading `+` is allowed. */
  function ParseU32(w: string): Option<nat> {
    var digits := if w != "" && w[0] == '+' then w[1..] else w;
    if AllDigits(digits) then U32(digits) else None
  }

  function ParseDupRedirect(ps: PS, fd: Option<nat>, kind: RedirectKind): (r: Res<Redirect, PS>)
    ensures r.Good? ==> Kept(ps, r.st)
    ensures r.Bad? ==> SameHands(ps.cell, r.queue)
    decreases Rank(ps.cell), |ps.rest|, 9
  {
    var (k, _) :- Peek(ps);
    if k.TWord? && k.text == "-" then
      var p1 := After(ps);
      Good(Redirect(fd, kind, CloseFd), p1)
    else if k.TWord? && ParseU32(k.text).Some? then
      var p1 := After(ps);
      Good(Redirect(fd, kind, ToFd(ParseU32(k.text).value)), p1)
    else
      var (w, p1) :- ParseWord(ps);
      Good(Redirect(fd, kind, ToWord(w)), p1)
  }

  // ---------------------------------------------------------------- the parts of a word

  function Pending0(literal: string): seq<Word> {
    if literal == "" then [] else [Literal(literal)]
  }

  function WordOf(s: string, cell: Cell): (r: Res<Word, Cell>)
    ensures r.Good? ==> SameHands(cell, r.st)
    ensures r.Bad? ==> SameHands(cell, r.queue)
    decreases Rank(cell), |s|, 5
  {
    var (parts, c) :- WordParts(s, "", cell);
    Good(Simplify(parts), c)
  }

  /** The parts of an unquoted word, behind `literal`, the literal text already read. */
  function WordParts(s: string, literal: string, cell: Cell): (r: Res<seq<Word>, Cell>)
    ensures r.Good? ==> SameHands(cell, r.st)
    ensures r.Bad? ==> SameHands(cell, r.queue)
    decreases Rank(cell), |s|, 4
  {
    if s == "" then Good(Pending0(literal), cell)
    else if s[0] == '\\' then
      if |s| == 1 then Good(Pending0(literal), cell)
      else WordParts(s[2..], if s[1] == '\n' then literal else literal + [s[1]], cell)
    else if s[0] == '$' then
      var (d, c) :- ParseDollar(s, cell);
      var (more, c2) :- WordParts(s[d.len..], "", c);
      Good(Pending0(literal) + [d.word] + more, c2)
    else if s[0] == '`' then
      var (d, c) :- ParseBacktick(s, cell);
      var (more, c2) :- WordParts(s[d.len..], "", c);
      Good(Pending0(literal) + [d.word] + more, c2)
    else WordParts(s[1..], literal + [s[0]], cell)
  }

  function PendingDq(literal: string): seq<DQPart> {
    if literal == "" then [] else [DQLiteral(literal)]
  }

  function ToDqPart(w: Word): DQPart {
    match w
    case Literal(s) => DQLiteral(s)
    case Variable(v) => DQVariable(v)
    case CommandSubst(s) => DQCommandSubst(s)
    case ArithSubst(s) => DQArithSubst(s)
    case _ => DQLiteral("")
  }

  /** The same inside double quotes and heredoc bodies, where a backslash is an ordinary character. */
  function DqWordParts(s: string, literal: string, cell: Cell): (r: Res<seq<DQPart>, Cell>)
    ensures r.Good? ==> SameHands(cell, r.st)
    ensures r.Bad? ==> SameHands(cell, r.queue)
    decreases Rank(cell), |s|, 4
  {
    if s == "" then Good(PendingDq(literal), cell)
    else if s[0] == '$' then
      var (d, c) :- ParseDollar(s, cell);
      var (more, c2) :- DqWordParts(s[d.len..], "", c);
      Good(PendingDq(literal) + [ToDqPart(d.word)] + more, c2)
    else if s[0] == '`' then
      var (d, c) :- ParseBacktick(s, cell);
      var (more, c2) :- DqWordParts(s[d.len..], "", c);
      Good(PendingDq(literal) + [ToDqPart(d.word)] + more, c2)
    else DqWordParts(s[1..], literal + [s[0]], cell)
  }

  /** An expansion and how much text it took. */
  datatype Expansion = Expansion(word: Word, len: nat)

  function Parenthesis(s: string, i: nat): bool {
    i < |s| && s[i] == '('
  }

  /** A `$` and what it introduces; `s` starts with `$`. */
  function ParseDollar(s: string, cell: Cell): (r: Res<Expansion, Cell>)
    requires s != ""
    ensures r.Good? ==> SameHands(cell, r.st) && 0 < r.value.len <= |s|
    ensures r.Bad? ==> SameHands(cell, r.queue)
    decreases Rank(cell), |s|, 3
  {
    if |s| == 1 then Good(Expansion(Literal("$"), 1), cell)
    else if s[1] == '(' then
      if Parenthesis(s, 2) then
        match Extract(s[3..], 1, "))")
        case None => Bad(Syntax(UnmatchedClose("))")), cell)
        case Some((n, used)) => Good(Expansion(ArithSubst(s[3..][..n]), 3 + used), cell)
      else
        match Extract(s[2..], 1, ")")
        case None => Bad(Syntax(UnmatchedClose(")")), cell)
        case Some((n, used)) =>
          var (script, c) :- Parse(Trim(s[2..][..n]), cell);
          Good(Expansion(CommandSubst(script), 2 + used), c)
    else if s[1] == '{' then
      var (d, c) :- ParseBraceVar(s[2..], cell);
      Good(Expansion(Variable(d.0), 2 + d.1 + 1), c)
    else if IsDigit(s[1]) then
      Good(Expansion(Variable(Special(if s[1] == '0' then Zero else Positional(DigitValue(s[1])))), 2), cell)
    else if IsSpecialVarChar(s[1]) then Good(Expansion(Variable(Special(SpecialOf(s[1]))), 2), cell)
    else
      var n := NameRun(s[1..]);
      if n == 0 then Good(Expansion(Literal("$"), 1), cell)
      else Good(Expansion(Variable(Named(s[1..][..n])), 1 + n), cell)
  }

  function SpecialOf(c: char): SpecialVar
    requires IsSpecialVarChar(c)
  {
    match c
    case '*' => Star
    case '@' => At
    case '#' => Hash
    case '$' => Pid
    case '?' => LastExit
    case _ => LastBgPid
  }

  predicate StartsWith(s: string, prefix: string) {
    prefix <= s
  }

  /** The text up to the delimiter that closes `depth` parentheses, and the length through it.
      At depth one the whole of `close` ends the text; quotes mean nothing here. */
  function Extract(s: string, depth: nat, close: string): (r: Option<(nat, nat)>)
    requires close == ")" || close == "))"
    ensures r.Some? ==> r.value.0 < r.value.1 <= |s|
  {
    if s == "" then None
    else if depth == 1 && StartsWith(s, close) then Some((0, |close|))
    else if s[0] == ')' && depth <= 1 then Some((0, 1))
    else
      var d := if s[0] == '(' then depth + 1 else if s[0] == ')' then depth - 1 else depth;
      match Extract(s[1..], d, close)
      case None => None
      case Some((n, used)) => Some((1 + n, 1 + used))
  }

  /** An extraction seen from `n` characters further left. */
  function Further(n: nat, r: Option<(nat, nat)>): Option<(nat, nat)> {
    match r
    case None => None
    case Some((inner, used)) => Some((n + inner, n + used))
  }

  predicate IsSpace(c: char) {
    c in " \t\n\r\U{000B}\U{000C}"
  }

  function TrimStart(s: string): (r: string)
    ensures |r| <= |s|
  {
    if s != "" && IsSpace(s[0]) then TrimStart(s[1..]) else s
  }

  function TrimEnd(s: string): (r: string)
    ensures |r| <= |s|
  {
    if s != "" && IsSpace(s[|s| - 1]) then TrimEnd(s[..|s| - 1]) else s
  }

  function Trim(s: string): (r: string)
    ensures |r| <= |s|
  {
    TrimEnd(TrimStart(s))
  }

  predicate IsValidName(s: string) {
    s != "" && (IsAlpha(s[0]) || s[0] == '_') && forall i :: 0 <= i < |s| ==> IsNameChar(s[i])
  }

  function SplitAssignment(s: string): (r: Option<(string, string)>)
    ensures r.Some? ==> |r.value.1| < |s|
  {
    var eq := Before(s, '=');
    if eq < |s| && IsValidName(s[..eq]) then Some((s[..eq], s[eq + 1..])) else None
  }

  predicate IsVarOperator(c: char) {
    c in "-=+?"
  }

  /** Where the operator of `${name<op>word}` starts, scanning from `i`. */
  function FindVarOperator(s: string, i: nat): (r: Option<nat>)
    ensures r.Some? ==> r.value < |s|
    ensures r.Some? ==> if s[r.value] == ':' then r.value + 1 < |s| && IsVarOperator(s[r.value + 1]) else IsVarOperator(s[r.value])
    decreases |s| - i
  {
    if i >= |s| then None
    else if s[i] == ':' && i + 1 < |s| then
      if IsVarOperator(s[i + 1]) then Some(i) else FindVarOperator(s, i + 1)
    else if IsVarOperator(s[i]) && i > 0 then Some(i)
    else FindVarOperator(s, i + 1)
  }

  /** The inside of `${...}`, and its length without the brace. `s` starts behind `${`. */
  function ParseBraceVar(s: string, cell: Cell): (r: Res<(VarExpr, nat), Cell>)
    ensures r.Good? ==> SameHands(cell, r.st) && r.value.1 < |s|
    ensures r.Bad? ==> SameHands(cell, r.queue)
    decreases Rank(cell), |s|, 2
  {
    var close := Before(s, '}');
    if close == |s| then Bad(Syntax(UnclosedBraceVariable), cell)
    else
      var inner := s[..close];
      if inner == "" then Bad(Syntax(EmptyBraceVariable), cell)
      else if inner[0] == '#' && IsValidName(inner[1..]) then Good((Length(inner[1..]), close), cell)
      else
        match FindVarOperator(inner, 0)
        case None => Good((Named(inner), close), cell)
        case Some(op) =>
          var at := if inner[op] == ':' then op + 1 else op;
          var (w, c) :- WordOf(inner[at + 1..], cell);
          Good((VarOf(inner[at], inner[..op], w), close), c)
  }

  function VarOf(op: char, name: string, w: Word): VarExpr {
    match op
    case '-' => DefaultIfUnset(name, w)
    case '=' => AssignIfUnset(name, w)
    case '+' => AlternateIfSet(name, w)
    case _ => ErrorIfUnset(name, w)
  }

  /** A backtick substitution; `s` starts with the opening backtick. */
  function ParseBacktick(s: string, cell: Cell): (r: Res<Expansion, Cell>)
    requires s != ""
    ensures r.Good? ==> SameHands(cell, r.st) && 0 < r.value.len <= |s|
    ensures r.Bad? ==> SameHands(cell, r.queue)
    decreases Rank(cell), |s|, 3
  {
    var n := Before(s[1..], '`');
    if n == |s| - 1 then Bad(Syntax(UnterminatedBacktick), cell)
    else
      var (script, c) :- Parse(Trim(s[1..][..n]), cell);
      Good(Expansion(CommandSubst(script), n + 2), c)
  }

  // ---------------------------------------------------------------- filling in heredoc bodies

  function FillScript(cmds: seq<Command>, items: seq<QueueItem>): (r: Res<seq<Command>, seq<QueueItem>>)
    decreases 1, 0, 1, cmds
  {
    if cmds == [] then Good([], items)
    else
      var (c, i1) :- FillCommand(cmds[0], items);
      var (cs, i2) :- FillScript(cmds[1..], i1);
      Good([c] + cs, i2)
  }

  function FillCommand(cmd: Command, items: seq<QueueItem>): (r: Res<Command, seq<QueueItem>>)
    decreases 1, 0, 1, cmd
  {
    match cmd
    case Simple(sc) =>
      var (f, i1) :- FillSimple(sc, items);
      Good(Simple(f), i1)
    case Pipe(p) =>
      var (fs, i1) :- FillStages(p.commands, items);
      Good(Pipe(Pipeline(fs, p.negated)), i1)
    case And(left, right) =>
      var (l, i1) :- FillCommand(left, items);
      var (r, i2) :- FillCommand(right, i1);
      Good(And(l, r), i2)
    case Or(left, right) =>
      var (l, i1) :- FillCommand(left, items);
      var (r, i2) :- FillCommand(right, i1);
      Good(Or(l, r), i2)
    case Sequence(cmds) =>
      var (cs, i1) :- FillScript(cmds, items);
      Good(Sequence(cs), i1)
    case Background(c) =>
      var (f, i1) :- FillCommand(c, items);
      Good(Background(f), i1)
    case Subshell(body) =>
      var (cs, i1) :- FillScript(body, items);
      Good(Subshell(cs), i1)
    case Group(body) =>
      var (cs, i1) :- FillScript(body, items);
      Good(Group(cs), i1)
  }

  function FillStages(scs: seq<SimpleCommand>, items: seq<QueueItem>): (r: Res<seq<SimpleCommand>, seq<QueueItem>>)
    decreases 1, 0, 1, scs, 0
  {
    if scs == [] then Good([], items)
    else
      var (sc, i1) :- FillSimple(scs[0], items);
      var (more, i2) :- FillStages(scs[1..], i1);
      Good([sc] + more, i2)
  }

  function FillSimple(sc: SimpleCommand, items: seq<QueueItem>): (r: Res<SimpleCommand, seq<QueueItem>>)
    decreases 1, 0, 1, sc, 1
  {
    var (rs, i1) :- FillRedirects(sc.redirects, items);
    Good(sc.(redirects := rs), i1)
  }

  function FillRedirects(rs: seq<Redirect>, items: seq<QueueItem>): (r: Res<seq<Redirect>, seq<QueueItem>>)
    decreases 1, 0, 1, rs, 0
  {
    if rs == [] then Good([], items)
    else if rs[0].target.ToHeredoc? && items != [] then
      var (body, _) :- BodyOf(items[0]);
      var filled := rs[0].(target := ToHeredoc(rs[0].target.hd.(body := body)));
      var (more, i1) :- FillRedirects(rs[1..], items[1..]);
      Good([filled] + more, i1)
    else
      var (more, i1) :- FillRedirects(rs[1..], items);
      Good([rs[0]] + more, i1)
  }

  /** The queue is borrowed while bodies are filled in: a command substitution that parses aborts,
      any other failure falls back to the raw text. */
  function BodyOf(item: QueueItem): (r: Res<HeredocBody, ()>)
    decreases 1, 0, 0
  {
    if item.quoted then Good(LiteralBody(item.body), ())
    else
      match DqWordParts(item.body, "", Borrowed)
      case Good(parts, _) => Good(PartsBody(parts), ())
      case Bad(Syntax(_), _) => Good(PartsBody([DQLiteral(item.body)]), ())
      case Bad(Aborted, c) => Bad(Aborted, c)
  }
}
