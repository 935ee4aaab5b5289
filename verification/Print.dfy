/** Printing a syntax tree: the tokens of every construct, and their text. */
module Print {
  import opened Ast
  import opened Decimal
  import opened LexSpec
  import opened ParseSpec

  // ---------------------------------------------------------------- which trees can be printed

  /** Characters that stand for themselves in an unquoted word. */
  predicate IsSafe(c: char) {
    IsAlnum(c) || c in "_-./:,+@%^"
  }

  /** Characters after which a word that started with an expansion ends, inside double quotes. */
  predicate IsBreak(c: char) {
    c in " \t\n|&;(){}<>'"
  }

  /** How deep parentheses nest behind `s`, from depth `k`; None if one closes nothing. */
  function Depth(s: string, k: nat): Option<nat> {
    if s == "" then Some(k)
    else if s[0] == '(' then Depth(s[1..], k + 1)
    else if s[0] == ')' then if k == 0 then None else Depth(s[1..], k - 1)
    else Depth(s[1..], k)
  }

  /** Text that may stand inside a `$(...)`: its parentheses are balanced, and it has no single
      quote, which only one of the two delimiter scanners treats specially. */
  predicate IsBalanced(s: string) {
    '\'' !in s && Depth(s, 0) == Some(0)
  }

  predicate FitsPlace(s: string, nested: bool) {
    nested ==> IsBalanced(s)
  }

  /** The operand of `${name:-word}` and its like: a literal that closes and opens nothing. */
  predicate IsOperand(w: Word) {
    w.Literal? && forall c :: c in w.s ==> c !in "'(){}\n"
  }

  predicate WfVar(v: VarExpr) {
    match v
    case Named(name) => IsValidName(name)
    case Length(name) => IsValidName(name)
    case Special(Positional(n)) => 1 <= n <= 9
    case Special(_) => true
    case DefaultIfUnset(name, w) => IsValidName(name) && IsOperand(w)
    case AssignIfUnset(name, w) => IsValidName(name) && IsOperand(w)
    case AlternateIfSet(name, w) => IsValidName(name) && IsOperand(w)
    case ErrorIfUnset(name, w) => IsValidName(name) && IsOperand(w)
  }

  /** A part of an unquoted word. */
  predicate WfPart(w: Word, nested: bool)
    decreases w, 0
  {
    match w
    case Literal(s) => s != "" && '\n' !in s && FitsPlace(s, nested)
    case Variable(v) => WfVar(v)
    case CommandSubst(script) => WfScript(script, true)
    case ArithSubst(expr) => IsBalanced(expr)
    case _ => false
  }

  predicate WfParts(parts: seq<Word>, nested: bool)
    decreases parts
  {
    parts == [] || (
      && WfPart(parts[0], nested)
      && (|parts| > 1 && parts[0].Literal? ==> !parts[1].Literal?)
      && WfParts(parts[1..], nested))
  }

  predicate WfWord(w: Word, nested: bool)
    decreases w, 1
  {
    match w
    case SingleQuoted(s) => '\'' !in s && FitsPlace(s, nested)
    case DoubleQuoted(ps) => WfDq(ps, nested)
    case Concat(ps) => |ps| >= 2 && WfParts(ps, nested)
    case Literal(_) => WfPart(w, nested)
    case Variable(_) => WfPart(w, nested)
    case CommandSubst(script) => WfScript(script, true)
    case ArithSubst(expr) => IsBalanced(expr)
    case _ => false
  }

  predicate WfDqExpansion(p: DQPart)
    decreases p
  {
    match p
    case DQVariable(v) => WfVar(v)
    case DQCommandSubst(script) => WfScript(script, true)
    case DQArithSubst(expr) => IsBalanced(expr)
    case _ => false
  }

  /** Literal text that stays in the word token of the expansion in front of it: characters of a word,
      and backslashes with the character behind them. */
  predicate IsGlued(s: string) {
    s == "" || (if s[0] == '\\' then |s| > 1 && s[1] !in "$`" && IsGlued(s[2..])
                else IsWordChar(s[0]) && s[0] !in "$`" && IsGlued(s[1..]))
  }

  /** How many leading parts one word token holds: expansions, and behind each of them perhaps a
      literal that is glued to it. */
  function TokenRun(ps: seq<DQPart>, glue: bool): (n: nat)
    ensures n <= |ps| && (n < |ps| ==> ps[n].DQLiteral?)
    ensures ps != [] && !ps[0].DQLiteral? ==> n > 0
  {
    if ps == [] then 0
    else if !ps[0].DQLiteral? then 1 + TokenRun(ps[1..], true)
    else if glue && IsGlued(ps[0].s) then 1 + TokenRun(ps[1..], false)
    else 0
  }

  /** What one word token inside double quotes can hold. */
  predicate WfRun(ps: seq<DQPart>, nested: bool)
    decreases ps, 0
  {
    ps == [] || (
      && (if ps[0].DQLiteral? then
            ps[0].s != "" && IsGlued(ps[0].s) && FitsPlace(ps[0].s, nested) && (|ps| > 1 ==> !ps[1].DQLiteral?)
          else WfDqExpansion(ps[0]))
      && WfRun(ps[1..], nested))
  }

  /** Inside double quotes the parts are those of text tokens and word tokens: text in front of an
      expansion, and behind a word token text that starts with a character that ends it. */
  predicate WfDq(ps: seq<DQPart>, nested: bool)
    decreases ps, 1
  {
    if ps == [] then true
    else if ps[0].DQLiteral? then
      && ps[0].s != "" && FitsPlace(ps[0].s, nested)
      && (|ps| > 1 ==> !ps[1].DQLiteral?)
      && WfDq(ps[1..], nested)
    else
      var n := TokenRun(ps, false);
      assert n == |ps| ==> ps[..n] == ps;
      && WfRun(ps[..n], nested)
      && (n < |ps| ==> ps[n].s != "" && IsBreak(ps[n].s[0]))
      && WfDq(ps[n..], nested)
  }

  /** A value assigned without quotes; it may be empty. */
  predicate WfValue(w: Word, nested: bool)
    decreases w, 2
  {
    w == Literal("") || (!w.SingleQuoted? && !w.DoubleQuoted? && WfWord(w, nested))
  }

  predicate WfRedirect(r: Redirect, nested: bool)
    decreases r
  {
    && r.fd.Some? && r.fd.value < 0x1_0000_0000
    && match r.target
       case ToWord(w) => WfWord(w, nested)
       case ToFd(n) => n < 0x1_0000_0000 && (r.kind.Write? || r.kind.Read?)
       case CloseFd => r.kind.Write? || r.kind.Read?
       case ToHeredoc(_) => false
  }

  predicate WfSimple(sc: SimpleCommand, nested: bool)
    decreases sc
  {
    && (sc.assignments != [] || sc.name.Some? || sc.redirects != [])
    && (sc.name.None? ==> sc.args == [])
    && (forall a :: a in sc.assignments ==> IsValidName(a.name) && WfValue(a.value, nested))
    && (sc.name.Some? ==> WfWord(sc.name.value, nested))
    && (forall w :: w in sc.args ==> WfWord(w, nested))
    && (forall r :: r in sc.redirects ==> WfRedirect(r, nested))
  }

  /** What may stand between `&&` and `||`. A negated lone stage is a pipeline of one. */
  predicate WfPipe(c: Command, nested: bool)
    decreases c, 0
  {
    match c
    case Simple(sc) => WfSimple(sc, nested)
    case Pipe(p) =>
      && (|p.commands| >= 2 || (|p.commands| == 1 && p.negated))
      && forall sc :: sc in p.commands ==> WfSimple(sc, nested)
    case Subshell(body) => WfScript(body, nested)
    case Group(body) => WfScript(body, nested)
    case _ => false
  }

  /** And-or chains lean to the left. */
  predicate WfChain(c: Command, nested: bool)
    decreases c, 1
  {
    match c
    case And(l, r) => WfChain(l, nested) && WfPipe(r, nested)
    case Or(l, r) => WfChain(l, nested) && WfPipe(r, nested)
    case _ => WfPipe(c, nested)
  }

  predicate WfItem(c: Command, nested: bool)
    decreases c, 2
  {
    if c.Background? then WfChain(c.cmd, nested) else WfChain(c, nested)
  }

  predicate WfScript(cmds: seq<Command>, nested: bool)
    decreases cmds
  {
    forall c :: c in cmds ==> WfItem(c, nested)
  }

  // ---------------------------------------------------------------- token lists

  datatype Toks = Nil | Cons(k: TokenKind, tl: Toks)

  const AtEof: Toks := Cons(TEof, Nil)

  function ModeAfter(dq: bool, k: TokenKind): bool {
    if k.TDoubleQuoteOpen? then true else if k.TDoubleQuoteClose? then false else dq
  }

  function RedirectText(op: RedirectOp): string {
    match op
    case Less => "<"
    case Greater => ">"
    case GreaterGreater => ">>"
    case LessGreater => "<>"
    case GreaterPipe => ">|"
    case GreaterAmp => ">&"
    case LessAmp => "<&"
  }

  /** Literal text between double quotes: the four characters that mean something are escaped. */
  function EscapeDq(s: string): string {
    if s == "" then "" else (if s[0] in "\"\\$`" then ['\\', s[0]] else [s[0]]) + EscapeDq(s[1..])
  }

  function KText(k: TokenKind): string {
    match k
    case TWord(t) => t
    case TSingleQuote(t) => "'" + t + "'"
    case TDoubleQuoteOpen => "\""
    case TDoubleQuoteClose => "\""
    case TDQText(t) => EscapeDq(t)
    case TPipe => "|"
    case TOrOr => "||"
    case TAndAnd => "&&"
    case TAmp => "&"
    case TSemi => ";"
    case TSemiSemi => ";;"
    case TLParen => "("
    case TRParen => ")"
    case TLBrace => "{"
    case TRBrace => "}"
    case TBang => "!"
    case TNewline => "\n"
    case TRedirect(fd, op) => (if fd.Some? then Show(fd.value) else "") + RedirectText(op)
    case THereDoc(_, _, _, _) => ""
    case TEof => ""
  }

  /** The text of a token list: a space in front of every token outside double quotes. */
  function Render(ts: Toks, dq: bool): string {
    match ts
    case Nil => ""
    case Cons(k, tl) =>
      if k.TEof? then ""
      else (if dq then "" else " ") + KText(k) + Render(tl, ModeAfter(dq, k))
  }

  // ---------------------------------------------------------------- the text of words

  function Escape(s: string): string {
    if s == "" then "" else (if IsSafe(s[0]) then [s[0]] else ['\\', s[0]]) + Escape(s[1..])
  }

  /** A literal word; one that would be a keyword is kept from being one. */
  function LiteralText(s: string): string {
    if IsReserved(s) then "\\" + s else Escape(s)
  }

  function SpecialText(v: SpecialVar): string {
    match v
    case Zero => "$0"
    case Positional(n) => if n < 10 then ['$', DigitChar(n)] else "$"
    case Star => "$*"
    case At => "$@"
    case Hash => "$#"
    case Pid => "$$"
    case LastExit => "$?"
    case LastBgPid => "$!"
  }

  function OperandText(w: Word): string {
    if w.Literal? then Escape(w.s) else ""
  }

  /** What stands between `${` and `}`. */
  function InnerText(v: VarExpr): string {
    match v
    case Named(name) => name
    case Length(name) => "#" + name
    case DefaultIfUnset(name, w) => name + ":-" + OperandText(w)
    case AssignIfUnset(name, w) => name + ":=" + OperandText(w)
    case AlternateIfSet(name, w) => name + ":+" + OperandText(w)
    case ErrorIfUnset(name, w) => name + ":?" + OperandText(w)
    case Special(_) => ""
  }

  function VarText(v: VarExpr): string {
    match v
    case Special(sv) => SpecialText(sv)
    case _ => "${" + InnerText(v) + "}"
  }

  function SubstText(script: seq<Command>): string
    decreases script, 1
  {
    "$(" + Render(ToksScript(script, AtEof), false) + ")"
  }

  function ArithText(expr: string): string {
    "$((" + expr + "))"
  }

  function PartText(w: Word): string
    decreases w, 0
  {
    match w
    case Literal(s) => Escape(s)
    case Variable(v) => VarText(v)
    case CommandSubst(script) => SubstText(script)
    case ArithSubst(expr) => ArithText(expr)
    case _ => ""
  }

  function PartsText(parts: seq<Word>): string
    decreases parts
  {
    if parts == [] then "" else PartText(parts[0]) + PartsText(parts[1..])
  }

  /** The text of an unquoted word. */
  function WordText(w: Word): string
    decreases w, 1
  {
    match w
    case Literal(s) => LiteralText(s)
    case Concat(ps) => PartsText(ps)
    case _ => PartText(w)
  }

  function DqPartText(p: DQPart): string
    decreases p
  {
    match p
    case DQVariable(v) => VarText(v)
    case DQCommandSubst(script) => SubstText(script)
    case DQArithSubst(expr) => ArithText(expr)
    case DQLiteral(s) => s
  }

  function DqRunText(ps: seq<DQPart>): string
    decreases ps, 0
  {
    if ps == [] then "" else DqPartText(ps[0]) + DqRunText(ps[1..])
  }

  // ---------------------------------------------------------------- the tokens of every construct

  /** Text in front of an expansion is a text token; expansions and what is glued to them share one
      word token. */
  function ToksDq(ps: seq<DQPart>, tl: Toks): Toks
    decreases ps, 1
  {
    if ps == [] then tl
    else if ps[0].DQLiteral? then Cons(TDQText(ps[0].s), ToksDq(ps[1..], tl))
    else
      var n := TokenRun(ps, false);
      assert n == |ps| ==> ps[..n] == ps;
      Cons(TWord(DqRunText(ps[..n])), ToksDq(ps[n..], tl))
  }

  function ToksWord(w: Word, tl: Toks): Toks
    decreases w, 2
  {
    match w
    case SingleQuoted(s) => Cons(TSingleQuote(s), tl)
    case DoubleQuoted(ps) => Cons(TDoubleQuoteOpen, ToksDq(ps, Cons(TDoubleQuoteClose, tl)))
    case _ => Cons(TWord(WordText(w)), tl)
  }

  function ValueText(w: Word): string
    decreases w, 2
  {
    if w == Literal("") then "" else WordText(w)
  }

  function ToksAssigns(as_: seq<Assignment>, tl: Toks): Toks
    decreases as_
  {
    if as_ == [] then tl
    else Cons(TWord(as_[0].name + "=" + ValueText(as_[0].value)), ToksAssigns(as_[1..], tl))
  }

  function ToksName(name: Option<Word>, tl: Toks): Toks
    decreases name
  {
    match name
    case None => tl
    case Some(w) => ToksWord(w, tl)
  }

  function ToksWords(ws: seq<Word>, tl: Toks): Toks
    decreases ws
  {
    if ws == [] then tl else ToksWord(ws[0], ToksWords(ws[1..], tl))
  }

  function OpOf(kind: RedirectKind): RedirectOp {
    match kind
    case Write => Greater
    case Append => GreaterGreater
    case Read => Less
    case ReadWrite => LessGreater
    case Clobber => GreaterPipe
  }

  /** The descriptor as it is written: left out where the operator means it anyway, which is 0 for
      the three that read and 1 for the four that write. */
  function ShownFd(fd: Option<nat>, op: RedirectOp): Option<nat> {
    if fd == Some(if op.Less? || op.LessGreater? || op.LessAmp? then 0 else 1) then None else fd
  }

  function ToksRedirect(r: Redirect, tl: Toks): Toks
    decreases r
  {
    var dup := if r.kind.Read? then LessAmp else GreaterAmp;
    match r.target
    case ToWord(w) => Cons(TRedirect(ShownFd(r.fd, OpOf(r.kind)), OpOf(r.kind)), ToksWord(w, tl))
    case ToFd(n) => Cons(TRedirect(ShownFd(r.fd, dup), dup), Cons(TWord(Show(n)), tl))
    case CloseFd => Cons(TRedirect(ShownFd(r.fd, dup), dup), Cons(TWord("-"), tl))
    case ToHeredoc(_) => tl
  }

  function ToksRedirects(rs: seq<Redirect>, tl: Toks): Toks
    decreases rs
  {
    if rs == [] then tl else ToksRedirect(rs[0], ToksRedirects(rs[1..], tl))
  }

  function ToksSimple(sc: SimpleCommand, tl: Toks): Toks
    decreases sc
  {
    ToksAssigns(sc.assignments, ToksName(sc.name, ToksWords(sc.args, ToksRedirects(sc.redirects, tl))))
  }

  function ToksStages(scs: seq<SimpleCommand>, tl: Toks): Toks
    decreases scs
  {
    if scs == [] then tl
    else if |scs| == 1 then ToksSimple(scs[0], tl)
    else ToksSimple(scs[0], Cons(TPipe, ToksStages(scs[1..], tl)))
  }

  function ToksPipe(c: Command, tl: Toks): Toks
    decreases c, 0
  {
    match c
    case Simple(sc) => ToksSimple(sc, tl)
    case Pipe(p) =>
      var stages := ToksStages(p.commands, tl);
      if p.negated then Cons(TBang, stages) else stages
    case Subshell(body) => Cons(TLParen, ToksScript(body, Cons(TRParen, tl)))
    case Group(body) => Cons(TLBrace, ToksScript(body, Cons(TRBrace, tl)))
    case _ => tl
  }

  function ToksChain(c: Command, tl: Toks): Toks
    decreases c, 1
  {
    match c
    case And(l, r) => ToksChain(l, Cons(TAndAnd, ToksPipe(r, tl)))
    case Or(l, r) => ToksChain(l, Cons(TOrOr, ToksPipe(r, tl)))
    case _ => ToksPipe(c, tl)
  }

  function ToksItem(c: Command, tl: Toks): Toks
    decreases c, 2
  {
    match c
    case Background(b) => ToksChain(b, Cons(TAmp, tl))
    case _ => ToksChain(c, Cons(TSemi, tl))
  }

  function ToksScript(cmds: seq<Command>, tl: Toks): Toks
    decreases cmds, 0
  {
    if cmds == [] then tl else ToksItem(cmds[0], ToksScript(cmds[1..], tl))
  }

  /** The text of a whole script. */
  function PrintScript(cmds: seq<Command>): string {
    Render(ToksScript(cmds, AtEof), false)
  }
}
