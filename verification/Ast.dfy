/** The command syntax tree the parser builds and the executor walks. */
module Ast {

  datatype Option<+T> = None | Some(value: T)

  type Script = seq<Command>

  datatype Command =
    | Simple(sc: SimpleCommand)
    | Pipe(pipeline: Pipeline)
    | And(left: Command, right: Command)
    | Or(left: Command, right: Command)
    | Sequence(cmds: seq<Command>)
    | Background(cmd: Command)
    | Subshell(body: seq<Command>)
    | Group(body: seq<Command>)

  datatype Pipeline = Pipeline(commands: seq<SimpleCommand>, negated: bool)

  datatype Assignment = Assign(name: string, value: Word)

  datatype SimpleCommand = SimpleCommand(
    assignments: seq<Assignment>, name: Option<Word>, args: seq<Word>, redirects: seq<Redirect>)

  const EmptySimple := SimpleCommand([], None, [], [])

  datatype Word =
    | Literal(s: string)
    | SingleQuoted(s: string)
    | DoubleQuoted(dq: seq<DQPart>)
    | Variable(v: VarExpr)
    | CommandSubst(script: seq<Command>)
    | ArithSubst(expr: string)
    | HeredocWord(hd: Heredoc)
    | Concat(parts: seq<Word>)

  datatype DQPart =
    | DQLiteral(s: string)
    | DQVariable(v: VarExpr)
    | DQCommandSubst(script: seq<Command>)
    | DQArithSubst(expr: string)

  datatype VarExpr =
    | Named(name: string)
    | DefaultIfUnset(name: string, word: Word)
    | AssignIfUnset(name: string, word: Word)
    | AlternateIfSet(name: string, word: Word)
    | ErrorIfUnset(name: string, word: Word)
    | Length(name: string)
    | Special(special: SpecialVar)

  datatype SpecialVar = Zero | Positional(n: nat) | Star | At | Hash | Pid | LastExit | LastBgPid

  datatype Heredoc = Heredoc(delimiter: string, quoted: bool, stripTabs: bool, body: HeredocBody)

  datatype HeredocBody = LiteralBody(s: string) | PartsBody(parts: seq<DQPart>)

  datatype RedirectKind = Write | Append | Read | ReadWrite | Clobber

  datatype RedirectTarget = ToWord(w: Word) | ToFd(fd: nat) | CloseFd | ToHeredoc(hd: Heredoc)

  datatype Redirect = Redirect(fd: Option<nat>, kind: RedirectKind, target: RedirectTarget)
}
