/** What running a command means, on values: a state, a result, and the log of what was written.
    Descriptors are entries of a table that redirections edit from left to right; there are no
    buffers and nothing is shared. The executor in `Exec` is proved to do exactly this. */
module Sem {
  import opened Ast
  import opened Decimal
  import P = Paths
  import T = VfsTree
  import V = VfsOps
  import M = Mounts
  import A = Arith
  import AV = ArithVars
  import LexSpec
  import ParseSpec

  // ---------------------------------------------------------------- states and results

  datatype ShellError =
    | VfsFailure(vfs: T.VfsError)
    | IoFailure(message: string)
    | ArithFailure(arith: A.ArithError)
    | ParseFailure(why: LexSpec.SyntaxError)
    | Exit(code: int)
    | Panicked

  datatype Result<+T> = Ok(value: T) | Err(error: ShellError)

  type Env = map<string, string>

  type Root = n: T.Node | n.Dir? witness T.Dir(map[])

  /** The shell's own state, the tree of its filesystem, the mount table, and `host`, the state of
      everything outside that programs and mounts may consult or change. */
  datatype St = St(
    env: Env, cwd: string, aliases: map<string, string>, lastExit: int,
    root: Root, mounts: seq<M.MountEntry>, host: int)

  /** One write by a program, to its descriptor 1 or 2. */
  datatype Output = ToOut(data: string) | ToErr(data: string)

  type Log = seq<Output>

  /** A value with the state behind it, or an error with the state it was raised in. */
  datatype Ev<+T> = Val(value: T, st: St) | Fail(error: ShellError, st: St) {
    predicate IsFailure() { Fail? }

    function PropagateFailure<U>(): Ev<U>
      requires Fail?
    {
      Fail(error, st)
    }

    function Extract(): (T, St)
      requires Val?
    {
      (value, st)
    }
  }

  /** The outcome of a command: its status or error, the state, and what it wrote. */
  datatype Run = Run(code: Result<int>, st: St, log: Log)

  // ---------------------------------------------------------------- programs and mounts

  datatype Call = Call(args: seq<string>, stdin: string, st: St)

  datatype Answer = Answer(code: Result<int>, st: St, log: Log)

  /** Everything the executor calls but does not define: the overflow behaviour of the build, which
      names resolve to programs, what programs and mounts do. */
  datatype World = World(
    profile: A.Profile,
    resolve: (string, string) -> bool,
    program: Call -> Answer,
    intrinsic: Call -> Answer,
    mountRead: (M.Point, string, int) -> (T.Result<string>, int),
    mountWrite: (M.Point, string, string, int) -> (T.Result<()>, int),
    mountStat: (M.Point, string, int) -> (bool, int))

  // ---------------------------------------------------------------- text

  function IntText(n: int): string {
    if n < 0 then "-" + Show(-n) else Show(n)
  }

  function TrimNewlines(s: string): string {
    if s != "" && s[|s| - 1] == '\n' then TrimNewlines(s[..|s| - 1]) else s
  }

  predicate IsAsciiSpace(c: char) {
    c in " \t\n\r\U{000C}"
  }

  /** The words of an alias. */
  function SplitSpaces(s: string, word: string): seq<string>
    decreases |s|
  {
    var done := if word == "" then [] else [word];
    if s == "" then done
    else if IsAsciiSpace(s[0]) then done + SplitSpaces(s[1..], "")
    else SplitSpaces(s[1..], word + [s[0]])
  }

  /** A 32-bit signed number, with an optional sign. */
  function ParseI32(s: string): Option<int> {
    var digits := if s != "" && (s[0] == '+' || s[0] == '-') then s[1..] else s;
    if digits == "" || !AllDigits(digits) then None
    else
      var n: int := Value(digits);
      var v := if s[0] == '-' then -n else n;
      if -0x8000_0000 <= v < 0x8000_0000 then Some(v) else None
  }

  // ---------------------------------------------------------------- files

  function ReadFile(w: World, st: St, path: string): (T.Result<string>, St) {
    match M.Route(st.mounts, P.Normalize(path))
    case Some((i, rel)) =>
      var (r, host) := w.mountRead(st.mounts[i].point, rel, st.host);
      (r, st.(host := host))
    case None => (V.ReadAt(st.root, path), st)
  }

  function WriteFile(w: World, st: St, path: string, data: string): (T.Result<()>, St) {
    match M.Route(st.mounts, P.Normalize(path))
    case Some((i, rel)) =>
      var (r, host) := w.mountWrite(st.mounts[i].point, rel, data, st.host);
      (r, st.(host := host))
    case None =>
      var (r, root) := V.WriteAt(st.root, path, data);
      (r, st.(root := root))
  }

  function Exists(w: World, st: St, path: string): (bool, St) {
    match M.Route(st.mounts, P.Normalize(path))
    case Some((i, rel)) =>
      var (r, host) := w.mountStat(st.mounts[i].point, rel, st.host);
      (r, st.(host := host))
    case None => (V.IsThere(st.root, path), st)
  }

  // ---------------------------------------------------------------- expansion

  function Lookup(env: Env, name: string): string {
    if name in env then env[name] else ""
  }

  function SpecialValue(s: SpecialVar, lastExit: int): string {
    match s
    case Zero => "wasm_shell"
    case Positional(_) => ""
    case Star => ""
    case At => ""
    case Hash => "0"
    case Pid => "1"
    case LastExit => IntText(lastExit)
    case LastBgPid => "0"
  }

  function OfArith(o: A.Outcome<A.i64>, st: St): Ev<string> {
    match o
    case Ok(v) => Val(IntText(v), st)
    case Err(e) => Fail(ArithFailure(e), st)
    case Panic => Fail(Panicked, st)
  }

  function ExpandWord(w: World, word: Word, st: St): (r: Ev<string>)
    decreases word, 1
  {
    match word
    case Literal(s) =>
      if s == "~" || "~/" <= s then
        Val((if "HOME" in st.env then st.env["HOME"] else "/") + s[1..], st)
      else Val(s, st)
    case SingleQuoted(s) => Val(s, st)
    case DoubleQuoted(ps) => ExpandParts(w, ps, st)
    case Variable(v) => ExpandVar(w, v, st)
    case CommandSubst(script) => Capture(w, script, st)
    case ArithSubst(expr) => OfArith(AV.EvalArith(w.profile, expr, st.env), st)
    case HeredocWord(hd) => ExpandHeredoc(w, hd, st)
    case Concat(parts) => ExpandConcat(w, parts, st)
  }

  function ExpandConcat(w: World, words: seq<Word>, st: St): Ev<string>
    decreases words, 0
  {
    if words == [] then Val("", st)
    else
      var (s, s1) :- ExpandWord(w, words[0], st);
      var (t, s2) :- ExpandConcat(w, words[1..], s1);
      Val(s + t, s2)
  }

  function ExpandWords(w: World, words: seq<Word>, st: St): Ev<seq<string>>
    decreases words, 0
  {
    if words == [] then Val([], st)
    else
      var (s, s1) :- ExpandWord(w, words[0], st);
      var (t, s2) :- ExpandWords(w, words[1..], s1);
      Val([s] + t, s2)
  }

  function ExpandPart(w: World, part: DQPart, st: St): Ev<string>
    decreases part, 0
  {
    match part
    case DQLiteral(s) => Val(s, st)
    case DQVariable(v) => ExpandVar(w, v, st)
    case DQCommandSubst(script) => Capture(w, script, st)
    case DQArithSubst(expr) => OfArith(AV.EvalArith(w.profile, expr, st.env), st)
  }

  function ExpandParts(w: World, parts: seq<DQPart>, st: St): Ev<string>
    decreases parts, 0
  {
    if parts == [] then Val("", st)
    else
      var (s, s1) :- ExpandPart(w, parts[0], st);
      var (t, s2) :- ExpandParts(w, parts[1..], s1);
      Val(s + t, s2)
  }

  function ExpandVar(w: World, v: VarExpr, st: St): Ev<string>
    decreases v, 0
  {
    match v
    case Named(name) => Val(Lookup(st.env, name), st)
    case DefaultIfUnset(name, word) =>
      if Lookup(st.env, name) == "" then ExpandWord(w, word, st) else Val(Lookup(st.env, name), st)
    case AssignIfUnset(name, word) =>
      if Lookup(st.env, name) == "" then
        var (s, s1) :- ExpandWord(w, word, st);
        Val(s, s1.(env := s1.env[name := s]))
      else Val(Lookup(st.env, name), st)
    case AlternateIfSet(name, word) =>
      if Lookup(st.env, name) != "" then ExpandWord(w, word, st) else Val("", st)
    case ErrorIfUnset(name, word) =>
      if Lookup(st.env, name) == "" then
        var (s, s1) :- ExpandWord(w, word, st);
        Fail(IoFailure(name + ": " + (if s == "" then "parameter null or not set" else s)), s1)
      else Val(Lookup(st.env, name), st)
    case Length(name) => Val(Show(|Lookup(st.env, name)|), st)
    case Special(s) => Val(SpecialValue(s, st.lastExit), st)
  }

  function ExpandHeredoc(w: World, hd: Heredoc, st: St): Ev<string>
    decreases hd, 0
  {
    match hd.body
    case LiteralBody(s) => Val(s, st)
    case PartsBody(parts) => ExpandParts(w, parts, st)
  }

  /** A command substitution runs in the current shell, with empty input; what it writes to its
      standard output is the text, without trailing newlines. */
  function Capture(w: World, script: seq<Command>, st: St): Ev<string>
    decreases script, 2
  {
    var run := RunScript(w, script, st, "");
    match run.code
    case Err(e) => Fail(e, run.st)
    case Ok(_) => Val(TrimNewlines(Onto(run.log, true, false)), run.st)
  }

  // ---------------------------------------------------------------- the log

  /** The text of the writes to the chosen descriptors, in the order they were made. */
  function Onto(log: Log, out: bool, err: bool): string {
    if log == [] then ""
    else
      (match log[0]
       case ToOut(data) => if out then data else ""
       case ToErr(data) => if err then data else "") + Onto(log[1..], out, err)
  }

  /** Where a descriptor leads: the command's own standard output or error, or the file that the
      i-th output redirection opened. */
  datatype Sink = ParentOut | ParentErr | File(i: nat)

  datatype OpenFile = OpenFile(path: string, append: bool)

  /** The descriptor table of one simple command. */
  datatype Table = Table(out: Sink, err: Sink, stdin: string, files: seq<OpenFile>)

  function SinkOf(t: Table, o: Output): Sink {
    if o.ToOut? then t.out else t.err
  }

  /** What of a program's writes reaches the command's own descriptors. */
  function Inherited(t: Table, log: Log): Log {
    if log == [] then [] else InheritedOne(t, log[0]) + Inherited(t, log[1..])
  }

  function InheritedOne(t: Table, o: Output): Log {
    match SinkOf(t, o)
    case ParentOut => [ToOut(o.data)]
    case ParentErr => [ToErr(o.data)]
    case File(_) => []
  }

  /** What of a program's writes reaches the i-th file. */
  function Contents(t: Table, log: Log, i: nat): string {
    Onto(log, t.out == File(i), t.err == File(i))
  }

  // ---------------------------------------------------------------- redirections

  /** The table with one more file, on the descriptors the redirection names. */
  function Opened(t: Table, kind: RedirectKind, fd: nat, path: string): Table {
    var file := File(|t.files|);
    var files := t.files + [OpenFile(path, kind.Append?)];
    if kind.ReadWrite? then t.(out := file, err := file, files := files)
    else if fd == 1 then t.(out := file, files := files)
    else if fd == 2 then t.(err := file, files := files)
    else t.(files := files)
  }

  /** `2>&1` and `1>&2`; other duplications do nothing. */
  function Duplicated(t: Table, fd: nat, target: nat): Table {
    if fd == 2 && target == 1 then t.(err := t.out)
    else if fd == 1 && target == 2 then t.(out := t.err)
    else t
  }

  function Redirected(w: World, r: Redirect, st: St, t: Table): Ev<Table>
    decreases r, 0
  {
    var fd := if r.fd.Some? then r.fd.value else if r.kind.Read? then 0 else 1;
    match r.target
    case ToWord(word) =>
      var (text, s1) :- ExpandWord(w, word, st);
      var path := P.Resolve(s1.cwd, text);
      if r.kind.Read? then
        var (data, s2) := ReadFile(w, s1, path);
        (match data
         case Err(e) => Fail(VfsFailure(e), s2)
         case Ok(content) => Val(t.(stdin := content), s2))
      else
        Val(Opened(t, r.kind, fd, path), s1)
    case ToHeredoc(hd) =>
      if r.kind.Read? then
        var (body, s1) :- ExpandHeredoc(w, hd, st);
        Val(t.(stdin := body), s1)
      else Val(t, st)
    case ToFd(target) =>
      Val(Duplicated(t, fd, target), st)
    case CloseFd => Val(t, st)
  }

  function RedirectAll(w: World, rs: seq<Redirect>, st: St, t: Table): Ev<Table>
    decreases rs, 0
  {
    if rs == [] then Val(t, st)
    else
      var (t1, s1) :- Redirected(w, rs[0], st, t);
      RedirectAll(w, rs[1..], s1, t1)
  }

  // ---------------------------------------------------------------- simple commands

  /** An assigned variable with what it was before. */
  datatype Saved = Saved(name: string, old_: Option<string>)

  function Current(env: Env, name: string): Option<string> {
    if name in env then Some(env[name]) else None
  }

  function AssignAll(w: World, as_: seq<Assignment>, st: St): Ev<seq<Saved>>
    decreases as_, 0
  {
    if as_ == [] then Val([], st)
    else
      var (v, s1) :- ExpandWord(w, as_[0].value, st);
      var saved := Saved(as_[0].name, Current(s1.env, as_[0].name));
      var (more, s2) :- AssignAll(w, as_[1..], s1.(env := s1.env[as_[0].name := v]));
      Val([saved] + more, s2)
  }

  function Restore(env: Env, s: Saved): Env {
    match s.old_
    case Some(v) => env[s.name := v]
    case None => env - {s.name}
  }

  /** Puts the variables back in the order they were assigned. */
  function RestoreAll(env: Env, saved: seq<Saved>): Env
    decreases |saved|
  {
    if saved == [] then env else RestoreAll(Restore(env, saved[0]), saved[1..])
  }

  predicate IsIntrinsic(name: string) {
    name in {"source", ".", "xargs", "which", "type"}
  }

  function ExitArgument(args: seq<string>): int {
    if |args| > 1 && ParseI32(args[1]).Some? then ParseI32(args[1]).value else 0
  }

  /** What a program leaves behind: the shell takes over its environment, directory and aliases
      unless it failed; the filesystem and the outside are shared. */
  function AfterProgram(st: St, a: Answer): St {
    var shared := st.(root := a.st.root, host := a.st.host);
    if a.code.Err? then shared else shared.(env := a.st.env, cwd := a.st.cwd, aliases := a.st.aliases)
  }

  function PathVar(env: Env): string {
    if "PATH" in env then env["PATH"] else "/usr/bin:/bin:/usr/local/bin"
  }

  /** A name that no program answers to; one that looks like a path is looked up. */
  function NotFound(w: World, name: string, st: St): Run {
    if '/' in name then
      var (found, s1) := Exists(w, st, P.Resolve(st.cwd, name));
      Run(Ok(126), s1,
          [ToErr("wasm_shell: " + name + (if found then ": Permission denied\n" else ": No such file or directory\n"))])
    else Run(Ok(127), st, [ToErr(name + ": command not found\n")])
  }

  function Dispatch(w: World, name: string, args: seq<string>, stdin: string, st: St): Run {
    if name == "exit" then Run(Err(Exit(ExitArgument(args))), st, [])
    else if IsIntrinsic(name) then
      var a := w.intrinsic(Call(args, stdin, st));
      Run(a.code, a.st.(mounts := st.mounts), a.log)
    else if w.resolve(name, PathVar(st.env)) then
      var a := w.program(Call(args, stdin, st));
      Run(a.code, AfterProgram(st, a), a.log)
    else NotFound(w, name, st)
  }

  /** Writes the files from the i-th on, in the order they were opened; an append reads what is
      there first. */
  function FlushAll(w: World, t: Table, log: Log, i: nat, st: St): Ev<()>
    decreases |t.files| - i
  {
    if i >= |t.files| then Val((), st)
    else
      match FlushOne(w, t.files[i], Contents(t, log, i), st)
      case Fail(e, s1) => Fail(e, s1)
      case Val(_, s1) => FlushAll(w, t, log, i + 1, s1)
  }

  function FlushOne(w: World, f: OpenFile, data: string, st: St): Ev<()> {
    var (before, s1) := if f.append then ReadFile(w, st, f.path) else (T.Ok(""), st);
    var (r, s2) := WriteFile(w, s1, f.path, (if before.Ok? then before.value else "") + data);
    match r
    case Err(e) => Fail(VfsFailure(e), s2)
    case Ok(_) => Val((), s2)
  }

  /** The command's name after alias expansion, with the words the alias puts in front. */
  function Unalias(aliases: map<string, string>, raw: string): (r: seq<string>)
    ensures r != []
  {
    if raw in aliases && SplitSpaces(aliases[raw], "") != [] then SplitSpaces(aliases[raw], "") else [raw]
  }

  function RunSimple(w: World, sc: SimpleCommand, st: St, stdin: string): Run
    decreases sc, 0
  {
    match AssignAll(w, sc.assignments, st)
    case Fail(e, s1) => Run(Err(e), s1, [])
    case Val(saved, s1) =>
      if sc.name.None? then Run(Ok(0), s1, [])
      else
        match ExpandWord(w, sc.name.value, s1)
        case Fail(e, s2) => Run(Err(e), s2, [])
        case Val(raw, s2) =>
          match ExpandWords(w, sc.args, s2)
          case Fail(e, s3) => Run(Err(e), s3, [])
          case Val(args, s3) =>
            var argv := Unalias(s2.aliases, raw) + args;
            match RedirectAll(w, sc.redirects, s3, Table(ParentOut, ParentErr, stdin, []))
            case Fail(e, s4) => Run(Err(e), s4, [])
            case Val(t, s4) => Launch(w, argv, t, saved, s4)
  }

  /** Dispatching a command with its descriptors in place, then flushing the files and restoring
      the variables. A file that cannot be written ends the command before anything is restored. */
  function Launch(w: World, argv: seq<string>, t: Table, saved: seq<Saved>, st: St): Run
    requires argv != []
  {
    var run := Dispatch(w, argv[0], argv, t.stdin, st);
    var log := Inherited(t, run.log);
    match FlushAll(w, t, run.log, 0, run.st)
    case Fail(e, s5) => Run(Err(e), s5, log)
    case Val(_, s5) => Run(run.code, s5.(env := RestoreAll(s5.env, saved)), log)
  }

  // ---------------------------------------------------------------- pipelines, lists, scripts

  function WithLast(st: St, code: int): St {
    st.(lastExit := code)
  }

  /** Runs the stages from the i-th on; a stage that is not the last hands its standard output to
      the next one and to nobody else. */
  function RunStages(w: World, stages: seq<SimpleCommand>, st: St, stdin: string): Run
    decreases stages, 1
  {
    if stages == [] then Run(Ok(0), st, [])
    else
      var run := RunSimple(w, stages[0], st, stdin);
      var log := StageLog(run.log, |stages| == 1);
      match run.code
      case Err(e) => Run(Err(e), run.st, log)
      case Ok(code) =>
        if |stages| == 1 then Run(Ok(code), WithLast(run.st, code), log)
        else
          var rest := RunStages(w, stages[1..], WithLast(run.st, code), Onto(run.log, true, false));
          Run(rest.code, rest.st, log + rest.log)
  }

  /** What a stage leaves on the pipeline's own descriptors. */
  function StageLog(log: Log, isLast: bool): Log {
    if isLast then log else OnlyErr(log)
  }

  function OnlyErr(log: Log): Log {
    if log == [] then [] else (if log[0].ToErr? then [log[0]] else []) + OnlyErr(log[1..])
  }

  function RunPipeline(w: World, p: Pipeline, st: St, stdin: string): Run
    decreases p, 2
  {
    var run := RunStages(w, p.commands, st, stdin);
    match run.code
    case Err(_) => run
    case Ok(code) => if p.negated then run.(code := Ok(if code == 0 then 1 else 0)) else run
  }

  function RunCommand(w: World, c: Command, st: St, stdin: string): Run
    decreases c, 3
  {
    match c
    case Simple(sc) => RunSimple(w, sc, st, stdin)
    case Pipe(p) => RunPipeline(w, p, st, stdin)
    case And(left, right) => Then(w, RunCommand(w, left, st, stdin), right, true, stdin)
    case Or(left, right) => Then(w, RunCommand(w, left, st, stdin), right, false, stdin)
    case Sequence(cmds) => RunScript(w, cmds, st, stdin)
    case Background(b) => RunCommand(w, b, st, stdin)
    case Subshell(body) =>
      var run := RunScript(w, body, st, stdin);
      if run.code.Err? then run else run.(st := run.st.(env := st.env, cwd := st.cwd))
    case Group(body) => RunScript(w, body, st, stdin)
  }

  /** The right-hand side of `&&` or `||`, behind the run of the left. */
  function Then(w: World, left: Run, right: Command, onSuccess: bool, stdin: string): Run
    decreases right, 4
  {
    match left.code
    case Err(_) => left
    case Ok(code) =>
      var st := WithLast(left.st, code);
      if (code == 0) == onSuccess then
        var run := RunCommand(w, right, st, stdin);
        Run(run.code, run.st, left.log + run.log)
      else Run(Ok(code), st, left.log)
  }

  function RunScript(w: World, cmds: seq<Command>, st: St, stdin: string): Run
    decreases cmds, 1
  {
    RunFrom(w, cmds, 0, st, stdin)
  }

  /** The rest of a script, behind a command that ended with `code`. */
  function RunFrom(w: World, cmds: seq<Command>, code: int, st: St, stdin: string): Run
    decreases cmds, 0
  {
    if cmds == [] then Run(Ok(code), st, [])
    else
      var run := RunCommand(w, cmds[0], st, stdin);
      match run.code
      case Err(_) => run
      case Ok(c) =>
        var rest := RunFrom(w, cmds[1..], c, WithLast(run.st, c), stdin);
        Run(rest.code, rest.st, run.log + rest.log)
  }

  // ---------------------------------------------------------------- whole programs

  /** The heredoc bodies that a parse leaves waiting for the next one: none when it succeeds. */
  function QueueAfter(src: string, queue: seq<ParseSpec.QueueItem>): seq<ParseSpec.QueueItem> {
    match ParseSpec.Parse(src, ParseSpec.Free(queue))
    case Good(_, _) => []
    case Bad(_, c) => c.items
  }

  /** What the shell is asked to do with a text: parse it with the bodies that are waiting, run it
      from its current state, and report the status, also when the script asked to exit. */
  function Exec(w: World, src: string, st: St, stdin: string, queue: seq<ParseSpec.QueueItem>): Run {
    match ParseSpec.Parse(src, ParseSpec.Free(queue))
    case Bad(Syntax(e), _) => Run(Err(ParseFailure(e)), st, [])
    case Bad(Aborted, _) => Run(Err(Panicked), st, [])
    case Good(script, _) =>
      var run := RunScript(w, script, st, stdin);
      match run.code
      case Ok(code) => run.(st := WithLast(run.st, code))
      case Err(Exit(n)) => Run(Ok(n), WithLast(run.st, n), run.log)
      case Err(_) => run
  }
}
