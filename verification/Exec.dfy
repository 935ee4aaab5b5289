/** The executor over shared output buffers: the shell object, input cursors, append-only buffers
    held by several handles, and files written when a command has finished. Every method is proved
    to do what `Sem` says, to append exactly the writes of that run to the buffers it was given, and
    to touch no other buffer. */
module Exec {
  import opened Ast
  import opened Sem
  import opened Decimal
  import P = Paths
  import T = VfsTree
  import V = VfsOps
  import M = Mounts
  import A = Arith
  import AV = ArithVars
  import ParseSpec
  import ParserObject

  // ---------------------------------------------------------------- buffers

  /** An append-only buffer; every handle to it is this object. */
  class VecWriter {
    var data: string

    constructor ()
      ensures data == ""
    {
      data := "";
    }

    method WriteAll(s: string)
      modifies this
      ensures data == old(data) + s
    {
      data := data + s;
    }
  }

  /** A cursor over bytes that never change. */
  class BytesReader {
    const bytes: string
    var pos: nat

    function Rest(): string
      reads this
    {
      if pos <= |bytes| then bytes[pos..] else ""
    }

    constructor (bytes: string)
      ensures Rest() == bytes && this.bytes == bytes && pos == 0
    {
      this.bytes := bytes;
      pos := 0;
    }

    /** A second cursor at the same place. */
    method Fork() returns (r: BytesReader)
      ensures fresh(r) && r.Rest() == Rest()
    {
      r := new BytesReader(bytes);
      r.pos := pos;
    }

    method ReadToEnd() returns (s: string)
      modifies this
      ensures s == old(Rest()) && Rest() == ""
    {
      s := Rest();
      pos := if pos <= |bytes| then |bytes| else pos;
    }
  }

  datatype Io = Io(stdin: BytesReader, stdout: VecWriter, stderr: VecWriter) {
    /** The same buffers, and a cursor of its own. */
    method Share() returns (r: Io)
      ensures fresh(r.stdin) && r.stdin.Rest() == stdin.Rest()
      ensures r.stdout == stdout && r.stderr == stderr
    {
      var fork := stdin.Fork();
      return Io(fork, stdout, stderr);
    }

    /** The buffers hold what they held before and, after it, these writes. */
    ghost predicate Shows(out: string, err: string, log: Log)
      reads stdout, stderr
    {
      && stdout.data == out + Onto(log, true, stdout == stderr)
      && stderr.data == err + Onto(log, stdout == stderr, true)
    }
  }

  lemma {:induction false} OntoConcat(a: Log, b: Log, out: bool, err: bool)
    ensures Onto(a + b, out, err) == Onto(a, out, err) + Onto(b, out, err)
  {
    if a == [] {
      assert a + b == b;
    } else {
      assert (a + b)[1..] == a[1..] + b;
      OntoConcat(a[1..], b, out, err);
    }
  }

  lemma {:induction false} OntoNeither(log: Log)
    ensures Onto(log, false, false) == ""
  {
    if log != [] { OntoNeither(log[1..]); }
  }

  lemma NothingShown(s: string, log: Log)
    ensures forall out, err :: s + Onto([], out, err) == s
    ensures log + [] == log
  {
  }

  lemma MoreShown(out: string, err: string, log: Log, more: Log, same: bool)
    ensures out + Onto(log + more, true, same) == out + Onto(log, true, same) + Onto(more, true, same)
    ensures err + Onto(log + more, same, true) == err + Onto(log, same, true) + Onto(more, same, true)
  {
    OntoConcat(log, more, true, same);
    OntoConcat(log, more, same, true);
  }

  // ---------------------------------------------------------------- the shell

  class Shell {
    var env: Env
    var cwd: string
    var aliases: map<string, string>
    var lastExit: int
    var host: int
    const fs: V.Vfs
    const world: World

    ghost predicate Valid()
      reads this, fs
    {
      fs.Valid()
    }

    ghost function State(): St
      requires Valid()
      reads this, fs
    {
      St(env, cwd, aliases, lastExit, fs.root, fs.mounts, host)
    }

    /** What a program may see of the shell. */
    method Snapshot() returns (st: St)
      requires Valid()
      ensures st == State()
    {
      st := St(env, cwd, aliases, lastExit, fs.root, fs.mounts, host);
    }

    constructor (fs: V.Vfs, world: World)
      requires fs.Valid()
      ensures Valid() && this.fs == fs && this.world == world
      ensures State() == St(map["PATH" := "/usr/bin:/bin:/usr/local/bin", "HOME" := "/home", "TMPDIR" := "/tmp"],
                            "/", map[], 0, fs.root, fs.mounts, 0)
    {
      env := map["PATH" := "/usr/bin:/bin:/usr/local/bin", "HOME" := "/home", "TMPDIR" := "/tmp"];
      cwd := "/";
      aliases := map[];
      lastExit := 0;
      host := 0;
      this.fs := fs;
      this.world := world;
    }

    // -------------------------------------------------------------- files

    method ReadFile(path: string) returns (r: T.Result<string>)
      requires Valid()
      modifies this`host
      ensures Valid() && (r, State()) == Sem.ReadFile(world, old(State()), path)
    {
      var reply := fs.ReadFile(path);
      match reply {
        case Local(v) => return v;
        case Delegated(point, rel) =>
          r, host := world.mountRead(point, rel, host).0, world.mountRead(point, rel, host).1;
      }
    }

    method WriteFile(path: string, data: string) returns (r: T.Result<()>)
      requires Valid()
      modifies this`host, fs
      ensures Valid() && (r, State()) == Sem.WriteFile(world, old(State()), path, data)
    {
      var reply := fs.WriteFile(path, data);
      match reply {
        case Local(v) => return v;
        case Delegated(point, rel) =>
          r, host := world.mountWrite(point, rel, data, host).0, world.mountWrite(point, rel, data, host).1;
      }
    }

    method Stat(path: string) returns (there: bool)
      requires Valid()
      modifies this`host
      ensures Valid() && (there, State()) == Sem.Exists(world, old(State()), path)
    {
      var reply := fs.StatPath(path);
      match reply {
        case Local(v) => return v.Ok?;
        case Delegated(point, rel) =>
          there, host := world.mountStat(point, rel, host).0, world.mountStat(point, rel, host).1;
      }
    }
  }

  /** A result together with the state it leaves. */
  function Ended<T>(r: Result<T>, st: St): Ev<T> {
    match r
    case Ok(v) => Val(v, st)
    case Err(e) => Fail(e, st)
  }

  // ---------------------------------------------------------------- expansion

  method EvalArith(shell: Shell, expr: string) returns (r: Result<string>)
    requires shell.Valid()
    ensures Ended(r, shell.State()) == OfArith(AV.EvalArith(shell.world.profile, expr, shell.env), shell.State())
  {
    var text := AV.ExpandArithVars(expr, shell.env);
    var v := A.ParseArith(shell.world.profile, ParseSpec.Trim(text));
    match v {
      case Ok(n) => return Ok(IntText(n));
      case Err(e) => return Err(ArithFailure(e));
      case Panic => return Err(Panicked);
    }
  }

  method ExpandWord(shell: Shell, word: Word) returns (r: Result<string>)
    requires shell.Valid()
    modifies shell, shell.fs
    ensures shell.Valid()
    ensures Ended(r, shell.State()) == Sem.ExpandWord(shell.world, word, old(shell.State()))
    decreases word, 1
  {

    match word {
      case Literal(s) =>
        if s == "~" || "~/" <= s {
          return Ok((if "HOME" in shell.env then shell.env["HOME"] else "/") + s[1..]);
        }
        return Ok(s);
      case SingleQuoted(s) => return Ok(s);
      case DoubleQuoted(ps) => r := ExpandParts(shell, ps);
      case Variable(v) => r := ExpandVar(shell, v);
      case CommandSubst(script) => r := Capture(shell, script);
      case ArithSubst(expr) => r := EvalArith(shell, expr);
      case HeredocWord(hd) => r := ExpandHeredoc(shell, hd);
      case Concat(parts) =>
        r := ExpandConcat(shell, parts);
    }
  }

  method ExpandConcat(shell: Shell, parts: seq<Word>) returns (r: Result<string>)
    requires shell.Valid()
    modifies shell, shell.fs
    ensures shell.Valid()
    ensures Ended(r, shell.State()) == Sem.ExpandConcat(shell.world, parts, old(shell.State()))
    decreases parts, 0
  {
    var out := "";
    var i := 0;
    assert parts[0..] == parts;
    PrefixedLaws("", "", Sem.ExpandConcat(shell.world, parts, shell.State()));
    while i < |parts|
      invariant 0 <= i <= |parts| && shell.Valid()
      invariant Sem.ExpandConcat(shell.world, parts, old(shell.State())) ==
                Prefixed(out, Sem.ExpandConcat(shell.world, parts[i..], shell.State()))
    {
      assert parts[i..][1..] == parts[i + 1..];
      var piece := ExpandWord(shell, parts[i]);
      if piece.Err? { return piece; }
      PrefixedLaws(out, piece.value, Sem.ExpandConcat(shell.world, parts[i + 1..], shell.State()));
      out := out + piece.value;
      i := i + 1;
    }
    assert out + [] == out;
    return Ok(out);
  }

  /** Text put in front of what an expansion yields. */
  function Prefixed(s: string, ev: Ev<string>): Ev<string> {
    match ev
    case Val(t, st) => Val(s + t, st)
    case Fail(e, st) => Fail(e, st)
  }

  lemma PrefixedLaws(s: string, t: string, ev: Ev<string>)
    ensures Prefixed("", ev) == ev
    ensures Prefixed(s, Prefixed(t, ev)) == Prefixed(s + t, ev)
  {
    if ev.Val? {
      assert "" + ev.value == ev.value;
      assert s + (t + ev.value) == s + t + ev.value;
    }
  }

  method ExpandWords(shell: Shell, words: seq<Word>) returns (r: Result<seq<string>>)
    requires shell.Valid()
    modifies shell, shell.fs
    ensures shell.Valid()
    ensures Ended(r, shell.State()) == Sem.ExpandWords(shell.world, words, old(shell.State()))
    decreases words, 0
  {
    var out: seq<string> := [];
    var i := 0;
    assert words[0..] == words;
    ListedLaws([], [], Sem.ExpandWords(shell.world, words, shell.State()));
    while i < |words|
      invariant 0 <= i <= |words| && shell.Valid()
      invariant Sem.ExpandWords(shell.world, words, old(shell.State())) ==
                Listed(out, Sem.ExpandWords(shell.world, words[i..], shell.State()))
    {
      assert words[i..][1..] == words[i + 1..];
      var one := ExpandWord(shell, words[i]);
      if one.Err? { return Err(one.error); }
      ListedLaws(out, [one.value], Sem.ExpandWords(shell.world, words[i + 1..], shell.State()));
      out := out + [one.value];
      i := i + 1;
    }
    assert out + [] == out;
    return Ok(out);
  }

  function Listed(s: seq<string>, ev: Ev<seq<string>>): Ev<seq<string>> {
    match ev
    case Val(t, st) => Val(s + t, st)
    case Fail(e, st) => Fail(e, st)
  }

  lemma ListedLaws(s: seq<string>, t: seq<string>, ev: Ev<seq<string>>)
    ensures Listed([], ev) == ev
    ensures Listed(s, Listed(t, ev)) == Listed(s + t, ev)
  {
    if ev.Val? {
      assert [] + ev.value == ev.value;
      assert s + (t + ev.value) == s + t + ev.value;
    }
  }

  method ExpandPart(shell: Shell, part: DQPart) returns (r: Result<string>)
    requires shell.Valid()
    modifies shell, shell.fs
    ensures shell.Valid()
    ensures Ended(r, shell.State()) == Sem.ExpandPart(shell.world, part, old(shell.State()))
    decreases part, 0
  {
    match part {
      case DQLiteral(s) => return Ok(s);
      case DQVariable(v) => r := ExpandVar(shell, v);
      case DQCommandSubst(script) => r := Capture(shell, script);
      case DQArithSubst(expr) => r := EvalArith(shell, expr);
    }
  }

  method ExpandParts(shell: Shell, parts: seq<DQPart>) returns (r: Result<string>)
    requires shell.Valid()
    modifies shell, shell.fs
    ensures shell.Valid()
    ensures Ended(r, shell.State()) == Sem.ExpandParts(shell.world, parts, old(shell.State()))
    decreases parts, 0
  {
    var out := "";
    var i := 0;
    assert parts[0..] == parts;
    PrefixedLaws("", "", Sem.ExpandParts(shell.world, parts, shell.State()));
    while i < |parts|
      invariant 0 <= i <= |parts| && shell.Valid()
      invariant Sem.ExpandParts(shell.world, parts, old(shell.State())) ==
                Prefixed(out, Sem.ExpandParts(shell.world, parts[i..], shell.State()))
    {
      assert parts[i..][1..] == parts[i + 1..];
      var piece := ExpandPart(shell, parts[i]);
      if piece.Err? { return piece; }
      PrefixedLaws(out, piece.value, Sem.ExpandParts(shell.world, parts[i + 1..], shell.State()));
      out := out + piece.value;
      i := i + 1;
    }
    assert out + [] == out;
    return Ok(out);
  }

  method ExpandVar(shell: Shell, v: VarExpr) returns (r: Result<string>)
    requires shell.Valid()
    modifies shell, shell.fs
    ensures shell.Valid()
    ensures Ended(r, shell.State()) == Sem.ExpandVar(shell.world, v, old(shell.State()))
    decreases v, 0
  {
    match v {
      case Named(name) => return Ok(Lookup(shell.env, name));
      case DefaultIfUnset(name, word) =>
        if Lookup(shell.env, name) != "" { return Ok(Lookup(shell.env, name)); }
        r := ExpandWord(shell, word);
      case AssignIfUnset(name, word) =>
        if Lookup(shell.env, name) != "" { return Ok(Lookup(shell.env, name)); }
        r := ExpandWord(shell, word);
        if r.Ok? { shell.env := shell.env[name := r.value]; }
      case AlternateIfSet(name, word) =>
        if Lookup(shell.env, name) == "" { return Ok(""); }
        r := ExpandWord(shell, word);
      case ErrorIfUnset(name, word) =>
        if Lookup(shell.env, name) != "" { return Ok(Lookup(shell.env, name)); }
        var why := ExpandWord(shell, word);
        if why.Err? { return why; }
        return Err(IoFailure(name + ": " + (if why.value == "" then "parameter null or not set" else why.value)));
      case Length(name) => return Ok(Show(|Lookup(shell.env, name)|));
      case Special(special) => return Ok(SpecialValue(special, shell.lastExit));
    }
  }

  method ExpandHeredoc(shell: Shell, hd: Heredoc) returns (r: Result<string>)
    requires shell.Valid()
    modifies shell, shell.fs
    ensures shell.Valid()
    ensures Ended(r, shell.State()) == Sem.ExpandHeredoc(shell.world, hd, old(shell.State()))
    decreases hd, 0
  {
    match hd.body {
      case LiteralBody(s) => return Ok(s);
      case PartsBody(parts) => r := ExpandParts(shell, parts);
    }
  }

  /** Runs a substitution with input and buffers of its own. */
  method Capture(shell: Shell, script: seq<Command>) returns (r: Result<string>)
    requires shell.Valid()
    modifies shell, shell.fs
    ensures shell.Valid()
    ensures Ended(r, shell.State()) == Sem.Capture(shell.world, script, old(shell.State()))
    decreases script, 2
  {
    var stdin := new BytesReader("");
    var stdout := new VecWriter();
    var stderr := new VecWriter();
    var code := ExecuteScript(shell, script, Io(stdin, stdout, stderr));
    if code.Err? { return Err(code.error); }
    ghost var text := Onto(RunScript(shell.world, script, old(shell.State()), "").log, true, false);
    assert stdout.data == "" + text == text;
    return Ok(TrimNewlines(stdout.data));
  }

  // ---------------------------------------------------------------- scripts and lists

  /** What every executing method promises: the run's status, state and writes. */
  ghost predicate Did(shell: Shell, io: Io, r: Result<int>, run: Run, out: string, err: string)
    reads shell, shell.fs, io.stdout, io.stderr
  {
    shell.Valid() && r == run.code && shell.State() == run.st && io.Shows(out, err, run.log)
  }

  method ExecuteScript(shell: Shell, script: seq<Command>, io: Io) returns (r: Result<int>)
    requires shell.Valid()
    modifies shell, shell.fs, io.stdin, io.stdout, io.stderr
    ensures Did(shell, io, r, RunScript(shell.world, script, old(shell.State()), old(io.stdin.Rest())),
                old(io.stdout.data), old(io.stderr.data))
    decreases script, 1
  {
    hide RunCommand;
    hide Onto;
    var code := 0;
    var i := 0;
    ghost var log: Log := [];
    ghost var in_ := io.stdin.Rest();
    assert script[0..] == script;
    NothingShown(io.stdout.data, log);
    NothingShown(io.stderr.data, log);
    while i < |script|
      invariant 0 <= i <= |script| && shell.Valid() && io.stdin.Rest() == in_
      invariant io.Shows(old(io.stdout.data), old(io.stderr.data), log)
      invariant RunScript(shell.world, script, old(shell.State()), in_) ==
                After(log, RunFrom(shell.world, script[i..], code, shell.State(), in_))
    {
      assert script[i..][1..] == script[i + 1..];
      var share := io.Share();
      ghost var st := shell.State();
      var one := ExecuteCommand(shell, script[i], share);
      ghost var run := RunCommand(shell.world, script[i], st, in_);
      MoreShown(old(io.stdout.data), old(io.stderr.data), log, run.log, io.stdout == io.stderr);
      log := log + run.log;
      if one.Err? { return one; }
      code := one.value;
      shell.lastExit := code;
      i := i + 1;
    }
    NothingShown("", log);
    return Ok(code);
  }

  /** A run behind earlier writes. */
  function After(log: Log, run: Run): Run {
    run.(log := log + run.log)
  }

  method ExecuteCommand(shell: Shell, cmd: Command, io: Io) returns (r: Result<int>)
    requires shell.Valid()
    modifies shell, shell.fs, io.stdin, io.stdout, io.stderr
    ensures Did(shell, io, r, RunCommand(shell.world, cmd, old(shell.State()), old(io.stdin.Rest())),
                old(io.stdout.data), old(io.stderr.data))
    decreases cmd, 3
  {
    hide RunSimple;
    hide RunPipeline;
    hide RunFrom;
    hide Onto;
    ghost var st0, in0 := shell.State(), io.stdin.Rest();
    match cmd {
      case Simple(sc) => r := ExecuteSimple(shell, sc, io);
      case Pipe(p) => r := ExecutePipeline(shell, p, io);
      case And(left, right) =>
        var share := io.Share();
        r := ExecuteCommand(shell, left, share);
        if r.Err? { return; }
        shell.lastExit := r.value;
        if r.value == 0 {
          ghost var log, st := RunCommand(shell.world, left, st0, in0).log, shell.State();
          r := ExecuteCommand(shell, right, io);
          MoreShown(old(io.stdout.data), old(io.stderr.data),
                    log, RunCommand(shell.world, right, st, in0).log, io.stdout == io.stderr);
        }
      case Or(left, right) =>
        var share := io.Share();
        r := ExecuteCommand(shell, left, share);
        if r.Err? { return; }
        shell.lastExit := r.value;
        if r.value != 0 {
          ghost var log, st := RunCommand(shell.world, left, st0, in0).log, shell.State();
          r := ExecuteCommand(shell, right, io);
          MoreShown(old(io.stdout.data), old(io.stderr.data),
                    log, RunCommand(shell.world, right, st, in0).log, io.stdout == io.stderr);
        }
      case Sequence(cmds) => r := ExecuteScript(shell, cmds, io);
      case Background(b) => r := ExecuteCommand(shell, b, io);
      case Subshell(body) =>
        var savedEnv, savedCwd := shell.env, shell.cwd;
        r := ExecuteScript(shell, body, io);
        if r.Err? { return; }
        shell.env, shell.cwd := savedEnv, savedCwd;
      case Group(body) => r := ExecuteScript(shell, body, io);
    }
  }

  // ---------------------------------------------------------------- pipelines

  lemma {:induction false} OntoOnlyErr(log: Log, out: bool, err: bool)
    ensures Onto(OnlyErr(log), out, err) == Onto(log, false, err)
  {
    if log != [] {
      OntoOnlyErr(log[1..], out, err);
      OntoConcat(if log[0].ToErr? then [log[0]] else [], OnlyErr(log[1..]), out, err);
    }
  }

  lemma StageShown(out: string, err: string, log: Log, same: bool)
    ensures out + Onto(OnlyErr(log), true, same) == out + Onto(log, false, same)
    ensures err + Onto(OnlyErr(log), same, true) == err + Onto(log, false, true)
    ensures out + Onto(log, false, false) == out
    ensures "" + Onto(log, true, false) == Onto(log, true, false)
  {
    OntoOnlyErr(log, true, same);
    OntoOnlyErr(log, same, true);
    OntoNeither(log);
  }

  lemma NextStage(w: World, stages: seq<SimpleCommand>, i: nat, st: St, stdin: string, log: Log)
    requires i < |stages|
    ensures var run := RunSimple(w, stages[i], st, stdin);
            var more := StageLog(run.log, i == |stages| - 1);
            After(log, RunStages(w, stages[i..], st, stdin)) ==
            match run.code
            case Err(e) => Run(Err(e), run.st, log + more)
            case Ok(code) =>
              if i == |stages| - 1 then Run(Ok(code), WithLast(run.st, code), log + more)
              else After(log + more, RunStages(w, stages[i + 1..], WithLast(run.st, code), Onto(run.log, true, false)))
  {
    hide RunSimple;
    hide Onto;
    assert stages[i..][1..] == stages[i + 1..];
  }

  lemma NoStages(w: World, st: St, stdin: string)
    ensures RunStages(w, [], st, stdin) == Run(Ok(0), st, [])
  {
  }

  method ExecutePipeline(shell: Shell, p: Pipeline, io: Io) returns (r: Result<int>)
    requires shell.Valid()
    modifies shell, shell.fs, io.stdin, io.stdout, io.stderr
    ensures Did(shell, io, r, RunPipeline(shell.world, p, old(shell.State()), old(io.stdin.Rest())),
                old(io.stdout.data), old(io.stderr.data))
    decreases p, 2
  {
    hide RunSimple;
    hide Onto;
    hide StageLog;
    hide RunStages;
    var stages := p.commands;
    var stdin := io.stdin;
    var code := 0;
    var i := 0;
    ghost var log: Log := [];
    ghost var st0, in0 := shell.State(), io.stdin.Rest();
    assert stages[0..] == stages;
    NoStages(shell.world, st0, in0);
    NothingShown(io.stdout.data, log);
    NothingShown(io.stderr.data, log);
    while i < |stages|
      invariant 0 <= i <= |stages| && shell.Valid()
      invariant stdin == io.stdin || fresh(stdin)
      invariant io.Shows(old(io.stdout.data), old(io.stderr.data), log)
      invariant i < |stages| ==>
        RunStages(shell.world, stages, st0, in0) ==
        After(log, RunStages(shell.world, stages[i..], shell.State(), stdin.Rest()))
      invariant i == |stages| ==>
        RunStages(shell.world, stages, st0, in0) == Run(Ok(code), shell.State(), log)
    {
      ghost var st, in_ := shell.State(), stdin.Rest();
      NextStage(shell.world, stages, i, st, in_, log);
      ghost var run := RunSimple(shell.world, stages[i], st, in_);
      var isLast := i == |stages| - 1;
      MoreShown(old(io.stdout.data), old(io.stderr.data), log, StageLog(run.log, isLast), io.stdout == io.stderr);
      var one, next := ExecuteStage(shell, stages[i], stdin, io, isLast);
      log := log + StageLog(run.log, isLast);
      if one.Err? { return one; }
      code := one.value;
      shell.lastExit := code;
      stdin := next;
      i := i + 1;
    }
    if p.negated { code := if code == 0 then 1 else 0; }
    return Ok(code);
  }

  /** One stage: the last writes to the pipeline's output, any other to a buffer that becomes the
      input of the next. */
  method ExecuteStage(shell: Shell, stage: SimpleCommand, stdin: BytesReader, io: Io, isLast: bool)
      returns (r: Result<int>, next: BytesReader)
    requires shell.Valid()
    modifies shell, shell.fs, stdin, io.stdout, io.stderr
    ensures var run := RunSimple(shell.world, stage, old(shell.State()), old(stdin.Rest()));
            && Did(shell, io, r, run.(log := StageLog(run.log, isLast)), old(io.stdout.data), old(io.stderr.data))
            && (!isLast && r.Ok? ==> fresh(next) && next.Rest() == Onto(run.log, true, false))
            && (isLast || r.Err? ==> next == stdin)
    decreases stage, 1
  {
    hide RunSimple;
    hide Onto;
    next := stdin;
    if isLast {
      r := ExecuteSimple(shell, stage, Io(stdin, io.stdout, io.stderr));
    } else {
      var stdout := new VecWriter();
      ghost var log := RunSimple(shell.world, stage, shell.State(), stdin.Rest()).log;
      StageShown(io.stdout.data, io.stderr.data, log, io.stdout == io.stderr);
      r := ExecuteSimple(shell, stage, Io(stdin, stdout, io.stderr));
      if r.Ok? { next := new BytesReader(stdout.data); }
    }
  }

  // ---------------------------------------------------------------- simple commands

  method ExecuteSimple(shell: Shell, sc: SimpleCommand, io: Io) returns (r: Result<int>)
    requires shell.Valid()
    modifies shell, shell.fs, io.stdin, io.stdout, io.stderr
    ensures Did(shell, io, r, RunSimple(shell.world, sc, old(shell.State()), old(io.stdin.Rest())),
                old(io.stdout.data), old(io.stderr.data))
    decreases sc, 0
  {
    hide Sem.ExpandWord;
    hide Sem.ExpandWords;
    hide AssignAll;
    hide RedirectAll;
    hide Sem.Dispatch;
    hide FlushAll;
    hide Onto;
    hide Inherited;
    hide RestoreAll;
    hide Unalias;
    NothingShown(io.stdout.data, []);
    NothingShown(io.stderr.data, []);
    var assigning := AssignVariables(shell, sc.assignments, sc.name.Some?);
    if assigning.Err? { return Err(assigning.error); }
    if sc.name.None? { return Ok(0); }
    var raw := ExpandWord(shell, sc.name.value);
    if raw.Err? { return Err(raw.error); }
    var argv := Unalias(shell.aliases, raw.value);
    var args := ExpandWords(shell, sc.args);
    if args.Err? { return Err(args.error); }
    argv := argv + args.value;
    var redirected, t := ApplyRedirections(shell, sc.redirects, io);
    if redirected.Err? { return Err(redirected.error); }
    var (inner, deferred) := redirected.value;
    ghost var st := shell.State();
    var code := DispatchInto(shell, argv, inner, io, t, deferred);
    ghost var run := Sem.Dispatch(shell.world, argv[0], argv, t.stdin, st);
    var flushed := Flush(shell, deferred, t, run.log);
    if flushed.Err? { return Err(flushed.error); }
    RestoreVariables(shell, assigning.value);
    return code;
  }

  /** Assigns from left to right; when the assignments are scoped to a command, notes what was
      there before. */
  method AssignVariables(shell: Shell, assignments: seq<Assignment>, scoped: bool) returns (r: Result<seq<Saved>>)
    requires shell.Valid()
    modifies shell, shell.fs
    ensures shell.Valid()
    ensures match AssignAll(shell.world, assignments, old(shell.State()))
            case Val(saved, st) => r == Ok(if scoped then saved else []) && shell.State() == st
            case Fail(e, st) => r == Err(e) && shell.State() == st
    decreases assignments, 0
  {
    var saved: seq<Saved> := [];
    ghost var all: seq<Saved> := [];
    var i := 0;
    assert assignments[0..] == assignments;
    NotedLaws([], [], AssignAll(shell.world, assignments, shell.State()));
    while i < |assignments|
      invariant 0 <= i <= |assignments| && shell.Valid()
      invariant saved == if scoped then all else []
      invariant AssignAll(shell.world, assignments, old(shell.State())) ==
                Noted(all, AssignAll(shell.world, assignments[i..], shell.State()))
    {
      assert assignments[i..][1..] == assignments[i + 1..];
      var a := assignments[i];
      var value := ExpandWord(shell, a.value);
      if value.Err? { return Err(value.error); }
      var note := Saved(a.name, Current(shell.env, a.name));
      shell.env := shell.env[a.name := value.value];
      NotedLaws(all, [note], AssignAll(shell.world, assignments[i + 1..], shell.State()));
      all := all + [note];
      if scoped { saved := saved + [note]; }
      i := i + 1;
    }
    assert all + [] == all;
    return Ok(saved);
  }

  function Noted(s: seq<Saved>, ev: Ev<seq<Saved>>): Ev<seq<Saved>> {
    match ev
    case Val(t, st) => Val(s + t, st)
    case Fail(e, st) => Fail(e, st)
  }

  lemma NotedLaws(s: seq<Saved>, t: seq<Saved>, ev: Ev<seq<Saved>>)
    ensures Noted([], ev) == ev
    ensures Noted(s, Noted(t, ev)) == Noted(s + t, ev)
  {
    if ev.Val? {
      assert [] + ev.value == ev.value;
      assert s + (t + ev.value) == s + t + ev.value;
    }
  }

  method RestoreVariables(shell: Shell, saved: seq<Saved>)
    modifies shell`env
    ensures shell.env == RestoreAll(old(shell.env), saved)
  {
    var i := 0;
    assert saved[0..] == saved;
    while i < |saved|
      invariant 0 <= i <= |saved|
      invariant RestoreAll(old(shell.env), saved) == RestoreAll(shell.env, saved[i..])
    {
      assert saved[i..][1..] == saved[i + 1..];
      match saved[i].old_ {
        case Some(v) => shell.env := shell.env[saved[i].name := v];
        case None => shell.env := shell.env - {saved[i].name};
      }
      i := i + 1;
    }
  }

  // ---------------------------------------------------------------- redirections

  /** A buffer that becomes a file when the command has finished. */
  datatype DeferredWrite = DeferredWrite(path: string, buf: VecWriter, append: bool)

  /** The buffer a sink stands for. */
  ghost function Handle(sink: Sink, base: Io, deferred: seq<DeferredWrite>): VecWriter
    requires sink.File? ==> sink.i < |deferred|
  {
    match sink
    case ParentOut => base.stdout
    case ParentErr => base.stderr
    case File(i) => deferred[i].buf
  }

  /** The handles realise the descriptor table: one empty buffer for each opened file, different
      from every other, and each descriptor on the buffer its sink names. */
  ghost predicate Realises(base: Io, t: Table, io: Io, deferred: seq<DeferredWrite>)
    reads io.stdin, set d <- deferred :: d.buf
  {
    && |deferred| == |t.files|
    && (t.out.File? ==> t.out.i < |deferred|) && (t.err.File? ==> t.err.i < |deferred|)
    && io.stdin.Rest() == t.stdin
    && io.stdout == Handle(t.out, base, deferred)
    && io.stderr == Handle(t.err, base, deferred)
    && (forall k :: 0 <= k < |deferred| ==>
          && deferred[k].path == t.files[k].path && deferred[k].append == t.files[k].append
          && deferred[k].buf.data == "" && deferred[k].buf != base.stdout && deferred[k].buf != base.stderr)
    && (forall j, k :: 0 <= j < k < |deferred| ==> deferred[j].buf != deferred[k].buf)
  }

  method ApplyRedirections(shell: Shell, redirects: seq<Redirect>, base: Io)
      returns (r: Result<(Io, seq<DeferredWrite>)>, ghost t: Table)
    requires shell.Valid()
    modifies shell, shell.fs
    ensures shell.Valid()
    ensures match RedirectAll(shell.world, redirects, old(shell.State()),
                              Table(ParentOut, ParentErr, old(base.stdin.Rest()), []))
            case Fail(e, st) => r == Err(e) && shell.State() == st
            case Val(table, st) =>
              && r.Ok? && table == t && shell.State() == st
              && Realises(base, t, r.value.0, r.value.1)
              && (r.value.0.stdin == base.stdin || fresh(r.value.0.stdin))
              && (forall d <- r.value.1 :: fresh(d.buf))
    decreases redirects, 0
  {
    var io := base;
    var deferred: seq<DeferredWrite> := [];
    var i := 0;
    t := Table(ParentOut, ParentErr, io.stdin.Rest(), []);
    assert redirects[0..] == redirects;
    while i < |redirects|
      invariant 0 <= i <= |redirects| && shell.Valid()
      invariant Realises(base, t, io, deferred)
      invariant io.stdin == base.stdin || fresh(io.stdin)
      invariant forall d <- deferred :: fresh(d.buf)
      invariant RedirectAll(shell.world, redirects, old(shell.State()), Table(ParentOut, ParentErr, old(base.stdin.Rest()), [])) ==
                RedirectAll(shell.world, redirects[i..], shell.State(), t)
    {
      assert redirects[i..][1..] == redirects[i + 1..];
      var one;
      one, t := ApplyRedirection(shell, redirects[i], base, io, deferred, t);
      if one.Err? { return one, t; }
      io, deferred := one.value.0, one.value.1;
      i := i + 1;
    }
    return Ok((io, deferred)), t;
  }

  method ApplyRedirection(shell: Shell, redir: Redirect, ghost base: Io, io: Io, deferred: seq<DeferredWrite>, ghost t: Table)
      returns (r: Result<(Io, seq<DeferredWrite>)>, ghost t': Table)
    requires shell.Valid() && Realises(base, t, io, deferred)
    modifies shell, shell.fs
    ensures shell.Valid()
    ensures match Redirected(shell.world, redir, old(shell.State()), t)
            case Fail(e, st) => r == Err(e) && shell.State() == st
            case Val(table, st) =>
              && r.Ok? && table == t' && shell.State() == st
              && Realises(base, t', r.value.0, r.value.1)
              && (r.value.0.stdin == io.stdin || fresh(r.value.0.stdin))
              && (forall d <- r.value.1 :: d in deferred || fresh(d.buf))
    decreases redir, 0
  {
    hide Sem.ExpandWord;
    hide Sem.ExpandHeredoc;
    hide Sem.ReadFile;
    hide Opened;
    hide P.Resolve;
    t' := t;
    var fd := if redir.fd.Some? then redir.fd.value else if redir.kind.Read? then 0 else 1;
    match redir.target {
      case ToWord(word) =>
        var expanded := ExpandWord(shell, word);
        if expanded.Err? { return Err(expanded.error), t; }
        var path := P.Resolve(shell.cwd, expanded.value);
        if redir.kind.Read? {
          var data := shell.ReadFile(path);
          if data.Err? { return Err(VfsFailure(data.error)), t; }
          var stdin := new BytesReader(data.value);
          return Ok((io.(stdin := stdin), deferred)), t.(stdin := data.value);
        }
        var io', more := Open(base, io, redir.kind, fd, path, deferred, t);
        return Ok((io', more)), Opened(t, redir.kind, fd, path);
      case ToHeredoc(hd) =>
        if !redir.kind.Read? { return Ok((io, deferred)), t; }
        var body := ExpandHeredoc(shell, hd);
        if body.Err? { return Err(body.error), t; }
        var stdin := new BytesReader(body.value);
        return Ok((io.(stdin := stdin), deferred)), t.(stdin := body.value);
      case ToFd(target) =>
        var io' := io;
        if fd == 2 && target == 1 {
          io' := io.(stderr := io.stdout);
        } else if fd == 1 && target == 2 {
          io' := io.(stdout := io.stderr);
        }
        return Ok((io', deferred)), Duplicated(t, fd, target);
      case CloseFd =>
        return Ok((io, deferred)), t;
    }
  }

  /** An empty buffer for a file, on the descriptors the redirection names. */
  method Open(ghost base: Io, io: Io, kind: RedirectKind, fd: nat, path: string,
              deferred: seq<DeferredWrite>, ghost t: Table)
      returns (r: Io, more: seq<DeferredWrite>)
    requires Realises(base, t, io, deferred)
    ensures Realises(base, Opened(t, kind, fd, path), r, more)
    ensures r.stdin == io.stdin && |more| == |deferred| + 1 && more[..|deferred|] == deferred
    ensures fresh(more[|deferred|].buf)
  {
    r := io;
    var buf := new VecWriter();
    more := deferred + [DeferredWrite(path, buf, kind.Append?)];
    if kind.ReadWrite? {
      r := r.(stdout := buf, stderr := buf);
    } else if fd == 1 {
      r := r.(stdout := buf);
    } else if fd == 2 {
      r := r.(stderr := buf);
    }
  }

  /** Which of the command's own buffers a sink leads to. */
  ghost predicate LeadsTo(sink: Sink, own: Sink, same: bool) {
    sink == own || (same && (sink == ParentOut || sink == ParentErr))
  }

  lemma {:induction false} InheritedOnto(t: Table, log: Log, same: bool)
    ensures Onto(Inherited(t, log), true, same) ==
            Onto(log, LeadsTo(t.out, ParentOut, same), LeadsTo(t.err, ParentOut, same))
    ensures Onto(Inherited(t, log), same, true) ==
            Onto(log, LeadsTo(t.out, ParentErr, same), LeadsTo(t.err, ParentErr, same))
  {
    if log != [] {
      InheritedOnto(t, log[1..], same);
      var first := InheritedOne(t, log[0]);
      OntoConcat(first, Inherited(t, log[1..]), true, same);
      OntoConcat(first, Inherited(t, log[1..]), same, true);
    }
  }

  /** Dispatches with the redirected handles: the command's own buffers receive what the table
      leaves to them, and each file's buffer what the table sends to that file. */
  method DispatchInto(shell: Shell, argv: seq<string>, inner: Io,
                      ghost base: Io, ghost t: Table, ghost deferred: seq<DeferredWrite>)
      returns (r: Result<int>)
    requires shell.Valid() && argv != [] && Realises(base, t, inner, deferred)
    modifies shell, shell.fs, inner.stdin, inner.stdout, inner.stderr
    ensures var run := Sem.Dispatch(shell.world, argv[0], argv, t.stdin, old(shell.State()));
            && Did(shell, base, r, run.(log := Inherited(t, run.log)), old(base.stdout.data), old(base.stderr.data))
            && (forall k :: 0 <= k < |deferred| ==> deferred[k].buf.data == Contents(t, run.log, k))
  {
    hide Sem.Dispatch;
    hide Onto;
    hide Inherited;
    ghost var run := Sem.Dispatch(shell.world, argv[0], argv, t.stdin, shell.State());
    r := Dispatch(shell, argv[0], argv, inner);
    InheritedOnto(t, run.log, base.stdout == base.stderr);
    OntoNeither(run.log);
  }

  /** Writes every file in the order in which they were opened. */
  method Flush(shell: Shell, deferred: seq<DeferredWrite>, ghost t: Table, ghost log: Log) returns (r: Result<()>)
    requires shell.Valid() && |deferred| == |t.files|
    requires forall k :: 0 <= k < |deferred| ==>
               && deferred[k].path == t.files[k].path && deferred[k].append == t.files[k].append
               && deferred[k].buf.data == Contents(t, log, k)
    modifies shell`host, shell.fs
    ensures shell.Valid() && Ended(r, shell.State()) == FlushAll(shell.world, t, log, 0, old(shell.State()))
  {
    var i := 0;
    while i < |deferred|
      invariant 0 <= i <= |deferred| && shell.Valid()
      invariant FlushAll(shell.world, t, log, 0, old(shell.State())) ==
                FlushAll(shell.world, t, log, i, shell.State())
    {
      var one := FlushOne(shell, deferred[i], t.files[i]);
      if one.Err? { return one; }
      i := i + 1;
    }
    return Ok(());
  }

  method FlushOne(shell: Shell, dw: DeferredWrite, ghost f: OpenFile) returns (r: Result<()>)
    requires shell.Valid() && f == OpenFile(dw.path, dw.append)
    modifies shell`host, shell.fs
    ensures shell.Valid() && Ended(r, shell.State()) == Sem.FlushOne(shell.world, f, dw.buf.data, old(shell.State()))
  {
    var existing := "";
    if dw.append {
      var before := shell.ReadFile(dw.path);
      if before.Ok? { existing := before.value; }
    }
    var written := shell.WriteFile(dw.path, existing + dw.buf.data);
    if written.Err? { return Err(VfsFailure(written.error)); }
    return Ok(());
  }

  // ---------------------------------------------------------------- dispatch

  /** Performs a program's writes on the handles it was given. */
  method Replay(io: Io, log: Log)
    modifies io.stdout, io.stderr
    ensures io.Shows(old(io.stdout.data), old(io.stderr.data), log)
  {
    var i := 0;
    assert log[..|log|] == log;
    while i < |log|
      invariant 0 <= i <= |log|
      invariant io.Shows(old(io.stdout.data), old(io.stderr.data), log[..i])
    {
      assert log[..i + 1] == log[..i] + [log[i]];
      match log[i] {
        case ToOut(data) => io.stdout.WriteAll(data);
        case ToErr(data) => io.stderr.WriteAll(data);
      }
      MoreShown(old(io.stdout.data), old(io.stderr.data), log[..i], [log[i]], io.stdout == io.stderr);
      i := i + 1;
    }
  }

  method Dispatch(shell: Shell, name: string, args: seq<string>, io: Io) returns (r: Result<int>)
    requires shell.Valid()
    modifies shell, shell.fs, io.stdin, io.stdout, io.stderr
    ensures Did(shell, io, r, Sem.Dispatch(shell.world, name, args, old(io.stdin.Rest()), old(shell.State())),
                old(io.stdout.data), old(io.stderr.data))
  {
    hide Onto;
    NothingShown(io.stdout.data, []);
    NothingShown(io.stderr.data, []);
    if name == "exit" { return Err(Exit(ExitArgument(args))); }
    var w := shell.world;
    if IsIntrinsic(name) {
      var share := io.Share();
      var text := share.stdin.ReadToEnd();
      var seen := shell.Snapshot();
      var a := w.intrinsic(Call(args, text, seen));
      shell.env, shell.cwd, shell.aliases, shell.lastExit := a.st.env, a.st.cwd, a.st.aliases, a.st.lastExit;
      shell.fs.root, shell.host := a.st.root, a.st.host;
      Replay(io, a.log);
      return a.code;
    }
    if w.resolve(name, PathVar(shell.env)) {
      var text := io.stdin.ReadToEnd();
      var seen := shell.Snapshot();
      var a := w.program(Call(args, text, seen));
      shell.fs.root, shell.host := a.st.root, a.st.host;
      Replay(io, a.log);
      if a.code.Err? { return a.code; }
      shell.env, shell.cwd, shell.aliases := a.st.env, a.st.cwd, a.st.aliases;
      return a.code;
    }
    if '/' in name {
      var there := shell.Stat(P.Resolve(shell.cwd, name));
      Replay(io, [ToErr("wasm_shell: " + name + (if there then ": Permission denied\n" else ": No such file or directory\n"))]);
      return Ok(126);
    }
    Replay(io, [ToErr(name + ": command not found\n")]);
    return Ok(127);
  }

  // ---------------------------------------------------------------- the shell's entry point

  /** Parses a text and runs it with buffers of its own. The queue of heredoc bodies is the thread's:
      it is there before the call and after it. */
  method Exec(shell: Shell, queue: ParserObject.HeredocQueue, src: string, stdin: string)
      returns (r: Result<int>, out: string, err: string)
    requires shell.Valid() && queue.cell.Free?
    modifies shell, shell.fs, queue
    ensures shell.Valid()
    ensures var run := Sem.Exec(shell.world, src, old(shell.State()), stdin, old(queue.cell.items));
            && r == run.code && shell.State() == run.st
            && out == Onto(run.log, true, false) && err == Onto(run.log, false, true)
    ensures queue.cell == ParseSpec.Free(QueueAfter(src, old(queue.cell.items)))
  {
    hide RunScript;
    hide Onto;
    hide ParseSpec.Parse;
    out, err := "", "";
    NothingShown("", []);
    ghost var st0 := shell.State();
    var parsed := ParserObject.ParseText(src, queue);
    match parsed {
      case Stop(Syntax(e)) => return Err(ParseFailure(e)), "", "";
      case Stop(Aborted) => return Err(Panicked), "", "";
      case Done(script) =>
        var input := new BytesReader(stdin);
        var stdout := new VecWriter();
        var stderr := new VecWriter();
        r := ExecuteScript(shell, script, Io(input, stdout, stderr));
        match r {
          case Ok(code) => shell.lastExit := code;
          case Err(Exit(n)) =>
            shell.lastExit := n;
            r := Ok(n);
          case Err(_) =>
        }
        ghost var log := RunScript(shell.world, script, st0, stdin).log;
        assert stdout.data == "" + Onto(log, true, false) && stderr.data == "" + Onto(log, false, true);
        return r, stdout.data, stderr.data;
    }
  }
}
