/** Laws of execution: and-or lists are linear, pipelines hand output on, redirected writes land in
    one place, assignments in front of a command are scoped, scripts compose. */
module ExecLaws {
  import opened Ast
  import opened Sem
  import Exec
  import Print
  import RoundTrip
  import ParseSpec

  // ---------------------------------------------------------------- and-or lists

  datatype Link = Link(onSuccess: bool, cmd: Command)

  /** The tree of `first op1 c1 op2 c2 ...`: both operators bind alike and lean to the left. */
  function Chain(first: Command, links: seq<Link>): Command
    decreases |links|
  {
    if links == [] then first
    else
      var front, last := links[..|links| - 1], links[|links| - 1];
      if last.onSuccess then And(Chain(first, front), last.cmd) else Or(Chain(first, front), last.cmd)
  }

  /** The linear machine: it holds the status of the last command that ran, and runs the next one
      exactly when that status is what its operator asks for. */
  function Scan(w: World, sofar: Run, links: seq<Link>, stdin: string): Run
    decreases |links|
  {
    if links == [] || sofar.code.Err? then sofar
    else
      var st := WithLast(sofar.st, sofar.code.value);
      if links[0].onSuccess == (sofar.code.value == 0) then
        var run := RunCommand(w, links[0].cmd, st, stdin);
        Scan(w, Run(run.code, run.st, sofar.log + run.log), links[1..], stdin)
      else Scan(w, sofar.(st := st), links[1..], stdin)
  }

  lemma {:induction false} ScanSnoc(w: World, sofar: Run, links: seq<Link>, l: Link, stdin: string)
    ensures Scan(w, sofar, links + [l], stdin) == Scan(w, Scan(w, sofar, links, stdin), [l], stdin)
    decreases |links|
  {
    hide RunCommand;
    if links != [] && sofar.code.Ok? {
      var st := WithLast(sofar.st, sofar.code.value);
      assert (links + [l])[1..] == links[1..] + [l];
      if links[0].onSuccess == (sofar.code.value == 0) {
        var run := RunCommand(w, links[0].cmd, st, stdin);
        ScanSnoc(w, Run(run.code, run.st, sofar.log + run.log), links[1..], l, stdin);
      } else {
        ScanSnoc(w, sofar.(st := st), links[1..], l, stdin);
      }
    } else if links == [] {
      assert links + [l] == [l];
    }
  }

  /** Running the tree is running the machine, for chains of any length and mix. */
  lemma {:induction false} AndOrListIsLinear(w: World, first: Command, links: seq<Link>, st: St, stdin: string)
    ensures RunCommand(w, Chain(first, links), st, stdin) == Scan(w, RunCommand(w, first, st, stdin), links, stdin)
    decreases |links|
  {
    if links != [] {
      var front, last := links[..|links| - 1], links[|links| - 1];
      var sofar := RunCommand(w, first, st, stdin);
      AndOrListIsLinear(w, first, front, st, stdin);
      assert links == front + [last];
      ScanSnoc(w, sofar, front, last, stdin);
      ThenIsAStep(w, Scan(w, sofar, front, stdin), last, stdin);
      ChainRuns(w, Chain(first, front), last, st, stdin);
    }
  }

  lemma ChainRuns(w: World, left: Command, last: Link, st: St, stdin: string)
    ensures RunCommand(w, if last.onSuccess then And(left, last.cmd) else Or(left, last.cmd), st, stdin) ==
            Then(w, RunCommand(w, left, st, stdin), last.cmd, last.onSuccess, stdin)
  {
    hide Then;
  }

  lemma ThenIsAStep(w: World, left: Run, l: Link, stdin: string)
    ensures Then(w, left, l.cmd, l.onSuccess, stdin) == Scan(w, left, [l], stdin)
  {
    hide RunCommand;
    if left.code.Ok? {
      var st := WithLast(left.st, left.code.value);
      assert Scan(w, left.(st := st), [], stdin) == left.(st := st);
      assert [l][1..] == [];
    }
  }

  /** The commands of a chain as the parser builds it. */
  function First(c: Command): Command {
    if c.And? || c.Or? then First(c.left) else c
  }

  function Links(c: Command): seq<Link> {
    if c.And? || c.Or? then Links(c.left) + [Link(c.And?, c.right)] else []
  }

  lemma {:induction false} ChainOfLinks(c: Command)
    ensures Chain(First(c), Links(c)) == c
  {
    if c.And? || c.Or? {
      ChainOfLinks(c.left);
      assert Links(c)[..|Links(c)| - 1] == Links(c.left);
    }
  }

  /** From text to machine: an and-or list that is printed, read back and executed runs as the scan
      over its commands. */
  lemma ListTextIsLinear(w: World, c: Command, st: St, stdin: string)
    requires Print.WfChain(c, false)
    ensures var run := Scan(w, RunCommand(w, First(c), st, stdin), Links(c), stdin);
            var whole := Sem.Exec(w, Print.PrintScript([c]), st, stdin, []);
            && whole.log == run.log
            && match run.code
               case Ok(code) => whole.code == Ok(code) && whole.st == WithLast(run.st, code)
               case Err(Exit(n)) => whole.code == Ok(n) && whole.st == WithLast(run.st, n)
               case Err(e) => whole.code == Err(e) && whole.st == run.st
  {
    hide RunCommand;
    hide Scan;
    hide ParseSpec.Parse;
    hide Print.PrintScript;
    assert Print.WfScript([c], false);
    RoundTrip.ParseInvertsPrint([c]);
    AndOrListIsLinear(w, First(c), Links(c), st, stdin);
    ChainOfLinks(c);
    LoneCommand(w, c, st, stdin);
  }

  lemma LoneCommand(w: World, c: Command, st: St, stdin: string)
    ensures var run := RunCommand(w, c, st, stdin);
            RunScript(w, [c], st, stdin) ==
            if run.code.Ok? then run.(st := WithLast(run.st, run.code.value)) else run
  {
    hide RunCommand;
    var run := RunCommand(w, c, st, stdin);
    assert [c][1..] == [];
    assert run.log + [] == run.log;
    if run.code.Ok? {
      assert RunFrom(w, [], run.code.value, WithLast(run.st, run.code.value), stdin) ==
             Run(run.code, WithLast(run.st, run.code.value), []);
    }
  }

  // ---------------------------------------------------------------- scripts

  lemma {:induction false} RunFromConcat(w: World, a: seq<Command>, b: seq<Command>, code: int, st: St, stdin: string)
    ensures var first := RunFrom(w, a, code, st, stdin);
            RunFrom(w, a + b, code, st, stdin) ==
            if first.code.Err? then first
            else Exec.After(first.log, RunFrom(w, b, first.code.value, first.st, stdin))
  {
    hide RunCommand;
    if a == [] {
      assert a + b == b;
      assert [] + RunFrom(w, b, code, st, stdin).log == RunFrom(w, b, code, st, stdin).log;
    } else {
      assert (a + b)[0] == a[0] && (a + b)[1..] == a[1..] + b;
      var run := RunCommand(w, a[0], st, stdin);
      if run.code.Ok? {
        var c, st1 := run.code.value, WithLast(run.st, run.code.value);
        RunFromConcat(w, a[1..], b, c, st1, stdin);
        var first := RunFrom(w, a[1..], c, st1, stdin);
        if first.code.Ok? {
          var rest := RunFrom(w, b, first.code.value, first.st, stdin);
          assert run.log + (first.log + rest.log) == (run.log + first.log) + rest.log;
        }
      }
    }
  }

  /** After a script that ran to its end, `$?` is its status. */
  lemma {:induction false} LastExitIsTheStatus(w: World, cmds: seq<Command>, code: int, st: St, stdin: string)
    ensures var run := RunFrom(w, cmds, code, st, stdin);
            run.code.Ok? && (cmds != [] || st.lastExit == code) ==> run.st.lastExit == run.code.value
  {
    hide RunCommand;
    if cmds != [] {
      var run := RunCommand(w, cmds[0], st, stdin);
      if run.code.Ok? { LastExitIsTheStatus(w, cmds[1..], run.code.value, WithLast(run.st, run.code.value), stdin); }
    }
  }

  /** Executing two printed scripts one after the other in one shell is executing them as one text:
      same status, same state, same output. (An empty second script would reset the status.) */
  lemma ScriptsCompose(w: World, a: seq<Command>, b: seq<Command>, st: St, stdin: string)
    requires Print.WfScript(a, false) && Print.WfScript(b, false) && a != [] && b != []
    requires RunScript(w, a, st, stdin).code.Ok?
    ensures var first := Sem.Exec(w, Print.PrintScript(a), st, stdin, []);
            var second := Sem.Exec(w, Print.PrintScript(b), first.st, stdin, QueueAfter(Print.PrintScript(a), []));
            Sem.Exec(w, Print.PrintScript(a + b), st, stdin, []) == Run(second.code, second.st, first.log + second.log)
  {
    hide RunFrom;
    hide ParseSpec.Parse;
    hide Print.PrintScript;
    hide Print.WfItem;
    assert Print.WfScript(a + b, false);
    RoundTrip.ParseInvertsPrint(a);
    RoundTrip.ParseInvertsPrint(b);
    RoundTrip.ParseInvertsPrint(a + b);
    RunFromConcat(w, a, b, 0, st, stdin);
    LastExitIsTheStatus(w, a, 0, st, stdin);
    var first := RunFrom(w, a, 0, st, stdin);
    StatusOfNonEmpty(w, b, first.code.value, 0, first.st, stdin);
  }

  lemma StatusOfNonEmpty(w: World, cmds: seq<Command>, c: int, d: int, st: St, stdin: string)
    requires cmds != []
    ensures RunFrom(w, cmds, c, st, stdin) == RunFrom(w, cmds, d, st, stdin)
  {
    hide RunCommand;
  }

  /** An empty script succeeds and resets the status. */
  lemma EmptyScriptSucceeds(w: World, st: St, stdin: string)
    ensures Sem.Exec(w, "", st, stdin, []) == Run(Ok(0), st.(lastExit := 0), [])
  {
    RoundTrip.ParseInvertsPrint([]);
    assert Print.PrintScript([]) == "";
  }

  // ---------------------------------------------------------------- printed scripts, executed

  /** How a run of a whole text ends: with its status as the last one, also when the script exits. */
  function Ended(run: Run): Run {
    match run.code
    case Ok(code) => run.(st := WithLast(run.st, code))
    case Err(Exit(n)) => Run(Ok(n), WithLast(run.st, n), run.log)
    case Err(_) => run
  }

  /** Executing a text from an empty queue is running the script it is parsed to. */
  lemma ParsedRuns(w: World, src: string, script: seq<Command>, st: St, stdin: string)
    requires ParseSpec.Parse(src, ParseSpec.Free([])) == ParseSpec.Good(script, ParseSpec.Free([]))
    ensures Sem.Exec(w, src, st, stdin, []) == Ended(RunScript(w, script, st, stdin))
  {
    hide RunScript;
    hide ParseSpec.Parse;
  }

  lemma PrintedRuns(w: World, script: seq<Command>, st: St, stdin: string)
    requires Print.WfScript(script, false)
    ensures Sem.Exec(w, Print.PrintScript(script), st, stdin, []) == Ended(RunScript(w, script, st, stdin))
  {
    hide RunScript;
    hide ParseSpec.Parse;
    hide Print.WfScript;
    hide Print.PrintScript;
    hide Sem.Exec;
    hide Ended;
    RoundTrip.ParseInvertsPrint(script);
    ParsedRuns(w, Print.PrintScript(script), script, st, stdin);
  }

  lemma FailingCommand(w: World, c: Command, st: St, stdin: string)
    requires RunCommand(w, c, st, stdin).code.Err?
    ensures RunScript(w, [c], st, stdin) == RunCommand(w, c, st, stdin)
  {
    hide RunCommand;
    LoneCommand(w, c, st, stdin);
  }

  /** A group, and a command sent to the background, runs as what is in it. */
  lemma GroupsAreTransparent(w: World, body: seq<Command>, st: St, stdin: string)
    requires Print.WfScript(body, false)
    ensures Sem.Exec(w, Print.PrintScript([Group(body)]), st, stdin, []) == Sem.Exec(w, Print.PrintScript(body), st, stdin, [])
  {
    hide RunScript;
    hide Print.PrintScript;
    hide Print.WfScript;
    GroupIsPrintable(body);
    PrintedRuns(w, body, st, stdin);
    PrintedRuns(w, [Group(body)], st, stdin);
    LoneCommand(w, Group(body), st, stdin);
    GroupRuns(w, body, st, stdin);
  }

  lemma GroupIsPrintable(body: seq<Command>)
    requires Print.WfScript(body, false)
    ensures Print.WfScript([Group(body)], false)
  {
    assert Print.WfPipe(Group(body), false) && Print.WfItem(Group(body), false);
  }

  lemma SequenceRuns(w: World, cmds: seq<Command>, st: St, stdin: string)
    ensures RunCommand(w, Sequence(cmds), st, stdin) == RunCommand(w, Group(cmds), st, stdin)
  {
  }

  lemma GroupRuns(w: World, body: seq<Command>, st: St, stdin: string)
    ensures RunCommand(w, Group(body), st, stdin) == RunScript(w, body, st, stdin)
  {
  }

  lemma BackgroundIsForeground(w: World, c: Command, st: St, stdin: string)
    requires Print.WfChain(c, false) && !c.Background?
    ensures Sem.Exec(w, Print.PrintScript([Background(c)]), st, stdin, []) == Sem.Exec(w, Print.PrintScript([c]), st, stdin, [])
  {
    hide RunCommand;
    hide RunScript;
    hide Print.PrintScript;
    hide Print.WfChain;
    assert Print.WfItem(c, false) && Print.WfItem(Background(c), false);
    PrintedRuns(w, [c], st, stdin);
    PrintedRuns(w, [Background(c)], st, stdin);
    LoneCommand(w, c, st, stdin);
    LoneCommand(w, Background(c), st, stdin);
    BackgroundRuns(w, c, st, stdin);
  }

  lemma BackgroundRuns(w: World, c: Command, st: St, stdin: string)
    ensures RunCommand(w, Background(c), st, stdin) == RunCommand(w, c, st, stdin)
  {
  }

  // ---------------------------------------------------------------- subshells

  /** A subshell gives its caller the old environment and directory back exactly when its body ran
      to its end, or had left them alone. */
  lemma SubshellRestoresExactlyWhen(w: World, body: seq<Command>, st: St, stdin: string)
    ensures var ran, after := RunScript(w, body, st, stdin), RunCommand(w, Subshell(body), st, stdin).st;
            && (after.env == st.env <==> ran.code.Ok? || ran.st.env == st.env)
            && (after.cwd == st.cwd <==> ran.code.Ok? || ran.st.cwd == st.cwd)
            && after.aliases == ran.st.aliases && after.lastExit == ran.st.lastExit
            && after.root == ran.st.root && after.host == ran.st.host
  {
    hide RunFrom;
  }

  // ---------------------------------------------------------------- pipelines

  /** The run of the n-th stage, fed by the stages before it. */
  function StageRun(w: World, stages: seq<SimpleCommand>, n: nat, st: St, stdin: string): Run
    requires n < |stages|
  {
    var run := RunSimple(w, stages[0], st, stdin);
    if n == 0 || run.code.Err? then run
    else StageRun(w, stages[1..], n - 1, WithLast(run.st, run.code.value), Onto(run.log, true, false))
  }

  /** What the first n stages write to descriptor 2. */
  function ErrorsOf(w: World, stages: seq<SimpleCommand>, n: nat, st: St, stdin: string): string
    requires n <= |stages|
  {
    if n == 0 then ""
    else ErrorsOf(w, stages, n - 1, st, stdin) + Onto(StageRun(w, stages, n - 1, st, stdin).log, false, true)
  }

  lemma FirstStage(w: World, stages: seq<SimpleCommand>, st: St, stdin: string)
    requires stages != []
    ensures StageRun(w, stages, 0, st, stdin) == RunSimple(w, stages[0], st, stdin)
  {
  }

  lemma LaterStage(w: World, stages: seq<SimpleCommand>, n: nat, st: St, stdin: string)
    requires 0 < n < |stages| && RunSimple(w, stages[0], st, stdin).code.Ok?
    ensures var run := RunSimple(w, stages[0], st, stdin);
            StageRun(w, stages, n, st, stdin) ==
            StageRun(w, stages[1..], n - 1, WithLast(run.st, run.code.value), Onto(run.log, true, false))
  {
    hide RunSimple;
    hide Onto;
  }

  lemma {:induction false} ErrorsOfTail(w: World, stages: seq<SimpleCommand>, n: nat, st: St, stdin: string)
    requires 0 < n <= |stages| && RunSimple(w, stages[0], st, stdin).code.Ok?
    ensures var run := RunSimple(w, stages[0], st, stdin);
            ErrorsOf(w, stages, n, st, stdin) ==
            Onto(run.log, false, true) +
            ErrorsOf(w, stages[1..], n - 1, WithLast(run.st, run.code.value), Onto(run.log, true, false))
  {
    hide RunSimple;
    hide Onto;
    var run := RunSimple(w, stages[0], st, stdin);
    var e := Onto(run.log, false, true);
    hide StageRun;
    var st1, text := WithLast(run.st, run.code.value), Onto(run.log, true, false);
    if n == 1 {
      assert ErrorsOf(w, stages, 0, st, stdin) == "";
      assert StageRun(w, stages, 0, st, stdin) == run by { FirstStage(w, stages, st, stdin); }
      assert "" + e == e && e + "" == e;
    } else {
      ErrorsOfTail(w, stages, n - 1, st, stdin);
      LaterStage(w, stages, n - 1, st, stdin);
      var last := Onto(StageRun(w, stages, n - 1, st, stdin).log, false, true);
      var front := ErrorsOf(w, stages[1..], n - 2, st1, text);
      assert (e + front) + last == e + (front + last);
    }
  }

  /** A pipeline that runs to its end shows exactly what its last stage writes to descriptor 1, and
      everything its stages write to descriptor 2, in order; its status is that of the last stage,
      turned around when it is negated. */
  lemma {:induction false} PipelineShowsItsLastStage(w: World, stages: seq<SimpleCommand>, st: St, stdin: string)
    requires stages != [] && RunStages(w, stages, st, stdin).code.Ok?
    ensures var run := RunStages(w, stages, st, stdin);
            var last := StageRun(w, stages, |stages| - 1, st, stdin);
            && last.code == run.code && run.st == WithLast(last.st, run.code.value)
            && Onto(run.log, true, false) == Onto(last.log, true, false)
            && Onto(run.log, false, true) == ErrorsOf(w, stages, |stages|, st, stdin)
    decreases |stages|
  {
    hide RunSimple;
    hide Onto;
    var run := RunSimple(w, stages[0], st, stdin);
    ErrorsOfTail(w, stages, |stages|, st, stdin);
    if |stages| == 1 {
      assert ErrorsOf(w, stages[1..], 0, WithLast(run.st, run.code.value), Onto(run.log, true, false)) == "";
    } else {
      var st1, text := WithLast(run.st, run.code.value), Onto(run.log, true, false);
      PipelineShowsItsLastStage(w, stages[1..], st1, text);
      var rest := RunStages(w, stages[1..], st1, text);
      Exec.OntoConcat(OnlyErr(run.log), rest.log, true, false);
      Exec.OntoConcat(OnlyErr(run.log), rest.log, false, true);
      Exec.OntoOnlyErr(run.log, true, false);
      Exec.OntoOnlyErr(run.log, false, true);
      Exec.OntoNeither(run.log);
    }
  }

  /** The status of a pipeline that runs to its end: that of its last stage, or 1 for 0 and 0 for
      anything else when it is negated. Nothing else depends on the negation. */
  lemma PipelineStatus(w: World, p: Pipeline, st: St, stdin: string)
    requires p.commands != []
    ensures var run, plain := RunPipeline(w, p, st, stdin), RunStages(w, p.commands, st, stdin);
            && run.st == plain.st && run.log == plain.log
            && (plain.code.Err? ==> run.code == plain.code)
            && (plain.code.Ok? ==>
                  && run.code.Ok?
                  && var last := StageRun(w, p.commands, |p.commands| - 1, st, stdin).code;
                     && last.Ok?
                     && (!p.negated ==> run.code == last)
                     && (p.negated && last.value == 0 ==> run.code.value == 1)
                     && (p.negated && last.value != 0 ==> run.code.value == 0))
  {
    hide RunStages;
    hide StageRun;
    if RunStages(w, p.commands, st, stdin).code.Ok? { PipelineShowsItsLastStage(w, p.commands, st, stdin); }
  }

  /** From text: `! command` runs as the command, and turns its status and the last status around. */
  lemma NegationFromText(w: World, sc: SimpleCommand, st: St, stdin: string)
    requires Print.WfSimple(sc, false) && RunSimple(w, sc, st, stdin).code.Ok?
    ensures var plain := Sem.Exec(w, Print.PrintScript([Simple(sc)]), st, stdin, []);
            var turned := Sem.Exec(w, Print.PrintScript([Pipe(Pipeline([sc], true))]), st, stdin, []);
            && plain.code.Ok? && plain.st.lastExit == plain.code.value
            && turned.log == plain.log
            && turned.code == (if plain.code.value == 0 then Ok(1) else Ok(0))
            && turned.st == plain.st.(lastExit := turned.code.value)
  {
    hide RunCommand;
    hide RunScript;
    hide RunSimple;
    hide Print.PrintScript;
    hide Print.WfSimple;
    hide RunPipeline;
    var p, run := Pipeline([sc], true), RunSimple(w, sc, st, stdin);
    assert Print.WfPipe(Simple(sc), false) && Print.WfPipe(Pipe(p), false);
    assert Print.WfChain(Simple(sc), false) && Print.WfChain(Pipe(p), false);
    assert Print.WfItem(Simple(sc), false) && Print.WfItem(Pipe(p), false);
    PrintedRuns(w, [Simple(sc)], st, stdin);
    PrintedRuns(w, [Pipe(p)], st, stdin);
    LoneCommand(w, Simple(sc), st, stdin);
    LoneCommand(w, Pipe(p), st, stdin);
    OneStage(w, sc, st, stdin);
    PipelineStatus(w, p, st, stdin);
    CommandRuns(w, sc, p, st, stdin);
  }

  lemma OneStage(w: World, sc: SimpleCommand, st: St, stdin: string)
    requires RunSimple(w, sc, st, stdin).code.Ok?
    ensures var run := RunSimple(w, sc, st, stdin);
            RunStages(w, [sc], st, stdin) == run.(st := WithLast(run.st, run.code.value))
    ensures StageRun(w, [sc], 0, st, stdin) == RunSimple(w, sc, st, stdin)
  {
    hide RunSimple;
  }

  lemma CommandRuns(w: World, sc: SimpleCommand, p: Pipeline, st: St, stdin: string)
    ensures RunCommand(w, Simple(sc), st, stdin) == RunSimple(w, sc, st, stdin)
    ensures RunCommand(w, Pipe(p), st, stdin) == RunPipeline(w, p, st, stdin)
  {
  }

  /** A pipeline in which a stage fails shows nothing on descriptor 1, unless it is the last. */
  lemma {:induction false} BrokenPipelineShowsNothing(w: World, stages: seq<SimpleCommand>, n: nat, st: St, stdin: string)
    requires n + 1 < |stages| && StageRun(w, stages, n, st, stdin).code.Err?
    ensures var run := RunStages(w, stages, st, stdin);
            run.code == StageRun(w, stages, n, st, stdin).code && Onto(run.log, true, false) == ""
    decreases |stages|
  {
    hide RunSimple;
    hide Onto;
    var run := RunSimple(w, stages[0], st, stdin);
    Exec.OntoOnlyErr(run.log, true, false);
    Exec.OntoNeither(run.log);
    if run.code.Ok? {
      var st1, text := WithLast(run.st, run.code.value), Onto(run.log, true, false);
      BrokenPipelineShowsNothing(w, stages[1..], n - 1, st1, text);
      Exec.OntoConcat(OnlyErr(run.log), RunStages(w, stages[1..], st1, text).log, true, false);
    }
  }
}
