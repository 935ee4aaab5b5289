/** From text to leak: commands whose assignments stay, and subshells that change their caller. */
module Leaks {
  import opened Ast
  import opened Sem
  import Decimal
  import Print
  import ParseSpec
  import RoundTrip
  import EndToEnd
  import ScopeLaws
  import ExecLaws
  import P = Paths
  import T = VfsTree
  import V = VfsOps
  import M = Mounts
  import A = Arith
  import AV = ArithVars

  // ---------------------------------------------------------------- an argument that does not expand

  const OneByZero := A.Bin(A.Div, A.Lit(1), A.Lit(0))

  /** `X=1 a $((1/0))` */
  const BadArgument := SimpleCommand([Assign("X", Literal("1"))], Some(Literal("a")), [ArithSubst("1/0")], [])

  lemma OneByZeroFails(p: A.Profile, env: Env)
    ensures AV.EvalArith(p, "1/0", env) == A.Err(A.DivisionByZero)
  {
    hide A.EvalText;
    hide A.Eval;
    hide A.Print;
    hide AV.ExpandVars;
    A.ArithmeticRoundTrip(p, OneByZero);
    PrintedQuotient();
    QuotientFails(p);
    hide ParseSpec.Trim;
    PlainQuotient(env);
  }

  lemma PlainQuotient(env: Env)
    ensures AV.ExpandVars("1/0", env) == "1/0" && ParseSpec.Trim("1/0") == "1/0"
  {
    AV.NothingToExpand("1/0", env);
    assert EndToEnd.Clean("1/0");
    EndToEnd.CleanTrims("1/0");
  }

  lemma QuotientFails(p: A.Profile)
    ensures A.Eval(p, OneByZero) == A.Err(A.DivisionByZero)
  {
    assert A.Eval(p, A.Lit(1)) == A.Ok(1) && A.Eval(p, A.Lit(0)) == A.Ok(0);
  }

  lemma PrintedQuotient()
    ensures A.Print(OneByZero) == "1/0"
  {
    var l, r := [A.Num(1)], [A.Num(0)];
    assert A.Yield(A.Parenthesize(OneByZero, A.LE)) == l + [A.Slash] + r == [A.Num(1), A.Slash, A.Num(0)];
    var ts := [A.Num(1), A.Slash, A.Num(0)];
    assert ts[1..] == [A.Slash, A.Num(0)] && ts[1..][1..] == [A.Num(0)] && ts[1..][1..][1..] == [];
    assert Decimal.Show(1) == "1" && Decimal.Show(0) == "0";
    assert A.Text([A.Num(0)]) == "0" && A.Text([A.Slash, A.Num(0)]) == "/0";
  }

  /** The command is not run, and `X` keeps the value it was given for the command alone. */
  lemma FailedArgumentLeaksTheAssignment(w: World, st: St)
    ensures Sem.Exec(w, Print.PrintScript([Simple(BadArgument)]), st, "", []) ==
            Run(Err(ArithFailure(A.DivisionByZero)), st.(env := st.env["X" := "1"]), [])
  {
    hide RunCommand;
    hide Print.PrintScript;
    hide RunScript;
    var script := [Simple(BadArgument)];
    BadArgumentIsPrintable();
    ExecLaws.PrintedRuns(w, script, st, "");
    BadArgumentFails(w, st);
    assert RunCommand(w, Simple(BadArgument), st, "") == RunSimple(w, BadArgument, st, "") by { RunsSimple(w, BadArgument, st); }
    ExecLaws.FailingCommand(w, Simple(BadArgument), st, "");
  }

  lemma RunsSimple(w: World, sc: SimpleCommand, st: St)
    ensures RunCommand(w, Simple(sc), st, "") == RunSimple(w, sc, st, "")
  {
  }

  lemma BadArgumentIsPrintable()
    ensures Print.WfScript([Simple(BadArgument)], false)
  {
    var c := Simple(BadArgument);
    assert Print.Depth("1/0", 0) == Some(0) by { assert "1/0"[1..] == "/0" && "/0"[1..] == "0" && "0"[1..] == ""; }
    assert Print.WfWord(ArithSubst("1/0"), false);
    assert Print.WfSimple(BadArgument, false);
    assert Print.WfPipe(c, false) && Print.WfItem(c, false);
  }

  lemma BadArgumentFails(w: World, st: St)
    ensures RunSimple(w, BadArgument, st, "") ==
            Run(Err(ArithFailure(A.DivisionByZero)), st.(env := st.env["X" := "1"]), [])
  {
    var s1 := st.(env := st.env["X" := "1"]);
    AssignsOne(w, st);
    OneByZeroFails(w.profile, s1.env);
    assert ExpandWord(w, Literal("a"), s1) == Val("a", s1);
    assert ExpandWord(w, ArithSubst("1/0"), s1) == Fail(ArithFailure(A.DivisionByZero), s1);
    assert ExpandWords(w, BadArgument.args, s1) == Fail(ArithFailure(A.DivisionByZero), s1);
  }

  lemma PlainLiteral(w: World, s: string, st: St)
    requires s != "" && s[0] != '~'
    ensures ExpandWord(w, Literal(s), st) == Val(s, st)
  {
  }

  lemma AssignsOne(w: World, st: St)
    ensures var ev := AssignAll(w, [Assign("X", Literal("1"))], st);
            ev.Val? && ev.st == st.(env := st.env["X" := "1"])
  {
    var as_ := [Assign("X", Literal("1"))];
    assert ExpandWord(w, Literal("1"), st) == Val("1", st);
    assert as_[1..] == [];
    assert AssignAll(w, [], st.(env := st.env["X" := "1"])) == Val([], st.(env := st.env["X" := "1"]));
  }

  // ---------------------------------------------------------------- a file that cannot be written

  /** `X=1 exit 3 >f` */
  function ExitInto(f: string): SimpleCommand {
    SimpleCommand([Assign("X", Literal("1"))], Some(Literal("exit")), [Literal("3")], [ScopeLaws.OutTo(Literal(f))])
  }

  /** When `f` cannot be written the shell does not exit, the status is the file's error, and `X`
      keeps the value it was given for the command alone. */
  lemma FailedFileLeaksTheAssignment(w: World, st: St, f: string)
    requires f != "" && f[0] == '/' && '\n' !in f && "exit" !in st.aliases
    requires M.Route(st.mounts, P.Normalize(P.Resolve(st.cwd, f))).None?
    requires V.WriteAt(st.root, P.Resolve(st.cwd, f), "").0.Err?
    ensures var run := Sem.Exec(w, Print.PrintScript([Simple(ExitInto(f))]), st, "", []);
            && run.code == Err(VfsFailure(V.WriteAt(st.root, P.Resolve(st.cwd, f), "").0.error))
            && run.st.env == st.env["X" := "1"] && run.log == []
  {
    hide RunCommand;
    hide Print.PrintScript;
    hide RunScript;
    hide RunSimple;
    var sc := ExitInto(f);
    ExitIntoIsPrintable(f);
    ExecLaws.PrintedRuns(w, [Simple(sc)], st, "");
    ExitIntoFails(w, st, f);
    RunsSimple(w, sc, st);
    ExecLaws.FailingCommand(w, Simple(sc), st, "");
  }

  lemma ExitIntoIsPrintable(f: string)
    requires f != "" && '\n' !in f
    ensures Print.WfScript([Simple(ExitInto(f))], false)
  {
    var sc := ExitInto(f);
    assert Print.WfWord(Literal("exit"), false) && Print.WfWord(Literal("3"), false) && Print.WfWord(Literal(f), false);
    assert Print.WfValue(Literal("1"), false);
    assert Print.WfRedirect(ScopeLaws.OutTo(Literal(f)), false);
    assert Print.WfSimple(sc, false);
    assert Print.WfPipe(Simple(sc), false) && Print.WfItem(Simple(sc), false);
  }

  lemma Three()
    ensures ParseI32("3") == Some(3)
  {
    assert Decimal.AllDigits("3") && Decimal.Value("3") == 3 by { assert "3"[..0] == ""; }
  }

  lemma ExitIntoFails(w: World, st: St, f: string)
    requires f != "" && f[0] == '/' && "exit" !in st.aliases
    requires M.Route(st.mounts, P.Normalize(P.Resolve(st.cwd, f))).None?
    requires V.WriteAt(st.root, P.Resolve(st.cwd, f), "").0.Err?
    ensures var run := RunSimple(w, ExitInto(f), st, "");
            && run.code == Err(VfsFailure(V.WriteAt(st.root, P.Resolve(st.cwd, f), "").0.error))
            && run.st.env == st.env["X" := "1"] && run.log == []
  {
    hide P.Resolve;
    hide P.Normalize;
    hide V.WriteAt;
    hide M.Route;
    var sc, s1 := ExitInto(f), st.(env := st.env["X" := "1"]);
    var path := P.Resolve(st.cwd, f);
    AssignsOne(w, st);
    PlainLiteral(w, "exit", s1);
    PlainLiteral(w, "3", s1);
    PlainLiteral(w, f, s1);
    assert sc.args[1..] == [] && ExpandWords(w, [], s1) == Val([], s1);
    assert ["3"] + [] == ["3"];
    assert ExpandWords(w, sc.args, s1) == Val(["3"], s1);
    var t0 := Table(ParentOut, ParentErr, "", []);
    var t := Table(File(0), ParentErr, "", [OpenFile(path, false)]);
    assert [] + [OpenFile(path, false)] == [OpenFile(path, false)];
    assert Redirected(w, sc.redirects[0], s1, t0) == Val(t, s1);
    assert sc.redirects[1..] == [] && RedirectAll(w, [], s1, t) == Val(t, s1);
    assert RedirectAll(w, sc.redirects, s1, t0) == Val(t, s1);
    Three();
    var argv := Unalias(s1.aliases, "exit") + ["3"];
    assert argv == ["exit", "3"];
    assert Dispatch(w, "exit", argv, "", s1) == Run(Err(Exit(3)), s1, []);
    assert Contents(t, [], 0) == "" && "" + "" == "";
    var saved := AssignAll(w, sc.assignments, st).value;
    LaunchFails(w, argv, t, saved, s1);
  }

  lemma LaunchFails(w: World, argv: seq<string>, t: Table, saved: seq<Saved>, st: St)
    requires argv != [] && |t.files| == 1 && !t.files[0].append
    requires Dispatch(w, argv[0], argv, t.stdin, st) == Run(Err(Exit(3)), st, [])
    requires M.Route(st.mounts, P.Normalize(t.files[0].path)).None?
    requires V.WriteAt(st.root, t.files[0].path, "").0.Err?
    ensures var run := Launch(w, argv, t, saved, st);
            && run.code == Err(VfsFailure(V.WriteAt(st.root, t.files[0].path, "").0.error))
            && run.st.env == st.env && run.log == []
  {
    hide Dispatch;
    hide V.WriteAt;
    hide M.Route;
    assert Contents(t, [], 0) == "" && "" + "" == "";
    assert Inherited(t, []) == [];
  }

  // ---------------------------------------------------------------- a subshell that exits

  const SetX := SimpleCommand([Assign("X", Literal("1"))], None, [], [])
  const Exit3 := SimpleCommand([], Some(Literal("exit")), [Literal("3")], [])

  /** `( X=1 ; exit 3 ; )` */
  const Leaky := Subshell([Simple(SetX), Simple(Exit3)])

  /** The status is 3, and the variable set inside is set outside. */
  lemma ExitingSubshellLeaks(w: World, st: St)
    requires "exit" !in st.aliases
    ensures Sem.Exec(w, Print.PrintScript([Leaky]), st, "", []) ==
            Run(Ok(3), st.(env := st.env["X" := "1"], lastExit := 3), [])
  {
    hide RunCommand;
    hide Print.PrintScript;
    hide RunScript;
    LeakyIsPrintable();
    ExecLaws.PrintedRuns(w, [Leaky], st, "");
    LeakyRuns(w, st);
    ExecLaws.FailingCommand(w, Leaky, st, "");
  }

  lemma LeakyIsPrintable()
    ensures Print.WfScript([Leaky], false)
  {
    assert Print.WfSimple(SetX, false) && Print.WfSimple(Exit3, false);
    assert Print.WfPipe(Simple(SetX), false) && Print.WfPipe(Simple(Exit3), false);
    assert Print.WfItem(Simple(SetX), false) && Print.WfItem(Simple(Exit3), false);
    assert Print.WfScript(Leaky.body, false);
    assert Print.WfPipe(Leaky, false) && Print.WfItem(Leaky, false);
  }

  lemma LeakyRuns(w: World, st: St)
    requires "exit" !in st.aliases
    ensures RunCommand(w, Leaky, st, "") == Run(Err(Exit(3)), st.(env := st.env["X" := "1"], lastExit := 0), [])
  {
    var s1 := st.(env := st.env["X" := "1"]);
    var s2 := WithLast(s1, 0);
    AssignsOne(w, st);
    assert RunSimple(w, SetX, st, "") == Run(Ok(0), s1, []);
    ExitRuns(w, s2);
    var cmds := Leaky.body;
    assert cmds[1..] == [Simple(Exit3)];
    assert RunFrom(w, [Simple(Exit3)], 0, s2, "") == Run(Err(Exit(3)), s2, []);
    assert RunFrom(w, cmds, 0, st, "") == Run(Err(Exit(3)), s2, []);
  }

  lemma ExitRuns(w: World, st: St)
    requires "exit" !in st.aliases
    ensures RunCommand(w, Simple(Exit3), st, "") == Run(Err(Exit(3)), st, [])
  {
    assert AssignAll(w, [], st) == Val([], st);
    PlainLiteral(w, "exit", st);
    PlainLiteral(w, "3", st);
    var args := Exit3.args;
    assert args[1..] == [] && ExpandWords(w, [], st) == Val([], st);
    assert ["3"] + [] == ["3"];
    assert ExpandWords(w, args, st) == Val(["3"], st);
    var t0 := Table(ParentOut, ParentErr, "", []);
    assert RedirectAll(w, [], st, t0) == Val(t0, st);
    Three();
    var argv := Unalias(st.aliases, "exit") + ["3"];
    assert argv == ["exit", "3"];
    assert Dispatch(w, "exit", argv, "", st) == Run(Err(Exit(3)), st, []);
    assert Inherited(t0, []) == [];
    assert FlushAll(w, t0, [], 0, st) == Val((), st);
    assert Launch(w, argv, t0, [], st).code == Err(Exit(3));
  }
}
