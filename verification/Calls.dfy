/** From text to program: with which arguments, input and state the text of a command calls its program,
    and what of its answer is seen. */
module Calls {
  import opened Ast
  import opened Sem
  import opened Values
  import LexSpec
  import Print
  import ParseSpec
  import RoundTrip
  import EndToEnd
  import ExecLaws
  import A = Arith

  // ---------------------------------------------------------------- a call

  /** Nothing else answers to the name, and it is found on the path that the environment names. */
  predicate IsProgram(w: World, name: string, aliases: map<string, string>, env: Env) {
    && name !in aliases && name !in {"exit", "source", ".", "xargs", "which", "type"}
    && w.resolve(name, if "PATH" in env then env["PATH"] else "/usr/bin:/bin:/usr/local/bin")
  }

  /** What the shell makes of a program's answer. A status is taken over and kept as the last one, with
      everything the program left but the mounts. A failure is the shell's own, and an exit ends it
      with that status; then only the filesystem and the outside are as the program left them. */
  function Seen(st: St, a: Answer): Run {
    match a.code
    case Ok(code) => Run(Ok(code), a.st.(mounts := st.mounts, lastExit := code), a.log)
    case Err(Exit(n)) => Run(Ok(n), st.(root := a.st.root, host := a.st.host, lastExit := n), a.log)
    case Err(e) => Run(Err(e), st.(root := a.st.root, host := a.st.host), a.log)
  }

  /** A name that is written as it stands. */
  predicate PlainName(name: string) {
    name != "" && name[0] != '~' && Print.WfWord(Literal(name), false)
  }

  function PlainCommand(name: string, args: seq<Word>): SimpleCommand {
    SimpleCommand([], Some(Literal(name)), args, [])
  }

  lemma NothingRedirected(w: World, t: Table, log: Log, st: St)
    requires t.out == ParentOut && t.err == ParentErr && t.files == []
    ensures Inherited(t, log) == log && FlushAll(w, t, log, 0, st) == Val((), st)
  {
    AllInherited(t, log);
  }

  lemma {:induction false} AllInherited(t: Table, log: Log)
    requires t.out == ParentOut && t.err == ParentErr
    ensures Inherited(t, log) == log
  {
    if log != [] {
      AllInherited(t, log[1..]);
      assert log == [log[0]] + log[1..];
    }
  }

  lemma CallRuns(w: World, name: string, args: seq<Word>, vals: seq<string>, st: St, s1: St, stdin: string)
    requires PlainName(name) && name !in st.aliases && ExpandWords(w, args, st) == Val(vals, s1)
    ensures RunSimple(w, PlainCommand(name, args), st, stdin) == Dispatch(w, name, [name] + vals, stdin, s1)
  {
    hide ExpandWords;
    hide Dispatch;
    hide Print.WfWord;
    var t := Table(ParentOut, ParentErr, stdin, []);
    assert AssignAll(w, [], st) == Val([], st);
    LiteralValue(w, name, st);
    assert RedirectAll(w, [], s1, t) == Val(t, s1);
    assert Unalias(st.aliases, name) == [name];
    var run := Dispatch(w, name, [name] + vals, stdin, s1);
    NothingRedirected(w, t, run.log, run.st);
    assert RestoreAll(run.st.env, []) == run.st.env;
  }

  lemma ProgramAnswers(w: World, name: string, argv: seq<string>, stdin: string, st: St, aliases: map<string, string>)
    requires IsProgram(w, name, aliases, st.env)
    ensures var a, run := w.program(Call(argv, stdin, st)), Dispatch(w, name, argv, stdin, st);
            && run.code == a.code && run.log == a.log
            && run.st == if a.code.Ok? then a.st.(mounts := st.mounts, lastExit := st.lastExit)
                         else st.(root := a.st.root, host := a.st.host)
  {
  }

  lemma CallIsPrintable(name: string, args: seq<Word>)
    requires PlainName(name) && forall x :: x in args ==> Print.WfWord(x, false)
    ensures Print.WfScript(EndToEnd.Call(name, args), false)
    ensures EndToEnd.Call(name, args) == [Simple(PlainCommand(name, args))]
  {
    EndToEnd.CallTokens(name, args);
  }

  /** The text of a command, executed: its program is called once, with its name and the values of its
      arguments, in the state their expansion left. */
  lemma CallFromText(w: World, name: string, args: seq<Word>, vals: seq<string>, st: St, s1: St, stdin: string)
    requires PlainName(name) && forall x :: x in args ==> Print.WfWord(x, false)
    requires ExpandWords(w, args, st) == Val(vals, s1) && IsProgram(w, name, st.aliases, s1.env)
    ensures Sem.Exec(w, Print.PrintScript(EndToEnd.Call(name, args)), st, stdin, []) ==
            Seen(s1, w.program(Call([name] + vals, stdin, s1)))
  {
    hide RunCommand;
    hide RunScript;
    hide Print.PrintScript;
    hide Print.WfWord;
    hide ExpandWords;
    hide Dispatch;
    hide PlainName;
    var script, c := EndToEnd.Call(name, args), Simple(PlainCommand(name, args));
    CallIsPrintable(name, args);
    ExecLaws.PrintedRuns(w, script, st, stdin);
    ExecLaws.LoneCommand(w, c, st, stdin);
    CallRuns(w, name, args, vals, st, s1, stdin);
    ProgramAnswers(w, name, [name] + vals, stdin, s1, st.aliases);
    RunsSimple(w, PlainCommand(name, args), st, stdin);
  }

  lemma RunsSimple(w: World, sc: SimpleCommand, st: St, stdin: string)
    ensures RunCommand(w, Simple(sc), st, stdin) == RunSimple(w, sc, st, stdin)
  {
  }

  // ---------------------------------------------------------------- arguments

  lemma {:induction false} TwoWords(w: World, a: Word, b: Word, st: St)
    requires ExpandWord(w, a, st).Val? && ExpandWord(w, a, st).st == st
    requires ExpandWord(w, b, st).Val? && ExpandWord(w, b, st).st == st
    ensures ExpandWords(w, [a, b], st) == Val([ExpandWord(w, a, st).value, ExpandWord(w, b, st).value], st)
  {
    hide ExpandWord;
    var x, y := ExpandWord(w, a, st).value, ExpandWord(w, b, st).value;
    assert [a, b][1..] == [b] && [b][1..] == [];
    assert ExpandWords(w, [], st) == Val([], st);
    assert [y] + [] == [y] && [x] + [y] == [x, y];
    assert ExpandWords(w, [b], st) == Val([y], st);
  }

  lemma OneWord(w: World, a: Word, st: St)
    requires ExpandWord(w, a, st).Val?
    ensures ExpandWords(w, [a], st) == Val([ExpandWord(w, a, st).value], ExpandWord(w, a, st).st)
  {
    hide ExpandWord;
    var ev := ExpandWord(w, a, st);
    assert [a][1..] == [] && [ev.value] + [] == [ev.value];
    assert ExpandWords(w, [], ev.st) == Val([], ev.st);
  }

  /** `X=v`, executed. */
  function Setting(x: string, v: string): seq<Command> {
    [Simple(SimpleCommand([Assign(x, Literal(v))], None, [], []))]
  }

  predicate PlainValue(v: string) {
    v != "" && v[0] != '~' && '\n' !in v
  }

  lemma SettingFromText(w: World, x: string, v: string, st: St, stdin: string)
    requires ParseSpec.IsValidName(x) && PlainValue(v)
    ensures Print.WfScript(Setting(x, v), false)
    ensures Sem.Exec(w, Print.PrintScript(Setting(x, v)), st, stdin, []) == Run(Ok(0), st.(env := st.env[x := v], lastExit := 0), [])
  {
    hide RunCommand;
    hide RunScript;
    hide Print.PrintScript;
    var as_ := [Assign(x, Literal(v))];
    var sc := SimpleCommand(as_, None, [], []);
    var s1 := st.(env := st.env[x := v]);
    SettingIsPrintable(x, v);
    ExecLaws.PrintedRuns(w, Setting(x, v), st, stdin);
    ExecLaws.LoneCommand(w, Simple(sc), st, stdin);
    LiteralValue(w, v, st);
    assert as_[1..] == [] && AssignAll(w, [], s1) == Val([], s1);
    assert AssignAll(w, as_, st).Val? && AssignAll(w, as_, st).st == s1;
    RunsSimple(w, sc, st, stdin);
  }

  lemma SettingIsPrintable(x: string, v: string)
    requires ParseSpec.IsValidName(x) && PlainValue(v)
    ensures Print.WfScript(Setting(x, v), false)
  {
    var c := Setting(x, v)[0];
    assert Print.WfValue(Literal(v), false);
    assert Print.WfSimple(c.sc, false);
    assert Print.WfPipe(c, false) && Print.WfItem(c, false);
  }

  /** `${X}` and `"a${X}b"`. */
  function Uses(x: string, a: string, b: string): seq<Word> {
    [Variable(Named(x)), DoubleQuoted([DQLiteral(a), DQVariable(Named(x)), DQLiteral(b)])]
  }

  lemma UsesArePrintable(x: string, a: string, b: string)
    requires ParseSpec.IsValidName(x) && a != "" && b != "" && (Print.IsGlued(b) || Print.IsBreak(b[0]))
    ensures forall u :: u in Uses(x, a, b) ==> Print.WfWord(u, false)
  {
    hide Print.IsGlued;
    var l, v, r := DQLiteral(a), DQVariable(Named(x)), DQLiteral(b);
    var ps, tail := [l, v, r], [v, r];
    assert ps[1..] == tail && tail[1..] == [r] && [r][1..] == [];
    var n := Print.TokenRun(tail, false);
    assert Print.TokenRun([], false) == 0;
    assert Print.TokenRun([r], true) == (if Print.IsGlued(b) then 1 else 0);
    assert n == 1 + Print.TokenRun([r], true);
    if Print.IsGlued(b) {
      assert tail[..2] == tail && tail[2..] == [];
      assert Print.WfRun([r], false);
      assert Print.WfRun(tail, false);
    } else {
      assert tail[..1] == [v] && [v][1..] == [] && tail[1..] == [r];
      assert Print.WfRun([v], false);
      assert Print.WfDq([r], false);
    }
    assert Print.WfDq(tail, false);
    assert Print.WfDq(ps, false);
  }

  lemma UsesExpand(w: World, x: string, a: string, b: string, st: St)
    requires x in st.env
    ensures ExpandWords(w, Uses(x, a, b), st) == Val([st.env[x], a + st.env[x] + b], st)
  {
    var v := st.env[x];
    VariableValue(w, x, st);
    var ps := [DQLiteral(a), DQVariable(Named(x)), DQLiteral(b)];
    assert ps[1..] == [ps[1], ps[2]] && ps[1..][1..] == [ps[2]] && [ps[2]][1..] == [];
    assert ExpandParts(w, [], st) == Val("", st) && b + "" == b;
    assert ExpandParts(w, [ps[2]], st) == Val(b, st);
    assert ExpandParts(w, ps[1..], st) == Val(v + b, st);
    assert a + (v + b) == a + v + b;
    assert ExpandParts(w, ps, st) == Val(a + v + b, st);
    TwoWords(w, Variable(Named(x)), DoubleQuoted(ps), st);
  }

  /** From text: after `X=v` has been executed, a command with the arguments `${X}` and `"a${X}b"` calls
      its program with v and with v between a and b. */
  lemma VariableReachesTheProgram(w: World, name: string, x: string, v: string, a: string, b: string, st: St, stdin: string)
    requires ParseSpec.IsValidName(x) && PlainValue(v) && PlainName(name)
    requires a != "" && b != "" && (Print.IsGlued(b) || Print.IsBreak(b[0]))
    requires IsProgram(w, name, st.aliases, st.env[x := v])
    ensures var s1 := Sem.Exec(w, Print.PrintScript(Setting(x, v)), st, stdin, []).st;
            && s1 == st.(env := st.env[x := v], lastExit := 0)
            && Sem.Exec(w, Print.PrintScript(EndToEnd.Call(name, Uses(x, a, b))), s1, stdin, []) ==
               Seen(s1, w.program(Call([name, v, a + v + b], stdin, s1)))
  {
    hide Sem.Exec;
    hide Print.PrintScript;
    hide Print.WfWord;
    hide IsProgram;
    hide PlainName;
    hide Print.IsGlued;
    SettingFromText(w, x, v, st, stdin);
    var s1 := st.(env := st.env[x := v], lastExit := 0);
    UsesArePrintable(x, a, b);
    UsesExpand(w, x, a, b, s1);
    CallFromText(w, name, Uses(x, a, b), [v, a + v + b], s1, s1, stdin);
    assert [name] + [v, a + v + b] == [name, v, a + v + b];
  }

  /** From text: every argument that was escaped and double-quoted reaches the program as it was. */
  lemma QuotedReachesTheProgram(w: World, name: string, ss: seq<string>, st: St, stdin: string)
    requires PlainName(name) && IsProgram(w, name, st.aliases, st.env)
    ensures Sem.Exec(w, Print.PrintScript(EndToEnd.Call(name, EndToEnd.QuoteAll(ss))), st, stdin, []) ==
            Seen(st, w.program(Call([name] + ss, stdin, st)))
  {
    hide Sem.Exec;
    hide Print.PrintScript;
    hide Print.WfWord;
    hide PlainName;
    EndToEnd.QuotedWords(ss);
    EndToEnd.QuotedExpands(w, ss, st);
    CallFromText(w, name, EndToEnd.QuoteAll(ss), ss, st, st, stdin);
  }

  lemma NumeralReachesTheProgram(w: World, name: string, t: string, v: A.i64, st: St, stdin: string)
    requires PlainName(name) && IsProgram(w, name, st.aliases, st.env)
    requires Print.IsBalanced(t) && ExpandWord(w, ArithSubst(t), st) == OfArith(A.Ok(v), st)
    ensures Sem.Exec(w, Print.PrintScript(EndToEnd.Call(name, [ArithSubst(t)])), st, stdin, []) ==
            Seen(st, w.program(Call([name, IntText(v)], stdin, st)))
  {
    hide Sem.Exec;
    hide Print.PrintScript;
    hide IsProgram;
    hide PlainName;
    hide IntText;
    hide ExpandWord;
    hide Print.IsBalanced;
    var word := ArithSubst(t);
    assert Print.WfWord(word, false);
    OneWord(w, word, st);
    CallFromText(w, name, [word], [IntText(v)], st, st, stdin);
    assert [name] + [IntText(v)] == [name, IntText(v)];
  }

  /** From text: an expression in any spacing reaches the program as the decimal numeral of its value. */
  lemma ArithmeticReachesTheProgram(w: World, name: string, e: A.Expr, gaps: seq<string>, st: St, stdin: string)
      returns (numeral: string)
    requires PlainName(name) && IsProgram(w, name, st.aliases, st.env)
    requires A.IsE(e) && A.Printable(A.Yield(e)) && A.WfGaps(A.Yield(e), gaps) && A.Eval(w.profile, e).Ok?
    ensures Denotes(numeral, A.Eval(w.profile, e).value)
    ensures Sem.Exec(w, Print.PrintScript(EndToEnd.Call(name, [ArithSubst(A.Spaced(A.Yield(e), gaps))])), st, stdin, []) ==
            Seen(st, w.program(Call([name, numeral], stdin, st)))
  {
    hide Sem.Exec;
    hide Print.PrintScript;
    hide A.Spaced;
    hide A.Eval;
    hide IsProgram;
    hide Denotes;
    hide Seen;
    hide ExpandWord;
    hide Print.IsBalanced;
    hide Print.WfWord;
    var t, v := A.Spaced(A.Yield(e), gaps), A.Eval(w.profile, e).value;
    numeral := IntText(v);
    IntTextDenotes(v);
    EndToEnd.SpacedArithmeticFromText(w, name, e, gaps, st);
    EndToEnd.DerivedIsBalanced(e, gaps);
    NumeralReachesTheProgram(w, name, t, v, st, stdin);
  }

  // ---------------------------------------------------------------- substitutions

  /** From text: `name $( inner )` first calls the inner program, with empty input, and then the outer one
      with what the inner wrote to descriptor 1, without the newlines at its end, in the state it
      left. */
  lemma SubstitutionReachesTheProgram(w: World, name: string, inner: string, vals: seq<string>, st: St, stdin: string)
      returns (value: string, n: nat)
    requires PlainName(name) && PlainName(inner) && Print.WfScript(EndToEnd.Call(inner, EndToEnd.QuoteAll(vals)), true)
    requires IsProgram(w, inner, st.aliases, st.env)
    requires var a := w.program(Call([inner] + vals, "", st)); a.code.Ok? && IsProgram(w, name, st.aliases, a.st.env)
    ensures var a := w.program(Call([inner] + vals, "", st));
            var s1 := a.st.(mounts := st.mounts, lastExit := a.code.value);
            && WithoutTail(value, OutputOf(a.log), n)
            && Sem.Exec(w, Print.PrintScript(EndToEnd.Call(name, [CommandSubst(EndToEnd.Call(inner, EndToEnd.QuoteAll(vals)))])), st, stdin, []) ==
               Seen(s1, w.program(Call([name, value], stdin, s1)))
  {
    hide Sem.Exec;
    hide Print.PrintScript;
    hide Print.WfScript;
    hide IsProgram;
    hide PlainName;
    hide RunScript;
    hide WithoutTail;
    var args := EndToEnd.QuoteAll(vals);
    var script := EndToEnd.Call(inner, args);
    var word := CommandSubst(script);
    var a := w.program(Call([inner] + vals, "", st));
    var s1 := a.st.(mounts := st.mounts, lastExit := a.code.value);
    InnerRuns(w, inner, vals, st);
    n := SubstitutionValue(w, script, st);
    value := ExpandWord(w, word, st).value;
    assert Print.WfWord(word, false);
    OneWord(w, word, st);
    CallFromText(w, name, [word], [value], st, s1, stdin);
    assert [name] + [value] == [name, value];
  }

  lemma InnerRuns(w: World, inner: string, vals: seq<string>, st: St)
    requires PlainName(inner) && IsProgram(w, inner, st.aliases, st.env)
    requires w.program(Call([inner] + vals, "", st)).code.Ok?
    ensures var a := w.program(Call([inner] + vals, "", st));
            RunScript(w, EndToEnd.Call(inner, EndToEnd.QuoteAll(vals)), st, "") ==
            Run(a.code, a.st.(mounts := st.mounts, lastExit := a.code.value), a.log)
  {
    hide RunCommand;
    hide RunScript;
    hide IsProgram;
    hide PlainName;
    hide Dispatch;
    var args := EndToEnd.QuoteAll(vals);
    var c := Simple(PlainCommand(inner, args));
    assert EndToEnd.Call(inner, args) == [c];
    EndToEnd.QuotedExpands(w, vals, st);
    assert inner !in st.aliases by { ProgramIsNoAlias(w, inner, st.aliases, st.env); }
    CallRuns(w, inner, args, vals, st, st, "");
    ProgramAnswers(w, inner, [inner] + vals, "", st, st.aliases);
    RunsSimple(w, PlainCommand(inner, args), st, "");
    ExecLaws.LoneCommand(w, c, st, "");
  }

  lemma ProgramIsNoAlias(w: World, name: string, aliases: map<string, string>, env: Env)
    requires IsProgram(w, name, aliases, env)
    ensures name !in aliases
  {
  }
}
